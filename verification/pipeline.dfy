/** The request pipeline of `fetch` as a function of its inputs: the
    registered callbacks, the outcome of the HTTP round trip and the answers
    of the call context. It is the specification the collector's `Fetch`
    method is proved against. */
module Pipeline {
  import opened Types
  import opened Text
  import opened Headers
  import opened Hooks

  /** A response as the pipeline sees it: the status, the headers, whether
      the charset conversion of the body failed, and what each of the three
      parsers makes of the body. */
  datatype Response = Response(
    status: int,
    headers: Headers,
    charsetError: Option<string>,
    goquery: Parse,
    htmlquery: Parse,
    xmlquery: Parse)

  /** What `backend.Cache` returned: an error (and no response), or a
      response. */
  datatype Outcome = Failed(reason: string) | Responded(response: Response)

  /** The six callback lists of a collector. */
  datatype Registry = Registry(
    request: seq<HookId>,
    response: seq<HookId>,
    html: seq<ElementCallback>,
    xml: seq<ElementCallback>,
    error: seq<HookId>,
    scraped: seq<HookId>)

  /** The decision of `handleOnError`: which error, if any, it reports.
      A status of 203 or more counts as an error unless error responses are
      to be parsed. */
  function ErrorToReport(err: Option<Error>, status: int, parseHTTPErrorResponse: bool): (r: Option<Error>)
    ensures r.None? <==> err.None? && (parseHTTPErrorResponse || status < 203)
    ensures err.Some? ==> r == err
    ensures err.None? && r.Some? ==> r.value == HttpStatus(status) && status >= 203
  {
    if err.None? && (parseHTTPErrorResponse || status < 203) then None
    else if err.None? then Some(HttpStatus(status))
    else err
  }

  /** The error `backend.Cache` returned, if any. */
  function BackendError(o: Outcome): Option<Error> {
    match o
    case Failed(reason) => Some(Transport(reason))
    case Responded(_) => None
  }

  /** The status `handleOnError` sees: without a response it makes up an
      empty one, whose status is 0. */
  function StatusOf(o: Outcome): int {
    match o
    case Failed(_) => 0
    case Responded(r) => r.status
  }

  /** What a stage returned and what it did. */
  datatype Staged = Staged(err: Option<Error>, step: Step)

  /** `handleOnError`: when there is an error to report, the Error callbacks
      run with it and the response status; the error is returned whether or
      not the context stopped them. */
  function HandleOnError(hooks: seq<HookId>, err: Option<Error>, status: int, parseHTTPErrorResponse: bool,
                         c: Cancel, p: nat): (r: Staged)
    ensures r.err == ErrorToReport(err, status, parseHTTPErrorResponse)
    ensures r.err.None? ==> r.step == Step([], p)
    ensures r.err.Some? ==> r.step == Dispatch(ErrorEvents(hooks, r.err.value, status), c, p)
  {
    var e := ErrorToReport(err, status, parseHTTPErrorResponse);
    if e.None? then Staged(None, Step([], p))
    else Staged(e, Dispatch(ErrorEvents(hooks, e.value, status), c, p))
  }

  /** The lower-cased Content-Type of a response. */
  function ContentType(resp: Response): string {
    ToLower(Get(resp.headers, "Content-Type"))
  }

  /** `handleOnHTML`: skipped without HTML callbacks or when the
      Content-Type does not mention "html"; a body goquery refuses is an
      error; otherwise every registration gets every node its selector
      matched, until the context is seen cancelled. */
  function HtmlStage(cbs: seq<ElementCallback>, resp: Response, c: Cancel, p: nat): (r: Staged)
    ensures |cbs| == 0 || !Contains(ContentType(resp), "html") ==> r == Staged(None, Step([], p))
    ensures r.err.Some? <==> |cbs| > 0 && Contains(ContentType(resp), "html") && resp.goquery.ParseFailed?
    ensures r.err.Some? ==> r.err == Some(Unparsable(resp.goquery.reason)) && r.step == Step([], p)
    ensures |cbs| > 0 && Contains(ContentType(resp), "html") && resp.goquery.Doc? ==>
      r.step == Dispatch(HtmlTargets(cbs, resp.goquery.doc), c, p)
  {
    if |cbs| == 0 || !Contains(ContentType(resp), "html") then Staged(None, Step([], p))
    else match resp.goquery
      case ParseFailed(reason) => Staged(Some(Unparsable(reason)), Step([], p))
      case Doc(doc) => Staged(None, Dispatch(HtmlTargets(cbs, doc), c, p))
  }

  /** Which parser `handleOnXML` uses: the HTML one whenever the
      Content-Type mentions "html", the XML one when it mentions only "xml",
      none otherwise. */
  function XmlParse(resp: Response): (r: Option<Parse>)
    ensures Contains(ContentType(resp), "html") ==> r == Some(resp.htmlquery)
    ensures !Contains(ContentType(resp), "html") && Contains(ContentType(resp), "xml") ==> r == Some(resp.xmlquery)
    ensures r.None? <==> !Contains(ContentType(resp), "html") && !Contains(ContentType(resp), "xml")
  {
    var ct := ContentType(resp);
    if Contains(ct, "html") then Some(resp.htmlquery)
    else if Contains(ct, "xml") then Some(resp.xmlquery)
    else None
  }

  /** `handleOnXML`: skipped without XML callbacks or without a parser for
      the Content-Type; a body the parser refuses is an error; otherwise
      every registration gets every node its query matched, until the
      context is seen cancelled. */
  function XmlStage(cbs: seq<ElementCallback>, resp: Response, c: Cancel, p: nat): (r: Staged)
    ensures |cbs| == 0 || XmlParse(resp).None? ==> r == Staged(None, Step([], p))
    ensures r.err.Some? <==> |cbs| > 0 && XmlParse(resp).Some? && XmlParse(resp).value.ParseFailed?
    ensures r.err.Some? ==> r.err == Some(Unparsable(XmlParse(resp).value.reason)) && r.step == Step([], p)
    ensures |cbs| > 0 && XmlParse(resp).Some? && XmlParse(resp).value.Doc? ==>
      r.step == Dispatch(XmlTargets(cbs, XmlParse(resp).value.doc), c, p)
  {
    if |cbs| == 0 then Staged(None, Step([], p))
    else match XmlParse(resp)
      case None => Staged(None, Step([], p))
      case Some(ParseFailed(reason)) => Staged(Some(Unparsable(reason)), Step([], p))
      case Some(Doc(doc)) => Staged(None, Dispatch(XmlTargets(cbs, doc), c, p))
  }

  /** Whether one of the Request callbacks that ran called `Abort`;
      `aborting` says which callbacks do. */
  function AnyAborts(hooks: seq<HookId>, aborting: set<HookId>): (r: bool)
    ensures r <==> exists i :: 0 <= i < |hooks| && hooks[i] in aborting
    decreases |hooks|
  {
    if hooks == [] then false
    else if hooks[|hooks| - 1] in aborting then true
    else
      var rest := AnyAborts(hooks[..|hooks| - 1], aborting);
      assert forall i :: 0 <= i < |hooks| - 1 ==> hooks[..|hooks| - 1][i] == hooks[i];
      rest
  }

  /** The outcome of one `fetch`: the events it caused, the error it
      returned, how many looks at the context it made in total, and whether
      it counted a response. */
  datatype Run = Run(events: seq<Event>, result: Option<Error>, polls: nat, responded: bool)

  /** Events that happened before the rest of a run. */
  function Prepend(events: seq<Event>, r: Run): Run {
    r.(events := events + r.events)
  }

  /** The request as it is handed to the backend: `fetch` puts the header
      defaults on it just before. */
  function Prepared(request: Outgoing): Outgoing
  {
    request.(header := WithDefaults(request.httpMethod, request.header))
  }

  /** `fetch` from the start: the Request callbacks, a look at the context,
      the abort check, the request handed to the backend, then the rest. */
  function RunFetch(reg: Registry, cfg: Config, id: u32, aborting: set<HookId>, request: Outgoing,
                    outcome: Outcome, c: Cancel, p: nat): (r: Run)
    ensures var req := Dispatch(RequestEvents(reg.request, id), c, p);
      && req.events <= r.events
      && (r.responded <==>
            !Done(c, req.polls) && !AnyAborts(reg.request[..|req.events|], aborting) &&
            ErrorToReport(BackendError(outcome), StatusOf(outcome), cfg.parseHTTPErrorResponse).None?)
      && (r.responded ==> |req.events| < |r.events| && r.events[|req.events|] == Sent(Prepared(request)))
  {
    var req := Dispatch(RequestEvents(reg.request, id), c, p);
    if Done(c, req.polls) then Run(req.events, Some(ContextDone), req.polls + 1, false)
    else if AnyAborts(reg.request[..|req.events|], aborting) then Run(req.events, None, req.polls + 1, false)
    else Prepend(req.events + [Sent(Prepared(request))],
                 AfterSend(reg, cfg, id, outcome, c, req.polls + 1))
  }

  /** `fetch` once the request has been handed to the backend: the
      `handleOnError` call on the round trip's outcome (see
      `ErrorStopsPipeline`), the charset conversion, then the phases. */
  function AfterSend(reg: Registry, cfg: Config, id: u32, outcome: Outcome, c: Cancel, p: nat): (r: Run)
    ensures var e := ErrorToReport(BackendError(outcome), StatusOf(outcome), cfg.parseHTTPErrorResponse);
      && (r.responded <==> e.None?)
      && (e.Some? ==> r.result == e)
      && (e.None? && outcome.response.charsetError.Some? ==>
            r == Run([], Some(Charset(outcome.response.charsetError.value)), p, true))
  {
    var e := ErrorToReport(BackendError(outcome), StatusOf(outcome), cfg.parseHTTPErrorResponse);
    if e.Some? then
      var reported := Dispatch(ErrorEvents(reg.error, e.value, StatusOf(outcome)), c, p);
      Run(reported.events, e, reported.polls, false)
    else
      var resp := outcome.response;
      if resp.charsetError.Some? then Run([], Some(Charset(resp.charsetError.value)), p, true)
      else Resume(ResponsePhase, reg, cfg, id, resp, None, c, p)
  }

  /** A stage that may fail, followed by `handleOnError` for its error:
      with an error in hand, `handleOnError` always reports it (see
      `CheckedReports`). */
  function Checked(stage: Staged, hooks: seq<HookId>, status: int, cfg: Config, c: Cancel): (r: Staged)
    ensures r.err == stage.err && stage.step.events <= r.step.events && stage.step.polls <= r.step.polls
    ensures stage.err.None? ==> r == stage
  {
    if stage.err.None? then stage
    else
      var reported := Dispatch(ErrorEvents(hooks, stage.err.value, status), c, stage.step.polls);
      Staged(stage.err, Step(stage.step.events + reported.events, reported.polls))
  }


  /** The phases of `fetch` after a response was accepted; each ends with a
      look at the context. */
  datatype Phase = ResponsePhase | HtmlPhase | XmlPhase | ScrapedPhase

  function PhasesLeft(phase: Phase): nat {
    match phase
    case ResponsePhase => 3
    case HtmlPhase => 2
    case XmlPhase => 1
    case ScrapedPhase => 0
  }

  /** `fetch` from the given phase on. `xmlErr` is what the XML phase
      returned; the Scraped phase returns it when it finishes. */
  function Resume(phase: Phase, reg: Registry, cfg: Config, id: u32, resp: Response, xmlErr: Option<Error>,
                  c: Cancel, p: nat): (r: Run)
    decreases PhasesLeft(phase), 1
    ensures r.responded
  {
    match phase
    case ResponsePhase => ResponseThen(reg, cfg, id, resp, c, p)
    case HtmlPhase => HtmlThen(reg, cfg, id, resp, c, p)
    case XmlPhase => XmlThen(reg, cfg, id, resp, c, p)
    case ScrapedPhase => ScrapedThen(reg, id, xmlErr, c, p)
  }

  /** The Response callbacks, a look at the context, then the HTML phase. */
  function ResponseThen(reg: Registry, cfg: Config, id: u32, resp: Response, c: Cancel, p: nat): (r: Run)
    decreases PhasesLeft(ResponsePhase), 0
    ensures r.responded
  {
    var response := Dispatch(ResponseEvents(reg.response, id), c, p);
    if Done(c, response.polls) then Run(response.events, Some(ContextDone), response.polls + 1, true)
    else Prepend(response.events, Resume(HtmlPhase, reg, cfg, id, resp, None, c, response.polls + 1))
  }

  /** `handleOnHTML` and the report of its error, a look at the context,
      then the XML phase. */
  function HtmlThen(reg: Registry, cfg: Config, id: u32, resp: Response, c: Cancel, p: nat): (r: Run)
    decreases PhasesLeft(HtmlPhase), 0
    ensures r.responded
  {
    var html := Checked(HtmlStage(reg.html, resp, c, p), reg.error, resp.status, cfg, c);
    if Done(c, html.step.polls) then Run(html.step.events, Some(ContextDone), html.step.polls + 1, true)
    else Prepend(html.step.events, Resume(XmlPhase, reg, cfg, id, resp, None, c, html.step.polls + 1))
  }

  /** `handleOnXML` and the report of its error, a look at the context,
      then the Scraped phase, which is handed the XML error. */
  function XmlThen(reg: Registry, cfg: Config, id: u32, resp: Response, c: Cancel, p: nat): (r: Run)
    decreases PhasesLeft(XmlPhase), 0
    ensures r.responded
  {
    var xml := Checked(XmlStage(reg.xml, resp, c, p), reg.error, resp.status, cfg, c);
    if Done(c, xml.step.polls) then Run(xml.step.events, Some(ContextDone), xml.step.polls + 1, true)
    else Prepend(xml.step.events, Resume(ScrapedPhase, reg, cfg, id, resp, xml.err, c, xml.step.polls + 1))
  }

  /** The Scraped callbacks and the last look at the context. */
  function ScrapedThen(reg: Registry, id: u32, xmlErr: Option<Error>, c: Cancel, p: nat): (r: Run)
    ensures r.responded
  {
    var scraped := Dispatch(ScrapedEvents(reg.scraped, id), c, p);
    if Done(c, scraped.polls) then Run(scraped.events, Some(ContextDone), scraped.polls + 1, true)
    else Run(scraped.events, xmlErr, scraped.polls + 1, true)
  }

  /** The request is refused before it is sent when the context is found
      cancelled right after the Request callbacks: the context error is
      returned, nothing is sent and no response is counted. */
  lemma CancelledBeforeSend(reg: Registry, cfg: Config, id: u32, aborting: set<HookId>, request: Outgoing, outcome: Outcome, c: Cancel, p: nat)
    requires Done(c, Dispatch(RequestEvents(reg.request, id), c, p).polls)
    ensures var r := RunFetch(reg, cfg, id, aborting, request, outcome, c, p);
      r.result == Some(ContextDone) && !r.responded &&
      r.events == Dispatch(RequestEvents(reg.request, id), c, p).events &&
      forall i :: 0 <= i < |r.events| ==> r.events[i].RequestHook?
  {
  }

  /** An aborted request is never sent: when the look after the Request
      callbacks finds the context live, every Request callback has run, and
      if one of them aborts, `fetch` returns no error without sending. */
  lemma AbortSkipsEverything(reg: Registry, cfg: Config, id: u32, aborting: set<HookId>, request: Outgoing, outcome: Outcome,
                             c: Cancel, p: nat)
    requires exists i :: 0 <= i < |reg.request| && reg.request[i] in aborting
    requires !Done(c, Dispatch(RequestEvents(reg.request, id), c, p).polls)
    ensures var r := RunFetch(reg, cfg, id, aborting, request, outcome, c, p);
      r == Run(RequestEvents(reg.request, id), None, p + |reg.request| + 1, false)
  {
    var targets := RequestEvents(reg.request, id);
    var k := Reached(|targets|, c, p);
    var req := Dispatch(targets, c, p);
    assert req.events == targets && req.polls == p + |targets| by {
      assert targets[..k] == targets;
    }
    assert reg.request[..|req.events|] == reg.request;
  }

  /** A context found cancelled at the look after the Response callbacks
      ends `fetch` there: the context error is returned, a response was
      counted, and only Response callbacks ran. */
  lemma ResponseCancelled(reg: Registry, cfg: Config, id: u32, resp: Response, xmlErr: Option<Error>, c: Cancel, p: nat)
    requires Done(c, Dispatch(ResponseEvents(reg.response, id), c, p).polls)
    ensures var r := Resume(ResponsePhase, reg, cfg, id, resp, xmlErr, c, p);
      r.result == Some(ContextDone) && r.responded &&
      r.polls == Dispatch(ResponseEvents(reg.response, id), c, p).polls + 1 &&
      forall i :: 0 <= i < |r.events| ==> r.events[i].ResponseHook?
  {
    assert Resume(ResponsePhase, reg, cfg, id, resp, xmlErr, c, p) == ResponseThen(reg, cfg, id, resp, c, p);
  }

  /** A context found cancelled at the look after the HTML phase ends
      `fetch` there: the context error is returned (not the HTML error),
      and only HTML element callbacks and the Error callbacks reporting the
      HTML error ran. */
  lemma HtmlCancelled(reg: Registry, cfg: Config, id: u32, resp: Response, xmlErr: Option<Error>, c: Cancel, p: nat)
    requires Done(c, Checked(HtmlStage(reg.html, resp, c, p), reg.error, resp.status, cfg, c).step.polls)
    ensures var r := Resume(HtmlPhase, reg, cfg, id, resp, xmlErr, c, p);
      r.result == Some(ContextDone) && r.responded &&
      r.polls == Checked(HtmlStage(reg.html, resp, c, p), reg.error, resp.status, cfg, c).step.polls + 1 &&
      forall i :: 0 <= i < |r.events| ==> r.events[i].HtmlHook? || r.events[i].ErrorHook?
  {
    var hs := HtmlStage(reg.html, resp, c, p);
    var html := Checked(hs, reg.error, resp.status, cfg, c);
    assert Resume(HtmlPhase, reg, cfg, id, resp, xmlErr, c, p) == HtmlThen(reg, cfg, id, resp, c, p);
    assert forall i :: 0 <= i < |hs.step.events| ==> hs.step.events[i].HtmlHook? by {
      if |reg.html| > 0 && Contains(ContentType(resp), "html") && resp.goquery.Doc? {
        HtmlTargetsAreHtml(reg.html, resp.goquery.doc);
      }
    }
    if hs.err.Some? {
      var reported := Dispatch(ErrorEvents(reg.error, hs.err.value, resp.status), c, hs.step.polls);
      assert html.step.events == hs.step.events + reported.events;
    }
  }

  /** A context found cancelled at the look after the XML phase ends
      `fetch` there: the context error is returned (not the XML error), no
      Scraped callback runs, and only XML element callbacks and the Error
      callbacks reporting the XML error ran. */
  lemma XmlCancelled(reg: Registry, cfg: Config, id: u32, resp: Response, xmlErr: Option<Error>, c: Cancel, p: nat)
    requires Done(c, Checked(XmlStage(reg.xml, resp, c, p), reg.error, resp.status, cfg, c).step.polls)
    ensures var r := Resume(XmlPhase, reg, cfg, id, resp, xmlErr, c, p);
      r.result == Some(ContextDone) && r.responded &&
      r.polls == Checked(XmlStage(reg.xml, resp, c, p), reg.error, resp.status, cfg, c).step.polls + 1 &&
      forall i :: 0 <= i < |r.events| ==> r.events[i].XmlHook? || r.events[i].ErrorHook?
  {
    var xs := XmlStage(reg.xml, resp, c, p);
    var xml := Checked(xs, reg.error, resp.status, cfg, c);
    assert Resume(XmlPhase, reg, cfg, id, resp, xmlErr, c, p) == XmlThen(reg, cfg, id, resp, c, p);
    assert forall i :: 0 <= i < |xs.step.events| ==> xs.step.events[i].XmlHook? by {
      if |reg.xml| > 0 && XmlParse(resp).Some? && XmlParse(resp).value.Doc? {
        XmlTargetsAreXml(reg.xml, XmlParse(resp).value.doc);
      }
    }
    if xs.err.Some? {
      var reported := Dispatch(ErrorEvents(reg.error, xs.err.value, resp.status), c, xs.step.polls);
      assert xml.step.events == xs.step.events + reported.events;
    }
  }

  /** A context found cancelled at the last look, after the Scraped
      callbacks, makes `fetch` return the context error instead of the XML
      phase's error. */
  lemma ScrapedCancelled(reg: Registry, cfg: Config, id: u32, resp: Response, xmlErr: Option<Error>, c: Cancel, p: nat)
    requires Done(c, Dispatch(ScrapedEvents(reg.scraped, id), c, p).polls)
    ensures var r := Resume(ScrapedPhase, reg, cfg, id, resp, xmlErr, c, p);
      r.result == Some(ContextDone) && r.responded &&
      r.polls == Dispatch(ScrapedEvents(reg.scraped, id), c, p).polls + 1 &&
      forall i :: 0 <= i < |r.events| ==> r.events[i].ScrapedHook?
  {
    assert Resume(ScrapedPhase, reg, cfg, id, resp, xmlErr, c, p) == ScrapedThen(reg, id, xmlErr, c, p);
  }

  /** A round trip classified as an error ends `fetch` after the Error
      callbacks: the error is returned, no response is counted and none of
      the Response, HTML, XML or Scraped callbacks runs. */
  lemma ErrorStopsPipeline(reg: Registry, cfg: Config, id: u32, outcome: Outcome, c: Cancel, p: nat)
    requires ErrorToReport(BackendError(outcome), StatusOf(outcome), cfg.parseHTTPErrorResponse).Some?
    ensures var r := AfterSend(reg, cfg, id, outcome, c, p);
      var h := HandleOnError(reg.error, BackendError(outcome), StatusOf(outcome), cfg.parseHTTPErrorResponse, c, p);
      r == Run(h.step.events, h.err, h.step.polls, false) &&
      forall i :: 0 <= i < |r.events| ==> r.events[i].ErrorHook?
  {
    var e := ErrorToReport(BackendError(outcome), StatusOf(outcome), cfg.parseHTTPErrorResponse);
    var targets := ErrorEvents(reg.error, e.value, StatusOf(outcome));
    var d := Dispatch(targets, c, p);
    assert forall i :: 0 <= i < |d.events| ==> d.events[i] == targets[i];
  }

  /** A stage's error is reported exactly as `handleOnError` reports it:
      an error in hand is never filtered by the status rule. */
  lemma CheckedReports(stage: Staged, hooks: seq<HookId>, status: int, cfg: Config, c: Cancel)
    requires stage.err.Some?
    ensures var h := HandleOnError(hooks, stage.err, status, cfg.parseHTTPErrorResponse, c, stage.step.polls);
      Checked(stage, hooks, status, cfg, c) == Staged(h.err, Step(stage.step.events + h.step.events, h.step.polls))
  {
  }

  /** Status 203 (Non-Authoritative Information) is already an error, 202
      is not; with `ParseHTTPErrorResponse` neither is. */
  lemma StatusThreshold()
    ensures ErrorToReport(None, 203, false) == Some(HttpStatus(203))
    ensures ErrorToReport(None, 202, false) == None
    ensures ErrorToReport(None, 404, true) == None
    ensures ErrorToReport(Some(Transport("refused")), 200, true) == Some(Transport("refused"))
  {
  }

  /** With a context that is never cancelled, a dispatch loop makes every
      owed invocation. */
  lemma DispatchAll(targets: seq<Event>, p: nat)
    ensures Dispatch(targets, Never, p) == Step(targets, p + |targets|)
  {
  }

  /** With a context that is never cancelled, a failed stage is followed by
      every Error callback, and a stage that did not fail by none. */
  lemma CheckedAll(stage: Staged, hooks: seq<HookId>, status: int, cfg: Config)
    ensures var r := Checked(stage, hooks, status, cfg, Never);
      r.err == stage.err &&
      r.step == if stage.err.Some?
        then Step(stage.step.events + ErrorEvents(hooks, stage.err.value, status), stage.step.polls + |hooks|)
        else stage.step
  {
    if stage.err.Some? {
      DispatchAll(ErrorEvents(hooks, stage.err.value, status), stage.step.polls);
    }
  }

  /** The HTML stage's error is handed to every Error callback when the
      context is never cancelled: a body goquery refuses still reaches
      `OnError`. */
  lemma HtmlErrorReported(reg: Registry, resp: Response, cfg: Config, p: nat)
    requires HtmlStage(reg.html, resp, Never, p).err.Some?
    ensures Checked(HtmlStage(reg.html, resp, Never, p), reg.error, resp.status, cfg, Never).step
      == Step(ErrorEvents(reg.error, Unparsable(resp.goquery.reason), resp.status), p + |reg.error|)
  {
    CheckedAll(HtmlStage(reg.html, resp, Never, p), reg.error, resp.status, cfg);
  }

  /** With a context that is never cancelled, the Scraped callbacks all run
      and `fetch` returns what the XML phase returned. */
  lemma ScrapedPhaseAll(reg: Registry, cfg: Config, id: u32, resp: Response, xmlErr: Option<Error>, p: nat)
    ensures Resume(ScrapedPhase, reg, cfg, id, resp, xmlErr, Never, p)
      == Run(ScrapedEvents(reg.scraped, id), xmlErr, p + |reg.scraped| + 1, true)
  {
    assert Resume(ScrapedPhase, reg, cfg, id, resp, xmlErr, Never, p) == ScrapedThen(reg, id, xmlErr, Never, p);
    DispatchAll(ScrapedEvents(reg.scraped, id), p);
  }

  /** With a context that is never cancelled, the Scraped callbacks follow
      the XML phase and its error reports, and the XML phase's error is what
      `fetch` returns. */
  lemma XmlPhaseAll(reg: Registry, cfg: Config, id: u32, resp: Response, xmlErr: Option<Error>, p: nat)
    ensures var xs := XmlStage(reg.xml, resp, Never, p);
      var xml := Checked(xs, reg.error, resp.status, cfg, Never);
      Resume(XmlPhase, reg, cfg, id, resp, xmlErr, Never, p)
        == Run(xml.step.events + ScrapedEvents(reg.scraped, id), xs.err, xml.step.polls + |reg.scraped| + 2, true)
  {
    var xs := XmlStage(reg.xml, resp, Never, p);
    var xml := Checked(xs, reg.error, resp.status, cfg, Never);
    assert Resume(XmlPhase, reg, cfg, id, resp, xmlErr, Never, p) == XmlThen(reg, cfg, id, resp, Never, p);
    ScrapedPhaseAll(reg, cfg, id, resp, xs.err, xml.step.polls + 1);
  }

  /** With a context that is never cancelled, the HTML phase is followed
      by the XML phase. */
  lemma HtmlPhaseNever(reg: Registry, cfg: Config, id: u32, resp: Response, xmlErr: Option<Error>, p: nat)
    ensures var html := Checked(HtmlStage(reg.html, resp, Never, p), reg.error, resp.status, cfg, Never);
      Resume(HtmlPhase, reg, cfg, id, resp, xmlErr, Never, p)
        == Prepend(html.step.events, Resume(XmlPhase, reg, cfg, id, resp, None, Never, html.step.polls + 1))
  {
    assert Resume(HtmlPhase, reg, cfg, id, resp, xmlErr, Never, p) == HtmlThen(reg, cfg, id, resp, Never, p);
  }

  /** When the context is never cancelled, `fetch` after the Response
      phase returns the XML stage's error: an error of the HTML stage is
      reported to the Error callbacks but not returned, and the Scraped
      callbacks run in every case, last. */
  lemma ResultIsXmlError(reg: Registry, cfg: Config, id: u32, resp: Response, xmlErr: Option<Error>, p: nat)
    ensures var html := Checked(HtmlStage(reg.html, resp, Never, p), reg.error, resp.status, cfg, Never);
      var xs := XmlStage(reg.xml, resp, Never, html.step.polls + 1);
      var xml := Checked(xs, reg.error, resp.status, cfg, Never);
      Resume(HtmlPhase, reg, cfg, id, resp, xmlErr, Never, p)
        == Run(html.step.events + xml.step.events + ScrapedEvents(reg.scraped, id), xs.err,
               xml.step.polls + |reg.scraped| + 2, true)
  {
    var html := Checked(HtmlStage(reg.html, resp, Never, p), reg.error, resp.status, cfg, Never);
    var xs := XmlStage(reg.xml, resp, Never, html.step.polls + 1);
    var xml := Checked(xs, reg.error, resp.status, cfg, Never);
    HtmlPhaseNever(reg, cfg, id, resp, xmlErr, p);
    XmlPhaseAll(reg, cfg, id, resp, None, html.step.polls + 1);
    Regroup(html.step.events, xml.step.events, ScrapedEvents(reg.scraped, id));
  }

  /** With a context that is never cancelled, an HTML response parsed by
      goquery reaches every element of every HTML registration. */
  lemma HtmlStageAll(cbs: seq<ElementCallback>, resp: Response, doc: Document, p: nat)
    requires resp.goquery == Doc(doc) && Contains(ContentType(resp), "html")
    ensures var t := HtmlTargets(cbs, doc); HtmlStage(cbs, resp, Never, p) == Staged(None, Step(t, p + |t|))
  {
    if |cbs| > 0 {
      DispatchAll(HtmlTargets(cbs, doc), p);
    } else {
      assert HtmlTargets(cbs, doc) == [];
    }
  }

  lemma XmlStageAll(cbs: seq<ElementCallback>, resp: Response, doc: Document, p: nat)
    requires XmlParse(resp) == Some(Doc(doc))
    ensures var t := XmlTargets(cbs, doc); XmlStage(cbs, resp, Never, p) == Staged(None, Step(t, p + |t|))
  {
    if |cbs| > 0 {
      DispatchAll(XmlTargets(cbs, doc), p);
    } else {
      assert XmlTargets(cbs, doc) == [];
    }
  }

  lemma Regroup(a: seq<Event>, b: seq<Event>, c: seq<Event>)
    ensures a + (b + c) == a + b + c
  {
  }

  /** A successful response with a usable charset, on a context that is
      never cancelled, runs every Response callback and then the HTML
      phase. */
  lemma AfterSendSuccess(reg: Registry, cfg: Config, id: u32, resp: Response, p: nat)
    requires resp.status < 203 && resp.charsetError.None?
    ensures AfterSend(reg, cfg, id, Responded(resp), Never, p)
      == Prepend(ResponseEvents(reg.response, id), Resume(HtmlPhase, reg, cfg, id, resp, None, Never, p + |reg.response| + 1))
  {
    assert AfterSend(reg, cfg, id, Responded(resp), Never, p) == ResponseThen(reg, cfg, id, resp, Never, p);
    DispatchAll(ResponseEvents(reg.response, id), p);
  }

  /** An HTML response both parsers accept, on a context that is never
      cancelled, reaches every element of every HTML registration, then
      every element of every XML registration, then every Scraped
      callback, and `fetch` returns no error. */
  lemma ParsedPhasesAll(reg: Registry, cfg: Config, id: u32, resp: Response, p: nat, hdoc: Document, xdoc: Document)
    requires resp.goquery == Doc(hdoc) && XmlParse(resp) == Some(Doc(xdoc))
    requires Contains(ContentType(resp), "html")
    ensures var r := Resume(HtmlPhase, reg, cfg, id, resp, None, Never, p);
      r.result.None? && r.responded &&
      r.events == HtmlTargets(reg.html, hdoc) + XmlTargets(reg.xml, xdoc) + ScrapedEvents(reg.scraped, id)
  {
    ResultIsXmlError(reg, cfg, id, resp, None, p);
    HtmlStageAll(reg.html, resp, hdoc, p);
    var html := Checked(HtmlStage(reg.html, resp, Never, p), reg.error, resp.status, cfg, Never);
    XmlStageAll(reg.xml, resp, xdoc, html.step.polls + 1);
  }

  /** A request that neither the context nor a callback stopped is handed
      to the backend, with the header defaults, right after the Request
      callbacks that ran, and the rest of `fetch` follows: a run that went
      that way, after `before`, is what `RunFetch` says. */
  lemma RunFetchSends(reg: Registry, cfg: Config, id: u32, aborting: set<HookId>, request: Outgoing,
                      outcome: Outcome, c: Cancel, p: nat,
                      before: seq<Event>, sent: seq<Event>, q: nat, events: seq<Event>, polls: nat, result: Option<Error>, responded: bool)
    requires !Done(c, Dispatch(RequestEvents(reg.request, id), c, p).polls)
    requires !AnyAborts(reg.request[..|Dispatch(RequestEvents(reg.request, id), c, p).events|], aborting)
    requires sent == before + Dispatch(RequestEvents(reg.request, id), c, p).events
    requires q == Dispatch(RequestEvents(reg.request, id), c, p).polls + 1
    requires events == sent + [Sent(Prepared(request))] + AfterSend(reg, cfg, id, outcome, c, q).events
    requires var rest := AfterSend(reg, cfg, id, outcome, c, q);
      result == rest.result && polls == rest.polls && responded == rest.responded
    ensures var r := RunFetch(reg, cfg, id, aborting, request, outcome, c, p);
      events == before + r.events && result == r.result && polls == r.polls && responded == r.responded
  {
    var req := Dispatch(RequestEvents(reg.request, id), c, p);
    var rest := AfterSend(reg, cfg, id, outcome, c, q);
    assert RunFetch(reg, cfg, id, aborting, request, outcome, c, p) == Prepend(req.events + [Sent(Prepared(request))], rest);
    Regroup(before, req.events, [Sent(Prepared(request))]);
    Regroup(before, req.events + [Sent(Prepared(request))], rest.events);
  }

  /** A request no callback aborts, on a context that is never cancelled,
      is handed to the backend after every Request callback ran. */
  lemma SentAfterRequestHooks(reg: Registry, cfg: Config, id: u32, aborting: set<HookId>, request: Outgoing, outcome: Outcome, p: nat)
    requires forall i :: 0 <= i < |reg.request| ==> reg.request[i] !in aborting
    ensures RunFetch(reg, cfg, id, aborting, request, outcome, Never, p)
      == Prepend(RequestEvents(reg.request, id) + [Sent(Prepared(request))],
                 AfterSend(reg, cfg, id, outcome, Never, p + |reg.request| + 1))
  {
    var req := RequestEvents(reg.request, id);
    DispatchAll(req, p);
    assert reg.request[..|req|] == reg.request;
  }

  /** A request whose context is never cancelled, that no callback aborts
      and whose response is a success with a usable charset runs every
      stage in order: Request callbacks, the send, Response callbacks, every
      HTML element, every XML element, Scraped callbacks. */
  lemma FullOrder(reg: Registry, cfg: Config, id: u32, aborting: set<HookId>, request: Outgoing, resp: Response, p: nat, hdoc: Document, xdoc: Document)
    requires forall i :: 0 <= i < |reg.request| ==> reg.request[i] !in aborting
    requires resp.status < 203 && resp.charsetError.None?
    requires resp.goquery == Doc(hdoc) && XmlParse(resp) == Some(Doc(xdoc))
    requires Contains(ContentType(resp), "html")
    ensures var r := RunFetch(reg, cfg, id, aborting, request, Responded(resp), Never, p);
      r.result.None? && r.responded &&
      r.events == RequestEvents(reg.request, id) + [Sent(Prepared(request))]
        + ResponseEvents(reg.response, id) + HtmlTargets(reg.html, hdoc) + XmlTargets(reg.xml, xdoc)
        + ScrapedEvents(reg.scraped, id)
  {
    var q := p + |reg.request| + 1;
    var r := RunFetch(reg, cfg, id, aborting, request, Responded(resp), Never, p);
    var a := AfterSend(reg, cfg, id, Responded(resp), Never, q);
    var rest := Resume(HtmlPhase, reg, cfg, id, resp, None, Never, q + |reg.response| + 1);
    SentAfterRequestHooks(reg, cfg, id, aborting, request, Responded(resp), p);
    AfterSendSuccess(reg, cfg, id, resp, q);
    ParsedPhasesAll(reg, cfg, id, resp, q + |reg.response| + 1, hdoc, xdoc);
    Chain(r, a, rest, RequestEvents(reg.request, id) + [Sent(Prepared(request))],
          ResponseEvents(reg.response, id), HtmlTargets(reg.html, hdoc), XmlTargets(reg.xml, xdoc),
          ScrapedEvents(reg.scraped, id));
  }

  /** Two stages prepended to a run whose events are three lists. */
  lemma Chain(r: Run, a: Run, rest: Run, sent: seq<Event>, resps: seq<Event>, hts: seq<Event>, xts: seq<Event>, scr: seq<Event>)
    requires r == Prepend(sent, a) && a == Prepend(resps, rest) && rest.events == hts + xts + scr
    ensures r.events == sent + resps + hts + xts + scr && r.result == rest.result && r.responded == rest.responded
  {
    assert sent + (resps + (hts + xts + scr)) == sent + resps + hts + xts + scr;
  }

  /** A context cancelled before `fetch` starts (and cancelled for good)
      stops it at the first look: no callback runs and nothing is sent. */
  lemma CancelledFromStart(reg: Registry, cfg: Config, id: u32, aborting: set<HookId>, request: Outgoing, outcome: Outcome, c: Cancel, p: nat)
    requires Done(c, p)
    ensures RunFetch(reg, cfg, id, aborting, request, outcome, c, p)
      == Run([], Some(ContextDone), if |reg.request| == 0 then p + 1 else p + 2, false)
  {
    var req := Dispatch(RequestEvents(reg.request, id), c, p);
    assert Done(c, req.polls);
  }
}
