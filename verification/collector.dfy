/** The `Collector`: its configuration, its six callback lists and its
    counters, and the methods that register callbacks, admit a URL, run
    the request pipeline, check redirects, bridge to the cookie jar and
    read the environment. */
module Colly {
  import opened Types
  import opened Text
  import opened Fnv
  import opened Headers
  import opened Hooks
  import opened Body
  import opened Pipeline
  import opened Shared
  import Scope
  import CK = Cookies
  import Env

  /** The headers of a redirected request: every header of the previous
      request with values is set to its last value, and the Authorization
      header is dropped when the redirect leaves the host. */
  function Redirected(h: Headers, last: Hop, target: Url): (r: Headers)
    ensures "Authorization" in r <==>
      target.host == last.url.host && ("Authorization" in h || HasValues(last.header, "Authorization"))
    ensures forall k :: k != "Authorization" ==>
      (k in r <==> k in h || HasValues(last.header, k)) &&
      (k in r ==> r[k] == Propagated(h, last.header)[k])
  {
    var p := Propagated(h, last.header);
    if target.host != last.url.host then Del(p, "Authorization") else p
  }

  /** The headers `scrape` sends when the caller gives none: only the
      collector's user agent. */
  function HeaderOrDefault(header: Option<Headers>, userAgent: string): (h: Headers)
    ensures header.Some? ==> h == header.value
    ensures header.None? ==> h.Keys == {"User-Agent"} && Get(h, "User-Agent") == userAgent
  {
    if header.None? then map["User-Agent" := [userAgent]] else header.value
  }

  /** What `checkRobots` answers and the cache it leaves. */
  datatype RobotsResult = RobotsResult(err: Option<Error>, entries: map<string, RobotsData>)

  /** `checkRobots`: a cached robots.txt is used as it is and the download
      is not made; otherwise a failed download is an error and a successful
      one is cached for the host before it is consulted. */
  function RobotsCheck(entries: map<string, RobotsData>, u: Url, userAgent: string, download: RobotsDownload): (r: RobotsResult)
    ensures u.host in entries ==>
      r == RobotsResult(RobotsVerdict(entries[u.host], userAgent, u.path), entries)
    ensures u.host !in entries && download.DownloadFailed? ==>
      r == RobotsResult(Some(RobotsFetch(download.reason)), entries)
    ensures u.host !in entries && download.Downloaded? ==>
      r.entries == entries[u.host := download.data] && r.err == RobotsVerdict(download.data, userAgent, u.path)
  {
    if u.host in entries then RobotsResult(RobotsVerdict(entries[u.host], userAgent, u.path), entries)
    else match download
      case DownloadFailed(reason) => RobotsResult(Some(RobotsFetch(reason)), entries)
      case Downloaded(data) => RobotsResult(RobotsVerdict(data, userAgent, u.path), entries[u.host := data])
  }

  /** Once a host's robots.txt is cached, every later check of that host
      gives the same verdict whatever a download would give. */
  lemma RobotsCachedOnce(entries: map<string, RobotsData>, u: Url, v: Url, userAgent: string,
                         first: RobotsDownload, later: RobotsDownload)
    requires first.Downloaded? && v.host == u.host
    ensures var r := RobotsCheck(entries, u, userAgent, first);
      RobotsCheck(r.entries, v, userAgent, later).entries == r.entries &&
      RobotsCheck(r.entries, v, userAgent, later).err == RobotsVerdict(r.entries[u.host], userAgent, v.path)
  {
  }

  /** Detaching: the loop of `OnHTMLDetach` and `OnXMLDetach` that finds
      the first registration with the key, and the splice that removes it. */
  method DetachFirst(cbs: seq<ElementCallback>, key: string) returns (r: seq<ElementCallback>)
    ensures r == Detached(cbs, key)
  {
    var deleteIdx := -1;
    for i := 0 to |cbs|
      invariant forall k :: 0 <= k < i ==> cbs[k].key != key
    {
      if cbs[i].key == key {
        deleteIdx := i;
        break;
      }
    }
    if deleteIdx != -1 {
      r := cbs[..deleteIdx] + cbs[deleteIdx + 1..];
    } else {
      r := cbs;
    }
  }

  class Collector {
    var config: Config
    var id: u32
    var requestCallbacks: seq<HookId>
    var responseCallbacks: seq<HookId>
    var htmlCallbacks: seq<ElementCallback>
    var xmlCallbacks: seq<ElementCallback>
    var errorCallbacks: seq<HookId>
    var scrapedCallbacks: seq<HookId>
    var requestCount: u32
    var responseCount: u32
    var store: Storage
    const backend: Backend
    const robotsMap: RobotsMap
    const counter: CollectorCounter

    /** The six callback lists. */
    function Registered(): Registry
      reads this`requestCallbacks, this`responseCallbacks, this`htmlCallbacks, this`xmlCallbacks,
        this`errorCallbacks, this`scrapedCallbacks
    {
      Registry(requestCallbacks, responseCallbacks, htmlCallbacks, xmlCallbacks, errorCallbacks, scrapedCallbacks)
    }

    /** `Init` on a new collector: the default configuration, a new store,
        backend (with the `net/http/cookiejar` jar) and robots.txt cache, and the next ID
        of the package counter. */
    constructor Init(counter: CollectorCounter)
      modifies counter
      ensures config == DefaultConfig() && Registered() == Registry([], [], [], [], [], [])
      ensures requestCount == 0 && responseCount == 0
      ensures fresh(store) && store.visited == {} && store.cookies == map[]
      ensures fresh(robotsMap) && robotsMap.entries == map[]
      ensures fresh(backend) && backend.jar == NetHttpJar
      ensures this.counter == counter && counter.value == Inc(old(counter.value)) && id == counter.value
    {
      var newId := counter.Next();
      config := DefaultConfig();
      id := newId;
      requestCallbacks, responseCallbacks, errorCallbacks, scrapedCallbacks := [], [], [], [];
      htmlCallbacks, xmlCallbacks := [], [];
      requestCount, responseCount := 0, 0;
      store := new Storage();
      backend := new Backend();
      robotsMap := new RobotsMap();
      this.counter := counter;
    }

    /** The collector `Clone` builds: the given configuration and ID, the
        shared objects, no callbacks and zero counters. */
    constructor Sharing(config: Config, id: u32, store: Storage, backend: Backend, robotsMap: RobotsMap,
                        counter: CollectorCounter)
      ensures this.config == config && this.id == id && Registered() == Registry([], [], [], [], [], [])
      ensures requestCount == 0 && responseCount == 0
      ensures this.store == store && this.backend == backend && this.robotsMap == robotsMap && this.counter == counter
    {
      this.config := config;
      this.id := id;
      requestCallbacks, responseCallbacks, errorCallbacks, scrapedCallbacks := [], [], [], [];
      htmlCallbacks, xmlCallbacks := [], [];
      requestCount, responseCount := 0, 0;
      this.store := store;
      this.backend := backend;
      this.robotsMap := robotsMap;
      this.counter := counter;
    }

    /** `Clone`: the same configuration under a new ID, no callbacks, zero
        counters, and the same store, backend and robots.txt cache. */
    method Clone() returns (d: Collector)
      modifies counter
      ensures fresh(d) && d.config == config && d.Registered() == Registry([], [], [], [], [], [])
      ensures d.requestCount == 0 && d.responseCount == 0
      ensures d.store == store && d.backend == backend && d.robotsMap == robotsMap && d.counter == counter
      ensures counter.value == Inc(old(counter.value)) && d.id == counter.value
    {
      var newId := counter.Next();
      d := new Collector.Sharing(config, newId, store, backend, robotsMap, counter);
    }

    method OnRequest(f: HookId)
      modifies this`requestCallbacks
      ensures requestCallbacks == old(requestCallbacks) + [f]
    {
      requestCallbacks := requestCallbacks + [f];
    }

    method OnResponse(f: HookId)
      modifies this`responseCallbacks
      ensures responseCallbacks == old(responseCallbacks) + [f]
    {
      responseCallbacks := responseCallbacks + [f];
    }

    method OnHTML(selector: string, f: HookId)
      modifies this`htmlCallbacks
      ensures htmlCallbacks == old(htmlCallbacks) + [ElementCallback(selector, f)]
    {
      htmlCallbacks := htmlCallbacks + [ElementCallback(selector, f)];
    }

    method OnXML(query: string, f: HookId)
      modifies this`xmlCallbacks
      ensures xmlCallbacks == old(xmlCallbacks) + [ElementCallback(query, f)]
    {
      xmlCallbacks := xmlCallbacks + [ElementCallback(query, f)];
    }

    method OnHTMLDetach(selector: string)
      modifies this`htmlCallbacks
      ensures htmlCallbacks == Detached(old(htmlCallbacks), selector)
    {
      htmlCallbacks := DetachFirst(htmlCallbacks, selector);
    }

    method OnXMLDetach(query: string)
      modifies this`xmlCallbacks
      ensures xmlCallbacks == Detached(old(xmlCallbacks), query)
    {
      xmlCallbacks := DetachFirst(xmlCallbacks, query);
    }

    method OnError(f: HookId)
      modifies this`errorCallbacks
      ensures errorCallbacks == old(errorCallbacks) + [f]
    {
      errorCallbacks := errorCallbacks + [f];
    }

    method OnScraped(f: HookId)
      modifies this`scrapedCallbacks
      ensures scrapedCallbacks == old(scrapedCallbacks) + [f]
    {
      scrapedCallbacks := scrapedCallbacks + [f];
    }

    /** `requestCheck`: the scope rules, then revisit detection against
        the store. */
    method RequestCheck(u: string, httpMethod: string, depth: int, checkRevisit: bool) returns (err: Option<Error>)
      modifies store
      ensures var r := Scope.RequestCheck(config, u, httpMethod, depth, checkRevisit, old(store.visited));
        err == r.err && store.visited == r.visited
      ensures store.cookies == old(store.cookies)
    {
      err := Scope.ScopeCheck(config, u, depth);
      if err.Some? {
        return;
      }
      if checkRevisit && !config.allowURLRevisit && httpMethod == "GET" {
        var h := UrlHash(u);
        var visited := store.IsVisited(h);
        if visited {
          return Some(AlreadyVisited);
        }
        store.Visited(h);
      }
    }

    /** `checkRobots`. */
    method CheckRobots(u: Url, download: RobotsDownload) returns (err: Option<Error>)
      modifies robotsMap
      ensures var r := RobotsCheck(old(robotsMap.entries), u, config.userAgent, download);
        err == r.err && robotsMap.entries == r.entries
    {
      var robot: RobotsData;
      if u.host in robotsMap.entries {
        robot := robotsMap.entries[u.host];
      } else {
        match download
        case DownloadFailed(reason) =>
          return Some(RobotsFetch(reason));
        case Downloaded(data) =>
          robot := data;
          robotsMap.entries := robotsMap.entries[u.host := robot];
      }
      var uaGroup := robot.findGroup(config.userAgent);
      if uaGroup.None? {
        return None;
      }
      if !uaGroup.value(u.path) {
        return Some(RobotsTxtBlocked);
      }
      return None;
    }

    /** The checks `scrape` runs before robots.txt: `requestCheck`, the
        parse of the URL, the default scheme and the domain rules. */
    method Admit(u: string, httpMethod: string, depth: int, checkRevisit: bool, parsed: ParsedUrl)
      returns (err: Option<Error>, url: Url)
      modifies store
      ensures var a := Scope.Admit(config, u, httpMethod, depth, checkRevisit, old(store.visited), parsed);
        err == a.err && store.visited == a.visited && (err.None? ==> url == a.url)
      ensures store.cookies == old(store.cookies)
    {
      url := Url("", "", "");
      err := RequestCheck(u, httpMethod, depth, checkRevisit);
      if err.Some? {
        return;
      }
      if parsed.ParseFailure? {
        return Some(BadURL(parsed.reason)), url;
      }
      url := parsed.url;
      if url.scheme == "" {
        url := url.(scheme := "http");
      }
      if !Scope.IsDomainAllowed(config, url.host) {
        return Some(ForbiddenDomain), url;
      }
    }

    /** `scrape`: admission, robots.txt, the request, then `fetch` (run
        elsewhere, and not waited for, in async mode). `parsed` is what
        `url.Parse` makes of `u`, `robots` what downloading the host's
        robots.txt would give, `outcome` the answer of the backend and
        `aborting` the Request callbacks that abort the request. */
    method Scrape(call: Call, u: string, httpMethod: string, depth: int, body: Reader, header: Option<Headers>,
                  checkRevisit: bool, parsed: ParsedUrl, robots: RobotsDownload, outcome: Outcome,
                  aborting: set<HookId>) returns (err: Option<Error>)
      modifies this`requestCount, this`responseCount, call, store, robotsMap
      ensures var a := Scope.Admit(config, u, httpMethod, depth, checkRevisit, old(store.visited), parsed);
        var robotsOn := a.err.None? && !config.ignoreRobotsTxt;
        var rc := RobotsCheck(old(robotsMap.entries), a.url, config.userAgent, robots);
        var admitted := a.err.None? && (!robotsOn || rc.err.None?);
        store.visited == a.visited && store.cookies == old(store.cookies) &&
        robotsMap.entries == (if robotsOn then rc.entries else old(robotsMap.entries)) &&
        (a.err.Some? ==> err == a.err) &&
        (robotsOn && rc.err.Some? ==> err == rc.err) &&
        (admitted && config.async ==> err.None?) &&
        (!admitted || config.async ==>
          call.events == old(call.events) && call.polls == old(call.polls) &&
          requestCount == old(requestCount) && responseCount == old(responseCount))
    ensures var a := Scope.Admit(config, u, httpMethod, depth, checkRevisit, old(store.visited), parsed);
        var rc := RobotsCheck(old(robotsMap.entries), a.url, config.userAgent, robots);
        a.err.None? && (config.ignoreRobotsTxt || rc.err.None?) && !config.async ==>
          var request := Outgoing(httpMethod, a.url, HeaderOrDefault(header, config.userAgent), SetRequestBody(body));
          var r := RunFetch(Registered(), config, requestCount, aborting, request, outcome, call.cancel, old(call.polls));
          requestCount == Inc(old(requestCount)) && err == r.result &&
          call.events == old(call.events) + r.events && call.polls == r.polls &&
          responseCount == (if r.responded then Inc(old(responseCount)) else old(responseCount))
    {
      var parsedURL;
      err, parsedURL := Admit(u, httpMethod, depth, checkRevisit, parsed);
      if err.Some? {
        return;
      }
      if !config.ignoreRobotsTxt {
        err := CheckRobots(parsedURL, robots);
        if err.Some? {
          return;
        }
      }
      var request := Outgoing(httpMethod, parsedURL, HeaderOrDefault(header, config.userAgent), SetRequestBody(body));
      if config.async {
        return None;
      }
      err := Fetch(call, request, outcome, aborting);
    }

    /** `fetch`: the Request callbacks, a look at the context, the abort
        check, the header defaults and the round trip, `handleOnError` on
        its outcome, the response count, the charset conversion, then the
        phases. */
    method Fetch(call: Call, request: Outgoing, outcome: Outcome, aborting: set<HookId>) returns (err: Option<Error>)
      modifies this`requestCount, this`responseCount, call
      ensures requestCount == Inc(old(requestCount))
      ensures var r := RunFetch(Registered(), config, requestCount, aborting, request, outcome, call.cancel, old(call.polls));
        err == r.result && call.events == old(call.events) + r.events && call.polls == r.polls &&
        responseCount == (if r.responded then Inc(old(responseCount)) else old(responseCount))
    {
      requestCount := Inc(requestCount);
      err := Begin(call, requestCount, request, outcome, aborting);
    }

    /** `fetch` for the request with the given ID. */
    method Begin(call: Call, reqId: u32, request: Outgoing, outcome: Outcome, aborting: set<HookId>) returns (err: Option<Error>)
      modifies this`responseCount, call
      ensures var r := RunFetch(Registered(), config, reqId, aborting, request, outcome, call.cancel, old(call.polls));
        err == r.result && call.events == old(call.events) + r.events && call.polls == r.polls &&
        responseCount == (if r.responded then Inc(old(responseCount)) else old(responseCount))
    {
      ghost var e0 := call.events;
      ghost var p0 := call.polls;
      var abort := HandleOnRequest(call, reqId, aborting);
      var done := call.Poll();
      if done {
        return Some(ContextDone);
      }
      if abort {
        return None;
      }
      ghost var e1 := call.events;
      ghost var q := call.polls;
      ghost var rest := AfterSend(Registered(), config, reqId, outcome, call.cancel, call.polls);
      err := Send(call, request, outcome, reqId);
      RunFetchSends(Registered(), config, reqId, aborting, request, outcome, call.cancel, p0,
                    e0, e1, q, call.events, call.polls, err, rest.responded);
    }

    /** The request handed to the backend with the header defaults on it,
        then the rest of `fetch`. */
    method Send(call: Call, request: Outgoing, outcome: Outcome, reqId: u32) returns (err: Option<Error>)
      modifies this`responseCount, call
      ensures var r := AfterSend(Registered(), config, reqId, outcome, call.cancel, old(call.polls));
        err == r.result && call.events == old(call.events) + [Sent(Prepared(request))] + r.events &&
        call.polls == r.polls &&
        responseCount == (if r.responded then Inc(old(responseCount)) else old(responseCount))
    {
      call.events := call.events + [Sent(Prepared(request))];
      err := Receive(call, outcome, reqId);
    }

    /** `fetch` once the request is handed to the backend: `handleOnError`
        on the round trip's outcome, the response count, the charset
        conversion, then the phases. */
    method Receive(call: Call, outcome: Outcome, reqId: u32) returns (err: Option<Error>)
      modifies this`responseCount, call
      ensures var r := AfterSend(Registered(), config, reqId, outcome, call.cancel, old(call.polls));
        err == r.result && call.events == old(call.events) + r.events && call.polls == r.polls &&
        responseCount == (if r.responded then Inc(old(responseCount)) else old(responseCount))
    {
      ghost var p := call.polls;
      err := HandleOnError(call, BackendError(outcome), StatusOf(outcome));
      if err.Some? {
        return;
      }
      responseCount := Inc(responseCount);
      var resp := outcome.response;
      if resp.charsetError.Some? {
        return Some(Charset(resp.charsetError.value));
      }
      assert Resume(ResponsePhase, Registered(), config, reqId, resp, None, call.cancel, p)
        == ResponseThen(Registered(), config, reqId, resp, call.cancel, p);
      err := RunResponsePhase(call, resp, reqId);
    }

    /** `handleOnRequest`, which also reports whether a callback that ran
        aborted the request. */
    method HandleOnRequest(call: Call, reqId: u32, aborting: set<HookId>) returns (abort: bool)
      modifies call
      ensures var s := Dispatch(RequestEvents(requestCallbacks, reqId), call.cancel, old(call.polls));
        call.events == old(call.events) + s.events && call.polls == s.polls &&
        abort == AnyAborts(requestCallbacks[..|s.events|], aborting)
    {
      ghost var targets := RequestEvents(requestCallbacks, reqId);
      ghost var p := call.polls;
      abort := false;
      for i := 0 to |requestCallbacks|
        invariant call.events == old(call.events) + targets[..i]
        invariant call.polls == p + i
        invariant forall q :: p <= q < p + i ==> !Done(call.cancel, q)
        invariant abort == AnyAborts(requestCallbacks[..i], aborting)
      {
        var done := call.Poll();
        if done {
          ReachedUnique(|targets|, call.cancel, p, i);
          return;
        }
        call.events := call.events + [RequestHook(requestCallbacks[i], reqId)];
        if requestCallbacks[i] in aborting {
          abort := true;
        }
        assert targets[..i + 1] == targets[..i] + [targets[i]];
        assert requestCallbacks[..i + 1][..i] == requestCallbacks[..i];
      }
      ReachedUnique(|targets|, call.cancel, p, |targets|);
      assert targets[..|targets|] == targets;
      assert requestCallbacks[..|requestCallbacks|] == requestCallbacks;
    }

    method HandleOnResponse(call: Call, reqId: u32)
      modifies call
      ensures var s := Dispatch(ResponseEvents(responseCallbacks, reqId), call.cancel, old(call.polls));
        call.events == old(call.events) + s.events && call.polls == s.polls
    {
      var _ := call.Invoke(ResponseEvents(responseCallbacks, reqId));
    }

    method HandleOnScraped(call: Call, reqId: u32)
      modifies call
      ensures var s := Dispatch(ScrapedEvents(scrapedCallbacks, reqId), call.cancel, old(call.polls));
        call.events == old(call.events) + s.events && call.polls == s.polls
    {
      var _ := call.Invoke(ScrapedEvents(scrapedCallbacks, reqId));
    }

    /** `handleOnError` for an error (or none) and the status of the
        response (0 without one). */
    method HandleOnError(call: Call, err: Option<Error>, status: int) returns (e: Option<Error>)
      modifies call
      ensures var h := Pipeline.HandleOnError(errorCallbacks, err, status, config.parseHTTPErrorResponse,
                                              call.cancel, old(call.polls));
        e == h.err && call.events == old(call.events) + h.step.events && call.polls == h.step.polls
    {
      if err.None? && (config.parseHTTPErrorResponse || status < 203) {
        return None;
      }
      e := err;
      if err.None? && status >= 203 {
        e := Some(HttpStatus(status));
      }
      var _ := call.Invoke(ErrorEvents(errorCallbacks, e.value, status));
    }

    /** `handleOnHTML`: every node each selector matched, selector by
        selector, with an index that restarts for each selector; a
        cancelled context stops the elements and the selectors left. */
    method HandleOnHTML(call: Call, resp: Response) returns (err: Option<Error>)
      modifies call
      ensures var s := HtmlStage(htmlCallbacks, resp, call.cancel, old(call.polls));
        err == s.err && call.events == old(call.events) + s.step.events && call.polls == s.step.polls
    {
      if |htmlCallbacks| == 0 || !Contains(ToLower(Get(resp.headers, "Content-Type")), "html") {
        return None;
      }
      if resp.goquery.ParseFailed? {
        return Some(Unparsable(resp.goquery.reason));
      }
      EachHtml(call, resp.goquery.doc);
      return None;
    }

    /** The loops of `handleOnHTML` over the selectors and the nodes each
        matched, stopped by a cancelled context. */
    method EachHtml(call: Call, doc: Document)
      modifies call
      ensures var s := Dispatch(HtmlTargets(htmlCallbacks, doc), call.cancel, old(call.polls));
        call.events == old(call.events) + s.events && call.polls == s.polls
    {
      var cbs := htmlCallbacks;
      ghost var c := call.cancel;
      ghost var p := call.polls;
      var exit := false;
      var j := 0;
      while j < |cbs| && !exit
        invariant 0 <= j <= |cbs|
        invariant var s := Dispatch(HtmlTargets(cbs[..j], doc), c, p);
          call.events == old(call.events) + s.events && call.polls == s.polls &&
          (exit <==> |s.events| < |HtmlTargets(cbs[..j], doc)|)
      {
        var cc := cbs[j];
        HtmlDispatchStep(cbs, doc, j, c, p);
        ghost var s := Dispatch(HtmlTargets(cbs[..j], doc), c, p);
        ghost var t := Dispatch(HtmlElements(cc, Matches(doc, cc.key)), c, s.polls);
        exit := call.Invoke(HtmlElements(cc, Matches(doc, cc.key)));
        Regroup(old(call.events), s.events, t.events);
        j := j + 1;
      }
      if exit {
        HtmlDispatchStopped(cbs, doc, j, c, p);
      } else {
        assert cbs[..j] == cbs;
      }
    }

    /** `handleOnXML`: the HTML parser for a Content-Type that mentions
        "html", the XML parser for one that mentions only "xml". */
    method HandleOnXML(call: Call, resp: Response) returns (err: Option<Error>)
      modifies call
      ensures var s := XmlStage(xmlCallbacks, resp, call.cancel, old(call.polls));
        err == s.err && call.events == old(call.events) + s.step.events && call.polls == s.step.polls
    {
      if |xmlCallbacks| == 0 {
        return None;
      }
      var contentType := ToLower(Get(resp.headers, "Content-Type"));
      if Contains(contentType, "html") {
        if resp.htmlquery.ParseFailed? {
          return Some(Unparsable(resp.htmlquery.reason));
        }
        EachXml(call, resp.htmlquery.doc);
      } else if Contains(contentType, "xml") {
        if resp.xmlquery.ParseFailed? {
          return Some(Unparsable(resp.xmlquery.reason));
        }
        EachXml(call, resp.xmlquery.doc);
      }
      return None;
    }

    /** The loops of `handleOnXML` over the queries and the nodes each
        matched, stopped by a cancelled context. */
    method EachXml(call: Call, doc: Document)
      modifies call
      ensures var s := Dispatch(XmlTargets(xmlCallbacks, doc), call.cancel, old(call.polls));
        call.events == old(call.events) + s.events && call.polls == s.polls
    {
      var cbs := xmlCallbacks;
      ghost var c := call.cancel;
      ghost var p := call.polls;
      var exit := false;
      var j := 0;
      while j < |cbs| && !exit
        invariant 0 <= j <= |cbs|
        invariant var s := Dispatch(XmlTargets(cbs[..j], doc), c, p);
          call.events == old(call.events) + s.events && call.polls == s.polls &&
          (exit <==> |s.events| < |XmlTargets(cbs[..j], doc)|)
      {
        var cc := cbs[j];
        XmlDispatchStep(cbs, doc, j, c, p);
        ghost var s := Dispatch(XmlTargets(cbs[..j], doc), c, p);
        ghost var t := Dispatch(XmlElements(cc, Matches(doc, cc.key)), c, s.polls);
        exit := call.Invoke(XmlElements(cc, Matches(doc, cc.key)));
        Regroup(old(call.events), s.events, t.events);
        j := j + 1;
      }
      if exit {
        XmlDispatchStopped(cbs, doc, j, c, p);
      } else {
        assert cbs[..j] == cbs;
      }
    }

    /** The Response callbacks and the look at the context after them. */
    method RunResponsePhase(call: Call, resp: Response, reqId: u32) returns (err: Option<Error>)
      modifies call
      ensures var r := ResponseThen(Registered(), config, reqId, resp, call.cancel, old(call.polls));
        err == r.result && call.events == old(call.events) + r.events && call.polls == r.polls
    {
      ghost var e0 := call.events;
      ghost var response := Dispatch(ResponseEvents(responseCallbacks, reqId), call.cancel, call.polls);
      HandleOnResponse(call, reqId);
      var done := call.Poll();
      if done {
        return Some(ContextDone);
      }
      ghost var q := call.polls;
      assert Resume(HtmlPhase, Registered(), config, reqId, resp, None, call.cancel, q)
        == HtmlThen(Registered(), config, reqId, resp, call.cancel, q);
      ghost var h := HtmlThen(Registered(), config, reqId, resp, call.cancel, q);
      err := RunHtmlPhase(call, resp, reqId);
      Regroup(e0, response.events, h.events);
    }

    /** `handleOnHTML`, the report of its error, and the look at the
        context after them. */
    method RunHtmlPhase(call: Call, resp: Response, reqId: u32) returns (err: Option<Error>)
      modifies call
      ensures var r := HtmlThen(Registered(), config, reqId, resp, call.cancel, old(call.polls));
        err == r.result && call.events == old(call.events) + r.events && call.polls == r.polls
    {
      ghost var e0 := call.events;
      ghost var h := Checked(HtmlStage(htmlCallbacks, resp, call.cancel, call.polls), errorCallbacks, resp.status, config, call.cancel);
      err := HtmlReported(call, resp);
      var done := call.Poll();
      if done {
        return Some(ContextDone);
      }
      ghost var q := call.polls;
      assert Resume(XmlPhase, Registered(), config, reqId, resp, None, call.cancel, q)
        == XmlThen(Registered(), config, reqId, resp, call.cancel, q);
      ghost var x := XmlThen(Registered(), config, reqId, resp, call.cancel, q);
      err := RunXmlPhase(call, resp, reqId);
      Regroup(e0, h.step.events, x.events);
    }

    /** `handleOnHTML` and, if it failed, `handleOnError` with its error. */
    method HtmlReported(call: Call, resp: Response) returns (err: Option<Error>)
      modifies call
      ensures var h := Checked(HtmlStage(htmlCallbacks, resp, call.cancel, old(call.polls)), errorCallbacks, resp.status,
                               config, call.cancel);
        err == h.err && call.events == old(call.events) + h.step.events && call.polls == h.step.polls
    {
      err := HandleOnHTML(call, resp);
      ghost var e1 := call.events;
      if err.Some? {
        var _ := HandleOnError(call, err, resp.status);
        assert call.events == old(call.events) + (e1[|old(call.events)|..] + call.events[|e1|..]);
      }
    }

    /** `handleOnXML`, the report of its error, and the look at the context
        after them; its error is what `fetch` returns in the end. */
    method RunXmlPhase(call: Call, resp: Response, reqId: u32) returns (err: Option<Error>)
      modifies call
      ensures var r := XmlThen(Registered(), config, reqId, resp, call.cancel, old(call.polls));
        err == r.result && call.events == old(call.events) + r.events && call.polls == r.polls
    {
      ghost var e0 := call.events;
      ghost var x := Checked(XmlStage(xmlCallbacks, resp, call.cancel, call.polls), errorCallbacks, resp.status, config, call.cancel);
      err := XmlReported(call, resp);
      var done := call.Poll();
      if done {
        return Some(ContextDone);
      }
      ghost var q := call.polls;
      assert Resume(ScrapedPhase, Registered(), config, reqId, resp, err, call.cancel, q)
        == ScrapedThen(Registered(), reqId, err, call.cancel, q);
      ghost var sc := ScrapedThen(Registered(), reqId, x.err, call.cancel, q);
      err := RunScrapedPhase(call, reqId, err);
      Regroup(e0, x.step.events, sc.events);
    }

    /** `handleOnXML` and, if it failed, `handleOnError` with its error. */
    method XmlReported(call: Call, resp: Response) returns (err: Option<Error>)
      modifies call
      ensures var x := Checked(XmlStage(xmlCallbacks, resp, call.cancel, old(call.polls)), errorCallbacks, resp.status,
                               config, call.cancel);
        err == x.err && call.events == old(call.events) + x.step.events && call.polls == x.step.polls
    {
      err := HandleOnXML(call, resp);
      ghost var e1 := call.events;
      if err.Some? {
        var _ := HandleOnError(call, err, resp.status);
        assert call.events == old(call.events) + (e1[|old(call.events)|..] + call.events[|e1|..]);
      }
    }

    /** The Scraped callbacks and the last look at the context. */
    method RunScrapedPhase(call: Call, reqId: u32, xmlErr: Option<Error>) returns (err: Option<Error>)
      modifies call
      ensures var r := ScrapedThen(Registered(), reqId, xmlErr, call.cancel, old(call.polls));
        err == r.result && call.events == old(call.events) + r.events && call.polls == r.polls
    {
      HandleOnScraped(call, reqId);
      var done := call.Poll();
      if done {
        return Some(ContextDone);
      }
      return xmlErr;
    }

    /** The function `checkRedirectFunc` installs as the client's
        `CheckRedirect`: `req` is the new request and `via` the requests
        made so far, oldest first. It returns the error and the new
        request's headers. It reads this collector's configuration; the
        closure of the source is bound to the collector that created the
        backend, which clones share. */
    method CheckRedirect(req: Hop, via: seq<Hop>) returns (err: Option<Error>, newHeader: Headers)
      requires |via| > 0
      ensures !Scope.IsDomainAllowed(config, req.url.host) ==>
        err == Some(RedirectRefused(req.url.host)) && newHeader == req.header
      ensures Scope.IsDomainAllowed(config, req.url.host) && config.redirectHandler.Some? ==>
        err == config.redirectHandler.value(req, via) && newHeader == req.header
      ensures Scope.IsDomainAllowed(config, req.url.host) && config.redirectHandler.None? && |via| >= 10 ==>
        err == Some(UseLastResponse) && newHeader == req.header
      ensures Scope.IsDomainAllowed(config, req.url.host) && config.redirectHandler.None? && |via| < 10 ==>
        err.None? && newHeader == Redirected(req.header, via[|via| - 1], req.url)
    {
      newHeader := req.header;
      if !Scope.IsDomainAllowed(config, req.url.host) {
        return Some(RedirectRefused(req.url.host)), newHeader;
      }
      if config.redirectHandler.Some? {
        return config.redirectHandler.value(req, via), newHeader;
      }
      if |via| >= 10 {
        return Some(UseLastResponse), newHeader;
      }
      var lastRequest := via[|via| - 1];
      newHeader := CopyHeaders(newHeader, lastRequest.header);
      if req.url.host != lastRequest.url.host {
        newHeader := Del(newHeader, "Authorization");
      }
      err := None;
    }

    /** The loops that `Set` every value of every header of the last
        request on the new one, one header name at a time in whatever order
        the map yields them. */
    static method CopyHeaders(header: Headers, last: Headers) returns (h: Headers)
      ensures h == Propagated(header, last)
    {
      h := header;
      var names := last.Keys;
      ghost var done: set<string> := {};
      PropagatedOnNone(header, last);
      while names != {}
        invariant names + done == last.Keys && names !! done
        invariant h == PropagatedOn(header, last, done)
        decreases names
      {
        var hName :| hName in names;
        PropagatedOnOneMore(header, last, done, hName);
        h := SetEach(h, hName, last[hName]);
        names := names - {hName};
        done := done + {hName};
      }
    }

    /** The inner loop: `Set` each value of one header in turn, so that
        the last one is what stays. */
    static method SetEach(header: Headers, name: string, values: seq<string>) returns (h: Headers)
      ensures h == if |values| == 0 then header else header[name := [values[|values| - 1]]]
    {
      h := header;
      for j := 0 to |values|
        invariant h == if j == 0 then header else header[name := [values[j - 1]]]
      {
        h := Set(h, name, values[j]);
      }
    }

    /** `SetStorage`: when the new storage's `Init` succeeds (`initErr`
        is its result), the collector keeps its visited URLs and cookies in
        it and the client's jar becomes the serializer over it; otherwise
        the error is returned and nothing changes. */
    method SetStorage(s: Storage, initErr: Option<Error>) returns (err: Option<Error>)
      modifies this`store, backend
      ensures err == initErr
      ensures initErr.Some? ==> store == old(store) && backend.jar == old(backend.jar)
      ensures initErr.None? ==> store == s && backend.jar.Serializer? && backend.jar.jar.store == s
    {
      if initErr.Some? {
        return initErr;
      }
      store := s;
      var jar := new CookieJar(s);
      backend.jar := Serializer(jar);
      return None;
    }

    /** `SetCookies`: an error without a cookie jar or for a URL that does
        not parse; otherwise the client's jar takes the cookies for the URL.
        The serializer merges them into the storage it wraps. */
    method SetCookies(u: ParsedUrl, cookies: seq<CK.Cookie>) returns (err: Option<Error>)
      modifies if backend.jar.Serializer? then {backend.jar.jar.store} else {}
      ensures backend.jar.NoJar? ==> err == Some(NoCookieJar)
      ensures !backend.jar.NoJar? && u.ParseFailure? ==> err == Some(BadURL(u.reason))
      ensures !backend.jar.NoJar? && u.Parsed? ==> err.None?
      ensures backend.jar.Serializer? ==> var st := backend.jar.jar.store;
        st.visited == old(st.visited) &&
        st.cookies == if err.None? then old(st.cookies)[u.url.host := CK.Merge(cookies, old(st.CookiesAt(u.url.host)))]
                      else old(st.cookies)
    {
      if backend.jar.NoJar? {
        return Some(NoCookieJar);
      }
      if u.ParseFailure? {
        return Some(BadURL(u.reason));
      }
      if backend.jar.Serializer? {
        backend.jar.jar.SetCookies(u.url, cookies);
      }
      return None;
    }

    /** `Cookies`: nothing without a cookie jar or for a URL that does not
        parse; otherwise what the client's jar hands out for the URL at
        `now`. `netHttp` is what the `net/http/cookiejar` jar would hand
        out, which this model does not compute. */
    method Cookies(u: ParsedUrl, now: int, netHttp: seq<CK.Cookie>) returns (r: seq<CK.Cookie>)
      ensures backend.jar.NoJar? || u.ParseFailure? ==> r == []
      ensures backend.jar.NetHttpJar? && u.Parsed? ==> r == netHttp
      ensures backend.jar.Serializer? && u.Parsed? ==>
        r == CK.SendableCookies(backend.jar.jar.store.CookiesAt(u.url.host), u.url.scheme, now)
    {
      if backend.jar.NoJar? || u.ParseFailure? {
        return [];
      }
      if backend.jar.NetHttpJar? {
        return netHttp;
      }
      r := backend.jar.jar.Cookies(u.url, now);
    }

    /** `parseSettingsFromEnv` over the entries `os.Environ` gave: the
        settings of the known names are applied in order, the unknown
        names are returned as they would be logged, and an entry of a
        known name without "=" stops everything (Go panics there). */
    method ParseSettingsFromEnv(env: seq<string>) returns (unknown: seq<string>, panicked: Option<string>)
      modifies this`config, backend
      ensures var r := Env.ApplyEnv(Env.Settings(old(config), !old(backend.jar).NoJar?), env);
        config == r.settings.cfg && unknown == r.unknown && panicked == r.panicked &&
        (!backend.jar.NoJar? <==> r.settings.cookieJar) &&
        (!backend.jar.NoJar? ==> backend.jar == old(backend.jar))
    {
      ghost var s0 := Env.Settings(config, !backend.jar.NoJar?);
      unknown := [];
      panicked := None;
      for i := 0 to |env|
        invariant var r := Env.ApplyEnv(s0, env[..i]);
          r.panicked.None? && config == r.settings.cfg && unknown == r.unknown &&
          (!backend.jar.NoJar? <==> r.settings.cookieJar) &&
          (!backend.jar.NoJar? ==> backend.jar == old(backend.jar))
      {
        Env.ApplyEnvPrefix(s0, env, i);
        var effect := Env.ApplyEntry(Env.Settings(config, !backend.jar.NoJar?), env[i]);
        match effect
        case Ignored =>
        case UnknownName(name) =>
          unknown := unknown + [name];
        case MissingValue(name) =>
          panicked := Some(name);
          Env.PanicStops(s0, env, i + 1);
          return;
        case Applied(next) =>
          config := next.cfg;
          if !next.cookieJar {
            backend.jar := NoJar;
          }
      }
      assert env[..|env|] == env;
    }
  }
}
