/** Callbacks and their dispatch: what a registered callback is, which
    invocations a stage owes, and how far a stage gets before it sees its
    call context cancelled. */
module Hooks {
  import opened Types
  import opened Headers
  import opened Body

  /** A registered callback, known only by an identity: what it does when
      called is outside the model. */
  type HookId = nat

  /** A node of a parsed document. */
  datatype Node = Node(id: nat)

  /** An `OnHTML` or `OnXML` registration: the goquery selector or XPath
      query and the callback. */
  datatype ElementCallback = ElementCallback(key: string, hook: HookId)

  /** A parsed document, seen only through the nodes each selector or query
      matches, in document order. */
  datatype Document = Document(matches: map<string, seq<Node>>)

  /** What one of the HTML or XML parsers made of a response body. */
  datatype Parse = Doc(doc: Document) | ParseFailed(reason: string)

  function Matches(doc: Document, key: string): seq<Node> {
    if key in doc.matches then doc.matches[key] else []
  }

  /** A request as `scrape` builds it: method, URL (with its scheme filled
      in), headers and body. */
  datatype Outgoing = Outgoing(httpMethod: string, url: Url, header: Headers, body: RequestBody)

  /** What a collector does that the model observes: each callback
      invocation with the arguments it is given, and each request handed to
      the HTTP backend. */
  datatype Event =
    | RequestHook(hook: HookId, request: u32)
    | Sent(outgoing: Outgoing)
    | ResponseHook(hook: HookId, request: u32)
    | HtmlHook(hook: HookId, selector: string, node: Node, index: nat)
    | XmlHook(hook: HookId, query: string, node: Node)
    | ErrorHook(hook: HookId, err: Error, status: int)
    | ScrapedHook(hook: HookId, request: u32)

  /** The invocations one `OnHTML` registration owes for the nodes its
      selector matched: one per node, numbered from 0. */
  function HtmlElements(cb: ElementCallback, nodes: seq<Node>): (r: seq<Event>)
    ensures |r| == |nodes|
    ensures forall i :: 0 <= i < |nodes| ==> r[i] == HtmlHook(cb.hook, cb.key, nodes[i], i)
  {
    seq(|nodes|, i requires 0 <= i < |nodes| => HtmlHook(cb.hook, cb.key, nodes[i], i))
  }

  /** The same for an `OnXML` registration; XML elements carry no index. */
  function XmlElements(cb: ElementCallback, nodes: seq<Node>): (r: seq<Event>)
    ensures |r| == |nodes|
    ensures forall i :: 0 <= i < |nodes| ==> r[i] == XmlHook(cb.hook, cb.key, nodes[i])
  {
    seq(|nodes|, i requires 0 <= i < |nodes| => XmlHook(cb.hook, cb.key, nodes[i]))
  }

  /** Every invocation the HTML stage owes: registrations in order, and for
      each the nodes its selector matched. */
  function HtmlTargets(cbs: seq<ElementCallback>, doc: Document): seq<Event>
    decreases |cbs|
  {
    if cbs == [] then []
    else HtmlTargets(cbs[..|cbs| - 1], doc) + HtmlElements(cbs[|cbs| - 1], Matches(doc, cbs[|cbs| - 1].key))
  }

  function XmlTargets(cbs: seq<ElementCallback>, doc: Document): seq<Event>
    decreases |cbs|
  {
    if cbs == [] then []
    else XmlTargets(cbs[..|cbs| - 1], doc) + XmlElements(cbs[|cbs| - 1], Matches(doc, cbs[|cbs| - 1].key))
  }

  /** The invocations owed to plain callbacks, in registration order. */
  function RequestEvents(hooks: seq<HookId>, id: u32): (r: seq<Event>)
    ensures |r| == |hooks| && forall i :: 0 <= i < |hooks| ==> r[i] == RequestHook(hooks[i], id)
  {
    seq(|hooks|, i requires 0 <= i < |hooks| => RequestHook(hooks[i], id))
  }

  function ResponseEvents(hooks: seq<HookId>, id: u32): (r: seq<Event>)
    ensures |r| == |hooks| && forall i :: 0 <= i < |hooks| ==> r[i] == ResponseHook(hooks[i], id)
  {
    seq(|hooks|, i requires 0 <= i < |hooks| => ResponseHook(hooks[i], id))
  }

  function ErrorEvents(hooks: seq<HookId>, err: Error, status: int): (r: seq<Event>)
    ensures |r| == |hooks| && forall i :: 0 <= i < |hooks| ==> r[i] == ErrorHook(hooks[i], err, status)
  {
    seq(|hooks|, i requires 0 <= i < |hooks| => ErrorHook(hooks[i], err, status))
  }

  function ScrapedEvents(hooks: seq<HookId>, id: u32): (r: seq<Event>)
    ensures |r| == |hooks| && forall i :: 0 <= i < |hooks| ==> r[i] == ScrapedHook(hooks[i], id)
  {
    seq(|hooks|, i requires 0 <= i < |hooks| => ScrapedHook(hooks[i], id))
  }

  /** When the call context is seen cancelled. Looks at `ctx.Done()` made
      during a call are numbered from 0; a context once cancelled stays
      cancelled, so it is either never seen cancelled or seen cancelled by
      every look from some look on. */
  datatype Cancel = Never | From(look: nat)

  /** Does look `i` find the context cancelled? */
  predicate Done(c: Cancel, i: nat) {
    c.From? && c.look <= i
  }

  /** Every dispatch loop looks at the call context before each invocation
      and stops at the first look that finds it cancelled. Out of `n` owed
      invocations, starting at look `p`, this many are made. */
  function Reached(n: nat, c: Cancel, p: nat): (k: nat)
    ensures k <= n
    ensures forall i :: p <= i < p + k ==> !Done(c, i)
    ensures k < n ==> Done(c, p + k)
  {
    if c.Never? || c.look >= p + n then n
    else if c.look <= p then 0
    else c.look - p
  }

  /** One look per invocation made, plus the look that stopped the loop. */
  function PollsUsed(n: nat, k: nat): nat {
    if k < n then k + 1 else n
  }

  /** What a stage did: the invocations it made and the number of looks at
      the call context so far. */
  datatype Step = Step(events: seq<Event>, polls: nat)

  /** A dispatch loop over the owed invocations `targets`. */
  function Dispatch(targets: seq<Event>, c: Cancel, p: nat): (s: Step)
    ensures s.events <= targets
    ensures p <= s.polls <= p + |targets|
    ensures |s.events| == |targets| <==> |targets| == 0 || !Done(c, p + |targets| - 1)
  {
    var k := Reached(|targets|, c, p);
    Step(targets[..k], p + PollsUsed(|targets|, k))
  }

  /** The number of invocations a dispatch loop makes is the only one that
      fits: every look before them found the context live and, unless all
      were made, the next look found it cancelled. */
  lemma ReachedUnique(n: nat, c: Cancel, p: nat, k: nat)
    requires k <= n
    requires forall i :: p <= i < p + k ==> !Done(c, i)
    requires k < n ==> Done(c, p + k)
    ensures Reached(n, c, p) == k
  {
  }

  /** Dispatching two lists of owed invocations together is dispatching
      the first and, only if it ran to the end, the second after it. */
  lemma DispatchAppend(a: seq<Event>, b: seq<Event>, c: Cancel, p: nat)
    ensures var s := Dispatch(a, c, p);
      Dispatch(a + b, c, p) ==
        if |s.events| < |a| then s
        else Step(a + Dispatch(b, c, p + |a|).events, Dispatch(b, c, p + |a|).polls)
  {
    var k := Reached(|a|, c, p);
    if k < |a| {
      ReachedUnique(|a| + |b|, c, p, k);
      assert (a + b)[..k] == a[..k];
    } else {
      var t := Reached(|b|, c, p + |a|);
      ReachedUnique(|a| + |b|, c, p, |a| + t);
      assert (a + b)[..|a| + t] == a + b[..t];
      assert a[..k] == a;
    }
  }

  /** `DispatchAppend` seen from the loop that dispatches `a` and then `b`:
      when `a` ran to the end, the loop over `b` starts at the look where
      `a` left off, and stops early exactly when the loop over both would. */
  lemma DispatchStep(a: seq<Event>, b: seq<Event>, n: seq<Event>, c: Cancel, p: nat)
    requires n == a + b
    ensures var s := Dispatch(a, c, p);
      var t := Dispatch(b, c, s.polls);
      |s.events| == |a| ==>
        Dispatch(n, c, p) == Step(s.events + t.events, t.polls) &&
        (|Dispatch(n, c, p).events| < |n| <==> |t.events| < |b|)
  {
    DispatchAppend(a, b, c, p);
  }

  /** A dispatch loop that stopped early over the first invocations owed
      stops in the same place over all of them. */
  lemma DispatchPrefixStopped(a: seq<Event>, all: seq<Event>, c: Cancel, p: nat)
    requires a <= all && |Dispatch(a, c, p).events| < |a|
    ensures Dispatch(all, c, p) == Dispatch(a, c, p)
  {
    DispatchAppend(a, all[|a|..], c, p);
    assert all == a + all[|a|..];
  }

  /** The HTML stage registration by registration: the dispatch over the
      elements of the first `j + 1` registrations is that over the first
      `j` and, if it ran to the end, the dispatch of registration `j`'s
      elements after it. */
  lemma HtmlDispatchStep(cbs: seq<ElementCallback>, doc: Document, j: nat, c: Cancel, p: nat)
    requires j < |cbs|
    ensures var s := Dispatch(HtmlTargets(cbs[..j], doc), c, p);
      var b := HtmlElements(cbs[j], Matches(doc, cbs[j].key));
      var t := Dispatch(b, c, s.polls);
      var n := Dispatch(HtmlTargets(cbs[..j + 1], doc), c, p);
      |s.events| == |HtmlTargets(cbs[..j], doc)| ==>
        n == Step(s.events + t.events, t.polls) &&
        (|n.events| < |HtmlTargets(cbs[..j + 1], doc)| <==> |t.events| < |b|)
  {
    HtmlTargetsLength(cbs, doc, j);
    DispatchStep(HtmlTargets(cbs[..j], doc), HtmlElements(cbs[j], Matches(doc, cbs[j].key)), HtmlTargets(cbs[..j + 1], doc), c, p);
  }

  /** When the HTML stage stopped within the first `j` registrations, the
      later ones add nothing. */
  lemma HtmlDispatchStopped(cbs: seq<ElementCallback>, doc: Document, j: nat, c: Cancel, p: nat)
    requires j <= |cbs|
    requires |Dispatch(HtmlTargets(cbs[..j], doc), c, p).events| < |HtmlTargets(cbs[..j], doc)|
    ensures Dispatch(HtmlTargets(cbs, doc), c, p) == Dispatch(HtmlTargets(cbs[..j], doc), c, p)
  {
    HtmlTargetsPrefix(cbs, doc, j);
    DispatchPrefixStopped(HtmlTargets(cbs[..j], doc), HtmlTargets(cbs, doc), c, p);
  }

  lemma XmlDispatchStep(cbs: seq<ElementCallback>, doc: Document, j: nat, c: Cancel, p: nat)
    requires j < |cbs|
    ensures var s := Dispatch(XmlTargets(cbs[..j], doc), c, p);
      var b := XmlElements(cbs[j], Matches(doc, cbs[j].key));
      var t := Dispatch(b, c, s.polls);
      var n := Dispatch(XmlTargets(cbs[..j + 1], doc), c, p);
      |s.events| == |XmlTargets(cbs[..j], doc)| ==>
        n == Step(s.events + t.events, t.polls) &&
        (|n.events| < |XmlTargets(cbs[..j + 1], doc)| <==> |t.events| < |b|)
  {
    XmlTargetsLength(cbs, doc, j);
    DispatchStep(XmlTargets(cbs[..j], doc), XmlElements(cbs[j], Matches(doc, cbs[j].key)), XmlTargets(cbs[..j + 1], doc), c, p);
  }

  lemma XmlDispatchStopped(cbs: seq<ElementCallback>, doc: Document, j: nat, c: Cancel, p: nat)
    requires j <= |cbs|
    requires |Dispatch(XmlTargets(cbs[..j], doc), c, p).events| < |XmlTargets(cbs[..j], doc)|
    ensures Dispatch(XmlTargets(cbs, doc), c, p) == Dispatch(XmlTargets(cbs[..j], doc), c, p)
  {
    XmlTargetsPrefix(cbs, doc, j);
    DispatchPrefixStopped(XmlTargets(cbs[..j], doc), XmlTargets(cbs, doc), c, p);
  }

  /** Once a dispatch loop stops on a cancelled context, every later look
      finds it cancelled too, so a later stage makes no invocation. */
  lemma StoppedStaysStopped(targets: seq<Event>, c: Cancel, p: nat, later: seq<Event>, q: nat)
    requires |Dispatch(targets, c, p).events| < |targets|
    requires q >= Dispatch(targets, c, p).polls - 1
    ensures Dispatch(later, c, q).events == []
  {
  }

  /** The registrations' node lists laid end to end: the HTML stage owes
      exactly this many invocations. */
  lemma {:induction false} HtmlTargetsLength(cbs: seq<ElementCallback>, doc: Document, j: nat)
    requires j < |cbs|
    ensures HtmlTargets(cbs[..j + 1], doc) == HtmlTargets(cbs[..j], doc) + HtmlElements(cbs[j], Matches(doc, cbs[j].key))
  {
    assert cbs[..j + 1][..j] == cbs[..j];
  }

  /** Within the HTML stage, the `i`-th node matched by registration `j`
      is handed to that registration's callback with index `i`: the index
      starts again at 0 for every registration. */
  lemma HtmlIndexRestarts(cbs: seq<ElementCallback>, doc: Document, j: nat, i: nat)
    requires j < |cbs| && i < |Matches(doc, cbs[j].key)|
    ensures var off := |HtmlTargets(cbs[..j], doc)|;
      off + i < |HtmlTargets(cbs[..j + 1], doc)| &&
      HtmlTargets(cbs[..j + 1], doc)[off + i] == HtmlHook(cbs[j].hook, cbs[j].key, Matches(doc, cbs[j].key)[i], i)
  {
    HtmlTargetsLength(cbs, doc, j);
  }

  /** The invocations owed to the first registrations come first among
      those owed to all of them. */
  lemma {:induction false} HtmlTargetsPrefix(cbs: seq<ElementCallback>, doc: Document, j: nat)
    requires j <= |cbs|
    ensures HtmlTargets(cbs[..j], doc) <= HtmlTargets(cbs, doc)
    decreases |cbs| - j
  {
    if j == |cbs| {
      assert cbs[..j] == cbs;
    } else {
      HtmlTargetsPrefix(cbs, doc, j + 1);
      HtmlTargetsLength(cbs, doc, j);
    }
  }

  lemma {:induction false} XmlTargetsLength(cbs: seq<ElementCallback>, doc: Document, j: nat)
    requires j < |cbs|
    ensures XmlTargets(cbs[..j + 1], doc) == XmlTargets(cbs[..j], doc) + XmlElements(cbs[j], Matches(doc, cbs[j].key))
  {
    assert cbs[..j + 1][..j] == cbs[..j];
  }

  lemma {:induction false} XmlTargetsPrefix(cbs: seq<ElementCallback>, doc: Document, j: nat)
    requires j <= |cbs|
    ensures XmlTargets(cbs[..j], doc) <= XmlTargets(cbs, doc)
    decreases |cbs| - j
  {
    if j == |cbs| {
      assert cbs[..j] == cbs;
    } else {
      XmlTargetsPrefix(cbs, doc, j + 1);
      XmlTargetsLength(cbs, doc, j);
    }
  }

  /** The HTML stage owes only HTML element invocations. */
  lemma {:induction false} HtmlTargetsAreHtml(cbs: seq<ElementCallback>, doc: Document)
    ensures forall i :: 0 <= i < |HtmlTargets(cbs, doc)| ==> HtmlTargets(cbs, doc)[i].HtmlHook?
    decreases |cbs|
  {
    if cbs != [] {
      HtmlTargetsAreHtml(cbs[..|cbs| - 1], doc);
    }
  }

  /** The XML stage owes only XML element invocations. */
  lemma {:induction false} XmlTargetsAreXml(cbs: seq<ElementCallback>, doc: Document)
    ensures forall i :: 0 <= i < |XmlTargets(cbs, doc)| ==> XmlTargets(cbs, doc)[i].XmlHook?
    decreases |cbs|
  {
    if cbs != [] {
      XmlTargetsAreXml(cbs[..|cbs| - 1], doc);
    }
  }

  /** The first registration with the given selector or query, if any. */
  function IndexOfKey(cbs: seq<ElementCallback>, key: string): (r: Option<nat>)
    ensures r.Some? ==> r.value < |cbs| && cbs[r.value].key == key
    ensures r.Some? ==> forall i :: 0 <= i < r.value ==> cbs[i].key != key
    ensures r.None? <==> forall i :: 0 <= i < |cbs| ==> cbs[i].key != key
    decreases |cbs|
  {
    if cbs == [] then None
    else if cbs[0].key == key then Some(0)
    else match IndexOfKey(cbs[1..], key)
      case None => None
      case Some(i) => Some(i + 1)
  }

  /** `OnHTMLDetach` and `OnXMLDetach`: the first registration with the key
      is removed; without one, nothing changes. */
  function Detached(cbs: seq<ElementCallback>, key: string): (r: seq<ElementCallback>)
    ensures IndexOfKey(cbs, key).None? ==> r == cbs
    ensures IndexOfKey(cbs, key).Some? ==> |r| == |cbs| - 1
  {
    match IndexOfKey(cbs, key)
    case None => cbs
    case Some(i) => cbs[..i] + cbs[i + 1..]
  }

  /** Detaching keeps every other registration, in order: the ones before
      the removed one where they were, the ones after it one place earlier,
      and no registration with the key is left in front of the gap. */
  lemma {:induction false} DetachedKeepsOthers(cbs: seq<ElementCallback>, key: string)
    requires IndexOfKey(cbs, key).Some?
    ensures var d := IndexOfKey(cbs, key).value;
      var r := Detached(cbs, key);
      (forall i :: 0 <= i < d ==> r[i] == cbs[i] && r[i].key != key) &&
      (forall i :: d < i < |cbs| ==> r[i - 1] == cbs[i]) &&
      multiset(r) + multiset{cbs[d]} == multiset(cbs)
  {
    var d := IndexOfKey(cbs, key).value;
    assert cbs == cbs[..d] + [cbs[d]] + cbs[d + 1..];
  }
}
