# colly Collector, modelled in Dafny

This project models the `Collector` of the colly web-scraping framework
(`colly.go`). The model covers:

- how a URL is admitted: the scope rules, revisit detection against the
  visited set in storage, the allowed and disallowed domains, and the
  robots.txt cache;
- how `scrape` builds the request and how `fetch` runs it. `fetch` runs the
  Request callbacks, checks for an abort, sends the request, classifies
  errors, then runs the Response, HTML, XML and Scraped phases. It looks at
  the call context between every step;
- how callbacks are registered and detached;
- the redirect policy;
- the cookie jars: the `net/http/cookiejar` jar a new collector gets, and the
  serializer over the storage that `SetStorage` installs;
- the environment settings read by `NewCollector`;
- the request-body helpers.

The modules follow the structure of the source:

| module | what it holds |
|---|---|
| `Types` | `Option`, the error values, URLs, the configuration fields, `uint32` counters with wrap-around |
| `Text` | `strings.ToLower`, `Contains`, `Split`, `SplitN`, the UTF-8 byte view, and `strconv.Atoi` and `%d` |
| `Fnv` | FNV-1a 64, the hash of the visited set |
| `Headers` | `http.Header` operations, the header defaults of `fetch`, the header copying of redirects |
| `Scope` | `requestCheck`, `isDomainAllowed`, `isMatchingFilter` and the admission part of `scrape`, as functions |
| `Hooks` | callbacks, the invocations each stage owes, and the dispatch loop that stops on a cancelled context |
| `Pipeline` | `fetch` as a function of its inputs (`RunFetch`), the specification the `Fetch` method is proved against |
| `Cookies` | the merge and filter rules of the `cookieJarSerializer` jar |
| `Body` | `setRequestBody` and `createMultipartReader` |
| `Env` | `envMap`, `isYesString` and `parseSettingsFromEnv`, as functions |
| `Shared` | the objects shared between clones: the collector counter, the storage, the robots.txt cache and the backend with its client's cookie jar (none, the `net/http/cookiejar` jar, or the `cookieJarSerializer` over a storage), plus the call context of one `Visit` |
| `Colly` | the `Collector` class itself |

The call context is a `Call` object with three fields:

- `cancel` is either `Never`, or `From(k)`: the context is seen as
  cancelled from look `k` on. A closed Done channel stays closed.
- `polls` counts the looks at `ctx.Done()` made so far, so the next
  look is number `polls`.
- `events` is the ordered record of every callback invocation and every
  request handed to the backend.

Each `Collector` method that runs part of `fetch` has two kinds of
postcondition:

- it equals a pipeline function on the events it appends and the looks it
  uses;
- it states what that function guarantees, through lemmas in `Pipeline` and
  `Hooks`. These cover the order of the stages, an abort, a cancelled
  context, and which error is returned.

## Model

| member | source | states |
|---|---|---|
| `Types.DefaultConfig` | colly.go:365-380 | `Init` leaves no depth limit, ignores robots.txt, is synchronous, has a 10 MiB body limit, no domain lists, no URL filters and no redirect handler |
| `Types.Inc` | colly.go:579 | `atomic.AddUint32(&x, 1)` wraps around at 2^32 |
| `Text.Split` | colly.go:195 | `strings.Split` always gives at least one piece |
| `Text.SplitJoin` | colly.go:194-196 | joining the pieces of a split gives back the text, and no piece holds the separator |
| `Text.CutAt` | colly.go:1261 | `SplitN(s, "=", 2)` gives one piece exactly when there is no "="; otherwise the text is the part before, "=", then the rest; the part before holds no "=" |
| `Text.CutAtJoined` | colly.go:1261 | cutting `name=value` where the name has no "=" gives back the name and the whole value, even when the value holds "=" |
| `Text.Utf8Char` | colly.go:678 | each char is 1 to 4 bytes, and exactly one when it is ASCII |
| `Text.Utf8` | colly.go:678 | the byte view is at least as long as the text |
| `Text.Utf8Ascii` | colly.go:678 | on ASCII text, the byte view is the text, one byte per char |
| `Text.Ascii` | colly.go:1299-1307 | the bytes of ASCII literals, one per char |
| `Text.AsciiIsUtf8` | colly.go:1299-1307 | for ASCII text, the literal bytes and the UTF-8 bytes agree |
| `Text.DigitChar` | colly.go:1303 | a digit value is written as a decimal digit |
| `Text.Itoa` | colly.go:1303 | `%d` of a natural number is non-empty, all digits, ASCII, and has no leading zero |
| `Text.ScanUint` | colly.go:220 | a successful scan of digits stays within `uint64` |
| `Text.Atoi` | colly.go:220 | an accepted number lies in the `int64` range and starts with a digit or a sign |
| `Text.ScanUintAppend` | colly.go:220 | scanning a concatenation scans the first part, then carries on from its value |
| `Text.ScanItoa` | colly.go:220 | the digit scan reads back every `%d` text |
| `Text.AtoiItoa` | colly.go:220 | `strconv.Atoi` reads back every non-negative value `%d` writes |
| `Fnv.TestVectors` | colly.go:677-679 | FNV-1a 64 gives the published values for "" and "a" |
| `Fnv.AbsorbSnoc` | colly.go:677-679 | writing one more byte is one more xor-and-multiply step of the hash loop |
| `Fnv.Sum64a` | colly.go:677-679 | FNV-1a defined from the last byte back equals the `Write` loop run front to back from the offset basis |
| `Fnv.UrlHash` | colly.go:677-679 | the visited-set key of a URL is the `Write` loop over the URL's UTF-8 bytes, from the offset basis |
| `Headers.DefaultsSet` | colly.go:593-599 | after the defaults a request always has an Accept value; it is "*/*" only when there was none; a POST without a Content-Type value gets the form encoding appended; no other header changes |
| `Headers.WithDefaults` | colly.go:593-598 | after the defaults every request has an Accept value and still has every header it had |
| `Headers.Propagated` | colly.go:1240-1245 | after the copy loops, each header of the last request that has values holds only its last value; every other header is unchanged |
| `Headers.PropagatedOnNone` | colly.go:1240-1245 | copying no header changes nothing |
| `Headers.PropagatedOnOneMore` | colly.go:1240-1245 | copying one more header sets its last value, if it has any |
| `Scope.Listed` | colly.go:693-697 | the loop over a domain list finds a domain exactly when the list holds it |
| `Scope.IsDomainAllowed` | colly.go:692-707 | a disallowed domain is refused; with no allowed list every other domain is accepted; otherwise a domain is accepted exactly when it is listed |
| `Scope.IsMatchingFilter` | colly.go:1370-1377 | true exactly when some filter matches the URL |
| `Scope.ScopeCheck` | colly.go:659-675 | each scope error happens exactly under its own condition, earlier checks winning: missing URL, then depth beyond a positive limit, then a disallowed-filter match, then no allowed-filter match |
| `Scope.Dedups` | colly.go:676 | the visited set is consulted only for a GET that asks for revisit detection, and never when revisits are allowed |
| `Scope.RequestCheck` | colly.go:659-690 | a scope error is returned unchanged; the visited set only gains the URL's hash, and only for a deduplicated GET; AlreadyVisited exactly when that hash was already present |
| `Scope.SecondVisitRefused` | colly.go:676-689 | the first GET of a URL in scope is accepted and recorded; the same GET again is refused as already visited |
| `Scope.RevisitWithoutDedup` | colly.go:676 | with revisits allowed, a non-GET method or no revisit check, an in-scope URL is accepted and nothing is recorded |
| `Scope.WithScheme` | colly.go:496-498 | a URL without a scheme gets "http"; host and path are kept |
| `Scope.Admit` | colly.go:488-501 | an error of `requestCheck` is returned unchanged; then a URL that does not parse gives its parse error; `ErrForbiddenDomain` comes exactly when the checks passed, the URL parsed and its host is not allowed; a URL is admitted exactly when all three pass, with its scheme filled in; the visited set is the one `requestCheck` leaves |
| `Scope.ForbiddenDomainStillRecorded` | colly.go:488-501 | a URL on a forbidden domain is still marked visited, so a second attempt fails as already visited rather than as forbidden |
| `Hooks.HtmlElements` | colly.go:985-993 | an HTML registration owes one invocation per matched node, numbered from 0 |
| `Hooks.XmlElements` | colly.go:1042-1048 | an XML registration owes one invocation per matched node |
| `Hooks.RequestEvents` | colly.go:944-951 | the Request callbacks are owed in registration order |
| `Hooks.ResponseEvents` | colly.go:961-968 | the Response callbacks are owed in registration order |
| `Hooks.ErrorEvents` | colly.go:1126-1133 | the Error callbacks are owed in order, with the error and the status |
| `Hooks.ScrapedEvents` | colly.go:1143-1150 | the Scraped callbacks are owed in registration order |
| `Hooks.Reached` | colly.go:944-951 | the number of invocations made is the largest count before a look finds the context cancelled |
| `Hooks.Dispatch` | colly.go:944-951 | a dispatch loop makes a prefix of the owed invocations; it makes all of them exactly when the last look finds the context live |
| `Hooks.DispatchAppend` | colly.go:944-951 | dispatching two lists in a row: a stop in the first list ends everything there; otherwise the second list runs from the look where the first ended |
| `Hooks.ReachedUnique` | colly.go:944-951 | any count that fits the looks is the count `Reached` gives |
| `Hooks.DispatchStep` | colly.go:984-1013 | dispatching two lists is dispatching the first, then (if it finished) the second from the look where the first stopped |
| `Hooks.DispatchPrefixStopped` | colly.go:1011-1013 | a loop that stopped early on a prefix stops in the same place on the whole list |
| `Hooks.HtmlDispatchStep` | colly.go:984-1013 | the HTML stage, one registration at a time |
| `Hooks.HtmlDispatchStopped` | colly.go:1011-1013 | once the HTML stage stops, later registrations add nothing (the `exit` flag) |
| `Hooks.XmlDispatchStep` | colly.go:1041-1065 | the XML stage, one registration at a time |
| `Hooks.XmlDispatchStopped` | colly.go:1062-1064 | once the XML stage stops, later registrations add nothing |
| `Hooks.StoppedStaysStopped` | colly.go:1000-1008 | after a stop on a cancelled context, every later stage makes no invocation |
| `Hooks.HtmlTargetsLength` | colly.go:984-1013 | the HTML invocations for the first j+1 registrations are those for the first j, then registration j's nodes |
| `Hooks.HtmlIndexRestarts` | colly.go:985-993 | the i-th node of registration j is handed over with index i: the index restarts at 0 for every selector |
| `Hooks.HtmlTargetsPrefix` | colly.go:984-1013 | the invocations of the first registrations come first |
| `Hooks.XmlTargetsLength` | colly.go:1041-1065 | the XML counterpart of `HtmlTargetsLength` |
| `Hooks.XmlTargetsPrefix` | colly.go:1041-1065 | the XML counterpart of `HtmlTargetsPrefix` |
| `Hooks.HtmlTargetsAreHtml` | colly.go:985-993 | the HTML stage owes only HTML element invocations |
| `Hooks.XmlTargetsAreXml` | colly.go:1042-1048 | the XML stage owes only XML element invocations |
| `Hooks.IndexOfKey` | colly.go:813-819 | the index found is the first registration with that key; none exactly when no registration has it |
| `Hooks.Detached` | colly.go:811-824 | with no match nothing changes; otherwise exactly one registration goes |
| `Hooks.DetachedKeepsOthers` | colly.go:820-822 | the registrations before the removed one stay in place, later ones move up by one, and the multiset loses exactly the removed one |
| `Body.SetRequestBody` | colly.go:510-564 | only in-memory readers can be replayed; they replay exactly their unread bytes and announce that length; an empty in-memory body is sent as `NoBody`; a nil reader gives no body; other readers have length 0 |
| `Body.ReplayMatchesLength` | colly.go:534-564 | a replayed body carries exactly the announced content length |
| `Body.Chunks` | colly.go:1293-1309 | the pieces are the preamble, one section per part in order, then the closing delimiter |
| `Body.CreateMultipartReader` | colly.go:1293-1309 | the loop writes exactly the multipart layout |
| `Body.WritePart` | colly.go:1301-1305 | one iteration appends exactly one part's section |
| `Body.ConcatSnoc` | colly.go:1293-1309 | writing one more piece appends it |
| `Body.ConcatPrefix` | colly.go:1293-1309 | what is written for the first pieces is a prefix of the body |
| `Body.ConcatAt` | colly.go:1293-1309 | each piece sits unchanged right after the pieces before it |
| `Body.SectionCarriesContent` | colly.go:1302-1304 | a part's content sits unchanged after its head, and its Content-Length line reads back as the exact byte count |
| `Pipeline.ErrorToReport` | colly.go:1101-1107 | an error in hand is reported as it is; with none, status 203 or more is an error unless error responses are to be parsed |
| `Pipeline.HandleOnError` | colly.go:1101-1135 | no report means no Error callback; a report dispatches the Error callbacks with that error |
| `Pipeline.HtmlStage` | colly.go:971-1016 | with no registrations or a non-HTML type, nothing happens; an unparsable body is an error exactly then and runs no callback; otherwise every matched element is dispatched |
| `Pipeline.XmlParse` | colly.go:1022-1066 | an "html" type uses the HTML parser, an "xml"-only type the XML parser, and anything else none |
| `Pipeline.XmlStage` | colly.go:1018-1099 | the XML counterpart of `HtmlStage`, over the parser `XmlParse` picks |
| `Pipeline.AnyAborts` | colly.go:589-591 | an abort happens exactly when a callback that ran sets it |
| `Pipeline.RunFetch` | colly.go:566-657 | a run starts with the Request callbacks that ran; a response is counted exactly when the context was live after them, no callback aborted and the round trip is not classified as an error; then the request, with its header defaults, was sent right after those callbacks |
| `Pipeline.AfterSend` | colly.go:601-620 | a response is counted exactly when `handleOnError` reports nothing; a reported error is returned; a charset failure returns its error before any callback runs |
| `Pipeline.Checked` | colly.go:629-642 | the stage's error is kept; the Error callbacks only add to what the stage did; a stage without error is left as it is |
| `Pipeline.Resume` | colly.go:622-656 | every run of the phases after the round trip counts a response |
| `Pipeline.ResponseThen` | colly.go:622-627 | the Response phase counts a response |
| `Pipeline.HtmlThen` | colly.go:629-637 | the HTML phase counts a response |
| `Pipeline.XmlThen` | colly.go:639-647 | the XML phase counts a response |
| `Pipeline.ScrapedThen` | colly.go:649-656 | the Scraped phase counts a response |
| `Pipeline.CancelledBeforeSend` | colly.go:582-587 | a context cancelled after the Request callbacks returns the context error; only Request callbacks ran, nothing was sent, no response was counted |
| `Pipeline.AbortSkipsEverything` | colly.go:582-591 | when the look after the Request callbacks finds the context live (cancelled or not later), every Request callback has run; if one aborts, the request is never sent, no error is returned and nothing else runs |
| `Pipeline.ErrorStopsPipeline` | colly.go:601-605 | a round trip classified as an error returns it after the Error callbacks only, and counts no response |
| `Pipeline.CheckedReports` | colly.go:629-642 | a stage's error always reaches `handleOnError`, which never filters it out |
| `Pipeline.StatusThreshold` | colly.go:1102-1106 | 203 is already an error and 202 is not; `ParseHTTPErrorResponse` lets 404 through; a transport error is reported whatever the status |
| `Pipeline.DispatchAll` | colly.go:944-951 | a context never cancelled lets every invocation run |
| `Pipeline.CheckedAll` | colly.go:629-632 | with a live context, a failed stage is followed by every Error callback, and a successful one by none |
| `Pipeline.HtmlErrorReported` | colly.go:629-632 | a body goquery refuses still reaches every `OnError` callback |
| `Pipeline.ScrapedPhaseAll` | colly.go:649-656 | every Scraped callback runs, and `fetch` returns the XML phase's error |
| `Pipeline.XmlPhaseAll` | colly.go:639-656 | the Scraped callbacks follow the XML phase, and its error is what is returned |
| `Pipeline.HtmlPhaseNever` | colly.go:629-639 | with a live context, the HTML phase is followed by the XML phase |
| `Pipeline.ResultIsXmlError` | colly.go:629-656 | an HTML-stage error is reported but not returned; `fetch` returns the XML stage's error; the Scraped callbacks always run last |
| `Pipeline.HtmlStageAll` | colly.go:971-1016 | an HTML response goquery parses reaches every matched element of every registration |
| `Pipeline.XmlStageAll` | colly.go:1018-1099 | the XML counterpart of `HtmlStageAll` |
| `Pipeline.AfterSendSuccess` | colly.go:601-627 | a successful response with a usable charset runs every Response callback, then the HTML phase |
| `Pipeline.ParsedPhasesAll` | colly.go:629-656 | every HTML element, then every XML element, then every Scraped callback run, and no error is returned |
| `Pipeline.RunFetchSends` | colly.go:582-602 | a request neither cancelled nor aborted is sent with its header defaults right after the Request callbacks, and the rest of `fetch` follows |
| `Pipeline.SentAfterRequestHooks` | colly.go:582-602 | with a live context and no abort, the request is sent after every Request callback |
| `Pipeline.FullOrder` | colly.go:566-657 | a successful, uncancelled, unaborted request runs the stages in this order: Request callbacks, send, Response callbacks, HTML elements, XML elements, Scraped callbacks; it returns no error |
| `Pipeline.CancelledFromStart` | colly.go:582-587 | a context already cancelled stops `fetch` at the first look: no callback runs and nothing is sent |
| `Pipeline.ResponseCancelled` | colly.go:622-627 | a context found cancelled after the Response callbacks returns the context error; a response was counted and only Response callbacks ran |
| `Pipeline.HtmlCancelled` | colly.go:629-637 | a context found cancelled after the HTML phase returns the context error, not the HTML error; only HTML element callbacks and the Error callbacks reporting it ran |
| `Pipeline.XmlCancelled` | colly.go:639-647 | a context found cancelled after the XML phase returns the context error, not the XML error; no Scraped callback runs |
| `Pipeline.ScrapedCancelled` | colly.go:649-656 | a context found cancelled at the last look returns the context error instead of the XML phase's error; only Scraped callbacks ran in that phase |
| `Cookies.Merge` | colly.go:1334-1349 | the merge keeps every new cookie and adds at most every existing one |
| `Cookies.MergeShape` | colly.go:1340-1347 | new cookies come first, unchanged; what follows is existing cookies no new cookie shadows, with no repeated name; no existing name is lost |
| `Cookies.Unshadowed` | colly.go:1343-1346 | exactly the existing cookies whose names no new cookie uses |
| `Cookies.MergeDistinct` | colly.go:1334-1349 | over stored cookies with distinct names, the merge is the new cookies followed by the unshadowed stored ones, in order |
| `Cookies.SendableCookies` | colly.go:1351-1368 | the filter never adds cookies |
| `Cookies.SendableMembers` | colly.go:1356-1366 | a cookie is handed out exactly when it is stored, has not expired, and is not secure over a non-https URL |
| `Cookies.SendableAppend` | colly.go:1351-1368 | the filter keeps the order |
| `Cookies.SendableIdempotent` | colly.go:1351-1368 | filtering twice changes nothing more |
| `Cookies.SendableAllKept` | colly.go:1351-1368 | a list whose cookies may all be sent is handed out whole |
| `Cookies.SetThenRead` | colly.go:1334-1368 | cookies just set, and sendable over https, are read back first and unchanged |
| `Env.IsYesString` | colly.go:1322-1328 | an accepted value is 1, 3 or 4 chars long; with `Env.YesIgnoresCase` and `Env.YesStrings`, exactly "1", "yes", "true" or "y" in any ASCII case is accepted |
| `Env.YesIgnoresCase` | colly.go:1322-1328 | case does not matter |
| `Env.YesStrings` | colly.go:1322-1328 | "YES", "True", "y" and "1" are yes; "no", "", "yes " and "on" are not |
| `Env.StopRedirects` | colly.go:212-218 | the handler refuses every redirect with `ErrUseLastResponse` |
| `Env.SetByName` | colly.go:193-237 | only DISABLE_COOKIES removes the cookie jar |
| `Env.ApplyEntry` | colly.go:1256-1268 | entries without the prefix are ignored; unknown names are reported; a known name without "=" panics; no setter adds a cookie jar |
| `Env.EntryParsed` | colly.go:1261-1266 | `COLLY_name=value` runs the setter of a known name on the whole value; an unknown name is reported |
| `Env.YesNoSettings` | colly.go:200-233 | the three yes/no settings take `isYesString` of the value, and nothing else changes |
| `Env.DomainLists` | colly.go:194-208 | the domain lists are the value split at commas: joined again they give the value, and no domain holds a comma |
| `Env.FollowRedirects` | colly.go:212-218 | a yes value changes nothing; any other value installs a handler that stops every redirect |
| `Env.DisableCookiesIgnoresValue` | colly.go:203-205 | DISABLE_COOKIES removes the jar whatever the value is |
| `Env.MaxBodySizeParsed` | colly.go:219-224 | every size `%d` writes is read back; a value that is not a number leaves the limit alone |
| `Env.SetMaxDepthAsWritten` | colly.go:225-230 | only the depth limit can change, and a value `strconv.Atoi` accepts changes nothing |
| `Env.SetMaxDepthIntended` | colly.go:225-230 | only the depth limit can change, and a value that is not a number changes nothing |
| `Env.MaxDepthAsWritten` | colly.go:225-230 | a MAX_DEPTH entry, applied as the source does, ignores every number and turns "ten" into the limit 0 |
| `Env.MaxDepthIntended` | colly.go:225-230 | the corrected setter reads back every depth `%d` writes, and leaves the limit alone for a non-number |
| `Env.ApplyEnv` | colly.go:1256-1268 | without a panic, no more names are reported than there are entries; every reported name is unknown |
| `Env.ApplyEnvPrefix` | colly.go:1257 | the run over one more entry is the run so far followed by that entry |
| `Env.Next` | colly.go:1257-1267 | after a panic an entry does nothing; an entry without the prefix does nothing; at most one unknown name is added; a panicking entry changes no setting |
| `Env.PanicStops` | colly.go:1262-1263 | nothing happens after a panic |
| `Env.OthersIgnored` | colly.go:1258-1260 | an entry without the COLLY_ prefix changes nothing |
| `Env.LastEntryWins` | colly.go:234-236 | the last USER_AGENT entry decides the user agent |
| `Shared.RobotsVerdict` | colly.go:729-737 | only `ErrRobotsTxtBlocked` can be returned; there is no error exactly when no group applies or the group allows the path |
| `Shared.CollectorCounter.constructor` | colly.go:159 | the counter starts at 0 |
| `Shared.CollectorCounter.Next` | colly.go:379 | the counter goes up by one, wrapping around, and the new value is the ID |
| `Shared.Storage.constructor` | colly.go:368-369 | a new store has visited nothing and holds no cookies |
| `Shared.Storage.IsVisited` | colly.go:680 | true exactly when the hash is in the visited set |
| `Shared.Storage.Visited` | colly.go:687 | the hash is added and nothing else; the cookies stay |
| `Shared.CookieJar.constructor` | colly.go:1330-1332 | `createJar` builds a serializer over the given storage |
| `Shared.CookieJar.SetCookies` | colly.go:1334-1349 | the storage's cookies for the host become the merge of the new ones over the old ones; no other host and no visited URL changes |
| `Shared.CookieJar.Cookies` | colly.go:1351-1368 | returns exactly the host's sendable stored cookies, in order |
| `Shared.RobotsMap.constructor` | colly.go:377 | the robots.txt cache starts empty |
| `Shared.Backend.constructor` | colly.go:371-373 | a new backend's client holds the `net/http/cookiejar` jar |
| `Shared.Call.constructor` | colly.go:413-415 | a call starts with no looks and no events |
| `Shared.Call.Poll` | colly.go:583-587 | one look at `ctx.Done()`: it reports whether the context is cancelled at this look |
| `Shared.Call.Invoke` | colly.go:944-951 | the loop of every `handleOn*` appends exactly what `Dispatch` says, and reports whether it stopped early |
| `Colly.Redirected` | colly.go:1241-1250 | Authorization survives only on the same host; every other header is the propagated one |
| `Colly.HeaderOrDefault` | colly.go:507-509 | given headers are kept; otherwise only User-Agent is set, to the collector's user agent |
| `Colly.RobotsCheck` | colly.go:709-738 | a cached robots.txt is used and no download happens; a failed download is an error and caches nothing; a successful one is cached for the host before it is consulted |
| `Colly.RobotsCachedOnce` | colly.go:711-727 | once a host's robots.txt is cached, later checks of that host keep the cache and ignore what a download would give |
| `Colly.DetachFirst` | colly.go:813-822 | the search-and-splice loop computes `Detached` |
| `Colly.Collector.Init` | colly.go:365-380 | default configuration, no callbacks, zero counters, a fresh, empty store and cache, a backend whose client holds the `net/http/cookiejar` jar, and the next collector ID |
| `Colly.Collector.Sharing` | colly.go:1191-1221 | a collector with the given configuration and ID, no callbacks, zero counters, and the given shared objects |
| `Colly.Collector.Clone` | colly.go:1191-1221 | a new collector with the same configuration and a new ID; no callbacks or counters; store, backend and robots.txt cache are shared |
| `Colly.Collector.OnRequest` | colly.go:761-768 | the callback is appended to the Request list |
| `Colly.Collector.OnResponse` | colly.go:771-778 | the callback is appended to the Response list |
| `Colly.Collector.OnHTML` | colly.go:783-793 | the selector and callback are appended to the HTML list |
| `Colly.Collector.OnXML` | colly.go:798-809 | the query and callback are appended to the XML list |
| `Colly.Collector.OnHTMLDetach` | colly.go:811-824 | the first HTML registration with the selector is removed |
| `Colly.Collector.OnXMLDetach` | colly.go:827-840 | the first XML registration with the query is removed |
| `Colly.Collector.OnError` | colly.go:844-851 | the callback is appended to the Error list |
| `Colly.Collector.OnScraped` | colly.go:855-862 | the callback is appended to the Scraped list |
| `Colly.Collector.RequestCheck` | colly.go:659-690 | the error and the new visited set are those of `Scope.RequestCheck`; the stored cookies are unchanged |
| `Colly.Collector.CheckRobots` | colly.go:709-738 | the error and the new cache are those of `RobotsCheck` |
| `Colly.Collector.Admit` | colly.go:488-501 | the error, visited set and URL are those of `Scope.Admit`; the stored cookies are unchanged |
| `Colly.Collector.Scrape` | colly.go:488-532 | admission errors, then robots.txt errors, are returned before anything runs; an admitted async request returns no error without fetching; an admitted sync request gets the next ID and runs exactly `RunFetch`; the stored cookies are unchanged |
| `Colly.Collector.Fetch` | colly.go:566-657 | the request count goes up by one, and the run is exactly `RunFetch` under that ID |
| `Colly.Collector.Begin` | colly.go:582-657 | the run is exactly `RunFetch`; the response count goes up exactly when a response was accepted |
| `Colly.Collector.Send` | colly.go:593-602 | the request is recorded with its header defaults, then the rest is `AfterSend` |
| `Colly.Collector.Receive` | colly.go:601-627 | the outcome is exactly `AfterSend` |
| `Colly.Collector.HandleOnRequest` | colly.go:938-952 | the Request callbacks are dispatched; abort is set exactly when a callback that ran aborts |
| `Colly.Collector.HandleOnResponse` | colly.go:954-969 | the Response callbacks are dispatched |
| `Colly.Collector.HandleOnScraped` | colly.go:1137-1151 | the Scraped callbacks are dispatched |
| `Colly.Collector.HandleOnError` | colly.go:1101-1135 | the result is exactly `Pipeline.HandleOnError` |
| `Colly.Collector.HandleOnHTML` | colly.go:971-1016 | the result is exactly `HtmlStage` |
| `Colly.Collector.EachHtml` | colly.go:984-1013 | the selector and node loops with their `exit` flag make exactly the HTML stage's dispatch |
| `Colly.Collector.HandleOnXML` | colly.go:1018-1099 | the result is exactly `XmlStage` |
| `Colly.Collector.EachXml` | colly.go:1041-1096 | the query and node loops with their `exit` flag make exactly the XML stage's dispatch |
| `Colly.Collector.RunResponsePhase` | colly.go:622-656 | the Response phase and what follows it are exactly `ResponseThen` |
| `Colly.Collector.RunHtmlPhase` | colly.go:629-656 | the HTML phase and what follows it are exactly `HtmlThen` |
| `Colly.Collector.HtmlReported` | colly.go:629-632 | `handleOnHTML`, with its error reported, is exactly the checked HTML stage |
| `Colly.Collector.RunXmlPhase` | colly.go:639-656 | the XML phase and what follows it are exactly `XmlThen` |
| `Colly.Collector.XmlReported` | colly.go:639-642 | `handleOnXML`, with its error reported, is exactly the checked XML stage |
| `Colly.Collector.RunScrapedPhase` | colly.go:649-656 | the Scraped phase is exactly `ScrapedThen` |
| `Colly.Collector.CheckRedirect` | colly.go:1223-1254 | a domain that is not allowed is refused; a user handler decides next, given the new request and every earlier one; 10 earlier requests stop the chain; otherwise the headers are propagated and Authorization is dropped on a host change |
| `Colly.Collector.CopyHeaders` | colly.go:1240-1245 | the two loops give exactly `Propagated`, whatever order the map yields the names in |
| `Colly.Collector.SetEach` | colly.go:1241-1243 | setting each value in turn leaves only the last one |
| `Colly.Collector.SetStorage` | colly.go:884-893 | a failing storage `Init` is returned and changes nothing; otherwise the collector uses the new storage and its client's jar becomes the serializer over it |
| `Colly.Collector.SetCookies` | colly.go:1164-1175 | no jar gives `ErrNoCookieJar`; a URL that does not parse gives its error and changes nothing; otherwise no error, and the serializer merges the cookies into its storage |
| `Colly.Collector.Cookies` | colly.go:1177-1186 | no jar, or a URL that does not parse, gives nothing; otherwise what the client's jar hands out: for the serializer, its sendable cookies for the URL |
| `Colly.Collector.ParseSettingsFromEnv` | colly.go:1256-1268 | the configuration, the unknown names, the panic and the cookie jar are exactly `Env.ApplyEnv` over the entries; a jar is kept or removed, never replaced |

## Left out

- Concurrency: the `sync.WaitGroup`, the locks, `Wait`, and running `fetch` in a goroutine. In async mode `Scrape` returns no error and does not run `fetch`.
- The HTTP backend and its cache (`backend.Cache`, body-size limit, cache directory). Its outcome is an input, either a failure or a response.
- Limit rules (`Limit`, `Limits`) and `ErrNoPattern`.
- Proxies (`SetProxy`, `SetProxyFunc`, `ProxyURLKey`).
- The request URL and proxy URL update after a redirect (colly.go:606-612).
- Transport and timeout setters, `SetCookieJar`, `DisableCookies`, `WithTransport` and `Appengine`.
- The `net/http/cookiejar` jar a new collector gets from `Init`: its domain and path matching and its order are not modelled. `SetStorage` installs the serializer, which is modelled.
- Colly.Collector.SetCookies: with the `net/http/cookiejar` jar it states only that no error is returned; what that jar stores is not modelled.
- Colly.Collector.Cookies: with the `net/http/cookiejar` jar it returns the parameter `netHttp`, standing for what that jar would hand out.
- Colly.Collector.SetStorage: the storage's `Init` is not modelled; its result is the parameter `initErr`, and the cookies of the new storage are whatever the given object holds.
- A redirect chain's requests are `Types.Hop` values: method, URL and headers. Their bodies, contexts and the responses that caused them are not part of the model, so a `RedirectHandler` cannot look at them.
- Colly.Collector.CheckRedirect: it reads the configuration of the collector it is called on. In the source the client's `CheckRedirect` is the closure `Init` built over the collector that created the backend (colly.go:374), and a clone shares that backend (colly.go:1207). So a clone's redirects are judged by the original collector's domain lists and `RedirectHandler`. The contract holds for the collector that created the backend, not for its clones.
- Header key canonicalisation: `Headers.Get`, `Set`, `Add` and `Del` use a key as given, whereas Go's `http.Header` canonicalises it (`CanonicalMIMEHeaderKey`). The keys the model names itself ("Accept", "Content-Type", "User-Agent", "Authorization") are already canonical; keys of caller-given headers are taken to be canonical too.
- `Visit`, `Post`, `PostRaw`, `PostMultipart` and `Request`, which only pass arguments to `scrape`; `createFormReader`; `randomBoundary` (randomness).
- `UnmarshalRequest`, `SanitizeFileName` and `String`.
- `NewCollector`'s option functions.
- Downloading and parsing robots.txt. The answer is an input, `RobotsDownload`; a parsed file is seen only through the group it picks for a user agent and that group's path test.
- The goquery, htmlquery and xmlquery parsers and selectors. A parse is an input, and a document is seen only through the nodes each selector or query matches.
- The `base[href]` lookup that sets a request's base URL in `handleOnHTML` and `handleOnXML`.
- The element values handed to callbacks. Callbacks are identities; their side effects are outside the model, except that a Request callback may abort, given as the set `aborting`.
- `url.Parse`. Its result is an input (`ParsedUrl`), and `EscapedPath` is taken as the parsed path.
- Regular expressions, taken as opaque predicates on the URL text.
- `fixCharset`. Its failure is an input on the response.
- `time.Now`, taken as the parameter `now` of `Cookies`.
- `os.Environ`, taken as the parameter `env`.
- The log line for unknown names: those names are returned instead.
- The debugger events.
- Cookie text storage: `StringifyCookies` and `UnstringifyCookies` are taken as exact inverses, so the jar stores cookie values.
- The per-call `Context` and `NewContext`.
- The error text of an HTTP status, stood for by its code.
- `ctx.Err()` is one error, whether the context was cancelled or ran past its deadline.
- The Go panic for a known name without "=" is modelled as a `MissingValue` outcome that stops the loop.
- The order of Go map iteration in `createMultipartReader` and in the header copy of `checkRedirectFunc`. `CreateMultipartReader` takes the parts as a list in any order. `CopyHeaders` picks names in any order and is proved to give the same result for every order.
- `Text.ToLower` folds ASCII letters only. The model compares lower-cased text only against ASCII words ("html", "xml", "yes", "true", "y"), and no non-ASCII rune lower-cases to an ASCII letter used there, so this gives the same comparisons.
- Storage errors from `IsVisited` and `Visited`: `storage.InMemoryStorage` is not part of this model, and the model takes its calls to succeed.
- The example programs under `_examples`.

## Findings

| source | as written | input that shows it | evidently intended | confidence | as-written member | corrected member |
|---|---|---|---|---|---|---|
| colly.go:225-230 | the MAX_DEPTH setter stores the parsed depth only when `strconv.Atoi` fails (`if err != nil`) | `COLLY_MAX_DEPTH=5` leaves the limit unchanged; `COLLY_MAX_DEPTH=ten` sets it to 0, which means no limit | store the depth when the value parses, as the MAX_BODY_SIZE setter beside it does (`if err == nil`) | not executed | `Env.MaxDepthAsWritten` | `Env.MaxDepthIntended` |

The environment settings (`Env.SetByName`, `Env.ApplyEnv` and `Colly.Collector.ParseSettingsFromEnv`) apply the MAX_DEPTH setter as written, `Env.SetMaxDepthAsWritten`; `Env.SetMaxDepthIntended` is the corrected setter, and `Env.MaxDepthIntended` proves that it reads back every depth.
