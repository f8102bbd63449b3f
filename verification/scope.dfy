/** The admission rules a URL passes before anything is fetched:
    `requestCheck`, `isDomainAllowed`, `isMatchingFilter`, and the part of
    `scrape` that runs them in order. */
module Scope {
  import opened Types
  import opened Fnv

  /** The loops of `isDomainAllowed` over a domain list: is `d` one of
      `ds`? */
  function Listed(ds: seq<string>, d: string): (r: bool)
    ensures r <==> d in ds
    decreases |ds|
  {
    |ds| > 0 && (ds[0] == d || Listed(ds[1..], d))
  }

  /** `isDomainAllowed`: a disallowed domain is refused even when it is also
      allowed; an empty allow-list admits every other domain; otherwise a
      domain must be on the allow-list. */
  function IsDomainAllowed(cfg: Config, domain: string): (r: bool)
    ensures domain in cfg.disallowedDomains ==> !r
    ensures domain !in cfg.disallowedDomains && |cfg.allowedDomains| == 0 ==> r
    ensures |cfg.allowedDomains| > 0 && domain !in cfg.disallowedDomains ==>
      (r <==> domain in cfg.allowedDomains)
  {
    if Listed(cfg.disallowedDomains, domain) then false
    else if |cfg.allowedDomains| == 0 then true
    else Listed(cfg.allowedDomains, domain)
  }

  /** `isMatchingFilter`: does any of the regular expressions match? */
  function IsMatchingFilter(fs: seq<Regexp>, u: string): (r: bool)
    ensures r <==> exists i :: 0 <= i < |fs| && fs[i](u)
    decreases |fs|
  {
    if |fs| == 0 then false
    else if fs[0](u) then true
    else
      var rest := IsMatchingFilter(fs[1..], u);
      assert forall i :: 1 <= i < |fs| ==> fs[i] == fs[1..][i - 1];
      rest
  }

  /** The checks of `requestCheck` that come before revisit detection, in
      their fixed order: missing URL, depth, disallowed URL patterns, then
      allowed URL patterns. */
  function ScopeCheck(cfg: Config, u: string, depth: int): (r: Option<Error>)
    ensures r == Some(MissingURL) <==> u == ""
    ensures r == Some(MaxDepth) <==> u != "" && 0 < cfg.maxDepth < depth
    ensures r == Some(ForbiddenURL) <==>
      u != "" && !(0 < cfg.maxDepth < depth) && exists i :: 0 <= i < |cfg.disallowedURLFilters| && cfg.disallowedURLFilters[i](u)
    ensures r == Some(NoURLFiltersMatch) <==>
      u != "" && !(0 < cfg.maxDepth < depth) && !IsMatchingFilter(cfg.disallowedURLFilters, u) &&
      |cfg.urlFilters| > 0 && forall i :: 0 <= i < |cfg.urlFilters| ==> !cfg.urlFilters[i](u)
    ensures r.Some? ==> r.value in {MissingURL, MaxDepth, ForbiddenURL, NoURLFiltersMatch}
  {
    if u == "" then Some(MissingURL)
    else if cfg.maxDepth > 0 && cfg.maxDepth < depth then Some(MaxDepth)
    else if |cfg.disallowedURLFilters| > 0 && IsMatchingFilter(cfg.disallowedURLFilters, u) then Some(ForbiddenURL)
    else if |cfg.urlFilters| > 0 && !IsMatchingFilter(cfg.urlFilters, u) then Some(NoURLFiltersMatch)
    else None
  }

  /** Whether `requestCheck` consults the visited set at all. */
  predicate Dedups(cfg: Config, httpMethod: string, checkRevisit: bool): (r: bool)
    ensures r ==> httpMethod == "GET" && checkRevisit
    ensures cfg.allowURLRevisit ==> !r
  {
    checkRevisit && !cfg.allowURLRevisit && httpMethod == "GET"
  }

  /** The verdict of `requestCheck` and the visited set it leaves behind. */
  datatype Checked = Checked(err: Option<Error>, visited: set<bv64>)

  /** `requestCheck` as a transformation of the visited set: after the
      scope checks, a GET that asks for revisit detection is refused when
      its hash is already recorded and is otherwise recorded (marking an
      in-memory store never fails). */
  function RequestCheck(cfg: Config, u: string, httpMethod: string, depth: int, checkRevisit: bool, visited: set<bv64>): (r: Checked)
    ensures r.visited == visited || r.visited == visited + {UrlHash(u)}
    ensures r.visited != visited ==>
      ScopeCheck(cfg, u, depth).None? && Dedups(cfg, httpMethod, checkRevisit) && UrlHash(u) !in visited && r.err.None?
    ensures r.err == Some(AlreadyVisited) <==>
      ScopeCheck(cfg, u, depth).None? && Dedups(cfg, httpMethod, checkRevisit) && UrlHash(u) in visited
    ensures ScopeCheck(cfg, u, depth).Some? ==> r.err == ScopeCheck(cfg, u, depth)
  {
    var scope := ScopeCheck(cfg, u, depth);
    if scope.Some? then Checked(scope, visited)
    else if Dedups(cfg, httpMethod, checkRevisit) then
      var h := UrlHash(u);
      if h in visited then Checked(Some(AlreadyVisited), visited)
      else Checked(None, visited + {h})
    else Checked(None, visited)
  }

  /** The first check of a URL that passes the scope rules records it; a
      second check of the same URL is refused as already visited. */
  lemma {:induction false} SecondVisitRefused(cfg: Config, u: string, depth: int, visited: set<bv64>)
    requires ScopeCheck(cfg, u, depth).None? && !cfg.allowURLRevisit
    requires UrlHash(u) !in visited
    ensures RequestCheck(cfg, u, "GET", depth, true, visited) == Checked(None, visited + {UrlHash(u)})
    ensures RequestCheck(cfg, u, "GET", depth, true, visited + {UrlHash(u)}).err == Some(AlreadyVisited)
  {
    assert Dedups(cfg, "GET", true);
  }

  /** With revisits allowed, or for any method other than GET, the visited
      set is never consulted: the same URL is admitted again and again. */
  lemma {:induction false} RevisitWithoutDedup(cfg: Config, u: string, httpMethod: string, depth: int, checkRevisit: bool, visited: set<bv64>)
    requires ScopeCheck(cfg, u, depth).None?
    requires cfg.allowURLRevisit || httpMethod != "GET" || !checkRevisit
    ensures RequestCheck(cfg, u, httpMethod, depth, checkRevisit, visited) == Checked(None, visited)
  {
    assert !Dedups(cfg, httpMethod, checkRevisit);
  }

  /** The verdict of the checks `scrape` makes before robots.txt, the
      visited set they leave, and the URL to fetch. */
  datatype Admitted = Admitted(err: Option<Error>, visited: set<bv64>, url: Url)

  /** `url.Parse` leaves the scheme empty for a relative URL; `scrape`
      fetches such a URL over http. */
  function WithScheme(u: Url): (r: Url)
    ensures r.scheme != "" && r.host == u.host && r.path == u.path
    ensures u.scheme != "" ==> r == u
  {
    if u.scheme == "" then u.(scheme := "http") else u
  }

  /** The first part of `scrape`: `requestCheck` (which may record the URL
      as visited), then parsing the URL, then the domain rules. */
  function Admit(cfg: Config, u: string, httpMethod: string, depth: int, checkRevisit: bool,
                 visited: set<bv64>, parsed: ParsedUrl): (r: Admitted)
    ensures var checked := RequestCheck(cfg, u, httpMethod, depth, checkRevisit, visited);
      && r.visited == checked.visited
      && (checked.err.Some? ==> r.err == checked.err)
      && (checked.err.None? && parsed.ParseFailure? ==> r.err == Some(BadURL(parsed.reason)))
      && (r.err == Some(ForbiddenDomain) <==>
            checked.err.None? && parsed.Parsed? && !IsDomainAllowed(cfg, parsed.url.host))
      && (r.err.None? <==> checked.err.None? && parsed.Parsed? && IsDomainAllowed(cfg, parsed.url.host))
    ensures r.err.None? ==> r.url == WithScheme(parsed.url)
  {
    var checked := RequestCheck(cfg, u, httpMethod, depth, checkRevisit, visited);
    if checked.err.Some? then Admitted(checked.err, checked.visited, Url("", "", ""))
    else match parsed
      case ParseFailure(reason) => Admitted(Some(BadURL(reason)), checked.visited, Url("", "", ""))
      case Parsed(url) =>
        var url := WithScheme(url);
        if !IsDomainAllowed(cfg, url.host) then Admitted(Some(ForbiddenDomain), checked.visited, url)
        else Admitted(None, checked.visited, url)
  }

  /** Revisit detection runs before the domain rules, so a GET refused as a
      forbidden domain has still been recorded as visited, and a later
      visit of the same URL is refused as already visited instead. */
  lemma {:induction false} ForbiddenDomainStillRecorded(cfg: Config, u: string, depth: int, visited: set<bv64>, parsed: ParsedUrl)
    requires !cfg.allowURLRevisit && UrlHash(u) !in visited
    requires Admit(cfg, u, "GET", depth, true, visited, parsed).err == Some(ForbiddenDomain)
    ensures UrlHash(u) in Admit(cfg, u, "GET", depth, true, visited, parsed).visited
    ensures Admit(cfg, u, "GET", depth, true, Admit(cfg, u, "GET", depth, true, visited, parsed).visited, parsed).err
      == Some(AlreadyVisited)
  {
    var checked := RequestCheck(cfg, u, "GET", depth, true, visited);
    assert checked.err.None?;
    assert ScopeCheck(cfg, u, depth).None?;
    SecondVisitRefused(cfg, u, depth, visited);
  }
}
