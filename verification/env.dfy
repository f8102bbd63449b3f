/** The environment settings a new collector reads: entries of the form
    `COLLY_<NAME>=<value>`, each applied by the setter `envMap` holds for
    its name. */
module Env {
  import opened Types
  import opened Text

  /** `isYesString`: "1", "yes", "true" or "y", in any case. */
  function IsYesString(s: string): (r: bool)
    ensures r ==> |s| == 1 || |s| == 3 || |s| == 4
  {
    var l := ToLower(s);
    l == "1" || l == "yes" || l == "true" || l == "y"
  }

  /** Case does not matter: a text and its lower-case form are both yes or
      both not. */
  lemma YesIgnoresCase(s: string)
    ensures IsYesString(ToLower(s)) == IsYesString(s)
  {
    assert ToLower(ToLower(s)) == ToLower(s);
  }

  /** The accepted spellings, and some that are not accepted. */
  lemma YesStrings()
    ensures IsYesString("YES") && IsYesString("True") && IsYesString("y") && IsYesString("1")
    ensures !IsYesString("no") && !IsYesString("") && !IsYesString("yes ") && !IsYesString("on")
  {
    assert ToLower("YES") == "yes";
    assert ToLower("True") == "true";
    assert ToLower("y") == "y";
    assert ToLower("1") == "1";
    assert ToLower("no") == "no";
    assert ToLower("on") == "on";
    assert ToLower("yes ") == "yes ";
  }

  /** The part of a collector an environment entry can change: its
      configuration, and whether its HTTP client has a cookie jar. */
  datatype Settings = Settings(cfg: Config, cookieJar: bool)

  const Prefix: string := "COLLY_"

  /** The names `envMap` has a setter for. */
  const KnownNames: set<string> := {
    "ALLOWED_DOMAINS", "CACHE_DIR", "DETECT_CHARSET", "DISABLE_COOKIES", "DISALLOWED_DOMAINS",
    "IGNORE_ROBOTSTXT", "FOLLOW_REDIRECTS", "MAX_BODY_SIZE", "MAX_DEPTH",
    "PARSE_HTTP_ERROR_RESPONSE", "USER_AGENT"}

  /** The redirect handler FOLLOW_REDIRECTS installs: it stops at the
      first redirect, keeping its response. */
  function StopRedirects(): (h: RedirectHandler)
    ensures forall req, via :: h(req, via) == Some(UseLastResponse)
  {
    (req: Hop, via: seq<Hop>) => Some(UseLastResponse)
  }

  /** The setter of `envMap` for a known name, applied to `val`. */
  function SetByName(s: Settings, name: string, val: string): (r: Settings)
    requires name in KnownNames
    ensures r.cookieJar <==> s.cookieJar && name != "DISABLE_COOKIES"
  {
    var cfg := s.cfg;
    if name == "ALLOWED_DOMAINS" then s.(cfg := cfg.(allowedDomains := Split(val, ',')))
    else if name == "CACHE_DIR" then s.(cfg := cfg.(cacheDir := val))
    else if name == "DETECT_CHARSET" then s.(cfg := cfg.(detectCharset := IsYesString(val)))
    else if name == "DISABLE_COOKIES" then s.(cookieJar := false)
    else if name == "DISALLOWED_DOMAINS" then s.(cfg := cfg.(disallowedDomains := Split(val, ',')))
    else if name == "IGNORE_ROBOTSTXT" then s.(cfg := cfg.(ignoreRobotsTxt := IsYesString(val)))
    else if name == "FOLLOW_REDIRECTS" then
      if IsYesString(val) then s else s.(cfg := cfg.(redirectHandler := Some(StopRedirects())))
    else if name == "MAX_BODY_SIZE" then
      var size := Atoi(val);
      if size.ok then s.(cfg := cfg.(maxBodySize := size.value)) else s
    else if name == "MAX_DEPTH" then SetMaxDepthAsWritten(s, val)
    else if name == "PARSE_HTTP_ERROR_RESPONSE" then s.(cfg := cfg.(parseHTTPErrorResponse := IsYesString(val)))
    else s.(cfg := cfg.(userAgent := val))
  }

  /** The MAX_DEPTH setter as written, and the one `SetByName` uses: the
      depth is stored only when `strconv.Atoi` reports an error, and what is
      stored is then the value Atoi returns with its error (0, or a bound of
      int64). */
  function SetMaxDepthAsWritten(s: Settings, val: string): (r: Settings)
    ensures r.cookieJar == s.cookieJar && r.cfg == s.cfg.(maxDepth := r.cfg.maxDepth)
    ensures Atoi(val).ok ==> r == s
  {
    var maxDepth := Atoi(val);
    if !maxDepth.ok then s.(cfg := s.cfg.(maxDepth := maxDepth.value)) else s
  }

  /** The MAX_DEPTH setter as its neighbour MAX_BODY_SIZE is written: a
      number sets the limit and anything else leaves it alone. */
  function SetMaxDepthIntended(s: Settings, val: string): (r: Settings)
    ensures r.cookieJar == s.cookieJar && r.cfg == s.cfg.(maxDepth := r.cfg.maxDepth)
    ensures !Atoi(val).ok ==> r == s
  {
    var maxDepth := Atoi(val);
    if maxDepth.ok then s.(cfg := s.cfg.(maxDepth := maxDepth.value)) else s
  }

  /** What one environment entry does. Go indexes the value of a known
      name without checking that the entry had an "=", which panics; that
      case is `MissingValue`. */
  datatype EntryEffect = Ignored | Applied(settings: Settings) | UnknownName(name: string) | MissingValue(name: string)

  /** One iteration of the loop of `parseSettingsFromEnv`. */
  function ApplyEntry(s: Settings, e: string): (r: EntryEffect)
    ensures r.Ignored? <==> !HasPrefix(e, Prefix)
    ensures r.UnknownName? ==> r.name !in KnownNames
    ensures r.MissingValue? ==> '=' !in e
    ensures r.Applied? ==> (r.settings.cookieJar ==> s.cookieJar)
  {
    if !HasPrefix(e, Prefix) then Ignored
    else
      var pair := CutAt(e[|Prefix|..], '=');
      if pair.before !in KnownNames then UnknownName(pair.before)
      else if |pair.after| == 0 then
        assert e == Prefix + e[|Prefix|..];
        MissingValue(pair.before)
      else Applied(SetByName(s, pair.before, pair.after[0]))
  }

  /** An entry `COLLY_<name>=<value>` runs the setter of `name` on the
      whole of `value`, which may itself hold "="; an unknown name is
      reported. */
  lemma EntryParsed(s: Settings, name: string, value: string)
    requires '=' !in name
    ensures ApplyEntry(s, Prefix + name + "=" + value)
      == if name in KnownNames then Applied(SetByName(s, name, value)) else UnknownName(name)
  {
    var e := Prefix + name + "=" + value;
    assert HasPrefix(e, Prefix);
    assert e[|Prefix|..] == name + ['='] + value;
    CutAtJoined(name, '=', value);
  }

  /** The three yes/no settings take the value of `isYesString`, and
      nothing else changes. */
  lemma YesNoSettings(s: Settings, val: string)
    ensures SetByName(s, "DETECT_CHARSET", val) == s.(cfg := s.cfg.(detectCharset := IsYesString(val)))
    ensures SetByName(s, "IGNORE_ROBOTSTXT", val) == s.(cfg := s.cfg.(ignoreRobotsTxt := IsYesString(val)))
    ensures SetByName(s, "PARSE_HTTP_ERROR_RESPONSE", val)
      == s.(cfg := s.cfg.(parseHTTPErrorResponse := IsYesString(val)))
  {
  }

  /** The domain lists are the value split at commas: joined back they
      give the value, and no domain holds a comma. */
  lemma DomainLists(s: Settings, val: string)
    ensures Join(SetByName(s, "ALLOWED_DOMAINS", val).cfg.allowedDomains, ',') == val
    ensures Join(SetByName(s, "DISALLOWED_DOMAINS", val).cfg.disallowedDomains, ',') == val
    ensures forall d :: d in SetByName(s, "ALLOWED_DOMAINS", val).cfg.allowedDomains ==> ',' !in d
  {
    SplitJoin(val, ',');
  }

  /** FOLLOW_REDIRECTS with a yes value changes nothing; with any other
      value a handler is installed that refuses every redirect. */
  lemma FollowRedirects(s: Settings, val: string)
    ensures IsYesString(val) ==> SetByName(s, "FOLLOW_REDIRECTS", val) == s
    ensures !IsYesString(val) ==>
      var r := SetByName(s, "FOLLOW_REDIRECTS", val);
      r.cfg.redirectHandler.Some? && r.cookieJar == s.cookieJar &&
      forall req, via :: r.cfg.redirectHandler.value(req, via) == Some(UseLastResponse)
  {
  }

  /** DISABLE_COOKIES removes the cookie jar whatever its value says. */
  lemma DisableCookiesIgnoresValue(s: Settings, val: string)
    ensures SetByName(s, "DISABLE_COOKIES", val) == Settings(s.cfg, false)
  {
  }

  /** MAX_BODY_SIZE reads back every size "%d" writes, and a value that is
      not a number leaves the limit alone. */
  lemma MaxBodySizeParsed(s: Settings, n: nat, val: string)
    requires n <= MaxInt64
    ensures SetByName(s, "MAX_BODY_SIZE", Itoa(n)) == s.(cfg := s.cfg.(maxBodySize := n))
    ensures !Atoi(val).ok ==> SetByName(s, "MAX_BODY_SIZE", val) == s
  {
    AtoiItoa(n);
  }

  /** As written, the MAX_DEPTH entry ignores every number and turns a
      value that is not a number into the limit 0, which means no limit at
      all. */
  lemma MaxDepthAsWritten(s: Settings, n: nat)
    requires n <= MaxInt64
    ensures SetByName(s, "MAX_DEPTH", Itoa(n)) == s
    ensures SetByName(s, "MAX_DEPTH", "ten") == s.(cfg := s.cfg.(maxDepth := 0))
  {
    AtoiItoa(n);
    assert !IsDigit('t');
  }

  /** MAX_DEPTH, set as intended, reads back every depth "%d" writes and
      leaves the limit alone for a value that is not a number. */
  lemma MaxDepthIntended(s: Settings, n: nat, val: string)
    requires n <= MaxInt64
    ensures SetMaxDepthIntended(s, Itoa(n)) == s.(cfg := s.cfg.(maxDepth := n))
    ensures !Atoi(val).ok ==> SetMaxDepthIntended(s, val) == s
  {
    AtoiItoa(n);
  }

  /** What `parseSettingsFromEnv` did with a list of entries: the settings
      it left, the unknown names it logged, and the name whose missing
      value made it panic, if any. */
  datatype EnvRun = EnvRun(settings: Settings, unknown: seq<string>, panicked: Option<string>)

  /** The entries applied in order, each setter seeing what the earlier
      ones left; nothing after a panic happens. */
  function ApplyEnv(s: Settings, env: seq<string>): (r: EnvRun)
    ensures r.panicked.None? ==> |r.unknown| <= |env|
    ensures forall i :: 0 <= i < |r.unknown| ==> r.unknown[i] !in KnownNames
    decreases |env|
  {
    if env == [] then EnvRun(s, [], None)
    else Next(ApplyEnv(s, env[..|env| - 1]), env[|env| - 1])
  }

  /** The run so far followed by one more entry: nothing after a panic. */
  function Next(r: EnvRun, e: string): (n: EnvRun)
    ensures r.panicked.Some? ==> n == r
    ensures r.unknown <= n.unknown && |n.unknown| <= |r.unknown| + 1
    ensures n.panicked.Some? ==> n.settings == r.settings
    ensures !HasPrefix(e, Prefix) ==> n == r
  {
    if r.panicked.Some? then r
    else match ApplyEntry(r.settings, e)
      case Ignored => r
      case Applied(next) => r.(settings := next)
      case UnknownName(name) => r.(unknown := r.unknown + [name])
      case MissingValue(name) => r.(panicked := Some(name))
  }

  /** The run over the first `i + 1` entries is the run over the first `i`
      followed by entry `i`. */
  lemma ApplyEnvPrefix(s: Settings, env: seq<string>, i: nat)
    requires i < |env|
    ensures ApplyEnv(s, env[..i + 1]) == Next(ApplyEnv(s, env[..i]), env[i])
  {
    assert env[..i + 1][..i] == env[..i];
  }

  /** After a panic nothing happens: the run over all entries is the run
      up to the entry that panicked. */
  lemma {:induction false} PanicStops(s: Settings, env: seq<string>, i: nat)
    requires i <= |env| && ApplyEnv(s, env[..i]).panicked.Some?
    ensures ApplyEnv(s, env) == ApplyEnv(s, env[..i])
    decreases |env| - i
  {
    if i < |env| {
      assert env[..i + 1][..i] == env[..i];
      PanicStops(s, env, i + 1);
    } else {
      assert env[..i] == env;
    }
  }

  /** Entries without the COLLY_ prefix change nothing, and the settings
      of the other entries are applied in their order. */
  lemma {:induction false} OthersIgnored(s: Settings, env: seq<string>, e: string)
    requires !HasPrefix(e, Prefix)
    ensures ApplyEnv(s, env + [e]) == ApplyEnv(s, env)
  {
    assert (env + [e])[..|env|] == env;
  }

  /** A later entry for the same name overrides an earlier one: the last
      USER_AGENT entry decides the user agent. */
  lemma {:induction false} LastEntryWins(s: Settings, env: seq<string>, agent: string)
    requires ApplyEnv(s, env).panicked.None?
    ensures ApplyEnv(s, env + [Prefix + "USER_AGENT=" + agent]).settings.cfg.userAgent == agent
  {
    var e := Prefix + "USER_AGENT=" + agent;
    assert (env + [e])[..|env|] == env;
    assert Prefix + "USER_AGENT=" + agent == Prefix + "USER_AGENT" + "=" + agent;
    EntryParsed(ApplyEnv(s, env).settings, "USER_AGENT", agent);
  }
}
