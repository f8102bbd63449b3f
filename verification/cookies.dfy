/** The rules of the `cookieJarSerializer` jar: how newly set cookies are
    merged into the stored ones of a site, and which stored cookies it
    hands back for a request. The jar itself is `Shared.CookieJar`. */
module Cookies {
  import opened Types

  /** The fields of an `http.Cookie` the jar looks at. `expires` is the
      `Expires` time as an instant on a fixed clock; it means something
      only when `rawExpires` (the attribute text) is not empty. */
  datatype Cookie = Cookie(name: string, value: string, rawExpires: string, expires: int, secure: bool)

  /** `storage.ContainsCookie`: does some cookie in `cs` carry `name`? */
  predicate HasName(cs: seq<Cookie>, name: string) {
    exists i | 0 <= i < |cs| :: cs[i].name == name
  }

  /** The cookies `SetCookies` stores: the new cookies first, then each
      existing cookie, in order, unless a cookie of its name is already
      there (a new one, or an earlier existing one). */
  function Merge(incoming: seq<Cookie>, existing: seq<Cookie>): (r: seq<Cookie>)
    ensures |incoming| <= |r| <= |incoming| + |existing|
    decreases |existing|
  {
    if existing == [] then incoming
    else
      var m := Merge(incoming, existing[..|existing| - 1]);
      var c := existing[|existing| - 1];
      if HasName(m, c.name) then m else m + [c]
  }

  /** What `Merge` keeps: the new cookies unchanged at the front, then
      existing cookies whose names no new cookie uses, no two of one name,
      and no name of an existing cookie is lost. */
  lemma {:induction false} MergeShape(incoming: seq<Cookie>, existing: seq<Cookie>)
    ensures var r := Merge(incoming, existing);
      && r[..|incoming|] == incoming
      && (forall i :: |incoming| <= i < |r| ==> r[i] in existing && !HasName(incoming, r[i].name))
      && (forall i, j :: |incoming| <= i < j < |r| ==> r[i].name != r[j].name)
      && (forall c :: c in existing ==> HasName(r, c.name))
    decreases |existing|
  {
    if existing != [] {
      var init := existing[..|existing| - 1];
      var m := Merge(incoming, init);
      var c := existing[|existing| - 1];
      MergeShape(incoming, init);
      assert existing == init + [c];
      if !HasName(m, c.name) {
        var r := m + [c];
        assert forall i :: 0 <= i < |m| ==> r[i] == m[i];
        assert r[|m|] == c;
        assert r[..|incoming|] == m[..|incoming|];
        assert forall x :: x in existing ==> x == c || x in init;
      } else {
        assert forall x :: x in existing ==> x == c || x in init;
      }
    }
  }

  /** The existing cookies whose names the new cookies do not use, in
      their order. */
  function Unshadowed(existing: seq<Cookie>, incoming: seq<Cookie>): (r: seq<Cookie>)
    ensures forall c :: c in r <==> c in existing && !HasName(incoming, c.name)
    decreases |existing|
  {
    if existing == [] then []
    else
      var rest := Unshadowed(existing[..|existing| - 1], incoming);
      var c := existing[|existing| - 1];
      assert existing == existing[..|existing| - 1] + [c];
      if HasName(incoming, c.name) then rest else rest + [c]
  }

  /** Do no two cookies share a name? */
  predicate DistinctNames(cs: seq<Cookie>) {
    forall i, j :: 0 <= i < j < |cs| ==> cs[i].name != cs[j].name
  }

  /** When the stored cookies carry distinct names (as anything `Merge`
      stored does beyond the new cookies), merging is exactly: the new
      cookies, then the stored ones they do not shadow, in their order. */
  lemma {:induction false} MergeDistinct(incoming: seq<Cookie>, existing: seq<Cookie>)
    requires DistinctNames(existing)
    ensures Merge(incoming, existing) == incoming + Unshadowed(existing, incoming)
    decreases |existing|
  {
    if existing != [] {
      var init := existing[..|existing| - 1];
      var c := existing[|existing| - 1];
      assert DistinctNames(init);
      MergeDistinct(incoming, init);
      MergeShape(incoming, init);
      var m := Merge(incoming, init);
      var u := Unshadowed(init, incoming);
      assert m == incoming + u;
      if HasName(incoming, c.name) {
        var i :| 0 <= i < |incoming| && incoming[i].name == c.name;
        assert m[i] == incoming[i];
      } else {
        assert !HasName(m, c.name) by {
          forall i | 0 <= i < |m|
            ensures m[i].name != c.name
          {
            if i >= |incoming| {
              assert m[i] in init;
              var j :| 0 <= j < |init| && init[j] == m[i];
              assert existing[j] == init[j];
            }
          }
        }
        assert incoming + (u + [c]) == incoming + u + [c];
      }
    }
  }

  /** Whether `Cookies` hands a cookie out for a request to a URL of the
      given scheme at time `now`: a cookie whose expiry was given and lies
      before `now` is dropped, and so is a secure cookie on anything but
      https. */
  predicate Sendable(c: Cookie, scheme: string, now: int) {
    !(c.rawExpires != "" && c.expires < now) && !(c.secure && scheme != "https")
  }

  /** The cookies `Cookies` returns, in the order they are stored. */
  function SendableCookies(cs: seq<Cookie>, scheme: string, now: int): (r: seq<Cookie>)
    ensures |r| <= |cs|
    decreases |cs|
  {
    if cs == [] then []
    else
      var rest := SendableCookies(cs[..|cs| - 1], scheme, now);
      var c := cs[|cs| - 1];
      if Sendable(c, scheme, now) then rest + [c] else rest
  }

  /** The cookies handed out are exactly the stored ones that may be sent. */
  lemma {:induction false} SendableMembers(cs: seq<Cookie>, scheme: string, now: int)
    ensures forall c :: c in SendableCookies(cs, scheme, now) <==> c in cs && Sendable(c, scheme, now)
    decreases |cs|
  {
    if cs != [] {
      var init := cs[..|cs| - 1];
      SendableMembers(init, scheme, now);
      assert cs == init + [cs[|cs| - 1]];
    }
  }

  /** Filtering keeps the order: the cookies of a concatenation are the
      cookies of its first part followed by those of its second. */
  lemma {:induction false} SendableAppend(a: seq<Cookie>, b: seq<Cookie>, scheme: string, now: int)
    ensures SendableCookies(a + b, scheme, now) == SendableCookies(a, scheme, now) + SendableCookies(b, scheme, now)
    decreases |b|
  {
    if b == [] {
      assert a + b == a;
    } else {
      var init := b[..|b| - 1];
      var c := b[|b| - 1];
      var ab := a + b;
      assert ab[..|ab| - 1] == a + init && ab[|ab| - 1] == c;
      SendableAppend(a, init, scheme, now);
      if Sendable(c, scheme, now) {
        assert SendableCookies(ab, scheme, now) == SendableCookies(a + init, scheme, now) + [c];
        Regroup(SendableCookies(a, scheme, now), SendableCookies(init, scheme, now), [c]);
      }
    }
  }

  lemma Regroup(a: seq<Cookie>, b: seq<Cookie>, c: seq<Cookie>)
    ensures a + (b + c) == a + b + c
  {
  }

  /** Filtering twice, at the same time and for the same scheme, changes
      nothing more. */
  lemma {:induction false} SendableIdempotent(cs: seq<Cookie>, scheme: string, now: int)
    ensures SendableCookies(SendableCookies(cs, scheme, now), scheme, now) == SendableCookies(cs, scheme, now)
    decreases |cs|
  {
    if cs != [] {
      var init := cs[..|cs| - 1];
      var c := cs[|cs| - 1];
      SendableIdempotent(init, scheme, now);
      var rest := SendableCookies(init, scheme, now);
      if Sendable(c, scheme, now) {
        SendableAppend(rest, [c], scheme, now);
        assert SendableCookies([c], scheme, now) == [c] by {
          assert [c][..0] == [];
        }
      }
    }
  }

  /** A cookie set on a host and then read back at a time it has not
      expired, over https, is what the host's cookie of that name is. */
  lemma SetThenRead(incoming: seq<Cookie>, existing: seq<Cookie>, now: int)
    requires forall c :: c in incoming ==> Sendable(c, "https", now)
    ensures var s := SendableCookies(Merge(incoming, existing), "https", now);
      |incoming| <= |s| && s[..|incoming|] == incoming
  {
    var m := Merge(incoming, existing);
    MergeShape(incoming, existing);
    assert m == incoming + m[|incoming|..];
    SendableAppend(incoming, m[|incoming|..], "https", now);
    SendableAllKept(incoming, "https", now);
  }

  /** A list whose cookies may all be sent is handed out whole. */
  lemma {:induction false} SendableAllKept(cs: seq<Cookie>, scheme: string, now: int)
    requires forall c :: c in cs ==> Sendable(c, scheme, now)
    ensures SendableCookies(cs, scheme, now) == cs
    decreases |cs|
  {
    if cs != [] {
      var init := cs[..|cs| - 1];
      assert forall c :: c in init ==> c in cs;
      SendableAllKept(init, scheme, now);
      assert init + [cs[|cs| - 1]] == cs;
    }
  }
}
