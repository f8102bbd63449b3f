/** The objects a collector works with besides its own fields: the
    package-wide collector counter, the storage, the robots.txt cache and
    the HTTP backend (all three shared with its clones), the cookie jar
    serializer over a storage, and the call context of one `Visit`. */
module Shared {
  import opened Types
  import opened Hooks
  import opened Cookies

  /** The package-level `collectorCounter` that hands out collector IDs. */
  class CollectorCounter {
    var value: u32

    constructor ()
      ensures value == 0
    {
      value := 0;
    }

    /** `atomic.AddUint32(&collectorCounter, 1)`: the new value is the ID. */
    method Next() returns (id: u32)
      modifies this
      ensures value == Inc(old(value)) && id == value
    {
      value := Inc(value);
      id := value;
    }
  }

  /** A `storage.Storage`, seen through the visited set and the cookies of
      each host it keeps. Storage keeps cookies as text; turning them into
      text and back is taken to give the same cookies. */
  class Storage {
    var visited: set<bv64>
    var cookies: map<string, seq<Cookie>>

    /** `storage.InMemoryStorage` after `Init`. */
    constructor ()
      ensures visited == {} && cookies == map[]
    {
      visited := {};
      cookies := map[];
    }

    method IsVisited(h: bv64) returns (b: bool)
      ensures b <==> h in visited
    {
      b := h in visited;
    }

    method Visited(h: bv64)
      modifies this
      ensures visited == old(visited) + {h} && cookies == old(cookies)
    {
      visited := visited + {h};
    }

    /** `store.Cookies(u)` for a URL of this host. */
    function CookiesAt(host: string): seq<Cookie>
      reads this
    {
      if host in cookies then cookies[host] else []
    }
  }

  /** `cookieJarSerializer`, the jar `createJar` builds over a storage: it
      keeps the cookies in that storage, merges newly set cookies into them
      and filters what it hands back. */
  class CookieJar {
    const store: Storage

    constructor (store: Storage)
      ensures this.store == store
    {
      this.store := store;
    }

    /** `SetCookies`: merge the new cookies into those the storage holds
        for the URL's host, the new ones taking precedence. */
    method SetCookies(u: Url, incoming: seq<Cookie>)
      modifies store
      ensures store.cookies == old(store.cookies)[u.host := Merge(incoming, old(store.CookiesAt(u.host)))]
      ensures store.visited == old(store.visited)
    {
      var existing := store.CookiesAt(u.host);
      var cnew := incoming;
      var i := 0;
      while i < |existing|
        invariant 0 <= i <= |existing|
        invariant cnew == Merge(incoming, existing[..i])
      {
        var c := existing[i];
        assert existing[..i + 1][..i] == existing[..i] && existing[..i + 1][i] == c;
        if !HasName(cnew, c.name) {
          cnew := cnew + [c];
        }
        i := i + 1;
      }
      assert existing[..i] == existing;
      store.cookies := store.cookies[u.host := cnew];
    }

    /** `Cookies`: the cookies the storage holds for the URL's host that
        may be sent at time `now`. */
    method Cookies(u: Url, now: int) returns (r: seq<Cookie>)
      ensures r == SendableCookies(store.CookiesAt(u.host), u.scheme, now)
    {
      var stored := store.CookiesAt(u.host);
      r := [];
      var i := 0;
      while i < |stored|
        invariant 0 <= i <= |stored|
        invariant r == SendableCookies(stored[..i], u.scheme, now)
      {
        var c := stored[i];
        assert stored[..i + 1][..i] == stored[..i];
        if c.rawExpires != "" && c.expires < now {
        } else if c.secure && u.scheme != "https" {
        } else {
          r := r + [c];
        }
        i := i + 1;
      }
      assert stored[..i] == stored;
    }
  }

  /** Whether a robots.txt group lets a path be fetched. */
  type PathTest = string -> bool

  /** A parsed robots.txt, seen through `FindGroup`: the group that applies
      to a user agent, if any. */
  datatype RobotsData = RobotsData(findGroup: string -> Option<PathTest>)

  /** What fetching and parsing a host's robots.txt gives. */
  datatype RobotsDownload = Downloaded(data: RobotsData) | DownloadFailed(reason: string)

  /** The verdict of a robots.txt for a user agent and an escaped path: no
      group for the agent allows everything. */
  function RobotsVerdict(robot: RobotsData, userAgent: string, path: string): (r: Option<Error>)
    ensures r.Some? ==> r.value == RobotsTxtBlocked
    ensures r.None? <==> robot.findGroup(userAgent).None? || robot.findGroup(userAgent).value(path)
  {
    match robot.findGroup(userAgent)
    case None => None
    case Some(test) => if test(path) then None else Some(RobotsTxtBlocked)
  }

  /** The `robotsMap`: the robots.txt of each host fetched so far. */
  class RobotsMap {
    var entries: map<string, RobotsData>

    constructor ()
      ensures entries == map[]
    {
      entries := map[];
    }
  }

  /** The cookie jar of the backend's HTTP client: none, the
      `net/http/cookiejar` jar `Init` installs (its behaviour is not part of
      this model), or the serializer `SetStorage` installs. */
  datatype ClientJar = NoJar | NetHttpJar | Serializer(jar: CookieJar)

  /** The HTTP backend, seen through the cookie jar of its client. */
  class Backend {
    var jar: ClientJar

    /** `Init` of a backend with the jar of `cookiejar.New(nil)`. */
    constructor ()
      ensures jar == NetHttpJar
    {
      jar := NetHttpJar;
    }
  }

  /** The call context of one `Visit` and what happened during the call:
      each `select` on `ctx.Done()` is one look, and `events` records the
      callback invocations and the requests sent, in order. */
  class Call {
    const cancel: Cancel
    var polls: nat
    var events: seq<Event>

    constructor (cancel: Cancel)
      ensures this.cancel == cancel && polls == 0 && events == []
    {
      this.cancel := cancel;
      polls := 0;
      events := [];
    }

    /** One `select` on `ctx.Done()` with a `default` branch. */
    method Poll() returns (done: bool)
      modifies this
      ensures done == Done(cancel, old(polls)) && polls == old(polls) + 1 && events == old(events)
    {
      done := cancel.From? && cancel.look <= polls;
      polls := polls + 1;
    }

    /** The loop every `handleOn*` method runs over its callbacks: look at
        the context, stop if it is cancelled, otherwise invoke the next
        callback. `stopped` tells whether the loop stopped before the end. */
    method Invoke(targets: seq<Event>) returns (stopped: bool)
      modifies this
      ensures var s := Dispatch(targets, cancel, old(polls));
        events == old(events) + s.events && polls == s.polls && (stopped <==> |s.events| < |targets|)
    {
      stopped := false;
      ghost var p := polls;
      for i := 0 to |targets|
        invariant events == old(events) + targets[..i]
        invariant polls == p + i
        invariant forall q :: p <= q < p + i ==> !Done(cancel, q)
      {
        var done := Poll();
        if done {
          ReachedUnique(|targets|, cancel, p, i);
          return true;
        }
        events := events + [targets[i]];
        assert targets[..i + 1] == targets[..i] + [targets[i]];
      }
      ReachedUnique(|targets|, cancel, p, |targets|);
      assert targets[..|targets|] == targets;
    }
  }
}
