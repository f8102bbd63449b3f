/** `http.Header`: a map from canonical header names to their values. */
module Headers {

  type Headers = map<string, seq<string>>

  /** `h.Get(name)`: the first value, or "" when there is none. */
  function Get(h: Headers, name: string): string {
    if name in h && |h[name]| > 0 then h[name][0] else ""
  }

  /** `h.Set(name, v)`: the values of `name` become exactly `[v]`. */
  function Set(h: Headers, name: string, v: string): Headers {
    h[name := [v]]
  }

  /** `h.Add(name, v)`: `v` is appended to the values of `name`. */
  function Add(h: Headers, name: string, v: string): Headers {
    h[name := (if name in h then h[name] else []) + [v]]
  }

  /** `h.Del(name)`. */
  function Del(h: Headers, name: string): Headers {
    h - {name}
  }

  const FormContentType: string := "application/x-www-form-urlencoded"

  /** The two defaults `fetch` puts on a request just before it is sent: a
      POST without a Content-Type value gets the form encoding added, and a
      request without an Accept value gets "*∕*". */
  function WithDefaults(httpMethod: string, h: Headers): (r: Headers)
    ensures Get(r, "Accept") != ""
    ensures h.Keys <= r.Keys
  {
    var h1 := if httpMethod == "POST" && Get(h, "Content-Type") == "" then Add(h, "Content-Type", FormContentType) else h;
    if Get(h1, "Accept") == "" then Set(h1, "Accept", "*/*") else h1
  }

  /** What the defaults leave: an Accept value always, the form encoding
      appended for a POST without a Content-Type value, and every other
      header as it was. */
  lemma DefaultsSet(httpMethod: string, h: Headers)
    ensures var r := WithDefaults(httpMethod, h);
      Get(r, "Accept") != "" &&
      (Get(h, "Accept") == "" ==> r["Accept"] == ["*/*"]) &&
      (Get(h, "Accept") != "" ==> "Accept" in r && r["Accept"] == h["Accept"])
    ensures var r := WithDefaults(httpMethod, h);
      httpMethod == "POST" && Get(h, "Content-Type") == "" ==>
        "Content-Type" in r &&
        r["Content-Type"] == (if "Content-Type" in h then h["Content-Type"] else []) + [FormContentType]
    ensures var r := WithDefaults(httpMethod, h);
      httpMethod != "POST" || Get(h, "Content-Type") != "" ==>
        ("Content-Type" in r <==> "Content-Type" in h) &&
        ("Content-Type" in h ==> r["Content-Type"] == h["Content-Type"])
    ensures var r := WithDefaults(httpMethod, h);
      forall k :: k in r <==>
        k in h || k == "Accept" || (k == "Content-Type" && httpMethod == "POST" && Get(h, "Content-Type") == "")
    ensures var r := WithDefaults(httpMethod, h);
      forall k :: k in h && k != "Accept" && k != "Content-Type" ==> r[k] == h[k]
  {
  }

  /** Whether the last request of a redirect chain has values for `k`. */
  predicate HasValues(last: Headers, k: string) {
    k in last && |last[k]| > 0
  }

  /** The headers of a redirected request after every value of every header
      of the previous request was `Set` on it in turn: each such header keeps
      only the LAST of its values, and every other header stays as it was. */
  function Propagated(h: Headers, last: Headers): (r: Headers)
    ensures r.Keys == h.Keys + (set k | k in last && |last[k]| > 0)
    ensures forall k :: HasValues(last, k) ==> r[k] == [last[k][|last[k]| - 1]]
    ensures forall k :: k in h && !HasValues(last, k) ==> r[k] == h[k]
  {
    PropagatedOn(h, last, last.Keys)
  }

  /** The same, once only the headers named in `names` were copied. */
  function PropagatedOn(h: Headers, last: Headers, names: set<string>): Headers {
    map k | k in h.Keys + (set k | k in names && HasValues(last, k)) ::
      if k in names && HasValues(last, k) then [last[k][|last[k]| - 1]] else h[k]
  }

  /** Copying no header leaves the headers alone. */
  lemma PropagatedOnNone(h: Headers, last: Headers)
    ensures PropagatedOn(h, last, {}) == h
  {
  }

  /** Copying one more header `Set`s its last value, if it has one. */
  lemma PropagatedOnOneMore(h: Headers, last: Headers, names: set<string>, name: string)
    requires name in last
    ensures var p := PropagatedOn(h, last, names);
      PropagatedOn(h, last, names + {name}) ==
        if |last[name]| == 0 then p else p[name := [last[name][|last[name]| - 1]]]
  {
  }
}
