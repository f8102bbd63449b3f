/** Text helpers the collector relies on: the Go `string`/`[]byte` views of
    text, ASCII case folding, substring search, splitting, and the decimal
    conversions of `strconv` and `fmt` ("%d") used by the environment
    settings and the multipart body. */
module Text {

  type byte = b: int | 0 <= b < 0x100

  /** Go's `strings.ToLower`, restricted to what matters here: every letter
      the collector compares against ("html", "xml", "yes", "true", "y")
      is ASCII, and no non-ASCII upper-case rune lower-cases to one of
      those letters, so ASCII folding gives the same comparisons. */
  function LowerChar(c: char): char {
    if 'A' <= c <= 'Z' then (c as int + 32) as char else c
  }

  function ToLower(s: string): string {
    seq(|s|, i requires 0 <= i < |s| => LowerChar(s[i]))
  }

  /** `strings.Contains(s, sub)`. */
  predicate Contains(s: string, sub: string) {
    exists i | 0 <= i <= |s| - |sub| :: OccursAt(s, sub, i)
  }

  predicate OccursAt(s: string, sub: string, i: nat)
    requires i + |sub| <= |s|
  {
    s[i..i + |sub|] == sub
  }

  /** `strings.HasPrefix(s, p)`. */
  predicate HasPrefix(s: string, p: string) {
    |p| <= |s| && s[..|p|] == p
  }

  /** `strings.Split(s, string(sep))`: the pieces between the separators;
      an empty string gives one empty piece. */
  function Split(s: string, sep: char): (r: seq<string>)
    ensures |r| >= 1
    decreases |s|
  {
    if s == [] then [""]
    else
      var rest := Split(s[1..], sep);
      if s[0] == sep then [""] + rest else [[s[0]] + rest[0]] + rest[1..]
  }

  /** `strings.Join(parts, string(sep))`, the inverse of Split. */
  function Join(parts: seq<string>, sep: char): string
    decreases |parts|
  {
    if |parts| == 0 then ""
    else if |parts| == 1 then parts[0]
    else parts[0] + [sep] + Join(parts[1..], sep)
  }

  /** Splitting and joining again gives back the original text, and no
      piece holds the separator. */
  lemma {:induction false} SplitJoin(s: string, sep: char)
    ensures Join(Split(s, sep), sep) == s
    ensures forall k :: 0 <= k < |Split(s, sep)| ==> sep !in Split(s, sep)[k]
    decreases |s|
  {
    if s != [] {
      SplitJoin(s[1..], sep);
      var rest := Split(s[1..], sep);
      if s[0] == sep {
        assert Split(s, sep) == [""] + rest;
        assert Join([""] + rest, sep) == "" + [sep] + Join(rest, sep);
      } else {
        var r := [[s[0]] + rest[0]] + rest[1..];
        assert Split(s, sep) == r;
        if |rest| == 1 {
          assert Join(r, sep) == [s[0]] + rest[0];
          assert Join(rest, sep) == rest[0];
        } else {
          assert r[1..] == rest[1..];
          assert Join(r, sep) == [s[0]] + rest[0] + [sep] + Join(rest[1..], sep);
          assert Join(rest, sep) == rest[0] + [sep] + Join(rest[1..], sep);
        }
        forall k | 0 <= k < |r| ensures sep !in r[k] {
          if k == 0 {
            assert sep !in rest[0];
          } else {
            assert r[k] == rest[k];
          }
        }
      }
    }
  }

  /** `strings.SplitN(s, string(sep), 2)`: the text before the first
      separator, and the text after it when there is one. */
  datatype Cut = Cut(before: string, after: seq<string>)

  function CutAt(s: string, sep: char): (r: Cut)
    ensures |r.after| <= 1
    ensures |r.after| == 0 <==> sep !in s
    ensures sep !in r.before
    ensures |r.after| == 1 ==> s == r.before + [sep] + r.after[0]
    decreases |s|
  {
    if s == [] then Cut("", [])
    else if s[0] == sep then Cut("", [s[1..]])
    else
      var rest := CutAt(s[1..], sep);
      Cut([s[0]] + rest.before, rest.after)
  }

  /** Cutting a text made of a part without the separator, the separator
      and anything at all gives back the two parts. */
  lemma {:induction false} CutAtJoined(a: string, sep: char, b: string)
    requires sep !in a
    ensures CutAt(a + [sep] + b, sep) == Cut(a, [b])
    decreases |a|
  {
    if a == [] {
      assert a + [sep] + b == [sep] + b;
    } else {
      CutAtJoined(a[1..], sep, b);
      assert (a + [sep] + b)[1..] == a[1..] + [sep] + b;
    }
  }

  /** The bytes of a string, as Go's `[]byte(s)` sees them: UTF-8. */
  function Utf8Char(c: char): (r: seq<byte>)
    ensures 1 <= |r| <= 4
    ensures (c as int < 0x80) <==> |r| == 1
    ensures c as int < 0x80 ==> r[0] as int == c as int
  {
    var x := c as int;
    if x < 0x80 then [x as byte]
    else if x < 0x800 then [Lead(0xC0, x / 0x40, 0x20), Continuation(x)]
    else if x < 0x1_0000 then [Lead(0xE0, x / 0x1000, 0x10), Continuation(x / 0x40), Continuation(x)]
    else [Lead(0xF0, (x / 0x4_0000) % 8, 8), Continuation(x / 0x1000), Continuation(x / 0x40), Continuation(x)]
  }

  /** A UTF-8 leading byte: the length marker `tag` and the top bits `v`. */
  function Lead(tag: nat, v: nat, limit: nat): byte
    requires tag + limit <= 0x100 && v < limit
  {
    (tag + v) as byte
  }

  /** A UTF-8 continuation byte carrying the low six bits of `v`. */
  function Continuation(v: nat): byte {
    (0x80 + v % 0x40) as byte
  }

  function Utf8(s: string): (r: seq<byte>)
    ensures |r| >= |s|
    decreases |s|
  {
    if s == [] then [] else Utf8(s[..|s| - 1]) + Utf8Char(s[|s| - 1])
  }

  predicate IsAscii(s: string) {
    forall i :: 0 <= i < |s| ==> s[i] as int < 0x80
  }

  /** On ASCII text the byte view is the text itself, one byte per char. */
  lemma {:induction false} Utf8Ascii(s: string)
    requires IsAscii(s)
    ensures |Utf8(s)| == |s|
    ensures forall i :: 0 <= i < |s| ==> Utf8(s)[i] as int == s[i] as int
    decreases |s|
  {
    if s != [] {
      Utf8Ascii(s[..|s| - 1]);
    }
  }

  /** The bytes of ASCII text, one per char. */
  function Ascii(s: string): (r: seq<byte>)
    requires IsAscii(s)
    ensures |r| == |s|
    ensures forall i :: 0 <= i < |s| ==> r[i] == s[i] as int
  {
    seq(|s|, i requires 0 <= i < |s| => s[i] as int)
  }

  /** For ASCII text, `Ascii` and the UTF-8 view agree. */
  lemma AsciiIsUtf8(s: string)
    requires IsAscii(s)
    ensures Ascii(s) == Utf8(s)
  {
    Utf8Ascii(s);
  }

  predicate IsDigit(c: char) {
    '0' <= c <= '9'
  }

  function DigitChar(d: nat): (c: char)
    requires d < 10
    ensures IsDigit(c)
  {
    ('0' as int + d) as char
  }

  function DigitValue(c: char): nat
    requires IsDigit(c)
  {
    c as int - '0' as int
  }

  /** The decimal text of a natural number, as `fmt.Sprintf("%d", n)`
      writes it: no sign, no leading zeros. */
  function Itoa(n: nat): (s: string)
    ensures |s| >= 1
    ensures forall i :: 0 <= i < |s| ==> IsDigit(s[i])
    ensures IsAscii(s)
    ensures n >= 10 ==> s[0] != '0'
    decreases n
  {
    if n < 10 then [DigitChar(n)] else Itoa(n / 10) + [DigitChar(n % 10)]
  }

  const MaxInt64: int := 0x7FFF_FFFF_FFFF_FFFF
  const MinInt64: int := -0x8000_0000_0000_0000
  const MaxUint64: int := 0xFFFF_FFFF_FFFF_FFFF

  /** Outcome of the digit loop of `strconv.ParseUint` in base 10. */
  datatype Scan = Digits(n: nat) | SyntaxError | RangeError

  /** The digit loop of `strconv.ParseUint(s, 10, 64)` continuing from the
      accumulated value `acc`: a non-digit is a syntax error, and an
      overflow of 64 bits is a range error reported at once, before any
      later character is looked at. */
  function ScanUint(s: string, acc: nat): (r: Scan)
    requires acc <= MaxUint64
    ensures r.Digits? ==> r.n <= MaxUint64
    decreases |s|
  {
    if s == [] then Digits(acc)
    else if !IsDigit(s[0]) then SyntaxError
    else if acc >= MaxUint64 / 10 + 1 then RangeError
    else
      var n1 := acc * 10 + DigitValue(s[0]);
      if n1 > MaxUint64 then RangeError else ScanUint(s[1..], n1)
  }

  /** Result of `strconv.Atoi`: the value it returns and whether its error
      is nil. */
  datatype IntParse = IntParse(value: int, ok: bool)

  /** `strconv.Atoi(s)` on a 64-bit platform (`ParseInt(s, 10, 0)`): an
      optional sign then decimal digits. A syntax error returns 0; a value
      outside the int64 range returns the nearest bound with an error. */
  function Atoi(s: string): (r: IntParse)
    ensures r.ok ==> MinInt64 <= r.value <= MaxInt64
    ensures r.ok ==> |s| >= 1 && (IsDigit(s[0]) || s[0] == '+' || s[0] == '-')
  {
    if s == [] then IntParse(0, false)
    else
      var neg := s[0] == '-';
      var digits := if s[0] == '+' || s[0] == '-' then s[1..] else s;
      if digits == [] then IntParse(0, false)
      else
        match ScanUint(digits, 0)
        case SyntaxError => IntParse(0, false)
        case RangeError => IntParse(if neg then MinInt64 else MaxInt64, false)
        case Digits(n) =>
          if !neg && n > MaxInt64 then IntParse(MaxInt64, false)
          else if neg && n > -MinInt64 then IntParse(MinInt64, false)
          else
            var v: int := if neg then -(n as int) else n;
            IntParse(v, true)
  }

  /** Scanning a concatenation scans the first part, then carries on. */
  lemma {:induction false} ScanUintAppend(s: string, t: string, acc: nat)
    requires acc <= MaxUint64
    ensures ScanUint(s + t, acc) ==
      match ScanUint(s, acc)
      case Digits(m) => ScanUint(t, m)
      case other => other
    decreases |s|
  {
    if s == [] {
      assert s + t == t;
    } else {
      assert (s + t)[0] == s[0];
      assert (s + t)[1..] == s[1..] + t;
      if IsDigit(s[0]) && acc < MaxUint64 / 10 + 1 && acc * 10 + DigitValue(s[0]) <= MaxUint64 {
        ScanUintAppend(s[1..], t, acc * 10 + DigitValue(s[0]));
      }
    }
  }

  lemma {:induction false} ScanItoa(n: nat)
    requires n <= MaxUint64
    ensures ScanUint(Itoa(n), 0) == Digits(n)
    decreases n
  {
    if n >= 10 {
      ScanItoa(n / 10);
      ScanUintAppend(Itoa(n / 10), [DigitChar(n % 10)], 0);
      assert n / 10 < MaxUint64 / 10 + 1;
      assert DigitValue(DigitChar(n % 10)) == n % 10;
      assert ScanUint([DigitChar(n % 10)], n / 10) == ScanUint([], (n / 10) * 10 + n % 10);
    }
  }

  /** `strconv.Atoi` reads back what "%d" writes, for every value an int
      can hold. */
  lemma AtoiItoa(n: nat)
    requires n <= MaxInt64
    ensures Atoi(Itoa(n)) == IntParse(n, true)
  {
    ScanItoa(n);
  }
}
