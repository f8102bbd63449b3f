/** Request bodies: how `setRequestBody` prepares a body for sending and
    resending, and the layout `createMultipartReader` writes. */
module Body {
  import opened Text
  import opened Types

  /** The `io.Reader` handed to `scrape`, with the bytes not yet read from it
      for the three in-memory reader types the collector recognises. */
  datatype Reader =
    | NilReader
    | BytesBuffer(unread: seq<byte>)
    | BytesReader(unread: seq<byte>)
    | StringsReader(unread: seq<byte>)
    | OtherReader

  predicate InMemory(r: Reader) {
    r.BytesBuffer? || r.BytesReader? || r.StringsReader?
  }

  /** What `req.Body` is: nil, the caller's reader, or `http.NoBody`. */
  datatype BodyKind = Absent | Stream | NoBody

  /** The body fields of the outgoing `http.Request`: `Body`,
      `ContentLength`, and the bytes `GetBody` replays on a redirect (None
      when `GetBody` is nil). */
  datatype RequestBody = RequestBody(kind: BodyKind, contentLength: int, replay: Option<seq<byte>>)

  /** `setRequestBody` together with the `Body` field `scrape` sets before
      it: an in-memory reader gets its unread length as the content length
      and can be replayed; one with nothing left to read is sent as
      `http.NoBody`; any other reader is streamed with unknown length. */
  function SetRequestBody(r: Reader): (b: RequestBody)
    ensures b.replay.Some? <==> InMemory(r)
    ensures InMemory(r) ==> b.replay.value == r.unread && b.contentLength == |r.unread|
    ensures b.kind == NoBody <==> InMemory(r) && |r.unread| == 0
    ensures b.kind == Absent <==> r.NilReader?
    ensures !InMemory(r) ==> b.contentLength == 0
  {
    match r
    case NilReader => RequestBody(Absent, 0, None)
    case OtherReader => RequestBody(Stream, 0, None)
    case _ =>
      var b := RequestBody(Stream, |r.unread|, Some(r.unread));
      if b.replay.Some? && b.contentLength == 0 then RequestBody(NoBody, 0, Some([])) else b
  }

  /** A resent body carries exactly as many bytes as the content length
      announces. */
  lemma ReplayMatchesLength(r: Reader)
    requires SetRequestBody(r).replay.Some?
    ensures |SetRequestBody(r).replay.value| == SetRequestBody(r).contentLength
  {
  }

  /** One form field of a multipart POST: its name and its raw content. Go
      strings are byte sequences, so the name and the boundary are kept as
      the bytes written. */
  datatype Part = Part(name: seq<byte>, content: seq<byte>)

  /** The fixed ASCII texts written around the parts. */
  const Dashes: seq<byte> := Ascii("--")
  const PreambleText: seq<byte> := Ascii("Content-type: multipart/form-data; boundary=")
  const BlankLine: seq<byte> := Ascii("\n\n")
  const Newline: seq<byte> := Ascii("\n")
  const DispositionText: seq<byte> := Ascii("Content-Disposition: form-data; name=")
  const LengthText: seq<byte> := Ascii("Content-Length: ")
  const LengthEnd: seq<byte> := Ascii(" \n\n")
  const ClosingSuffix: seq<byte> := Ascii("--\n\n")

  function DashBoundary(boundary: seq<byte>): seq<byte> {
    Dashes + boundary
  }

  /** The preamble `createMultipartReader` writes first. */
  function Preamble(boundary: seq<byte>): seq<byte> {
    PreambleText + boundary + BlankLine
  }

  /** The delimiter line of a part. */
  function Delimiter(boundary: seq<byte>): seq<byte> {
    DashBoundary(boundary) + Newline
  }

  /** The line naming a part. */
  function Disposition(p: Part): seq<byte> {
    DispositionText + p.name + Newline
  }

  /** The line announcing a part's length in decimal, and the blank line
      after it. */
  function LengthLine(p: Part): seq<byte> {
    LengthText + Ascii(Itoa(|p.content|)) + LengthEnd
  }

  /** Everything written for one part: its head, its content, a newline. */
  function Section(boundary: seq<byte>, p: Part): seq<byte> {
    Delimiter(boundary) + Disposition(p) + LengthLine(p) + p.content + Newline
  }

  /** Byte strings written one after another. */
  function Concat(ss: seq<seq<byte>>): seq<byte>
    decreases |ss|
  {
    if ss == [] then [] else Concat(ss[..|ss| - 1]) + ss[|ss| - 1]
  }

  /** The closing delimiter written last. */
  function Closing(boundary: seq<byte>): seq<byte> {
    DashBoundary(boundary) + ClosingSuffix
  }

  /** What is written, piece by piece: the preamble, one section per part
      in the order given (Go ranges over a map here, so that order is
      whatever the map iteration yields), then the closing delimiter. */
  function Chunks(boundary: seq<byte>, parts: seq<Part>): (r: seq<seq<byte>>)
    ensures |r| == |parts| + 2
    ensures r[0] == Preamble(boundary) && r[|parts| + 1] == Closing(boundary)
    ensures forall i :: 0 <= i < |parts| ==> r[i + 1] == Section(boundary, parts[i])
  {
    [Preamble(boundary)] + seq(|parts|, i requires 0 <= i < |parts| => Section(boundary, parts[i])) + [Closing(boundary)]
  }

  /** The whole body. */
  function MultipartLayout(boundary: seq<byte>, parts: seq<Part>): seq<byte> {
    Concat(Chunks(boundary, parts))
  }

  /** `createMultipartReader`: the preamble, then for each part its
      delimiter line, its name, its length, its content and a newline, then
      the closing delimiter. */
  method CreateMultipartReader(boundary: seq<byte>, parts: seq<Part>) returns (body: seq<byte>)
    ensures body == MultipartLayout(boundary, parts)
  {
    ghost var chunks := Chunks(boundary, parts);
    body := PreambleText + boundary + BlankLine;
    assert chunks[..1] == [body];
    var i := 0;
    while i < |parts|
      invariant 0 <= i <= |parts|
      invariant body == Concat(chunks[..i + 1])
    {
      body := WritePart(body, boundary, parts[i]);
      ConcatSnoc(chunks, i + 1);
      i := i + 1;
    }
    body := body + (Dashes + boundary + ClosingSuffix);
    ConcatSnoc(chunks, i + 1);
    assert chunks[..i + 2] == chunks;
  }

  /** The five writes of one iteration of that loop. */
  method WritePart(body: seq<byte>, boundary: seq<byte>, p: Part) returns (after: seq<byte>)
    ensures after == body + Section(boundary, p)
  {
    var dashBoundary := Dashes + boundary;
    after := body + (dashBoundary + Newline);
    after := after + (DispositionText + p.name + Newline);
    after := after + (LengthText + Ascii(Itoa(|p.content|)) + LengthEnd);
    after := after + p.content;
    after := after + Newline;
  }

  lemma ConcatSnoc(ss: seq<seq<byte>>, i: nat)
    requires i < |ss|
    ensures Concat(ss[..i + 1]) == Concat(ss[..i]) + ss[i]
  {
    assert ss[..i + 1][..i] == ss[..i];
  }

  /** What is written for the first `j` pieces is a prefix of the whole. */
  lemma {:induction false} ConcatPrefix(ss: seq<seq<byte>>, j: nat)
    requires j <= |ss|
    ensures Concat(ss[..j]) <= Concat(ss)
    decreases |ss| - j
  {
    if j < |ss| {
      ConcatPrefix(ss, j + 1);
      ConcatSnoc(ss, j);
    } else {
      assert ss[..j] == ss;
    }
  }

  /** Piece `j` is found, unchanged, right after the pieces before it. */
  lemma ConcatAt(ss: seq<seq<byte>>, j: nat)
    requires j < |ss|
    ensures var off := |Concat(ss[..j])|;
      off + |ss[j]| <= |Concat(ss)| && Concat(ss)[off..off + |ss[j]|] == ss[j]
  {
    ConcatSnoc(ss, j);
    ConcatPrefix(ss, j + 1);
    var before, all := Concat(ss[..j]), Concat(ss);
    assert all[|before|..|before| + |ss[j]|] == (before + ss[j])[|before|..];
  }

  /** Each part's content sits, unchanged, right after its head, and the
      Content-Length its head announces reads back (with `strconv.Atoi`) as
      the exact number of content bytes. */
  lemma {:induction false} SectionCarriesContent(boundary: seq<byte>, p: Part)
    requires |p.content| <= MaxInt64
    ensures var s := Section(boundary, p);
      var off := |Delimiter(boundary) + Disposition(p) + LengthLine(p)|;
      off + |p.content| <= |s| && s[off..off + |p.content|] == p.content
    ensures LengthLine(p) == LengthText + Ascii(Itoa(|p.content|)) + LengthEnd
    ensures Atoi(Itoa(|p.content|)) == IntParse(|p.content|, true)
  {
    AtoiItoa(|p.content|);
  }

}
