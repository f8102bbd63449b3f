/** The 64-bit FNV-1a hash (`hash/fnv.New64a`) that fingerprints URLs for
    the visited set. */
module Fnv {
  import opened Text

  const OffsetBasis64: bv64 := 0xcbf2_9ce4_8422_2325
  const Prime64: bv64 := 0x100_0000_01b3

  /** One step of FNV-1a: xor the byte in, then multiply by the prime
      modulo 2^64. */
  function Mix(h: bv64, b: byte): bv64 {
    (h ^ (b as bv64)) * Prime64
  }

  /** The `Write` loop of the hash: from the state `h`, take the bytes
      front to back, xor each in, then multiply by the prime modulo 2^64. */
  function Absorb(h: bv64, data: seq<byte>): bv64
    decreases |data|
  {
    if data == [] then h
    else Absorb(Mix(h, data[0]), data[1..])
  }

  /** One more byte written at the end is one more step of the loop. */
  lemma {:induction false} AbsorbSnoc(h: bv64, data: seq<byte>, b: byte)
    ensures Absorb(h, data + [b]) == Mix(Absorb(h, data), b)
    decreases |data|
  {
    if data != [] {
      AbsorbSnoc(Mix(h, data[0]), data[1..], b);
      assert (data + [b])[1..] == data[1..] + [b];
    }
  }

  /** FNV-1a: start from the offset basis; for every byte, xor it in, then
      multiply by the prime modulo 2^64. Defined from the last byte back, it
      is the `Write` loop run from the offset basis. */
  function Sum64a(data: seq<byte>): (r: bv64)
    ensures r == Absorb(OffsetBasis64, data)
    decreases |data|
  {
    if data == [] then OffsetBasis64
    else
      var init := data[..|data| - 1];
      AbsorbSnoc(OffsetBasis64, init, data[|data| - 1]);
      assert init + [data[|data| - 1]] == data;
      Mix(Sum64a(init), data[|data| - 1])
  }

  /** The published test vectors of FNV-1a 64: "" and "a". */
  lemma TestVectors()
    ensures Sum64a([]) == 0xcbf2_9ce4_8422_2325
    ensures Sum64a([0x61]) == 0xaf63_dc4c_8601_ec8c
  {
    var a: seq<byte> := [0x61];
    assert a[..0] == [];
    assert a[0] as bv64 == 0x61;
    assert Sum64a(a) == (OffsetBasis64 ^ 0x61) * Prime64;
  }

  /** The visited-set key of a URL: FNV-1a 64 over the bytes of the raw URL
      text. */
  function UrlHash(u: string): (r: bv64)
    ensures r == Absorb(OffsetBasis64, Utf8(u))
  {
    Sum64a(Utf8(u))
  }
}
