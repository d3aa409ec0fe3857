/**
 * Adler-32, the checksum zlib computes, as defined in section 2.2 of RFC 1950: two sums modulo
 * 65521 over the bytes, s1 = 1 + b1 + ... + bn and s2 = the sum of the successive values of s1,
 * combined as s2 * 65536 + s1.
 */
module Adler32 {
  import opened Text

  const Base := 65521

  /** The running pair (s1, s2) after `data`, updated one byte at a time as the sample code in section 9 of RFC 1950 does. */
  function Fold(data: seq<Byte>): (s: (nat, nat))
    ensures s.0 < Base && s.1 < Base
  {
    if data == [] then (1, 0)
    else
      var (s1, s2) := Fold(data[..|data| - 1]);
      var s1' := (s1 + data[|data| - 1]) % Base;
      (s1', (s2 + s1') % Base)
  }

  /**
   * `zlib.adler32(data)`, which starts from the value 1: the sum of the successive s1 values
   * in the high half, 1 plus the sum of the bytes in the low half, both modulo 65521.
   */
  function Checksum(data: seq<Byte>): (v: nat)
    ensures v < 0x1_0000_0000
    ensures v == (SumOfS1(data) % Base) * 65536 + (1 + Sum(data)) % Base
  {
    FoldMatchesDefinition(data);
    Fold(data).1 * 65536 + Fold(data).0
  }

  // ------------------------------------------------ the definition of section 2.2 of RFC 1950

  function Sum(data: seq<Byte>): nat {
    if data == [] then 0 else Sum(data[..|data| - 1]) + data[|data| - 1]
  }

  /** The sum of the values s1 takes, before reduction: one per byte, (1 + b1 + ... + bk) for the k-th. */
  function SumOfS1(data: seq<Byte>): nat {
    if data == [] then 0 else SumOfS1(data[..|data| - 1]) + 1 + Sum(data)
  }

  lemma ModAdd(a: nat, b: nat)
    ensures (a % Base + b) % Base == (a + b) % Base
  {
    var q := a / Base;
    assert a == q * Base + a % Base;
    assert a + b == (a % Base + b) + q * Base;
  }

  /** The byte-at-a-time loop computes the two sums of the definition. */
  lemma {:induction false} FoldMatchesDefinition(data: seq<Byte>)
    ensures Fold(data) == ((1 + Sum(data)) % Base, SumOfS1(data) % Base)
  {
    if data != [] {
      var prefix := data[..|data| - 1];
      var b := data[|data| - 1];
      FoldMatchesDefinition(prefix);
      ModAdd(1 + Sum(prefix), b);
      ModAdd(SumOfS1(prefix), (1 + Sum(data)) % Base);
      ModAdd(1 + Sum(data), SumOfS1(prefix));
    }
  }

  /** The checksum of no bytes is 1. */
  lemma EmptyChecksum()
    ensures Checksum([]) == 1
  {
  }
}
