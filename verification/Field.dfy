/** Field elements and byte strings.

    A 32-byte big-endian array is identified with the number it encodes (so that the
    lexicographic order of arrays is the order of numbers), and a BN254 scalar with its
    canonical representative. */
module Field {
  /** The BN254 scalar modulus. */
  const P: nat := 0x30644e72e131a029b85045b68181585d2833e84879b9709143e1f593f0000001
  const TWO_16: nat := 0x1_0000
  const TWO_32: nat := 0x1_0000_0000
  const TWO_64: nat := 0x1_0000_0000_0000_0000
  const TWO_128: nat := 0x1_0000_0000_0000_0000_0000_0000_0000_0000
  const TWO_248: nat := 0x100_0000_0000_0000_0000_0000_0000_0000_0000_0000_0000_0000_0000_0000_0000_0000
  const TWO_256: nat := 0x1_0000_0000_0000_0000_0000_0000_0000_0000_0000_0000_0000_0000_0000_0000_0000_0000

  newtype byte = x: int | 0 <= x < 256
  type Bytes32 = x: nat | x < TWO_256
  type Fr = x: nat | x < P witness 0
  type u64 = x: nat | x < TWO_64

  /** Reduces a big-endian array modulo the field order. */
  function FromBe(b: Bytes32): (f: Fr)
    ensures f == b <==> b < P
  {
    b % P
  }

  function ToBe(f: Fr): (b: Bytes32)
    ensures FromBe(b) == f
  {
    f
  }

  // ----- big-endian byte strings -----

  function Pow256(k: nat): (r: nat)
    ensures r >= 1
  {
    if k == 0 then 1 else 256 * Pow256(k - 1)
  }

  function BeValue(s: seq<byte>): nat {
    if |s| == 0 then 0 else 256 * BeValue(s[..|s| - 1]) + s[|s| - 1] as nat
  }

  function BeBytes(v: nat, k: nat): (s: seq<byte>)
    ensures |s| == k
    decreases k, v
  {
    if k == 0 then [] else BeBytes(v / 256, k - 1) + [(v % 256) as byte]
  }

  lemma {:induction false} BeValueBound(s: seq<byte>)
    ensures BeValue(s) < Pow256(|s|)
  {
    if |s| != 0 {
      BeValueBound(s[..|s| - 1]);
    }
  }

  lemma {:induction false} BeValueOfBytes(v: nat, k: nat)
    requires v < Pow256(k)
    ensures BeValue(BeBytes(v, k)) == v
  {
    if k != 0 {
      BeValueOfBytes(v / 256, k - 1);
      assert BeBytes(v, k)[..k - 1] == BeBytes(v / 256, k - 1);
    }
  }

  lemma {:induction false} BeBytesOfValue(s: seq<byte>)
    ensures BeBytes(BeValue(s), |s|) == s
  {
    if |s| != 0 {
      BeBytesOfValue(s[..|s| - 1]);
      assert s == s[..|s| - 1] + [s[|s| - 1]];
    }
  }

  lemma {:induction false} BeValueLeadingZero(s: seq<byte>)
    requires |s| >= 1 && s[0] == 0
    ensures BeValue(s) == BeValue(s[1..])
  {
    if |s| > 1 {
      BeValueLeadingZero(s[..|s| - 1]);
      assert s[1..][..|s| - 2] == s[..|s| - 1][1..];
    }
  }

  lemma Pow256Values()
    ensures Pow256(2) == TWO_16 && Pow256(31) == TWO_248 && Pow256(32) == TWO_256
  {
    assert Pow256(8) == TWO_64;
    assert Pow256(16) == TWO_128;
    assert Pow256(24) == TWO_128 * TWO_64;
  }
}
