/** Bytes and the little-endian integer layout the `byte` crate's `LE`
    context and Python's `struct` `'<'` formats use. */
module Bytes {
  type byte = x: int | 0 <= x < 256

  /** `256^n`, one past the largest value `n` bytes hold. */
  function Pow256(n: nat): (p: nat)
    ensures p >= 1
  {
    if n == 0 then 1 else 256 * Pow256(n - 1)
  }

  const U32Limit: nat := 0x1_0000_0000
  const U64Limit: nat := 0x1_0000_0000_0000_0000

  lemma {:induction false} Pow256Values()
    ensures Pow256(2) == 0x1_0000 && Pow256(4) == U32Limit && Pow256(8) == U64Limit
  {
    assert Pow256(1) == 256;
    assert Pow256(2) == 0x1_0000;
    assert Pow256(3) == 0x100_0000;
    assert Pow256(4) == U32Limit;
    assert Pow256(5) == 0x100_0000_0000;
    assert Pow256(6) == 0x1_0000_0000_0000;
    assert Pow256(7) == 0x100_0000_0000_0000;
  }

  /** A positive number of bytes has an even range, split evenly in half. */
  lemma PowHalf(n: nat)
    requires n >= 1
    ensures Pow256(n) == 2 * (Pow256(n) / 2)
  {
    assert Pow256(n) == 2 * (128 * Pow256(n - 1));
  }

  /** The `n` little-endian bytes of `v`, least significant first. */
  function LeBytes(v: nat, n: nat): (b: seq<byte>)
    requires v < Pow256(n)
    ensures |b| == n
  {
    if n == 0 then []
    else
      assert v / 256 < Pow256(n - 1);
      [v % 256] + LeBytes(v / 256, n - 1)
  }

  /** The unsigned value of little-endian bytes. */
  function LeValue(b: seq<byte>): nat
  {
    if |b| == 0 then 0 else b[0] + 256 * LeValue(b[1..])
  }

  /** Decoding what was encoded gives the value back. */
  lemma {:induction false} LeRoundTrip(v: nat, n: nat)
    requires v < Pow256(n)
    ensures LeValue(LeBytes(v, n)) == v
    decreases n
  {
    if n > 0 {
      var b := LeBytes(v, n);
      assert b[1..] == LeBytes(v / 256, n - 1);
      LeRoundTrip(v / 256, n - 1);
    }
  }

  /** `n` bytes hold values below `256^n`. */
  lemma {:induction false} LeValueBound(b: seq<byte>)
    ensures LeValue(b) < Pow256(|b|)
    decreases |b|
  {
    if |b| > 0 {
      LeValueBound(b[1..]);
    }
  }

  /** Encoding what was decoded gives the bytes back: the layout is a
      bijection between `n` bytes and `[0, 256^n)`. */
  lemma {:induction false} LeBytesOfValue(b: seq<byte>)
    ensures LeValue(b) < Pow256(|b|)
    ensures LeBytes(LeValue(b), |b|) == b
    decreases |b|
  {
    LeValueBound(b);
    if |b| > 0 {
      LeBytesOfValue(b[1..]);
      var v := LeValue(b);
      assert v % 256 == b[0] && v / 256 == LeValue(b[1..]) by {
        DivMod256(b[0], LeValue(b[1..]));
      }
    }
  }

  lemma DivMod256(lo: int, hi: int)
    requires 0 <= lo < 256
    ensures (lo + 256 * hi) % 256 == lo && (lo + 256 * hi) / 256 == hi
  {
  }
}
