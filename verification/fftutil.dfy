/** `get_bin` of `spektri/src/dsp/fftutil.rs`: read an FFT result with
    modulo indexing, using conjugate symmetry for the half of a real-input
    FFT that is not stored. */
module FftUtil {
  import opened Arith
  import opened ComplexNumbers

  /** Rust's `%` on signed integers truncates toward zero: the remainder
      takes the sign of the dividend. */
  function TruncRem(a: int, n: int): (r: int)
    requires n > 0
    ensures -n < r < n
    ensures a >= 0 ==> r >= 0
  {
    if a >= 0 then a % n else -((-a) % n)
  }

  /** `((i % n) + n) % n`, the index `get_bin` reads. */
  function Wrap(i: int, n: int): int
    requires n > 0
  {
    TruncRem(TruncRem(i, n) + n, n)
  }

  /** The double remainder is the mathematical (Euclidean) `i mod n`, also
      for negative `i`. */
  lemma WrapIsMod(i: int, n: int)
    requires n > 0
    ensures Wrap(i, n) == i % n
    ensures 0 <= Wrap(i, n) < n
  {
    var t := TruncRem(i, n);
    if i >= 0 {
      DivAddMultiple(i, 1, n);
      assert t + n == i % n + 1 * n;
      DivAddMultiple(i % n, 1, n);
      DivModUnique(i % n, n, 0, i % n);
    } else {
      var r := (-i) % n;
      var q := (-i) / n;
      assert -i == q * n + r;
      if r == 0 {
        DivModUnique(t + n, n, 1, 0);
        DivModUnique(i, n, -q, 0);
      } else {
        DivModUnique(t + n, n, 0, n - r);
        DivModUnique(i, n, -q - 1, n - r);
      }
    }
  }

  /** Moving the index by a whole FFT length reads the same bin. */
  lemma WrapPeriodic(i: int, n: int)
    requires n > 0
    ensures Wrap(i + n, n) == Wrap(i, n)
  {
    WrapIsMod(i, n);
    WrapIsMod(i + n, n);
    DivAddMultiple(i, 1, n);
  }

  /** The index of the mirrored bin: `(-i) mod n == n - (i mod n)` unless
      `i mod n == 0`. */
  lemma WrapNegate(i: int, n: int)
    requires n > 0 && Wrap(i, n) != 0
    ensures Wrap(-i, n) == n - Wrap(i, n)
  {
    WrapIsMod(i, n);
    WrapIsMod(-i, n);
    var q, m := i / n, i % n;
    assert i == q * n + m;
    DivModUnique(-i, n, -q - 1, n - m);
  }

  /** The source reads inside the buffer: either the wrapped index itself or
      its mirror `n - m` must be stored. */
  predicate InBounds(len: nat, n: int, i: int)
    requires n > 0
  {
    Wrap(i, n) < len || n - Wrap(i, n) < len
  }

  /** `get_bin(fft_result, fft_size, i)`: bin `i mod n` when it is stored,
      otherwise the conjugate of its mirror bin `n - (i mod n)`. */
  function GetBin(fftResult: seq<Complex>, fftSize: int, i: int): (c: Complex)
    requires fftSize > 0 && InBounds(|fftResult|, fftSize, i)
    ensures i % fftSize < |fftResult| ==> c == fftResult[i % fftSize]
    ensures i % fftSize >= |fftResult| ==>
      0 < fftSize - i % fftSize < |fftResult| && c == Conj(fftResult[fftSize - i % fftSize])
  {
    WrapIsMod(i, fftSize);
    var m := Wrap(i, fftSize);
    if m < |fftResult| then fftResult[m]
    else Conj(fftResult[fftSize - m])
  }

  /** A complex FFT stores every bin: `get_bin` is plain `result[i mod n]`. */
  lemma FullSpectrum(fftResult: seq<Complex>, i: int)
    requires |fftResult| > 0
    ensures InBounds(|fftResult|, |fftResult|, i)
    ensures GetBin(fftResult, |fftResult|, i) == fftResult[i % |fftResult|]
  {
    WrapIsMod(i, |fftResult|);
  }

  /** The `n/2 + 1` bins a real-input FFT of even size `n` stores. */
  predicate HalfSpectrum(len: nat, n: int) {
    n > 0 && n % 2 == 0 && len == n / 2 + 1
  }

  /** With a half spectrum every index is readable, and the mirror index of
      an unstored bin lies in `[1, n/2]`. */
  lemma HalfSpectrumInBounds(len: nat, n: int, i: int)
    requires HalfSpectrum(len, n)
    ensures InBounds(len, n, i)
    ensures Wrap(i, n) >= len ==> 1 <= n - Wrap(i, n) <= n / 2
  {
    WrapIsMod(i, n);
  }

  /** `get_bin` is periodic in the FFT length. */
  lemma GetBinPeriodic(fftResult: seq<Complex>, fftSize: int, i: int)
    requires fftSize > 0 && InBounds(|fftResult|, fftSize, i)
    ensures InBounds(|fftResult|, fftSize, i + fftSize)
    ensures GetBin(fftResult, fftSize, i + fftSize) == GetBin(fftResult, fftSize, i)
  {
    WrapPeriodic(i, fftSize);
  }

  lemma ConjConj(a: Complex)
    ensures Conj(Conj(a)) == a
  {
  }

  /** Conjugate symmetry of a real signal's spectrum: away from the bins 0
      and `n/2`, which a real FFT makes real, bin `-i` reads as the conjugate
      of bin `i`, whichever of the two is stored. */
  lemma HalfSpectrumSymmetric(fftResult: seq<Complex>, n: int, i: int)
    requires HalfSpectrum(|fftResult|, n)
    requires Wrap(i, n) != 0 && 2 * Wrap(i, n) != n
    ensures InBounds(|fftResult|, n, i) && InBounds(|fftResult|, n, -i)
    ensures GetBin(fftResult, n, -i) == Conj(GetBin(fftResult, n, i))
  {
    HalfSpectrumInBounds(|fftResult|, n, i);
    HalfSpectrumInBounds(|fftResult|, n, -i);
    WrapNegate(i, n);
    var m := Wrap(i, n);
    if m < |fftResult| {
      assert GetBin(fftResult, n, -i) == Conj(fftResult[m]);
    } else {
      ConjConj(fftResult[n - m]);
    }
  }
}
