/** `SsbAgc` of `tools/demodulator.py`: an attack/release follower of the
    average *power* `|s|^2`, a gain that brings that power to `0.3^2`, and a
    hard clip of whatever still exceeds unit power. */
module Agc {
  import opened ComplexNumbers
  import opened Collaborators

  const Attack: real := 0.001
  const Release: real := 0.00005
  const Target: real := 0.3

  /** The only state: the tracked average power `pa`, zero at construction. */
  datatype SsbAgc = SsbAgc(pa: real)

  const Fresh: SsbAgc := SsbAgc(0.0)

  /** `pa += (p - pa) * attack` when the power is at or above the average,
      `* release` when below. */
  function Track(pa: real, p: real): (pa': real)
    ensures p >= pa ==> pa <= pa' <= p
    ensures p < pa ==> p <= pa' <= pa
    ensures p >= pa ==> (pa' == pa <==> p == pa)
  {
    var pd := p - pa;
    if pd >= 0.0 then pa + pd * Attack else pa + pd * Release
  }

  /** Power never leaves the closed interval between the old average and the
      new sample's power, so a non-negative average stays non-negative. */
  lemma TrackNonNegative(pa: real, p: real)
    requires pa >= 0.0 && p >= 0.0
    ensures Track(pa, p) >= 0.0
    ensures Track(pa, p) == 0.0 <==> pa == 0.0 && p == 0.0
  {
  }

  lemma ScaleNorm2(a: Complex, k: real)
    ensures Norm2(Scale(a, k)) == k * k * Norm2(a)
  {
    calc {
      Norm2(Scale(a, k));
      (a.re * k) * (a.re * k) + (a.im * k) * (a.im * k);
      k * k * (a.re * a.re + a.im * a.im);
    }
  }

  lemma ScaleScale(a: Complex, j: real, k: real)
    ensures Scale(Scale(a, j), k) == Scale(a, j * k)
  {
  }

  /** A positive number has a positive square root. */
  lemma RootPositive(sqrt: real -> real, x: real)
    requires IsSquareRoot(sqrt) && x > 0.0
    ensures sqrt(x) > 0.0
  {
    assert sqrt(x) >= 0.0 && sqrt(x) * sqrt(x) == x;
  }

  lemma PositiveFactor(a: real, b: real)
    requires a * b > 0.0 && b > 0.0
    ensures a > 0.0
  {
  }

  /** A root whose square exceeds 1 exceeds 1. */
  lemma RootAboveOne(r: real)
    requires r >= 0.0 && r * r > 1.0
    ensures r > 1.0
  {
    var a, b := r - 1.0, r + 1.0;
    assert a * b == r * r - 1.0;
    PositiveFactor(a, b);
  }

  /** `s *= 0.3 / sqrt(pa)` when `pa > 0`, otherwise `s = 0`. */
  function Normalize(s: Complex, pa: real, sqrt: real -> real): Complex
    requires IsSquareRoot(sqrt)
  {
    if pa > 0.0 then
      RootPositive(sqrt, pa);
      Scale(s, Target / sqrt(pa))
    else Zero
  }

  /** `s *= 1 / sqrt(p)` when the power `p` exceeds 1. */
  function Clip(s: Complex, sqrt: real -> real): Complex
    requires IsSquareRoot(sqrt)
  {
    var p := Norm2(s);
    if p > 1.0 then
      RootPositive(sqrt, p);
      Scale(s, 1.0 / sqrt(p))
    else s
  }

  /** Dividing by the square root of the power leaves unit power. */
  lemma UnitAfterDivision(s: Complex, r: real)
    requires Norm2(s) > 0.0 && r > 0.0 && r * r == Norm2(s)
    ensures Norm2(Scale(s, 1.0 / r)) == 1.0
  {
    ScaleNorm2(s, 1.0 / r);
    assert (1.0 / r) * (1.0 / r) * (r * r) == 1.0;
  }

  /** Normalisation multiplies the sample by a non-negative gain: `0.3 /
      sqrt(pa)`, or 0 when `pa` is not positive. */
  lemma NormalizeScales(s: Complex, pa: real, sqrt: real -> real) returns (k: real)
    requires IsSquareRoot(sqrt)
    ensures k >= 0.0 && Normalize(s, pa, sqrt) == Scale(s, k)
  {
    if pa > 0.0 {
      RootPositive(sqrt, pa);
      k := Target / sqrt(pa);
    } else {
      k := 0.0;
    }
  }

  /** Two non-negative gains compose to a non-negative gain. */
  lemma NonNegativeProduct(a: real, b: real)
    requires a >= 0.0 && b >= 0.0
    ensures a * b >= 0.0
  {
  }

  /** The clip leaves at most unit power and only ever shrinks a sample by a
      non-negative factor. */
  lemma ClipBounded(s: Complex, sqrt: real -> real)
    requires IsSquareRoot(sqrt)
    ensures Norm2(Clip(s, sqrt)) <= 1.0
    ensures Norm2(s) <= 1.0 ==> Clip(s, sqrt) == s
    ensures exists c: real :: 0.0 <= c <= 1.0 && Clip(s, sqrt) == Scale(s, c)
  {
    var p := Norm2(s);
    if p > 1.0 {
      var r := sqrt(p);
      assert r >= 0.0 && r * r == p;
      RootAboveOne(r);
      UnitAfterDivision(s, r);
      assert 0.0 <= 1.0 / r <= 1.0;
      assert Clip(s, sqrt) == Scale(s, 1.0 / r);
    } else {
      assert Clip(s, sqrt) == Scale(s, 1.0);
    }
  }

  /** One iteration of the `execute` loop: the new average power and the
      output sample. */
  function Step(pa: real, x: Complex, sqrt: real -> real): (r: (real, Complex))
    requires IsSquareRoot(sqrt)
    ensures r.0 == Track(pa, Norm2(x))
    ensures r.0 <= 0.0 ==> r.1 == Zero
  {
    var pa' := Track(pa, Norm2(x));
    (pa', Clip(Normalize(x, pa', sqrt), sqrt))
  }

  /** Every output has at most unit power, and the AGC changes only the gain
      of a sample, never its phase: the output is the input times a
      non-negative real. */
  lemma StepOutput(pa: real, x: Complex, sqrt: real -> real)
    requires IsSquareRoot(sqrt)
    ensures Norm2(Step(pa, x, sqrt).1) <= 1.0
    ensures exists g: real :: g >= 0.0 && Step(pa, x, sqrt).1 == Scale(x, g)
  {
    var pa' := Track(pa, Norm2(x));
    var k := NormalizeScales(x, pa', sqrt);
    var n := Normalize(x, pa', sqrt);
    ClipBounded(n, sqrt);
    var c: real :| 0.0 <= c <= 1.0 && Clip(n, sqrt) == Scale(n, c);
    ScaleScale(x, k, c);
    NonNegativeProduct(k, c);
    assert Step(pa, x, sqrt).1 == Scale(x, k * c);
  }

  /** Starting from `pa >= 0` the average stays non-negative, and it is zero
      (so the output is zero) only for a sample of zero power on a history of
      zero power. */
  lemma StepSilence(pa: real, x: Complex, sqrt: real -> real)
    requires pa >= 0.0 && IsSquareRoot(sqrt)
    ensures Step(pa, x, sqrt).0 >= 0.0
    ensures Step(pa, x, sqrt).0 == 0.0 <==> pa == 0.0 && Norm2(x) == 0.0
  {
    TrackNonNegative(pa, Norm2(x));
  }

  /** `execute` on a whole block: the final average and the outputs, in
      order. */
  function Run(pa: real, xs: seq<Complex>, sqrt: real -> real): (r: (real, seq<Complex>))
    requires IsSquareRoot(sqrt)
    ensures |r.1| == |xs|
    decreases |xs|
  {
    if |xs| == 0 then (pa, [])
    else
      var prev := Run(pa, xs[..|xs| - 1], sqrt);
      var s := Step(prev.0, xs[|xs| - 1], sqrt);
      (s.0, prev.1 + [s.1])
  }

  /** `pa` persists across calls: two calls on `a` then `b` give exactly what
      one call on `a + b` gives. */
  lemma {:induction false} RunAppend(pa: real, a: seq<Complex>, b: seq<Complex>, sqrt: real -> real)
    requires IsSquareRoot(sqrt)
    ensures Run(pa, a + b, sqrt).0 == Run(Run(pa, a, sqrt).0, b, sqrt).0
    ensures Run(pa, a + b, sqrt).1 == Run(pa, a, sqrt).1 + Run(Run(pa, a, sqrt).0, b, sqrt).1
    decreases |b|
  {
    if |b| == 0 {
      assert a + b == a;
    } else {
      var b' := b[..|b| - 1];
      assert (a + b)[..|a + b| - 1] == a + b';
      assert (a + b)[|a + b| - 1] == b[|b| - 1];
      RunAppend(pa, a, b', sqrt);
    }
  }

  /** Over a whole block, from a non-negative average: the average stays
      non-negative and every output has at most unit power. */
  lemma {:induction false} RunBounded(pa: real, xs: seq<Complex>, sqrt: real -> real)
    requires pa >= 0.0 && IsSquareRoot(sqrt)
    ensures Run(pa, xs, sqrt).0 >= 0.0
    ensures forall k :: 0 <= k < |xs| ==> Norm2(Run(pa, xs, sqrt).1[k]) <= 1.0
    decreases |xs|
  {
    if |xs| > 0 {
      var prev := Run(pa, xs[..|xs| - 1], sqrt);
      RunBounded(pa, xs[..|xs| - 1], sqrt);
      StepSilence(prev.0, xs[|xs| - 1], sqrt);
      StepOutput(prev.0, xs[|xs| - 1], sqrt);
    }
  }

  /** `SsbAgc.execute`: the loop over the block, `pa` read at the start and
      stored back at the end. */
  method Execute(agc: SsbAgc, input: seq<Complex>, sqrt: real -> real) returns (agc': SsbAgc, output: seq<Complex>)
    requires IsSquareRoot(sqrt)
    ensures agc'.pa == Run(agc.pa, input, sqrt).0
    ensures output == Run(agc.pa, input, sqrt).1
    ensures |output| == |input|
  {
    var pa := agc.pa;
    output := [];
    var i := 0;
    while i < |input|
      invariant 0 <= i <= |input|
      invariant (pa, output) == Run(agc.pa, input[..i], sqrt)
    {
      assert input[..i + 1][..i] == input[..i];
      var s := Step(pa, input[i], sqrt);
      pa := s.0;
      output := output + [s.1];
      i := i + 1;
    }
    assert input[..i] == input;
    agc' := SsbAgc(pa);
  }
}
