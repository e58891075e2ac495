/** `DesignDdc` of `tools/ddc.py`: exact rational reduction of the resampling
    ratio and of the mixing frequency, and the size of the anti-aliasing
    filter it asks `firwin` for. The rates arrive as `Fraction(...)` of what
    the caller passes: an integer, a `Fraction`, or a float taken at its exact
    binary value, so the model takes them as fractions in lowest terms. */
module DdcDesign {
  import opened Arith
  import opened ComplexNumbers
  import opened Fractions
  import opened Collaborators
  import opened Results
  import opened Ddc

  /** Why `DesignDdc` raises. */
  datatype DesignError =
    | ZeroInputRate     // `-fc / fs_in` with `fs_in == 0`: ZeroDivisionError
    /** `fs_out / fs_in <= 0`. The source fails at different points: a zero
        ratio divides by `interp == 0` at `// interp`; a negative whole ratio
        fails `firwin`'s cutoff check (cutoff `1.0`); any other negative
        ratio gets its `firwin` taps and fails in `RationalDdc.__init__`,
        where the negative factor sizes the history (`tools/ddc.py` lines 71-75). */
    | NonPositiveRate
    | CutoffAtNyquist   // `decim == 1`: `firwin` rejects the cutoff `1.0 / 1`
    | ZeroFrequency     // `fc == 0`: `_sinewave(0, 1)` calls `arange` with step 0

  /** The integers `DesignDdc` derives from its arguments. `numTaps` is 0 for
      a ratio above 11: `firwin(0, …)` is an empty filter, which
      `RationalDdc.__init__` accepts. */
  datatype Plan = Plan(interpolation: nat, decimation: nat, numTaps: nat, freqNum: int, freqDen: nat)

  /** The tap count `(11 * decim) // interp * interp`. */
  function TapCount(interp: nat, decim: nat): (n: nat)
    requires interp >= 1
    ensures n % interp == 0 && n <= 11 * decim
  {
    var q := (11 * decim) / interp;
    DivModUnique(q * interp, interp, q, 0);
    q * interp
  }

  /** A plan `DesignDdc` can build a converter from. */
  predicate PlanOk(fsIn: Fraction, fsOut: Fraction, fc: Fraction, p: Plan)
    requires Normal(fsIn) && Normal(fsOut) && Normal(fc)
  {
    && fsIn.num != 0
    && p.interpolation >= 1 && p.decimation >= 2
    && Normal(Fraction(p.interpolation, p.decimation))
    && Value(Fraction(p.interpolation, p.decimation)) == Value(fsOut) / Value(fsIn)
    && p.freqDen >= 1 && p.freqNum != 0
    && Normal(Fraction(p.freqNum, p.freqDen))
    && Value(Fraction(p.freqNum, p.freqDen)) == -Value(fc) / Value(fsIn)
    && p.numTaps % p.interpolation == 0 && p.numTaps <= 11 * p.decimation
  }

  /** `Gcd(k * d, d) == d`: a multiple shares all of `d`. */
  lemma GcdOfMultiple(k: nat, d: nat)
    requires d >= 1
    ensures Gcd(k * d, d) == d
  {
    DivModUnique(k * d, d, k, 0);
    DivModUnique(0, d, 0, 0);
    assert Gcd(d, 0) == d;
  }

  /** A fraction in lowest terms has denominator 1 exactly when its value is
      a whole number. */
  lemma WholeIffDenOne(f: Fraction)
    requires Normal(f)
    ensures f.den == 1 <==> Value(f).Floor as real == Value(f)
  {
    if Value(f).Floor as real == Value(f) {
      var n := Value(f).Floor;
      assert f.num as real == n as real * f.den as real;
      assert f.num == n * f.den;
      assert Abs(f.num) == Abs(n) * f.den;
      GcdOfMultiple(Abs(n), f.den);
    }
  }

  /** Comparing a quotient of integers with a whole number, in integers. */
  lemma RatioAbove(a: int, m: int, c: int)
    requires m >= 1
    ensures a as real / m as real > c as real <==> a > c * m
  {
    var x := a as real / m as real;
    assert x * m as real == a as real;
    CastMul(c, m);
    if x > c as real {
      assert x * m as real > c as real * m as real;
    } else {
      assert x * m as real <= c as real * m as real;
    }
  }

  /** A positive ratio `L/M` exceeds 11 exactly when the tap count
      `(11*M) // L * L` is zero. */
  lemma NoTapsIffAboveEleven(L: nat, M: nat)
    requires L >= 1 && M >= 1
    ensures TapCount(L, M) == 0 <==> L as real / M as real > 11.0
  {
    var q := (11 * M) / L;
    RatioAbove(L, M, 11);
    if L <= 11 * M {
      DivAtLeast(11 * M, L, 1);
      ProductNonZero(q, L);
    } else {
      DivBelow(11 * M, L, 0);
    }
  }

  /** The sign of a fraction is the sign of its numerator. */
  lemma SignOfValue(f: Fraction)
    requires f.den >= 1
    ensures f.num <= 0 <==> Value(f) <= 0.0
    ensures f.num == 0 <==> Value(f) == 0.0
  {
    assert Value(f) * f.den as real == f.num as real;
  }

  lemma QuotientZero(a: real, b: real)
    requires b != 0.0
    ensures a / b == 0.0 <==> a == 0.0
  {
    assert (a / b) * b == a;
  }

  /** The arithmetic part of `DesignDdc`, up to the call of `firwin`: the
      errors it raises before a converter exists, in the order it meets them. */
  function DesignPlan(fsIn: Fraction, fsOut: Fraction, fc: Fraction): (r: Result<Plan, DesignError>)
    requires Normal(fsIn) && Normal(fsOut) && Normal(fc)
    ensures r.Ok? ==> PlanOk(fsIn, fsOut, fc, r.value)
    ensures r == Err(ZeroInputRate) <==> fsIn.num == 0
  {
    if fsIn.num == 0 then Err(ZeroInputRate)
    else
      var freq := Frequency(fsIn, fc);
      var resampling := Resampling(fsIn, fsOut);
      // One outcome for every non-positive ratio, wherever the source fails.
      if resampling.num <= 0 then Err(NonPositiveRate)
      else
        var interp, decim := resampling.num, resampling.den;
        if decim == 1 then Err(CutoffAtNyquist)
        else if freq.num == 0 then Err(ZeroFrequency)
        else Ok(Plan(interp, decim, TapCount(interp, decim), freq.num, freq.den))
  }

  /** The order in which `DesignPlan` tests its conditions, as a decision
      over three facts about its arguments. */
  lemma Decide(r: Result<Plan, DesignError>, positive: bool, whole: bool, zero: bool)
    requires !positive ==> r == Err(NonPositiveRate)
    requires positive && whole ==> r == Err(CutoffAtNyquist)
    requires positive && !whole && zero ==> r == Err(ZeroFrequency)
    requires positive && !whole && !zero ==> r.Ok?
    ensures r == Err(NonPositiveRate) <==> !positive
    ensures r == Err(CutoffAtNyquist) <==> positive && whole
    ensures r == Err(ZeroFrequency) <==> positive && !whole && zero
    ensures r.Ok? <==> positive && !whole && !zero
  {
  }

  /** The fractions `DesignPlan` reduces the rate ratio and the mixing
      frequency to. */
  function Resampling(fsIn: Fraction, fsOut: Fraction): (f: Fraction)
    requires Normal(fsIn) && Normal(fsOut) && fsIn.num != 0
    ensures Normal(f) && Value(f) == Value(fsOut) / Value(fsIn)
  {
    Div(fsOut, fsIn)
  }

  function Frequency(fsIn: Fraction, fc: Fraction): (f: Fraction)
    requires Normal(fsIn) && Normal(fc) && fsIn.num != 0
    ensures Normal(f) && Value(f) == -Value(fc) / Value(fsIn)
  {
    Div(Neg(fc), fsIn)
  }

  /** The facts about the rates `DesignPlan` decides on, each read off the
      reduced fractions. */
  lemma RateFacts(fsIn: Fraction, fsOut: Fraction, fc: Fraction)
    requires Normal(fsIn) && Normal(fsOut) && Normal(fc) && fsIn.num != 0
    ensures var ratio := Value(fsOut) / Value(fsIn);
      && (Resampling(fsIn, fsOut).num > 0 <==> ratio > 0.0)
      && (Frequency(fsIn, fc).num == 0 <==> Value(fc) == 0.0)
      && (Resampling(fsIn, fsOut).num > 0 ==>
            && (Resampling(fsIn, fsOut).den == 1 <==> ratio.Floor as real == ratio)
            && (TapCount(Resampling(fsIn, fsOut).num, Resampling(fsIn, fsOut).den) == 0 <==> ratio > 11.0))
  {
    var res := Resampling(fsIn, fsOut);
    SignOfValue(res);
    SignOfValue(fsIn);
    SignOfValue(Frequency(fsIn, fc));
    QuotientZero(-Value(fc), Value(fsIn));
    if res.num > 0 {
      WholeIffDenOne(res);
      NoTapsIffAboveEleven(res.num, res.den);
    }
  }

  /** Which error `DesignPlan` reports, in terms of the rates alone: the
      ratio `fs_out / fs_in` must be positive and not whole, and the
      frequency must be non-zero. A ratio above 11 is not an error here: it
      leaves the filter without taps. */
  lemma DesignPlanOutcome(fsIn: Fraction, fsOut: Fraction, fc: Fraction)
    requires Normal(fsIn) && Normal(fsOut) && Normal(fc) && fsIn.num != 0
    ensures var r := DesignPlan(fsIn, fsOut, fc);
      var ratio := Value(fsOut) / Value(fsIn);
      var whole := ratio.Floor as real == ratio;
      && (r == Err(NonPositiveRate) <==> ratio <= 0.0)
      && (r == Err(CutoffAtNyquist) <==> ratio > 0.0 && whole)
      && (r == Err(ZeroFrequency) <==> ratio > 0.0 && !whole && Value(fc) == 0.0)
      && (r.Ok? <==> ratio > 0.0 && !whole && Value(fc) != 0.0)
      && (r.Ok? ==> (r.value.numTaps == 0 <==> ratio > 11.0))
  {
    var res := Resampling(fsIn, fsOut);
    RateFacts(fsIn, fsOut, fc);
    Decide(DesignPlan(fsIn, fsOut, fc), res.num > 0, res.den == 1, Frequency(fsIn, fc).num == 0);
  }

  /** The taps are the prototype low-pass filter times the interpolation
      factor, which restores the gain zero-stuffing takes away. */
  predicate ScaledPrototype(taps: seq<Complex>, prototype: seq<real>, L: nat) {
    && |taps| == |prototype|
    && forall k :: 0 <= k < |taps| ==> taps[k] == FromReal(prototype[k] * L as real)
  }

  /** `prototype * L` elementwise, as numpy scales an array. */
  function Scaled(prototype: seq<real>, L: nat): (t: seq<real>)
    ensures |t| == |prototype|
  {
    seq(|prototype|, k requires 0 <= k < |prototype| => prototype[k] * L as real)
  }

  lemma ScaledTaps(taps: seq<Complex>, t: seq<real>, prototype: seq<real>, L: nat)
    requires t == Scaled(prototype, L)
    requires |taps| == |t| && forall k :: 0 <= k < |t| ==> taps[k] == FromReal(t[k])
    ensures ScaledPrototype(taps, prototype, L)
  {
  }

  /** The converter a plan describes: a fresh state with the plan's factors,
      the oscillator table for `freqNum / freqDen`, and the `firwin`
      prototype of `numTaps` taps with cutoff `1 / M`, scaled by `L`. With no
      taps it is the untapped converter `__init__` still builds. */
  function Build(p: Plan, ext: Externals): (d: RationalDdc)
    requires p.interpolation >= 1 && p.decimation >= 1 && p.freqNum != 0 && p.freqDen >= 1
    requires p.numTaps % p.interpolation == 0
    requires FirwinSized(ext.firwin)
    ensures p.numTaps > 0 ==> Valid(d) && Consistent(d) && AtStart(d)
    ensures p.numTaps == 0 ==> Untapped(d)
    ensures d.interpolation == p.interpolation && d.decimation == p.decimation
    ensures LoTableOf(d.loTable, p.freqNum, p.freqDen, ext.cos, ext.sin)
    ensures ScaledPrototype(d.taps, ext.firwin(p.numTaps, 1.0 / p.decimation as real), p.interpolation)
  {
    var prototype := ext.firwin(p.numTaps, 1.0 / p.decimation as real);
    var taps := Scaled(prototype, p.interpolation);
    assert p.numTaps > 0 ==> p.numTaps >= p.interpolation by {
      if p.numTaps > 0 {
        DivisorIsSmaller(p.interpolation, p.numTaps);
      }
    }
    var d := New(taps, p.interpolation, p.decimation, p.freqNum, p.freqDen, ext.cos, ext.sin);
    ScaledTaps(d.taps, taps, prototype, p.interpolation);
    d
  }

  /** `DesignDdc(fs_in, fs_out, fc)`: a converter from `fs_in` to `fs_out`
      samples per second that moves `fc` to zero frequency: the exact ratio
      `L/M == fs_out / fs_in`, the oscillator at `-fc / fs_in` cycles per
      sample, and at most `11*M` taps, possibly none. */
  function DesignDdc(fsIn: Fraction, fsOut: Fraction, fc: Fraction, ext: Externals): (r: Result<RationalDdc, DesignError>)
    requires Normal(fsIn) && Normal(fsOut) && Normal(fc)
    requires FirwinSized(ext.firwin)
    ensures r.Err? <==> DesignPlan(fsIn, fsOut, fc).Err?
    ensures r.Err? ==> r.error == DesignPlan(fsIn, fsOut, fc).error
    ensures r.Ok? ==>
      var p := DesignPlan(fsIn, fsOut, fc).value;
      && PlanOk(fsIn, fsOut, fc, p)
      && r.value == Build(p, ext)
      && (Valid(r.value) || Untapped(r.value))
      && Value(Fraction(r.value.interpolation, r.value.decimation)) == Value(fsOut) / Value(fsIn)
      && |r.value.taps| == p.numTaps <= 11 * r.value.decimation
  {
    match DesignPlan(fsIn, fsOut, fc)
    case Err(e) => Err(e)
    case Ok(p) => Ok(Build(p, ext))
  }

  /** What a successful design leaves to its first call: a ratio of at most
      11 gives a converter ready to run, a ratio above 11 one without taps,
      which raises on its first sample, whatever that sample is. */
  lemma DesignedFirstSample(fsIn: Fraction, fsOut: Fraction, fc: Fraction, ext: Externals, input: seq<Complex>)
    requires Normal(fsIn) && Normal(fsOut) && Normal(fc) && fsIn.num != 0
    requires FirwinSized(ext.firwin)
    ensures var r := DesignDdc(fsIn, fsOut, fc, ext);
      var above := Value(fsOut) / Value(fsIn) > 11.0;
      r.Ok? ==>
        && (Valid(r.value) <==> !above)
        && (Untapped(r.value) <==> above)
        && (input != [] ==> (Call(r.value, input) == Err(ModuloByZero) <==> above))
  {
    DesignPlanOutcome(fsIn, fsOut, fc);
  }

  /** The rates `ddc.py` tests with by default: 1000 to 300 samples per second
      around 150 Hz gives `L/M = 3/10`, an oscillator at `-3/20` cycles per
      sample and `(11*10) // 3 * 3 == 108` taps. */
  lemma TestDefaults()
    ensures DesignPlan(FromInt(1000), FromInt(300), FromInt(150)) == Ok(Plan(3, 10, 108, -3, 20))
  {
    assert Gcd(300, 1000) == 100;
    assert Make(300, 1000) == Fraction(3, 10);
    assert Div(Fraction(300, 1), Fraction(1000, 1)) == Make(300, 1000);
    assert Resampling(FromInt(1000), FromInt(300)) == Fraction(3, 10);
    assert Gcd(150, 1000) == 50;
    assert Make(-150, 1000) == Fraction(-3, 20);
    assert Div(Fraction(-150, 1), Fraction(1000, 1)) == Make(-150, 1000);
    assert Frequency(FromInt(1000), FromInt(150)) == Fraction(-3, 20);
    assert TapCount(3, 10) == 108;
  }

  /** A rate that is not a whole number: `DesignDdc(1000.5, 300, 150)`, where
      `Fraction(1000.5)` is exactly `2001/2`, gives `L/M = 200/667`, an
      oscillator at `-100/667` and `(11*667) // 200 * 200 == 7200` taps. */
  lemma FractionalRate()
    ensures DesignPlan(Make(2001, 2), FromInt(300), FromInt(150)) == Ok(Plan(200, 667, 7200, -100, 667))
  {
    HalfRate();
    FractionalResampling();
    FractionalFrequency();
    assert TapCount(200, 667) == 7200;
  }

  lemma HalfRate()
    ensures Make(2001, 2) == Fraction(2001, 2)
  {
    assert Gcd(2001, 2) == 1;
  }

  lemma FractionalResampling()
    ensures Resampling(Fraction(2001, 2), FromInt(300)) == Fraction(200, 667)
  {
    HalfRate();
    assert Gcd(600, 2001) == 3;
    assert Make(600, 2001) == Fraction(200, 667);
    assert Div(Fraction(300, 1), Fraction(2001, 2)) == Make(600, 2001);
  }

  lemma FractionalFrequency()
    ensures Frequency(Fraction(2001, 2), FromInt(150)) == Fraction(-100, 667)
  {
    HalfRate();
    assert Gcd(300, 2001) == 3;
    assert Make(-300, 2001) == Fraction(-100, 667);
    assert Div(Fraction(-150, 1), Fraction(2001, 2)) == Make(-300, 2001);
  }

  /** The first stage of the demodulator `demodulate.py` builds: 500 kHz to
      16 kHz, LSB at 3.699 MHz received around 3.625 MHz, so `fc` is
      `3699000 - 1500 - 3625000 == 72500`: `L/M = 4/125`, an oscillator at
      `-29/200` and `(11*125) // 4 * 4 == 1372` taps. */
  lemma DemodulateDefaults()
    ensures DesignPlan(FromInt(500000), FromInt(16000), FromInt(72500)) == Ok(Plan(4, 125, 1372, -29, 200))
  {
    DemodulateRates();
    DemodulateFrequency();
    assert TapCount(4, 125) == 1372;
  }

  lemma DemodulateRates()
    ensures Resampling(FromInt(500000), FromInt(16000)) == Fraction(4, 125)
  {
    assert Gcd(16000, 500000) == 4000;
    assert Make(16000, 500000) == Fraction(4, 125);
    assert Div(Fraction(16000, 1), Fraction(500000, 1)) == Make(16000, 500000);
  }

  lemma DemodulateFrequency()
    ensures Frequency(FromInt(500000), FromInt(72500)) == Fraction(-29, 200)
  {
    assert Gcd(72500, 500000) == 2500;
    assert Make(-72500, 500000) == Fraction(-29, 200);
    assert Div(Fraction(-72500, 1), Fraction(500000, 1)) == Make(-72500, 500000);
  }
}
