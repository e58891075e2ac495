/** What the state of a `RationalDdc` means: the filter window is the recent
    history of mixed samples, the oscillator phase never drifts however the
    input is chunked, and a converter with one unit tap and no resampling is a
    pure mixer (the `test_lo` configuration and the demodulator's second
    mixer). */
module DdcHistory {
  import opened ComplexNumbers
  import opened Arith
  import opened Ddc

  /** The mixed samples `input[k] * lo_table[(lo_phase + k) mod len(lo_table)]`
      a call on `xs` stores into the history buffer, in order. */
  function MixedStream(d: RationalDdc, xs: seq<Complex>): (m: seq<Complex>)
    requires Valid(d)
    ensures |m| == |xs|
  {
    seq(|xs|, k requires 0 <= k < |xs| => Mul(xs[k], d.loTable[Rem(d.loPhase + k, |d.loTable|)]))
  }

  lemma {:induction false} RemNext(lp: nat, t: nat, k: nat)
    requires lp < t
    ensures Rem(Next(lp, t) + k, t) == Rem(lp + 1 + k, t)
  {
    if lp + 1 == t {
      assert Rem(t + k, t) == Rem(k, t);
    }
  }

  /** The first mixed sample is `Mix` of the first input; the rest are the
      mixed stream of the state after it. */
  lemma {:induction false} MixedStreamCons(d: RationalDdc, xs: seq<Complex>)
    requires Valid(d) && |xs| > 0
    ensures MixedStream(d, xs)[0] == Mix(d, xs[0])
    ensures MixedStream(Step(d, xs[0]).0, xs[1..]) == MixedStream(d, xs)[1..]
  {
    var e := Step(d, xs[0]).0;
    var t := |d.loTable|;
    StepLoPhase(d, xs[0]);
    assert Rem(d.loPhase + 0, t) == d.loPhase;
    forall k | 0 <= k < |xs| - 1
      ensures MixedStream(e, xs[1..])[k] == MixedStream(d, xs)[k + 1]
    {
      RemNext(d.loPhase, t, k);
    }
  }

  /** Remainders compose: reducing a partial sum first changes nothing. */
  lemma {:induction false} RemAddRem(a: nat, j: nat, t: nat)
    requires t >= 1
    ensures Rem(Rem(a, t) + j, t) == Rem(a + j, t)
  {
    RemQuotIsDivMod(a, t);
    RemQuotIsDivMod(Rem(a, t) + j, t);
    RemQuotIsDivMod(a + j, t);
    ModAddMod(a, j, t);
  }

  /** Chunking does not move the oscillator: the samples of a second call are
      mixed exactly as they would be in one call on the concatenation. */
  lemma {:induction false} MixedStreamAppend(d: RationalDdc, a: seq<Complex>, b: seq<Complex>)
    requires Valid(d)
    ensures MixedStream(Run(d, a).0, b) == MixedStream(d, a + b)[|a|..]
  {
    var e := Run(d, a).0;
    RunLoPhase(d, a);
    forall j | 0 <= j < |b|
      ensures MixedStream(e, b)[j] == MixedStream(d, a + b)[|a| + j]
    {
      MixedAt(d, e, b, a + b, |a|, j);
    }
  }

  /** Sample `j` of `b`, mixed from a state `off` samples further on, is
      sample `off + j` of a stream `ab` that holds `b` at offset `off`. */
  lemma MixedAt(d: RationalDdc, e: RationalDdc, b: seq<Complex>, ab: seq<Complex>, off: nat, j: nat)
    requires Valid(d) && Valid(e) && e.loTable == d.loTable
    requires e.loPhase == Rem(d.loPhase + off, |d.loTable|)
    requires j < |b| && off + j < |ab| && ab[off + j] == b[j]
    ensures MixedStream(e, b)[j] == MixedStream(d, ab)[off + j]
  {
    RemAddRem(d.loPhase + off, j, |d.loTable|);
  }

  lemma {:induction false} ShiftConcat(w: seq<Complex>, m: seq<Complex>)
    requires |w| >= 1 && |m| >= 1
    ensures ((w[1..] + [m[0]]) + m[1..])[|m| - 1..] == (w + m)[|m|..]
  {
    assert (w[1..] + [m[0]]) + m[1..] == (w + m)[1..];
  }

  /** The history buffer stays mirrored, and the window the filter reads is
      the last `firlen` entries of the old window followed by every sample
      mixed since: the newest `firlen` mixed samples, oldest first. */
  lemma {:induction false} RunWindow(d: RationalDdc, xs: seq<Complex>)
    requires Valid(d) && Consistent(d)
    ensures Consistent(Run(d, xs).0)
    ensures Window(Run(d, xs).0) == (Window(d) + MixedStream(d, xs))[|xs|..]
    decreases |xs|
  {
    if |xs| == 0 {
      assert Window(d) + MixedStream(d, xs) == Window(d);
    } else {
      var e := Step(d, xs[0]).0;
      StepWindow(d, xs[0]);
      RunWindow(e, xs[1..]);
      RunCons(d, xs);
      MixedStreamCons(d, xs);
      ShiftConcat(Window(d), MixedStream(d, xs));
    }
  }

  /** From a freshly constructed converter the window holds zeros for the
      samples before the stream started. */
  lemma {:induction false} FreshWindow(d: RationalDdc, xs: seq<Complex>)
    requires Valid(d) && Consistent(d) && AtStart(d)
    ensures Window(Run(d, xs).0) == (Zeros(d.firlen) + MixedStream(d, xs))[|xs|..]
  {
    RunWindow(d, xs);
  }

  /** The state after `xs[..i + 1]` is one `Step` on `xs[i]` after `xs[..i]`. */
  lemma {:induction false} RunSnoc(d: RationalDdc, xs: seq<Complex>, i: nat)
    requires Valid(d) && i < |xs|
    ensures Run(d, xs[..i + 1]).0 == Step(Run(d, xs[..i]).0, xs[i]).0
  {
    var pre := Run(d, xs[..i]).0;
    assert xs[..i + 1] == xs[..i] + [xs[i]];
    RunAppend(d, xs[..i], [xs[i]]);
    RunCons(pre, [xs[i]]);
    assert [xs[i]][1..] == [];
  }

  /** The `firlen` newest mixed samples up to and including sample `i`,
      with the window's zeros (or older samples) in front when fewer have
      arrived. */
  function Newest(d: RationalDdc, xs: seq<Complex>, i: nat): (w: seq<Complex>)
    requires Valid(d) && i < |xs|
    ensures |w| == d.firlen
  {
    (Window(d) + MixedStream(d, xs[..i + 1]))[i + 1..]
  }

  /** The window sample `i` is filtered with: the newest `firlen` mixed samples
      up to and including sample `i`. */
  lemma {:induction false} SampleWindow(d: RationalDdc, xs: seq<Complex>, i: nat)
    requires Valid(d) && Consistent(d) && i < |xs|
    ensures Window(Step(Run(d, xs[..i]).0, xs[i]).0) == Newest(d, xs, i)
  {
    RunSnoc(d, xs, i);
    RunWindow(d, xs[..i + 1]);
  }

  /** Every output of input sample `i` is the dot product of the newest
      `firlen` mixed samples (up to and including sample `i`) with the
      polyphase branch the accumulated phase selects; the phase before the
      sample is `(firPhase + i*L) mod M` by `RunFirPhase`. */
  lemma {:induction false} SampleOutputs(d: RationalDdc, xs: seq<Complex>, i: nat)
    requires Valid(d) && Consistent(d) && i < |xs|
    ensures var pre := Run(d, xs[..i]).0;
      FilteredOutputs(Step(pre, xs[i]).1, Newest(d, xs, i),
                      d.taps, d.interpolation, d.decimation, pre.firPhase + d.interpolation)
  {
    var pre := Run(d, xs[..i]).0;
    assert SameConfig(d, pre);
    SampleWindow(d, xs, i);
    StepOutputs(pre, xs[i]);
  }

  /** From a fresh state, `n` inputs emit `(n*L) div M` outputs and leave the
      filter phase at `(n*L) mod M`. */
  lemma {:induction false} FreshCounts(d: RationalDdc, xs: seq<Complex>)
    requires Valid(d) && AtStart(d)
    ensures |Run(d, xs).1| == (|xs| * d.interpolation) / d.decimation
    ensures Run(d, xs).0.firPhase == (|xs| * d.interpolation) % d.decimation
  {
    RunFirPhase(d, xs);
    RemQuotIsDivMod(|xs| * d.interpolation, d.decimation);
  }

  /** A converter whose oscillator is at phase 0 of the table for `num/den`
      (as `New` builds it) mixes sample `k` of its stream with the table entry
      of phase index `(k*num) mod den`, computed in integers. */
  lemma {:induction false} FreshMixPhase(d: RationalDdc, num: int, den: int,
                                         cos: real -> real, sin: real -> real, xs: seq<Complex>, k: nat)
    requires Valid(d) && den >= 1 && d.loPhase == 0 && LoTableOf(d.loTable, num, den, cos, sin)
    requires k < |xs|
    ensures MixedStream(d, xs)[k] == Mul(xs[k], Phasor(cos, sin, (k * num) % den, den))
  {
    RemQuotIsDivMod(k, den);
    ModMulMod(k, num, den);
  }

  /** No drift: however the stream is split into calls, sample `|a| + j`
      overall is mixed with phase index `((|a| + j)*num) mod den`. */
  lemma {:induction false} NoDrift(d: RationalDdc, num: int, den: int, cos: real -> real, sin: real -> real,
                                   a: seq<Complex>, b: seq<Complex>, j: nat)
    requires Valid(d) && den >= 1 && d.loPhase == 0 && LoTableOf(d.loTable, num, den, cos, sin)
    requires j < |b|
    ensures MixedStream(Run(d, a).0, b)[j] == Mul(b[j], Phasor(cos, sin, ((|a| + j) * num) % den, den))
  {
    MixedStreamAppend(d, a, b);
    AppendedMixPhase(d, num, den, cos, sin, a, b, j);
  }

  /** Sample `j` of `b`, fed after `a` in one call, sits at overall index
      `|a| + j`. */
  lemma AppendedMixPhase(d: RationalDdc, num: int, den: int, cos: real -> real, sin: real -> real,
                         a: seq<Complex>, b: seq<Complex>, j: nat)
    requires Valid(d) && den >= 1 && d.loPhase == 0 && LoTableOf(d.loTable, num, den, cos, sin)
    requires j < |b|
    ensures MixedStream(d, a + b)[|a| + j] == Mul(b[j], Phasor(cos, sin, ((|a| + j) * num) % den, den))
  {
    FreshMixPhase(d, num, den, cos, sin, a + b, |a| + j);
    assert (a + b)[|a| + j] == b[j];
  }

  /** A converter with the single tap 1 and `L == M == 1`. */
  predicate IsMixer(d: RationalDdc) {
    Valid(d) && d.taps == [One] && d.interpolation == 1 && d.decimation == 1
  }

  lemma {:induction false} MixerStep(d: RationalDdc, x: Complex)
    requires IsMixer(d)
    ensures IsMixer(Step(d, x).0)
    ensures Step(d, x).1 == [Mix(d, x)]
  {
    var e := Push(d, x);
    assert d.firlen == 1 && d.firI == 0 && d.firPhase == 0;
    assert Window(e) == [Mix(d, x)];
    assert PolyDot(Window(e), d.taps, 1, 0, 0) == Zero;
    assert PolyDot(Window(e), d.taps, 1, 0, 1) == Mix(d, x);
  }

  /** The unit filter passes every mixed sample straight through: one output
      per input, the input times the oscillator. */
  lemma {:induction false} UnitFilterIsMixer(d: RationalDdc, xs: seq<Complex>)
    requires IsMixer(d)
    ensures Run(d, xs).1 == MixedStream(d, xs)
    decreases |xs|
  {
    if |xs| > 0 {
      var e := Step(d, xs[0]).0;
      MixerStep(d, xs[0]);
      UnitFilterIsMixer(e, xs[1..]);
      RunCons(d, xs);
      MixedStreamCons(d, xs);
      assert MixedStream(d, xs) == [MixedStream(d, xs)[0]] + MixedStream(d, xs)[1..];
    }
  }

  /** `test_lo`: with one unit tap, no resampling and an oscillator at 3/7
      cycles per sample, ten unit inputs give the first ten oscillator values,
      the phase index of sample `k` being `3k mod 7`. */
  lemma TestLo(cos: real -> real, sin: real -> real)
    ensures var d := New([1.0], 1, 1, 3, 7, cos, sin);
      Run(d, seq(10, _ => One)).1 == seq(10, k => Phasor(cos, sin, (k * 3) % 7, 7))
  {
    var d := New([1.0], 1, 1, 3, 7, cos, sin);
    var xs: seq<Complex> := seq(10, _ => One);
    assert d.taps == [One];
    UnitFilterIsMixer(d, xs);
    forall k | 0 <= k < 10
      ensures Run(d, xs).1[k] == Phasor(cos, sin, (k * 3) % 7, 7)
    {
      FreshMixPhase(d, 3, 7, cos, sin, xs, k);
    }
  }
}
