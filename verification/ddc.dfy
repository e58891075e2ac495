/** The rational digital downconverter of `tools/ddc.py`: a lookup-table local
    oscillator driven by exact integer phase indices, followed by a polyphase
    rational resampler over a double-written ("fake circular") history buffer.

    The per-sample behaviour is the pure function `Step`; `Run` folds it over a
    chunk; the method `Execute` is the loop of `RationalDdc.execute` with its
    fixed 10000-sample output array, proved equal to `Run`. */
module Ddc {
  import opened ComplexNumbers
  import opened Arith
  import opened Results

  /** Size of the output array `execute` allocates on every call. */
  const OutputCapacity: nat := 10000

  /** `np.pi` as a double. */
  const Pi: real := 3.141592653589793

  datatype RationalDdc = RationalDdc(
    taps: seq<Complex>,
    interpolation: nat,
    decimation: nat,
    /** taps per polyphase branch */
    firlen: nat,
    /** history, `2 * firlen` entries, every sample stored twice */
    firbuf: seq<Complex>,
    firI: nat,
    /** phase accumulator of the polyphase filter */
    firPhase: nat,
    loTable: seq<Complex>,
    loPhase: nat)

  /** The double-write keeps the two halves of the history buffer equal. */
  predicate Mirrored(buf: seq<Complex>, n: nat)
    requires |buf| == 2 * n
  {
    forall k :: 0 <= k < n ==> buf[k] == buf[k + n]
  }

  /** The state between two input samples. */
  predicate Valid(d: RationalDdc) {
    && d.interpolation >= 1
    && d.decimation >= 1
    && d.firlen >= 1
    && |d.taps| == d.firlen * d.interpolation
    && |d.firbuf| == 2 * d.firlen
    && d.firI < d.firlen
    && d.firPhase < d.decimation
    && |d.loTable| >= 1
    && d.loPhase < |d.loTable|
  }

  /** The invariant the double write maintains; kept apart from `Valid`, which
      is only what indexing needs. */
  predicate Consistent(d: RationalDdc)
    requires Valid(d)
  {
    Mirrored(d.firbuf, d.firlen)
  }

  /** Everything `execute` never writes. */
  predicate SameConfig(d: RationalDdc, e: RationalDdc) {
    && e.taps == d.taps
    && e.interpolation == d.interpolation
    && e.decimation == d.decimation
    && e.firlen == d.firlen
    && e.loTable == d.loTable
  }

  /** The contiguous slice `firbuf[fir_i : fir_i + firlen]` the filter reads. */
  function Window(d: RationalDdc): (w: seq<Complex>)
    requires Valid(d)
    ensures |w| == d.firlen
  {
    d.firbuf[d.firI .. d.firI + d.firlen]
  }

  /** A freshly constructed converter: empty (all-zero) history, both phases 0. */
  predicate AtStart(d: RationalDdc)
    requires Valid(d)
  {
    Window(d) == Zeros(d.firlen) && d.firPhase == 0 && d.loPhase == 0
  }

  // ---------------------------------------------------------------------------
  // Local oscillator table (`_sinewave`)

  function Ceil(x: real): int {
    -((-x).Floor)
  }

  /** numpy's integer `arange(start, stop, step)`: `ceil((stop - start) / step)`
      elements `start + k*step` (none when that count is not positive). */
  function Arange(start: int, stop: int, step: int): seq<int>
    requires step != 0
  {
    var len := Ceil((stop - start) as real / step as real);
    seq(if len > 0 then len else 0, k => start + k * step)
  }

  lemma {:induction false} ArangeLength(num: int, den: int)
    requires num != 0 && den >= 1
    ensures |Arange(0, num * den, num)| == den
    ensures forall k :: 0 <= k < den ==> Arange(0, num * den, num)[k] == k * num
  {
    var x, y := num as real, den as real;
    assert (num * den) as real == x * y;
    assert (x * y) / x == y;
  }

  /** The table entry whose phase is `idx * (2*pi/den)`. */
  function Phasor(cos: real -> real, sin: real -> real, idx: int, den: int): Complex
    requires den >= 1
  {
    var angle := idx as real * (2.0 * Pi / den as real);
    Complex(cos(angle), sin(angle))
  }

  /** `_sinewave(num, den)`: one period of a complex sinusoid of `num/den` cycles
      per sample. Phase indices are reduced with integer `% den`; `num == 0`
      would make `arange` take a zero step, which fails. */
  function SineWave(num: int, den: int, cos: real -> real, sin: real -> real): (t: seq<Complex>)
    requires num != 0 && den >= 1
    ensures |t| == den
    ensures forall k :: 0 <= k < den ==> t[k] == Phasor(cos, sin, (k * num) % den, den)
  {
    var ks := Arange(0, num * den, num);
    ArangeLength(num, den);
    seq(|ks|, k requires 0 <= k < |ks| => Phasor(cos, sin, ks[k] % den, den))
  }

  /** The oscillator table of frequency `num/den`: `den` entries, entry `k`
      at phase index `(k*num) mod den`. */
  predicate LoTableOf(table: seq<Complex>, num: int, den: int, cos: real -> real, sin: real -> real)
    requires den >= 1
  {
    |table| == den && forall k :: 0 <= k < den ==> table[k] == Phasor(cos, sin, (k * num) % den, den)
  }

  // ---------------------------------------------------------------------------
  // Construction (`RationalDdc.__init__`)

  /** A converter built from no taps at all: `firlen == 0`, so there is no
      polyphase branch and the history is empty; everything else is as
      `__init__` leaves it. */
  predicate Untapped(d: RationalDdc) {
    && d.interpolation >= 1
    && d.decimation >= 1
    && d.firlen == 0 && d.taps == [] && d.firbuf == []
    && d.firI == 0 && d.firPhase == 0
    && |d.loTable| >= 1 && d.loPhase == 0
  }

  /** `len(taps) // interpolation` is positive exactly when there is at
      least one full branch of taps. */
  lemma BranchLength(n: nat, L: nat)
    requires L >= 1
    ensures n >= L ==> n / L >= 1
    ensures n < L ==> n / L == 0
  {
    if n >= L {
      DivAtLeast(n, L, 1);
    } else {
      DivBelow(n, L, 0);
    }
  }

  /** `RationalDdc(taps, interpolation, decimation, freq_num, freq_den)`. The tap
      count must be a multiple of the interpolation factor (otherwise a branch
      has the wrong length for `np.dot`). A positive multiple gives a converter
      ready to run; no taps at all give `firlen == 0`, which `__init__`
      accepts and only `execute` trips over (see `Call`). */
  function New(taps: seq<real>, interpolation: nat, decimation: nat, freqNum: int, freqDen: int,
               cos: real -> real, sin: real -> real): (d: RationalDdc)
    requires interpolation >= 1 && decimation >= 1
    requires |taps| % interpolation == 0
    requires freqNum != 0 && freqDen >= 1
    ensures |taps| >= interpolation ==> Valid(d) && Consistent(d) && AtStart(d)
    ensures |taps| < interpolation ==> Untapped(d)
    ensures d.interpolation == interpolation && d.decimation == decimation
    ensures d.firlen * interpolation == |taps|
    ensures |d.taps| == |taps| && forall k :: 0 <= k < |taps| ==> d.taps[k] == FromReal(taps[k])
    ensures LoTableOf(d.loTable, freqNum, freqDen, cos, sin)
  {
    var firlen := |taps| / interpolation;
    assert firlen * interpolation == |taps|;
    var d := RationalDdc(
      seq(|taps|, k requires 0 <= k < |taps| => FromReal(taps[k])),
      interpolation, decimation, firlen,
      Zeros(2 * firlen), 0, 0,
      SineWave(freqNum, freqDen, cos, sin), 0);
    BranchLength(|taps|, interpolation);
    assert firlen >= 1 ==> Window(d) == Zeros(firlen);
    d
  }

  // ---------------------------------------------------------------------------
  // Polyphase resampler

  /** Index `p + j*L` of tap `j` in branch `p` lies inside the tap vector. */
  lemma {:induction false} BranchIndex(L: nat, firlen: nat, p: nat, j: nat)
    requires p < L && j < firlen
    ensures p + j * L < firlen * L
  {
    MulLe(j + 1, firlen, L);
  }

  lemma {:induction false} BranchIndices(L: nat, firlen: nat, p: nat)
    requires p < L
    ensures forall j :: 0 <= j < firlen ==> p + j * L < firlen * L
  {
    forall j | 0 <= j < firlen
      ensures p + j * L < firlen * L
    {
      BranchIndex(L, firlen, p, j);
    }
  }

  /** Polyphase branch `p`, numpy's `taps[p::L]`: since `len(taps) == firlen * L`
      and `p < L`, the slice has exactly `firlen` taps, the `j`-th at `p + j*L`. */
  function Branch(taps: seq<Complex>, L: nat, firlen: nat, p: nat): (b: seq<Complex>)
    requires p < L && |taps| == firlen * L
    ensures |b| == firlen
    ensures forall j :: 0 <= j < firlen ==> p + j * L < |taps| && b[j] == taps[p + j * L]
  {
    BranchIndices(L, firlen, p);
    seq(firlen, j requires 0 <= j < firlen => taps[p + j * L])
  }

  /** `sum_{j < n} window[j] * taps[p + j*L]`: the dot product of the window
      with polyphase branch `p`, computed by index rather than by slicing. */
  function PolyDot(window: seq<Complex>, taps: seq<Complex>, L: nat, p: nat, n: nat): Complex
    requires p < L && n <= |window| && |taps| == |window| * L
    decreases n
  {
    if n == 0 then Zero
    else
      BranchIndex(L, |window|, p, n - 1);
      Add(PolyDot(window, taps, L, p, n - 1), Mul(window[n - 1], taps[p + (n - 1) * L]))
  }

  lemma {:induction false} PolyDotPrefix(window: seq<Complex>, taps: seq<Complex>, L: nat, p: nat, n: nat)
    requires p < L && n <= |window| && |taps| == |window| * L
    ensures PolyDot(window, taps, L, p, n) == Dot(window[..n], Branch(taps, L, |window|, p)[..n])
    decreases n
  {
    if n > 0 {
      PolyDotPrefix(window, taps, L, p, n - 1);
      var b := Branch(taps, L, |window|, p);
      assert window[..n][..n - 1] == window[..n - 1];
      assert b[..n][..n - 1] == b[..n - 1];
    }
  }

  /** The indexed sum is numpy's `np.dot(window, taps[p::L])`. */
  lemma {:induction false} PolyDotIsDot(window: seq<Complex>, taps: seq<Complex>, L: nat, p: nat)
    requires p < L && |taps| == |window| * L
    ensures PolyDot(window, taps, L, p, |window|) == Dot(window, Branch(taps, L, |window|, p))
  {
    PolyDotPrefix(window, taps, L, p, |window|);
    assert window[..|window|] == window;
    assert Branch(taps, L, |window|, p)[..|window|] == Branch(taps, L, |window|, p);
  }

  /** The `while fir_phase >= decimation` loop on the phase alone: the phase it
      leaves, by repeated subtraction of `m` ... */
  function Rem(phase: nat, m: nat): (r: nat)
    requires m >= 1
    ensures r < m
    decreases phase
  {
    if phase < m then phase else Rem(phase - m, m)
  }

  /** ... and the number of subtractions, which is the number of outputs. */
  function Quot(phase: nat, m: nat): nat
    requires m >= 1
    decreases phase
  {
    if phase < m then 0 else Quot(phase - m, m) + 1
  }

  /** Repeated subtraction computes Euclidean remainder and quotient. */
  lemma {:induction false} RemQuotIsDivMod(phase: nat, m: nat)
    requires m >= 1
    ensures Rem(phase, m) == phase % m && Quot(phase, m) == phase / m
    decreases phase
  {
    if phase < m {
      DivModUnique(phase, m, 0, phase);
    } else {
      RemQuotIsDivMod(phase - m, m);
      DivAddMultiple(phase - m, 1, m);
    }
  }

  /** The `while fir_phase >= decimation` loop for one input sample: starting
      from accumulated phase `phase`, subtract `M` while it fits and emit, after
      each subtraction, the dot product of the (unchanging) window with the
      branch the remaining phase selects. Returns the final phase and outputs. */
  function Drain(window: seq<Complex>, taps: seq<Complex>, L: nat, M: nat, phase: nat): (r: (nat, seq<Complex>))
    requires L >= 1 && M >= 1 && phase < M + L && |taps| == |window| * L
    ensures r.0 < M
    decreases phase
  {
    if phase < M then
      (phase, [])
    else
      var rest := Drain(window, taps, L, M, phase - M);
      (rest.0, [PolyDot(window, taps, L, phase - M, |window|)] + rest.1)
  }

  /** The loop leaves `Rem(phase, M)` and emits `Quot(phase, M)` samples. */
  lemma {:induction false} DrainCount(window: seq<Complex>, taps: seq<Complex>, L: nat, M: nat, phase: nat)
    requires L >= 1 && M >= 1 && phase < M + L && |taps| == |window| * L
    ensures Drain(window, taps, L, M, phase).0 == Rem(phase, M)
    ensures |Drain(window, taps, L, M, phase).1| == Quot(phase, M)
    decreases phase
  {
    if phase >= M {
      DrainCount(window, taps, L, M, phase - M);
    }
  }

  /** The phase left after `k + 1` subtractions of `M` from `phase`. */
  function PhaseAfter(phase: int, M: nat, k: nat): (p: int)
    decreases k
  {
    if k == 0 then phase - M else PhaseAfter(phase - M, M, k - 1)
  }

  lemma {:induction false} PhaseAfterClosedForm(phase: int, M: nat, k: nat)
    ensures PhaseAfter(phase, M, k) == phase - (k + 1) * M
    decreases k
  {
    if k > 0 {
      PhaseAfterClosedForm(phase - M, M, k - 1);
    }
  }

  /** Closed form of the drained outputs: the `k`-th is filtered with branch
      `phase - (k+1)*M`, which is always a valid branch index. */
  lemma {:induction false} DrainOutputs(window: seq<Complex>, taps: seq<Complex>, L: nat, M: nat, phase: nat)
    requires L >= 1 && M >= 1 && phase < M + L && |taps| == |window| * L
    ensures var outs := Drain(window, taps, L, M, phase).1;
      forall k :: 0 <= k < |outs| ==>
        && 0 <= PhaseAfter(phase, M, k) < L
        && outs[k] == Dot(window, Branch(taps, L, |window|, PhaseAfter(phase, M, k)))
    decreases phase
  {
    if phase >= M {
      DrainOutputs(window, taps, L, M, phase - M);
      var rest := Drain(window, taps, L, M, phase - M).1;
      var outs := Drain(window, taps, L, M, phase).1;
      forall k | 0 <= k < |outs|
        ensures 0 <= PhaseAfter(phase, M, k) < L
        ensures outs[k] == Dot(window, Branch(taps, L, |window|, PhaseAfter(phase, M, k)))
      {
        if k > 0 {
          assert outs[k] == rest[k - 1];
        } else {
          PolyDotIsDot(window, taps, L, phase - M);
        }
      }
    }
  }

  /** Advance a cursor that stays below `n`: the source's `(i + 1) % n`, written
      without the division (`NextIsMod` shows the two agree). */
  function Next(i: nat, n: nat): (j: nat)
    requires i < n
    ensures j < n
  {
    if i + 1 == n then 0 else i + 1
  }

  lemma {:induction false} NextIsMod(i: nat, n: nat)
    requires i < n
    ensures Next(i, n) == (i + 1) % n
  {
    if i + 1 == n {
      DivModUnique(i + 1, n, 1, 0);
    } else {
      DivModUnique(i + 1, n, 0, i + 1);
    }
  }

  /** Storing a sample at `i` and `i + n` keeps the halves mirrored, and the
      window read from the advanced cursor is the old window shifted by one
      with the new sample at the end. */
  lemma {:induction false} PushWindow(buf: seq<Complex>, n: nat, i: nat, x: Complex)
    requires |buf| == 2 * n && Mirrored(buf, n) && i < n
    ensures var buf' := buf[i := x][i + n := x];
            var i' := Next(i, n);
            && Mirrored(buf', n)
            && buf'[i' .. i' + n] == buf[i .. i + n][1..] + [x]
  {
    var buf' := buf[i := x][i + n := x];
    assert buf'[Next(i, n) .. Next(i, n) + n] == buf[i .. i + n][1..] + [x];
  }

  /** The mixed sample: input times the oscillator's current table entry. */
  function Mix(d: RationalDdc, x: Complex): Complex
    requires Valid(d)
  {
    Mul(x, d.loTable[d.loPhase])
  }

  /** The first half of a loop iteration: mix the sample, advance the
      oscillator, and store the product at both copies of the cursor. */
  function Push(d: RationalDdc, x: Complex): (e: RationalDdc)
    requires Valid(d)
    ensures Valid(e) && SameConfig(d, e) && e.firPhase == d.firPhase
  {
    var mixed := Mix(d, x);
    d.(firbuf := d.firbuf[d.firI := mixed][d.firI + d.firlen := mixed],
       firI := Next(d.firI, d.firlen),
       loPhase := Next(d.loPhase, |d.loTable|))
  }

  /** One iteration of the `for` loop in `execute`. */
  function Step(d: RationalDdc, x: Complex): (r: (RationalDdc, seq<Complex>))
    requires Valid(d)
    ensures Valid(r.0) && SameConfig(d, r.0)
  {
    var e := Push(d, x);
    var drained := Drain(Window(e), d.taps, d.interpolation, d.decimation,
                         d.firPhase + d.interpolation);
    (e.(firPhase := drained.0), drained.1)
  }

  /** Each sample advances the oscillator by one table entry. */
  lemma {:induction false} StepLoPhase(d: RationalDdc, x: Complex)
    requires Valid(d)
    ensures Step(d, x).0.loPhase == Next(d.loPhase, |d.loTable|)
  {
  }

  /** Each sample keeps the history mirrored and shifts the filter window by
      one, the mixed sample entering at the newest end. */
  lemma {:induction false} StepWindow(d: RationalDdc, x: Complex)
    requires Valid(d) && Consistent(d)
    ensures Consistent(Step(d, x).0)
    ensures Window(Step(d, x).0) == Window(d)[1..] + [Mix(d, x)]
  {
    PushWindow(d.firbuf, d.firlen, d.firI, Mix(d, x));
  }

  /** Each sample adds `L` to the filter phase; every whole `M` in the sum is
      one output and the remainder is carried to the next sample. */
  lemma {:induction false} StepPhase(d: RationalDdc, x: Complex)
    requires Valid(d)
    ensures Step(d, x).0.firPhase == Rem(d.firPhase + d.interpolation, d.decimation)
    ensures |Step(d, x).1| == Quot(d.firPhase + d.interpolation, d.decimation)
  {
    DrainCount(Window(Push(d, x)), d.taps, d.interpolation, d.decimation, d.firPhase + d.interpolation);
  }

  /** `outs[k]` is `window` filtered with the polyphase branch left after
      `k + 1` subtractions of `M` from `phase`, and that branch is below `L`. */
  predicate FilteredOutputs(outs: seq<Complex>, window: seq<Complex>, taps: seq<Complex>,
                            L: nat, M: nat, phase: nat)
  {
    && |taps| == |window| * L
    && forall k :: 0 <= k < |outs| ==>
      && 0 <= PhaseAfter(phase, M, k) < L
      && outs[k] == Dot(window, Branch(taps, L, |window|, PhaseAfter(phase, M, k)))
  }

  /** The `k`-th output of a sample is the updated window filtered with the
      branch `firPhase + L - (k+1)*M`, which the source asserts is below `L`. */
  lemma {:induction false} StepOutputs(d: RationalDdc, x: Complex)
    requires Valid(d)
    ensures FilteredOutputs(Step(d, x).1, Window(Step(d, x).0), d.taps, d.interpolation, d.decimation,
                            d.firPhase + d.interpolation)
  {
    var w := Window(Push(d, x));
    var L, M := d.interpolation, d.decimation;
    assert Window(Step(d, x).0) == w;
    assert Step(d, x).1 == Drain(w, d.taps, L, M, d.firPhase + L).1;
    DrainOutputs(w, d.taps, L, M, d.firPhase + L);
  }

  /** `execute` on a whole chunk, without the output-capacity limit. */
  function Run(d: RationalDdc, xs: seq<Complex>): (r: (RationalDdc, seq<Complex>))
    requires Valid(d)
    ensures Valid(r.0) && SameConfig(d, r.0)
    decreases |xs|
  {
    if |xs| == 0 then
      (d, [])
    else
      var s := Step(d, xs[0]);
      var rest := Run(s.0, xs[1..]);
      (rest.0, s.1 + rest.1)
  }

  /** `Run` on a non-empty chunk: one `Step`, then the rest. */
  lemma {:induction false} RunCons(d: RationalDdc, xs: seq<Complex>)
    requires Valid(d) && |xs| > 0
    ensures Run(d, xs).0 == Run(Step(d, xs[0]).0, xs[1..]).0
    ensures Run(d, xs).1 == Step(d, xs[0]).1 + Run(Step(d, xs[0]).0, xs[1..]).1
  {
  }

  // The phase lemmas below are proved in two layers. `Run` is first related
  // to folds over the phases alone (`LoAfter`, `FirAfter`, `CountAfter`); their
  // closed forms are then integer arithmetic that never mentions `Run`. Facts
  // about `Run` are stated with `Rem` and `Quot`, which `RemQuotIsDivMod`
  // equates with `%` and `/`.

  /** The oscillator phase after `n` samples, one `Next` per sample. */
  function LoAfter(lp: nat, n: nat, t: nat): (r: nat)
    requires lp < t
    ensures r < t
    decreases n
  {
    if n == 0 then lp else LoAfter(Next(lp, t), n - 1, t)
  }

  lemma {:induction false} LoAfterIsRem(lp: nat, n: nat, t: nat)
    requires lp < t
    ensures LoAfter(lp, n, t) == Rem(lp + n, t)
    decreases n
  {
    if n > 0 {
      LoAfterIsRem(Next(lp, t), n - 1, t);
      if lp + 1 == t {
        assert Rem(lp + n, t) == Rem(n - 1, t);
      }
    }
  }

  /** `LoAfterIsRem` for a value known only to equal `LoAfter`. */
  lemma {:induction false} LoAfterValue(lp: nat, n: nat, t: nat, a: int)
    requires lp < t && a == LoAfter(lp, n, t)
    ensures a == Rem(lp + n, t)
  {
    LoAfterIsRem(lp, n, t);
  }

  lemma {:induction false} LoAfterJoin(lp: nat, n: nat, t: nat, e: nat, r: int)
    requires lp < t && n >= 1 && e == Next(lp, t) && r == LoAfter(e, n - 1, t)
    ensures r == LoAfter(lp, n, t)
  {
  }

  lemma {:induction false} RunLoPhaseCons(d: RationalDdc, xs: seq<Complex>)
    requires Valid(d) && |xs| > 0
    requires var e := Step(d, xs[0]).0;
      Run(e, xs[1..]).0.loPhase == LoAfter(e.loPhase, |xs| - 1, |e.loTable|)
    ensures Run(d, xs).0.loPhase == LoAfter(d.loPhase, |xs|, |d.loTable|)
  {
    var e := Step(d, xs[0]).0;
    assert Run(d, xs).0 == Run(e, xs[1..]).0 by {
      RunCons(d, xs);
    }
    assert e.loPhase == Next(d.loPhase, |d.loTable|) by {
      StepLoPhase(d, xs[0]);
    }
    LoAfterJoin(d.loPhase, |xs|, |d.loTable|, e.loPhase, Run(e, xs[1..]).0.loPhase);
  }

  lemma {:induction false} RunLoAfter(d: RationalDdc, xs: seq<Complex>)
    requires Valid(d)
    ensures Run(d, xs).0.loPhase == LoAfter(d.loPhase, |xs|, |d.loTable|)
    decreases |xs|
  {
    if |xs| > 0 {
      RunLoAfter(Step(d, xs[0]).0, xs[1..]);
      RunLoPhaseCons(d, xs);
    }
  }

  /** The oscillator advances one table entry per input sample, wrapping at
      the table length: after `n` samples its phase is `(loPhase + n) mod den`. */
  lemma {:induction false} RunLoPhase(d: RationalDdc, xs: seq<Complex>)
    requires Valid(d)
    ensures Run(d, xs).0.loPhase == Rem(d.loPhase + |xs|, |d.loTable|)
  {
    assert Run(d, xs).0.loPhase == LoAfter(d.loPhase, |xs|, |d.loTable|) by {
      RunLoAfter(d, xs);
    }
    LoAfterValue(d.loPhase, |xs|, |d.loTable|, Run(d, xs).0.loPhase);
  }

  /** Filter phase after `n` samples from phase `phi`. */
  function FirAfter(phi: nat, n: nat, L: nat, M: nat): nat
    requires M >= 1
    decreases n
  {
    if n == 0 then phi else FirAfter(Rem(phi + L, M), n - 1, L, M)
  }

  /** Outputs emitted by `n` samples from phase `phi`. */
  function CountAfter(phi: nat, n: nat, L: nat, M: nat): nat
    requires M >= 1
    decreases n
  {
    if n == 0 then 0 else Quot(phi + L, M) + CountAfter(Rem(phi + L, M), n - 1, L, M)
  }

  /** Carrying the whole multiples `sc` of `M` out of the first sample's sum
      `phi + L` shifts the quotient of the total by `sc` and keeps its remainder. */
  lemma {:induction false} CarryWhole(phi: nat, n: nat, L: nat, M: nat, sp: int, sc: int)
    requires M >= 1 && n >= 1 && sp == (phi + L) % M && sc == (phi + L) / M
    ensures (phi + n * L) % M == (sp + (n - 1) * L) % M
    ensures (phi + n * L) / M == (sp + (n - 1) * L) / M + sc
  {
    assert phi + L == sc * M + sp;
    assert n * L == (n - 1) * L + L;
    DivAddMultiple(sp + (n - 1) * L, sc, M);
  }

  lemma {:induction false} AfterIsDivMod(phi: nat, n: nat, L: nat, M: nat)
    requires M >= 1 && phi < M
    ensures FirAfter(phi, n, L, M) == (phi + n * L) % M
    ensures CountAfter(phi, n, L, M) == (phi + n * L) / M
    decreases n
  {
    if n == 0 {
      DivModUnique(phi, M, 0, phi);
    } else {
      var sp, sc := Rem(phi + L, M), Quot(phi + L, M);
      RemQuotIsDivMod(phi + L, M);
      AfterIsDivMod(sp, n - 1, L, M);
      CarryWhole(phi, n, L, M, sp, sc);
      var f, c := FirAfter(sp, n - 1, L, M), CountAfter(sp, n - 1, L, M);
      FirAfterJoin(phi, n, L, M, sp, f);
      CountAfterJoin(phi, n, L, M, sp, sc, c, sc + c);
    }
  }

  /** `AfterIsDivMod` for values known only to equal `FirAfter` and `CountAfter`,
      stated with `Rem` and `Quot`. */
  lemma {:induction false} AfterValues(phi: nat, n: nat, L: nat, M: nat, a: int, c: int)
    requires M >= 1 && phi < M && a == FirAfter(phi, n, L, M) && c == CountAfter(phi, n, L, M)
    ensures a == Rem(phi + n * L, M) && c == Quot(phi + n * L, M)
  {
    AfterIsDivMod(phi, n, L, M);
    RemQuotIsDivMod(phi + n * L, M);
  }

  lemma {:induction false} FirAfterJoin(phi: nat, n: nat, L: nat, M: nat, e: nat, r: int)
    requires M >= 1 && n >= 1 && e == Rem(phi + L, M) && r == FirAfter(e, n - 1, L, M)
    ensures r == FirAfter(phi, n, L, M)
  {
  }

  lemma {:induction false} CountAfterJoin(phi: nat, n: nat, L: nat, M: nat, e: nat, c: int, r: int, total: int)
    requires M >= 1 && n >= 1 && e == Rem(phi + L, M)
    requires c == Quot(phi + L, M) && r == CountAfter(e, n - 1, L, M) && total == c + r
    ensures total == CountAfter(phi, n, L, M)
  {
  }

  /** The inductive step of `RunFirAfter` for the phase. */
  lemma {:induction false} RunFirPhaseCons(d: RationalDdc, xs: seq<Complex>)
    requires Valid(d) && |xs| > 0
    requires var e := Step(d, xs[0]).0;
      Run(e, xs[1..]).0.firPhase == FirAfter(e.firPhase, |xs| - 1, e.interpolation, e.decimation)
    ensures Run(d, xs).0.firPhase == FirAfter(d.firPhase, |xs|, d.interpolation, d.decimation)
  {
    var e := Step(d, xs[0]).0;
    RunCons(d, xs);
    StepPhase(d, xs[0]);
    FirAfterJoin(d.firPhase, |xs|, d.interpolation, d.decimation, e.firPhase, Run(e, xs[1..]).0.firPhase);
  }

  /** The inductive step of `RunFirAfter` for the output count. */
  lemma {:induction false} RunFirCountCons(d: RationalDdc, xs: seq<Complex>)
    requires Valid(d) && |xs| > 0
    requires var e := Step(d, xs[0]).0;
      |Run(e, xs[1..]).1| == CountAfter(e.firPhase, |xs| - 1, e.interpolation, e.decimation)
    ensures |Run(d, xs).1| == CountAfter(d.firPhase, |xs|, d.interpolation, d.decimation)
  {
    var s := Step(d, xs[0]);
    RunCons(d, xs);
    StepPhase(d, xs[0]);
    CountAfterJoin(d.firPhase, |xs|, d.interpolation, d.decimation, s.0.firPhase,
                   |s.1|, |Run(s.0, xs[1..]).1|, |Run(d, xs).1|);
  }

  lemma {:induction false} RunFirAfter(d: RationalDdc, xs: seq<Complex>)
    requires Valid(d)
    ensures Run(d, xs).0.firPhase == FirAfter(d.firPhase, |xs|, d.interpolation, d.decimation)
    ensures |Run(d, xs).1| == CountAfter(d.firPhase, |xs|, d.interpolation, d.decimation)
    decreases |xs|
  {
    if |xs| > 0 {
      RunFirAfter(Step(d, xs[0]).0, xs[1..]);
      RunFirPhaseCons(d, xs);
      RunFirCountCons(d, xs);
    }
  }

  /** The filter phase accumulates `L` per input sample and loses `M` per
      output: after `n` samples it is `(firPhase + n*L) mod M`, and
      `(firPhase + n*L) div M` samples have been emitted. */
  lemma {:induction false} RunFirPhase(d: RationalDdc, xs: seq<Complex>)
    requires Valid(d)
    ensures Run(d, xs).0.firPhase == Rem(d.firPhase + |xs| * d.interpolation, d.decimation)
    ensures |Run(d, xs).1| == Quot(d.firPhase + |xs| * d.interpolation, d.decimation)
  {
    var L, M := d.interpolation, d.decimation;
    assert Run(d, xs).0.firPhase == FirAfter(d.firPhase, |xs|, L, M)
        && |Run(d, xs).1| == CountAfter(d.firPhase, |xs|, L, M) by {
      RunFirAfter(d, xs);
    }
    AfterValues(d.firPhase, |xs|, L, M, Run(d, xs).0.firPhase, |Run(d, xs).1|);
  }

  /** `Run` on `a + b` with `a` non-empty: one `Step` on `a[0]`, then the
      rest of `a` followed by `b`. */
  lemma {:induction false} RunConsAppend(d: RationalDdc, a: seq<Complex>, b: seq<Complex>)
    requires Valid(d) && |a| > 0
    ensures Run(d, a + b).0 == Run(Step(d, a[0]).0, a[1..] + b).0
    ensures Run(d, a + b).1 == Step(d, a[0]).1 + Run(Step(d, a[0]).0, a[1..] + b).1
  {
    var ab := a + b;
    assert ab[0] == a[0];
    assert ab[1..] == a[1..] + b;
    RunCons(d, ab);
  }

  lemma {:induction false} ConcatAssoc(x: seq<Complex>, y: seq<Complex>, z: seq<Complex>)
    ensures x + (y + z) == (x + y) + z
  {
  }

  /** The inductive step of `RunAppend`, given its hypothesis for the tail. */
  lemma {:induction false} RunAppendCons(d: RationalDdc, a: seq<Complex>, b: seq<Complex>)
    requires Valid(d) && |a| > 0
    requires var e := Step(d, a[0]).0;
      && Run(e, a[1..] + b).0 == Run(Run(e, a[1..]).0, b).0
      && Run(e, a[1..] + b).1 == Run(e, a[1..]).1 + Run(Run(e, a[1..]).0, b).1
    ensures Run(d, a + b).0 == Run(Run(d, a).0, b).0
    ensures Run(d, a + b).1 == Run(d, a).1 + Run(Run(d, a).0, b).1
  {
    var s := Step(d, a[0]);
    RunConsAppend(d, a, b);
    RunCons(d, a);
    ConcatAssoc(s.1, Run(s.0, a[1..]).1, Run(Run(s.0, a[1..]).0, b).1);
  }

  /** Chunking invariance: running `a` then `b` is running `a + b`, with the
      same outputs (concatenated) and the same final state. */
  lemma {:induction false} RunAppend(d: RationalDdc, a: seq<Complex>, b: seq<Complex>)
    requires Valid(d)
    ensures Run(d, a + b).0 == Run(Run(d, a).0, b).0
    ensures Run(d, a + b).1 == Run(d, a).1 + Run(Run(d, a).0, b).1
    decreases |a|
  {
    if |a| == 0 {
      assert a + b == b;
      assert Run(d, a).1 + Run(Run(d, a).0, b).1 == Run(d, b).1;
    } else {
      RunAppend(Step(d, a[0]).0, a[1..], b);
      RunAppendCons(d, a, b);
    }
  }

  /** The number of outputs one call would produce from state `d`. */
  function OutputCount(d: RationalDdc, n: nat): nat
    requires Valid(d)
  {
    Quot(d.firPhase + n * d.interpolation, d.decimation)
  }

  /** One round of the inner `while`: the first output of `Drain` is the
      window filtered with branch `phase - M`, and the rest is `Drain` from
      `phase - M`. */
  lemma {:induction false} DrainFirst(window: seq<Complex>, taps: seq<Complex>, L: nat, M: nat, phase: nat)
    requires L >= 1 && M >= 1 && M <= phase < M + L && |taps| == |window| * L
    ensures Drain(window, taps, L, M, phase).1
         == [Dot(window, Branch(taps, L, |window|, phase - M))] + Drain(window, taps, L, M, phase - M).1
    ensures Drain(window, taps, L, M, phase).0 == Drain(window, taps, L, M, phase - M).0
  {
    PolyDotIsDot(window, taps, L, phase - M);
  }

  /** The inner `while fir_phase >= decimation` loop: writes the outputs of
      `Drain` at `output[outn..]` and returns the remaining phase. The window
      `firbuf[fir_i : fir_i + firlen]` does not change inside the loop. */
  method DrainInto(window: seq<Complex>, taps: seq<Complex>, L: nat, M: nat, phase: nat,
                   output: array<Complex>, outn: nat)
      returns (phase': nat, outn': nat)
    requires L >= 1 && M >= 1 && phase < M + L && |taps| == |window| * L
    requires outn + |Drain(window, taps, L, M, phase).1| <= output.Length
    modifies output
    ensures phase' == Drain(window, taps, L, M, phase).0
    ensures outn' == outn + |Drain(window, taps, L, M, phase).1|
    ensures output[..outn'] == old(output[..outn]) + Drain(window, taps, L, M, phase).1
  {
    ghost var all := Drain(window, taps, L, M, phase);
    phase', outn' := phase, outn;
    ghost var rest := all;
    while phase' >= M
      invariant phase' < M + L && rest == Drain(window, taps, L, M, phase')
      invariant outn <= outn' && outn' + |rest.1| == outn + |all.1|
      invariant output[..outn] == old(output[..outn])
      invariant output[outn .. outn'] + rest.1 == all.1
      invariant rest.0 == all.0
      decreases phase'
    {
      DrainFirst(window, taps, L, M, phase');
      phase' := phase' - M;
      rest := Drain(window, taps, L, M, phase');
      ghost var done := output[outn .. outn'];
      output[outn'] := Dot(window, Branch(taps, L, |window|, phase'));
      assert output[outn .. outn' + 1] == done + [output[outn']];
      outn' := outn' + 1;
    }
    assert output[..outn'] == output[..outn] + output[outn .. outn'];
  }

  /** One pass of the `for` loop body of `execute`: mix, store twice, then the
      inner `while` that writes this sample's outputs at `output[outn..]`. */
  method ExecuteSample(cur: RationalDdc, x: Complex, output: array<Complex>, outn: nat)
      returns (next: RationalDdc, outn': nat)
    requires Valid(cur)
    requires outn + |Step(cur, x).1| <= output.Length
    modifies output
    ensures next == Step(cur, x).0
    ensures outn' == outn + |Step(cur, x).1|
    ensures output[..outn'] == old(output[..outn]) + Step(cur, x).1
  {
    var L, M, n := cur.interpolation, cur.decimation, cur.firlen;
    // Mix input with local oscillator
    var mixed := Mul(x, cur.loTable[cur.loPhase]);
    // `(lo_phase + 1) % len(lo)` and `(fir_i + 1) % firlen`, see `NextIsMod`
    var loPhase := Next(cur.loPhase, |cur.loTable|);
    // Store to buffer twice
    var firbuf := cur.firbuf[cur.firI := mixed][cur.firI + n := mixed];
    var firI := Next(cur.firI, n);
    var window := firbuf[firI .. firI + n];
    assert window == Window(Push(cur, x));
    var firPhase;
    firPhase, outn' := DrainInto(window, cur.taps, L, M, cur.firPhase + L, output, outn);
    next := cur.(firbuf := firbuf, firI := firI, firPhase := firPhase, loPhase := loPhase);
  }

  /** The loop invariant of `execute` carried over one sample: what is already
      written plus what `Run` still owes from `xs[i..]` is the whole output. */
  lemma {:induction false} RunSuffix(cur: RationalDdc, xs: seq<Complex>, i: nat, done: seq<Complex>,
                                     total: (RationalDdc, seq<Complex>))
    requires Valid(cur) && i < |xs|
    requires Run(cur, xs[i..]).0 == total.0 && done + Run(cur, xs[i..]).1 == total.1
    ensures var s := Step(cur, xs[i]);
      && Run(s.0, xs[i + 1..]).0 == total.0
      && (done + s.1) + Run(s.0, xs[i + 1..]).1 == total.1
      && |done| + |s.1| <= |total.1|
  {
    assert xs[i..][0] == xs[i] && xs[i..][1..] == xs[i + 1..];
    RunCons(cur, xs[i..]);
    var s := Step(cur, xs[i]);
    ConcatAssoc(done, s.1, Run(s.0, xs[i + 1..]).1);
  }

  /** `RationalDdc.execute`: the source loop, writing into a fixed array of
      `OutputCapacity` samples. The write `output[outn]` comes before the
      `assert outn <= len(output)`, so a call that would produce more outputs
      than the array holds is outside the contract. */
  method Execute(d: RationalDdc, input: seq<Complex>) returns (d': RationalDdc, out: seq<Complex>)
    requires Valid(d)
    requires OutputCount(d, |input|) <= OutputCapacity
    ensures (d', out) == Run(d, input)
    ensures |out| == OutputCount(d, |input|)
  {
    var output := new Complex[OutputCapacity](_ => Zero);
    var outn: nat := 0;
    var cur := d;
    var i := 0;
    ghost var total := Run(d, input);
    assert |total.1| == OutputCount(d, |input|) by {
      RunFirPhase(d, input);
    }
    while i < |input|
      invariant 0 <= i <= |input|
      invariant Valid(cur) && outn <= output.Length
      invariant Run(cur, input[i..]).0 == total.0
      invariant output[..outn] + Run(cur, input[i..]).1 == total.1
    {
      RunSuffix(cur, input, i, output[..outn], total);
      cur, outn := ExecuteSample(cur, input[i], output, outn);
      i := i + 1;
    }
    assert input[i..] == [];
    assert Run(cur, input[i..]) == (cur, []);
    assert output[..outn] + [] == output[..outn];
    d', out := cur, output[..outn];
  }

  /** Why a call of `execute` raises. */
  datatype ExecuteError =
    /** `(fir_i + 1) % firlen` with `firlen == 0`, right after the first
        sample has been stored into the empty history */
    | ModuloByZero
    /** more than `OutputCapacity` outputs: the extra write lands outside the
        array (numba does not check bounds), then `assert outn <= len(output)`
        raises `AssertionError` */
    | OutputOverflow

  /** `execute(input)` on any converter `__init__` builds, as an outcome: the
      outputs and the next state, or the reason the call raises. A
      converter without taps returns nothing for an empty input and raises on
      its first sample; a tapped one raises only when its outputs do not fit
      the array. */
  function Call(d: RationalDdc, input: seq<Complex>): (r: Result<(RationalDdc, seq<Complex>), ExecuteError>)
    requires Valid(d) || Untapped(d)
    ensures r == Err(ModuloByZero) <==> Untapped(d) && input != []
    ensures r == Err(OutputOverflow) <==> Valid(d) && OutputCount(d, |input|) > OutputCapacity
    ensures r.Ok? && Untapped(d) ==> r.value == (d, [])
    ensures r.Ok? && Valid(d) ==>
      && r.value == Run(d, input)
      && |r.value.1| == OutputCount(d, |input|) <= OutputCapacity
  {
    if Untapped(d) then
      if input == [] then Ok((d, [])) else Err(ModuloByZero)
    else if OutputCount(d, |input|) > OutputCapacity then Err(OutputOverflow)
    else
      RunFirPhase(d, input);
      Ok(Run(d, input))
  }
}
