/** The spectrum averaging of `spektri/src/dsp/spectrum.rs`: each FFT result
    is convolved with `(-0.5, 1, -0.5)` in the frequency domain (a Hann
    window applied after the FFT), its power is added into an accumulator,
    and every `averages` results the accumulator is written out on a
    quantised dB scale and reset. The counting, record and reset logic is
    shared with the simpler accumulator of `spektri/src/dsp.rs`. */
module Spectrum {
  import opened Arith
  import opened Bytes
  import opened ComplexNumbers
  import opened FftUtil

  datatype SpectrumFormat = U8 | U16

  /** Bytes per bin in an output record. */
  function BytesPerBin(f: SpectrumFormat): nat {
    match f
    case U16 => 2
    case U8 => 1
  }

  // ---------------------------------------------------------------------------
  // Quantisation and records

  /** `x.max(lo).min(hi)`. */
  function Clamp(x: real, lo: real, hi: real): (y: real)
    requires lo <= hi
    ensures lo <= y <= hi
    ensures lo <= x <= hi ==> y == x
  {
    if x < lo then lo else if x > hi then hi else x
  }

  /** `(db * 20 + 4000).max(0).min(4095) as u16`: 0.05 dB per step, full
      scale at 4000, 12 bits; the cast truncates the non-negative value. */
  function QuantU16(db: real): (o: nat)
    ensures o <= 4095
  {
    Clamp(db * 20.0 + 4000.0, 0.0, 4095.0).Floor
  }

  /** `(db * 2 + 250).max(0).min(255) as u8`: 0.5 dB per step, full scale
      at 250. */
  function QuantU8(db: real): (o: nat)
    ensures o <= 255
  {
    Clamp(db * 2.0 + 250.0, 0.0, 255.0).Floor
  }

  /** One past the largest code a bin's bytes hold. */
  function CodeLimit(f: SpectrumFormat): nat {
    match f
    case U16 => 0x1_0000
    case U8 => 256
  }

  function Quant(f: SpectrumFormat, db: real): (o: nat)
    ensures o < CodeLimit(f)
  {
    match f
    case U16 => QuantU16(db)
    case U8 => QuantU8(db)
  }

  /** Inside the scale the codes are the plain truncated steps, and a louder
      bin never gets a lower code. */
  lemma QuantScale(db: real, db': real)
    ensures 0.0 <= db * 20.0 + 4000.0 <= 4095.0 ==> QuantU16(db) == (db * 20.0 + 4000.0).Floor
    ensures 0.0 <= db * 2.0 + 250.0 <= 255.0 ==> QuantU8(db) == (db * 2.0 + 250.0).Floor
    ensures db <= db' ==> QuantU16(db) <= QuantU16(db') && QuantU8(db) <= QuantU8(db')
  {
  }

  /** `10 log10(acc_bin) - 10 log10(accn)`: the average power in dB, the
      division by `accn` done as a subtraction on the dB scale. */
  function Db(accBin: real, accn: nat, log10: real -> real): real {
    log10(accBin) * 10.0 + log10(accn as real) * -10.0
  }

  /** The code of every bin of a record. */
  function Codes(acc: seq<real>, accn: nat, f: SpectrumFormat, log10: real -> real): (c: seq<nat>)
    ensures |c| == |acc|
    ensures forall i :: 0 <= i < |c| ==> c[i] < CodeLimit(f)
  {
    seq(|acc|, i requires 0 <= i < |acc| => Quant(f, Db(acc[i], accn, log10)))
  }

  /** `(o >> 8) as u8` and `(o & 0xFF) as u8` of a `u16`. */
  function HighByte(o: nat): byte
    requires o < 0x1_0000
  {
    o / 256
  }

  function LowByte(o: nat): byte {
    o % 256
  }

  /** The bytes of a record: one byte per code for `U8`; for `U16` the code
      `o` as `(o >> 8, o & 0xFF)`, most significant byte first. */
  function Serialize(codes: seq<nat>, f: SpectrumFormat): (rec: seq<byte>)
    requires forall i :: 0 <= i < |codes| ==> codes[i] < CodeLimit(f)
    ensures |rec| == |codes| * BytesPerBin(f)
  {
    match f
    case U8 => assert CodeLimit(f) == 256; SerializeU8(codes)
    case U16 => assert CodeLimit(f) == 0x1_0000; SerializeU16(codes)
  }

  function SerializeU8(codes: seq<nat>): (rec: seq<byte>)
    requires forall i :: 0 <= i < |codes| ==> codes[i] < 256
    ensures |rec| == |codes|
  {
    seq(|codes|, i requires 0 <= i < |codes| => codes[i] as byte)
  }

  function SerializeU16(codes: seq<nat>): (rec: seq<byte>)
    requires forall i :: 0 <= i < |codes| ==> codes[i] < 0x1_0000
    ensures |rec| == 2 * |codes|
  {
    seq(2 * |codes|, j requires 0 <= j < 2 * |codes| =>
      if j % 2 == 0 then HighByte(codes[j / 2]) else LowByte(codes[j / 2]))
  }

  /** Reading a record back into codes, as a receiver does. */
  function Deserialize(rec: seq<byte>, f: SpectrumFormat): seq<nat> {
    match f
    case U8 => seq(|rec|, i requires 0 <= i < |rec| => rec[i] as nat)
    case U16 => seq(|rec| / 2, i requires 0 <= i < |rec| / 2 => rec[2 * i] as nat * 256 + rec[2 * i + 1] as nat)
  }

  lemma U16Bytes(codes: seq<nat>, i: nat)
    requires forall k :: 0 <= k < |codes| ==> codes[k] < 0x1_0000
    requires i < |codes|
    ensures Serialize(codes, U16)[2 * i] == codes[i] / 256
    ensures Serialize(codes, U16)[2 * i + 1] == codes[i] % 256
  {
    DivModUnique(2 * i, 2, i, 0);
    DivModUnique(2 * i + 1, 2, i, 1);
  }

  /** A record loses nothing: reading it back gives every code; a 12-bit
      code puts at most 4 bits into its first byte. */
  lemma SerializeRoundTrip(codes: seq<nat>, f: SpectrumFormat)
    requires forall i :: 0 <= i < |codes| ==> codes[i] < CodeLimit(f)
    ensures Deserialize(Serialize(codes, f), f) == codes
    ensures f == U16 ==> forall i :: 0 <= i < |codes| && codes[i] <= 4095 ==> Serialize(codes, f)[2 * i] < 16
  {
    var rec := Serialize(codes, f);
    var back := Deserialize(rec, f);
    if f == U16 {
      assert |back| == |codes|;
      forall i | 0 <= i < |codes|
        ensures back[i] == codes[i]
        ensures codes[i] <= 4095 ==> rec[2 * i] < 16
      {
        U16Bytes(codes, i);
      }
    } else {
      assert |back| == |codes|;
    }
  }

  /** The record written when `accn` results have been summed into `acc`. */
  function Record(acc: seq<real>, accn: nat, f: SpectrumFormat, log10: real -> real): (rec: seq<byte>)
    ensures |rec| == |acc| * BytesPerBin(f)
  {
    Serialize(Codes(acc, accn, f, log10), f)
  }

  /** Every record has one entry per bin, its quantised average power, and
      a `U16` entry's first byte is below 16. */
  lemma RecordBins(acc: seq<real>, accn: nat, f: SpectrumFormat, log10: real -> real)
    ensures |Record(acc, accn, f, log10)| == |acc| * BytesPerBin(f)
    ensures Deserialize(Record(acc, accn, f, log10), f) == Codes(acc, accn, f, log10)
    ensures f == U16 ==> forall i :: 0 <= i < |acc| ==>
      Record(acc, accn, f, log10)[2 * i] < 16
      && Deserialize(Record(acc, accn, f, log10), f)[i] == QuantU16(Db(acc[i], accn, log10))
    ensures f == U8 ==> forall i :: 0 <= i < |acc| ==>
      Record(acc, accn, f, log10)[i] == QuantU8(Db(acc[i], accn, log10))
  {
    SerializeRoundTrip(Codes(acc, accn, f, log10), f);
  }

  // ---------------------------------------------------------------------------
  // Counting, emitting and resetting

  /** The averaging state: accumulated power per bin, the number of results
      summed, and the parameters. */
  datatype Accumulator = Accumulator(acc: seq<real>, accn: nat, averages: nat, outfmt: SpectrumFormat)

  function Zeros(n: nat): (z: seq<real>)
    ensures |z| == n && forall i :: 0 <= i < n ==> z[i] == 0.0
  {
    seq(n, _ => 0.0)
  }

  /** `init(n, averages, outfmt)`: `n` zero bins, nothing summed. */
  function Init(n: nat, averages: nat, outfmt: SpectrumFormat): (a: Accumulator)
    ensures |a.acc| == n && a.accn == 0 && a.averages == averages && a.outfmt == outfmt
    ensures forall k :: 0 <= k < n ==> a.acc[k] == 0.0
  {
    Accumulator(Zeros(n), 0, averages, outfmt)
  }

  function AddBins(a: seq<real>, b: seq<real>): (c: seq<real>)
    requires |a| == |b|
    ensures |c| == |a| && forall i :: 0 <= i < |a| ==> c[i] == a[i] + b[i]
  {
    seq(|a|, i requires 0 <= i < |a| => a[i] + b[i])
  }

  /** One FFT result's powers `p` added in: `accn += 1`, and when it reaches
      `averages` one record is written and the state reset. The second
      component holds the records written (none or one). */
  function Feed(a: Accumulator, p: seq<real>, log10: real -> real): (r: (Accumulator, seq<seq<byte>>))
    requires |p| == |a.acc|
    ensures |r.0.acc| == |a.acc| && r.0.averages == a.averages && r.0.outfmt == a.outfmt
    ensures |r.1| <= 1
  {
    var acc, accn := AddBins(a.acc, p), a.accn + 1;
    if accn >= a.averages then
      (Accumulator(Zeros(|acc|), 0, a.averages, a.outfmt), [Record(acc, accn, a.outfmt, log10)])
    else (Accumulator(acc, accn, a.averages, a.outfmt), [])
  }

  /** The per-result step in one piece: a record exactly when the count
      reaches `averages`, carrying the sums including this result; then
      zeros and a zero count; otherwise the sums grow by `p` and the count by
      one. */
  lemma FeedStep(a: Accumulator, p: seq<real>, log10: real -> real)
    requires |p| == |a.acc|
    ensures var r := Feed(a, p, log10);
      && (|r.1| == 1 <==> a.accn + 1 >= a.averages)
      && (|r.1| == 1 ==> r.1[0] == Record(AddBins(a.acc, p), a.accn + 1, a.outfmt, log10)
                         && r.0.accn == 0 && r.0.acc == Zeros(|a.acc|))
      && (|r.1| == 0 ==> r.0.accn == a.accn + 1 && r.0.acc == AddBins(a.acc, p))
  {
  }

  predicate SameWidth(ps: seq<seq<real>>, n: nat) {
    forall j :: 0 <= j < |ps| ==> |ps[j]| == n
  }

  /** The loop over `fft_results`: the final state and all records written,
      in order. */
  function Tally(a: Accumulator, ps: seq<seq<real>>, log10: real -> real): (r: (Accumulator, seq<seq<byte>>))
    requires SameWidth(ps, |a.acc|)
    ensures |r.0.acc| == |a.acc| && r.0.averages == a.averages && r.0.outfmt == a.outfmt
    decreases |ps|
  {
    if |ps| == 0 then (a, [])
    else
      var prev := Tally(a, ps[..|ps| - 1], log10);
      var s := Feed(prev.0, ps[|ps| - 1], log10);
      (s.0, prev.1 + s.1)
  }

  /** Results may arrive in any grouping: tallying `ps` then `qs` is
      tallying `ps + qs`. */
  lemma {:induction false} TallyAppend(a: Accumulator, ps: seq<seq<real>>, qs: seq<seq<real>>, log10: real -> real)
    requires SameWidth(ps, |a.acc|) && SameWidth(qs, |a.acc|)
    ensures SameWidth(ps + qs, |a.acc|)
    ensures Tally(a, ps + qs, log10).0 == Tally(Tally(a, ps, log10).0, qs, log10).0
    ensures Tally(a, ps + qs, log10).1 == Tally(a, ps, log10).1 + Tally(Tally(a, ps, log10).0, qs, log10).1
    decreases |qs|
  {
    if |qs| == 0 {
      assert ps + qs == ps;
    } else {
      var qs' := qs[..|qs| - 1];
      assert (ps + qs)[..|ps + qs| - 1] == ps + qs';
      assert (ps + qs)[|ps + qs| - 1] == qs[|qs| - 1];
      TallyAppend(a, ps, qs', log10);
      var mid := Tally(a, ps, log10);
      var t := Tally(mid.0, qs', log10);
      var s := Feed(t.0, qs[|qs| - 1], log10);
      assert mid.1 + t.1 + s.1 == mid.1 + (t.1 + s.1);
    }
  }

  /** Counting one more: the quotient grows exactly when the remainder
      wraps. */
  lemma CountStep(x: nat, m: nat)
    requires m >= 1
    ensures x % m + 1 == m ==> (x + 1) / m == x / m + 1 && (x + 1) % m == 0
    ensures x % m + 1 < m ==> (x + 1) / m == x / m && (x + 1) % m == x % m + 1
  {
    if x % m + 1 == m {
      DivModUnique(x + 1, m, x / m + 1, 0);
    } else {
      DivModUnique(x + 1, m, x / m, x % m + 1);
    }
  }

  /** The counter never skips a record: with `averages >= 1` and
      `accn < averages`, after `k` more results `(accn + k) div averages`
      records have been written and `accn` is `(accn + k) mod averages`. */
  lemma {:induction false} TallyCounts(a: Accumulator, ps: seq<seq<real>>, log10: real -> real)
    requires SameWidth(ps, |a.acc|)
    requires a.averages >= 1 && a.accn < a.averages
    ensures |Tally(a, ps, log10).1| == (a.accn + |ps|) / a.averages
    ensures Tally(a, ps, log10).0.accn == (a.accn + |ps|) % a.averages
    decreases |ps|
  {
    var m := a.averages;
    if |ps| == 0 {
      DivModUnique(a.accn, m, 0, a.accn);
    } else {
      var k := |ps| - 1;
      TallyLast(a, ps, log10);
      TallyCounts(a, ps[..k], log10);
      var prev := Tally(a, ps[..k], log10);
      var s := Feed(prev.0, ps[k], log10);
      FeedCount(prev.0, ps[k], log10);
      CountJoin(a.accn + k, m, |prev.1|, prev.0.accn, |s.1|, s.0.accn);
    }
  }

  /** Only the counting part of `FeedStep`. */
  lemma FeedCount(a: Accumulator, p: seq<real>, log10: real -> real)
    requires |p| == |a.acc|
    ensures var r := Feed(a, p, log10);
      && (a.accn + 1 >= a.averages ==> |r.1| == 1 && r.0.accn == 0)
      && (a.accn + 1 < a.averages ==> |r.1| == 0 && r.0.accn == a.accn + 1)
  {
  }

  /** One more result moves the quotient and remainder of the count by
      the record it emits. */
  lemma CountJoin(x: nat, m: nat, q: nat, r: nat, emitted: nat, r': nat)
    requires m >= 1 && q == x / m && r == x % m
    requires r + 1 >= m ==> emitted == 1 && r' == 0
    requires r + 1 < m ==> emitted == 0 && r' == r + 1
    ensures q + emitted == (x + 1) / m && r' == (x + 1) % m
  {
    CountStep(x, m);
  }

  /** With `averages == 0` the test `accn >= averages` always holds: every
      result is written out on its own. */
  lemma {:induction false} TallyZeroAverages(a: Accumulator, ps: seq<seq<real>>, log10: real -> real)
    requires SameWidth(ps, |a.acc|) && a.averages == 0
    ensures |Tally(a, ps, log10).1| == |ps|
    decreases |ps|
  {
    if |ps| > 0 {
      TallyZeroAverages(a, ps[..|ps| - 1], log10);
    }
  }

  /** The bin-wise sum of a list of results' powers. */
  function SumBins(ps: seq<seq<real>>, n: nat): (s: seq<real>)
    requires SameWidth(ps, n)
    ensures |s| == n
    decreases |ps|
  {
    if |ps| == 0 then Zeros(n) else AddBins(SumBins(ps[..|ps| - 1], n), ps[|ps| - 1])
  }

  /** Unfolding `Tally` at the last result. */
  lemma TallyLast(a: Accumulator, ps: seq<seq<real>>, log10: real -> real)
    requires SameWidth(ps, |a.acc|) && |ps| > 0
    ensures SameWidth(ps[..|ps| - 1], |a.acc|)
    ensures var prev := Tally(a, ps[..|ps| - 1], log10);
      var s := Feed(prev.0, ps[|ps| - 1], log10);
      Tally(a, ps, log10) == (s.0, prev.1 + s.1)
  {
  }

  /** Welch's averaging, defined block by block from the front: one record
      for each full run of `m` results, holding their powers summed. */
  function Averages(ps: seq<seq<real>>, n: nat, m: nat, f: SpectrumFormat, log10: real -> real): (recs: seq<seq<byte>>)
    requires m >= 1 && SameWidth(ps, n)
    decreases |ps|
  {
    if |ps| < m then [] else [Record(SumBins(ps[..m], n), m, f, log10)] + Averages(ps[m..], n, m, f, log10)
  }

  /** The results after the last full block. */
  function Leftover(ps: seq<seq<real>>, m: nat): (l: seq<seq<real>>)
    requires m >= 1
    ensures |l| < m
    decreases |ps|
  {
    if |ps| < m then ps else Leftover(ps[m..], m)
  }

  /** There are `|ps| div m` blocks, and the leftover is the last
      `|ps| mod m` results. */
  lemma {:induction false} AveragesCount(ps: seq<seq<real>>, n: nat, m: nat, f: SpectrumFormat, log10: real -> real)
    requires m >= 1 && SameWidth(ps, n)
    ensures |Averages(ps, n, m, f, log10)| == |ps| / m
    ensures |Leftover(ps, m)| == |ps| % m
    decreases |ps|
  {
    if |ps| < m {
      DivModUnique(|ps|, m, 0, |ps|);
    } else {
      var rest := ps[m..];
      AveragesCount(rest, n, m, f, log10);
      assert |Averages(ps, n, m, f, log10)| == 1 + |Averages(rest, n, m, f, log10)|;
      assert Leftover(ps, m) == Leftover(rest, m);
      BlockCount(|ps|, m, |Averages(rest, n, m, f, log10)|, |Leftover(rest, m)|);
    }
  }

  /** Taking one block of `m` off the front adds one to the quotient and
      keeps the remainder. */
  lemma BlockCount(len: int, m: int, q: int, r: int)
    requires m >= 1 && len >= m && q == (len - m) / m && r == (len - m) % m
    ensures q + 1 == len / m && r == len % m
  {
    assert (q + 1) * m == q * m + m;
    DivModUnique(len, m, q + 1, r);
  }

  /** The leftover is a suffix: the results since the last record. */
  lemma {:induction false} LeftoverIsSuffix(ps: seq<seq<real>>, m: nat)
    requires m >= 1
    ensures |Leftover(ps, m)| <= |ps|
    ensures Leftover(ps, m) == ps[|ps| - |Leftover(ps, m)|..]
    decreases |ps|
  {
    if |ps| >= m {
      LeftoverIsSuffix(ps[m..], m);
      var l := Leftover(ps[m..], m);
      assert ps[m..][|ps| - m - |l|..] == ps[|ps| - |l|..];
    }
  }

  /** Fewer than `m` results from `init`: no record, and the state holds
      their sum and count. */
  lemma {:induction false} TallyPartial(n: nat, m: nat, f: SpectrumFormat, ps: seq<seq<real>>, log10: real -> real)
    requires SameWidth(ps, n) && |ps| < m
    ensures Tally(Init(n, m, f), ps, log10) == (Accumulator(SumBins(ps, n), |ps|, m, f), [])
    decreases |ps|
  {
    if |ps| > 0 {
      var a, k := Init(n, m, f), |ps| - 1;
      TallyLast(a, ps, log10);
      TallyPartial(n, m, f, ps[..k], log10);
      var prev := Tally(a, ps[..k], log10);
      FeedStep(prev.0, ps[k], log10);
      var s := Feed(prev.0, ps[k], log10);
      assert s.0.acc == SumBins(ps, n);
      assert prev.1 + s.1 == [];
    }
  }

  /** Exactly `m` results from `init`: one record of their sum, and the
      state is back at `init`. */
  lemma TallyBlock(n: nat, m: nat, f: SpectrumFormat, ps: seq<seq<real>>, log10: real -> real)
    requires m >= 1 && SameWidth(ps, n) && |ps| == m
    ensures Tally(Init(n, m, f), ps, log10) == (Init(n, m, f), [Record(SumBins(ps, n), m, f, log10)])
  {
    var a := Init(n, m, f);
    TallyLast(a, ps, log10);
    TallyPartial(n, m, f, ps[..m - 1], log10);
    var prev := Tally(a, ps[..m - 1], log10);
    FeedStep(prev.0, ps[m - 1], log10);
    var s := Feed(prev.0, ps[m - 1], log10);
    assert s.1[0] == Record(SumBins(ps, n), m, f, log10);
    assert prev.1 + s.1 == [s.1[0]];
  }

  /** The running loop computes Welch's averages: from `init`, the records
      written are `Averages(ps)` and the state holds the sum and count of
      the leftover results. */
  lemma {:induction false} TallyIsAverages(n: nat, m: nat, f: SpectrumFormat, ps: seq<seq<real>>, log10: real -> real)
    requires m >= 1 && SameWidth(ps, n)
    ensures Tally(Init(n, m, f), ps, log10).1 == Averages(ps, n, m, f, log10)
    ensures var l := Leftover(ps, m);
      SameWidth(l, n) && Tally(Init(n, m, f), ps, log10).0 == Accumulator(SumBins(l, n), |l|, m, f)
    decreases |ps|
  {
    if |ps| < m {
      TallyPartial(n, m, f, ps, log10);
    } else {
      var a := Init(n, m, f);
      assert ps == ps[..m] + ps[m..];
      TallyAppend(a, ps[..m], ps[m..], log10);
      TallyBlock(n, m, f, ps[..m], log10);
      TallyIsAverages(n, m, f, ps[m..], log10);
    }
  }

  predicate NonNegative(s: seq<real>) {
    forall i :: 0 <= i < |s| ==> s[i] >= 0.0
  }

  /** Powers are never negative, so neither is any accumulated bin. */
  lemma {:induction false} TallyNonNegative(a: Accumulator, ps: seq<seq<real>>, log10: real -> real)
    requires SameWidth(ps, |a.acc|) && NonNegative(a.acc)
    requires forall j :: 0 <= j < |ps| ==> NonNegative(ps[j])
    ensures NonNegative(Tally(a, ps, log10).0.acc)
    decreases |ps|
  {
    if |ps| > 0 {
      TallyNonNegative(a, ps[..|ps| - 1], log10);
    }
  }

  // ---------------------------------------------------------------------------
  // The frequency-domain Hann window of `spectrum.rs`

  /** The FFT size `accumulate` derives from a result: its length for a
      complex FFT, `(len - 1) * 2` for a real one. */
  function FftSize(len: nat, complex: bool): int {
    if complex then len else (len - 1) * 2
  }

  /** The result lengths `accumulate` handles without panicking: a zero FFT
      size is a division by zero in `get_bin`, and a real result of length 0
      underflows `len - 1`. */
  predicate ResultShapeOk(len: nat, complex: bool) {
    if complex then len >= 1 else len >= 2
  }

  /** A real result of length `len` is read as the half spectrum of an FFT
      of the even size `2 (len - 1)`. */
  lemma RealResultIsHalf(len: nat)
    requires ResultShapeOk(len, false)
    ensures HalfSpectrum(len, FftSize(len, false))
  {
  }

  lemma ReadableBins(result: seq<Complex>, complex: bool, i: int)
    requires ResultShapeOk(|result|, complex)
    ensures FftSize(|result|, complex) > 0
    ensures InBounds(|result|, FftSize(|result|, complex), i)
  {
    if complex {
      FullSpectrum(result, i);
    } else {
      HalfSpectrumInBounds(|result|, FftSize(|result|, false), i);
    }
  }

  /** `getbin(i) - (getbin(i - 1) + getbin(i + 1)) * 0.5`. */
  function HannBin(result: seq<Complex>, complex: bool, i: int): Complex
    requires ResultShapeOk(|result|, complex)
  {
    var n := FftSize(|result|, complex);
    ReadableBins(result, complex, i - 1);
    ReadableBins(result, complex, i);
    ReadableBins(result, complex, i + 1);
    Sub(GetBin(result, n, i), Scale(Add(GetBin(result, n, i - 1), GetBin(result, n, i + 1)), 0.5))
  }

  /** The powers one result adds to `n` bins: `|c|^2` of the windowed bin. */
  function HannPowers(result: seq<Complex>, complex: bool, n: nat): (p: seq<real>)
    requires ResultShapeOk(|result|, complex)
    ensures |p| == n && NonNegative(p)
  {
    seq(n, i requires 0 <= i < n => Norm2(HannBin(result, complex, i)))
  }

  /** The convolution is circular: for a complex FFT bin `i` combines the
      stored bins `i - 1`, `i`, `i + 1` modulo the size, and moving by a
      whole FFT length gives the same bin. */
  lemma HannCircular(result: seq<Complex>, complex: bool, i: int)
    requires ResultShapeOk(|result|, complex)
    ensures var n := FftSize(|result|, complex);
      HannBin(result, complex, i + n) == HannBin(result, complex, i)
    ensures complex ==> var n := |result|;
      HannBin(result, complex, i)
        == Sub(result[i % n], Scale(Add(result[(i - 1) % n], result[(i + 1) % n]), 0.5))
  {
    var n := FftSize(|result|, complex);
    ReadableBins(result, complex, i - 1);
    ReadableBins(result, complex, i);
    ReadableBins(result, complex, i + 1);
    GetBinPeriodic(result, n, i - 1);
    GetBinPeriodic(result, n, i);
    GetBinPeriodic(result, n, i + 1);
    assert i + n - 1 == (i - 1) + n && i + n + 1 == (i + 1) + n;
    if complex {
      FullSpectrum(result, i - 1);
      FullSpectrum(result, i);
      FullSpectrum(result, i + 1);
    }
  }

  /** For a real FFT of at least three bins the neighbour below bin 0 is
      not stored: it is read as the conjugate of bin 1. */
  lemma HannRealEdge(result: seq<Complex>)
    requires |result| >= 3
    ensures ResultShapeOk(|result|, false)
    ensures HannBin(result, false, 0)
         == Sub(result[0], Scale(Add(Conj(result[1]), result[1]), 0.5))
  {
    var n := FftSize(|result|, false);
    WrapIsMod(-1, n);
    WrapIsMod(0, n);
    WrapIsMod(1, n);
    DivModUnique(-1, n, -1, n - 1);
    DivModUnique(0, n, 0, 0);
    DivModUnique(1, n, 0, 1);
  }

  /** `SpectrumAccumulator` of `spectrum.rs`: the shared state plus whether
      the FFT input is complex. */
  datatype SpectrumAccumulator = SpectrumAccumulator(core: Accumulator, complex: bool)

  /** The powers each result in `results` contributes. */
  function ResultPowers(results: seq<seq<Complex>>, complex: bool, n: nat): (ps: seq<seq<real>>)
    requires forall j :: 0 <= j < |results| ==> ResultShapeOk(|results[j]|, complex)
    ensures |ps| == |results| && SameWidth(ps, n)
    ensures forall j :: 0 <= j < |ps| ==> NonNegative(ps[j])
  {
    seq(|results|, j requires 0 <= j < |results| => HannPowers(results[j], complex, n))
  }

  /** `accumulate(fft_results)`: the new state and the records written to
      standard output, in order. */
  function Accumulate(s: SpectrumAccumulator, results: seq<seq<Complex>>, log10: real -> real): (r: (SpectrumAccumulator, seq<seq<byte>>))
    requires forall j :: 0 <= j < |results| ==> ResultShapeOk(|results[j]|, s.complex)
    ensures r.0.complex == s.complex && |r.0.core.acc| == |s.core.acc|
    ensures r.0.core.averages == s.core.averages && r.0.core.outfmt == s.core.outfmt
  {
    var t := Tally(s.core, ResultPowers(results, s.complex, |s.core.acc|), log10);
    (SpectrumAccumulator(t.0, s.complex), t.1)
  }

  /** The state persists between calls, so how the FFT results are split
      into `accumulate` calls changes neither the records nor the final
      state. */
  lemma AccumulateAppend(s: SpectrumAccumulator, xs: seq<seq<Complex>>, ys: seq<seq<Complex>>, log10: real -> real)
    requires forall j :: 0 <= j < |xs| ==> ResultShapeOk(|xs[j]|, s.complex)
    requires forall j :: 0 <= j < |ys| ==> ResultShapeOk(|ys[j]|, s.complex)
    ensures forall j :: 0 <= j < |xs + ys| ==> ResultShapeOk(|(xs + ys)[j]|, s.complex)
    ensures var first := Accumulate(s, xs, log10);
      var second := Accumulate(first.0, ys, log10);
      Accumulate(s, xs + ys, log10) == (second.0, first.1 + second.1)
  {
    var n := |s.core.acc|;
    var ps, qs := ResultPowers(xs, s.complex, n), ResultPowers(ys, s.complex, n);
    assert ResultPowers(xs + ys, s.complex, n) == ps + qs;
    TallyAppend(s.core, ps, qs, log10);
  }

  /** What a run of `accumulate` calls promises: from `init`, the bins stay
      non-negative, the records written are Welch's averages of the
      windowed powers, one per `averages` results, and the state counts the
      results left over. */
  lemma AccumulateFromInit(n: nat, m: nat, f: SpectrumFormat, complex: bool, results: seq<seq<Complex>>, log10: real -> real)
    requires m >= 1
    requires forall j :: 0 <= j < |results| ==> ResultShapeOk(|results[j]|, complex)
    ensures var r := Accumulate(SpectrumAccumulator(Init(n, m, f), complex), results, log10);
      && NonNegative(r.0.core.acc)
      && r.0.core.accn == |results| % m
      && |r.1| == |results| / m
      && r.1 == Averages(ResultPowers(results, complex, n), n, m, f, log10)
  {
    var ps := ResultPowers(results, complex, n);
    TallyIsAverages(n, m, f, ps, log10);
    AveragesCount(ps, n, m, f, log10);
    TallyNonNegative(Init(n, m, f), ps, log10);
  }
}
