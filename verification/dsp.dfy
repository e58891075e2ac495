/** The buffer bookkeeping of `spektri/src/dsp.rs`: how `DspState::init`
    sizes the input and result buffers, how `process_complex` and
    `process_real` cut overlapping FFT windows out of one input buffer, and
    how the main loop of `spektri/src/main.rs` carries the overlap from one
    buffer to the next. The FFT itself (`MultiFft`, with the window
    function multiplied in) is a parameter. */
module Dsp {
  import opened Arith
  import opened Bytes
  import opened ComplexNumbers
  import Spectrum

  /** `DspParams`; the input `scaling` only feeds the window function,
      which is part of the FFT parameter here. */
  datatype DspParams = DspParams(
    complex: bool,
    fftSize: nat,
    fftsPerBuf: nat,
    spectrumFormat: Spectrum.SpectrumFormat,
    spectrumAverages: nat)

  /** `InputBufferSize`: the samples read per buffer, the samples carried
      over from the previous one, and the whole buffer. */
  datatype InputBufferSize = InputBufferSize(newLen: nat, overlap: nat, total: nat)

  /** `DspState` without the FFT plan and the window. */
  datatype DspState = DspState(
    fftSize: nat,
    fftsPerBuf: nat,
    fftInterval: nat,
    accu: Spectrum.Accumulator,
    resultBuf: seq<Complex>)

  /** Bins per FFT result: all `fft_size` for complex input, the half
      spectrum `fft_size/2 + 1` for real input. */
  function ResultBins(complex: bool, fftSize: nat): nat {
    if complex then fftSize else fftSize / 2 + 1
  }

  /** `DspState::init(params)`: a quarter of each FFT overlaps the previous
      one. */
  function Init(p: DspParams): (r: (DspState, InputBufferSize))
    ensures r.0.fftSize == p.fftSize && r.0.fftsPerBuf == p.fftsPerBuf
  {
    var overlap := p.fftSize / 4;
    var interval := p.fftSize - overlap;
    var bins := ResultBins(p.complex, p.fftSize);
    (DspState(p.fftSize, p.fftsPerBuf, interval,
              Spectrum.Init(bins, p.spectrumAverages, p.spectrumFormat),
              seq(bins * p.fftsPerBuf, _ => Zero)),
     InputBufferSize(interval * p.fftsPerBuf, overlap, overlap + interval * p.fftsPerBuf))
  }

  // ---------------------------------------------------------------------------
  // Windows

  /** The input `process_*` can slice without panicking: the last window,
      `(ffts_per_buf - 1) * interval + fft_size`, ends inside it. */
  predicate InputFits(st: DspState, len: nat) {
    st.fftsPerBuf == 0 || (st.fftsPerBuf - 1) * st.fftInterval + st.fftSize <= len
  }

  /** `buf[i*interval .. i*interval + size]`. */
  function Window<T>(buf: seq<T>, interval: nat, size: nat, i: nat): (w: seq<T>)
    requires i * interval + size <= |buf|
    ensures |w| == size
  {
    MulLe(0, i, interval);
    buf[i * interval..i * interval + size]
  }

  /** Window `i` of the state's geometry, for `i < ffts_per_buf`. */
  function WindowAt<T>(buf: seq<T>, st: DspState, i: nat): (w: seq<T>)
    requires i < st.fftsPerBuf && InputFits(st, |buf|)
    ensures |w| == st.fftSize
  {
    MulLe(i, st.fftsPerBuf - 1, st.fftInterval);
    Window(buf, st.fftInterval, st.fftSize, i)
  }

  /** The `ffts_per_buf` windows handed to the FFT. */
  function Windows<T>(buf: seq<T>, st: DspState): (ws: seq<seq<T>>)
    requires InputFits(st, |buf|)
    ensures |ws| == st.fftsPerBuf
  {
    seq(st.fftsPerBuf, i requires 0 <= i < st.fftsPerBuf => WindowAt(buf, st, i))
  }

  /** The geometry `init` sets up: the carried-over part is exactly the
      overlap, every window lies inside the buffer and the last one ends at
      its end, consecutive windows share exactly `overlap` samples, and
      the first window of the next buffer starts one interval after the
      last window of this one. */
  lemma WindowGeometry(p: DspParams, i: nat)
    ensures var st, sz := Init(p).0, Init(p).1;
      && sz.total == sz.overlap + sz.newLen
      && st.fftSize == st.fftInterval + sz.overlap
      && InputFits(st, sz.total)
      && (i < p.fftsPerBuf ==> i * st.fftInterval + p.fftSize <= sz.total)
      && (i + 1 == p.fftsPerBuf ==> i * st.fftInterval + p.fftSize == sz.total)
      && (i * st.fftInterval + p.fftSize) - (i + 1) * st.fftInterval == sz.overlap
      && (p.fftsPerBuf >= 1 ==> sz.newLen - (p.fftsPerBuf - 1) * st.fftInterval == st.fftInterval)
  {
    var st, sz := Init(p).0, Init(p).1;
    GeometryArith(sz.overlap, st.fftInterval, p.fftsPerBuf, i, p.fftSize, sz.newLen, sz.total);
  }

  /** The arithmetic behind `WindowGeometry`, over plain integers. */
  lemma GeometryArith(overlap: int, v: int, n: int, i: int, size: int, newLen: int, total: int)
    requires v >= 0 && n >= 0 && i >= 0
    requires size == v + overlap && newLen == v * n && total == overlap + newLen
    ensures n == 0 || (n - 1) * v + size <= total
    ensures i < n ==> i * v + size <= total
    ensures i + 1 == n ==> i * v + size == total
    ensures (i * v + size) - (i + 1) * v == overlap
    ensures n >= 1 ==> newLen - (n - 1) * v == v
  {
    MulShift(i, 1, v);
    MulShift(n, -1, v);
    if i < n {
      MulLe(i + 1, n, v);
    }
  }

  /** Multiplication distributes over a shifted factor. */
  lemma MulShift(a: int, k: int, v: int)
    ensures (a + k) * v == a * v + k * v
  {
  }

  // ---------------------------------------------------------------------------
  // Result chunks

  /** `chunks_mut(size)`: full chunks of `size`, then a shorter last one. */
  function Chunks<T>(buf: seq<T>, size: nat): (cs: seq<seq<T>>)
    requires size >= 1
    ensures forall j :: 0 <= j < |cs| ==> 1 <= |cs[j]| <= size
    decreases |buf|
  {
    if |buf| == 0 then []
    else if |buf| <= size then [buf]
    else [buf[..size]] + Chunks(buf[size..], size)
  }

  function Flatten<T>(cs: seq<seq<T>>): seq<T>
    decreases |cs|
  {
    if |cs| == 0 then [] else cs[0] + Flatten(cs[1..])
  }

  /** The chunks cover the buffer, in order, without gaps. */
  lemma {:induction false} ChunksFlatten<T>(buf: seq<T>, size: nat)
    requires size >= 1
    ensures Flatten(Chunks(buf, size)) == buf
    decreases |buf|
  {
    if |buf| > size {
      ChunksFlatten(buf[size..], size);
      var cs := Chunks(buf, size);
      assert cs[1..] == Chunks(buf[size..], size);
      assert buf == buf[..size] + buf[size..];
    }
  }

  /** A buffer of `count` results of `size` bins splits into exactly
      `count` chunks of `size`. */
  lemma {:induction false} ChunksExact<T>(buf: seq<T>, size: nat, count: nat)
    requires size >= 1 && |buf| == size * count
    ensures |Chunks(buf, size)| == count
    ensures forall j :: 0 <= j < count ==> |Chunks(buf, size)[j]| == size
    decreases count
  {
    if count >= 2 {
      MulLe(2, count, size);
      ChunksExact(buf[size..], size, count - 1);
      var cs := Chunks(buf, size);
      assert cs[1..] == Chunks(buf[size..], size);
      forall j | 0 <= j < count
        ensures |cs[j]| == size
      {
        if j > 0 {
          assert cs[j] == cs[1..][j - 1];
        }
      }
    }
  }

  /** The result buffer `init` allocates splits, with the chunk size
      `process_complex` (complex input) or `process_real` (real input) uses,
      into one result slice per FFT, each holding all bins. */
  lemma ResultChunks(p: DspParams)
    requires ResultBins(p.complex, p.fftSize) >= 1
    ensures var bins := ResultBins(p.complex, p.fftSize);
      var cs := Chunks(Init(p).0.resultBuf, bins);
      && |cs| == p.fftsPerBuf
      && (forall j :: 0 <= j < |cs| ==> |cs[j]| == bins)
      && |Init(p).0.accu.acc| == bins
  {
    ChunksExact(Init(p).0.resultBuf, ResultBins(p.complex, p.fftSize), p.fftsPerBuf);
  }

  // ---------------------------------------------------------------------------
  // Carrying the overlap between buffers (the main loop)

  /** `buf.copy_within(new..total, 0)` followed by the converted new
      samples written to `buf[overlap..total]`. */
  function Refill<T>(buf: seq<T>, sz: InputBufferSize, samples: seq<T>): (b: seq<T>)
    requires sz.total == sz.overlap + sz.newLen && |buf| == sz.total && |samples| == sz.newLen
    ensures |b| == sz.total
  {
    buf[sz.newLen..sz.total] + samples
  }

  predicate ChunkSized<T>(chunks: seq<seq<T>>, n: nat) {
    forall j :: 0 <= j < |chunks| ==> |chunks[j]| == n
  }

  /** The buffer after the main loop has read `chunks`, starting from a
      buffer of `total` zeros. */
  function Filled<T>(zero: T, sz: InputBufferSize, chunks: seq<seq<T>>): (b: seq<T>)
    requires sz.total == sz.overlap + sz.newLen && ChunkSized(chunks, sz.newLen)
    ensures |b| == sz.total
    decreases |chunks|
  {
    if |chunks| == 0 then seq(sz.total, _ => zero)
    else Refill(Filled(zero, sz, chunks[..|chunks| - 1]), sz, chunks[|chunks| - 1])
  }

  /** The whole input stream, after the zeros the buffer starts with. */
  function Padded<T>(zero: T, sz: InputBufferSize, chunks: seq<seq<T>>): (s: seq<T>)
    ensures |s| >= sz.total
  {
    seq(sz.total, _ => zero) + Flatten(chunks)
  }

  lemma {:induction false} FlattenSnoc<T>(cs: seq<seq<T>>, c: seq<T>)
    ensures Flatten(cs + [c]) == Flatten(cs) + c
    decreases |cs|
  {
    if |cs| > 0 {
      FlattenSnoc(cs[1..], c);
      assert (cs + [c])[1..] == cs[1..] + [c];
    }
  }

  /** No sample is lost or repeated: after every read the buffer holds the
      latest `total` samples of the stream. */
  lemma {:induction false} FilledIsLatest<T>(zero: T, sz: InputBufferSize, chunks: seq<seq<T>>)
    requires sz.total == sz.overlap + sz.newLen && ChunkSized(chunks, sz.newLen)
    ensures var s := Padded(zero, sz, chunks);
      Filled(zero, sz, chunks) == s[|s| - sz.total..]
    decreases |chunks|
  {
    if |chunks| > 0 {
      var k := |chunks| - 1;
      FilledIsLatest(zero, sz, chunks[..k]);
      FlattenSnoc(chunks[..k], chunks[k]);
      assert chunks[..k] + [chunks[k]] == chunks;
      var s := Padded(zero, sz, chunks[..k]);
      assert Padded(zero, sz, chunks) == s + chunks[k];
      var prev := Filled(zero, sz, chunks[..k]);
      assert Filled(zero, sz, chunks) == prev[sz.newLen..sz.total] + chunks[k];
      SuffixSnoc(s, chunks[k], sz.total);
    }
  }

  /** The latest `total` entries after appending `c` are the latest `total`
      before it, less the first `|c|`, followed by `c`. */
  lemma SuffixSnoc<T>(s: seq<T>, c: seq<T>, total: nat)
    requires |c| <= total <= |s|
    ensures (s + c)[|s + c| - total..] == s[|s| - total..][|c|..total] + c
  {
  }

  /** The windows of the buffer are stream segments: window `i` after the
      `|chunks|`-th read starts `i` intervals after the buffer's first
      sample in the stream. */
  lemma WindowsOfStream<T>(p: DspParams, zero: T, chunks: seq<seq<T>>, i: nat)
    requires ChunkSized(chunks, Init(p).1.newLen) && i < p.fftsPerBuf
    ensures InputFits(Init(p).0, Init(p).1.total)
    ensures var st, sz := Init(p).0, Init(p).1;
      var s := Padded(zero, sz, chunks);
      var start := |s| - sz.total + Offset(i, st.fftInterval);
      && start + p.fftSize <= |s|
      && Windows(Filled(zero, sz, chunks), st)[i] == s[start..start + p.fftSize]
  {
    var st, sz := Init(p).0, Init(p).1;
    WindowGeometry(p, i);
    FilledIsLatest(zero, sz, chunks);
    var s := Padded(zero, sz, chunks);
    SliceOfSuffix(s, |s| - sz.total, Offset(i, st.fftInterval), p.fftSize);
  }

  /** Where window `i` starts: `i * interval`. */
  function Offset(i: nat, interval: nat): nat
  {
    MulLe(0, i, interval);
    i * interval
  }

  lemma SliceOfSuffix<T>(s: seq<T>, lo: nat, a: nat, n: nat)
    requires lo + a + n <= |s|
    ensures s[lo..][a..a + n] == s[lo + a..lo + a + n]
  {
  }

  // ---------------------------------------------------------------------------
  // Processing a buffer

  /** The powers one FFT result adds in the simple accumulator of
      `dsp.rs`: `re^2 + im^2` per bin. `zip` stops at the shorter side, so
      bins the result does not reach get nothing added. */
  function Powers(result: seq<Complex>, n: nat): (p: seq<real>)
    ensures |p| == n && Spectrum.NonNegative(p)
  {
    seq(n, i requires 0 <= i < n => if i < |result| then Norm2(result[i]) else 0.0)
  }

  /** `process_complex` splits the result buffer with `chunks_mut(fft_size)`
      and `process_real` with `chunks_mut(fft_size/2 + 1)`: the result width,
      which is the accumulator's width. `chunks_mut(0)` panics, so the
      processing functions need a positive width. */
  predicate Chunkable(st: DspState) {
    |st.accu.acc| >= 1
  }

  /** The only configuration `Chunkable` rules out is complex input with
      `fft_size == 0`, the one for which `process_complex` panics. */
  lemma ChunkablePanics(p: DspParams)
    ensures Chunkable(Init(p).0) <==> !(p.complex && p.fftSize == 0)
    ensures |Init(p).0.accu.acc| == ResultBins(p.complex, p.fftSize)
  {
  }

  /** The powers of the FFTs of all windows of `input`. */
  function BufferPowers<T>(st: DspState, input: seq<T>, fft: seq<T> -> seq<Complex>): (ps: seq<seq<real>>)
    requires InputFits(st, |input|)
    ensures |ps| == st.fftsPerBuf && Spectrum.SameWidth(ps, |st.accu.acc|)
    ensures forall j :: 0 <= j < |ps| ==> Spectrum.NonNegative(ps[j])
  {
    var ws := Windows(input, st);
    seq(st.fftsPerBuf, i requires 0 <= i < st.fftsPerBuf => Powers(fft(ws[i]), |st.accu.acc|))
  }

  /** `process_complex` / `process_real`: FFT every window, add each
      result's powers into the accumulator, and collect the records it
      writes. Only the accumulator changes. */
  function Process<T>(st: DspState, input: seq<T>, fft: seq<T> -> seq<Complex>, log10: real -> real): (r: (DspState, seq<seq<byte>>))
    requires Chunkable(st) && InputFits(st, |input|)
    ensures r.0 == st.(accu := r.0.accu)
    ensures |r.0.accu.acc| == |st.accu.acc| && r.0.accu.averages == st.accu.averages
  {
    var t := Spectrum.Tally(st.accu, BufferPowers(st, input, fft), log10);
    (st.(accu := t.0), t.1)
  }

  /** One buffer keeps the record count on schedule: `(accn + ffts_per_buf)
      div averages` records, and the remainder left counted. */
  lemma ProcessCounts<T>(st: DspState, input: seq<T>, fft: seq<T> -> seq<Complex>, log10: real -> real)
    requires Chunkable(st) && InputFits(st, |input|)
    requires st.accu.averages >= 1 && st.accu.accn < st.accu.averages
    ensures var r := Process(st, input, fft, log10);
      && |r.1| == (st.accu.accn + st.fftsPerBuf) / st.accu.averages
      && r.0.accu.accn == (st.accu.accn + st.fftsPerBuf) % st.accu.averages
  {
    Spectrum.TallyCounts(st.accu, BufferPowers(st, input, fft), log10);
  }

  /** Accumulated bins stay non-negative. */
  lemma ProcessNonNegative<T>(st: DspState, input: seq<T>, fft: seq<T> -> seq<Complex>, log10: real -> real)
    requires Chunkable(st) && InputFits(st, |input|) && Spectrum.NonNegative(st.accu.acc)
    ensures Spectrum.NonNegative(Process(st, input, fft, log10).0.accu.acc)
  {
    Spectrum.TallyNonNegative(st.accu, BufferPowers(st, input, fft), log10);
  }

  /** The main loop: after every read, process the refilled buffer. */
  function Run<T>(st: DspState, sz: InputBufferSize, zero: T, chunks: seq<seq<T>>, fft: seq<T> -> seq<Complex>, log10: real -> real): (r: (DspState, seq<seq<byte>>))
    requires sz.total == sz.overlap + sz.newLen && ChunkSized(chunks, sz.newLen) && InputFits(st, sz.total) && Chunkable(st)
    ensures r.0 == st.(accu := r.0.accu)
    ensures |r.0.accu.acc| == |st.accu.acc| && r.0.accu.averages == st.accu.averages
    decreases |chunks|
  {
    if |chunks| == 0 then (st, [])
    else
      var prev := Run(st, sz, zero, chunks[..|chunks| - 1], fft, log10);
      var t := Process(prev.0, Filled(zero, sz, chunks), fft, log10);
      (t.0, prev.1 + t.1)
  }

  /** Unfolding `Run` at the last read. */
  lemma RunLast<T>(st: DspState, sz: InputBufferSize, zero: T, chunks: seq<seq<T>>, fft: seq<T> -> seq<Complex>, log10: real -> real)
    requires sz.total == sz.overlap + sz.newLen && ChunkSized(chunks, sz.newLen) && InputFits(st, sz.total) && Chunkable(st)
    requires |chunks| > 0
    ensures ChunkSized(chunks[..|chunks| - 1], sz.newLen)
    ensures var prev := Run(st, sz, zero, chunks[..|chunks| - 1], fft, log10);
      var t := Process(prev.0, Filled(zero, sz, chunks), fft, log10);
      Run(st, sz, zero, chunks, fft, log10) == (t.0, prev.1 + t.1)
  {
  }

  /** The powers of every window the loop hands to the FFT, buffer after
      buffer. */
  function AllPowers<T>(st: DspState, sz: InputBufferSize, zero: T, chunks: seq<seq<T>>, fft: seq<T> -> seq<Complex>): (ps: seq<seq<real>>)
    requires sz.total == sz.overlap + sz.newLen && ChunkSized(chunks, sz.newLen) && InputFits(st, sz.total)
    ensures Spectrum.SameWidth(ps, |st.accu.acc|)
    decreases |chunks|
  {
    if |chunks| == 0 then []
    else AllPowers(st, sz, zero, chunks[..|chunks| - 1], fft) + BufferPowers(st, Filled(zero, sz, chunks), fft)
  }

  /** `ffts_per_buf` FFTs per buffer read. */
  lemma {:induction false} AllPowersLength<T>(st: DspState, sz: InputBufferSize, zero: T, chunks: seq<seq<T>>, fft: seq<T> -> seq<Complex>)
    requires sz.total == sz.overlap + sz.newLen && ChunkSized(chunks, sz.newLen) && InputFits(st, sz.total)
    ensures |AllPowers(st, sz, zero, chunks, fft)| == |chunks| * st.fftsPerBuf
    decreases |chunks|
  {
    if |chunks| > 0 {
      var k := |chunks| - 1;
      var front := chunks[..k];
      assert ChunkSized(front, sz.newLen);
      AllPowersLength(st, sz, zero, front, fft);
      var p, q := AllPowers(st, sz, zero, front, fft), BufferPowers(st, Filled(zero, sz, chunks), fft);
      assert AllPowers(st, sz, zero, chunks, fft) == p + q;
      OneMoreBuffer(k, st.fftsPerBuf, |p|, |q|);
    }
  }

  /** One more read adds `f` results to the `k * f` before it. */
  lemma OneMoreBuffer(k: nat, f: nat, p: nat, q: nat)
    requires p == k * f && q == f
    ensures p + q == (k + 1) * f
  {
  }

  /** The window powers depend only on the geometry and the bin count, not
      on the accumulated values. */
  lemma BufferPowersGeometry<T>(st: DspState, st': DspState, input: seq<T>, fft: seq<T> -> seq<Complex>)
    requires st' == st.(accu := st'.accu) && |st'.accu.acc| == |st.accu.acc|
    requires InputFits(st, |input|)
    ensures BufferPowers(st', input, fft) == BufferPowers(st, input, fft)
  {
    assert Windows(input, st') == Windows(input, st);
  }

  /** Buffer boundaries are invisible to the averaging: the main loop is a
      single tally over the powers of all windows, in stream order. */
  lemma {:induction false} RunIsTally<T>(st: DspState, sz: InputBufferSize, zero: T, chunks: seq<seq<T>>, fft: seq<T> -> seq<Complex>, log10: real -> real)
    requires sz.total == sz.overlap + sz.newLen && ChunkSized(chunks, sz.newLen) && InputFits(st, sz.total) && Chunkable(st)
    ensures var t := Spectrum.Tally(st.accu, AllPowers(st, sz, zero, chunks, fft), log10);
      Run(st, sz, zero, chunks, fft, log10) == (st.(accu := t.0), t.1)
    decreases |chunks|
  {
    if |chunks| > 0 {
      var k := |chunks| - 1;
      RunIsTally(st, sz, zero, chunks[..k], fft, log10);
      RunLast(st, sz, zero, chunks, fft, log10);
      var prev := Run(st, sz, zero, chunks[..k], fft, log10);
      var input := Filled(zero, sz, chunks);
      BufferPowersGeometry(st, prev.0, input, fft);
      Spectrum.TallyAppend(st.accu, AllPowers(st, sz, zero, chunks[..k], fft), BufferPowers(st, input, fft), log10);
    }
  }

  /** Across buffers, `(accn + k * ffts_per_buf) div averages` records have
      been written after `k` reads, one per `averages` FFTs, and the
      remainder is still counted. */
  lemma RunCounts<T>(st: DspState, sz: InputBufferSize, zero: T, chunks: seq<seq<T>>, fft: seq<T> -> seq<Complex>, log10: real -> real)
    requires sz.total == sz.overlap + sz.newLen && ChunkSized(chunks, sz.newLen) && InputFits(st, sz.total) && Chunkable(st)
    requires st.accu.averages >= 1 && st.accu.accn < st.accu.averages
    ensures var r := Run(st, sz, zero, chunks, fft, log10);
      && |r.1| == (st.accu.accn + |chunks| * st.fftsPerBuf) / st.accu.averages
      && r.0.accu.accn == (st.accu.accn + |chunks| * st.fftsPerBuf) % st.accu.averages
  {
    var ps := AllPowers(st, sz, zero, chunks, fft);
    RunIsTally(st, sz, zero, chunks, fft, log10);
    AllPowersLength(st, sz, zero, chunks, fft);
    Spectrum.TallyCounts(st.accu, ps, log10);
    var r := Run(st, sz, zero, chunks, fft, log10);
    CountsJoin(|ps|, |chunks|, st.fftsPerBuf, st.accu.accn, st.accu.averages, |r.1|, r.0.accu.accn);
  }

  /** `TallyCounts` restated for a result count known to be `k * f`. */
  lemma CountsJoin(len: int, k: int, f: int, a: int, m: int, q: int, r: int)
    requires m >= 1 && len == k * f && q == (a + len) / m && r == (a + len) % m
    ensures q == (a + k * f) / m && r == (a + k * f) % m
  {
  }

  /** Non-negative bins stay non-negative through the whole loop. */
  lemma {:induction false} RunNonNegative<T>(st: DspState, sz: InputBufferSize, zero: T, chunks: seq<seq<T>>, fft: seq<T> -> seq<Complex>, log10: real -> real)
    requires sz.total == sz.overlap + sz.newLen && ChunkSized(chunks, sz.newLen) && InputFits(st, sz.total) && Chunkable(st)
    requires Spectrum.NonNegative(st.accu.acc)
    ensures Spectrum.NonNegative(Run(st, sz, zero, chunks, fft, log10).0.accu.acc)
    decreases |chunks|
  {
    if |chunks| > 0 {
      var k := |chunks| - 1;
      RunNonNegative(st, sz, zero, chunks[..k], fft, log10);
      ProcessNonNegative(Run(st, sz, zero, chunks[..k], fft, log10).0, Filled(zero, sz, chunks), fft, log10);
    }
  }
}
