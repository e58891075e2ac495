# Spektri DSP core in Dafny

This project models the signal-processing core of Spektri, a software-defined
radio pipeline, and proves properties of that model:

- the **rational digital downconverter** of `tools/ddc.py`. It has a
  lookup-table local oscillator driven by exact integer phase indices and a
  polyphase rational resampler over a double-written history buffer. It also
  covers `DesignDdc`, which reduces rates and frequency to exact fractions;
- the **SSB demodulator and its AGC** of `tools/demodulator.py`. They follow
  the Weaver method: DDC, IIR low-pass, a second mixer, and an
  attack/release AGC on the power `|s|^2` with a hard clip;
- the **spectrum bookkeeping** of `spektri/src/dsp.rs`,
  `spektri/src/dsp/spectrum.rs` and `spektri/src/dsp/fftutil.rs`:
  - overlapping FFT windows and buffer sizing;
  - carrying the overlap between input buffers (`spektri/src/main.rs`);
  - FFT-bin wrap indexing with conjugate symmetry;
  - the frequency-domain Hann window;
  - the count/emit/reset averaging state machine;
  - the clamped U8/U16 record encoding;
- the **wire formats** of `spektri/src/dsp/data.rs`,
  `spektri/src/dsp/output.rs`, `tools/spektri.py` and
  `spektri/src/inputformats.rs`:
  - the `DataFormat` bitfield codes;
  - the 24-byte metadata header and topics;
  - the Python topic builders, proved byte-for-byte equal to the Rust ones;
  - the raw input-sample decoders.

## How the model is built

Samples are pairs of Dafny `real`s (`ComplexNumbers.Complex`). The model
receives as parameters every function the code calls but does not define:

- `cos`, `sin`, `sqrt`, `log10`;
- scipy's `firwin`, `butter`, `lfilter` and `lfiltic`;
- the FFT with its window;
- the `f32` bit-pattern decoder.

The model relies only on the properties stated in `Collaborators`:

- `sqrt` is the non-negative root;
- `firwin` returns the requested number of taps;
- `lfilter` returns one output per input.

Each stateful component is written in the same way:

- a datatype for its state;
- a pure per-sample (or per-result) step function;
- a fold of that step over a sequence.

The main theorems relate the fold to an independent description:

| Fold | Independent description |
|---|---|
| DDC `Run` | closed-form phases `(n*L) mod M` and the mixed stream |
| spectrum `Tally` | Welch's block `Averages` |
| main loop `Run` | one tally over all windows of the stream |
| `Output.SerializeMetadata` | the `data.rs` copy |
| Python topics | the Rust topics |

`Ddc.Execute`, `Agc.Execute`, `InputFormats.ConvertToF32` and
`InputFormats.ConvertToCf32` are the source loops as methods. Their loop
invariants prove them equal to the folds.

Modules, one per source component:

| Module | Models |
|---|---|
| `Ddc`, `DdcHistory` | `RationalDdc` and `_sinewave` |
| `DdcDesign` | `DesignDdc` |
| `Fractions` | Python's `Fraction` |
| `Agc` | `SsbAgc` |
| `Demodulator` | `SsbDemodulator` |
| `FftUtil` | `get_bin` |
| `Spectrum` | `spectrum.rs`, plus the shared accumulator and record encoding |
| `Dsp` | `dsp.rs` and the overlap handling of `main.rs` |
| `InputFormats` | `inputformats.rs` |
| `Data` | `data.rs` |
| `Output` | `output.rs` |
| `SpektriPy` | `tools/spektri.py` |
| `Arith`, `Bytes`, `ComplexNumbers`, `Collaborators`, `Results` | support |

### Notes on the source

- **Oscillator at frequency 0.** `_sinewave(0, den)` calls
  `np.arange(0, 0, 0)`, which raises. So `Ddc.SineWave` requires
  `num != 0`, and `DesignDdc` with `fc == 0` is the error `ZeroFrequency`.
- **AGC tracking.** The SSB AGC tracks the power `s.real**2 + s.imag**2`,
  not the magnitude, and so does `Agc.Track`.
- **Second mixer.** The second mixer runs at `freq_num=3*sideband,
  freq_den=32` cycles per sample.
- **Channel filter.** The channel filter `lfilter` runs at 16 kHz and does
  not decimate.
- **Ratio above 11.** `DesignDdc` then asks `firwin` for
  `(11*decim) // interp * interp == 0` taps. The empty filter is accepted
  by `RationalDdc.__init__` with `firlen == 0`, so the design succeeds. The
  converter returns nothing for an empty input and raises on its first
  sample, at `% self.firlen` (`Ddc.Call`, `DdcDesign.DesignedFirstSample`).
- **`get_bin` arity.** `spectrum.rs` calls `get_bin` with four arguments
  (line 70), but `fftutil.rs` defines it with three. The model uses the
  three-argument `fftutil.rs` function and takes the FFT size from
  `spectrum.rs` lines 65-69.

## Model

| member | source | states |
|---|---|---|
| Ddc.ArangeLength | tools/ddc.py:23-24 | `arange(0, num*den, num)` has exactly `den` elements, element `k` being `k*num`, for negative `num` as well |
| Ddc.SineWave | tools/ddc.py:16-26 | the oscillator table has `den` entries, entry `k` at the integer phase index `(k*num) mod den`; `num == 0` is excluded because `arange` cannot take step 0 |
| Ddc.New | tools/ddc.py:45-84 | `firlen * L == len(taps)`; with at least one full branch of taps the new converter is valid, its two history halves are mirrored, its filter window is all zeros, and both phases are 0; with no taps it is the untapped converter (`firlen == 0`, empty history); the taps are the given reals; the oscillator table is the one for `freq_num/freq_den` |
| Ddc.Branch | tools/ddc.py:105-108 | branch `p < L` of `taps[p::L]` has exactly `firlen` taps, the `j`-th at index `p + j*L`, always inside the tap vector |
| Ddc.PolyDotIsDot | tools/ddc.py:105-108 | the indexed sum the model uses equals `np.dot(window, taps[p::L])` |
| Ddc.RemQuotIsDivMod | tools/ddc.py:100-104 | repeated subtraction of `M` from the phase leaves `phase mod M` and runs `phase div M` times |
| Ddc.DrainCount | tools/ddc.py:100-109 | one input sample emits `(fir_phase + L) div M` outputs and leaves `fir_phase == (fir_phase + L) mod M` |
| Ddc.DrainOutputs | tools/ddc.py:101-108 | output `k` of a sample uses the branch `fir_phase + L - (k+1)*M`, which lies in `[0, L)` as the source asserts |
| Ddc.NextIsMod | tools/ddc.py:93-98 | the cursor advance is `(i + 1) % n` |
| Ddc.PushWindow | tools/ddc.py:97-98 | writing a sample at `i` and `i + firlen` keeps the halves mirrored; the window at the advanced cursor is the old window shifted by one with the new sample last |
| Ddc.Step | tools/ddc.py:90-109 | between samples `fir_i < firlen`, `fir_phase < decimation` and `lo_phase < len(lo_table)`; the taps, factors and table never change |
| Ddc.StepLoPhase | tools/ddc.py:93 | each sample advances the oscillator cursor by one table entry, wrapping at the table length |
| Ddc.StepWindow | tools/ddc.py:97-98 | each sample keeps `firbuf[k] == firbuf[k + firlen]` and shifts the filter window by the new mixed sample |
| Ddc.StepPhase | tools/ddc.py:100-109 | each sample adds `L` to the filter phase; every whole `M` is one output, and the remainder carries over |
| Ddc.StepOutputs | tools/ddc.py:100-109 | every output is the updated window dotted with the branch its remaining phase selects, and that branch index is below `L` |
| Ddc.Run | tools/ddc.py:86-111 | a whole call keeps the state valid and the configuration unchanged |
| Ddc.RunLoPhase | tools/ddc.py:92-93 | after `n` samples the oscillator cursor is `(lo_phase + n) mod len(lo_table)` |
| Ddc.RunFirPhase | tools/ddc.py:100-109 | after `n` samples `fir_phase == (fir_phase0 + n*L) mod M`, and `(fir_phase0 + n*L) div M` outputs have been emitted |
| Ddc.RunAppend | tools/ddc.py:86-111 | chunking invariance: `execute(a)` then `execute(b)` gives the outputs and the final state of `execute(a + b)` |
| Ddc.DrainInto | tools/ddc.py:101-110 | the inner `while` loop writes exactly the drained outputs at `output[outn..]` and returns the remaining phase |
| Ddc.ExecuteSample | tools/ddc.py:90-110 | one pass of the `for` loop body appends that sample's outputs and yields the next state |
| Ddc.Call | tools/ddc.py:86-111 | the outcome of one `execute` call on any converter `__init__` builds: an untapped converter returns nothing for an empty input and raises `ModuloByZero` for any other; a tapped one raises `OutputOverflow` exactly when its `(fir_phase + n*L) div M` outputs exceed 10000, and otherwise returns what `Run` defines |
| Ddc.Execute | tools/ddc.py:86-111 | the source loop over a fixed 10000-entry array returns what `Run` defines, with exactly `(fir_phase + n*L) div M` outputs, whenever that count fits the array |
| DdcHistory.MixedStreamAppend | tools/ddc.py:92-93 | the samples of a second call are mixed exactly as in one call on the concatenated input |
| DdcHistory.RunWindow | tools/ddc.py:95-106 | after any input the history stays mirrored, and the filter window is the newest `firlen` mixed samples, oldest first |
| DdcHistory.FreshWindow | tools/ddc.py:75-77 | from a new converter, the window holds zeros for the positions before the stream started |
| DdcHistory.SampleWindow | tools/ddc.py:97-106 | the window input sample `i` is filtered with is the newest `firlen` mixed samples up to and including sample `i` |
| DdcHistory.SampleOutputs | tools/ddc.py:97-108 | every output of sample `i` is the dot product of those `firlen` mixed samples with the polyphase branch its phase selects |
| DdcHistory.FreshCounts | tools/ddc.py:100-109 | from a new converter, `n` inputs give `(n*L) div M` outputs and leave `fir_phase == (n*L) mod M` |
| DdcHistory.FreshMixPhase | tools/ddc.py:23-26 | sample `k` of a new converter's stream is mixed with the table entry of integer phase index `(k*num) mod den` |
| DdcHistory.NoDrift | tools/ddc.py:92-93 | no drift: however the stream is split into calls, overall sample `n` is mixed at phase index `(n*num) mod den` |
| DdcHistory.MixerStep | tools/ddc.py:100-108 | with one unit tap and `L == M == 1`, a sample gives exactly one output: the sample times the oscillator |
| DdcHistory.UnitFilterIsMixer | tools/demodulator.py:71 | the unit-tap, unit-ratio converter is a pure mixer: one output per input, equal to the mixed stream |
| DdcHistory.TestLo | tools/ddc.py:140-145 | `test_lo`: ten unit inputs at `3/7` cycles per sample give the table entries of phase indices `3k mod 7` |
| DdcDesign.TapCount | tools/ddc.py:125-126 | the tap count `(11*decim)//interp*interp` is a multiple of `interp` and at most `11*decim` |
| DdcDesign.Resampling | tools/ddc.py:122-123 | `interp/decim` is `fs_out/fs_in` in lowest terms |
| DdcDesign.Frequency | tools/ddc.py:120 | `freq_num/freq_den` is `-fc/fs_in` in lowest terms |
| DdcDesign.WholeIffDenOne | tools/ddc.py:123-127 | a reduced fraction has denominator 1 exactly when its value is whole; `decim == 1` means an integer ratio, and then the `firwin` cutoff is 1.0 |
| DdcDesign.NoTapsIffAboveEleven | tools/ddc.py:125-126 | the filter gets no taps exactly when the ratio `L/M` exceeds 11 |
| DdcDesign.DesignPlan | tools/ddc.py:114-126 | for rates given as exact fractions, a successful plan has the reduced ratio and frequency, `decim >= 2`, `num != 0`, and a tap count divisible by `interp` and at most `11*decim` (zero allowed); `fs_in == 0` is exactly the division-by-zero error |
| DdcDesign.RateFacts | tools/ddc.py:116-126 | each test on the reduced fractions is a fact about the rates: positive ratio, zero frequency, whole ratio, ratio above 11 |
| DdcDesign.DesignPlanOutcome | tools/ddc.py:114-137 | `DesignDdc` raises for a non-positive ratio, a whole ratio or `fc == 0`, and succeeds exactly otherwise (both directions); on success the filter has no taps exactly when the ratio exceeds 11 |
| DdcDesign.Build | tools/ddc.py:125-137 | the converter built from a plan with taps is new and valid, and from a plan without taps is the untapped converter; it has the plan's factors, the oscillator table for the plan's frequency, and the `firwin` prototype (cutoff `1/decim`) times `interp` as taps |
| DdcDesign.DesignDdc | tools/ddc.py:114-137 | it fails exactly when the plan fails, with the same error; on success the converter is valid or untapped, `L/M == fs_out/fs_in` exactly and there are at most `11*M` taps |
| DdcDesign.DesignedFirstSample | tools/ddc.py:71-98 | a designed converter is ready to run exactly when the ratio is at most 11; above 11 it has no taps and every non-empty call raises the division by zero at `% self.firlen` |
| DdcDesign.TestDefaults | tools/ddc.py:148 | the defaults 1000 → 300 Hz around 150 Hz give `L=3`, `M=10`, oscillator `-3/20`, 108 taps |
| DdcDesign.FractionalRate | tools/ddc.py:116-127 | a rate that is not whole, `Fraction(1000.5) == 2001/2` → 300 Hz around 150 Hz, gives `L=200`, `M=667`, oscillator `-100/667`, 7200 taps |
| DdcDesign.DemodulateDefaults | tools/demodulator.py:62 | 500 kHz → 16 kHz with `fc = 72500` gives `L=4`, `M=125`, oscillator `-29/200`, 1372 taps |
| Agc.Track | tools/demodulator.py:30-36 | the new average power lies between the old average and the sample's power; when the power is at or above the average, the average moves exactly when the two differ |
| Agc.ClipBounded | tools/demodulator.py:45-48 | after the clip the power is at most 1; a sample of power at most 1 is untouched; the clip only scales by a factor in `[0, 1]` |
| Agc.Step | tools/demodulator.py:26-50 | the new average is the tracked power, and a non-positive average gives a zero output sample |
| Agc.StepOutput | tools/demodulator.py:38-50 | every output has squared magnitude at most 1 and is the input times a non-negative real (phase preserved) |
| Agc.StepSilence | tools/demodulator.py:30-43 | from `pa >= 0` the average stays non-negative; it is zero exactly for a zero-power sample on a zero average |
| Agc.Run | tools/demodulator.py:19-53 | the output has the same length as the input |
| Agc.RunAppend | tools/demodulator.py:19-53 | `pa` persists across calls, so chunked AGC gives exactly the unchunked outputs and final average |
| Agc.RunBounded | tools/demodulator.py:26-50 | over a block from `pa >= 0`, the average stays non-negative and every output has power at most 1 |
| Agc.Execute | tools/demodulator.py:19-53 | the source loop returns the fold's outputs, of the input's length, and stores the final average |
| Demodulator.Sideband | tools/demodulator.py:59 | `+1` exactly for `"usb"`, `-1` for every other string |
| Demodulator.New | tools/demodulator.py:58-73 | construction fails exactly when `DesignDdc(fs_in, 16000, fc_demod + 1500*sideband - fc_in)` fails, with its error; on success the DDC is that design, and the demodulator is ready exactly when that DDC has taps (otherwise the DDC is untapped), the filter is `butter(4, 1400, fs=16000)` with its initial state from `lfiltic`, the mixer has one unit tap at `3*sideband/32`, and the AGC starts at 0 |
| Demodulator.DemodulateReceiver | tools/demodulate.py:25 | the receiver used there gets `L/M = 4/125`, 1372 taps, a DDC oscillator at `-29/200` and a second oscillator at `-3/32` |
| Demodulator.Execute | tools/demodulator.py:75-80 | `execute` keeps the IIR coefficients `b` and `a`; what it outputs, and that the demodulator stays ready, is stated by `Demodulator.ExecuteStages` and `Demodulator.ExecuteBounded` |
| Demodulator.ExecuteStages | tools/demodulator.py:75-80 | one audio sample per DDC output, each the real part of the AGC applied to the filtered stream mixed with the second oscillator |
| Demodulator.ExecuteBounded | tools/demodulator.py:75-80 | for a ready demodulator and any input whose DDC outputs fit the 10000-entry array, every audio sample lies in `[-1, 1]`, and the demodulator stays ready for the next call |
| Demodulator.MixerKeeps | tools/demodulator.py:71 | the second mixer stays a unit-tap, unit-ratio converter across calls |
| FftUtil.TruncRem | spektri/src/dsp/fftutil.rs:12 | Rust's `%` truncates: the remainder lies strictly between `-n` and `n` and is non-negative for a non-negative dividend |
| FftUtil.WrapIsMod | spektri/src/dsp/fftutil.rs:12 | `((i % n) + n) % n` is the Euclidean `i mod n` in `[0, n)`, also for negative `i` |
| FftUtil.WrapPeriodic | spektri/src/dsp/fftutil.rs:12 | the wrapped index is periodic in `n` |
| FftUtil.WrapNegate | spektri/src/dsp/fftutil.rs:18-22 | the index of `-i` is `n - (i mod n)` when `i mod n != 0` |
| FftUtil.GetBin | spektri/src/dsp/fftutil.rs:9-23 | `get_bin(i)` is the stored bin `i mod n` (Euclidean, also for negative `i`) when it is stored, and otherwise the conjugate of the mirror bin `n - (i mod n)`, which then lies in `(0, len)`; the partners `FftUtil.FullSpectrum`, `FftUtil.GetBinPeriodic` and `FftUtil.HalfSpectrumSymmetric` state its behaviour on full and half spectra |
| FftUtil.FullSpectrum | spektri/src/dsp/fftutil.rs:14-17 | when the result holds all `n` bins, `get_bin(i)` is `result[i mod n]` |
| FftUtil.HalfSpectrumInBounds | spektri/src/dsp/fftutil.rs:18-22 | with a half spectrum of even size `n`, every index is readable, and the mirror index `n - m` lies in `[1, n/2]` |
| FftUtil.GetBinPeriodic | spektri/src/dsp/fftutil.rs:9-23 | `get_bin(i + n) == get_bin(i)` |
| FftUtil.HalfSpectrumSymmetric | spektri/src/dsp/fftutil.rs:18-22 | with a half spectrum, `get_bin(-i)` is the conjugate of `get_bin(i)` away from bins 0 and `n/2` |
| Spectrum.Clamp | spektri/src/dsp/spectrum.rs:104 | `max(lo).min(hi)` lies in `[lo, hi]` and is the identity inside it |
| Spectrum.QuantU16 | spektri/src/dsp/spectrum.rs:104 | the U16 code is clamped to 12 bits, `[0, 4095]` |
| Spectrum.QuantU8 | spektri/src/dsp/spectrum.rs:113 | the U8 code is clamped to `[0, 255]` |
| Spectrum.QuantScale | spektri/src/dsp/spectrum.rs:102-113 | inside the scale a code is the truncated `db*20 + 4000` (U16) or `db*2 + 250` (U8); a louder bin never gets a lower code |
| Spectrum.Codes | spektri/src/dsp/spectrum.rs:97-115 | one code per bin, each within its format's byte range |
| Spectrum.Serialize | spektri/src/dsp/spectrum.rs:91-115 | a record has `bins * 2` bytes for U16 and `bins` bytes for U8 |
| Spectrum.U16Bytes | spektri/src/dsp/spectrum.rs:104-106 | each U16 code is written big-endian: `out[0] == o / 256`, `out[1] == o % 256` |
| Spectrum.SerializeRoundTrip | spektri/src/dsp/spectrum.rs:99-115 | reading a record back gives every code; the first byte of a 12-bit code is below 16 |
| Spectrum.Record | spektri/src/dsp/spectrum.rs:88-116 | the record written has `BytesPerBin` bytes per accumulator bin |
| Spectrum.RecordBins | spektri/src/dsp/spectrum.rs:91-115 | each entry of a record is the quantised dB of that bin's summed power minus `10 log10(accn)`; U16 entries have a first byte below 16 |
| Spectrum.Init | spektri/src/dsp/spectrum.rs:42-55 | `init` gives `n` zero bins, nothing counted, and keeps `averages` and the format; `Spectrum.AccumulateFromInit` states what accumulating from it writes |
| Spectrum.Feed | spektri/src/dsp/spectrum.rs:83-123 | one result writes at most one record and keeps the bin count and parameters |
| Spectrum.FeedStep | spektri/src/dsp/spectrum.rs:83-123 | a record is written exactly when `accn + 1 >= averages`; it carries the sums including this result, and the state then resets to zero bins and `accn = 0`; otherwise the sums grow and `accn` increases by 1 |
| Spectrum.Tally | spektri/src/dsp/spectrum.rs:62-124 | the loop over FFT results keeps the bin count and the parameters |
| Spectrum.TallyAppend | spektri/src/dsp/spectrum.rs:62-124 | results may arrive in any grouping: tallying `ps` then `qs` is tallying `ps + qs` |
| Spectrum.TallyCounts | spektri/src/dsp/spectrum.rs:62-124 | with `averages >= 1`, `k` results from `accn0` write `(accn0 + k) div averages` records and leave `accn == (accn0 + k) mod averages` |
| Spectrum.TallyZeroAverages | spektri/src/dsp/spectrum.rs:85-87 | with `averages == 0`, every result is written out on its own |
| Spectrum.AveragesCount | spektri/src/dsp/spectrum.rs:85-87 | Welch's averaging gives `|ps| div m` records, and `|ps| mod m` results are left over |
| Spectrum.TallyPartial | spektri/src/dsp/spectrum.rs:74-87 | fewer than `averages` results from `init` write nothing and leave their bin-wise sum and count |
| Spectrum.TallyBlock | spektri/src/dsp/spectrum.rs:83-123 | exactly `averages` results from `init` write one record of their summed powers and return to `init` |
| Spectrum.TallyIsAverages | spektri/src/dsp/spectrum.rs:62-124 | from `init`, the records written are Welch's block averages, and the state holds the sum and count of the leftover results |
| Spectrum.TallyNonNegative | spektri/src/dsp/spectrum.rs:79-83 | accumulated bins stay non-negative |
| Spectrum.RealResultIsHalf | spektri/src/dsp/spectrum.rs:65-69 | a real result of length `len` is the half spectrum of an FFT of even size `(len - 1) * 2` |
| Spectrum.ReadableBins | spektri/src/dsp/spectrum.rs:65-70 | for every result shape that does not panic, the derived FFT size is positive and every `getbin` index is in bounds |
| Spectrum.HannPowers | spektri/src/dsp/spectrum.rs:74-84 | each result adds one non-negative power per bin |
| Spectrum.HannCircular | spektri/src/dsp/spectrum.rs:77-81 | the `(-0.5, 1, -0.5)` convolution is circular: periodic in the FFT size, and for complex input it combines `result[(i-1) mod n]`, `result[i mod n]` and `result[(i+1) mod n]` |
| Spectrum.HannRealEdge | spektri/src/dsp/spectrum.rs:77-81 | for a real FFT, the neighbour below bin 0 is read as the conjugate of bin 1 |
| Spectrum.ResultPowers | spektri/src/dsp/spectrum.rs:62-84 | one non-negative power row of the accumulator's width per FFT result |
| Spectrum.Accumulate | spektri/src/dsp/spectrum.rs:57-126 | `accumulate` keeps the input kind, the bin count, `averages` and the format; what it writes is stated by `Spectrum.AccumulateFromInit` and `Spectrum.AccumulateAppend` |
| Spectrum.AccumulateAppend | spektri/src/dsp/spectrum.rs:57-126 | the state persists between calls, so splitting the FFT results over two `accumulate` calls gives the same records and final state as one call |
| Spectrum.AccumulateFromInit | spektri/src/dsp/spectrum.rs:42-126 | from `init`, `accumulate` writes `|results| div averages` records, which are Welch's averages of the windowed powers; it leaves `accn == |results| mod averages` and non-negative bins |
| Dsp.Init | spektri/src/dsp.rs:54-74 | the state keeps the FFT size and the number of FFTs per buffer |
| Dsp.Windows | spektri/src/dsp.rs:85-87 | `ffts_per_buf` windows, each of `fft_size` samples |
| Dsp.WindowGeometry | spektri/src/dsp.rs:55-73 | `total == overlap + new` and `fft_size == interval + overlap`; every window lies in the buffer and the last ends exactly at `total`; consecutive windows share exactly `overlap` samples |
| Dsp.ChunksFlatten | spektri/src/dsp.rs:81 | `chunks_mut` covers the buffer in order without gaps |
| Dsp.ChunksExact | spektri/src/dsp.rs:81 | a buffer of `count * size` entries splits into exactly `count` chunks of `size` |
| Dsp.ResultChunks | spektri/src/dsp.rs:57-81 | the result buffer splits into exactly `ffts_per_buf` slices of `result_bins` (`fft_size`, or `fft_size/2 + 1` for real input), and the accumulator has `result_bins` bins |
| Dsp.Refill | spektri/src/main.rs:84-91 | the copied overlap plus the converted new samples fill exactly `total` entries |
| Dsp.FilledIsLatest | spektri/src/main.rs:82-94 | no sample is lost or repeated: after every read the buffer holds the latest `total` samples of the zero-padded stream |
| Dsp.WindowsOfStream | spektri/src/main.rs:82-94 | after each read, window `i` is the stream segment starting `i` intervals after the buffer's first sample |
| Dsp.Powers | spektri/src/dsp.rs:144-148 | one non-negative power per accumulator bin |
| Dsp.BufferPowers | spektri/src/dsp.rs:83-89 | `ffts_per_buf` non-negative power rows per buffer, of the accumulator's width |
| Dsp.ChunkablePanics | spektri/src/dsp.rs:76-98 | the accumulator width of a new state is the chunk size `process_complex`/`process_real` pass to `chunks_mut`, and it is zero exactly for complex input with `fft_size == 0`, the one configuration that panics |
| Dsp.Process | spektri/src/dsp.rs:76-110 | for a positive chunk size, processing changes only the accumulator (the scratch result buffer is not threaded through) and keeps its width and parameters |
| Dsp.ProcessCounts | spektri/src/dsp.rs:141-187 | one buffer writes `(accn + ffts_per_buf) div averages` records and leaves `accn == (accn + ffts_per_buf) mod averages` |
| Dsp.ProcessNonNegative | spektri/src/dsp.rs:144-148 | accumulated bins stay non-negative |
| Dsp.Run | spektri/src/main.rs:82-94 | for a positive chunk size, the main loop changes only the accumulator |
| Dsp.AllPowersLength | spektri/src/main.rs:82-94 | each read feeds exactly `ffts_per_buf` FFT results |
| Dsp.RunIsTally | spektri/src/main.rs:82-94 | buffer boundaries are invisible: the main loop is one tally over the powers of all windows, in stream order |
| Dsp.RunCounts | spektri/src/dsp.rs:141-187 | after `k` reads, `(accn + k*ffts_per_buf) div averages` records have been written and the remainder is still counted |
| Dsp.RunNonNegative | spektri/src/dsp.rs:144-148 | bins stay non-negative through the whole loop |
| InputFormats.BytesPerInputSample | spektri/src/inputformats.rs:27-42 | a sample takes 1, 2, 4 or 8 bytes, and a complex one an even number of at least 2; `InputFormats.FormatsPairUp` states it is twice its part format's |
| InputFormats.IsComplex | spektri/src/inputformats.rs:44-59 | a format is complex exactly when it is none of the six real formats; `InputFormats.FormatsPairUp` pairs each complex format with one real format |
| InputFormats.Scaling | spektri/src/inputformats.rs:61-77 | the factor lies in `(0, 1]`, so integer samples shrink towards `[-1, 1]`; `InputFormats.ScalingByWidth` gives its exact value by number width |
| InputFormats.FormatsPairUp | spektri/src/inputformats.rs:27-59 | each complex format is the complex version of a real one, with twice the bytes per sample and the same scaling; the complex formats are exactly those (both directions) |
| InputFormats.NumberBytes | spektri/src/inputformats.rs:27-42 | every number is 1, 2 or 4 bytes wide |
| InputFormats.ScalingByWidth | spektri/src/inputformats.rs:62-77 | scaling depends only on the number width: `1/127` for 8-bit, `1/32767` for 16-bit, 1 for floats |
| InputFormats.Signed | spektri/src/inputformats.rs:88-101 | two's-complement reading gives a value in `[-2^(8n-1), 2^(8n-1))` |
| InputFormats.BigEndianIsSwapped | spektri/src/inputformats.rs:93-101 | S16le reads `b0 + 256*b1` as signed, and S16be reads the byte-swapped value |
| InputFormats.S16RoundTrip | spektri/src/inputformats.rs:93-101 | every 16-bit value survives encoding and decoding in both byte orders |
| InputFormats.DecodedRange | spektri/src/inputformats.rs:83-101 | U8 decodes to `[-127.4, 127.6]`, S8 to `[-128, 127]`, and the 16-bit formats to `[-32768, 32767]` |
| InputFormats.ConvertToF32 | spektri/src/inputformats.rs:80-115 | `dst[k]` is the number decoded from bytes `[k*w, (k+1)*w)`, for a real format and a long enough `src` |
| InputFormats.ComplexAtOffset | spektri/src/inputformats.rs:120-126 | complex sample `k` takes its real part from the number at byte `2kw` and its imaginary part from the next one |
| InputFormats.ConvertToCf32 | spektri/src/inputformats.rs:117-170 | `dst[k]` is the interleaved pair of numbers `2k` and `2k + 1` of the part format, consuming `bytes_per_input_sample * n` bytes |
| InputFormats.ComplexIsInterleaved | spektri/src/inputformats.rs:120-166 | complex conversion is exactly real conversion of twice as many numbers, paired up (both directions) |
| Data.BitsField | spektri/src/dsp/data.rs:66-74 | the width field of every supported width is in `2..7` |
| Data.UnpackPack | spektri/src/dsp/data.rs:55-77 | the documented bitfield loses nothing: unpacking a packed layout gives it back |
| Data.CodesFollowBitfield | spektri/src/dsp/data.rs:55-96 | every `DataFormat` code is the documented bitfield of its description: real/complex, number kind, width field, endianness |
| Data.CodesDistinct | spektri/src/dsp/data.rs:81-95 | no two formats share a code |
| Data.ComplexCodeOffset | spektri/src/dsp/data.rs:82-95 | each complex code equals its real counterpart's code plus `0x40` |
| Data.WriteLe | spektri/src/dsp/data.rs:125-129 | `write_with(.., LE)` succeeds exactly when the field fits; it then writes the little-endian bytes and advances `offset` by the width; on failure nothing changes |
| Data.SinceEpoch | spektri/src/dsp/data.rs:118-123 | the seconds fit a u64 and the nanoseconds a u32 |
| Data.MetadataBytes | spektri/src/dsp/data.rs:125-129 | the header is 24 bytes |
| Data.SerializeMetadata | spektri/src/dsp/data.rs:110-132 | `serialize_metadata` keeps the buffer length; `Data.SerializeMetadataWrites` states when it succeeds and what it writes |
| Data.SerializeMetadataWrites | spektri/src/dsp/data.rs:110-132 | `serialize_metadata` succeeds exactly when 24 bytes remain after `offset`; it writes `seq`, `secs`, `nanos` and 0, advances `offset` by 24 and leaves all other bytes alone; on failure, bytes before `offset` are untouched |
| Data.MetadataFields | spektri/src/dsp/data.rs:125-129 | the header reads back as `seq` at 0, `secs` at 8, `nanos` at 16 and 0 at 20 |
| Data.PreEpochIsZero | spektri/src/dsp/data.rs:118-123 | a time before the epoch is written as zero seconds and zero nanoseconds |
| Data.TopicLayout | spektri/src/dsp/data.rs:140-152 | both `write_with(..).unwrap()` calls succeed, and the topic is the 8 header bytes followed by the two doubles |
| Data.SerializeSignalTopic | spektri/src/dsp/data.rs:137-153 | the signal topic is 24 bytes; `Data.SignalTopicLayout` states its contents |
| Data.SignalTopicLayout | spektri/src/dsp/data.rs:137-153 | the signal topic is `[2, 0x40, 0x5C, 0, 0, 0, 0, 0]`, then `fs` and `fc` as LE doubles that read back as written |
| Data.SerializeSpectrumTopic | spektri/src/dsp/data.rs:157-171 | the spectrum topic is 24 bytes; `Data.SpectrumTopicLayout` states its contents |
| Data.SpectrumTopicLayout | spektri/src/dsp/data.rs:157-171 | the spectrum topic is `[2, 0x60, 0x24, 0, 0, 0, 0, 0]`, then `fd` and `f0` as LE doubles |
| Output.WriteAllFits | spektri/src/dsp/output.rs:79-85 | writes that fit succeed, lay their fields out back to back and touch nothing else |
| Output.WriteAllFails | spektri/src/dsp/output.rs:79-83 | writes that do not fit fail, and bytes before `offset` are untouched |
| Output.MetadataFields | spektri/src/dsp/output.rs:72-83 | the four fields fit their widths and total 24 bytes |
| Output.FieldsAreHeader | spektri/src/dsp/output.rs:79-83 | the fields are `seq`, `secs`, `nanos` and 0, encoding to the same 24 bytes as the `data.rs` header |
| Output.SerializeMetadata | spektri/src/dsp/output.rs:63-86 | the `output.rs` `serialize_metadata` keeps the buffer length; `Output.SerializeMetadataWrites` and `Output.SameAsData` state what it writes and that it agrees with the `data.rs` copy |
| Output.SameAsData | spektri/src/dsp/output.rs:63-86 | the `output.rs` copy gives the same buffer, offset and outcome as the `data.rs` copy for every input |
| Output.SerializeMetadataWrites | spektri/src/dsp/output.rs:63-86 | it succeeds exactly when 24 bytes remain after `offset`; it then writes the header, advances by 24 and leaves every other byte as it was |
| SpektriPy.PackDouble | tools/spektri.py:20 | `struct.pack("<d")` gives 8 bytes |
| SpektriPy.SignalTopic | tools/spektri.py:14-20 | the Python signal topic is 24 bytes |
| SpektriPy.SignalTopicAgrees | tools/spektri.py:20 | the Python signal topic equals `serialize_signal_topic` byte for byte, so it matches the Rust publisher |
| SpektriPy.SignalTopicSelects | tools/spektri.py:37 | a signal subscription matches a published signal topic exactly when `fs` and `fc` are the same |
| SpektriPy.SpectrumTopicMatches | tools/spektri.py:23-28 | the spectrum subscription matches every Rust spectrum topic and no signal topic |
| SpektriPy.Payload | tools/spektri.py:42 | `msg[24:]` drops 24 bytes, or gives the empty string for a shorter message |
| SpektriPy.PayloadAfterMetadata | tools/spektri.py:42 | the payload starts exactly after the 24-byte metadata, untouched by the header write |

## Left out

- Floating point: `float32` rounding, NaN and infinities are not modelled.
  Samples, powers and gains are exact reals. Integers are unbounded, so
  `u32`/`u64`/`usize` overflow of counters and sizes is not modelled.
- Spectrum.QuantU16: the model does not follow `log10(0) = -inf` through the
  float cast. `log10` is a parameter returning a real, and the saturating
  `as u16`/`as u8` casts are modelled as truncation of the clamped value.
- `cos`, `sin`, `sqrt`, `log10`, scipy's `firwin`, `butter`, `lfilter` and
  `lfiltic`, and the `f32` bit-pattern decoder are parameters, because they
  are foreign numerics.
- The FFT is a parameter of `Dsp`. It is assumed to turn window `i` into
  result slice `i`, with the window function multiplied in.
  - `MultiFft` and `rustfft` are not part of this model.
  - `hann_window` and the `scaling` it folds in are not part of this model.
- Demodulator.Execute: its own contract states only that the filter
  coefficients do not change. The stage order and the output bound are
  proved in `Demodulator.ExecuteStages` and `Demodulator.ExecuteBounded`.
  Chunking invariance of the demodulator is not proved, because it depends
  on the filter state `lfilter` returns, which is opaque.
- Dsp.Process and Dsp.Run, with Dsp.ProcessCounts, Dsp.ProcessNonNegative,
  Dsp.RunIsTally, Dsp.RunCounts and Dsp.RunNonNegative: they require a
  positive chunk size (`Dsp.Chunkable`). With complex input and
  `fft_size == 0`, `process_complex` panics at `chunks_mut(0)`, and the
  model does not return that panic. `Dsp.ChunkablePanics` shows this is
  the only configuration excluded. The scratch buffer `fft_result_buf`,
  which the FFT overwrites before anything reads it, is not threaded
  through: the model's `resultBuf` keeps its initial zeros.
- Ddc.Execute: a call that would emit more than 10000 outputs is excluded
  by a precondition. `execute` is compiled by numba, which does not check
  bounds, so the 10001st `output[outn] = …` writes past the array
  unchecked and the following `assert outn <= len(output)` raises
  `AssertionError`. `Ddc.Call` reports that outcome as `OutputOverflow`;
  the memory the stray write touches is not modelled. The same holds for
  the first sample of an untapped converter, which stores into the empty
  history before `% self.firlen` raises (`ModuloByZero`).
- Demodulator.New: the rates and frequencies are integers. `DesignDdc`
  itself takes exact fractions, but `fc_demod + 1500*sideband - fc_in` on
  floats is rounded floating-point arithmetic, which is not modelled.
- Demodulator.Execute, Demodulator.ExecuteStages and
  Demodulator.ExecuteBounded: a demodulator whose DDC has no taps (an input
  rate below 16000 / 11 samples per second) is outside their `Ready`
  precondition; its DDC raises on the first sample, as `Ddc.Call` states.
- Data.SerializeMetadata and Output.SerializeMetadata: their own contracts
  state only the buffer length. The full behaviour is proved in
  `Data.SerializeMetadataWrites` and `Output.SerializeMetadataWrites`.
  - The model assumes `byte`'s `write_with` checks the length first and
    changes nothing on failure.
  - The model assumes `SystemTime` seconds fit a `u64`.
- Dsp: `dsp.rs` and `spectrum.rs` each define a `SpectrumAccumulator`, and
  both are modelled with the shared `Spectrum.Feed` step. They differ only
  in the powers they add: plain `|bin|^2` (`Dsp.Powers`) or the Hann-windowed
  bins (`Spectrum.HannPowers`).
- Standard output and ZeroMQ I/O are not modelled. A written record is
  returned as a byte sequence, and `write_all` errors are not modelled.
- `main.rs`:
  - argument parsing is not modelled;
  - a failed `read_exact`, which ends the loop, is not modelled;
  - the read loop is modelled as a sequence of whole chunks.
- `recv_signal` and `recv_spectrum`: their subscriptions are modelled.
  `recv_signal` subscribes to `signal_topic(fs, fc)` (`SpektriPy.SignalTopicSelects`).
  `recv_spectrum` subscribes to `spectrum_topic()` and ignores its `fs` and
  `fc` (`SpektriPy.SpectrumTopicMatches`). Their receive loops are not
  modelled, because they are socket I/O. The decode
  `np.frombuffer(msg[24:], dtype=np.complex64)` is not modelled beyond
  where the payload starts (`SpektriPy.Payload`). Both functions apply it,
  so a U8 or U16 spectrum record is also read as complex64.
- Left out as outside the core:
  - the fast-convolution filter bank (`fcfb.rs`, `prototyping/fcfb.py`);
  - `multifft.rs`;
  - the test-signal generator;
  - the prototyping scripts;
  - `tools/demodulate.py` and `tools/save_to_files.py`, apart from the
    receiver parameters.
