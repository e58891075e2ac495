/** `SsbDemodulator` of `tools/demodulator.py`: single-sideband reception by
    the Weaver method. A rational DDC moves the wanted sideband's centre to
    zero and resamples to 16 kHz, an IIR low-pass (scipy's, a parameter here)
    cleans up, a second oscillator moves the band up into audio, and the AGC
    levels it; the real part is the audio. */
module Demodulator {
  import opened ComplexNumbers
  import opened Collaborators
  import opened Fractions
  import opened Results
  import opened Ddc
  import opened DdcDesign
  import opened DdcHistory
  import Agc

  /** The audio sample rate every demodulator resamples to. */
  const AudioRate: int := 16000
  /** The sideband's centre lies 1500 Hz from the suppressed carrier. */
  const CarrierOffset: int := 1500
  /** The IIR stage: `butter(4, 1400, fs=16000)`. */
  const FilterOrder: nat := 4
  const FilterCutoff: real := 1400.0
  /** The second oscillator runs at `3 * sideband / 32` cycles per sample. */
  const MixerNum: int := 3
  const MixerDen: int := 32

  /** `1 if mode == 'usb' else -1`: any string other than `"usb"`, not only
      `"lsb"`, selects the lower sideband. */
  function Sideband(mode: string): (sb: int)
    ensures sb == 1 <==> mode == "usb"
    ensures sb == -1 <==> mode != "usb"
  {
    if mode == "usb" then 1 else -1
  }

  datatype SsbDemodulator = SsbDemodulator(
    ddc: RationalDdc,
    filtb: seq<real>,
    filta: seq<real>,
    filtz: seq<Complex>,
    mixer2: RationalDdc,
    agc: Agc.SsbAgc)

  /** The states `execute` can run from: a valid DDC, a unit-tap mixer and a
      non-negative average power. */
  predicate Ready(dm: SsbDemodulator) {
    Valid(dm.ddc) && IsMixer(dm.mixer2) && dm.agc.pa >= 0.0
  }

  /** The frequency the DDC moves to zero: the demodulated carrier, moved by
      1500 Hz towards the sideband, relative to the input's centre. */
  function DdcFrequency(fcIn: int, fcDemod: int, mode: string): int {
    fcDemod + CarrierOffset * Sideband(mode) - fcIn
  }

  /** `SsbDemodulator(fs_in, fc_in, fc_demod, mode)`. `DesignDdc` raises
      for rates it cannot handle; that exception is the `Err` here. Below
      16000 / 11 samples per second the DDC is designed without taps, and
      the demodulator is built but not ready: its first sample raises. */
  function New(fsIn: int, fcIn: int, fcDemod: int, mode: string, ext: Externals): (r: Result<SsbDemodulator, DesignError>)
    requires FirwinSized(ext.firwin)
    ensures var plan := DesignPlan(FromInt(fsIn), FromInt(AudioRate), FromInt(DdcFrequency(fcIn, fcDemod, mode)));
      && (r.Ok? <==> plan.Ok?)
      && (r.Err? ==> r.error == plan.error)
    ensures r.Ok? ==>
      && (Ready(r.value) <==> Valid(r.value.ddc))
      && (if Valid(r.value.ddc) then AtStart(r.value.ddc) else Untapped(r.value.ddc))
      && r.value.ddc == DesignDdc(FromInt(fsIn), FromInt(AudioRate), FromInt(DdcFrequency(fcIn, fcDemod, mode)), ext).value
      && IsMixer(r.value.mixer2)
      && AtStart(r.value.mixer2)
      && LoTableOf(r.value.mixer2.loTable, MixerNum * Sideband(mode), MixerDen, ext.cos, ext.sin)
      && (r.value.filtb, r.value.filta) == ext.butter(FilterOrder, FilterCutoff, AudioRate as real)
      && r.value.agc == Agc.Fresh
  {
    var sb := Sideband(mode);
    match DesignDdc(FromInt(fsIn), FromInt(AudioRate), FromInt(fcDemod + CarrierOffset * sb - fcIn), ext)
    case Err(e) => Err(e)
    case Ok(d) =>
      var (b, a) := ext.butter(FilterOrder, FilterCutoff, AudioRate as real);
      var mixer2 := Ddc.New([1.0], 1, 1, MixerNum * sb, MixerDen, ext.cos, ext.sin);
      assert mixer2.taps == [One];
      Ok(SsbDemodulator(d, b, a, ext.lfiltic(b, a, [0.0]), mixer2, Agc.Fresh))
  }

  /** The receiver `demodulate.py` builds: LSB at 3.699 MHz in a 500 kHz
      stream centred on 3.625 MHz gives a DDC with `L/M = 4/125`, an
      oscillator at `-29/200` cycles per sample and 1372 taps, and a second
      oscillator at `-3/32`. */
  lemma DemodulateReceiver(ext: Externals)
    requires FirwinSized(ext.firwin)
    ensures var r := New(500000, 3625000, 3699000, "lsb", ext);
      && r.Ok?
      && Ready(r.value)
      && r.value.ddc.interpolation == 4 && r.value.ddc.decimation == 125
      && |r.value.ddc.taps| == 1372
      && LoTableOf(r.value.ddc.loTable, -29, 200, ext.cos, ext.sin)
      && LoTableOf(r.value.mixer2.loTable, -3, 32, ext.cos, ext.sin)
  {
    assert "lsb" != "usb";
    assert DdcFrequency(3625000, 3699000, "lsb") == 72500;
    DemodulateDefaults();
  }

  /** `execute(input)`: DDC, IIR filter (its state `filtz` carried over),
      second mixer, AGC, then the real part. The DDC's output must fit its
      10000-sample array, and the mixer's as well (it emits one sample per
      filtered sample). */
  function Execute(dm: SsbDemodulator, input: seq<Complex>, ext: Externals): (r: (SsbDemodulator, seq<real>))
    requires Ready(dm) && IsSquareRoot(ext.sqrt) && LfilterPreservesLength(ext.lfilter)
    requires OutputCount(dm.ddc, |input|) <= OutputCapacity
    ensures r.0.filtb == dm.filtb && r.0.filta == dm.filta
  {
    var d := Ddc.Run(dm.ddc, input);
    var f := ext.lfilter(dm.filtb, dm.filta, d.1, dm.filtz);
    var m := Ddc.Run(dm.mixer2, f.0);
    var g := Agc.Run(dm.agc.pa, m.1, ext.sqrt);
    (SsbDemodulator(d.0, dm.filtb, dm.filta, f.1, m.0, Agc.SsbAgc(g.0)),
     seq(|g.1|, k requires 0 <= k < |g.1| => g.1[k].re))
  }

  /** A sample of at most unit power has a real part in `[-1, 1]`. */
  lemma RealPartBounded(c: Complex)
    requires Norm2(c) <= 1.0
    ensures -1.0 <= c.re <= 1.0
  {
  }

  /** The stages in order: one audio sample per DDC output, and sample `k`
      is the real part of the AGC applied to the filtered stream mixed with
      the second oscillator. */
  lemma ExecuteStages(dm: SsbDemodulator, input: seq<Complex>, ext: Externals)
    requires Ready(dm) && IsSquareRoot(ext.sqrt) && LfilterPreservesLength(ext.lfilter)
    requires OutputCount(dm.ddc, |input|) <= OutputCapacity
    ensures var r := Execute(dm, input, ext);
      var filtered := ext.lfilter(dm.filtb, dm.filta, Ddc.Run(dm.ddc, input).1, dm.filtz).0;
      var levelled := Agc.Run(dm.agc.pa, MixedStream(dm.mixer2, filtered), ext.sqrt).1;
      && |r.1| == OutputCount(dm.ddc, |input|)
      && |levelled| == |r.1|
      && (forall k :: 0 <= k < |r.1| ==> r.1[k] == levelled[k].re)
  {
    RunFirPhase(dm.ddc, input);
    var filtered := ext.lfilter(dm.filtb, dm.filta, Ddc.Run(dm.ddc, input).1, dm.filtz).0;
    UnitFilterIsMixer(dm.mixer2, filtered);
  }

  /** Whatever comes in, the audio stays within `[-1, 1]`, and the
      demodulator is ready for the next call. */
  lemma ExecuteBounded(dm: SsbDemodulator, input: seq<Complex>, ext: Externals)
    requires Ready(dm) && IsSquareRoot(ext.sqrt) && LfilterPreservesLength(ext.lfilter)
    requires OutputCount(dm.ddc, |input|) <= OutputCapacity
    ensures var r := Execute(dm, input, ext);
      && Ready(r.0)
      && forall k :: 0 <= k < |r.1| ==> -1.0 <= r.1[k] <= 1.0
  {
    var d := Ddc.Run(dm.ddc, input);
    var f := ext.lfilter(dm.filtb, dm.filta, d.1, dm.filtz);
    var m := Ddc.Run(dm.mixer2, f.0);
    UnitFilterIsMixer(dm.mixer2, f.0);
    MixerKeeps(dm.mixer2, f.0);
    Agc.RunBounded(dm.agc.pa, m.1, ext.sqrt);
    var g := Agc.Run(dm.agc.pa, m.1, ext.sqrt);
    forall k | 0 <= k < |g.1|
      ensures -1.0 <= g.1[k].re <= 1.0
    {
      RealPartBounded(g.1[k]);
    }
  }

  /** Running the unit-tap mixer leaves a unit-tap mixer. */
  lemma {:induction false} MixerKeeps(d: RationalDdc, xs: seq<Complex>)
    requires IsMixer(d)
    ensures IsMixer(Ddc.Run(d, xs).0)
    decreases |xs|
  {
    if |xs| > 0 {
      MixerStep(d, xs[0]);
      MixerKeeps(Step(d, xs[0]).0, xs[1..]);
      RunCons(d, xs);
    }
  }
}
