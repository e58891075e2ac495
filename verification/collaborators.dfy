/** Functions the core calls but does not define: numpy's transcendental
    functions and scipy's filter designers and IIR filter. They are passed in as
    values; the model relies only on the three properties stated below, each
    required where it is used. */
module Collaborators {
  import opened ComplexNumbers

  datatype Externals = Externals(
    cos: real -> real,
    sin: real -> real,
    sqrt: real -> real,
    /** `signal.firwin(numtaps, cutoff, window='blackman')` */
    firwin: (nat, real) -> seq<real>,
    /** `signal.butter(order, cutoff, fs=fs)`, returning `(b, a)` */
    butter: (nat, real, real) -> (seq<real>, seq<real>),
    /** `signal.lfiltic(b, a, y)`: the initial filter state for past outputs `y` */
    lfiltic: (seq<real>, seq<real>, seq<real>) -> seq<Complex>,
    /** `signal.lfilter(b, a, x, zi=z)`, returning `(y, zf)` */
    lfilter: (seq<real>, seq<real>, seq<Complex>, seq<Complex>) -> (seq<Complex>, seq<Complex>))

  /** `np.sqrt` on non-negative reals is the non-negative square root. */
  ghost predicate IsSquareRoot(sqrt: real -> real) {
    forall x: real :: x >= 0.0 ==> sqrt(x) >= 0.0 && sqrt(x) * sqrt(x) == x
  }

  /** `firwin` returns exactly the number of taps asked for. */
  ghost predicate FirwinSized(firwin: (nat, real) -> seq<real>) {
    forall n: nat, c: real :: |firwin(n, c)| == n
  }

  /** `lfilter` returns one output sample per input sample. */
  ghost predicate LfilterPreservesLength(lfilter: (seq<real>, seq<real>, seq<Complex>, seq<Complex>) -> (seq<Complex>, seq<Complex>)) {
    forall b: seq<real>, a: seq<real>, x: seq<Complex>, z: seq<Complex> :: |lfilter(b, a, x, z).0| == |x|
  }
}
