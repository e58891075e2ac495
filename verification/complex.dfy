/** Complex samples as pairs of exact reals; float32 rounding is not modelled. */
module ComplexNumbers {

  datatype Complex = Complex(re: real, im: real)

  const Zero: Complex := Complex(0.0, 0.0)
  const One: Complex := Complex(1.0, 0.0)

  function Add(a: Complex, b: Complex): Complex {
    Complex(a.re + b.re, a.im + b.im)
  }

  function Sub(a: Complex, b: Complex): Complex {
    Complex(a.re - b.re, a.im - b.im)
  }

  function Mul(a: Complex, b: Complex): Complex {
    Complex(a.re * b.re - a.im * b.im, a.re * b.im + a.im * b.re)
  }

  function Scale(a: Complex, k: real): Complex {
    Complex(a.re * k, a.im * k)
  }

  function Conj(a: Complex): Complex {
    Complex(a.re, -a.im)
  }

  /** Squared magnitude `re^2 + im^2`, the "power" of a sample. */
  function Norm2(a: Complex): (p: real)
    ensures p >= 0.0
  {
    a.re * a.re + a.im * a.im
  }

  /** A real number seen as a complex sample, as numpy's `astype(complex64)` does. */
  function FromReal(x: real): Complex {
    Complex(x, 0.0)
  }

  function Zeros(n: nat): (z: seq<Complex>)
    ensures |z| == n
    ensures forall k :: 0 <= k < n ==> z[k] == Zero
  {
    seq(n, _ => Zero)
  }

  /** Non-conjugating dot product `sum_j a[j] * b[j]`, as numpy's `dot` computes it. */
  function Dot(a: seq<Complex>, b: seq<Complex>): Complex
    requires |a| == |b|
    decreases |a|
  {
    if |a| == 0 then Zero
    else Add(Dot(a[..|a| - 1], b[..|b| - 1]), Mul(a[|a| - 1], b[|b| - 1]))
  }

  /** A one-tap filter with the unit tap passes its single sample through. */
  lemma DotUnitTap(x: Complex)
    ensures Dot([x], [One]) == x
  {
    assert [x][..0] == [];
  }

  lemma MulOne(x: Complex)
    ensures Mul(x, One) == x
  {
  }
}
