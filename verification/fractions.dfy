/** Exact rationals as Python's `fractions.Fraction` keeps them: numerator and a
    positive denominator in lowest terms. */
module Fractions {
  import opened Arith

  datatype Fraction = Fraction(num: int, den: int)

  function Abs(x: int): nat {
    if x < 0 then -x else x
  }

  /** Euclid's algorithm, as `math.gcd` computes it for non-negative arguments. */
  function Gcd(a: nat, b: nat): nat
    decreases b
  {
    if b == 0 then a else Gcd(b, a % b)
  }

  /** Lowest terms with a positive denominator: the only form a `Fraction` takes. */
  predicate Normal(f: Fraction) {
    f.den >= 1 && Gcd(Abs(f.num), f.den) == 1
  }

  function Value(f: Fraction): real
    requires f.den != 0
  {
    f.num as real / f.den as real
  }

  lemma MultipleDivisible(x: int, k: int, d: int)
    requires d > 0 && x % d == 0
    ensures (k * x) % d == 0
  {
    var q := x / d;
    assert x == q * d;
    assert k * x == (k * q) * d;
    DivModUnique(k * x, d, k * q, 0);
  }

  lemma SumDivisible(x: int, y: int, d: int)
    requires d > 0 && x % d == 0 && y % d == 0
    ensures (x + y) % d == 0
  {
    DivModUnique(x + y, d, x / d + y / d, 0);
  }

  /** The gcd is positive and divides both arguments. */
  lemma {:induction false} GcdDivides(a: nat, b: nat)
    requires a > 0 || b > 0
    ensures Gcd(a, b) > 0 && a % Gcd(a, b) == 0 && b % Gcd(a, b) == 0
    decreases b
  {
    if b == 0 {
      DivModUnique(a, a, 1, 0);
      DivModUnique(0, a, 0, 0);
    } else {
      GcdDivides(b, a % b);
      var g := Gcd(b, a % b);
      assert a == (a / b) * b + a % b;
      MultipleDivisible(b, a / b, g);
      SumDivisible((a / b) * b, a % b, g);
    }
  }

  /** Every common divisor divides the gcd. */
  lemma {:induction false} CommonDivisorDividesGcd(a: nat, b: nat, d: int)
    requires d > 0 && a % d == 0 && b % d == 0
    ensures Gcd(a, b) % d == 0
    decreases b
  {
    if b != 0 {
      assert a % b == a + (-(a / b)) * b;
      MultipleDivisible(b, -(a / b), d);
      SumDivisible(a, (-(a / b)) * b, d);
      CommonDivisorDividesGcd(b, a % b, d);
    }
  }

  lemma ExactQuotient(x: int, d: int)
    requires d > 0 && x % d == 0
    ensures x == (x / d) * d
  {
  }

  /** If d divides x and h divides x/d, then h*d divides x. */
  lemma ComposeDivisors(x: int, d: int, h: int)
    requires d > 0 && h > 0 && x % d == 0 && (x / d) % h == 0
    ensures x % (h * d) == 0
  {
    var q := (x / d) / h;
    ExactQuotient(x, d);
    ExactQuotient(x / d, h);
    calc {
      x;
      (x / d) * d;
      (q * h) * d;
      { assert (q * h) * d == q * (h * d); }
      q * (h * d);
    }
    DivModUnique(x, h * d, q, 0);
  }

  /** A positive multiple of d is at least d. */
  lemma DivisorIsSmaller(d: int, n: int)
    requires d > 0 && n > 0 && n % d == 0
    ensures d <= n
  {
    ExactQuotient(n, d);
    if n / d <= 0 {
      MulLe(n / d, 0, d);
    } else {
      MulLe(1, n / d, d);
    }
  }

  lemma QuotientPositive(y: int, g: int)
    requires g > 0 && y > 0 && y % g == 0
    ensures y / g > 0
  {
    ExactQuotient(y, g);
    if y / g <= 0 {
      MulLe(y / g, 0, g);
    }
  }

  /** Dividing both arguments by their gcd leaves them coprime. */
  lemma ReducedIsCoprime(x: nat, y: nat)
    requires y > 0
    ensures Gcd(x, y) > 0 && x % Gcd(x, y) == 0 && y % Gcd(x, y) == 0
    ensures Gcd(x / Gcd(x, y), y / Gcd(x, y)) == 1
  {
    GcdDivides(x, y);
    var g := Gcd(x, y);
    QuotientPositive(y, g);
    var x', y' := x / g, y / g;
    GcdDivides(x', y');
    var h := Gcd(x', y');
    ComposeDivisors(x, g, h);
    ComposeDivisors(y, g, h);
    assert h * g > 0 by {
      MulLe(1, h, g);
    }
    CommonDivisorDividesGcd(x, y, h * g);
    DivisorIsSmaller(h * g, g);
    if h > 1 {
      MulLe(2, h, g);
    }
  }

  lemma CastMul(x: int, y: int)
    ensures (x * y) as real == x as real * y as real
  {
  }

  lemma RealCancel(x: real, y: real, g: real)
    requires y != 0.0 && g != 0.0
    ensures (x * g) / (y * g) == x / y
  {
  }

  /** Dividing numerator and denominator by a common factor keeps the value,
      with the sign carried by the numerator. */
  lemma ReducedValue(a: int, b: int, n: int, d: int, g: int)
    requires b != 0 && g > 0 && d > 0
    requires Abs(a) == n * g && Abs(b) == d * g
    ensures (if (a < 0) != (b < 0) then -n else n) as real / d as real == a as real / b as real
  {
    CastMul(n, g);
    CastMul(d, g);
    RealCancel(n as real, d as real, g as real);
    var ar, br := Abs(a) as real, Abs(b) as real;
    assert ar / br == n as real / d as real;
    if a < 0 && b < 0 {
      assert a as real / b as real == ar / br;
    } else if a < 0 {
      assert a as real / b as real == -(ar / br);
    } else if b < 0 {
      assert a as real / b as real == -(ar / br);
    }
  }

  /** `Fraction(a, b)`: reduce `a/b` to lowest terms with a positive denominator. */
  function Make(a: int, b: int): (f: Fraction)
    requires b != 0
    ensures Normal(f)
    ensures Value(f) == a as real / b as real
  {
    ReducedIsCoprime(Abs(a), Abs(b));
    var g := Gcd(Abs(a), Abs(b));
    QuotientPositive(Abs(b), g);
    var n := Abs(a) / g;
    var d := Abs(b) / g;
    ExactQuotient(Abs(a), g);
    ExactQuotient(Abs(b), g);
    ReducedValue(a, b, n, d, g);
    Fraction(if (a < 0) != (b < 0) then -n else n, d)
  }

  /** `Fraction(n)` for an integer `n`. */
  function FromInt(n: int): (f: Fraction)
    ensures Normal(f) && Value(f) == n as real
  {
    Fraction(n, 1)
  }

  function Neg(f: Fraction): (r: Fraction)
    requires Normal(f)
    ensures Normal(r) && Value(r) == -Value(f)
  {
    Fraction(-f.num, f.den)
  }

  lemma ProductNonZero(x: int, y: int)
    requires x != 0 && y != 0
    ensures x * y != 0
  {
    if x > 0 && y > 0 { MulLe(1, x, y); }
    else if x > 0 { MulLe(y, -1, x); }
    else if y > 0 { MulLe(x, -1, y); }
    else { MulLe(1, -x, -y); }
  }

  lemma QuotientOfQuotients(an: real, ad: real, bn: real, bd: real)
    requires ad != 0.0 && bn != 0.0 && bd != 0.0
    ensures (an * bd) / (ad * bn) == (an / ad) / (bn / bd)
  {
  }

  lemma DivValue(a: Fraction, b: Fraction)
    requires a.den != 0 && b.den != 0 && b.num != 0 && a.den * b.num != 0
    ensures (a.num * b.den) as real / (a.den * b.num) as real == Value(a) / Value(b)
  {
    CastMul(a.num, b.den);
    CastMul(a.den, b.num);
    QuotientOfQuotients(a.num as real, a.den as real, b.num as real, b.den as real);
  }

  /** `a / b` on fractions; Python raises `ZeroDivisionError` when `b == 0`. */
  function Div(a: Fraction, b: Fraction): (r: Fraction)
    requires Normal(a) && Normal(b) && b.num != 0
    ensures Normal(r)
    ensures Value(r) == Value(a) / Value(b)
  {
    var n, d := a.num * b.den, a.den * b.num;
    ProductNonZero(a.den, b.num);
    DivValue(a, b);
    Make(n, d)
  }
}
