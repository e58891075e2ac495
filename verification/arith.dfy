/** Integer division facts used by the phase-accumulator and buffer-sizing proofs.
    Dafny's `/` and `%` are Euclidean; every use here has a positive divisor, where
    they coincide with Python's `//` and `%` and with Rust's unsigned division. */
module Arith {

  /** Quotient and remainder are determined by the division identity. */
  lemma DivModUnique(a: int, b: int, q: int, r: int)
    requires b > 0 && 0 <= r < b && a == q * b + r
    ensures a / b == q && a % b == r
  {
    var q0, r0 := a / b, a % b;
    assert a == q0 * b + r0;
    if q0 < q {
      MulLe(q0 + 1, q, b);
    } else if q < q0 {
      MulLe(q + 1, q0, b);
    }
  }

  lemma MulLe(x: int, y: int, b: int)
    requires x <= y && b >= 0
    ensures x * b <= y * b
  {
    assert y * b - x * b == (y - x) * b;
  }

  /** Adding k multiples of b shifts the quotient by k and keeps the remainder. */
  lemma DivAddMultiple(a: int, k: int, b: int)
    requires b > 0
    ensures (a + k * b) / b == a / b + k
    ensures (a + k * b) % b == a % b
  {
    DivModUnique(a + k * b, b, a / b + k, a % b);
  }

  lemma DivMonotone(a: int, c: int, b: int)
    requires b > 0 && a <= c
    ensures a / b <= c / b
  {
    if c / b < a / b {
      MulLe(c / b + 1, a / b, b);
    }
  }

  /** Reducing a summand modulo d does not change the sum modulo d. */
  lemma ModAddMod(a: int, n: int, d: int)
    requires d > 0
    ensures (a % d + n) % d == (a + n) % d
  {
    DivAddMultiple(a % d + n, a / d, d);
    assert a % d + n + (a / d) * d == a + n;
  }

  /** Reducing a factor modulo d does not change the product modulo d. */
  lemma ModMulMod(n: int, m: int, d: int)
    requires d > 0
    ensures ((n % d) * m) % d == (n * m) % d
  {
    var q := n / d;
    assert n == q * d + n % d;
    assert n * m == (n % d) * m + (q * m) * d by {
      assert n * m == (q * d + n % d) * m;
    }
    DivAddMultiple((n % d) * m, q * m, d);
  }

  /** Upper and lower bounds on a quotient from bounds on the dividend. */
  lemma DivBelow(a: int, b: int, q: int)
    requires b > 0 && a < (q + 1) * b
    ensures a / b <= q
  {
    if a / b > q {
      MulLe(q + 1, a / b, b);
    }
  }

  lemma DivAtLeast(a: int, b: int, q: int)
    requires b > 0 && q * b <= a
    ensures q <= a / b
  {
    if a / b < q {
      MulLe(a / b + 1, q, b);
    }
  }
}
