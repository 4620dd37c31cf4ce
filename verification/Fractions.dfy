/** Arithmetic of quotients, where the solver needs a hand. */
module Fractions {
  lemma QuotientIs(p: real, a: real, b: real)
    requires b > 0.0 && p * b == a
    ensures p == a / b
  {
    var q := a / b;
    assert q * b == a;
    if p != q {
      assert (p - q) * b == 0.0;
      assert p - q == 0.0;
    }
  }

  lemma Times(a: real, b: real, c: real, d: real)
    requires b > 0.0 && d > 0.0
    ensures b * d > 0.0 && (a / b) * (c / d) == (a * c) / (b * d)
  {
    var p, q := a / b, c / d;
    assert p * b == a && q * d == c;
    assert (p * q) * (b * d) == (p * b) * (q * d);
    QuotientIs(p * q, a * c, b * d);
  }

  lemma Expand(a: real, b: real, c: real)
    requires b > 0.0 && c > 0.0
    ensures b * c > 0.0 && a / b == (a * c) / (b * c)
  {
    var p := a / b;
    assert p * b == a;
    assert p * (b * c) == a * c;
    QuotientIs(p, a * c, b * c);
  }

  lemma Plus(a: real, b: real, d: real)
    requires d > 0.0
    ensures a / d + b / d == (a + b) / d && a / d - b / d == (a - b) / d
  {
    var p, q := a / d, b / d;
    assert p * d == a && q * d == b;
    assert (p + q) * d == a + b && (p - q) * d == a - b;
    QuotientIs(p + q, a + b, d);
    QuotientIs(p - q, a - b, d);
  }

  lemma Complement(a: real, b: real)
    requires b > 0.0
    ensures 1.0 - a / b == (b - a) / b
  {
    var p := a / b;
    assert p * b == a;
    assert (1.0 - p) * b == b - a;
    QuotientIs(1.0 - p, b - a, b);
  }

  lemma Difference(x: real, n: real, y: real, m: real)
    requires n > 0.0 && m > 0.0
    ensures n * m > 0.0 && x / n - y / m == (x * m - y * n) / (n * m)
  {
    Expand(x, n, m);
    Expand(y, m, n);
    assert m * n == n * m;
    Plus(x * m, y * n, n * m);
  }

  /** Comparing a quotient is comparing products. */
  lemma AtLeast(a: real, b: real, c: real)
    requires b > 0.0
    ensures a / b >= c <==> a >= c * b
  {
    var p := a / b;
    assert p * b == a;
    assert (p - c) * b == a - c * b;
    if p >= c {
      assert (p - c) * b >= 0.0;
    } else {
      assert (p - c) * b < 0.0;
    }
  }
}
