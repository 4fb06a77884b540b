// Facts about products that the solver does not find by itself.

module Nonlinear {

  lemma Positive(a: int, b: int)
    requires a > 0 && b > 0
    ensures a * b > 0
  {
  }

  lemma NonNegative(a: int, b: int)
    requires a >= 0 && b >= 0
    ensures a * b >= 0
  {
  }

  lemma Division(n: int, d: int)
    requires n >= 0 && d > 0
    ensures 0 <= n / d && (n / d) * d <= n < (n / d + 1) * d
  {
  }

  lemma OneMore(a: int, b: int)
    ensures (a + 1) * b == a * b + b
  {
  }

  lemma Monotone(a: int, b: int, c: int)
    requires a <= b && c >= 0
    ensures a * c <= b * c
  {
  }

  lemma StrictlyMonotone(a: int, b: int, c: int)
    requires a < b && c > 0
    ensures a * c < b * c
  {
  }

  lemma RealMonotone(a: real, b: real, c: real)
    requires a < b && c > 0.0
    ensures a * c < b * c
  {
  }

  lemma RealAtMost(a: real, b: real, c: real)
    requires a <= b && c >= 0.0
    ensures a * c <= b * c
  {
  }

  lemma QuotientBetween(n: int, d: int, low: int, high: int)
    requires d > 0 && low * d <= n < high * d
    ensures low as real <= n as real / d as real < high as real
  {
    var x := n as real / d as real;
    assert x * d as real == n as real;
    if x < low as real {
      RealMonotone(x, low as real, d as real);
    }
    if x >= high as real {
      RealAtMost(high as real, x, d as real);
    }
  }

  /** If q <= n / d < q + 1 then q * m <= (n * m) / d < (q + 1) * m, over the reals. */
  lemma ScaledQuotient(n: int, d: int, q: int, m: int)
    requires d > 0 && m > 0 && q * d <= n < (q + 1) * d
    ensures (q * m) as real <= (n * m) as real / d as real < ((q + 1) * m) as real
  {
    Monotone(q * d, n, m);
    StrictlyMonotone(n, (q + 1) * d, m);
    assert (q * d) * m == (q * m) * d && ((q + 1) * d) * m == ((q + 1) * m) * d;
    QuotientBetween(n * m, d, q * m, (q + 1) * m);
  }

  lemma RealPositive(a: real, b: real)
    requires a > 0.0 && b > 0.0
    ensures a * b > 0.0
  {
  }

  lemma QuotientTimes(a: real, b: real)
    requires b != 0.0
    ensures a / b * b == a
  {
  }

  lemma RealCancel(a: real, b: real, c: real)
    requires c > 0.0 && a * c == b * c
    ensures a == b
  {
    if a < b {
      RealMonotone(a, b, c);
    } else if b < a {
      RealMonotone(b, a, c);
    }
  }

  lemma RealCancelAtMost(a: real, b: real, c: real)
    requires c > 0.0 && a * c <= b * c
    ensures a <= b
  {
    if b < a {
      RealMonotone(b, a, c);
    }
  }

  lemma RealCompare(a: real, b: real, c: real)
    requires c > 0.0
    ensures a <= b <==> a * c <= b * c
  {
    if a <= b {
      RealAtMost(a, b, c);
    } else {
      RealMonotone(b, a, c);
    }
  }

  /** The same, with names for the products. */
  lemma CompareProducts(a: real, b: real, c: real, ac: real, bc: real)
    requires c > 0.0 && ac == a * c && bc == b * c
    ensures a <= b <==> ac <= bc
  {
    RealCompare(a, b, c);
  }

  lemma SignOfProduct(a: real, b: real)
    requires b > 0.0
    ensures a < 0.0 <==> a * b < 0.0
  {
    if a < 0.0 {
      RealMonotone(a, 0.0, b);
    } else {
      RealAtMost(0.0, a, b);
    }
  }

  lemma RealNonNegative(a: real, b: real)
    requires a >= 0.0 && b >= 0.0
    ensures a * b >= 0.0
  {
  }

  lemma QuotientAtLeast(n: int, d: int, q: int)
    requires n >= 0 && d > 0 && q >= 0
    ensures q <= n / d <==> q * d <= n
  {
    Division(n, d);
    if q <= n / d {
      Monotone(q, n / d, d);
    } else {
      Monotone(n / d + 1, q, d);
    }
  }

  lemma DivideTwice(n: int, a: int, b: int)
    requires n >= 0 && a > 0 && b > 0
    ensures a * b > 0 && (n / a) / b == n / (a * b)
  {
    Positive(a, b);
    Division(n, a * b);
    Division(n, a);
    Division(n / a, b);
    var q, r := (n / a) / b, n / (a * b);
    assert q * (a * b) == (q * b) * a;
    assert r * (a * b) == (r * b) * a;
    Monotone(q * b, n / a, a);
    QuotientAtLeast(n, a * b, q);
    NonNegative(r, b);
    QuotientAtLeast(n, a, r * b);
    QuotientAtLeast(n / a, b, r);
  }

  lemma QuotientAntitone(n: int, a: int, b: int)
    requires n >= 0 && 0 < a <= b
    ensures n / b <= n / a
  {
    Division(n, b);
    Monotone(a, b, n / b);
    QuotientAtLeast(n, a, n / b);
    assert n / b * a == a * (n / b) && n / b * b == b * (n / b);
  }

  lemma ProductsOrdered(a: int, b: int, c: int, d: int)
    requires 0 <= a <= b && 0 <= c <= d
    ensures a * c <= b * d
  {
    Monotone(a, b, c);
    Monotone(c, d, b);
    assert b * c == c * b && b * d == d * b;
  }
}
