/** Products and quotients the solver does not order on its own. */
module Arithmetic {

  lemma ProductMonotone(a: nat, b: nat, c: nat, d: nat)
    requires a <= b && c <= d
    ensures a * c <= b * d
  {}

  lemma RealProductMonotone(a: real, b: real, c: real, d: real)
    requires 0.0 <= a <= b && 0.0 <= c <= d
    ensures 0.0 <= a * c <= b * d
  {}

  lemma QuotientAtLeast(n: nat, m: nat, x: nat)
    requires m > 0 && n * m <= x
    ensures n <= x / m
  {
    var q := x / m;
    assert x < q * m + m;
    if n > q {
      ProductMonotone(q + 1, n, m, m);
    }
  }

  lemma DivMonotone(a: nat, b: nat, d: nat)
    requires d > 0 && a <= b
    ensures a / d <= b / d
  {
    QuotientAtLeast(a / d, d, b);
  }

  /** A larger divisor, a smaller quotient. */
  lemma DivAntitone(a: nat, c: nat, d: nat)
    requires 0 < c <= d
    ensures a / d <= a / c
  {
    ProductMonotone(a / d, a / d, c, d);
    QuotientAtLeast(a / d, c, a);
  }
}
