/** The approximation is a power function: it turns sums into products, and integers into powers of ten. */
module PowerLaw {
  import opened Machine
  import opened Types
  import opened Arithmetic
  import opened Pow10
  import RxDelay

  /** A product, by name: proofs that hide it treat it as a single unknown. */
  function Times(a: real, b: real): real {
    a * b
  }

  // --- Products of Taylor sums ---

  /** The first terms, 0 to n, of the m-th coefficient of the product of two exponential series. */
  function Conv(f: real, g: real, n: nat, m: nat): real
    requires n <= m
  {
    if n == 0 then Term(g, m) else Conv(f, g, n - 1, m) + Times(Term(f, n), Term(g, m - n))
  }

  /** The terms 0 to n - 1; none for n = 0. */
  function Head(f: real, g: real, n: nat, m: nat): real
    requires n <= m + 1
  {
    if n == 0 then 0.0 else Conv(f, g, n - 1, m)
  }

  lemma HeadStep(f: real, g: real, n: nat, m: nat)
    requires n <= m
    ensures Conv(f, g, n, m) == Head(f, g, n, m) + Times(Term(f, n), Term(g, m - n))
  {
    TermZero(f);
    hide Term;
  }

  lemma ConvStep(f: real, g: real, n: nat, m: nat)
    requires 1 <= n < m
    requires m as real * Conv(f, g, n - 1, m) == f * Head(f, g, n - 1, m - 1) + g * Conv(f, g, n - 1, m - 1)
    ensures m as real * Conv(f, g, n, m) == f * Conv(f, g, n - 1, m - 1) + g * Conv(f, g, n, m - 1)
  {
    hide Conv, Term, Head, Times;
    var a, b, a', b' := Term(f, n), Term(g, m - n), Term(f, n - 1), Term(g, m - n - 1);
    TermStep(f, n);
    TermStep(g, m - n);
    assert m as real == n as real + (m - n) as real;
    CoefficientStep(a, b, a', b', f, g, n as real, (m - n) as real);
    HeadStep(f, g, n - 1, m - 1);
    HeadStep(f, g, n, m - 1);
    HeadStep(f, g, n, m);
    HeadIs(f, g, n, m);
    HeadIs(f, g, n, m - 1);
    assert (m - 1) - (n - 1) == m - n && m - 1 - n == m - n - 1;
    Combine(m as real, Conv(f, g, n - 1, m), Times(a, b), Head(f, g, n - 1, m - 1), Times(a', b),
            Conv(f, g, n - 1, m - 1), Times(a, b'), f, g);
  }

  lemma HeadIs(f: real, g: real, n: nat, m: nat)
    requires 1 <= n <= m + 1
    ensures Head(f, g, n, m) == Conv(f, g, n - 1, m)
  {}

  lemma Combine(r: real, c: real, p: real, h: real, q: real, d: real, t: real, f: real, g: real)
    requires r * c == f * h + g * d && r * p == f * q + g * t
    ensures r * (c + p) == f * (h + q) + g * (d + t)
  {
    Distribute(r, c, p);
    Distribute(f, h, q);
    Distribute(g, d, t);
  }

  lemma Distribute(x: real, y: real, z: real)
    ensures x * (y + z) == x * y + x * z
  {}

  /** (i + j) * a * b, with i * a and j * b replaced. */
  lemma CoefficientStep(a: real, b: real, a': real, b': real, f: real, g: real, i: real, j: real)
    requires a * i == a' * f && b * j == b' * g
    ensures (i + j) * Times(a, b) == f * Times(a', b) + g * Times(a, b')
  {
    assert i * (a * b) == (a * i) * b;
    assert j * (a * b) == (b * j) * a;
  }

  lemma {:induction false} ConvPartial(f: real, g: real, n: nat, m: nat)
    requires n < m
    ensures m as real * Conv(f, g, n, m) == f * Head(f, g, n, m - 1) + g * Conv(f, g, n, m - 1)
  {
    hide Conv, Head, Term;
    if n == 0 {
      ConvFirst(f, g, m);
    } else {
      ConvPartial(f, g, n - 1, m);
      ConvStep(f, g, n, m);
      HeadIs(f, g, n, m - 1);
    }
  }

  lemma ConvFirst(f: real, g: real, m: nat)
    requires m > 0
    ensures m as real * Conv(f, g, 0, m) == f * Head(f, g, 0, m - 1) + g * Conv(f, g, 0, m - 1)
  {
    hide Term;
    TermStep(g, m);
    assert f * 0.0 == 0.0;
  }

  /** The binomial theorem, divided by m!. */
  lemma {:induction false} Binomial(f: real, g: real, m: nat)
    ensures Conv(f, g, m, m) == Term(f + g, m)
  {
    hide Conv, Head, Term;
    TermZero(g);
    TermZero(f + g);
    if m == 0 {
      ConvZero(f, g, 0);
    } else {
      Binomial(f, g, m - 1);
      ConvPartial(f, g, m - 1, m);
      TermStep(f, m);
      TermStep(f + g, m);
      HeadStep(f, g, m - 1, m - 1);
      HeadStep(f, g, m, m);
      HeadIs(f, g, m, m);
      SameCoefficient(m as real, Conv(f, g, m, m), Term(f + g, m), Conv(f, g, m - 1, m), Term(f, m),
                      Head(f, g, m - 1, m - 1), Term(f, m - 1), Conv(f, g, m - 1, m - 1), f, g);
    }
  }

  lemma ConvZero(f: real, g: real, m: nat)
    ensures Conv(f, g, 0, m) == Term(g, m)
  {}

  lemma SameCoefficient(r: real, x: real, y: real, b: real, a: real, h: real, q: real, c: real, f: real, g: real)
    requires r > 0.0 && r * b == f * h + g * c && a * r == q * f && y * r == c * (f + g)
    requires c == h + Times(q, 1.0) && x == b + Times(a, 1.0)
    ensures x == y
  {
    Combine(r, b, a, h, q, c, 0.0, f, g);
    SameProduct(r, x, y, f, g, c);
  }

  lemma TermZero(g: real)
    ensures Term(g, 0) == 1.0
  {}

  lemma SameProduct(r: real, x: real, y: real, f: real, g: real, c: real)
    requires r > 0.0 && r * x == f * c + g * c && y * r == c * (f + g)
    ensures x == y
  {
    Distribute(c, f, g);
    Cancel(r, x, y);
    Cancel(r, y, x);
  }

  /** The rows 0 to n of the triangle i + j <= m of products. */
  function Triangle(f: real, g: real, n: nat, m: nat): real
    requires n <= m
  {
    if n == 0 then Taylor(g, m) else Triangle(f, g, n - 1, m) + Times(Term(f, n), Taylor(g, m - n))
  }

  lemma RowStep(f: real, g: real, n: nat, m: nat)
    requires n <= m
    ensures Taylor(f, n) == if n == 0 then 1.0 else Taylor(f, n - 1) + Term(f, n)
    ensures Triangle(f, g, n, m)
         == if n == 0 then Taylor(g, m) else Triangle(f, g, n - 1, m) + Times(Term(f, n), Taylor(g, m - n))
  {
    hide Term;
  }

  lemma {:induction false} TriangleGrows(f: real, g: real, n: nat, m: nat)
    requires n <= m
    ensures Triangle(f, g, n, m + 1) == Triangle(f, g, n, m) + Conv(f, g, n, m + 1)
  {
    hide Term, Conv, Triangle, Taylor, Times;
    RowStep(f, g, n, m);
    RowStep(f, g, n, m + 1);
    if n == 0 {
      ConvZero(f, g, m + 1);
      RowStep(g, f, m + 1, m + 1);
    } else {
      var k := m - n;
      TriangleGrows(f, g, n - 1, m);
      ConvNext(f, g, n, m + 1);
      RowStep(g, f, k + 1, m + 1);
      assert m + 1 - n == k + 1;
      LongerRow(Term(f, n), Taylor(g, k), Taylor(g, k + 1), Term(g, k + 1));
    }
  }

  lemma LongerRow(t: real, y: real, y': real, z: real)
    requires y' == y + z
    ensures Times(t, y') == Times(t, y) + Times(t, z)
  {}

  lemma ConvNext(f: real, g: real, n: nat, m: nat)
    requires 1 <= n <= m
    ensures Conv(f, g, n, m) == Conv(f, g, n - 1, m) + Times(Term(f, n), Term(g, m - n))
  {
    hide Term;
  }

  lemma {:induction false} TriangleIsTaylor(f: real, g: real, m: nat)
    ensures Triangle(f, g, m, m) == Taylor(f + g, m)
  {
    if m > 0 {
      TriangleIsTaylor(f, g, m - 1);
      TriangleGrows(f, g, m - 1, m - 1);
      Binomial(f, g, m);
    }
  }

  lemma {:induction false} TaylorGrows(f: real, j: nat, k: nat)
    requires 0.0 <= f && j <= k
    ensures 1.0 <= Taylor(f, j) <= Taylor(f, k)
  {
    if j < k {
      TaylorGrows(f, j, k - 1);
      TermMonotone(f, f, k);
    } else {
      TaylorMonotone(f, f, k);
    }
  }

  lemma {:induction false} TriangleBelowProduct(f: real, g: real, n: nat, m: nat)
    requires 0.0 <= f && 0.0 <= g && n <= m
    ensures Triangle(f, g, n, m) <= Times(Taylor(f, n), Taylor(g, m))
  {
    hide Taylor, Term, Triangle;
    RowStep(f, g, n, m);
    if n > 0 {
      TriangleBelowProduct(f, g, n - 1, m);
      TermMonotone(f, f, n);
      TaylorGrows(g, m - n, m);
      AddRowBelow(Taylor(f, n - 1), Term(f, n), Taylor(g, m - n), Taylor(g, m), Triangle(f, g, n - 1, m));
    }
  }

  lemma AddRowBelow(p: real, t: real, y: real, y': real, rows: real)
    requires rows <= Times(p, y') && 0.0 <= t && 0.0 <= y <= y'
    ensures rows + Times(t, y) <= Times(p + t, y')
  {
    RealProductMonotone(t, t, y, y');
    Distribute(y', p, t);
  }

  lemma {:induction false} ProductBelowTriangle(f: real, g: real, n: nat, k: nat, m: nat)
    requires 0.0 <= f && 0.0 <= g && n + k <= m
    ensures Times(Taylor(f, n), Taylor(g, k)) <= Triangle(f, g, n, m)
  {
    hide Taylor, Term, Triangle;
    RowStep(f, g, n, m);
    if n == 0 {
      TaylorGrows(g, k, m);
    } else {
      ProductBelowTriangle(f, g, n - 1, k, m);
      TermMonotone(f, f, n);
      TaylorGrows(g, k, m - n);
      AddRow(Taylor(f, n - 1), Term(f, n), Taylor(g, k), Taylor(g, m - n), Triangle(f, g, n - 1, m));
    }
  }

  lemma AddRow(p: real, t: real, y: real, y': real, rows: real)
    requires Times(p, y) <= rows && 0.0 <= t && 0.0 <= y <= y'
    ensures Times(p + t, y) <= rows + Times(t, y')
  {
    RealProductMonotone(t, t, y, y');
    Distribute(y, p, t);
  }

  lemma {:induction false} TriangleRowsGrow(f: real, g: real, n: nat, k: nat, m: nat)
    requires 0.0 <= f && 0.0 <= g && n <= k <= m
    ensures Triangle(f, g, n, m) <= Triangle(f, g, k, m)
  {
    hide Taylor, Term, Triangle;
    if n < k {
      TriangleRowsGrow(f, g, n, k - 1, m);
      RowStep(f, g, k, m);
      TermMonotone(f, f, k);
      TaylorGrows(g, 0, m - k);
      RealProductMonotone(Term(f, k), Term(f, k), 0.0, Taylor(g, m - k));
    }
  }

  /** The product of two sums lies between the sums of 12 and 24 terms at the sum of the arguments. */
  lemma ProductOfSums(f: real, g: real)
    requires 0.0 <= f && 0.0 <= g
    ensures Taylor(f + g, 12) <= Times(Taylor(f, 12), Taylor(g, 12)) <= Taylor(f + g, 24)
  {
    hide Taylor, Triangle, Times;
    TriangleIsTaylor(f, g, 12);
    TriangleIsTaylor(f, g, 24);
    TriangleBelowProduct(f, g, 12, 12);
    ProductBelowTriangle(f, g, 12, 12, 24);
    TriangleRowsGrow(f, g, 12, 24, 24);
  }

  // --- Sums of arguments ---

  /** Up to 2, the terms beyond the twelfth add little. */
  lemma {:induction false} TailUpToTwo(h: real, n: nat)
    requires 0.0 <= h <= 2.0 && n >= 12
    ensures 0.0 <= Taylor(h, n) - Taylor(h, 12) <= (Term(2.0, 12) - Term(2.0, n)) / 5.0
    ensures Term(2.0, n) > 0.0
  {
    if n == 12 {
      TwelfthOfTwo();
    } else {
      TailUpToTwo(h, n - 1);
      TermMonotone(h, 2.0, n);
      TermStep(2.0, n);
      FallsFast(Term(2.0, n - 1), Term(2.0, n), n as real);
    }
  }

  lemma FallsFast(a: real, t: real, r: real)
    requires a > 0.0 && t * r == a * 2.0 && r >= 13.0
    ensures 0.0 < t && 6.0 * t <= a
  {
    Cancel(r, 0.0, t);
    assert t != 0.0;
    RealProductMonotone(t, t, 12.0, r);
  }

  lemma TwelfthOfTwo()
    ensures Term(2.0, 12) == 4096.0 / 479001600.0
  {
    assert Term(2.0, 4) == 16.0 / 24.0;
    assert Term(2.0, 8) == 256.0 / 40320.0;
  }

  /** The code's sum. */
  function Sum(f: real): real {
    Taylor(f, 12)
  }

  /** How far the product of two sums is from the sum at the sum of the arguments. */
  lemma ProductError(f: real, g: real)
    requires 0.0 <= f && 0.0 <= g && f + g <= 2.0
    ensures 0.0 <= Times(Sum(f), Sum(g)) - Sum(f + g) <= 0.00000172
  {
    hide Taylor, Term, Times;
    ProductOfSums(f, g);
    TailUpToTwo(f + g, 24);
    TwelfthOfTwo();
  }

  lemma SumRange(f: real)
    requires 0.0 <= f
    ensures 1.0 <= Sum(f) && (f <= 1.0 ==> Sum(f) <= Sum(1.0) == TAYLOR_AT_ONE)
  {
    hide Taylor;
    TaylorMonotone(f, f, 12);
    if f <= 1.0 {
      TaylorMonotone(f, 1.0, 12);
    }
    TaylorAtOne();
  }

  lemma {:induction false} IntPowSum(e: real, m: int, n: int)
    requires e > 0.0
    ensures IntPow(e, m + n) == IntPow(e, m) * IntPow(e, n)
    decreases if n < 0 then -n else n
  {
    hide IntPow;
    IntPowAtZero(e);
    if n > 0 {
      IntPowSum(e, m, n - 1);
      IntPowStep(e, m + n - 1);
      IntPowStep(e, n - 1);
      Reassociate(e, IntPow(e, m), IntPow(e, n - 1));
      assert m + (n - 1) == m + n - 1;
      assert IntPow(e, m) * (e * IntPow(e, n - 1)) == e * (IntPow(e, m) * IntPow(e, n - 1));
    } else if n < 0 {
      IntPowSum(e, m, n + 1);
      IntPowStep(e, m + n);
      IntPowStep(e, n);
      assert m + (n + 1) == m + n + 1;
      assert IntPow(e, m) * (e * IntPow(e, n)) == e * (IntPow(e, m) * IntPow(e, n));
      Cancel(e, IntPow(e, m + n), IntPow(e, m) * IntPow(e, n));
      Cancel(e, IntPow(e, m) * IntPow(e, n), IntPow(e, m + n));
    }
  }

  /** `v` is `w`, up to a relative error. */
  ghost predicate Near(v: real, w: real, eps: real) {
    -Times(w, eps) <= v - w <= Times(w, eps)
  }

  const EPS: real := 0.000002

  lemma TimesIs(x: real, y: real)
    ensures Times(x, y) == x * y
  {}

  lemma Bracket(x: real, y: real, lo: real, hi: real)
    requires x >= 0.0 && lo <= y <= hi
    ensures x * lo <= Times(x, y) <= x * hi
  {
    assert x * (y - lo) >= 0.0 && x * (hi - y) >= 0.0;
    Distribute(x, y, -lo);
    Distribute(x, hi, -y);
  }

  lemma NearByGap(v: real, w: real)
    requires -0.00000173 <= v - w <= 0.00000173 && w >= 1.0
    ensures Near(v, w, EPS)
  {}

  /** With the two fractions adding up to less than one, and to one or more. */
  lemma FractionsMultiply(f: real, g: real)
    requires 0.0 <= f < 1.0 && 0.0 <= g < 1.0
    ensures f + g < 1.0 ==> Near(Times(Sum(f), Sum(g)), Sum(f + g), EPS)
    ensures f + g >= 1.0 ==> Near(Times(Sum(f), Sum(g)), Times(E, Sum(f + g - 1.0)), EPS)
  {
    hide Sum, Times, Near;
    ProductError(f, g);
    SumRange(f + g);
    if f + g < 1.0 {
      NearByGap(Times(Sum(f), Sum(g)), Sum(f + g));
    } else {
      var h := f + g - 1.0;
      SumRange(h);
      ProductError(1.0, h);
      assert 1.0 + h == f + g;
      AlmostE(Sum(h));
      NearByGap(Times(Sum(f), Sum(g)), Times(E, Sum(h)));
    }
  }

  lemma AlmostE(x: real)
    requires 1.0 <= x <= TAYLOR_AT_ONE
    ensures 0.0 <= Times(E, x) - Times(TAYLOR_AT_ONE, x) <= 0.000000001 && Times(E, x) >= 1.0
  {}

  /** In exact exponents, the code's exponential turns sums into products. */
  lemma ExpOfSum(s: real, t: real)
    ensures Near(Times(Exp(E, s), Exp(E, t)), Exp(E, s + t), EPS)
  {
    hide Sum, IntPow, Near, Times, Exp;
    var m, n := s.Floor, t.Floor;
    var f, g := s - m as real, t - n as real;
    FractionsMultiply(f, g);
    IntPowStep(E, m + n);
    var p := IntPow(E, m + n);
    SplitExp(s, m);
    SplitExp(t, n);
    SplitProduct(m, n, f, g);
    if f + g < 1.0 {
      SplitExp(s + t, m + n);
      assert s + t - (m + n) as real == f + g;
      ScaleNear(p, Times(Sum(f), Sum(g)), Sum(f + g), EPS);
    } else {
      SplitExp(s + t, m + n + 1);
      assert s + t - (m + n + 1) as real == f + g - 1.0;
      ScaleNear(p, Times(Sum(f), Sum(g)), Times(E, Sum(f + g - 1.0)), EPS);
      MoveE(p, Sum(f + g - 1.0), IntPow(E, m + n + 1));
    }
  }

  lemma SplitExp(t: real, n: int)
    requires n as real <= t < n as real + 1.0
    ensures t.Floor == n && Exp(E, t) == Times(IntPow(E, n), Sum(t - n as real))
  {
    hide Taylor, IntPow;
  }

  lemma SplitProduct(m: int, n: int, f: real, g: real)
    ensures Times(Times(IntPow(E, m), Sum(f)), Times(IntPow(E, n), Sum(g)))
         == Times(IntPow(E, m + n), Times(Sum(f), Sum(g)))
  {
    hide Sum, IntPow;
    IntPowSum(E, m, n);
    Regroup(IntPow(E, m), Sum(f), IntPow(E, n), Sum(g));
  }

  lemma MoveE(p: real, x: real, q: real)
    requires q == E * p
    ensures Times(p, Times(E, x)) == Times(q, x)
  {
    Reassociate(p, E, x);
  }

  lemma Regroup(a: real, b: real, c: real, d: real)
    ensures (a * b) * (c * d) == (a * c) * (b * d)
  {
    Reassociate(a, b, c * d);
    Reassociate(b, c, d);
    Reassociate(c, b, d);
    Reassociate(a, c, b * d);
  }

  lemma ScaleNear(p: real, v: real, w: real, eps: real)
    requires p > 0.0 && Near(v, w, eps)
    ensures Near(Times(p, v), Times(p, w), eps)
  {
    var d, x := v - w, eps * w;
    assert p * v - p * w == p * d;
    assert eps * (p * w) == p * x;
    assert p * (x - d) >= 0.0 && p * (x + d) >= 0.0;
    Distribute(p, x, d);
    Distribute(p, x, -d);
  }

  /** Inside the cut-offs. */
  predicate Inside(x: real) {
    -20.0 <= x * LN10 <= 20.0
  }

  lemma InsideIs(x: real, t: real)
    requires Inside(x) && t == x * LN10
    ensures Approx(E, x) == Exp(E, t)
  {
    hide Exp;
  }

  /** The approximation of 10^x turns sums into products, for all real arguments inside the cut-offs. */
  lemma ApproxOfSum(x: real, y: real)
    requires Inside(x) && Inside(y) && Inside(x + y)
    ensures Near(Times(Approx(E, x), Approx(E, y)), Approx(E, x + y), EPS)
  {
    hide Exp, Near, Approx, Times;
    var s, t, u := x * LN10, y * LN10, (x + y) * LN10;
    InsideIs(x, s);
    InsideIs(y, t);
    assert u == s + t;
    InsideIs(x + y, u);
    ExpOfSum(s, t);
  }

  // --- Powers of ten ---

  /** ln(10) - 2, to six decimals. */
  const FRACTION: real := 0.302585

  /** Each term from the one before, in exact decimals. */
  lemma TermsAtFraction()
    ensures Term(FRACTION, 0) == 1.0 && Term(FRACTION, 1) == FRACTION
    ensures 0.0457788 <= Term(FRACTION, 2) <= 0.0457789
    ensures 0.00461732 <= Term(FRACTION, 3) <= 0.00461734
    ensures 0.000349282 <= Term(FRACTION, 4) <= 0.000349285
    ensures 0.0000211374 <= Term(FRACTION, 5) <= 0.0000211377
    ensures 0.00000106596 <= Term(FRACTION, 6) <= 0.000001066
  {
    TermZero(FRACTION);
    hide Term;
    TermStep(FRACTION, 1);
    TermStep(FRACTION, 2);
    TermStep(FRACTION, 3);
    TermStep(FRACTION, 4);
    TermStep(FRACTION, 5);
    TermStep(FRACTION, 6);
  }

  lemma LastTermsAtFraction()
    ensures Term(FRACTION, 7) + Term(FRACTION, 8) + Term(FRACTION, 9) + Term(FRACTION, 10) + Term(FRACTION, 11)
         + Term(FRACTION, 12) <= 0.000000049
    ensures forall k: nat | k in {7, 8, 9, 10, 11, 12} :: Term(FRACTION, k) >= 0.0
  {
    TermsAtFraction();
    hide Term;
    TermStep(FRACTION, 7);
    TermStep(FRACTION, 8);
    TermStep(FRACTION, 9);
    TermStep(FRACTION, 10);
    TermStep(FRACTION, 11);
    TermStep(FRACTION, 12);
  }

  lemma SumOfTerms(f: real)
    ensures Sum(f) == Term(f, 0) + Term(f, 1) + Term(f, 2) + Term(f, 3) + Term(f, 4) + Term(f, 5) + Term(f, 6)
                    + Term(f, 7) + Term(f, 8) + Term(f, 9) + Term(f, 10) + Term(f, 11) + Term(f, 12)
  {
    TermZero(f);
    hide Term;
    assert Taylor(f, 1) == 1.0 + Term(f, 1);
    assert Taylor(f, 3) == Taylor(f, 1) + Term(f, 2) + Term(f, 3);
    assert Taylor(f, 5) == Taylor(f, 3) + Term(f, 4) + Term(f, 5);
    assert Taylor(f, 7) == Taylor(f, 5) + Term(f, 6) + Term(f, 7);
    assert Taylor(f, 9) == Taylor(f, 7) + Term(f, 8) + Term(f, 9);
    assert Taylor(f, 11) == Taylor(f, 9) + Term(f, 10) + Term(f, 11);
  }

  lemma SumAtFraction()
    ensures 1.3533526 <= Sum(FRACTION) <= 1.3533532
  {
    hide Term, Sum;
    TermsAtFraction();
    LastTermsAtFraction();
    SumOfTerms(FRACTION);
  }

  /** The sum grows slowly near zero. */
  lemma {:induction false} SmallSum(d: real, k: nat)
    requires 0.0 <= d <= 1.0
    ensures Taylor(d, k) <= 1.0 + d * (Taylor(1.0, k) - 1.0)
  {
    if k > 0 {
      SmallSum(d, k - 1);
      SmallTerm(d, k);
      Distribute(d, Taylor(1.0, k - 1) - 1.0, Term(1.0, k));
    }
  }

  lemma SmallTerm(d: real, k: nat)
    requires 0.0 <= d <= 1.0 && k >= 1
    ensures Term(d, k) <= d * Term(1.0, k)
  {
    hide Term;
    TermStep(d, k);
    TermStep(1.0, k);
    TermMonotone(d, 1.0, k - 1);
    ScaledTerm(Term(d, k), Term(1.0, k), Term(d, k - 1), Term(1.0, k - 1), d, k as real);
  }

  lemma ScaledTerm(x: real, y: real, x': real, y': real, d: real, r: real)
    requires r > 0.0 && 0.0 <= d && 0.0 <= x' <= y' && x * r == x' * d && y * r == y' * 1.0
    ensures x <= d * y
  {
    RealProductMonotone(x', y', d, d);
    assert r * (d * y) == d * (y * r);
    Cancel(r, x, d * y);
  }

  /** 10^1. */
  lemma ApproxAtOne()
    ensures 9.99999 <= Approx(E, 1.0) <= 10.00001
  {
    hide Taylor, Exp, Approx, Term, Times;
    var f, d := LN10 - 2.0, LN10 - 2.0 - FRACTION;
    InsideIs(1.0, LN10);
    SplitExp(LN10, 2);
    SquareOfE();
    SumAtFraction();
    TaylorMonotone(FRACTION, f, 12);
    ProductOfSums(FRACTION, d);
    assert FRACTION + d == f;
    SmallSum(d, 12);
    TaylorAtOne();
    TaylorMonotone(0.0, d, 12);
    SumBelow(Sum(FRACTION), Taylor(d, 12), d);
    BoundedProduct(IntPow(E, 2), Sum(f));
  }

  lemma SquareOfE()
    ensures 7.38905609 <= IntPow(E, 2) <= 7.3890561
  {
    assert IntPow(E, 2) == Pow(E, 2);
    assert Pow(E, 1) == E * Pow(E, 0) == E;
    assert Pow(E, 2) == E * E;
  }

  lemma SumBelow(t: real, u: real, d: real)
    requires 0.0 <= t <= 1.3533532 && 1.0 <= u <= 1.0 + d * (TAYLOR_AT_ONE - 1.0) && 0.0 <= d <= 0.0000001
    ensures Times(t, u) <= 1.3533536
  {
    RealProductMonotone(t, 1.3533532, u, 1.0000002);
  }

  lemma BoundedProduct(p: real, x: real)
    requires 7.38905609 <= p <= 7.3890561 && 1.3533526 <= x <= 1.3533536
    ensures 9.99999 <= Times(p, x) <= 10.00001
  {
    RealProductMonotone(7.38905609, p, 1.3533526, x);
    RealProductMonotone(p, 7.3890561, x, 1.3533536);
  }

  /** One more factor of ten adds a little to the relative error. */
  lemma TenTimes(a: real, t: real, c: real, one: real, d: real)
    requires t > 0.0 && 0.0 <= d <= 0.0001 && Near(a, t, d)
    requires 9.99999 <= one <= 10.00001 && Near(Times(a, one), c, EPS)
    ensures Near(c, 10.0 * t, d + 0.000004)
  {
    hide Times;
    Bracket(t, d, 0.0, 0.0001);
    Bracket(a, one, 9.99999, 10.00001);
    TimesIs(c, EPS);
    WiderError(t, d);
  }

  lemma WiderError(t: real, d: real)
    ensures Times(10.0 * t, d + 0.000004) == 10.0 * Times(t, d) + 0.00004 * t
  {
    Distribute(10.0 * t, d, 0.000004);
  }

  lemma ApproxAtZero()
    ensures Approx(E, 0.0) == 1.0
  {
    SideOfOne(0.0);
  }

  lemma {:induction false} PositiveDecade(k: nat)
    requires k <= 8
    ensures Near(Approx(E, k as real), Pow(10.0, k), 0.000004 * k as real)
  {
    hide Approx, Near;
    PowPositive(10.0, k);
    if k == 0 {
      ApproxAtZero();
      NearItself(1.0);
    } else {
      PositiveDecade(k - 1);
      PowPositive(10.0, k - 1);
      ApproxOfSum((k - 1) as real, 1.0);
      ApproxAtOne();
      assert (k - 1) as real + 1.0 == k as real;
      TenTimes(Approx(E, (k - 1) as real), Pow(10.0, k - 1), Approx(E, k as real), Approx(E, 1.0),
               0.000004 * (k - 1) as real);
    }
  }

  lemma NearItself(w: real)
    ensures Near(w, w, 0.0)
  {}

  lemma BracketScaled(a: real, t: real, b: real, lo: real, hi: real)
    requires b >= 0.0 && lo * t <= a <= hi * t
    ensures lo * Times(t, b) <= Times(a, b) <= hi * Times(t, b)
  {
    Bracket(b, a, lo * t, hi * t);
    Reassociate(lo, t, b);
    Reassociate(hi, t, b);
  }

  lemma Undo(t: real, t': real, b: real)
    requires t * t' == 1.0
    ensures Times(t', Times(t, b)) == b
  {
    Reassociate(t', t, b);
  }

  /** The value at -k, from that at k and their product. */
  lemma Reciprocal(a: real, b: real, t: real, t': real, d: real)
    requires t > 0.0 && t' > 0.0 && t * t' == 1.0 && b > 0.0
    requires 0.0 <= d <= 0.00004 && Near(a, t, d) && Near(Times(a, b), 1.0, EPS)
    ensures Near(b, t', 0.00005)
  {
    Undo(t, t', b);
    hide Times;
    Bracket(t, d, 0.0, 0.00004);
    BracketScaled(a, t, b, 0.99996, 1.00004);
    TimesIs(1.0, EPS);
    Bracket(t', Times(t, b), 0.99995, 1.00005);
    TimesIs(t', 0.00005);
  }

  /** For integers k the approximation is 10^k up to a relative error of 5e-5 inside the cut-offs; beyond them
      it is zero or the largest float. */
  lemma PowersOfTen(k: int)
    ensures -8 <= k <= 8 ==> Near(Approx(E, k as real), IntPow(10.0, k), 0.00005)
    ensures k < -8 ==> Approx(E, k as real) == 0.0
    ensures k > 8 ==> Approx(E, k as real) == F32_MAX
  {
    hide Exp, Near;
    if 0 <= k <= 8 {
      PositiveDecade(k);
      IntPowStep(10.0, k);
      Looser(Approx(E, k as real), IntPow(10.0, k), 0.000004 * k as real, 0.00005);
    } else if -8 <= k < 0 {
      NegativeDecade(-k);
      assert -((-k) as real) == k as real;
    }
  }

  lemma Looser(v: real, w: real, d: real, d': real)
    requires Near(v, w, d) && d <= d' && w > 0.0
    ensures Near(v, w, d')
  {
    assert (d' - d) * w >= 0.0;
  }

  lemma NegativeDecade(k: int)
    requires 1 <= k <= 8
    ensures Near(Approx(E, -(k as real)), IntPow(10.0, -k), 0.00005)
  {
    hide Exp, Near, IntPow;
    PositiveDecade(k);
    var x := k as real;
    assert x + -x == 0.0;
    ApproxOfSum(x, -x);
    ApproxAtZero();
    InsideIs(-x, -x * LN10);
    ExpMonotone(E, -x * LN10, -x * LN10);
    IntPowStep(10.0, k);
    IntPowStep(10.0, -k);
    IntPowSum(10.0, k, -k);
    IntPowAtZero(10.0);
    assert IntPow(10.0, k) == Pow(10.0, k) by { PositiveIntPow(10.0, k); }
    Reciprocal(Approx(E, x), Approx(E, -x), Pow(10.0, k), IntPow(10.0, -k), 0.000004 * x);
  }

  lemma PositiveIntPow(e: real, k: nat)
    requires e > 0.0
    ensures IntPow(e, k) == Pow(e, k)
  {}

  /** Between two integers the value lies between the two powers, up to the same error. */
  lemma BetweenPowers(x: real, k: int)
    requires k as real <= x <= (k + 1) as real && -8 <= k < 8
    ensures 0.99995 * IntPow(10.0, k) <= Approx(E, x) <= 1.00005 * IntPow(10.0, k + 1)
  {
    hide Approx, IntPow, Pow;
    PowersOfTen(k);
    PowersOfTen(k + 1);
    WhichEulerIsMonotone();
    assert Approx(E, k as real) <= Approx(E, x) <= Approx(E, (k + 1) as real);
  }

  // --- The raw delay ---

  /** The raw delay is (10^(0.85 - SNR/4) - 1) times the airtime: at 3.4 dB less 4k dB, 10^k - 1 times it. */
  lemma RawDelayAtSteps(k: int, airtimeMs: u32)
    requires -8 <= k <= 8
    ensures Near(RxDelay.RawDelay(3.4 - 4.0 * k as real, airtimeMs) + airtimeMs as real,
                 Times(airtimeMs as real, IntPow(10.0, k)), 0.00005)
  {
    hide Approx, Near, IntPow;
    var air, p := airtimeMs as real, Approx(E, k as real);
    PowersOfTen(k);
    assert 0.85 - (3.4 - 4.0 * k as real) / 4.0 == k as real;
    assert RxDelay.RawDelay(3.4 - 4.0 * k as real, airtimeMs) + air == Times(air, p) by { Distribute(air, p, -1.0); }
    if airtimeMs > 0 {
      ScaleNear(air, p, IntPow(10.0, k), 0.00005);
    } else {
      NothingIsNear(p, IntPow(10.0, k), 0.00005);
    }
  }

  lemma NothingIsNear(v: real, w: real, eps: real)
    ensures Near(Times(0.0, v), Times(0.0, w), eps)
  {}

  lemma ExactTen(p: real, q: real, one: real)
    requires p > 0.0 && 9.99999 <= one <= 10.00001 && Near(Times(p, one), q, EPS)
    ensures Near(10.0 * p, q, 0.000004)
  {
    hide Times;
    Bracket(p, one, 9.99999, 10.00001);
    TimesIs(q, EPS);
    TimesIs(q, 0.000004);
  }

  /** Every 4 dB less multiply the sum of raw delay and airtime by ten, for every SNR. */
  lemma FourDecibels(snr: real, airtimeMs: u32)
    requires Inside(0.85 - snr / 4.0) && Inside(1.85 - snr / 4.0) && airtimeMs > 0
    ensures var here, there := RxDelay.RawDelay(snr, airtimeMs), RxDelay.RawDelay(snr - 4.0, airtimeMs);
      Near(10.0 * (here + airtimeMs as real), there + airtimeMs as real, 0.000004)
  {
    hide Exp, Approx, Near;
    var x, air := 0.85 - snr / 4.0, airtimeMs as real;
    assert x + 1.0 == 0.85 - (snr - 4.0) / 4.0 == 1.85 - snr / 4.0;
    assert Inside(1.0);
    ApproxOfSum(x, 1.0);
    ApproxAtOne();
    var p, q := Approx(E, x), Approx(E, x + 1.0);
    InsideIs(x, x * LN10);
    ExpMonotone(E, x * LN10, x * LN10);
    ExactTen(p, q, Approx(E, 1.0));
    ScaleNear(air, 10.0 * p, q, 0.000004);
    assert RxDelay.RawDelay(snr, airtimeMs) + air == Times(air, p) by { Distribute(air, p, -1.0); }
    assert RxDelay.RawDelay(snr - 4.0, airtimeMs) + air == Times(air, q) by { Distribute(air, q, -1.0); }
    assert Times(air, 10.0 * p) == 10.0 * Times(air, p);
  }
}
