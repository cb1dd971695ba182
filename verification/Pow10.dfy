/** `pow10_approx`: range reduction, a 12-term Taylor sum and repeated squaring, over exact reals. */
module Pow10 {
  import opened Machine
  import opened Arithmetic

  // The decimal literals of the constants `E` and `LN_10`.
  const E: real := 2.71828182845904523536028747135266250
  const LN10: real := 2.30258509299404568401799145468436421

  /** The nearest 32-bit float to E, as an exact decimal. */
  const E_SINGLE: real := 2.71828174591064453125

  const F32_MAX: real := 340282346638528859811704183484516925440.0

  lemma Cancel(r: real, a: real, b: real)
    requires r > 0.0 && r * a <= r * b
    ensures a <= b
  {}

  // --- Powers ---

  function Pow(b: real, n: nat): real {
    if n == 0 then 1.0 else b * Pow(b, n - 1)
  }

  /** e^n for any integer n, by whole powers of e or of 1/e. */
  function IntPow(e: real, n: int): real
    requires e > 0.0
  {
    if n >= 0 then Pow(e, n) else Pow(1.0 / e, -n)
  }

  lemma {:induction false} PowPositive(b: real, n: nat)
    requires b > 0.0
    ensures Pow(b, n) > 0.0
  {
    if n > 0 {
      PowPositive(b, n - 1);
    }
  }

  lemma {:induction false} PowOfSquare(b: real, n: nat)
    ensures Pow(b * b, n) == Pow(b, 2 * n)
  {
    if n > 0 {
      PowOfSquare(b, n - 1);
      var p := Pow(b, 2 * n - 2);
      assert Pow(b, 2 * n - 1) == b * p;
      assert Pow(b, 2 * n) == b * (b * p);
      assert b * b * p == b * (b * p);
    }
  }

  lemma IntPowStep(e: real, n: int)
    requires e > 0.0
    ensures IntPow(e, n + 1) == e * IntPow(e, n) && IntPow(e, n) > 0.0
  {
    PowPositive(e, Max(n, 0));
    PowPositive(1.0 / e, Max(-n, 0));
    if n < 0 {
      var p := IntPow(e, n + 1);
      assert IntPow(e, n) == (1.0 / e) * p;
      assert e * ((1.0 / e) * p) == p;
    }
  }

  lemma {:induction false} IntPowMonotone(e: real, m: int, n: int)
    requires e >= 1.0 && m <= n
    ensures 0.0 < IntPow(e, m) <= IntPow(e, n)
    decreases n - m
  {
    IntPowStep(e, m);
    if m < n {
      RealProductMonotone(1.0, e, IntPow(e, m), IntPow(e, m));
      IntPowMonotone(e, m + 1, n);
    }
  }

  // --- The Taylor sum ---

  /** f^k / k!, as the loop builds it. */
  function Term(f: real, k: nat): real {
    if k == 0 then 1.0 else Term(f, k - 1) * (f / k as real)
  }

  function Taylor(f: real, k: nat): real {
    if k == 0 then 1.0 else Taylor(f, k - 1) + Term(f, k)
  }

  lemma TermStep(f: real, k: nat)
    requires k >= 1
    ensures Term(f, k) * k as real == Term(f, k - 1) * f
  {}

  lemma {:induction false} TermMonotone(f: real, g: real, k: nat)
    requires 0.0 <= f <= g
    ensures 0.0 <= Term(f, k) <= Term(g, k)
  {
    if k > 0 {
      TermMonotone(f, g, k - 1);
      var r := k as real;
      TermStep(f, k);
      TermStep(g, k);
      RealProductMonotone(Term(f, k - 1), Term(g, k - 1), f, g);
      Cancel(r, 0.0, Term(f, k));
      Cancel(r, Term(f, k), Term(g, k));
    }
  }

  lemma {:induction false} TaylorMonotone(f: real, g: real, k: nat)
    requires 0.0 <= f <= g
    ensures 1.0 <= Taylor(f, k) <= Taylor(g, k)
  {
    if k > 0 {
      TaylorMonotone(f, g, k - 1);
      TermMonotone(f, g, k);
    }
  }

  /** The sum of 1/k! up to k = 12. */
  const TAYLOR_AT_ONE: real := 260412269.0 / 95800320.0

  lemma TaylorAtOne()
    ensures Taylor(1.0, 12) == TAYLOR_AT_ONE
  {
    assert Term(1.0, 1) == 1.0;
    assert Term(1.0, 2) == 1.0 / 2.0;
    assert Term(1.0, 3) == 1.0 / 6.0;
    assert Term(1.0, 4) == 1.0 / 24.0;
    assert Term(1.0, 5) == 1.0 / 120.0;
    assert Term(1.0, 6) == 1.0 / 720.0;
    assert Term(1.0, 7) == 1.0 / 5040.0;
    assert Term(1.0, 8) == 1.0 / 40320.0;
    assert Term(1.0, 9) == 1.0 / 362880.0;
    assert Term(1.0, 10) == 1.0 / 3628800.0;
    assert Term(1.0, 11) == 1.0 / 39916800.0;
    assert Term(1.0, 12) == 1.0 / 479001600.0;
    assert Taylor(1.0, 4) == 65.0 / 24.0;
    assert Taylor(1.0, 8) == 109601.0 / 40320.0;
  }

  /** Truncation error: no longer Taylor sum exceeds the 12-term one by 1/(12*12!) or more. */
  lemma TruncationError(f: real, n: nat)
    requires 0.0 <= f <= 1.0 && n >= 12
    ensures 0.0 <= Taylor(f, n) - Taylor(f, 12) < 1.0 / (12.0 * 479001600.0)
  {
    TailBound(f, n);
    TermOnePositive(n);
    TaylorTwelve();
  }

  lemma TaylorTwelve()
    ensures Term(1.0, 12) == 1.0 / 479001600.0
  {}

  lemma {:induction false} TermOnePositive(n: nat)
    ensures Term(1.0, n) > 0.0
  {
    if n > 0 {
      TermOnePositive(n - 1);
    }
  }

  /** The tail telescopes: terms 13 to n stay below 1/(12*12!) - 1/(n*n!). */
  lemma {:induction false} TailBound(f: real, n: nat)
    requires 0.0 <= f <= 1.0 && n >= 12
    ensures 0.0 <= Taylor(f, n) - Taylor(f, 12) <= Term(1.0, 12) / 12.0 - Term(1.0, n) / n as real
  {
    if n > 12 {
      TailBound(f, n - 1);
      TermMonotone(f, 1.0, n);
      TermOnePositive(n);
      TermStep(1.0, n);
      Telescope(Term(1.0, n - 1), Term(1.0, n), n as real);
    }
  }

  lemma Telescope(a: real, t: real, r: real)
    requires t * r == a && t > 0.0 && r > 1.0
    ensures t + t / r <= a / (r - 1.0)
  {
    var m := r - 1.0;
    assert a == t * m + t;
    assert (t * m + t) / m == t + t / m;
    assert t / m >= t / r;
  }

  // --- The approximation ---

  /** e^t as the code computes it inside the cut-offs: n is the floor of t. */
  function Exp(e: real, t: real): real
    requires e > 0.0
  {
    IntPow(e, t.Floor) * Taylor(t - t.Floor as real, 12)
  }

  /** `pow10_approx`, with the value standing for Euler's number as a parameter. */
  function Approx(e: real, x: real): real
    requires e > 0.0
  {
    var t := x * LN10;
    if t < -20.0 then 0.0
    else if t > 20.0 then F32_MAX
    else Exp(e, t)
  }

  /** Where the range reduction crosses an integer the sum restarts at 1, so the power of e
      has to make up for the lost factor. */
  lemma ExpMonotone(e: real, s: real, t: real)
    requires TAYLOR_AT_ONE <= e && s <= t
    ensures 0.0 < Exp(e, s) <= Exp(e, t)
  {
    var m, n := s.Floor, t.Floor;
    var f, g := s - m as real, t - n as real;
    hide Taylor, IntPow;
    IntPowMonotone(e, m, n);
    TaylorAtOne();
    TaylorMonotone(0.0, f, 12);
    TaylorMonotone(0.0, g, 12);
    if m == n {
      TaylorMonotone(f, g, 12);
      RealProductMonotone(IntPow(e, m), IntPow(e, n), Taylor(f, 12), Taylor(g, 12));
    } else {
      TaylorMonotone(f, 1.0, 12);
      IntPowMonotone(e, m + 1, n);
      IntPowStep(e, m);
      RealProductMonotone(IntPow(e, m), IntPow(e, m), Taylor(f, 12), e);
      RealProductMonotone(IntPow(e, n), IntPow(e, n), 1.0, Taylor(g, 12));
    }
    assert Exp(e, s) > 0.0 by {
      assert IntPow(e, m) * Taylor(f, 12) >= IntPow(e, m) * 1.0;
    }
  }

  /** Inside the cut-offs the value stays below the upper cut-off's substitute if the twentieth power does. */
  lemma ExpBelowMax(e: real, t: real)
    requires TAYLOR_AT_ONE <= e && Pow(e, 20) <= F32_MAX && t <= 20.0
    ensures Exp(e, t) <= F32_MAX
  {
    ExpMonotone(e, t, 20.0);
    ExpAtTwenty(e);
  }

  lemma ExpAtTwenty(e: real)
    requires e > 0.0
    ensures Exp(e, 20.0) == Pow(e, 20)
  {
    hide Taylor, Pow;
    assert (20.0).Floor == 20;
    assert Taylor(0.0, 12) == 1.0 by { TaylorAtZero(12); }
  }

  lemma {:induction false} TaylorAtZero(k: nat)
    ensures Taylor(0.0, k) == 1.0 && (k > 0 ==> Term(0.0, k) == 0.0)
  {
    if k > 0 {
      TaylorAtZero(k - 1);
    }
  }

  /** `pow10_approx` never reverses an order, across every integer boundary and both cut-offs. */
  lemma ApproxMonotone(e: real, x: real, y: real)
    requires TAYLOR_AT_ONE <= e && Pow(e, 20) <= F32_MAX && x <= y
    ensures 0.0 <= Approx(e, x) <= Approx(e, y)
  {
    hide Pow, Exp;
    var s, t := x * LN10, y * LN10;
    assert s <= t;
    if -20.0 <= s <= 20.0 {
      ExpMonotone(e, s, s);
      ExpBelowMax(e, s);
    }
    if -20.0 <= t <= 20.0 {
      ExpMonotone(e, t, t);
      if -20.0 <= s {
        ExpMonotone(e, s, t);
      }
    }
  }

  lemma TaylorAboveOne(f: real, k: nat)
    requires 0.0 < f && k >= 1
    ensures Taylor(f, k) > 1.0
  {
    if k == 1 {
      assert Term(f, 1) == f;
    } else {
      TaylorAboveOne(f, k - 1);
      TermMonotone(0.0, f, k);
      TermMonotone(f, f, k);
    }
  }

  lemma ExpAboveOne(e: real, t: real)
    requires e > 1.0 && t > 0.0
    ensures Exp(e, t) > 1.0
  {
    hide Taylor, IntPow;
    var n := t.Floor;
    var f := t - n as real;
    TaylorMonotone(0.0, f, 12);
    TaylorAtZero(12);
    if n == 0 {
      TaylorAboveOne(f, 12);
      IntPowAtZero(e);
    } else {
      IntPowStep(e, 0);
      IntPowAtZero(e);
      IntPowMonotone(e, 1, n);
      RealProductMonotone(e, IntPow(e, n), 1.0, Taylor(f, 12));
    }
  }

  lemma ExpBelowOne(e: real, t: real)
    requires e > TAYLOR_AT_ONE && t < 0.0
    ensures Exp(e, t) < 1.0
  {
    hide Taylor, IntPow;
    var n := t.Floor;
    var f := t - n as real;
    TaylorAtOne();
    TaylorMonotone(f, 1.0, 12);
    IntPowStep(e, n);
    IntPowAtZero(e);
    IntPowMonotone(e, n + 1, 0);
    StrictProduct(IntPow(e, n), Taylor(f, 12), e);
  }

  lemma IntPowAtZero(e: real)
    requires e > 0.0
    ensures IntPow(e, 0) == 1.0
  {}

  lemma StrictProduct(p: real, a: real, b: real)
    requires p > 0.0 && a < b
    ensures p * a < b * p
  {}

  /** The approximation is exact at zero and on the right side of one everywhere else. */
  lemma SideOfOne(x: real)
    ensures x == 0.0 ==> Approx(E, x) == 1.0
    ensures x > 0.0 ==> Approx(E, x) > 1.0
    ensures x < 0.0 ==> Approx(E, x) < 1.0
  {
    hide Taylor, IntPow;
    var t := x * LN10;
    TaylorAtZero(12);
    IntPowAtZero(E);
    if 0.0 < t <= 20.0 {
      ExpAboveOne(E, t);
    } else if -20.0 <= t < 0.0 {
      ExpBelowOne(E, t);
    }
  }

  /** Zero stands exactly for arguments below the lower cut-off, the largest float for those above the upper one. */
  lemma CutOffs(x: real)
    ensures Approx(E, x) == 0.0 <==> x * LN10 < -20.0
    ensures Approx(E, x) == F32_MAX <==> x * LN10 > 20.0
  {
    hide Exp, Pow;
    var t := x * LN10;
    if -20.0 <= t <= 20.0 {
      ExpMonotone(E, t, 20.0);
      ExpAtTwenty(E);
      TwentiethPowerFits(E);
    }
  }

  ghost predicate Monotone(e: real)
    requires e > 0.0
  {
    forall x, y | x <= y :: Approx(e, x) <= Approx(e, y)
  }

  /** The Taylor sum is 12-Lipschitz on [0, 1]. */
  lemma {:induction false} TaylorGap(f: real, k: nat)
    requires 0.0 <= f <= 1.0
    ensures Taylor(1.0, k) - Taylor(f, k) <= k as real * (1.0 - f)
    ensures Term(1.0, k) - Term(f, k) <= 1.0 - f || k == 0
  {
    if k > 0 {
      TaylorGap(f, k - 1);
      TermGap(f, k);
    }
  }

  /** 1/k! - f^k/k! <= 1 - f, for k >= 1. */
  lemma {:induction false} TermGap(f: real, k: nat)
    requires 0.0 <= f <= 1.0 && k >= 1
    ensures Term(1.0, k) - Term(f, k) <= 1.0 - f
  {
    if k == 1 {
      assert Term(1.0, 1) == 1.0 && Term(f, 1) == f;
    } else {
      TermGap(f, k - 1);
      TermStep(1.0, k);
      TermStep(f, k);
      TermMonotone(f, 1.0, k - 1);
      TermAtMostOne(k - 1);
      GapStep(Term(1.0, k - 1), Term(f, k - 1), Term(1.0, k), Term(f, k), f, k as real);
    }
  }

  /** a - b*f = (a - b) + b*(1 - f) is at most twice 1 - f, and r is at least 2. */
  lemma GapStep(a: real, b: real, a': real, b': real, f: real, r: real)
    requires 0.0 <= f <= 1.0 && 0.0 <= b <= a <= 1.0 && a - b <= 1.0 - f && r >= 2.0
    requires a' * r == a * 1.0 && b' * r == b * f
    ensures a' - b' <= 1.0 - f
  {
    assert a - b * f == (a - b) + b * (1.0 - f);
    RealProductMonotone(b, 1.0, 1.0 - f, 1.0 - f);
    RealProductMonotone(2.0, r, 1.0 - f, 1.0 - f);
    assert r * (a' - b') == a - b * f;
    Cancel(r, a' - b', 1.0 - f);
  }

  lemma {:induction false} TermAtMostOne(k: nat)
    ensures 0.0 < Term(1.0, k) <= 1.0
  {
    if k > 0 {
      TermAtMostOne(k - 1);
      var r := k as real;
      assert Term(1.0, k - 1) * (1.0 / r) <= 1.0 * 1.0 by {
        RealProductMonotone(Term(1.0, k - 1), 1.0, 1.0 / r, 1.0);
      }
      assert 1.0 / r > 0.0;
    }
  }

  /** Exactly when monotonicity holds: the constant must reach the sum it is multiplied against, and its
      twentieth power must not exceed the substitute beyond the upper cut-off. */
  lemma MonotoneIff(e: real)
    requires e > 0.0
    ensures Monotone(e) <==> TAYLOR_AT_ONE <= e && Pow(e, 20) <= F32_MAX
  {
    hide Pow, Approx;
    if e < TAYLOR_AT_ONE {
      DipsAtOne(e);
    } else if Pow(e, 20) > F32_MAX {
      DropsAtTwenty(e);
    } else {
      forall x, y | x <= y ensures Approx(e, x) <= Approx(e, y) {
        ApproxMonotone(e, x, y);
      }
    }
  }

  /** With too large a constant, it falls when t passes 20. */
  lemma DropsAtTwenty(e: real)
    requires e > 0.0 && Pow(e, 20) > F32_MAX
    ensures exists x, y :: x <= y && Approx(e, x) > Approx(e, y)
  {
    hide Pow, Exp;
    ApproxAt(e, 20.0);
    ExpAtTwenty(e);
    var x, y := 20.0 / LN10, 21.0 / LN10;
    assert x <= y && Approx(e, x) > Approx(e, y);
  }

  /** Every constant up to 3 is small enough. */
  lemma TwentiethPowerFits(e: real)
    requires 0.0 < e <= 3.0
    ensures Pow(e, 20) <= 3486784401.0 < F32_MAX
  {
    PowBelow(e, 20);
    assert Pow(3.0, 4) == 81.0;
    assert Pow(3.0, 8) == 6561.0;
    assert Pow(3.0, 12) == 531441.0;
    assert Pow(3.0, 16) == 43046721.0;
    assert Pow(3.0, 20) == 3486784401.0;
  }

  lemma {:induction false} PowBelow(e: real, n: nat)
    requires 0.0 < e <= 3.0
    ensures 0.0 < Pow(e, n) <= Pow(3.0, n)
  {
    if n > 0 {
      PowBelow(e, n - 1);
      RealProductMonotone(Pow(e, n - 1), Pow(3.0, n - 1), e, 3.0);
      PowPositive(e, n);
    }
  }

  /** With too small a constant, the value falls when t reaches 1. */
  lemma DipsAtOne(e: real)
    requires 0.0 < e < TAYLOR_AT_ONE
    ensures exists x, y :: x <= y && Approx(e, x) > Approx(e, y)
  {
    hide Taylor;
    var d := (TAYLOR_AT_ONE - e) / 24.0;
    var f := 1.0 - d;
    TaylorGap(f, 12);
    TaylorAtOne();
    TaylorAtZero(12);
    ApproxAt(e, f);
    ApproxAt(e, 1.0);
    assert (1.0).Floor == 1 && f.Floor == 0;
    assert IntPow(e, 1) == e * Pow(e, 0) == e;
    var x, y := f / LN10, 1.0 / LN10;
    assert x <= y && Approx(e, x) > Approx(e, y);
  }

  /** Every t inside the cut-offs is met. */
  lemma ApproxAt(e: real, t: real)
    requires e > 0.0 && -20.0 <= t <= 20.0
    ensures Approx(e, t / LN10) == Exp(e, t)
  {}

  /** The decimal constant qualifies; its rounding to a 32-bit float is 1e-7 too small. */
  lemma WhichEulerIsMonotone()
    ensures Monotone(E) && !Monotone(E_SINGLE)
  {
    hide Pow;
    TwentiethPowerFits(E);
    MonotoneIff(E);
    MonotoneIff(E_SINGLE);
  }

  // --- The loops ---

  lemma SquaringStep(en: real, base: real, exp: nat)
    requires exp > 0
    ensures en * Pow(base, exp) == (if exp % 2 != 0 then en * base else en) * Pow(base * base, exp / 2)
  {
    PowOfSquare(base, exp / 2);
    if exp % 2 != 0 {
      assert exp - 1 == 2 * (exp / 2);
      Reassociate(en, base, Pow(base, exp - 1));
    }
  }

  lemma Reassociate(a: real, b: real, c: real)
    ensures a * (b * c) == (a * b) * c
  {}

  /** Repeated squaring computes base^exp exactly, for every exponent. */
  method PowBySquaring(base0: real, exp0: nat) returns (en: real)
    ensures en == Pow(base0, exp0)
  {
    en := 1.0;
    var base, exp := base0, exp0;
    while exp > 0
      invariant en * Pow(base, exp) == Pow(base0, exp0)
    {
      SquaringStep(en, base, exp);
      if exp % 2 != 0 {
        en := en * base;
      }
      base := base * base;
      exp := exp / 2;
    }
  }

  /** Rust's `as i32` on an in-range float: toward zero. */
  function TruncToInt(t: real): int {
    if t >= 0.0 then t.Floor else -((-t).Floor)
  }

  method TaylorLoop(f: real) returns (result: real)
    ensures result == Taylor(f, 12)
  {
    result := 1.0;
    var term := 1.0;
    for i := 1 to 13
      invariant term == Term(f, i - 1) && result == Taylor(f, i - 1)
    {
      term := term * (f / i as real);
      result := result + term;
    }
  }

  /** The integer part always leaves a fraction in [0, 1). */
  method RangeReduce(t: real) returns (n: int)
    ensures n == t.Floor && 0.0 <= t - n as real < 1.0
  {
    if t >= 0.0 {
      n := TruncToInt(t);
    } else {
      var trunc := TruncToInt(t);
      n := if trunc as real > t then trunc - 1 else trunc;
    }
  }

  method Pow10Approx(x: real) returns (r: real)
    ensures r == Approx(E, x)
  {
    hide Taylor, Pow;
    var t := x * LN10;
    if t < -20.0 {
      return 0.0;
    }
    if t > 20.0 {
      return F32_MAX;
    }
    var n := RangeReduce(t);
    var f := t - n as real;
    var result := TaylorLoop(f);
    var en := PowBySquaring(if n >= 0 then E else 1.0 / E, if n >= 0 then n else -n);
    return en * result;
  }
}
