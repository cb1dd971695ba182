/** The airtime token bucket. */
module DutyCycle {
  import opened Machine
  import opened Types

  datatype Bucket = Bucket(
    budgetMs: u32,
    lastRefill: nat,
    maxBudgetMs: u32,
    duty: real,
    minReserveMs: u32)

  ghost predicate Ok(b: Bucket) {
    b.budgetMs <= b.maxBudgetMs && 0.0 < b.duty <= 1.0
  }

  function New(config: Config): (b: Bucket)
    requires config.airtimeBudgetFactor >= 0.0
    ensures Ok(b) && b.budgetMs == b.maxBudgetMs && b.lastRefill == 0
    ensures b.duty * (1.0 + config.airtimeBudgetFactor) == 1.0
    ensures b.maxBudgetMs as real <= config.dutyCycleWindowMs as real * b.duty < b.maxBudgetMs as real + 1.0
    ensures b.minReserveMs == config.minTxBudgetReserveMs
  {
    var duty := 1.0 / (1.0 + config.airtimeBudgetFactor);
    var max := RealToU32(config.dutyCycleWindowMs as real * duty);
    Bucket(max, 0, max, duty, config.minTxBudgetReserveMs)
  }

  /** What `elapsed` milliseconds are worth, before saturation. */
  function Earned(duty: real, elapsed: nat): real {
    elapsed as real * duty
  }

  /** The clock never runs backwards; the source's subtraction fails otherwise. */
  function AfterRefill(b: Bucket, now: nat): Bucket
    requires b.lastRefill <= now
  {
    var refill := RealToU32(Earned(b.duty, now - b.lastRefill));
    b.(budgetMs := Min(b.maxBudgetMs, SaturatingAdd(b.budgetMs, refill)), lastRefill := now)
  }

  predicate Allows(b: Bucket, estAirtimeMs: u32) {
    b.budgetMs >= estAirtimeMs / 2 && b.budgetMs >= b.minReserveMs
  }

  function AfterDeduct(b: Bucket, actualAirtimeMs: u32): Bucket {
    b.(budgetMs := SaturatingSub(b.budgetMs, actualAirtimeMs))
  }

  lemma EarnedProduct(duty: real, m: nat, n: nat)
    requires duty > 0.0
    ensures Earned(duty, m) >= 0.0
    ensures Earned(duty, m + n) == Earned(duty, m) + Earned(duty, n)
  {}

  /** Neither saturation shows: the cap on the budget swallows them. */
  lemma RefillEarns(b: Bucket, now: nat)
    requires Ok(b) && b.lastRefill <= now
    ensures AfterRefill(b, now).budgetMs
         == Min(b.maxBudgetMs, b.budgetMs + Earned(b.duty, now - b.lastRefill).Floor)
    ensures Ok(AfterRefill(b, now)) && b.budgetMs <= AfterRefill(b, now).budgetMs
    ensures AfterRefill(b, now).budgetMs as real <= b.budgetMs as real + Earned(b.duty, now - b.lastRefill)
  {}

  /** The bucket after a refill: the whole milliseconds of elapsed time times rate, up to the cap. */
  lemma RefillExact(b: Bucket, now: nat)
    requires Ok(b) && b.lastRefill <= now
    ensures var r := AfterRefill(b, now);
      && r.budgetMs == Min(b.maxBudgetMs, b.budgetMs + ((now - b.lastRefill) as real * b.duty).Floor)
      && r == b.(budgetMs := r.budgetMs, lastRefill := now)
  {
    RefillEarns(b, now);
    EarnedIs(b.duty, now - b.lastRefill);
  }

  lemma EarnedIs(duty: real, elapsed: nat)
    ensures Earned(duty, elapsed) == elapsed as real * duty
  {}

  /** What one gated send costs: at least half its airtime, less half a millisecond. */
  lemma SpendAtLeastHalf(b: Bucket, est: u32, actual: u32)
    requires Allows(b, est) && actual <= est
    ensures actual <= 2 * (b.budgetMs - AfterDeduct(b, actual).budgetMs) + 1
  {}

  /** The factor two and the extra millisecond are both reached by a single send. */
  lemma SpendBoundIsTight(max: u32, duty: real, now: nat)
    requires 2 * max + 1 <= U32_MAX && 0.0 < duty <= 1.0
    ensures var b := Bucket(max, now, max, duty, 0);
      && Ok(b) && Allows(b, 2 * max + 1) && AfterDeduct(b, 2 * max + 1).budgetMs == 0
  {}

  // --- Refill schedules ---

  ghost predicate Nondecreasing(from: nat, times: seq<nat>) {
    && (forall i | 0 <= i < |times| :: from <= times[i])
    && (forall i, j | 0 <= i <= j < |times| :: times[i] <= times[j])
  }

  /** Several refills in a row, with no deduction between them. */
  function RefillAll(b: Bucket, times: seq<nat>): (r: Bucket)
    requires Nondecreasing(b.lastRefill, times)
    ensures r.lastRefill == (if times == [] then b.lastRefill else times[|times| - 1])
    ensures r.duty == b.duty && r.maxBudgetMs == b.maxBudgetMs && r.minReserveMs == b.minReserveMs
  {
    if times == [] then b
    else AfterRefill(RefillAll(b, times[..|times| - 1]), times[|times| - 1])
  }

  /** One floor of a sum against two floors. */
  lemma FloorSplit(x: real, y: real)
    ensures x.Floor + y.Floor <= (x + y).Floor <= x.Floor + y.Floor + 1
  {}

  /** n refills earn at most what one refill over the same time earns, and less than n ms short of it. */
  lemma {:induction false} ScheduleIndependence(b: Bucket, times: seq<nat>)
    requires Ok(b) && |times| > 0 && Nondecreasing(b.lastRefill, times)
    ensures Ok(RefillAll(b, times))
    ensures var one := AfterRefill(b, times[|times| - 1]).budgetMs;
      one - (|times| - 1) <= RefillAll(b, times).budgetMs <= one
  {
    var n := |times| - 1;
    if n == 0 {
      assert RefillAll(b, times[..0]) == b;
      RefillEarns(b, times[0]);
    } else {
      hide Earned, AfterRefill;
      var mid := times[n - 1];
      ScheduleIndependence(b, times[..n]);
      var many := RefillAll(b, times[..n]);
      RefillEarns(b, mid);
      RefillEarns(b, times[n]);
      RefillEarns(many, times[n]);
      EarnedProduct(b.duty, mid - b.lastRefill, times[n] - mid);
      FloorSplit(Earned(b.duty, mid - b.lastRefill), Earned(b.duty, times[n] - mid));
      EarnedProduct(b.duty, times[n] - mid, 0);
    }
  }

  /** Every gap is worth less than a whole millisecond. */
  ghost predicate Trickle(duty: real, from: nat, times: seq<nat>)
    requires Nondecreasing(from, times)
  {
    forall i | 0 <= i < |times| :: Earned(duty, Gap(from, times, i)) < 1.0
  }

  function Gap(from: nat, times: seq<nat>, i: nat): nat
    requires Nondecreasing(from, times) && i < |times|
  {
    if i == 0 then times[0] - from else times[i] - times[i - 1]
  }

  /** A run of refills leaves the budget alone exactly when it is full or every gap is below 1/duty. */
  lemma {:induction false} UnchangedIff(b: Bucket, times: seq<nat>)
    requires Ok(b) && Nondecreasing(b.lastRefill, times)
    ensures Ok(RefillAll(b, times)) && b.budgetMs <= RefillAll(b, times).budgetMs
    ensures RefillAll(b, times).budgetMs == b.budgetMs
       <==> b.budgetMs == b.maxBudgetMs || Trickle(b.duty, b.lastRefill, times)
  {
    var n := |times| - 1;
    if n >= 0 {
      var before := times[..n];
      UnchangedIff(b, before);
      var r := RefillAll(b, before);
      RefillEarns(r, times[n]);
      assert Gap(b.lastRefill, times, n) == times[n] - r.lastRefill;
      EarnedProduct(b.duty, times[n] - r.lastRefill, 0);
      assert forall i | 0 <= i < n :: Gap(b.lastRefill, times, i) == Gap(b.lastRefill, before, i);
    }
  }

  /** A blocked packet stays blocked through any trickle of refills, however long it lasts. */
  lemma StarvedByTrickle(b: Bucket, times: seq<nat>, est: u32)
    requires Ok(b) && Nondecreasing(b.lastRefill, times) && Trickle(b.duty, b.lastRefill, times)
    requires !Allows(b, est)
    ensures !Allows(RefillAll(b, times), est)
  {
    UnchangedIff(b, times);
  }

  class Tracker {
    var budgetMs: u32
    var lastRefill: nat
    const maxBudgetMs: u32
    const duty: real
    const minReserveMs: u32

    ghost function Value(): Bucket
      reads this
    {
      Bucket(budgetMs, lastRefill, maxBudgetMs, duty, minReserveMs)
    }

    constructor (config: Config)
      requires config.airtimeBudgetFactor >= 0.0
      ensures Value() == New(config)
    {
      var dutyCycle := 1.0 / (1.0 + config.airtimeBudgetFactor);
      var max := RealToU32(config.dutyCycleWindowMs as real * dutyCycle);
      budgetMs, lastRefill := max, 0;
      maxBudgetMs, duty, minReserveMs := max, dutyCycle, config.minTxBudgetReserveMs;
    }

    method Refill(now: nat)
      requires lastRefill <= now
      modifies this
      ensures Value() == AfterRefill(old(Value()), now)
    {
      var elapsedMs := now - lastRefill;
      var refill := RealToU32(Earned(duty, elapsedMs));
      budgetMs := Min(maxBudgetMs, SaturatingAdd(budgetMs, refill));
      lastRefill := now;
    }

    method CanTransmit(estAirtimeMs: u32) returns (ok: bool)
      ensures ok == Allows(Value(), estAirtimeMs)
    {
      ok := budgetMs >= estAirtimeMs / 2 && budgetMs >= minReserveMs;
    }

    method Deduct(actualAirtimeMs: u32)
      modifies this`budgetMs
      ensures Value() == AfterDeduct(old(Value()), actualAirtimeMs)
    {
      budgetMs := SaturatingSub(budgetMs, actualAirtimeMs);
    }
  }
}
