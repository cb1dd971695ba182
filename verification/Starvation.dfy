/** What happens to the airtime budget while nothing is sent: exactly the refills, which need not add up. */
module Starvation {
  import opened Machine
  import opened Packet
  import opened Types
  import opened TxQueue
  import opened RxDelay
  import opened DutyCycle
  import opened ListenBeforeTalk
  import opened DispatcherSpec
  import opened AirtimeBound
  import opened Scheduling

  // --- Windows without a successful send ---

  /** The clock readings at which the first `n` iterations refill the bucket. */
  function GateTimes(its: seq<Iteration>, n: nat): seq<nat>
    requires n <= |its|
  {
    seq(n, i requires 0 <= i < n => its[i].turn.now)
  }

  lemma IterationRefills(s: Setup, w: World, it: Iteration)
    requires Core(s, w) && IterationOk(s, w, it)
    requires Iterate(s, w, it).ledger.sent == w.ledger.sent
    ensures w.bucket.lastRefill <= it.turn.now
    ensures Iterate(s, w, it).bucket == AfterRefill(w.bucket, it.turn.now)
  {
    hide Core, HandleEvent, DeliverDue, SubmitAll, AfterRefill, Allows, TxPop;
    IterationIsCharged(s, w, it);
    QuietSteps(s, w, it);
    var w1 := DeliverDue(s, SubmitAll(s, w, it.submissions), it.now);
    TurnRefills(s, w1, it.turn);
  }

  lemma TurnRefills(s: Setup, w: World, turn: Turn)
    requires Core(s, w) && TurnOk(s, w.clock, turn)
    requires MaybeTransmit(s, w, turn).ledger.sent == w.ledger.sent
    ensures w.bucket.lastRefill <= turn.now
    ensures MaybeTransmit(s, w, turn).bucket == AfterRefill(w.bucket, turn.now)
  {
    hide AfterRefill, TxPop, Serialize;
    var r := MaybeTransmit(s, w, turn);
    assert |r.ledger.sent| == |w.ledger.sent|;
  }

  /** Over any window of any run with no successful send, the bucket does what a bare list of refills at
      the gate times does. */
  lemma {:induction false} QuietWindow(s: Setup, w: World, its: seq<Iteration>, n: nat)
    requires Core(s, w) && n <= |its| && RunOk(s, w, its, n)
    requires Run(s, w, its, n).ledger.sent == w.ledger.sent
    ensures Nondecreasing(w.bucket.lastRefill, GateTimes(its, n))
    ensures Run(s, w, its, n).bucket == RefillAll(w.bucket, GateTimes(its, n))
    decreases n
  {
    hide Core, IterationOk, Iterate, AfterRefill;
    if n > 0 {
      var r, it := Run(s, w, its, n - 1), its[n - 1];
      SendsGrow(s, w, its, n - 1);
      IterationIsCharged(s, r, it);
      SamePrefixes(w, r, Iterate(s, r, it));
      QuietWindow(s, w, its, n - 1);
      IterationRefills(s, r, it);
      assert GateTimes(its, n)[..n - 1] == GateTimes(its, n - 1);
      OneMoreTime(w.bucket.lastRefill, GateTimes(its, n - 1), GateTimes(its, n), r.bucket.lastRefill);
    }
  }

  lemma SamePrefixes(w: World, r: World, r': World)
    requires w.ledger.sent <= r.ledger.sent <= r'.ledger.sent && r'.ledger.sent == w.ledger.sent
    ensures r.ledger.sent == w.ledger.sent
  {}

  lemma OneMoreTime(from: nat, times: seq<nat>, more: seq<nat>, last: nat)
    requires |more| == |times| + 1 && more[..|times|] == times && Nondecreasing(from, times)
    requires last == (if times == [] then from else times[|times| - 1]) && last <= more[|times|]
    ensures Nondecreasing(from, more)
  {
    var n := |times|;
    forall i | 0 <= i < |more| ensures from <= more[i] <= more[n] {
      if i < n {
        assert more[i] == times[i];
      }
    }
    forall i, j | 0 <= i <= j < |more| ensures more[i] <= more[j] {
      if j < n {
        assert more[i] == times[i] && more[j] == times[j];
      }
    }
  }

  /** In such a window the budget stands still exactly when it is full or the gate comes round so often
      that every gap earns less than a millisecond. */
  lemma BudgetStandsStillIff(s: Setup, w: World, its: seq<Iteration>, n: nat)
    requires Core(s, w) && n <= |its| && RunOk(s, w, its, n)
    requires Run(s, w, its, n).ledger.sent == w.ledger.sent
    ensures Nondecreasing(w.bucket.lastRefill, GateTimes(its, n))
    ensures Run(s, w, its, n).bucket.budgetMs == w.bucket.budgetMs <==>
      w.bucket.budgetMs == w.bucket.maxBudgetMs || Trickle(w.bucket.duty, w.bucket.lastRefill, GateTimes(its, n))
  {
    hide IterationOk, Iterate, Core, Run;
    BucketOk(s, w);
    QuietWindow(s, w, its, n);
    UnchangedIff(w.bucket, GateTimes(its, n));
  }

  /** And it recovers all but n - 1 ms of what a single refill over the whole window would give. */
  lemma BudgetRecovers(s: Setup, w: World, its: seq<Iteration>, n: nat)
    requires Core(s, w) && 1 <= n <= |its| && RunOk(s, w, its, n)
    requires Run(s, w, its, n).ledger.sent == w.ledger.sent
    ensures w.bucket.lastRefill <= its[n - 1].turn.now
    ensures var one := AfterRefill(w.bucket, its[n - 1].turn.now).budgetMs;
      one - (n - 1) <= Run(s, w, its, n).bucket.budgetMs <= one
  {
    hide IterationOk, Iterate, Core, Run, AfterRefill;
    BucketOk(s, w);
    QuietWindow(s, w, its, n);
    assert GateTimes(its, n)[n - 1] == its[n - 1].turn.now;
    ScheduleIndependence(w.bucket, GateTimes(its, n));
  }

  // --- A packet that waits for ever ---

  /** The first `n` iterations are possible from `w` and end in `r`. */
  ghost predicate RunsTo(s: Setup, w: World, its: seq<Iteration>, n: nat, r: World) {
    Core(s, w) && n <= |its| && RunOk(s, w, its, n) && Run(s, w, its, n) == r
  }

  lemma RunsNowhere(s: Setup, w: World, its: seq<Iteration>)
    requires Core(s, w)
    ensures RunsTo(s, w, its, 0, w)
  {}

  lemma RunsOneMore(s: Setup, w: World, its: seq<Iteration>, n: nat, r: World)
    requires RunsTo(s, w, its, n, r) && n < |its| && Core(s, r) && IterationOk(s, r, its[n])
    ensures RunsTo(s, w, its, n + 1, Iterate(s, r, its[n]))
  {
    hide Core, IterationOk, Iterate;
  }

  /** The state before the last of a run's iterations. */
  lemma RunsOneLess(s: Setup, w: World, its: seq<Iteration>, n: nat, r: World) returns (p: World)
    requires RunsTo(s, w, its, n, r) && n > 0
    ensures RunsTo(s, w, its, n - 1, p) && Core(s, p) && IterationOk(s, p, its[n - 1])
    ensures r == Iterate(s, p, its[n - 1])
  {
    hide Core, IterationOk, Iterate;
    p := Run(s, w, its, n - 1);
  }

  lemma LengthOf(s: Setup, w: World, its: seq<Iteration>, n: nat, r: World)
    requires RunsTo(s, w, its, n, r)
    ensures n <= |its| && Core(s, w) && Core(s, r) && (n == 0 ==> r == w)
  {
    hide Core, IterationOk, Iterate;
  }

  /** The first part of a longer script runs as it would alone. */
  lemma {:induction false} RunOfPrefix(s: Setup, w: World, a: seq<Iteration>, b: seq<Iteration>, n: nat, r: World)
    requires RunsTo(s, w, a, n, r)
    ensures RunsTo(s, w, a + b, n, r)
    decreases n
  {
    hide RunsTo, Core, IterationOk, Iterate;
    LengthOf(s, w, a, n, r);
    if n == 0 {
      RunsNowhere(s, w, a + b);
    } else {
      var p := RunsOneLess(s, w, a, n, r);
      RunOfPrefix(s, w, a, b, n - 1, p);
      assert (a + b)[n - 1] == a[n - 1];
      RunsOneMore(s, w, a + b, n - 1, p);
    }
  }

  /** And the second part as it would from where the first one ended. */
  lemma {:induction false} RunConcat(s: Setup, w: World, mid: World, a: seq<Iteration>, b: seq<Iteration>,
                                     k: nat, r: World)
    requires RunsTo(s, w, a, |a|, mid) && RunsTo(s, mid, b, k, r)
    ensures RunsTo(s, w, a + b, |a| + k, r)
    decreases k
  {
    hide RunsTo, Core, IterationOk, Iterate;
    LengthOf(s, mid, b, k, r);
    if k == 0 {
      RunOfPrefix(s, w, a, b, |a|, mid);
    } else {
      var p := RunsOneLess(s, mid, b, k, r);
      RunConcat(s, w, mid, a, b, k - 1, p);
      assert (a + b)[|a| + k - 1] == b[k - 1];
      RunsOneMore(s, w, a + b, |a| + k - 1, p);
    }
  }

  /** One refused packet waits alone, and the bucket was refilled at the last clock reading. */
  ghost predicate Stuck(s: Setup, w: World, e: TxEntry) {
    && Core(s, w) && w.tx == [e] && w.rx == [] && e.sendAfter <= w.clock == w.bucket.lastRefill
    && w.bucket.duty < 1.0
    && !Allows(w.bucket, s.estimate(WireLen(e.packet)))
  }

  lemma IdleTickStaysStuck(s: Setup, w: World, e: TxEntry)
    requires Stuck(s, w, e)
    ensures IterationOk(s, w, IdleTick(w.clock))
    ensures Iterate(s, w, IdleTick(w.clock))
         == w.(clock := w.clock + 1, bucket := w.bucket.(lastRefill := w.clock + 1))
  {
    hide RxDrain, TxPop, MaybeTransmit, TurnOk;
    var it := IdleTick(w.clock);
    assert DeliverDue(s, SubmitAll(s, w, []), w.clock) == w by { NothingHeld(w); }
    QuietTurn(s, w.clock);
    StuckTurn(s, w, e);
  }

  lemma NothingHeld(w: World)
    requires w.rx == []
    ensures RxDrain(w.rx, w.clock) == ([], [])
    ensures w.ledger.offeredLate + Offers([], w.clock) == w.ledger.offeredLate
  {}

  lemma StuckTurn(s: Setup, w: World, e: TxEntry)
    requires Stuck(s, w, e) && TurnOk(s, w.clock, IdleTick(w.clock).turn)
    ensures MaybeTransmit(s, w, IdleTick(w.clock).turn)
         == w.(clock := w.clock + 1, bucket := w.bucket.(lastRefill := w.clock + 1))
  {
    hide TxPop, Serialize;
    var now := w.clock + 1;
    RefillEarns(w.bucket, now);
    assert Earned(w.bucket.duty, 1) == w.bucket.duty;
    assert Earned(w.bucket.duty, 1).Floor == 0;
    SinglePop(e, now);
  }

  lemma SinglePop(e: TxEntry, now: nat)
    requires e.sendAfter <= now
    ensures TxPop([e], now) == (Some(e), [])
  {}

  /** The refilling does not always add up: with the expired timer firing every millisecond, a refused
      packet can wait for any number of milliseconds while the budget does not grow at all. */
  lemma {:induction false} StarvingRun(s: Setup, w: World, e: TxEntry, k: nat)
    returns (its: seq<Iteration>, r: World)
    requires Stuck(s, w, e)
    ensures |its| == k && RunsTo(s, w, its, k, r) && Stuck(s, r, e)
    ensures r == w.(clock := w.clock + k, bucket := w.bucket.(lastRefill := w.clock + k))
  {
    hide RunsTo, IterationOk, Iterate;
    if k == 0 {
      its, r := [], w;
      RunsNowhere(s, w, its);
    } else {
      var pre, p := StarvingRun(s, w, e, k - 1);
      var tick := IdleTick(p.clock);
      its := pre + [tick];
      RunOfPrefix(s, w, pre, [tick], k - 1, p);
      IdleTickStaysStuck(s, p, e);
      assert its[k - 1] == tick;
      RunsOneMore(s, w, its, k - 1, p);
      StuckStays(s, p, e);
      r := Iterate(s, p, tick);
    }
  }

  lemma StuckStays(s: Setup, w: World, e: TxEntry)
    requires Stuck(s, w, e)
    ensures Stuck(s, w.(clock := w.clock + 1, bucket := w.bucket.(lastRefill := w.clock + 1)), e)
  {}

  // --- Such a state is reached from the start ---

  /** A cap of 200 ms, a reserve of 150 ms, and 200 ms for every packet. */
  const TIGHT := Setup(Config(1.0, 400, 150, 120, 480, 4000, 32000, 50), 4, 4, _ => 200)

  const PLAIN := TxRequest(EMPTY, 0, 0)

  /** One packet is sent with the whole budget while another is submitted. */
  const SPEND := Iteration([Submission(PLAIN, 0)], 0, Turn(0, 0, QUIET, 0, 200, true), Request(Submission(PLAIN, 200)))

  /** The second packet is refused, and the timer has already expired. */
  const REFUSE := Iteration([], 200, Turn(200, 200, QUIET, 200, 200, true), Timer(200))

  lemma TightStart()
    ensures Sound(TIGHT) && New(TIGHT.config) == Bucket(200, 0, 200, 0.5, 150)
  {}

  lemma QuietWait(config: Config, turn: Turn)
    requires turn.channel == QUIET && turn.cadStart <= turn.start
    ensures WaitOver(config, turn, 0)
  {
    assert Stops(config, QUIET, turn.cadStart, 0);
  }

  lemma SubmitOne(s: Setup, w: World, sub: Submission)
    requires Core(s, w) && SubmissionOk(w.clock, sub)
    ensures SubmitAll(s, w, [sub]) == Submit(s, w, sub)
  {
    hide Core, Submit;
    assert [sub][..0] == [];
  }

  lemma AfterSpend()
    ensures var w := Init(TIGHT);
      && IterationOk(TIGHT, w, SPEND)
      && var r := Iterate(TIGHT, w, SPEND);
         r.tx == [EntryOf(PLAIN, 200)] && r.rx == [] && r.clock == 200 && r.bucket == Bucket(0, 0, 200, 0.5, 150)
  {
    hide RxDrain, TxPop, Serialize, SubmitAll, TurnOk;
    TightStart();
    var w := Init(TIGHT);
    SubmitOne(TIGHT, w, Submission(PLAIN, 0));
    NothingHeld(SubmitAll(TIGHT, w, SPEND.submissions));
    SinglePop(EntryOf(PLAIN, 0), 0);
    SpendTurn();
    assert AfterRefill(w.bucket, 0) == w.bucket by {
      assert Earned(0.5, 0) == 0.0;
    }
    var w2 := DeliverDue(TIGHT, SubmitAll(TIGHT, w, SPEND.submissions), 0);
    assert w2.tx == [EntryOf(PLAIN, 0)] && w2.rx == [] && w2.bucket == w.bucket && w2.clock == 0;
    var w3 := MaybeTransmit(TIGHT, w2, SPEND.turn);
    assert w3.tx == [] && w3.clock == 200 && w3.bucket == Bucket(0, 0, 200, 0.5, 150);
  }

  lemma SpendTurn()
    ensures TurnOk(TIGHT, 0, SPEND.turn)
  {
    QuietWait(TIGHT.config, SPEND.turn);
  }

  lemma AfterRefuse(w: World)
    requires Core(TIGHT, w) && w.tx == [EntryOf(PLAIN, 200)] && w.rx == [] && w.clock == 200
    requires w.bucket == Bucket(0, 0, 200, 0.5, 150)
    ensures IterationOk(TIGHT, w, REFUSE)
    ensures Stuck(TIGHT, Iterate(TIGHT, w, REFUSE), EntryOf(PLAIN, 200))
    ensures Iterate(TIGHT, w, REFUSE).bucket == Bucket(100, 200, 200, 0.5, 150)
    ensures Iterate(TIGHT, w, REFUSE).clock == 200
  {
    hide RxDrain, TxPop, Serialize;
    QuietWait(TIGHT.config, REFUSE.turn);
    NothingHeld(w);
    SinglePop(EntryOf(PLAIN, 200), 200);
    assert Earned(0.5, 200) == 100.0;
  }

  /** From the initial state, every send within its estimate: a run after which one packet waits k ms at
      the gate, offered to it every millisecond, with half the budget missing and not a millisecond of it
      recovered. */
  lemma StarvationFromStart(k: nat) returns (its: seq<Iteration>, r: World)
    ensures Sound(TIGHT) && RunsTo(TIGHT, Init(TIGHT), its, 2 + k, r)
    ensures Stuck(TIGHT, r, EntryOf(PLAIN, 200)) && r.clock == 200 + k
    ensures r.bucket.budgetMs == 100 < r.bucket.maxBudgetMs == 200
  {
    hide RunsTo, IterationOk, Iterate, Stuck;
    TightStart();
    AfterSpend();
    var w := Init(TIGHT);
    var a := [SPEND, REFUSE];
    RunsNowhere(TIGHT, w, a);
    RunsOneMore(TIGHT, w, a, 0, w);
    var w1 := Iterate(TIGHT, w, SPEND);
    AfterRefuse(w1);
    RunsOneMore(TIGHT, w, a, 1, w1);
    var w2 := Iterate(TIGHT, w1, REFUSE);
    var b;
    b, r := StarvingRun(TIGHT, w2, EntryOf(PLAIN, 200), k);
    its := a + b;
    RunConcat(TIGHT, w, w2, a, b, k, r);
  }
}
