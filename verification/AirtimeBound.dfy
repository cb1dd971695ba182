/** How much airtime any window of any run can use. */
module AirtimeBound {
  import opened Machine
  import opened Packet
  import opened Types
  import opened TxQueue
  import opened RxDelay
  import opened DutyCycle
  import opened DispatcherSpec
  import opened Conservation

  /** The successful sends between two states of a run. */
  function NewSends(w: World, r: World): seq<Transmission> {
    if |w.ledger.sent| <= |r.ledger.sent| then r.ledger.sent[|w.ledger.sent|..] else []
  }

  /** The send took no longer than the radio's estimate for its length. */
  predicate WithinEstimate(s: Setup, t: Transmission) {
    SendTime(t) <= s.estimate(WireLen(t.entry.packet))
  }

  ghost predicate AllWithinEstimate(s: Setup, ts: seq<Transmission>) {
    forall t | t in ts :: WithinEstimate(s, t)
  }

  /** The bucket's rates and its cap never change. */
  predicate SameRates(b: Bucket, c: Bucket) {
    b.maxBudgetMs == c.maxBudgetMs && b.duty == c.duty && b.minReserveMs == c.minReserveMs
  }

  /** One turn: refill, then at most one send, paid for with at least half its time. */
  ghost predicate Charged(s: Setup, before: World, after: World, now: nat) {
    var sends := NewSends(before, after);
    && before.bucket.lastRefill <= now == after.bucket.lastRefill
    && SameRates(before.bucket, after.bucket)
    && before.ledger.sent <= after.ledger.sent
    && (AllWithinEstimate(s, sends) ==>
          2 * after.bucket.budgetMs + TotalAirtime(sends)
            <= 2 * AfterRefill(before.bucket, now).budgetMs + |sends|)
  }

  lemma NoNewSends(w: World, r: World)
    requires w.ledger.sent == r.ledger.sent
    ensures NewSends(w, r) == []
  {}

  lemma SendIsCharged(s: Setup, before: World, rest: World, e: TxEntry, turn: Turn)
    requires Core(s, rest) && Writable(e.packet) && rest.clock <= turn.start <= turn.end
    requires before.bucket.lastRefill <= turn.now
    requires rest.ledger == before.ledger && rest.bucket == AfterRefill(before.bucket, turn.now)
    requires Allows(rest.bucket, s.estimate(WireLen(e.packet)))
    ensures Charged(s, before, Transmit(s, rest, e, turn), turn.now)
  {
    hide Core, CountSent, Serialize, WireLen;
    var after := Transmit(s, rest, e, turn);
    var t := RecordOf(e, turn);
    if turn.ok {
      var sends := NewSends(before, after);
      assert sends == [t];
      assert TotalAirtime([t]) == SendTime(t) by {
        assert [t][..0] == [];
      }
      if AllWithinEstimate(s, sends) {
        assert WithinEstimate(s, t);
        SpendAtLeastHalf(rest.bucket, s.estimate(WireLen(e.packet)), turn.end - turn.start);
      }
    } else {
      NoNewSends(before, after);
    }
  }

  lemma TurnIsCharged(s: Setup, w: World, turn: Turn)
    requires Core(s, w) && TurnOk(s, w.clock, turn)
    ensures Charged(s, w, MaybeTransmit(s, w, turn), turn.now)
  {
    hide Transmit, Allows, TxPop;
    var w' := Refilled(s, w, turn.now);
    var rest := Without(s, w', turn.now);
    TxPopBest(w'.tx, turn.now);
    var ready := TxPop(w'.tx, turn.now).0;
    if ready.Some? && Allows(w'.bucket, s.estimate(WireLen(ready.value.packet))) {
      WaitTakesTime(s, turn.now, turn);
      assert rest == w'.(tx := rest.tx);
      SendIsCharged(s, w, rest, ready.value, turn);
    } else {
      NoNewSends(w, MaybeTransmit(s, w, turn));
    }
  }

  /** The other steps of an iteration neither send nor touch the bucket. */
  lemma QuietSteps(s: Setup, w: World, it: Iteration)
    requires Core(s, w) && IterationOk(s, w, it)
    ensures var w1 := DeliverDue(s, SubmitAll(s, w, it.submissions), it.now);
      w1.bucket == w.bucket && w1.ledger.sent == w.ledger.sent
    ensures var w2 := BeforeSelect(s, w, it);
      var w3 := Iterate(s, w, it);
      w3.bucket == w2.bucket && w3.ledger.sent == w2.ledger.sent
  {
    hide Core, MaybeTransmit, DelayOf, Parse, NextWake, RxDrain;
    SubmissionsAreQuiet(s, w, it.submissions);
  }

  lemma {:induction false} SubmissionsAreQuiet(s: Setup, w: World, subs: seq<Submission>)
    requires Core(s, w) && SubmissionsOk(w.clock, subs)
    ensures SubmitAll(s, w, subs).bucket == w.bucket
    ensures SubmitAll(s, w, subs).ledger.sent == w.ledger.sent
    ensures SubmitAll(s, w, subs).ledger.failed == w.ledger.failed
  {
    hide Core;
    if subs != [] {
      SubmissionsAreQuiet(s, w, subs[..|subs| - 1]);
    }
  }

  lemma IterationIsCharged(s: Setup, w: World, it: Iteration)
    requires Core(s, w) && IterationOk(s, w, it)
    ensures Charged(s, w, Iterate(s, w, it), it.turn.now)
  {
    hide Core, MaybeTransmit, HandleEvent, DeliverDue, SubmitAll;
    var w1 := DeliverDue(s, SubmitAll(s, w, it.submissions), it.now);
    QuietSteps(s, w, it);
    TurnIsCharged(s, w1, it.turn);
  }

  lemma {:induction false} TotalAirtimeConcat(a: seq<Transmission>, b: seq<Transmission>)
    ensures TotalAirtime(a + b) == TotalAirtime(a) + TotalAirtime(b)
  {
    if b == [] {
      assert a + b == a;
    } else {
      hide TotalAirtime;
      var n := |b| - 1;
      TotalAirtimeConcat(a, b[..n]);
      CountingSends(a + b[..n], b[n]);
      CountingSends(b[..n], b[n]);
      assert b == b[..n] + [b[n]];
      assert a + b == a + b[..n] + [b[n]];
    }
  }

  /** The bound of a window so far: what is left in the bucket counts twice. */
  ghost predicate WithinBudget(w: World, r: World, t1: nat) {
    && t1 <= r.bucket.lastRefill
    && SameRates(w.bucket, r.bucket)
    && 2.0 * r.bucket.budgetMs as real + TotalAirtime(NewSends(w, r)) as real
         <= 2.0 * (w.bucket.maxBudgetMs as real + Earned(w.bucket.duty, r.bucket.lastRefill - t1))
            + |NewSends(w, r)| as real
  }

  lemma WindowStart(s: Setup, w: World, r: World, now: nat)
    requires Ok(w.bucket) && Charged(s, w, r, now) && AllWithinEstimate(s, NewSends(w, r))
    ensures WithinBudget(w, r, now)
  {}

  lemma WindowStep(s: Setup, w: World, r: World, r': World, t1: nat, now: nat)
    requires Ok(r.bucket) && w.ledger.sent <= r.ledger.sent && WithinBudget(w, r, t1)
    requires Charged(s, r, r', now) && AllWithinEstimate(s, NewSends(r, r'))
    ensures WithinBudget(w, r', t1)
  {
    hide AfterRefill, Earned, TotalAirtime, AllWithinEstimate;
    assert NewSends(w, r') == NewSends(w, r) + NewSends(r, r');
    TotalAirtimeConcat(NewSends(w, r), NewSends(r, r'));
    RefillEarns(r.bucket, now);
    EarnedProduct(w.bucket.duty, r.bucket.lastRefill - t1, now - r.bucket.lastRefill);
  }

  lemma SendsOfPrefix(s: Setup, w: World, r: World, r': World)
    requires w.ledger.sent <= r.ledger.sent <= r'.ledger.sent && AllWithinEstimate(s, NewSends(w, r'))
    ensures AllWithinEstimate(s, NewSends(w, r)) && AllWithinEstimate(s, NewSends(r, r'))
  {}

  lemma {:induction false} SendsGrow(s: Setup, w: World, its: seq<Iteration>, n: nat)
    requires Core(s, w) && n <= |its| && RunOk(s, w, its, n)
    ensures w.ledger.sent <= Run(s, w, its, n).ledger.sent
    decreases n
  {
    hide Core, IterationOk, Iterate;
    if n > 0 {
      SendsGrow(s, w, its, n - 1);
      IterationIsCharged(s, Run(s, w, its, n - 1), its[n - 1]);
    }
  }

  /** A window of n >= 1 iterations from any reachable state keeps within its bound. */
  lemma {:induction false} WindowBound(s: Setup, w: World, its: seq<Iteration>, n: nat)
    requires Core(s, w) && 1 <= n <= |its| && RunOk(s, w, its, n)
    requires AllWithinEstimate(s, NewSends(w, Run(s, w, its, n)))
    ensures WithinBudget(w, Run(s, w, its, n), its[0].turn.now)
    ensures Run(s, w, its, n).bucket.lastRefill == its[n - 1].turn.now
    decreases n
  {
    hide IterationOk, Iterate, Core, WithinBudget, AllWithinEstimate;
    var r, it := Run(s, w, its, n - 1), its[n - 1];
    IterationIsCharged(s, r, it);
    BucketOk(s, r);
    if n == 1 {
      WindowStart(s, w, Iterate(s, w, it), it.turn.now);
    } else {
      SendsGrow(s, w, its, n - 1);
      SendsOfPrefix(s, w, r, Iterate(s, r, it));
      WindowBound(s, w, its, n - 1);
      WindowStep(s, w, r, Iterate(s, r, it), its[0].turn.now, it.turn.now);
    }
  }

  lemma BucketOk(s: Setup, w: World)
    requires Core(s, w)
    ensures Ok(w.bucket)
  {}

  /** One iteration costs no more than the time of its send. */
  lemma IterationCostsAtMost(s: Setup, w: World, it: Iteration)
    requires Core(s, w) && IterationOk(s, w, it)
    ensures Iterate(s, w, it).bucket.budgetMs >= w.bucket.budgetMs - TotalAirtime(NewSends(w, Iterate(s, w, it)))
  {
    hide Core, MaybeTransmit, HandleEvent, DeliverDue, SubmitAll, TotalAirtime;
    var w1 := DeliverDue(s, SubmitAll(s, w, it.submissions), it.now);
    QuietSteps(s, w, it);
    TurnCostsAtMost(s, w1, it.turn);
  }

  lemma TurnCostsAtMost(s: Setup, w: World, turn: Turn)
    requires Core(s, w) && TurnOk(s, w.clock, turn)
    ensures var r := MaybeTransmit(s, w, turn);
      r.bucket.budgetMs >= w.bucket.budgetMs - TotalAirtime(NewSends(w, r))
  {
    hide TxPop, Allows, Serialize, AfterRefill, CountSent;
    var r := MaybeTransmit(s, w, turn);
    RefillEarns(w.bucket, turn.now);
    WaitTakesTime(s, turn.now, turn);
    if r.ledger.sent == w.ledger.sent {
      NoNewSends(w, r);
    } else {
      var t := r.ledger.sent[|w.ledger.sent|];
      assert NewSends(w, r) == [t] && [t][..0] == [];
      assert TotalAirtime([t]) == turn.end - turn.start;
    }
  }

  lemma NothingTakesNoTime()
    ensures TotalAirtime([]) == 0
  {}

  /** No send is charged more than its time: over any window of any run the budget falls by at most the
      airtime used, whatever the sends and the estimates. */
  lemma {:induction false} WindowCostsAtMost(s: Setup, w: World, its: seq<Iteration>, n: nat)
    requires Core(s, w) && n <= |its| && RunOk(s, w, its, n)
    ensures var r := Run(s, w, its, n);
      r.bucket.budgetMs >= w.bucket.budgetMs - TotalAirtime(NewSends(w, r))
    decreases n
  {
    hide Core, IterationOk, Iterate, TotalAirtime;
    if n == 0 {
      NoNewSends(w, w);
      NothingTakesNoTime();
    } else {
      var r, it := Run(s, w, its, n - 1), its[n - 1];
      WindowCostsAtMost(s, w, its, n - 1);
      IterationCostsAtMost(s, r, it);
      SendsGrow(s, w, its, n - 1);
      IterationIsCharged(s, r, it);
      assert NewSends(w, Iterate(s, r, it)) == NewSends(w, r) + NewSends(r, Iterate(s, r, it));
      TotalAirtimeConcat(NewSends(w, r), NewSends(r, Iterate(s, r, it)));
    }
  }

  /** The airtime bound. Over any window of any run, from the refill at t1 to the last refill at t2,
      k successful sends that keep within their estimates use at most
      2*(max_budget + duty*(t2 - t1)) + k milliseconds, although the gate asks for half an estimate
      only and the deduction stops at zero. */
  lemma AirtimeInWindow(s: Setup, w: World, its: seq<Iteration>, n: nat)
    requires Core(s, w) && 1 <= n <= |its| && RunOk(s, w, its, n)
    requires AllWithinEstimate(s, NewSends(w, Run(s, w, its, n)))
    ensures var t1, t2 := its[0].turn.now, its[n - 1].turn.now;
      var sends := NewSends(w, Run(s, w, its, n));
      && t1 <= t2
      && TotalAirtime(sends) as real
           <= 2.0 * (w.bucket.maxBudgetMs as real + (t2 - t1) as real * w.bucket.duty) + |sends| as real
  {
    hide IterationOk, Iterate, Core, AllWithinEstimate;
    WindowBound(s, w, its, n);
  }
}
