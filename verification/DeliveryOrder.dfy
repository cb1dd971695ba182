/** Delayed packets are offered in order of their due times, over a whole run and not only within one drain. */
module DeliveryOrder {
  import opened Machine
  import opened Packet
  import opened Types
  import opened TxQueue
  import opened RxDelay
  import opened DispatcherSpec

  ghost predicate Sorted(offers: seq<LateOffer>) {
    forall i, j | 0 <= i < j < |offers| :: offers[i].entry.deliverAt <= offers[j].entry.deliverAt
  }

  /** No offer is due after the instant `limit`. */
  ghost predicate DueBy(offers: seq<LateOffer>, limit: nat) {
    forall o | o in offers :: o.entry.deliverAt <= limit
  }

  /** Everything held is due no sooner than everything offered. */
  ghost predicate HeldAfter(offers: seq<LateOffer>, rx: seq<RxEntry>) {
    forall o, e | o in offers && e in rx :: o.entry.deliverAt <= e.deliverAt
  }

  /** The offers so far are in order, none was due after the clock, and everything held comes later. */
  ghost predicate Ordered(w: World) {
    Sorted(w.ledger.offeredLate) && DueBy(w.ledger.offeredLate, w.clock) && HeldAfter(w.ledger.offeredLate, w.rx)
  }

  /** Steps that only let time pass, or change other fields, keep the order. */
  lemma QuietStepKeeps(w: World, r: World)
    requires Ordered(w) && w.clock <= r.clock && r.rx == w.rx && r.ledger.offeredLate == w.ledger.offeredLate
    ensures Ordered(r)
  {}

  lemma {:induction false} SubmitAllKeepsOrder(s: Setup, w: World, subs: seq<Submission>)
    requires Core(s, w) && SubmissionsOk(w.clock, subs) && Ordered(w)
    ensures Ordered(SubmitAll(s, w, subs))
    ensures w.clock <= SubmitAll(s, w, subs).clock
  {
    hide Core, Ordered;
    if subs != [] {
      var n := |subs| - 1;
      SubmitAllKeepsOrder(s, w, subs[..n]);
      var w' := SubmitAll(s, w, subs[..n]);
      QuietStepKeeps(w', Submit(s, w', subs[n]));
    }
  }

  lemma OffersInOrder(offers: seq<LateOffer>, rx: seq<RxEntry>, due: seq<RxEntry>, rest: seq<RxEntry>, now: nat)
    requires Sorted(offers) && DueBy(offers, now) && HeldAfter(offers, rx)
    requires multiset(due) + multiset(rest) == multiset(rx)
    requires forall e | e in due :: e.deliverAt <= now
    requires forall e | e in rest :: now < e.deliverAt
    requires forall i, j | 0 <= i < j < |due| :: due[i].deliverAt <= due[j].deliverAt
    ensures Sorted(offers + Offers(due, now)) && DueBy(offers + Offers(due, now), now)
    ensures HeldAfter(offers + Offers(due, now), rest)
  {
    forall e | e in due ensures e in rx {
      assert e in multiset(due) && e in multiset(rx);
    }
    var all := offers + Offers(due, now);
    forall i, j | 0 <= i < j < |all| ensures all[i].entry.deliverAt <= all[j].entry.deliverAt {
      if i < |offers| <= j {
        assert all[i] in offers && due[j - |offers|] in due;
      }
    }
    forall o | o in all ensures o.entry.deliverAt <= now {
      if o !in offers {
        var i :| 0 <= i < |due| && Offers(due, now)[i] == o;
        assert due[i] in due;
      }
    }
  }

  lemma DeliverKeepsOrder(s: Setup, w: World, now: nat)
    requires Core(s, w) && w.clock <= now && Ordered(w)
    ensures Ordered(DeliverDue(s, w, now))
  {
    hide RxDrain;
    RxDrainSorts(w.rx, now);
    var (due, rest) := RxDrain(w.rx, now);
    OffersInOrder(w.ledger.offeredLate, w.rx, due, rest, now);
  }

  lemma TurnKeepsOrder(s: Setup, w: World, turn: Turn)
    requires Core(s, w) && TurnOk(s, w.clock, turn) && Ordered(w)
    ensures Ordered(MaybeTransmit(s, w, turn))
  {
    hide Core, Ordered, TxPop;
    WaitTakesTime(s, w.clock, turn);
    QuietStepKeeps(w, MaybeTransmit(s, w, turn));
  }

  lemma ArrivalKeepsOrder(s: Setup, w: World, a: Arrival)
    requires Ordered(w) && w.clock <= a.at
    ensures Ordered(File(s, CountArrival(w.(clock := a.at), a), a))
  {
    hide DelayOf;
  }

  lemma EventKeepsOrder(s: Setup, w: World, event: Event)
    requires Core(s, w) && EventOk(w, event) && Ordered(w)
    ensures Ordered(HandleEvent(s, w, event))
  {
    hide Core, Ordered, Parse, NextWake, File, CountArrival;
    match event
    case Radio(frame, at) =>
      QuietStepKeeps(w, w.(clock := at));
      if frame.Some? && Parse(frame.value.bytes).Some? {
        var p := Parse(frame.value.bytes).value;
        ArrivalKeepsOrder(s, w, Arrival(RxPacket(p, frame.value.rssi, frame.value.snr), |frame.value.bytes|, at));
      }
    case Request(sub) =>
      QuietStepKeeps(w, Submit(s, w, sub));
    case Timer(at) =>
      QuietStepKeeps(w, w.(clock := at));
  }

  lemma IterationKeepsOrder(s: Setup, w: World, it: Iteration)
    requires Core(s, w) && IterationOk(s, w, it) && Ordered(w)
    ensures Ordered(Iterate(s, w, it))
  {
    hide Core, Ordered, SubmitAll, DeliverDue, MaybeTransmit, HandleEvent, EventOk;
    SubmitAllKeepsOrder(s, w, it.submissions);
    var w1 := SubmitAll(s, w, it.submissions);
    DeliverKeepsOrder(s, w1, it.now);
    TurnKeepsOrder(s, DeliverDue(s, w1, it.now), it.turn);
    EventKeepsOrder(s, BeforeSelect(s, w, it), it.event);
  }

  lemma {:induction false} RunKeepsOrder(s: Setup, w: World, its: seq<Iteration>, n: nat)
    requires Core(s, w) && n <= |its| && RunOk(s, w, its, n) && Ordered(w)
    ensures Ordered(Run(s, w, its, n))
    decreases n
  {
    hide Core, Ordered, IterationOk, Iterate;
    if n > 0 {
      RunKeepsOrder(s, w, its, n - 1);
      IterationKeepsOrder(s, Run(s, w, its, n - 1), its[n - 1]);
    }
  }

  /** Over any run all delayed packets are offered in the order of their due times, and nothing still
      held is due before anything already offered. */
  lemma OfferedInOrder(s: Setup, its: seq<Iteration>, n: nat)
    requires Sound(s) && n <= |its| && RunOk(s, Init(s), its, n)
    ensures var r := Run(s, Init(s), its, n);
      Sorted(r.ledger.offeredLate) && HeldAfter(r.ledger.offeredLate, r.rx)
  {
    hide Core, IterationOk, Iterate;
    InitIsOrdered(s);
    RunKeepsOrder(s, Init(s), its, n);
  }

  lemma InitIsOrdered(s: Setup)
    requires Sound(s)
    ensures Ordered(Init(s))
  {}
}
