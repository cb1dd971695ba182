/** What the loop chooses, when it wakes, and that it can always go on. */
module Scheduling {
  import opened Machine
  import opened Packet
  import opened Types
  import opened ScanQueue
  import opened TxQueue
  import opened RxDelay
  import opened DutyCycle
  import opened ListenBeforeTalk
  import opened DispatcherSpec

  /** The delayed deliveries of one iteration: exactly the due entries, earliest first, none left due. */
  lemma DeliveryIsComplete(s: Setup, w: World, now: nat)
    requires Core(s, w) && w.clock <= now
    ensures var r := DeliverDue(s, w, now);
      exists due: seq<RxEntry> ::
        && r.ledger.offeredLate == w.ledger.offeredLate + Offers(due, now)
        && (forall i | 0 <= i < |due| :: Offers(due, now)[i] == LateOffer(due[i], now))
        && multiset(due) + multiset(r.rx) == multiset(w.rx)
        && (forall e | e in due :: e.deliverAt <= now)
        && (forall e | e in r.rx :: now < e.deliverAt)
        && forall i, j | 0 <= i < j < |due| :: due[i].deliverAt <= due[j].deliverAt
  {
    RxDrainSorts(w.rx, now);
    var due := RxDrain(w.rx, now).0;
    assert DeliverDue(s, w, now).ledger.offeredLate == w.ledger.offeredLate + Offers(due, now);
  }

  /** The packet a turn attempts: the one the queue gives up, if the refilled bucket lets it through. */
  function Chosen(s: Setup, w: World, now: nat): Option<TxEntry>
    requires Core(s, w) && w.clock <= now
  {
    var e := TxPop(w.tx, now).0;
    if e.Some? && Allows(AfterRefill(w.bucket, now), s.estimate(WireLen(e.value.packet))) then e else None
  }

  /** The record of a turn at the end of the list it belongs to. */
  ghost predicate Recorded(w: World, r: World, t: Transmission, ok: bool) {
    r.ledger == if ok then w.ledger.(sent := w.ledger.sent + [t])
                else w.ledger.(failed := w.ledger.failed + [t])
  }

  /** A turn attempts a best eligible packet and takes only that one from the queue: no strictly better
      eligible packet stays behind. A send costs exactly the milliseconds between its two clock readings, as far
      as the budget goes; a failed one costs nothing. */
  lemma BestIsAttempted(s: Setup, w: World, turn: Turn)
    requires Core(s, w) && TurnOk(s, w.clock, turn) && Chosen(s, w, turn.now).Some?
    ensures var r, e := MaybeTransmit(s, w, turn), Chosen(s, w, turn.now).value;
      && e in w.tx && e.sendAfter <= turn.now
      && (forall x | x in w.tx && x.sendAfter <= turn.now :: !TxBefore(x, e))
      && multiset(r.tx) + multiset{e} == multiset(w.tx)
      && Writable(e.packet)
      && Recorded(w, r, Transmission(e, turn.now, turn.start, turn.end, Serialize(e.packet)), turn.ok)
      && s.estimate(WireLen(e.packet)) <= 2 * AfterRefill(w.bucket, turn.now).budgetMs + 1
      && w.bucket.minReserveMs <= AfterRefill(w.bucket, turn.now).budgetMs
      && (turn.ok ==>
            r.bucket.budgetMs
              == Max(0, AfterRefill(w.bucket, turn.now).budgetMs - (turn.end - turn.start) % 0x1_0000_0000))
      && (!turn.ok ==> r.bucket == AfterRefill(w.bucket, turn.now) && r.stats == w.stats)
  {
    TxPopBest(w.tx, turn.now);
    WaitTakesTime(s, turn.now, turn);
  }

  /** The gate, on the refilled bucket: half the estimate and the reserve must be there. */
  ghost predicate Unaffordable(s: Setup, bucket: Bucket, e: TxEntry) {
    bucket.budgetMs < s.estimate(WireLen(e.packet)) / 2 || bucket.budgetMs < bucket.minReserveMs
  }

  /** The first best eligible packet cannot be paid for. */
  ghost predicate BestUnaffordable(s: Setup, tx: seq<TxEntry>, bucket: Bucket, now: nat) {
    exists i | 0 <= i < |tx| :: IsFirstBest(tx, TxReady(now), TxBefore, i) && Unaffordable(s, bucket, tx[i])
  }

  predicate RefusedAt(s: Setup, w: World, now: nat)
    requires w.bucket.lastRefill <= now
  {
    var e := TxPop(w.tx, now).0;
    e.Some? && !Allows(AfterRefill(w.bucket, now), s.estimate(WireLen(e.value.packet)))
  }

  lemma RefusedIffUnaffordable(s: Setup, w: World, now: nat)
    requires w.bucket.lastRefill <= now
    ensures RefusedAt(s, w, now) <==> BestUnaffordable(s, w.tx, AfterRefill(w.bucket, now), now)
  {
    hide AfterRefill, WireLen;
    TxOrder();
    var b := AfterRefill(w.bucket, now);
    if i :| 0 <= i < |w.tx| && IsFirstBest(w.tx, TxReady(now), TxBefore, i) && Unaffordable(s, b, w.tx[i]) {
      FirstBestIsUnique(w.tx, TxReady(now), TxBefore, i);
    }
  }

  /** What a turn does with the popped packet. */
  lemma TurnOutcome(s: Setup, w: World, turn: Turn)
    requires Core(s, w) && TurnOk(s, w.clock, turn)
    ensures var r := MaybeTransmit(s, w, turn);
      if TxPop(w.tx, turn.now).0.None? || RefusedAt(s, w, turn.now)
      then multiset(r.tx) == multiset(w.tx) && r.ledger == w.ledger && r.stats == w.stats
      else |r.ledger.sent| + |r.ledger.failed| == |w.ledger.sent| + |w.ledger.failed| + 1
  {
    hide TxPop, Serialize;
    TxPopBest(w.tx, turn.now);
    WaitTakesTime(s, w.clock, turn);
  }

  /** A turn records no attempt exactly when no packet is eligible or the first best of the eligible ones
      cannot be paid for, even if another one could; and then it loses nothing. */
  lemma NotAttempted(s: Setup, w: World, turn: Turn)
    requires Core(s, w) && TurnOk(s, w.clock, turn)
    ensures var r := MaybeTransmit(s, w, turn);
      && (r.ledger == w.ledger <==>
            (forall e | e in w.tx :: turn.now < e.sendAfter)
            || BestUnaffordable(s, w.tx, AfterRefill(w.bucket, turn.now), turn.now))
      && (r.ledger == w.ledger ==> multiset(r.tx) == multiset(w.tx) && r.stats == w.stats)
  {
    hide MaybeTransmit, TxPop, BestUnaffordable, RefusedAt, AfterRefill;
    TxPopBest(w.tx, turn.now);
    TurnOutcome(s, w, turn);
    RefusedIffUnaffordable(s, w, turn.now);
  }

  /** A due entry in one of the queues is found by the next drain or the next pop. */
  lemma DueIsFound(tx: seq<TxEntry>, rx: seq<RxEntry>, wake: nat, rxNow: nat, txNow: nat)
    requires wake <= rxNow && wake <= txNow && (forall e | e in rx :: e.deliverAt < INSTANT_MAX)
    requires (exists e | e in tx :: e.sendAfter <= wake) || (exists e | e in rx :: e.deliverAt <= wake)
    ensures RxDrain(rx, rxNow).0 != [] || TxPop(tx, txNow).0.Some?
  {}

  /** No useless wakeup: after the timer fires, the next iteration finds a due delivery or an eligible
      transmission. */
  lemma TimerFindsWork(s: Setup, w: World, event: Event, next: Iteration)
    requires Core(s, w) && EventOk(w, event) && event.Timer?
    requires IterationOk(s, HandleEvent(s, w, event), next)
    ensures var w1 := SubmitAll(s, HandleEvent(s, w, event), next.submissions);
      RxDrain(w1.rx, next.now).0 != [] || TxPop(DeliverDue(s, w1, next.now).tx, next.turn.now).0.Some?
  {
    hide RxDrain, TxPop, BeforeSelect, SubmitAll, NextWake;
    var w0 := HandleEvent(s, w, event);
    var w1 := SubmitAll(s, w0, next.submissions);
    SubmissionsOnlyAdd(s, w0, next.submissions);
    var wake := NextWake(w.tx, w.rx).value;
    if e :| e in w.tx && e.sendAfter == wake {
      assert e in w1.tx;
    }
    DueIsFound(w1.tx, w1.rx, wake, next.now, next.turn.now);
  }

  lemma {:induction false} SubmissionsOnlyAdd(s: Setup, w: World, subs: seq<Submission>)
    requires Core(s, w) && SubmissionsOk(w.clock, subs)
    ensures w.tx <= SubmitAll(s, w, subs).tx && SubmitAll(s, w, subs).rx == w.rx
    ensures w.clock <= SubmitAll(s, w, subs).clock
  {
    hide Core;
    if subs != [] {
      SubmissionsOnlyAdd(s, w, subs[..|subs| - 1]);
    }
  }

  /** A refused packet is due already, so the timer the loop sets next has already expired. */
  lemma RefusalWakesAtOnce(s: Setup, w: World, turn: Turn)
    requires Core(s, w) && TurnOk(s, w.clock, turn) && RefusedAt(s, w, turn.now)
    ensures var r := MaybeTransmit(s, w, turn);
      NextWake(r.tx, r.rx).Some? && NextWake(r.tx, r.rx).value <= turn.now
  {}

  lemma RefusalMovesBest(s: Setup, w: World, turn: Turn)
    requires Core(s, w) && TurnOk(s, w.clock, turn) && RefusedAt(s, w, turn.now)
    ensures BestAt(w.tx, turn.now).Some?
    ensures var i := BestAt(w.tx, turn.now).value;
      MaybeTransmit(s, w, turn).tx == SwapRemove(w.tx, i) + [w.tx[i]]
  {}

  /** A refused packet moves behind all others, and the last one into its place. The ties stay in order
      exactly when neither passes an entry with its own key. */
  lemma RefusalKeepsTiesIff(s: Setup, w: World, turn: Turn)
    requires Core(s, w) && TurnOk(s, w.clock, turn) && RefusedAt(s, w, turn.now) && Distinct(w.tx)
    ensures BestAt(w.tx, turn.now).Some?
    ensures var i, r := BestAt(w.tx, turn.now).value, MaybeTransmit(s, w, turn).tx;
      && r == SwapRemove(w.tx, i) + [w.tx[i]]
      && (KeepsTies(w.tx, r) <==> OvertakesNoTie(w.tx, i) && LastOfItsKey(w.tx, i))
  {
    hide Core, TurnOk, MaybeTransmit, RefusedAt, KeepsTies;
    RefusalMovesBest(s, w, turn);
    PutBackKeepsTiesIff(w.tx, BestAt(w.tx, turn.now).value);
  }

  /** Two ties are reversed by a refusal alone. */
  lemma RefusalReverses(s: Setup, w: World, turn: Turn, a: TxEntry, b: TxEntry)
    requires Core(s, w) && TurnOk(s, w.clock, turn) && RefusedAt(s, w, turn.now)
    requires w.tx == [a, b] && SameKey(a, b)
    ensures MaybeTransmit(s, w, turn).tx == [b, a]
  {
    hide Core, TurnOk, MaybeTransmit, RefusedAt, TxPop;
    RefusalMovesBest(s, w, turn);
    FirstOfTwoTies(a, b, turn.now);
  }

  lemma FirstOfTwoTies(a: TxEntry, b: TxEntry, now: nat)
    requires SameKey(a, b) && BestAt([a, b], now).Some?
    ensures BestAt([a, b], now) == Some(0) && SwapRemove([a, b], 0) + [a] == [b, a]
  {
    var i := BestAt([a, b], now).value;
    assert TxReady(now)([a, b][i]) && TxReady(now)([a, b][0]);
  }

  const QUIET := Channel(_ => Probe.Clear, _ => 0, _ => 0, _ => 0)

  /** Nothing happens for a millisecond, then the expired timer fires. */
  function IdleTick(clock: nat): Iteration {
    Iteration([], clock, Turn(clock + 1, clock + 1, QUIET, clock + 1, clock + 1, true), Timer(clock + 1))
  }

  lemma QuietTurn(s: Setup, clock: nat)
    ensures TurnOk(s, clock, IdleTick(clock).turn)
  {
    assert Stops(s.config, QUIET, clock + 1, 0);
    assert WaitOver(s.config, IdleTick(clock).turn, 0);
  }

  /** The loop can always go on: from every state some iteration is possible. */
  lemma CanAlwaysContinue(s: Setup, w: World) returns (it: Iteration)
    requires Core(s, w) && w.clock + 1 < CLOCK_END
    ensures IterationOk(s, w, it)
  {
    hide Core, RxDrain, TxPop, TurnOk;
    it := IdleTick(w.clock).(event := Radio(None, w.clock + 1));
    QuietTurn(s, w.clock);
  }
}
