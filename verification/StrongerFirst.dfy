/** What the delays are for: over every run, stronger copies of a flood are passed on first. */
module StrongerFirst {
  import opened Machine
  import opened Packet
  import opened Types
  import opened Bags
  import opened RxDelay
  import opened DispatcherSpec
  import opened Conservation
  import opened ScriptLedger
  import opened DeliveryOrder

  /** Frame `a` arrived no later than `b`, no weaker, and takes no longer to send. */
  predicate NoWorse(s: Setup, a: Arrival, b: Arrival) {
    a.at <= b.at && a.rx.snr >= b.rx.snr && s.estimate(a.len) <= s.estimate(b.len)
  }

  lemma DueNoLater(s: Setup, a: Arrival, b: Arrival)
    requires NoWorse(s, a, b) && DelayOf(s, a).Some? && DelayOf(s, b).Some?
    ensures DueEntry(s)(a).deliverAt <= DueEntry(s)(b).deliverAt
  {
    hide DelayFor;
    StrongerNeverWaitsLonger(a.rx.snr, s.estimate(a.len), b.rx.snr, s.estimate(b.len), s.config);
  }

  /** The entry of `a` was offered before position `j`. */
  ghost predicate OfferedBefore(offers: seq<LateOffer>, e: RxEntry, j: nat) {
    exists k | 0 <= k < j && k < |offers| :: offers[k].entry == e
  }

  /** A delayed arrival is held, offered or dropped. */
  lemma DelayedIsSomewhere(s: Setup, w: World, a: Arrival)
    requires Inv(s, w) && a in w.ledger.heard && DelayOf(s, a).Some?
    ensures var e, l := DueEntry(s)(a), w.ledger;
      e in w.rx || OfferedBefore(l.offeredLate, e, |l.offeredLate|) || e in Bag(DueEntry(s), l.droppedRx)
  {
    hide Bag, Select, DelayOf, DueEntry, TxConserved, Counted, Core;
    var e, l := DueEntry(s)(a), w.ledger;
    SelectHas(s, true, l.heard, a);
    BagHas(DueEntry(s), Select(s, true, l.heard), a);
    if e in Bag(OfferedEntry, l.offeredLate) {
      BagMember(OfferedEntry, l.offeredLate, e);
    }
  }

  /** Let `b` be offered late, and `a` be no worse. Without a delay `a` was offered at once. Otherwise `a` is
      due no later; and unless both are due at the same instant, `a` is no longer held, no offer of it comes
      after that of `b`, and it was offered before `b` or dropped on a full delay queue. */
  lemma StrongerIsOfferedFirst(s: Setup, its: seq<Iteration>, n: nat, a: Arrival, b: Arrival, j: nat)
    requires Sound(s) && n <= |its| && RunOk(s, Init(s), its, n)
    requires a in Arrivals(its, n) && DelayOf(s, b).Some? && NoWorse(s, a, b)
    requires var offers := Run(s, Init(s), its, n).ledger.offeredLate;
      j < |offers| && offers[j].entry == DueEntry(s)(b)
    ensures var w, e, f := Run(s, Init(s), its, n), DueEntry(s)(a), DueEntry(s)(b);
      if DelayOf(s, a).None? then a in w.ledger.offeredNow else
        && e.deliverAt <= f.deliverAt
        && (e.deliverAt < f.deliverAt ==>
              && e !in w.rx
              && (forall k | j <= k < |w.ledger.offeredLate| :: w.ledger.offeredLate[k].entry != e)
              && (OfferedBefore(w.ledger.offeredLate, e, j) || e in Bag(DueEntry(s), w.ledger.droppedRx)))
  {
    hide Core, IterationOk, Iterate, Inv, Bag, Arrivals, DelayOf, DueEntry;
    LedgerOfRun(s, its, n);
    OfferedInOrder(s, its, n);
    var w := Run(s, Init(s), its, n);
    if DelayOf(s, a).None? {
      ImmediateWasOffered(s, w, a);
    } else {
      DueNoLater(s, a, b);
      DelayedIsSomewhere(s, w, a);
      assert w.ledger.offeredLate[j] in w.ledger.offeredLate;
    }
  }

  lemma ImmediateWasOffered(s: Setup, w: World, a: Arrival)
    requires Inv(s, w) && a in w.ledger.heard && DelayOf(s, a).None?
    ensures a in w.ledger.offeredNow
  {
    hide Bag, Select, DelayOf, TxConserved, Counted, Core;
    SelectHas(s, false, w.ledger.heard, a);
  }
}
