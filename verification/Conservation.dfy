/** What every run of the dispatcher keeps: nothing is lost, invented or early, and the counters
    agree with what happened. */
module Conservation {
  import opened Machine
  import opened Packet
  import opened Types
  import opened Bags
  import opened TxQueue
  import opened RxDelay
  import opened DutyCycle
  import opened DispatcherSpec

  // --- The invariant ---

  /** What a request asks for: its own packet and priority, due its own delay after it was taken. */
  function SubmittedEntry(sub: Submission): TxEntry {
    TxEntry(sub.request.packet, sub.request.priority, sub.at + sub.request.delayMs)
  }

  function SentEntry(t: Transmission): TxEntry {
    t.entry
  }

  function OfferedEntry(o: LateOffer): RxEntry {
    o.entry
  }

  /** The queue entry an arrival amounts to; without a delay it would be due at once. */
  function DueEntry(s: Setup): Arrival -> RxEntry {
    (a: Arrival) => RxEntry(a.rx, a.at + match DelayOf(s, a) case None => 0 case Some(d) => d)
  }

  /** The arrivals with a delay, or those without, in order. */
  function Select(s: Setup, delayed: bool, arrivals: seq<Arrival>): seq<Arrival> {
    if arrivals == [] then [] else
    var n := |arrivals| - 1;
    Select(s, delayed, arrivals[..n])
      + (if DelayOf(s, arrivals[n]).Some? == delayed then [arrivals[n]] else [])
  }

  lemma SelectAppend(s: Setup, delayed: bool, arrivals: seq<Arrival>, a: Arrival)
    ensures Select(s, delayed, arrivals + [a])
         == Select(s, delayed, arrivals) + (if DelayOf(s, a).Some? == delayed then [a] else [])
  {}

  /** Requests taken = queued + sent + failed in send + dropped on a full queue. */
  ghost predicate TxConserved(tx: seq<TxEntry>, taken: seq<Submission>, sent: seq<Transmission>,
                              failed: seq<Transmission>, dropped: seq<Submission>)
  {
    Bag(SubmittedEntry, taken)
      == multiset(tx) + Bag(SentEntry, sent) + Bag(SentEntry, failed) + Bag(SubmittedEntry, dropped)
  }

  /** Arrivals without a delay were all offered at once, in order; the others = held + offered late
      + dropped on a full delay queue. */
  ghost predicate RxConserved(s: Setup, rx: seq<RxEntry>, heard: seq<Arrival>, offeredNow: seq<Arrival>,
                              offeredLate: seq<LateOffer>, dropped: seq<Arrival>)
  {
    && offeredNow == Select(s, false, heard)
    && Bag(DueEntry(s), Select(s, true, heard))
         == multiset(rx) + Bag(OfferedEntry, offeredLate) + Bag(DueEntry(s), dropped)
  }

  /** The entry left no sooner than its time, in its wire form. */
  ghost predicate TransmissionOk(t: Transmission) {
    && t.entry.sendAfter <= t.gate <= t.start <= t.end
    && Writable(t.entry.packet)
    && t.bytes == Serialize(t.entry.packet)
  }

  ghost predicate AllOk(ts: seq<Transmission>) {
    forall t | t in ts :: TransmissionOk(t)
  }

  ghost predicate NoneEarly(offers: seq<LateOffer>) {
    forall o | o in offers :: o.entry.deliverAt <= o.at
  }

  function FloodArrivals(arrivals: seq<Arrival>): nat {
    if arrivals == [] then 0 else
    var n := |arrivals| - 1;
    FloodArrivals(arrivals[..n]) + (if IsFlood(arrivals[n].rx.packet.header) then 1 else 0)
  }

  function FloodSends(ts: seq<Transmission>): nat {
    if ts == [] then 0 else
    var n := |ts| - 1;
    FloodSends(ts[..n]) + (if IsFlood(ts[n].entry.packet.header) then 1 else 0)
  }

  function TotalAirtime(ts: seq<Transmission>): int {
    if ts == [] then 0 else
    var n := |ts| - 1;
    TotalAirtime(ts[..n]) + SendTime(ts[n])
  }

  /** The 32-bit counters are the true counts, modulo 2^32. */
  ghost predicate Counted(stats: Stats, sent: seq<Transmission>, heard: seq<Arrival>) {
    stats == Stats(
      Wrap32(TotalAirtime(sent)), 0,
      Wrap32(FloodSends(sent)), Wrap32(|sent| - FloodSends(sent)),
      Wrap32(FloodArrivals(heard)), Wrap32(|heard| - FloodArrivals(heard)))
  }

  ghost predicate Inv(s: Setup, w: World) {
    var l := w.ledger;
    && Core(s, w)
    && TxConserved(w.tx, l.taken, l.sent, l.failed, l.droppedTx)
    && RxConserved(s, w.rx, l.heard, l.offeredNow, l.offeredLate, l.droppedRx)
    && AllOk(l.sent) && AllOk(l.failed) && NoneEarly(l.offeredLate)
    && Counted(w.stats, l.sent, l.heard)
  }

  // --- Every step keeps it ---

  lemma InitKeeps(s: Setup)
    requires Sound(s)
    ensures Inv(s, Init(s))
  {}

  lemma TakeConserves(tx: seq<TxEntry>, taken: seq<Submission>, sent: seq<Transmission>,
                      failed: seq<Transmission>, dropped: seq<Submission>, sub: Submission)
    requires TxConserved(tx, taken, sent, failed, dropped)
    ensures TxConserved(tx + [SubmittedEntry(sub)], taken + [sub], sent, failed, dropped)
    ensures TxConserved(tx, taken + [sub], sent, failed, dropped + [sub])
  {
    hide SubmittedEntry;
    BagAppend(SubmittedEntry, taken, sub);
    BagAppend(SubmittedEntry, dropped, sub);
  }

  lemma SubmitKeeps(s: Setup, w: World, sub: Submission)
    requires Inv(s, w) && SubmissionOk(w.clock, sub)
    ensures Inv(s, Submit(s, w, sub))
  {
    hide TxConserved, RxConserved, AllOk, NoneEarly, Counted;
    var l := w.ledger;
    TakeConserves(w.tx, l.taken, l.sent, l.failed, l.droppedTx, sub);
  }

  lemma {:induction false} SubmitAllKeeps(s: Setup, w: World, subs: seq<Submission>)
    requires Inv(s, w) && SubmissionsOk(w.clock, subs)
    ensures Inv(s, SubmitAll(s, w, subs))
  {
    hide TxConserved, RxConserved, AllOk, NoneEarly, Counted, Core, Submit;
    if subs != [] {
      var n := |subs| - 1;
      SubmitAllKeeps(s, w, subs[..n]);
      SubmitKeeps(s, SubmitAll(s, w, subs[..n]), subs[n]);
    }
  }

  lemma {:induction false} BagOfOffers(due: seq<RxEntry>, now: nat)
    ensures Bag(OfferedEntry, Offers(due, now)) == multiset(due)
  {
    if due != [] {
      var n := |due| - 1;
      BagOfOffers(due[..n], now);
      assert Offers(due, now)[..n] == Offers(due[..n], now);
      assert due == due[..n] + [due[n]];
    }
  }

  lemma NoOfferEarly(due: seq<RxEntry>, now: nat)
    requires forall e | e in due :: e.deliverAt <= now
    ensures NoneEarly(Offers(due, now))
  {}

  lemma OfferingConserves(s: Setup, rx: seq<RxEntry>, heard: seq<Arrival>, offeredNow: seq<Arrival>,
                          offeredLate: seq<LateOffer>, dropped: seq<Arrival>, now: nat)
    requires RxConserved(s, rx, heard, offeredNow, offeredLate, dropped) && NoneEarly(offeredLate)
    requires forall e | e in rx :: e.deliverAt < INSTANT_MAX
    ensures var (due, rest) := RxDrain(rx, now);
      && RxConserved(s, rest, heard, offeredNow, offeredLate + Offers(due, now), dropped)
      && NoneEarly(offeredLate + Offers(due, now))
  {
    hide RxDrain, Offers, Select, DueEntry, Bag;
    RxDrainSorts(rx, now);
    var (due, rest) := RxDrain(rx, now);
    NoOfferEarly(due, now);
    BagOfOffers(due, now);
    BagConcat(OfferedEntry, offeredLate, Offers(due, now));
  }

  lemma DeliverKeeps(s: Setup, w: World, now: nat)
    requires Inv(s, w) && w.clock <= now
    ensures Inv(s, DeliverDue(s, w, now))
  {
    hide TxConserved, RxConserved, AllOk, NoneEarly, Counted;
    var l := w.ledger;
    OfferingConserves(s, w.rx, l.heard, l.offeredNow, l.offeredLate, l.droppedRx, now);
  }

  lemma CountingSends(ts: seq<Transmission>, t: Transmission)
    ensures FloodSends(ts + [t]) == FloodSends(ts) + (if IsFlood(t.entry.packet.header) then 1 else 0)
    ensures TotalAirtime(ts + [t]) == TotalAirtime(ts) + SendTime(t)
  {}

  lemma CountingArrivals(arrivals: seq<Arrival>, a: Arrival)
    ensures FloodArrivals(arrivals + [a]) == FloodArrivals(arrivals) + (if IsFlood(a.rx.packet.header) then 1 else 0)
  {}

  lemma WrapAdd(a: int, b: int)
    ensures Wrap32(Wrap32(a) + Wrap32(b)) == Wrap32(a + b)
    ensures Wrap32(Wrap32(a) + b) == Wrap32(a + b)
  {}

  lemma SendConserves(tx: seq<TxEntry>, rest: seq<TxEntry>, taken: seq<Submission>, sent: seq<Transmission>,
                      failed: seq<Transmission>, dropped: seq<Submission>, t: Transmission)
    requires TxConserved(tx, taken, sent, failed, dropped)
    requires multiset(rest) + multiset{t.entry} == multiset(tx)
    ensures TxConserved(rest, taken, sent + [t], failed, dropped)
    ensures TxConserved(rest, taken, sent, failed + [t], dropped)
  {
    BagAppend(SentEntry, sent, t);
    BagAppend(SentEntry, failed, t);
  }

  lemma SendCounted(stats: Stats, sent: seq<Transmission>, heard: seq<Arrival>, t: Transmission)
    requires Counted(stats, sent, heard)
    ensures Counted(CountSent(stats, IsFlood(t.entry.packet.header), Wrap32(t.end - t.start)), sent + [t], heard)
  {
    hide Wrap32, TotalAirtime, FloodSends, FloodArrivals;
    CountingSends(sent, t);
    WrapAdd(TotalAirtime(sent), SendTime(t));
    WrapAdd(FloodSends(sent), 1);
    WrapAdd(|sent| - FloodSends(sent), 1);
  }

  lemma OneMoreOk(ts: seq<Transmission>, t: Transmission)
    requires AllOk(ts) && TransmissionOk(t)
    ensures AllOk(ts + [t])
  {}

  /** A transmission keeps what held of the state in which its entry was still queued. */
  lemma TransmitKeeps(s: Setup, w: World, rest: World, e: TxEntry, turn: Turn)
    requires Inv(s, w) && Core(s, rest) && rest == w.(tx := rest.tx)
    requires multiset(rest.tx) + multiset{e} == multiset(w.tx)
    requires Writable(e.packet) && e.sendAfter <= turn.now <= turn.start <= turn.end && w.clock <= turn.start
    ensures Inv(s, Transmit(s, rest, e, turn))
  {
    hide TxConserved, RxConserved, AllOk, NoneEarly, Counted, CountSent, Core;
    var t := RecordOf(e, turn);
    var l := w.ledger;
    SendConserves(w.tx, rest.tx, l.taken, l.sent, l.failed, l.droppedTx, t);
    OneMoreOk(l.sent, t);
    OneMoreOk(l.failed, t);
    SendCounted(w.stats, l.sent, l.heard, t);
  }

  /** Putting a refused entry back never fails and leaves the queue's multiset as it was. */
  lemma PutBackRestores(s: Setup, w: World, rest: World, e: TxEntry)
    requires Core(s, w) && Core(s, rest) && rest == w.(tx := rest.tx) && Writable(e.packet)
    requires multiset(rest.tx) + multiset{e} == multiset(w.tx)
    ensures PutBack(s, rest, e).tx == rest.tx + [e]
    ensures multiset(PutBack(s, rest, e).tx) == multiset(w.tx)
  {
    assert |multiset(rest.tx)| + 1 == |multiset(w.tx)|;
  }

  lemma MaybeTransmitKeeps(s: Setup, w: World, turn: Turn)
    requires Inv(s, w) && TurnOk(s, w.clock, turn)
    ensures Inv(s, MaybeTransmit(s, w, turn))
  {
    hide TxConserved, RxConserved, AllOk, NoneEarly, Counted, Core, Transmit, PutBack;
    var w' := Refilled(s, w, turn.now);
    var rest := Without(s, w', turn.now);
    TxPopBest(w'.tx, turn.now);
    var ready := TxPop(w'.tx, turn.now).0;
    if ready.Some? {
      WaitTakesTime(s, turn.now, turn);
      if Allows(w'.bucket, s.estimate(WireLen(ready.value.packet))) {
        TransmitKeeps(s, w', rest, ready.value, turn);
      } else {
        PutBackKeeps(s, w', rest, ready.value);
      }
    }
  }

  lemma PutBackKeeps(s: Setup, w: World, rest: World, e: TxEntry)
    requires Inv(s, w) && Core(s, rest) && rest == w.(tx := rest.tx) && Writable(e.packet)
    requires multiset(rest.tx) + multiset{e} == multiset(w.tx)
    ensures Inv(s, PutBack(s, rest, e))
  {}

  lemma ArrivalCounted(stats: Stats, sent: seq<Transmission>, heard: seq<Arrival>, a: Arrival)
    requires Counted(stats, sent, heard)
    ensures Counted(CountReceived(stats, IsFlood(a.rx.packet.header)), sent, heard + [a])
  {
    hide Wrap32, TotalAirtime, FloodSends, FloodArrivals;
    CountingArrivals(heard, a);
    WrapAdd(FloodArrivals(heard), 1);
    WrapAdd(|heard| - FloodArrivals(heard), 1);
  }

  lemma ImmediateConserves(s: Setup, rx: seq<RxEntry>, heard: seq<Arrival>, offeredNow: seq<Arrival>,
                           offeredLate: seq<LateOffer>, dropped: seq<Arrival>, a: Arrival)
    requires RxConserved(s, rx, heard, offeredNow, offeredLate, dropped) && DelayOf(s, a).None?
    ensures RxConserved(s, rx, heard + [a], offeredNow + [a], offeredLate, dropped)
  {
    hide DelayOf;
    SelectAppend(s, true, heard, a);
    SelectAppend(s, false, heard, a);
    assert Select(s, true, heard) + [] == Select(s, true, heard);
  }

  lemma DelayedSelected(s: Setup, heard: seq<Arrival>, a: Arrival)
    requires DelayOf(s, a).Some?
    ensures Select(s, false, heard + [a]) == Select(s, false, heard)
    ensures Bag(DueEntry(s), Select(s, true, heard + [a]))
         == Bag(DueEntry(s), Select(s, true, heard)) + multiset{DueEntry(s)(a)}
  {}

  lemma HoldingConserves(s: Setup, rx: seq<RxEntry>, heard: seq<Arrival>, offeredNow: seq<Arrival>,
                         offeredLate: seq<LateOffer>, dropped: seq<Arrival>, a: Arrival)
    requires RxConserved(s, rx, heard, offeredNow, offeredLate, dropped) && DelayOf(s, a).Some?
    ensures RxConserved(s, rx + [DueEntry(s)(a)], heard + [a], offeredNow, offeredLate, dropped)
  {
    hide DelayOf, DueEntry;
    DelayedSelected(s, heard, a);
  }

  lemma DroppingConserves(s: Setup, rx: seq<RxEntry>, heard: seq<Arrival>, offeredNow: seq<Arrival>,
                          offeredLate: seq<LateOffer>, dropped: seq<Arrival>, a: Arrival)
    requires RxConserved(s, rx, heard, offeredNow, offeredLate, dropped) && DelayOf(s, a).Some?
    ensures RxConserved(s, rx, heard + [a], offeredNow, offeredLate, dropped + [a])
  {
    hide DelayOf, DueEntry;
    DelayedSelected(s, heard, a);
    BagAppend(DueEntry(s), dropped, a);
  }

  lemma ArrivalKeeps(s: Setup, w: World, a: Arrival)
    requires Inv(s, w) && a.at < CLOCK_END
    ensures Inv(s, File(s, CountArrival(w, a), a))
  {
    hide TxConserved, RxConserved, AllOk, NoneEarly, Counted, DelayOf, CountReceived;
    var l := w.ledger;
    ArrivalCounted(w.stats, l.sent, l.heard, a);
    DelayBounded(s, a);
    if DelayOf(s, a).None? {
      ImmediateConserves(s, w.rx, l.heard, l.offeredNow, l.offeredLate, l.droppedRx, a);
    } else {
      HoldingConserves(s, w.rx, l.heard, l.offeredNow, l.offeredLate, l.droppedRx, a);
      DroppingConserves(s, w.rx, l.heard, l.offeredNow, l.offeredLate, l.droppedRx, a);
    }
  }

  lemma EventKeeps(s: Setup, w: World, event: Event)
    requires Inv(s, w) && EventOk(w, event)
    ensures Inv(s, HandleEvent(s, w, event))
  {
    hide TxConserved, RxConserved, AllOk, NoneEarly, Counted, File, CountArrival, Submit, NextWake, Parse;
    match event
    case Radio(frame, at) =>
      var w' := w.(clock := at);
      if frame.Some? {
        match Parse(frame.value.bytes)
        case None =>
        case Some(p) =>
          ArrivalKeeps(s, w', Arrival(RxPacket(p, frame.value.rssi, frame.value.snr), |frame.value.bytes|, at));
      }
    case Request(sub) =>
      SubmitKeeps(s, w, sub);
    case Timer(at) =>
  }

  lemma IterateKeeps(s: Setup, w: World, it: Iteration)
    requires Inv(s, w) && IterationOk(s, w, it)
    ensures Inv(s, Iterate(s, w, it))
  {
    hide Inv, Core, SubmitAll, DeliverDue, MaybeTransmit, HandleEvent, EventOk;
    InvImpliesCore(s, w);
    SubmitAllKeeps(s, w, it.submissions);
    var w1 := SubmitAll(s, w, it.submissions);
    DeliverKeeps(s, w1, it.now);
    var w2 := DeliverDue(s, w1, it.now);
    MaybeTransmitKeeps(s, w2, it.turn);
    EventKeeps(s, BeforeSelect(s, w, it), it.event);
  }

  lemma BeforeSelectKeeps(s: Setup, w: World, it: Iteration)
    requires Inv(s, w) && Core(s, w) && IterationOk(s, w, it)
    ensures Inv(s, BeforeSelect(s, w, it))
  {
    hide Inv, Core, SubmitAll, DeliverDue, MaybeTransmit, EventOk;
    SubmitAllKeeps(s, w, it.submissions);
    var w1 := SubmitAll(s, w, it.submissions);
    DeliverKeeps(s, w1, it.now);
    MaybeTransmitKeeps(s, DeliverDue(s, w1, it.now), it.turn);
  }

  lemma InvImpliesCore(s: Setup, w: World)
    requires Inv(s, w)
    ensures Core(s, w)
  {}

  lemma {:induction false} RunKeeps(s: Setup, w: World, its: seq<Iteration>, n: nat)
    requires Inv(s, w) && n <= |its| && RunOk(s, w, its, n)
    ensures Inv(s, Run(s, w, its, n))
    decreases n
  {
    hide Inv, Core, IterationOk, Iterate;
    InvImpliesCore(s, w);
    if n > 0 {
      RunKeeps(s, w, its, n - 1);
      IterateKeeps(s, Run(s, w, its, n - 1), its[n - 1]);
    }
  }

  // --- Whole runs ---

  /** After any run of any length from the initial state, every conservation law holds. */
  lemma EveryRunConserves(s: Setup, its: seq<Iteration>, n: nat)
    requires Sound(s) && n <= |its| && RunOk(s, Init(s), its, n)
    ensures Inv(s, Run(s, Init(s), its, n))
  {
    InitKeeps(s);
    RunKeeps(s, Init(s), its, n);
  }

  /** The transmission is of the packet that was asked for, at the priority and the time that were asked for,
      and not before that time. */
  predicate Fulfils(t: Transmission, sub: Submission) {
    && t.entry.packet == sub.request.packet
    && t.entry.priority == sub.request.priority
    && t.entry.sendAfter == sub.at + sub.request.delayMs <= t.start
  }

  /** Every transmission is of a submitted request, no sooner than its delay allows; and a receiver of
      its bytes reads back the packet. */
  lemma SentEntryOrigin(s: Setup, w: World, t: Transmission)
    requires Inv(s, w) && (t in w.ledger.sent || t in w.ledger.failed)
    ensures exists sub :: sub in w.ledger.taken && Fulfils(t, sub)
    ensures WellFormed(t.entry.packet) ==> Parse(t.bytes) == Some(t.entry.packet.(snr := 0))
  {
    hide Core, RxConserved, Counted, Parse, Serialize, WellFormed;
    var l := w.ledger;
    SentWasTaken(w.tx, l.taken, l.sent, l.failed, l.droppedTx, t);
    BytesParseBack(t);
  }

  lemma SentWasTaken(tx: seq<TxEntry>, taken: seq<Submission>, sent: seq<Transmission>,
                     failed: seq<Transmission>, dropped: seq<Submission>, t: Transmission)
    requires TxConserved(tx, taken, sent, failed, dropped) && (t in sent || t in failed) && TransmissionOk(t)
    ensures exists sub :: sub in taken && Fulfils(t, sub)
  {
    hide Bag, Serialize;
    SentIsInBag(if t in sent then sent else failed, t);
    BagMember(SubmittedEntry, taken, t.entry);
    var sub :| sub in taken && SubmittedEntry(sub) == t.entry;
    assert Fulfils(t, sub);
  }

  lemma BytesParseBack(t: Transmission)
    requires TransmissionOk(t)
    ensures WellFormed(t.entry.packet) ==> Parse(t.bytes) == Some(t.entry.packet.(snr := 0))
  {
    hide Serialize, Read, WellFormed;
    if WellFormed(t.entry.packet) {
      ReadRestores(EMPTY, t.entry.packet);
    }
  }

  lemma {:induction false} SentIsInBag(ts: seq<Transmission>, t: Transmission)
    requires t in ts
    ensures t.entry in Bag(SentEntry, ts)
  {
    var n := |ts| - 1;
    if ts[n] != t {
      assert ts == ts[..n] + [ts[n]];
      SentIsInBag(ts[..n], t);
    }
  }

  lemma {:induction false} SelectedMember(s: Setup, delayed: bool, arrivals: seq<Arrival>, a: Arrival)
    requires a in Select(s, delayed, arrivals)
    ensures a in arrivals && DelayOf(s, a).Some? == delayed
  {
    var n := |arrivals| - 1;
    if a in Select(s, delayed, arrivals[..n]) {
      SelectedMember(s, delayed, arrivals[..n], a);
      assert a in arrivals[..n];
    }
  }

  lemma {:induction false} SelectHas(s: Setup, delayed: bool, arrivals: seq<Arrival>, a: Arrival)
    requires a in arrivals && DelayOf(s, a).Some? == delayed
    ensures a in Select(s, delayed, arrivals)
  {
    hide DelayOf;
    var n := |arrivals| - 1;
    if arrivals[n] != a {
      assert a in arrivals[..n];
      SelectHas(s, delayed, arrivals[..n], a);
    }
  }

  /** Where a delayed entry comes from: a flood arrival of the same packet, SNR and RSSI, due the delay after it
      that the formula prescribes for its SNR and airtime estimate. */
  ghost predicate FromArrival(s: Setup, heard: seq<Arrival>, e: RxEntry) {
    exists a, d: u32 ::
      && a in heard && a.rx.packet.header % 4 in {0, 1}
      && Prescribed(RawDelay(a.rx.snr, s.estimate(a.len)), s.config, d) && d <= s.config.maxRxDelayMs
      && e.rxPacket == a.rx && e.deliverAt == a.at + d
  }

  /** When a delay applies, and how long it is, by the route bits, the SNR and the airtime estimate alone. */
  lemma DelayOfExact(s: Setup, a: Arrival, d: u32)
    ensures DelayOf(s, a) == Some(d) <==>
      a.rx.packet.header % 4 in {0, 1} && Prescribed(RawDelay(a.rx.snr, s.estimate(a.len)), s.config, d)
    ensures DelayOf(s, a).None? <==>
      a.rx.packet.header % 4 in {2, 3}
      || RawDelay(a.rx.snr, s.estimate(a.len)) < s.config.minRxDelayThresholdMs as real
  {
    hide DelayFor, RawDelay, Prescribed;
    DelayExact(a.rx.snr, s.estimate(a.len), s.config, d);
    ImmediateIff(a.rx.snr, s.estimate(a.len), s.config);
  }

  lemma DelayedEntryOrigin(s: Setup, w: World, e: RxEntry)
    requires Inv(s, w) && e in Bag(DueEntry(s), Select(s, true, w.ledger.heard))
    ensures FromArrival(s, w.ledger.heard, e)
  {
    var delayed := Select(s, true, w.ledger.heard);
    BagMember(DueEntry(s), delayed, e);
    var a :| a in delayed && DueEntry(s)(a) == e;
    SelectedMember(s, true, w.ledger.heard, a);
    DelayBounded(s, a);
    DelayOfExact(s, a, DelayOf(s, a).value);
  }

  /** A late offer comes from an arrival and is not made before its due time. */
  lemma OfferedEntryOrigin(s: Setup, w: World, o: LateOffer)
    requires Inv(s, w) && o in w.ledger.offeredLate
    ensures FromArrival(s, w.ledger.heard, o.entry) && o.entry.deliverAt <= o.at
  {
    OfferIsInBag(w.ledger.offeredLate, o);
    DelayedEntryOrigin(s, w, o.entry);
  }

  lemma {:induction false} OfferIsInBag(os: seq<LateOffer>, o: LateOffer)
    requires o in os
    ensures o.entry in Bag(OfferedEntry, os)
  {
    var n := |os| - 1;
    if os[n] != o {
      assert os == os[..n] + [os[n]];
      OfferIsInBag(os[..n], o);
    }
  }

  /** A held entry comes from an arrival and is due before the sentinel. */
  lemma HeldEntryOrigin(s: Setup, w: World, e: RxEntry)
    requires Inv(s, w) && e in w.rx
    ensures FromArrival(s, w.ledger.heard, e) && e.deliverAt < INSTANT_MAX
  {
    assert e in multiset(w.rx);
    DelayedEntryOrigin(s, w, e);
  }
}
