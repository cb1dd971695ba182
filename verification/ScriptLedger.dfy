/** The ledger's inputs are the script's: what was taken and heard is what the environment supplied. */
module ScriptLedger {
  import opened Machine
  import opened Packet
  import opened Types
  import opened Bags
  import opened RxDelay
  import opened DispatcherSpec
  import opened Conservation

  /** The requests one iteration takes from the channel: those drained, and the one that may win the select. */
  function RequestsOf(it: Iteration): seq<Submission> {
    it.submissions + (if it.event.Request? then [it.event.submission] else [])
  }

  /** The arrival an iteration's event amounts to: only a received frame that parses is one. */
  function ArrivalsOf(it: Iteration): seq<Arrival> {
    match it.event
    case Radio(Some(f), at) =>
      (match Parse(f.bytes)
       case None => []
       case Some(p) => [Arrival(RxPacket(p, f.rssi, f.snr), |f.bytes|, at)])
    case _ => []
  }

  function Requests(its: seq<Iteration>, n: nat): seq<Submission>
    requires n <= |its|
  {
    if n == 0 then [] else Requests(its, n - 1) + RequestsOf(its[n - 1])
  }

  function Arrivals(its: seq<Iteration>, n: nat): seq<Arrival>
    requires n <= |its|
  {
    if n == 0 then [] else Arrivals(its, n - 1) + ArrivalsOf(its[n - 1])
  }

  lemma {:induction false} SubmitAllTakes(s: Setup, w: World, subs: seq<Submission>)
    requires Core(s, w) && SubmissionsOk(w.clock, subs)
    ensures SubmitAll(s, w, subs).ledger.taken == w.ledger.taken + subs
    ensures SubmitAll(s, w, subs).ledger.heard == w.ledger.heard
  {
    hide Core;
    if subs != [] {
      var n := |subs| - 1;
      SubmitAllTakes(s, w, subs[..n]);
      assert w.ledger.taken + subs == (w.ledger.taken + subs[..n]) + [subs[n]];
    }
  }

  lemma MiddleStepsTakeNothing(s: Setup, w: World, now: nat, turn: Turn)
    requires Core(s, w) && w.clock <= now && TurnOk(s, now, turn)
    ensures var r := MaybeTransmit(s, DeliverDue(s, w, now), turn);
      r.ledger.taken == w.ledger.taken && r.ledger.heard == w.ledger.heard
  {}

  lemma EventTakes(s: Setup, w: World, event: Event, it: Iteration)
    requires Core(s, w) && EventOk(w, event) && it.event == event
    ensures HandleEvent(s, w, event).ledger.taken
         == w.ledger.taken + (if event.Request? then [event.submission] else [])
    ensures HandleEvent(s, w, event).ledger.heard == w.ledger.heard + ArrivalsOf(it)
  {}

  lemma IterationTakes(s: Setup, w: World, it: Iteration)
    requires Core(s, w) && IterationOk(s, w, it)
    ensures Iterate(s, w, it).ledger.taken == w.ledger.taken + RequestsOf(it)
    ensures Iterate(s, w, it).ledger.heard == w.ledger.heard + ArrivalsOf(it)
  {
    hide Core, SubmitAll, DeliverDue, MaybeTransmit, HandleEvent, EventOk, ArrivalsOf;
    SubmitAllTakes(s, w, it.submissions);
    MiddleStepsTakeNothing(s, SubmitAll(s, w, it.submissions), it.now, it.turn);
    EventTakes(s, BeforeSelect(s, w, it), it.event, it);
  }

  lemma BeforeSelectTakes(s: Setup, w: World, it: Iteration)
    requires Core(s, w) && IterationOk(s, w, it)
    ensures BeforeSelect(s, w, it).ledger.taken == w.ledger.taken + it.submissions
    ensures BeforeSelect(s, w, it).ledger.heard == w.ledger.heard
  {
    hide Core, SubmitAll, DeliverDue, MaybeTransmit, EventOk;
    SubmitAllTakes(s, w, it.submissions);
    MiddleStepsTakeNothing(s, SubmitAll(s, w, it.submissions), it.now, it.turn);
  }

  /** After any run the ledger has taken exactly the script's requests and heard exactly the frames
      that parse, in order. */
  lemma {:induction false} RunTakes(s: Setup, w: World, its: seq<Iteration>, n: nat)
    requires Core(s, w) && n <= |its| && RunOk(s, w, its, n)
    ensures Run(s, w, its, n).ledger.taken == w.ledger.taken + Requests(its, n)
    ensures Run(s, w, its, n).ledger.heard == w.ledger.heard + Arrivals(its, n)
    decreases n
  {
    hide Core, IterationOk, Iterate, RequestsOf, ArrivalsOf;
    if n > 0 {
      RunTakes(s, w, its, n - 1);
      IterationTakes(s, Run(s, w, its, n - 1), its[n - 1]);
    }
  }

  /** The two receive counters add up to the number of parsed frames, modulo 2^32. */
  lemma ReceivedTotal(stats: Stats, sent: seq<Transmission>, heard: seq<Arrival>)
    requires Counted(stats, sent, heard)
    ensures Wrap32(stats.recvFlood + stats.recvDirect) == Wrap32(|heard|)
  {
    hide Wrap32, FloodArrivals;
    WrapAdd(FloodArrivals(heard), |heard| - FloodArrivals(heard));
  }

  lemma LedgerOfRun(s: Setup, its: seq<Iteration>, n: nat)
    requires Sound(s) && n <= |its| && RunOk(s, Init(s), its, n)
    ensures Inv(s, Run(s, Init(s), its, n))
    ensures Run(s, Init(s), its, n).ledger.taken == Requests(its, n)
    ensures Run(s, Init(s), its, n).ledger.heard == Arrivals(its, n)
  {
    hide Core, IterationOk, Iterate, RequestsOf, ArrivalsOf, Inv;
    EveryRunConserves(s, its, n);
    RunTakes(s, Init(s), its, n);
    assert [] + Requests(its, n) == Requests(its, n);
    assert [] + Arrivals(its, n) == Arrivals(its, n);
  }

  /** Both conservation laws and the counters, in terms of the script alone. */
  lemma ScriptIsConserved(s: Setup, its: seq<Iteration>, n: nat)
    requires Sound(s) && n <= |its| && RunOk(s, Init(s), its, n)
    ensures var r := Run(s, Init(s), its, n);
      && TxConserved(r.tx, Requests(its, n), r.ledger.sent, r.ledger.failed, r.ledger.droppedTx)
      && RxConserved(s, r.rx, Arrivals(its, n), r.ledger.offeredNow, r.ledger.offeredLate, r.ledger.droppedRx)
      && Counted(r.stats, r.ledger.sent, Arrivals(its, n))
      && Wrap32(r.stats.recvFlood + r.stats.recvDirect) == Wrap32(|Arrivals(its, n)|)
  {
    hide Core, IterationOk, Iterate, RequestsOf, ArrivalsOf, TxConserved, RxConserved, Counted;
    LedgerOfRun(s, its, n);
    var r := Run(s, Init(s), its, n);
    ReceivedTotal(r.stats, r.ledger.sent, r.ledger.heard);
  }

  /** In every run a packet is transmitted no sooner than the submission of a request for it plus that
      request's delay, through any number of put-backs; and if it is well formed, its bytes parse back to it. */
  lemma NothingIsSentEarly(s: Setup, its: seq<Iteration>, n: nat, t: Transmission)
    requires Sound(s) && n <= |its| && RunOk(s, Init(s), its, n)
    requires var l := Run(s, Init(s), its, n).ledger; t in l.sent || t in l.failed
    ensures exists sub :: sub in Requests(its, n) && Fulfils(t, sub)
    ensures WellFormed(t.entry.packet) ==> Parse(t.bytes) == Some(t.entry.packet.(snr := 0))
  {
    hide Core, IterationOk, Iterate, Inv, Parse;
    LedgerOfRun(s, its, n);
    SentEntryOrigin(s, Run(s, Init(s), its, n), t);
  }

  /** In every run a delayed packet is offered no sooner than the receive time of its frame plus the
      computed delay. */
  lemma NothingIsOfferedEarly(s: Setup, its: seq<Iteration>, n: nat, o: LateOffer)
    requires Sound(s) && n <= |its| && RunOk(s, Init(s), its, n)
    requires o in Run(s, Init(s), its, n).ledger.offeredLate
    ensures FromArrival(s, Arrivals(its, n), o.entry) && o.entry.deliverAt <= o.at
  {
    hide Core, IterationOk, Iterate, Inv;
    LedgerOfRun(s, its, n);
    OfferedEntryOrigin(s, Run(s, Init(s), its, n), o);
  }

  /** In every run everything held back is due at most the maximum delay after its frame arrived, and
      before the sentinel, so the drain will find it. */
  lemma HeldEntriesAreTimely(s: Setup, its: seq<Iteration>, n: nat, e: RxEntry)
    requires Sound(s) && n <= |its| && RunOk(s, Init(s), its, n)
    requires e in Run(s, Init(s), its, n).rx
    ensures FromArrival(s, Arrivals(its, n), e) && e.deliverAt < INSTANT_MAX
  {
    hide Core, IterationOk, Iterate, Inv;
    LedgerOfRun(s, its, n);
    HeldEntryOrigin(s, Run(s, Init(s), its, n), e);
  }

  /** In every run exactly the direct frames, and the flood frames whose raw delay is below the threshold, are
      offered as they arrive. */
  lemma OfferedAtOnceIff(s: Setup, its: seq<Iteration>, n: nat, a: Arrival)
    requires Sound(s) && n <= |its| && RunOk(s, Init(s), its, n) && a in Arrivals(its, n)
    ensures a in Run(s, Init(s), its, n).ledger.offeredNow <==>
      a.rx.packet.header % 4 in {2, 3}
      || RawDelay(a.rx.snr, s.estimate(a.len)) < s.config.minRxDelayThresholdMs as real
  {
    hide Core, IterationOk, Iterate, Arrivals, RawDelay, Bag, Select, DelayOf, TxConserved, Counted;
    LedgerOfRun(s, its, n);
    var l := Run(s, Init(s), its, n).ledger;
    DelayOfExact(s, a, 0);
    if DelayOf(s, a).None? {
      SelectHas(s, false, l.heard, a);
    }
    if a in l.offeredNow {
      SelectedMember(s, false, l.heard, a);
    }
  }

  // --- The states of one iteration of a run ---

  /** The first `n` iterations are possible from the initial state. */
  ghost predicate Possible(s: Setup, its: seq<Iteration>, n: nat) {
    Sound(s) && n <= |its| && RunOk(s, Init(s), its, n)
  }

  /** The state they end in. */
  ghost function After(s: Setup, its: seq<Iteration>, n: nat): World
    requires Possible(s, its, n)
  {
    Run(s, Init(s), its, n)
  }

  /** The state in which iteration `n` starts. */
  ghost function AtStart(s: Setup, its: seq<Iteration>, n: nat): World
    requires n < |its| && Possible(s, its, n + 1)
  {
    Run(s, Init(s), its, n)
  }

  /** The state in which it waits for its event. */
  ghost function AtSelect(s: Setup, its: seq<Iteration>, n: nat): World
    requires n < |its| && Possible(s, its, n + 1)
  {
    BeforeSelect(s, Run(s, Init(s), its, n), its[n])
  }

  lemma Unfold(s: Setup, its: seq<Iteration>, n: nat)
    requires n < |its| && Possible(s, its, n + 1)
    ensures var w, it := AtStart(s, its, n), its[n];
      && Core(s, w) && IterationOk(s, w, it) && Inv(s, w)
      && AtSelect(s, its, n) == BeforeSelect(s, w, it) && After(s, its, n + 1) == Iterate(s, w, it)
      && w.ledger.taken == Requests(its, n) && w.ledger.heard == Arrivals(its, n)
  {
    hide Core, IterationOk, Inv, Requests, Arrivals, BeforeSelect, Iterate;
    LedgerOfRun(s, its, n);
  }
}
