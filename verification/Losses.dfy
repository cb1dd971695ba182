/** When requests and frames are lost: exactly when their queue is full, over every run. */
module Losses {
  import opened Machine
  import opened Packet
  import opened Types
  import opened Bags
  import opened TxQueue
  import opened RxDelay
  import opened DutyCycle
  import opened DispatcherSpec
  import opened Conservation
  import opened ScriptLedger
  import Pow10
  import Scheduling
  import Starvation

  // --- How full the queues are, by the ledger alone ---

  /** The requests taken that were neither transmitted nor dropped. */
  function Unsent(l: Ledger): int {
    |l.taken| - |l.sent| - |l.failed| - |l.droppedTx|
  }

  /** The frames to be delayed that were neither offered nor dropped. */
  function Waiting(s: Setup, l: Ledger): int {
    |Select(s, true, l.heard)| - |l.offeredLate| - |l.droppedRx|
  }

  lemma TxFilling(tx: seq<TxEntry>, taken: seq<Submission>, sent: seq<Transmission>,
                  failed: seq<Transmission>, dropped: seq<Submission>)
    requires TxConserved(tx, taken, sent, failed, dropped)
    ensures |tx| == |taken| - |sent| - |failed| - |dropped|
  {
    hide Bag;
    BagSize(SubmittedEntry, taken);
    BagSize(SubmittedEntry, dropped);
    BagSize(SentEntry, sent);
    BagSize(SentEntry, failed);
  }

  lemma RxFilling(s: Setup, rx: seq<RxEntry>, heard: seq<Arrival>, offeredNow: seq<Arrival>,
                  offeredLate: seq<LateOffer>, dropped: seq<Arrival>)
    requires RxConserved(s, rx, heard, offeredNow, offeredLate, dropped)
    ensures |rx| == |Select(s, true, heard)| - |offeredLate| - |dropped|
  {
    hide Bag, Select;
    BagSize(DueEntry(s), Select(s, true, heard));
    BagSize(DueEntry(s), dropped);
    BagSize(OfferedEntry, offeredLate);
  }

  /** In every state that keeps the laws the queues hold exactly what the ledger leaves open. */
  lemma Fillings(s: Setup, w: World)
    requires Inv(s, w)
    ensures |w.tx| == Unsent(w.ledger) <= s.txCap
    ensures |w.rx| == Waiting(s, w.ledger) <= s.rxCap
  {
    hide TxConserved, RxConserved, Counted;
    var l := w.ledger;
    TxFilling(w.tx, l.taken, l.sent, l.failed, l.droppedTx);
    RxFilling(s, w.rx, l.heard, l.offeredNow, l.offeredLate, l.droppedRx);
  }

  // --- What one iteration drops ---

  /** All but the first `k`; none when there are no more. */
  function From<T>(s: seq<T>, k: int): seq<T> {
    if 0 <= k <= |s| then s[k..] else []
  }

  /** A drain of the channel queues requests while there is room and drops exactly the others. */
  lemma {:induction false} DrainDrops(s: Setup, w: World, subs: seq<Submission>)
    requires Core(s, w) && SubmissionsOk(w.clock, subs)
    ensures var k, r := s.txCap - |w.tx|, SubmitAll(s, w, subs);
      && |r.tx| == |w.tx| + Min(|subs|, k)
      && r.ledger.droppedTx == w.ledger.droppedTx + From(subs, k)
      && r.ledger.droppedRx == w.ledger.droppedRx
  {
    hide Core, Submit;
    CoreFits(s, w);
    if subs != [] {
      var n := |subs| - 1;
      DrainDrops(s, w, subs[..n]);
      var w' := SubmitAll(s, w, subs[..n]);
      CoreFits(s, w');
      OneSubmission(s, w', subs[n]);
      OneMoreDropped(subs, s.txCap - |w.tx|);
    }
  }

  lemma CoreFits(s: Setup, w: World)
    requires Core(s, w)
    ensures |w.tx| <= s.txCap
  {}

  lemma OneSubmission(s: Setup, w: World, sub: Submission)
    requires Core(s, w) && SubmissionOk(w.clock, sub)
    ensures var full, r := |w.tx| == s.txCap, Submit(s, w, sub);
      && |r.tx| == |w.tx| + (if full then 0 else 1)
      && r.ledger.droppedTx == w.ledger.droppedTx + (if full then [sub] else [])
      && r.ledger.droppedRx == w.ledger.droppedRx
  {}

  lemma OneMoreDropped<T>(s: seq<T>, k: nat)
    requires s != []
    ensures From(s, k) == From(s[..|s| - 1], k) + (if k < |s| then [s[|s| - 1]] else [])
  {}

  lemma MiddleDropsNothing(s: Setup, w: World, now: nat, turn: Turn)
    requires Core(s, w) && w.clock <= now && TurnOk(s, now, turn)
    ensures var r := MaybeTransmit(s, DeliverDue(s, w, now), turn);
      r.ledger.droppedTx == w.ledger.droppedTx && r.ledger.droppedRx == w.ledger.droppedRx
  {
    hide RxDrain, TxPop, Serialize;
  }

  /** What the event of an iteration drops: a request or a delayed frame that finds its queue full. */
  function DroppedRequest(s: Setup, v: World, event: Event): seq<Submission> {
    if event.Request? && Unsent(v.ledger) == s.txCap then [event.submission] else []
  }

  function DroppedFrame(s: Setup, v: World, it: Iteration): seq<Arrival> {
    if Waiting(s, v.ledger) == s.rxCap then Select(s, true, ArrivalsOf(it)) else []
  }

  lemma EventDrops(s: Setup, v: World, it: Iteration)
    requires Inv(s, v) && Core(s, v) && EventOk(v, it.event)
    ensures var r := HandleEvent(s, v, it.event);
      && r.ledger.droppedTx == v.ledger.droppedTx + DroppedRequest(s, v, it.event)
      && r.ledger.droppedRx == v.ledger.droppedRx + DroppedFrame(s, v, it)
  {
    hide Inv, Core, NextWake, Parse, Unsent, Waiting, File, Submit, DelayOf, CountArrival;
    Fillings(s, v);
    match it.event
    case Radio(frame, at) =>
      if frame.Some? && Parse(frame.value.bytes).Some? {
        var p := Parse(frame.value.bytes).value;
        FilingDrops(s, v, Arrival(RxPacket(p, frame.value.rssi, frame.value.snr), |frame.value.bytes|, at));
      }
    case Request(sub) =>
      OneSubmission(s, v, sub);
    case Timer(at) =>
  }

  lemma FilingDrops(s: Setup, v: World, a: Arrival)
    requires |v.rx| <= s.rxCap
    ensures var r := File(s, CountArrival(v.(clock := a.at), a), a);
      && r.ledger.droppedTx == v.ledger.droppedTx
      && r.ledger.droppedRx == v.ledger.droppedRx + (if |v.rx| == s.rxCap then Select(s, true, [a]) else [])
  {
    hide DelayOf, Select;
    SelectOne(s, a);
  }

  lemma SelectOne(s: Setup, a: Arrival)
    ensures Select(s, true, [a]) == if DelayOf(s, a).Some? then [a] else []
  {
    hide DelayOf;
    assert [a][..0] == [];
  }

  lemma EventPossible(s: Setup, w: World, it: Iteration)
    requires Core(s, w) && IterationOk(s, w, it)
    ensures var v := BeforeSelect(s, w, it);
      Core(s, v) && EventOk(v, it.event) && Iterate(s, w, it) == HandleEvent(s, v, it.event)
  {
    hide Core, EventOk, BeforeSelect, HandleEvent;
  }

  lemma BeforeSelectDrops(s: Setup, w: World, it: Iteration)
    requires Inv(s, w) && Core(s, w) && IterationOk(s, w, it)
    ensures var v := BeforeSelect(s, w, it);
      && v.ledger.droppedTx == w.ledger.droppedTx + From(it.submissions, s.txCap - Unsent(w.ledger))
      && v.ledger.droppedRx == w.ledger.droppedRx
  {
    hide Inv, Core, SubmitAll, DeliverDue, MaybeTransmit, EventOk, Unsent, From;
    Fillings(s, w);
    DrainDrops(s, w, it.submissions);
    MiddleDropsNothing(s, SubmitAll(s, w, it.submissions), it.now, it.turn);
  }

  lemma IterationDrops(s: Setup, w: World, it: Iteration)
    requires Inv(s, w) && Core(s, w) && IterationOk(s, w, it)
    ensures var v, r := BeforeSelect(s, w, it), Iterate(s, w, it);
      && Inv(s, v)
      && v.ledger.droppedTx == w.ledger.droppedTx + From(it.submissions, s.txCap - Unsent(w.ledger))
      && r.ledger.droppedTx == v.ledger.droppedTx + DroppedRequest(s, v, it.event)
      && v.ledger.droppedRx == w.ledger.droppedRx
      && r.ledger.droppedRx == v.ledger.droppedRx + DroppedFrame(s, v, it)
  {
    hide Inv, Core, BeforeSelect, Iterate, HandleEvent, EventOk, Unsent, From, DroppedRequest, DroppedFrame;
    BeforeSelectKeeps(s, w, it);
    BeforeSelectDrops(s, w, it);
    EventPossible(s, w, it);
    EventDrops(s, BeforeSelect(s, w, it), it);
  }

  // --- Whole runs ---

  /** After any run: how full both queues are, in terms of the script and the ledger. */
  lemma RunFillings(s: Setup, its: seq<Iteration>, n: nat)
    requires Possible(s, its, n)
    ensures var w := After(s, its, n);
      var l := w.ledger;
      && |w.tx| == |Requests(its, n)| - |l.sent| - |l.failed| - |l.droppedTx| <= s.txCap
      && |w.rx| == |Select(s, true, Arrivals(its, n))| - |l.offeredLate| - |l.droppedRx| <= s.rxCap
  {
    hide Core, IterationOk, Iterate, Inv, Requests, Arrivals, Select;
    LedgerOfRun(s, its, n);
    Fillings(s, After(s, its, n));
  }

  /** In iteration n of any run the drain drops exactly the requests beyond the txCap that may be unsent, and
      the select drops its request exactly when txCap of those supplied so far are unsent. */
  lemma RequestsAreDroppedIff(s: Setup, its: seq<Iteration>, n: nat)
    requires n < |its| && Possible(s, its, n + 1)
    ensures var l, m, r := AtStart(s, its, n).ledger, AtSelect(s, its, n).ledger, After(s, its, n + 1).ledger;
      var subs, event := its[n].submissions, its[n].event;
      var room := s.txCap - (|Requests(its, n)| - |l.sent| - |l.failed| - |l.droppedTx|);
      var unsent := |Requests(its, n)| + |subs| - |m.sent| - |m.failed| - |m.droppedTx|;
      && m.droppedTx == l.droppedTx + From(subs, room)
      && r.droppedTx == m.droppedTx + (if event.Request? && unsent == s.txCap then [event.submission] else [])
  {
    hide Core, Inv, Requests, Arrivals, IterationOk, BeforeSelect, HandleEvent, Iterate;
    hide AtSelect, AtStart, After, Possible;
    Unfold(s, its, n);
    var w := AtStart(s, its, n);
    IterationDrops(s, w, its[n]);
    BeforeSelectTakes(s, w, its[n]);
  }

  /** A frame that parses in iteration n of any run is lost, neither held nor offered, exactly when it has a
      delay and rxCap of the earlier delayed frames are still held. */
  lemma FrameIsLostIff(s: Setup, its: seq<Iteration>, n: nat, a: Arrival)
    requires n < |its| && Possible(s, its, n + 1) && ArrivalsOf(its[n]) == [a]
    ensures var v, r := AtSelect(s, its, n), After(s, its, n + 1);
      var held := |Select(s, true, Arrivals(its, n))| - |v.ledger.offeredLate| - |v.ledger.droppedRx|;
      var lost := r.rx == v.rx && r.ledger.offeredNow == v.ledger.offeredNow;
      && (lost <==> DelayOf(s, a).Some? && held == s.rxCap)
      && r.ledger.droppedRx == v.ledger.droppedRx + (if lost then [a] else [])
  {
    hide Core, Inv, Requests, Arrivals, Select, ArrivalsOf, DelayOf, HandleEvent;
    hide AtSelect, AtStart, After, Possible;
    Unfold(s, its, n);
    var w := AtStart(s, its, n);
    EventPossible(s, w, its[n]);
    IterationDrops(s, w, its[n]);
    BeforeSelectTakes(s, w, its[n]);
    var v := AtSelect(s, its, n);
    Fillings(s, v);
    EventLosesIff(s, v, its[n], a);
  }

  lemma EventLosesIff(s: Setup, v: World, it: Iteration, a: Arrival)
    requires Core(s, v) && EventOk(v, it.event) && ArrivalsOf(it) == [a]
    ensures var r := HandleEvent(s, v, it.event);
      var lost := r.rx == v.rx && r.ledger.offeredNow == v.ledger.offeredNow;
      && (lost <==> DelayOf(s, a).Some? && |v.rx| == s.rxCap)
      && r.ledger.droppedRx == v.ledger.droppedRx + (if lost then [a] else [])
  {
    hide Parse, DelayOf, NextWake;
  }

  /** What a loss presupposes: as many others as the queue holds. */
  ghost predicate Explained(s: Setup, l: Ledger) {
    && (l.droppedTx != [] ==> |l.taken| - |l.droppedTx| >= s.txCap)
    && (l.droppedRx != [] ==> |Select(s, true, l.heard)| - |l.droppedRx| >= s.rxCap)
  }

  lemma SelectEvent(s: Setup, heard: seq<Arrival>, it: Iteration)
    ensures |Select(s, true, heard + ArrivalsOf(it))| == |Select(s, true, heard)| + |Select(s, true, ArrivalsOf(it))|
  {
    hide Parse, DelayOf;
    if ArrivalsOf(it) == [] {
      assert heard + [] == heard;
    } else {
      var a := ArrivalsOf(it)[0];
      SelectAppend(s, true, heard, a);
      SelectAppend(s, true, [], a);
      assert [] + [a] == [a];
    }
  }

  lemma StepExplained(s: Setup, l: Ledger, m: Ledger, r: Ledger, it: Iteration)
    requires Explained(s, l) && 0 <= Unsent(l) <= s.txCap
    requires m.taken == l.taken + it.submissions
    requires m.droppedTx == l.droppedTx + From(it.submissions, s.txCap - Unsent(l))
    requires r.taken == l.taken + RequestsOf(it)
    requires r.droppedTx == m.droppedTx +
      (if it.event.Request? && Unsent(m) == s.txCap then [it.event.submission] else [])
    requires m.heard == l.heard && r.heard == l.heard + ArrivalsOf(it) && m.droppedRx == l.droppedRx
    requires r.droppedRx == m.droppedRx + (if Waiting(s, m) == s.rxCap then Select(s, true, ArrivalsOf(it)) else [])
    ensures Explained(s, r)
  {
    hide ArrivalsOf, Select;
    SelectEvent(s, l.heard, it);
  }

  lemma IterationExplained(s: Setup, w: World, it: Iteration)
    requires Inv(s, w) && Core(s, w) && IterationOk(s, w, it) && Explained(s, w.ledger)
    ensures Explained(s, Iterate(s, w, it).ledger)
  {
    hide Inv, Core, BeforeSelect, Iterate, EventOk, Explained, RequestsOf, ArrivalsOf, Select, From, Unsent, Waiting;
    IterationDrops(s, w, it);
    BeforeSelectTakes(s, w, it);
    IterationTakes(s, w, it);
    Fillings(s, w);
    StepExplained(s, w.ledger, BeforeSelect(s, w, it).ledger, Iterate(s, w, it).ledger, it);
  }

  lemma {:induction false} RunExplained(s: Setup, its: seq<Iteration>, n: nat)
    requires Possible(s, its, n)
    ensures Explained(s, After(s, its, n).ledger)
    decreases n
  {
    hide Core, Inv, IterationOk, Iterate, BeforeSelect, Requests, Arrivals;
    if n > 0 {
      Unfold(s, its, n - 1);
      RunExplained(s, its, n - 1);
      IterationExplained(s, AtStart(s, its, n - 1), its[n - 1]);
    }
  }

  /** Over every run a request is lost only if, besides the lost ones, txCap others were supplied, and a
      delayed frame only if, besides the lost ones, rxCap others were heard; so as long as no more than that
      were supplied or heard in all, nothing is lost. */
  lemma NothingIsLostWhileFew(s: Setup, its: seq<Iteration>, n: nat)
    requires Possible(s, its, n)
    ensures var l := After(s, its, n).ledger;
      && (l.droppedTx != [] ==> |Requests(its, n)| - |l.droppedTx| >= s.txCap)
      && (l.droppedRx != [] ==> |Select(s, true, Arrivals(its, n))| - |l.droppedRx| >= s.rxCap)
      && (|Requests(its, n)| <= s.txCap ==> l.droppedTx == [])
      && (|Select(s, true, Arrivals(its, n))| <= s.rxCap ==> l.droppedRx == [])
  {
    hide Core, Inv, IterationOk, Iterate, Requests, Arrivals, Select;
    LedgerOfRun(s, its, n);
    RunExplained(s, its, n);
  }

  // --- A run that loses a frame ---

  /** One place for delayed frames; 200 ms for every packet. */
  const ONE_PLACE := Starvation.TIGHT.(rxCap := 1)

  /** A flood packet without path and payload, received at 0 dB at time zero. */
  const HEAR := Iteration([], 0, Turn(0, 0, Scheduling.QUIET, 0, 0, true), Radio(Some(Frame([1, 0], 0.0, 0.0)), 0))

  const WEAK := Arrival(RxPacket(EMPTY.(header := 1), 0.0, 0.0), 2, 0)

  lemma WeakParses()
    ensures ArrivalsOf(HEAR) == [WEAK]
  {
    hide Parse;
    ParseWeak();
  }

  lemma ParseWeak()
    ensures Parse([1, 0]) == Some(EMPTY.(header := 1))
  {
    hide Read, Serialize, WellFormed;
    var p := EMPTY.(header := 1);
    SerializeBare(p);
    ReadRestores(EMPTY, p);
  }

  lemma SerializeBare(p: Packet)
    requires !HasTransportCodes(p.header) && p.pathLen == 0 && p.code0 == 0 && p.code1 == 0
    requires p.path == [] && p.payload == []
    ensures WellFormed(p) && Serialize(p) == [p.header, 0]
  {
    assert PathByteLen(0) == 0;
  }

  lemma WeakIsDelayed()
    ensures DelayOf(ONE_PLACE, WEAK).Some? && DueEntry(ONE_PLACE)(WEAK).deliverAt > 0
  {
    hide Pow10.Taylor;
    var t := 0.85 * Pow10.LN10;
    Pow10.TaylorMonotone(0.0, t - 1.0, 12);
    assert t.Floor == 1 && Pow10.IntPow(Pow10.E, 1) == Pow10.E;
    Pow10.ApproxAt(Pow10.E, t);
    assert Pow10.Approx(Pow10.E, 0.85) >= Pow10.E * 1.0;
    assert RawDelay(0.0, 200) >= 200.0;
  }

  lemma NoneDueAtZero(rx: seq<RxEntry>)
    requires forall e | e in rx :: 0 < e.deliverAt
    ensures RxDrain(rx, 0) == ([], rx)
  {}

  lemma HearTurn()
    ensures TurnOk(ONE_PLACE, 0, HEAR.turn)
  {
    Starvation.QuietWait(ONE_PLACE.config, HEAR.turn);
  }

  /** Nothing is due and nothing queued: the iteration only files what it hears. */
  lemma HearStep(w: World)
    requires Core(ONE_PLACE, w) && w.tx == [] && w.clock == 0 && forall e | e in w.rx :: 0 < e.deliverAt
    ensures IterationOk(ONE_PLACE, w, HEAR)
    ensures var r := Iterate(ONE_PLACE, w, HEAR);
      && r.tx == [] && r.clock == 0
      && r.ledger.offeredNow == w.ledger.offeredNow && r.ledger.offeredLate == w.ledger.offeredLate
      && r.rx == (if w.rx == [] then [DueEntry(ONE_PLACE)(WEAK)] else w.rx)
      && r.ledger.droppedRx == w.ledger.droppedRx + (if w.rx == [] then [] else [WEAK])
  {
    hide RxDrain, DelayOf, Parse, TurnOk;
    NoneDueAtZero(w.rx);
    HearTurn();
    WeakParses();
    WeakIsDelayed();
  }

  /** Two weak frames are heard at once: the second is dropped, not offered at once. */
  lemma SecondFrameIsLost() returns (r: World)
    ensures Sound(ONE_PLACE) && Starvation.RunsTo(ONE_PLACE, Init(ONE_PLACE), [HEAR, HEAR], 2, r)
    ensures ArrivalsOf(HEAR) == [WEAK] && r.ledger.droppedRx == [WEAK]
    ensures r.ledger.offeredNow == [] && r.ledger.offeredLate == [] && r.rx == [DueEntry(ONE_PLACE)(WEAK)]
  {
    hide Starvation.RunsTo, IterationOk, Iterate, DueEntry;
    var w := Init(ONE_PLACE);
    WeakParses();
    WeakIsDelayed();
    Starvation.RunsNowhere(ONE_PLACE, w, [HEAR, HEAR]);
    HearStep(w);
    Starvation.RunsOneMore(ONE_PLACE, w, [HEAR, HEAR], 0, w);
    var w1 := Iterate(ONE_PLACE, w, HEAR);
    HearStep(w1);
    Starvation.RunsOneMore(ONE_PLACE, w, [HEAR, HEAR], 1, w1);
    r := Iterate(ONE_PLACE, w1, HEAR);
  }
}
