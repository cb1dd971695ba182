/** The dispatcher's event loop as functions on its state. Everything the loop does not control (the
    clock, the radio, the requests submitted to it, which future is ready first) comes from a script
    with one record per iteration, so that a statement about every script is one about every run. */
module DispatcherSpec {
  import opened Machine
  import opened Packet
  import opened Types
  import opened ScanQueue
  import opened TxQueue
  import opened RxDelay
  import opened DutyCycle
  import opened ListenBeforeTalk

  /** Configuration, capacities and the radio's airtime estimate. */
  datatype Setup = Setup(config: Config, txCap: nat, rxCap: nat, estimate: nat -> u32)

  // --- What the ledger records ---

  datatype Submission = Submission(request: TxRequest, at: nat)

  datatype Transmission = Transmission(entry: TxEntry, gate: nat, start: nat, end: nat, bytes: seq<u8>)

  datatype Arrival = Arrival(rx: RxPacket, len: nat, at: nat)

  datatype LateOffer = LateOffer(entry: RxEntry, at: nat)

  /** Everything that happened since the start, in order. */
  datatype Ledger = Ledger(
    taken: seq<Submission>,
    droppedTx: seq<Submission>,
    sent: seq<Transmission>,
    failed: seq<Transmission>,
    heard: seq<Arrival>,
    offeredNow: seq<Arrival>,
    offeredLate: seq<LateOffer>,
    droppedRx: seq<Arrival>)

  /** The dispatcher's fields, the last clock reading and the ledger. */
  datatype World = World(
    tx: seq<TxEntry>,
    rx: seq<RxEntry>,
    bucket: Bucket,
    stats: Stats,
    clock: nat,
    ledger: Ledger)

  // --- The script ---

  datatype Frame = Frame(bytes: seq<u8>, rssi: real, snr: real)

  /** The future that wins the select; a radio event without a frame is a receive error. */
  datatype Event =
    | Radio(frame: Option<Frame>, at: nat)
    | Request(submission: Submission)
    | Timer(at: nat)

  /** The clock readings and radio answers of one transmission attempt. */
  datatype Turn = Turn(now: nat, cadStart: nat, channel: Channel, start: nat, end: nat, ok: bool)

  datatype Iteration = Iteration(submissions: seq<Submission>, now: nat, turn: Turn, event: Event)

  /** Instants beyond this one could overflow when a 32-bit delay is added. */
  const CLOCK_END: nat := INSTANT_MAX - 0x1_0000_0000

  ghost predicate Sound(s: Setup) {
    s.config.airtimeBudgetFactor >= 0.0
  }

  /** What every step keeps and the next one relies on. */
  ghost predicate Core(s: Setup, w: World) {
    && Sound(s)
    && |w.tx| <= s.txCap
    && |w.rx| <= s.rxCap
    && (forall e | e in w.tx :: Writable(e.packet))
    && (forall e | e in w.rx :: e.deliverAt < INSTANT_MAX)
    && Ok(w.bucket)
    && w.bucket.lastRefill <= w.clock
  }

  function Init(s: Setup): (w: World)
    requires Sound(s)
    ensures Core(s, w)
  {
    World([], [], New(s.config), Stats(0, 0, 0, 0, 0, 0), 0, Ledger([], [], [], [], [], [], [], []))
  }

  // --- Submissions ---

  ghost predicate SubmissionOk(clock: nat, sub: Submission) {
    clock <= sub.at < CLOCK_END && Writable(sub.request.packet)
  }

  /** A request moves from the channel into the queue, or is dropped when the queue is full. */
  function Submit(s: Setup, w: World, sub: Submission): (r: World)
    requires Core(s, w) && SubmissionOk(w.clock, sub)
    ensures Core(s, r)
  {
    var l := w.ledger.(taken := w.ledger.taken + [sub]);
    if |w.tx| == s.txCap
    then w.(clock := sub.at, ledger := l.(droppedTx := l.droppedTx + [sub]))
    else w.(clock := sub.at, ledger := l, tx := w.tx + [EntryOf(sub.request, sub.at)])
  }

  ghost predicate SubmissionsOk(clock: nat, subs: seq<Submission>) {
    && (forall i | 0 <= i < |subs| :: SubmissionOk(clock, subs[i]))
    && (forall i, j | 0 <= i < j < |subs| :: subs[i].at <= subs[j].at)
  }

  function SubmitAll(s: Setup, w: World, subs: seq<Submission>): (r: World)
    requires Core(s, w) && SubmissionsOk(w.clock, subs)
    ensures Core(s, r)
    ensures r.clock == if subs == [] then w.clock else subs[|subs| - 1].at
  {
    if subs == [] then w
    else Submit(s, SubmitAll(s, w, subs[..|subs| - 1]), subs[|subs| - 1])
  }

  // --- Delayed deliveries ---

  function Offers(due: seq<RxEntry>, now: nat): seq<LateOffer> {
    seq(|due|, i requires 0 <= i < |due| => LateOffer(due[i], now))
  }

  function DeliverDue(s: Setup, w: World, now: nat): (r: World)
    requires Core(s, w) && w.clock <= now
    ensures Core(s, r) && r.clock == now
  {
    var (due, rest) := RxDrain(w.rx, now);
    DrainShrinks(w.rx, now);
    w.(rx := rest, clock := now,
       ledger := w.ledger.(offeredLate := w.ledger.offeredLate + Offers(due, now)))
  }

  lemma DrainShrinks(rx: seq<RxEntry>, now: nat)
    requires forall e | e in rx :: e.deliverAt < INSTANT_MAX
    ensures var rest := RxDrain(rx, now).1;
      |rest| <= |rx| && forall e | e in rest :: e in rx
  {
    RxDrainSorts(rx, now);
    var (due, rest) := RxDrain(rx, now);
    assert |multiset(due)| + |multiset(rest)| == |multiset(rx)|;
    forall e | e in rest ensures e in rx {
      assert e in multiset(rest) && e in multiset(rx);
    }
  }

  // --- Transmission ---

  /** The clock is read in order, and the wait for a clear channel ends before the send starts. */
  ghost predicate TurnOk(s: Setup, clock: nat, turn: Turn) {
    && clock <= turn.now <= turn.cadStart
    && (exists stop :: WaitOver(s.config, turn, stop))
    && turn.start <= turn.end
  }

  ghost predicate WaitOver(config: Config, turn: Turn, stop: nat) {
    && FirstStop(config, turn.channel, turn.cadStart, stop)
    && ProbeTime(config, turn.channel, turn.cadStart, stop) <= turn.start
  }

  function SendTime(t: Transmission): int {
    t.end - t.start
  }

  /** The gate refused: the popped entry goes back; if there were no room it would be lost. */
  function PutBack(s: Setup, w: World, e: TxEntry): (r: World)
    requires Core(s, w) && Writable(e.packet)
    ensures Core(s, r)
  {
    if |w.tx| < s.txCap then w.(tx := w.tx + [e]) else w
  }

  function RecordOf(e: TxEntry, turn: Turn): Transmission
    requires Writable(e.packet)
  {
    Transmission(e, turn.now, turn.start, turn.end, Serialize(e.packet))
  }

  /** The counters after a successful send. */
  function CountSent(stats: Stats, flood: bool, airtimeMs: u32): Stats {
    var stats := stats.(totalAirTimeMs := Wrap32(stats.totalAirTimeMs + airtimeMs));
    if flood then stats.(sentFlood := Wrap32(stats.sentFlood + 1))
    else stats.(sentDirect := Wrap32(stats.sentDirect + 1))
  }

  /** A successful send is paid for and counted; a failed one loses the packet. */
  function Transmit(s: Setup, w: World, e: TxEntry, turn: Turn): (r: World)
    requires Core(s, w) && Writable(e.packet) && w.clock <= turn.start <= turn.end
    ensures Core(s, r)
  {
    var w := w.(clock := turn.end);
    if !turn.ok
    then w.(ledger := w.ledger.(failed := w.ledger.failed + [RecordOf(e, turn)]))
    else
      var actualAirtime := Wrap32(turn.end - turn.start);
      w.(bucket := AfterDeduct(w.bucket, actualAirtime),
         stats := CountSent(w.stats, IsFlood(e.packet.header), actualAirtime),
         ledger := w.ledger.(sent := w.ledger.sent + [RecordOf(e, turn)]))
  }

  function Refilled(s: Setup, w: World, now: nat): (r: World)
    requires Core(s, w) && w.clock <= now
    ensures Core(s, r)
  {
    RefillEarns(w.bucket, now);
    w.(bucket := AfterRefill(w.bucket, now), clock := now)
  }

  /** The state without the popped entry. */
  function Without(s: Setup, w: World, now: nat): (r: World)
    requires Core(s, w)
    ensures Core(s, r)
    ensures var e := TxPop(w.tx, now).0; e.Some? ==> Writable(e.value.packet)
  {
    TxPopBest(w.tx, now);
    var (e, rest) := TxPop(w.tx, now);
    if e.None? then w else
    RestFromQueue(w.tx, rest, e.value);
    w.(tx := rest)
  }

  lemma RestFromQueue(tx: seq<TxEntry>, rest: seq<TxEntry>, e: TxEntry)
    requires multiset(rest) + multiset{e} == multiset(tx)
    ensures forall x | x in rest :: x in tx
  {
    forall x | x in rest ensures x in tx {
      assert x in multiset(rest) && x in multiset(tx);
    }
  }

  lemma WaitTakesTime(s: Setup, clock: nat, turn: Turn)
    requires TurnOk(s, clock, turn)
    ensures turn.now <= turn.cadStart <= turn.start
  {
    hide ProbeTime, FirstStop;
    var stop :| WaitOver(s.config, turn, stop);
    NeverBeforeStart(s.config, turn.channel, turn.cadStart, stop);
  }

  function MaybeTransmit(s: Setup, w: World, turn: Turn): (r: World)
    requires Core(s, w) && TurnOk(s, w.clock, turn)
    ensures Core(s, r)
  {
    var w := Refilled(s, w, turn.now);
    var rest := Without(s, w, turn.now);
    match TxPop(w.tx, turn.now).0
    case None => w
    case Some(e) =>
      if !Allows(w.bucket, s.estimate(WireLen(e.packet))) then PutBack(s, rest, e)
      else
        WaitTakesTime(s, turn.now, turn);
        Transmit(s, rest, e, turn)
  }

  // --- Waiting ---

  /** The timer of the select: none for two empty queues, else the earliest due time of both. */
  function NextWake(tx: seq<TxEntry>, rx: seq<RxEntry>): (r: Option<nat>)
    ensures r.None? <==> tx == [] && rx == []
    ensures r.Some? ==> (exists e | e in tx :: e.sendAfter == r.value) || (exists e | e in rx :: e.deliverAt == r.value)
    ensures r.Some? ==> forall e | e in tx :: r.value <= e.sendAfter
    ensures r.Some? ==> forall e | e in rx :: r.value <= e.deliverAt
  {
    match (Earliest(SendAfter, tx), Earliest(DeliverAt, rx))
    case (Some(a), Some(b)) => Some(if a < b then a else b)
    case (Some(a), None) => Some(a)
    case (None, Some(b)) => Some(b)
    case (None, None) => None
  }

  // --- Events ---

  /** The delay of an arrival; only flood packets have one. */
  function DelayOf(s: Setup, a: Arrival): Option<u32> {
    if IsFlood(a.rx.packet.header) then DelayFor(a.rx.snr, s.estimate(a.len), s.config) else None
  }

  /** Files a parsed arrival: held back, dropped on a full delay queue, or offered at once. */
  function File(s: Setup, w: World, a: Arrival): World {
    match DelayOf(s, a)
    case None => w.(ledger := w.ledger.(offeredNow := w.ledger.offeredNow + [a]))
    case Some(delayMs) =>
      if |w.rx| < s.rxCap then w.(rx := w.rx + [RxEntry(a.rx, a.at + delayMs)])
      else w.(ledger := w.ledger.(droppedRx := w.ledger.droppedRx + [a]))
  }

  function CountReceived(stats: Stats, flood: bool): Stats {
    if flood then stats.(recvFlood := Wrap32(stats.recvFlood + 1))
    else stats.(recvDirect := Wrap32(stats.recvDirect + 1))
  }

  function CountArrival(w: World, a: Arrival): World {
    w.(stats := CountReceived(w.stats, IsFlood(a.rx.packet.header)),
       ledger := w.ledger.(heard := w.ledger.heard + [a]))
  }

  lemma DelayBounded(s: Setup, a: Arrival)
    ensures DelayOf(s, a).Some? ==> DelayOf(s, a).value <= s.config.maxRxDelayMs
  {}

  function HandleRx(s: Setup, w: World, frame: Option<Frame>, at: nat): (r: World)
    requires Core(s, w) && w.clock <= at < CLOCK_END
    ensures Core(s, r) && r.clock == at
  {
    var w := w.(clock := at);
    if frame.None? then w else
    match Parse(frame.value.bytes)
    case None => w
    case Some(p) =>
      var a := Arrival(RxPacket(p, frame.value.rssi, frame.value.snr), |frame.value.bytes|, at);
      DelayBounded(s, a);
      File(s, CountArrival(w, a), a)
  }

  ghost predicate EventOk(w: World, event: Event) {
    match event
    case Radio(frame, at) => w.clock <= at < CLOCK_END && (frame.Some? ==> |frame.value.bytes| <= MAX_TRANS_UNIT)
    case Request(sub) => SubmissionOk(w.clock, sub)
    case Timer(at) => w.clock <= at && var wake := NextWake(w.tx, w.rx); wake.Some? && wake.value <= at
  }

  function HandleEvent(s: Setup, w: World, event: Event): (r: World)
    requires Core(s, w) && EventOk(w, event)
    ensures Core(s, r)
  {
    match event
    case Radio(frame, at) => HandleRx(s, w, frame, at)
    case Request(sub) => Submit(s, w, sub)
    case Timer(at) => w.(clock := at)
  }

  // --- Runs ---

  /** The state right before the select of an iteration. */
  function BeforeSelect(s: Setup, w: World, it: Iteration): (r: World)
    requires Core(s, w) && SubmissionsOk(w.clock, it.submissions)
    requires SubmitAll(s, w, it.submissions).clock <= it.now && TurnOk(s, it.now, it.turn)
    ensures Core(s, r)
  {
    MaybeTransmit(s, DeliverDue(s, SubmitAll(s, w, it.submissions), it.now), it.turn)
  }

  /** The clock does not run backwards, frames fit the buffer, and the timer does not fire early. */
  ghost predicate IterationOk(s: Setup, w: World, it: Iteration)
    requires Core(s, w)
  {
    && SubmissionsOk(w.clock, it.submissions)
    && SubmitAll(s, w, it.submissions).clock <= it.now
    && TurnOk(s, it.now, it.turn)
    && EventOk(BeforeSelect(s, w, it), it.event)
  }

  ghost function Iterate(s: Setup, w: World, it: Iteration): (r: World)
    requires Core(s, w) && IterationOk(s, w, it)
    ensures Core(s, r)
  {
    HandleEvent(s, BeforeSelect(s, w, it), it.event)
  }

  /** The first `n` iterations are possible, starting in `w`. */
  ghost predicate RunOk(s: Setup, w: World, its: seq<Iteration>, n: nat)
    requires Core(s, w) && n <= |its|
    decreases n, 0
  {
    n == 0 || (RunOk(s, w, its, n - 1) && IterationOk(s, Run(s, w, its, n - 1), its[n - 1]))
  }

  /** The state after the first `n` iterations. */
  ghost function Run(s: Setup, w: World, its: seq<Iteration>, n: nat): (r: World)
    requires Core(s, w) && n <= |its| && RunOk(s, w, its, n)
    ensures Core(s, r)
    decreases n, 1
  {
    if n == 0 then w else Iterate(s, Run(s, w, its, n - 1), its[n - 1])
  }

  lemma {:induction false} RunPrefix(s: Setup, w: World, its: seq<Iteration>, n: nat, i: nat)
    requires Core(s, w) && i <= n <= |its| && RunOk(s, w, its, n)
    ensures RunOk(s, w, its, i)
    decreases n
  {
    hide IterationOk, Iterate;
    if i < n {
      RunPrefix(s, w, its, n - 1, i);
    }
  }
}
