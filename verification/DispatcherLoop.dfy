/** The dispatcher object: the event loop over its queues, bucket, counters and shared buffer,
    each method proved against its function on states. */
module DispatcherLoop {
  import opened Machine
  import opened Packet
  import opened Types
  import opened DispatcherSpec
  import Tx = TxQueue
  import Rx = RxDelay
  import DutyCycle
  import ListenBeforeTalk

  /** What a drain still returns once `next` has been popped. */
  ghost function Pending(next: Option<Rx.RxEntry>, rest: seq<Rx.RxEntry>, now: nat)
    : (seq<Rx.RxEntry>, seq<Rx.RxEntry>)
  {
    if next.None? then ([], rest)
    else ([next.value] + Rx.RxDrain(rest, now).0, Rx.RxDrain(rest, now).1)
  }

  class Dispatcher {
    const setup: Setup
    const txQueue: Tx.Queue
    const rxDelayQueue: Rx.Queue
    const dutyCycle: DutyCycle.Tracker
    var stats: Stats

    ghost var clock: nat
    ghost var ledger: Ledger

    ghost function State(): World
      reads this, txQueue, rxDelayQueue, dutyCycle
    {
      World(txQueue.entries, rxDelayQueue.entries, dutyCycle.Value(), stats, clock, ledger)
    }

    ghost predicate Valid()
      reads this, txQueue, rxDelayQueue, dutyCycle
    {
      && txQueue.capacity == setup.txCap
      && rxDelayQueue.capacity == setup.rxCap
      && Core(setup, State())
    }

    constructor (setup: Setup)
      requires Sound(setup)
      ensures Valid() && State() == Init(setup) && this.setup == setup
      ensures fresh(txQueue) && fresh(rxDelayQueue) && fresh(dutyCycle)
    {
      this.setup := setup;
      txQueue := new Tx.Queue(setup.txCap);
      rxDelayQueue := new Rx.Queue(setup.rxCap);
      dutyCycle := new DutyCycle.Tracker(setup.config);
      stats := Stats(0, 0, 0, 0, 0, 0);
      clock := 0;
      ledger := Ledger([], [], [], [], [], [], [], []);
    }

    /** `tx_queue.push(req)`, whose failure the loop ignores. */
    method Submit(sub: Submission)
      requires Valid() && SubmissionOk(clock, sub)
      modifies this, txQueue
      ensures Valid() && State() == DispatcherSpec.Submit(setup, old(State()), sub)
    {
      var ok := txQueue.Push(sub.request, sub.at);
      clock := sub.at;
      ledger := ledger.(taken := ledger.taken + [sub]);
      if !ok {
        ledger := ledger.(droppedTx := ledger.droppedTx + [sub]);
      }
    }

    /** Step 1 of the loop: whatever the submission channel holds. */
    method SubmitAll(subs: seq<Submission>)
      requires Valid() && SubmissionsOk(clock, subs)
      modifies this, txQueue
      ensures Valid() && State() == DispatcherSpec.SubmitAll(setup, old(State()), subs)
    {
      ghost var w := State();
      assert subs[..0] == [];
      for i := 0 to |subs|
        invariant Valid() && SubmissionsOk(w.clock, subs[..i])
        invariant State() == DispatcherSpec.SubmitAll(setup, w, subs[..i])
      {
        assert subs[..i + 1][..i] == subs[..i];
        Submit(subs[i]);
      }
      assert subs[..|subs|] == subs;
    }

    /** Step 2: offer every delayed packet that is due, all judged by one clock reading. */
    method DeliverDue(now: nat)
      requires Valid() && clock <= now
      modifies this, rxDelayQueue
      ensures Valid() && State() == DispatcherSpec.DeliverDue(setup, old(State()), now)
    {
      DrainShrinks(rxDelayQueue.entries, now);
      OfferLate(now);
      clock := now;
    }

    method OfferLate(now: nat)
      requires rxDelayQueue.Valid()
      modifies this`ledger, rxDelayQueue
      ensures rxDelayQueue.Valid()
      ensures rxDelayQueue.entries == Rx.RxDrain(old(rxDelayQueue.entries), now).1
      ensures ledger == old(ledger).(
        offeredLate := old(ledger).offeredLate + Offers(Rx.RxDrain(old(rxDelayQueue.entries), now).0, now))
    {
      hide Rx.RxDrain;
      ghost var all := Rx.RxDrain(rxDelayQueue.entries, now);
      ghost var popped := [];
      Rx.RxDrainStep(rxDelayQueue.entries, now);
      var next := rxDelayQueue.PopReady(now);
      while next.Some?
        invariant rxDelayQueue.Valid()
        invariant ledger == old(ledger).(offeredLate := old(ledger).offeredLate + Offers(popped, now))
        invariant all.0 == popped + Pending(next, rxDelayQueue.entries, now).0
        invariant all.1 == Pending(next, rxDelayQueue.entries, now).1
        decreases |rxDelayQueue.entries|, next.Some?
      {
        Rx.RxDrainStep(rxDelayQueue.entries, now);
        ghost var after := Rx.RxDrain(rxDelayQueue.entries, now).0;
        assert popped + ([next.value] + after) == popped + [next.value] + after;
        assert Offers(popped + [next.value], now) == Offers(popped, now) + [LateOffer(next.value, now)];
        popped := popped + [next.value];
        ledger := ledger.(offeredLate := ledger.offeredLate + [LateOffer(next.value, now)]);
        next := rxDelayQueue.PopReady(now);
      }
    }

    /** Step 3: at most one gated transmission; `scratch` is the loop's shared buffer. */
    method MaybeTransmit(scratch: array<u8>, turn: Turn)
      requires Valid() && TurnOk(setup, clock, turn) && scratch.Length == MAX_TRANS_UNIT
      modifies this, txQueue, dutyCycle, scratch
      ensures Valid() && State() == DispatcherSpec.MaybeTransmit(setup, old(State()), turn)
    {
      ghost var w := Refilled(setup, State(), turn.now);
      ghost var rest := Without(setup, w, turn.now);
      dutyCycle.Refill(turn.now);
      clock := turn.now;
      var ready := txQueue.PopReady(turn.now);
      if ready.None? {
        Tx.TxPopBest(w.tx, turn.now);
        return;
      }
      var entry := ready.value;
      assert State() == rest;
      WireLenIsLength(entry.packet);
      var estAirtime := setup.estimate(WireLen(entry.packet));
      var allowed := dutyCycle.CanTransmit(estAirtime);
      if !allowed {
        var _ := txQueue.PushEntry(entry);
        return;
      }
      WaitTakesTime(setup, turn.now, turn);
      ghost var stop :| WaitOver(setup.config, turn, stop);
      var clear, _ := ListenBeforeTalk.WaitForClearChannel(setup.config, turn.channel, turn.cadStart, stop);
      if !clear {
        // Timed out: transmit anyway.
      }
      Send(scratch, entry, turn);
    }

    /** Serialise, send and account for the result. */
    method Send(scratch: array<u8>, entry: Tx.TxEntry, turn: Turn)
      requires Valid() && Writable(entry.packet) && clock <= turn.start <= turn.end
      requires scratch.Length == MAX_TRANS_UNIT
      modifies this, dutyCycle, scratch
      ensures Valid() && State() == Transmit(setup, old(State()), entry, turn)
    {
      hide Serialize, PathByteLen, Wrap32;
      var packet := new PacketCell.Of(entry.packet);
      WireLenIsLength(entry.packet);
      var len := packet.WriteTo(scratch);
      ghost var record := Transmission(entry, turn.now, turn.start, turn.end, scratch[..len]);
      var actualAirtime := Wrap32(turn.end - turn.start);
      clock := turn.end;
      if turn.ok {
        dutyCycle.Deduct(actualAirtime);
        stats := stats.(totalAirTimeMs := Wrap32(stats.totalAirTimeMs + actualAirtime));
        if IsFlood(entry.packet.header) {
          stats := stats.(sentFlood := Wrap32(stats.sentFlood + 1));
        } else {
          stats := stats.(sentDirect := Wrap32(stats.sentDirect + 1));
        }
        ledger := ledger.(sent := ledger.sent + [record]);
      } else {
        ledger := ledger.(failed := ledger.failed + [record]);
      }
    }

    method NextWakeTime() returns (r: Option<nat>)
      ensures r == NextWake(txQueue.entries, rxDelayQueue.entries)
    {
      var txTime := txQueue.NextReadyTime();
      var rxTime := rxDelayQueue.NextReadyTime();
      match (txTime, rxTime) {
        case (Some(a), Some(b)) => r := Some(if a < b then a else b);
        case (Some(a), None) => r := Some(a);
        case (None, Some(b)) => r := Some(b);
        case (None, None) => r := None;
      }
    }

    /** The radio has written `frame` to the front of the shared buffer, or reported an error. */
    method HandleRx(frame: Option<Frame>, rxBuf: array<u8>, at: nat)
      requires Valid() && clock <= at < CLOCK_END
      requires frame.Some? ==> |frame.value.bytes| <= rxBuf.Length && rxBuf[..|frame.value.bytes|] == frame.value.bytes
      modifies this, rxDelayQueue
      ensures Valid() && State() == DispatcherSpec.HandleRx(setup, old(State()), frame, at)
    {
      clock := at;
      if frame.None? {
        return;
      }
      var len := |frame.value.bytes|;
      var cell := new PacketCell();
      var ok := cell.ReadFrom(rxBuf[..len]);
      if !ok {
        return;
      }
      var packet := cell.Get();
      var arrival := Arrival(RxPacket(packet, frame.value.rssi, frame.value.snr), len, at);
      Accept(arrival);
    }

    /** Count a parsed arrival and file it. */
    method Accept(arrival: Arrival)
      requires Valid() && clock == arrival.at < CLOCK_END
      modifies this, rxDelayQueue
      ensures Valid() && State() == File(setup, CountArrival(old(State()), arrival), arrival)
    {
      var isFlood := IsFlood(arrival.rx.packet.header);
      if isFlood {
        stats := stats.(recvFlood := Wrap32(stats.recvFlood + 1));
      } else {
        stats := stats.(recvDirect := Wrap32(stats.recvDirect + 1));
      }
      ledger := ledger.(heard := ledger.heard + [arrival]);
      if isFlood {
        var airtime := setup.estimate(arrival.len);
        Rx.DelayCapped(arrival.rx.snr, airtime, setup.config);
        var delay := Rx.CalcRxDelay(arrival.rx.snr, airtime, setup.config);
        if delay.Some? {
          var pushed := rxDelayQueue.Push(arrival.rx, arrival.at + delay.value);
          if !pushed {
            ledger := ledger.(droppedRx := ledger.droppedRx + [arrival]);
          }
          return;
        }
      }
      ledger := ledger.(offeredNow := ledger.offeredNow + [arrival]);
    }

    /** One turn of the loop. */
    method Iterate(buf: array<u8>, it: Iteration)
      requires Valid() && IterationOk(setup, State(), it) && buf.Length == MAX_TRANS_UNIT
      modifies this, txQueue, rxDelayQueue, dutyCycle, buf
      ensures Valid() && State() == DispatcherSpec.Iterate(setup, old(State()), it)
    {
      hide Core, DispatcherSpec.SubmitAll, DispatcherSpec.DeliverDue, DispatcherSpec.MaybeTransmit,
           DispatcherSpec.HandleRx, DispatcherSpec.Submit, NextWake;
      SubmitAll(it.submissions);
      DeliverDue(it.now);
      MaybeTransmit(buf, it.turn);
      var nextWake := NextWakeTime();
      match it.event {
        case Radio(frame, at) =>
          if frame.Some? {
            CopyFromSlice(buf, 0, frame.value.bytes);
            assert buf[..|frame.value.bytes|] == frame.value.bytes;
          }
          HandleRx(frame, buf, at);
        case Request(sub) =>
          Submit(sub);
        case Timer(at) =>
          assert nextWake.Some?;
          ghost var w := State();
          clock := at;
          assert State() == HandleEvent(setup, w, it.event);
      }
    }

    /** Any finite prefix of the endless loop. */
    method Run(its: seq<Iteration>)
      requires Valid() && RunOk(setup, State(), its, |its|)
      modifies this, txQueue, rxDelayQueue, dutyCycle
      ensures Valid() && State() == DispatcherSpec.Run(setup, old(State()), its, |its|)
    {
      hide IterationOk, DispatcherSpec.Iterate, Core;
      ghost var w := State();
      var buf := new u8[MAX_TRANS_UNIT](_ => 0);
      for i := 0 to |its|
        invariant Valid() && RunOk(setup, w, its, i)
        invariant State() == DispatcherSpec.Run(setup, w, its, i)
      {
        RunPrefix(setup, w, its, |its|, i + 1);
        Iterate(buf, its[i]);
      }
    }
  }
}
