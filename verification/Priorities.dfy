/** The order of transmission over whole runs, in terms of the requests supplied. */
module Priorities {
  import opened Machine
  import opened Packet
  import opened Types
  import opened Bags
  import opened TxQueue
  import opened RxDelay
  import opened DutyCycle
  import opened DispatcherSpec
  import opened Conservation
  import opened ScriptLedger
  import opened Scheduling
  import opened AirtimeBound

  /** What was asked for and neither transmitted nor dropped, by the ledger alone. */
  ghost function Outstanding(l: Ledger): multiset<TxEntry> {
    Bag(SubmittedEntry, l.taken) - Bag(SentEntry, l.sent) - Bag(SentEntry, l.failed)
      - Bag(SubmittedEntry, l.droppedTx)
  }

  lemma OutstandingIsQueued(s: Setup, w: World)
    requires Inv(s, w)
    ensures Outstanding(w.ledger) == multiset(w.tx)
  {
    hide Bag, RxConserved, Counted, Core;
  }

  /** A state records one more attempt than another: `t`, successful or not. */
  ghost predicate Attempts(l: Ledger, m: Ledger, t: Transmission) {
    || (m.sent == l.sent + [t] && m.failed == l.failed)
    || (m.failed == l.failed + [t] && m.sent == l.sent)
  }

  lemma LastOfBoth<T>(a: seq<T>, t: T, u: T)
    requires a + [t] == a + [u]
    ensures t == u
  {
    assert (a + [t])[|a|] == (a + [u])[|a|];
  }

  /** The attempt of a turn is best among the eligible packets that stay behind. */
  lemma TurnPrefersBest(s: Setup, w: World, turn: Turn, t: Transmission, e: TxEntry)
    requires Core(s, w) && TurnOk(s, w.clock, turn)
    requires Attempts(w.ledger, MaybeTransmit(s, w, turn).ledger, t)
    requires e in MaybeTransmit(s, w, turn).tx && e.sendAfter <= turn.now
    ensures t.entry.priority < e.priority || (t.entry.priority == e.priority && t.entry.sendAfter <= e.sendAfter)
  {
    hide Core, WaitOver, MaybeTransmit, TxPop, Serialize, AfterRefill, Allows;
    TurnOutcome(s, w, turn);
    BestIsAttempted(s, w, turn);
    var r, best := MaybeTransmit(s, w, turn), Chosen(s, w, turn.now).value;
    var record := Transmission(best, turn.now, turn.start, turn.end, Serialize(best.packet));
    if turn.ok {
      LastOfBoth(w.ledger.sent, t, record);
    } else {
      LastOfBoth(w.ledger.failed, t, record);
    }
    assert e in multiset(r.tx) && e in multiset(w.tx);
  }

  /** The steps before a turn attempt nothing, and the turn attempts what the iteration does. */
  lemma AttemptOfIteration(s: Setup, w: World, it: Iteration, t: Transmission, e: TxEntry)
    requires Core(s, w) && IterationOk(s, w, it)
    requires Attempts(w.ledger, BeforeSelect(s, w, it).ledger, t)
    requires e in BeforeSelect(s, w, it).tx && e.sendAfter <= it.turn.now
    ensures t.entry.priority < e.priority || (t.entry.priority == e.priority && t.entry.sendAfter <= e.sendAfter)
  {
    hide Core, SubmitAll, MaybeTransmit, RxDrain, EventOk, TurnOk;
    SubmissionsAreQuiet(s, w, it.submissions);
    TurnPrefersBest(s, DeliverDue(s, SubmitAll(s, w, it.submissions), it.now), it.turn, t, e);
  }

  /** In every run: when iteration n attempts a transmission, it is of a supplied request, and no request that is
      due and stays unsent has a smaller priority, or the same and an earlier due time. */
  lemma NoBetterRequestWaits(s: Setup, its: seq<Iteration>, n: nat, t: Transmission, other: Submission)
    returns (sub: Submission)
    requires n < |its| && Possible(s, its, n + 1)
    requires Attempts(AtStart(s, its, n).ledger, AtSelect(s, its, n).ledger, t)
    requires SubmittedEntry(other) in Outstanding(AtSelect(s, its, n).ledger)
    requires other.at + other.request.delayMs <= its[n].turn.now
    ensures sub in Requests(its, n) + its[n].submissions && Fulfils(t, sub)
    ensures sub.request.priority <= other.request.priority
    ensures sub.request.priority == other.request.priority ==>
      sub.at + sub.request.delayMs <= other.at + other.request.delayMs
  {
    hide Core, Inv, IterationOk, BeforeSelect, Iterate, Requests, Arrivals, Outstanding;
    hide AtSelect, AtStart, After, Possible;
    Unfold(s, its, n);
    var w, it := AtStart(s, its, n), its[n];
    BeforeSelectKeeps(s, w, it);
    BeforeSelectTakes(s, w, it);
    var v := AtSelect(s, its, n);
    OutstandingIsQueued(s, v);
    assert SubmittedEntry(other) in multiset(v.tx);
    AttemptOfIteration(s, w, it, t, SubmittedEntry(other));
    assert t in v.ledger.sent || t in v.ledger.failed by { AttemptIsRecorded(w.ledger, v.ledger, t); }
    SentEntryOrigin(s, v, t);
    sub :| sub in v.ledger.taken && Fulfils(t, sub);
  }

  lemma AttemptIsRecorded(l: Ledger, m: Ledger, t: Transmission)
    requires Attempts(l, m, t)
    ensures t in m.sent || t in m.failed
  {}
}
