/** The priority transmission queue. */
module TxQueue {
  import opened Machine
  import opened Packet
  import opened Types
  import opened ScanQueue

  datatype TxEntry = TxEntry(packet: Packet, priority: u8, sendAfter: nat)

  function EntryOf(request: TxRequest, now: nat): TxEntry {
    TxEntry(request.packet, request.priority, now + request.delayMs)
  }

  /** The lexicographic order on (priority, send_after). */
  predicate TxBefore(a: TxEntry, b: TxEntry) {
    a.priority < b.priority || (a.priority == b.priority && a.sendAfter < b.sendAfter)
  }

  function TxReady(now: nat): TxEntry -> bool {
    (e: TxEntry) => e.sendAfter <= now
  }

  lemma TxOrder()
    ensures WeakOrder(TxBefore)
  {}

  function TxPop(s: seq<TxEntry>, now: nat): (Option<TxEntry>, seq<TxEntry>) {
    TxOrder();
    Pop(s, TxReady(now), TxBefore)
  }

  function TxDrain(s: seq<TxEntry>, now: nat): (seq<TxEntry>, seq<TxEntry>) {
    TxOrder();
    Drain(s, TxReady(now), TxBefore)
  }

  function SendAfter(e: TxEntry): nat {
    e.sendAfter
  }

  /** No selection while a strictly better eligible entry is queued; and nothing is invented or lost. */
  lemma TxPopBest(s: seq<TxEntry>, now: nat)
    ensures var (e, rest) := TxPop(s, now);
      && (e.None? <==> forall x | x in s :: now < x.sendAfter)
      && (e.None? ==> rest == s)
      && (e.Some? ==>
        && multiset(rest) + multiset{e.value} == multiset(s)
        && |rest| + 1 == |s|
        && e.value in s && e.value.sendAfter <= now
        && forall x | x in s && x.sendAfter <= now :: !TxBefore(x, e.value))
  {
    TxOrder();
    PopConserves(s, TxReady(now), TxBefore);
    var (e, rest) := TxPop(s, now);
    if e.None? {
      forall x | x in s ensures now < x.sendAfter {
        assert !TxReady(now)(x);
      }
    } else {
      assert |multiset(rest)| + 1 == |multiset(s)|;
      forall x | x in s && x.sendAfter <= now ensures !TxBefore(x, e.value) {
        assert TxReady(now)(x);
      }
    }
  }

  /** Repeated popping yields the eligible entries in (priority, send_after) order and leaves the rest. */
  lemma TxDrainSorts(s: seq<TxEntry>, now: nat)
    ensures var (taken, left) := TxDrain(s, now);
      && multiset(taken) + multiset(left) == multiset(s)
      && (forall x | x in taken :: x.sendAfter <= now)
      && (forall x | x in left :: now < x.sendAfter)
      && forall i, j | 0 <= i < j < |taken| ::
           taken[i].priority < taken[j].priority
           || (taken[i].priority == taken[j].priority && taken[i].sendAfter <= taken[j].sendAfter)
  {
    TxOrder();
    DrainSorts(s, TxReady(now), TxBefore);
    var (taken, left) := TxDrain(s, now);
    forall x | x in taken ensures x.sendAfter <= now {
      assert TxReady(now)(x);
    }
    forall x | x in left ensures now < x.sendAfter {
      assert !TxReady(now)(x);
    }
    forall i, j | 0 <= i < j < |taken| ensures !TxBefore(taken[j], taken[i]) {}
  }

  // --- Ties ---

  predicate SameKey(a: TxEntry, b: TxEntry) {
    a.priority == b.priority && a.sendAfter == b.sendAfter
  }

  ghost predicate Distinct(s: seq<TxEntry>) {
    forall i, j | 0 <= i < j < |s| :: s[i] != s[j]
  }

  /** Entries of `s` with the same key stand in the same order in `r`, as far as they are still there. */
  ghost predicate KeepsTies(s: seq<TxEntry>, r: seq<TxEntry>) {
    forall i, j, k, l | 0 <= i < j < |s| && 0 <= k < |r| && 0 <= l < |r| ::
      SameKey(s[i], s[j]) && r[k] == s[i] && r[l] == s[j] ==> k < l
  }

  /** The last entry, which a removal at `i` moves to `i`, overtakes none with its key. */
  ghost predicate OvertakesNoTie(s: seq<TxEntry>, i: nat) {
    forall j | i < j < |s| - 1 :: !SameKey(s[j], s[|s| - 1])
  }

  /** No entry behind `i` has its key. */
  ghost predicate LastOfItsKey(s: seq<TxEntry>, i: nat)
    requires i < |s|
  {
    forall j | i < j < |s| :: !SameKey(s[i], s[j])
  }

  /** A removal by swapping keeps the order of all ties exactly when the last entry overtakes none. */
  lemma RemovalKeepsTiesIff(s: seq<TxEntry>, i: nat)
    requires Distinct(s) && i < |s|
    ensures KeepsTies(s, SwapRemove(s, i)) <==> OvertakesNoTie(s, i)
  {
    var n, r := |s| - 1, SwapRemove(s, i);
    if OvertakesNoTie(s, i) {
      forall a, b, k, l | 0 <= a < b < |s| && 0 <= k < |r| && 0 <= l < |r| &&
                          SameKey(s[a], s[b]) && r[k] == s[a] && r[l] == s[b] ensures k < l {
        assert k == a && (l == b || (l == i && b == n));
      }
    } else {
      var j :| i < j < n && SameKey(s[j], s[n]);
      assert r[j] == s[j] && r[i] == s[n];
    }
  }

  /** A removal followed by putting the entry back keeps it exactly when, besides, no entry behind the
      removed one has its key. */
  lemma PutBackKeepsTiesIff(s: seq<TxEntry>, i: nat)
    requires Distinct(s) && i < |s|
    ensures KeepsTies(s, SwapRemove(s, i) + [s[i]]) <==> OvertakesNoTie(s, i) && LastOfItsKey(s, i)
  {
    var n, r := |s| - 1, SwapRemove(s, i) + [s[i]];
    if OvertakesNoTie(s, i) && LastOfItsKey(s, i) {
      forall a, b, k, l | 0 <= a < b < |s| && 0 <= k < |r| && 0 <= l < |r| &&
                          SameKey(s[a], s[b]) && r[k] == s[a] && r[l] == s[b] ensures k < l {
        assert a != i && k == a && (l == b || (l == i && b == n) || (l == n && b == i));
      }
    } else if j :| i < j < n && SameKey(s[j], s[n]) {
      assert r[j] == s[j] && r[i] == s[n];
    } else {
      var j :| i < j < |s| && SameKey(s[i], s[j]);
      assert r[n] == s[i] && r[if j == n then i else j] == s[j];
    }
  }

  /** The position `pop_ready` takes from. */
  function BestAt(s: seq<TxEntry>, now: nat): (r: Option<nat>)
    ensures r.None? <==> forall e | e in s :: now < e.sendAfter
    ensures r.Some? ==> IsFirstBest(s, TxReady(now), TxBefore, r.value)
  {
    TxOrder();
    var r := Best(s, TxReady(now), TxBefore);
    assert r.None? ==> forall j | 0 <= j < |s| :: !TxReady(now)(s[j]);
    assert r.Some? ==> TxReady(now)(s[r.value]) && s[r.value] in s;
    r
  }

  /** A pop takes the first of its ties, and keeps the others in order exactly when the last entry of the
      vector overtakes none. */
  lemma PopKeepsTiesIff(s: seq<TxEntry>, now: nat)
    requires Distinct(s) && BestAt(s, now).Some?
    ensures var i := BestAt(s, now).value;
      && TxPop(s, now) == (Some(s[i]), SwapRemove(s, i))
      && (forall j | 0 <= j < i :: !SameKey(s[j], s[i]))
      && (KeepsTies(s, TxPop(s, now).1) <==> OvertakesNoTie(s, i))
  {
    var i := BestAt(s, now).value;
    RemovalKeepsTiesIff(s, i);
    forall j | 0 <= j < i ensures !SameKey(s[j], s[i]) {
      assert TxReady(now)(s[i]);
      assert TxReady(now)(s[j]) ==> TxBefore(s[i], s[j]);
    }
  }

  /** No pop of the whole drain lets the last entry overtake a tie. */
  ghost predicate EveryPopKeeps(s: seq<TxEntry>, now: nat)
    decreases |s|
  {
    var i := BestAt(s, now);
    i.None? || (OvertakesNoTie(s, i.value) && EveryPopKeeps(SwapRemove(s, i.value), now))
  }

  lemma TxDrainStep(s: seq<TxEntry>, now: nat)
    ensures var i := BestAt(s, now);
      TxDrain(s, now).0 == if i.None? then [] else [s[i.value]] + TxDrain(SwapRemove(s, i.value), now).0
  {}

  /** Then all ties leave in the order in which they stood. */
  lemma {:induction false} DrainKeepsTies(s: seq<TxEntry>, now: nat)
    requires Distinct(s) && EveryPopKeeps(s, now)
    ensures KeepsTies(s, TxDrain(s, now).0)
    decreases |s|
  {
    hide TxDrain, BestAt, OvertakesNoTie;
    TxDrainStep(s, now);
    if BestAt(s, now).Some? {
      var i := BestAt(s, now).value;
      var rest := SwapRemove(s, i);
      PopKeepsTiesIff(s, now);
      RestIsDistinct(s, i);
      DrainKeepsTies(rest, now);
      TxDrainSorts(rest, now);
      var (more, left) := TxDrain(rest, now);
      RestFrom(more, left, rest);
      PrependFirstTie(s, i, rest, more);
    }
  }

  lemma RestFrom(more: seq<TxEntry>, left: seq<TxEntry>, rest: seq<TxEntry>)
    requires multiset(more) + multiset(left) == multiset(rest)
    ensures forall e | e in more :: e in rest
  {
    forall e | e in more ensures e in rest {
      assert e in multiset(more) && e in multiset(rest);
    }
  }

  lemma RestIsDistinct(s: seq<TxEntry>, i: nat)
    requires Distinct(s) && i < |s|
    ensures Distinct(SwapRemove(s, i)) && s[i] !in SwapRemove(s, i)
  {}

  /** Two ties that stand in order in `s` come out of the rest in that order. */
  lemma TiesStayInOrder(s: seq<TxEntry>, rest: seq<TxEntry>, more: seq<TxEntry>, a: nat, b: nat, k: nat, l: nat)
    requires KeepsTies(s, rest) && KeepsTies(rest, more) && a < b < |s| && k < |more| && l < |more|
    requires SameKey(s[a], s[b]) && more[k] == s[a] && more[l] == s[b] && s[a] in rest && s[b] in rest
    ensures k < l
  {
    hide SameKey;
    var a' :| 0 <= a' < |rest| && rest[a'] == s[a];
    var b' :| 0 <= b' < |rest| && rest[b'] == s[b];
    assert a' < b';
  }

  /** Ties in order in the rest, behind the first of its ties, are in order. */
  lemma PrependFirstTie(s: seq<TxEntry>, i: nat, rest: seq<TxEntry>, more: seq<TxEntry>)
    requires Distinct(s) && i < |s| && KeepsTies(s, rest) && KeepsTies(rest, more)
    requires s[i] !in rest && forall e | e in more :: e in rest
    requires forall j | 0 <= j < i :: !SameKey(s[j], s[i])
    ensures KeepsTies(s, [s[i]] + more)
  {
    hide SameKey;
    var r := [s[i]] + more;
    forall a, b, k, l | 0 <= a < b < |s| && 0 <= k < |r| && 0 <= l < |r| &&
                        SameKey(s[a], s[b]) && r[k] == s[a] && r[l] == s[b] ensures k < l {
      assert b != i && l > 0;
      if k > 0 {
        TiesStayInOrder(s, rest, more, a, b, k - 1, l - 1);
      }
    }
  }

  lemma DrainFrom(s: seq<TxEntry>, now: nat, i: nat)
    requires IsFirstBest(s, TxReady(now), TxBefore, i)
    ensures TxDrain(s, now).0 == [s[i]] + TxDrain(SwapRemove(s, i), now).0
  {
    hide TxDrain;
    TxOrder();
    FirstBestIsUnique(s, TxReady(now), TxBefore, i);
    TxDrainStep(s, now);
  }

  lemma DrainNone(s: seq<TxEntry>, now: nat)
    requires forall e | e in s :: now < e.sendAfter
    ensures TxDrain(s, now).0 == []
  {
    hide TxDrain;
    TxDrainStep(s, now);
  }

  /** Two ties leave in reverse when a better entry stands before them. */
  lemma TwoTiesReversed(x: TxEntry, a: TxEntry, b: TxEntry, now: nat)
    requires TxBefore(x, a) && SameKey(a, b) && x.sendAfter <= now && a.sendAfter <= now
    ensures TxDrain([x, a, b], now).0 == [x, b, a]
  {
    hide TxDrain, SwapRemove;
    DrainFrom([x, a, b], now, 0);
    assert SwapRemove([x, a, b], 0) == [b, a] by { SwapFirst([x, a, b]); }
    DrainFrom([b, a], now, 0);
    assert SwapRemove([b, a], 0) == [a] by { SwapFirst([b, a]); }
    DrainFrom([a], now, 0);
    assert SwapRemove([a], 0) == [] by { SwapFirst([a]); }
    DrainNone([], now);
  }

  lemma SwapFirst<T>(s: seq<T>)
    requires s != []
    ensures SwapRemove(s, 0) == if |s| == 1 then [] else [s[|s| - 1]] + s[1..|s| - 1]
  {}

  lemma SwapSecond<T>(s: seq<T>)
    requires |s| >= 2
    ensures SwapRemove(s, 1) == if |s| == 2 then [s[0]] else [s[0], s[|s| - 1]] + s[2..|s| - 1]
  {}

  /** Three ties leave in order when an entry that is not eligible stands behind them. */
  lemma ThreeTiesInOrder(a: TxEntry, b: TxEntry, c: TxEntry, z: TxEntry, now: nat)
    requires SameKey(a, b) && SameKey(b, c) && a.sendAfter <= now < z.sendAfter
    ensures TxDrain([a, b, c, z], now).0 == [a, b, c]
  {
    hide TxDrain, SwapRemove;
    DrainFrom([a, b, c, z], now, 0);
    assert SwapRemove([a, b, c, z], 0) == [z, b, c] by { SwapFirst([a, b, c, z]); }
    DrainFrom([z, b, c], now, 1);
    assert SwapRemove([z, b, c], 1) == [z, c] by { SwapSecond([z, b, c]); }
    DrainFrom([z, c], now, 1);
    assert SwapRemove([z, c], 1) == [z] by { SwapSecond([z, c]); }
    DrainNone([z], now);
  }

  /** Over a whole drain two reversals can cancel, so that the condition on every pop is not necessary. */
  lemma ReversalsCancel(x: TxEntry, y: TxEntry, a: TxEntry, b: TxEntry, now: nat)
    requires TxBefore(y, x) && TxBefore(x, a) && SameKey(a, b)
    requires y.sendAfter <= now && x.sendAfter <= now && a.sendAfter <= now
    ensures TxDrain([x, y, a, b], now).0 == [y, x, a, b]
    ensures !EveryPopKeeps([x, y, a, b], now)
  {
    hide TxDrain, SwapRemove;
    var s := [x, y, a, b];
    TxOrder();
    FirstBestIsUnique(s, TxReady(now), TxBefore, 1);
    assert SameKey(s[2], s[3]) && !OvertakesNoTie(s, 1);
    DrainFrom(s, now, 1);
    assert SwapRemove(s, 1) == [x, b, a] by { SwapSecond(s); }
    DrainFrom([x, b, a], now, 0);
    assert SwapRemove([x, b, a], 0) == [a, b] by { SwapFirst([x, b, a]); }
    DrainFrom([a, b], now, 0);
    assert SwapRemove([a, b], 0) == [b] by { SwapFirst([a, b]); }
    DrainFrom([b], now, 0);
    assert SwapRemove([b], 0) == [] by { SwapFirst([b]); }
    DrainNone([], now);
  }

  // --- Queues that hold nothing but ties ---

  /** All entries are eligible and have the same key. */
  ghost predicate Tied(s: seq<TxEntry>, now: nat) {
    && (forall e | e in s :: e.sendAfter <= now)
    && (forall e, f | e in s && f in s :: SameKey(e, f))
  }

  function Reversed<T>(s: seq<T>): (r: seq<T>)
    ensures |r| == |s|
  {
    if s == [] then [] else [s[|s| - 1]] + Reversed(s[..|s| - 1])
  }

  lemma {:induction false} ReversedAt<T>(s: seq<T>, k: nat)
    requires k < |s|
    ensures Reversed(s)[k] == s[|s| - 1 - k]
  {
    if k > 0 {
      ReversedAt(s[..|s| - 1], k - 1);
    }
  }

  lemma TiedFirstBest(s: seq<TxEntry>, now: nat)
    requires Tied(s, now) && s != []
    ensures IsFirstBest(s, TxReady(now), TxBefore, 0)
  {
    assert s[0] in s && TxReady(now)(s[0]);
    forall j | 0 <= j < |s| ensures !TxBefore(s[j], s[0]) {
      assert s[j] in s;
    }
  }

  /** They leave in this order: the first, then all others from the last to the second, since each
      swapping removal brings the last one to the front. */
  lemma {:induction false} TiedDrain(s: seq<TxEntry>, now: nat)
    requires Tied(s, now) && s != []
    ensures TxDrain(s, now).0 == [s[0]] + Reversed(s[1..])
    decreases |s|
  {
    hide TxDrain, SwapRemove;
    TiedFirstBest(s, now);
    DrainFrom(s, now, 0);
    SwapFirst(s);
    var n := |s| - 1;
    if n == 0 {
      DrainNone([], now);
    } else {
      TiedDrain([s[n]] + s[1..n], now);
      TailAfterSwap(s);
    }
  }

  lemma TailAfterSwap<T>(s: seq<T>)
    requires |s| >= 2
    ensures var n := |s| - 1;
      ([s[n]] + s[1..n])[1..] == s[1..n] == s[1..][..n - 1] && s[1..][n - 1] == s[n]
  {}

  /** In arrival order exactly when the entries behind the first read the same backwards. */
  lemma TiesAreFifoIff(s: seq<TxEntry>, now: nat)
    requires Tied(s, now) && s != []
    ensures TxDrain(s, now).0 == s <==> s[1..] == Reversed(s[1..])
  {
    hide TxDrain;
    TiedDrain(s, now);
    assert s == [s[0]] + s[1..];
    assert ([s[0]] + Reversed(s[1..]))[1..] == Reversed(s[1..]);
  }

  /** For distinct entries: exactly when there are at most two of them. */
  lemma DistinctTiesAreFifoIff(s: seq<TxEntry>, now: nat)
    requires Tied(s, now) && s != [] && Distinct(s)
    ensures TxDrain(s, now).0 == s <==> |s| <= 2
  {
    hide TxDrain;
    TiesAreFifoIff(s, now);
    var t := s[1..];
    if |t| >= 2 {
      ReversedAt(t, 0);
      assert t[0] == s[1] && t[|t| - 1] == s[|s| - 1];
    }
  }

  class Queue {
    const capacity: nat
    var entries: seq<TxEntry>

    ghost predicate Valid()
      reads this
    {
      |entries| <= capacity
    }

    constructor (capacity: nat)
      ensures Valid() && entries == [] && this.capacity == capacity
    {
      this.capacity := capacity;
      entries := [];
    }

    predicate IsFull()
      reads this
    {
      |entries| == capacity
    }

    /** `now` is the clock reading `push` takes when the queue has room. */
    method Push(request: TxRequest, now: nat) returns (ok: bool)
      requires Valid()
      modifies this
      ensures Valid() && ok == (|old(entries)| < capacity)
      ensures entries == if ok then old(entries) + [TxEntry(request.packet, request.priority, now + request.delayMs)]
                         else old(entries)
    {
      if IsFull() {
        return false;
      }
      entries := entries + [TxEntry(request.packet, request.priority, now + request.delayMs)];
      return true;
    }

    method PushEntry(entry: TxEntry) returns (ok: bool)
      requires Valid()
      modifies this
      ensures Valid() && ok == (|old(entries)| < capacity)
      ensures entries == if ok then old(entries) + [entry] else old(entries)
    {
      ok := |entries| < capacity;
      if ok {
        entries := entries + [entry];
      }
    }

    method PopReady(now: nat) returns (r: Option<TxEntry>)
      requires Valid()
      modifies this
      ensures Valid() && (r, entries) == TxPop(old(entries), now)
    {
      TxOrder();
      var bestIdx: Option<nat> := None;
      for i := 0 to |entries|
        invariant bestIdx == Best(entries[..i], TxReady(now), TxBefore)
      {
        assert entries[..i + 1][..i] == entries[..i];
        var entry := entries[i];
        if entry.sendAfter <= now {
          if bestIdx.None? {
            bestIdx := Some(i);
          } else {
            var best := entries[bestIdx.value];
            if entry.priority < best.priority
               || (entry.priority == best.priority && entry.sendAfter < best.sendAfter) {
              bestIdx := Some(i);
            }
          }
        }
      }
      assert entries[..|entries|] == entries;
      if bestIdx.None? {
        return None;
      }
      r := Some(entries[bestIdx.value]);
      entries := SwapRemove(entries, bestIdx.value);
    }

    method NextReadyTime() returns (r: Option<nat>)
      ensures r == Earliest(SendAfter, entries)
    {
      r := None;
      for i := 0 to |entries|
        invariant r == Earliest(SendAfter, entries[..i])
      {
        assert entries[..i + 1][..i] == entries[..i];
        if r.None? || entries[i].sendAfter < r.value {
          r := Some(entries[i].sendAfter);
        }
      }
      assert entries[..|entries|] == entries;
    }
  }
}
