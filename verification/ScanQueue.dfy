/** What the two scheduling queues share: an unordered vector, a scan for the first best ready
    entry, and removal by swapping the last entry into the hole. */
module ScanQueue {
  import opened Machine

  /** `Vec::swap_remove` */
  function SwapRemove<T>(s: seq<T>, i: nat): seq<T>
    requires i < |s|
  {
    s[i := s[|s| - 1]][..|s| - 1]
  }

  /** Entry `i` is ready, no ready entry beats it, and it beats every ready one to its left. */
  ghost predicate IsFirstBest<T>(s: seq<T>, ready: T -> bool, before: (T, T) -> bool, i: nat) {
    && i < |s| && ready(s[i])
    && (forall j | 0 <= j < |s| :: ready(s[j]) ==> !before(s[j], s[i]))
    && (forall j | 0 <= j < i :: ready(s[j]) ==> before(s[i], s[j]))
  }

  ghost predicate NoneReady<T>(s: seq<T>, ready: T -> bool) {
    forall j | 0 <= j < |s| :: !ready(s[j])
  }

  ghost predicate WeakOrder<T(!new)>(before: (T, T) -> bool) {
    && (forall a :: !before(a, a))
    && (forall a, b, c :: before(a, b) && before(b, c) ==> before(a, c))
    && (forall a, b, c :: before(a, c) ==> before(a, b) || before(b, c))
  }

  /** The index the scan ends with, by recursion over the scanned prefix. */
  function Best<T(!new)>(s: seq<T>, ready: T -> bool, before: (T, T) -> bool): (r: Option<nat>)
    requires WeakOrder(before)
    ensures r.None? ==> NoneReady(s, ready)
    ensures r.Some? ==> IsFirstBest(s, ready, before, r.value)
  {
    if s == [] then None else
    var i := |s| - 1;
    var r := Best(s[..i], ready, before);
    if ready(s[i]) && (r.None? || before(s[i], s[r.value])) then Some(i) else r
  }

  /** There is one first best entry at most. */
  lemma FirstBestIsUnique<T(!new)>(s: seq<T>, ready: T -> bool, before: (T, T) -> bool, i: nat)
    requires WeakOrder(before) && IsFirstBest(s, ready, before, i)
    ensures Best(s, ready, before) == Some(i)
  {
    var r := Best(s, ready, before);
    assert r.Some?;
    var k := r.value;
    assert ready(s[i]) && ready(s[k]);
  }

  function Pop<T(!new)>(s: seq<T>, ready: T -> bool, before: (T, T) -> bool): (Option<T>, seq<T>)
    requires WeakOrder(before)
  {
    match Best(s, ready, before)
    case None => (None, s)
    case Some(i) => (Some(s[i]), SwapRemove(s, i))
  }

  /** Popping until nothing is ready: the entries in the order they come out, and the rest. */
  function Drain<T(!new)>(s: seq<T>, ready: T -> bool, before: (T, T) -> bool): (seq<T>, seq<T>)
    requires WeakOrder(before)
    decreases |s|
  {
    var (e, rest) := Pop(s, ready, before);
    if e.None? then ([], rest) else
    var (more, left) := Drain(rest, ready, before);
    ([e.value] + more, left)
  }

  /** The earliest due time; `None` for an empty queue. */
  function Earliest<T>(due: T -> nat, s: seq<T>): (r: Option<nat>)
    ensures r.None? <==> s == []
    ensures r.Some? ==> exists e | e in s :: due(e) == r.value
    ensures r.Some? ==> forall e | e in s :: r.value <= due(e)
  {
    if s == [] then None else
    var i := |s| - 1;
    var r := Earliest(due, s[..i]);
    assert s == s[..i] + [s[i]];
    if r.Some? && r.value <= due(s[i]) then r else
    assert s[i] in s;
    Some(due(s[i]))
  }

  /** A swapping removal loses exactly the removed entry. */
  lemma SwapRemoveMultiset<T>(s: seq<T>, i: nat)
    requires i < |s|
    ensures multiset(SwapRemove(s, i)) + multiset{s[i]} == multiset(s)
  {
    var last := |s| - 1;
    assert s == s[..last] + [s[last]];
    if i < last {
      assert SwapRemove(s, i) == s[..last][i := s[last]];
    } else {
      assert SwapRemove(s, i) == s[..last];
    }
  }

  /** Popping conserves the entries, and takes one exactly when one is ready. */
  lemma PopConserves<T(!new)>(s: seq<T>, ready: T -> bool, before: (T, T) -> bool)
    requires WeakOrder(before)
    ensures var (e, rest) := Pop(s, ready, before);
      && (e.None? <==> NoneReady(s, ready))
      && (e.None? ==> rest == s)
      && (e.Some? ==>
        && multiset(rest) + multiset{e.value} == multiset(s)
        && e.value in s && ready(e.value)
        && forall x | x in s && ready(x) :: !before(x, e.value))
  {
    var r := Best(s, ready, before);
    if r.Some? {
      SwapRemoveMultiset(s, r.value);
    }
  }

  ghost predicate InOrder<T>(s: seq<T>, before: (T, T) -> bool) {
    forall i, j | 0 <= i < j < |s| :: !before(s[j], s[i])
  }

  lemma PrependBest<T>(e: T, more: seq<T>, before: (T, T) -> bool)
    requires !before(e, e)
    requires InOrder(more, before)
    requires forall x | x in more :: !before(x, e)
    ensures InOrder([e] + more, before)
    ensures multiset([e] + more) == multiset{e} + multiset(more)
  {}

  /** Draining is sorting: exactly the ready entries come out, best first, and the others stay. */
  lemma {:induction false} DrainSorts<T(!new)>(s: seq<T>, ready: T -> bool, before: (T, T) -> bool)
    requires WeakOrder(before)
    ensures multiset(Drain(s, ready, before).0) + multiset(Drain(s, ready, before).1) == multiset(s)
    ensures forall x | x in Drain(s, ready, before).0 :: ready(x)
    ensures NoneReady(Drain(s, ready, before).1, ready)
    ensures InOrder(Drain(s, ready, before).0, before)
    decreases |s|
  {
    var (e, rest) := Pop(s, ready, before);
    PopConserves(s, ready, before);
    if e.Some? {
      DrainSorts(rest, ready, before);
      var (more, left) := Drain(rest, ready, before);
      forall x | x in more ensures x in s && !before(x, e.value) {
        assert x in multiset(more) && x in multiset(rest) && x in multiset(s);
      }
      PrependBest(e.value, more, before);
    }
  }
}
