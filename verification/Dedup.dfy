/** Packet deduplication: a ring of truncated hashes that behaves as a bounded FIFO set. */
module Dedup {
  import opened Machine
  import opened Packet
  import Crypto

  const HASH_SIZE: nat := 8
  const TRACE: u8 := 0x09

  type Hash = h: seq<u8> | |h| == HASH_SIZE witness [0, 0, 0, 0, 0, 0, 0, 0]
  const ZERO: Hash := [0, 0, 0, 0, 0, 0, 0, 0]

  type Sha = seq<u8> -> Crypto.Digest

  /** The bytes that identify a packet. */
  function Preimage(p: Packet): seq<u8> {
    var t := PayloadTypeBits(p.header);
    [t] + (if t == TRACE then [p.pathLen] else []) + p.payload
  }

  /** The preimage byte by byte: the payload type, for type 9 the path_len byte, and the payload. */
  lemma PreimageLayout(sha: Sha, p: Packet)
    ensures var s, n := Preimage(p), if p.header / 4 % 16 == 9 then 2 else 1;
      && |s| == n + |p.payload| && s[0] == p.header / 4 % 16 && s[n..] == p.payload
      && (n == 2 ==> s[1] == p.pathLen)
    ensures |PacketHash(sha, p)| == 8 && PacketHash(sha, p) == sha(Preimage(p))[..8]
  {}

  /** Two packets have the same preimage exactly when they agree in type, payload and, for TRACE, path_len. */
  lemma PreimageIff(p: Packet, q: Packet)
    ensures Preimage(p) == Preimage(q) <==>
      && PayloadTypeBits(p.header) == PayloadTypeBits(q.header)
      && p.payload == q.payload
      && (PayloadTypeBits(p.header) == 9 ==> p.pathLen == q.pathLen)
  {
    var n := if PayloadTypeBits(p.header) == TRACE then 2 else 1;
    if Preimage(p) == Preimage(q) {
      assert PayloadTypeBits(p.header) == Preimage(p)[0] == Preimage(q)[0] == PayloadTypeBits(q.header);
      assert p.payload == Preimage(p)[n..] == Preimage(q)[n..] == q.payload;
      if n == 2 {
        assert p.pathLen == Preimage(p)[1] == Preimage(q)[1] == q.pathLen;
      }
    }
  }

  function PacketHash(sha: Sha, p: Packet): Hash {
    sha(Preimage(p))[..HASH_SIZE]
  }

  // --- The window: the ring read from the oldest slot to the newest ---

  /** Nothing remembered yet. */
  function EmptyWindow(n: nat): seq<Hash> {
    seq(n, _ => ZERO)
  }

  function Insert<T>(w: seq<T>, h: T): seq<T>
    requires w != []
  {
    w[1..] + [h]
  }

  function Forget(w: seq<Hash>, h: Hash): seq<Hash> {
    seq(|w|, i requires 0 <= i < |w| => if w[i] == h then ZERO else w[i])
  }

  /** No non-zero hash is stored twice. */
  ghost predicate Distinct(s: seq<Hash>) {
    forall i, j | 0 <= i < j < |s| :: s[i] == s[j] ==> s[i] == ZERO
  }

  lemma DistinctKept(w: seq<Hash>, h: Hash)
    requires w != [] && Distinct(w)
    ensures h !in w ==> Distinct(Insert(w, h))
    ensures Distinct(Forget(w, h))
  {}

  /** With no duplicates, blanking the first match blanks them all. */
  lemma FirstMatchIsEnough(s: seq<Hash>, h: Hash, i: nat)
    requires Distinct(s) && i < |s| && s[i] == h && h !in s[..i]
    ensures s[i := ZERO] == Forget(s, h)
  {}

  function Rotated<T>(s: seq<T>, k: nat): seq<T>
    requires k <= |s|
  {
    s[k..] + s[..k]
  }

  /** Overwriting the oldest slot and stepping past it drops the oldest entry and appends the new one. */
  lemma RingInsert<T>(s: seq<T>, k: nat, h: T)
    requires k < |s|
    ensures Rotated(s[k := h], (k + 1) % |s|) == Insert(Rotated(s, k), h)
  {
    StepRound(k, |s|);
    var s' := s[k := h];
    if k + 1 == |s| {
      assert s' == s[..k] + [h];
    } else {
      assert s'[k + 1..] == s[k..][1..];
      assert s'[..k + 1] == s[..k] + [h];
    }
  }

  lemma StepRound(k: nat, n: nat)
    requires k < n
    ensures (k + 1) % n == if k + 1 == n then 0 else k + 1
  {}

  lemma RingForget(s: seq<Hash>, k: nat, h: Hash)
    requires k <= |s|
    ensures Rotated(Forget(s, h), k) == Forget(Rotated(s, k), h)
  {}

  lemma RingMembers(s: seq<Hash>, k: nat, h: Hash)
    requires k <= |s|
    ensures h in Rotated(s, k) <==> h in s
  {}

  lemma DistinctUpdated(s: seq<Hash>, k: nat, h: Hash)
    requires k < |s| && Distinct(s) && h !in s
    ensures Distinct(s[k := h])
  {}

  // --- Whole histories ---

  datatype Op = Seen(hash: Hash) | Clear(hash: Hash)

  function Apply(w: seq<Hash>, op: Op): seq<Hash>
    requires w != []
  {
    match op
    case Seen(h) => if h in w then w else Insert(w, h)
    case Clear(h) => Forget(w, h)
  }

  /** The window after the first `t` operations on an empty table of `n` slots. */
  function After(n: nat, ops: seq<Op>, t: nat): (w: seq<Hash>)
    requires n > 0 && t <= |ops|
    ensures |w| == n
  {
    if t == 0 then EmptyWindow(n) else Apply(After(n, ops, t - 1), ops[t - 1])
  }

  /** Operation `i` is a `has_seen` that answered false and stored its hash. */
  predicate Inserts(n: nat, ops: seq<Op>, i: nat)
    requires n > 0 && i < |ops|
  {
    ops[i].Seen? && ops[i].hash !in After(n, ops, i)
  }

  /** How many of the operations from `i` up to `t` inserted something. */
  function Insertions(n: nat, ops: seq<Op>, i: nat, t: nat): nat
    requires n > 0 && i <= t <= |ops|
  {
    if i == t then 0
    else Insertions(n, ops, i, t - 1) + (if Inserts(n, ops, t - 1) then 1 else 0)
  }

  /** `h` was inserted at `i`, is among the last `n` insertions at `t`, and has not been cleared since. */
  ghost predicate StandsSince(n: nat, ops: seq<Op>, t: nat, h: Hash, i: nat)
    requires n > 0 && t <= |ops|
  {
    && i < t && Inserts(n, ops, i) && ops[i].hash == h
    && Insertions(n, ops, i + 1, t) < n
    && Clear(h) !in ops[i + 1..t]
  }

  ghost predicate Remembered(n: nat, ops: seq<Op>, t: nat, h: Hash)
    requires n > 0 && t <= |ops|
  {
    exists i :: StandsSince(n, ops, t, h, i)
  }

  lemma {:induction false} AfterIsDistinct(n: nat, ops: seq<Op>, t: nat)
    requires n > 0 && t <= |ops|
    ensures Distinct(After(n, ops, t))
  {
    if t > 0 {
      AfterIsDistinct(n, ops, t - 1);
      DistinctKept(After(n, ops, t - 1), ops[t - 1].hash);
    }
  }

  /** A standing insertion sits in the window, one step further from the end for each later one. */
  lemma {:induction false} StandingIsStored(n: nat, ops: seq<Op>, t: nat, h: Hash, i: nat)
    requires n > 0 && t <= |ops| && h != ZERO && StandsSince(n, ops, t, h, i)
    ensures After(n, ops, t)[n - 1 - Insertions(n, ops, i + 1, t)] == h
  {
    if t > i + 1 {
      assert ops[i + 1..t - 1] == ops[i + 1..t][..t - 1 - (i + 1)];
      StandingIsStored(n, ops, t - 1, h, i);
      assert ops[t - 1] == ops[i + 1..t][t - 1 - (i + 1)];
      assert ops[t - 1] != Clear(h);
    }
  }

  lemma StandsOn(n: nat, ops: seq<Op>, t: nat, h: Hash, i: nat)
    requires n > 0 && 0 < t <= |ops| && StandsSince(n, ops, t - 1, h, i)
    requires ops[t - 1] != Clear(h) && Insertions(n, ops, i + 1, t) < n
    ensures StandsSince(n, ops, t, h, i)
  {}

  /** Everything stored stems from a standing insertion. */
  lemma {:induction false} StoredIsStanding(n: nat, ops: seq<Op>, t: nat, k: nat) returns (i: nat)
    requires n > 0 && t <= |ops| && k < n && After(n, ops, t)[k] != ZERO
    ensures StandsSince(n, ops, t, After(n, ops, t)[k], i)
    ensures Insertions(n, ops, i + 1, t) == n - 1 - k
  {
    assert t > 0;
    var op, h := ops[t - 1], After(n, ops, t)[k];
    if Inserts(n, ops, t - 1) && k == n - 1 {
      i := t - 1;
    } else {
      i := StoredIsStanding(n, ops, t - 1, if Inserts(n, ops, t - 1) then k + 1 else k);
      assert op != Clear(h);
      StandsOn(n, ops, t, h, i);
    }
  }

  /** `has_seen` answers true exactly for the hashes among the last n insertions that have not been
      cleared since: the ring is a bounded FIFO set. */
  lemma SeenIffRemembered(n: nat, ops: seq<Op>, t: nat, h: Hash)
    requires n > 0 && t <= |ops| && h != ZERO
    ensures h in After(n, ops, t) <==> Remembered(n, ops, t, h)
  {
    var w := After(n, ops, t);
    if h in w {
      var k :| 0 <= k < |w| && w[k] == h;
      var i := StoredIsStanding(n, ops, t, k);
    }
    if i :| StandsSince(n, ops, t, h, i) {
      StandingIsStored(n, ops, t, h, i);
    }
  }

  lemma {:induction false} InsertionsGrow(n: nat, ops: seq<Op>, i: nat, t: nat, t': nat)
    requires n > 0 && i <= t <= t' <= |ops|
    ensures Insertions(n, ops, i, t) <= Insertions(n, ops, i, t')
  {
    if t < t' {
      InsertionsGrow(n, ops, i, t, t' - 1);
    }
  }

  /** What stands now stood at every moment since its insertion. */
  lemma StoodBefore(n: nat, ops: seq<Op>, t: nat, t': nat, h: Hash, i: nat)
    requires n > 0 && i < t <= t' <= |ops| && StandsSince(n, ops, t', h, i)
    ensures StandsSince(n, ops, t, h, i)
  {
    InsertionsGrow(n, ops, i + 1, t, t');
    assert ops[i + 1..t] == ops[i + 1..t'][..t - (i + 1)];
  }

  /** `h` was inserted at `i` and not again before `t`. */
  ghost predicate LastInserted(n: nat, ops: seq<Op>, i: nat, t: nat, h: Hash)
    requires n > 0 && t <= |ops|
  {
    && i < t && Inserts(n, ops, i) && ops[i].hash == h
    && forall j | i < j < t && ops[j].hash == h :: !Inserts(n, ops, j)
  }

  lemma OnlyTheLastStands(n: nat, ops: seq<Op>, i: nat, t: nat, h: Hash, i': nat)
    requires n > 0 && t <= |ops| && h != ZERO
    requires LastInserted(n, ops, i, t, h) && StandsSince(n, ops, t, h, i')
    ensures i' == i
  {
    hide After, Insertions;
    if i' < i {
      StoodBefore(n, ops, i, t, h, i');
      StandingIsStored(n, ops, i, h, i');
    }
  }

  /** Counted from its last insertion, a hash is seen exactly until n further insertions or a clear. */
  lemma SeenUntil(n: nat, ops: seq<Op>, i: nat, t: nat, h: Hash)
    requires n > 0 && t <= |ops| && h != ZERO && LastInserted(n, ops, i, t, h)
    ensures h in After(n, ops, t) <==> Insertions(n, ops, i + 1, t) < n && Clear(h) !in ops[i + 1..t]
  {
    hide After, Insertions, Inserts;
    SeenIffRemembered(n, ops, t, h);
    if i' :| StandsSince(n, ops, t, h, i') {
      OnlyTheLastStands(n, ops, i, t, h, i');
    }
    if Insertions(n, ops, i + 1, t) < n && Clear(h) !in ops[i + 1..t] {
      assert StandsSince(n, ops, t, h, i);
    }
  }

  /** The zero hash doubles as the empty marker: a table with a blank slot claims to have seen it. */
  lemma ZeroHashIsSeenAtOnce(n: nat)
    requires n > 0
    ensures ZERO in After(n, [], 0)
  {
    assert EmptyWindow(n)[0] == ZERO;
  }

  // --- Across the air ---

  /** What the hash depends on survives the wire. */
  lemma HashSurvivesWire(sha: Sha, p: Packet, q: Packet, target: Packet)
    requires WellFormed(q)
    requires PayloadTypeBits(p.header) == PayloadTypeBits(q.header) && p.payload == q.payload
    requires PayloadTypeBits(p.header) == TRACE ==> p.pathLen == q.pathLen
    ensures Read(target, Serialize(q)).1
    ensures PacketHash(sha, Read(target, Serialize(q)).0) == PacketHash(sha, p)
  {}

  /** What was registered at `r` has a last insertion before every later `t`: the registration itself if
      it answered false, an older or a newer one otherwise. */
  lemma {:induction false} RegistrationHasInsertion(n: nat, ops: seq<Op>, r: nat, t: nat, h: Hash) returns (i: nat)
    requires n > 0 && r < t <= |ops| && h != ZERO && ops[r] == Seen(h)
    ensures LastInserted(n, ops, i, t, h)
  {
    hide After, Insertions;
    if t == r + 1 && !Inserts(n, ops, r) {
      SeenIffRemembered(n, ops, r, h);
      var i0 :| StandsSince(n, ops, r, h, i0);
      i := LatestInsertion(n, ops, i0, t, h);
    } else {
      if t > r + 1 && !(Inserts(n, ops, t - 1) && ops[t - 1].hash == h) {
        i := RegistrationHasInsertion(n, ops, r, t - 1, h);
      } else {
        i := t - 1;
      }
    }
  }

  lemma LatestInsertion(n: nat, ops: seq<Op>, i0: nat, t: nat, h: Hash) returns (i: nat)
    requires n > 0 && i0 < t <= |ops| && Inserts(n, ops, i0) && ops[i0].hash == h
    ensures i0 <= i && LastInserted(n, ops, i, t, h)
  {
    hide After;
    i := t - 1;
    while !(Inserts(n, ops, i) && ops[i].hash == h)
      invariant i0 <= i < t
      invariant forall j | i < j < t && ops[j].hash == h :: !Inserts(n, ops, j)
      decreases i
    {
      i := i - 1;
    }
  }

  lemma {:induction false} InsertionsSplit(n: nat, ops: seq<Op>, i: nat, m: nat, t: nat)
    requires n > 0 && i <= m <= t <= |ops|
    ensures Insertions(n, ops, i, t) == Insertions(n, ops, i, m) + Insertions(n, ops, m, t)
  {
    if m < t {
      InsertionsSplit(n, ops, i, m, t - 1);
    }
  }

  /** A hash registered at `r` and last inserted at `i` is not cleared in between. */
  lemma NotClearedBetween(n: nat, ops: seq<Op>, i: nat, r: nat, h: Hash)
    requires n > 0 && i <= r < |ops| && h != ZERO && ops[r] == Seen(h) && LastInserted(n, ops, i, r + 1, h)
    ensures StandsSince(n, ops, r + 1, h, i)
  {
    hide Insertions, Inserts;
    assert h in After(n, ops, r + 1);
    SeenIffRemembered(n, ops, r + 1, h);
    var i' :| StandsSince(n, ops, r + 1, h, i');
    OnlyTheLastStands(n, ops, i, r + 1, h, i');
  }

  /** How long a registration at `r` lasts, for every answer it got: n further insertions, less those
      between the last insertion of its hash and `r`, or until a clear. */
  lemma RegistrationLasts(n: nat, ops: seq<Op>, i: nat, r: nat, t: nat, h: Hash)
    requires n > 0 && i <= r < t <= |ops| && h != ZERO
    requires ops[r] == Seen(h) && LastInserted(n, ops, i, t, h)
    ensures h in After(n, ops, t) <==>
      && Insertions(n, ops, r + 1, t) < n - Insertions(n, ops, i + 1, r + 1)
      && Clear(h) !in ops[r + 1..t]
  {
    hide After, Insertions, Inserts;
    SeenUntil(n, ops, i, t, h);
    InsertionsSplit(n, ops, i + 1, r + 1, t);
    NotClearedBetween(n, ops, i, r, h);
    assert ops[i + 1..t] == ops[i + 1..r + 1] + ops[r + 1..t];
  }

  /** A registration survives n - 1 further insertions exactly when none lies between the last insertion
      of its hash and the registration; in particular when it made that insertion itself. */
  lemma FullTermIff(n: nat, ops: seq<Op>, i: nat, r: nat, t: nat, h: Hash)
    requires n > 0 && i <= r < t <= |ops| && h != ZERO
    requires ops[r] == Seen(h) && LastInserted(n, ops, i, t, h)
    requires Insertions(n, ops, r + 1, t) == n - 1 && Clear(h) !in ops[r + 1..t]
    ensures h in After(n, ops, t) <==> Insertions(n, ops, i + 1, r + 1) == 0
  {
    RegistrationLasts(n, ops, i, r, t, h);
  }

  /** The failing input: with two slots, the second registration of `a` renews nothing, and a single
      further insertion drops it. */
  lemma RegistrationIsNotRenewed(a: Hash, b: Hash, c: Hash)
    requires a != ZERO && b != ZERO && c != ZERO && a != b && a != c && b != c
    ensures var ops := [Seen(a), Seen(b), Seen(a), Seen(c)];
      && Insertions(2, ops, 3, 4) == 1 && Clear(a) !in ops[3..4]
      && a !in After(2, ops, 4)
  {
    var ops := [Seen(a), Seen(b), Seen(a), Seen(c)];
    assert After(2, ops, 0) == [ZERO, ZERO];
    assert After(2, ops, 1) == [ZERO, a];
    assert After(2, ops, 2) == [a, b];
    assert After(2, ops, 3) == [a, b];
    assert After(2, ops, 4) == [b, c];
    assert Insertions(2, ops, 3, 3) == 0;
  }

  /** The self-echo guard. A packet is registered before it is sent, whatever the answer; any copy of it
      that comes back over the air is then recognised exactly while fewer than n insertions have followed
      the last insertion of its hash and no clear has. */
  lemma EchoIsRecognised(sha: Sha, n: nat, ops: seq<Op>, r: nat, t: nat, p: Packet, echo: Packet, target: Packet)
    returns (i: nat)
    requires n > 0 && r < t <= |ops| && PacketHash(sha, p) != ZERO
    requires ops[r] == Seen(PacketHash(sha, p))
    requires WellFormed(echo)
    requires PayloadTypeBits(p.header) == PayloadTypeBits(echo.header) && p.payload == echo.payload
    requires PayloadTypeBits(p.header) == TRACE ==> p.pathLen == echo.pathLen
    ensures LastInserted(n, ops, i, t, PacketHash(sha, p))
    ensures Read(target, Serialize(echo)).1
    ensures PacketHash(sha, Read(target, Serialize(echo)).0) in After(n, ops, t)
       <==> Insertions(n, ops, i + 1, t) < n && Clear(PacketHash(sha, p)) !in ops[i + 1..t]
  {
    hide After, Insertions, Inserts, Read, Serialize;
    HashSurvivesWire(sha, p, echo, target);
    i := RegistrationHasInsertion(n, ops, r, t, PacketHash(sha, p));
    SeenUntil(n, ops, i, t, PacketHash(sha, p));
  }

  // --- The ring ---

  class PacketDedup {
    const sha: Sha
    const hashes: array<Hash>
    var nextIdx: nat
    var directDups: u32
    var floodDups: u32

    ghost predicate Valid()
      reads this, hashes
    {
      nextIdx < hashes.Length && Distinct(hashes[..])
    }

    /** The ring from the oldest slot to the newest. */
    ghost function Window(): (w: seq<Hash>)
      requires Valid()
      reads this, hashes
      ensures |w| == hashes.Length > 0
    {
      Rotated(hashes[..], nextIdx)
    }

    constructor (n: nat, sha: Sha)
      requires n > 0
      ensures Valid() && Window() == EmptyWindow(n) && fresh(hashes)
      ensures this.sha == sha && directDups == 0 && floodDups == 0
    {
      this.sha := sha;
      hashes := new Hash[n](_ => ZERO);
      nextIdx, directDups, floodDups := 0, 0, 0;
    }

    method HasSeen(packet: Packet) returns (seen: bool)
      requires Valid()
      modifies this, hashes
      ensures Valid()
      ensures seen == (PacketHash(sha, packet) in old(Window()))
      ensures Window() == Apply(old(Window()), Seen(PacketHash(sha, packet)))
      ensures floodDups == if seen && IsFlood(packet.header) then Wrap32(old(floodDups) + 1) else old(floodDups)
      ensures directDups == if seen && !IsFlood(packet.header) then Wrap32(old(directDups) + 1) else old(directDups)
    {
      var hash := PacketHash(sha, packet);
      RingMembers(hashes[..], nextIdx, hash);
      for i := 0 to hashes.Length
        invariant hash !in hashes[..i]
      {
        if hashes[i] == hash {
          assert hash in hashes[..];
          if Route(packet.header) in {Direct, TransportDirect} {
            directDups := Wrap32(directDups + 1);
          } else {
            floodDups := Wrap32(floodDups + 1);
          }
          return true;
        }
      }
      assert hashes[..hashes.Length] == hashes[..];
      Store(hash);
      return false;
    }

    method Store(hash: Hash)
      requires Valid() && hash !in hashes[..]
      modifies this`nextIdx, hashes
      ensures Valid() && Window() == Insert(old(Window()), hash)
    {
      RingInsert(hashes[..], nextIdx, hash);
      DistinctUpdated(hashes[..], nextIdx, hash);
      ghost var s := hashes[..];
      hashes[nextIdx] := hash;
      assert hashes[..] == s[nextIdx := hash];
      nextIdx := (nextIdx + 1) % hashes.Length;
    }

    method ClearEntry(packet: Packet)
      requires Valid()
      modifies hashes
      ensures Valid() && Window() == Apply(old(Window()), Clear(PacketHash(sha, packet)))
    {
      var hash := PacketHash(sha, packet);
      ghost var s := hashes[..];
      RingForget(s, nextIdx, hash);
      DistinctKept(s, hash);
      for i := 0 to hashes.Length
        invariant hash !in hashes[..i]
        invariant hashes[..] == s
      {
        if hashes[i] == hash {
          FirstMatchIsEnough(s, hash, i);
          hashes[i] := ZERO;
          assert hashes[..] == s[i := ZERO];
          return;
        }
      }
      assert hashes[..hashes.Length] == s;
      assert Forget(s, hash) == s;
    }

    method ResetStats()
      modifies this`directDups, this`floodDups
      ensures directDups == floodDups == 0
    {
      directDups, floodDups := 0, 0;
    }
  }
}
