/** The delay for weak flood packets, and the queue that holds them back. */
module RxDelay {
  import opened Machine
  import opened Packet
  import opened Types
  import opened ScanQueue
  import opened Arithmetic
  import Airtime
  import Pow10

  // --- The delay ---

  /** (power - 1) * airtime */
  function Scaled(power: real, airtimeMs: u32): real {
    (power - 1.0) * airtimeMs as real
  }

  /** (10^(0.85 - snr/4) - 1) * airtime */
  function RawDelay(snr: real, airtimeMs: u32): real {
    Scaled(Pow10.Approx(Pow10.E, 0.85 - snr / 4.0), airtimeMs)
  }

  /** Threshold and cap; `None` means deliver immediately. */
  function Limit(raw: real, config: Config): Option<u32> {
    if raw < 0.0 || RealToU32(raw) < config.minRxDelayThresholdMs then None
    else if RealToU32(raw) > config.maxRxDelayMs then Some(config.maxRxDelayMs)
    else Some(RealToU32(raw))
  }

  /** The value of `calc_rx_delay`; the method below computes it. */
  function DelayFor(snr: real, airtimeMs: u32, config: Config): Option<u32> {
    Limit(RawDelay(snr, airtimeMs), config)
  }

  function DelayOrZero(snr: real, airtimeMs: u32, config: Config): u32 {
    OrZero(DelayFor(snr, airtimeMs, config))
  }

  function OrZero(delay: Option<u32>): u32 {
    match delay
    case None => 0
    case Some(d) => d
  }

  method CalcRxDelay(snr: real, airtimeMs: u32, config: Config) returns (r: Option<u32>)
    ensures r == DelayFor(snr, airtimeMs, config)
  {
    var score := snr / 4.0;
    var p := Pow10.Pow10Approx(0.85 - score);
    var raw := Scaled(p, airtimeMs);
    return Limit(raw, config);
  }

  /** A raw delay above zero grows with the airtime and falls with the SNR. */
  lemma RawDelayMonotone(snr1: real, air1: u32, snr2: real, air2: u32)
    requires snr1 >= snr2 && air1 <= air2
    ensures RawDelay(snr1, air1) <= 0.0 || RawDelay(snr1, air1) <= RawDelay(snr2, air2)
  {
    Pow10.WhichEulerIsMonotone();
    var p := Pow10.Approx(Pow10.E, 0.85 - snr1 / 4.0);
    var q := Pow10.Approx(Pow10.E, 0.85 - snr2 / 4.0);
    assert p <= q;
    if p >= 1.0 {
      RealProductMonotone(p - 1.0, q - 1.0, air1 as real, air2 as real);
    } else {
      RealProductMonotone(0.0, 1.0 - p, 0.0, air1 as real);
      assert (p - 1.0) * air1 as real == -((1.0 - p) * air1 as real);
    }
  }

  lemma LimitMonotone(raw1: real, raw2: real, config: Config)
    requires raw1 <= 0.0 || raw1 <= raw2
    ensures OrZero(Limit(raw1, config)) <= OrZero(Limit(raw2, config))
  {}

  /** At equal or longer airtime, a weaker copy waits at least as long; no delay counts as zero. */
  lemma StrongerNeverWaitsLonger(snr1: real, air1: u32, snr2: real, air2: u32, config: Config)
    requires snr1 >= snr2 && air1 <= air2
    ensures DelayOrZero(snr1, air1, config) <= DelayOrZero(snr2, air2, config)
  {
    RawDelayMonotone(snr1, air1, snr2, air2);
    LimitMonotone(RawDelay(snr1, air1), RawDelay(snr2, air2), config);
  }

  /** Stronger and shorter copies of a flood are never held back longer. */
  lemma StrongerShorterFirst(radio: Airtime.RadioConfig, config: Config,
                             snr1: real, len1: nat, snr2: real, len2: nat)
    requires radio.spreadingFactor < 32 && Airtime.Fits(radio, len2)
    requires snr1 >= snr2 && len1 <= len2
    ensures DelayOrZero(snr1, Airtime.Estimate(radio, len1), config)
         <= DelayOrZero(snr2, Airtime.Estimate(radio, len2), config)
  {
    Airtime.EstimateMonotone(radio, len1, len2);
    StrongerNeverWaitsLonger(snr1, Airtime.Estimate(radio, len1),
                             snr2, Airtime.Estimate(radio, len2), config);
  }

  /** A packet is delivered immediately exactly when its raw delay is below the threshold. */
  lemma ImmediateIff(snr: real, airtimeMs: u32, config: Config)
    ensures DelayFor(snr, airtimeMs, config).None?
       <==> RawDelay(snr, airtimeMs) < config.minRxDelayThresholdMs as real
  {}

  /** The delay a raw value stands for: whole milliseconds, capped. */
  ghost predicate Prescribed(raw: real, config: Config, d: u32) {
    && raw >= config.minRxDelayThresholdMs as real
    && if raw < config.maxRxDelayMs as real + 1.0 then d as real <= raw < d as real + 1.0
       else d == config.maxRxDelayMs
  }

  /** How long a packet waits, for every SNR, airtime and configuration. */
  lemma DelayExact(snr: real, airtimeMs: u32, config: Config, d: u32)
    ensures DelayFor(snr, airtimeMs, config) == Some(d) <==> Prescribed(RawDelay(snr, airtimeMs), config, d)
  {
    hide RawDelay;
    LimitExact(RawDelay(snr, airtimeMs), config, d);
  }

  lemma LimitExact(raw: real, config: Config, d: u32)
    ensures Limit(raw, config) == Some(d) <==> Prescribed(raw, config, d)
  {}

  /** The formula turns positive exactly below 3.4 dB. */
  lemma PositiveBelow(snr: real, airtimeMs: u32)
    requires airtimeMs > 0
    ensures RawDelay(snr, airtimeMs) > 0.0 <==> snr < 3.4
  {
    hide Pow10.Approx, Scaled;
    Pow10.SideOfOne(0.85 - snr / 4.0);
    ScaledSign(Pow10.Approx(Pow10.E, 0.85 - snr / 4.0), airtimeMs);
  }

  lemma ScaledSign(power: real, airtimeMs: u32)
    requires airtimeMs > 0
    ensures Scaled(power, airtimeMs) > 0.0 <==> power > 1.0
  {
    SignOfProduct(power - 1.0, airtimeMs as real);
  }

  lemma SignOfProduct(a: real, b: real)
    requires b > 0.0
    ensures a * b > 0.0 <==> a > 0.0
  {
    if a > 0.0 {
      assert a * b > 0.0;
    } else {
      assert (-a) * b >= 0.0;
    }
  }

  /** A flood packet of 3.4 dB or more is never held back, for any airtime and any positive threshold. */
  lemma StrongSignalsAreImmediate(snr: real, airtimeMs: u32, config: Config)
    requires snr >= 3.4 && config.minRxDelayThresholdMs > 0
    ensures DelayFor(snr, airtimeMs, config).None?
  {
    hide RawDelay;
    if airtimeMs > 0 {
      PositiveBelow(snr, airtimeMs);
    } else {
      NoAirtimeNoDelay(snr);
    }
  }

  lemma NoAirtimeNoDelay(snr: real)
    ensures RawDelay(snr, 0) == 0.0
  {}

  /** No delay exceeds the configured maximum. */
  lemma DelayCapped(snr: real, airtimeMs: u32, config: Config)
    ensures DelayOrZero(snr, airtimeMs, config) <= config.maxRxDelayMs
  {}

  // --- The queue ---

  datatype RxEntry = RxEntry(rxPacket: RxPacket, deliverAt: nat)

  predicate RxBefore(a: RxEntry, b: RxEntry) {
    a.deliverAt < b.deliverAt
  }

  /** Due entries; one whose time is the sentinel itself is never found by the scan. */
  function RxReady(now: nat): RxEntry -> bool {
    (e: RxEntry) => e.deliverAt <= now && e.deliverAt < INSTANT_MAX
  }

  lemma RxOrder()
    ensures WeakOrder(RxBefore)
  {}

  function RxPop(s: seq<RxEntry>, now: nat): (Option<RxEntry>, seq<RxEntry>) {
    RxOrder();
    Pop(s, RxReady(now), RxBefore)
  }

  function RxDrain(s: seq<RxEntry>, now: nat): (seq<RxEntry>, seq<RxEntry>) {
    RxOrder();
    Drain(s, RxReady(now), RxBefore)
  }

  /** One pop of a drain. */
  lemma RxDrainStep(s: seq<RxEntry>, now: nat)
    ensures var (e, rest) := RxPop(s, now);
      RxDrain(s, now) == if e.None? then ([], rest)
                         else ([e.value] + RxDrain(rest, now).0, RxDrain(rest, now).1)
  {}

  function DeliverAt(e: RxEntry): nat {
    e.deliverAt
  }

  /** The drain delivers exactly the due entries, earliest first, and leaves none due. */
  lemma RxDrainSorts(s: seq<RxEntry>, now: nat)
    requires forall e | e in s :: e.deliverAt < INSTANT_MAX
    ensures var (taken, left) := RxDrain(s, now);
      && multiset(taken) + multiset(left) == multiset(s)
      && (forall x | x in taken :: x.deliverAt <= now)
      && (forall x | x in left :: now < x.deliverAt)
      && forall i, j | 0 <= i < j < |taken| :: taken[i].deliverAt <= taken[j].deliverAt
  {
    RxOrder();
    DrainSorts(s, RxReady(now), RxBefore);
    var (taken, left) := RxDrain(s, now);
    forall x | x in taken ensures x.deliverAt <= now {
      assert RxReady(now)(x);
    }
    forall x | x in left ensures now < x.deliverAt {
      assert !RxReady(now)(x);
      assert x in multiset(left) && x in multiset(s);
    }
    forall i, j | 0 <= i < j < |taken| ensures taken[i].deliverAt <= taken[j].deliverAt {
      assert !RxBefore(taken[j], taken[i]);
    }
  }

  /** An entry due at the sentinel or later is never delivered, whatever else is queued, and stays. */
  lemma SentinelIsNeverDelivered(s: seq<RxEntry>, now: nat)
    ensures var (taken, left) := RxDrain(s, now);
      && (forall x | x in taken :: x.deliverAt < INSTANT_MAX)
      && (forall e: RxEntry | e.deliverAt >= INSTANT_MAX :: multiset(left)[e] == multiset(s)[e])
  {
    RxOrder();
    DrainSorts(s, RxReady(now), RxBefore);
    var (taken, left) := RxDrain(s, now);
    forall x | x in taken ensures x.deliverAt < INSTANT_MAX {
      assert RxReady(now)(x);
    }
    forall e: RxEntry | e.deliverAt >= INSTANT_MAX ensures multiset(left)[e] == multiset(s)[e] {
      assert e !in taken;
      assert multiset(s)[e] == multiset(taken)[e] + multiset(left)[e];
    }
  }

  class Queue {
    const capacity: nat
    var entries: seq<RxEntry>

    ghost predicate Valid()
      reads this
    {
      |entries| <= capacity
    }

    constructor (capacity: nat)
      ensures Valid() && entries == [] && this.capacity == capacity
    {
      this.capacity := capacity;
      entries := [];
    }

    method Push(rxPacket: RxPacket, deliverAt: nat) returns (ok: bool)
      requires Valid()
      modifies this
      ensures Valid() && ok == (|old(entries)| < capacity)
      ensures entries == if ok then old(entries) + [RxEntry(rxPacket, deliverAt)] else old(entries)
    {
      ok := |entries| < capacity;
      if ok {
        entries := entries + [RxEntry(rxPacket, deliverAt)];
      }
    }

    /** The source returns the packet only; the entry also records when it was due. */
    method PopReady(now: nat) returns (r: Option<RxEntry>)
      requires Valid()
      modifies this
      ensures Valid() && (r, entries) == RxPop(old(entries), now)
    {
      RxOrder();
      var bestIdx: Option<nat> := None;
      var bestTime := INSTANT_MAX;
      for i := 0 to |entries|
        invariant bestIdx == Best(entries[..i], RxReady(now), RxBefore)
        invariant bestTime == if bestIdx.Some? then entries[bestIdx.value].deliverAt else INSTANT_MAX
        invariant bestTime <= INSTANT_MAX
      {
        assert entries[..i + 1][..i] == entries[..i];
        var entry := entries[i];
        if entry.deliverAt <= now && entry.deliverAt < bestTime {
          bestTime := entry.deliverAt;
          bestIdx := Some(i);
        }
      }
      assert entries[..|entries|] == entries;
      if bestIdx.None? {
        return None;
      }
      r := Some(entries[bestIdx.value]);
      entries := SwapRemove(entries, bestIdx.value);
    }

    method NextReadyTime() returns (r: Option<nat>)
      ensures r == Earliest(DeliverAt, entries)
    {
      r := None;
      for i := 0 to |entries|
        invariant r == Earliest(DeliverAt, entries[..i])
      {
        assert entries[..i + 1][..i] == entries[..i];
        if r.None? || entries[i].deliverAt < r.value {
          r := Some(entries[i].deliverAt);
        }
      }
      assert entries[..|entries|] == entries;
    }
  }
}
