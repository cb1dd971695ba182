/** Waiting for a clear channel before a transmission. */
module ListenBeforeTalk {
  import opened Machine
  import opened Arithmetic
  import opened Types

  datatype Probe = Clear | Busy | Failed

  /** Everything the wait depends on and does not control, by attempt number: the answer of the
      radio, the time until it is read, the random word and how late the timer fires. */
  datatype Channel = Channel(
    probe: nat -> Probe,
    latency: nat -> nat,
    random: nat -> u32,
    late: nat -> nat)

  /** `Rng::next_u32` on the random word it draws. */
  function NextU32(word: u32, min: u32, max: u32): (r: u32)
    ensures min <= r && (r < max || r == min)
    ensures min < max ==> SameResidue(word, r - min, max - min)
  {
    if min >= max then min else
    QuotientWitness(word, max - min);
    min + word % (max - min)
  }

  /** `x` is `y` plus a multiple of `m`. */
  ghost predicate SameResidue(x: nat, y: nat, m: nat) {
    exists q: nat :: IsSum(x, y, q, m)
  }

  predicate IsSum(x: nat, y: nat, q: nat, m: nat) {
    x == y + q * m
  }

  lemma QuotientWitness(x: nat, m: nat)
    requires m > 0
    ensures SameResidue(x, x % m, m)
  {
    assert IsSum(x, x % m, x / m, m);
  }

  /** Every number from min up to max can be drawn. */
  lemma EveryBackoffCanBeDrawn(min: u32, max: u32, v: u32)
    requires min <= v < max
    ensures exists word: u32 :: NextU32(word, min, max) == v
  {
    SmallRemainder(v - min, max - min);
    assert NextU32(v - min, min, max) == v;
  }

  lemma SmallRemainder(x: nat, m: nat)
    requires x < m
    ensures x % m == x
  {}

  function Backoff(config: Config, ch: Channel, i: nat): u32 {
    NextU32(ch.random(i), config.cadRetryMinMs, config.cadRetryMaxMs)
  }

  /** The backoff is `v` whenever `word` is drawn, whatever the attempt. */
  ghost predicate Yields(config: Config, word: u32, v: u32) {
    forall ch: Channel, i | ch.random(i) == word :: Backoff(config, ch, i) == v
  }

  /** The possible backoffs are all whole milliseconds from the minimum up to the maximum, or the minimum alone
      when there is no room between the two. */
  lemma BackoffRange(config: Config, v: u32)
    ensures (exists word: u32 :: Yields(config, word, v)) <==>
      config.cadRetryMinMs <= v < config.cadRetryMaxMs || config.cadRetryMaxMs <= config.cadRetryMinMs == v
  {
    var min, max := config.cadRetryMinMs, config.cadRetryMaxMs;
    if min <= v < max {
      EveryBackoffCanBeDrawn(min, max, v);
      var word: u32 :| NextU32(word, min, max) == v;
      assert Yields(config, word, v);
    } else if max <= min == v {
      assert Yields(config, 0, v);
    }
    if word: u32 :| Yields(config, word, v) {
      var ch := Channel(_ => Clear, _ => 0, _ => word, _ => 0);
      assert ch.random(0) == word;
      assert Backoff(config, ch, 0) == v;
    }
  }

  /** The clock when the answer to probe `i` is in. */
  function ProbeTime(config: Config, ch: Channel, start: nat, i: nat): nat {
    if i == 0 then start + ch.latency(0)
    else ProbeTime(config, ch, start, i - 1) + Backoff(config, ch, i - 1) + ch.late(i - 1) + ch.latency(i)
  }

  predicate Stops(config: Config, ch: Channel, start: nat, i: nat) {
    ch.probe(i) != Busy || ProbeTime(config, ch, start, i) >= start + config.cadTimeoutMs
  }

  ghost predicate FirstStop(config: Config, ch: Channel, start: nat, n: nat) {
    Stops(config, ch, start, n) && forall j: nat | j < n :: !Stops(config, ch, start, j)
  }

  /** Backoffs that are never empty, or no time to spend on them. */
  predicate Bounded(config: Config) {
    config.cadRetryMinMs >= 1 || config.cadTimeoutMs == 0
  }

  lemma {:induction false} ClockAdvances(config: Config, ch: Channel, start: nat, i: nat)
    ensures ProbeTime(config, ch, start, i) >= start + i * config.cadRetryMinMs
  {
    if i > 0 {
      ClockAdvances(config, ch, start, i - 1);
      assert i * config.cadRetryMinMs == (i - 1) * config.cadRetryMinMs + config.cadRetryMinMs;
    }
  }

  /** The sum of `f` over the first `n` attempts. */
  function Total(f: nat -> nat, n: nat): nat {
    if n == 0 then 0 else Total(f, n - 1) + f(n - 1)
  }

  /** The answer to probe i is in after all latencies up to its own, all earlier backoffs and all delays of
      the timer. */
  lemma {:induction false} ClockIsSum(config: Config, ch: Channel, start: nat, i: nat)
    ensures ProbeTime(config, ch, start, i)
         == start + Total(ch.latency, i + 1) + Total(k => Backoff(config, ch, k), i) + Total(ch.late, i)
  {
    if i > 0 {
      ClockIsSum(config, ch, start, i - 1);
    }
  }

  /** With instant probes and exact timers, i backoffs take at most i times the largest one. */
  lemma {:induction false} ClockIsBounded(config: Config, ch: Channel, start: nat, i: nat)
    requires forall k: nat :: ch.latency(k) == 0 && ch.late(k) == 0
    ensures ProbeTime(config, ch, start, i) <= start + i * Max(config.cadRetryMinMs, config.cadRetryMaxMs - 1)
  {
    assert ch.latency(i) == 0;
    if i > 0 {
      var m := Max(config.cadRetryMinMs, config.cadRetryMaxMs - 1);
      ClockIsBounded(config, ch, start, i - 1);
      assert ch.late(i - 1) == 0;
      assert i * m == (i - 1) * m + m;
    }
  }

  lemma {:induction false} NeverBeforeStart(config: Config, ch: Channel, start: nat, i: nat)
    ensures ProbeTime(config, ch, start, i) >= start
  {
    if i > 0 {
      NeverBeforeStart(config, ch, start, i - 1);
    }
  }

  /** The number of backoffs: the first probe after which the wait ends. */
  function Backoffs(config: Config, ch: Channel, start: nat): (n: nat)
    requires Bounded(config)
    ensures FirstStop(config, ch, start, n)
  {
    SearchFrom(config, ch, start, 0)
  }

  function SearchFrom(config: Config, ch: Channel, start: nat, i: nat): (n: nat)
    requires Bounded(config)
    requires forall j: nat | j < i :: !Stops(config, ch, start, j)
    ensures FirstStop(config, ch, start, n)
    decreases start + config.cadTimeoutMs - ProbeTime(config, ch, start, i)
  {
    ClockAdvances(config, ch, start, i);
    if Stops(config, ch, start, i) then i else SearchFrom(config, ch, start, i + 1)
  }

  /** At most ceil(timeout / min) backoffs, whatever the radio and the random numbers do. */
  lemma BackoffsBounded(config: Config, ch: Channel, start: nat)
    requires config.cadRetryMinMs >= 1
    ensures Backoffs(config, ch, start)
         <= (config.cadTimeoutMs + config.cadRetryMinMs - 1) / config.cadRetryMinMs
  {
    var n := Backoffs(config, ch, start);
    if n > 0 {
      hide ProbeTime;
      assert !Stops(config, ch, start, n - 1);
      ClockAdvances(config, ch, start, n - 1);
      CeilAtLeast(n, config.cadRetryMinMs, config.cadTimeoutMs);
    }
  }

  lemma CeilAtLeast(n: nat, m: nat, t: nat)
    requires n > 0 && m > 0 && (n - 1) * m < t
    ensures n <= (t + m - 1) / m
  {
    assert n * m == (n - 1) * m + m;
    QuotientAtLeast(n, m, t + m - 1);
  }

  /** The wait gives up only after a busy answer to every probe and past its deadline. */
  lemma GivesUpLate(config: Config, ch: Channel, start: nat, n: nat)
    requires FirstStop(config, ch, start, n)
    ensures ch.probe(n) == Busy <==> forall j: nat | j <= n :: ch.probe(j) == Busy
    ensures ch.probe(n) == Busy ==> ProbeTime(config, ch, start, n) >= start + config.cadTimeoutMs
  {
    forall j: nat | j < n ensures ch.probe(j) == Busy {
      assert !Stops(config, ch, start, j);
    }
  }

  /** When probes and timers cost no extra time, a wait that ends is over less than one backoff past
      its deadline. */
  lemma EndsSoon(config: Config, ch: Channel, start: nat, n: nat)
    requires FirstStop(config, ch, start, n)
    requires forall i: nat :: ch.latency(i) == 0 && ch.late(i) == 0
    ensures ProbeTime(config, ch, start, n)
          < start + config.cadTimeoutMs + Max(1, Max(config.cadRetryMinMs, config.cadRetryMaxMs))
  {
    assert ch.latency(n) == 0 && ch.late(n) == 0;
    if n > 0 {
      assert !Stops(config, ch, start, n - 1);
      assert ch.latency(n - 1) == 0 && ch.late(n - 1) == 0;
    }
  }

  ghost predicate Ends(config: Config, ch: Channel, start: nat) {
    exists n :: Stops(config, ch, start, n)
  }

  /** A wait that ends has exactly one first stop. */
  lemma EndsAtFirstStop(config: Config, ch: Channel, start: nat)
    ensures Ends(config, ch, start) <==> exists n :: FirstStop(config, ch, start, n)
    ensures forall m, n | FirstStop(config, ch, start, m) && FirstStop(config, ch, start, n) :: m == n
  {
    if n :| Stops(config, ch, start, n) {
      var m := LeastStop(config, ch, start, n);
    }
    if n :| FirstStop(config, ch, start, n) {
      assert Stops(config, ch, start, n);
    }
  }

  lemma LeastStop(config: Config, ch: Channel, start: nat, n: nat) returns (m: nat)
    requires Stops(config, ch, start, n)
    ensures m <= n && FirstStop(config, ch, start, m)
  {
    m := 0;
    while !Stops(config, ch, start, m)
      invariant m <= n && forall j: nat | j < m :: !Stops(config, ch, start, j)
      decreases n - m
    {
      m := m + 1;
    }
  }

  /** The wait ends in every environment exactly when backoffs are never empty or the timeout is zero. */
  lemma EndsIff(config: Config)
    ensures (forall ch, start :: Ends(config, ch, start)) <==> Bounded(config)
  {
    if Bounded(config) {
      forall ch, start ensures Ends(config, ch, start) {
        var n := Backoffs(config, ch, start);
        assert Stops(config, ch, start, n);
      }
    } else {
      var jammed := Channel(_ => Busy, _ => 0, _ => 0, _ => 0);
      forall n ensures !Stops(config, jammed, 0, n) {
        StandsStill(config, jammed, n);
      }
      assert !Ends(config, jammed, 0);
    }
  }

  lemma {:induction false} StandsStill(config: Config, ch: Channel, i: nat)
    requires config.cadRetryMinMs == 0
    requires forall k :: ch.latency(k) == 0 && ch.random(k) == 0 && ch.late(k) == 0
    ensures ProbeTime(config, ch, 0, i) == 0
  {
    if i > 0 {
      StandsStill(config, ch, i - 1);
    }
  }

  /** `wait_for_clear_channel`, in an environment in which it ends; also returns the clock at its end. */
  method WaitForClearChannel(config: Config, ch: Channel, start: nat, ghost stop: nat)
    returns (clear: bool, end: nat)
    requires FirstStop(config, ch, start, stop)
    ensures clear == (ch.probe(stop) != Busy)
    ensures end == ProbeTime(config, ch, start, stop)
  {
    var deadline := start + config.cadTimeoutMs;
    var i := 0;
    end := start + ch.latency(0);
    while true
      invariant i <= stop && end == ProbeTime(config, ch, start, i)
      decreases stop - i
    {
      assert i < stop ==> !Stops(config, ch, start, i);
      match ch.probe(i) {
        case Clear => return true, end;
        case Busy =>
        case Failed => return true, end;
      }
      if end >= deadline {
        return false, end;
      }
      var delay := NextU32(ch.random(i), config.cadRetryMinMs, config.cadRetryMaxMs);
      end := end + delay + ch.late(i) + ch.latency(i + 1);
      i := i + 1;
    }
  }
}
