/** The SX1262 driver's airtime estimate, in 32-bit arithmetic. */
module Airtime {
  import opened Machine
  import opened Arithmetic

  datatype RadioConfig = RadioConfig(bandwidthKhz: real, spreadingFactor: u8, codingRate: u8)

  function BandwidthHz(c: RadioConfig): u32 {
    RealToU32(c.bandwidthKhz * 1000.0)
  }

  function Pow2(n: nat): nat {
    if n == 0 then 1 else 2 * Pow2(n - 1)
  }

  function CeilDiv(a: nat, b: nat): nat
    requires b > 0
  {
    (a + b - 1) / b
  }

  function PayloadSymbols(c: RadioConfig, len: nat): u32 {
    var payloadBits := Wrap32(Wrap32(len) * 8);
    var sfBits := c.spreadingFactor * 4;
    if sfBits == 0 then 0 else
    var numerator := Wrap32(SaturatingSub(payloadBits, sfBits) + 28 + 16);
    Wrap32(8 + Wrap32(CeilDiv(numerator, sfBits) * c.codingRate))
  }

  /** The shift by 32 or more is an error in the source, hence the bound on the spreading factor. */
  function Estimate(c: RadioConfig, len: nat): u32
    requires c.spreadingFactor < 32
  {
    var bw := BandwidthHz(c);
    if bw == 0 then 0 else
    var symbolUs := Wrap32(Wrap32(Pow2(c.spreadingFactor)) * 1_000_000) / bw;
    var total := Wrap32(12 + PayloadSymbols(c, len));
    Wrap32(Wrap32(total * symbolUs) + 500) / 1000
  }

  /** The symbol count without wrap-around. */
  function Symbols(c: RadioConfig, len: nat): nat {
    var sfBits := 4 * c.spreadingFactor;
    if sfBits == 0 then 12
    else 20 + CeilDiv(Max(8 * len - sfBits, 0) + 44, sfBits) * c.codingRate
  }

  /** Microseconds a symbol lasts, without wrap-around. */
  function SymbolUs(c: RadioConfig): nat
    requires BandwidthHz(c) > 0
  {
    Quotient(Pow2(c.spreadingFactor) * 1_000_000, BandwidthHz(c))
  }

  function Quotient(a: nat, b: nat): nat
    requires b > 0
  {
    a / b
  }

  /** The overflow guard: every intermediate result has 32 bits. */
  predicate Fits(c: RadioConfig, len: nat) {
    BandwidthHz(c) > 0 ==>
      && Pow2(c.spreadingFactor) * 1_000_000 <= U32_MAX
      && 8 * len + 44 <= U32_MAX
      && Symbols(c, len) <= U32_MAX
      && Symbols(c, len) * SymbolUs(c) + 500 <= U32_MAX
  }

  /** The parameters the driver accepts; any bandwidth the chip has is above 1 kHz. */
  predicate Documented(c: RadioConfig) {
    && 5 <= c.spreadingFactor <= 12
    && 5 <= c.codingRate <= 8
    && (c.bandwidthKhz >= 1.0 || BandwidthHz(c) == 0)
  }

  lemma WrapSmall(x: nat)
    requires x <= U32_MAX
    ensures Wrap32(x) == x
  {}

  lemma SymbolsMonotone(c: RadioConfig, len1: nat, len2: nat)
    requires len1 <= len2
    ensures Symbols(c, len1) <= Symbols(c, len2)
  {
    var d := 4 * c.spreadingFactor;
    if d > 0 {
      var a, b := Max(8 * len1 - d, 0) + 44, Max(8 * len2 - d, 0) + 44;
      DivMonotone(a + d - 1, b + d - 1, d);
      ProductMonotone(CeilDiv(a, d), CeilDiv(b, d), c.codingRate, c.codingRate);
    }
  }

  /** What fits for a length fits for every shorter one. */
  lemma FitsShorter(c: RadioConfig, len1: nat, len2: nat)
    requires len1 <= len2 && Fits(c, len2)
    ensures Fits(c, len1)
  {
    hide Symbols, SymbolUs;
    if BandwidthHz(c) > 0 {
      SymbolsMonotone(c, len1, len2);
      ProductMonotone(Symbols(c, len1), Symbols(c, len2), SymbolUs(c), SymbolUs(c));
    }
  }

  lemma PayloadDoesNotWrap(c: RadioConfig, len: nat)
    requires 8 * len + 44 <= U32_MAX && Symbols(c, len) <= U32_MAX
    ensures Wrap32(12 + PayloadSymbols(c, len)) == Symbols(c, len)
  {
    hide Wrap32, CeilDiv;
    var d := 4 * c.spreadingFactor;
    WrapSmall(len);
    WrapSmall(8 * len);
    if d == 0 {
      WrapSmall(12);
    } else {
      var numerator := Max(8 * len - d, 0) + 44;
      var n := CeilDiv(numerator, d) * c.codingRate;
      WrapSmall(numerator);
      WrapSmall(n);
      WrapSmall(8 + n);
      WrapSmall(20 + n);
    }
  }

  lemma SymbolTimeDoesNotWrap(c: RadioConfig)
    requires BandwidthHz(c) > 0 && Pow2(c.spreadingFactor) * 1_000_000 <= U32_MAX
    ensures Wrap32(Wrap32(Pow2(c.spreadingFactor)) * 1_000_000) / BandwidthHz(c) == SymbolUs(c)
  {
    hide Wrap32;
    WrapSmall(Pow2(c.spreadingFactor));
    WrapSmall(Pow2(c.spreadingFactor) * 1_000_000);
  }

  /** Under the guard the 32-bit estimate is the exact one. */
  lemma NoWrap(c: RadioConfig, len: nat)
    requires c.spreadingFactor < 32 && BandwidthHz(c) > 0 && Fits(c, len)
    ensures Estimate(c, len) == (Symbols(c, len) * SymbolUs(c) + 500) / 1000
  {
    hide Wrap32, CeilDiv, PayloadSymbols, Symbols, SymbolUs, BandwidthHz, Pow2;
    PayloadDoesNotWrap(c, len);
    SymbolTimeDoesNotWrap(c);
    WrapSmall(Symbols(c, len) * SymbolUs(c));
    WrapSmall(Symbols(c, len) * SymbolUs(c) + 500);
  }

  /** The exact estimate by bounds. With n blocks of coded symbols there are just enough for the payload's bits
      less four per spreading step, plus 44; a symbol lasts 2^SF/bandwidth, in whole microseconds; and the total is
      rounded to the nearest millisecond. */
  lemma EstimateByBounds(c: RadioConfig, len: nat) returns (blocks: nat, symbolUs: nat, bandwidth: nat)
    requires c.spreadingFactor < 32 && c.bandwidthKhz * 1000.0 < 4294967296.0
    requires BandwidthHz(c) > 0 && Fits(c, len)
    ensures var bits := Max(8 * len - 4 * c.spreadingFactor, 0) + 44;
      c.spreadingFactor > 0 ==>
        4 * c.spreadingFactor * (blocks - 1) < bits <= 4 * c.spreadingFactor * blocks
    ensures bandwidth as real <= c.bandwidthKhz * 1000.0 < bandwidth as real + 1.0
    ensures symbolUs * bandwidth <= Pow2(c.spreadingFactor) * 1_000_000 < symbolUs * bandwidth + bandwidth
    ensures var symbols := if c.spreadingFactor == 0 then 12 else 20 + blocks * c.codingRate;
      1000 * Estimate(c, len) - 500 <= symbols * symbolUs < 1000 * Estimate(c, len) + 500
  {
    var d := 4 * c.spreadingFactor;
    var bits := Max(8 * len - d, 0) + 44;
    blocks, symbolUs, bandwidth := if d == 0 then 0 else CeilDiv(bits, d), SymbolUs(c), BandwidthHz(c);
    NoWrap(c, len);
    if d > 0 {
      CeilBounds(bits, d);
    }
    QuotientBounds(Pow2(c.spreadingFactor) * 1_000_000, bandwidth);
    hide Pow2, SymbolUs, CeilDiv, Estimate, Quotient;
    assert Symbols(c, len) == if d == 0 then 12 else 20 + blocks * c.codingRate;
  }

  lemma CeilBounds(a: nat, d: nat)
    requires d > 0
    ensures d * (CeilDiv(a, d) - 1) < a <= d * CeilDiv(a, d)
  {}

  lemma QuotientBounds(a: nat, d: nat)
    requires d > 0
    ensures Quotient(a, d) * d <= a < Quotient(a, d) * d + d
  {}

  /** A longer frame never has a shorter estimate, as long as the longer one's estimate does not wrap. */
  lemma EstimateMonotone(c: RadioConfig, len1: nat, len2: nat)
    requires c.spreadingFactor < 32 && len1 <= len2 && Fits(c, len2)
    ensures Estimate(c, len1) <= Estimate(c, len2)
  {
    hide Symbols, SymbolUs, Fits;
    if BandwidthHz(c) > 0 {
      FitsShorter(c, len1, len2);
      NoWrap(c, len1);
      NoWrap(c, len2);
      SymbolsMonotone(c, len1, len2);
      ProductMonotone(Symbols(c, len1), Symbols(c, len2), SymbolUs(c), SymbolUs(c));
      DivMonotone(Symbols(c, len1) * SymbolUs(c) + 500, Symbols(c, len2) * SymbolUs(c) + 500, 1000);
    }
  }

  /** A tenth of a kilohertz, spreading factor 12, coding rate 8. */
  const SLOW := RadioConfig(0.1, 12, 8)

  lemma SlowSymbols()
    ensures BandwidthHz(SLOW) == 100 && Pow2(12) == 4096 && SymbolUs(SLOW) == 40_960_000
    ensures Symbols(SLOW, 0) == 28 && Symbols(SLOW, 64) == 108
  {
    assert Pow2(4) == 16;
    assert Pow2(8) == 256;
    assert CeilDiv(44, 48) == 1;
    assert CeilDiv(508, 48) == 11;
  }

  /** A longer frame can have a shorter estimate where the 32 bits wrap. */
  lemma WrappedCanBeSmaller()
    ensures Fits(SLOW, 0) && !Fits(SLOW, 64)
    ensures Estimate(SLOW, 0) == 1_146_880
    ensures Estimate(SLOW, 64) == 128_713
  {
    hide PayloadSymbols, Symbols, SymbolUs, BandwidthHz, Pow2;
    SlowSymbols();
    NoWrap(SLOW, 0);
    PayloadDoesNotWrap(SLOW, 64);
    SymbolTimeDoesNotWrap(SLOW);
  }

  lemma SymbolTimeBounded(c: RadioConfig)
    requires Documented(c) && BandwidthHz(c) > 0
    ensures Pow2(c.spreadingFactor) * 1_000_000 <= U32_MAX && SymbolUs(c) <= 4_096_000
  {
    assert Pow2(6) == 64 && Pow2(8) == 256 && Pow2(10) == 1024 && Pow2(12) == 4096;
    var s := c.spreadingFactor;
    assert Pow2(s) <= 4096 by {
      assert s == 5 || s == 6 || s == 7 || s == 8 || s == 9 || s == 10 || s == 11 || s == 12;
    }
    var bw := BandwidthHz(c);
    assert bw >= 1000;
    DivMonotone(Pow2(s) * 1_000_000, 4_096_000_000, bw);
    DivAntitone(4_096_000_000, 1000, bw);
  }

  /** At most 105 blocks of symbols, for a numerator of at most 2064 bits. */
  lemma BlocksBounded(a: nat, d: nat)
    requires a <= 2064 && 20 <= d <= 48
    ensures CeilDiv(a, d) <= 105
  {}

  /** The guard holds for every parameter set the driver accepts and every frame. */
  lemma DocumentedFits(c: RadioConfig, len: nat)
    requires Documented(c) && len <= 255
    ensures Fits(c, len)
  {
    hide CeilDiv, SymbolUs, Pow2;
    if BandwidthHz(c) > 0 {
      var d := 4 * c.spreadingFactor;
      var numerator := Max(8 * len - d, 0) + 44;
      BlocksBounded(numerator, d);
      ProductMonotone(CeilDiv(numerator, d), 105, c.codingRate, 8);
      SymbolTimeBounded(c);
      ProductMonotone(Symbols(c, len), 860, SymbolUs(c), 4_096_000);
    }
  }
}
