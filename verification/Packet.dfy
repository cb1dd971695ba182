/** The wire packet: header and path_len encodings, serialisation and parsing. */
module Packet {
  import opened Machine

  const MAX_PACKET_PAYLOAD: nat := 184
  const MAX_PATH_SIZE: nat := 64
  const MAX_TRANS_UNIT: nat := 255

  // Fixed-capacity vectors.
  type PathVec = s: seq<u8> | |s| <= MAX_PATH_SIZE
  type PayloadVec = s: seq<u8> | |s| <= MAX_PACKET_PAYLOAD

  datatype Packet = Packet(
    header: u8,
    pathLen: u8,
    code0: u16,
    code1: u16,
    path: PathVec,
    payload: PayloadVec,
    snr: i8)

  const EMPTY := Packet(0, 0, 0, 0, [], [], 0)

  // --- Header byte 0bVVPPPPRR and path_len byte 0bSSCCCCCC ---

  datatype RouteType = TransportFlood | Flood | Direct | TransportDirect

  /** All four values of the two route bits are route types, so parsing them cannot fail. */
  function Route(header: u8): RouteType {
    match header % 4
    case 0 => TransportFlood
    case 1 => Flood
    case 2 => Direct
    case _ => TransportDirect
  }

  predicate IsFlood(header: u8) {
    Route(header) in {Flood, TransportFlood}
  }

  predicate HasTransportCodes(header: u8) {
    Route(header) in {TransportFlood, TransportDirect}
  }

  function PayloadTypeBits(header: u8): u8 {
    (header / 4) % 16
  }

  function PathHashSize(pathLen: u8): nat {
    pathLen / 64 + 1
  }

  function PathHashCount(pathLen: u8): nat {
    pathLen % 64
  }

  function PathByteLen(pathLen: u8): nat {
    PathHashCount(pathLen) * PathHashSize(pathLen)
  }

  predicate ValidPathLen(pathLen: u8) {
    pathLen / 64 != 3
  }

  /** The accessors are the source's shifts and masks of the header and path_len bytes. */
  lemma ShiftsAndMasks(b: bv8)
    ensures Route(b as int) == RouteOfBits(b & 0x03)
    ensures PayloadTypeBits(b as int) == ((b >> 2) & 0x0F) as int
    ensures PathHashCount(b as int) == (b & 0x3F) as int
    ensures PathHashSize(b as int) == (b >> 6) as int + 1
    ensures PathByteLen(b as int) == (b & 0x3F) as int * ((b >> 6) as int + 1)
    ensures ValidPathLen(b as int) <==> (b >> 6) != 0x03
    ensures IsFlood(b as int) <==> (b & 0x03) in {0, 1}
    ensures HasTransportCodes(b as int) <==> (b & 0x03) in {0, 3}
  {
    hide Route, PathHashSize, PathHashCount, PayloadTypeBits, ValidPathLen;
    RouteMask(b);
    TwoBits(b);
    PayloadTypeMask(b);
    PathLenMasks(b);
  }

  function RouteOfBits(bits: bv8): RouteType {
    match bits
    case 0 => TransportFlood
    case 1 => Flood
    case 2 => Direct
    case _ => TransportDirect
  }

  lemma RouteMask(b: bv8)
    ensures Route(b as int) == RouteOfBits(b & 0x03)
  {
    assert (b & 0x03) as int == (b as int) % 4;
  }

  lemma TwoBits(b: bv8)
    ensures (b & 0x03) in {0, 1, 2, 3}
  {}

  lemma PayloadTypeMask(b: bv8)
    ensures PayloadTypeBits(b as int) == ((b >> 2) & 0x0F) as int
  {
    assert (b >> 2) as int == b as int / 4;
    LowNibble(b >> 2);
  }

  lemma LowNibble(b: bv8)
    ensures (b & 0x0F) as int == (b as int) % 16
  {}

  lemma PathLenMasks(b: bv8)
    ensures PathHashCount(b as int) == (b & 0x3F) as int
    ensures PathHashSize(b as int) == (b >> 6) as int + 1
    ensures ValidPathLen(b as int) <==> (b >> 6) != 0x03
  {
    CountMask(b);
    assert (b >> 6) as int == b as int / 64;
  }

  lemma CountMask(b: bv8)
    ensures (b & 0x3F) as int == (b as int) % 64
  {}

  function HashSizeAndCount(size: u8, count: u8): u8 {
    (Max(size - 1, 0) % 4) * 64 + count % 64
  }

  /** Setting size and count, then reading them back. */
  lemma SizeAndCountReadBack(size: u8, count: u8)
    requires size <= 4
    ensures PathHashSize(HashSizeAndCount(size, count)) == Max(size, 1)
    ensures PathHashCount(HashSizeAndCount(size, count)) == count % 64
    ensures ValidPathLen(HashSizeAndCount(size, count)) <==> size <= 3
  {}

  // --- Serialised form ---

  function Le16(x: u16): (s: seq<u8>)
    ensures |s| == 2 && FromLe16(s[0], s[1]) == x
  {
    [x % 256, x / 256]
  }

  function FromLe16(lo: u8, hi: u8): u16 {
    lo + 256 * hi
  }

  function CodeBytes(p: Packet): seq<u8> {
    if HasTransportCodes(p.header) then Le16(p.code0) + Le16(p.code1) else []
  }

  /** The path must hold the bytes that path_len announces; `write_to` panics otherwise. */
  predicate Writable(p: Packet) {
    PathByteLen(p.pathLen) <= |p.path|
  }

  function Serialize(p: Packet): seq<u8>
    requires Writable(p)
  {
    [p.header] + CodeBytes(p) + [p.pathLen] + p.path[..PathByteLen(p.pathLen)] + p.payload
  }

  function WireLen(p: Packet): nat {
    1 + (if HasTransportCodes(p.header) then 4 else 0) + 1 + PathByteLen(p.pathLen) + |p.payload|
  }

  /** `wire_len` announces the serialised length, and every packet fits the radio's buffer. */
  lemma WireLenIsLength(p: Packet)
    requires Writable(p)
    ensures |Serialize(p)| == WireLen(p) <= 254 < MAX_TRANS_UNIT == 255
  {}

  /** Where the bytes stand: header, the two codes low byte first for routes 0 and 3 only, path_len, path, payload. */
  lemma Layout(p: Packet)
    requires Writable(p)
    ensures var s, codes, n := Serialize(p), p.header % 4 in {0, 3}, PathByteLen(p.pathLen);
      var h := if codes then 5 else 1;
      && |s| == h + 1 + n + |p.payload|
      && s[0] == p.header && s[h] == p.pathLen
      && s[h + 1..h + 1 + n] == p.path[..n] && s[h + 1 + n..] == p.payload
      && (codes ==> s[1..5] == [p.code0 % 256, p.code0 / 256, p.code1 % 256, p.code1 / 256])
  {
    var s, n := Serialize(p), PathByteLen(p.pathLen);
    var h := if p.header % 4 in {0, 3} then 5 else 1;
    assert HasTransportCodes(p.header) <==> h == 5;
    hide PathByteLen, Route;
    assert s[..h] == [p.header] + CodeBytes(p);
    assert s[1..h] == CodeBytes(p);
  }

  /** A packet whose fields all survive the wire. */
  predicate WellFormed(p: Packet) {
    && ValidPathLen(p.pathLen)
    && |p.path| == PathByteLen(p.pathLen)
    && (!HasTransportCodes(p.header) ==> p.code0 == 0 && p.code1 == 0)
  }

  /** The state `read_from` leaves behind on every input, and its verdict; failures leave
      the target partly overwritten. */
  function Read(prev: Packet, src: seq<u8>): (Packet, bool) {
    if |src| < 2 then (prev, false) else
    var p := prev.(header := src[0]);
    if HasTransportCodes(p.header) && |src| < 5 then (p, false) else
    var i := if HasTransportCodes(p.header) then 5 else 1;
    var p := if i == 5
             then p.(code0 := FromLe16(src[1], src[2]), code1 := FromLe16(src[3], src[4]))
             else p.(code0 := 0, code1 := 0);
    if i >= |src| then (p, false) else
    var p := p.(pathLen := src[i]);
    var bl := PathByteLen(p.pathLen);
    if !ValidPathLen(p.pathLen) || i + 1 + bl > |src| then (p, false) else
    if bl > MAX_PATH_SIZE then (p.(path := []), false) else
    var p := p.(path := src[i + 1..i + 1 + bl]);
    if |src| - (i + 1 + bl) > MAX_PACKET_PAYLOAD then (p, false) else
    (p.(payload := src[i + 1 + bl..]), true)
  }

  /** What a fresh packet becomes when it reads a frame. */
  function Parse(src: seq<u8>): Option<Packet> {
    var (p, ok) := Read(EMPTY, src);
    if ok then Some(p) else None
  }

  /** Reading back a serialised well-formed packet restores every wire field, whatever
      the target held before. */
  lemma ReadRestores(prev: Packet, p: Packet)
    requires WellFormed(p)
    ensures Read(prev, Serialize(p)) == (p.(snr := prev.snr), true)
  {
    var src := Serialize(p);
    var i := if HasTransportCodes(p.header) then 5 else 1;
    var bl := PathByteLen(p.pathLen);
    assert src[0] == p.header;
    if i == 5 {
      assert src[1..5] == Le16(p.code0) + Le16(p.code1);
      assert src[1] == p.code0 % 256 && src[2] == p.code0 / 256;
      assert src[3] == p.code1 % 256 && src[4] == p.code1 / 256;
    }
    assert src[i] == p.pathLen;
    assert src[i + 1..i + 1 + bl] == p.path;
    assert src[i + 1 + bl..] == p.payload;
  }

  lemma LowAndHigh(lo: u8, hi: u8)
    ensures Le16(FromLe16(lo, hi)) == [lo, hi]
  {}

  /** Whatever `read_from` accepts is well formed, and `write_to` gives back exactly the input. */
  lemma ReadIsSound(prev: Packet, src: seq<u8>)
    requires Read(prev, src).1
    ensures WellFormed(Read(prev, src).0) && Serialize(Read(prev, src).0) == src
    ensures Read(prev, src).0.snr == prev.snr
  {
    hide PathByteLen, Route, Le16;
    var p := Read(prev, src).0;
    var i := if HasTransportCodes(p.header) then 5 else 1;
    var bl := PathByteLen(p.pathLen);
    assert src == [src[0]] + src[1..i] + [src[i]] + src[i + 1..i + 1 + bl] + src[i + 1 + bl..];
    if i == 5 {
      assert src[1..5] == [src[1], src[2], src[3], src[4]];
      LowAndHigh(src[1], src[2]);
      LowAndHigh(src[3], src[4]);
    }
    assert CodeBytes(p) == src[1..i];
  }

  /** Which byte strings are accepted, in numbers: at most 64 bytes of path, at most 184 of payload. */
  lemma AcceptedIff(prev: Packet, src: seq<u8>)
    ensures Read(prev, src).1 <==> Acceptable(src)
  {}

  predicate Acceptable(src: seq<u8>) {
    && |src| >= 2
    && var h := if src[0] % 4 in {0, 3} then 5 else 1;
    && |src| > h && src[h] < 192
    && var n := src[h] % 64 * (src[h] / 64 + 1);
    && n <= 64 && h + 1 + n <= |src| <= h + 1 + n + 184
  }

  /** What a rejected input of two bytes or more leaves behind: the old payload, the new header, the codes and
      path_len as far as they are there, and the path only if it fits. */
  lemma RejectedLeaves(prev: Packet, src: seq<u8>)
    requires !Read(prev, src).1 && |src| >= 2
    ensures var p, h := Read(prev, src).0, if src[0] % 4 in {0, 3} then 5 else 1;
      && p.header == src[0] && p.payload == prev.payload && p.snr == prev.snr
      && (h == 1 ==> p.code0 == p.code1 == 0)
      && (h == 5 && |src| >= 5 ==> p.code0 as int == src[1] as int + 256 * src[2] as int)
      && (h == 5 && |src| >= 5 ==> p.code1 as int == src[3] as int + 256 * src[4] as int)
      && (|src| < h ==> p.code0 == prev.code0 && p.code1 == prev.code1)
      && p.pathLen == (if |src| > h then src[h] else prev.pathLen)
      && p.path == PathAfter(prev, src, h)
  {}

  /** The path after a rejection: emptied if too long, replaced if the input holds it, else as before. */
  function PathAfter(prev: Packet, src: seq<u8>, h: nat): PathVec {
    if |src| <= h || src[h] >= 192 then prev.path else
    var n := src[h] % 64 * (src[h] / 64 + 1);
    if h + 1 + n > |src| then prev.path
    else if n > 64 then []
    else src[h + 1..h + 1 + n]
  }

  /** The accepted byte strings are exactly the serialised well-formed packets. */
  lemma AcceptedIffSerialized(prev: Packet, src: seq<u8>)
    ensures Read(prev, src).1 <==> exists p :: WellFormed(p) && Serialize(p) == src
  {
    if Read(prev, src).1 {
      ReadIsSound(prev, src);
    }
    if p :| WellFormed(p) && Serialize(p) == src {
      ReadRestores(prev, p);
    }
  }

  /** Two well-formed packets with the same wire form differ at most in the local SNR field. */
  lemma SerializeInjective(p: Packet, q: Packet)
    requires WellFormed(p) && WellFormed(q) && Serialize(p) == Serialize(q)
    ensures p == q.(snr := p.snr)
  {
    ReadRestores(p, p);
    ReadRestores(p, q);
  }

  // --- The mutable packet ---

  class PacketCell {
    var header: u8
    var pathLen: u8
    var code0: u16
    var code1: u16
    var path: PathVec
    var payload: PayloadVec
    var snr: i8

    ghost function Value(): Packet
      reads this
    {
      Packet(header, pathLen, code0, code1, path, payload, snr)
    }

    /** `Packet::new` */
    constructor ()
      ensures Value() == EMPTY
    {
      header, pathLen, code0, code1, path, payload, snr := 0, 0, 0, 0, [], [], 0;
    }

    /** A packet held by value, as the queues store it. */
    constructor Of(p: Packet)
      ensures Value() == p
    {
      header, pathLen, code0, code1, path, payload, snr :=
        p.header, p.pathLen, p.code0, p.code1, p.path, p.payload, p.snr;
    }

    method Get() returns (p: Packet)
      ensures p == Value()
    {
      return Packet(header, pathLen, code0, code1, path, payload, snr);
    }

    method SetPathHashCount(count: u8)
      modifies this`pathLen
      ensures PathHashCount(pathLen) == count % 64
      ensures PathHashSize(pathLen) == old(PathHashSize(pathLen))
    {
      pathLen := pathLen - pathLen % 64 + count % 64;
    }

    method SetPathHashSizeAndCount(size: u8, count: u8)
      modifies this`pathLen
      ensures pathLen == HashSizeAndCount(size, count)
    {
      var sizeEnc := if size == 0 then 0 else (size - 1) % 4;
      pathLen := sizeEnc * 64 + count % 64;
    }

    method WriteTo(dest: array<u8>) returns (i: nat)
      requires Writable(Value()) && WireLen(Value()) <= dest.Length
      modifies dest
      ensures i == WireLen(Value()) && dest[..i] == Serialize(Value())
      ensures dest[i..] == old(dest[i..])
    {
      hide Le16, CodeBytes, HasTransportCodes, PathByteLen;
      WireLenIsLength(Value());
      i := WriteHead(dest);
      var pbl := PathByteLen(pathLen);
      if pbl > 0 {
        i := CopyAt(dest, i, path[..pbl]);
      }
      if |payload| > 0 {
        i := CopyAt(dest, i, payload);
      }
    }

    /** Copies to the position `at` and moves it on. */
    method CopyAt(dest: array<u8>, at: nat, bytes: seq<u8>) returns (i: nat)
      requires at + |bytes| <= dest.Length
      modifies dest
      ensures i == at + |bytes| && dest[..i] == old(dest[..at]) + bytes
      ensures forall k | i <= k < dest.Length :: dest[k] == old(dest[k])
    {
      CopyFromSlice(dest, at, bytes);
      i := at + |bytes|;
    }

    /** Everything up to and including the path_len byte. */
    method WriteHead(dest: array<u8>) returns (i: nat)
      requires dest.Length >= 1 + |CodeBytes(Value())| + 1
      modifies dest
      ensures i == 1 + |CodeBytes(Value())| + 1
      ensures dest[..i] == [header] + CodeBytes(Value()) + [pathLen]
      ensures forall k | i <= k < dest.Length :: dest[k] == old(dest[k])
    {
      hide Le16, Route;
      i := 0;
      dest[i] := header;
      i := i + 1;
      if HasTransportCodes(header) {
        var tc0 := Le16(code0);
        dest[i], dest[i + 1] := tc0[0], tc0[1];
        i := i + 2;
        var tc1 := Le16(code1);
        dest[i], dest[i + 1] := tc1[0], tc1[1];
        i := i + 2;
      }
      dest[i] := pathLen;
      i := i + 1;
    }

    method ReadFrom(src: seq<u8>) returns (ok: bool)
      modifies this
      ensures (Value(), ok) == Read(old(Value()), src)
    {
      hide FromLe16, Route, PathHashCount, PathHashSize;
      var len := |src|;
      if len < 2 {
        return false;
      }
      var i := 0;
      header := src[i];
      i := i + 1;
      if HasTransportCodes(header) {
        if i + 4 > len {
          return false;
        }
        code0 := FromLe16(src[i], src[i + 1]);
        i := i + 2;
        code1 := FromLe16(src[i], src[i + 1]);
        i := i + 2;
      } else {
        code0, code1 := 0, 0;
      }
      if i >= len {
        return false;
      }
      pathLen := src[i];
      i := i + 1;
      if !ValidPathLen(pathLen) {
        return false;
      }
      var bl := PathByteLen(pathLen);
      if i + bl > len {
        return false;
      }
      path := [];
      if bl > 0 {
        if bl > MAX_PATH_SIZE {
          return false;
        }
        path := src[i..i + bl];
      }
      i := i + bl;
      var payloadLen := len - i;
      if payloadLen > MAX_PACKET_PAYLOAD {
        return false;
      }
      payload := [];
      if payloadLen > 0 {
        payload := src[i..i + payloadLen];
      }
      assert src[i..i + payloadLen] == src[i..];
      return true;
    }
  }
}
