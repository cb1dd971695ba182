/** The group-text payload codec. */
module GrpTxt {
  import opened Machine
  import opened Packet
  import opened Crypto
  import Utf8

  const MIN_GRP_TXT_PAYLOAD: nat := 1 + MAC_SIZE + 16
  const PLAINTEXT_HEADER: nat := 5

  datatype Decoded = Decoded(timestamp: u32, txType: u8, message: seq<u8>)

  function Le32(x: u32): (s: seq<u8>)
    ensures |s| == 4 && FromLe32(s[0], s[1], s[2], s[3]) == x
  {
    Le16(x % 0x1_0000) + Le16(x / 0x1_0000)
  }

  function FromLe32(a: u8, b: u8, c: u8, d: u8): u32 {
    FromLe16(a, b) + 0x1_0000 * FromLe16(c, d)
  }

  /** Route type Flood (1), payload type GrpTxt (5), version V1 (0). */
  const GRP_TXT_HEADER: u8 := 1 + 4 * 5 + 64 * 0

  function Plaintext(timestamp: u32, message: seq<u8>): seq<u8> {
    Le32(timestamp) + [0] + message
  }

  function Payload(c: Suite, secret: Secret, channelHash: u8, timestamp: u32, message: seq<u8>): seq<u8> {
    [channelHash] + Sealed(c, secret, Plaintext(timestamp, message))
  }

  /** What decoding makes of a decrypted plaintext. */
  function Interpret(plain: seq<u8>): Option<Decoded> {
    if |plain| < PLAINTEXT_HEADER then None else
    var message := Utf8.Stripped(plain[PLAINTEXT_HEADER..]);
    if !Utf8.Valid(message) then None
    else Some(Decoded(FromLe32(plain[0], plain[1], plain[2], plain[3]), plain[4], message))
  }

  /** `decode_grp_txt` */
  function Decode(c: Suite, secret: Secret, payload: seq<u8>): Option<Decoded> {
    if |payload| < MIN_GRP_TXT_PAYLOAD then None else
    match Opened(c, secret, payload[1..])
    case None => None
    case Some(plain) => Interpret(plain)
  }

  // --- Sizes ---

  /** The buffer assertion of the cipher holds, on the path that reaches it, exactly for messages of
      at most 171 bytes; those of 180 bytes or more are turned away before it. */
  lemma BufferAssertionIff(len: nat)
    ensures PLAINTEXT_HEADER + len > MAX_PACKET_PAYLOAD <==> len >= 180
    ensures MAC_SIZE + NumBlocks(PLAINTEXT_HEADER + len) * BLOCK_SIZE <= MAX_PACKET_PAYLOAD <==> len <= 171
  {}

  lemma PayloadSize(c: Suite, secret: Secret, channelHash: u8, timestamp: u32, message: seq<u8>)
    requires |message| <= 171
    ensures MIN_GRP_TXT_PAYLOAD <= |Payload(c, secret, channelHash, timestamp, message)| <= 179
    ensures |Payload(c, secret, channelHash, timestamp, message)| == 3 + 16 * NumBlocks(5 + |message|)
  {}

  // --- Round trips ---

  lemma InterpretPadded(timestamp: u32, txType: u8, message: seq<u8>)
    ensures Interpret(Padded(Le32(timestamp) + [txType] + message))
         == if Utf8.Valid(message) then Some(Decoded(timestamp, txType, Utf8.Stripped(message))) else None
  {
    hide Le32, FromLe32, Utf8.Valid, Utf8.Stripped, NumBlocks;
    var plain := Le32(timestamp) + [txType] + message;
    var pad := NumBlocks(|plain|) * BLOCK_SIZE - |plain|;
    var padded := Padded(plain);
    assert padded[PLAINTEXT_HEADER..] == message + seq(pad, _ => 0);
    assert padded[..4] == Le32(timestamp);
    assert padded[4] == txType;
    Utf8.StrippedOfPadded(message, pad);
    Utf8.StrippedKeepsValid(message);
  }

  /** Any sealed plaintext, whatever its type byte and the channel hash in front, decodes to its fields. */
  lemma DecodeSealed(c: Suite, secret: Secret, channelHash: u8, timestamp: u32, txType: u8, message: seq<u8>)
    requires Inverts(c)
    ensures Decode(c, secret, [channelHash] + Sealed(c, secret, Le32(timestamp) + [txType] + message))
         == if Utf8.Valid(message) then Some(Decoded(timestamp, txType, Utf8.Stripped(message))) else None
  {
    hide Utf8.Valid, Utf8.Stripped, Interpret;
    var plain := Le32(timestamp) + [txType] + message;
    var payload := [channelHash] + Sealed(c, secret, plain);
    assert payload[1..] == Sealed(c, secret, plain);
    OpenSealed(c, secret, plain);
    InterpretPadded(timestamp, txType, message);
  }

  /** With any other two bytes for its MAC, a payload with the right MAC decodes to nothing. */
  lemma TamperedMacIsRefused(c: Suite, secret: Secret, payload: seq<u8>, mac: seq<u8>)
    requires |payload| >= 3 && payload[1..3] == c.hmac(secret, payload[3..])[..2]
    requires |mac| == 2 && mac != payload[1..3]
    ensures Decode(c, secret, [payload[0]] + mac + payload[3..]).None?
  {
    hide Interpret;
    var forged := [payload[0]] + mac + payload[3..];
    OpensIff(c, secret, forged[1..]);
    assert forged[1..][..2] == mac && forged[1..][2..] == payload[3..];
  }

  /** A decoded payload had at least 19 bytes, of which two are the start of the keyed hash of the rest. */
  lemma DecodedIsAuthentic(c: Suite, secret: Secret, payload: seq<u8>)
    requires Decode(c, secret, payload).Some?
    ensures |payload| >= 19 && payload[1..3] == c.hmac(secret, payload[3..])[..2]
  {
    hide Interpret;
    OpensIff(c, secret, payload[1..]);
    assert payload[1..][..2] == payload[1..3] && payload[1..][2..] == payload[3..];
  }

  /** Every message decodes to itself without trailing zeros, if it is UTF-8, and to nothing if not. */
  lemma DecodeEncoded(c: Suite, secret: Secret, channelHash: u8, timestamp: u32, message: seq<u8>)
    requires Inverts(c)
    ensures Decode(c, secret, Payload(c, secret, channelHash, timestamp, message))
         == if Utf8.Valid(message) then Some(Decoded(timestamp, 0, Utf8.Stripped(message))) else None
  {
    DecodeSealed(c, secret, channelHash, timestamp, 0, message);
  }

  function EncodedPacket(c: Suite, secret: Secret, channelHash: u8, timestamp: u32, message: seq<u8>): Packet
    requires |message| <= 171
  {
    PayloadSize(c, secret, channelHash, timestamp, message);
    EMPTY.(header := GRP_TXT_HEADER, payload := Payload(c, secret, channelHash, timestamp, message))
  }

  /** What an encoded packet looks like: flood route, payload type 5, version 0, one-byte path hashes, no path,
      and the channel hash in front of the sealed text. */
  lemma EncodedLayout(c: Suite, secret: Secret, channelHash: u8, timestamp: u32, message: seq<u8>)
    requires |message| <= 171
    ensures var p := EncodedPacket(c, secret, channelHash, timestamp, message);
      && Route(p.header) == Flood && PayloadTypeBits(p.header) == 5 && p.header / 64 == 0
      && PathHashSize(p.pathLen) == 1 && PathHashCount(p.pathLen) == 0 && p.path == []
      && p.payload == [channelHash] + Sealed(c, secret, Plaintext(timestamp, message))
  {
    hide Sealed, Plaintext;
  }

  /** And what is sealed in it: the bytes of the timestamp, lowest first, a zero and the message. */
  lemma PlaintextLayout(timestamp: u32, message: seq<u8>)
    ensures var t := Plaintext(timestamp, message);
      && |t| == 5 + |message| && t[4] == 0 && t[5..] == message
      && t[0] as int + 0x100 * t[1] as int + 0x1_0000 * t[2] as int + 0x100_0000 * t[3] as int == timestamp
  {
    hide Le32;
    var b := Le32(timestamp);
    assert FromLe32(b[0], b[1], b[2], b[3]) == timestamp;
  }

  /** Group text survives the full stack: encode, write, read into any packet, decode. */
  lemma SurvivesTheStack(c: Suite, secret: Secret, channelHash: u8, timestamp: u32, message: seq<u8>, target: Packet)
    requires Inverts(c) && |message| <= 171 && Utf8.Valid(message)
    ensures var sent := EncodedPacket(c, secret, channelHash, timestamp, message);
      && WellFormed(sent)
      && var (got, ok) := Read(target, Serialize(sent));
      && ok
      && Decode(c, secret, got.payload) == Some(Decoded(timestamp, 0, Utf8.Stripped(message)))
      && ((Decode(c, secret, got.payload) == Some(Decoded(timestamp, 0, message)))
          <==> (message == [] || message[|message| - 1] != 0))
  {
    hide Read, Serialize, Decode, Payload, Utf8.Valid, Utf8.Stripped;
    var sent := EncodedPacket(c, secret, channelHash, timestamp, message);
    assert WellFormed(sent);
    ReadRestores(target, sent);
    DecodeEncoded(c, secret, channelHash, timestamp, message);
    Utf8.StrippedIsIdentity(message);
  }

  // --- The buffer code ---

  /** Messages of 172 to 179 bytes run into the cipher's buffer assertion; see `BufferAssertionIff`. */
  method EncodeGrpTxt(c: Suite, secret: Secret, channelHash: u8, timestamp: u32, message: seq<u8>)
    returns (r: Option<Packet>)
    requires |message| <= 171 || |message| >= 180
    ensures r == if |message| >= 180 then None
                 else Some(EncodedPacket(c, secret, channelHash, timestamp, message))
  {
    var plaintextLen := PLAINTEXT_HEADER + |message|;
    if plaintextLen > MAX_PACKET_PAYLOAD {
      return None;
    }
    var plaintext := new u8[MAX_PACKET_PAYLOAD](_ => 0);
    FillPlaintext(plaintext, timestamp, message);

    var encrypted := new u8[MAX_PACKET_PAYLOAD](_ => 0);
    var encLen := EncryptThenMac(c, secret, encrypted, plaintext[..plaintextLen]);

    var payloadLen := 1 + encLen;
    if payloadLen > MAX_PACKET_PAYLOAD {
      return None;
    }

    var p := BuildPacket(channelHash, encrypted[..encLen]);
    return Some(p);
  }

  method BuildPacket(channelHash: u8, sealed: seq<u8>) returns (p: Packet)
    requires 1 + |sealed| <= MAX_PACKET_PAYLOAD
    ensures p == EMPTY.(header := GRP_TXT_HEADER, payload := [channelHash] + sealed)
  {
    var pkt := new PacketCell();
    pkt.header := GRP_TXT_HEADER;
    pkt.SetPathHashSizeAndCount(1, 0);
    pkt.payload := [channelHash];
    pkt.payload := pkt.payload + sealed;
    p := pkt.Get();
  }

  method FillPlaintext(plaintext: array<u8>, timestamp: u32, message: seq<u8>)
    requires PLAINTEXT_HEADER + |message| <= plaintext.Length
    modifies plaintext
    ensures plaintext[..PLAINTEXT_HEADER + |message|] == Plaintext(timestamp, message)
  {
    CopyFromSlice(plaintext, 0, Le32(timestamp));
    plaintext[4] := 0x00;
    assert plaintext[..5] == Le32(timestamp) + [0];
    CopyFromSlice(plaintext, 5, message);
  }

  /** `scratch` must hold the whole blocks of the ciphertext, but only if the MAC matches. */
  method DecodeGrpTxt(c: Suite, secret: Secret, payload: seq<u8>, scratch: array<u8>) returns (r: Option<Decoded>)
    requires |payload| >= MIN_GRP_TXT_PAYLOAD ==>
      var o := Opened(c, secret, payload[1..]); o.Some? ==> |o.value| <= scratch.Length
    modifies scratch
    ensures r == Decode(c, secret, payload)
  {
    if |payload| < MIN_GRP_TXT_PAYLOAD {
      return None;
    }
    var macAndCipher := payload[1..];
    var unsealed := MacThenDecrypt(c, secret, scratch, macAndCipher);
    if unsealed.None? {
      return None;
    }
    var decryptedLen := unsealed.value;
    if decryptedLen < PLAINTEXT_HEADER {
      return None;
    }
    var timestamp := FromLe32(scratch[0], scratch[1], scratch[2], scratch[3]);
    var txType := scratch[4];
    assert scratch[..decryptedLen][PLAINTEXT_HEADER..] == scratch[PLAINTEXT_HEADER..decryptedLen];
    var msgBytes := scratch[PLAINTEXT_HEADER..decryptedLen];
    var msgLen := LengthWithoutZeros(msgBytes);
    if !Utf8.Valid(msgBytes[..msgLen]) {
      return None;
    }
    return Some(Decoded(timestamp, txType, msgBytes[..msgLen]));
  }

  method LengthWithoutZeros(s: seq<u8>) returns (n: nat)
    ensures n <= |s| && s[..n] == Utf8.Stripped(s)
  {
    n := |s|;
    assert s[..n] == s;
    while n > 0 && s[n - 1] == 0
      invariant 0 <= n <= |s|
      invariant Utf8.Stripped(s[..n]) == Utf8.Stripped(s)
    {
      assert s[..n][..n - 1] == s[..n - 1];
      n := n - 1;
    }
  }
}
