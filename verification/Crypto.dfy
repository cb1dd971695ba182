/** Encrypt-then-MAC over an abstract block cipher and keyed hash: ECB mode as in section 6.1 of
    NIST SP 800-38A, with zero padding, and a MAC truncated as in section 5 of RFC 2104. */
module Crypto {
  import opened Machine

  const BLOCK_SIZE: nat := 16
  const KEY_SIZE: nat := 16
  const MAC_SIZE: nat := 2
  const SECRET_SIZE: nat := 32

  type Block = b: seq<u8> | |b| == BLOCK_SIZE witness seq(BLOCK_SIZE, _ => 0)
  type Key = k: seq<u8> | |k| == KEY_SIZE witness seq(KEY_SIZE, _ => 0)
  type Secret = s: seq<u8> | |s| == SECRET_SIZE witness seq(SECRET_SIZE, _ => 0)
  type Digest = d: seq<u8> | |d| == 32 witness seq(32, _ => 0)

  /** The primitives the code calls. */
  datatype Suite = Suite(
    encrypt: (Key, Block) -> Block,
    decrypt: (Key, Block) -> Block,
    hmac: (Secret, seq<u8>) -> Digest)

  /** Decryption undoes encryption under every key. */
  ghost predicate Inverts(c: Suite) {
    forall k: Key, b: Block :: c.decrypt(k, c.encrypt(k, b)) == b
  }

  function KeyOf(secret: Secret): Key {
    secret[..KEY_SIZE]
  }

  function Zeros(n: nat): seq<u8> {
    seq(n, _ => 0)
  }

  function NumBlocks(len: nat): nat {
    (len + BLOCK_SIZE - 1) / BLOCK_SIZE
  }

  /** The source filled up with zeros to whole blocks. */
  function Padded(src: seq<u8>): (r: seq<u8>)
    ensures |r| == NumBlocks(|src|) * BLOCK_SIZE
  {
    src + Zeros(NumBlocks(|src|) * BLOCK_SIZE - |src|)
  }

  function BlockAt(s: seq<u8>, i: nat): Block
    requires (i + 1) * BLOCK_SIZE <= |s|
  {
    s[i * BLOCK_SIZE..(i + 1) * BLOCK_SIZE]
  }

  /** The first `n` blocks of `s`, each sent through `f`. */
  function Ecb(f: Block -> Block, s: seq<u8>, n: nat): (r: seq<u8>)
    requires n * BLOCK_SIZE <= |s|
    ensures |r| == n * BLOCK_SIZE
  {
    if n == 0 then [] else Ecb(f, s, n - 1) + f(BlockAt(s, n - 1))
  }

  function Encryptor(c: Suite, secret: Secret): Block -> Block {
    (b: Block) => c.encrypt(KeyOf(secret), b)
  }

  function Decryptor(c: Suite, secret: Secret): Block -> Block {
    (b: Block) => c.decrypt(KeyOf(secret), b)
  }

  function Encrypted(c: Suite, secret: Secret, src: seq<u8>): (r: seq<u8>)
    ensures |r| == NumBlocks(|src|) * BLOCK_SIZE
  {
    Ecb(Encryptor(c, secret), Padded(src), NumBlocks(|src|))
  }

  /** Bytes after the last whole block are ignored. */
  function Decrypted(c: Suite, secret: Secret, src: seq<u8>): (r: seq<u8>)
    ensures |r| == |src| / BLOCK_SIZE * BLOCK_SIZE
  {
    Ecb(Decryptor(c, secret), src, |src| / BLOCK_SIZE)
  }

  function Mac(c: Suite, secret: Secret, data: seq<u8>): (r: seq<u8>)
    ensures |r| == MAC_SIZE
  {
    c.hmac(secret, data)[..MAC_SIZE]
  }

  /** [MAC][ciphertext] */
  function Sealed(c: Suite, secret: Secret, src: seq<u8>): seq<u8> {
    var ct := Encrypted(c, secret, src);
    Mac(c, secret, ct) + ct
  }

  function Opened(c: Suite, secret: Secret, src: seq<u8>): Option<seq<u8>> {
    if |src| < MAC_SIZE || src[..MAC_SIZE] != Mac(c, secret, src[MAC_SIZE..]) then None
    else Some(Decrypted(c, secret, src[MAC_SIZE..]))
  }

  // --- Round trips ---

  lemma {:induction false} EcbInverse(f: Block -> Block, g: Block -> Block, s: seq<u8>, n: nat, m: nat)
    requires forall b: Block :: g(f(b)) == b
    requires m <= n && n * BLOCK_SIZE <= |s|
    ensures m * BLOCK_SIZE <= |Ecb(f, s, n)|
    ensures Ecb(g, Ecb(f, s, n), m) == s[..m * BLOCK_SIZE]
  {
    if m > 0 {
      EcbInverse(f, g, s, n, m - 1);
      EcbBlock(f, s, n, m - 1);
      assert s[..m * BLOCK_SIZE] == s[..(m - 1) * BLOCK_SIZE] + BlockAt(s, m - 1);
    }
  }

  lemma {:induction false} EcbBlock(f: Block -> Block, s: seq<u8>, n: nat, i: nat)
    requires i < n && n * BLOCK_SIZE <= |s|
    ensures BlockAt(Ecb(f, s, n), i) == f(BlockAt(s, i))
  {
    if i < n - 1 {
      EcbBlock(f, s, n - 1, i);
      assert BlockAt(Ecb(f, s, n), i) == BlockAt(Ecb(f, s, n - 1), i);
    }
  }

  /** Decrypting what was encrypted gives the source, zero-padded to the next multiple of 16. */
  lemma DecryptEncrypted(c: Suite, secret: Secret, src: seq<u8>)
    requires Inverts(c)
    ensures Decrypted(c, secret, Encrypted(c, secret, src)) == Padded(src)
  {
    var n := NumBlocks(|src|);
    forall b: Block ensures Decryptor(c, secret)(Encryptor(c, secret)(b)) == b {
      assert c.decrypt(KeyOf(secret), c.encrypt(KeyOf(secret), b)) == b;
    }
    EcbInverse(Encryptor(c, secret), Decryptor(c, secret), Padded(src), n, n);
    assert |Encrypted(c, secret, src)| / BLOCK_SIZE == n;
    assert Padded(src)[..n * BLOCK_SIZE] == Padded(src);
  }

  /** The padding is minimal, all zeros, and a whole number of blocks gets none. */
  lemma PaddingIsMinimal(src: seq<u8>)
    ensures src <= Padded(src) && |Padded(src)| % BLOCK_SIZE == 0
    ensures forall i | |src| <= i < |Padded(src)| :: Padded(src)[i] == 0
    ensures |Padded(src)| < |src| + BLOCK_SIZE
    ensures |src| % BLOCK_SIZE == 0 <==> Padded(src) == src
  {}

  lemma OpenSealed(c: Suite, secret: Secret, src: seq<u8>)
    requires Inverts(c)
    ensures Opened(c, secret, Sealed(c, secret, src)) == Some(Padded(src))
  {
    var s := Sealed(c, secret, src);
    assert s[MAC_SIZE..] == Encrypted(c, secret, src);
    assert s[..MAC_SIZE] == Mac(c, secret, s[MAC_SIZE..]);
    DecryptEncrypted(c, secret, src);
  }

  // --- What the bytes are ---

  /** Byte block `i` of a message; the cipher and the hash are called with nothing else. */
  function Chunk(s: seq<u8>, i: nat): seq<u8>
    requires 16 * i + 16 <= |s|
  {
    s[16 * i..16 * i + 16]
  }

  /** Every block of the ciphertext is one block of the padded source under the first half of the secret. */
  lemma EncryptedBlock(c: Suite, secret: Secret, src: seq<u8>, i: nat)
    requires 16 * i < |src|
    ensures 16 * i + 16 <= |Encrypted(c, secret, src)| == |Padded(src)| < |src| + 16
    ensures Chunk(Encrypted(c, secret, src), i) == c.encrypt(secret[..16], Chunk(Padded(src), i))
  {
    var n := NumBlocks(|src|);
    EcbBlock(Encryptor(c, secret), Padded(src), n, i);
    assert BlockAt(Encrypted(c, secret, src), i) == Chunk(Encrypted(c, secret, src), i);
    assert BlockAt(Padded(src), i) == Chunk(Padded(src), i) && KeyOf(secret) == secret[..16];
  }

  /** Every whole block is decrypted the same way, and an incomplete one is dropped. */
  lemma DecryptedBlock(c: Suite, secret: Secret, src: seq<u8>, i: nat)
    requires 16 * i + 16 <= |src|
    ensures 16 * i + 16 <= |Decrypted(c, secret, src)| <= |src| < |Decrypted(c, secret, src)| + 16
    ensures Chunk(Decrypted(c, secret, src), i) == c.decrypt(secret[..16], Chunk(src, i))
  {
    EcbBlock(Decryptor(c, secret), src, |src| / BLOCK_SIZE, i);
    assert BlockAt(Decrypted(c, secret, src), i) == Chunk(Decrypted(c, secret, src), i);
    assert BlockAt(src, i) == Chunk(src, i) && KeyOf(secret) == secret[..16];
  }

  /** A message opens exactly when its first two bytes are those of the keyed hash of all others. */
  lemma OpensIff(c: Suite, secret: Secret, src: seq<u8>)
    ensures Opened(c, secret, src).Some? <==> |src| >= 2 && src[..2] == c.hmac(secret, src[2..])[..2]
    ensures Opened(c, secret, src).Some? ==> Opened(c, secret, src).value == Decrypted(c, secret, src[2..])
  {}

  /** A sealed message starts with the first two bytes of the keyed hash of its ciphertext. */
  lemma SealedLayout(c: Suite, secret: Secret, src: seq<u8>)
    ensures |Sealed(c, secret, src)| == 2 + |Encrypted(c, secret, src)|
    ensures Sealed(c, secret, src)[2..] == Encrypted(c, secret, src)
    ensures Sealed(c, secret, src)[..2] == c.hmac(secret, Encrypted(c, secret, src))[..2]
  {}

  /** With any other two bytes in front, a sealed message is refused. */
  lemma WrongMacIsRefused(c: Suite, secret: Secret, src: seq<u8>, mac: seq<u8>)
    requires |mac| == 2
    ensures Opened(c, secret, mac + Sealed(c, secret, src)[2..]).Some? <==> mac == Sealed(c, secret, src)[..2]
  {
    var s := mac + Sealed(c, secret, src)[2..];
    SealedLayout(c, secret, src);
    OpensIff(c, secret, s);
    assert s[..2] == mac && s[2..] == Encrypted(c, secret, src);
  }

  // --- The loops over buffers ---

  lemma PaddedBlock(src: seq<u8>, i: nat)
    requires i < NumBlocks(|src|)
    ensures var n := Min(BLOCK_SIZE, |src| - i * BLOCK_SIZE);
      && 0 <= n <= BLOCK_SIZE && i * BLOCK_SIZE + n <= |src|
      && src[i * BLOCK_SIZE..i * BLOCK_SIZE + n] + Zeros(BLOCK_SIZE - n) == BlockAt(Padded(src), i)
  {}

  /** Encrypts into the part of `dest` that starts at `at`; too small a destination is an error. */
  method AesEncrypt(c: Suite, secret: Secret, dest: array<u8>, at: nat, src: seq<u8>) returns (outLen: nat)
    requires at + NumBlocks(|src|) * BLOCK_SIZE <= dest.Length
    modifies dest
    ensures outLen == NumBlocks(|src|) * BLOCK_SIZE
    ensures dest[at..at + outLen] == Encrypted(c, secret, src)
    ensures dest[..at] == old(dest[..at]) && dest[at + outLen..] == old(dest[at + outLen..])
  {
    hide Encryptor, Zeros;
    var numBlocks := NumBlocks(|src|);
    outLen := numBlocks * BLOCK_SIZE;
    for i := 0 to numBlocks
      invariant dest[at..at + i * BLOCK_SIZE] == Ecb(Encryptor(c, secret), Padded(src), i)
      invariant forall k | 0 <= k < at || at + outLen <= k < dest.Length :: dest[k] == old(dest[k])
    {
      hide NumBlocks, BlockAt;
      var srcStart := i * BLOCK_SIZE;
      var copyLen := Min(BLOCK_SIZE, |src| - srcStart);
      var block := src[srcStart..srcStart + copyLen] + Zeros(BLOCK_SIZE - copyLen);
      PaddedBlock(src, i);
      EncryptBlock(c, secret, dest, at, at + srcStart, block);
    }
  }

  /** Appends one ciphertext block, at `start`, to those from `at` on. */
  method EncryptBlock(c: Suite, secret: Secret, dest: array<u8>, ghost at: nat, start: nat, block: Block)
    requires at <= start && start + BLOCK_SIZE <= dest.Length
    modifies dest
    ensures dest[at..start + BLOCK_SIZE] == old(dest[at..start]) + Encryptor(c, secret)(block)
    ensures forall k | 0 <= k < start || start + BLOCK_SIZE <= k < dest.Length :: dest[k] == old(dest[k])
  {
    CopyFromSlice(dest, start, c.encrypt(KeyOf(secret), block));
  }

  method AesDecrypt(c: Suite, secret: Secret, dest: array<u8>, src: seq<u8>) returns (outLen: nat)
    requires |src| / BLOCK_SIZE * BLOCK_SIZE <= dest.Length
    modifies dest
    ensures outLen == |src| / BLOCK_SIZE * BLOCK_SIZE && dest[..outLen] == Decrypted(c, secret, src)
    ensures dest[outLen..] == old(dest[outLen..])
  {
    var numBlocks := |src| / BLOCK_SIZE;
    outLen := numBlocks * BLOCK_SIZE;
    for i := 0 to numBlocks
      invariant dest[..i * BLOCK_SIZE] == Ecb(Decryptor(c, secret), src, i)
      invariant dest[outLen..] == old(dest[outLen..])
    {
      var start := i * BLOCK_SIZE;
      CopyFromSlice(dest, start, c.decrypt(KeyOf(secret), BlockAt(src, i)));
      assert dest[..start + BLOCK_SIZE] == dest[..start] + dest[start..start + BLOCK_SIZE];
    }
  }

  method EncryptThenMac(c: Suite, secret: Secret, dest: array<u8>, src: seq<u8>) returns (n: nat)
    requires MAC_SIZE + NumBlocks(|src|) * BLOCK_SIZE <= dest.Length
    modifies dest
    ensures n == MAC_SIZE + NumBlocks(|src|) * BLOCK_SIZE
    ensures dest[..n] == Sealed(c, secret, src) && dest[n..] == old(dest[n..])
  {
    var encryptedLen := AesEncrypt(c, secret, dest, MAC_SIZE, src);
    n := MAC_SIZE + encryptedLen;
    var mac := Mac(c, secret, dest[MAC_SIZE..n]);
    CopyFromSlice(dest, 0, mac);
    assert dest[..n] == mac + dest[MAC_SIZE..n];
  }

  /** `dest` is only needed once the MAC matches; then it must hold the decrypted blocks. */
  method MacThenDecrypt(c: Suite, secret: Secret, dest: array<u8>, src: seq<u8>) returns (r: Option<nat>)
    requires var o := Opened(c, secret, src); o.Some? ==> |o.value| <= dest.Length
    modifies dest
    ensures r.Some? == Opened(c, secret, src).Some?
    ensures r.Some? ==> r.value <= dest.Length && dest[..r.value] == Opened(c, secret, src).value
    ensures dest[if r.Some? then r.value else 0..] == old(dest[if r.Some? then r.value else 0..])
  {
    if |src| < MAC_SIZE {
      return None;
    }
    var receivedMac := src[..MAC_SIZE];
    var ciphertext := src[MAC_SIZE..];
    if receivedMac != Mac(c, secret, ciphertext) {
      return None;
    }
    var decryptedLen := AesDecrypt(c, secret, dest, ciphertext);
    return Some(decryptedLen);
  }
}
