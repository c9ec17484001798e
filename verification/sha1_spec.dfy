/** SHA-1 as defined by FIPS 180-4 and HMAC as defined by RFC 2104. The compression is the
    one of section 6.1.2, with the 80-word message schedule and five shifting variables. */
module Sha1Spec {
  import opened Bits

  type Word = UInt32
  type Bytes = seq<Byte>

  datatype Hash = Hash(a: Word, b: Word, c: Word, d: Word, e: Word)

  // Section 3.2: operations on words.

  function Not32(x: Word): Word {
    TWO_32 - 1 - x
  }

  function RotL1(x: Word): Word {
    Or32(x * 2 % TWO_32, x / 0x8000_0000)
  }

  function RotL5(x: Word): Word {
    Or32(x * 0x20 % TWO_32, x / 0x800_0000)
  }

  function RotL30(x: Word): Word {
    Or32(x * 0x4000_0000 % TWO_32, x / 4)
  }

  // Section 4.1.1: functions.

  function Ch(x: Word, y: Word, z: Word): Word {
    Xor32(And32(x, y), And32(Not32(x), z))
  }

  function Parity(x: Word, y: Word, z: Word): Word {
    Xor32(Xor32(x, y), z)
  }

  function Maj(x: Word, y: Word, z: Word): Word {
    Xor32(Xor32(And32(x, y), And32(x, z)), And32(y, z))
  }

  function F(t: nat, x: Word, y: Word, z: Word): Word {
    if t < 20 then Ch(x, y, z)
    else if t < 40 then Parity(x, y, z)
    else if t < 60 then Maj(x, y, z)
    else Parity(x, y, z)
  }

  // Section 4.2.1: constants.

  function K(t: nat): Word {
    if t < 20 then 0x5a827999
    else if t < 40 then 0x6ed9eba1
    else if t < 60 then 0x8f1bbcdc
    else 0xca62c1d6
  }

  // Section 5.1.1: padding.

  /** The number of zero bytes: with n bytes and the byte 0x80 they leave 8 bytes of a block. */
  function ZeroBytes(n: nat): (k: nat)
    ensures (n + 1 + k) % 64 == 56
    ensures k < 64
  {
    (119 - n % 64) % 64
  }

  /** The bit 1 and the zero bits after it: no smaller number of zero bits k solves
      l + 1 + k = 448 modulo 512 for a message of l bits. */
  lemma PaddingIsMinimal(n: nat, k: nat)
    ensures (8 * n + 1 + (7 + 8 * ZeroBytes(n))) % 512 == 448
    ensures k < 7 + 8 * ZeroBytes(n) ==> (8 * n + 1 + k) % 512 != 448
  {
    hide ZeroBytes;
    ZeroBytesIs(n);
    var q, b := n / 64, n % 64;
    assert 8 * n == 512 * q + 8 * b;
    DropBlocks(q, 8 * b + 8 + 8 * ZeroBytes(n));
    DropBlocks(q, 8 * b + 1 + k);
  }

  lemma ZeroBytesIs(n: nat)
    ensures ZeroBytes(n) == if n % 64 < 56 then 55 - n % 64 else 119 - n % 64
  {
  }

  lemma DropBlocks(q: nat, x: nat)
    ensures (512 * q + x) % 512 == x % 512
  {
  }

  function Power256(k: nat): (p: nat)
    ensures p > 0
  {
    if k == 0 then 1 else 256 * Power256(k - 1)
  }

  /** The message length in bits as a 64-bit number, highest byte first. */
  function LengthField(n: nat): (s: Bytes)
    ensures |s| == 8
  {
    seq(8, i requires 0 <= i < 8 => 8 * n / Power256(7 - i) % 256)
  }

  function Padding(n: nat): (s: Bytes)
    ensures (n + |s|) % 64 == 0
  {
    [0x80] + seq(ZeroBytes(n), _ => 0) + LengthField(n)
  }

  // Section 5.2.1: a block as sixteen words, highest byte first.

  function WordOf(b0: Byte, b1: Byte, b2: Byte, b3: Byte): Word {
    b0 * 0x100_0000 + b1 * 0x1_0000 + b2 * 0x100 + b3
  }

  function BlockWord(block: Bytes, j: nat): Word
    requires |block| == 64 && j < 16
  {
    WordOf(block[4 * j], block[4 * j + 1], block[4 * j + 2], block[4 * j + 3])
  }

  // Section 6.1.2: the hash computation.

  function Schedule(block: Bytes, t: nat): Word
    requires |block| == 64
    decreases t, |block|
  {
    if t < 16 then BlockWord(block, t)
    else RotL1(Xor32(Xor32(Xor32(Schedule(block, t - 3), Schedule(block, t - 8)), Schedule(block, t - 14)),
                     Schedule(block, t - 16)))
  }

  function Round(t: nat, v: Hash, w: Word): Hash {
    Hash((RotL5(v.a) + F(t, v.b, v.c, v.d) + v.e + K(t) + w) % TWO_32, v.a, RotL30(v.b), v.c, v.d)
  }

  /** The five variables after t rounds. */
  function Rounds(block: Bytes, h: Hash, t: nat): Hash
    requires |block| == 64
    decreases t, |block|
  {
    if t == 0 then h else Round(t - 1, Rounds(block, h, t - 1), Schedule(block, t - 1))
  }

  function AddHash(h: Hash, v: Hash): Hash {
    Hash((h.a + v.a) % TWO_32, (h.b + v.b) % TWO_32, (h.c + v.c) % TWO_32, (h.d + v.d) % TWO_32, (h.e + v.e) % TWO_32)
  }

  function Compress(h: Hash, block: Bytes): Hash
    requires |block| == 64
  {
    AddHash(h, Rounds(block, h, 80))
  }

  const INITIAL := Hash(0x67452301, 0xefcdab89, 0x98badcfe, 0x10325476, 0xc3d2e1f0)

  /** The hash value after all blocks of m. */
  function HashBlocks(m: Bytes): Hash
    requires |m| % 64 == 0
  {
    if m == [] then INITIAL
    else Compress(HashBlocks(m[..|m| - 64]), m[|m| - 64..])
  }

  function WordBytes(x: Word): (s: Bytes)
    ensures |s| == 4
  {
    [x / 0x100_0000, x / 0x1_0000 % 256, x / 0x100 % 256, x % 256]
  }

  function Digest(h: Hash): (s: Bytes)
    ensures |s| == 20
  {
    WordBytes(h.a) + WordBytes(h.b) + WordBytes(h.c) + WordBytes(h.d) + WordBytes(h.e)
  }

  function Sha1(m: Bytes): (s: Bytes)
    ensures |s| == 20
  {
    Digest(HashBlocks(m + Padding(|m|)))
  }

  // RFC 2104, section 2.

  /** The key brought to the block length. */
  function BlockKey(key: Bytes): (s: Bytes)
    ensures |s| == 64
  {
    var k := if |key| > 64 then Sha1(key) else key;
    k + seq(64 - |k|, _ => 0)
  }

  function XorByte(x: Byte, y: Byte): Byte {
    Powers();
    XorBound(x, y, 8);
    Xor(x, y)
  }

  function XorPad(key: Bytes, pad: Byte): (s: Bytes)
    ensures |s| == 64
  {
    seq(64, i requires 0 <= i < 64 => XorByte(BlockKey(key)[i], pad))
  }

  function Hmac(key: Bytes, text: Bytes): Bytes {
    Sha1(XorPad(key, 0x5c) + Sha1(XorPad(key, 0x36) + text))
  }
}
