// SHA-1 as FIPS 180-4 defines it: the message is padded whole, cut into blocks of 64 bytes,
// and the compression function folded over them.
module Sha1Model {
  import Bytes

  type Byte = bv8
  type Word = bv32

  const BLOCK: int := 64

  datatype Hash = Hash(a: Word, b: Word, c: Word, d: Word, e: Word)

  // Section 5.3.1.
  const INITIAL: Hash := Hash(0x67452301, 0xEFCDAB89, 0x98BADCFE, 0x10325476, 0xC3D2E1F0)

  function RotL(x: Word, n: nat): Word
    requires n <= 32
  {
    (x << n) | (x >> (32 - n))
  }

  function BigEndian(b0: Byte, b1: Byte, b2: Byte, b3: Byte): Word {
    (b0 as Word << 24) | (b1 as Word << 16) | (b2 as Word << 8) | (b3 as Word)
  }

  // Section 4.1.1.
  function Ch(x: Word, y: Word, z: Word): Word { (x & y) ^ (!x & z) }
  function Parity(x: Word, y: Word, z: Word): Word { x ^ y ^ z }
  function Maj(x: Word, y: Word, z: Word): Word { (x & y) ^ (x & z) ^ (y & z) }

  function F(t: nat, x: Word, y: Word, z: Word): Word {
    if t < 20 then Ch(x, y, z) else if t < 40 then Parity(x, y, z) else if t < 60 then Maj(x, y, z) else Parity(x, y, z)
  }

  // Section 4.2.1.
  function K(t: nat): Word {
    if t < 20 then 0x5A827999 else if t < 40 then 0x6ED9EBA1 else if t < 60 then 0x8F1BBCDC else 0xCA62C1D6
  }

  // Section 6.1.2, step 1.
  function W(block: seq<Byte>, t: nat): Word
    requires |block| == BLOCK
  {
    if t < 16 then BigEndian(block[4 * t], block[4 * t + 1], block[4 * t + 2], block[4 * t + 3])
    else Scheduled(W(block, t - 3), W(block, t - 8), W(block, t - 14), W(block, t - 16))
  }

  function Scheduled(w3: Word, w8: Word, w14: Word, w16: Word): Word { RotL(w3 ^ w8 ^ w14 ^ w16, 1) }

  // Step 3, once.
  function Round(v: Hash, t: nat, w: Word): Hash {
    Hash(Sum(v.a, F(t, v.b, v.c, v.d), v.e, K(t), w), v.a, RotL(v.b, 30), v.c, v.d)
  }

  function Sum(a: Word, f: Word, e: Word, k: Word, w: Word): Word { RotL(a, 5) + f + e + k + w }

  function Rounds(v: Hash, block: seq<Byte>, n: nat): Hash
    requires |block| == BLOCK
  {
    if n == 0 then v else Round(Rounds(v, block, n - 1), n - 1, W(block, n - 1))
  }

  // Step 4.
  function Plus(h: Hash, v: Hash): Hash { Hash(h.a + v.a, h.b + v.b, h.c + v.c, h.d + v.d, h.e + v.e) }

  function Compressed(h: Hash, block: seq<Byte>): Hash
    requires |block| == BLOCK
  {
    Plus(h, Rounds(h, block, 80))
  }

  // The fold over whole blocks.
  function Folded(h: Hash, m: seq<Byte>): Hash
    requires |m| % BLOCK == 0
  {
    if m == [] then h else Compressed(Folded(h, m[..|m| - BLOCK]), m[|m| - BLOCK..])
  }

  // ---- padding, section 5.1.1 ----

  function LengthByte(bits: nat, i: nat): Byte
    requires i < 8
  {
    ((bits / Bytes.Power256(7 - i)) % 256) as Byte
  }

  function LengthField(bits: nat): (f: seq<Byte>)
    ensures |f| == 8
  {
    seq(8, i requires 0 <= i < 8 => LengthByte(bits, i))
  }

  function Zeros(n: nat): seq<Byte> { seq(n, _ => 0) }

  // As many zeros as bring the length, with the eight bytes still to come, to whole blocks.
  function ZeroCount(length: nat): nat { (55 - length) % BLOCK }

  function Padded(m: seq<Byte>): (p: seq<Byte>)
    ensures |p| % BLOCK == 0
  {
    m + [0x80] + Zeros(ZeroCount(|m|)) + LengthField(8 * |m| % Bytes.WRAP64)
  }

  function ByteOf(w: Word, i: nat): Byte
    requires i < 4
  {
    ((w >> (24 - 8 * i)) & 0xFF) as Byte
  }

  function WordBytes(w: Word): seq<Byte> { [ByteOf(w, 0), ByteOf(w, 1), ByteOf(w, 2), ByteOf(w, 3)] }

  function HashBytes(h: Hash): seq<Byte> {
    WordBytes(h.a) + WordBytes(h.b) + WordBytes(h.c) + WordBytes(h.d) + WordBytes(h.e)
  }

  function Digest(m: seq<Byte>): seq<Byte> { HashBytes(Folded(INITIAL, Padded(m))) }

  // ---- the or-forms ----

  lemma ChOr(b: Word, c: Word, d: Word)
    ensures (b & c) | (!b & d) == Ch(b, c, d)
  {
  }

  lemma MajOr(b: Word, c: Word, d: Word)
    ensures (b & c) | (b & d) | (c & d) == Maj(b, c, d)
  {
  }
}
