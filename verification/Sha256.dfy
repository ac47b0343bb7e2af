/**
 SHA-256 and its HMAC put together: the word functions of FIPS 180-4, the padding, the two entry points
 (firmware/chaski/components/pututu/hmac_sha256.cpp).
 */
module Sha256 {
  import opened Crc
  import opened Wire
  import opened Compression
  import opened Streaming

  // ---------------------------------------------------------------- the words

  function BigSigma0(x: bv32): bv32 { x.RotateRight(2) ^ x.RotateRight(13) ^ x.RotateRight(22) }
  function BigSigma1(x: bv32): bv32 { x.RotateRight(6) ^ x.RotateRight(11) ^ x.RotateRight(25) }
  function SmallSigma0(x: bv32): bv32 { x.RotateRight(7) ^ x.RotateRight(18) ^ (x >> 3) }
  function SmallSigma1(x: bv32): bv32 { x.RotateRight(17) ^ x.RotateRight(19) ^ (x >> 10) }
  function Ch(x: bv32, y: bv32, z: bv32): bv32 { (x & y) ^ (!x & z) }
  function Maj(x: bv32, y: bv32, z: bv32): bv32 { (x & y) ^ (x & z) ^ (y & z) }
  function Add(x: bv32, y: bv32): bv32 { x + y }

  function Load(p: seq<Byte>): bv32
  {
    if |p| == 4 then GetU32(p) else 0
  }

  function Extend(w2: bv32, w7: bv32, w15: bv32, w16: bv32): bv32
  {
    w16 + SmallSigma0(w15) + w7 + SmallSigma1(w2)
  }

  function T1(v: Vars<bv32>, k: bv32, w: bv32): bv32
  {
    v.h + BigSigma1(v.e) + Ch(v.e, v.f, v.g) + k + w
  }

  function T2(v: Vars<bv32>): bv32
  {
    BigSigma0(v.a) + Maj(v.a, v.b, v.c)
  }

  const K: seq<bv32> := [
    0x428a2f98, 0x71374491, 0xb5c0fbcf, 0xe9b5dba5, 0x3956c25b, 0x59f111f1, 0x923f82a4, 0xab1c5ed5,
    0xd807aa98, 0x12835b01, 0x243185be, 0x550c7dc3, 0x72be5d74, 0x80deb1fe, 0x9bdc06a7, 0xc19bf174,
    0xe49b69c1, 0xefbe4786, 0x0fc19dc6, 0x240ca1cc, 0x2de92c6f, 0x4a7484aa, 0x5cb0a9dc, 0x76f988da,
    0x983e5152, 0xa831c66d, 0xb00327c8, 0xbf597fc7, 0xc6e00bf3, 0xd5a79147, 0x06ca6351, 0x14292967,
    0x27b70a85, 0x2e1b2138, 0x4d2c6dfc, 0x53380d13, 0x650a7354, 0x766a0abb, 0x81c2c92e, 0x92722c85,
    0xa2bfe8a1, 0xa81a664b, 0xc24b8b70, 0xc76c51a3, 0xd192e819, 0xd6990624, 0xf40e3585, 0x106aa070,
    0x19a4c116, 0x1e376c08, 0x2748774c, 0x34b0bcb5, 0x391c0cb3, 0x4ed8aa4a, 0x5b9cca4f, 0x682e6ff3,
    0x748f82ee, 0x78a5636f, 0x84c87814, 0x8cc70208, 0x90befffa, 0xa4506ceb, 0xbef9a3f7, 0xc67178f2]

  const H0: Vars<bv32> := Vars(0x6a09e667, 0xbb67ae85, 0x3c6ef372, 0xa54ff53a, 0x510e527f, 0x9b05688c, 0x1f83d9ab, 0x5be0cd19)

  const OPS: Ops<bv32, Byte> := Ops(Load, Extend, T1, T2, Add, K)

  function CompressBlock(h: Vars<bv32>, p: seq<Byte>): Vars<bv32>
  {
    Compressed(OPS, h, p)
  }

  function Out(h: Vars<bv32>): (s: seq<Byte>)
    ensures |s| == 32
  {
    PutU32(h.a) + PutU32(h.b) + PutU32(h.c) + PutU32(h.d) + PutU32(h.e) + PutU32(h.f) + PutU32(h.g) + PutU32(h.h)
  }

  // ---------------------------------------------------------------- the padding

  /** Eight digits to the base 256, most significant first. */
  function PutEight<B>(byte: nat -> B, n: nat, count: nat): (s: seq<B>)
    ensures |s| == count
  {
    if count == 0 then [] else PutEight(byte, n / 256, count - 1) + [byte(n % 256)]
  }

  /** The number of bits of `n` bytes, in sixty-four bits. */
  function BitLength<B>(byte: nat -> B, n: nat): (s: seq<B>)
    ensures |s| == 8
  {
    PutEight(byte, n * 8 % WORD64, 8)
  }

  lemma BitsWrap(n: nat)
    ensures n % WORD64 * 8 % WORD64 == n * 8 % WORD64
  {
    var q := n / WORD64;
    assert n * 8 == n % WORD64 * 8 + q * 8 * WORD64;
    Drop(n % WORD64 * 8, q * 8);
  }

  lemma Drop(a: nat, q: nat)
    ensures (a + q * WORD64) % WORD64 == a % WORD64
  {
  }

  function MakePadding<B>(marker: B, zero: B, byte: nat -> B): Padding<B>
  {
    Padding(marker, zero, (n: nat) => BitLength(byte, n))
  }

  lemma MakePaddingLawful<B>(marker: B, zero: B, byte: nat -> B)
    ensures Lawful(MakePadding(marker, zero, byte))
  {
    forall n: nat
      ensures BitLength(byte, n % WORD64) == BitLength(byte, n)
    {
      BitsWrap(n);
    }
  }

  const PAD: Padding<Byte> := MakePadding(0x80, 0, ToByte)

  const SHA256: Hash<Vars<bv32>, Byte> := Hash(CompressBlock, H0, PAD, Out)

  function Xor(a: Byte, b: Byte): Byte { a ^ b }

  const KEYING: Keying<Byte> := Keying(Xor, 0x36, 0x5c)

  // ---------------------------------------------------------------- the two entry points

  lemma ShaIsLawful()
    ensures Lawful(SHA256.pad)
  {
    MakePaddingLawful<Byte>(0x80, 0, ToByte);
  }

  ghost function Sha256Of(msg: seq<Byte>): seq<Byte>
  {
    ShaIsLawful();
    Digest(SHA256, msg)
  }

  ghost function HmacSha256Of(key: seq<Byte>, text: seq<Byte>): seq<Byte>
  {
    ShaIsLawful();
    Hmac(SHA256, KEYING, key, text)
  }

  /** hmac_sha256.cpp:122-126: the fold of the compression over the padded message, however it was split. */
  method ComputeSha256(parts: seq<seq<Byte>>) returns (d: seq<Byte>)
    ensures d == Sha256Of(Concat(parts))
  {
    ShaIsLawful();
    d := Compute(SHA256, parts);
  }

  /** hmac_sha256.cpp:128-157. */
  method ComputeHmacSha256(key: seq<Byte>, text: seq<Byte>) returns (d: seq<Byte>)
    ensures d == HmacSha256Of(key, text)
  {
    ShaIsLawful();
    d := ComputeHmac(SHA256, KEYING, key, text);
  }
}
