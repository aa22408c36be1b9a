/**
  SHA-256 of a whole message, as sections 4 to 6 of FIPS 180-4 define it.
 */
module Sha256 {
  import opened Bytes
  import opened Primes

  const TWO32: nat := 0x1_0000_0000

  // Constants: section 4.2.2 and section 5.3.3

  function RoundConstant(t: nat): word {
    if t < 16 then FirstConstants(t)
    else if t < 32 then SecondConstants(t)
    else if t < 48 then ThirdConstants(t)
    else FourthConstants(t)
  }

  function FirstConstants(t: nat): word {
    match t
    case 0 => 0x428a2f98 case 1 => 0x71374491 case 2 => 0xb5c0fbcf case 3 => 0xe9b5dba5
    case 4 => 0x3956c25b case 5 => 0x59f111f1 case 6 => 0x923f82a4 case 7 => 0xab1c5ed5
    case 8 => 0xd807aa98 case 9 => 0x12835b01 case 10 => 0x243185be case 11 => 0x550c7dc3
    case 12 => 0x72be5d74 case 13 => 0x80deb1fe case 14 => 0x9bdc06a7 case 15 => 0xc19bf174
    case _ => 0
  }

  function SecondConstants(t: nat): word {
    match t
    case 16 => 0xe49b69c1 case 17 => 0xefbe4786 case 18 => 0x0fc19dc6 case 19 => 0x240ca1cc
    case 20 => 0x2de92c6f case 21 => 0x4a7484aa case 22 => 0x5cb0a9dc case 23 => 0x76f988da
    case 24 => 0x983e5152 case 25 => 0xa831c66d case 26 => 0xb00327c8 case 27 => 0xbf597fc7
    case 28 => 0xc6e00bf3 case 29 => 0xd5a79147 case 30 => 0x06ca6351 case 31 => 0x14292967
    case _ => 0
  }

  function ThirdConstants(t: nat): word {
    match t
    case 32 => 0x27b70a85 case 33 => 0x2e1b2138 case 34 => 0x4d2c6dfc case 35 => 0x53380d13
    case 36 => 0x650a7354 case 37 => 0x766a0abb case 38 => 0x81c2c92e case 39 => 0x92722c85
    case 40 => 0xa2bfe8a1 case 41 => 0xa81a664b case 42 => 0xc24b8b70 case 43 => 0xc76c51a3
    case 44 => 0xd192e819 case 45 => 0xd6990624 case 46 => 0xf40e3585 case 47 => 0x106aa070
    case _ => 0
  }

  function FourthConstants(t: nat): word {
    match t
    case 48 => 0x19a4c116 case 49 => 0x1e376c08 case 50 => 0x2748774c case 51 => 0x34b0bcb5
    case 52 => 0x391c0cb3 case 53 => 0x4ed8aa4a case 54 => 0x5b9cca4f case 55 => 0x682e6ff3
    case 56 => 0x748f82ee case 57 => 0x78a5636f case 58 => 0x84c87814 case 59 => 0x8cc70208
    case 60 => 0x90befffa case 61 => 0xa4506ceb case 62 => 0xbef9a3f7 case 63 => 0xc67178f2
    case _ => 0
  }

  function InitialWord(t: nat): word {
    match t
    case 0 => 0x6a09e667 case 1 => 0xbb67ae85 case 2 => 0x3c6ef372 case 3 => 0xa54ff53a
    case 4 => 0x510e527f case 5 => 0x9b05688c case 6 => 0x1f83d9ab case 7 => 0x5be0cd19
    case _ => 0
  }

  /** `k` is the first 32 bits of the fractional part of the cube root of `p`. */
  predicate IsCubeRootFraction(p: nat, k: nat) {
    && k < TWO32
    && var x := WholeCubeRoot(p) * TWO32 + k;
       x * x * x <= p * TWO32 * TWO32 * TWO32 < (x + 1) * (x + 1) * (x + 1)
  }

  function WholeCubeRoot(p: nat): nat {
    if p < 8 then 1 else if p < 27 then 2 else if p < 64 then 3 else if p < 125 then 4 else if p < 216 then 5 else 6
  }

  /** `k` is the first 32 bits of the fractional part of the square root of `p`. */
  predicate IsSquareRootFraction(p: nat, k: nat) {
    && k < TWO32
    && var x := WholeSquareRoot(p) * TWO32 + k;
       x * x <= p * TWO32 * TWO32 < (x + 1) * (x + 1)
  }

  function WholeSquareRoot(p: nat): nat {
    if p < 4 then 1 else if p < 9 then 2 else if p < 16 then 3 else 4
  }

  /** The table of round constants is what the standard says it is. */
  lemma RoundConstantsAreCubeRoots(t: nat)
    requires t < 64
    ensures IsCubeRootFraction(Prime(t), RoundConstant(t))
  {
  }

  lemma InitialWordsAreSquareRoots(t: nat)
    requires t < 8
    ensures IsSquareRootFraction(Prime(t), InitialWord(t))
  {
  }

  // Operations on 32-bit words: section 3.2 and section 4.1.2

  datatype BitOp = And | Or | Xor

  function OnBits(op: BitOp, x: nat, y: nat): nat
    requires x < 2 && y < 2
  {
    match op
    case And => x * y
    case Or => if x + y == 0 then 0 else 1
    case Xor => (x + y) % 2
  }

  /** The operation on the `n` low bits of both numbers. */
  function Bitwise(op: BitOp, x: nat, y: nat, n: nat): (r: nat)
    ensures r < Pow2(n)
  {
    if n == 0 then 0 else OnBits(op, x % 2, y % 2) + 2 * Bitwise(op, x / 2, y / 2, n - 1)
  }

  function Pow2(n: nat): (p: nat)
    ensures p > 0
  {
    if n == 0 then 1 else 2 * Pow2(n - 1)
  }

  lemma Pow2Of32()
    ensures Pow2(32) == TWO32
  {
    assert Pow2(8) == 256;
    assert Pow2(16) == 256 * Pow2(8);
    assert Pow2(24) == 256 * Pow2(16);
    assert Pow2(32) == 256 * Pow2(24);
  }

  function Combine(op: BitOp, x: word, y: word): word {
    Pow2Of32();
    Bitwise(op, x, y, 32)
  }

  function Complement(x: word): word { TWO32 - 1 - x }

  function ShiftRight(x: word, count: nat): word {
    if count == 0 then x else ShiftRight(x / 2, count - 1)
  }

  function ShiftLeft(x: word, count: nat): word
    decreases count
  {
    if count == 0 then x else ShiftLeft(2 * x % TWO32, count - 1)
  }

  /** Addition modulo 2^32 */
  function Add(x: word, y: word): word {
    if x + y < TWO32 then x + y else x + y - TWO32
  }

  function RotateRight(x: word, count: nat): word
    requires 0 < count < 32
  {
    Combine(Or, ShiftRight(x, count), ShiftLeft(x, 32 - count))
  }

  function Xor3(x: word, y: word, z: word): word { Combine(Xor, Combine(Xor, x, y), z) }

  function Choose(x: word, y: word, z: word): word {
    Combine(Xor, Combine(And, x, y), Combine(And, Complement(x), z))
  }

  function Majority(x: word, y: word, z: word): word {
    Xor3(Combine(And, x, y), Combine(And, x, z), Combine(And, y, z))
  }

  function BigSigma0(x: word): word { Xor3(RotateRight(x, 2), RotateRight(x, 13), RotateRight(x, 22)) }

  function BigSigma1(x: word): word { Xor3(RotateRight(x, 6), RotateRight(x, 11), RotateRight(x, 25)) }

  function SmallSigma0(x: word): word { Xor3(RotateRight(x, 7), RotateRight(x, 18), ShiftRight(x, 3)) }

  function SmallSigma1(x: word): word { Xor3(RotateRight(x, 17), RotateRight(x, 19), ShiftRight(x, 10)) }

  /** Four bytes, most significant first. */
  function WordOf(b0: byte, b1: byte, b2: byte, b3: byte): word {
    0x100_0000 * b0 + 0x1_0000 * b1 + 0x100 * b2 + b3
  }

  /** Byte `k` of a word, most significant first. */
  function ByteOf(w: word, k: nat): byte
    requires k < 4
  {
    w / Pow256(3 - k) % 256
  }

  // Padding: section 5.1.1

  /** The number of zero bytes: the least that makes the padded length a multiple of 64 bytes. */
  function ZeroCount(length: nat): nat {
    (119 - length % 64) % 64
  }

  lemma ZeroCountIsLeast(length: nat, other: nat)
    requires (length + 1 + other + 8) % 64 == 0
    ensures (length + 1 + ZeroCount(length) + 8) % 64 == 0
    ensures ZeroCount(length) <= other
  {
    var q, r := length / 64, length % 64;
    assert length == 64 * q + r;
    assert ZeroCount(length) == if r <= 55 then 55 - r else 119 - r;
    var m := (length + 1 + other + 8) / 64 - q;
    assert r + 9 + other == 64 * m;
    assert length + 9 + ZeroCount(length) == 64 * (q + if r <= 55 then 1 else 2);
  }

  function Zeros(n: nat): seq<byte> {
    seq(n, i => 0)
  }

  function LengthByte(n: nat, k: nat): byte
    requires k < 8
  {
    n / Pow256(k) % 256
  }

  function Pow256(k: nat): (p: nat)
    ensures p > 0
  {
    if k == 0 then 1 else 256 * Pow256(k - 1)
  }

  /** The message length in bits as a 64-bit number, most significant byte first. */
  function LengthBytes(bits: nat): (s: seq<byte>)
    ensures |s| == 8
  {
    seq(8, i requires 0 <= i < 8 => LengthByte(bits, 7 - i))
  }

  function Pad(message: seq<byte>): (padded: seq<byte>)
    ensures |padded| % 64 == 0 && message <= padded
  {
    message + [0x80] + Zeros(ZeroCount(|message|)) + LengthBytes(8 * |message|)
  }

  // Hash computation: section 6.2.2

  datatype Hash = Hash(a: word, b: word, c: word, d: word, e: word, f: word, g: word, h: word)

  function Schedule(block: seq<byte>, t: nat): word
    requires |block| == 64 && t < 64
  {
    if t < 16 then WordOf(block[4 * t], block[4 * t + 1], block[4 * t + 2], block[4 * t + 3])
    else Add(Add(Add(SmallSigma1(Schedule(block, t - 2)), Schedule(block, t - 7)),
                 SmallSigma0(Schedule(block, t - 15))), Schedule(block, t - 16))
  }

  function Round(s: Hash, k: word, w: word): Hash {
    var t1 := Add(Add(Add(Add(s.h, BigSigma1(s.e)), Choose(s.e, s.f, s.g)), k), w);
    var t2 := Add(BigSigma0(s.a), Majority(s.a, s.b, s.c));
    Hash(Add(t1, t2), s.a, s.b, s.c, Add(s.d, t1), s.e, s.f, s.g)
  }

  function Rounds(s: Hash, block: seq<byte>, t: nat): Hash
    requires |block| == 64 && t <= 64
  {
    if t == 0 then s else Round(Rounds(s, block, t - 1), RoundConstant(t - 1), Schedule(block, t - 1))
  }

  function Compress(s: Hash, block: seq<byte>): Hash
    requires |block| == 64
  {
    var r := Rounds(s, block, 64);
    Hash(Add(s.a, r.a), Add(s.b, r.b), Add(s.c, r.c), Add(s.d, r.d),
         Add(s.e, r.e), Add(s.f, r.f), Add(s.g, r.g), Add(s.h, r.h))
  }

  function Initial(): Hash {
    Hash(InitialWord(0), InitialWord(1), InitialWord(2), InitialWord(3),
         InitialWord(4), InitialWord(5), InitialWord(6), InitialWord(7))
  }

  function CompressAll(blocks: seq<byte>): Hash
    requires |blocks| % 64 == 0
    decreases |blocks|
  {
    if blocks == [] then Initial()
    else Compress(CompressAll(blocks[..|blocks| - 64]), blocks[|blocks| - 64..])
  }

  function WordAt(s: Hash, i: nat): word
    requires i < 8
  {
    match i
    case 0 => s.a case 1 => s.b case 2 => s.c case 3 => s.d
    case 4 => s.e case 5 => s.f case 6 => s.g case 7 => s.h
  }

  function Digest(s: Hash): (d: seq<byte>)
    ensures |d| == 32
  {
    seq(32, i requires 0 <= i < 32 => ByteOf(WordAt(s, i / 4), i % 4))
  }

  function MessageDigest(message: seq<byte>): seq<byte> {
    Digest(CompressAll(Pad(message)))
  }

  lemma DigestLength(message: seq<byte>)
    ensures |MessageDigest(message)| == 32
  {
    hide CompressAll, Pad, ByteOf, WordAt;
  }
}
