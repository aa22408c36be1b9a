/**
  The word operations of module Sha256 are those of machine words: numbers below 2^32, and the
  bit vectors that hold them, are combined, rotated and added alike.
 */
module BitVectors {
  import opened Bytes
  import opened Sha256
  import opened WordLaws

  /** Wide enough for a word and the carries of a sum. */
  type Bits = bv40

  predicate Low(b: Bits) { b & 1 == 1 }

  function Half(b: Bits): Bits { b >> 1 }

  function Digit(low: bool): (d: nat)
    ensures d < 2
  {
    if low then 1 else 0
  }

  /** The number in the `n` low bits. */
  function Num(b: Bits, n: nat): nat {
    if n == 0 then 0 else Digit(Low(b)) + 2 * Num(Half(b), n - 1)
  }

  lemma {:induction false} NumBound(b: Bits, n: nat)
    ensures Num(b, n) < Pow2(n)
  {
    if n > 0 {
      hide Half, Low, Digit;
      NumBound(Half(b), n - 1);
    }
  }

  lemma NumStep(b: Bits, n: nat)
    requires n > 0
    ensures Num(b, n) % 2 == Digit(Low(b)) && Num(b, n) / 2 == Num(Half(b), n - 1)
  {
    hide Low, Half;
    var d, m := Digit(Low(b)), Num(Half(b), n - 1);
    assert Num(b, n) == d + 2 * m;
  }

  // Bit by bit

  function Apply(op: BitOp, a: Bits, b: Bits): Bits {
    match op
    case And => a & b
    case Or => a | b
    case Xor => a ^ b
  }

  function ApplyLow(op: BitOp, a: bool, b: bool): bool {
    match op
    case And => a && b
    case Or => a || b
    case Xor => a != b
  }

  lemma AndHalves(a: Bits, b: Bits)
    ensures Half(Apply(And, a, b)) == Apply(And, Half(a), Half(b))
    ensures Low(Apply(And, a, b)) == (Low(a) && Low(b))
  {
  }

  lemma OrHalves(a: Bits, b: Bits)
    ensures Half(Apply(Or, a, b)) == Apply(Or, Half(a), Half(b))
    ensures Low(Apply(Or, a, b)) == (Low(a) || Low(b))
  {
  }

  lemma XorHalf(a: Bits, b: Bits)
    ensures Half(Apply(Xor, a, b)) == Apply(Xor, Half(a), Half(b))
  {
  }

  lemma XorLow(a: Bits, b: Bits)
    ensures Low(Apply(Xor, a, b)) == (Low(a) != Low(b))
  {
  }

  lemma ApplyHalves(op: BitOp, a: Bits, b: Bits)
    ensures Half(Apply(op, a, b)) == Apply(op, Half(a), Half(b))
    ensures Low(Apply(op, a, b)) == ApplyLow(op, Low(a), Low(b))
  {
    hide Apply, Half, Low;
    match op
    case And => AndHalves(a, b);
    case Or => OrHalves(a, b);
    case Xor =>
      XorHalf(a, b);
      XorLow(a, b);
  }

  lemma DigitApplies(op: BitOp, a: bool, b: bool)
    ensures OnBits(op, Digit(a), Digit(b)) == Digit(ApplyLow(op, a, b))
  {
  }

  lemma BitwiseStep(op: BitOp, x: nat, y: nat, n: nat)
    requires n > 0
    ensures Bitwise(op, x, y, n) == OnBits(op, x % 2, y % 2) + 2 * Bitwise(op, x / 2, y / 2, n - 1)
  {
    hide OnBits, Pow2;
  }

  /** The standard's operation on numbers is the machine's on bit vectors. */
  lemma {:induction false} NumApply(op: BitOp, a: Bits, b: Bits, n: nat)
    ensures Bitwise(op, Num(a, n), Num(b, n), n) == Num(Apply(op, a, b), n)
    decreases n
  {
    if n > 0 {
      hide OnBits, Apply, ApplyLow, Low, Half, Bitwise, Digit, Pow2;
      NumStep(a, n);
      NumStep(b, n);
      BitwiseStep(op, Num(a, n), Num(b, n), n);
      ApplyHalves(op, a, b);
      DigitApplies(op, Low(a), Low(b));
      NumApply(op, Half(a), Half(b), n - 1);
    }
  }

  // Masks

  const MASK: Bits := 0xFFFF_FFFF

  /** The `n` low bits are all set. */
  predicate HasOnes(m: Bits, n: nat) {
    n == 0 || (Low(m) && HasOnes(Half(m), n - 1))
  }

  /** Vectors that agree under such a mask hold the same number there. */
  lemma {:induction false} AgreeUnderMask(a: Bits, b: Bits, m: Bits, n: nat)
    requires HasOnes(m, n) && Apply(And, a, m) == Apply(And, b, m)
    ensures Num(a, n) == Num(b, n)
    decreases n
  {
    if n > 0 {
      hide Low, Half, Apply;
      AndHalves(a, m);
      AndHalves(b, m);
      AgreeUnderMask(Half(a), Half(b), Half(m), n - 1);
    }
  }

  lemma LowMasks()
    ensures HasOnes(0x1, 1)
    ensures HasOnes(0x3, 2)
    ensures HasOnes(0x7, 3)
    ensures HasOnes(0xf, 4)
    ensures HasOnes(0x1f, 5)
    ensures HasOnes(0x3f, 6)
    ensures HasOnes(0x7f, 7)
    ensures HasOnes(0xff, 8)
    ensures HasOnes(0x1ff, 9)
    ensures HasOnes(0x3ff, 10)
    ensures HasOnes(0x7ff, 11)
    ensures HasOnes(0xfff, 12)
    ensures HasOnes(0x1fff, 13)
    ensures HasOnes(0x3fff, 14)
    ensures HasOnes(0x7fff, 15)
    ensures HasOnes(0xffff, 16)
  {
    assert HasOnes(0x1, 1);
    assert HasOnes(0x3, 2);
    assert HasOnes(0x7, 3);
    assert HasOnes(0xf, 4);
    assert HasOnes(0x1f, 5);
    assert HasOnes(0x3f, 6);
    assert HasOnes(0x7f, 7);
    assert HasOnes(0xff, 8);
    assert HasOnes(0x1ff, 9);
    assert HasOnes(0x3ff, 10);
    assert HasOnes(0x7ff, 11);
    assert HasOnes(0xfff, 12);
    assert HasOnes(0x1fff, 13);
    assert HasOnes(0x3fff, 14);
    assert HasOnes(0x7fff, 15);
    assert HasOnes(0xffff, 16);
  }

  lemma HighMasks()
    ensures HasOnes(0x1ffff, 17)
    ensures HasOnes(0x3ffff, 18)
    ensures HasOnes(0x7ffff, 19)
    ensures HasOnes(0xfffff, 20)
    ensures HasOnes(0x1fffff, 21)
    ensures HasOnes(0x3fffff, 22)
    ensures HasOnes(0x7fffff, 23)
    ensures HasOnes(0xffffff, 24)
    ensures HasOnes(0x1ffffff, 25)
    ensures HasOnes(0x3ffffff, 26)
    ensures HasOnes(0x7ffffff, 27)
    ensures HasOnes(0xfffffff, 28)
    ensures HasOnes(0x1fffffff, 29)
    ensures HasOnes(0x3fffffff, 30)
    ensures HasOnes(0x7fffffff, 31)
    ensures HasOnes(0xffffffff, 32)
  {
    LowMasks();
    assert HasOnes(0x1ffff, 17);
    assert HasOnes(0x3ffff, 18);
    assert HasOnes(0x7ffff, 19);
    assert HasOnes(0xfffff, 20);
    assert HasOnes(0x1fffff, 21);
    assert HasOnes(0x3fffff, 22);
    assert HasOnes(0x7fffff, 23);
    assert HasOnes(0xffffff, 24);
    assert HasOnes(0x1ffffff, 25);
    assert HasOnes(0x3ffffff, 26);
    assert HasOnes(0x7ffffff, 27);
    assert HasOnes(0xfffffff, 28);
    assert HasOnes(0x1fffffff, 29);
    assert HasOnes(0x3fffffff, 30);
    assert HasOnes(0x7fffffff, 31);
    assert HasOnes(0xffffffff, 32);
  }

  // Shifts and rotations

  function Halves(b: Bits, k: nat): Bits {
    if k == 0 then b else Halves(Half(b), k - 1)
  }

  lemma {:induction false} HalvesAppend(b: Bits, k: nat)
    ensures Halves(b, k + 1) == Half(Halves(b, k))
    decreases k
  {
    hide Half;
    if k > 0 {
      HalvesAppend(Half(b), k - 1);
    }
  }

  lemma HalfOfShift(b: Bits)
    ensures Half(b) == b >> 1
    ensures Half(b >> 1) == b >> 2
    ensures Half(b >> 2) == b >> 3
    ensures Half(b >> 3) == b >> 4
    ensures Half(b >> 4) == b >> 5
    ensures Half(b >> 5) == b >> 6
    ensures Half(b >> 6) == b >> 7
    ensures Half(b >> 7) == b >> 8
    ensures Half(b >> 8) == b >> 9
    ensures Half(b >> 9) == b >> 10
    ensures Half(b >> 10) == b >> 11
    ensures Half(b >> 11) == b >> 12
    ensures Half(b >> 12) == b >> 13
    ensures Half(b >> 13) == b >> 14
    ensures Half(b >> 14) == b >> 15
    ensures Half(b >> 15) == b >> 16
    ensures Half(b >> 16) == b >> 17
    ensures Half(b >> 17) == b >> 18
    ensures Half(b >> 18) == b >> 19
    ensures Half(b >> 19) == b >> 20
    ensures Half(b >> 20) == b >> 21
    ensures Half(b >> 21) == b >> 22
    ensures Half(b >> 22) == b >> 23
    ensures Half(b >> 23) == b >> 24
    ensures Half(b >> 24) == b >> 25
    ensures Half(b >> 25) == b >> 26
    ensures Half(b >> 26) == b >> 27
    ensures Half(b >> 27) == b >> 28
    ensures Half(b >> 28) == b >> 29
    ensures Half(b >> 29) == b >> 30
  {
  }

  lemma AllHalves(b: Bits)
    ensures Halves(b, 1) == b >> 1
    ensures Halves(b, 2) == b >> 2
    ensures Halves(b, 3) == b >> 3
    ensures Halves(b, 4) == b >> 4
    ensures Halves(b, 5) == b >> 5
    ensures Halves(b, 6) == b >> 6
    ensures Halves(b, 7) == b >> 7
    ensures Halves(b, 8) == b >> 8
    ensures Halves(b, 10) == b >> 10
    ensures Halves(b, 11) == b >> 11
    ensures Halves(b, 13) == b >> 13
    ensures Halves(b, 14) == b >> 14
    ensures Halves(b, 15) == b >> 15
    ensures Halves(b, 16) == b >> 16
    ensures Halves(b, 17) == b >> 17
    ensures Halves(b, 18) == b >> 18
    ensures Halves(b, 19) == b >> 19
    ensures Halves(b, 21) == b >> 21
    ensures Halves(b, 22) == b >> 22
    ensures Halves(b, 24) == b >> 24
    ensures Halves(b, 25) == b >> 25
    ensures Halves(b, 26) == b >> 26
    ensures Halves(b, 29) == b >> 29
    ensures Halves(b, 30) == b >> 30
  {
    hide Half;
    HalfOfShift(b);
    assert Halves(b, 0) == b;
    hide Halves;
    HalvesAppend(b, 0);
    HalvesAppend(b, 1);
    HalvesAppend(b, 2);
    HalvesAppend(b, 3);
    HalvesAppend(b, 4);
    HalvesAppend(b, 5);
    HalvesAppend(b, 6);
    HalvesAppend(b, 7);
    HalvesAppend(b, 8);
    HalvesAppend(b, 9);
    HalvesAppend(b, 10);
    HalvesAppend(b, 11);
    HalvesAppend(b, 12);
    HalvesAppend(b, 13);
    HalvesAppend(b, 14);
    HalvesAppend(b, 15);
    HalvesAppend(b, 16);
    HalvesAppend(b, 17);
    HalvesAppend(b, 18);
    HalvesAppend(b, 19);
    HalvesAppend(b, 20);
    HalvesAppend(b, 21);
    HalvesAppend(b, 22);
    HalvesAppend(b, 23);
    HalvesAppend(b, 24);
    HalvesAppend(b, 25);
    HalvesAppend(b, 26);
    HalvesAppend(b, 27);
    HalvesAppend(b, 28);
    HalvesAppend(b, 29);
  }

  /** Of these facts, the one for `k`. */
  lemma HalvesAreShifts(b: Bits, k: nat)
    ensures k == 1 ==> Halves(b, 1) == b >> 1
    ensures k == 2 ==> Halves(b, 2) == b >> 2
    ensures k == 3 ==> Halves(b, 3) == b >> 3
    ensures k == 4 ==> Halves(b, 4) == b >> 4
    ensures k == 5 ==> Halves(b, 5) == b >> 5
    ensures k == 6 ==> Halves(b, 6) == b >> 6
    ensures k == 7 ==> Halves(b, 7) == b >> 7
    ensures k == 8 ==> Halves(b, 8) == b >> 8
    ensures k == 10 ==> Halves(b, 10) == b >> 10
    ensures k == 11 ==> Halves(b, 11) == b >> 11
    ensures k == 13 ==> Halves(b, 13) == b >> 13
    ensures k == 14 ==> Halves(b, 14) == b >> 14
    ensures k == 15 ==> Halves(b, 15) == b >> 15
    ensures k == 16 ==> Halves(b, 16) == b >> 16
    ensures k == 17 ==> Halves(b, 17) == b >> 17
    ensures k == 18 ==> Halves(b, 18) == b >> 18
    ensures k == 19 ==> Halves(b, 19) == b >> 19
    ensures k == 21 ==> Halves(b, 21) == b >> 21
    ensures k == 22 ==> Halves(b, 22) == b >> 22
    ensures k == 24 ==> Halves(b, 24) == b >> 24
    ensures k == 25 ==> Halves(b, 25) == b >> 25
    ensures k == 26 ==> Halves(b, 26) == b >> 26
    ensures k == 29 ==> Halves(b, 29) == b >> 29
    ensures k == 30 ==> Halves(b, 30) == b >> 30
  {
    hide Halves;
    AllHalves(b);
  }

  lemma {:induction false} NumSplits(b: Bits, k: nat, n: nat)
    ensures Num(b, k + n) == Num(b, k) + Pow2(k) * Num(Halves(b, k), n)
    decreases k
  {
    hide Half, Low, Digit;
    if k > 0 {
      NumSplits(Half(b), k - 1, n);
      Twice(Pow2(k - 1), Num(Halves(b, k), n));
    }
  }

  lemma {:induction false} HighOfNum(b: Bits, k: nat, n: nat)
    ensures High(Num(b, k + n), k) == Num(Halves(b, k), n) && Rest(Num(b, k + n), k) == Num(b, k)
    decreases k
  {
    hide Half, Low;
    if k > 0 {
      NumStep(b, k + n);
      NumStep(b, k);
      HighOfNum(Half(b), k - 1, n);
      assert Num(b, k + n) / 2 == Num(Half(b), k - 1 + n);
    }
  }

  /** A vector is rotated if its parts stand where they should. */
  lemma RotationOfNum(x: Bits, r: Bits, n: nat, low: Bits, high: Bits)
    requires 0 < n < 32 && HasOnes(low, n) && HasOnes(high, 32 - n)
    requires Apply(And, r, high) == Apply(And, Halves(x, n), high)
    requires Apply(And, Halves(r, 32 - n), low) == Apply(And, x, low)
    ensures Num(x, 32) < TWO32 && RotateRight(Num(x, 32), n) == Num(r, 32)
  {
    hide RotateRight, Apply, High, Rest, HasOnes, Num, Halves, Pow2;
    NumBound(x, 32);
    Pow2Of32();
    RotationMovesLowBits(Num(x, 32), n);
    HighOfNum(x, n, 32 - n);
    NumSplits(r, 32 - n, n);
    AgreeUnderMask(r, Halves(x, n), high, 32 - n);
    AgreeUnderMask(Halves(r, 32 - n), x, low, n);
  }

  lemma NumIsWord(x: Bits)
    ensures Num(x, 32) < TWO32
  {
    NumBound(x, 32);
    Pow2Of32();
  }

  lemma {:induction false} NothingIsZero(n: nat)
    ensures Num(0, n) == 0
  {
    if n > 0 {
      assert Half(0) == 0 && !Low(0);
      NothingIsZero(n - 1);
    }
  }

  lemma ShiftOfNum(x: Bits, n: nat, m: nat, y: Bits)
    requires n + m == 32 && Halves(x, n) == y && Halves(y, m) == 0
    ensures Num(x, 32) < TWO32 && ShiftRight(Num(x, 32), n) == Num(y, 32)
  {
    hide ShiftRight, High, Rest, Num, Halves, Pow2;
    NumIsWord(x);
    HighIsShift(Num(x, 32), n);
    HighOfNum(x, n, m);
    NumSplits(y, m, n);
    NothingIsZero(n);
  }

  // Vectors as numbers

  function LowBit(v: bv8): nat { if v & 1 == 1 then 1 else 0 }

  lemma ByteDigits(v: bv8)
    ensures v as int == LowBit(v) + 2 * LowBit(v >> 1) + 4 * LowBit(v >> 2) + 8 * LowBit(v >> 3)
                        + 16 * LowBit(v >> 4) + 32 * LowBit(v >> 5) + 64 * LowBit(v >> 6) + 128 * LowBit(v >> 7)
  {
  }

  function ByteAt(b: Bits): bv8 { (b & 0xFF) as bv8 }

  function ByteNumber(b: Bits): nat { ByteAt(b) as nat }

  lemma BitsOfByte(b: Bits)
    ensures LowBit(ByteAt(b)) == Digit(Low(b)) && LowBit(ByteAt(b) >> 1) == Digit(Low(b >> 1))
    ensures LowBit(ByteAt(b) >> 2) == Digit(Low(b >> 2)) && LowBit(ByteAt(b) >> 3) == Digit(Low(b >> 3))
    ensures LowBit(ByteAt(b) >> 4) == Digit(Low(b >> 4)) && LowBit(ByteAt(b) >> 5) == Digit(Low(b >> 5))
    ensures LowBit(ByteAt(b) >> 6) == Digit(Low(b >> 6)) && LowBit(ByteAt(b) >> 7) == Digit(Low(b >> 7))
  {
  }

  lemma BitsAreHalves(b: Bits)
    ensures LowBit(ByteAt(b)) == Digit(Low(Halves(b, 0))) && LowBit(ByteAt(b) >> 1) == Digit(Low(Halves(b, 1)))
    ensures LowBit(ByteAt(b) >> 2) == Digit(Low(Halves(b, 2))) && LowBit(ByteAt(b) >> 3) == Digit(Low(Halves(b, 3)))
    ensures LowBit(ByteAt(b) >> 4) == Digit(Low(Halves(b, 4))) && LowBit(ByteAt(b) >> 5) == Digit(Low(Halves(b, 5)))
    ensures LowBit(ByteAt(b) >> 6) == Digit(Low(Halves(b, 6))) && LowBit(ByteAt(b) >> 7) == Digit(Low(Halves(b, 7)))
  {
    hide Half, Low, Digit, LowBit, ByteAt;
    assert Halves(b, 0) == b;
    hide Halves;
    AllHalves(b);
    BitsOfByte(b);
  }

  /** The digits of the low byte, which the vector and its byte share. */
  lemma ByteOfDigits(b: Bits)
    ensures ByteNumber(b)
         == Digit(Low(Halves(b, 0))) + 2 * Digit(Low(Halves(b, 1))) + 4 * Digit(Low(Halves(b, 2)))
            + 8 * Digit(Low(Halves(b, 3))) + 16 * Digit(Low(Halves(b, 4))) + 32 * Digit(Low(Halves(b, 5)))
            + 64 * Digit(Low(Halves(b, 6))) + 128 * Digit(Low(Halves(b, 7)))
  {
    hide Half, Low, Digit, LowBit, ByteAt, Halves;
    BitsAreHalves(b);
    ByteDigits(ByteAt(b));
  }

  lemma {:induction false} NumGrows(b: Bits, n: nat, p: nat)
    requires p == Pow2(n)
    ensures Num(b, n + 1) == Num(b, n) + p * Digit(Low(Halves(b, n)))
  {
    hide Half, Low, Digit;
    NumSplits(b, n, 1);
    OneDigit(Halves(b, n));
  }

  lemma OneDigit(b: Bits)
    ensures Num(b, 1) == Digit(Low(b)) && Num(b, 0) == 0
  {
    hide Half, Low;
    assert Num(Half(b), 0) == 0;
  }

  lemma NumOfByte(b: Bits)
    ensures Num(b, 8) == ByteNumber(b)
  {
    OneDigit(b);
    SmallPowers();
    hide Half, Low, Digit, Num, Halves, ByteNumber, Pow2;
    NumGrows(b, 0, 1);
    NumGrows(b, 1, 2);
    NumGrows(b, 2, 4);
    NumGrows(b, 3, 8);
    NumGrows(b, 4, 16);
    NumGrows(b, 5, 32);
    NumGrows(b, 6, 64);
    NumGrows(b, 7, 128);
    ByteOfDigits(b);
  }

  lemma SmallPowers()
    ensures Pow2(0) == 1 && Pow2(1) == 2 && Pow2(2) == 4 && Pow2(3) == 8 && Pow2(4) == 16 && Pow2(5) == 32
    ensures Pow2(6) == 64 && Pow2(7) == 128 && Pow2(8) == 256
  {
  }

  /** The number in the low 32 bits, byte by byte. */
  function Value(b: Bits): nat {
    ((b & 0xFF) as bv8) as nat + 256 * (((b >> 8) & 0xFF) as bv8) as nat
    + 0x1_0000 * (((b >> 16) & 0xFF) as bv8) as nat + 0x100_0000 * (((b >> 24) & 0xFF) as bv8) as nat
  }

  lemma ValueIsBytes(b: Bits)
    ensures Value(b) == ByteNumber(b) + 256 * ByteNumber(b >> 8)
                        + 0x1_0000 * ByteNumber(b >> 16) + 0x100_0000 * ByteNumber(b >> 24)
  {
  }

  lemma NumIsValue(b: Bits)
    ensures Num(b, 32) == Value(b)
  {
    hide Num, ByteNumber, Halves, Pow2, Value;
    SmallPowers();
    ValueIsBytes(b);
    HalvesAreShifts(b, 8);
    HalvesAreShifts(b, 16);
    HalvesAreShifts(b, 24);
    HalvesAdd(b, 8, 8);
    HalvesAdd(b, 16, 8);
    NumSplits(b, 8, 24);
    NumSplits(Halves(b, 8), 8, 16);
    NumSplits(Halves(b, 16), 8, 8);
    NumOfByte(b);
    NumOfByte(Halves(b, 8));
    NumOfByte(Halves(b, 16));
    NumOfByte(Halves(b, 24));
  }

  lemma {:induction false} HalvesAdd(b: Bits, j: nat, k: nat)
    ensures Halves(b, j + k) == Halves(Halves(b, j), k)
    decreases j
  {
    hide Half;
    if j > 0 {
      HalvesAdd(Half(b), j - 1, k);
    }
  }
}
