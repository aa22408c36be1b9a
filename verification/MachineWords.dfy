/**
  The rounds of SHA-256 on machine words: the functions of section 4.1.2 of FIPS 180-4 as shifts
  and bitwise operations of bit vectors, and one step of the schedule and of the compression.
 */
module MachineWords {
  import opened Bytes
  import opened Sha256
  import opened WordLaws
  import opened BitVectors

  // Rotations

  function Turn2(x: Bits): Bits { (x >> 2) | ((x << 30) & MASK) }

  lemma Parts2(x: Bits)
    requires x <= MASK
    ensures Turn2(x) & 0x3fffffff == (x >> 2) & 0x3fffffff && (Turn2(x) >> 30) & 0x3 == x & 0x3
  {
  }

  lemma Turn2IsRotation(x: Bits)
    requires x <= MASK
    ensures Num(x, 32) < TWO32 && RotateRight(Num(x, 32), 2) == Num(Turn2(x), 32)
  {
    hide Turn2, HasOnes, RotateRight, Num, Halves;
    Parts2(x);
    HalvesAreShifts(x, 2);
    HalvesAreShifts(Turn2(x), 30);
    LowMasks();
    HighMasks();
    RotationOfNum(x, Turn2(x), 2, 0x3, 0x3fffffff);
  }

  function Turn6(x: Bits): Bits { (x >> 6) | ((x << 26) & MASK) }

  lemma Parts6(x: Bits)
    requires x <= MASK
    ensures Turn6(x) & 0x3ffffff == (x >> 6) & 0x3ffffff && (Turn6(x) >> 26) & 0x3f == x & 0x3f
  {
  }

  lemma Turn6IsRotation(x: Bits)
    requires x <= MASK
    ensures Num(x, 32) < TWO32 && RotateRight(Num(x, 32), 6) == Num(Turn6(x), 32)
  {
    hide Turn6, HasOnes, RotateRight, Num, Halves;
    Parts6(x);
    HalvesAreShifts(x, 6);
    HalvesAreShifts(Turn6(x), 26);
    LowMasks();
    HighMasks();
    RotationOfNum(x, Turn6(x), 6, 0x3f, 0x3ffffff);
  }

  function Turn7(x: Bits): Bits { (x >> 7) | ((x << 25) & MASK) }

  lemma Parts7(x: Bits)
    requires x <= MASK
    ensures Turn7(x) & 0x1ffffff == (x >> 7) & 0x1ffffff && (Turn7(x) >> 25) & 0x7f == x & 0x7f
  {
  }

  lemma Turn7IsRotation(x: Bits)
    requires x <= MASK
    ensures Num(x, 32) < TWO32 && RotateRight(Num(x, 32), 7) == Num(Turn7(x), 32)
  {
    hide Turn7, HasOnes, RotateRight, Num, Halves;
    Parts7(x);
    HalvesAreShifts(x, 7);
    HalvesAreShifts(Turn7(x), 25);
    LowMasks();
    HighMasks();
    RotationOfNum(x, Turn7(x), 7, 0x7f, 0x1ffffff);
  }

  function Turn11(x: Bits): Bits { (x >> 11) | ((x << 21) & MASK) }

  lemma Parts11(x: Bits)
    requires x <= MASK
    ensures Turn11(x) & 0x1fffff == (x >> 11) & 0x1fffff && (Turn11(x) >> 21) & 0x7ff == x & 0x7ff
  {
  }

  lemma Turn11IsRotation(x: Bits)
    requires x <= MASK
    ensures Num(x, 32) < TWO32 && RotateRight(Num(x, 32), 11) == Num(Turn11(x), 32)
  {
    hide Turn11, HasOnes, RotateRight, Num, Halves;
    Parts11(x);
    HalvesAreShifts(x, 11);
    HalvesAreShifts(Turn11(x), 21);
    LowMasks();
    HighMasks();
    RotationOfNum(x, Turn11(x), 11, 0x7ff, 0x1fffff);
  }

  function Turn13(x: Bits): Bits { (x >> 13) | ((x << 19) & MASK) }

  lemma Parts13(x: Bits)
    requires x <= MASK
    ensures Turn13(x) & 0x7ffff == (x >> 13) & 0x7ffff && (Turn13(x) >> 19) & 0x1fff == x & 0x1fff
  {
  }

  lemma Turn13IsRotation(x: Bits)
    requires x <= MASK
    ensures Num(x, 32) < TWO32 && RotateRight(Num(x, 32), 13) == Num(Turn13(x), 32)
  {
    hide Turn13, HasOnes, RotateRight, Num, Halves;
    Parts13(x);
    HalvesAreShifts(x, 13);
    HalvesAreShifts(Turn13(x), 19);
    LowMasks();
    HighMasks();
    RotationOfNum(x, Turn13(x), 13, 0x1fff, 0x7ffff);
  }

  function Turn17(x: Bits): Bits { (x >> 17) | ((x << 15) & MASK) }

  lemma Parts17(x: Bits)
    requires x <= MASK
    ensures Turn17(x) & 0x7fff == (x >> 17) & 0x7fff && (Turn17(x) >> 15) & 0x1ffff == x & 0x1ffff
  {
  }

  lemma Turn17IsRotation(x: Bits)
    requires x <= MASK
    ensures Num(x, 32) < TWO32 && RotateRight(Num(x, 32), 17) == Num(Turn17(x), 32)
  {
    hide Turn17, HasOnes, RotateRight, Num, Halves;
    Parts17(x);
    HalvesAreShifts(x, 17);
    HalvesAreShifts(Turn17(x), 15);
    LowMasks();
    HighMasks();
    RotationOfNum(x, Turn17(x), 17, 0x1ffff, 0x7fff);
  }

  function Turn18(x: Bits): Bits { (x >> 18) | ((x << 14) & MASK) }

  lemma Parts18(x: Bits)
    requires x <= MASK
    ensures Turn18(x) & 0x3fff == (x >> 18) & 0x3fff && (Turn18(x) >> 14) & 0x3ffff == x & 0x3ffff
  {
  }

  lemma Turn18IsRotation(x: Bits)
    requires x <= MASK
    ensures Num(x, 32) < TWO32 && RotateRight(Num(x, 32), 18) == Num(Turn18(x), 32)
  {
    hide Turn18, HasOnes, RotateRight, Num, Halves;
    Parts18(x);
    HalvesAreShifts(x, 18);
    HalvesAreShifts(Turn18(x), 14);
    LowMasks();
    HighMasks();
    RotationOfNum(x, Turn18(x), 18, 0x3ffff, 0x3fff);
  }

  function Turn19(x: Bits): Bits { (x >> 19) | ((x << 13) & MASK) }

  lemma Parts19(x: Bits)
    requires x <= MASK
    ensures Turn19(x) & 0x1fff == (x >> 19) & 0x1fff && (Turn19(x) >> 13) & 0x7ffff == x & 0x7ffff
  {
  }

  lemma Turn19IsRotation(x: Bits)
    requires x <= MASK
    ensures Num(x, 32) < TWO32 && RotateRight(Num(x, 32), 19) == Num(Turn19(x), 32)
  {
    hide Turn19, HasOnes, RotateRight, Num, Halves;
    Parts19(x);
    HalvesAreShifts(x, 19);
    HalvesAreShifts(Turn19(x), 13);
    LowMasks();
    HighMasks();
    RotationOfNum(x, Turn19(x), 19, 0x7ffff, 0x1fff);
  }

  function Turn22(x: Bits): Bits { (x >> 22) | ((x << 10) & MASK) }

  lemma Parts22(x: Bits)
    requires x <= MASK
    ensures Turn22(x) & 0x3ff == (x >> 22) & 0x3ff && (Turn22(x) >> 10) & 0x3fffff == x & 0x3fffff
  {
  }

  lemma Turn22IsRotation(x: Bits)
    requires x <= MASK
    ensures Num(x, 32) < TWO32 && RotateRight(Num(x, 32), 22) == Num(Turn22(x), 32)
  {
    hide Turn22, HasOnes, RotateRight, Num, Halves;
    Parts22(x);
    HalvesAreShifts(x, 22);
    HalvesAreShifts(Turn22(x), 10);
    LowMasks();
    HighMasks();
    RotationOfNum(x, Turn22(x), 22, 0x3fffff, 0x3ff);
  }

  function Turn25(x: Bits): Bits { (x >> 25) | ((x << 7) & MASK) }

  lemma Parts25(x: Bits)
    requires x <= MASK
    ensures Turn25(x) & 0x7f == (x >> 25) & 0x7f && (Turn25(x) >> 7) & 0x1ffffff == x & 0x1ffffff
  {
  }

  lemma LowPlace25(x: Bits)
    requires x <= MASK
    ensures Apply(And, Turn25(x), 0x7f) == Apply(And, Halves(x, 25), 0x7f)
  {
    hide Turn25, Halves;
    Parts25(x);
    HalvesAreShifts(x, 25);
  }

  lemma HighPlace25(x: Bits)
    requires x <= MASK
    ensures Apply(And, Halves(Turn25(x), 7), 0x1ffffff) == Apply(And, x, 0x1ffffff)
  {
    hide Turn25, Halves;
    Parts25(x);
    HalvesAreShifts(Turn25(x), 7);
  }

  lemma Turn25IsRotation(x: Bits)
    requires x <= MASK
    ensures Num(x, 32) < TWO32 && RotateRight(Num(x, 32), 25) == Num(Turn25(x), 32)
  {
    hide Turn25, HasOnes, RotateRight, Num, Halves, Apply;
    LowPlace25(x);
    HighPlace25(x);
    LowMasks();
    HighMasks();
    RotationOfNum(x, Turn25(x), 25, 0x1ffffff, 0x7f);
  }

  lemma NothingLeft(x: Bits)
    requires x <= MASK
    ensures (x >> 3) >> 29 == 0 && (x >> 10) >> 22 == 0
  {
  }

  lemma ShiftsAreDivisions(x: Bits)
    requires x <= MASK
    ensures Num(x, 32) < TWO32
    ensures ShiftRight(Num(x, 32), 3) == Num(x >> 3, 32) && ShiftRight(Num(x, 32), 10) == Num(x >> 10, 32)
  {
    hide ShiftRight, Num, Halves;
    NothingLeft(x);
    HalvesAreShifts(x, 3);
    HalvesAreShifts(x, 10);
    HalvesAreShifts(x >> 3, 29);
    HalvesAreShifts(x >> 10, 22);
    ShiftOfNum(x, 3, 29, x >> 3);
    ShiftOfNum(x, 10, 22, x >> 10);
  }

  // The functions of section 4.1.2

  function Odd(x: Bits, y: Bits): Bits { x ^ y }

  function Xors(x: Bits, y: Bits, z: Bits): Bits { Odd(Odd(x, y), z) }

  function Both(x: Bits, y: Bits): Bits { x & y }

  function Right3(x: Bits): Bits { x >> 3 }

  function Right10(x: Bits): Bits { x >> 10 }

  function Big0(x: Bits): Bits { Xors(Turn2(x), Turn13(x), Turn22(x)) }

  function Big1(x: Bits): Bits { Xors(Turn6(x), Turn11(x), Turn25(x)) }

  function Small0(x: Bits): Bits { Xors(Turn7(x), Turn18(x), Right3(x)) }

  function Small1(x: Bits): Bits { Xors(Turn17(x), Turn19(x), Right10(x)) }

  function Choice(x: Bits, y: Bits, z: Bits): Bits { (x & y) ^ ((x ^ MASK) & z) }

  function Most(x: Bits, y: Bits, z: Bits): Bits { Xors(Both(x, y), Both(x, z), Both(y, z)) }

  lemma CombineOfNum(op: BitOp, a: Bits, b: Bits)
    ensures Num(a, 32) < TWO32 && Num(b, 32) < TWO32
    ensures Combine(op, Num(a, 32), Num(b, 32)) == Num(Apply(op, a, b), 32)
  {
    hide Num, Bitwise, Apply;
    NumIsWord(a);
    NumIsWord(b);
    NumApply(op, a, b, 32);
  }

  lemma XorsOfNum(a: Bits, b: Bits, c: Bits)
    ensures Num(a, 32) < TWO32 && Num(b, 32) < TWO32 && Num(c, 32) < TWO32
    ensures Xor3(Num(a, 32), Num(b, 32), Num(c, 32)) == Num(Xors(a, b, c), 32)
  {
    hide Num, Combine, Odd;
    OddOfNum(a, b);
    OddOfNum(Odd(a, b), c);
  }

  lemma OddOfNum(a: Bits, b: Bits)
    ensures Num(a, 32) < TWO32 && Num(b, 32) < TWO32
    ensures Combine(Xor, Num(a, 32), Num(b, 32)) == Num(Odd(a, b), 32)
  {
    CombineOfNum(Xor, a, b);
    assert Apply(Xor, a, b) == Odd(a, b);
    hide Num, Combine;
  }

  lemma BothOfNum(a: Bits, b: Bits)
    ensures Num(a, 32) < TWO32 && Num(b, 32) < TWO32
    ensures Combine(And, Num(a, 32), Num(b, 32)) == Num(Both(a, b), 32)
  {
    CombineOfNum(And, a, b);
    assert Apply(And, a, b) == Both(a, b);
    hide Num, Combine;
  }

  lemma Big0OfNum(x: Bits)
    requires x <= MASK
    ensures Num(x, 32) < TWO32 && BigSigma0(Num(x, 32)) == Num(Big0(x), 32)
  {
    Turn2IsRotation(x);
    Turn13IsRotation(x);
    Turn22IsRotation(x);
    hide Num, RotateRight, Xor3, Xors, Turn2, Turn13, Turn22;
    XorsOfNum(Turn2(x), Turn13(x), Turn22(x));
  }

  lemma Big1OfNum(x: Bits)
    requires x <= MASK
    ensures Num(x, 32) < TWO32 && BigSigma1(Num(x, 32)) == Num(Big1(x), 32)
  {
    Turn6IsRotation(x);
    Turn11IsRotation(x);
    Turn25IsRotation(x);
    hide Num, RotateRight, Xor3, Xors, Turn6, Turn11, Turn25;
    XorsOfNum(Turn6(x), Turn11(x), Turn25(x));
  }

  lemma Small0OfNum(x: Bits)
    requires x <= MASK
    ensures Num(x, 32) < TWO32 && SmallSigma0(Num(x, 32)) == Num(Small0(x), 32)
  {
    Turn7IsRotation(x);
    Turn18IsRotation(x);
    ShiftsAreDivisions(x);
    hide Num, RotateRight, ShiftRight, Xor3, Xors, Turn7, Turn18, Right3;
    XorsOfNum(Turn7(x), Turn18(x), Right3(x));
  }

  lemma Small1OfNum(x: Bits)
    requires x <= MASK
    ensures Num(x, 32) < TWO32 && SmallSigma1(Num(x, 32)) == Num(Small1(x), 32)
  {
    Turn17IsRotation(x);
    Turn19IsRotation(x);
    ShiftsAreDivisions(x);
    hide Num, RotateRight, ShiftRight, Xor3, Xors, Turn17, Turn19, Right10;
    XorsOfNum(Turn17(x), Turn19(x), Right10(x));
  }

  /** The complement flips every bit. */
  lemma ComplementIsXor(x: word)
    ensures Complement(x) == Combine(Xor, x, TWO32 - 1)
  {
    Pow2Of32();
    forall i | 0 <= i < 32
      ensures Bit(Complement(x), i) == Bit(Combine(Xor, x, TWO32 - 1), i)
    {
      BitOfComplement(x, i);
      BitOfCombine(Xor, x, TWO32 - 1, i);
      ComplementBit(0, 32, i);
      ZeroBit(i);
      hide Bit, Combine, Complement, Pow2;
    }
    hide Bit, Combine;
    SameBits(Complement(x), Combine(Xor, x, TWO32 - 1), 32);
  }

  lemma {:induction false} ZeroBit(i: nat)
    ensures Bit(0, i) == 0
  {
    if i > 0 {
      ZeroBit(i - 1);
    }
  }

  lemma AllOnes()
    ensures Num(MASK, 32) == TWO32 - 1
  {
    hide Num;
    NumIsValue(MASK);
  }

  lemma ChoiceApplies(x: Bits, y: Bits, z: Bits)
    ensures Choice(x, y, z) == Apply(Xor, Apply(And, x, y), Apply(And, Apply(Xor, x, MASK), z))
  {
  }

  lemma ChoiceOfNum(x: Bits, y: Bits, z: Bits)
    ensures Num(x, 32) < TWO32 && Num(y, 32) < TWO32 && Num(z, 32) < TWO32
    ensures Choose(Num(x, 32), Num(y, 32), Num(z, 32)) == Num(Choice(x, y, z), 32)
  {
    hide Num, Combine, Apply, Complement, Choice;
    NumIsWord(x);
    ComplementIsXor(Num(x, 32));
    AllOnes();
    CombineOfNum(And, x, y);
    CombineOfNum(Xor, x, MASK);
    CombineOfNum(And, Apply(Xor, x, MASK), z);
    CombineOfNum(Xor, Apply(And, x, y), Apply(And, Apply(Xor, x, MASK), z));
    ChoiceApplies(x, y, z);
  }

  lemma MostOfNum(x: Bits, y: Bits, z: Bits)
    ensures Num(x, 32) < TWO32 && Num(y, 32) < TWO32 && Num(z, 32) < TWO32
    ensures Majority(Num(x, 32), Num(y, 32), Num(z, 32)) == Num(Most(x, y, z), 32)
  {
    hide Num, Combine, Xor3, Xors, Both;
    BothOfNum(x, y);
    BothOfNum(x, z);
    BothOfNum(y, z);
    XorsOfNum(Both(x, y), Both(x, z), Both(y, z));
  }

  // Sums of words

  lemma AddIsModulo(x: word, y: word)
    ensures Add(x, y) == (x + y) % TWO32
  {
  }

  lemma AddFour(a: word, b: word, c: word, d: word)
    ensures Add(Add(Add(a, b), c), d) == (a + b + c + d) % TWO32
  {
  }

  lemma AddFive(a: word, b: word, c: word, d: word, e: word)
    ensures Add(Add(Add(Add(a, b), c), d), e) == (a + b + c + d + e) % TWO32
  {
    AddFour(a, b, c, d);
    var m := Add(Add(Add(a, b), c), d);
    hide Add;
    AddIsModulo(m, e);
  }

  lemma Carried(total: nat, carry: nat, x: word)
    requires total == x + carry * TWO32
    ensures total % TWO32 == x
  {
  }

  lemma SumOfSums(m: nat, n: nat)
    ensures (m % TWO32 + n % TWO32) % TWO32 == (m + n) % TWO32
  {
  }

  lemma AddSums(m: nat, n: nat, carry: nat, x: word)
    requires m + n == x + carry * TWO32
    ensures Add(m % TWO32, n % TWO32) == x
  {
    AddIsModulo(m % TWO32, n % TWO32);
    SumOfSums(m, n);
    hide Add;
    Carried(m + n, carry, x);
  }

  // Words held in vectors

  /** The vector `b` holds the word `x`. */
  predicate Holds(b: Bits, x: word) {
    b <= MASK && Value(b) == x
  }

  lemma BigsHeld(a: Bits, e: Bits, x: word, y: word, s0: nat, s1: nat)
    requires Holds(a, x) && Holds(e, y) && Value(Big0(a)) == s0 && Value(Big1(e)) == s1
    ensures BigSigma0(x) == s0 && BigSigma1(y) == s1
  {
    hide Num, Value, BigSigma0, BigSigma1, Big0, Big1;
    Big0OfNum(a);
    Big1OfNum(e);
    NumIsValue(a);
    NumIsValue(e);
    NumIsValue(Big0(a));
    NumIsValue(Big1(e));
  }

  lemma ChoiceHeld(e: Bits, f: Bits, g: Bits, x: word, y: word, z: word, r: nat)
    requires Holds(e, x) && Holds(f, y) && Holds(g, z) && Value(Choice(e, f, g)) == r
    ensures Choose(x, y, z) == r
  {
    hide Num, Value, Choose, Choice;
    ChoiceOfNum(e, f, g);
    NumIsValue(e);
    NumIsValue(f);
    NumIsValue(g);
    NumIsValue(Choice(e, f, g));
  }

  lemma MostHeld(a: Bits, b: Bits, c: Bits, x: word, y: word, z: word, r: nat)
    requires Holds(a, x) && Holds(b, y) && Holds(c, z) && Value(Most(a, b, c)) == r
    ensures Majority(x, y, z) == r
  {
    hide Num, Value, Majority, Most;
    MostOfNum(a, b, c);
    NumIsValue(a);
    NumIsValue(b);
    NumIsValue(c);
    NumIsValue(Most(a, b, c));
  }

  /** A round whose four functions of section 4.1.2 give `s0`, `most`, `s1` and `choice`. */
  lemma RoundOf(s: Hash, k: word, w: word, s0: word, most: word, s1: word, choice: word,
                cx: nat, x: word, cy: nat, y: word)
    requires BigSigma0(s.a) == s0 && Majority(s.a, s.b, s.c) == most
    requires BigSigma1(s.e) == s1 && Choose(s.e, s.f, s.g) == choice
    requires s.h + s1 + choice + k + w + s0 + most == x + cx * TWO32
    requires s.d + s.h + s1 + choice + k + w == y + cy * TWO32
    ensures Round(s, k, w) == Hash(x, s.a, s.b, s.c, y, s.e, s.f, s.g)
  {
    hide BigSigma0, BigSigma1, Choose, Majority, Add;
    var first, second := s.h + s1 + choice + k + w, s0 + most;
    AddFive(s.h, s1, choice, k, w);
    AddIsModulo(s0, most);
    AddSums(first, second, cx, x);
    AddSums(s.d, first, cy, y);
  }

  lemma SmallsHeld(u: Bits, v: Bits, x: word, y: word, s0: nat, s1: nat)
    requires Holds(u, x) && Holds(v, y) && Value(Small0(u)) == s0 && Value(Small1(v)) == s1
    ensures SmallSigma0(x) == s0 && SmallSigma1(y) == s1
  {
    hide Num, Value, SmallSigma0, SmallSigma1, Small0, Small1;
    Small0OfNum(u);
    Small1OfNum(v);
    NumIsValue(u);
    NumIsValue(v);
    NumIsValue(Small0(u));
    NumIsValue(Small1(v));
  }
}
