/**
  What the word operations of module Sha256 do to numbers and to their bits: the laws that
  section 3.2 and section 4.1.2 of FIPS 180-4 give for them.
 */
module WordLaws {
  import opened Bytes
  import opened Sha256

  /** Bit `i` of a number; bit 0 is the least significant. */
  function Bit(x: nat, i: nat): (b: nat)
    ensures b < 2
  {
    if i == 0 then x % 2 else Bit(x / 2, i - 1)
  }

  // Bits of the basic operations

  lemma {:induction false} BitOfBitwise(op: BitOp, x: nat, y: nat, n: nat, i: nat)
    requires i < n
    ensures Bit(Bitwise(op, x, y, n), i) == OnBits(op, Bit(x, i), Bit(y, i))
  {
    hide OnBits, Pow2;
    var low, high := OnBits(op, x % 2, y % 2), Bitwise(op, x / 2, y / 2, n - 1);
    assert Bitwise(op, x, y, n) == low + 2 * high;
    assert low < 2 by { BitIsSmall(op, x % 2, y % 2); }
    assert (low + 2 * high) % 2 == low && (low + 2 * high) / 2 == high;
    if i > 0 {
      BitOfBitwise(op, x / 2, y / 2, n - 1, i - 1);
    }
  }

  lemma BitIsSmall(op: BitOp, x: nat, y: nat)
    requires x < 2 && y < 2
    ensures OnBits(op, x, y) < 2
  {
    if op == And {
      assert x == 0 || x == 1;
    }
  }

  /** An operation works on each bit alone. */
  lemma BitOfCombine(op: BitOp, x: word, y: word, i: nat)
    requires i < 32
    ensures Bit(Combine(op, x, y), i) == OnBits(op, Bit(x, i), Bit(y, i))
  {
    BitOfBitwise(op, x, y, 32, i);
  }

  lemma {:induction false} HighBit(x: nat, i: nat)
    requires x < Pow2(i)
    ensures Bit(x, i) == 0
  {
    if i > 0 {
      HighBit(x / 2, i - 1);
    }
  }

  lemma {:induction false} HighBits(x: word, i: nat)
    requires i >= 32
    ensures Bit(x, i) == 0
  {
    Pow2Of32();
    Pow2Grows(32, i);
    HighBit(x, i);
  }

  lemma {:induction false} Pow2Grows(a: nat, b: nat)
    requires a <= b
    ensures Pow2(a) <= Pow2(b)
    decreases b
  {
    if a < b {
      Pow2Grows(a, b - 1);
    }
  }

  lemma {:induction false} BitOfShiftRight(x: word, n: nat, i: nat)
    ensures Bit(ShiftRight(x, n), i) == Bit(x, n + i)
  {
    if n > 0 {
      BitOfShiftRight(x / 2, n - 1, i);
    }
  }

  /** The highest bit of a number does not show in the lower ones. */
  lemma {:induction false} BitOfRest(x: nat, n: nat, i: nat)
    requires i < n
    ensures Bit(x % Pow2(n), i) == Bit(x, i)
  {
    HalfOfRest(x, n);
    if i > 0 {
      BitOfRest(x / 2, n - 1, i - 1);
    }
  }

  lemma HalfOfRest(x: nat, n: nat)
    requires n > 0
    ensures x % Pow2(n) % 2 == x % 2
    ensures x % Pow2(n) / 2 == x / 2 % Pow2(n - 1)
  {
    var p := Pow2(n - 1);
    var q, r := x / (2 * p), x % (2 * p);
    assert x == 2 * p * q + r;
    assert 2 * p * q == 2 * (p * q);
    NotNegative(x, 2 * p);
    QuotientIs(x / 2, p, q, r / 2);
  }

  lemma NotNegative(x: nat, p: nat)
    requires p > 0
    ensures x / p >= 0
  {
    if x / p < 0 {
      Grows(p, -(x / p));
    }
  }

  lemma QuotientIs(x: nat, p: nat, q: int, r: nat)
    requires p > 0 && r < p && x == p * q + r
    ensures x / p == q && x % p == r
  {
    var d := x / p - q;
    assert x == p * (x / p) + x % p;
    assert p * d == r - x % p by {
      assert p * (x / p) == p * (q + d) == p * q + p * d;
    }
    if d >= 1 {
      Grows(p, d);
    } else if d <= -1 {
      Grows(p, -d);
    }
  }

  lemma Grows(p: int, d: int)
    requires p >= 0 && d >= 1
    ensures p * d >= p && p * -d <= -p
  {
    assert p * d == p + p * (d - 1);
    assert p * -d == -(p * d);
  }

  lemma DoubleBit(x: word, i: nat)
    requires i < 32
    ensures Bit((2 * x) % TWO32, i) == if i == 0 then 0 else Bit(x, i - 1)
  {
    Pow2Of32();
    BitOfRest(2 * x, 32, i);
    assert 2 * x % 2 == 0 && 2 * x / 2 == x;
  }

  lemma {:induction false} BitOfShiftLeft(x: word, n: nat, i: nat)
    requires i < 32
    ensures Bit(ShiftLeft(x, n), i) == if i < n then 0 else Bit(x, i - n)
    decreases n
  {
    if n > 0 {
      BitOfShiftLeft(2 * x % TWO32, n - 1, i);
      if i >= n - 1 {
        DoubleBit(x, i - (n - 1));
      }
    }
  }

  lemma BitOfOr(x: word, y: word, i: nat)
    requires i < 32
    ensures Bit(Combine(Or, x, y), i) == if Bit(x, i) == 0 then Bit(y, i) else 1
  {
    BitOfCombine(Or, x, y, i);
    hide Bit, Combine;
  }

  /** Bit `i` of a rotated word is bit `i + n` of the word, counted around its end. */
  lemma BitOfRotateRight(x: word, n: nat, i: nat)
    requires 0 < n < 32 && i < 32
    ensures Bit(RotateRight(x, n), i) == Bit(x, (i + n) % 32)
  {
    hide Bit, ShiftRight, ShiftLeft, Combine;
    BitOfOr(ShiftRight(x, n), ShiftLeft(x, 32 - n), i);
    BitOfShiftRight(x, n, i);
    BitOfShiftLeft(x, 32 - n, i);
    if i + n >= 32 {
      HighBits(x, i + n);
      assert (i + n) % 32 == i - (32 - n);
    } else {
      assert (i + n) % 32 == i + n;
    }
  }

  lemma BitOfComplement(x: word, i: nat)
    requires i < 32
    ensures Bit(Complement(x), i) == 1 - Bit(x, i)
  {
    Pow2Of32();
    ComplementBit(x, 32, i);
  }

  lemma {:induction false} ComplementBit(x: nat, n: nat, i: nat)
    requires i < n && x < Pow2(n)
    ensures Bit(Pow2(n) - 1 - x, i) == 1 - Bit(x, i)
  {
    if i > 0 {
      assert (Pow2(n) - 1 - x) / 2 == Pow2(n - 1) - 1 - x / 2;
      ComplementBit(x / 2, n - 1, i - 1);
    }
  }

  // Section 4.1.2

  lemma BitOfXor3(x: word, y: word, z: word, i: nat)
    requires i < 32
    ensures Bit(Xor3(x, y, z), i) == (Bit(x, i) + Bit(y, i) + Bit(z, i)) % 2
  {
    hide Bit, Combine;
    BitOfCombine(Xor, x, y, i);
    BitOfCombine(Xor, Combine(Xor, x, y), z, i);
  }

  /** The large functions add three rotations of the word, bit by bit and without carry. */
  lemma BigSigmas(x: word, i: nat)
    requires i < 32
    ensures Bit(BigSigma0(x), i) == (Bit(x, (i + 2) % 32) + Bit(x, (i + 13) % 32) + Bit(x, (i + 22) % 32)) % 2
    ensures Bit(BigSigma1(x), i) == (Bit(x, (i + 6) % 32) + Bit(x, (i + 11) % 32) + Bit(x, (i + 25) % 32)) % 2
  {
    hide Bit, RotateRight, Xor3;
    BitOfXor3(RotateRight(x, 2), RotateRight(x, 13), RotateRight(x, 22), i);
    BitOfXor3(RotateRight(x, 6), RotateRight(x, 11), RotateRight(x, 25), i);
    BitOfRotateRight(x, 2, i);
    BitOfRotateRight(x, 13, i);
    BitOfRotateRight(x, 22, i);
    BitOfRotateRight(x, 6, i);
    BitOfRotateRight(x, 11, i);
    BitOfRotateRight(x, 25, i);
  }

  function ShiftedBit(x: word, k: nat): nat {
    if k < 32 then Bit(x, k) else 0
  }

  /** The small functions add two rotations and a shift. */
  lemma SmallSigmas(x: word, i: nat)
    requires i < 32
    ensures Bit(SmallSigma0(x), i) == (Bit(x, (i + 7) % 32) + Bit(x, (i + 18) % 32) + ShiftedBit(x, i + 3)) % 2
    ensures Bit(SmallSigma1(x), i) == (Bit(x, (i + 17) % 32) + Bit(x, (i + 19) % 32) + ShiftedBit(x, i + 10)) % 2
  {
    hide Bit, RotateRight, ShiftRight, Xor3;
    BitOfXor3(RotateRight(x, 7), RotateRight(x, 18), ShiftRight(x, 3), i);
    BitOfXor3(RotateRight(x, 17), RotateRight(x, 19), ShiftRight(x, 10), i);
    BitOfRotateRight(x, 7, i);
    BitOfRotateRight(x, 18, i);
    BitOfRotateRight(x, 17, i);
    BitOfRotateRight(x, 19, i);
    BitOfShiftRight(x, 3, i);
    BitOfShiftRight(x, 10, i);
    if i + 3 >= 32 {
      HighBits(x, i + 3);
    }
    if i + 10 >= 32 {
      HighBits(x, i + 10);
    }
  }

  lemma BitOfAnd(x: word, y: word, i: nat)
    requires i < 32
    ensures Bit(Combine(And, x, y), i) == if Bit(x, i) == 1 then Bit(y, i) else 0
  {
    BitOfCombine(And, x, y, i);
    AndOfBits(Bit(x, i), Bit(y, i));
    hide Bit, Combine, OnBits;
  }

  lemma AndOfBits(a: nat, b: nat)
    requires a < 2 && b < 2
    ensures OnBits(And, a, b) == if a == 1 then b else 0
  {
    if a == 1 {
      assert 1 * b == b;
    } else {
      assert 0 * b == 0;
    }
  }

  /** Each bit of the first word chooses between the other two. */
  lemma ChoiceByBit(x: word, y: word, z: word, i: nat)
    requires i < 32
    ensures Bit(Choose(x, y, z), i) == if Bit(x, i) == 1 then Bit(y, i) else Bit(z, i)
  {
    hide Bit, Combine, Complement;
    BitOfAnd(x, y, i);
    BitOfComplement(x, i);
    BitOfAnd(Complement(x), z, i);
    BitOfCombine(Xor, Combine(And, x, y), Combine(And, Complement(x), z), i);
  }

  /** The bit that at least two of the three words have. */
  lemma MajorityByBit(x: word, y: word, z: word, i: nat)
    requires i < 32
    ensures Bit(Majority(x, y, z), i) == if Bit(x, i) + Bit(y, i) + Bit(z, i) >= 2 then 1 else 0
  {
    hide Bit, Combine, Xor3;
    BitOfAnd(x, y, i);
    BitOfAnd(x, z, i);
    BitOfAnd(y, z, i);
    BitOfXor3(Combine(And, x, y), Combine(And, x, z), Combine(And, y, z), i);
  }

  /** Words with the same bits are the same, so these laws say all about the functions. */
  lemma {:induction false} SameBits(x: nat, y: nat, n: nat)
    requires x < Pow2(n) && y < Pow2(n)
    requires forall i :: 0 <= i < n ==> Bit(x, i) == Bit(y, i)
    ensures x == y
  {
    if n > 0 {
      assert Bit(x, 0) == Bit(y, 0);
      forall i | 0 <= i < n - 1
        ensures Bit(x / 2, i) == Bit(y / 2, i)
      {
        assert Bit(x, i + 1) == Bit(y, i + 1);
      }
      SameBits(x / 2, y / 2, n - 1);
    }
  }

  // A rotation as two numbers side by side

  function High(x: nat, n: nat): nat {
    if n == 0 then x else High(x / 2, n - 1)
  }

  function Rest(x: nat, n: nat): nat {
    if n == 0 then 0 else x % 2 + 2 * Rest(x / 2, n - 1)
  }

  lemma HalfPow2(n: nat)
    requires n > 0
    ensures Pow2(n) == 2 * Pow2(n - 1)
  {
  }

  lemma Twice(p: nat, r: nat)
    ensures 2 * (p * r) == (2 * p) * r
  {
  }

  lemma {:induction false} HighAndRest(x: nat, n: nat)
    ensures x == Pow2(n) * High(x, n) + Rest(x, n) && Rest(x, n) < Pow2(n)
    decreases n
  {
    if n > 0 {
      HighAndRest(x / 2, n - 1);
      Twice(Pow2(n - 1), High(x, n));
    }
  }

  function Join(q: nat, r: nat, m: nat): nat { q + Pow2(m) * r }

  lemma {:induction false} BitOfJoin(q: nat, r: nat, m: nat, i: nat)
    requires q < Pow2(m)
    ensures Bit(Join(q, r, m), i) == if i < m then Bit(q, i) else Bit(r, i - m)
    decreases m
  {
    if m == 0 {
      assert Join(q, r, m) == r;
    } else {
      var p := Pow2(m - 1) * r;
      Twice(Pow2(m - 1), r);
      assert (q + 2 * p) % 2 == q % 2 && (q + 2 * p) / 2 == q / 2 + p;
      if i > 0 {
        BitOfJoin(q / 2, r, m - 1, i - 1);
      }
    }
  }

  lemma {:induction false} HighIsShift(x: word, n: nat)
    ensures High(x, n) == ShiftRight(x, n)
  {
    if n > 0 {
      HighIsShift(x / 2, n - 1);
    }
  }

  lemma {:induction false} BitOfLowBits(x: nat, n: nat, i: nat)
    requires i < n
    ensures Bit(Rest(x, n), i) == Bit(x, i)
  {
    if i > 0 {
      BitOfLowBits(x / 2, n - 1, i - 1);
    }
  }

  lemma {:induction false} HighIsSmall(x: nat, n: nat, m: nat)
    requires x < Pow2(n + m)
    ensures High(x, n) < Pow2(m)
  {
    if n > 0 {
      HighIsSmall(x / 2, n - 1, m);
    }
  }

  lemma {:induction false} JoinIsSmall(q: nat, r: nat, m: nat, n: nat)
    requires q < Pow2(m) && r < Pow2(n)
    ensures Join(q, r, m) < Pow2(m + n)
    decreases m
  {
    if m == 0 {
      assert Join(q, r, m) == r;
    } else {
      Twice(Pow2(m - 1), r);
      JoinIsSmall(q / 2, r, m - 1, n);
      HalfPow2(m + n);
    }
  }

  /** The low bits go to the top. */
  lemma RotationMovesLowBits(x: word, n: nat)
    requires 0 < n < 32
    ensures RotateRight(x, n) == Join(High(x, n), Rest(x, n), 32 - n)
  {
    hide Bit, RotateRight, High, Rest, Pow2, Join;
    var q, r, z := High(x, n), Rest(x, n), Join(High(x, n), Rest(x, n), 32 - n);
    Pow2Of32();
    HighIsSmall(x, n, 32 - n);
    HighAndRest(x, n);
    JoinIsSmall(q, r, 32 - n, n);
    forall i | 0 <= i < 32
      ensures Bit(RotateRight(x, n), i) == Bit(z, i)
    {
      RotatedBit(x, n, i);
    }
    SameBits(RotateRight(x, n), z, 32);
  }

  lemma RotatedBit(x: word, n: nat, i: nat)
    requires 0 < n < 32 && i < 32
    ensures Bit(RotateRight(x, n), i) == Bit(Join(High(x, n), Rest(x, n), 32 - n), i)
  {
    hide Bit, RotateRight, High, Rest, Pow2, Join;
    BitOfRotateRight(x, n, i);
    Pow2Of32();
    HighIsSmall(x, n, 32 - n);
    BitOfJoin(High(x, n), Rest(x, n), 32 - n, i);
    if i < 32 - n {
      HighIsShift(x, n);
      BitOfShiftRight(x, n, i);
      assert (i + n) % 32 == n + i;
    } else {
      BitOfLowBits(x, n, i - (32 - n));
      assert (i + n) % 32 == i - (32 - n);
    }
  }
}
