/** The table of primes behind the constants of FIPS 180-4, and a proof that it is complete. */
module Primes {

  function Prime(t: nat): nat {
    match t
    case 0 => 2 case 1 => 3 case 2 => 5 case 3 => 7 case 4 => 11 case 5 => 13 case 6 => 17 case 7 => 19
    case 8 => 23 case 9 => 29 case 10 => 31 case 11 => 37 case 12 => 41 case 13 => 43 case 14 => 47 case 15 => 53
    case 16 => 59 case 17 => 61 case 18 => 67 case 19 => 71 case 20 => 73 case 21 => 79 case 22 => 83 case 23 => 89
    case 24 => 97 case 25 => 101 case 26 => 103 case 27 => 107 case 28 => 109 case 29 => 113 case 30 => 127 case 31 => 131
    case 32 => 137 case 33 => 139 case 34 => 149 case 35 => 151 case 36 => 157 case 37 => 163 case 38 => 167 case 39 => 173
    case 40 => 179 case 41 => 181 case 42 => 191 case 43 => 193 case 44 => 197 case 45 => 199 case 46 => 211 case 47 => 223
    case 48 => 227 case 49 => 229 case 50 => 233 case 51 => 239 case 52 => 241 case 53 => 251 case 54 => 257 case 55 => 263
    case 56 => 269 case 57 => 271 case 58 => 277 case 59 => 281 case 60 => 283 case 61 => 293 case 62 => 307 case 63 => 311
    case _ => 1
  }

  predicate IsPrime(n: nat) {
    n >= 2 && forall d :: 2 <= d < n ==> n % d != 0
  }

  /** A number below 18 * 18 is prime if no prime below 18 divides it properly. */
  predicate Sieved(n: nat) {
    && n >= 2
    && (n == 2 || n % 2 != 0) && (n == 3 || n % 3 != 0) && (n == 5 || n % 5 != 0) && (n == 7 || n % 7 != 0)
    && (n == 11 || n % 11 != 0) && (n == 13 || n % 13 != 0) && (n == 17 || n % 17 != 0)
  }

  lemma PrimeIsSieved(n: nat)
    requires IsPrime(n)
    ensures Sieved(n)
  {
  }

  /** The smaller of two factors is below 18, and so has a small prime factor. */
  lemma SmallFactor(n: nat, d: nat)
    requires n < 324 && 2 <= d < n && n % d == 0
    ensures !Sieved(n)
  {
    var q := n / d;
    assert n == d * q;
    assert 2 <= q by { Products(d, 1, q, n); }
    if d < 18 {
      SmallDivisor(n, d, q);
    } else {
      assert q < 18 by { Products(18, 18, d, q); }
      SmallDivisor(n, q, d);
    }
  }

  /** Products grow with their factors. */
  lemma Products(x: nat, y: nat, a: nat, b: nat)
    ensures a >= x && b >= y ==> a * b >= x * y
    ensures y == 1 && a <= 1 ==> x * a <= x
  {
    if a >= x && b >= y {
      assert a * b >= x * b >= x * y;
    }
  }

  lemma SmallDivisor(n: nat, d: nat, q: nat)
    requires 2 <= d < 18 && q >= 2 && n == d * q
    ensures !Sieved(n)
  {
    hide Sieved;
    match d
    case 2 => NotSieved(n, 2, q);
    case 3 => NotSieved(n, 3, q);
    case 4 => NotSieved(n, 2, 2 * q);
    case 5 => NotSieved(n, 5, q);
    case 6 => NotSieved(n, 2, 3 * q);
    case 7 => NotSieved(n, 7, q);
    case 8 => NotSieved(n, 2, 4 * q);
    case 9 => NotSieved(n, 3, 3 * q);
    case 10 => NotSieved(n, 2, 5 * q);
    case 11 => NotSieved(n, 11, q);
    case 12 => NotSieved(n, 2, 6 * q);
    case 13 => NotSieved(n, 13, q);
    case 14 => NotSieved(n, 2, 7 * q);
    case 15 => NotSieved(n, 3, 5 * q);
    case 16 => NotSieved(n, 2, 8 * q);
    case 17 => NotSieved(n, 17, q);
  }

  lemma NotSieved(n: nat, p: nat, k: nat)
    requires p in {2, 3, 5, 7, 11, 13, 17} && k >= 2 && n == p * k
    ensures !Sieved(n)
  {
    assert n > p && n % p == 0 by {
      hide Sieved;
      match p
      case 2 => assert n == 2 * k;
      case 3 => assert n == 3 * k;
      case 5 => assert n == 5 * k;
      case 7 => assert n == 7 * k;
      case 11 => assert n == 11 * k;
      case 13 => assert n == 13 * k;
      case 17 => assert n == 17 * k;
    }
  }

  lemma SievedIsPrime(n: nat)
    requires Sieved(n) && n < 324
    ensures IsPrime(n)
  {
    forall d | 2 <= d < n
      ensures n % d != 0
    {
      if n % d == 0 {
        SmallFactor(n, d);
      }
    }
  }

  lemma EntriesAreSieved(t: nat)
    requires t < 64
    ensures Sieved(Prime(t)) && Prime(t) <= 311
  {
    if t < 32 {
      EarlyEntriesAreSieved(t);
    } else {
      LateEntriesAreSieved(t);
    }
    hide Prime, Sieved;
  }

  lemma EarlyEntriesAreSieved(t: nat)
    requires t < 32
    ensures Sieved(Prime(t)) && Prime(t) <= 311
  {
  }

  lemma LateEntriesAreSieved(t: nat)
    requires 32 <= t < 64
    ensures Sieved(Prime(t)) && Prime(t) <= 311
  {
  }

  lemma GapsAreSmall(t: nat)
    requires t < 63
    ensures Prime(t) < Prime(t + 1) <= Prime(t) + 14
  {
  }

  /** Nothing between two entries of the table is sieved. */
  lemma GapIsComposite(t: nat, k: nat)
    requires t < 63 && 0 < k < 14 && Prime(t) + k < Prime(t + 1)
    ensures !Sieved(Prime(t) + k)
  {
    hide Prime, Sieved;
    OddEntry(t);
    if k % 2 == 1 {
      EvenIsComposite(Prime(t) + k);
    } else {
      match k
      case 2 => Gap2(t);
      case 4 => Gap4(t);
      case 6 => Gap6(t);
      case 8 => Gap8(t);
      case 10 => Gap10(t);
      case 12 => Gap12(t);
    }
  }

  lemma EvenIsComposite(n: nat)
    requires n > 2 && n % 2 == 0
    ensures !Sieved(n)
  {
  }

  lemma OddEntry(t: nat)
    requires t < 63
    ensures Prime(t) % 2 == 1 || Prime(t + 1) == Prime(t) + 1
    ensures Prime(t) >= 2
  {
  }

  lemma Gap2(t: nat)
    requires t < 63 && Prime(t) + 2 < Prime(t + 1)
    ensures !Sieved(Prime(t) + 2)
  {
  }

  lemma Gap4(t: nat)
    requires t < 63 && Prime(t) + 4 < Prime(t + 1)
    ensures !Sieved(Prime(t) + 4)
  {
  }

  lemma Gap6(t: nat)
    requires t < 63 && Prime(t) + 6 < Prime(t + 1)
    ensures !Sieved(Prime(t) + 6)
  {
  }

  lemma Gap8(t: nat)
    requires t < 63 && Prime(t) + 8 < Prime(t + 1)
    ensures !Sieved(Prime(t) + 8)
  {
  }

  lemma Gap10(t: nat)
    requires t < 63 && Prime(t) + 10 < Prime(t + 1)
    ensures !Sieved(Prime(t) + 10)
  {
  }

  lemma Gap12(t: nat)
    requires t < 63 && Prime(t) + 12 < Prime(t + 1)
    ensures !Sieved(Prime(t) + 12)
  {
  }

  /** The table's entries are sieved and ascend, and nothing between two of them is sieved. */
  lemma TableIsSieved(t: nat, n: nat)
    requires t < 64
    ensures Sieved(Prime(t)) && Prime(t) <= 311 && (t < 63 ==> Prime(t) < Prime(t + 1))
    ensures t < 63 && Prime(t) < n < Prime(t + 1) ==> !Sieved(n)
  {
    hide Prime, Sieved;
    EntriesAreSieved(t);
    if t < 63 {
      GapsAreSmall(t);
      if Prime(t) < n < Prime(t + 1) {
        GapIsComposite(t, n - Prime(t));
      }
    }
  }

  lemma TableEnds(n: nat)
    ensures Prime(63) == 311 && Prime(0) == 2 && (IsPrime(n) ==> n >= 2)
  {
  }

  lemma {:induction false} Locate(n: nat, t: nat) returns (u: nat)
    requires t < 64 && 2 <= n <= Prime(t)
    ensures u < 64 && n <= Prime(u) && (u == 0 || Prime(u - 1) < n)
  {
    hide Prime;
    if t == 0 || Prime(t - 1) < n {
      u := t;
    } else {
      u := Locate(n, t - 1);
    }
  }

  /** The table lists the first 64 primes: exactly the primes up to 311. */
  lemma PrimesAreTheFirst(n: nat)
    requires n <= 311
    ensures IsPrime(n) <==> exists t :: 0 <= t < 64 && Prime(t) == n
  {
    hide Prime, IsPrime, Sieved;
    TableEnds(n);
    if IsPrime(n) {
      PrimeIsSieved(n);
      var u := Locate(n, 63);
      if u > 0 {
        TableIsSieved(u - 1, n);
      }
      assert Prime(u) == n;
    }
    if t :| 0 <= t < 64 && Prime(t) == n {
      TableIsSieved(t, n);
      SievedIsPrime(n);
    }
  }
}
