/**
  The base64url alphabet of section 5 of RFC 4648, without padding, and the strict decoder of
  src/encrypted-auth-state-store.mjs.
 */
module Base64Url {
  import opened Options
  import opened Bytes

  function Digit(n: nat): char
    requires n < 64
  {
    if n < 26 then 'A' + n as char
    else if n < 52 then 'a' + (n - 26) as char
    else if n < 62 then '0' + (n - 52) as char
    else if n == 62 then '-' else '_'
  }

  predicate IsDigit(c: char) {
    'A' <= c <= 'Z' || 'a' <= c <= 'z' || '0' <= c <= '9' || c == '-' || c == '_'
  }

  function Sextet(c: char): (n: nat)
    requires IsDigit(c)
    ensures n < 64 && Digit(n) == c
  {
    if 'A' <= c <= 'Z' then c as int - 'A' as int
    else if 'a' <= c <= 'z' then c as int - 'a' as int + 26
    else if '0' <= c <= '9' then c as int - '0' as int + 52
    else if c == '-' then 62 else 63
  }

  lemma SextetOfDigit(n: nat)
    requires n < 64
    ensures IsDigit(Digit(n)) && Sextet(Digit(n)) == n
  {
  }

  /** The digits are those of table 2 of RFC 4648, in its order. */
  lemma DigitsAreTheAlphabet()
    ensures Digit(0) == 'A' && Digit(1) == 'B' && Digit(2) == 'C' && Digit(3) == 'D' && Digit(4) == 'E'
    ensures Digit(5) == 'F' && Digit(6) == 'G' && Digit(7) == 'H' && Digit(8) == 'I' && Digit(9) == 'J'
    ensures Digit(10) == 'K' && Digit(11) == 'L' && Digit(12) == 'M' && Digit(13) == 'N' && Digit(14) == 'O'
    ensures Digit(15) == 'P' && Digit(16) == 'Q' && Digit(17) == 'R' && Digit(18) == 'S' && Digit(19) == 'T'
    ensures Digit(20) == 'U' && Digit(21) == 'V' && Digit(22) == 'W' && Digit(23) == 'X' && Digit(24) == 'Y'
    ensures Digit(25) == 'Z' && Digit(26) == 'a' && Digit(27) == 'b' && Digit(28) == 'c' && Digit(29) == 'd'
    ensures Digit(30) == 'e' && Digit(31) == 'f' && Digit(32) == 'g' && Digit(33) == 'h' && Digit(34) == 'i'
    ensures Digit(35) == 'j' && Digit(36) == 'k' && Digit(37) == 'l' && Digit(38) == 'm' && Digit(39) == 'n'
    ensures Digit(40) == 'o' && Digit(41) == 'p' && Digit(42) == 'q' && Digit(43) == 'r' && Digit(44) == 's'
    ensures Digit(45) == 't' && Digit(46) == 'u' && Digit(47) == 'v' && Digit(48) == 'w' && Digit(49) == 'x'
    ensures Digit(50) == 'y' && Digit(51) == 'z' && Digit(52) == '0' && Digit(53) == '1' && Digit(54) == '2'
    ensures Digit(55) == '3' && Digit(56) == '4' && Digit(57) == '5' && Digit(58) == '6' && Digit(59) == '7'
    ensures Digit(60) == '8' && Digit(61) == '9' && Digit(62) == '-' && Digit(63) == '_'
  {
  }

  predicate AllDigits(s: string) {
    forall i :: 0 <= i < |s| ==> IsDigit(s[i])
  }

  // Three bytes as four sextets

  function Sextet0(b0: byte): (n: nat)
    ensures n < 64
  {
    b0 / 4
  }

  function Sextet1(b0: byte, b1: byte): (n: nat)
    ensures n < 64
  {
    b0 % 4 * 16 + b1 / 16
  }

  function Sextet2(b1: byte, b2: byte): (n: nat)
    ensures n < 64
  {
    b1 % 16 * 4 + b2 / 64
  }

  function Sextet3(b2: byte): (n: nat)
    ensures n < 64
  {
    b2 % 64
  }

  /** `toString("base64url")` */
  function Encode(b: seq<byte>): string {
    if b == [] then ""
    else if |b| == 1 then [Digit(Sextet0(b[0])), Digit(Sextet1(b[0], 0))]
    else if |b| == 2 then [Digit(Sextet0(b[0])), Digit(Sextet1(b[0], b[1])), Digit(Sextet2(b[1], 0))]
    else Group(b[0], b[1], b[2]) + Encode(b[3..])
  }

  function Group(b0: byte, b1: byte, b2: byte): string {
    [Digit(Sextet0(b0)), Digit(Sextet1(b0, b1)), Digit(Sextet2(b1, b2)), Digit(Sextet3(b2))]
  }

  function First(v0: nat, v1: nat): byte
    requires v0 < 64 && v1 < 64
  {
    v0 * 4 + v1 / 16
  }

  function Second(v1: nat, v2: nat): byte
    requires v1 < 64 && v2 < 64
  {
    v1 % 16 * 16 + v2 / 4
  }

  function Third(v2: nat, v3: nat): byte
    requires v2 < 64 && v3 < 64
  {
    v2 % 4 * 64 + v3
  }

  /** `Buffer.from(value, "base64url")`, which drops bits that fill no byte. */
  function Decode(s: string): seq<byte>
    requires AllDigits(s)
  {
    if |s| < 2 then []
    else
      var v0, v1 := Sextet(s[0]), Sextet(s[1]);
      if |s| == 2 then [First(v0, v1)]
      else
        var v2 := Sextet(s[2]);
        if |s| == 3 then [First(v0, v1), Second(v1, v2)]
        else [First(v0, v1), Second(v1, v2), Third(v2, Sextet(s[3]))] + Decode(s[4..])
  }

  /** No lone digit at the end, and no bits that fill no byte. */
  predicate Canonical(s: string) {
    && AllDigits(s)
    && |s| % 4 != 1
    && (|s| % 4 == 2 ==> Sextet(s[|s| - 1]) % 16 == 0)
    && (|s| % 4 == 3 ==> Sextet(s[|s| - 1]) % 4 == 0)
  }

  /** Eight-bit and six-bit digits of the same number. */
  lemma Regroup(b0: byte, b1: byte, b2: byte)
    ensures First(Sextet0(b0), Sextet1(b0, b1)) == b0
    ensures Second(Sextet1(b0, b1), Sextet2(b1, b2)) == b1
    ensures Third(Sextet2(b1, b2), Sextet3(b2)) == b2
  {
  }

  lemma Ungroup(v0: nat, v1: nat, v2: nat, v3: nat)
    requires v0 < 64 && v1 < 64 && v2 < 64 && v3 < 64
    ensures Sextet0(First(v0, v1)) == v0
    ensures Sextet1(First(v0, v1), Second(v1, v2)) == v1
    ensures Sextet2(Second(v1, v2), Third(v2, v3)) == v2
    ensures Sextet3(Third(v2, v3)) == v3
    ensures Sextet1(First(v0, v1), 0) == v1 <==> v1 % 16 == 0
    ensures Sextet2(Second(v1, v2), 0) == v2 <==> v2 % 4 == 0
  {
  }

  /** A group of four digits is read as its three bytes. */
  lemma GroupReadsBack(b0: byte, b1: byte, b2: byte, rest: string)
    requires AllDigits(rest)
    ensures AllDigits(Group(b0, b1, b2) + rest)
    ensures Decode(Group(b0, b1, b2) + rest) == [b0, b1, b2] + Decode(rest)
  {
    hide Digit, Sextet, IsDigit, First, Second, Third, Sextet0, Sextet1, Sextet2, Sextet3;
    SextetOfDigit(Sextet0(b0));
    SextetOfDigit(Sextet1(b0, b1));
    SextetOfDigit(Sextet2(b1, b2));
    SextetOfDigit(Sextet3(b2));
    Regroup(b0, b1, b2);
    assert (Group(b0, b1, b2) + rest)[4..] == rest;
  }

  /** Every byte string is read back, from a text that uses only the alphabet. */
  lemma {:induction false} DecodeEncode(b: seq<byte>)
    ensures AllDigits(Encode(b)) && Decode(Encode(b)) == b
    decreases |b|
  {
    hide Digit, Sextet, IsDigit, Group;
    if |b| == 1 {
      OneReadsBack(b);
    } else if |b| == 2 {
      TwoReadBack(b);
    } else if |b| >= 3 {
      DecodeEncode(b[3..]);
      GroupReadsBack(b[0], b[1], b[2], Encode(b[3..]));
      assert b == [b[0], b[1], b[2]] + b[3..];
    }
  }

  lemma RegroupOne(b0: byte)
    ensures First(Sextet0(b0), Sextet1(b0, 0)) == b0
  {
  }

  lemma OneReadsBack(b: seq<byte>)
    requires |b| == 1
    ensures AllDigits(Encode(b)) && Decode(Encode(b)) == b
  {
    assert b == [b[0]];
    hide Digit, Sextet, IsDigit, First, Sextet0, Sextet1, Decode;
    RegroupOne(b[0]);
    OneDecodes(Encode(b), Sextet0(b[0]), Sextet1(b[0], 0));
  }

  lemma OneDecodes(s: string, v0: nat, v1: nat)
    requires v0 < 64 && v1 < 64 && s == [Digit(v0), Digit(v1)]
    ensures AllDigits(s) && Decode(s) == [First(v0, v1)]
  {
    hide Digit, Sextet, IsDigit, First;
    SextetOfDigit(v0);
    SextetOfDigit(v1);
  }

  lemma TwoReadBack(b: seq<byte>)
    requires |b| == 2
    ensures AllDigits(Encode(b)) && Decode(Encode(b)) == b
  {
    hide Digit, Sextet, IsDigit, First, Second, Sextet0, Sextet1, Sextet2, Decode;
    Regroup(b[0], b[1], 0);
    TwoDecode(Encode(b), Sextet0(b[0]), Sextet1(b[0], b[1]), Sextet2(b[1], 0));
    assert b == [b[0], b[1]];
  }

  lemma TwoDecode(s: string, v0: nat, v1: nat, v2: nat)
    requires v0 < 64 && v1 < 64 && v2 < 64 && s == [Digit(v0), Digit(v1), Digit(v2)]
    ensures AllDigits(s) && Decode(s) == [First(v0, v1), Second(v1, v2)]
  {
    hide Digit, Sextet, IsDigit, First, Second;
    SextetOfDigit(v0);
    SextetOfDigit(v1);
    SextetOfDigit(v2);
  }

  /** Digits are told apart by their sextets. */
  lemma SameSextet(c: char, n: nat)
    requires IsDigit(c) && n < 64
    ensures Digit(n) == c <==> n == Sextet(c)
  {
    SextetOfDigit(n);
  }

  /** The texts that survive decoding and encoding are the canonical ones. */
  lemma {:induction false} RewrittenIffCanonical(s: string)
    requires AllDigits(s)
    ensures Encode(Decode(s)) == s <==> Canonical(s)
    decreases |s|
  {
    if |s| == 2 {
      TwoRewritten(s);
    } else if |s| == 3 {
      ThreeRewritten(s);
    } else if |s| >= 4 {
      hide Encode, Decode, Canonical, IsDigit;
      RewrittenIffCanonical(s[4..]);
      FourRewritten(s);
      CanonicalRest(s);
      SamePrefix(s[..4], s[4..], Encode(Decode(s[4..])));
      assert s == s[..4] + s[4..];
    }
  }

  lemma SamePrefix(s: string, t: string, u: string)
    ensures s + t == s + u <==> t == u
  {
    assert (s + t)[|s|..] == t && (s + u)[|s|..] == u;
  }

  lemma CanonicalRest(s: string)
    requires AllDigits(s) && |s| >= 4
    ensures Canonical(s) <==> Canonical(s[4..])
  {
    hide IsDigit, Sextet;
    assert s[4..] != "" ==> s[4..][|s| - 5] == s[|s| - 1];
  }

  lemma TwoRewritten(s: string)
    requires AllDigits(s) && |s| == 2
    ensures Encode(Decode(s)) == s <==> Canonical(s)
  {
    hide Digit, Sextet, IsDigit, First, Sextet0, Sextet1;
    var v0, v1 := Sextet(s[0]), Sextet(s[1]);
    Ungroup(v0, v1, 0, 0);
    SameSextet(s[1], Sextet1(First(v0, v1), 0));
    assert Encode(Decode(s)) == [s[0], Digit(Sextet1(First(v0, v1), 0))];
  }

  lemma ThreeRewritten(s: string)
    requires AllDigits(s) && |s| == 3
    ensures Encode(Decode(s)) == s <==> Canonical(s)
  {
    hide Digit, Sextet, IsDigit, First, Second, Sextet0, Sextet1, Sextet2;
    var v0, v1, v2 := Sextet(s[0]), Sextet(s[1]), Sextet(s[2]);
    Ungroup(v0, v1, v2, 0);
    SameSextet(s[2], Sextet2(Second(v1, v2), 0));
    assert Encode(Decode(s)) == [s[0], s[1], Digit(Sextet2(Second(v1, v2), 0))];
  }

  /** A whole group survives. */
  lemma FourRewritten(s: string)
    requires AllDigits(s) && |s| >= 4
    ensures Encode(Decode(s)) == s[..4] + Encode(Decode(s[4..]))
  {
    hide Digit, IsDigit, First, Second, Third, Sextet, Group, Encode;
    var v0, v1, v2, v3 := Sextet(s[0]), Sextet(s[1]), Sextet(s[2]), Sextet(s[3]);
    GroupOfSextets(s);
    EncodeGroup(First(v0, v1), Second(v1, v2), Third(v2, v3), Decode(s[4..]));
  }

  lemma GroupOfSextets(s: string)
    requires AllDigits(s) && |s| >= 4
    ensures var v0, v1, v2, v3 := Sextet(s[0]), Sextet(s[1]), Sextet(s[2]), Sextet(s[3]);
            s[..4] == Group(First(v0, v1), Second(v1, v2), Third(v2, v3))
  {
    hide Digit, IsDigit, First, Second, Third, Sextet, Sextet0, Sextet1, Sextet2, Sextet3;
    Ungroup(Sextet(s[0]), Sextet(s[1]), Sextet(s[2]), Sextet(s[3]));
  }

  lemma EncodeGroup(b0: byte, b1: byte, b2: byte, rest: seq<byte>)
    ensures Encode([b0, b1, b2] + rest) == Group(b0, b1, b2) + Encode(rest)
  {
    hide Group;
    assert ([b0, b1, b2] + rest)[3..] == rest;
  }

  /** `decodeBase64Url`, and its form for the ciphertext, which has no expected length. */
  function DecodeStrictly(value: string, expectedLength: Option<nat>): (r: Option<seq<byte>>)
    ensures r.Some? ==> value == Encode(r.value) && r.value != []
  {
    if value == "" || !AllDigits(value) then None
    else
      var decoded := Decode(value);
      if decoded == [] || (expectedLength.Some? && |decoded| != expectedLength.value) || Encode(decoded) != value
      then None else Some(decoded)
  }

  /** Exactly the canonical texts of the right length are accepted. */
  lemma AcceptedIffCanonical(value: string, expectedLength: Option<nat>)
    ensures DecodeStrictly(value, expectedLength).Some? <==>
            && value != ""
            && Canonical(value)
            && (expectedLength.None? || |Decode(value)| == expectedLength.value)
  {
    if AllDigits(value) {
      RewrittenIffCanonical(value);
    }
  }

  lemma AcceptsEncoded(b: seq<byte>, expectedLength: Option<nat>)
    requires b != [] && (expectedLength.None? || expectedLength.value == |b|)
    ensures DecodeStrictly(Encode(b), expectedLength) == Some(b)
  {
    DecodeEncode(b);
  }

  /** The test vectors of section 10 of RFC 4648, without padding. */
  lemma PublishedVectors()
    ensures Encode([]) == "" && Encode([0x66]) == "Zg" && Encode([0x66, 0x6f]) == "Zm8"
    ensures Encode([0x66, 0x6f, 0x6f]) == "Zm9v" && Encode([0x66, 0x6f, 0x6f, 0x62]) == "Zm9vYg"
    ensures Encode([0x66, 0x6f, 0x6f, 0x62, 0x61]) == "Zm9vYmE"
    ensures Encode([0x66, 0x6f, 0x6f, 0x62, 0x61, 0x72]) == "Zm9vYmFy"
  {
    assert [0x66, 0x6f, 0x6f, 0x62][3..] == [0x62];
    assert [0x66, 0x6f, 0x6f, 0x62, 0x61][3..] == [0x62, 0x61];
    assert [0x66, 0x6f, 0x6f, 0x62, 0x61, 0x72][3..] == [0x62, 0x61, 0x72];
    assert [0x62, 0x61, 0x72][3..] == [];
  }
}
