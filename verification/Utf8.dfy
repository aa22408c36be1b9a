/**
  UTF-8 as section 3 of RFC 3629 defines it, and the bounded tail of a text
  (integration/linux-ext4-sudden-guest-power-loss-conformance.mjs). A text is a sequence of
  whole characters.
 */
module Utf8 {
  import opened Options
  import opened Bytes

  function EncodeChar(c: char): (bytes: seq<byte>)
    ensures 1 <= |bytes| <= 4
  {
    var n := c as int;
    if n < 0x80 then [n]
    else if n < 0x800 then [0xC0 + n / 64, 0x80 + n % 64]
    else if n < 0x1_0000 then [0xE0 + n / 4096, 0x80 + n / 64 % 64, 0x80 + n % 64]
    else [0xF0 + n / 262144, 0x80 + n / 4096 % 64, 0x80 + n / 64 % 64, 0x80 + n % 64]
  }

  function Encode(s: string): seq<byte> {
    if s == "" then [] else EncodeChar(s[0]) + Encode(s[1..])
  }

  /** `Buffer.byteLength` */
  function ByteLength(s: string): nat {
    if s == "" then 0 else |EncodeChar(s[0])| + ByteLength(s[1..])
  }

  /** The six bits of a continuing byte. */
  function Six(bytes: seq<byte>, i: nat): int {
    if i < |bytes| then bytes[i] as int - 0x80 else 0
  }

  /** The number in the first bytes, as their lead byte tells to read them. */
  function LeadValue(bytes: seq<byte>): int {
    if bytes == [] then 0
    else if bytes[0] < 0xC0 then bytes[0]
    else if bytes[0] < 0xE0 then (bytes[0] - 0xC0) * 64 + Six(bytes, 1)
    else if bytes[0] < 0xF0 then (bytes[0] - 0xE0) * 4096 + Six(bytes, 1) * 64 + Six(bytes, 2)
    else (bytes[0] - 0xF0) * 262144 + Six(bytes, 1) * 4096 + Six(bytes, 2) * 64 + Six(bytes, 3)
  }

  predicate IsScalar(n: int) {
    0 <= n < 0xD800 || 0xE000 <= n < 0x11_0000
  }

  /** A strict decoder: the bytes must be the one encoding of the text. */
  function Decode(bytes: seq<byte>): Option<string> {
    if bytes == [] then Some("")
    else if !IsScalar(LeadValue(bytes)) then None
    else
      var first := EncodeChar(LeadValue(bytes) as char);
      if !(first <= bytes) then None
      else
        var rest := Decode(bytes[|first|..]);
        if rest.None? then None else Some([LeadValue(bytes) as char] + rest.value)
  }

  lemma SixBitsEach(n: nat)
    ensures n == n / 64 * 64 + n % 64
    ensures n == n / 4096 * 4096 + n / 64 % 64 * 64 + n % 64
    ensures n == n / 262144 * 262144 + n / 4096 % 64 * 4096 + n / 64 % 64 * 64 + n % 64
  {
    assert n / 64 / 64 == n / 4096 && n / 4096 / 64 == n / 262144;
  }

  lemma CharReadsBack(c: char, rest: seq<byte>)
    ensures LeadValue(EncodeChar(c) + rest) == c as int && IsScalar(c as int)
  {
    var first := EncodeChar(c);
    var bytes := first + rest;
    SixBitsEach(c as int);
    assert LeadValue(bytes) == LeadValue(first) by {
      hide EncodeChar;
      LeadIsLocal(c, rest);
    }
    assert LeadValue(first) == c as int;
  }

  lemma LeadIsLocal(c: char, rest: seq<byte>)
    ensures LeadValue(EncodeChar(c) + rest) == LeadValue(EncodeChar(c))
  {
    var first := EncodeChar(c);
    LeadTellsLength(c);
    assert forall i :: 0 <= i < |first| ==> (first + rest)[i] == first[i];
    hide EncodeChar;
  }

  lemma LeadTellsLength(c: char)
    ensures var first := EncodeChar(c);
            |first| == if first[0] < 0xC0 then 1 else if first[0] < 0xE0 then 2 else if first[0] < 0xF0 then 3 else 4
  {
  }

  lemma {:induction false} DecodeEncode(s: string)
    ensures Decode(Encode(s)) == Some(s)
  {
    hide EncodeChar, LeadValue;
    if s != "" {
      CharReadsBack(s[0], Encode(s[1..]));
      DecodeEncode(s[1..]);
      assert Encode(s)[|EncodeChar(s[0])|..] == Encode(s[1..]);
      assert s == [s[0]] + s[1..];
    }
  }

  /** Only the encoding of a text is decoded to it. */
  lemma {:induction false} EncodeDecode(bytes: seq<byte>)
    requires Decode(bytes).Some?
    ensures Encode(Decode(bytes).value) == bytes
    decreases |bytes|
  {
    hide EncodeChar, LeadValue;
    if bytes != [] {
      var first := EncodeChar(LeadValue(bytes) as char);
      EncodeDecode(bytes[|first|..]);
      var s := Decode(bytes).value;
      assert s[1..] == Decode(bytes[|first|..]).value;
      assert bytes == first + bytes[|first|..];
    }
  }

  lemma {:induction false} LengthOfEncoding(s: string)
    ensures |Encode(s)| == ByteLength(s)
  {
    hide EncodeChar;
    if s != "" {
      LengthOfEncoding(s[1..]);
    }
  }

  lemma {:induction false} EncodeAppends(s: string, t: string)
    ensures Encode(s + t) == Encode(s) + Encode(t)
    ensures ByteLength(s + t) == ByteLength(s) + ByteLength(t)
  {
    hide EncodeChar;
    if s == "" {
      assert s + t == t;
    } else {
      assert (s + t)[1..] == s[1..] + t;
      EncodeAppends(s[1..], t);
    }
  }

  /** Examples of section 7 of RFC 3629. */
  lemma PublishedExamples()
    ensures Encode("A\U{2262}\U{391}.") == [0x41, 0xE2, 0x89, 0xA2, 0xCE, 0x91, 0x2E]
    ensures Encode("\U{D55C}\U{AD6D}\U{C5B4}") == [0xED, 0x95, 0x9C, 0xEA, 0xB5, 0xAD, 0xEC, 0x96, 0xB4]
    ensures Encode("\U{FEFF}\U{233B4}") == [0xEF, 0xBB, 0xBF, 0xF0, 0xA3, 0x8E, 0xB4]
  {
    assert EncodeChar('A') == [0x41] && EncodeChar('\U{2262}') == [0xE2, 0x89, 0xA2];
    assert EncodeChar('\U{391}') == [0xCE, 0x91] && EncodeChar('.') == [0x2E];
    assert EncodeChar('\U{D55C}') == [0xED, 0x95, 0x9C] && EncodeChar('\U{AD6D}') == [0xEA, 0xB5, 0xAD];
    assert EncodeChar('\U{C5B4}') == [0xEC, 0x96, 0xB4] && EncodeChar('\U{FEFF}') == [0xEF, 0xBB, 0xBF];
    assert EncodeChar('\U{233B4}') == [0xF0, 0xA3, 0x8E, 0xB4];
    hide EncodeChar;
    assert Encode(".") == [0x2E];
    assert Encode("\U{391}.") == [0xCE, 0x91, 0x2E];
    assert Encode("\U{C5B4}") == [0xEC, 0x96, 0xB4];
    assert Encode("\U{AD6D}\U{C5B4}") == [0xEA, 0xB5, 0xAD, 0xEC, 0x96, 0xB4];
  }

  // The bounded tail

  /** The longest suffix of whole characters that fits. */
  function Tail(s: string, maximum: nat): string {
    if ByteLength(s) <= maximum then s else Tail(s[1..], maximum)
  }

  /** It is a suffix that fits. */
  lemma {:induction false} TailFits(s: string, maximum: nat)
    ensures var t := Tail(s, maximum);
            ByteLength(t) <= maximum && |t| <= |s| && t == s[|s| - |t|..]
  {
    hide EncodeChar;
    if ByteLength(s) > maximum {
      TailFits(s[1..], maximum);
    }
  }

  /** No longer suffix fits, and this one is short of the limit by less than a character. */
  lemma {:induction false} TailIsLongest(s: string, maximum: nat)
    requires ByteLength(s) > maximum
    ensures ByteLength(Tail(s, maximum)) + 3 >= maximum
    ensures forall k | 0 <= k <= |s| && ByteLength(s[k..]) <= maximum :: |s| - k <= |Tail(s, maximum)|
  {
    hide EncodeChar;
    var t := s[1..];
    if ByteLength(t) > maximum {
      TailIsLongest(t, maximum);
    }
    assert s[0..] == s;
    forall k | 0 <= k <= |s| && ByteLength(s[k..]) <= maximum
      ensures |s| - k <= |Tail(s, maximum)|
    {
      assert k > 0;
      assert s[k..] == t[k - 1..];
    }
  }

  /** Cutting a text while it grows gives the same tail as cutting it at the end. */
  lemma {:induction false} TailOfGrowing(s: string, t: string, maximum: nat)
    ensures Tail(Tail(s, maximum) + t, maximum) == Tail(s + t, maximum)
  {
    hide EncodeChar;
    EncodeAppends(s, t);
    TailSkips(s, maximum);
    TailSkips(s + t, maximum);
    if ByteLength(s) > maximum {
      assert (s + t)[1..] == s[1..] + t;
      TailOfGrowing(s[1..], t, maximum);
    }
  }

  predicate Continues(b: byte) {
    0x80 <= b < 0xC0
  }

  /** The first place from `from` on where no character is continued. */
  function NextStart(bytes: seq<byte>, from: nat): nat
    requires from <= |bytes|
    decreases |bytes| - from
  {
    hide EncodeChar;
    if from < |bytes| && Continues(bytes[from]) then NextStart(bytes, from + 1) else from
  }

  /** Exactly the first byte of a character starts it. */
  lemma CharStarts(c: char)
    ensures !Continues(EncodeChar(c)[0])
    ensures forall i :: 1 <= i < |EncodeChar(c)| ==> Continues(EncodeChar(c)[i])
  {
  }

  lemma FirstChar(s: string)
    requires s != ""
    ensures Encode(s) == EncodeChar(s[0]) + Encode(s[1..])
    ensures |Encode(s)| == |EncodeChar(s[0])| + |Encode(s[1..])| == ByteLength(s)
    ensures |Encode(s[1..])| == ByteLength(s[1..])
  {
    hide EncodeChar;
    LengthOfEncoding(s);
    LengthOfEncoding(s[1..]);
  }

  lemma TailSkips(s: string, maximum: nat)
    ensures ByteLength(s) <= maximum ==> Tail(s, maximum) == s
    ensures s != "" && maximum < ByteLength(s) ==> Tail(s, maximum) == Tail(s[1..], maximum)
  {
  }

  /** The next start in an encoding is the place between two characters. */
  lemma {:induction false} NextStartIsBoundary(s: string, from: nat)
    requires from <= |Encode(s)|
    ensures from <= NextStart(Encode(s), from) <= |Encode(s)|
    ensures Encode(s)[NextStart(Encode(s), from)..] == Encode(Tail(s, |Encode(s)| - from))
    decreases |s|
  {
    hide EncodeChar, Tail, Encode, NextStart;
    WholeText(s);
    if s != "" && from > 0 {
      NextInRest(s, from);
      NextStartIsBoundary(s[1..], InRest(s, from));
      SkipFirst(s, NextStart(Encode(s[1..]), InRest(s, from)));
    }
  }

  lemma WholeText(s: string)
    ensures NextStart(Encode(s), 0) == 0 && Encode(s)[0..] == Encode(s) && s == Tail(s, |Encode(s)|)
    ensures s == "" ==> |Encode(s)| == 0
  {
    hide EncodeChar;
    LengthOfEncoding(s);
    if s != "" {
      CharStarts(s[0]);
    }
  }

  /** The byte at `from` in a text, seen from the text after its first character. */
  function InRest(s: string, from: nat): nat
    requires s != ""
  {
    hide EncodeChar, Tail, Encode, NextStart, ByteLength;
    if from < |EncodeChar(s[0])| then 0 else from - |EncodeChar(s[0])|
  }

  lemma NextInRest(s: string, from: nat)
    requires s != "" && 0 < from <= |Encode(s)|
    ensures InRest(s, from) <= |Encode(s[1..])|
    ensures NextStart(Encode(s), from) == |EncodeChar(s[0])| + NextStart(Encode(s[1..]), InRest(s, from))
    ensures Tail(s, |Encode(s)| - from) == Tail(s[1..], |Encode(s[1..])| - InRest(s, from))
  {
    hide EncodeChar, Tail, Encode, NextStart, ByteLength;
    FirstChar(s);
    if from < |EncodeChar(s[0])| {
      InsideChar(s, from);
    } else {
      Shifted(s, from);
      TailSkips(s, |Encode(s)| - from);
    }
  }

  lemma SkipFirst(s: string, at: nat)
    requires s != "" && at <= |Encode(s[1..])|
    ensures |EncodeChar(s[0])| + at <= |Encode(s)|
    ensures Encode(s)[|EncodeChar(s[0])| + at..] == Encode(s[1..])[at..]
  {
    hide EncodeChar;
  }

  /** From within a character the next start is the end of the character. */
  lemma {:induction false} InsideChar(s: string, from: nat)
    requires s != "" && 0 < from < |EncodeChar(s[0])|
    ensures NextStart(Encode(s), from) == |EncodeChar(s[0])| + NextStart(Encode(s[1..]), 0)
    ensures Tail(s, |Encode(s)| - from) == Tail(s[1..], |Encode(s[1..])|)
    decreases |EncodeChar(s[0])| - from
  {
    var n := |EncodeChar(s[0])|;
    CharStarts(s[0]);
    FirstChar(s);
    TailSkips(s, |Encode(s)| - from);
    TailSkips(s[1..], |Encode(s)| - from);
    TailSkips(s[1..], |Encode(s[1..])|);
    assert Encode(s)[from] == EncodeChar(s[0])[from];
    if from + 1 < n {
      InsideChar(s, from + 1);
    } else {
      Shifted(s, n);
    }
  }

  lemma {:induction false} Shifted(s: string, from: nat)
    requires s != "" && |EncodeChar(s[0])| <= from <= |Encode(s)|
    ensures NextStart(Encode(s), from) == |EncodeChar(s[0])| + NextStart(Encode(s[1..]), from - |EncodeChar(s[0])|)
    decreases |Encode(s)| - from
  {
    FirstChar(s);
    hide EncodeChar, Encode, Continues, ByteLength;
    var n := |EncodeChar(s[0])|;
    assert from < |Encode(s)| ==> Encode(s)[from] == Encode(s[1..])[from - n];
    if from < |Encode(s)| && Continues(Encode(s)[from]) {
      Shifted(s, from + 1);
    }
  }

  /** `boundedUtf8Tail`: a whole text, the longest suffix that fits. */
  method BoundedTail(value: string, maximum: nat) returns (tail: string)
    ensures tail == Tail(value, maximum)
  {
    hide EncodeChar, LeadValue, Tail, Decode, Encode;
    var bytes := Encode(value);
    LengthOfEncoding(value);
    if |bytes| <= maximum {
      TailSkips(value, maximum);
      return value;
    }
    var start := |bytes| - maximum;
    var offset := 0;
    while offset < maximum && Continues(bytes[start + offset])
      invariant offset <= maximum
      invariant NextStart(bytes, start) == NextStart(bytes, start + offset)
    {
      offset := offset + 1;
    }
    NextStartIsBoundary(value, start);
    DecodeEncode(Tail(value, maximum));
    tail := Decode(bytes[start + offset..]).value;
  }
}
