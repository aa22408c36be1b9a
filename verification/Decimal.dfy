/**
  Canonical decimals and the overflow-checked parser of native/linux-ext4-inspector.c. A C
  string is a buffer and an offset; each byte is a character.
 */
module Decimal {
  import opened Strings

  const UINT64_MAX: nat := 0xFFFF_FFFF_FFFF_FFFF

  const NUL: char := '\0'

  predicate IsDigit(c: char) {
    '0' <= c <= '9'
  }

  predicate AllDigits(s: string) {
    forall i :: 0 <= i < |s| ==> IsDigit(s[i])
  }

  /** The number that a string of digits stands for. */
  function Value(s: string): nat
    requires AllDigits(s)
  {
    if s == "" then 0 else 10 * Value(s[..|s| - 1]) + (s[|s| - 1] as int - '0' as int)
  }

  /** Digits without a leading zero. */
  predicate Canonical(s: string) {
    s != "" && AllDigits(s) && (s[0] == '0' ==> |s| == 1)
  }

  predicate IsUint64(s: string) {
    Canonical(s) && Value(s) <= UINT64_MAX
  }

  /** The decimal of a number, digit by digit. */
  function Render(n: nat): (s: string)
    ensures Canonical(s) && Value(s) == n
    ensures n > 0 ==> s[0] != '0'
  {
    if n < 10 then ['0' + n as char] else Render(n / 10) + ['0' + (n % 10) as char]
  }

  /** A number has one canonical decimal. */
  lemma {:induction false} CanonicalIsRendered(s: string)
    requires Canonical(s)
    ensures s == Render(Value(s))
  {
    var init, digit := s[..|s| - 1], s[|s| - 1] as int - '0' as int;
    assert s == init + ['0' + digit as char];
    if init == "" {
      assert Value(s) == digit;
    } else {
      assert init[0] == s[0] != '0';
      CanonicalIsRendered(init);
      PositiveValue(init);
      assert Value(s) / 10 == Value(init) && Value(s) % 10 == digit;
    }
  }

  lemma {:induction false} PositiveValue(s: string)
    requires Canonical(s) && s[0] != '0'
    ensures Value(s) > 0
  {
    if |s| > 1 {
      PositiveValue(s[..|s| - 1]);
    }
  }

  /** The accepted strings are exactly the decimals of the 64-bit numbers. */
  lemma Uint64sAreRendered(s: string)
    ensures IsUint64(s) <==> exists n :: 0 <= n <= UINT64_MAX && s == Render(n)
  {
    if IsUint64(s) {
      CanonicalIsRendered(s);
    }
  }

  /** More digits never make a number smaller. */
  lemma {:induction false} PrefixIsSmaller(s: string, k: nat)
    requires AllDigits(s) && k <= |s|
    ensures Value(s[..k]) <= Value(s)
    decreases |s|
  {
    if k < |s| {
      assert s[..|s| - 1][..k] == s[..k];
      PrefixIsSmaller(s[..|s| - 1], k);
    } else {
      assert s[..k] == s;
    }
  }

  /** The C string that starts at `from`. */
  function Text(s: string, from: nat): string
    requires from <= |s|
  {
    s[from..Find(s, NUL, from)]
  }

  /** `parse_u64_decimal`: no step overflows, and exactly the canonical 64-bit decimals are accepted. */
  method ParseU64Decimal(buffer: array<char>, start: nat) returns (ok: bool, output: nat)
    requires start < buffer.Length && buffer[buffer.Length - 1] == NUL
    ensures ok <==> IsUint64(Text(buffer[..], start))
    ensures ok ==> output == Value(Text(buffer[..], start)) <= UINT64_MAX
  {
    ghost var text := Text(buffer[..], start);
    ghost var end := start + |text|;
    var parsed, cursor := 0, start;
    if buffer[cursor] == NUL { return false, 0; }
    if buffer[cursor] == '0' && buffer[cursor + 1] != NUL { return false, 0; }
    while buffer[cursor] != NUL
      invariant start <= cursor <= end
      invariant AllDigits(text[..cursor - start])
      invariant parsed == Value(text[..cursor - start]) <= UINT64_MAX
      decreases end - cursor
    {
      assert buffer[cursor] == text[cursor - start];
      if buffer[cursor] < '0' || buffer[cursor] > '9' { return false, 0; }
      var digit := buffer[cursor] as int - '0' as int;
      OneMoreDigit(text, cursor - start);
      if parsed > (UINT64_MAX - digit) / 10 {
        return false, 0;
      }
      parsed := parsed * 10 + digit;
      cursor := cursor + 1;
    }
    assert text[..cursor - start] == text;
    return true, parsed;
  }

  /** One more digit, and what it says about the whole. */
  lemma OneMoreDigit(s: string, k: nat)
    requires k < |s| && AllDigits(s[..k]) && IsDigit(s[k])
    ensures AllDigits(s[..k + 1])
    ensures Value(s[..k + 1]) == 10 * Value(s[..k]) + (s[k] as int - '0' as int)
    ensures AllDigits(s) ==> Value(s[..k + 1]) <= Value(s)
  {
    assert s[..k + 1][..k] == s[..k];
    if AllDigits(s) {
      PrefixIsSmaller(s, k + 1);
    }
  }
}
