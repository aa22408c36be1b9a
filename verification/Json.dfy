/**
  Canonical JSON (src/encrypted-auth-state-store.mjs): flat objects of texts and whole
  numbers, as `JSON.stringify` writes them, and the reader that accepts nothing else.
 */
module Json {
  import opened Options
  import opened Bytes
  import D = Decimal

  datatype Value = Text(text: string) | Number(number: nat)

  datatype Field = Field(key: string, value: Value)

  // Writing

  /** The escapes of `JSON.stringify`. */
  function Escape(c: char): string {
    match c
    case '"' => "\\\""
    case '\\' => "\\\\"
    case '\U{8}' => "\\b"
    case '\t' => "\\t"
    case '\n' => "\\n"
    case '\U{C}' => "\\f"
    case '\r' => "\\r"
    case _ =>
      if c < ' ' then "\\u00" + [HexDigit(c as int / 16), HexDigit(c as int % 16)] else [c]
  }

  function EscapeAll(s: string): string {
    if s == "" then "" else Escape(s[0]) + EscapeAll(s[1..])
  }

  function Quote(s: string): string {
    "\"" + EscapeAll(s) + "\""
  }

  function ValueText(v: Value): string {
    match v
    case Text(text) => Quote(text)
    case Number(number) => D.Render(number)
  }

  function FieldText(f: Field): string {
    Quote(f.key) + ":" + ValueText(f.value)
  }

  /** The fields, the commas between them and the closing brace. */
  function Members(fields: seq<Field>): string
    requires fields != []
  {
    FieldText(fields[0]) + if |fields| == 1 then "}" else "," + Members(fields[1..])
  }

  /** `canonicalJson` without its newline */
  function Serialize(fields: seq<Field>): string {
    if fields == [] then "{}" else "{" + Members(fields)
  }

  /** Characters that are written as they are. */
  predicate Plain(s: string) {
    forall i :: 0 <= i < |s| ==> s[i] >= ' ' && s[i] != '"' && s[i] != '\\'
  }

  lemma {:induction false} PlainIsKept(s: string)
    requires Plain(s)
    ensures EscapeAll(s) == s
  {
    if s != "" {
      PlainIsKept(s[1..]);
      assert Escape(s[0]) == [s[0]];
      assert s == [s[0]] + s[1..];
    }
  }

  /** Quotation mark, backslash and control characters, as section 25.5.2 of ECMA-262 has them written. */
  lemma EscapesAreWritten()
    ensures Quote("\"") == "\"\\\"\"" && Quote("\\") == "\"\\\\\""
    ensures Escape('\U{8}') == "\\b" && Escape('\t') == "\\t" && Escape('\n') == "\\n"
    ensures Escape('\U{C}') == "\\f" && Escape('\r') == "\\r"
    ensures Escape('\0') == "\\u0000" && Escape('\U{B}') == "\\u000b" && Escape('\U{1F}') == "\\u001f"
  {
  }

  // Reading

  function HexValue(c: char): Option<nat> {
    if '0' <= c <= '9' then Some(c as int - '0' as int)
    else if 'a' <= c <= 'f' then Some(c as int - 'a' as int + 10)
    else if 'A' <= c <= 'F' then Some(c as int - 'A' as int + 10)
    else None
  }

  /** Digits of both cases are read. */
  lemma HexDigitsAreRead(n: nat)
    requires n < 16
    ensures HexValue("0123456789abcdef"[n]) == Some(n) && HexValue("0123456789ABCDEF"[n]) == Some(n)
  {
  }

  datatype Parsed<+T> = Parsed(value: T, rest: string)

  /** What one escape stands for; the escapes of surrogates are not read. */
  function ParseEscape(s: string): Option<Parsed<char>> {
    if s == "" then None
    else
      match s[0]
      case '"' => Some(Parsed('"', s[1..]))
      case '\\' => Some(Parsed('\\', s[1..]))
      case '/' => Some(Parsed('/', s[1..]))
      case 'b' => Some(Parsed('\U{8}', s[1..]))
      case 't' => Some(Parsed('\t', s[1..]))
      case 'n' => Some(Parsed('\n', s[1..]))
      case 'f' => Some(Parsed('\U{C}', s[1..]))
      case 'r' => Some(Parsed('\r', s[1..]))
      case 'u' => ParseUnicode(s[1..])
      case _ => None
  }

  function ParseUnicode(s: string): Option<Parsed<char>> {
    if |s| < 4 then None
    else
      var a, b, c, d := HexValue(s[0]), HexValue(s[1]), HexValue(s[2]), HexValue(s[3]);
      if a.None? || b.None? || c.None? || d.None? then None
      else
        var n := a.value * 4096 + b.value * 256 + c.value * 16 + d.value;
        if 0xD800 <= n < 0xE000 || n >= 0x1_0000 then None else Some(Parsed(n as char, s[4..]))
  }

  /** The characters up to the closing quote. */
  function ParseChars(s: string): (p: Option<Parsed<string>>)
    ensures p.Some? ==> |p.value.rest| < |s|
    decreases |s|
  {
    if s == "" || s[0] < ' ' then None
    else if s[0] == '"' then Some(Parsed("", s[1..]))
    else
      var first := if s[0] == '\\' then ParseEscape(s[1..]) else Some(Parsed(s[0], s[1..]));
      if first.None? then None
      else
        var others := ParseChars(first.value.rest);
        if others.None? then None
        else Some(Parsed([first.value.value] + others.value.value, others.value.rest))
  }

  function ParseString(s: string): (p: Option<Parsed<string>>)
    ensures p.Some? ==> |p.value.rest| < |s|
  {
    if s == "" || s[0] != '"' then None else ParseChars(s[1..])
  }

  /** The number of digits that a text begins with. */
  function DigitCount(s: string): (n: nat)
    ensures n <= |s| && D.AllDigits(s[..n])
    ensures n < |s| ==> !D.IsDigit(s[n])
  {
    if s != "" && D.IsDigit(s[0]) then
      var n := DigitCount(s[1..]) + 1;
      assert forall i :: 1 <= i < n ==> s[i] == s[1..][..n - 1][i - 1];
      n
    else 0
  }

  function ParseNumber(s: string): (p: Option<Parsed<nat>>)
    ensures p.Some? ==> |p.value.rest| < |s|
  {
    var n := DigitCount(s);
    if D.Canonical(s[..n]) then Some(Parsed(D.Value(s[..n]), s[n..])) else None
  }

  function ParseValue(s: string): (p: Option<Parsed<Value>>)
    ensures p.Some? ==> |p.value.rest| < |s|
  {
    if s != "" && s[0] == '"' then
      var t := ParseString(s);
      if t.None? then None else Some(Parsed(Text(t.value.value), t.value.rest))
    else
      var n := ParseNumber(s);
      if n.None? then None else Some(Parsed(Number(n.value.value), n.value.rest))
  }

  function ParseField(s: string): (p: Option<Parsed<Field>>)
    ensures p.Some? ==> |p.value.rest| < |s|
  {
    var key := ParseString(s);
    if key.None? || key.value.rest == "" || key.value.rest[0] != ':' then None
    else
      var v := ParseValue(key.value.rest[1..]);
      if v.None? then None else Some(Parsed(Field(key.value.value, v.value.value), v.value.rest))
  }

  function ParseMembers(s: string): Option<Parsed<seq<Field>>>
    decreases |s|
  {
    var f := ParseField(s);
    if f.None? || f.value.rest == "" then None
    else if f.value.rest[0] == '}' then Some(Parsed([f.value.value], f.value.rest[1..]))
    else if f.value.rest[0] != ',' then None
    else
      var others := ParseMembers(f.value.rest[1..]);
      if others.None? then None
      else Some(Parsed([f.value.value] + others.value.value, others.value.rest))
  }

  /** The object that a text begins with; fields may come in any order and with any escapes. */
  function ParseObject(s: string): Option<Parsed<seq<Field>>> {
    if s == "" || s[0] != '{' then None
    else if |s| > 1 && s[1] == '}' then Some(Parsed([], s[2..]))
    else ParseMembers(s[1..])
  }

  // What was written is read back

  lemma EscapeReadsBack(c: char, rest: string)
    ensures var s := Escape(c) + rest;
            && s[0] >= ' ' && s[0] != '"'
            && (s[0] == '\\' ==> ParseEscape(s[1..]) == Some(Parsed(c, rest)))
            && (s[0] != '\\' ==> s[0] == c && s[1..] == rest)
  {
    var s := Escape(c) + rest;
    if |Escape(c)| == 6 {
      ControlReadsBack(c, rest);
    } else if |Escape(c)| == 2 {
      assert s[1..][1..] == rest;
    } else {
      assert s == [c] + rest;
    }
  }

  lemma ControlReadsBack(c: char, rest: string)
    requires c < ' ' && |Escape(c)| == 6
    ensures Escape(c)[0] == '\\' && ParseEscape((Escape(c) + rest)[1..]) == Some(Parsed(c, rest))
  {
    var s := (Escape(c) + rest)[1..];
    assert s[0] == 'u' && s[1..][..4] == "00" + [HexDigit(c as int / 16), HexDigit(c as int % 16)];
    assert s[1..][4..] == rest;
    HexReadsBack(c as int / 16);
    HexReadsBack(c as int % 16);
    hide HexDigit, HexValue, Escape;
    var t := s[1..];
    assert t[0] == '0' && t[1] == '0' && t[2] == HexDigit(c as int / 16) && t[3] == HexDigit(c as int % 16);
    assert HexValue('0') == Some(0) by {
      HexReadsBack(0);
      HexZero();
    }
  }

  lemma HexZero()
    ensures HexDigit(0) == '0'
  {
  }

  lemma HexReadsBack(n: nat)
    requires n < 16
    ensures HexValue(HexDigit(n)) == Some(n)
  {
  }

  lemma {:induction false} CharsReadBack(s: string, rest: string)
    ensures ParseChars(EscapeAll(s) + "\"" + rest) == Some(Parsed(s, rest))
    decreases |s|
  {
    if s == "" {
      assert EscapeAll(s) + "\"" + rest == "\"" + rest;
      QuoteEnds(rest);
    } else {
      var others := EscapeAll(s[1..]) + "\"" + rest;
      assert EscapeAll(s) + "\"" + rest == Escape(s[0]) + others;
      hide Escape, ParseChars, EscapeAll;
      CharsReadBack(s[1..], rest);
      OneCharReadsBack(s[0], others, s[1..], rest);
      assert s == [s[0]] + s[1..];
    }
  }

  lemma QuoteEnds(rest: string)
    ensures ParseChars("\"" + rest) == Some(Parsed("", rest))
  {
    hide ParseEscape;
    assert ("\"" + rest)[1..] == rest;
  }

  lemma OneCharReadsBack(c: char, others: string, s: string, rest: string)
    requires ParseChars(others) == Some(Parsed(s, rest))
    ensures ParseChars(Escape(c) + others) == Some(Parsed([c] + s, rest))
  {
    EscapeReadsBack(c, others);
    hide Escape, ParseEscape;
  }

  lemma StringReadsBack(s: string, rest: string)
    ensures ParseString(Quote(s) + rest) == Some(Parsed(s, rest))
  {
    CharsReadBack(s, rest);
    assert (Quote(s) + rest)[1..] == EscapeAll(s) + "\"" + rest;
  }

  lemma {:induction false} DigitsEnd(s: string, rest: string)
    requires D.AllDigits(s) && (rest == "" || !D.IsDigit(rest[0]))
    ensures DigitCount(s + rest) == |s|
  {
    if s != "" {
      assert (s + rest)[1..] == s[1..] + rest;
      DigitsEnd(s[1..], rest);
    }
  }

  lemma NumberReadsBack(n: nat, rest: string)
    requires rest == "" || !D.IsDigit(rest[0])
    ensures ParseNumber(D.Render(n) + rest) == Some(Parsed(n, rest))
  {
    var s := D.Render(n);
    DigitsEnd(s, rest);
    assert (s + rest)[..|s|] == s && (s + rest)[|s|..] == rest;
  }

  lemma ValueReadsBack(v: Value, rest: string)
    requires rest == "" || !D.IsDigit(rest[0])
    ensures ParseValue(ValueText(v) + rest) == Some(Parsed(v, rest))
  {
    match v
    case Text(text) => StringReadsBack(text, rest);
    case Number(number) =>
      NumberReadsBack(number, rest);
      assert D.IsDigit(D.Render(number)[0]);
  }

  lemma FieldReadsBack(f: Field, rest: string)
    requires rest == "" || !D.IsDigit(rest[0])
    ensures ParseField(FieldText(f) + rest) == Some(Parsed(f, rest))
  {
    hide ParseString, ParseValue, Quote, ValueText;
    var tail := ":" + ValueText(f.value) + rest;
    assert FieldText(f) + rest == Quote(f.key) + tail;
    StringReadsBack(f.key, tail);
    assert tail[1..] == ValueText(f.value) + rest;
    ValueReadsBack(f.value, rest);
  }

  lemma {:induction false} MembersReadBack(fields: seq<Field>, rest: string)
    requires fields != []
    ensures ParseMembers(Members(fields) + rest) == Some(Parsed(fields, rest))
    decreases |fields|
  {
    hide ParseField, FieldText;
    var f := fields[0];
    if |fields| == 1 {
      assert Members(fields) + rest == FieldText(f) + ("}" + rest);
      FieldReadsBack(f, "}" + rest);
      assert ("}" + rest)[1..] == rest && fields == [f];
    } else {
      var others := Members(fields[1..]) + rest;
      assert Members(fields) + rest == FieldText(f) + ("," + others);
      FieldReadsBack(f, "," + others);
      assert ("," + others)[1..] == others;
      MembersReadBack(fields[1..], rest);
      assert fields == [f] + fields[1..];
    }
  }

  lemma MembersBegin(fields: seq<Field>)
    requires fields != []
    ensures Members(fields) != "" && Members(fields)[0] == '"'
  {
  }

  /** Everything that is written is read back, and what follows it is left over. */
  lemma ObjectReadsBack(fields: seq<Field>, rest: string)
    ensures ParseObject(Serialize(fields) + rest) == Some(Parsed(fields, rest))
  {
    hide Members, ParseMembers;
    var s := Serialize(fields) + rest;
    if fields == [] {
      assert s[2..] == rest;
    } else {
      MembersBegin(fields);
      assert s[1..] == Members(fields) + rest;
      MembersReadBack(fields, rest);
    }
  }

  // parseCanonicalJson

  /** The fields of an object by key; a later one replaces an earlier one. */
  function ByKey(fields: seq<Field>): map<string, Value> {
    if fields == [] then map[]
    else ByKey(fields[..|fields| - 1])[fields[|fields| - 1].key := fields[|fields| - 1].value]
  }

  function Select(keys: seq<string>, values: map<string, Value>): seq<Field>
    requires forall i :: 0 <= i < |keys| ==> keys[i] in values
  {
    seq(|keys|, i requires 0 <= i < |keys| => Field(keys[i], values[keys[i]]))
  }

  predicate IsSpace(s: string) {
    forall i :: 0 <= i < |s| ==> s[i] in " \t\n\r"
  }

  function Newline(newline: bool): string {
    if newline then "\n" else ""
  }

  /** `parseCanonicalJson`: parse, require exactly the expected keys, write again and compare. */
  function ParseCanonical(raw: string, keys: seq<string>, newline: bool): Option<seq<Field>> {
    var p := ParseObject(raw);
    if p.None? || !IsSpace(p.value.rest) then None
    else
      var values := ByKey(p.value.value);
      if values.Keys != set k | k in keys then None
      else
        var fields := Select(keys, values);
        if Serialize(fields) + Newline(newline) != raw then None else Some(fields)
  }

  function Keys(fields: seq<Field>): seq<string> {
    seq(|fields|, i requires 0 <= i < |fields| => fields[i].key)
  }

  predicate Distinct(keys: seq<string>) {
    forall i, j :: 0 <= i < j < |keys| ==> keys[i] != keys[j]
  }

  /** The keys of distinct fields are the keys of the map, each with its value. */
  lemma {:induction false} ByKeyFinds(fields: seq<Field>)
    requires forall i, j :: 0 <= i < j < |fields| ==> fields[i].key != fields[j].key
    ensures forall i :: 0 <= i < |fields| ==> fields[i].key in ByKey(fields) && ByKey(fields)[fields[i].key] == fields[i].value
  {
    if fields != [] {
      var n := |fields| - 1;
      var init := fields[..n];
      assert forall i :: 0 <= i < n ==> init[i] == fields[i];
      ByKeyFinds(init);
    }
  }

  lemma {:induction false} ByKeyHasOnly(fields: seq<Field>, k: string)
    requires k in ByKey(fields)
    ensures k in Keys(fields)
  {
    var n := |fields| - 1;
    if k == fields[n].key {
      assert Keys(fields)[n] == k;
    } else {
      ByKeyHasOnly(fields[..n], k);
      var i :| 0 <= i < n && Keys(fields[..n])[i] == k;
      assert Keys(fields)[i] == k;
    }
  }

  lemma KeysOfMap(fields: seq<Field>)
    requires Distinct(Keys(fields))
    ensures ByKey(fields).Keys == set k | k in Keys(fields)
    ensures Select(Keys(fields), ByKey(fields)) == fields
  {
    assert forall i :: 0 <= i < |fields| ==> Keys(fields)[i] == fields[i].key;
    ByKeyFinds(fields);
    hide ByKey;
    forall k | k in ByKey(fields)
      ensures k in Keys(fields)
    {
      ByKeyHasOnly(fields, k);
    }
  }

  /** Exactly the canonical texts are accepted, each for the fields that it stands for. */
  lemma CanonicalIsExact(raw: string, keys: seq<string>, newline: bool, fields: seq<Field>)
    requires Distinct(keys)
    ensures ParseCanonical(raw, keys, newline) == Some(fields)
            <==> Keys(fields) == keys && raw == Serialize(fields) + Newline(newline)
  {
    hide ParseObject, Serialize, ByKey, Distinct;
    if Keys(fields) == keys && raw == Serialize(fields) + Newline(newline) {
      ObjectReadsBack(fields, Newline(newline));
      KeysOfMap(fields);
    }
    if ParseCanonical(raw, keys, newline) == Some(fields) {
      assert Keys(fields) == keys;
    }
  }
}
