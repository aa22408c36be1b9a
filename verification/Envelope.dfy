/**
  The encrypted file format of the store (src/encrypted-auth-state-store.mjs): a record in
  canonical JSON, sealed, in an envelope of canonical JSON. The cipher is a parameter.
 */
module Envelope {
  import opened Options
  import opened Bytes
  import opened Strings
  import D = Decimal
  import U = Utf8
  import B = Base64Url
  import J = Json
  import R = Register

  const MAX_ENVELOPE_BYTES: nat := 2 * 1024 * 1024

  const MAX_PAYLOAD_BYTES: nat := 1024 * 1024

  const ENVELOPE_FIELDS: seq<string> :=
    ["formatVersion", "algorithm", "authorityId", "keyId", "nonce", "ciphertext", "tag"]

  const RECORD_FIELDS: seq<string> :=
    ["recordVersion", "generation", "baseGeneration", "commitId", "operation", "payload"]

  // The cipher

  type Key = nat

  datatype Sealed = Sealed(ciphertext: seq<byte>, tag: seq<byte>)

  /** Authenticated encryption under a key and a nonce, with bytes that are only authenticated. */
  datatype Aead = Aead(
    seal: (Key, seq<byte>, seq<byte>, seq<byte>) -> Sealed,
    unseal: (Key, seq<byte>, seq<byte>, Sealed) -> Option<seq<byte>>)

  /** Exactly what was sealed can be opened, and the ciphertext is as long as the plaintext. */
  ghost predicate Sound(a: Aead) {
    && (forall k, n, h, p :: |a.seal(k, n, h, p).ciphertext| == |p| && |a.seal(k, n, h, p).tag| == 16)
    && (forall k, n, h, p, s :: a.unseal(k, n, h, s) == Some(p) <==> s == a.seal(k, n, h, p))
  }

  /** There is such a cipher, though this one hides nothing. */
  lemma SomeCipherIsSound() returns (a: Aead)
    ensures Sound(a)
  {
    var tag: seq<byte> := [0, 0, 0, 0, 0, 0, 0, 0, 0, 0, 0, 0, 0, 0, 0, 0];
    a := Aead((k: Key, n: seq<byte>, h: seq<byte>, p: seq<byte>) => Sealed(p, tag),
              (k: Key, n: seq<byte>, h: seq<byte>, s: Sealed) => if s.tag == tag then Some(s.ciphertext) else None);
  }

  // Records and envelopes

  datatype Record = Record(
    generation: nat,
    baseGeneration: nat,
    commitId: string,
    operation: R.Operation,
    payload: string)

  predicate ValidRecord(r: Record) {
    && r.generation == r.baseGeneration + 1 <= D.UINT64_MAX
    && OpaqueId(r.commitId)
    && U.ByteLength(r.payload) <= MAX_PAYLOAD_BYTES
  }

  function OperationText(operation: R.Operation): string {
    match operation
    case CompareAndSwap => "compare-and-swap"
    case RotateEncryption => "rotate-encryption"
  }

  function RecordFields(r: Record): seq<J.Field> {
    [J.Field("recordVersion", J.Number(1)),
     J.Field("generation", J.Text(D.Render(r.generation))),
     J.Field("baseGeneration", J.Text(D.Render(r.baseGeneration))),
     J.Field("commitId", J.Text(r.commitId)),
     J.Field("operation", J.Text(OperationText(r.operation))),
     J.Field("payload", J.Text(r.payload))]
  }

  function Plaintext(r: Record): seq<byte> {
    U.Encode(J.Serialize(RecordFields(r)))
  }

  function HeaderFields(authorityId: string, keyId: string): seq<J.Field> {
    [J.Field("formatVersion", J.Number(1)),
     J.Field("algorithm", J.Text("aes-256-gcm")),
     J.Field("authorityId", J.Text(authorityId)),
     J.Field("keyId", J.Text(keyId))]
  }

  function Header(authorityId: string, keyId: string): seq<byte> {
    U.Encode(J.Serialize(HeaderFields(authorityId, keyId)))
  }

  /** What an envelope holds besides its fixed fields. */
  datatype Outer = Outer(keyId: string, nonce: seq<byte>, sealed: Sealed)

  function EnvelopeFields(authorityId: string, o: Outer): seq<J.Field> {
    HeaderFields(authorityId, o.keyId)
    + [J.Field("nonce", J.Text(B.Encode(o.nonce))),
       J.Field("ciphertext", J.Text(B.Encode(o.sealed.ciphertext))),
       J.Field("tag", J.Text(B.Encode(o.sealed.tag)))]
  }

  // The texts

  /** A key and a text that needs no escape. */
  function Pair(key: string, text: string): string {
    "\"" + key + "\":\"" + text + "\""
  }

  function NumberPair(key: string, number: nat): string {
    "\"" + key + "\":" + D.Render(number)
  }

  /** A key and any text. */
  function QuotedPair(key: string, text: string): string {
    "\"" + key + "\":" + J.Quote(text)
  }

  lemma QuotedField(key: string, text: string)
    requires J.Plain(key)
    ensures J.FieldText(J.Field(key, J.Text(text))) == QuotedPair(key, text)
  {
    J.PlainIsKept(key);
    hide J.EscapeAll;
  }

  lemma TextField(key: string, text: string)
    requires J.Plain(key) && J.Plain(text)
    ensures J.FieldText(J.Field(key, J.Text(text))) == Pair(key, text)
  {
    J.PlainIsKept(key);
    J.PlainIsKept(text);
    hide J.EscapeAll;
  }

  lemma NumberField(key: string, number: nat)
    requires J.Plain(key)
    ensures J.FieldText(J.Field(key, J.Number(number))) == NumberPair(key, number)
  {
    J.PlainIsKept(key);
    hide J.EscapeAll, D.Render;
  }

  /** Identifiers are written as they are. */
  lemma OpaqueIdsArePlain(id: string)
    requires OpaqueId(id)
    ensures J.Plain(id)
  {
  }

  lemma FourMembers(a: J.Field, b: J.Field, c: J.Field, d: J.Field, ta: string, tb: string, tc: string, td: string)
    requires J.FieldText(a) == ta && J.FieldText(b) == tb && J.FieldText(c) == tc && J.FieldText(d) == td
    ensures J.Members([a, b, c, d]) == ta + "," + tb + "," + tc + "," + td + "}"
  {
    hide J.FieldText;
    assert [a, b, c, d][1..] == [b, c, d] && [b, c, d][1..] == [c, d] && [c, d][1..] == [d];
    assert J.Members([d]) == td + "}";
    assert J.Members([c, d]) == tc + "," + td + "}";
    assert J.Members([b, c, d]) == tb + "," + tc + "," + td + "}";
  }

  lemma SixMembers(a: J.Field, b: J.Field, rest: seq<J.Field>, ta: string, tb: string, tail: string)
    requires J.FieldText(a) == ta && J.FieldText(b) == tb && rest != [] && J.Members(rest) == tail
    ensures J.Members([a, b] + rest) == ta + "," + (tb + "," + tail)
  {
    hide J.FieldText;
    assert ([a, b] + rest)[1..] == [b] + rest && ([b] + rest)[1..] == rest;
    assert J.Members([b] + rest) == tb + "," + tail;
  }

  /** What is authenticated besides the record: these keys in this order. */
  lemma HeaderText(authorityId: string, keyId: string)
    requires J.Plain(authorityId) && J.Plain(keyId)
    ensures J.Serialize(HeaderFields(authorityId, keyId))
         == "{" + (NumberPair("formatVersion", 1) + "," + Pair("algorithm", "aes-256-gcm") + ","
                   + Pair("authorityId", authorityId) + "," + Pair("keyId", keyId) + "}")
  {
    hide J.EscapeAll, J.FieldText, J.Members, Pair, NumberPair;
    var f := HeaderFields(authorityId, keyId);
    NumberField("formatVersion", 1);
    TextField("algorithm", "aes-256-gcm");
    TextField("authorityId", authorityId);
    TextField("keyId", keyId);
    FourMembers(f[0], f[1], f[2], f[3], NumberPair("formatVersion", 1), Pair("algorithm", "aes-256-gcm"),
                Pair("authorityId", authorityId), Pair("keyId", keyId));
  }

  /** The record that is encrypted: these keys in this order, and the payload quoted. */
  lemma RecordText(r: Record)
    requires J.Plain(r.commitId)
    ensures J.Serialize(RecordFields(r))
         == "{" + (NumberPair("recordVersion", 1) + ","
                   + (Pair("generation", D.Render(r.generation)) + ","
                      + (Pair("baseGeneration", D.Render(r.baseGeneration)) + "," + Pair("commitId", r.commitId) + ","
                         + Pair("operation", OperationText(r.operation)) + "," + QuotedPair("payload", r.payload) + "}")))
  {
    hide J.EscapeAll, J.FieldText, J.Members, J.Quote, Pair, NumberPair, QuotedPair, D.Render;
    var f := RecordFields(r);
    NumberField("recordVersion", 1);
    TextField("generation", D.Render(r.generation));
    TextField("baseGeneration", D.Render(r.baseGeneration));
    TextField("commitId", r.commitId);
    TextField("operation", OperationText(r.operation));
    QuotedField("payload", r.payload);
    FourMembers(f[2], f[3], f[4], f[5], Pair("baseGeneration", D.Render(r.baseGeneration)), Pair("commitId", r.commitId),
                Pair("operation", OperationText(r.operation)), QuotedPair("payload", r.payload));
    SixMembers(f[0], f[1], [f[2], f[3], f[4], f[5]], NumberPair("recordVersion", 1),
               Pair("generation", D.Render(r.generation)), J.Members([f[2], f[3], f[4], f[5]]));
    assert f == [f[0], f[1]] + [f[2], f[3], f[4], f[5]];
  }

  // Writing and reading

  datatype Error =
    | InvalidAuthState
    | UnsupportedAuthState
    | AuthorityBindingMismatch
    | AuthStateIntegrityFailed
    | KeyUnavailable
    | InvalidGeneration
    | InvalidPayload
    | InvalidKeyId
    | InvalidRandomSource

  datatype Result<+T> = Ok(value: T) | Err(error: Error)

  /** `#encryptRecord` with a key from `#activeKey` and a nonce from the random source. */
  function Write(a: Aead, authorityId: string, keyId: string, key: Key, nonce: seq<byte>, r: Record): Result<string> {
    if !OpaqueId(keyId) then Err(InvalidKeyId)
    else if |nonce| != 12 then Err(InvalidRandomSource)
    else
      var sealed := a.seal(key, nonce, Header(authorityId, keyId), Plaintext(r));
      var raw := J.Serialize(EnvelopeFields(authorityId, Outer(keyId, nonce, sealed))) + "\n";
      if U.ByteLength(raw) > MAX_ENVELOPE_BYTES then Err(InvalidPayload) else Ok(raw)
  }

  /** `validateOpaqueId` on a parsed value */
  predicate HoldsId(v: J.Value) {
    v.Text? && OpaqueId(v.text)
  }

  /** The checks of `#decryptEnvelope` before the key is needed. */
  function CheckEnvelope(authorityId: string, f: seq<J.Field>): Result<Outer>
    requires J.Keys(f) == ENVELOPE_FIELDS
  {
    assert |f| == 7;
    if f[0].value != J.Number(1) || f[1].value != J.Text("aes-256-gcm") then Err(UnsupportedAuthState)
    else if !HoldsId(f[2].value) then Err(InvalidAuthState)
    else if f[2].value.text != authorityId then Err(AuthorityBindingMismatch)
    else if !HoldsId(f[3].value) then Err(InvalidAuthState)
    else if !f[4].value.Text? || !f[5].value.Text? || !f[6].value.Text? then Err(InvalidAuthState)
    else
      var nonce := B.DecodeStrictly(f[4].value.text, Some(12));
      var tag := B.DecodeStrictly(f[6].value.text, Some(16));
      var ciphertext := B.DecodeStrictly(f[5].value.text, None);
      if nonce.None? || tag.None? || ciphertext.None? then Err(InvalidAuthState)
      else Ok(Outer(f[3].value.text, nonce.value, Sealed(ciphertext.value, tag.value)))
  }

  /** `parseGeneration` */
  function ParseGeneration(v: J.Value, allowZero: bool): Option<nat> {
    if !v.Text? || !D.Canonical(v.text) || |v.text| > 20 then None
    else
      var n := D.Value(v.text);
      if n > D.UINT64_MAX || (n == 0 && !allowZero) then None else Some(n)
  }

  /** The checks of `#decryptEnvelope` on the record. */
  function CheckRecord(f: seq<J.Field>): Result<Record>
    requires J.Keys(f) == RECORD_FIELDS
  {
    assert |f| == 6;
    if f[0].value != J.Number(1) then Err(UnsupportedAuthState)
    else
      var generation, base := ParseGeneration(f[1].value, false), ParseGeneration(f[2].value, true);
      if generation.None? || base.None? then Err(InvalidGeneration)
      else if base.value >= D.UINT64_MAX || base.value + 1 != generation.value then Err(InvalidGeneration)
      else if !HoldsId(f[3].value) then Err(InvalidAuthState)
      else if f[4].value != J.Text("compare-and-swap") && f[4].value != J.Text("rotate-encryption") then
        Err(InvalidAuthState)
      else if !f[5].value.Text? || U.ByteLength(f[5].value.text) > MAX_PAYLOAD_BYTES then Err(InvalidPayload)
      else Ok(Record(generation.value, base.value, f[3].value.text,
                     if f[4].value == J.Text("compare-and-swap") then R.CompareAndSwap else R.RotateEncryption,
                     f[5].value.text))
  }

  function ReadRecord(plaintext: seq<byte>): Result<Record> {
    var raw := U.Decode(plaintext);
    if raw.None? then Err(InvalidAuthState)
    else
      var f := J.ParseCanonical(raw.value, RECORD_FIELDS, false);
      if f.None? then Err(InvalidAuthState) else CheckRecord(f.value)
  }

  datatype Opened = Opened(record: Record, keyId: string, nonce: seq<byte>)

  /** `#readCanonical` on the text of the file, and `#decryptEnvelope`. */
  function Read(a: Aead, authorityId: string, keys: map<string, Key>, raw: string): Result<Opened> {
    if U.ByteLength(raw) > MAX_ENVELOPE_BYTES then Err(InvalidAuthState)
    else
      var f := J.ParseCanonical(raw, ENVELOPE_FIELDS, true);
      if f.None? then Err(InvalidAuthState)
      else
        var outer := CheckEnvelope(authorityId, f.value);
        if outer.Err? then Err(outer.error) else Unseal(a, authorityId, keys, outer.value)
  }

  function Unseal(a: Aead, authorityId: string, keys: map<string, Key>, o: Outer): Result<Opened> {
    if o.keyId !in keys then Err(KeyUnavailable)
    else
      var plaintext := a.unseal(keys[o.keyId], o.nonce, Header(authorityId, o.keyId), o.sealed);
      if plaintext.None? then Err(AuthStateIntegrityFailed)
      else
        var record := ReadRecord(plaintext.value);
        if record.Err? then Err(record.error) else Ok(Opened(record.value, o.keyId, o.nonce))
  }

  // The reader inverts the writer, and nothing else

  lemma FieldsAreDistinct()
    ensures J.Distinct(RECORD_FIELDS) && J.Distinct(ENVELOPE_FIELDS)
  {
    assert ENVELOPE_FIELDS[3][0] == 'k' && ENVELOPE_FIELDS[4][0] == 'n';
  }

  /** A generation is accepted exactly from its own decimal. */
  lemma GenerationIsExact(v: J.Value, allowZero: bool, n: nat)
    ensures ParseGeneration(v, allowZero) == Some(n)
            <==> v == J.Text(D.Render(n)) && n <= D.UINT64_MAX && (allowZero || n > 0)
  {
    if v.Text? && D.Canonical(v.text) {
      D.CanonicalIsRendered(v.text);
    }
    if n <= D.UINT64_MAX {
      TwentyDigits(n);
    }
  }

  lemma TwentyDigits(n: nat)
    requires n <= D.UINT64_MAX
    ensures |D.Render(n)| <= 20
  {
    FiveMore(15);
    FiveMore(10);
    FiveMore(5);
    FiveMore(0);
    hide Ten, D.Render;
    DigitsFor(n, 20);
  }

  lemma FiveMore(k: nat)
    ensures Ten(k + 5) == 100_000 * Ten(k) && Ten(0) == 1
  {
    assert Ten(k + 5) == 100 * Ten(k + 3) == 10_000 * Ten(k + 1);
  }

  /** A number below a power of ten has at most that many digits. */
  lemma {:induction false} DigitsFor(n: nat, k: nat)
    requires 0 < k && n < Ten(k)
    ensures |D.Render(n)| <= k
    decreases k
  {
    if n >= 10 {
      DigitsFor(n / 10, k - 1);
    }
  }

  function Ten(k: nat): nat {
    if k == 0 then 1 else 10 * Ten(k - 1)
  }

  lemma KeysOfRecord(r: Record)
    ensures J.Keys(RecordFields(r)) == RECORD_FIELDS
  {
  }

  lemma KeysOfEnvelope(authorityId: string, o: Outer)
    ensures J.Keys(EnvelopeFields(authorityId, o)) == ENVELOPE_FIELDS
  {
  }

  lemma RecordFieldsAreExact(f: seq<J.Field>, r: Record)
    requires J.Keys(f) == RECORD_FIELDS
    ensures CheckRecord(f) == Ok(r) <==> ValidRecord(r) && f == RecordFields(r)
  {
    hide D.Render, U.ByteLength, OpaqueId, ParseGeneration;
    assert |f| == 6;
    assert forall i :: 0 <= i < 6 ==> f[i].key == RECORD_FIELDS[i];
    GenerationIsExact(f[1].value, false, r.generation);
    GenerationIsExact(f[2].value, true, r.baseGeneration);
    assert OperationText(R.CompareAndSwap) != OperationText(R.RotateEncryption);
    var g := RecordFields(r);
    assert f == g <==> forall i :: 0 <= i < 6 ==> f[i].value == g[i].value;
  }

  lemma EnvelopeFieldsAreExact(authorityId: string, f: seq<J.Field>, o: Outer)
    requires J.Keys(f) == ENVELOPE_FIELDS && OpaqueId(authorityId)
    ensures CheckEnvelope(authorityId, f) == Ok(o)
            <==> && OpaqueId(o.keyId) && |o.nonce| == 12 && |o.sealed.tag| == 16 && o.sealed.ciphertext != []
                 && f == EnvelopeFields(authorityId, o)
  {
    hide OpaqueId, B.DecodeStrictly, B.Encode;
    assert |f| == 7;
    assert forall i :: 0 <= i < 7 ==> f[i].key == ENVELOPE_FIELDS[i];
    var g := EnvelopeFields(authorityId, o);
    assert f == g <==> forall i :: 0 <= i < 7 ==> f[i].value == g[i].value;
    if f[4].value.Text? && f[5].value.Text? && f[6].value.Text? {
      Base64IsExact(f[4].value.text, Some(12), o.nonce);
      Base64IsExact(f[5].value.text, None, o.sealed.ciphertext);
      Base64IsExact(f[6].value.text, Some(16), o.sealed.tag);
    }
  }

  lemma Base64IsExact(value: string, expectedLength: Option<nat>, b: seq<byte>)
    ensures B.DecodeStrictly(value, expectedLength) == Some(b)
            <==> value == B.Encode(b) && b != [] && (expectedLength.None? || |b| == expectedLength.value)
  {
    hide B.Encode, B.Decode;
    if value == B.Encode(b) && b != [] && (expectedLength.None? || |b| == expectedLength.value) {
      B.AcceptsEncoded(b, expectedLength);
    }
  }

  /** Exactly the plaintext of a valid record is read as that record. */
  lemma RecordIsExact(plaintext: seq<byte>, r: Record)
    ensures ReadRecord(plaintext) == Ok(r) <==> ValidRecord(r) && plaintext == Plaintext(r)
  {
    hide RecordFields, CheckRecord, U.Encode, U.Decode, J.Serialize, J.ParseCanonical, ValidRecord;
    FieldsAreDistinct();
    KeysOfRecord(r);
    var text := J.Serialize(RecordFields(r));
    assert text + J.Newline(false) == text;
    U.DecodeEncode(text);
    var raw := U.Decode(plaintext);
    if raw.Some? {
      U.EncodeDecode(plaintext);
      J.CanonicalIsExact(raw.value, RECORD_FIELDS, false, RecordFields(r));
      var f := J.ParseCanonical(raw.value, RECORD_FIELDS, false);
      if f.Some? {
        J.CanonicalIsExact(raw.value, RECORD_FIELDS, false, f.value);
        RecordFieldsAreExact(f.value, r);
      }
    }
  }

  /** A record's plaintext is never empty. */
  lemma PlaintextIsNotEmpty(r: Record)
    ensures Plaintext(r) != []
  {
    hide RecordFields;
    var s := J.Serialize(RecordFields(r));
    assert s[0] == '{';
  }

  lemma UnsealIsExact(a: Aead, authorityId: string, keys: map<string, Key>, o: Outer, x: Opened)
    requires Sound(a)
    ensures Unseal(a, authorityId, keys, o) == Ok(x)
            <==> && ValidRecord(x.record) && x.keyId == o.keyId && x.nonce == o.nonce
                 && o.keyId in keys
                 && o.sealed == a.seal(keys[o.keyId], o.nonce, Header(authorityId, o.keyId), Plaintext(x.record))
  {
    hide ReadRecord, ValidRecord, Header, Plaintext;
    if o.keyId in keys {
      var plaintext := a.unseal(keys[o.keyId], o.nonce, Header(authorityId, o.keyId), o.sealed);
      if plaintext.Some? {
        RecordIsExact(plaintext.value, x.record);
      }
      assert o.sealed == a.seal(keys[o.keyId], o.nonce, Header(authorityId, o.keyId), Plaintext(x.record)) <==>
             plaintext == Some(Plaintext(x.record));
    }
  }

  /**
    Every envelope that the store writes for a valid record is read as exactly that record, and
    no other text is read as it: reading is the inverse of writing, with the same size limit.
   */
  lemma ReadInvertsWrite(a: Aead, authorityId: string, keys: map<string, Key>, raw: string, x: Opened)
    requires Sound(a) && OpaqueId(authorityId)
    ensures Read(a, authorityId, keys, raw) == Ok(x)
            <==> && ValidRecord(x.record)
                 && x.keyId in keys
                 && Write(a, authorityId, x.keyId, keys[x.keyId], x.nonce, x.record) == Ok(raw)
  {
    hide Sound, ValidRecord, OpaqueId, Unseal, CheckEnvelope, U.ByteLength, J.ParseCanonical, J.Serialize,
         EnvelopeFields, Header, Plaintext;
    FieldsAreDistinct();
    var f := J.ParseCanonical(raw, ENVELOPE_FIELDS, true);
    if f.Some? {
      J.CanonicalIsExact(raw, ENVELOPE_FIELDS, true, f.value);
      var outer := CheckEnvelope(authorityId, f.value);
      if outer.Ok? {
        EnvelopeFieldsAreExact(authorityId, f.value, outer.value);
        UnsealIsExact(a, authorityId, keys, outer.value, x);
      }
    }
    if x.keyId in keys {
      WrittenIsParsed(a, authorityId, x.keyId, keys[x.keyId], x.nonce, x.record, raw);
    }
  }

  /** What was written is parsed to what was put in. */
  lemma WrittenIsParsed(a: Aead, authorityId: string, keyId: string, key: Key, nonce: seq<byte>, r: Record, raw: string)
    requires Sound(a) && OpaqueId(authorityId)
    ensures Write(a, authorityId, keyId, key, nonce, r) == Ok(raw) ==>
              var o := Outer(keyId, nonce, a.seal(key, nonce, Header(authorityId, keyId), Plaintext(r)));
              && U.ByteLength(raw) <= MAX_ENVELOPE_BYTES
              && J.ParseCanonical(raw, ENVELOPE_FIELDS, true) == Some(EnvelopeFields(authorityId, o))
              && J.Keys(EnvelopeFields(authorityId, o)) == ENVELOPE_FIELDS
              && CheckEnvelope(authorityId, EnvelopeFields(authorityId, o)) == Ok(o)
  {
    hide OpaqueId, CheckEnvelope, U.ByteLength, J.ParseCanonical, J.Serialize, EnvelopeFields, Header, Plaintext;
    var o := Outer(keyId, nonce, a.seal(key, nonce, Header(authorityId, keyId), Plaintext(r)));
    FieldsAreDistinct();
    KeysOfEnvelope(authorityId, o);
    PlaintextIsNotEmpty(r);
    assert |o.sealed.ciphertext| == |Plaintext(r)| && |o.sealed.tag| == 16;
    J.CanonicalIsExact(raw, ENVELOPE_FIELDS, true, EnvelopeFields(authorityId, o));
    EnvelopeFieldsAreExact(authorityId, EnvelopeFields(authorityId, o), o);
  }
}
