/**
  The scan of the mount table (`mount_carrier_is_private` in native/linux-ext4-inspector.c),
  which cuts the buffer into C strings in place, against the meaning of the table.
 */
module MountInfo {
  import opened Options
  import opened Strings
  import opened Decimal

  // The meaning of a table

  function Fields(line: string): seq<string> {
    Split(line, ' ')
  }

  predicate Tagged(field: string) {
    field == "unbindable" || "shared:" <= field || "master:" <= field || "propagate_from:" <= field
  }

  /** The propagation tags: a word, or one of three prefixes with anything after it. */
  lemma TagsAreNamed(field: string)
    ensures Tagged(field) <==>
              || field == "unbindable"
              || exists rest ::
                   field == "shared:" + rest || field == "master:" + rest || field == "propagate_from:" + rest
  {
    if "shared:" <= field {
      assert field == "shared:" + field[7..];
    }
    if "master:" <= field {
      assert field == "master:" + field[7..];
    }
    if "propagate_from:" <= field {
      assert field == "propagate_from:" + field[15..];
    }
  }

  predicate NoneEmpty(fields: seq<string>) {
    forall i :: 0 <= i < |fields| ==> fields[i] != ""
  }

  predicate WellFormed(line: string) {
    && NoneEmpty(Fields(line))
    && IsUint64(Fields(line)[0])
  }

  predicate Names(line: string, id: nat) {
    WellFormed(line) && Value(Fields(line)[0]) == id
  }

  /** The optional fields end at the first hyphen after the six fixed ones. */
  predicate SeparatesAt(fields: seq<string>, at: nat) {
    && 6 <= at < |fields|
    && fields[at] == "-"
    && forall i :: 6 <= i < at ==> fields[i] != "-"
  }

  /** A separator with at least three fields after it. */
  ghost predicate Complete(fields: seq<string>) {
    exists at: nat :: SeparatesAt(fields, at) && at + 3 < |fields|
  }

  ghost predicate Private(fields: seq<string>) {
    exists at: nat :: SeparatesAt(fields, at) && forall i :: 6 <= i < at ==> !Tagged(fields[i])
  }

  /** The table is well formed and exactly one of its lines, a complete one, has the mount's ID. */
  ghost predicate Finds(lines: seq<string>, id: nat, at: nat) {
    && at < |lines|
    && (forall i :: 0 <= i < |lines| ==> WellFormed(lines[i]))
    && (forall i :: 0 <= i < |lines| ==> (Names(lines[i], id) <==> i == at))
    && Complete(Fields(lines[at]))
  }

  /** A table of rows, written with spaces and newlines, has exactly those rows as fields of its lines. */
  lemma TableReadsBack(rows: seq<seq<string>>)
    requires forall i :: 0 <= i < |rows| ==> rows[i] != []
    requires forall i, j :: 0 <= i < |rows| && 0 <= j < |rows[i]| ==> ' ' !in rows[i][j] && '\n' !in rows[i][j]
    ensures var lines := Lines(Unlines(seq(|rows|, i requires 0 <= i < |rows| => Join(rows[i], ' '))));
            |lines| == |rows| && forall i :: 0 <= i < |rows| ==> Fields(lines[i]) == rows[i]
  {
    var written := seq(|rows|, i requires 0 <= i < |rows| => Join(rows[i], ' '));
    forall i | 0 <= i < |rows|
      ensures '\n' !in written[i] && Fields(written[i]) == rows[i]
    {
      JoinAddsNothing(rows[i], ' ', '\n');
      FieldsReadBack(rows[i], ' ');
    }
    LinesReadBack(written);
  }

  // The scan

  /** What the inner loop has found out about the fields it has passed. */
  ghost predicate Scanned(fields: seq<string>, separator: Option<nat>, nonPrivate: bool) {
    && (forall i :: 6 <= i < |fields| && (separator.None? || i < separator.value) ==> fields[i] != "-")
    && (separator.Some? ==> SeparatesAt(fields, separator.value))
    && (nonPrivate <==>
          exists i :: 6 <= i < |fields| && (separator.None? || i < separator.value) && Tagged(fields[i]))
  }

  lemma ScanOne(fields: seq<string>, separator: Option<nat>, nonPrivate: bool, field: string)
    requires Scanned(fields, separator, nonPrivate)
    ensures |fields| < 6 || separator.Some? ==> Scanned(fields + [field], separator, nonPrivate)
    ensures |fields| >= 6 && separator.None? && field == "-" ==>
              Scanned(fields + [field], Some(|fields|), nonPrivate)
    ensures |fields| >= 6 && separator.None? && field != "-" ==>
              Scanned(fields + [field], separator, nonPrivate || Tagged(field))
  {
    var all := fields + [field];
    assert forall i :: 0 <= i < |fields| ==> all[i] == fields[i];
    assert all[|fields|] == field;
  }

  /** What the end of the line tells from the scan. */
  lemma ScannedMeans(fields: seq<string>, separator: Option<nat>, nonPrivate: bool)
    requires Scanned(fields, separator, nonPrivate)
    ensures Complete(fields) <==> separator.Some? && separator.value + 3 < |fields|
    ensures separator.Some? ==> (Private(fields) <==> !nonPrivate)
  {
  }

  /** The first fields of a line, none of them empty, and the place where the others begin. */
  ghost predicate Passed(text: string, fields: seq<string>, at: nat) {
    && at <= |text|
    && Fields(text) == fields + Split(text[at..], ' ')
    && NoneEmpty(fields)
  }

  lemma PassField(text: string, fields: seq<string>, at: nat, end: nat)
    requires Passed(text, fields, at) && at < |text| && end == Find(text, ' ', at)
    ensures |Fields(text)| > |fields| && Fields(text)[|fields|] == text[at..end]
    ensures end == at ==> !WellFormed(text)
    ensures end + 1 == |text| ==> !WellFormed(text)
    ensures end > at && end == |text| ==> Fields(text) == fields + [text[at..end]] && NoneEmpty(Fields(text))
    ensures end > at && end < |text| ==> Passed(text, fields + [text[at..end]], end + 1)
  {
    hide Find, Split, WellFormed;
    var field := text[at..end];
    var rest := if end == |text| then [] else Split(text[end + 1..], ' ');
    SplitStep(text, ' ', at, end);
    assert Fields(text) == (fields + [field]) + rest;
    if end == at {
      EmptyField(text, |fields|);
    }
    if end + 1 == |text| {
      assert text[end + 1..] == "";
      SplitNothing(' ');
      EmptyField(text, |fields| + 1);
    }
  }

  lemma EmptyField(text: string, k: nat)
    requires k < |Fields(text)| && Fields(text)[k] == ""
    ensures !WellFormed(text)
  {
    hide Fields;
  }

  /** What the variables of the inner loop say about the fields it has passed. */
  ghost predicate Known(fields: seq<string>, id: nat, expected: nat, separator: Option<nat>, nonPrivate: bool) {
    && (fields != [] ==> IsUint64(fields[0]) && id == Value(fields[0]))
    && (fields == [] || id == expected ==> Scanned(fields, separator, nonPrivate))
  }

  /** The inner loop: one line, from `line` up to the NUL at `end`. */
  method ScanLine(buffer: array<char>, line: nat, end: nat, expected: nat)
      returns (ok: bool, id: nat, fieldIndex: nat, separator: Option<nat>, nonPrivate: bool)
    requires line < end < buffer.Length && buffer[end] == NUL && buffer[buffer.Length - 1] == NUL
    requires NUL !in buffer[line..end]
    modifies buffer
    ensures buffer[..] == old(buffer[..])
    ensures ok <==> WellFormed(buffer[line..end])
    ensures ok ==> fieldIndex == |Fields(buffer[line..end])|
                   && Known(Fields(buffer[line..end]), id, expected, separator, nonPrivate)
  {
    hide Split, Scanned, Find, Tagged, IsUint64, Passed, Known, WellFormed, NoneEmpty, Fields;
    ghost var text := buffer[line..end];
    ghost var fields: seq<string> := [];
    id, fieldIndex, separator, nonPrivate := 0, 0, None, false;
    StartLine(text, expected);
    var cursor := line;
    while true
      invariant buffer[..] == old(buffer[..]) && buffer[line..end] == text
      invariant line <= cursor < end
      invariant fieldIndex == |fields|
      invariant Passed(text, fields, cursor - line)
      invariant Known(fields, id, expected, separator, nonPrivate)
      decreases end - cursor
    {
      var space := FindIn(buffer, ' ', cursor, end);
      SameText(buffer, line, end, text);
      FindIs(text, ' ', cursor - line, space - line);
      PassField(text, fields, cursor - line, space - line);
      if space == cursor {
        return false, id, fieldIndex, separator, nonPrivate;
      }
      ghost var field := text[cursor - line..space - line];
      assert buffer[cursor..space] == buffer[line..end][cursor - line..space - line] == field;
      ghost var wasId, wasSeparator, was := id, separator, nonPrivate;
      if fieldIndex == 0 {
        ok, id := ParseToken(buffer, cursor, space);
        FirstFieldDecides(text, field);
        if !ok { return; }
      } else if id == expected && fieldIndex >= 6 && separator.None? {
        if buffer[cursor..space] == "-" {
          separator := Some(fieldIndex);
        } else if Tagged(buffer[cursor..space]) {
          nonPrivate := true;
        }
      }
      KnowOne(fields, wasId, expected, wasSeparator, was, field, id, separator, nonPrivate);
      fields := fields + [field];
      fieldIndex := fieldIndex + 1;
      if space == end {
        LineIsDone(text, fields, id, expected, separator, nonPrivate);
        return true, id, fieldIndex, separator, nonPrivate;
      }
      cursor := space + 1;
      if cursor == end {
        return false, id, fieldIndex, separator, nonPrivate;
      }
    }
  }

  lemma SameText(buffer: array<char>, line: nat, end: nat, text: string)
    requires line <= end <= buffer.Length && buffer[line..end] == text
    ensures forall i :: line <= i < end ==> buffer[i] == text[i - line]
  {
  }

  lemma StartLine(text: string, expected: nat)
    ensures Passed(text, [], 0) && Known([], 0, expected, None, false)
  {
    assert text[0..] == text;
  }

  lemma FirstFieldDecides(text: string, field: string)
    ensures Fields(text)[0] == field && !IsUint64(field) ==> !WellFormed(text)
  {
    hide IsUint64;
  }

  lemma LineIsDone(text: string, fields: seq<string>, id: nat, expected: nat, separator: Option<nat>, nonPrivate: bool)
    requires fields != [] && Fields(text) == fields && NoneEmpty(fields)
    requires Known(fields, id, expected, separator, nonPrivate)
    ensures WellFormed(text)
  {
    hide IsUint64, Scanned;
  }

  /** One turn of the inner loop. */
  lemma KnowOne(fields: seq<string>, id: nat, expected: nat, separator: Option<nat>, nonPrivate: bool, field: string,
                id': nat, separator': Option<nat>, nonPrivate': bool)
    requires Known(fields, id, expected, separator, nonPrivate)
    requires if fields == [] then IsUint64(field) && id' == Value(field) else id' == id
    requires if && fields != [] && id == expected && |fields| >= 6 && separator.None?
             then && separator' == (if field == "-" then Some(|fields|) else None)
                  && nonPrivate' == (nonPrivate || (field != "-" && Tagged(field)))
             else separator' == separator && nonPrivate' == nonPrivate
    ensures Known(fields + [field], id', expected, separator', nonPrivate')
  {
    assert fields != [] ==> (fields + [field])[0] == fields[0];
    if fields == [] || id == expected {
      ScanOne(fields, separator, nonPrivate, field);
    }
    hide Scanned;
  }

  // The outer loop

  /** What the answer for a table means: private, not private, or no complete line to tell it from. */
  ghost predicate Verdict(lines: seq<string>, id: nat, status: int) {
    && (status == 1 <==> exists at: nat :: Finds(lines, id, at) && Private(Fields(lines[at])))
    && (status == 0 <==> exists at: nat :: Finds(lines, id, at) && !Private(Fields(lines[at])))
    && (status == -1 <==> forall at: nat :: !Finds(lines, id, at))
  }

  /** What the variables of the outer loop say about the lines it has passed. */
  ghost predicate Reviewed(done: seq<string>, id: nat, found: bool, at: nat, isolated: bool) {
    && (forall i :: 0 <= i < |done| ==> WellFormed(done[i]))
    && (forall i :: 0 <= i < |done| ==> (Names(done[i], id) <==> found && i == at))
    && (found ==>
          && at < |done|
          && Complete(Fields(done[at]))
          && (isolated <==> Private(Fields(done[at]))))
  }

  /** A malformed, a second or an incomplete line spoils the table. */
  lemma SpoiledTable(lines: seq<string>, id: nat, j: nat, k: nat)
    requires j < |lines| && k < |lines|
    requires || !WellFormed(lines[k])
             || (j != k && Names(lines[j], id) && Names(lines[k], id))
             || (Names(lines[k], id) && !Complete(Fields(lines[k])))
    ensures Verdict(lines, id, -1)
  {
    hide WellFormed, Complete, Private, Fields;
  }

  lemma ReviewOne(done: seq<string>, id: nat, found: bool, at: nat, isolated: bool, line: string)
    requires Reviewed(done, id, found, at, isolated) && WellFormed(line) && (found ==> !Names(line, id))
    requires Names(line, id) ==> Complete(Fields(line))
    ensures if Names(line, id) then Reviewed(done + [line], id, true, |done|, Private(Fields(line)))
            else Reviewed(done + [line], id, found, at, isolated)
  {
    hide WellFormed, Complete, Private, Fields;
    var all := done + [line];
    assert forall i :: 0 <= i < |done| ==> all[i] == done[i];
    assert all[|done|] == line;
  }

  lemma Concluded(lines: seq<string>, id: nat, found: bool, at: nat, isolated: bool)
    requires Reviewed(lines, id, found, at, isolated)
    ensures Verdict(lines, id, if !found then -1 else if isolated then 1 else 0)
  {
    hide WellFormed, Complete, Private, Fields;
    assert found ==> Finds(lines, id, at);
    assert forall k: nat :: Finds(lines, id, k) ==> found && k == at;
  }

  /** A line without a field is malformed. */
  lemma EmptyLine()
    ensures !WellFormed("")
  {
    SplitNothing(' ');
  }

  /**
    `mount_carrier_is_private` on a table that `read_mountinfo` delivered, which is not empty,
    ends in a newline and holds no NUL: 1 exactly for a private mount, 0 exactly for one with a
    propagation tag, and -1 exactly when the table cannot tell.
   */
  method CarrierIsPrivate(buffer: array<char>, expected: nat) returns (status: int)
    requires buffer.Length >= 2 && buffer[buffer.Length - 1] == NUL && buffer[buffer.Length - 2] == '\n'
    requires NUL !in buffer[..buffer.Length - 1]
    modifies buffer
    ensures Verdict(Lines(old(buffer[..buffer.Length - 1])), expected, status)
  {
    hide Verdict, WellFormed, Find, Lines, Complete, Private, Fields, Scanned;
    var length := buffer.Length - 1;
    ghost var table := buffer[..length];
    ghost var lines := Lines(table);
    ghost var done: seq<string> := [];
    ghost var at: nat := 0;
    var offset, found, isolated := 0, false, false;
    assert table[0..] == table;
    while offset < length
      invariant offset <= length
      invariant buffer[offset..length] == table[offset..] && buffer[length] == NUL
      invariant lines == done + Lines(table[offset..])
      invariant Reviewed(done, expected, found, at, isolated)
    {
      SuffixAgrees(buffer, table, offset);
      var newline := FindIn(buffer, '\n', offset, length);
      assert newline < length;
      FindIs(table, '\n', offset, newline);
      ghost var line := table[offset..newline];
      LinesStep(table, offset, newline);
      assert lines[|done|] == line;
      if newline == offset {
        EmptyLine();
        SpoiledTable(lines, expected, |done|, |done|);
        return -1;
      }
      buffer[newline] := NUL;
      assert buffer[offset..newline] == line;
      var ok, id, fieldIndex, separator, nonPrivate := ScanLine(buffer, offset, newline, expected);
      if !ok {
        SpoiledTable(lines, expected, |done|, |done|);
        return -1;
      }
      KnownMeans(line, id, expected, separator, nonPrivate);
      if id == expected {
        if found || separator.None? || separator.value < 6 || separator.value + 3 >= fieldIndex {
          SpoiledTable(lines, expected, if found then at else |done|, |done|);
          return -1;
        }
      }
      ReviewOne(done, expected, found, at, isolated, line);
      if id == expected {
        found, isolated, at := true, !nonPrivate, |done|;
      }
      done := done + [line];
      offset := newline + 1;
    }
    assert table[offset..] == "" && Lines(table[offset..]) == [] by {
      NoLines();
    }
    assert lines == done;
    Concluded(lines, expected, found, at, isolated);
    if !found {
      return -1;
    }
    status := if isolated then 1 else 0;
  }

  lemma SuffixAgrees(buffer: array<char>, table: string, offset: nat)
    requires offset < |table| == buffer.Length - 1 && buffer[offset..|table|] == table[offset..]
    ensures forall i :: offset <= i < |table| ==> buffer[i] == table[i]
  {
    SameText(buffer, offset, |table|, table[offset..]);
    assert forall i :: offset <= i < |table| ==> table[offset..][i - offset] == table[i];
  }

  /** What a scanned line tells about the mount that it names. */
  lemma KnownMeans(line: string, id: nat, expected: nat, separator: Option<nat>, nonPrivate: bool)
    requires WellFormed(line) && Known(Fields(line), id, expected, separator, nonPrivate)
    ensures Names(line, expected) <==> id == expected
    ensures id == expected ==>
              (Complete(Fields(line)) <==> separator.Some? && separator.value + 3 < |Fields(line)|)
    ensures id == expected && separator.Some? ==>
              6 <= separator.value && (Private(Fields(line)) <==> !nonPrivate)
  {
    assert Fields(line) != [];
    hide Fields, NoneEmpty;
    if id == expected {
      ScannedMeans(Fields(line), separator, nonPrivate);
    }
  }

  /** `strchr` and `strlen`, or `memchr`: the first `c` in the given part of the buffer, or its end. */
  method FindIn(buffer: array<char>, c: char, from: nat, end: nat) returns (k: nat)
    requires from <= end <= buffer.Length
    ensures from <= k <= end
    ensures k < end ==> buffer[k] == c
    ensures forall i :: from <= i < k ==> buffer[i] != c
  {
    k := from;
    while k < end && buffer[k] != c
      invariant from <= k <= end
      invariant forall i :: from <= i < k ==> buffer[i] != c
    {
      k := k + 1;
    }
  }

  /** The first field, ended by a NUL for the time it is parsed. */
  method ParseToken(buffer: array<char>, start: nat, end: nat) returns (ok: bool, output: nat)
    requires start <= end < buffer.Length && buffer[buffer.Length - 1] == NUL
    requires NUL !in buffer[start..end]
    modifies buffer
    ensures buffer[..] == old(buffer[..])
    ensures ok <==> IsUint64(buffer[start..end])
    ensures ok ==> output == Value(buffer[start..end])
  {
    ghost var token := buffer[start..end];
    var saved := buffer[end];
    buffer[end] := NUL;
    assert buffer[start..end] == token;
    assert forall i :: start <= i < end ==> buffer[i] == token[i - start];
    FindIs(buffer[..], NUL, start, end);
    ok, output := ParseU64Decimal(buffer, start);
    buffer[end] := saved;
    assert buffer[start..end] == token;
  }
}
