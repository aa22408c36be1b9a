/**
  The bounded line scanner of the power-loss harness
  (integration/linux-ext4-sudden-guest-power-loss-conformance.mjs). Output comes in chunks of
  whole characters; what the scanner keeps depends only on the text, not on the chunks.
 */
module LineScanner {
  import opened Strings
  import opened Utf8

  const QEMU_OUTPUT_LIMIT: nat := 256 * 1024

  const QEMU_LINE_BYTE_LIMIT: nat := 8 * 1024

  const QEMU_LINE_HISTORY_LIMIT: nat := 256

  const QEMU_PROTOCOL_HISTORY_LIMIT: nat := 32

  const GUEST_ERROR_LIMIT: nat := 4

  // What a text should leave behind

  function Newest<T>(s: seq<T>, limit: nat): seq<T> {
    if |s| <= limit then s else s[|s| - limit..]
  }

  function Oldest<T>(s: seq<T>, limit: nat): seq<T> {
    if |s| <= limit then s else s[..limit]
  }

  /** A line without one carriage return at its end. */
  function Normalized(line: string): string {
    if line != "" && line[|line| - 1] == '\r' then line[..|line| - 1] else line
  }

  predicate TooLong(line: string) {
    ByteLength(line) > QEMU_LINE_BYTE_LIMIT
  }

  /** One carriage return is taken away, and nothing else; a line is too long from 8193 bytes on. */
  lemma LinesAreCut(line: string)
    ensures Normalized(line + "\r") == line
    ensures (line == "" || line[|line| - 1] != '\r') ==> Normalized(line) == line
    ensures TooLong(line) <==> ByteLength(line) >= 8193
  {
    hide ByteLength;
    assert (line + "\r")[..|line|] == line;
  }

  /** The lines that are recorded: over-long ones are dropped as a whole. */
  function Kept(lines: seq<string>): seq<string> {
    if lines == [] then []
    else Kept(lines[..|lines| - 1])
         + if TooLong(lines[|lines| - 1]) then [] else [Normalized(lines[|lines| - 1])]
  }

  function Matching(pattern: string -> bool, lines: seq<string>): seq<string> {
    if lines == [] then []
    else Matching(pattern, lines[..|lines| - 1])
         + if pattern(lines[|lines| - 1]) then [lines[|lines| - 1]] else []
  }

  /** Error lines count unless they are protocol lines that no longer fit. */
  function Errors(protocol: string -> bool, guestError: string -> bool, lines: seq<string>): seq<string> {
    if lines == [] then []
    else
      var last := lines[|lines| - 1];
      Errors(protocol, guestError, lines[..|lines| - 1])
      + if || (protocol(last) && |Matching(protocol, lines)| > QEMU_PROTOCOL_HISTORY_LIMIT)
           || !guestError(last)
        then [] else [last]
  }

  // The scanner

  class Controller {
    const protocol: string -> bool
    const guestError: string -> bool
    var partialLine: string
    var discardingLongLine: bool
    var lines: seq<string>
    var protocolLines: seq<string>
    var protocolLineCount: nat
    var guestErrors: seq<string>
    var guestErrorCount: nat
    var protocolOverflow: bool
    var abortRequested: bool
    var stdout: string
    var stderr: string
    var bytes: nat
    var overflow: bool
    ghost var seen: string
    ghost var arrived: string
    ghost var errorText: string

    /** The variables that describe the recorded lines are functions of those lines. */
    ghost predicate Records(kept: seq<string>)
      reads this`lines, this`protocolLines, this`protocolLineCount, this`guestErrors, this`guestErrorCount,
            this`protocolOverflow
    {
      && lines == Newest(kept, QEMU_LINE_HISTORY_LIMIT)
      && protocolLineCount == |Matching(protocol, kept)|
      && protocolLines == Oldest(Matching(protocol, kept), QEMU_PROTOCOL_HISTORY_LIMIT)
      && guestErrorCount == |Errors(protocol, guestError, kept)|
      && guestErrors == Newest(Errors(protocol, guestError, kept), GUEST_ERROR_LIMIT)
      && protocolOverflow == (protocolLineCount > QEMU_PROTOCOL_HISTORY_LIMIT)
    }

    ghost predicate Holds(rest: string)
      reads this`partialLine, this`discardingLongLine
    {
      && discardingLongLine == TooLong(rest)
      && partialLine == if TooLong(rest) then "" else rest
    }

    /** The scanner's state is a function of the text seen so far. */
    ghost predicate Valid()
      reads this
    {
      && Records(Kept(Lines(seen)))
      && Holds(Rest(seen))
      && abortRequested == (overflow || protocolOverflow)
    }

    /** The buffered output is a function of the text that arrived, all of it seen up to an overflow. */
    ghost predicate Buffers()
      reads this
    {
      && stdout == Tail(arrived, QEMU_OUTPUT_LIMIT)
      && stderr == Tail(errorText, QEMU_OUTPUT_LIMIT)
      && bytes == ByteLength(arrived) + ByteLength(errorText)
      && overflow == (bytes > QEMU_OUTPUT_LIMIT)
      && (!overflow ==> seen == arrived)
    }

    constructor (protocol: string -> bool, guestError: string -> bool)
      ensures Valid() && Buffers() && seen == arrived == errorText == ""
      ensures this.protocol == protocol && this.guestError == guestError
    {
      this.protocol, this.guestError := protocol, guestError;
      partialLine, discardingLongLine := "", false;
      lines, protocolLines, protocolLineCount := [], [], 0;
      guestErrors, guestErrorCount := [], 0;
      protocolOverflow, abortRequested := false, false;
      stdout, stderr, bytes, overflow := "", "", 0, false;
      seen, arrived, errorText := "", "", "";
    }

    /** `recordQemuLine`, for the lines recorded so far. */
    method RecordLine(line: string, ghost kept: seq<string>)
      requires Records(kept) && (protocolOverflow ==> abortRequested)
      modifies this`lines, this`protocolLines, this`protocolLineCount, this`guestErrors, this`guestErrorCount,
               this`protocolOverflow, this`abortRequested
      ensures Records(kept + [Normalized(line)])
      ensures abortRequested == (old(abortRequested) || protocolOverflow)
      ensures old(protocolOverflow) ==> protocolOverflow
    {
      var normalized := Normalized(line);
      ghost var next := kept + [normalized];
      assert next[..|next| - 1] == kept && next[|next| - 1] == normalized;
      lines := PushBounded(lines, normalized, QEMU_LINE_HISTORY_LIMIT, kept);
      if protocol(normalized) {
        protocolLineCount := protocolLineCount + 1;
        if protocolLineCount > QEMU_PROTOCOL_HISTORY_LIMIT {
          protocolOverflow := true;
          abortRequested := true;
          return;
        }
        protocolLines := protocolLines + [normalized];
      }
      if guestError(normalized) {
        guestErrorCount := guestErrorCount + 1;
        guestErrors := PushBounded(guestErrors, normalized, GUEST_ERROR_LIMIT, Errors(protocol, guestError, kept));
      }
    }

    /** `consumeQemuStdout` */
    method Consume(chunk: string)
      requires Valid()
      modifies this`lines, this`protocolLines, this`protocolLineCount, this`guestErrors, this`guestErrorCount,
               this`protocolOverflow, this`abortRequested, this`partialLine, this`discardingLongLine, this`seen
      ensures Valid() && seen == old(seen) + chunk
    {
      hide Records, Holds, Lines, Rest, Kept;
      ghost var before := seen;
      var cursor := 0;
      assert chunk[..0] == "";
      while cursor < |chunk|
        invariant cursor <= |chunk|
        invariant Valid() && seen == before + chunk[..cursor]
      {
        var newline := Find(chunk, '\n', cursor);
        Pieces(before, chunk, cursor, newline);
        Lengthen(chunk[cursor..newline]);
        if newline == |chunk| {
          return;
        }
        CloseLine();
        cursor := newline + 1;
      }
      assert chunk[..cursor] == chunk;
    }

    /** The first half of the loop of `consumeQemuStdout`: more of the current line. */
    method Lengthen(part: string)
      requires Valid() && '\n' !in part
      modifies this`partialLine, this`discardingLongLine, this`seen
      ensures Valid() && seen == old(seen) + part
    {
      OpenText(seen, part);
      EncodeAppends(Rest(seen), part);
      if !discardingLongLine {
        var candidate := partialLine + part;
        if ByteLength(candidate) > QEMU_LINE_BYTE_LIMIT {
          partialLine, discardingLongLine := "", true;
        } else {
          partialLine := candidate;
        }
      }
      seen := seen + part;
    }

    /** The second half: the line ends. */
    method CloseLine()
      requires Valid()
      modifies this`lines, this`protocolLines, this`protocolLineCount, this`guestErrors, this`guestErrorCount,
               this`protocolOverflow, this`abortRequested, this`partialLine, this`discardingLongLine, this`seen
      ensures Valid() && seen == old(seen) + "\n"
    {
      hide Lines, Rest, Kept, TooLong, Normalized, Find, Matching, Errors, Newest, Oldest;
      ClosedLine(seen);
      KeptGrows(Lines(seen), Rest(seen));
      if !discardingLongLine {
        RecordLine(partialLine, Kept(Lines(seen)));
      }
      discardingLongLine, partialLine := false, "";
      seen := seen + "\n";
      EmptyFits();
    }

    /** `finishQemuStdout`: a last line without its newline counts unless it is empty. */
    method Finish()
      requires Valid()
      modifies this`lines, this`protocolLines, this`protocolLineCount, this`guestErrors, this`guestErrorCount,
               this`protocolOverflow, this`abortRequested, this`partialLine, this`discardingLongLine, this`seen
      ensures Valid()
      ensures seen == if Rest(old(seen)) == "" then old(seen) else old(seen) + "\n"
      ensures partialLine == "" && !discardingLongLine
    {
      hide Lines, Rest, Kept, TooLong, Normalized, Find, Matching, Errors, Newest, Oldest;
      EmptyFits();
      ClosedLine(seen);
      KeptGrows(Lines(seen), Rest(seen));
      if !discardingLongLine && partialLine != "" {
        RecordLine(partialLine, Kept(Lines(seen)));
      }
      discardingLongLine, partialLine := false, "";
      if Rest(seen) != "" {
        seen := seen + "\n";
      }
    }

    /** `recordQemuChunk` for the standard output: nothing is scanned once there is too much output. */
    method RecordOutput(chunk: string)
      requires Valid() && Buffers()
      modifies this
      ensures Valid() && Buffers()
      ensures arrived == old(arrived) + chunk && errorText == old(errorText)
    {
      hide Records, Holds, Lines, Rest, Kept, Tail, ByteLength;
      stdout := BoundedAppend(stdout, chunk, arrived);
      arrived := arrived + chunk;
      CountBytes(chunk);
      if overflow {
        abortRequested := true;
        return;
      }
      Consume(chunk);
    }

    /** `recordQemuChunk` for the error output. */
    method RecordErrorOutput(chunk: string)
      requires Valid() && Buffers()
      modifies this
      ensures Valid() && Buffers()
      ensures arrived == old(arrived) && errorText == old(errorText) + chunk
    {
      hide Records, Holds, Lines, Rest, Kept, Tail, ByteLength;
      stderr := BoundedAppend(stderr, chunk, errorText);
      errorText := errorText + chunk;
      CountBytes(chunk);
      if overflow {
        abortRequested := true;
      }
    }

    /** The counters of `boundedAppend`. */
    method CountBytes(chunk: string)
      modifies this`bytes, this`overflow
      ensures bytes == old(bytes) + ByteLength(chunk)
      ensures overflow == (old(overflow) || bytes > QEMU_OUTPUT_LIMIT)
    {
      bytes := bytes + ByteLength(chunk);
      if bytes > QEMU_OUTPUT_LIMIT {
        overflow := true;
      }
    }
  }

  /** The text of `boundedAppend`: cutting it as it grows is cutting it at the end. */
  method BoundedAppend(current: string, chunk: string, ghost all: string) returns (next: string)
    requires current == Tail(all, QEMU_OUTPUT_LIMIT)
    ensures next == Tail(all + chunk, QEMU_OUTPUT_LIMIT)
    ensures ByteLength(all + chunk) == ByteLength(all) + ByteLength(chunk)
  {
    EncodeAppends(all, chunk);
    TailOfGrowing(all, chunk, QEMU_OUTPUT_LIMIT);
    next := BoundedTail(current + chunk, QEMU_OUTPUT_LIMIT);
  }

  // Whole streams

  datatype Summary = Summary(
    lines: seq<string>,
    protocolLines: seq<string>,
    protocolLineCount: nat,
    guestErrors: seq<string>,
    guestErrorCount: nat,
    protocolOverflow: bool)

  /** The line-by-line specification of a whole text; a last line needs no newline. */
  function Summarize(protocol: string -> bool, guestError: string -> bool, text: string): Summary {
    var kept := Kept(Lines(if Rest(text) == "" then text else text + "\n"));
    var matching, errors := Matching(protocol, kept), Errors(protocol, guestError, kept);
    Summary(
      Newest(kept, QEMU_LINE_HISTORY_LIMIT),
      Oldest(matching, QEMU_PROTOCOL_HISTORY_LIMIT),
      |matching|,
      Newest(errors, GUEST_ERROR_LIMIT),
      |errors|,
      |matching| > QEMU_PROTOCOL_HISTORY_LIMIT)
  }

  function Concat(chunks: seq<string>): string {
    if chunks == [] then "" else Concat(chunks[..|chunks| - 1]) + chunks[|chunks| - 1]
  }

  /** Every way of cutting a text into chunks ends in the same state, that of the specification. */
  method Scan(protocol: string -> bool, guestError: string -> bool, chunks: seq<string>) returns (r: Summary)
    ensures r == Summarize(protocol, guestError, Concat(chunks))
  {
    var c := new Controller(protocol, guestError);
    assert chunks[..0] == [];
    for i := 0 to |chunks|
      invariant fresh(c) && c.Valid() && c.protocol == protocol && c.guestError == guestError
      invariant c.seen == Concat(chunks[..i])
    {
      assert chunks[..i + 1][..i] == chunks[..i];
      c.Consume(chunks[i]);
    }
    assert chunks[..|chunks|] == chunks;
    c.Finish();
    r := Summary(c.lines, c.protocolLines, c.protocolLineCount, c.guestErrors, c.guestErrorCount, c.protocolOverflow);
  }

  lemma {:induction false} KeptAreShort(lines: seq<string>)
    ensures forall i :: 0 <= i < |Kept(lines)| ==> ByteLength(Kept(lines)[i]) <= QEMU_LINE_BYTE_LIMIT
  {
    if lines != [] {
      KeptAreShort(lines[..|lines| - 1]);
      var last := lines[|lines| - 1];
      if Normalized(last) != last {
        assert last == last[..|last| - 1] + [last[|last| - 1]];
        EncodeAppends(last[..|last| - 1], [last[|last| - 1]]);
      }
    }
  }

  /** Whatever the text, what is kept of it stays within the limits. */
  lemma SummaryIsBounded(protocol: string -> bool, guestError: string -> bool, text: string)
    ensures var r := Summarize(protocol, guestError, text);
            && |r.lines| <= 256
            && |r.protocolLines| <= 32
            && |r.guestErrors| <= 4
            && (forall i :: 0 <= i < |r.lines| ==> ByteLength(r.lines[i]) <= 8192)
  {
    KeptAreShort(Lines(if Rest(text) == "" then text else text + "\n"));
    hide Kept, ByteLength, Lines, Rest, Matching, Errors;
  }

  /** An error line is missed exactly when it is a protocol line after the limit. */
  ghost predicate Missed(protocol: string -> bool, guestError: string -> bool, lines: seq<string>, i: nat)
    requires i < |lines|
  {
    && guestError(lines[i])
    && protocol(lines[i])
    && |Matching(protocol, lines[..i + 1])| > QEMU_PROTOCOL_HISTORY_LIMIT
  }

  lemma {:induction false} ErrorsAreCounted(protocol: string -> bool, guestError: string -> bool, lines: seq<string>)
    ensures |Errors(protocol, guestError, lines)| <= |Matching(guestError, lines)|
    ensures |Errors(protocol, guestError, lines)| == |Matching(guestError, lines)|
            <==> forall i :: 0 <= i < |lines| ==> !Missed(protocol, guestError, lines, i)
    ensures |Matching(protocol, lines)| <= QEMU_PROTOCOL_HISTORY_LIMIT ==>
              Errors(protocol, guestError, lines) == Matching(guestError, lines)
  {
    if lines != [] {
      var init, n := lines[..|lines| - 1], |lines| - 1;
      ErrorsAreCounted(protocol, guestError, init);
      forall i | 0 <= i < n
        ensures Missed(protocol, guestError, lines, i) <==> Missed(protocol, guestError, init, i)
      {
        assert lines[..i + 1] == init[..i + 1];
      }
      assert lines[..n + 1] == lines;
      assert Missed(protocol, guestError, lines, n) <==>
             guestError(lines[n]) && protocol(lines[n]) && |Matching(protocol, lines)| > QEMU_PROTOCOL_HISTORY_LIMIT;
    }
  }

  /** `QEMU_PROTOCOL_LINE_PATTERN` */
  predicate IsProtocolLine(line: string) {
    exists tag | tag in ["ERROR_V1", "READY_V1", "RECOVER_OK_V1", "SETUP_OK_V1"] :: Tagged(line, tag)
  }

  predicate Tagged(line: string, tag: string) {
    line == "PCR_SUDDEN_GUEST_POWER_" + tag || "PCR_SUDDEN_GUEST_POWER_" + tag + " " <= line
  }

  predicate IsHexCharacter(c: char) {
    '0' <= c <= '9' || 'A' <= c <= 'F' || 'a' <= c <= 'f'
  }

  predicate IsNameCharacter(c: char) {
    'a' <= c <= 'z' || '0' <= c <= '9' || c == '_'
  }

  predicate IsDigitCharacter(c: char) {
    '0' <= c <= '9'
  }

  // The character classes of the pattern, character by character

  lemma HexCharacters(c: char)
    ensures IsHexCharacter(c) <==> c in "0123456789ABCDEFabcdef"
  {
  }

  lemma NameCharacters(c: char)
    ensures IsNameCharacter(c) <==> c in "abcdefghijklmnopqrstuvwxyz0123456789_"
  {
  }

  lemma DigitCharacters(c: char)
    ensures IsDigitCharacter(c) <==> c in "0123456789"
  {
  }

  predicate IsRunId(id: string) {
    id == "unknown" || (|id| == 32 && forall i :: 0 <= i < 32 ==> IsHexCharacter(id[i]))
  }

  predicate IsStepName(name: string) {
    name != "" && forall i :: 0 <= i < |name| ==> IsNameCharacter(name[i])
  }

  predicate IsNumber(digits: string) {
    digits != "" && forall i :: 0 <= i < |digits| ==> IsDigitCharacter(digits[i])
  }

  function ErrorLine(id: string, name: string, digits: string): string {
    "PCR_SUDDEN_GUEST_POWER_" + "ERROR_V1" + " " + id + " " + name + " status=" + digits
  }

  /** `QEMU_GUEST_ERROR_PATTERN` */
  ghost predicate IsGuestErrorLine(line: string) {
    exists id, name, digits ::
      IsRunId(id) && IsStepName(name) && IsNumber(digits) && line == ErrorLine(id, name, digits)
  }

  /** Every guest error line is a protocol line. */
  lemma ErrorLinesAreProtocolLines(line: string)
    requires IsGuestErrorLine(line)
    ensures IsProtocolLine(line)
  {
    var id, name, digits :|
      IsRunId(id) && IsStepName(name) && IsNumber(digits) && line == ErrorLine(id, name, digits);
    hide IsRunId, IsStepName, IsNumber;
    var start := "PCR_SUDDEN_GUEST_POWER_" + "ERROR_V1" + " ";
    assert line == start + (id + " " + name + " status=" + digits);
    assert Tagged(line, "ERROR_V1");
  }

  lemma MatchingGrows(pattern: string -> bool, lines: seq<string>, line: string)
    ensures Matching(pattern, lines + [line]) == if pattern(line) then Matching(pattern, lines) + [line] else Matching(pattern, lines)
  {
    assert (lines + [line])[..|lines|] == lines;
  }

  lemma ErrorsGrow(protocol: string -> bool, guestError: string -> bool, lines: seq<string>, line: string)
    ensures Errors(protocol, guestError, lines + [line])
         == if guestError(line) && !(protocol(line) && |Matching(protocol, lines + [line])| > QEMU_PROTOCOL_HISTORY_LIMIT)
            then Errors(protocol, guestError, lines) + [line] else Errors(protocol, guestError, lines)
  {
    hide Matching;
    assert (lines + [line])[..|lines|] == lines;
  }

  /** When every error line is a protocol line, the counted ones are those among the first 32 protocol lines. */
  lemma {:induction false} CountedErrors(protocol: string -> bool, guestError: string -> bool, lines: seq<string>)
    requires forall line :: guestError(line) ==> protocol(line)
    ensures Errors(protocol, guestError, lines)
         == Matching(guestError, Oldest(Matching(protocol, lines), QEMU_PROTOCOL_HISTORY_LIMIT))
  {
    if lines == [] {
      assert Matching(protocol, lines) == [];
    } else {
      hide Matching, Errors;
      var init, last := lines[..|lines| - 1], lines[|lines| - 1];
      assert lines == init + [last];
      CountedErrors(protocol, guestError, init);
      var before := Matching(protocol, init);
      MatchingGrows(protocol, init, last);
      ErrorsGrow(protocol, guestError, init, last);
      if protocol(last) && |before| < QEMU_PROTOCOL_HISTORY_LIMIT {
        MatchingGrows(guestError, before, last);
      }
      assert |before| >= QEMU_PROTOCOL_HISTORY_LIMIT ==>
             Oldest(before + [last], QEMU_PROTOCOL_HISTORY_LIMIT) == Oldest(before, QEMU_PROTOCOL_HISTORY_LIMIT);
    }
  }

  lemma {:induction false} MatchingOfSum(pattern: string -> bool, a: seq<string>, b: seq<string>)
    ensures Matching(pattern, a + b) == Matching(pattern, a) + Matching(pattern, b)
    decreases |b|
  {
    if b == [] {
      assert a + b == a;
    } else {
      hide Matching;
      var init, last := b[..|b| - 1], b[|b| - 1];
      assert a + b == (a + init) + [last] && b == init + [last];
      MatchingOfSum(pattern, a, init);
      MatchingGrows(pattern, a + init, last);
      MatchingGrows(pattern, init, last);
    }
  }

  lemma {:induction false} MatchingTwice(protocol: string -> bool, guestError: string -> bool, lines: seq<string>)
    requires forall line :: guestError(line) ==> protocol(line)
    ensures Matching(guestError, Matching(protocol, lines)) == Matching(guestError, lines)
  {
    if lines != [] {
      hide Matching;
      var init, last := lines[..|lines| - 1], lines[|lines| - 1];
      assert lines == init + [last];
      MatchingTwice(protocol, guestError, init);
      MatchingGrows(protocol, init, last);
      MatchingGrows(guestError, init, last);
      MatchingGrows(guestError, Matching(protocol, init), last);
    }
  }

  function Excess(lines: seq<string>): seq<string> {
    if |lines| <= QEMU_PROTOCOL_HISTORY_LIMIT then [] else lines[QEMU_PROTOCOL_HISTORY_LIMIT..]
  }

  /**
    For patterns like those of the harness the count is exact if and only if no error line comes
    after the 32nd protocol line; in particular it is wrong whenever there are more than 32.
   */
  lemma ErrorsExactIff(protocol: string -> bool, guestError: string -> bool, lines: seq<string>)
    requires forall line :: guestError(line) ==> protocol(line)
    ensures |Errors(protocol, guestError, lines)| == |Matching(guestError, lines)|
            <==> Matching(guestError, Excess(Matching(protocol, lines))) == []
    ensures |Matching(guestError, lines)| > QEMU_PROTOCOL_HISTORY_LIMIT ==>
              |Errors(protocol, guestError, lines)| < |Matching(guestError, lines)|
  {
    var all := Matching(protocol, lines);
    var first := Oldest(all, QEMU_PROTOCOL_HISTORY_LIMIT);
    CountedErrors(protocol, guestError, lines);
    MatchingTwice(protocol, guestError, lines);
    assert all == first + Excess(all);
    MatchingOfSum(guestError, first, Excess(all));
    MatchingIsShorter(guestError, first);
    hide Matching, Errors;
  }

  lemma {:induction false} MatchingIsShorter(pattern: string -> bool, lines: seq<string>)
    ensures |Matching(pattern, lines)| <= |lines|
  {
    if lines != [] {
      MatchingIsShorter(pattern, lines[..|lines| - 1]);
    }
  }

  function Repeat(line: string, n: nat): seq<string> {
    if n == 0 then [] else Repeat(line, n - 1) + [line]
  }

  lemma {:induction false} RepeatedMatches(pattern: string -> bool, line: string, n: nat)
    ensures |Repeat(line, n)| == n
    ensures |Matching(pattern, Repeat(line, n))| == if pattern(line) then n else 0
  {
    if n > 0 {
      hide Matching;
      RepeatedMatches(pattern, line, n - 1);
      MatchingGrows(pattern, Repeat(line, n - 1), line);
    }
  }

  function CountedOf(n: nat): nat {
    if n <= QEMU_PROTOCOL_HISTORY_LIMIT then n else QEMU_PROTOCOL_HISTORY_LIMIT
  }

  lemma {:induction false} RepeatedErrors(protocol: string -> bool, guestError: string -> bool, line: string, n: nat)
    requires protocol(line)
    ensures |Errors(protocol, guestError, Repeat(line, n))| == if guestError(line) then CountedOf(n) else 0
  {
    if n > 0 {
      RepeatedErrors(protocol, guestError, line, n - 1);
      OneMoreError(protocol, guestError, line, n);
    }
  }

  lemma OneMoreError(protocol: string -> bool, guestError: string -> bool, line: string, n: nat)
    requires protocol(line) && n > 0
    ensures |Errors(protocol, guestError, Repeat(line, n))|
         == |Errors(protocol, guestError, Repeat(line, n - 1))|
            + if guestError(line) && n <= QEMU_PROTOCOL_HISTORY_LIMIT then 1 else 0
  {
    var before := Repeat(line, n - 1);
    assert Repeat(line, n) == before + [line];
    RepeatedMatches(protocol, line, n);
    hide Matching, Errors, Repeat;
    ErrorsGrow(protocol, guestError, before, line);
  }

  /** With 33 error lines only 32 are counted. */
  lemma ErrorIsMissed(protocol: string -> bool, guestError: string -> bool)
    requires forall line :: guestError(line) == IsGuestErrorLine(line)
    requires forall line :: protocol(line) == IsProtocolLine(line)
    ensures var lines := Repeat(ErrorLine("unknown", "mount", "1"), 33);
            && |Matching(guestError, lines)| == 33
            && |Errors(protocol, guestError, lines)| == 32
            && |lines| == 33 && Missed(protocol, guestError, lines, 32)
  {
    var line := ErrorLine("unknown", "mount", "1");
    assert IsGuestErrorLine(line) by {
      assert IsRunId("unknown") && IsStepName("mount") && IsNumber("1");
    }
    ErrorLinesAreProtocolLines(line);
    hide IsGuestErrorLine, IsProtocolLine, Matching, Errors, ErrorLine;
    RepeatedErrors(protocol, guestError, line, 33);
    RepeatedMatches(protocol, line, 33);
    RepeatedMatches(guestError, line, 33);
    var lines := Repeat(line, 33);
    assert lines[32] == line && lines[..33] == lines;
  }

  /** A single error line is missed after 32 other protocol lines, so a bound on error lines alone is not enough. */
  lemma LateErrorIsMissed(protocol: string -> bool, guestError: string -> bool)
    requires forall line :: guestError(line) == IsGuestErrorLine(line)
    requires forall line :: protocol(line) == IsProtocolLine(line)
    ensures var lines := Repeat("PCR_SUDDEN_GUEST_POWER_" + "READY_V1", 32) + [ErrorLine("unknown", "mount", "1")];
            |Matching(guestError, lines)| == 1 && Errors(protocol, guestError, lines) == []
  {
    var ready, error := "PCR_SUDDEN_GUEST_POWER_" + "READY_V1", ErrorLine("unknown", "mount", "1");
    assert IsGuestErrorLine(error) by {
      assert IsRunId("unknown") && IsStepName("mount") && IsNumber("1");
    }
    ErrorLinesAreProtocolLines(error);
    assert IsProtocolLine(ready) by {
      assert Tagged(ready, "READY_V1");
    }
    ReadyIsNoError();
    hide IsGuestErrorLine, IsProtocolLine, Matching, Errors, ErrorLine, Repeat;
    RepeatedErrors(protocol, guestError, ready, 32);
    RepeatedMatches(protocol, ready, 32);
    RepeatedMatches(guestError, ready, 32);
    MatchingGrows(protocol, Repeat(ready, 32), error);
    MatchingGrows(guestError, Repeat(ready, 32), error);
    ErrorsGrow(protocol, guestError, Repeat(ready, 32), error);
  }

  lemma ReadyIsNoError()
    ensures !IsGuestErrorLine("PCR_SUDDEN_GUEST_POWER_" + "READY_V1")
  {
    forall id, name, digits
      ensures ErrorLine(id, name, digits) != "PCR_SUDDEN_GUEST_POWER_" + "READY_V1"
    {
      assert ErrorLine(id, name, digits)[23] == 'E';
    }
  }

  /** A summary without overflow reports every error line. */
  lemma HealthyMeansNoErrors(protocol: string -> bool, guestError: string -> bool, text: string)
    ensures var r := Summarize(protocol, guestError, text);
            var kept := Kept(Lines(if Rest(text) == "" then text else text + "\n"));
            !r.protocolOverflow && r.guestErrorCount == 0 ==>
              forall i :: 0 <= i < |kept| ==> !guestError(kept[i])
  {
    var kept := Kept(Lines(if Rest(text) == "" then text else text + "\n"));
    ErrorsAreCounted(protocol, guestError, kept);
    hide Kept, Lines, Rest, Errors;
    NothingMatches(guestError, kept);
  }

  lemma {:induction false} NothingMatches(pattern: string -> bool, lines: seq<string>)
    ensures Matching(pattern, lines) == [] ==> forall i :: 0 <= i < |lines| ==> !pattern(lines[i])
  {
    if lines != [] {
      NothingMatches(pattern, lines[..|lines| - 1]);
    }
  }

  /** `pushBounded`: the oldest goes when the collection is full. */
  method PushBounded<T>(collection: seq<T>, value: T, limit: nat, ghost all: seq<T>) returns (pushed: seq<T>)
    requires limit > 0 && collection == Newest(all, limit)
    ensures pushed == Newest(all + [value], limit)
  {
    pushed := if |collection| == limit then collection[1..] else collection;
    pushed := pushed + [value];
  }

  lemma EmptyFits()
    ensures !TooLong("")
  {
  }

  /** The chunk up to a newline, and the newline. */
  lemma Pieces(before: string, chunk: string, cursor: nat, newline: nat)
    requires cursor <= newline <= |chunk|
    ensures before + chunk[..cursor] + chunk[cursor..newline] == before + chunk[..newline]
    ensures newline == |chunk| ==> chunk[..newline] == chunk
    ensures newline < |chunk| && chunk[newline] == '\n' ==>
              before + chunk[..newline] + "\n" == before + chunk[..newline + 1]
  {
    assert chunk[..cursor] + chunk[cursor..newline] == chunk[..newline];
  }

  lemma KeptGrows(lines: seq<string>, line: string)
    ensures TooLong(line) ==> Kept(lines + [line]) == Kept(lines)
    ensures !TooLong(line) ==> Kept(lines + [line]) == Kept(lines) + [Normalized(line)]
  {
    assert (lines + [line])[..|lines|] == lines;
  }
}
