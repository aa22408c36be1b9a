/** Searching, splitting and joining text. */
module Strings {

  /** The first place from `from` on where `c` stands, or the end. */
  function Find(s: string, c: char, from: nat): (k: nat)
    requires from <= |s|
    ensures from <= k <= |s|
    ensures k < |s| ==> s[k] == c
    ensures forall i :: from <= i < k ==> s[i] != c
    decreases |s| - from
  {
    if from == |s| || s[from] == c then from else Find(s, c, from + 1)
  }

  /** The pieces between separators; one more than there are separators. */
  function Split(s: string, c: char): (pieces: seq<string>)
    ensures pieces != []
  {
    var k := Find(s, c, 0);
    if k == |s| then [s] else [s[..k]] + Split(s[k + 1..], c)
  }

  /** The lines of a text, each ended by a newline. */
  function Lines(s: string): seq<string> {
    var k := Find(s, '\n', 0);
    if k == |s| then [] else [s[..k]] + Lines(s[k + 1..])
  }

  /** What follows the last newline. */
  function Rest(s: string): string {
    var k := Find(s, '\n', 0);
    if k == |s| then s else Rest(s[k + 1..])
  }

  // Pieces and lines, written and read back

  function Join(pieces: seq<string>, c: char): string
    requires pieces != []
  {
    if |pieces| == 1 then pieces[0] else pieces[0] + [c] + Join(pieces[1..], c)
  }

  function Unlines(lines: seq<string>): string {
    if lines == [] then "" else lines[0] + "\n" + Unlines(lines[1..])
  }

  lemma FindAppends(s: string, c: char, rest: string)
    requires c !in s
    ensures Find(s + [c] + rest, c, 0) == |s| && Find(s, c, 0) == |s|
    ensures (s + [c] + rest)[..|s|] == s && (s + [c] + rest)[|s| + 1..] == rest
  {
    var all := s + [c] + rest;
    assert all[|s|] == c && forall i :: 0 <= i < |s| ==> all[i] == s[i];
  }

  lemma {:induction false} FieldsReadBack(pieces: seq<string>, c: char)
    requires pieces != [] && forall i :: 0 <= i < |pieces| ==> c !in pieces[i]
    ensures Split(Join(pieces, c), c) == pieces
    decreases |pieces|
  {
    if |pieces| == 1 {
      FindAppends(pieces[0], c, "");
    } else {
      FindAppends(pieces[0], c, Join(pieces[1..], c));
      FieldsReadBack(pieces[1..], c);
    }
  }

  lemma {:induction false} LinesReadBack(lines: seq<string>)
    requires forall i :: 0 <= i < |lines| ==> '\n' !in lines[i]
    ensures Lines(Unlines(lines)) == lines
    decreases |lines|
  {
    if lines != [] {
      FindAppends(lines[0], '\n', Unlines(lines[1..]));
      LinesReadBack(lines[1..]);
    }
  }

  lemma {:induction false} JoinAddsNothing(pieces: seq<string>, c: char, d: char)
    requires pieces != [] && d != c && forall i :: 0 <= i < |pieces| ==> d !in pieces[i]
    ensures d !in Join(pieces, c)
    decreases |pieces|
  {
    if |pieces| > 1 {
      JoinAddsNothing(pieces[1..], c, d);
    }
  }

  // One step of a search

  /** `Find` is determined by what it promises. */
  lemma FindIs(s: string, c: char, from: nat, k: nat)
    requires from <= k <= |s| && (k < |s| ==> s[k] == c)
    requires forall i :: from <= i < k ==> s[i] != c
    ensures Find(s, c, from) == k
  {
  }

  lemma FindInSuffix(s: string, c: char, at: nat)
    requires at <= |s|
    ensures Find(s[at..], c, 0) == Find(s, c, at) - at
  {
    var end := Find(s, c, at);
    assert end < |s| ==> s[at..][end - at] == c;
    FindIs(s[at..], c, 0, end - at);
  }

  lemma SplitUnfolds(s: string, c: char, k: nat)
    requires k == Find(s, c, 0)
    ensures Split(s, c) == if k == |s| then [s] else [s[..k]] + Split(s[k + 1..], c)
  {
  }

  /** The piece at `at`, and the rest after it. */
  lemma SplitStep(s: string, c: char, at: nat, end: nat)
    requires at <= |s| && end == Find(s, c, at)
    ensures Split(s[at..], c) == [s[at..end]] + if end == |s| then [] else Split(s[end + 1..], c)
  {
    hide Find, Split;
    FindInSuffix(s, c, at);
    var tail := s[at..];
    SplitUnfolds(tail, c, end - at);
    assert tail[..end - at] == s[at..end];
    if end < |s| {
      assert tail[end - at + 1..] == s[end + 1..];
    } else {
      assert tail == s[at..end];
    }
  }

  lemma LinesStep(s: string, at: nat, end: nat)
    requires at <= |s| && end == Find(s, '\n', at) < |s|
    ensures Lines(s[at..]) == [s[at..end]] + Lines(s[end + 1..])
  {
    hide Find, Lines;
    FindInSuffix(s, '\n', at);
    var tail := s[at..];
    FirstLine(tail, end - at);
    assert tail[..end - at] == s[at..end];
    assert tail[end - at + 1..] == s[end + 1..];
  }

  lemma SplitNothing(c: char)
    ensures Split("", c) == [""]
  {
  }

  lemma NoLines()
    ensures Lines("") == []
  {
  }

  // Text that grows

  lemma FirstLine(s: string, k: nat)
    requires k <= |s| && k == Find(s, '\n', 0)
    ensures k == |s| ==> Lines(s) == [] && Rest(s) == s
    ensures k < |s| ==> Lines(s) == [s[..k]] + Lines(s[k + 1..]) && Rest(s) == Rest(s[k + 1..])
  {
    hide Find;
  }

  /** The lines of a longer text are those of the shorter one and those that begin in its rest. */
  lemma {:induction false} LinesOfSum(s: string, t: string)
    ensures Lines(s + t) == Lines(s) + Lines(Rest(s) + t)
    ensures Rest(s + t) == Rest(Rest(s) + t)
    decreases |s|
  {
    hide Find, Lines, Rest;
    var k := Find(s, '\n', 0);
    FirstLine(s, k);
    if k < |s| {
      FindIs(s + t, '\n', 0, k);
      FirstLine(s + t, k);
      assert (s + t)[..k] == s[..k] && (s + t)[k + 1..] == s[k + 1..] + t;
      LinesOfSum(s[k + 1..], t);
    }
  }

  lemma {:induction false} RestIsOpen(s: string)
    ensures '\n' !in Rest(s)
    decreases |s|
  {
    hide Find;
    var k := Find(s, '\n', 0);
    if k < |s| {
      RestIsOpen(s[k + 1..]);
    }
  }

  /** Text without a newline only lengthens the rest. */
  lemma OpenText(s: string, t: string)
    requires '\n' !in t
    ensures Lines(s + t) == Lines(s) && Rest(s + t) == Rest(s) + t
  {
    LinesOfSum(s, t);
    RestIsOpen(s);
    var u := Rest(s) + t;
    FindIs(u, '\n', 0, |u|);
  }

  /** A newline makes the rest a line. */
  lemma ClosedLine(s: string)
    ensures Lines(s + "\n") == Lines(s) + [Rest(s)] && Rest(s + "\n") == ""
  {
    LinesOfSum(s, "\n");
    RestIsOpen(s);
    var u := Rest(s) + "\n";
    FindIs(u, '\n', 0, |Rest(s)|);
    assert u[..|Rest(s)|] == Rest(s) && u[|Rest(s)| + 1..] == "";
  }

  /** Nothing of a text is lost between its lines and its rest. */
  lemma {:induction false} LinesAndRest(s: string)
    ensures Unlines(Lines(s)) + Rest(s) == s
    decreases |s|
  {
    hide Find, Lines, Rest;
    var k := Find(s, '\n', 0);
    FirstLine(s, k);
    if k < |s| {
      LinesAndRest(s[k + 1..]);
      assert s == s[..k] + "\n" + s[k + 1..];
      assert Lines(s)[1..] == Lines(s[k + 1..]);
    }
  }

  // Pieces of a sum

  lemma {:induction false} SplitOfSum(s: string, c: char, t: string)
    ensures Split(s + [c] + t, c) == Split(s, c) + Split(t, c)
    decreases |s|
  {
    hide Find, Split;
    var u, k := s + [c] + t, Find(s, c, 0);
    SplitUnfolds(s, c, k);
    FindIs(u, c, 0, k);
    SplitUnfolds(u, c, k);
    if k < |s| {
      assert u[..k] == s[..k] && u[k + 1..] == s[k + 1..] + [c] + t;
      SplitOfSum(s[k + 1..], c, t);
    } else {
      assert u[..k] == s && u[k + 1..] == t;
    }
  }

  lemma {:induction false} JoinSplit(s: string, c: char)
    ensures Join(Split(s, c), c) == s
    decreases |s|
  {
    hide Find, Split;
    var k := Find(s, c, 0);
    SplitUnfolds(s, c, k);
    if k < |s| {
      JoinSplit(s[k + 1..], c);
      assert Split(s, c)[1..] == Split(s[k + 1..], c);
      assert s == s[..k] + [c] + s[k + 1..];
    }
  }

  lemma {:induction false} JoinOfSum(a: seq<string>, b: seq<string>, c: char)
    requires a != [] && b != []
    ensures Join(a + b, c) == Join(a, c) + [c] + Join(b, c)
    decreases |a|
  {
    assert (a + b)[1..] == a[1..] + b;
    if |a| > 1 {
      JoinOfSum(a[1..], b, c);
    }
  }

  // Identifiers

  predicate IsIdStart(c: char) {
    'A' <= c <= 'Z' || 'a' <= c <= 'z' || '0' <= c <= '9'
  }

  /** An opaque identifier, as the store and the path planner take it. */
  predicate OpaqueId(s: string) {
    && 1 <= |s| <= 128
    && IsIdStart(s[0])
    && forall i :: 0 <= i < |s| ==> IsIdStart(s[i]) || s[i] in "._:-"
  }
}
