/**
  The process that owns the lock and performs the renames (src/advisory-lock-holder.mjs): one
  command at a time, with an `unavailable` latch. What a check or a system call finds is a
  parameter; a system call that fails changes nothing.
 */
module LockHolder {
  import opened Options
  import D = Decimal
  import L = AdvisoryLock

  datatype Identity = Identity(dev: nat, ino: nat)

  datatype Entry = Entry(identity: Identity, regular: bool, links: nat)

  type Directory = map<string, Entry>

  /** The destination precondition, as it comes over the pipe. */
  datatype Expected = Absent | Present(dev: string, ino: string) | Malformed

  datatype Request = Request(wellFormed: bool, source: string, destination: string, expected: Option<Expected>)

  /** What the checks around one rename find. */
  datatype Findings = Findings(lockCurrent: bool, statFails: bool, renameFails: bool, lockStillCurrent: bool)

  datatype Verdict = Holds | Changed | Invalid

  /** `parseExpectedIdentity` */
  function ParseExpected(e: Expected): Option<Option<Identity>> {
    match e
    case Absent => Some(None)
    case Present(dev, ino) =>
      if D.Canonical(dev) && D.Canonical(ino) then Some(Some(Identity(D.Value(dev), D.Value(ino)))) else None
    case Malformed => None
  }

  /** `assertDestinationPrecondition` */
  function CheckDestination(files: Directory, path: string, expected: Option<Expected>, statFails: bool): Verdict {
    if expected.None? then Holds
    else
      match ParseExpected(expected.value)
      case None => Invalid
      case Some(None) => if statFails || path in files then Changed else Holds
      case Some(Some(identity)) =>
        if && !statFails && path in files
           && files[path].regular && files[path].links == 1
           && files[path].identity == identity
        then Holds else Changed
  }

  /** What the precondition promises about the file that is replaced. */
  predicate Allows(files: Directory, path: string, expected: Option<Expected>) {
    match expected
    case None => true
    case Some(Absent) => path !in files
    case Some(Present(dev, ino)) =>
      && path in files && files[path].regular && files[path].links == 1
      && dev == D.Render(files[path].identity.dev)
      && ino == D.Render(files[path].identity.ino)
    case Some(Malformed) => false
  }

  lemma CheckedMeansAllowed(files: Directory, path: string, expected: Option<Expected>, statFails: bool)
    ensures CheckDestination(files, path, expected, statFails) == Holds ==> Allows(files, path, expected)
    ensures !statFails && Allows(files, path, expected) ==> CheckDestination(files, path, expected, statFails) == Holds
  {
    if expected.Some? && expected.value.Present? && ParseExpected(expected.value).Some? {
      D.CanonicalIsRendered(expected.value.dev);
      D.CanonicalIsRendered(expected.value.ino);
    }
  }

  /** The precondition can be read: no file, or a device and an inode number in decimal. */
  ghost predicate Readable(e: Expected) {
    e.Absent? || (e.Present? && exists dev, ino :: e.dev == D.Render(dev) && e.ino == D.Render(ino))
  }

  lemma ReadableIsParsed(e: Expected)
    ensures Readable(e) <==> ParseExpected(e).Some?
  {
    if e.Present? && ParseExpected(e).Some? {
      D.CanonicalIsRendered(e.dev);
      D.CanonicalIsRendered(e.ino);
    }
  }

  function Rename(files: Directory, source: string, destination: string): Directory
    requires source in files
  {
    if source == destination then files else files[destination := files[source]] - {source}
  }

  lemma RenameMovesEntry(files: Directory, source: string, destination: string)
    requires source in files
    ensures var after := Rename(files, source, destination);
            && destination in after && after[destination] == files[source]
            && (source in after <==> source == destination)
            && forall path :: path != source && path != destination ==>
                 (path in after <==> path in files) && (path in files ==> after[path] == files[path])
  {
  }

  /** Everything that a rename needs, seen from outside: the command, the lock, the destination, the source. */
  predicate Renames(files: Directory, r: Request, found: Findings) {
    && r.wellFormed
    && found.lockCurrent
    && (r.expected.Some? ==> !found.statFails)
    && Allows(files, r.destination, r.expected)
    && !found.renameFails
    && r.source in files
  }

  /**
    The one right answer to a command, by the first thing that is wrong: the latch, the command,
    the lock, the destination, the rename itself, the lock after it.
   */
  ghost predicate RightAnswer(latched: bool, files: Directory, r: Request, found: Findings, reply: L.Reply) {
    && (reply == L.Ok <==> !latched && Renames(files, r, found) && found.lockStillCurrent)
    && (reply == L.Unsure <==> latched || (Renames(files, r, found) && !found.lockStillCurrent))
    && (reply == L.LockPathReplaced <==> !latched && r.wellFormed && !found.lockCurrent)
    && (reply == L.DestinationChanged <==>
          && !latched && r.wellFormed && found.lockCurrent
          && r.expected.Some? && Readable(r.expected.value)
          && (found.statFails || !Allows(files, r.destination, r.expected)))
  }

  class Holder {
    var unavailable: bool
    var files: Directory

    constructor (files: Directory)
      ensures !unavailable && this.files == files
    {
      unavailable, this.files := false, files;
    }

    /**
      `handleCommand`. The rename is performed exactly if the latch is open and nothing is wrong
      with it; every answer is the right one; and the holder latches exactly when it has seen its
      lock replaced. `said` is what the holder would have answered without its latch: the step of
      the client's model.
     */
    method HandleCommand(r: Request, found: Findings)
        returns (reply: L.Reply, ghost said: L.Reply, ghost performed: bool)
      modifies this
      ensures performed <==> !old(unavailable) && Renames(old(files), r, found)
      ensures files == if performed then Rename(old(files), r.source, r.destination) else old(files)
      ensures RightAnswer(old(unavailable), old(files), r, found, reply)
      ensures unavailable <==> old(unavailable) || reply in {L.LockPathReplaced, L.Unsure}
      ensures reply == (if old(unavailable) then L.Unsure else said)
      ensures unavailable == (old(unavailable) || said in {L.LockPathReplaced, L.Unsure})
      ensures performed == (!old(unavailable) && said in {L.Ok, L.Unsure})
    {
      said, performed := L.RenameError, false;
      if unavailable {
        return L.Unsure, said, performed;
      }
      if !r.wellFormed {
        return L.RenameError, said, performed;
      }
      if !found.lockCurrent {
        unavailable, said := true, L.LockPathReplaced;
        return L.LockPathReplaced, said, performed;
      }
      CheckedMeansAllowed(files, r.destination, r.expected, found.statFails);
      if r.expected.Some? {
        ReadableIsParsed(r.expected.value);
      }
      var verdict := CheckDestination(files, r.destination, r.expected, found.statFails);
      if verdict != Holds {
        said := if verdict == Changed then L.DestinationChanged else L.RenameError;
        return if verdict == Changed then L.DestinationChanged else L.RenameError, said, performed;
      }
      if found.renameFails || r.source !in files {
        return L.RenameError, said, performed;
      }
      files := Rename(files, r.source, r.destination);
      performed := true;
      if !found.lockStillCurrent {
        unavailable, said := true, L.Unsure;
        return L.Unsure, said, performed;
      }
      said := L.Ok;
      reply := L.Ok;
    }

    /**
      The `operations` queue: commands are handled in order, each answered once. `before[i]` is
      the directory that command `i` finds; it decides, with the latch, what is done and said.
     */
    method Drain(queue: seq<Request>, found: seq<Findings>)
        returns (replies: seq<L.Reply>, ghost performed: seq<bool>, ghost before: seq<Directory>)
      requires |found| == |queue| && !unavailable
      modifies this
      ensures |replies| == |performed| == |queue| && |before| == |queue| + 1
      ensures before[0] == old(files) && before[|queue|] == files
      ensures forall i :: 0 <= i < |queue| ==>
                HandledAs(Latched(replies[..i]), before[i], queue[i], found[i], replies[i], performed[i], before[i + 1])
      ensures forall i :: 0 <= i < |queue| ==> Truthful(replies[i], performed[i])
      ensures forall i, j :: 0 <= i < j < |queue| && replies[i] in {L.LockPathReplaced, L.Unsure} ==>
                replies[j] == L.Unsure && !performed[j]
      ensures true in performed || files == old(files)
    {
      replies, performed, before := [], [], [files];
      for i := 0 to |queue|
        invariant |replies| == |performed| == i && |before| == i + 1
        invariant before[0] == old(files) && before[i] == files
        invariant unavailable <==> Latched(replies)
        invariant forall k :: 0 <= k < i ==>
                    HandledAs(Latched(replies[..k]), before[k], queue[k], found[k], replies[k], performed[k], before[k + 1])
      {
        hide RightAnswer, Renames, Rename;
        var reply, said, done := HandleCommand(queue[i], found[i]);
        LatchedGrows(replies, reply);
        ghost var earlier := replies;
        replies, performed, before := replies + [reply], performed + [done], before + [files];
        forall k | 0 <= k <= i
          ensures replies[..k] == earlier[..k]
        {
        }
        assert earlier[..i] == earlier;
      }
      ChainIsSafe(queue, found, replies, performed, before);
    }
  }

  /** One command of a queue, with the directory before and after it. */
  ghost predicate HandledAs(latched: bool, files: Directory, r: Request, found: Findings,
                            reply: L.Reply, performed: bool, after: Directory) {
    && (performed <==> !latched && Renames(files, r, found))
    && after == (if performed then Rename(files, r.source, r.destination) else files)
    && RightAnswer(latched, files, r, found, reply)
  }

  /** What follows for a whole queue: true answers, nothing after a doubt, no change without a rename. */
  lemma ChainIsSafe(queue: seq<Request>, found: seq<Findings>, replies: seq<L.Reply>, performed: seq<bool>,
                    before: seq<Directory>)
    requires |found| == |queue| && |replies| == |performed| == |queue| && |before| == |queue| + 1
    requires forall i :: 0 <= i < |queue| ==>
               HandledAs(Latched(replies[..i]), before[i], queue[i], found[i], replies[i], performed[i], before[i + 1])
    ensures forall i :: 0 <= i < |queue| ==> Truthful(replies[i], performed[i])
    ensures forall i, j :: 0 <= i < j < |queue| && replies[i] in {L.LockPathReplaced, L.Unsure} ==>
              replies[j] == L.Unsure && !performed[j]
    ensures true in performed || before[|queue|] == before[0]
  {
    forall i | 0 <= i < |queue|
      ensures Truthful(replies[i], performed[i])
    {
      AnswerIsTruthful(Latched(replies[..i]), before[i], queue[i], found[i], replies[i], performed[i], before[i + 1]);
    }
    hide Renames, Allows, Rename;
    forall i, j | 0 <= i < j < |queue| && replies[i] in {L.LockPathReplaced, L.Unsure}
      ensures replies[j] == L.Unsure && !performed[j]
    {
      assert replies[..j][i] == replies[i];
      assert HandledAs(Latched(replies[..j]), before[j], queue[j], found[j], replies[j], performed[j], before[j + 1]);
    }
    hide HandledAs;
    if true !in performed {
      NothingMoves(queue, found, replies, performed, before, |queue|);
    }
  }

  lemma AnswerIsTruthful(latched: bool, files: Directory, r: Request, found: Findings,
                         reply: L.Reply, performed: bool, after: Directory)
    requires HandledAs(latched, files, r, found, reply, performed, after)
    ensures Truthful(reply, performed)
  {
    hide Rename;
  }

  lemma {:induction false} NothingMoves(queue: seq<Request>, found: seq<Findings>, replies: seq<L.Reply>,
                                        performed: seq<bool>, before: seq<Directory>, n: nat)
    requires |found| == |queue| && |replies| == |performed| == |queue| && |before| == |queue| + 1
    requires forall i :: 0 <= i < |queue| ==>
               HandledAs(Latched(replies[..i]), before[i], queue[i], found[i], replies[i], performed[i], before[i + 1])
    requires true !in performed && n <= |queue|
    ensures before[n] == before[0]
  {
    hide RightAnswer, Renames, Rename;
    if n > 0 {
      NothingMoves(queue, found, replies, performed, before, n - 1);
      assert !performed[n - 1];
      assert HandledAs(Latched(replies[..n - 1]), before[n - 1], queue[n - 1], found[n - 1], replies[n - 1],
                       performed[n - 1], before[n]);
    }
  }

  /** An answer that latched the holder is among these. */
  ghost predicate Latched(replies: seq<L.Reply>) {
    exists k :: 0 <= k < |replies| && replies[k] in {L.LockPathReplaced, L.Unsure}
  }

  lemma LatchedGrows(replies: seq<L.Reply>, reply: L.Reply)
    ensures Latched(replies + [reply]) <==> Latched(replies) || reply in {L.LockPathReplaced, L.Unsure}
  {
    var all := replies + [reply];
    assert all[|replies|] == reply;
    if Latched(replies) {
      var k :| 0 <= k < |replies| && replies[k] in {L.LockPathReplaced, L.Unsure};
      assert all[k] == replies[k];
    }
  }

  /** An answer and what was done: only a doubt leaves it open. */
  predicate Truthful(reply: L.Reply, performed: bool) {
    match reply
    case Ok => performed
    case Unsure => true
    case _ => !performed
  }
}
