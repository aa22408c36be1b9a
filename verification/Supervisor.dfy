/**
  The supervisor of the formatter's process group (native/linux-ext4-inspector.c) against an
  adversarial kernel.

  The kernel answers each system call from a script that may say anything; after the end of
  the script every call fails, so every finite behaviour of a kernel is some script. The
  supervisor's calls are recorded in a trace, and what it promises is said about the trace.
 */
module Supervisor {

  const UINT64_MAX: nat := 0xFFFF_FFFF_FFFF_FFFF

  /** `Yes` is success, `Missing` is ESRCH or ECHILD, `Interrupted` is EINTR. */
  datatype Verdict = Yes | No | Missing | Interrupted | Failure

  /** Each call also takes some time. */
  datatype Answer = Answer(verdict: Verdict, advance: nat)

  datatype Signal = Terminate | Kill

  /** `Failed` is a call that failed or answered what its caller cannot use; `OtherCall` settles nothing. */
  datatype Event =
    | Time(now: nat)
    | LeaderTerminal
    | LeaderReaped
    | DescendantReaped
    | NoGroupChildren
    | GroupAbsent
    | Signalled(signal: Signal)
    | OtherCall
    | Failed

  /** One more event. */
  predicate Grows(before: seq<Event>, after: seq<Event>) {
    before <= after && |after| == |before| + 1
  }

  class Kernel {
    var script: seq<Answer>
    var clock: nat
    var trace: seq<Event>

    constructor (script: seq<Answer>, clock: nat)
      ensures this.script == script && this.clock == clock && trace == []
    {
      this.script, this.clock, trace := script, clock, [];
    }

    /** One answer of the kernel, or a failure when it has no more. */
    method Next() returns (verdict: Verdict)
      modifies this
      ensures trace == old(trace) && clock >= old(clock)
      ensures |script| < old(|script|) || (script == [] == old(script) && verdict == Failure)
      ensures old(script) != [] ==> verdict == old(script)[0].verdict && clock == old(clock) + old(script)[0].advance
    {
      if script == [] {
        verdict := Failure;
      } else {
        verdict := script[0].verdict;
        clock := clock + script[0].advance;
        script := script[1..];
      }
    }

    /** `monotonic_milliseconds`, which refuses a reading that would not fit in 64 bits. */
    method Clock() returns (ok: bool, now: nat)
      modifies this
      ensures |script| <= old(|script|) && (ok ==> |script| < old(|script|)) && clock >= old(clock)
      ensures ok ==> now == clock <= UINT64_MAX
      ensures trace == old(trace) + if ok then [Time(now)] else [Failed]
    {
      var verdict := Next();
      ok, now := verdict != Failure && clock <= UINT64_MAX, clock;
      trace := trace + if ok then [Time(now)] else [Failed];
    }

    /** `waitid(P_PID, leader, WEXITED | WNOHANG | WNOWAIT)` */
    method WaitTerminal() returns (verdict: Verdict)
      modifies this
      ensures |script| <= old(|script|) && (verdict != Failure ==> |script| < old(|script|)) && clock >= old(clock)
      ensures Grows(old(trace), trace)
      ensures trace[|old(trace)|]
              == (if verdict == Yes then LeaderTerminal
                  else if verdict == No || verdict == Interrupted then OtherCall
                  else Failed)
    {
      verdict := Next();
      trace := trace + [if verdict == Yes then LeaderTerminal
                        else if verdict == No || verdict == Interrupted then OtherCall
                        else Failed];
    }

    /** `waitpid(leader, ..., WNOHANG)` */
    method ReapLeader() returns (verdict: Verdict)
      modifies this
      ensures |script| <= old(|script|) && (verdict != Failure ==> |script| < old(|script|)) && clock >= old(clock)
      ensures Grows(old(trace), trace)
      ensures trace[|old(trace)|]
              == (if verdict == Yes then LeaderReaped
                  else if verdict == Interrupted then OtherCall
                  else Failed)
    {
      verdict := Next();
      trace := trace + [if verdict == Yes then LeaderReaped
                        else if verdict == Interrupted then OtherCall
                        else Failed];
    }

    /** `waitpid(-leader, ..., WNOHANG)` */
    method ReapDescendant() returns (verdict: Verdict)
      modifies this
      ensures |script| <= old(|script|) && (verdict != Failure ==> |script| < old(|script|)) && clock >= old(clock)
      ensures Grows(old(trace), trace)
      ensures trace[|old(trace)|]
              == (if verdict == Yes then DescendantReaped
                  else if verdict == Missing then NoGroupChildren
                  else if verdict == No || verdict == Interrupted then OtherCall
                  else Failed)
    {
      verdict := Next();
      trace := trace + [if verdict == Yes then DescendantReaped
                        else if verdict == Missing then NoGroupChildren
                        else if verdict == No || verdict == Interrupted then OtherCall
                        else Failed];
    }

    /** `kill(-leader, 0)`, which delivers nothing */
    method ProbeGroup() returns (verdict: Verdict)
      modifies this
      ensures |script| <= old(|script|) && (verdict != Failure ==> |script| < old(|script|)) && clock >= old(clock)
      ensures Grows(old(trace), trace)
      ensures trace[|old(trace)|]
              == (if verdict == Missing then GroupAbsent
                  else if verdict == Yes then OtherCall
                  else Failed)
    {
      verdict := Next();
      trace := trace + [if verdict == Missing then GroupAbsent
                        else if verdict == Yes then OtherCall
                        else Failed];
    }

    /** `kill(-leader, signal)`, recorded whether or not the kernel delivers it */
    method SignalGroup(signal: Signal) returns (verdict: Verdict)
      modifies this
      ensures |script| <= old(|script|) && clock >= old(clock)
      ensures trace == old(trace) + [Signalled(signal)] + if verdict == Yes || verdict == Missing then [] else [Failed]
    {
      verdict := Next();
      trace := trace + [Signalled(signal)] + if verdict == Yes || verdict == Missing then [] else [Failed];
    }

    method Sleep() returns (verdict: Verdict)
      modifies this
      ensures |script| <= old(|script|) && (verdict != Failure ==> |script| < old(|script|)) && clock >= old(clock)
      ensures Grows(old(trace), trace)
      ensures trace[|old(trace)|] == (if verdict == Yes || verdict == Interrupted then OtherCall else Failed)
    {
      verdict := Next();
      trace := trace + [if verdict == Yes || verdict == Interrupted then OtherCall else Failed];
    }
  }

  // What the trace says

  ghost predicate Reaped(trace: seq<Event>) {
    LeaderReaped in trace
  }

  /** The leader is reaped at most once, after it was seen terminal, and no signal follows. */
  ghost predicate Orderly(trace: seq<Event>) {
    && (forall i, j :: 0 <= i < j < |trace| && trace[i] == LeaderReaped ==>
          trace[j] != LeaderReaped && !trace[j].Signalled?)
    && (forall i :: 0 <= i < |trace| && trace[i] == LeaderReaped ==> LeaderTerminal in trace[..i])
  }

  /** The trace went on without a signal or a reap of the leader. */
  ghost predicate Quietly(before: seq<Event>, after: seq<Event>) {
    && before <= after
    && forall i :: |before| <= i < |after| ==> !after[i].Signalled? && after[i] != LeaderReaped
  }

  lemma EmptyIsOrderly()
    ensures Orderly([]) && !Reaped([])
  {
  }

  lemma QuietKeepsOrder(before: seq<Event>, after: seq<Event>)
    requires Orderly(before) && Quietly(before, after)
    ensures Orderly(after) && (Reaped(after) <==> Reaped(before))
    ensures LeaderTerminal in before ==> LeaderTerminal in after
  {
    forall i | 0 <= i < |after| && after[i] == LeaderReaped
      ensures LeaderTerminal in after[..i]
    {
      assert after[..i] == before[..i];
    }
    assert forall i :: 0 <= i < |before| ==> after[i] == before[i];
  }

  lemma SignalKeepsOrder(trace: seq<Event>, signal: Signal)
    requires Orderly(trace) && !Reaped(trace)
    ensures Orderly(trace + [Signalled(signal)]) && !Reaped(trace + [Signalled(signal)])
  {
  }

  lemma ReapKeepsOrder(trace: seq<Event>)
    requires Orderly(trace) && !Reaped(trace) && LeaderTerminal in trace
    ensures Orderly(trace + [LeaderReaped]) && Reaped(trace + [LeaderReaped])
  {
    var all := trace + [LeaderReaped];
    assert all[|trace|] == LeaderReaped && all[..|trace|] == trace;
  }

  function Min(a: int, b: int): int {
    if a < b then a else b
  }

  /** The leader was seen terminal at this place, and the clock then still showed a time before `limit`. */
  predicate SeenAt(trace: seq<Event>, b: nat, limit: int) {
    && b + 1 < |trace|
    && trace[b] == LeaderTerminal
    && trace[b + 1].Time?
    && trace[b + 1].now < limit
  }

  /** Just before this place the clock showed that the deadline had passed. */
  predicate LateAt(trace: seq<Event>, m: nat, deadline: int) {
    0 < m <= |trace| && trace[m - 1].Time? && trace[m - 1].now >= deadline
  }

  ghost predicate NoSignalBetween(trace: seq<Event>, a: nat, b: nat) {
    forall i :: a <= i < b && i < |trace| ==> !trace[i].Signalled?
  }

  /** Asked to stop at `a`, the leader ended in time at `b`, with no signal in between. */
  ghost predicate EndsInGraceAt(trace: seq<Event>, a: nat, b: nat, limit: int) {
    a < b && SeenAt(trace, b, limit) && NoSignalBetween(trace, a + 1, b)
  }

  /** Asked to stop at `a`, it was killed at `m` after its time had run out, and then ended at `b`. */
  ghost predicate KilledAt(trace: seq<Event>, a: nat, m: nat, b: nat, limit: int, hard: int) {
    && a < m < b < |trace|
    && LateAt(trace, m, limit)
    && trace[m] == Signalled(Kill)
    && SeenAt(trace, b, hard)
    && NoSignalBetween(trace, a + 1, m) && NoSignalBetween(trace, m + 1, b)
  }

  /**
    After the leader was asked to stop at `a`, it ended within its grace, or the grace ran out,
    it was killed, and then it ended before the hard deadline.
   */
  ghost predicate EndsAfterAsked(trace: seq<Event>, a: nat, limit: int, hard: int) {
    || (exists b :: EndsInGraceAt(trace, a, b, limit))
    || (exists m, b :: KilledAt(trace, a, m, b, limit, hard))
  }

  /** The execution phase ran out before the leader was asked to stop at `a`. */
  ghost predicate AskedAt(trace: seq<Event>, a: nat, limit: int) {
    && 0 < a < |trace|
    && NoSignalBetween(trace, 0, a)
    && trace[a] == Signalled(Terminate)
    && LateAt(trace, a, limit)
  }

  /** The leader was asked at `a`, in time for its grace, and then ended in one of the two ways. */
  ghost predicate EndsAsked(trace: seq<Event>, a: nat, hard: nat, grace: nat, kill: nat) {
    && a + 1 < |trace|
    && trace[a + 1].Time?
    && Plannable(trace[a + 1].now, grace, kill, hard)
    && EndsAfterAsked(trace, a, Min(trace[a + 1].now + grace, hard - kill), hard)
  }

  /** A phase that starts now can end inside the hard deadline less its reserve, and in 64 bits. */
  predicate Plannable(now: nat, phase: nat, reserve: nat, hard: nat) {
    reserve < hard && now < hard - reserve && now + phase <= UINT64_MAX
  }

  /** The leader ended within its execution phase, and nothing was signalled to it before. */
  ghost predicate EndsInTime(trace: seq<Event>, hard: nat, execution: nat, grace: nat, kill: nat) {
    && trace != [] && trace[0].Time?
    && Plannable(trace[0].now, execution, grace + kill, hard)
    && exists b :: SeenAt(trace, b, Min(trace[0].now + execution, hard - grace - kill)) && NoSignalBetween(trace, 0, b)
  }

  /** The execution phase ran out before the leader was asked to stop, and each later phase kept its reserve. */
  ghost predicate Escalates(trace: seq<Event>, hard: nat, execution: nat, grace: nat, kill: nat) {
    && trace != [] && trace[0].Time?
    && Plannable(trace[0].now, execution, grace + kill, hard)
    && exists a ::
         && AskedAt(trace, a, Min(trace[0].now + execution, hard - grace - kill))
         && EndsAsked(trace, a, hard, grace, kill)
  }

  /**
    What can keep the supervisor from success, as the trace shows it: phases that cannot be
    planned, a failed call, a clock at or past the hard deadline, or a group that is gone while
    the kernel still counts children in it.
   */
  ghost predicate Blamed(trace: seq<Event>, hard: nat, execution: nat, grace: nat, kill: nat) {
    || grace + kill >= hard
    || Failed in trace
    || (exists m: nat :: LateAt(trace, m, hard))
    || (trace != [] && trace[0].Time? && !Plannable(trace[0].now, execution, grace + kill, hard))
    || (exists i :: 0 <= i < |trace| - 1 && trace[i] == Signalled(Terminate)
                    && trace[i + 1].Time? && !Plannable(trace[i + 1].now, grace, kill, hard))
    || (exists i :: 0 <= i < |trace| - 1 && trace[i] != NoGroupChildren && trace[i + 1] == GroupAbsent)
  }

  lemma EndsAfterAskedExtends(before: seq<Event>, after: seq<Event>, a: nat, limit: int, hard: int)
    requires EndsAfterAsked(before, a, limit, hard) && before <= after
    ensures EndsAfterAsked(after, a, limit, hard)
  {
    assert forall i :: 0 <= i < |before| ==> after[i] == before[i];
    if b :| EndsInGraceAt(before, a, b, limit) {
      assert EndsInGraceAt(after, a, b, limit);
    } else {
      var m, b :| KilledAt(before, a, m, b, limit, hard);
      assert KilledAt(after, a, m, b, limit, hard);
    }
  }

  /** Up to `n`, the last calls found no child left in the group, then no group at all, then a time before `limit`. */
  predicate SettledAt(trace: seq<Event>, n: nat, limit: int) {
    && 3 <= n <= |trace|
    && trace[n - 3] == NoGroupChildren
    && trace[n - 2] == GroupAbsent
    && trace[n - 1].Time?
    && trace[n - 1].now < limit
  }

  ghost predicate EndsSettled(trace: seq<Event>, limit: int) {
    SettledAt(trace, |trace|, limit)
  }

  /** After its reap at some time the group was found to be gone before `limit`. */
  ghost predicate Settles(trace: seq<Event>, limit: int) {
    exists r: nat, n: nat :: ReapedAt(trace, r) && r + 3 < n && SettledAt(trace, n, limit)
  }

  predicate ReapedAt(trace: seq<Event>, r: nat) {
    r < |trace| && trace[r] == LeaderReaped
  }

  /** A call after which a watch goes on: it did not fail, and no clock showed the deadline. */
  predicate Smooth(event: Event, deadline: int) {
    event != Failed && (event.Time? ==> event.now < deadline)
  }

  ghost predicate Proceeds(trace: seq<Event>, from: nat, deadline: int) {
    forall i :: from <= i < |trace| ==> Smooth(trace[i], deadline)
  }

  /** The watch ended with the first call that was not smooth, or before it. */
  ghost predicate StopsInTime(trace: seq<Event>, from: nat, deadline: int) {
    |trace| > from && Proceeds(trace[..|trace| - 1], from, deadline)
  }

  lemma QuietOn(start: seq<Event>, before: seq<Event>, after: seq<Event>)
    requires Quietly(start, before) && Grows(before, after)
    requires !after[|before|].Signalled? && after[|before|] != LeaderReaped
    ensures Quietly(start, after)
  {
    assert forall i :: 0 <= i < |before| ==> after[i] == before[i];
  }

  lemma ProceedsOn(before: seq<Event>, after: seq<Event>, from: nat, deadline: int)
    requires Proceeds(before, from, deadline) && from <= |before| && Grows(before, after)
    ensures Smooth(after[|before|], deadline) ==> Proceeds(after, from, deadline)
    ensures StopsInTime(after, from, deadline)
  {
    assert after[..|before|] == before;
  }

  lemma ProceedsThrough(before: seq<Event>, after: seq<Event>, from: nat, deadline: int)
    requires Proceeds(before, from, deadline) && from <= |before| && before <= after
    ensures Proceeds(after, |before|, deadline) ==> Proceeds(after, from, deadline)
    ensures StopsInTime(after, |before|, deadline) ==> StopsInTime(after, from, deadline)
  {
    assert forall i :: 0 <= i < |before| ==> after[i] == before[i];
  }

  /** Nothing about the processes was learned. */
  ghost predicate Idles(before: seq<Event>, after: seq<Event>) {
    && before <= after
    && forall i :: |before| <= i < |after| ==> after[i] == OtherCall || after[i] == Failed || after[i].Time?
  }

  // The code

  /** `phase_deadline`: the phase ends inside the hard deadline less its reserve, without overflow. */
  method PhaseDeadline(k: Kernel, hard: nat, phase: nat, reserve: nat) returns (ok: bool, deadline: nat)
    requires hard <= UINT64_MAX && phase <= UINT64_MAX && reserve <= UINT64_MAX
    modifies k
    ensures Quietly(old(k.trace), k.trace) && |k.script| <= old(|k.script|)
    ensures ok ==> deadline + reserve <= hard
    ensures ok ==> k.clock <= deadline <= k.clock + phase <= UINT64_MAX
    ensures ok ==> k.trace == old(k.trace) + [Time(k.clock)] && deadline == Min(k.clock + phase, hard - reserve)
    ensures ok ==> Plannable(k.clock, phase, reserve, hard)
    ensures !ok ==>
              || (reserve >= hard && k.trace == old(k.trace))
              || k.trace == old(k.trace) + [Failed]
              || (k.trace == old(k.trace) + [Time(k.clock)] && !Plannable(k.clock, phase, reserve, hard))
  {
    ok, deadline := false, 0;
    if reserve >= hard { return; }
    var read, now := k.Clock();
    if !read || now >= hard - reserve || now > UINT64_MAX - phase { return; }
    var phaseEnd := now + phase;
    assert phaseEnd <= UINT64_MAX;
    var latestEnd := hard - reserve;
    ok, deadline := true, if phaseEnd < latestEnd then phaseEnd else latestEnd;
  }

  /** The state of a pause that goes on. */
  ghost predicate Pauses(start: seq<Event>, trace: seq<Event>, deadline: int) {
    Idles(start, trace) && Proceeds(trace, |start|, deadline)
  }

  lemma PausesOn(start: seq<Event>, before: seq<Event>, after: seq<Event>, deadline: int)
    requires Pauses(start, before, deadline) && Grows(before, after)
    requires var event := after[|before|]; event == OtherCall || event == Failed || event.Time?
    ensures Idles(start, after) && StopsInTime(after, |start|, deadline)
    ensures Smooth(after[|before|], deadline) ==> Pauses(start, after, deadline)
  {
    ProceedsOn(before, after, |start|, deadline);
  }

  /** The sleep between two polls: -1 on failure, 0 when the deadline passed, 1 to poll again. */
  method PollDelay(k: Kernel, deadline: nat) returns (r: int)
    modifies k
    ensures Idles(old(k.trace), k.trace) && |k.script| <= old(|k.script|)
    ensures -1 <= r <= 1
    ensures StopsInTime(k.trace, |old(k.trace)|, deadline)
    ensures r == 0 ==> |k.trace| > |old(k.trace)| && LateAt(k.trace, |k.trace|, deadline)
    ensures r < 0 ==> FailsAt(old(k.trace), k.trace)
    ensures r > 0 ==> |k.script| < old(|k.script|) && Proceeds(k.trace, |old(k.trace)|, deadline)
  {
    ghost var start := k.trace;
    assert Pauses(start, start, deadline);
    assert forall t :: Pauses(start, t, deadline) ==> Proceeds(t, |start|, deadline);
    hide Pauses, Idles, Proceeds, StopsInTime;
    ghost var before := k.trace;
    var slept := k.Sleep();
    PausesOn(start, before, k.trace, deadline);
    while slept != Yes
      invariant Idles(start, k.trace) && StopsInTime(k.trace, |start|, deadline) && |k.trace| > |start|
      invariant if slept != Yes && slept != Interrupted
                then k.trace[|k.trace| - 1] == Failed
                else Pauses(start, k.trace, deadline)
      invariant |k.script| <= old(|k.script|) && (slept != Failure ==> |k.script| < old(|k.script|))
      decreases |k.script|
    {
      if slept != Interrupted { return -1; }
      before := k.trace;
      var read, now := k.Clock();
      PausesOn(start, before, k.trace, deadline);
      if !read { return -1; }
      if now >= deadline { return 0; }
      before := k.trace;
      slept := k.Sleep();
      PausesOn(start, before, k.trace, deadline);
    }
    r := 1;
  }

  /** The last call of the new part failed. */
  predicate FailsAt(before: seq<Event>, after: seq<Event>) {
    |after| > |before| && after[|after| - 1] == Failed
  }

  /** From here on the leader was not seen terminal in time. */
  ghost predicate Unseen(trace: seq<Event>, from: nat, deadline: int) {
    forall i :: from <= i < |trace| ==> !SeenAt(trace, i, deadline)
  }

  lemma StillUnseen(before: seq<Event>, after: seq<Event>, from: nat, deadline: int)
    requires Unseen(before, from, deadline) && before <= after && from <= |before|
    requires |before| > from && |after| > |before| ==> before[|before| - 1] != LeaderTerminal
    requires LeaderTerminal !in after[|before|..]
    ensures Unseen(after, from, deadline)
  {
    forall i | from <= i < |after|
      ensures !SeenAt(after, i, deadline)
    {
      if i + 1 < |before| {
        assert !SeenAt(before, i, deadline) && after[i] == before[i] && after[i + 1] == before[i + 1];
      } else if i < |before| {
        assert after[i] == before[i];
      } else {
        assert after[i] == after[|before|..][i - |before|];
      }
    }
  }

  /** `formatter_child_terminal_until` */
  method TerminalUntil(k: Kernel, deadline: nat) returns (r: int)
    modifies k
    ensures Quietly(old(k.trace), k.trace) && |k.script| <= old(|k.script|)
    ensures -1 <= r <= 1
    ensures StopsInTime(k.trace, |old(k.trace)|, deadline)
    ensures r > 0 ==> |k.trace| >= |old(k.trace)| + 2 && SeenAt(k.trace, |k.trace| - 2, deadline)
    ensures r > 0 ==> Unseen(k.trace[..|k.trace| - 1], |old(k.trace)|, deadline)
    ensures r == 0 ==> |k.trace| > |old(k.trace)| && LateAt(k.trace, |k.trace|, deadline)
    ensures r < 0 ==> FailsAt(old(k.trace), k.trace)
    ensures r <= 0 ==> Unseen(k.trace, |old(k.trace)|, deadline)
  {
    ghost var start := k.trace;
    assert Watches(start, start, deadline);
    hide Watches, Unseen, Proceeds, StopsInTime, Idles;
    while true
      invariant Watches(start, k.trace, deadline) && |k.script| <= old(|k.script|)
      decreases |k.script|
    {
      ghost var before := k.trace;
      var seen := k.WaitTerminal();
      WatchOn(start, before, k.trace, deadline);
      if seen != Yes && seen != No && seen != Interrupted { return -1; }
      ghost var asked := k.trace;
      var read, now := k.Clock();
      if seen == Yes {
        WatchDecides(start, asked, k.trace, deadline);
        return if !read then -1 else if now < deadline then 1 else 0;
      }
      WatchOn(start, asked, k.trace, deadline);
      if !read { return -1; }
      if now >= deadline { return 0; }
      if seen == No {
        ghost var polled := k.trace;
        var again := PollDelay(k, deadline);
        WatchPauses(start, polled, k.trace, deadline);
        if again <= 0 { return again; }
      }
    }
  }

  /** The state of a watch that goes on: nothing was sent, the leader not seen in time, no call final. */
  ghost predicate Watches(start: seq<Event>, trace: seq<Event>, deadline: int) {
    && Quietly(start, trace)
    && Unseen(trace, |start|, deadline)
    && Proceeds(trace, |start|, deadline)
    && (|trace| > |start| ==> trace[|trace| - 1] != LeaderTerminal)
  }

  /** What holds whenever a watch ends. */
  ghost predicate WatchEnded(start: seq<Event>, trace: seq<Event>, deadline: int) {
    Quietly(start, trace) && StopsInTime(trace, |start|, deadline)
  }

  /** One call that shows nothing, or one that shows the leader. */
  lemma WatchOn(start: seq<Event>, before: seq<Event>, after: seq<Event>, deadline: int)
    requires Watches(start, before, deadline) && Grows(before, after)
    requires !after[|before|].Signalled? && after[|before|] != LeaderReaped
    ensures WatchEnded(start, after, deadline) && Unseen(after, |start|, deadline)
    ensures Smooth(after[|before|], deadline) && after[|before|] != LeaderTerminal ==> Watches(start, after, deadline)
    ensures Smooth(after[|before|], deadline) ==> Proceeds(after, |start|, deadline)
  {
    ProceedsOn(before, after, |start|, deadline);
    assert forall i :: 0 <= i < |before| ==> after[i] == before[i];
    forall i | |start| <= i < |after|
      ensures !SeenAt(after, i, deadline)
    {
      assert !SeenAt(before, i, deadline) || i >= |before|;
    }
  }

  /** The clock after the leader was shown: in time, or the watch ends without a sighting. */
  lemma WatchDecides(start: seq<Event>, shown: seq<Event>, after: seq<Event>, deadline: int)
    requires Quietly(start, shown) && Unseen(shown, |start|, deadline) && Proceeds(shown, |start|, deadline)
    requires |shown| > |start| && shown[|shown| - 1] == LeaderTerminal && Grows(shown, after)
    requires after[|shown|].Time? || after[|shown|] == Failed
    ensures WatchEnded(start, after, deadline) && after[..|after| - 1] == shown
    ensures if Smooth(after[|shown|], deadline) then SeenAt(after, |after| - 2, deadline)
            else Unseen(after, |start|, deadline)
  {
    ProceedsOn(shown, after, |start|, deadline);
    assert forall i :: 0 <= i < |shown| ==> after[i] == shown[i];
    if !Smooth(after[|shown|], deadline) {
      forall i | |start| <= i < |after|
        ensures !SeenAt(after, i, deadline)
      {
        assert !SeenAt(shown, i, deadline) || i >= |shown|;
      }
    }
  }

  /** A pause shows nothing of the leader. */
  lemma WatchPauses(start: seq<Event>, before: seq<Event>, after: seq<Event>, deadline: int)
    requires Watches(start, before, deadline) && |before| > |start| && Idles(before, after)
    requires StopsInTime(after, |before|, deadline)
    ensures WatchEnded(start, after, deadline) && Unseen(after, |start|, deadline)
    ensures Proceeds(after, |before|, deadline) ==> Watches(start, after, deadline)
  {
    ProceedsThrough(before, after, |start|, deadline);
    StillUnseen(before, after, |start|, deadline);
    assert forall i :: 0 <= i < |before| ==> after[i] == before[i];
  }

  /** `signal_unreaped_formatter_group`, which its callers use only while the leader is unreaped */
  method SignalUnreaped(k: Kernel, signal: Signal) returns (ok: bool)
    requires Orderly(k.trace) && !Reaped(k.trace)
    modifies k
    ensures k.trace == old(k.trace) + [Signalled(signal)] + (if ok then [] else [Failed])
    ensures Orderly(k.trace) && !Reaped(k.trace) && |k.script| <= old(|k.script|)
  {
    SignalKeepsOrder(k.trace, signal);
    var verdict := k.SignalGroup(signal);
    ok := verdict == Yes || verdict == Missing;
    QuietKeepsOrder(old(k.trace) + [Signalled(signal)], k.trace);
  }

  /** The last event shows why the group could not be finished. */
  ghost predicate FinishBlamed(trace: seq<Event>, deadline: nat) {
    && trace != []
    && (|| trace[|trace| - 1] == Failed
        || LateAt(trace, |trace|, deadline)
        || (|trace| > 1 && trace[|trace| - 2] != NoGroupChildren && trace[|trace| - 1] == GroupAbsent))
  }

  /** The first loop of `reap_formatter_group_until` */
  method ReapLeaderUntil(k: Kernel, deadline: nat) returns (ok: bool)
    requires Orderly(k.trace) && !Reaped(k.trace) && LeaderTerminal in k.trace
    modifies k
    ensures old(k.trace) <= k.trace && Orderly(k.trace)
    ensures StopsInTime(k.trace, |old(k.trace)|, deadline)
    ensures ok <==> Reaped(k.trace)
    ensures ok ==> k.trace[|k.trace| - 1] == LeaderReaped
    ensures !ok ==> FinishBlamed(k.trace, deadline)
    ensures forall i :: |old(k.trace)| <= i < |k.trace| ==> !k.trace[i].Signalled?
  {
    ghost var start := k.trace;
    assert Reaping(start, start, deadline);
    hide Reaping, Orderly, Proceeds, StopsInTime, Reaped;
    while true
      invariant Reaping(start, k.trace, deadline)
      decreases |k.script|
    {
      ghost var before := k.trace;
      var waited := k.ReapLeader();
      if waited == Yes {
        ReapingEnds(start, before, k.trace, deadline);
        return true;
      }
      ReapingOn(start, before, k.trace, deadline);
      if waited != Interrupted { return false; }
      before := k.trace;
      var read, now := k.Clock();
      ReapingOn(start, before, k.trace, deadline);
      if !read || now >= deadline { return false; }
    }
  }

  /** The state of this loop: the leader seen, not reaped, nothing sent, no call final. */
  ghost predicate Reaping(start: seq<Event>, trace: seq<Event>, deadline: int) {
    && Orderly(start) && !Reaped(start) && LeaderTerminal in start
    && Quietly(start, trace)
    && Proceeds(trace, |start|, deadline)
  }

  lemma ReapingOn(start: seq<Event>, before: seq<Event>, after: seq<Event>, deadline: int)
    requires Reaping(start, before, deadline) && Grows(before, after)
    requires !after[|before|].Signalled? && after[|before|] != LeaderReaped
    ensures Quietly(start, after) && Orderly(after) && !Reaped(after) && StopsInTime(after, |start|, deadline)
    ensures Smooth(after[|before|], deadline) ==> Reaping(start, after, deadline)
  {
    hide Orderly, Reaped, Proceeds, StopsInTime;
    ProceedsOn(before, after, |start|, deadline);
    QuietOn(start, before, after);
    QuietKeepsOrder(start, after);
  }

  lemma ReapingEnds(start: seq<Event>, before: seq<Event>, after: seq<Event>, deadline: int)
    requires Reaping(start, before, deadline) && Grows(before, after) && after[|before|] == LeaderReaped
    ensures start <= after && Orderly(after) && Reaped(after) && StopsInTime(after, |start|, deadline)
    ensures forall i :: |start| <= i < |after| ==> !after[i].Signalled?
  {
    hide Orderly, Reaped, Proceeds, StopsInTime;
    ProceedsOn(before, after, |start|, deadline);
    SilentOn(start, before, after);
    hide Grows;
    QuietKeepsOrder(start, before);
    hide Quietly;
    ReapKeepsOrder(before);
  }

  lemma SilentOn(start: seq<Event>, before: seq<Event>, after: seq<Event>)
    requires Quietly(start, before) && Grows(before, after) && !after[|before|].Signalled?
    ensures start <= after && after == before + [after[|before|]]
    ensures forall i :: |start| <= i < |after| ==> !after[i].Signalled?
  {
    assert forall i :: 0 <= i < |before| ==> after[i] == before[i];
  }

  /** Only the last two calls may have found the group gone. */
  ghost predicate AbsentLast(trace: seq<Event>, from: nat) {
    forall i :: from <= i < |trace| - 2 ==> trace[i] != GroupAbsent
  }

  /** What this loop promises whenever it ends: nothing sent, no call after the one that ended it. */
  ghost predicate Drained(start: seq<Event>, trace: seq<Event>, deadline: int) {
    Quietly(start, trace) && StopsInTime(trace, |start|, deadline) && AbsentLast(trace, |start|)
  }

  /** The second loop of `reap_formatter_group_until` */
  method DrainGroupUntil(k: Kernel, deadline: nat) returns (ok: bool)
    modifies k
    ensures Drained(old(k.trace), k.trace, deadline)
    ensures ok <==> EndsSettled(k.trace, deadline)
    ensures !ok ==> FinishBlamed(k.trace, deadline)
  {
    ghost var start := k.trace;
    assert Drains(start, start, deadline);
    hide Drains, Drained, Proceeds, StopsInTime, Idles, Quietly, EndsSettled;
    while true
      invariant Drains(start, k.trace, deadline)
      decreases |k.script|
    {
      ghost var before := k.trace;
      var waited := k.ReapDescendant();
      DrainsOn(start, before, k.trace, deadline);
      ghost var waiting := k.trace;
      if waited == Yes || waited == Interrupted {
        var read := ClockBefore(k, deadline);
        DrainsOn(start, waiting, k.trace, deadline);
        if !read { return false; }
        continue;
      }
      if waited == Failure { return false; }
      var probe := k.ProbeGroup();
      DrainsOn(start, waiting, k.trace, deadline);
      ghost var probed := k.trace;
      if probe != Yes && probe != Missing { return false; }
      if probe == Missing && waited != Missing { return false; }
      var read := ClockBefore(k, deadline);
      if probe == Missing {
        DrainEnds(start, waiting, probed, k.trace, deadline);
      } else {
        DrainsOn(start, probed, k.trace, deadline);
      }
      if !read || probe == Missing { return read; }
      ghost var paused := k.trace;
      var again := PollDelay(k, deadline);
      DrainsThrough(start, paused, k.trace, deadline);
      if again <= 0 { return false; }
    }
  }

  /** The state of this loop: no call so far has ended it, and none has found the group gone. */
  ghost predicate Drains(start: seq<Event>, trace: seq<Event>, deadline: int) {
    && Quietly(start, trace)
    && Proceeds(trace, |start|, deadline)
    && forall i :: |start| <= i < |trace| ==> trace[i] != GroupAbsent
  }

  lemma DrainsOn(start: seq<Event>, before: seq<Event>, after: seq<Event>, deadline: int)
    requires Drains(start, before, deadline) && Grows(before, after)
    requires !after[|before|].Signalled? && after[|before|] != LeaderReaped
    ensures Drained(start, after, deadline)
    ensures Smooth(after[|before|], deadline) && after[|before|] != GroupAbsent ==> Drains(start, after, deadline)
    ensures Smooth(after[|before|], deadline) ==> Quietly(start, after) && Proceeds(after, |start|, deadline)
    ensures |before| > |start| || !after[|before|].Time? ==> !EndsSettled(after, deadline)
  {
    ProceedsOn(before, after, |start|, deadline);
    assert forall i :: 0 <= i < |before| ==> after[i] == before[i];
  }

  /** The group was found gone, and then the clock was read. */
  lemma DrainEnds(start: seq<Event>, before: seq<Event>, probed: seq<Event>, after: seq<Event>, deadline: int)
    requires Drains(start, before, deadline) && Grows(before, probed) && Grows(probed, after)
    requires Quietly(start, probed) && Proceeds(probed, |start|, deadline)
    requires !after[|probed|].Signalled? && after[|probed|] != LeaderReaped
    requires |before| > |start| && before[|before| - 1] == NoGroupChildren && probed[|before|] == GroupAbsent
    ensures Drained(start, after, deadline)
    ensures EndsSettled(after, deadline) <==> after[|probed|].Time? && after[|probed|].now < deadline
  {
    ProceedsOn(probed, after, |start|, deadline);
    assert forall i :: 0 <= i < |probed| ==> after[i] == probed[i];
    assert forall i :: 0 <= i < |before| ==> probed[i] == before[i];
  }

  lemma DrainsThrough(start: seq<Event>, before: seq<Event>, after: seq<Event>, deadline: int)
    requires Drains(start, before, deadline) && Idles(before, after)
    requires StopsInTime(after, |before|, deadline)
    ensures Drained(start, after, deadline)
    ensures Proceeds(after, |before|, deadline) ==> Drains(start, after, deadline)
    ensures |before| > |start| ==> !EndsSettled(after, deadline)
  {
    ProceedsThrough(before, after, |start|, deadline);
    assert forall i :: 0 <= i < |before| ==> after[i] == before[i];
  }

  /** One reading of the clock, and whether it lies before the deadline. */
  method ClockBefore(k: Kernel, deadline: nat) returns (ok: bool)
    modifies k
    ensures |k.script| <= old(|k.script|) && (ok ==> |k.script| < old(|k.script|))
    ensures |k.trace| == |old(k.trace)| + 1 && old(k.trace) <= k.trace
    ensures var event := k.trace[|k.trace| - 1];
            (event.Time? || event == Failed) && (ok <==> event.Time? && event.now < deadline)
    ensures !ok ==> FinishBlamed(k.trace, deadline)
  {
    var read, now := k.Clock();
    ok := read && now < deadline;
  }

  /** `finish_formatter_group`: the last signal, then the reap. */
  method FinishGroup(k: Kernel, deadline: nat) returns (ok: bool)
    requires Orderly(k.trace) && !Reaped(k.trace) && LeaderTerminal in k.trace
    modifies k
    ensures old(k.trace) + [Signalled(Kill)] <= k.trace && Orderly(k.trace)
    ensures ok <==> Settles(k.trace, deadline)
    ensures ok ==> Reaped(k.trace) && EndsSettled(k.trace, deadline)
    ensures !ok ==> FinishBlamed(k.trace, deadline)
    ensures Signalled(Terminate) !in k.trace[|old(k.trace)|..]
  {
    hide Orderly, Reaped, Settles, EndsSettled, StopsInTime, AbsentLast, Quietly;
    ghost var start := k.trace;
    var signalled := SignalUnreaped(k, Kill);
    if !signalled {
      NeverSettles(k.trace, deadline);
      return false;
    }
    var reaped := ReapLeaderUntil(k, deadline);
    ghost var before := k.trace;
    if !reaped {
      NeverSettles(k.trace, deadline);
      return false;
    }
    ok := DrainGroupUntil(k, deadline);
    assert Quietly(before, k.trace) && AbsentLast(k.trace, |before|);
    QuietKeepsOrder(before, k.trace);
    NotAskedAgain(start, before, k.trace);
    SettlesAtEnd(before, k.trace, deadline);
  }

  lemma NeverSettles(trace: seq<Event>, deadline: int)
    requires !Reaped(trace)
    ensures !Settles(trace, deadline)
  {
    forall r: nat
      ensures !ReapedAt(trace, r)
    {
    }
  }

  lemma NotAskedAgain(start: seq<Event>, before: seq<Event>, after: seq<Event>)
    requires start + [Signalled(Kill)] <= before && Quietly(before, after)
    requires forall i :: |start| < i < |before| ==> !before[i].Signalled?
    ensures start + [Signalled(Kill)] <= after && Signalled(Terminate) !in after[|start|..]
  {
    assert forall i :: 0 <= i < |before| ==> after[i] == before[i];
    assert before[|start|] == Signalled(Kill);
  }

  /** Once the leader is reaped the group counts as gone exactly if the drain ended so. */
  lemma SettlesAtEnd(before: seq<Event>, after: seq<Event>, deadline: int)
    requires before != [] && before[|before| - 1] == LeaderReaped && Quietly(before, after)
    requires Orderly(before) && AbsentLast(after, |before|)
    ensures Settles(after, deadline) <==> EndsSettled(after, deadline)
  {
    var p := |before| - 1;
    assert forall i :: 0 <= i < |before| ==> after[i] == before[i];
    if EndsSettled(after, deadline) {
      assert ReapedAt(after, p);
      assert SettledAt(after, |after|, deadline);
    }
    if r: nat, n: nat :| ReapedAt(after, r) && r + 3 < n && SettledAt(after, n, deadline) {
      assert ReapedAt(after, r) && r < |before| ==> before[r] == LeaderReaped;
      assert r == p;
      assert after[n - 2] == GroupAbsent;
      assert n == |after|;
    }
  }

  /** `force_formatter_group_cleanup`: whatever happens, the first thing is the last signal. */
  method ForceCleanup(k: Kernel, hard: nat)
    requires Orderly(k.trace) && !Reaped(k.trace)
    modifies k
    ensures Orderly(k.trace)
    ensures old(k.trace) + [Signalled(Kill)] <= k.trace
    ensures Signalled(Terminate) !in k.trace[|old(k.trace)|..]
  {
    var signalled := SignalUnreaped(k, Kill);
    if !signalled { return; }
    ghost var before := k.trace;
    var seen := TerminalUntil(k, hard);
    QuietKeepsOrder(before, k.trace);
    if seen <= 0 { return; }
    assert LeaderTerminal in k.trace;
    ghost var terminal := k.trace;
    var finished := FinishGroup(k, hard);
    NotAskedIn(old(k.trace), terminal, k.trace);
  }

  lemma NotAskedIn(start: seq<Event>, before: seq<Event>, after: seq<Event>)
    requires start <= before <= after
    requires Signalled(Terminate) !in before[|start|..] && Signalled(Terminate) !in after[|before|..]
    ensures Signalled(Terminate) !in after[|start|..]
  {
    forall i | |start| <= i < |after|
      ensures after[i] != Signalled(Terminate)
    {
      if i < |before| {
        assert after[i] == before[i] == before[|start|..][i - |start|];
      } else {
        assert after[i] == after[|before|..][i - |before|];
      }
    }
  }

  // What a signal after the watch excludes

  /** Once something was signalled before the leader was seen, it no longer ends in time. */
  lemma SignalledFirst(before: seq<Event>, after: seq<Event>, hard: nat, execution: nat, grace: nat, kill: nat)
    requires before <= after && |before| < |after| && after[|before|].Signalled?
    requires before != [] && before[0].Time?
    requires Unseen(before, 0, Min(before[0].now + execution, hard - grace - kill))
    ensures !EndsInTime(after, hard, execution, grace, kill)
  {
    var limit := Min(before[0].now + execution, hard - grace - kill);
    assert after[0] == before[0];
    forall b | SeenAt(after, b, limit)
      ensures !NoSignalBetween(after, 0, b)
    {
      SeenAfterSignal(before, after, 0, b, limit);
    }
  }

  /** What is seen in time after all was seen after the signal. */
  lemma SeenAfterSignal(before: seq<Event>, after: seq<Event>, from: nat, b: nat, limit: int)
    requires before <= after && |before| < |after| && after[|before|].Signalled?
    requires Unseen(before, from, limit) && from <= b && SeenAt(after, b, limit)
    ensures b > |before|
  {
    assert forall i :: 0 <= i < |before| ==> after[i] == before[i];
    assert b < |before| ==> !SeenAt(before, b, limit);
  }

  /** Without a request to stop there is no escalation. */
  lemma NotAsked(trace: seq<Event>, hard: nat, execution: nat, grace: nat, kill: nat)
    requires Signalled(Terminate) !in trace
    ensures !Escalates(trace, hard, execution, grace, kill)
  {
  }

  /** Of the signals after `from` only one is the first. */
  lemma FirstSignal(trace: seq<Event>, from: nat, m: nat, n: nat)
    requires from <= m < |trace| && from <= n < |trace|
    requires trace[m].Signalled? && NoSignalBetween(trace, from, m)
    requires trace[n].Signalled? && NoSignalBetween(trace, from, n)
    ensures m == n
  {
  }

  lemma KilledFirst(trace: seq<Event>, a: nat, m: nat, n: nat, b: nat, limit: int, hard: int)
    requires KilledAt(trace, a, m, b, limit, hard)
    requires a < n < |trace| && trace[n].Signalled? && NoSignalBetween(trace, a + 1, n)
    ensures m == n
  {
    FirstSignal(trace, a + 1, m, n);
  }

  lemma SilenceLasts(before: seq<Event>, after: seq<Event>, from: nat, m: nat)
    requires before <= after && m <= |before| && NoSignalBetween(before, from, m)
    ensures NoSignalBetween(after, from, m)
  {
    assert forall i :: 0 <= i < |before| ==> after[i] == before[i];
  }

  /** Seen in time only after the next signal is not seen in grace. */
  lemma NotInGrace(before: seq<Event>, after: seq<Event>, a: nat, limit: int)
    requires before <= after && |before| < |after| && after[|before|].Signalled?
    requires a < |before| && Unseen(before, a + 1, limit)
    ensures forall b :: !EndsInGraceAt(after, a, b, limit)
  {
    forall b | EndsInGraceAt(after, a, b, limit)
      ensures false
    {
      SeenAfterSignal(before, after, a + 1, b, limit);
    }
  }

  /** The watch of the grace phase failed: the leader was neither seen in time nor was its grace over. */
  lemma GraceFailed(before: seq<Event>, after: seq<Event>, a: nat, limit: int, hard: int)
    requires before <= after && |before| < |after| && after[|before|].Signalled?
    requires a < |before| && Unseen(before, a + 1, limit) && NoSignalBetween(before, a + 1, |before|)
    requires !LateAt(before, |before|, limit)
    ensures !EndsAfterAsked(after, a, limit, hard)
  {
    NotInGrace(before, after, a, limit);
    SilenceLasts(before, after, a + 1, |before|);
    assert after[|before| - 1] == before[|before| - 1];
    hide Unseen, SeenAt, EndsInGraceAt;
    forall m: nat, b: nat | KilledAt(after, a, m, b, limit, hard)
      ensures m == |before|
    {
      KilledFirst(after, a, m, |before|, b, limit, hard);
    }
  }

  /** The leader was killed at `m`, and then something else was signalled before it was seen. */
  lemma KillFailed(before: seq<Event>, after: seq<Event>, a: nat, m: nat, limit: int, hard: int)
    requires before <= after && |before| < |after| && after[|before|].Signalled?
    requires a < m < |before| && before[m].Signalled?
    requires Unseen(before[..m], a + 1, limit) && NoSignalBetween(before, a + 1, m)
    requires Unseen(before, m + 1, hard)
    ensures !EndsAfterAsked(after, a, limit, hard)
  {
    assert after[m] == before[m] && before[..m] <= after;
    NotInGrace(before[..m], after, a, limit);
    SilenceLasts(before, after, a + 1, m);
    hide Unseen, SeenAt, LateAt, EndsInGraceAt;
    forall b: nat | b > m && SeenAt(after, b, hard)
      ensures b > |before|
    {
      SeenAfterSignal(before, after, m + 1, b, hard);
    }
    forall n: nat, b: nat | KilledAt(after, a, n, b, limit, hard)
      ensures n == m
    {
      KilledFirst(after, a, n, m, b, limit, hard);
    }
  }

  datatype Supervision = Error | ReapedInTime | TimedOut

  /**
    `supervise_formatter`. Whatever the kernel answers, no signal follows the reap of the leader,
    and the group is sent the last signal. Success means exactly that the leader was reaped, that
    no child of the group was left and the group gone before the hard deadline, and that the
    leader ended within its phase with nothing sent to it before; a timeout, that it ended so
    after its phase had run out, within its grace or killed after it. Anything else is an error,
    and the trace shows what is to blame for it.
   */
  method Supervise(k: Kernel, hard: nat, execution: nat, grace: nat, kill: nat) returns (result: Supervision)
    requires hard <= UINT64_MAX && execution <= UINT64_MAX && grace <= UINT64_MAX && kill <= UINT64_MAX
    requires k.trace == []
    modifies k
    ensures Orderly(k.trace) && Signalled(Kill) in k.trace
    ensures result == ReapedInTime <==>
              Settles(k.trace, hard) && EndsInTime(k.trace, hard, execution, grace, kill)
    ensures result == TimedOut <==>
              Settles(k.trace, hard) && Escalates(k.trace, hard, execution, grace, kill)
    ensures result != Error ==> Reaped(k.trace) && EndsSettled(k.trace, hard)
    ensures result == ReapedInTime ==> Signalled(Terminate) !in k.trace
    ensures result == Error ==> Blamed(k.trace, hard, execution, grace, kill)
  {
    EmptyIsOrderly();
    hide Orderly, EndsAfterAsked, EndsSettled, Settles, Escalates, EndsInTime, Blamed, Plannable, Unseen;
    hide StopsInTime, Reaped, Quietly, FinishBlamed, LateAt, FailsAt;
    if grace > UINT64_MAX - kill {
      ForceCleanup(k, hard);
      Unplanned([], k.trace, hard, execution, grace, kill);
      return Error;
    }
    var reserve := grace + kill;
    var planned, deadline := PhaseDeadline(k, hard, execution, reserve);
    QuietKeepsOrder([], k.trace);
    ghost var before := k.trace;
    if !planned {
      ForceCleanup(k, hard);
      Unplanned(before, k.trace, hard, execution, grace, kill);
      return Error;
    }
    var seen := TerminalUntil(k, deadline);
    QuietKeepsOrder(before, k.trace);
    ghost var trace := k.trace;
    if seen > 0 {
      var finished := FinishGroup(k, hard);
      SeenInTime(before, trace, k.trace, hard, execution, grace, kill);
      if finished { return ReapedInTime; }
      FinishIsBlamed(k.trace, hard, execution, grace, kill);
      return Error;
    }
    if seen < 0 {
      ForceCleanup(k, hard);
      WatchFailed(before, trace, k.trace, hard, execution, grace, kill);
      return Error;
    }
    result := Terminated(k, hard, execution, grace, kill);
    Escalated(before, trace, k.trace, hard, execution, grace, kill);
  }

  /** The plan of the execution phase, as the trace shows it. */
  predicate Planned(before: seq<Event>, phase: nat, reserve: nat, hard: nat) {
    |before| == 1 && before[0].Time? && Plannable(before[0].now, phase, reserve, hard)
  }

  lemma Unplanned(before: seq<Event>, after: seq<Event>, hard: nat, execution: nat, grace: nat, kill: nat)
    requires before + [Signalled(Kill)] <= after && Signalled(Terminate) !in after[|before|..]
    requires || (grace + kill >= hard && before == [])
             || before == [Failed]
             || (|before| == 1 && before[0].Time? && !Plannable(before[0].now, execution, grace + kill, hard))
    ensures !EndsInTime(after, hard, execution, grace, kill) && !Escalates(after, hard, execution, grace, kill)
    ensures Blamed(after, hard, execution, grace, kill) && Signalled(Kill) in after
  {
    hide EndsAfterAsked;
    assert after[|before|] == Signalled(Kill);
    if before != [] {
      assert after[0] == before[0];
    }
  }

  lemma SeenInTime(before: seq<Event>, trace: seq<Event>, after: seq<Event>,
                   hard: nat, execution: nat, grace: nat, kill: nat)
    requires Planned(before, execution, grace + kill, hard) && Quietly(before, trace) && |trace| >= |before| + 2
    requires SeenAt(trace, |trace| - 2, Min(before[0].now + execution, hard - grace - kill))
    requires trace + [Signalled(Kill)] <= after && Signalled(Terminate) !in after[|trace|..]
    ensures EndsInTime(after, hard, execution, grace, kill) && !Escalates(after, hard, execution, grace, kill)
    ensures Signalled(Terminate) !in after && Signalled(Kill) in after
  {
    hide EndsAfterAsked, Plannable;
    assert after[|trace|] == Signalled(Kill);
    assert forall i :: 0 <= i < |trace| ==> after[i] == trace[i];
    assert trace[0] == before[0];
    assert NoSignalBetween(after, 0, |trace| - 2);
    assert SeenAt(after, |trace| - 2, Min(after[0].now + execution, hard - grace - kill));
    forall i | 0 <= i < |after|
      ensures after[i] != Signalled(Terminate)
    {
      if i >= |trace| {
        assert after[i] == after[|trace|..][i - |trace|];
      }
    }
    NotAsked(after, hard, execution, grace, kill);
  }

  lemma FinishIsBlamed(trace: seq<Event>, hard: nat, execution: nat, grace: nat, kill: nat)
    requires FinishBlamed(trace, hard)
    ensures Blamed(trace, hard, execution, grace, kill)
  {
    hide Plannable;
    var n := |trace|;
    if trace[n - 1] == Failed {
    } else if LateAt(trace, n, hard) {
      assert LateAt(trace, n, hard);
    } else {
      assert trace[n - 2] != NoGroupChildren && trace[n - 1] == GroupAbsent;
    }
  }

  lemma WatchFailed(before: seq<Event>, trace: seq<Event>, after: seq<Event>,
                    hard: nat, execution: nat, grace: nat, kill: nat)
    requires Planned(before, execution, grace + kill, hard) && Quietly(before, trace) && FailsAt(before, trace)
    requires Unseen(trace, |before|, Min(before[0].now + execution, hard - grace - kill))
    requires trace + [Signalled(Kill)] <= after && Signalled(Terminate) !in after[|trace|..]
    ensures !EndsInTime(after, hard, execution, grace, kill) && !Escalates(after, hard, execution, grace, kill)
    ensures Blamed(after, hard, execution, grace, kill) && Signalled(Kill) in after
  {
    hide EndsAfterAsked, Plannable;
    assert after[|trace|] == Signalled(Kill);
    assert forall i :: 0 <= i < |trace| ==> after[i] == trace[i];
    assert trace[0] == before[0];
    SignalledFirst(trace, after, hard, execution, grace, kill);
    forall i | 0 <= i < |after|
      ensures after[i] != Signalled(Terminate)
    {
      if i >= |trace| {
        assert after[i] == after[|trace|..][i - |trace|];
      }
    }
    NotAsked(after, hard, execution, grace, kill);
    assert after[|trace| - 1] == Failed;
  }

  /** The execution phase ran out and the leader was asked: what counts is how it ended after that. */
  lemma Escalated(before: seq<Event>, trace: seq<Event>, after: seq<Event>,
                  hard: nat, execution: nat, grace: nat, kill: nat)
    requires Planned(before, execution, grace + kill, hard) && Quietly(before, trace) && |trace| > |before|
    requires LateAt(trace, |trace|, Min(before[0].now + execution, hard - grace - kill))
    requires Unseen(trace, |before|, Min(before[0].now + execution, hard - grace - kill))
    requires trace + [Signalled(Terminate)] <= after
    ensures !EndsInTime(after, hard, execution, grace, kill)
    ensures Escalates(after, hard, execution, grace, kill) <==> EndsAsked(after, |trace|, hard, grace, kill)
  {
    hide EndsAfterAsked, Plannable;
    var a := |trace|;
    assert after[a] == Signalled(Terminate);
    assert forall i :: 0 <= i < a ==> after[i] == trace[i];
    assert trace[0] == before[0];
    SignalledFirst(trace, after, hard, execution, grace, kill);
    assert NoSignalBetween(after, 0, a);
    assert LateAt(after, a, Min(after[0].now + execution, hard - grace - kill));
    assert AskedAt(after, a, Min(after[0].now + execution, hard - grace - kill));
    hide EndsAsked, LateAt, Unseen, Quietly;
    if Escalates(after, hard, execution, grace, kill) {
      var c :| && AskedAt(after, c, Min(after[0].now + execution, hard - grace - kill))
               && EndsAsked(after, c, hard, grace, kill);
      FirstSignal(after, 0, c, a);
    }
  }

  /** The part of `supervise_formatter` after the execution phase ran out. */
  method Terminated(k: Kernel, hard: nat, ghost execution: nat, grace: nat, kill: nat) returns (result: Supervision)
    requires hard <= UINT64_MAX && grace <= UINT64_MAX && kill <= UINT64_MAX
    requires Orderly(k.trace) && !Reaped(k.trace)
    modifies k
    ensures Orderly(k.trace) && result != ReapedInTime
    ensures old(k.trace) + [Signalled(Terminate)] <= k.trace && Signalled(Kill) in k.trace
    ensures result == TimedOut <==>
              Settles(k.trace, hard) && EndsAsked(k.trace, |old(k.trace)|, hard, grace, kill)
    ensures result == TimedOut ==> Reaped(k.trace) && EndsSettled(k.trace, hard)
    ensures result == Error ==> Blamed(k.trace, hard, execution, grace, kill)
  {
    hide Orderly, EndsAfterAsked, EndsAsked, EndsSettled, Settles, Blamed, Plannable, Unseen, StopsInTime;
    ghost var a := |k.trace|;
    var signalled := SignalUnreaped(k, Terminate);
    ghost var asked := k.trace;
    if !signalled {
      ForceCleanup(k, hard);
      AskFailed(asked, k.trace, a, hard, execution, grace, kill);
      return Error;
    }
    var planned, deadline := PhaseDeadline(k, hard, grace, kill);
    QuietKeepsOrder(asked, k.trace);
    ghost var graceful := k.trace;
    if !planned {
      ForceCleanup(k, hard);
      GraceUnplanned(asked, graceful, k.trace, hard, execution, grace, kill);
      return Error;
    }
    var seen := TerminalUntil(k, deadline);
    QuietKeepsOrder(graceful, k.trace);
    ghost var late := k.trace;
    if seen < 0 {
      ForceCleanup(k, hard);
      GraceWatchFailed(graceful, late, k.trace, a, hard, execution, grace, kill);
      return Error;
    }
    if seen > 0 {
      EndsInGrace(graceful, late, a, deadline, hard);
    } else {
      var ended := KillAndWatch(k, hard, graceful, deadline, execution, grace, kill);
      if !ended { return Error; }
    }
    ghost var before := k.trace;
    var finished := FinishGroup(k, hard);
    FinishedAfterAsked(graceful, before, k.trace, a, hard, grace, kill);
    if finished { return TimedOut; }
    FinishIsBlamed(k.trace, hard, execution, grace, kill);
    result := Error;
  }

  /** The part of `supervise_formatter` after the grace phase ran out. */
  method KillAndWatch(k: Kernel, hard: nat, ghost graceful: seq<Event>, ghost deadline: nat,
                      ghost execution: nat, ghost grace: nat, ghost kill: nat) returns (ended: bool)
    requires Orderly(k.trace) && !Reaped(k.trace)
    requires |graceful| >= 2 && graceful[|graceful| - 1].Time?
    requires deadline == GraceLimit(graceful, |graceful| - 2, hard, grace, kill)
    requires Watched(graceful, k.trace, |graceful| - 2, hard, grace, kill) && LateAt(k.trace, |k.trace|, deadline)
    modifies k
    ensures Orderly(k.trace) && old(k.trace) <= k.trace
    ensures ended ==>
              && !Reaped(k.trace) && LeaderTerminal in k.trace
              && EndsAfterAsked(k.trace, |graceful| - 2, deadline, hard)
    ensures !ended ==>
              && !EndsAsked(k.trace, |graceful| - 2, hard, grace, kill)
              && Blamed(k.trace, hard, execution, grace, kill) && Signalled(Kill) in k.trace
  {
    hide Orderly, EndsAfterAsked, EndsAsked, Blamed, Plannable, Unseen;
    ghost var a, late := |graceful| - 2, k.trace;
    var signalled := SignalUnreaped(k, Kill);
    ghost var killed := k.trace;
    if !signalled {
      ForceCleanup(k, hard);
      KillUnsent(graceful, late, killed, k.trace, a, hard, execution, grace, kill);
      return false;
    }
    var seen := TerminalUntil(k, hard);
    QuietKeepsOrder(killed, k.trace);
    ghost var watched := k.trace;
    if seen <= 0 {
      ForceCleanup(k, hard);
      KillWatchFailed(graceful, late, watched, k.trace, a, hard, execution, grace, kill);
      return false;
    }
    EndsKilled(graceful, late, k.trace, a, deadline, hard);
    assert k.trace[|k.trace| - 2] == LeaderTerminal;
    ended := true;
  }

  lemma FinishedAfterAsked(graceful: seq<Event>, before: seq<Event>, after: seq<Event>, a: nat,
                           hard: nat, grace: nat, kill: nat)
    requires |graceful| == a + 2 && graceful[a + 1].Time? && graceful <= before
    requires Plannable(graceful[a + 1].now, grace, kill, hard)
    requires EndsAfterAsked(before, a, GraceLimit(graceful, a, hard, grace, kill), hard)
    requires before + [Signalled(Kill)] <= after
    ensures EndsAsked(after, a, hard, grace, kill) && Signalled(Kill) in after
  {
    hide EndsAfterAsked, Plannable;
    EndsAfterAskedExtends(before, after, a, GraceLimit(graceful, a, hard, grace, kill), hard);
    assert after[|before|] == Signalled(Kill) && after[a + 1] == before[a + 1] == graceful[a + 1];
  }

  lemma EndsInGrace(start: seq<Event>, trace: seq<Event>, a: nat, limit: int, hard: int)
    requires a + 2 == |start| && !start[a + 1].Signalled? && Quietly(start, trace)
    requires |trace| >= |start| + 2 && SeenAt(trace, |trace| - 2, limit)
    ensures EndsAfterAsked(trace, a, limit, hard)
  {
    assert trace[a + 1] == start[a + 1];
    assert EndsInGraceAt(trace, a, |trace| - 2, limit);
  }

  lemma EndsKilled(start: seq<Event>, late: seq<Event>, trace: seq<Event>, a: nat, limit: int, hard: int)
    requires a + 2 == |start| && !start[a + 1].Signalled? && Quietly(start, late)
    requires |late| > |start| && LateAt(late, |late|, limit) && Quietly(late + [Signalled(Kill)], trace)
    requires |trace| >= |late| + 3 && SeenAt(trace, |trace| - 2, hard)
    ensures EndsAfterAsked(trace, a, limit, hard)
  {
    var m, b := |late|, |trace| - 2;
    assert (late + [Signalled(Kill)])[m] == Signalled(Kill) == trace[m];
    assert forall i :: 0 <= i < m ==> trace[i] == late[i];
    assert late[a + 1] == start[a + 1];
    assert NoSignalBetween(trace, a + 1, m) && NoSignalBetween(trace, m + 1, b);
    assert KilledAt(trace, a, m, b, limit, hard);
  }

  // How the part after the request may fail

  lemma AskFailed(asked: seq<Event>, after: seq<Event>, a: nat, hard: nat, execution: nat, grace: nat, kill: nat)
    requires |asked| == a + 2 && asked[a + 1] == Failed && asked + [Signalled(Kill)] <= after
    ensures !EndsAsked(after, a, hard, grace, kill)
    ensures Blamed(after, hard, execution, grace, kill) && Signalled(Kill) in after
  {
    assert after[a + 1] == Failed && after[|asked|] == Signalled(Kill);
  }

  lemma GraceUnplanned(asked: seq<Event>, graceful: seq<Event>, after: seq<Event>,
                       hard: nat, execution: nat, grace: nat, kill: nat)
    requires asked != [] && asked[|asked| - 1] == Signalled(Terminate) && graceful + [Signalled(Kill)] <= after
    requires || (kill >= hard && graceful == asked)
             || graceful == asked + [Failed]
             || (|graceful| == |asked| + 1 && asked <= graceful && graceful[|asked|].Time?
                 && !Plannable(graceful[|asked|].now, grace, kill, hard))
    ensures !EndsAsked(after, |asked| - 1, hard, grace, kill)
    ensures Blamed(after, hard, execution, grace, kill) && Signalled(Kill) in after
  {
    hide EndsAfterAsked;
    assert after[|graceful|] == Signalled(Kill);
    assert forall i :: 0 <= i < |graceful| ==> after[i] == graceful[i];
    assert graceful[|asked| - 1] == asked[|asked| - 1];
    if |graceful| > |asked| {
      assert after[|asked|] == graceful[|asked|];
    }
  }

  /** The deadline of the grace phase. */
  function GraceLimit(graceful: seq<Event>, a: nat, hard: nat, grace: nat, kill: nat): int
    requires |graceful| == a + 2 && graceful[a + 1].Time?
  {
    Min(graceful[a + 1].now + grace, hard - kill)
  }

  /** The watch of the grace phase ended without seeing the leader in time. */
  ghost predicate Watched(graceful: seq<Event>, late: seq<Event>, a: nat, hard: nat, grace: nat, kill: nat) {
    && |graceful| == a + 2 && graceful[a + 1].Time?
    && Quietly(graceful, late) && |late| > |graceful|
    && Unseen(late, |graceful|, GraceLimit(graceful, a, hard, grace, kill))
  }

  lemma WatchedFromRequest(graceful: seq<Event>, late: seq<Event>, a: nat, hard: nat, grace: nat, kill: nat)
    requires Watched(graceful, late, a, hard, grace, kill)
    ensures late[a + 1] == graceful[a + 1]
    ensures Unseen(late, a + 1, GraceLimit(graceful, a, hard, grace, kill)) && NoSignalBetween(late, a + 1, |late|)
  {
    assert late[a + 1] == graceful[a + 1];
  }

  lemma GraceWatchFailed(graceful: seq<Event>, late: seq<Event>, after: seq<Event>, a: nat,
                         hard: nat, execution: nat, grace: nat, kill: nat)
    requires Watched(graceful, late, a, hard, grace, kill) && FailsAt(graceful, late)
    requires late + [Signalled(Kill)] <= after
    ensures !EndsAsked(after, a, hard, grace, kill)
    ensures Blamed(after, hard, execution, grace, kill) && Signalled(Kill) in after
  {
    hide EndsAfterAsked, Unseen, Plannable;
    WatchedFromRequest(graceful, late, a, hard, grace, kill);
    assert after[|late|] == Signalled(Kill) && after[|late| - 1] == late[|late| - 1] && after[a + 1] == late[a + 1];
    GraceFailed(late, after, a, GraceLimit(graceful, a, hard, grace, kill), hard);
  }

  lemma KillUnsent(graceful: seq<Event>, late: seq<Event>, killed: seq<Event>, after: seq<Event>, a: nat,
                   hard: nat, execution: nat, grace: nat, kill: nat)
    requires Watched(graceful, late, a, hard, grace, kill)
    requires killed == late + [Signalled(Kill), Failed] && killed + [Signalled(Kill)] <= after
    ensures !EndsAsked(after, a, hard, grace, kill)
    ensures Blamed(after, hard, execution, grace, kill) && Signalled(Kill) in after
  {
    KillWatchFailed(graceful, late, killed, after, a, hard, execution, grace, kill);
  }

  lemma KillWatchFailed(graceful: seq<Event>, late: seq<Event>, watched: seq<Event>, after: seq<Event>, a: nat,
                        hard: nat, execution: nat, grace: nat, kill: nat)
    requires Watched(graceful, late, a, hard, grace, kill)
    requires late + [Signalled(Kill)] <= watched && Unseen(watched, |late| + 1, hard)
    requires watched[|watched| - 1] == Failed || LateAt(watched, |watched|, hard)
    requires watched + [Signalled(Kill)] <= after
    ensures !EndsAsked(after, a, hard, grace, kill)
    ensures Blamed(after, hard, execution, grace, kill) && Signalled(Kill) in after
  {
    hide EndsAfterAsked, Unseen, Plannable;
    WatchedFromRequest(graceful, late, a, hard, grace, kill);
    var m, n := |late|, |watched|;
    assert watched[m] == Signalled(Kill) && watched[..m] == late && after[n] == Signalled(Kill);
    assert after[n - 1] == watched[n - 1];
    assert LateAt(watched, n, hard) ==> LateAt(after, n, hard);
    assert forall i :: 0 <= i < m ==> watched[i] == late[i] == after[i];
    KillFailed(watched, after, a, m, GraceLimit(graceful, a, hard, grace, kill), hard);
  }
}
