/**
  The callbacks of the advisory lock's client (src/advisory-lock.mjs), each a method that
  changes the closure variables in place, and the event loop that runs them. Each is tied to
  its step of the machine in module AdvisoryLock and says what a caller may rely on.
 */
module LockClient {
  import opened Options
  import opened StoreErrors
  import opened AdvisoryLock

  class Client {
    var unavailable: bool
    var released: bool
    var pendingCommands: map<nat, nat>
    var cleanup: Cleanup
    var releaseInFlight: Option<nat>
    var calls: map<nat, Call>
    var releases: map<nat, Release>
    var group: Group

    function State(): Lock
      reads this
    {
      Lock(unavailable, released, pendingCommands, cleanup, releaseInFlight, calls, releases, group)
    }

    constructor ()
      ensures State() == HELD
    {
      unavailable, released, pendingCommands := false, false, map[];
      cleanup := Cleanup(false, false, false, None, [], None, Effort(0, 0, 0), Effort(0, 0, 0));
      releaseInFlight, calls, releases, group := None, map[], map[], Group([], 0, false, false);
    }

    /** `stopProcessGroup` up to its first wait: nothing to do when it has succeeded or is in flight. */
    method StartStop()
      modifies this`cleanup
      ensures cleanup == old(cleanup).(stops := Invoke(old(cleanup).stops, old(cleanup).stopSucceeded))
    {
      if cleanup.stopSucceeded || cleanup.stops.inFlight > 0 { return; }
      cleanup := cleanup.(stops := Effort(cleanup.stops.inFlight + 1, cleanup.stops.started + 1, cleanup.stops.succeeded));
    }

    /** The function of `createHandleCloser` up to its first wait */
    method StartClose()
      modifies this`cleanup
      ensures cleanup == old(cleanup).(closes := Invoke(old(cleanup).closes, old(cleanup).closed))
    {
      if cleanup.closed || cleanup.closes.inFlight > 0 { return; }
      cleanup := cleanup.(closes := Effort(cleanup.closes.inFlight + 1, cleanup.closes.started + 1, cleanup.closes.succeeded));
    }

    /**
      `beginQuiescence`: the lock is unavailable from now on. An attempt begins exactly if none is
      in progress, none has succeeded, and this is the first or a retry.
     */
    method BeginQuiescence(retry: bool) returns (wait: Wait)
      modifies this`unavailable, this`cleanup
      ensures State() == AdvisoryLock.BeginQuiescence(old(State()), retry)
      ensures wait == WaitFor(old(State()), retry)
      ensures unavailable && (cleanup == old(cleanup) || (!Succeeded(old(cleanup)) && cleanup == StartAttempt(old(cleanup))))
    {
      var attempted := unavailable;
      unavailable := true;
      var results := cleanup.results;
      if results != [] && !results[|results| - 1] { return Value(false); }
      if cleanup.quiescenceInFlight.Some? { return OnAttempt(cleanup.quiescenceInFlight.value); }
      if attempted && !retry { return Value(results != [] && results[|results| - 1]); }
      cleanup := cleanup.(phase := Some(Stopping), quiescenceInFlight := Some(|results|));
      StartStop();
      wait := OnAttempt(|results|);
    }

    /** `quiesceUncertainCommit` and `failLockReplacement` for a call of `renameWhileHeld` */
    method RejectAfterQuiescence(c: nat, code: LockCode, notCommitted: bool)
      modifies this`unavailable, this`cleanup, this`calls
      ensures State() == AdvisoryLock.RejectAfterQuiescence(old(State()), c, code, notCommitted)
      ensures unavailable && calls == old(calls)[c := calls[c]]
      ensures calls[c].Waiting? && calls[c].code == code && calls[c].notCommitted == notCommitted
    {
      hide StartAttempt, Succeeded;
      var wait := BeginQuiescence(false);
      calls := calls[c := Waiting(wait, code, notCommitted)];
    }

    /** The first part of `renameWhileHeld` */
    method CallRename(c: nat, exited: bool)
      modifies this
      ensures State() == OnCallRename(old(State()), c, exited)
      ensures if !old(unavailable) && !old(released) && !exited
              then !unavailable && calls == old(calls)[c := Checking] && cleanup == old(cleanup)
              else && unavailable && calls == old(calls)[c := calls[c]]
                   && calls[c].Waiting? && calls[c].code == LockCommitUncertain && !calls[c].notCommitted
      ensures group == old(group) && pendingCommands == old(pendingCommands)
    {
      if unavailable || released || exited {
        RejectAfterQuiescence(c, LockCommitUncertain, false);
      } else {
        calls := calls[c := Checking];
      }
    }

    /**
      The rest of `renameWhileHeld`, once the identity check has passed: exactly if the lock is
      still held, one command is written, and its number is registered for the call.
     */
    method WriteCommand(c: nat, exited: bool) returns (written: bool)
      modifies this
      ensures State() == OnIdentityHolds(old(State()), c, exited)
      ensures written <==> !old(unavailable) && !old(released) && !exited
      ensures written ==>
                var id := |old(group.commands)|;
                && group.commands == old(group.commands) + [Command(c, None, false)]
                && pendingCommands == old(pendingCommands)[id := c]
                && calls == old(calls)[c := Pending(id)]
      ensures !written ==>
                && group == old(group) && pendingCommands == old(pendingCommands)
                && unavailable && c in calls && calls[c].Waiting? && calls[c].code == LockCommitUncertain
    {
      written := !(unavailable || released || exited);
      if !written {
        RejectAfterQuiescence(c, LockCommitUncertain, false);
      } else {
        var id := |group.commands|;
        pendingCommands := pendingCommands[id := c];
        calls := calls[c := Pending(id)];
        group := group.(commands := group.commands + [Command(c, None, false)]);
      }
    }

    /** The timer of a command, and `rejectWrite`: its call waits for quiescence, in doubt. */
    method LoseAnswer(id: nat)
      requires id in pendingCommands
      modifies this
      ensures State() == OnLostAnswer(old(State()), id)
      ensures pendingCommands == old(pendingCommands) - {id} && unavailable && group == old(group)
      ensures var c := old(pendingCommands)[id];
              && calls == old(calls)[c := calls[c]]
              && calls[c].Waiting? && calls[c].code == LockCommitUncertain && !calls[c].notCommitted
    {
      var c := pendingCommands[id];
      pendingCommands := pendingCommands - {id};
      RejectAfterQuiescence(c, LockCommitUncertain, false);
    }

    /**
      The `line` handler. An answer that comes too late changes nothing; any other moves exactly
      the call that waits for it, and what that call is told is true of the holder's renames.
     */
    method Line(id: nat, reply: Reply)
      requires Inv(State()) && id < |group.commands| && group.commands[id].reply == Some(reply)
      modifies this
      ensures State() == OnLine(old(State()), id, reply) && group == old(group)
      ensures old(unavailable) || id !in old(pendingCommands) ==> State() == old(State())
      ensures !old(unavailable) && id in old(pendingCommands) ==>
                var c := old(pendingCommands)[id];
                && pendingCommands == old(pendingCommands) - {id}
                && c in calls && calls == old(calls)[c := calls[c]]
                && match reply
                   case Ok => calls[c] == Settled(Resolved) && HasCommitted(group, c)
                   case DestinationChanged =>
                     calls[c] == Settled(Rejected(DestinationChangedCode, true, false)) && NeverCommits(group, c)
                   case RenameError =>
                     calls[c] == Settled(Rejected(LockCommitFailed, false, false)) && NeverCommits(group, c)
                   case LockPathReplaced =>
                     unavailable && calls[c].Waiting? && calls[c].code == LockReplaced && NeverCommits(group, c)
                   case Unsure => unavailable && calls[c].Waiting? && calls[c].code == LockCommitUncertain
    {
      if unavailable || id !in pendingCommands { return; }
      AnswerIsTrue(group, id);
      assert group.commands[id].owner == pendingCommands[id];
      hide Inv, NeverCommits, HasCommitted, AdvisoryLock.BeginQuiescence, WaitFor;
      var c := pendingCommands[id];
      pendingCommands := pendingCommands - {id};
      match reply
      case Ok => calls := calls[c := Settled(Resolved)];
      case LockPathReplaced => RejectAfterQuiescence(c, LockReplaced, true);
      case Unsure => RejectAfterQuiescence(c, LockCommitUncertain, false);
      case DestinationChanged => calls := calls[c := Settled(Rejected(DestinationChangedCode, true, false))];
      case RenameError => calls := calls[c := Settled(Rejected(LockCommitFailed, false, false))];
    }

    /** `rejectPendingCommands` */
    method RejectPendingCommands(failed: bool)
      requires PendingOk(pendingCommands, calls, group.commands)
      modifies this`pendingCommands, this`calls
      ensures pendingCommands == map[] && calls == RejectedCalls(old(calls), failed)
    {
      NothingRejected(pendingCommands, calls, group.commands, Rejected(LockCommitUncertain, false, failed));
      hide PendingOk, Rejecting, RejectedCalls;
      var commands, waiting := pendingCommands, pendingCommands.Keys;
      pendingCommands := map[];
      var outcome := Rejected(LockCommitUncertain, false, failed);
      while waiting != {}
        invariant pendingCommands == map[] && waiting <= commands.Keys
        invariant Rejecting(old(calls), calls, waiting, outcome)
        decreases |waiting|
      {
        var id :| id in waiting;
        RejectOne(commands, old(calls), group.commands, calls, waiting, id, outcome);
        calls := calls[commands[id] := Settled(outcome)];
        waiting := waiting - {id};
      }
      AllRejected(old(calls), calls, failed);
    }

    /** `stopProcessGroup` returns in `cleanup`; `disposeReferences` follows and `closeHandle` begins. */
    method StopEnds(failed: bool, disposeFailed: bool)
      modifies this`cleanup
      ensures cleanup == AfterStop(old(cleanup), failed, disposeFailed)
    {
      var k := cleanup;
      if k.stops.inFlight > 0 {
        k := k.(stops := Effort(k.stops.inFlight - 1, k.stops.started, k.stops.succeeded + if failed then 0 else 1));
      }
      if !failed {
        k := k.(stopSucceeded := true);
      }
      if !disposeFailed {
        k := k.(referencesDisposed := true);
      }
      cleanup := k.(phase := Some(Closing(failed, disposeFailed)));
      StartClose();
    }

    /** `closeHandle` returns: the attempt ends, and has failed if any of its three parts has. */
    method EndAttempt(failed: bool)
      requires cleanup.phase.Some? && cleanup.phase.value.Closing?
      modifies this`cleanup
      ensures cleanup == AfterClose(old(cleanup), failed)
    {
      var k := cleanup;
      var wrong := k.phase.value.stopFailed || k.phase.value.disposeFailed || failed;
      if k.closes.inFlight > 0 {
        k := k.(closes := Effort(k.closes.inFlight - 1, k.closes.started, k.closes.succeeded + if failed then 0 else 1));
      }
      if !failed {
        k := k.(closed := true);
      }
      cleanup := k.(phase := None, results := k.results + [wrong]);
    }

    /** The end of an attempt and `settleQuiescence`: the first end, and no other, rejects what is pending. */
    method CloseEnds(failed: bool)
      requires PendingOk(pendingCommands, calls, group.commands)
      requires cleanup.phase.Some? && cleanup.phase.value.Closing?
      modifies this`cleanup, this`pendingCommands, this`calls
      ensures State() == OnCloseEnds(old(State()), failed)
      ensures cleanup.phase.None? && cleanup.results == old(cleanup).results + [Failed(old(cleanup), failed)]
      ensures old(cleanup).results == [] ==> pendingCommands == map[] && forall c :: c in calls ==> !calls[c].Pending?
      ensures old(cleanup).results != [] ==> pendingCommands == old(pendingCommands) && calls == old(calls)
    {
      var wrong, lossSettled := Failed(cleanup, failed), cleanup.results != [];
      EndAttempt(failed);
      if !lossSettled {
        RejectPendingCommands(wrong);
      }
    }

    /** A call goes on after the promise it waited for. */
    method ContinueCall(c: nat)
      requires Enabled(State(), CallContinues(c))
      modifies this
      ensures State() == OnCallContinues(old(State()), c)
    {
      var call := calls[c];
      calls := calls[c := Settled(Rejected(call.code, call.notCommitted, ResultOf(cleanup, call.wait).value))];
    }

    /**
      `release`: at most one is in flight. One that starts makes the lock unavailable and waits
      for a cleanup that is in progress, or has succeeded, or begins now.
     */
    method CallRelease(r: nat)
      requires Inv(State()) && r !in releases
      modifies this
      ensures State() == OnCallRelease(old(State()), r) && Inv(State())
      ensures old(released) ==> State() == old(State()).(releases := old(releases)[r := Released])
      ensures !old(released) && old(releaseInFlight).Some? ==> State() == old(State())
      ensures !old(released) && old(releaseInFlight).None? ==>
                && unavailable && releaseInFlight == Some(r)
                && r in releases && releases[r].Releasing? && releases == old(releases)[r := releases[r]]
                && (Succeeded(cleanup) || cleanup.quiescenceInFlight.Some?)
                && (cleanup == old(cleanup) || cleanup == StartAttempt(old(cleanup)))
    {
      OnCallReleaseOk(State(), r);
      hide Inv;
      if released {
        releases := releases[r := Released];
        return;
      }
      if releaseInFlight.Some? { return; }
      var wait := BeginQuiescence(true);
      releases := releases[r := Releasing(wait)];
      releaseInFlight := Some(r);
    }

    method ContinueRelease(r: nat)
      requires Enabled(State(), ReleaseContinues(r))
      modifies this
      ensures State() == OnReleaseContinues(old(State()), r)
    {
      var failed := ResultOf(cleanup, releases[r].wait).value;
      if failed {
        releases := releases[r := ReleaseFailed];
      } else {
        released := true;
        releases := releases[r := Released];
      }
    }

    /** The holder takes its commands one after the other. */
    method HandleCommand(reply: Reply)
      requires group.handled < |group.commands|
      modifies this`group
      ensures group == Handled(old(group), reply)
    {
      var command := group.commands[group.handled];
      if group.latched {
        command := command.(reply := Some(Unsure), performed := false);
      } else {
        command := command.(reply := Some(reply), performed := reply == Ok || reply == Unsure);
      }
      var latched := group.latched || reply == LockPathReplaced || reply == Unsure;
      group := group.(commands := group.commands[group.handled := command], handled := group.handled + 1, latched := latched);
    }

    /** The events of calls and releases. */
    method DispatchPromise(e: Event)
      requires Inv(State()) && Enabled(State(), e) && IsPromise(e)
      modifies this
      ensures State() == Handle(old(State()), e)
    {
      hide Inv, AdvisoryLock.RejectAfterQuiescence, AdvisoryLock.BeginQuiescence, OnLine, OnCallRename,
           OnIdentityHolds, OnLostAnswer, OnCallRelease, OnCloseEnds, OnStopEnds, OnReleaseContinues, Handled;
      match e
      case CallRename(c, exited) => CallRename(c, exited);
      case InvalidRename(c) => calls := calls[c := Settled(Rejected(InvalidRenameRequest, true, false))];
      case IdentityHolds(c, exited) => var _ := WriteCommand(c, exited);
      case IdentityReplaced(c) => RejectAfterQuiescence(c, LockReplaced, true);
      case IdentityThrows(c) => calls := calls[c := Settled(Rejected(UnknownFailure, false, false))];
      case TimerFires(id) => LoseAnswer(id);
      case WriteFails(id) => LoseAnswer(id);
      case LineArrives(id) => Line(id, group.commands[id].reply.value);
      case CallContinues(c) => ContinueCall(c);
      case CallRelease(r) => CallRelease(r);
      case ReleaseContinues(r) => ContinueRelease(r);
    }

    /** The events of the cleanup and of the holder. */
    method DispatchOther(e: Event)
      requires Inv(State()) && Enabled(State(), e) && !IsPromise(e)
      modifies this
      ensures State() == Handle(old(State()), e)
    {
      assert PendingOk(pendingCommands, calls, group.commands);
      hide Inv, PendingOk, AdvisoryLock.BeginQuiescence, AdvisoryLock.RejectAfterQuiescence, OnCloseEnds, AfterStop, Handled,
           OnLine, OnCallRename, OnIdentityHolds, OnLostAnswer, OnCallRelease, OnReleaseContinues, OnCallContinues, AfterClose,
           StartAttempt, WaitFor, RejectedCalls, Succeeded;
      match e
      case QuiescenceTriggered => var _ := BeginQuiescence(false);
      case StopEnds(failed, disposeFailed) => StopEnds(failed, disposeFailed);
      case CloseEnds(failed) => CloseEnds(failed);
      case AttemptPromiseCleared => cleanup := cleanup.(quiescenceInFlight := None);
      case ReleasePromiseCleared => releaseInFlight := None;
      case HolderHandles(reply) => HandleCommand(reply);
      case GroupDies => group := group.(gone := true);
    }

    /** One turn of the event loop: the invariant is kept, and no promise or fact is taken back. */
    method Dispatch(e: Event)
      requires Inv(State()) && Enabled(State(), e)
      modifies this
      ensures State() == Handle(old(State()), e)
      ensures Inv(State()) && Kept(old(State()), State())
    {
      hide Inv, Kept, Handle, Enabled;
      HandleKeepsInv(State(), e);
      HandleKeeps(State(), e);
      if IsPromise(e) {
        DispatchPromise(e);
      } else {
        DispatchOther(e);
      }
    }
  }

  predicate IsPromise(e: Event) {
    !e.QuiescenceTriggered? && !e.StopEnds? && !e.CloseEnds? && !e.AttemptPromiseCleared? && !e.ReleasePromiseCleared?
    && !e.HolderHandles? && !e.GroupDies?
  }

  /** Of the calls that were pending, those whose command is no longer waiting are rejected. */
  ghost predicate Rejecting(before: map<nat, Call>, calls: map<nat, Call>, waiting: set<nat>, outcome: Outcome) {
    && calls.Keys == before.Keys
    && forall c | c in calls ::
         calls[c] == if before[c].Pending? && before[c].command !in waiting then Settled(outcome) else before[c]
  }

  lemma NothingRejected(pending: map<nat, nat>, calls: map<nat, Call>, commands: seq<Command>, outcome: Outcome)
    requires PendingOk(pending, calls, commands)
    ensures Rejecting(calls, calls, pending.Keys, outcome)
  {
  }

  lemma AllRejected(before: map<nat, Call>, calls: map<nat, Call>, failed: bool)
    requires Rejecting(before, calls, {}, Rejected(LockCommitUncertain, false, failed))
    ensures calls == RejectedCalls(before, failed)
  {
  }

  lemma RejectOne(pending: map<nat, nat>, before: map<nat, Call>, commands: seq<Command>,
                  calls: map<nat, Call>, waiting: set<nat>, id: nat, outcome: Outcome)
    requires PendingOk(pending, before, commands) && waiting <= pending.Keys && id in waiting
    requires Rejecting(before, calls, waiting, outcome)
    ensures Rejecting(before, calls[pending[id] := Settled(outcome)], waiting - {id}, outcome)
  {
  }

  /** Every run of the event loop ends in a state whose answers are true. */
  method Serve(events: seq<Event>) returns (s: Lock)
    ensures s == Run(HELD, events) && Inv(s)
    ensures forall c :: c in s.calls && s.calls[c] == Settled(Resolved) ==> HasCommitted(s.group, c)
    ensures forall c | c in s.calls && s.calls[c].Settled? && s.calls[c].outcome.Rejected? ::
              s.calls[c].outcome.notCommitted ==> NeverCommits(s.group, c)
  {
    HeldInv();
    var client := new Client();
    s := client.State();
    var i := 0;
    while i < |events|
      invariant i <= |events| && fresh(client)
      invariant s == client.State() && Inv(s)
      invariant Run(HELD, events) == Run(s, events[i..])
    {
      hide Inv, Handle, Kept;
      if Enabled(s, events[i]) {
        client.Dispatch(events[i]);
        s := client.State();
      }
      assert events[i..][1..] == events[i + 1..];
      i := i + 1;
    }
    assert forall c :: c in s.calls ==> CallOk(s.cleanup, s.group, c, s.calls[c]);
  }
}
