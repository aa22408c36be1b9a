/**
  Nothing that the advisory lock's client starts is forgotten: every call of `renameWhileHeld`
  settles under every order of events, cleanup attempts never overlap, and a release succeeds
  exactly when everything is cleaned up.
 */
module LockSettlement {
  import opened Options
  import opened StoreErrors
  import opened AdvisoryLock

  // The parts of a step

  /** A cleanup that `beginQuiescence` may leave behind. */
  predicate Quiesced(k: Cleanup, k': Cleanup) {
    k' == k || (!Succeeded(k) && k.quiescenceInFlight.None? && k' == StartAttempt(k))
  }

  lemma BeginParts(s: Lock, retry: bool)
    ensures var t := BeginQuiescence(s, retry);
            t.calls == s.calls && Quiesced(s.cleanup, t.cleanup)
  {
    hide StartAttempt, Succeeded;
  }

  lemma RejectParts(s: Lock, c: nat, code: LockCode, notCommitted: bool)
    ensures var t := RejectAfterQuiescence(s, c, code, notCommitted);
            c in t.calls && t.calls[c].Waiting? && t.calls == s.calls[c := t.calls[c]] && Quiesced(s.cleanup, t.cleanup)
  {
    BeginParts(s, false);
    hide BeginQuiescence, WaitFor, Quiesced;
  }

  /** The call that an event moves, unless it is the end of the first attempt, which moves all that are pending. */
  function Touched(s: Lock, e: Event): Option<nat> {
    match e
    case CallRename(c, _) => Some(c)
    case InvalidRename(c) => Some(c)
    case IdentityHolds(c, _) => Some(c)
    case IdentityReplaced(c) => Some(c)
    case IdentityThrows(c) => Some(c)
    case CallContinues(c) => Some(c)
    case TimerFires(id) => if id in s.pending then Some(s.pending[id]) else None
    case WriteFails(id) => if id in s.pending then Some(s.pending[id]) else None
    case LineArrives(id) => if id in s.pending && !s.unavailable then Some(s.pending[id]) else None
    case _ => None
  }

  lemma IdentityParts(s: Lock, c: nat, exited: bool)
    ensures var t := OnIdentityHolds(s, c, exited);
            && c in t.calls && !t.calls[c].Checking? && t.calls == s.calls[c := t.calls[c]]
            && Quiesced(s.cleanup, t.cleanup)
  {
    RejectParts(s, c, LockCommitUncertain, false);
    hide RejectAfterQuiescence, Succeeded, StartAttempt;
  }

  lemma LineParts(s: Lock, id: nat, reply: Reply)
    ensures var t := OnLine(s, id, reply);
            && (s.unavailable || id !in s.pending ==> t == s)
            && (!s.unavailable && id in s.pending ==>
                  && s.pending[id] in t.calls
                  && (t.calls[s.pending[id]].Waiting? || t.calls[s.pending[id]].Settled?)
                  && t.calls == s.calls[s.pending[id] := t.calls[s.pending[id]]])
            && Quiesced(s.cleanup, t.cleanup)
  {
    if !s.unavailable && id in s.pending {
      RejectParts(s.(pending := s.pending - {id}), s.pending[id], LockReplaced, true);
      RejectParts(s.(pending := s.pending - {id}), s.pending[id], LockCommitUncertain, false);
    }
    hide RejectAfterQuiescence, Succeeded, StartAttempt;
  }

  /** What an event does to the calls. */
  lemma CallsAfter(s: Lock, e: Event)
    requires Enabled(s, e)
    ensures var t, touched := Handle(s, e), Touched(s, e);
            && (touched.None? && !e.CloseEnds? ==> t.calls == s.calls)
            && (touched.Some? ==> touched.value in t.calls && t.calls == s.calls[touched.value := t.calls[touched.value]])
            && (touched.Some? && !e.CallRename? ==> !t.calls[touched.value].Checking?)
            && (e.TimerFires? || e.WriteFails? ==> t.calls[touched.value].Waiting?)
            && (e.LineArrives? && touched.Some? ==> t.calls[touched.value].Waiting? || t.calls[touched.value].Settled?)
            && (e.CallContinues? ==> t.calls[touched.value].Settled?)
  {
    hide RejectAfterQuiescence, BeginQuiescence, OnIdentityHolds, OnLine, OnCloseEnds, WaitFor, Handled;
    match e
    case CallRename(c, _) => RejectParts(s, c, LockCommitUncertain, false);
    case IdentityHolds(c, exited) => IdentityParts(s, c, exited);
    case IdentityReplaced(c) => RejectParts(s, c, LockReplaced, true);
    case TimerFires(id) => RejectParts(s.(pending := s.pending - {id}), s.pending[id], LockCommitUncertain, false);
    case WriteFails(id) => RejectParts(s.(pending := s.pending - {id}), s.pending[id], LockCommitUncertain, false);
    case LineArrives(id) => LineParts(s, id, s.group.commands[id].reply.value);
    case QuiescenceTriggered => BeginParts(s, false);
    case CallRelease(_) => BeginParts(s, true);
    case _ =>
  }

  /** What an event does to the cleanup. */
  lemma CleanupAfter(s: Lock, e: Event)
    requires Enabled(s, e)
    ensures var k, k' := s.cleanup, Handle(s, e).cleanup;
            match e
            case StopEnds(failed, disposeFailed) => k' == AfterStop(k, failed, disposeFailed)
            case CloseEnds(failed) => k' == AfterClose(k, failed)
            case AttemptPromiseCleared => k' == k.(quiescenceInFlight := None)
            case _ => Quiesced(k, k')
  {
    hide RejectAfterQuiescence, BeginQuiescence, OnIdentityHolds, OnLine, WaitFor, Handled, StartAttempt, AfterStop,
         AfterClose, Succeeded, RejectedCalls;
    match e
    case CallRename(c, _) => RejectParts(s, c, LockCommitUncertain, false);
    case IdentityHolds(c, exited) => IdentityParts(s, c, exited);
    case IdentityReplaced(c) => RejectParts(s, c, LockReplaced, true);
    case TimerFires(id) => RejectParts(s.(pending := s.pending - {id}), s.pending[id], LockCommitUncertain, false);
    case WriteFails(id) => RejectParts(s.(pending := s.pending - {id}), s.pending[id], LockCommitUncertain, false);
    case LineArrives(id) => LineParts(s, id, s.group.commands[id].reply.value);
    case QuiescenceTriggered => BeginParts(s, false);
    case CallRelease(_) => BeginParts(s, true);
    case _ =>
  }

  // Cleanup attempts

  /**
    At most one stop and one close is in flight, each succeeds at most once, and neither is
    invoked after it has succeeded: in every reachable state, and with every event.
   */
  lemma EffortsNeverOverlap(events: seq<Event>, e: Event)
    ensures var s := Run(HELD, events);
            && s.cleanup.stops.inFlight <= 1 && s.cleanup.stops.succeeded <= 1
            && s.cleanup.closes.inFlight <= 1 && s.cleanup.closes.succeeded <= 1
            && s.cleanup.stops.inFlight + s.cleanup.closes.inFlight <= 1
            && (s.cleanup.stopSucceeded ==> After(s, e).cleanup.stops == s.cleanup.stops)
            && (s.cleanup.closed ==> After(s, e).cleanup.closes == s.cleanup.closes)
  {
    HeldInv();
    RunIsSafe(HELD, events);
    var s := Run(HELD, events);
    if Enabled(s, e) {
      EventKeepsEfforts(s, e);
    }
    assert CleanupOk(s.cleanup, s.group.gone);
    hide Run, Handle, Inv;
  }

  lemma EventKeepsEfforts(s: Lock, e: Event)
    requires Inv(s) && Enabled(s, e)
    ensures s.cleanup.stopSucceeded ==> Handle(s, e).cleanup.stops == s.cleanup.stops
    ensures s.cleanup.closed ==> Handle(s, e).cleanup.closes == s.cleanup.closes
  {
    CleanupAfter(s, e);
    hide Handle, PendingOk, CallsOk, ReleasesOk, OwnersOk, CommandsOk, FlagsOk;
  }

  /**
    Cleanup attempts never overlap: only its own end moves an attempt, and after one that
    succeeded there is no other.
   */
  lemma AttemptsNeverOverlap(s: Lock, e: Event)
    requires Inv(s) && Enabled(s, e)
    ensures var k, k' := s.cleanup, Handle(s, e).cleanup;
            && (k.phase.Some? && !e.StopEnds? && !e.CloseEnds? ==> k' == k)
            && (e.StopEnds? ==> k'.results == k.results && k'.phase.Some? && k'.phase.value.Closing?)
            && (e.CloseEnds? ==> |k'.results| == |k.results| + 1 && k'.phase.None?)
            && (Succeeded(k) ==> k.phase.None? && k'.phase.None? && k'.results == k.results)
            && k.results <= k'.results
  {
    CleanupAfter(s, e);
    hide Handle, PendingOk, CallsOk, ReleasesOk, OwnersOk, CommandsOk, FlagsOk;
  }

  // Every schedule settles every call

  /** How many of the events it is owed may still separate a call from its settlement. */
  function Rank(s: Lock, c: nat): (n: nat)
    requires c in s.calls
    ensures n <= 5 && (n == 0 <==> s.calls[c].Settled?)
  {
    match s.calls[c]
    case Settled(_) => 0
    case Waiting(wait, _, _) =>
      if ResultOf(s.cleanup, wait).Some? then 1 else if s.cleanup.phase == Some(Stopping) then 3 else 2
    case Pending(_) => 4
    case Checking => 5
  }

  /**
    The events that must come in the end, whatever else does: the identity check ends, the timer
    fires unless the answer or a write error comes first, the stop and the close return, and a
    promise that has a result goes on.
   */
  predicate Owed(s: Lock, c: nat, e: Event) {
    && c in s.calls
    && Enabled(s, e)
    && match s.calls[c]
       case Settled(_) => false
       case Checking => e in {IdentityReplaced(c), IdentityThrows(c), IdentityHolds(c, false), IdentityHolds(c, true)}
       case Pending(id) => e in {TimerFires(id), WriteFails(id)} || (e == LineArrives(id) && !s.unavailable)
       case Waiting(wait, _, _) =>
         if ResultOf(s.cleanup, wait).Some? then e == CallContinues(c) else e.StopEnds? || e.CloseEnds?
  }

  /** Where an event may take a call that is not settled. */
  predicate MovesOn(before: Call, after: Call) {
    match before
    case Settled(_) => after == before
    case Waiting(_, _, _) => after == before || after.Settled?
    case Pending(_) => after == before || after.Waiting? || after.Settled?
    case Checking => !after.Checking? || after == before
  }

  /** The call that an event moves is where the event expects it. */
  lemma TouchedStands(s: Lock, e: Event)
    requires Inv(s) && Enabled(s, e) && Touched(s, e).Some? && Touched(s, e).value in s.calls
    ensures var call := s.calls[Touched(s, e).value];
            && (e.IdentityHolds? || e.IdentityReplaced? || e.IdentityThrows? ==> call.Checking?)
            && (e.TimerFires? || e.WriteFails? || e.LineArrives? ==> call.Pending?)
            && (e.CallContinues? ==> call.Waiting?)
            && !e.CallRename? && !e.InvalidRename?
  {
    hide CallsOk, ReleasesOk, CleanupOk, CommandsOk, OwnersOk, FlagsOk, ResultOf;
  }

  lemma OwedTouches(s: Lock, e: Event, c: nat)
    requires Inv(s) && Owed(s, c, e) && !s.calls[c].Waiting?
    ensures Touched(s, e) == Some(c)
  {
    hide CallsOk, ReleasesOk, CleanupOk, CommandsOk, OwnersOk, FlagsOk, ResultOf;
  }

  /** The end of the first attempt settles what is pending and nothing else. */
  lemma CloseMovesOn(s: Lock, failed: bool, c: nat)
    requires Enabled(s, CloseEnds(failed)) && c in s.calls
    ensures var calls := Handle(s, CloseEnds(failed)).calls;
            c in calls && (calls[c] == s.calls[c] || (s.calls[c].Pending? && calls[c].Settled?))
  {
    hide AfterClose;
  }

  lemma OtherMovesOn(s: Lock, e: Event, c: nat)
    requires Inv(s) && Enabled(s, e) && c in s.calls && !e.CloseEnds?
    ensures c in Handle(s, e).calls && MovesOn(s.calls[c], Handle(s, e).calls[c])
    ensures s.calls[c].Waiting? && e != CallContinues(c) ==> Handle(s, e).calls[c] == s.calls[c]
    ensures Touched(s, e) == Some(c) ==> Handle(s, e).calls[c] != s.calls[c]
    ensures e == CallContinues(c) ==> Handle(s, e).calls[c].Settled?
  {
    CallsAfter(s, e);
    if Touched(s, e) == Some(c) {
      TouchedStands(s, e);
    }
    hide Inv, Handle, Enabled;
  }

  /** No event takes a call back, and what is owed to it takes it on. */
  lemma CallMovesOn(s: Lock, e: Event, c: nat)
    requires Inv(s) && Enabled(s, e) && c in s.calls
    ensures c in Handle(s, e).calls && MovesOn(s.calls[c], Handle(s, e).calls[c])
    ensures s.calls[c].Waiting? && e != CallContinues(c) ==> Handle(s, e).calls[c] == s.calls[c]
    ensures Owed(s, c, e) && !s.calls[c].Waiting? ==> Handle(s, e).calls[c] != s.calls[c]
    ensures e == CallContinues(c) ==> Handle(s, e).calls[c].Settled?
  {
    hide Inv, Handle, Owed, Enabled;
    if Owed(s, c, e) && !s.calls[c].Waiting? {
      OwedTouches(s, e, c);
    }
    if e.CloseEnds? {
      CloseMovesOn(s, e.failed, c);
    } else {
      OtherMovesOn(s, e, c);
    }
  }

  lemma RankNeverRises(s: Lock, e: Event, c: nat)
    requires Inv(s) && Enabled(s, e) && c in s.calls
    ensures c in Handle(s, e).calls && Rank(Handle(s, e), c) <= Rank(s, c)
    ensures Owed(s, c, e) ==> Rank(Handle(s, e), c) < Rank(s, c)
  {
    hide Inv, Handle, Enabled, ResultOf;
    CallMovesOn(s, e, c);
    if s.calls[c].Waiting? {
      if e != CallContinues(c) {
        WaitGetsShorter(s, e, c);
      }
    } else {
      hide Owed;
    }
  }

  /** A wait moves on with its attempt, and what its result is stays. */
  lemma WaitGetsShorter(s: Lock, e: Event, c: nat)
    requires Inv(s) && Enabled(s, e) && c in s.calls && s.calls[c].Waiting? && e != CallContinues(c)
    requires c in Handle(s, e).calls && Handle(s, e).calls[c] == s.calls[c]
    ensures Rank(Handle(s, e), c) <= Rank(s, c)
    ensures Owed(s, c, e) ==> Rank(Handle(s, e), c) < Rank(s, c)
  {
    AttemptsNeverOverlap(s, e);
    if ResultOf(s.cleanup, s.calls[c].wait).None? {
      WaitingIsOnLastAttempt(s, c);
    }
    hide Inv, Handle, Succeeded, Enabled;
  }

  /** A call that waits without a result waits for the attempt in progress. */
  lemma WaitingIsOnLastAttempt(s: Lock, c: nat)
    requires Inv(s) && c in s.calls && s.calls[c].Waiting? && ResultOf(s.cleanup, s.calls[c].wait).None?
    ensures s.calls[c].wait == OnAttempt(|s.cleanup.results|) && s.cleanup.phase.Some?
  {
    assert CallOk(s.cleanup, s.group, c, s.calls[c]);
  }

  /** While a call is not settled, something is owed to it. */
  lemma SomethingIsOwed(s: Lock, c: nat) returns (e: Event)
    requires Inv(s) && c in s.calls && !s.calls[c].Settled?
    ensures Owed(s, c, e)
  {
    match s.calls[c]
    case Checking => e := IdentityThrows(c);
    case Pending(id) => e := TimerFires(id);
    case Waiting(wait, _, _) =>
      if ResultOf(s.cleanup, wait).Some? {
        e := CallContinues(c);
      } else {
        WaitingIsOnLastAttempt(s, c);
        if s.cleanup.phase == Some(Stopping) {
          e := StopEnds(!s.cleanup.stopSucceeded, !s.cleanup.referencesDisposed);
        } else {
          e := CloseEnds(!s.cleanup.closed);
        }
      }
  }

  /** How many events of a run were owed to the call when they came. */
  function OwedCount(s: Lock, events: seq<Event>, c: nat): nat
    decreases |events|
  {
    if events == [] then 0
    else (if Owed(s, c, events[0]) then 1 else 0) + OwedCount(After(s, events[0]), events[1..], c)
  }

  /**
    Every call settles under every order of events. Whatever comes in between, the fifth event
    that is owed to it finds it settled, and it is settled exactly when nothing is owed any more.
   */
  lemma {:induction false} EveryScheduleSettles(s: Lock, events: seq<Event>, c: nat)
    requires Inv(s) && c in s.calls
    ensures var s' := Run(s, events);
            && c in s'.calls
            && Rank(s', c) + OwedCount(s, events, c) <= Rank(s, c) <= 5
            && (OwedCount(s, events, c) >= 5 ==> s'.calls[c].Settled?)
            && (s'.calls[c].Settled? <==> forall e :: !Owed(s', c, e))
    decreases |events|
  {
    hide Inv, Handle, Owed;
    if events == [] {
      SettledMeansNothingOwed(s, c);
    } else {
      var next := After(s, events[0]);
      if Enabled(s, events[0]) {
        HandleKeepsInv(s, events[0]);
        RankNeverRises(s, events[0], c);
      } else {
        NotOwed(s, c, events[0]);
      }
      EveryScheduleSettles(next, events[1..], c);
    }
  }

  lemma NotOwed(s: Lock, c: nat, e: Event)
    requires !Enabled(s, e)
    ensures !Owed(s, c, e)
  {
  }

  lemma SettledMeansNothingOwed(s: Lock, c: nat)
    requires Inv(s) && c in s.calls
    ensures s.calls[c].Settled? <==> forall e :: !Owed(s, c, e)
  {
    if !s.calls[c].Settled? {
      var e := SomethingIsOwed(s, c);
    }
  }

  /** From every reachable state some events settle a given call. */
  lemma {:induction false} EveryCallCanSettle(s: Lock, c: nat) returns (events: seq<Event>)
    requires Inv(s) && c in s.calls
    ensures |events| <= 5 && c in Run(s, events).calls && Run(s, events).calls[c].Settled?
    ensures |events| <= Rank(s, c)
    decreases Rank(s, c)
  {
    hide Inv, Handle;
    if s.calls[c].Settled? {
      events := [];
    } else {
      var e := SomethingIsOwed(s, c);
      HandleKeepsInv(s, e);
      RankNeverRises(s, e, c);
      var rest := EveryCallCanSettle(Handle(s, e), c);
      events := [e] + rest;
      assert events[1..] == rest;
    }
  }

  // Release

  /** `release` resolves only when the group is stopped, the references disposed and the handle closed. */
  lemma ReleasedMeansDone(s: Lock, r: nat)
    requires Inv(s) && r in s.releases && s.releases[r].Released?
    ensures s.released && s.cleanup.stopSucceeded && s.cleanup.referencesDisposed && s.cleanup.closed && s.group.gone
    ensures s.cleanup.phase.None? && s.pending == map[]
  {
  }

  /** A release that failed can be retried, and the retry succeeds as soon as the cleanup does. */
  lemma FailedReleaseCanBeRetried(s: Lock, r: nat)
    requires Inv(s) && !Succeeded(s.cleanup) && s.group.gone && r !in s.releases
    requires s.cleanup.quiescenceInFlight.None? && s.releaseInFlight.None?
    ensures var s' := Run(s, [CallRelease(r), StopEnds(false, false), CloseEnds(false), ReleaseContinues(r)]);
            Inv(s') && r in s'.releases && s'.releases[r].Released?
  {
    var asked := Handle(s, CallRelease(r));
    assert !s.released && asked.releases[r] == Releasing(OnAttempt(|s.cleanup.results|));
    assert asked.cleanup == StartAttempt(s.cleanup) && asked.group == s.group;
    hide Inv, Run;
    HandleKeepsInv(s, CallRelease(r));
    FinishRelease(asked, r);
    assert [CallRelease(r)] + [StopEnds(false, false), CloseEnds(false), ReleaseContinues(r)]
        == [CallRelease(r), StopEnds(false, false), CloseEnds(false), ReleaseContinues(r)];
    RunFirst(s, CallRelease(r), [StopEnds(false, false), CloseEnds(false), ReleaseContinues(r)]);
  }

  lemma FinishRelease(s: Lock, r: nat)
    requires Inv(s) && s.cleanup.phase == Some(Stopping) && s.group.gone
    requires r in s.releases && s.releases[r] == Releasing(OnAttempt(|s.cleanup.results|))
    ensures var s' := Run(s, [StopEnds(false, false), CloseEnds(false), ReleaseContinues(r)]);
            Inv(s') && r in s'.releases && s'.releases[r].Released?
  {
    hide Inv, Run, RejectedCalls;
    var stopped := Handle(s, StopEnds(false, false));
    HandleKeepsInv(s, StopEnds(false, false));
    FinishClose(stopped, r);
    assert [StopEnds(false, false)] + [CloseEnds(false), ReleaseContinues(r)]
        == [StopEnds(false, false), CloseEnds(false), ReleaseContinues(r)];
    RunFirst(s, StopEnds(false, false), [CloseEnds(false), ReleaseContinues(r)]);
  }

  lemma FinishClose(s: Lock, r: nat)
    requires Inv(s) && s.cleanup.phase == Some(Closing(false, false))
    requires r in s.releases && s.releases[r] == Releasing(OnAttempt(|s.cleanup.results|))
    ensures var s' := Run(s, [CloseEnds(false), ReleaseContinues(r)]);
            Inv(s') && r in s'.releases && s'.releases[r].Released?
  {
    hide Inv, Run, RejectedCalls;
    var closed := Handle(s, CloseEnds(false));
    HandleKeepsInv(s, CloseEnds(false));
    assert closed.releases == s.releases && closed.cleanup.results == s.cleanup.results + [false];
    ReleaseResolves(closed, r, |s.cleanup.results|);
    hide OnReleaseContinues;
    RunTwo(s, CloseEnds(false), ReleaseContinues(r));
  }

  lemma ReleaseResolves(s: Lock, r: nat, number: nat)
    requires Inv(s) && r in s.releases && s.releases[r] == Releasing(OnAttempt(number))
    requires number < |s.cleanup.results| && !s.cleanup.results[number]
    ensures Enabled(s, ReleaseContinues(r)) && Inv(Handle(s, ReleaseContinues(r)))
    ensures r in Handle(s, ReleaseContinues(r)).releases && Handle(s, ReleaseContinues(r)).releases[r].Released?
  {
    hide Inv;
    HandleKeepsInv(s, ReleaseContinues(r));
  }

  lemma RunFirst(s: Lock, e: Event, rest: seq<Event>)
    ensures Run(s, [e] + rest) == Run(After(s, e), rest)
  {
    hide Handle, Enabled;
    assert ([e] + rest)[1..] == rest;
  }

  lemma RunTwo(s: Lock, a: Event, b: Event)
    ensures Run(s, [a, b]) == After(After(s, a), b)
  {
    hide After;
    assert [a, b] == [a] + [b] && [b] == [b] + [];
    RunFirst(s, a, [b]);
    RunFirst(After(s, a), b, []);
  }
}
