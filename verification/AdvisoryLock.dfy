/**
  The client side of the advisory lock (`acquireAdvisoryLock` in src/advisory-lock.mjs) and
  the holder process it talks to (src/advisory-lock-holder.mjs), from the moment the lock is
  held. Every callback, timer and continuation of a promise is one event; events may come in
  any order. The closure variables of the source are the fields of a `Lock` and its parts.
 */
module AdvisoryLock {
  import opened Options
  import opened StoreErrors

  /** What the holder answers to a rename command. */
  datatype Reply = Ok | LockPathReplaced | Unsure | DestinationChanged | RenameError

  /** A command that was written to the holder; `performed` tells whether the rename happened. */
  datatype Command = Command(owner: nat, reply: Option<Reply>, performed: bool)

  datatype Outcome = Resolved | Rejected(code: LockCode, notCommitted: bool, cleanupFailed: bool)

  /** The promise of `beginQuiescence`: a value, or the result of a cleanup attempt. */
  datatype Wait = Value(failed: bool) | OnAttempt(number: nat)

  /** Where a call of `renameWhileHeld` stands. */
  datatype Call =
    | Checking
    | Pending(command: nat)
    | Waiting(wait: Wait, code: LockCode, notCommitted: bool)
    | Settled(outcome: Outcome)

  datatype Phase = Stopping | Closing(stopFailed: bool, disposeFailed: bool)

  datatype Release = Releasing(wait: Wait) | Released | ReleaseFailed

  /** The holder's process group, as the operating system sees it. */
  datatype Group = Group(commands: seq<Command>, handled: nat, latched: bool, gone: bool)

  /** The invocations of one cleanup action: in progress now, ever started, ever successful. */
  datatype Effort = Effort(inFlight: nat, started: nat, succeeded: nat)

  /**
    `phase` is where the attempt in progress stands, `results` tells which finished attempts
    failed, and the number of an attempt is its place in that list. `stops` and `closes` only
    record how often the group's stop and the handle's close were invoked.
   */
  datatype Cleanup = Cleanup(
    stopSucceeded: bool,
    referencesDisposed: bool,
    closed: bool,
    phase: Option<Phase>,
    results: seq<bool>,
    quiescenceInFlight: Option<nat>,
    stops: Effort,
    closes: Effort)

  /** `pending` maps a command to its call. */
  datatype Lock = Lock(
    unavailable: bool,
    released: bool,
    pending: map<nat, nat>,
    cleanup: Cleanup,
    releaseInFlight: Option<nat>,
    calls: map<nat, Call>,
    releases: map<nat, Release>,
    group: Group)

  const HELD := Lock(false, false, map[],
                     Cleanup(false, false, false, None, [], None, Effort(0, 0, 0), Effort(0, 0, 0)),
                     None, map[], map[], Group([], 0, false, false))

  // Cleanup

  predicate Succeeded(k: Cleanup) {
    k.results != [] && !k.results[|k.results| - 1]
  }

  function Attempts(k: Cleanup): nat {
    |k.results| + if k.phase.Some? then 1 else 0
  }

  /** An action that has succeeded, or is in progress, is not invoked again. */
  function Invoke(e: Effort, done: bool): Effort {
    if done || e.inFlight > 0 then e else Effort(e.inFlight + 1, e.started + 1, e.succeeded)
  }

  /** The invocation in progress, if there is one, ends. */
  function Conclude(e: Effort, ok: bool): Effort {
    if e.inFlight == 0 then e else Effort(e.inFlight - 1, e.started, e.succeeded + if ok then 1 else 0)
  }

  /** A new attempt begins with `stopProcessGroup`. */
  function StartAttempt(k: Cleanup): Cleanup {
    k.(phase := Some(Stopping), quiescenceInFlight := Some(|k.results|), stops := Invoke(k.stops, k.stopSucceeded))
  }

  /** `stopProcessGroup` returns; `disposeReferences` follows, and then `closeHandle` begins. */
  function AfterStop(k: Cleanup, failed: bool, disposeFailed: bool): Cleanup {
    k.(stopSucceeded := k.stopSucceeded || !failed,
       stops := Conclude(k.stops, !failed),
       referencesDisposed := k.referencesDisposed || !disposeFailed,
       phase := Some(Closing(failed, disposeFailed)),
       closes := Invoke(k.closes, k.closed))
  }

  function Failed(k: Cleanup, closeFailed: bool): bool
    requires k.phase.Some? && k.phase.value.Closing?
  {
    k.phase.value.stopFailed || k.phase.value.disposeFailed || closeFailed
  }

  /** `closeHandle` returns, and with it the attempt ends. */
  function AfterClose(k: Cleanup, failed: bool): Cleanup
    requires k.phase.Some? && k.phase.value.Closing?
  {
    k.(closed := k.closed || !failed,
       closes := Conclude(k.closes, !failed),
       phase := None,
       results := k.results + [Failed(k, failed)])
  }

  // Quiescence

  /** What `beginQuiescence` returns, and what it leaves behind. */
  function WaitFor(s: Lock, retry: bool): Wait {
    var k := s.cleanup;
    if Succeeded(k) then Value(false)
    else if k.quiescenceInFlight.Some? then OnAttempt(k.quiescenceInFlight.value)
    else if s.unavailable && !retry then Value(k.results != [] && k.results[|k.results| - 1])
    else OnAttempt(|k.results|)
  }

  predicate StartsAttempt(s: Lock, retry: bool) {
    !Succeeded(s.cleanup) && s.cleanup.quiescenceInFlight.None? && (retry || !s.unavailable)
  }

  function BeginQuiescence(s: Lock, retry: bool): Lock {
    s.(unavailable := true, cleanup := if StartsAttempt(s, retry) then StartAttempt(s.cleanup) else s.cleanup)
  }

  /** A call goes on once the lock is quiescent, to be rejected with the given code. */
  function RejectAfterQuiescence(s: Lock, c: nat, code: LockCode, notCommitted: bool): Lock {
    BeginQuiescence(s, false).(calls := s.calls[c := Waiting(WaitFor(s, false), code, notCommitted)])
  }

  function Settle(s: Lock, c: nat, outcome: Outcome): Lock {
    s.(calls := s.calls[c := Settled(outcome)])
  }

  function RejectedCalls(calls: map<nat, Call>, failed: bool): map<nat, Call> {
    map c | c in calls :: if calls[c].Pending? then Settled(Rejected(LockCommitUncertain, false, failed)) else calls[c]
  }

  /** `settleQuiescence` rejects every pending command when the first attempt ends. */
  function RejectPending(s: Lock, failed: bool): Lock {
    s.(pending := map[], calls := RejectedCalls(s.calls, failed))
  }

  // Events

  datatype Event =
    | CallRename(call: nat, exited: bool)
    | InvalidRename(call: nat)
    | IdentityHolds(call: nat, exited: bool)
    | IdentityReplaced(call: nat)
    | IdentityThrows(call: nat)
    | TimerFires(command: nat)
    | WriteFails(command: nat)
    | LineArrives(command: nat)
    | QuiescenceTriggered
    | StopEnds(failed: bool, disposeFailed: bool)
    | CloseEnds(failed: bool)
    | AttemptPromiseCleared
    | CallContinues(call: nat)
    | CallRelease(release: nat)
    | ReleaseContinues(release: nat)
    | ReleasePromiseCleared
    | HolderHandles(reply: Reply)
    | GroupDies

  /** The result of a promise, once there is one. */
  function ResultOf(k: Cleanup, wait: Wait): Option<bool> {
    match wait
    case Value(failed) => Some(failed)
    case OnAttempt(number) => if number < |k.results| then Some(k.results[number]) else None
  }

  predicate Enabled(s: Lock, e: Event) {
    var k := s.cleanup;
    match e
    case CallRename(c, _) => c !in s.calls
    case InvalidRename(c) => c !in s.calls
    case IdentityHolds(c, _) => c in s.calls && s.calls[c].Checking?
    case IdentityReplaced(c) => c in s.calls && s.calls[c].Checking?
    case IdentityThrows(c) => c in s.calls && s.calls[c].Checking?
    case TimerFires(id) => id in s.pending
    case WriteFails(id) => id in s.pending
    case LineArrives(id) => id < |s.group.commands| && s.group.commands[id].reply.Some?
    case QuiescenceTriggered => true
    case StopEnds(failed, disposeFailed) =>
      && k.phase == Some(Stopping)
      && (if failed then !k.stopSucceeded else k.stopSucceeded || s.group.gone)
      && (disposeFailed ==> !k.referencesDisposed)
    case CloseEnds(failed) => k.phase.Some? && k.phase.value.Closing? && (failed ==> !k.closed)
    case AttemptPromiseCleared => k.quiescenceInFlight.Some? && k.phase.None?
    case CallContinues(c) => c in s.calls && s.calls[c].Waiting? && ResultOf(k, s.calls[c].wait).Some?
    case CallRelease(r) => r !in s.releases
    case ReleaseContinues(r) => r in s.releases && s.releases[r].Releasing? && ResultOf(k, s.releases[r].wait).Some?
    case ReleasePromiseCleared =>
      s.releaseInFlight.Some? && s.releaseInFlight.value in s.releases && !s.releases[s.releaseInFlight.value].Releasing?
    case HolderHandles(_) => !s.group.gone && s.group.handled < |s.group.commands|
    case GroupDies => !s.group.gone
  }

  /** `renameWhileHeld` up to the identity check; `exited` is what the child object shows. */
  function OnCallRename(s: Lock, c: nat, exited: bool): Lock {
    if s.unavailable || s.released || exited
    then RejectAfterQuiescence(s, c, LockCommitUncertain, false)
    else s.(calls := s.calls[c := Checking])
  }

  /** `renameWhileHeld` after the identity check: the only place where a command is written. */
  function OnIdentityHolds(s: Lock, c: nat, exited: bool): Lock {
    if s.unavailable || s.released || exited
    then RejectAfterQuiescence(s, c, LockCommitUncertain, false)
    else
      var id := |s.group.commands|;
      s.(pending := s.pending[id := c],
         calls := s.calls[c := Pending(id)],
         group := s.group.(commands := s.group.commands + [Command(c, None, false)]))
  }

  /** A timer or a write error takes the command back and waits for quiescence. */
  function OnLostAnswer(s: Lock, id: nat): Lock
    requires id in s.pending
  {
    RejectAfterQuiescence(s.(pending := s.pending - {id}), s.pending[id], LockCommitUncertain, false)
  }

  /** The `line` handler. */
  function OnLine(s: Lock, id: nat, reply: Reply): Lock {
    if s.unavailable || id !in s.pending then s
    else
      var c := s.pending[id];
      var t := s.(pending := s.pending - {id});
      match reply
      case Ok => Settle(t, c, Resolved)
      case LockPathReplaced => RejectAfterQuiescence(t, c, LockReplaced, true)
      case Unsure => RejectAfterQuiescence(t, c, LockCommitUncertain, false)
      case DestinationChanged => Settle(t, c, Rejected(DestinationChangedCode, true, false))
      case RenameError => Settle(t, c, Rejected(LockCommitFailed, false, false))
  }

  function OnStopEnds(s: Lock, failed: bool, disposeFailed: bool): Lock {
    s.(cleanup := AfterStop(s.cleanup, failed, disposeFailed))
  }

  function OnCloseEnds(s: Lock, failed: bool): Lock
    requires s.cleanup.phase.Some? && s.cleanup.phase.value.Closing?
  {
    var t := s.(cleanup := AfterClose(s.cleanup, failed));
    if s.cleanup.results == [] then RejectPending(t, Failed(s.cleanup, failed)) else t
  }

  function OnCallContinues(s: Lock, c: nat): Lock
    requires c in s.calls && s.calls[c].Waiting? && ResultOf(s.cleanup, s.calls[c].wait).Some?
  {
    var call := s.calls[c];
    Settle(s, c, Rejected(call.code, call.notCommitted, ResultOf(s.cleanup, call.wait).value))
  }

  /** `release`: a call during a release in flight shares its promise. */
  function OnCallRelease(s: Lock, r: nat): Lock {
    if s.released then s.(releases := s.releases[r := Released])
    else if s.releaseInFlight.Some? then s
    else BeginQuiescence(s, true).(releases := s.releases[r := Releasing(WaitFor(s, true))], releaseInFlight := Some(r))
  }

  function OnReleaseContinues(s: Lock, r: nat): Lock
    requires r in s.releases && s.releases[r].Releasing? && ResultOf(s.cleanup, s.releases[r].wait).Some?
  {
    var failed := ResultOf(s.cleanup, s.releases[r].wait).value;
    s.(released := s.released || !failed, releases := s.releases[r := if failed then ReleaseFailed else Released])
  }

  /** `handleCommand` of the holder; its `unavailable` latch turns every later answer into a doubt. */
  function Handled(g: Group, reply: Reply): Group
    requires g.handled < |g.commands|
  {
    var answer := if g.latched then Unsure else reply;
    var command := g.commands[g.handled].(reply := Some(answer), performed := !g.latched && reply in {Ok, Unsure});
    g.(commands := g.commands[g.handled := command],
       handled := g.handled + 1,
       latched := g.latched || reply in {LockPathReplaced, Unsure})
  }

  function Handle(s: Lock, e: Event): Lock
    requires Enabled(s, e)
  {
    match e
    case CallRename(c, exited) => OnCallRename(s, c, exited)
    case InvalidRename(c) => Settle(s, c, Rejected(InvalidRenameRequest, true, false))
    case IdentityHolds(c, exited) => OnIdentityHolds(s, c, exited)
    case IdentityReplaced(c) => RejectAfterQuiescence(s, c, LockReplaced, true)
    case IdentityThrows(c) => Settle(s, c, Rejected(UnknownFailure, false, false))
    case TimerFires(id) => OnLostAnswer(s, id)
    case WriteFails(id) => OnLostAnswer(s, id)
    case LineArrives(id) => OnLine(s, id, s.group.commands[id].reply.value)
    case QuiescenceTriggered => BeginQuiescence(s, false)
    case StopEnds(failed, disposeFailed) => OnStopEnds(s, failed, disposeFailed)
    case CloseEnds(failed) => OnCloseEnds(s, failed)
    case AttemptPromiseCleared => s.(cleanup := s.cleanup.(quiescenceInFlight := None))
    case CallContinues(c) => OnCallContinues(s, c)
    case CallRelease(r) => OnCallRelease(s, r)
    case ReleaseContinues(r) => OnReleaseContinues(s, r)
    case ReleasePromiseCleared => s.(releaseInFlight := None)
    case HolderHandles(reply) => s.(group := Handled(s.group, reply))
    case GroupDies => s.(group := s.group.(gone := true))
  }

  /** An event that cannot happen now is skipped. */
  function After(s: Lock, e: Event): Lock {
    if Enabled(s, e) then Handle(s, e) else s
  }

  /** The event loop. */
  function Run(s: Lock, events: seq<Event>): Lock
    decreases |events|
  {
    if events == [] then s else Run(After(s, events[0]), events[1..])
  }

  // Invariant

  ghost predicate PendingOk(pending: map<nat, nat>, calls: map<nat, Call>, commands: seq<Command>) {
    && (forall id :: id in pending ==>
          && id < |commands|
          && commands[id].owner == pending[id]
          && pending[id] in calls
          && calls[pending[id]] == Pending(id))
    && (forall c :: c in calls && calls[c].Pending? ==>
          calls[c].command in pending && pending[calls[c].command] == c)
  }

  /** One invocation at a time, none after a success. */
  predicate EffortOk(e: Effort, busy: bool, done: bool) {
    && e.inFlight == (if busy && !done then 1 else 0)
    && e.succeeded == (if done then 1 else 0)
    && e.succeeded + e.inFlight <= e.started
  }

  /** Attempts run one at a time, a successful one is the last, and success means that all was done. */
  ghost predicate CleanupOk(k: Cleanup, gone: bool) {
    && (k.phase.Some? ==> k.quiescenceInFlight == Some(|k.results|) && !Succeeded(k))
    && (k.quiescenceInFlight.Some? ==> k.quiescenceInFlight.value + 1 == Attempts(k))
    && (forall i :: 0 <= i < |k.results| - 1 ==> k.results[i])
    && (k.stopSucceeded ==> gone)
    && (Succeeded(k) ==> k.stopSucceeded && k.referencesDisposed && k.closed)
    && (k.phase.Some? && k.phase.value.Closing? ==>
          && (!k.phase.value.stopFailed ==> k.stopSucceeded)
          && (!k.phase.value.disposeFailed ==> k.referencesDisposed))
    && EffortOk(k.stops, k.phase == Some(Stopping), k.stopSucceeded)
    && EffortOk(k.closes, k.phase.Some? && k.phase.value.Closing?, k.closed)
  }

  predicate FlagsOk(unavailable: bool, released: bool, nothingPending: bool, k: Cleanup) {
    && (unavailable <==> Attempts(k) > 0)
    && (k.results != [] ==> nothingPending)
    && (released ==> Succeeded(k))
  }

  predicate WaitOk(k: Cleanup, wait: Wait) {
    match wait
    case Value(failed) => failed || Succeeded(k)
    case OnAttempt(number) => number < Attempts(k)
  }

  ghost predicate ReleasesOk(released: bool, k: Cleanup, releases: map<nat, Release>) {
    forall r | r in releases ::
      && (releases[r].Released? ==> released)
      && (releases[r].Releasing? ==> WaitOk(k, releases[r].wait))
  }

  predicate CommandOk(command: Command) {
    match command.reply
    case None => !command.performed
    case Some(Ok) => command.performed
    case Some(Unsure) => true
    case Some(_) => !command.performed
  }

  ghost predicate CommandsOk(g: Group) {
    && g.handled <= |g.commands|
    && (forall id :: 0 <= id < |g.commands| ==>
          && CommandOk(g.commands[id])
          && (g.commands[id].reply.Some? <==> id < g.handled))
    && (forall id, jd :: 0 <= id < jd < |g.commands| ==> g.commands[id].owner != g.commands[jd].owner)
  }

  ghost predicate OwnersOk(g: Group, callers: set<nat>) {
    forall id :: 0 <= id < |g.commands| ==> g.commands[id].owner in callers
  }

  /** The rename that a call asked for did not happen and never will. */
  ghost predicate NeverCommits(g: Group, c: nat) {
    forall id :: 0 <= id < |g.commands| && g.commands[id].owner == c ==>
      g.commands[id].reply.Some? && !g.commands[id].performed
  }

  ghost predicate HasCommitted(g: Group, c: nat) {
    exists id :: 0 <= id < |g.commands| && g.commands[id].owner == c && g.commands[id].performed
  }

  ghost predicate HasNotAsked(g: Group, c: nat) {
    forall id :: 0 <= id < |g.commands| ==> g.commands[id].owner != c
  }

  ghost predicate CallOk(k: Cleanup, g: Group, c: nat, call: Call) {
    match call
    case Checking => HasNotAsked(g, c)
    case Pending(_) => true
    case Waiting(wait, _, notCommitted) => WaitOk(k, wait) && (notCommitted ==> NeverCommits(g, c))
    case Settled(Resolved) => HasCommitted(g, c)
    case Settled(Rejected(code, notCommitted, cleanupFailed)) =>
      && (notCommitted ==> NeverCommits(g, c))
      && (code == LockCommitUncertain && !cleanupFailed ==> g.gone)
  }

  ghost predicate CallsOk(k: Cleanup, g: Group, calls: map<nat, Call>) {
    forall c :: c in calls ==> CallOk(k, g, c, calls[c])
  }

  ghost predicate Inv(s: Lock) {
    && PendingOk(s.pending, s.calls, s.group.commands)
    && FlagsOk(s.unavailable, s.released, s.pending == map[], s.cleanup)
    && CleanupOk(s.cleanup, s.group.gone)
    && CommandsOk(s.group)
    && OwnersOk(s.group, s.calls.Keys)
    && ReleasesOk(s.released, s.cleanup, s.releases)
    && CallsOk(s.cleanup, s.group, s.calls)
  }

  lemma HeldInv()
    ensures Inv(HELD)
  {
  }

  // Cleanup keeps its promises

  /** What a later state of the cleanup still says. */
  predicate Later(k: Cleanup, k': Cleanup) {
    && k.results <= k'.results
    && Attempts(k) <= Attempts(k')
    && (Succeeded(k) ==> k'.results == k.results)
    && (k.stopSucceeded ==> k'.stopSucceeded)
    && (k.referencesDisposed ==> k'.referencesDisposed)
    && (k.closed ==> k'.closed)
  }

  lemma StartAttemptOk(k: Cleanup, gone: bool)
    requires CleanupOk(k, gone) && !Succeeded(k) && k.quiescenceInFlight.None?
    ensures CleanupOk(StartAttempt(k), gone) && Later(k, StartAttempt(k)) && !Succeeded(StartAttempt(k))
    ensures Attempts(StartAttempt(k)) == |k.results| + 1
  {
  }

  lemma AfterStopOk(k: Cleanup, gone: bool, failed: bool, disposeFailed: bool)
    requires CleanupOk(k, gone) && k.phase == Some(Stopping)
    requires if failed then !k.stopSucceeded else k.stopSucceeded || gone
    requires disposeFailed ==> !k.referencesDisposed
    ensures CleanupOk(AfterStop(k, failed, disposeFailed), gone) && Later(k, AfterStop(k, failed, disposeFailed))
  {
  }

  lemma AfterCloseOk(k: Cleanup, gone: bool, failed: bool)
    requires CleanupOk(k, gone) && k.phase.Some? && k.phase.value.Closing? && (failed ==> !k.closed)
    ensures CleanupOk(AfterClose(k, failed), gone) && Later(k, AfterClose(k, failed))
    ensures Succeeded(AfterClose(k, failed)) <==> !Failed(k, failed)
    ensures Attempts(AfterClose(k, failed)) == |k.results| + 1
  {
    var k' := AfterClose(k, failed);
    assert k'.results[..|k.results|] == k.results;
  }

  lemma WaitsStayOk(k: Cleanup, k': Cleanup, g: Group, calls: map<nat, Call>, released: bool, releases: map<nat, Release>)
    requires Later(k, k') && CallsOk(k, g, calls) && ReleasesOk(released, k, releases)
    ensures CallsOk(k', g, calls) && ReleasesOk(released, k', releases)
  {
    hide NeverCommits, HasCommitted, HasNotAsked;
    forall c | c in calls
      ensures CallOk(k', g, c, calls[c])
    {
      assert CallOk(k, g, c, calls[c]);
    }
  }

  // Quiescence keeps the invariant

  lemma BeginQuiescenceOk(s: Lock, retry: bool)
    requires Inv(s)
    ensures Inv(BeginQuiescence(s, retry))
    ensures Later(s.cleanup, BeginQuiescence(s, retry).cleanup)
    ensures WaitOk(BeginQuiescence(s, retry).cleanup, WaitFor(s, retry))
  {
    hide PendingOk, CommandsOk, OwnersOk;
    if StartsAttempt(s, retry) {
      StartAttemptOk(s.cleanup, s.group.gone);
      WaitsStayOk(s.cleanup, StartAttempt(s.cleanup), s.group, s.calls, s.released, s.releases);
      hide CleanupOk, CallsOk, ReleasesOk, StartAttempt;
    } else {
      hide CallsOk, ReleasesOk;
    }
  }

  /** A call that holds no command may be replaced by any other that the state supports. */
  lemma ReplaceCall(s: Lock, c: nat, call: Call)
    requires Inv(s) && (c in s.calls ==> !s.calls[c].Pending?) && !call.Pending?
    requires CallOk(s.cleanup, s.group, c, call)
    ensures Inv(s.(calls := s.calls[c := call]))
  {
    hide CallOk, CleanupOk, ReleasesOk, CommandsOk, FlagsOk;
  }

  lemma RejectAfterQuiescenceOk(s: Lock, c: nat, code: LockCode, notCommitted: bool)
    requires Inv(s)
    requires c in s.calls ==> !s.calls[c].Pending?
    requires notCommitted ==> NeverCommits(s.group, c)
    ensures Inv(RejectAfterQuiescence(s, c, code, notCommitted))
  {
    hide Inv, NeverCommits, WaitFor, WaitOk;
    BeginQuiescenceOk(s, false);
    ReplaceCall(BeginQuiescence(s, false), c, Waiting(WaitFor(s, false), code, notCommitted));
  }

  // Commands and their calls

  lemma TakenPendingOk(pending: map<nat, nat>, calls: map<nat, Call>, commands: seq<Command>, id: nat, call: Call)
    requires PendingOk(pending, calls, commands) && id in pending && !call.Pending?
    ensures PendingOk(pending - {id}, calls[pending[id] := call], commands)
  {
  }

  /** Taking a command out of `pending` together with its call. */
  lemma TakePending(s: Lock, id: nat, call: Call)
    requires Inv(s) && id in s.pending && !call.Pending?
    requires CallOk(s.cleanup, s.group, s.pending[id], call)
    ensures Inv(s.(pending := s.pending - {id}, calls := s.calls[s.pending[id] := call]))
  {
    assert s.pending[id] in s.calls && s.pending != map[];
    TakenPendingOk(s.pending, s.calls, s.group.commands, id, call);
    hide PendingOk, CallOk, CleanupOk, ReleasesOk, CommandsOk;
    assert s.calls[s.pending[id] := call].Keys == s.calls.Keys;
  }

  lemma TakePendingAndQuiesce(s: Lock, id: nat, code: LockCode, notCommitted: bool)
    requires Inv(s) && id in s.pending
    requires notCommitted ==> NeverCommits(s.group, s.pending[id])
    ensures Inv(RejectAfterQuiescence(s.(pending := s.pending - {id}), s.pending[id], code, notCommitted))
  {
    hide Inv, NeverCommits, WaitOk, StartAttempt, Succeeded;
    BeginQuiescenceOk(s, false);
    TakePending(BeginQuiescence(s, false), id, Waiting(WaitFor(s, false), code, notCommitted));
  }

  lemma OnCallRenameOk(s: Lock, c: nat, exited: bool)
    requires Inv(s) && c !in s.calls
    ensures Inv(OnCallRename(s, c, exited))
  {
    if s.unavailable || s.released || exited {
      RejectAfterQuiescenceOk(s, c, LockCommitUncertain, false);
    } else {
      assert HasNotAsked(s.group, c);
      hide Inv;
      ReplaceCall(s, c, Checking);
    }
  }

  lemma OnIdentityHoldsOk(s: Lock, c: nat, exited: bool)
    requires Inv(s) && c in s.calls && s.calls[c].Checking?
    ensures Inv(OnIdentityHolds(s, c, exited))
  {
    if s.unavailable || s.released || exited {
      RejectAfterQuiescenceOk(s, c, LockCommitUncertain, false);
    } else {
      WriteCommandOk(s, c);
    }
  }

  lemma WriteCommandOk(s: Lock, c: nat)
    requires Inv(s) && c in s.calls && s.calls[c].Checking? && !s.unavailable && !s.released
    ensures Inv(OnIdentityHolds(s, c, false))
  {
    var id := |s.group.commands|;
    var g := s.group.(commands := s.group.commands + [Command(c, None, false)]);
    assert CallOk(s.cleanup, s.group, c, s.calls[c]);
    WrittenPendingOk(s.pending, s.calls, s.group, c);
    WrittenCallsOk(s.cleanup, s.group, g, s.calls, c);
    assert OwnersOk(g, s.calls[c := Pending(id)].Keys);
    hide PendingOk, CallsOk, CleanupOk, ReleasesOk, CommandsOk, OwnersOk;
  }

  lemma WrittenPendingOk(pending: map<nat, nat>, calls: map<nat, Call>, g: Group, c: nat)
    requires PendingOk(pending, calls, g.commands) && CommandsOk(g) && HasNotAsked(g, c)
    requires c in calls && calls[c].Checking?
    ensures var commands, id := g.commands + [Command(c, None, false)], |g.commands|;
            && PendingOk(pending[id := c], calls[c := Pending(id)], commands)
            && CommandsOk(g.(commands := commands))
  {
  }

  lemma WrittenCallsOk(k: Cleanup, g: Group, g': Group, calls: map<nat, Call>, c: nat)
    requires CallsOk(k, g, calls) && g' == g.(commands := g.commands + [Command(c, None, false)])
    ensures CallsOk(k, g', calls[c := Pending(|g.commands|)])
  {
    var calls' := calls[c := Pending(|g.commands|)];
    forall d | d in calls'
      ensures CallOk(k, g', d, calls'[d])
    {
      if d != c {
        assert CallOk(k, g, d, calls[d]);
        MoreCommands(g, g', d, Command(c, None, false));
      }
    }
  }

  lemma MoreCommands(g: Group, g': Group, d: nat, command: Command)
    requires g' == g.(commands := g.commands + [command]) && command.owner != d
    ensures NeverCommits(g, d) ==> NeverCommits(g', d)
    ensures HasCommitted(g, d) ==> HasCommitted(g', d)
    ensures HasNotAsked(g, d) ==> HasNotAsked(g', d)
  {
    if HasCommitted(g, d) {
      var id :| 0 <= id < |g.commands| && g.commands[id].owner == d && g.commands[id].performed;
      assert g'.commands[id] == g.commands[id];
    }
  }

  lemma OnLineOk(s: Lock, id: nat)
    requires Inv(s) && id < |s.group.commands| && s.group.commands[id].reply.Some?
    ensures Inv(OnLine(s, id, s.group.commands[id].reply.value))
  {
    if !s.unavailable && id in s.pending {
      var c := s.pending[id];
      AnswerIsTrue(s.group, id);
      assert s.group.commands[id].owner == c;
      hide Inv, NeverCommits, HasCommitted, RejectAfterQuiescence;
      match s.group.commands[id].reply.value
      case Ok => TakePending(s, id, Settled(Resolved));
      case LockPathReplaced => TakePendingAndQuiesce(s, id, LockReplaced, true);
      case Unsure => TakePendingAndQuiesce(s, id, LockCommitUncertain, false);
      case DestinationChanged => TakePending(s, id, Settled(Rejected(DestinationChangedCode, true, false)));
      case RenameError => TakePending(s, id, Settled(Rejected(LockCommitFailed, false, false)));
    }
  }

  lemma AnswerIsTrue(g: Group, id: nat)
    requires CommandsOk(g) && id < |g.commands| && g.commands[id].reply.Some?
    ensures g.commands[id].reply.value.Ok? ==> HasCommitted(g, g.commands[id].owner)
    ensures !g.commands[id].reply.value.Ok? && !g.commands[id].reply.value.Unsure? ==>
              NeverCommits(g, g.commands[id].owner)
  {
    assert CommandOk(g.commands[id]);
  }

  // The other events

  lemma OnStopEndsOk(s: Lock, failed: bool, disposeFailed: bool)
    requires Inv(s) && Enabled(s, StopEnds(failed, disposeFailed))
    ensures Inv(OnStopEnds(s, failed, disposeFailed))
  {
    var k := AfterStop(s.cleanup, failed, disposeFailed);
    AfterStopOk(s.cleanup, s.group.gone, failed, disposeFailed);
    WaitsStayOk(s.cleanup, k, s.group, s.calls, s.released, s.releases);
    hide PendingOk, CallsOk, CleanupOk, ReleasesOk, CommandsOk, OwnersOk;
  }

  lemma OnCloseEndsOk(s: Lock, failed: bool)
    requires Inv(s) && Enabled(s, CloseEnds(failed))
    ensures Inv(OnCloseEnds(s, failed))
  {
    var k := AfterClose(s.cleanup, failed);
    AfterCloseOk(s.cleanup, s.group.gone, failed);
    WaitsStayOk(s.cleanup, k, s.group, s.calls, s.released, s.releases);
    RejectedCallsOk(k, s.group, s.calls, Failed(s.cleanup, failed));
    assert CleanupOk(k, s.group.gone) && (!Failed(s.cleanup, failed) ==> s.group.gone);
    hide PendingOk, CallsOk, CleanupOk, ReleasesOk, CommandsOk, OwnersOk, AfterClose, RejectedCalls;
  }

  /** Once the first attempt has ended, no call is pending; a doubt without a failure is final. */
  lemma RejectedCallsOk(k: Cleanup, g: Group, calls: map<nat, Call>, failed: bool)
    requires CallsOk(k, g, calls)
    ensures RejectedCalls(calls, failed).Keys == calls.Keys
    ensures PendingOk(map[], RejectedCalls(calls, failed), g.commands)
    ensures (failed || g.gone) ==> CallsOk(k, g, RejectedCalls(calls, failed))
  {
    hide NeverCommits, HasCommitted, HasNotAsked;
    assert forall c :: c in calls ==> CallOk(k, g, c, calls[c]);
  }

  /** A promise that reports no cleanup error reports a group that is gone. */
  lemma ResultIsHonest(k: Cleanup, gone: bool, wait: Wait)
    requires CleanupOk(k, gone) && WaitOk(k, wait) && ResultOf(k, wait) == Some(false)
    ensures Succeeded(k) && gone
  {
  }

  lemma OnCallContinuesOk(s: Lock, c: nat)
    requires Inv(s) && Enabled(s, CallContinues(c))
    ensures Inv(OnCallContinues(s, c))
  {
    var call := s.calls[c];
    assert CallOk(s.cleanup, s.group, c, call);
    if ResultOf(s.cleanup, call.wait) == Some(false) {
      ResultIsHonest(s.cleanup, s.group.gone, call.wait);
    }
    hide Inv, NeverCommits;
    ReplaceCall(s, c, Settled(Rejected(call.code, call.notCommitted, ResultOf(s.cleanup, call.wait).value)));
  }

  lemma ReplaceRelease(s: Lock, r: nat, release: Release, inFlight: Option<nat>)
    requires Inv(s) && (release.Released? ==> s.released) && (release.Releasing? ==> WaitOk(s.cleanup, release.wait))
    ensures Inv(s.(releases := s.releases[r := release], releaseInFlight := inFlight))
  {
    hide PendingOk, CallsOk, CleanupOk, CommandsOk, OwnersOk, WaitOk;
  }

  lemma OnCallReleaseOk(s: Lock, r: nat)
    requires Inv(s) && r !in s.releases
    ensures Inv(OnCallRelease(s, r))
  {
    hide Inv, WaitOk;
    if s.released {
      ReplaceRelease(s, r, Released, s.releaseInFlight);
    } else if s.releaseInFlight.None? {
      BeginQuiescenceOk(s, true);
      ReplaceRelease(BeginQuiescence(s, true), r, Releasing(WaitFor(s, true)), Some(r));
    }
  }

  lemma OnReleaseContinuesOk(s: Lock, r: nat)
    requires Inv(s) && Enabled(s, ReleaseContinues(r))
    ensures Inv(OnReleaseContinues(s, r))
  {
    assert WaitOk(s.cleanup, s.releases[r].wait);
    if ResultOf(s.cleanup, s.releases[r].wait) == Some(false) {
      ResultIsHonest(s.cleanup, s.group.gone, s.releases[r].wait);
      var t := s.(released := true);
      assert Inv(t) by {
        hide PendingOk, CallsOk, CleanupOk, CommandsOk, OwnersOk, WaitOk;
      }
      hide Inv;
      ReplaceRelease(t, r, Released, s.releaseInFlight);
    } else {
      hide Inv;
      ReplaceRelease(s, r, ReleaseFailed, s.releaseInFlight);
    }
  }

  lemma AttemptPromiseClearedOk(s: Lock)
    requires Inv(s) && s.cleanup.phase.None?
    ensures Inv(s.(cleanup := s.cleanup.(quiescenceInFlight := None)))
  {
    var k := s.cleanup.(quiescenceInFlight := None);
    assert CleanupOk(k, s.group.gone);
    WaitsStayOk(s.cleanup, k, s.group, s.calls, s.released, s.releases);
    hide PendingOk, CallsOk, CleanupOk, ReleasesOk, CommandsOk, OwnersOk;
  }

  /** What was answered stays as it is, and a group that is gone does nothing more. */
  ghost predicate GroupKept(g: Group, g': Group) {
    && |g.commands| <= |g'.commands|
    && (g.gone ==> g'.gone && g'.handled == g.handled)
    && forall id :: 0 <= id < |g.commands| ==> CommandKept(g.commands[id], g'.commands[id], g.gone)
  }

  predicate CommandKept(command: Command, command': Command, gone: bool) {
    && command'.owner == command.owner
    && (gone || command.reply.Some? ==> command' == command)
  }

  lemma HandledGroupKept(g: Group, reply: Reply)
    requires CommandsOk(g) && !g.gone && g.handled < |g.commands|
    ensures CommandsOk(Handled(g, reply)) && GroupKept(g, Handled(g, reply))
    ensures |Handled(g, reply).commands| == |g.commands| && Handled(g, reply).gone == g.gone
  {
  }

  lemma GroupKeepsPromises(g: Group, g': Group, c: nat)
    requires CommandsOk(g) && GroupKept(g, g') && |g'.commands| == |g.commands|
    ensures NeverCommits(g, c) ==> NeverCommits(g', c)
    ensures HasCommitted(g, c) ==> HasCommitted(g', c)
    ensures HasNotAsked(g, c) ==> HasNotAsked(g', c)
  {
    assert forall id :: 0 <= id < |g.commands| ==> CommandKept(g.commands[id], g'.commands[id], g.gone);
    if HasCommitted(g, c) {
      var id :| 0 <= id < |g.commands| && g.commands[id].owner == c && g.commands[id].performed;
      assert CommandOk(g.commands[id]) && g'.commands[id] == g.commands[id];
    }
  }

  /** The group moves on its own. */
  lemma GroupMovesOk(s: Lock, g: Group)
    requires Inv(s) && CommandsOk(g) && GroupKept(s.group, g) && |g.commands| == |s.group.commands|
    requires s.group.gone ==> g.gone
    ensures Inv(s.(group := g))
  {
    var s' := s.(group := g);
    assert forall id :: 0 <= id < |g.commands| ==> CommandKept(s.group.commands[id], g.commands[id], s.group.gone);
    assert PendingOk(s.pending, s.calls, g.commands) && OwnersOk(g, s.calls.Keys);
    forall c | c in s.calls
      ensures CallOk(s.cleanup, g, c, s.calls[c])
    {
      assert CallOk(s.cleanup, s.group, c, s.calls[c]);
      GroupKeepsPromises(s.group, g, c);
      hide NeverCommits, HasCommitted, HasNotAsked, GroupKept, CommandsOk, PendingOk, OwnersOk;
    }
    hide PendingOk, OwnersOk, GroupKept, CommandsOk, CallOk;
  }

  lemma HolderMovesOk(s: Lock, e: Event)
    requires Inv(s) && Enabled(s, e) && (e.HolderHandles? || e.GroupDies?)
    ensures Inv(Handle(s, e))
  {
    if e.HolderHandles? {
      HandledGroupKept(s.group, e.reply);
    }
    hide Handled;
    GroupMovesOk(s, Handle(s, e).group);
  }

  /** Every event keeps the invariant. */
  lemma HandleKeepsInv(s: Lock, e: Event)
    requires Inv(s) && Enabled(s, e)
    ensures Inv(Handle(s, e))
  {
    match e
    case CallRename(c, exited) => OnCallRenameOk(s, c, exited);
    case InvalidRename(c) =>
      assert NeverCommits(s.group, c);
      ReplaceCall(s, c, Settled(Rejected(InvalidRenameRequest, true, false)));
    case IdentityHolds(c, exited) => OnIdentityHoldsOk(s, c, exited);
    case IdentityReplaced(c) =>
      assert CallOk(s.cleanup, s.group, c, s.calls[c]);
      RejectAfterQuiescenceOk(s, c, LockReplaced, true);
    case IdentityThrows(c) => ReplaceCall(s, c, Settled(Rejected(UnknownFailure, false, false)));
    case TimerFires(id) => TakePendingAndQuiesce(s, id, LockCommitUncertain, false);
    case WriteFails(id) => TakePendingAndQuiesce(s, id, LockCommitUncertain, false);
    case LineArrives(id) => OnLineOk(s, id);
    case QuiescenceTriggered => BeginQuiescenceOk(s, false);
    case StopEnds(failed, disposeFailed) => OnStopEndsOk(s, failed, disposeFailed);
    case CloseEnds(failed) => OnCloseEndsOk(s, failed);
    case AttemptPromiseCleared => AttemptPromiseClearedOk(s);
    case CallContinues(c) => OnCallContinuesOk(s, c);
    case CallRelease(r) => OnCallReleaseOk(s, r);
    case ReleaseContinues(r) => OnReleaseContinuesOk(s, r);
    case ReleasePromiseCleared =>
    case HolderHandles(_) => HolderMovesOk(s, e);
    case GroupDies => HolderMovesOk(s, e);
  }

  // What no event changes

  ghost predicate CallsKept(calls: map<nat, Call>, calls': map<nat, Call>) {
    forall c :: c in calls ==> c in calls' && (calls[c].Settled? ==> calls'[c] == calls[c])
  }

  ghost predicate ReleasesKept(releases: map<nat, Release>, releases': map<nat, Release>) {
    forall r :: r in releases ==> r in releases' && (!releases[r].Releasing? ==> releases'[r] == releases[r])
  }

  /** Settled promises, performed renames, what was cleaned up, and the silence after `unavailable`. */
  ghost predicate Kept(s: Lock, s': Lock) {
    && CallsKept(s.calls, s'.calls)
    && ReleasesKept(s.releases, s'.releases)
    && GroupKept(s.group, s'.group)
    && Later(s.cleanup, s'.cleanup)
    && (s.unavailable ==> s'.unavailable && |s'.group.commands| == |s.group.commands|)
    && (s.released ==> s'.released)
  }

  lemma KeptSelf(s: Lock)
    ensures Kept(s, s)
  {
  }

  /** A step that touches no promise and not the cleanup. */
  lemma GroupStepKept(s: Lock, g: Group)
    requires GroupKept(s.group, g) && |g.commands| == |s.group.commands|
    ensures Kept(s, s.(group := g))
  {
    hide GroupKept;
  }

  /** A step of the cleanup. */
  lemma CleanupStepKept(s: Lock, k: Cleanup)
    requires Later(s.cleanup, k)
    ensures Kept(s, s.(unavailable := true, cleanup := k)) && Kept(s, s.(cleanup := k))
  {
    hide Later;
  }

  /** A step that moves a call which is not settled. */
  lemma CallStepKept(s: Lock, pending: map<nat, nat>, c: nat, call: Call)
    requires c in s.calls ==> !s.calls[c].Settled?
    ensures Kept(s, s.(pending := pending, calls := s.calls[c := call]))
  {
  }

  lemma BeginQuiescenceKept(s: Lock, retry: bool)
    requires Inv(s)
    ensures Kept(s, BeginQuiescence(s, retry))
  {
    BeginQuiescenceOk(s, retry);
    hide Inv, Kept, Later, StartAttempt, StartsAttempt;
    CleanupStepKept(s, BeginQuiescence(s, retry).cleanup);
  }

  /** A call is made to wait for quiescence, perhaps with its command taken back. */
  lemma RejectKept(s: Lock, pending: map<nat, nat>, c: nat, code: LockCode, notCommitted: bool)
    requires Inv(s) && (c in s.calls ==> !s.calls[c].Settled?)
    ensures Kept(s, RejectAfterQuiescence(s.(pending := pending), c, code, notCommitted))
  {
    BeginQuiescenceKept(s, false);
    hide Inv, Kept, StartAttempt, Succeeded;
    var t := BeginQuiescence(s, false);
    CallStepKept(t, pending, c, Waiting(WaitFor(s, false), code, notCommitted));
    KeptChains(s, t, RejectAfterQuiescence(s.(pending := pending), c, code, notCommitted));
  }

  lemma WriteKept(s: Lock, c: nat, exited: bool)
    requires Inv(s) && c in s.calls && s.calls[c].Checking?
    ensures Kept(s, OnIdentityHolds(s, c, exited))
  {
    if s.unavailable || s.released || exited {
      RejectKept(s, s.pending, c, LockCommitUncertain, false);
    } else {
      hide Inv;
    }
  }

  lemma LineKept(s: Lock, id: nat, reply: Reply)
    requires Inv(s)
    ensures Kept(s, OnLine(s, id, reply))
  {
    if !s.unavailable && id in s.pending {
      var c := s.pending[id];
      assert s.calls[c].Pending?;
      hide Inv, Kept, RejectAfterQuiescence;
      match reply
      case Ok => CallStepKept(s, s.pending - {id}, c, Settled(Resolved));
      case LockPathReplaced => RejectKept(s, s.pending - {id}, c, LockReplaced, true);
      case Unsure => RejectKept(s, s.pending - {id}, c, LockCommitUncertain, false);
      case DestinationChanged =>
        CallStepKept(s, s.pending - {id}, c, Settled(Rejected(DestinationChangedCode, true, false)));
      case RenameError => CallStepKept(s, s.pending - {id}, c, Settled(Rejected(LockCommitFailed, false, false)));
    } else {
      KeptSelf(s);
    }
  }

  lemma CloseKept(s: Lock, failed: bool)
    requires Inv(s) && Enabled(s, CloseEnds(failed))
    ensures Kept(s, OnCloseEnds(s, failed))
  {
    AfterCloseOk(s.cleanup, s.group.gone, failed);
    var t := s.(cleanup := AfterClose(s.cleanup, failed));
    CleanupStepKept(s, t.cleanup);
    assert CallsKept(t.calls, RejectedCalls(t.calls, Failed(s.cleanup, failed)));
    hide Inv, AfterClose, Later, RejectedCalls;
  }

  lemma CallReleaseKept(s: Lock, r: nat)
    requires Inv(s) && r !in s.releases
    ensures Kept(s, OnCallRelease(s, r))
  {
    BeginQuiescenceKept(s, true);
    KeptSelf(s);
    hide Inv, BeginQuiescence, WaitFor, CallsKept, GroupKept, Later;
    assert BeginQuiescence(s, true).releases == s.releases by {
      BeginKeepsReleases(s, true);
    }
  }

  lemma BeginKeepsReleases(s: Lock, retry: bool)
    ensures BeginQuiescence(s, retry).releases == s.releases
  {
  }

  lemma CallRenameKept(s: Lock, c: nat, exited: bool)
    requires Inv(s) && c !in s.calls
    ensures Kept(s, OnCallRename(s, c, exited))
  {
    hide Inv, Kept, RejectAfterQuiescence;
    RejectKept(s, s.pending, c, LockCommitUncertain, false);
    CallStepKept(s, s.pending, c, Checking);
  }

  lemma SettleKept(s: Lock, c: nat, outcome: Outcome)
    requires c in s.calls ==> !s.calls[c].Settled?
    ensures Kept(s, Settle(s, c, outcome))
  {
    hide Kept;
    CallStepKept(s, s.pending, c, Settled(outcome));
  }

  /** The events of the cleanup and of the holder. */
  lemma OwnEventsKept(s: Lock, e: Event)
    requires Inv(s) && Enabled(s, e)
    requires e.StopEnds? || e.AttemptPromiseCleared? || e.ReleasePromiseCleared? || e.HolderHandles? || e.GroupDies?
    ensures Kept(s, Handle(s, e))
  {
    hide RejectAfterQuiescence, BeginQuiescence, OnLine, OnCallRename, OnIdentityHolds, OnCallRelease, PendingOk,
         CallsOk, ReleasesOk, OwnersOk, FlagsOk;
    match e
    case StopEnds(failed, disposeFailed) =>
      AfterStopOk(s.cleanup, s.group.gone, failed, disposeFailed);
      hide Inv, Kept, AfterStop;
      CleanupStepKept(s, AfterStop(s.cleanup, failed, disposeFailed));
    case AttemptPromiseCleared =>
      hide Inv, Kept;
      CleanupStepKept(s, s.cleanup.(quiescenceInFlight := None));
    case HolderHandles(reply) =>
      HandledGroupKept(s.group, reply);
      hide Inv, Kept, Handled;
      GroupStepKept(s, Handled(s.group, reply));
    case GroupDies =>
      hide Inv, Kept;
      GroupStepKept(s, s.group.(gone := true));
    case ReleasePromiseCleared => hide Inv;
  }

  /** Every promise settles at most once, and no command is written after `unavailable`. */
  lemma HandleKeeps(s: Lock, e: Event)
    requires Inv(s) && Enabled(s, e)
    ensures Kept(s, Handle(s, e))
  {
    hide Inv, Kept, RejectAfterQuiescence, BeginQuiescence, Settle, OnLine, OnLostAnswer, OnIdentityHolds,
         OnCallRename, OnCloseEnds, OnCallRelease, OnReleaseContinues;
    match e
    case CallRename(c, exited) => CallRenameKept(s, c, exited);
    case InvalidRename(c) => SettleKept(s, c, Rejected(InvalidRenameRequest, true, false));
    case IdentityHolds(c, exited) => WriteKept(s, c, exited);
    case IdentityReplaced(c) => RejectKept(s, s.pending, c, LockReplaced, true);
    case IdentityThrows(c) => SettleKept(s, c, Rejected(UnknownFailure, false, false));
    case TimerFires(id) => LostAnswerKept(s, id);
    case WriteFails(id) => LostAnswerKept(s, id);
    case LineArrives(id) => LineKept(s, id, s.group.commands[id].reply.value);
    case QuiescenceTriggered => BeginQuiescenceKept(s, false);
    case CloseEnds(failed) => CloseKept(s, failed);
    case CallContinues(c) =>
      SettleKept(s, c, Rejected(s.calls[c].code, s.calls[c].notCommitted, ResultOf(s.cleanup, s.calls[c].wait).value));
    case CallRelease(r) => CallReleaseKept(s, r);
    case ReleaseContinues(r) => ReleaseContinuesKept(s, r);
    case _ => OwnEventsKept(s, e);
  }

  lemma LostAnswerKept(s: Lock, id: nat)
    requires Inv(s) && id in s.pending
    ensures Kept(s, OnLostAnswer(s, id))
  {
    assert s.calls[s.pending[id]].Pending?;
    hide Inv, Kept;
    RejectKept(s, s.pending - {id}, s.pending[id], LockCommitUncertain, false);
  }

  lemma ReleaseContinuesKept(s: Lock, r: nat)
    requires Enabled(s, ReleaseContinues(r))
    ensures Kept(s, OnReleaseContinues(s, r))
  {
  }

  // Whole runs

  lemma KeptChains(a: Lock, b: Lock, c: Lock)
    requires Kept(a, b) && Kept(b, c)
    ensures Kept(a, c)
  {
    assert forall d :: d in a.calls ==> d in b.calls;
    assert forall r :: r in a.releases ==> r in b.releases;
  }

  /** Any order of calls, answers, timers, errors, losses and releases is safe. */
  lemma {:induction false} RunIsSafe(s: Lock, events: seq<Event>)
    requires Inv(s)
    ensures Inv(Run(s, events)) && Kept(s, Run(s, events))
    decreases |events|
  {
    hide Inv, Kept, Handle;
    if events == [] {
      KeptSelf(s);
    } else {
      var next := After(s, events[0]);
      if Enabled(s, events[0]) {
        HandleKeepsInv(s, events[0]);
        HandleKeeps(s, events[0]);
      } else {
        KeptSelf(s);
      }
      RunIsSafe(next, events[1..]);
      KeptChains(s, next, Run(next, events[1..]));
    }
  }

  /**
    The answer to `renameWhileHeld` stays true however the run goes on: a refusal means that
    the file was never replaced by this call, success that it was, and a doubt without a
    cleanup error that nothing can change any more.
   */
  lemma AnswersStayTrue(s: Lock, events: seq<Event>, c: nat)
    requires Inv(s) && c in s.calls && s.calls[c].Settled?
    ensures var s' := Run(s, events);
            && c in s'.calls
            && s'.calls[c] == s.calls[c]
            && (s.calls[c].outcome.Resolved? ==> HasCommitted(s'.group, c))
            && (s.calls[c].outcome.Rejected? && s.calls[c].outcome.notCommitted ==> NeverCommits(s'.group, c))
            && (s.calls[c].outcome.Rejected? && s.calls[c].outcome.code == LockCommitUncertain
                && !s.calls[c].outcome.cleanupFailed ==>
                  s.group.gone && (HasCommitted(s'.group, c) <==> HasCommitted(s.group, c)))
  {
    RunIsSafe(s, events);
    var s' := Run(s, events);
    assert CallOk(s.cleanup, s.group, c, s.calls[c]) && CallOk(s'.cleanup, s'.group, c, s'.calls[c]);
    if s.group.gone {
      GoneGroupIsFrozen(s.group, s'.group, c);
    }
  }

  lemma GoneGroupIsFrozen(g: Group, g': Group, c: nat)
    requires CommandsOk(g) && CommandsOk(g') && GroupKept(g, g') && g.gone
    ensures HasCommitted(g', c) <==> HasCommitted(g, c)
  {
    if HasCommitted(g', c) {
      var id :| 0 <= id < |g'.commands| && g'.commands[id].owner == c && g'.commands[id].performed;
      assert CommandOk(g'.commands[id]);
      assert CommandKept(g.commands[id], g'.commands[id], true);
    }
    if HasCommitted(g, c) {
      var id :| 0 <= id < |g.commands| && g.commands[id].owner == c && g.commands[id].performed;
      assert CommandKept(g.commands[id], g'.commands[id], true);
    }
  }
}
