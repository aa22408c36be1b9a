/**
  The broker's protocol over the store (src/auth-broker.mjs): installs, refreshes, operator
  recoveries and key rotations, any number at a time, each a sequence of store calls.

  An actor is one running call of `installCredential`, `#refreshOnce`,
  `recoverRefreshReservation` or the store's `rotateEncryption`. UUIDs are fresh numbers.
 */
module Broker {
  import opened Options
  import opened Payloads
  import opened StoreErrors
  import R = Register

  const MAX_STORAGE_ONLY_REBASES: nat := 8

  // compareAndRead

  /** The local variables of one `#compareAndRead`. */
  datatype Attempt = Attempt(
    expected: nat,
    payload: Payload,
    commitId: nat,
    postDispatch: bool,
    secondTry: bool,
    mayHaveCommitted: bool,
    committed: Option<nat>)

  datatype SwapStep = SwapAgain(attempt: Attempt) | ReadBack(attempt: Attempt) | SwapThrows(code: BrokerCode)

  /** The body of the retry loop of `#compareAndRead` for one answer of the store. */
  function OnSwap(a: Attempt, outcome: R.Outcome): SwapStep {
    match outcome
    case Found(_) => SwapThrows(InvalidStoreSnapshot)
    case Stored(record, _) =>
      if record.generation == a.expected + 1 && record.commitId == a.commitId && record.payload == a.payload
      then ReadBack(a.(committed := Some(record.generation)))
      else SwapThrows(InvalidStoreSnapshot)
    case Failed(error) =>
      var may := a.mayHaveCommitted || MayHaveSucceeded(error);
      if error.code == GenerationConflict then
        if may then ReadBack(a.(mayHaveCommitted := may)) else SwapThrows(CasConflict)
      else if error.code == LockReleaseFailed || error.code == RecoveryRequiredCode then
        SwapThrows(RecoveryRequiredError)
      else if InvalidStoreCode(error.code) then SwapThrows(InvalidStoreSnapshot)
      else if !a.secondTry then SwapAgain(a.(mayHaveCommitted := may, secondTry := true))
      else if may then ReadBack(a.(mayHaveCommitted := may))
      else if a.postDispatch then SwapThrows(RefreshOutcomeUncertain)
      else SwapThrows(StoreUnavailable)
  }

  datatype ReadStep = Proven(record: R.Record) | ReadThrows(code: BrokerCode)

  /** The readback of `#compareAndRead`. */
  function OnReadBack(a: Attempt, outcome: R.Outcome): ReadStep {
    match outcome
    case Stored(_, _) => ReadThrows(InvalidStoreSnapshot)
    case Failed(error) =>
      if a.committed.Some? || a.mayHaveCommitted
      then ReadThrows(RefreshOutcomeUncertain)
      else ReadThrows(StoreReadError(error))
    case Found(canonical) =>
      if && a.committed.Some?
         && canonical.Some?
         && canonical.value.generation > a.committed.value
         && canonical.value.payload == a.payload
      then Proven(canonical.value)
      else if || canonical.None?
              || canonical.value.generation != (if a.committed.Some? then a.committed.value else a.expected + 1)
              || canonical.value.commitId != a.commitId
              || canonical.value.payload != a.payload
      then ReadThrows(if a.mayHaveCommitted then RefreshOutcomeUncertain else CasConflict)
      else Proven(canonical.value)
  }

  // Actors

  /** What a caller of the shared refresh last saw; a newer credential needs no refresh. */
  datatype Expectation = Expectation(accessToken: string, accountId: string, generation: nat)

  datatype Goal =
    | Install(credential: Credential)
    | Refresh(expectation: Option<Expectation>)
    | Recover(expected: nat, reservationId: nat, credential: Credential)
    | Rekey(expected: nat, commitId: nat)

  /** A refresh may commit its outcome and still throw: when it ends blocked, or was never sent. */
  datatype Result =
    | Succeeded(record: R.Record)
    | CommittedAndThrew(record: R.Record, code: BrokerCode)
    | Threw(code: BrokerCode)

  datatype Stage =
    | Opening
    | Swapping(attempt: Attempt)
    | Confirming(attempt: Attempt)
    | Rechecking(code: BrokerCode)
    | Reserved(record: R.Record)
    | Dispatched(record: R.Record)
    | Finished(result: Result)

  /**
    `before`, `current` and `desired` are the variables of `#reserveRefresh` and, once
    `reservation` is set, of `#commitAfterDispatch`; `attemptId` is the reservation's ID and
    `reply` what the adapter returned or threw.
   */
  datatype Actor = Actor(
    goal: Goal,
    stage: Stage,
    call: Option<nat>,
    before: Option<R.Record>,
    current: Option<R.Record>,
    rebases: nat,
    desired: Option<Payload>,
    attemptId: Option<nat>,
    reservation: Option<R.Record>,
    reply: Option<AdapterReply>)

  function Fresh(goal: Goal): Actor {
    Actor(goal, Opening, None, None, None, 0, None, None, None, None)
  }

  /** The store call an actor is about to make. */
  function Wanted(a: Actor): Option<R.Request> {
    match a.stage
    case Opening => if a.goal.Rekey? then Some(R.Rotate(a.goal.expected, a.goal.commitId)) else Some(R.Read)
    case Swapping(attempt) => Some(R.Swap(attempt.expected, attempt.commitId, attempt.payload))
    case Confirming(_) => Some(R.Read)
    case Rechecking(_) => Some(R.Read)
    case _ => None
  }

  function End(a: Actor, result: Result): Actor {
    a.(stage := Finished(result))
  }

  function Try(a: Actor, expected: nat, payload: Payload, commitId: nat): Actor {
    a.(desired := Some(payload),
       stage := Swapping(Attempt(expected, payload, commitId, a.reservation.Some?, false, false, None)))
  }

  function BlockedCode(p: Payload): BrokerCode {
    if p.Blocked? && p.status == ReauthRequired then ReauthRequiredCode else RecoveryRequiredError
  }

  /** The first read of every operation. */
  function Open(a: Actor, outcome: R.Outcome, attemptId: nat, commitId: nat): Actor {
    if outcome.Failed? then End(a, Threw(StoreReadError(outcome.error)))
    else if a.goal.Rekey? || outcome.Stored? then
      End(a, if outcome.Stored? then Succeeded(outcome.record) else Threw(InvalidStoreSnapshot))
    else
      var seen := outcome.current;
      match a.goal
      case Install(credential) =>
        if seen.Some? && seen.value.payload.Blocked? then End(a, Threw(BlockedCode(seen.value.payload)))
        else Try(a.(before := seen, current := seen), if seen.None? then 0 else seen.value.generation,
                 Ready(credential), commitId)
      case Refresh(expectation) =>
        if seen.None? then End(a, Threw(Uninitialized))
        else if seen.value.payload.Blocked? then End(a, Threw(BlockedCode(seen.value.payload)))
        else OpenRefresh(a, seen.value, attemptId, commitId)
      case Recover(expected, reservationId, credential) =>
        if || seen.None?
           || seen.value.generation != expected
           || !seen.value.payload.Blocked?
           || seen.value.payload.fence.reservationId != reservationId
        then End(a, Threw(InvalidRequest))
        else if !Replaces(credential, seen.value.payload.fence) then End(a, Threw(InvalidCredential))
        else Try(a.(before := seen, current := seen), expected, Ready(credential), commitId)
  }

  /** `#refreshOnce` up to its first reservation attempt. */
  function OpenRefresh(a: Actor, seen: R.Record, attemptId: nat, commitId: nat): Actor
    requires a.goal.Refresh? && seen.payload.Ready?
  {
    var source := seen.payload.credential;
    var e := a.goal.expectation;
    if e.Some? && source.accountId != e.value.accountId then End(a, Threw(InvalidRequest))
    else if e.Some? && seen.generation == e.value.generation && source.accessToken != e.value.accessToken then
      End(a, Threw(InvalidStoreSnapshot))
    else if e.Some? && source.accessToken != e.value.accessToken then End(a, Succeeded(seen))
    else Try(a.(before := Some(seen), current := Some(seen), attemptId := Some(attemptId)),
             seen.generation, Reservation(source, attemptId), commitId)
  }

  /** A finished `#compareAndRead` that threw. */
  function AfterThrow(a: Actor, code: BrokerCode): Actor {
    if || (a.goal.Refresh? && code in {CasConflict, RefreshOutcomeUncertain})
       || (a.goal.Recover? && code == RefreshOutcomeUncertain)
    then a.(stage := Rechecking(code))
    else End(a, Threw(code))
  }

  /** A finished `#compareAndRead` that returned. */
  function AfterProof(a: Actor, record: R.Record): Actor {
    if a.goal.Refresh? && a.reservation.None? then a.(stage := Reserved(record))
    else if a.goal.Refresh? then End(a, Concluded(a.before, record))
    else End(a, Succeeded(record))
  }

  /** What `#refreshOnce` and `#transitionBlocked` do once the outcome is committed. */
  function Concluded(before: Option<R.Record>, record: R.Record): Result {
    if record.payload.Blocked? then CommittedAndThrew(record, BlockedCode(record.payload))
    else if before.Some? && record.payload == before.value.payload then CommittedAndThrew(record, RefreshFailed)
    else Succeeded(record)
  }

  datatype RereadStep = Accept(record: R.Record) | Rebase(record: R.Record) | Stop(code: BrokerCode)

  /** The catch block of `#reserveRefresh`. */
  function OnReserveReread(before: Payload, desired: Payload, current: nat, code: BrokerCode, outcome: R.Outcome): RereadStep {
    match outcome
    case Failed(error) => Stop(StoreReadError(error))
    case Stored(_, _) => Stop(code)
    case Found(None) => Stop(code)
    case Found(Some(latest)) =>
      if latest.payload == desired && latest.generation > current then Accept(latest)
      else if latest.payload != before then Stop(code)
      else Rebase(latest)
  }

  /** The catch block of `#commitAfterDispatch`. */
  function OnCommitReread(before: Payload, desired: Payload, code: BrokerCode, outcome: R.Outcome): RereadStep {
    match outcome
    case Failed(_) => Stop(RefreshOutcomeUncertain)
    case Stored(_, _) => Stop(code)
    case Found(None) => Stop(code)
    case Found(Some(latest)) =>
      if latest.payload == desired then Accept(latest)
      else if latest.payload != before then Stop(code)
      else Rebase(latest)
  }

  /** The catch block of `#recoverReservationCommit`, which never tries again. */
  function OnRecoverReread(desired: Payload, before: nat, code: BrokerCode, outcome: R.Outcome): RereadStep {
    match outcome
    case Found(Some(latest)) =>
      if latest.payload == desired && latest.generation > before then Accept(latest) else Stop(code)
    case _ => Stop(code)
  }

  /** An actor's catch block, with the bound on rebases. */
  function Recheck(a: Actor, code: BrokerCode, outcome: R.Outcome, commitId: nat): Actor {
    if a.desired.None? || a.current.None? || a.before.None? then End(a, Threw(code))
    else
      var desired := a.desired.value;
      var step :=
        if a.goal.Recover? then OnRecoverReread(desired, a.before.value.generation, code, outcome)
        else if a.reservation.Some? then OnCommitReread(a.reservation.value.payload, desired, code, outcome)
        else OnReserveReread(a.before.value.payload, desired, a.current.value.generation, code, outcome);
      match step
      case Accept(latest) => AfterProof(a, latest)
      case Stop(thrown) => End(a, Threw(thrown))
      case Rebase(latest) =>
        if a.rebases + 1 >= MAX_STORAGE_ONLY_REBASES
        then End(a, Threw(if a.reservation.Some? then RefreshOutcomeUncertain else CasConflict))
        else Try(a.(current := Some(latest), rebases := a.rebases + 1), latest.generation, desired, commitId)
  }

  /** What an actor does with the store's answer; the two numbers are unused UUIDs. */
  function Resume(a: Actor, outcome: R.Outcome, attemptId: nat, commitId: nat): Actor {
    match a.stage
    case Opening => Open(a, outcome, attemptId, commitId)
    case Swapping(attempt) =>
      (match OnSwap(attempt, outcome)
       case SwapAgain(next) => a.(stage := Swapping(next))
       case ReadBack(next) => a.(stage := Confirming(next))
       case SwapThrows(code) => AfterThrow(a, code))
    case Confirming(attempt) =>
      (match OnReadBack(attempt, outcome)
       case Proven(record) => AfterProof(a, record)
       case ReadThrows(code) => AfterThrow(a, code))
    case Rechecking(code) => Recheck(a, code, outcome, commitId)
    case _ => a
  }

  // The world of actors

  /** Why a compare-and-swap was requested; recorded under its commit ID. */
  datatype Purpose =
    | Installing
    | Reserving(attemptId: nat, source: Credential)
    | Settling(attemptId: nat, source: Credential, reply: AdapterReply)
    | Recovering(reservationId: nat)

  datatype Intent = Intent(expected: nat, before: Option<Payload>, after: Payload, purpose: Purpose)

  /** A call of the refresh adapter; `index` is where its reservation stands in the history. */
  datatype Dispatch = Dispatch(attemptId: nat, credential: Credential, index: nat)

  /**
    `intents`, `attempts`, `dispatches` and `replies` only record history: why each
    compare-and-swap was requested, the source of each reservation, each call of the adapter and
    what the adapter answered to the call for a reservation.
   */
  datatype World = World(
    actors: map<nat, Actor>,
    intents: map<nat, Intent>,
    attempts: map<nat, Credential>,
    dispatches: seq<Dispatch>,
    replies: map<nat, AdapterReply>)

  ghost predicate Init(w: World) {
    w == World(map[], map[], map[], [], map[])
  }

  function SourceOf(a: Actor): Credential
    requires a.before.Some? && a.before.value.payload.Ready?
  {
    a.before.value.payload.credential
  }

  function PurposeOf(a: Actor): Purpose {
    match a.goal
    case Install(_) => Installing
    case Recover(_, reservationId, _) => Recovering(reservationId)
    case Rekey(_, _) => Installing
    case Refresh(_) =>
      if a.attemptId.None? || a.before.None? || !a.before.value.payload.Ready? then Installing
      else if a.reservation.None? || a.reply.None? then Reserving(a.attemptId.value, SourceOf(a))
      else Settling(a.attemptId.value, SourceOf(a), a.reply.value)
  }

  function PayloadOf(record: Option<R.Record>): Option<Payload> {
    if record.None? then None else Some(record.value.payload)
  }

  /** Stores the actor and records what is new: an attempt's intent, a reservation's source, a reply. */
  function Update(w: World, i: nat, a: Actor): World {
    World(
      w.actors[i := a],
      if a.stage.Swapping? && a.stage.attempt.commitId !in w.intents
      then w.intents[a.stage.attempt.commitId :=
                     Intent(a.stage.attempt.expected, PayloadOf(a.current), a.stage.attempt.payload, PurposeOf(a))]
      else w.intents,
      if a.attemptId.Some? && a.attemptId.value !in w.attempts && a.before.Some? && a.before.value.payload.Ready?
      then w.attempts[a.attemptId.value := SourceOf(a)]
      else w.attempts,
      w.dispatches,
      if a.attemptId.Some? && a.reply.Some? && a.attemptId.value !in w.replies
      then w.replies[a.attemptId.value := a.reply.value]
      else w.replies)
  }

  ghost predicate Spawn(w: World, w': World, i: nat, goal: Goal) {
    && i !in w.actors
    && w' == w.(actors := w.actors[i := Fresh(goal)])
  }

  /** An actor between two store calls dies with its process. */
  ghost predicate Vanish(w: World, w': World, i: nat) {
    && i in w.actors
    && w.actors[i].call.None?
    && w' == w.(actors := w.actors - {i})
  }

  /** The broker calls the adapter. */
  ghost predicate CallAdapter(w: World, w': World, i: nat) {
    && i in w.actors
    && var a := w.actors[i];
    && a.stage.Reserved?
    && a.attemptId.Some?
    && a.before.Some?
    && a.before.value.payload.Ready?
    && a.stage.record.generation > 0
    && w' == w.(actors := w.actors[i := a.(stage := Dispatched(a.stage.record))],
                dispatches := w.dispatches
                              + [Dispatch(a.attemptId.value, SourceOf(a), a.stage.record.generation - 1)])
  }

  /** The adapter returns or throws; the broker starts to commit the outcome. */
  ghost predicate AdapterReplies(w: World, w': World, i: nat, reply: AdapterReply, commitId: nat) {
    && i in w.actors
    && commitId !in w.intents
    && var a := w.actors[i];
    && a.stage.Dispatched?
    && a.before.Some?
    && a.before.value.payload.Ready?
    && a.stage.record.payload.Blocked?
    && var record := a.stage.record;
    && w' == Update(w, i, Try(a.(reservation := Some(record), reply := Some(reply), current := Some(record), rebases := 0),
                              record.generation, Settle(SourceOf(a), record.payload.fence, reply), commitId))
  }

  ghost predicate LocalStep(w: World, w': World) {
    || (exists i, goal :: Spawn(w, w', i, goal))
    || (exists i :: Vanish(w, w', i))
    || (exists i :: CallAdapter(w, w', i))
    || (exists i, reply, commitId :: AdapterReplies(w, w', i, reply, commitId))
  }

  ghost predicate Ask(w: World, w': World, i: nat, c: nat, request: R.Request) {
    && i in w.actors
    && w.actors[i].call.None?
    && Wanted(w.actors[i]) == Some(request)
    && w' == w.(actors := w.actors[i := w.actors[i].(call := Some(c))])
  }

  ghost predicate Answer(w: World, w': World, i: nat, c: nat, outcome: R.Outcome, attemptId: nat, commitId: nat) {
    && i in w.actors
    && w.actors[i].call == Some(c)
    && attemptId !in w.attempts
    && commitId !in w.intents
    && w' == Update(w, i, Resume(w.actors[i].(call := None), outcome, attemptId, commitId))
  }

  ghost predicate Die(w: World, w': World, i: nat, c: nat) {
    && i in w.actors
    && w.actors[i].call == Some(c)
    && w' == w.(actors := w.actors - {i})
  }

  /** How the world moves with an event of the store; a store that moves alone leaves it as it is. */
  ghost predicate Step(w: World, w': World, event: R.Event) {
    match event
    case Internal => w' == w
    case Begin(c, request) => exists i :: Ask(w, w', i, c, request)
    case Respond(c, outcome) => exists i, attemptId, commitId :: Answer(w, w', i, c, outcome, attemptId, commitId)
    case Detach(c) => exists i :: Die(w, w', i, c)
    case MachineCrash => w' == w.(actors := map[])
  }
}
