/**
  What every state of the broker's protocol satisfies, for any interleaving of installs,
  refreshes, recoveries, rotations, process deaths and machine crashes.
 */
module BrokerSafety {
  import opened Options
  import opened Payloads
  import opened StoreErrors
  import opened Broker
  import R = Register

  // Legal changes of the canonical payload

  /** What a refresh may put in place of its own reservation after this reply of the adapter. */
  predicate LegalOutcome(source: Credential, attemptId: nat, reply: AdapterReply, after: Payload) {
    if reply.NotDispatched? then after == Ready(source)
    else if Acceptable(source, reply) then after == Ready(reply.credential)
    else && after.Blocked?
         && after.fence == FenceOf(source, attemptId)
         && !IsReservation(after)
         && (after.status == ReauthRequired <==> reply.NeedsLogin?)
  }

  predicate Legal(purpose: Purpose, before: Option<Payload>, after: Payload) {
    match purpose
    case Installing => after.Ready? && (before.Some? ==> before.value.Ready?)
    case Reserving(attemptId, source) => before == Some(Ready(source)) && after == Reservation(source, attemptId)
    case Settling(attemptId, source, reply) =>
      before == Some(Reservation(source, attemptId)) && LegalOutcome(source, attemptId, reply, after)
    case Recovering(reservationId) =>
      && before.Some?
      && before.value.Blocked?
      && before.value.fence.reservationId == reservationId
      && after.Ready?
      && Replaces(after.credential, before.value.fence)
  }

  lemma SettleIsLegal(source: Credential, attemptId: nat, reply: AdapterReply)
    ensures LegalOutcome(source, attemptId, reply, Settle(source, FenceOf(source, attemptId), reply))
  {
    SettleIsExact(source, FenceOf(source, attemptId), reply);
    hide Settle;
  }

  /** A failure of the store after which the same request may be sent once more. */
  predicate Transient(code: StoreCode) {
    && code != GenerationConflict
    && code != LockReleaseFailed
    && code != RecoveryRequiredCode
    && !InvalidStoreCode(code)
  }

  /**
    A compare-and-swap is repeated once, unchanged, and only after a passing failure. A clean
    conflict or an unavailable store is reported only if no failure so far can have committed it;
    after a dispatch the latter is reported as a doubt.
   */
  lemma SwapIsExact(a: Attempt, outcome: R.Outcome)
    ensures var step := OnSwap(a, outcome);
            var may := a.mayHaveCommitted || (outcome.Failed? && MayHaveSucceeded(outcome.error));
            var last := outcome.Failed? && Transient(outcome.error.code) && a.secondTry;
            var conflict := outcome.Failed? && outcome.error.code == GenerationConflict;
            && (step.SwapAgain? <==> outcome.Failed? && Transient(outcome.error.code) && !a.secondTry)
            && (step.SwapAgain? ==> step.attempt == a.(mayHaveCommitted := may, secondTry := true))
            && (step == SwapThrows(CasConflict) <==> conflict && !may)
            && (step == SwapThrows(StoreUnavailable) <==> last && !may && !a.postDispatch)
            && (step == SwapThrows(RefreshOutcomeUncertain) <==> last && !may && a.postDispatch)
            && (outcome.Failed? ==> (step.ReadBack? <==> (last || conflict) && may))
            && (outcome.Failed? && step.ReadBack? ==> step.attempt == a.(mayHaveCommitted := true))
            && (outcome.Stored? ==>
                  (step.ReadBack? <==> && outcome.record.generation == a.expected + 1
                                       && outcome.record.commitId == a.commitId
                                       && outcome.record.payload == a.payload))
  {
  }

  /**
    The readback proves exactly the record of this commit, or a later one that carries its payload
    on; what it does not prove is a doubt as soon as some failure can have committed.
   */
  lemma ReadBackIsExact(a: Attempt, outcome: R.Outcome)
    ensures var step := OnReadBack(a, outcome);
            var place := if a.committed.Some? then a.committed.value else a.expected + 1;
            var proven := && outcome.Found? && outcome.current.Some?
                          && outcome.current.value.payload == a.payload
                          && (|| (a.committed.Some? && outcome.current.value.generation > place)
                              || (outcome.current.value.generation == place
                                  && outcome.current.value.commitId == a.commitId));
            && (step.Proven? <==> proven)
            && (proven ==> step.record == outcome.current.value)
            && (step == ReadThrows(CasConflict) <==> outcome.Found? && !proven && !a.mayHaveCommitted)
            && (outcome.Found? && !proven && a.mayHaveCommitted ==> step == ReadThrows(RefreshOutcomeUncertain))
            && (outcome.Failed? && (a.committed.Some? || a.mayHaveCommitted) ==>
                  step == ReadThrows(RefreshOutcomeUncertain))
  {
  }

  /**
    After a conflict or a doubt the canonical record decides: the desired payload is accepted,
    when it is new; the payload before it is tried on again, except by a recovery; anything else
    ends the operation.
   */
  lemma RereadsAreExact(before: Payload, desired: Payload, current: nat, code: BrokerCode, outcome: R.Outcome)
    ensures var reserve := OnReserveReread(before, desired, current, code, outcome);
            var commit := OnCommitReread(before, desired, code, outcome);
            var recover := OnRecoverReread(desired, current, code, outcome);
            if outcome.Found? && outcome.current.Some? then
              var latest := outcome.current.value;
              var newer := latest.payload == desired && latest.generation > current;
              && (reserve == Accept(latest) <==> newer)
              && (reserve == Rebase(latest) <==> !newer && latest.payload == before)
              && (commit == Accept(latest) <==> latest.payload == desired)
              && (commit == Rebase(latest) <==> latest.payload != desired && latest.payload == before)
              && (recover == Accept(latest) <==> newer)
              && (recover == Stop(code) <==> !newer)
            else
              && reserve.Stop?
              && commit == Stop(if outcome.Failed? then RefreshOutcomeUncertain else code)
              && recover == Stop(code)
  {
  }

  /** Who looks again after an error: a refresh after a conflict or a doubt, a recovery after a doubt. */
  lemma LooksAgainExactly(a: Actor, code: BrokerCode)
    ensures var b := AfterThrow(a, code);
            var again := if a.goal.Refresh? then code in {CasConflict, RefreshOutcomeUncertain}
                         else a.goal.Recover? && code == RefreshOutcomeUncertain;
            b == a.(stage := if again then Rechecking(code) else Finished(Threw(code)))
  {
  }

  /** An actor that may try again does so over the latest record, at most seven times. */
  lemma RebasesAreBounded(a: Actor, code: BrokerCode, latest: R.Record, commitId: nat)
    requires a.goal.Refresh? && a.desired.Some? && a.current.Some? && a.before.Some?
    requires latest.payload != a.desired.value
    requires latest.payload == if a.reservation.Some? then a.reservation.value.payload else a.before.value.payload
    ensures var b := Recheck(a, code, R.Found(Some(latest)), commitId);
            if a.rebases <= 6 then
              && b.stage.Swapping?
              && b.stage.attempt
                 == Attempt(latest.generation, a.desired.value, commitId, a.reservation.Some?, false, false, None)
              && b.rebases == a.rebases + 1
              && b.current == Some(latest)
            else
              b.stage == Finished(Threw(if a.reservation.Some? then RefreshOutcomeUncertain else CasConflict))
  {
  }

  /**
    What a refresh does with the ready record that it sees: a token that its caller has seen too,
    or no expectation, leads to a reservation over this record; a newer token of the same account
    is returned as it is; another account, or another token at the same generation, is an error.
   */
  lemma OpenRefreshIsExact(goal: Goal, seen: R.Record, attemptId: nat, commitId: nat)
    requires goal.Refresh? && seen.payload.Ready?
    ensures var stage := Open(Fresh(goal), R.Found(Some(seen)), attemptId, commitId).stage;
            var e, source := goal.expectation, seen.payload.credential;
            && (stage.Swapping? <==>
                  e.None? || (source.accountId == e.value.accountId && source.accessToken == e.value.accessToken))
            && (stage.Swapping? ==>
                  && stage.attempt.expected == seen.generation
                  && stage.attempt.payload == Reservation(source, attemptId)
                  && stage.attempt.commitId == commitId)
            && (stage == Finished(Succeeded(seen)) <==> Newer(e, seen))
            && (stage == Finished(Threw(InvalidRequest)) <==> e.Some? && source.accountId != e.value.accountId)
            && (stage == Finished(Threw(InvalidStoreSnapshot)) <==>
                  && e.Some?
                  && source.accountId == e.value.accountId
                  && source.accessToken != e.value.accessToken
                  && seen.generation == e.value.generation)
  {
  }

  /** A recovery is tried exactly for the blocked record, and the reservation in it, that the operator names. */
  lemma OpenRecoveryIsExact(goal: Goal, current: Option<R.Record>, attemptId: nat, commitId: nat)
    requires goal.Recover?
    ensures var stage := Open(Fresh(goal), R.Found(current), attemptId, commitId).stage;
            var named := && current.Some?
                         && current.value.generation == goal.expected
                         && current.value.payload.Blocked?
                         && current.value.payload.fence.reservationId == goal.reservationId;
            && (stage.Swapping? <==> named && Replaces(goal.credential, current.value.payload.fence))
            && (stage.Swapping? ==>
                  && stage.attempt.expected == goal.expected
                  && stage.attempt.payload == Ready(goal.credential)
                  && stage.attempt.commitId == commitId)
            && (stage == Finished(Threw(InvalidRequest)) <==> !named)
            && (stage == Finished(Threw(InvalidCredential)) <==>
                  named && !Replaces(goal.credential, current.value.payload.fence))
  {
  }

  /** What the caller is told of a committed outcome: success only with an acceptable candidate. */
  lemma OutcomeIsTold(source: Credential, attemptId: nat, reply: AdapterReply, before: R.Record, record: R.Record)
    requires before.payload == Ready(source) && LegalOutcome(source, attemptId, reply, record.payload)
    ensures Concluded(Some(before), record) == Succeeded(record) <==> Acceptable(source, reply)
    ensures Concluded(Some(before), record) == CommittedAndThrew(record, RefreshFailed) <==> reply.NotDispatched?
    ensures Concluded(Some(before), record) == CommittedAndThrew(record, ReauthRequiredCode) <==> reply.NeedsLogin?
    ensures !Acceptable(source, reply) && !reply.NotDispatched? && !reply.NeedsLogin? ==>
              Concluded(Some(before), record) == CommittedAndThrew(record, RecoveryRequiredError)
  {
  }

  // Invariant

  ghost predicate Known(reg: R.State, record: Option<R.Record>) {
    record.Some? ==> R.Kept(reg, record.value)
  }

  ghost predicate AtGeneration(reg: R.State, generation: nat, payload: Option<Payload>) {
    if generation == 0 then payload.None?
    else generation <= reg.durable <= |reg.log| && payload == Some(reg.log[generation - 1].payload)
  }

  ghost predicate PurposeOk(w: World, purpose: Purpose) {
    && (purpose.Reserving? || purpose.Settling? ==>
          purpose.attemptId in w.attempts && w.attempts[purpose.attemptId] == purpose.source)
    && (purpose.Settling? ==>
          purpose.attemptId in w.replies && w.replies[purpose.attemptId] == purpose.reply)
  }

  ghost predicate IntentOk(reg: R.State, w: World, intent: Intent) {
    && Legal(intent.purpose, intent.before, intent.after)
    && PurposeOk(w, intent.purpose)
    && AtGeneration(reg, intent.expected, intent.before)
  }

  ghost predicate RequestOk(w: World, request: R.Request) {
    request.Swap? ==>
      && request.commitId in w.intents
      && w.intents[request.commitId].expected == request.expected
      && w.intents[request.commitId].after == request.payload
  }

  /** Each record continues its predecessor: a rotation copies it, a swap follows its intent. */
  ghost predicate RecordOk(log: seq<R.Record>, w: World, m: nat)
    requires m < |log|
  {
    if log[m].operation == R.RotateEncryption then m > 0 && log[m].payload == log[m - 1].payload
    else && log[m].commitId in w.intents
         && w.intents[log[m].commitId].expected == m
         && w.intents[log[m].commitId].after == log[m].payload
  }

  ghost predicate DispatchOk(reg: R.State, w: World, d: Dispatch) {
    && d.index < reg.durable <= |reg.log|
    && reg.log[d.index].payload == Reservation(d.credential, d.attemptId)
    && d.attemptId in w.attempts
    && w.attempts[d.attemptId] == d.credential
  }

  ghost predicate CallOk(reg: R.State, a: Actor) {
    a.call.Some? ==>
      && a.call.value in reg.calls
      && reg.calls[a.call.value].attached
      && Wanted(a) == Some(reg.calls[a.call.value].request)
  }

  ghost predicate SourceOk(w: World, a: Actor) {
    a.attemptId.Some? ==>
      && a.goal.Refresh?
      && a.before.Some?
      && a.before.value.payload.Ready?
      && a.attemptId.value in w.attempts
      && w.attempts[a.attemptId.value] == SourceOf(a)
      && (a.reply.Some? ==> a.attemptId.value in w.replies && w.replies[a.attemptId.value] == a.reply.value)
  }

  /** The variables of the loop that an actor is in. */
  ghost predicate LoopOk(a: Actor) {
    && a.desired.Some?
    && (a.goal.Refresh? <==> a.attemptId.Some?)
    && if !a.goal.Refresh? then a.reservation.None? && a.current == a.before
       else && a.before.Some?
            && a.before.value.payload.Ready?
            && a.current.Some?
            && if a.reservation.None?
               then && a.desired.value == Reservation(SourceOf(a), a.attemptId.value)
                    && a.current.value.payload == a.before.value.payload
               else && a.reply.Some?
                    && a.reservation.value.payload == Reservation(SourceOf(a), a.attemptId.value)
                    && a.current.value.payload == a.reservation.value.payload
                    && LegalOutcome(SourceOf(a), a.attemptId.value, a.reply.value, a.desired.value)
  }

  ghost predicate AttemptOk(w: World, a: Actor, attempt: Attempt) {
    && a.desired == Some(attempt.payload)
    && attempt.postDispatch == a.reservation.Some?
    && attempt.commitId in w.intents
    && w.intents[attempt.commitId] == Intent(attempt.expected, PayloadOf(a.current), attempt.payload, PurposeOf(a))
  }

  ghost predicate HoldsReservation(reg: R.State, a: Actor, record: R.Record) {
    && a.attemptId.Some?
    && a.before.Some?
    && a.before.value.payload.Ready?
    && a.reservation.None?
    && R.Kept(reg, record)
    && record.payload == Reservation(SourceOf(a), a.attemptId.value)
  }

  ghost predicate StageOk(reg: R.State, w: World, a: Actor) {
    match a.stage
    case Opening => a == Fresh(a.goal).(call := a.call)
    case Swapping(attempt) => LoopOk(a) && AttemptOk(w, a, attempt)
    case Confirming(attempt) =>
      LoopOk(a) && AttemptOk(w, a, attempt) && (attempt.committed.Some? || attempt.mayHaveCommitted)
    case Rechecking(code) => LoopOk(a) && (a.goal.Refresh? || a.goal.Recover?) && !Retryable(code)
    case Reserved(record) => HoldsReservation(reg, a, record)
    case Dispatched(record) => HoldsReservation(reg, a, record)
    case Finished(result) =>
      && (!result.Threw? ==>
            R.Kept(reg, result.record) && (a.desired.Some? ==> result.record.payload == a.desired.value))
      && (result.Succeeded? && a.goal.Refresh? ==>
            if a.reservation.Some? then Refreshed(a, result.record.payload)
            else Newer(a.goal.expectation, result.record))
      && (!result.Succeeded? && Retryable(result.code) && a.reservation.Some? ==>
            result.CommittedAndThrew? && a.reply == Some(Payloads.NotDispatched))
  }

  /** What a refresh may return without a dispatch: another token than its caller's, of the same account. */
  predicate Newer(expectation: Option<Expectation>, record: R.Record) {
    && expectation.Some?
    && record.payload.Ready?
    && record.payload.credential.accountId == expectation.value.accountId
    && record.payload.credential.accessToken != expectation.value.accessToken
    && record.generation != expectation.value.generation
  }

  /** A refresh that succeeds after its dispatch brings the acceptable candidate that the adapter returned. */
  ghost predicate Refreshed(a: Actor, payload: Payload) {
    && a.before.Some? && a.before.value.payload.Ready?
    && a.reply.Some?
    && Acceptable(SourceOf(a), a.reply.value)
    && payload == Ready(a.reply.value.credential)
  }

  ghost predicate NotCalled(w: World, attemptId: nat) {
    forall k :: 0 <= k < |w.dispatches| ==> w.dispatches[k].attemptId != attemptId
  }

  ghost predicate ActorOk(reg: R.State, w: World, a: Actor) {
    && CallOk(reg, a)
    && Known(reg, a.before) && Known(reg, a.current) && Known(reg, a.reservation)
    && SourceOk(w, a)
    && StageOk(reg, w, a)
    && (a.reply.Some? ==> a.reservation.Some? && a.attemptId.Some?)
    && (a.attemptId.Some? && a.reservation.None? ==> AwaitsReply(w, a.attemptId.value, a.stage.Dispatched?))
  }

  /** The adapter has been called for the reservation, as this says, and has not answered. */
  ghost predicate AwaitsReply(w: World, attemptId: nat, called: bool) {
    && (called <==> !NotCalled(w, attemptId))
    && attemptId !in w.replies
  }

  ghost predicate ActorsDistinct(w: World) {
    forall i, j | i in w.actors && j in w.actors && i != j ::
      && (w.actors[i].call.Some? ==> w.actors[i].call != w.actors[j].call)
      && (w.actors[i].attemptId.Some? ==> w.actors[i].attemptId != w.actors[j].attemptId)
  }

  ghost predicate DispatchesDistinct(w: World) {
    forall k, l :: 0 <= k < l < |w.dispatches| ==> w.dispatches[k].attemptId != w.dispatches[l].attemptId
  }

  /** What the history of the register and of the world say, without the actors. */
  ghost predicate HistoryOk(reg: R.State, w: World) {
    && R.Inv(reg)
    && (forall id :: id in w.intents ==> IntentOk(reg, w, w.intents[id]))
    && (forall c :: c in reg.calls ==> RequestOk(w, reg.calls[c].request))
    && (forall m :: 0 <= m < |reg.log| ==> RecordOk(reg.log, w, m))
    && (forall k :: 0 <= k < |w.dispatches| ==> DispatchOk(reg, w, w.dispatches[k]))
    && DispatchesDistinct(w)
    && (forall id :: id in w.replies ==> !NotCalled(w, id))
  }

  ghost predicate Inv(reg: R.State, w: World) {
    && HistoryOk(reg, w)
    && ActorsDistinct(w)
    && forall i :: i in w.actors ==> ActorOk(reg, w, w.actors[i])
  }

  lemma InitInv(reg: R.State, w: World)
    requires R.Init(reg) && Broker.Init(w)
    ensures Inv(reg, w)
  {
  }

  // The register moves

  /** Facts about durable history survive every step of the register. */
  lemma DurableFactsPersist(reg: R.State, reg': R.State, event: R.Event, w: World)
    requires R.Inv(reg) && R.Step(reg, reg', event)
    ensures forall r: R.Record :: R.Kept(reg, r) ==> R.Kept(reg', r)
    ensures forall intent :: IntentOk(reg, w, intent) ==> IntentOk(reg', w, intent)
    ensures forall d :: DispatchOk(reg, w, d) ==> DispatchOk(reg', w, d)
  {
    R.DurableHistoryIsKept(reg, reg', event);
    assert forall k :: 0 <= k < reg.durable ==> reg'.log[k] == reg'.log[..reg.durable][k] == reg.log[k];
  }

  lemma RecordsPersist(reg: R.State, reg': R.State, event: R.Event, w: World)
    requires HistoryOk(reg, w) && R.Step(reg, reg', event)
    ensures forall m :: 0 <= m < |reg'.log| ==> RecordOk(reg'.log, w, m)
  {
    if event.Internal? && reg'.log != reg.log {
      var c :| R.Apply(reg, reg', c);
      assert RequestOk(w, reg.calls[c].request);
      forall m | 0 <= m < |reg'.log|
        ensures RecordOk(reg'.log, w, m)
      {
        if m < |reg.log| {
          assert RecordOk(reg.log, w, m);
        }
      }
    } else {
      forall m | 0 <= m < |reg'.log|
        ensures RecordOk(reg'.log, w, m)
      {
        assert RecordOk(reg.log, w, m);
      }
    }
  }

  lemma HistoryPersists(reg: R.State, reg': R.State, event: R.Event, w: World)
    requires HistoryOk(reg, w) && R.Step(reg, reg', event)
    requires event.Begin? ==> RequestOk(w, event.request)
    ensures HistoryOk(reg', w)
  {
    hide R.Inv, IntentOk, DispatchOk, RecordOk;
    R.StepInv(reg, reg', event);
    DurableFactsPersist(reg, reg', event, w);
    RecordsPersist(reg, reg', event, w);
    forall c | c in reg'.calls
      ensures RequestOk(w, reg'.calls[c].request)
    {
      assert c in reg.calls ==> RequestOk(w, reg.calls[c].request) && reg'.calls[c].request == reg.calls[c].request;
    }
  }

  /** Everything an actor believes survives, if its call is still there. */
  lemma ActorPersists(reg: R.State, reg': R.State, event: R.Event, w: World, a: Actor)
    requires R.Inv(reg) && R.Step(reg, reg', event) && ActorOk(reg, w, a)
    requires CallOk(reg', a)
    ensures ActorOk(reg', w, a)
  {
    DurableFactsPersist(reg, reg', event, w);
  }

  lemma InternalKeepsInv(reg: R.State, reg': R.State, w: World)
    requires Inv(reg, w) && R.Step(reg, reg', R.Internal)
    ensures Inv(reg', w)
  {
    assert R.Inv(reg);
    hide HistoryOk, R.Inv, StageOk, SourceOk, Known, NotCalled;
    HistoryPersists(reg, reg', R.Internal, w);
    forall i | i in w.actors
      ensures ActorOk(reg', w, w.actors[i])
    {
      ActorPersists(reg, reg', R.Internal, w, w.actors[i]);
    }
  }

  // Actors come, ask, die

  lemma AskKeepsInv(reg: R.State, reg': R.State, w: World, w': World, i: nat, c: nat, request: R.Request)
    requires Inv(reg, w) && R.Step(reg, reg', R.Begin(c, request)) && Ask(w, w', i, c, request)
    ensures Inv(reg', w')
  {
    assert R.Inv(reg);
    assert ActorOk(reg, w, w.actors[i]);
    AskedIsRecorded(reg, w, w.actors[i]);
    hide HistoryOk, ActorOk, R.Inv, RequestOk;
    HistoryPersists(reg, reg', R.Begin(c, request), w);
    SameHistory(reg', w, w');
    forall j | j in w'.actors
      ensures ActorOk(reg', w', w'.actors[j])
    {
      BeginKeepsActor(reg, reg', w, w', c, request, w.actors[j], w'.actors[j].call);
    }
    AskKeepsDistinct(reg, w, w', i, c, request);
  }

  lemma AskedIsRecorded(reg: R.State, w: World, a: Actor)
    requires ActorOk(reg, w, a) && Wanted(a).Some?
    ensures RequestOk(w, Wanted(a).value)
  {
  }

  lemma BeginKeepsActor(reg: R.State, reg': R.State, w: World, w': World, c: nat, request: R.Request,
                        a: Actor, call: Option<nat>)
    requires R.Inv(reg) && R.Step(reg, reg', R.Begin(c, request)) && ActorOk(reg, w, a)
    requires call == a.call || (call == Some(c) && Wanted(a) == Some(request))
    requires w'.intents == w.intents && w'.attempts == w.attempts
    requires w'.dispatches == w.dispatches && w'.replies == w.replies
    ensures ActorOk(reg', w', a.(call := call))
  {
    hide R.Inv, StageOk, SourceOk, Known, NotCalled;
    ActorPersists(reg, reg', R.Begin(c, request), w, a);
    CallChange(reg', w, w', a, call);
  }

  lemma AskKeepsDistinct(reg: R.State, w: World, w': World, i: nat, c: nat, request: R.Request)
    requires Inv(reg, w) && Ask(w, w', i, c, request) && c !in reg.calls
    ensures ActorsDistinct(w')
  {
    forall j | j in w.actors
      ensures w.actors[j].call != Some(c)
    {
      assert ActorOk(reg, w, w.actors[j]);
    }
  }

  lemma CallChange(reg: R.State, w: World, w': World, a: Actor, call: Option<nat>)
    requires ActorOk(reg, w, a) && CallOk(reg, a.(call := call))
    requires w'.intents == w.intents && w'.attempts == w.attempts
    requires w'.dispatches == w.dispatches && w'.replies == w.replies
    ensures ActorOk(reg, w', a.(call := call))
  {
  }

  lemma SameHistory(reg: R.State, w: World, w': World)
    requires HistoryOk(reg, w)
    requires w'.intents == w.intents && w'.attempts == w.attempts
    requires w'.dispatches == w.dispatches && w'.replies == w.replies
    ensures HistoryOk(reg, w')
  {
    forall id | id in w'.intents
      ensures IntentOk(reg, w', w'.intents[id])
    {
      assert IntentOk(reg, w, w.intents[id]);
    }
    forall m | 0 <= m < |reg.log|
      ensures RecordOk(reg.log, w', m)
    {
      assert RecordOk(reg.log, w, m);
    }
    forall k | 0 <= k < |w'.dispatches|
      ensures DispatchOk(reg, w', w'.dispatches[k])
    {
      assert DispatchOk(reg, w, w.dispatches[k]);
    }
    forall c | c in reg.calls
      ensures RequestOk(w', reg.calls[c].request)
    {
      assert RequestOk(w, reg.calls[c].request);
    }
  }

  /** Losing actors, one or all, loses nothing else. */
  lemma LossKeepsInv(reg: R.State, reg': R.State, event: R.Event, w: World, w': World, lost: set<nat>)
    requires Inv(reg, w) && R.Step(reg, reg', event)
    requires w' == w.(actors := w.actors - lost)
    requires || (event.Internal? && reg' == reg)
             || event.MachineCrash?
             || (event.Detach? && forall j :: j in w.actors && w.actors[j].call == Some(event.call) ==> j in lost)
    requires event.MachineCrash? ==> lost == w.actors.Keys
    ensures Inv(reg', w')
  {
    assert R.Inv(reg);
    hide HistoryOk, R.Inv, StageOk, SourceOk, Known, NotCalled;
    HistoryPersists(reg, reg', event, w);
    SameHistory(reg', w, w');
    forall j | j in w'.actors
      ensures ActorOk(reg', w', w'.actors[j])
    {
      assert ActorOk(reg, w, w.actors[j]);
      ActorPersists(reg, reg', event, w, w.actors[j]);
    }
  }

  lemma SpawnKeepsInv(reg: R.State, w: World, w': World, i: nat, goal: Goal)
    requires Inv(reg, w) && Spawn(w, w', i, goal)
    ensures Inv(reg, w')
  {
    hide HistoryOk;
    SameHistory(reg, w, w');
    forall j | j in w'.actors
      ensures ActorOk(reg, w', w'.actors[j])
    {
      assert j != i ==> ActorOk(reg, w, w.actors[j]);
    }
  }

  lemma CallAdapterKeepsInv(reg: R.State, w: World, w': World, i: nat)
    requires Inv(reg, w) && CallAdapter(w, w', i)
    ensures Inv(reg, w')
  {
    assert ActorOk(reg, w, w.actors[i]);
    var d := w'.dispatches[|w.dispatches|];
    ReservedMayDispatch(reg, w, w', w.actors[i], d);
    CallAdapterHistory(reg, w, w', d);
    hide HistoryOk, ActorOk, DispatchOk;
    forall j | j in w'.actors
      ensures ActorOk(reg, w', w'.actors[j])
    {
      if j != i {
        assert ActorOk(reg, w, w.actors[j]);
        OthersMayStillDispatch(reg, w, w', w.actors[j], d);
      }
    }
  }

  lemma ReservedMayDispatch(reg: R.State, w: World, w': World, a: Actor, d: Dispatch)
    requires ActorOk(reg, w, a) && a.stage.Reserved? && a.stage.record.generation > 0
    requires a.call.None?
    requires a.attemptId.Some? && a.before.Some? && a.before.value.payload.Ready?
    requires d == Dispatch(a.attemptId.value, SourceOf(a), a.stage.record.generation - 1)
    requires w'.intents == w.intents && w'.attempts == w.attempts && w'.replies == w.replies
    requires w'.dispatches == w.dispatches + [d]
    ensures DispatchOk(reg, w, d) && NotCalled(w, d.attemptId)
    ensures ActorOk(reg, w', a.(stage := Dispatched(a.stage.record)))
  {
    CallsGrow(w, w', d, d.attemptId);
  }

  lemma CallsGrow(w: World, w': World, d: Dispatch, attemptId: nat)
    requires w'.dispatches == w.dispatches + [d]
    ensures NotCalled(w', attemptId) <==> NotCalled(w, attemptId) && attemptId != d.attemptId
  {
    assert w'.dispatches[|w.dispatches|] == d;
    if NotCalled(w', attemptId) {
      forall k | 0 <= k < |w.dispatches|
        ensures w.dispatches[k].attemptId != attemptId
      {
        assert w'.dispatches[k] == w.dispatches[k];
      }
    }
  }

  lemma OthersMayStillDispatch(reg: R.State, w: World, w': World, a: Actor, d: Dispatch)
    requires ActorOk(reg, w, a) && a.attemptId != Some(d.attemptId)
    requires w'.intents == w.intents && w'.attempts == w.attempts && w'.replies == w.replies
    requires w'.dispatches == w.dispatches + [d]
    ensures ActorOk(reg, w', a)
  {
    if a.attemptId.Some? {
      CallsGrow(w, w', d, a.attemptId.value);
    }
    hide NotCalled;
  }

  lemma CallAdapterHistory(reg: R.State, w: World, w': World, d: Dispatch)
    requires HistoryOk(reg, w) && DispatchOk(reg, w, d) && NotCalled(w, d.attemptId)
    requires w'.intents == w.intents && w'.attempts == w.attempts && w'.replies == w.replies
    requires w'.dispatches == w.dispatches + [d]
    ensures HistoryOk(reg, w')
  {
    forall attemptId | attemptId in w'.replies
      ensures !NotCalled(w', attemptId)
    {
      CallsGrow(w, w', d, attemptId);
    }
    forall k | 0 <= k < |w'.dispatches|
      ensures DispatchOk(reg, w', w'.dispatches[k])
    {
      assert k < |w.dispatches| ==> DispatchOk(reg, w, w.dispatches[k]);
    }
    forall id | id in w'.intents
      ensures IntentOk(reg, w', w'.intents[id])
    {
      assert IntentOk(reg, w, w.intents[id]);
    }
    forall m | 0 <= m < |reg.log|
      ensures RecordOk(reg.log, w', m)
    {
      assert RecordOk(reg.log, w, m);
    }
  }

  // An actor moves on

  /** The history after `Update`: nothing recorded before changes. */
  ghost predicate Extends(w: World, w': World) {
    && (forall id :: id in w.intents ==> id in w'.intents && w'.intents[id] == w.intents[id])
    && (forall id :: id in w.attempts ==> id in w'.attempts && w'.attempts[id] == w.attempts[id])
    && (forall id :: id in w.replies ==> id in w'.replies && w'.replies[id] == w.replies[id])
    && w'.dispatches == w.dispatches
  }

  lemma ExtendKeepsActor(reg: R.State, w: World, w': World, a: Actor)
    requires ActorOk(reg, w, a) && Extends(w, w')
    requires a.attemptId.Some? && a.reservation.None? ==> a.attemptId.value !in w'.replies
    ensures ActorOk(reg, w', a)
  {
  }

  lemma ExtendKeepsHistory(reg: R.State, w: World, w': World)
    requires HistoryOk(reg, w) && Extends(w, w')
    requires forall id :: id in w'.intents && id !in w.intents ==> IntentOk(reg, w', w'.intents[id])
    requires forall id :: id in w'.replies && id !in w.replies ==> !NotCalled(w', id)
    ensures HistoryOk(reg, w')
  {
    forall id | id in w'.intents
      ensures IntentOk(reg, w', w'.intents[id])
    {
      assert id in w.intents ==> IntentOk(reg, w, w.intents[id]);
    }
    forall m | 0 <= m < |reg.log|
      ensures RecordOk(reg.log, w', m)
    {
      assert RecordOk(reg.log, w, m);
    }
    forall c | c in reg.calls
      ensures RequestOk(w', reg.calls[c].request)
    {
      assert RequestOk(w, reg.calls[c].request);
    }
    forall k | 0 <= k < |w'.dispatches|
      ensures DispatchOk(reg, w', w'.dispatches[k])
    {
      assert DispatchOk(reg, w, w.dispatches[k]);
    }
  }

  /** What must hold of an actor that has just moved on to `a`, before `Update` records it. */
  ghost predicate Movable(reg: R.State, w: World, a: Actor) {
    && Known(reg, a.before) && Known(reg, a.current) && Known(reg, a.reservation)
    && (a.attemptId.Some? ==>
          && a.goal.Refresh?
          && a.before.Some?
          && a.before.value.payload.Ready?
          && (a.attemptId.value in w.attempts ==> w.attempts[a.attemptId.value] == SourceOf(a))
          && (a.reply.Some? && a.attemptId.value in w.replies ==> w.replies[a.attemptId.value] == a.reply.value))
    && (a.reply.Some? ==> a.reservation.Some? && a.attemptId.Some?)
    && match a.stage
       case Swapping(attempt) =>
         && LoopOk(a)
         && a.desired == Some(attempt.payload)
         && attempt.postDispatch == a.reservation.Some?
         && (attempt.commitId in w.intents ==> AttemptOk(w, a, attempt))
         && (attempt.commitId !in w.intents ==> NewAttemptOk(a, attempt))
       case _ => StageOk(reg, w, a)
  }

  /** A new attempt replaces exactly the record that the actor knows as current. */
  ghost predicate NewAttemptOk(a: Actor, attempt: Attempt) {
    && attempt.expected == (if a.current.None? then 0 else a.current.value.generation)
    && Legal(PurposeOf(a), PayloadOf(a.current), attempt.payload)
  }

  lemma UpdateKeepsInv(reg: R.State, w: World, i: nat, a: Actor)
    requires Inv(reg, w) && i in w.actors
    requires a.call.None?
    requires Movable(reg, w, a)
    requires w.actors[i].attemptId.Some? ==> a.attemptId == w.actors[i].attemptId
    requires a.attemptId.Some? && w.actors[i].attemptId.None? ==> a.attemptId.value !in w.attempts
    requires a.attemptId.Some? && a.reservation.None? ==> AwaitsReply(w, a.attemptId.value, a.stage.Dispatched?)
    requires a.reply.Some? ==> !NotCalled(w, a.attemptId.value)
    ensures Inv(reg, Update(w, i, a))
  {
    var w' := Update(w, i, a);
    UpdateKeepsHistory(reg, w, i, a);
    UpdateKeepsDistinct(reg, w, i, a);
    UpdatedActorOk(reg, w, i, a);
    hide HistoryOk, ActorsDistinct, ActorOk, Movable;
    forall j | j in w'.actors
      ensures ActorOk(reg, w', w'.actors[j])
    {
      if j != i {
        assert ActorOk(reg, w, w.actors[j]);
        ExtendKeepsActor(reg, w, w', w.actors[j]);
      }
    }
  }

  lemma UpdateKeepsHistory(reg: R.State, w: World, i: nat, a: Actor)
    requires HistoryOk(reg, w) && Movable(reg, w, a)
    requires a.reply.Some? ==> !NotCalled(w, a.attemptId.value)
    ensures Extends(w, Update(w, i, a)) && HistoryOk(reg, Update(w, i, a))
  {
    var w' := Update(w, i, a);
    forall id | id in w'.intents && id !in w.intents
      ensures IntentOk(reg, w', w'.intents[id])
    {
      NewIntentOk(reg, w', a, a.stage.attempt);
    }
    ExtendKeepsHistory(reg, w, w');
  }

  lemma UpdateKeepsDistinct(reg: R.State, w: World, i: nat, a: Actor)
    requires Inv(reg, w) && i in w.actors && a.call.None?
    requires w.actors[i].attemptId.Some? ==> a.attemptId == w.actors[i].attemptId
    requires a.attemptId.Some? && w.actors[i].attemptId.None? ==> a.attemptId.value !in w.attempts
    ensures ActorsDistinct(Update(w, i, a))
  {
    hide HistoryOk, StageOk, Known, NotCalled;
    forall j | j in w.actors && w.actors[j].attemptId.Some?
      ensures w.actors[j].attemptId.value in w.attempts
    {
      assert ActorOk(reg, w, w.actors[j]);
    }
  }

  lemma UpdatedActorOk(reg: R.State, w: World, i: nat, a: Actor)
    requires a.call.None? && Movable(reg, w, a)
    requires a.attemptId.Some? && a.reservation.None? ==> AwaitsReply(w, a.attemptId.value, a.stage.Dispatched?)
    ensures ActorOk(reg, Update(w, i, a), a)
  {
  }

  lemma NewIntentOk(reg: R.State, w: World, a: Actor, attempt: Attempt)
    requires R.Inv(reg) && Known(reg, a.current) && LoopOk(a) && NewAttemptOk(a, attempt)
    requires a.attemptId.Some? ==> a.attemptId.value in w.attempts && w.attempts[a.attemptId.value] == SourceOf(a)
    requires a.reply.Some? ==> a.reservation.Some? && a.attemptId.Some?
    requires a.attemptId.Some? && a.reply.Some? ==>
               a.attemptId.value in w.replies && w.replies[a.attemptId.value] == a.reply.value
    ensures IntentOk(reg, w, Intent(attempt.expected, PayloadOf(a.current), attempt.payload, PurposeOf(a)))
  {
  }

  lemma AdapterRepliesKeepsInv(reg: R.State, w: World, w': World, i: nat, reply: AdapterReply, commitId: nat)
    requires Inv(reg, w) && AdapterReplies(w, w', i, reply, commitId)
    ensures Inv(reg, w')
  {
    var a := w.actors[i];
    assert ActorOk(reg, w, a);
    var record := a.stage.record;
    var b := Try(a.(reservation := Some(record), reply := Some(reply), current := Some(record), rebases := 0),
                 record.generation, Settle(SourceOf(a), record.payload.fence, reply), commitId);
    SettleIsLegal(SourceOf(a), a.attemptId.value, reply);
    assert Wanted(a).None?;
    assert NewAttemptOk(b, b.stage.attempt);
    UpdateKeepsInv(reg, w, i, b);
  }

  // The store answers

  /** What an answer lets its receiver believe. */
  ghost predicate Trustworthy(reg: R.State, request: R.Request, outcome: R.Outcome) {
    match outcome
    case Found(current) => request.Read? && Known(reg, current)
    case Stored(record, _) =>
      && !request.Read?
      && R.Kept(reg, record)
      && record.generation == request.expected + 1
    case Failed(_) => true
  }

  lemma AnswersAreTrustworthy(reg: R.State, reg': R.State, c: nat, outcome: R.Outcome)
    requires R.Inv(reg) && R.Step(reg, reg', R.Respond(c, outcome))
    ensures Trustworthy(reg', reg.calls[c].request, outcome)
  {
  }

  lemma OpenMoves(reg: R.State, w: World, a: Actor, outcome: R.Outcome, attemptId: nat, commitId: nat)
    requires R.Inv(reg) && a.stage.Opening? && a == Fresh(a.goal)
    requires Trustworthy(reg, Wanted(a).value, outcome)
    requires attemptId !in w.attempts && commitId !in w.intents
    ensures Movable(reg, w, Open(a, outcome, attemptId, commitId))
  {
    hide R.Inv, R.Kept, OpenRefresh, Replaces;
    if && a.goal.Refresh? && outcome.Found? && outcome.current.Some? && outcome.current.value.payload.Ready? {
      OpenRefreshMoves(reg, w, a, outcome.current.value, attemptId, commitId);
    }
  }

  lemma OpenRefreshMoves(reg: R.State, w: World, a: Actor, seen: R.Record, attemptId: nat, commitId: nat)
    requires a == Fresh(a.goal) && a.goal.Refresh? && seen.payload.Ready? && R.Kept(reg, seen)
    requires attemptId !in w.attempts && commitId !in w.intents
    ensures Movable(reg, w, OpenRefresh(a, seen, attemptId, commitId))
  {
    hide R.Kept;
  }

  lemma SwapAgainMoves(reg: R.State, w: World, a: Actor, outcome: R.Outcome)
    requires ActorOk(reg, w, a) && a.call.None? && a.stage.Swapping?
    ensures match OnSwap(a.stage.attempt, outcome)
            case SwapAgain(next) => Movable(reg, w, a.(stage := Swapping(next)))
            case ReadBack(next) => Movable(reg, w, a.(stage := Confirming(next)))
            case SwapThrows(_) => true
  {
    hide R.Kept, LegalOutcome, MayHaveSucceeded, InvalidStoreCode;
  }

  lemma ThrowMoves(reg: R.State, w: World, a: Actor, code: BrokerCode)
    requires ActorOk(reg, w, a) && a.call.None? && LoopOk(a)
    requires a.reservation.Some? ==> !Retryable(code)
    ensures Movable(reg, w, AfterThrow(a, code))
  {
    hide R.Kept, LegalOutcome;
  }

  lemma SwapMoves(reg: R.State, w: World, a: Actor, outcome: R.Outcome)
    requires ActorOk(reg, w, a) && a.call.None? && a.stage.Swapping?
    requires Trustworthy(reg, Wanted(a).value, outcome)
    ensures Movable(reg, w, Resume(a, outcome, 0, 0))
  {
    SwapAgainMoves(reg, w, a, outcome);
    var step := OnSwap(a.stage.attempt, outcome);
    if step.SwapThrows? {
      ThrowMoves(reg, w, a, step.code);
    }
    hide Movable, ActorOk, Trustworthy, AfterThrow, OnSwap;
  }

  lemma ConfirmMoves(reg: R.State, w: World, a: Actor, outcome: R.Outcome)
    requires ActorOk(reg, w, a) && a.call.None? && a.stage.Confirming?
    requires Trustworthy(reg, R.Read, outcome)
    ensures Movable(reg, w, Resume(a, outcome, 0, 0))
  {
    var step := OnReadBack(a.stage.attempt, outcome);
    if step.ReadThrows? {
      ThrowMoves(reg, w, a, step.code);
    } else {
      ProofMoves(reg, w, a, step.record);
    }
    hide Movable, AfterThrow, AfterProof;
  }

  lemma ProofMoves(reg: R.State, w: World, a: Actor, record: R.Record)
    requires ActorOk(reg, w, a) && a.call.None? && LoopOk(a)
    requires R.Kept(reg, record) && a.desired == Some(record.payload)
    ensures Movable(reg, w, AfterProof(a, record))
  {
    hide R.Kept;
  }

  lemma RecheckMoves(reg: R.State, w: World, a: Actor, outcome: R.Outcome, commitId: nat)
    requires ActorOk(reg, w, a) && a.call.None? && a.stage.Rechecking?
    requires Trustworthy(reg, R.Read, outcome)
    requires commitId !in w.intents
    ensures Movable(reg, w, Recheck(a, a.stage.code, outcome, commitId))
  {
    if outcome.Found? && outcome.current.Some? {
      var latest := outcome.current.value;
      if a.desired == Some(latest.payload) {
        ProofMoves(reg, w, a, latest);
      }
      RebaseMoves(reg, w, a, latest, commitId);
    }
    hide R.Kept, LegalOutcome, AfterProof, Try;
  }

  lemma RebaseMoves(reg: R.State, w: World, a: Actor, latest: R.Record, commitId: nat)
    requires ActorOk(reg, w, a) && a.call.None? && a.stage.Rechecking?
    requires R.Kept(reg, latest) && commitId !in w.intents
    ensures && a.goal.Refresh?
            && PayloadOf(if a.reservation.Some? then a.reservation else a.before) == Some(latest.payload)
            && a.desired.Some? ==>
              Movable(reg, w, Try(a.(current := Some(latest), rebases := a.rebases + 1), latest.generation,
                                  a.desired.value, commitId))
  {
    hide R.Kept;
  }

  lemma ResumeMoves(reg: R.State, w: World, a: Actor, outcome: R.Outcome, attemptId: nat, commitId: nat)
    requires R.Inv(reg) && ActorOk(reg, w, a) && a.call.None? && Wanted(a).Some?
    requires Trustworthy(reg, Wanted(a).value, outcome)
    requires attemptId !in w.attempts && commitId !in w.intents
    ensures Movable(reg, w, Resume(a, outcome, attemptId, commitId))
  {
    match a.stage
    case Opening => OpenMoves(reg, w, a, outcome, attemptId, commitId);
    case Swapping(_) => SwapMoves(reg, w, a, outcome);
    case Confirming(_) => ConfirmMoves(reg, w, a, outcome);
    case Rechecking(_) => RecheckMoves(reg, w, a, outcome, commitId);
  }

  /** An actor picks its reservation ID once, when it opens, and never dispatches while it waits. */
  lemma ResumeKeepsAttempt(a: Actor, outcome: R.Outcome, attemptId: nat, commitId: nat)
    requires Wanted(a).Some?
    ensures var b := Resume(a, outcome, attemptId, commitId);
            && b.call == a.call
            && !b.stage.Dispatched?
            && b.reservation == a.reservation
            && (a.stage.Opening? || b.attemptId == a.attemptId)
            && (b.attemptId == a.attemptId || b.attemptId == Some(attemptId))
  {
  }

  lemma AnswerKeepsInv(reg: R.State, reg': R.State, w: World, w': World, i: nat, c: nat,
                       outcome: R.Outcome, attemptId: nat, commitId: nat)
    requires Inv(reg, w) && R.Step(reg, reg', R.Respond(c, outcome))
    requires Answer(w, w', i, c, outcome, attemptId, commitId)
    ensures Inv(reg', w')
  {
    var a := w.actors[i].(call := None);
    var freed := w.(actors := w.actors[i := a]);
    FreeActor(reg, reg', w, freed, i, c, outcome);
    AnswerIsForActor(reg, reg', w, i, c, outcome);
    FreedActorMoves(reg', freed, i, outcome, attemptId, commitId);
    UpdateForgets(w, freed, i, Resume(a, outcome, attemptId, commitId));
  }

  lemma AnswerIsForActor(reg: R.State, reg': R.State, w: World, i: nat, c: nat, outcome: R.Outcome)
    requires Inv(reg, w) && R.Step(reg, reg', R.Respond(c, outcome))
    requires i in w.actors && w.actors[i].call == Some(c)
    ensures var a := w.actors[i].(call := None);
            Wanted(a).Some? && Trustworthy(reg', Wanted(a).value, outcome)
  {
    assert ActorOk(reg, w, w.actors[i]);
    AnswersAreTrustworthy(reg, reg', c, outcome);
  }

  lemma UpdateForgets(w: World, freed: World, i: nat, b: Actor)
    requires i in w.actors && i in freed.actors
    requires freed == w.(actors := w.actors[i := freed.actors[i]])
    ensures Update(freed, i, b) == Update(w, i, b)
  {
    assert freed.actors[i := b] == w.actors[i := b];
  }

  lemma FreedActorMoves(reg: R.State, w: World, i: nat, outcome: R.Outcome, attemptId: nat, commitId: nat)
    requires Inv(reg, w) && i in w.actors && w.actors[i].call.None? && Wanted(w.actors[i]).Some?
    requires Trustworthy(reg, Wanted(w.actors[i]).value, outcome)
    requires attemptId !in w.attempts && commitId !in w.intents
    ensures Inv(reg, Update(w, i, Resume(w.actors[i], outcome, attemptId, commitId)))
  {
    var a := w.actors[i];
    assert ActorOk(reg, w, a);
    ResumeMoves(reg, w, a, outcome, attemptId, commitId);
    ResumeKeepsAttempt(a, outcome, attemptId, commitId);
    UnusedIsNotCalled(reg, w, attemptId);
    UpdateKeepsInv(reg, w, i, Resume(a, outcome, attemptId, commitId));
  }

  lemma UnusedIsNotCalled(reg: R.State, w: World, attemptId: nat)
    requires HistoryOk(reg, w) && attemptId !in w.attempts
    ensures NotCalled(w, attemptId)
  {
    forall k | 0 <= k < |w.dispatches|
      ensures w.dispatches[k].attemptId != attemptId
    {
      assert DispatchOk(reg, w, w.dispatches[k]);
    }
  }

  lemma RespondKeepsActor(reg: R.State, reg': R.State, w: World, w': World, c: nat, outcome: R.Outcome,
                          a: Actor, call: Option<nat>)
    requires R.Inv(reg) && R.Step(reg, reg', R.Respond(c, outcome)) && ActorOk(reg, w, a)
    requires call.None? || (call == a.call && call != Some(c))
    requires w'.intents == w.intents && w'.attempts == w.attempts
    requires w'.dispatches == w.dispatches && w'.replies == w.replies
    ensures ActorOk(reg', w', a.(call := call))
  {
    hide R.Inv, StageOk, SourceOk, Known, NotCalled;
    CallChange(reg, w, w', a, call);
    ActorPersists(reg, reg', R.Respond(c, outcome), w', a.(call := call));
  }

  lemma FreeActor(reg: R.State, reg': R.State, w: World, freed: World, i: nat, c: nat, outcome: R.Outcome)
    requires Inv(reg, w) && R.Step(reg, reg', R.Respond(c, outcome))
    requires i in w.actors && w.actors[i].call == Some(c)
    requires freed == w.(actors := w.actors[i := w.actors[i].(call := None)])
    ensures Inv(reg', freed)
  {
    assert R.Inv(reg);
    hide HistoryOk, R.Inv, ActorOk, R.Justified;
    HistoryPersists(reg, reg', R.Respond(c, outcome), w);
    SameHistory(reg', w, freed);
    forall j | j in freed.actors
      ensures ActorOk(reg', freed, freed.actors[j])
    {
      assert ActorOk(reg, w, w.actors[j]);
      RespondKeepsActor(reg, reg', w, freed, c, outcome, w.actors[j], freed.actors[j].call);
    }
  }

  // Every step

  lemma LocalStepKeepsInv(reg: R.State, w: World, w': World)
    requires Inv(reg, w) && LocalStep(w, w')
    ensures Inv(reg, w')
  {
    if i, goal :| Spawn(w, w', i, goal) {
      SpawnKeepsInv(reg, w, w', i, goal);
    } else if i :| Vanish(w, w', i) {
      LossKeepsInv(reg, reg, R.Internal, w, w', {i});
    } else if i :| CallAdapter(w, w', i) {
      CallAdapterKeepsInv(reg, w, w', i);
    } else {
      var i, reply, commitId :| AdapterReplies(w, w', i, reply, commitId);
      AdapterRepliesKeepsInv(reg, w, w', i, reply, commitId);
    }
  }

  lemma StepKeepsInv(reg: R.State, reg': R.State, w: World, w': World, event: R.Event)
    requires Inv(reg, w) && R.Step(reg, reg', event) && Broker.Step(w, w', event)
    ensures Inv(reg', w')
  {
    match event
    case Internal => InternalKeepsInv(reg, reg', w);
    case Begin(c, request) =>
      var i :| Ask(w, w', i, c, request);
      AskKeepsInv(reg, reg', w, w', i, c, request);
    case Respond(c, outcome) =>
      var i, attemptId, commitId :| Answer(w, w', i, c, outcome, attemptId, commitId);
      AnswerKeepsInv(reg, reg', w, w', i, c, outcome, attemptId, commitId);
    case Detach(c) =>
      var i :| Die(w, w', i, c);
      LossKeepsInv(reg, reg', event, w, w', {i});
    case MachineCrash =>
      assert w.actors - w.actors.Keys == map[];
      LossKeepsInv(reg, reg', event, w, w', w.actors.Keys);
  }

  // What the history says

  /** The payload a record replaced, and why. */
  lemma RecordFollowsIntent(reg: R.State, w: World, m: nat)
    requires HistoryOk(reg, w) && m < |reg.log|
    ensures reg.log[m].operation == R.RotateEncryption ==> m > 0 && reg.log[m].payload == reg.log[m - 1].payload
    ensures reg.log[m].operation == R.CompareAndSwap ==>
              && reg.log[m].commitId in w.intents
              && var intent := w.intents[reg.log[m].commitId];
              && PurposeOk(w, intent.purpose)
              && Legal(intent.purpose, if m == 0 then None else Some(reg.log[m - 1].payload), reg.log[m].payload)
  {
    assert RecordOk(reg.log, w, m);
    if reg.log[m].operation == R.CompareAndSwap {
      assert IntentOk(reg, w, w.intents[reg.log[m].commitId]);
    }
  }

  /**
    A refresh outcome replaces nothing but the exact reservation of its own attempt, and is the one
    that the adapter's recorded reply to this attempt calls for.
   */
  lemma OutcomeReplacesOwnReservation(reg: R.State, w: World, m: nat, attemptId: nat, source: Credential,
                                      reply: AdapterReply)
    requires HistoryOk(reg, w) && m < |reg.log|
    requires reg.log[m].operation == R.CompareAndSwap
    requires && reg.log[m].commitId in w.intents
             && w.intents[reg.log[m].commitId].purpose == Settling(attemptId, source, reply)
    ensures m > 0 && reg.log[m - 1].payload == Reservation(source, attemptId)
    ensures attemptId in w.replies && w.replies[attemptId] == reply && !NotCalled(w, attemptId)
    ensures LegalOutcome(source, attemptId, reply, reg.log[m].payload)
  {
    RecordFollowsIntent(reg, w, m);
  }

  /** `start` is the index of a ready record; up to `m` the records are blocked behind its fence. */
  ghost predicate FencedSince(log: seq<R.Record>, start: nat, m: nat) {
    && start < m < |log|
    && log[start].payload.Ready?
    && log[m].payload.Blocked?
    && log[start + 1].payload == Reservation(log[start].payload.credential, log[m].payload.fence.reservationId)
    && forall k :: start < k <= m ==> log[k].payload.Blocked? && log[k].payload.fence == log[m].payload.fence
  }

  /** Every blocked record is fenced by the credential that was ready just before its reservation. */
  lemma {:induction false} BlockedRecordsAreFenced(reg: R.State, w: World, m: nat) returns (start: nat)
    requires HistoryOk(reg, w) && m < |reg.log| && reg.log[m].payload.Blocked?
    ensures FencedSince(reg.log, start, m)
    ensures forall k :: start < k <= m ==>
              reg.log[k].payload.fence
              == FenceOf(reg.log[start].payload.credential, reg.log[m].payload.fence.reservationId)
    decreases m
  {
    RecordFollowsIntent(reg, w, m);
    if m > 0 && reg.log[m - 1].payload.Ready? {
      start := m - 1;
    } else {
      start := BlockedRecordsAreFenced(reg, w, m - 1);
    }
  }

  /** The adapter was called for the reservation and reported that it had sent nothing. */
  ghost predicate ReportedUnsent(w: World, attemptId: nat) {
    && attemptId in w.replies
    && w.replies[attemptId] == Payloads.NotDispatched
    && !NotCalled(w, attemptId)
  }

  /**
    Leaving a blocked state keeps account and user. It brings back the source credential only over
    the reservation of an attempt whose adapter reported that nothing was sent, and otherwise
    neither of its tokens.
   */
  lemma UnblockingKeepsIdentity(reg: R.State, w: World, m: nat) returns (start: nat)
    requires HistoryOk(reg, w) && 0 < m < |reg.log|
    requires reg.log[m - 1].payload.Blocked? && reg.log[m].payload.Ready?
    ensures FencedSince(reg.log, start, m - 1)
    ensures var source, next := reg.log[start].payload.credential, reg.log[m].payload.credential;
            var attemptId := reg.log[m - 1].payload.fence.reservationId;
            && next.accountId == source.accountId
            && next.userId == source.userId
            && (next.accessToken == source.accessToken || next.refreshToken == source.refreshToken ==>
                  && next == source
                  && reg.log[m - 1].payload == Reservation(source, attemptId)
                  && ReportedUnsent(w, attemptId))
    ensures reg.log[m].operation == R.CompareAndSwap && reg.log[m].commitId in w.intents
    ensures w.intents[reg.log[m].commitId].purpose.Recovering? ==>
              && reg.log[m].payload.credential.accessToken != reg.log[start].payload.credential.accessToken
              && reg.log[m].payload.credential.refreshToken != reg.log[start].payload.credential.refreshToken
              && w.intents[reg.log[m].commitId].purpose.reservationId == reg.log[m - 1].payload.fence.reservationId
  {
    RecordFollowsIntent(reg, w, m);
    start := BlockedRecordsAreFenced(reg, w, m - 1);
    var purpose := w.intents[reg.log[m].commitId].purpose;
    if purpose.Settling? {
      OutcomeReplacesOwnReservation(reg, w, m, purpose.attemptId, purpose.source, purpose.reply);
      var first := ReservationOrigin(reg, w, m - 1, purpose.attemptId);
      assert start == first - 1;
    }
  }

  /** Where the reservation that stands at `m` was first committed: right after its source was ready. */
  lemma {:induction false} ReservationOrigin(reg: R.State, w: World, m: nat, attemptId: nat) returns (first: nat)
    requires HistoryOk(reg, w) && m < |reg.log|
    requires attemptId in w.attempts && reg.log[m].payload == Reservation(w.attempts[attemptId], attemptId)
    ensures 0 < first <= m
    ensures reg.log[first - 1].payload == Ready(w.attempts[attemptId])
    ensures forall k :: first <= k <= m ==> reg.log[k].payload == reg.log[m].payload
    decreases m
  {
    RecordFollowsIntent(reg, w, m);
    if m > 0 && reg.log[m - 1].payload == reg.log[m].payload {
      first := ReservationOrigin(reg, w, m - 1, attemptId);
    } else {
      first := m;
    }
  }

  /**
    The adapter is called once per reservation ID, and two calls with one credential stand on
    reservations between which a commit made that credential ready again.
   */
  lemma DispatchesAreSeparated(reg: R.State, w: World, k: nat, l: nat) returns (between: nat)
    requires HistoryOk(reg, w) && k < |w.dispatches| && l < |w.dispatches| && k != l
    requires w.dispatches[k].credential == w.dispatches[l].credential
    requires w.dispatches[k].index <= w.dispatches[l].index
    ensures w.dispatches[k].attemptId != w.dispatches[l].attemptId
    ensures w.dispatches[k].index < between < w.dispatches[l].index < reg.durable <= |reg.log|
    ensures reg.log[between].payload == Ready(w.dispatches[k].credential)
  {
    var d, e := w.dispatches[k], w.dispatches[l];
    assert DispatchOk(reg, w, d) && DispatchOk(reg, w, e);
    var first := ReservationOrigin(reg, w, e.index, e.attemptId);
    assert d.attemptId != e.attemptId;
    between := first - 1;
  }

  /** A dispatch rests on its own reservation: durable, and put in place of its own source. */
  lemma DispatchIsReserved(reg: R.State, w: World, k: nat) returns (first: nat)
    requires HistoryOk(reg, w) && k < |w.dispatches|
    ensures var d := w.dispatches[k];
            && 0 < first <= d.index < reg.durable <= |reg.log|
            && reg.log[first - 1].payload == Ready(d.credential)
            && (forall j :: first <= j <= d.index ==>
                  reg.log[j].payload == Reservation(d.credential, d.attemptId))
  {
    var d := w.dispatches[k];
    assert DispatchOk(reg, w, d);
    first := ReservationOrigin(reg, w, d.index, d.attemptId);
  }
}
