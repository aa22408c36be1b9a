/**
  The whole system: brokers over the store with its locks, holders and disk. Every state of
  every run is safe, whatever dies and whenever the machine crashes.
 */
module EndToEnd {
  import opened Options
  import opened Payloads
  import opened StoreErrors
  import D = DiskStore
  import DR = DiskRefinement
  import R = Register
  import B = Broker
  import BS = BrokerSafety

  datatype System = System(store: D.State, world: B.World)

  ghost predicate Init(s: System) {
    D.Init(s.store) && B.Init(s.world)
  }

  /** Either the actors move alone, or the store moves and the actors with it. */
  ghost predicate Step(s: System, s': System) {
    || (s'.store == s.store && B.LocalStep(s.world, s'.world))
    || (exists event :: D.Step(s.store, s'.store, event) && B.Step(s.world, s'.world, event))
  }

  ghost predicate Run(run: seq<System>) {
    && run != []
    && Init(run[0])
    && forall i :: 0 <= i < |run| - 1 ==> Step(run[i], run[i + 1])
  }

  ghost predicate Inv(s: System) {
    DR.Inv(s.store) && BS.Inv(DR.Abstract(s.store), s.world)
  }

  /** Neither a dispatch nor a reply is forgotten or changed. */
  lemma DispatchesGrow(w: B.World, w': B.World, event: R.Event)
    requires B.LocalStep(w, w') || B.Step(w, w', event)
    ensures w.dispatches <= w'.dispatches
    ensures forall id :: id in w.replies ==> id in w'.replies && w'.replies[id] == w.replies[id]
  {
  }

  lemma StoreStepKeepsInv(s: System, s': System, event: R.Event)
    requires Inv(s) && D.Step(s.store, s'.store, event) && B.Step(s.world, s'.world, event)
    ensures Inv(s')
    ensures s.store.durable <= s'.store.durable <= |s'.store.log|
    ensures s'.store.log[..s.store.durable] == s.store.log[..s.store.durable]
  {
    assert R.Inv(DR.Abstract(s.store));
    hide DR.Inv, BS.Inv, D.Step, R.Step, R.Inv, B.Step;
    DR.StepRefines(s.store, s'.store, event);
    BS.StepKeepsInv(DR.Abstract(s.store), DR.Abstract(s'.store), s.world, s'.world, event);
    R.DurableHistoryIsKept(DR.Abstract(s.store), DR.Abstract(s'.store), event);
  }

  lemma StepKeepsInv(s: System, s': System)
    requires Inv(s) && Step(s, s')
    ensures Inv(s')
    ensures s.store.durable <= s'.store.durable <= |s'.store.log|
    ensures s'.store.log[..s.store.durable] == s.store.log[..s.store.durable]
    ensures s.world.dispatches <= s'.world.dispatches
    ensures forall id :: id in s.world.replies ==>
              id in s'.world.replies && s'.world.replies[id] == s.world.replies[id]
  {
    assert s.store.durable <= |s.store.log| by {
      assert R.Inv(DR.Abstract(s.store));
    }
    hide DR.Inv, BS.Inv, D.Step, B.LocalStep, B.Step;
    if s'.store == s.store && B.LocalStep(s.world, s'.world) {
      DispatchesGrow(s.world, s'.world, R.Internal);
      BS.LocalStepKeepsInv(DR.Abstract(s.store), s.world, s'.world);
    } else {
      var event :| D.Step(s.store, s'.store, event) && B.Step(s.world, s'.world, event);
      DispatchesGrow(s.world, s'.world, event);
      hide Inv;
      StoreStepKeepsInv(s, s', event);
    }
  }

  lemma {:induction false} RunKeepsInv(run: seq<System>, i: nat)
    requires Run(run) && i < |run|
    ensures Inv(run[i])
  {
    if i == 0 {
      DR.InitInv(run[0].store);
      BS.InitInv(DR.Abstract(run[0].store), run[0].world);
    } else {
      RunKeepsInv(run, i - 1);
      StepKeepsInv(run[i - 1], run[i]);
    }
  }

  lemma PrefixesChain<T>(a: seq<T>, b: seq<T>, c: seq<T>, m: nat, n: nat)
    requires m <= n && m <= |a| && n <= |b| && n <= |c|
    requires b[..m] == a[..m] && c[..n] == b[..n]
    ensures c[..m] == a[..m]
  {
    assert c[..m] == c[..n][..m] && b[..m] == b[..n][..m];
  }

  /** Durable history, dispatches and replies of one state are still there in the other. */
  ghost predicate Remembers(s: System, later: System) {
    && s.store.durable <= |s.store.log|
    && s.store.durable <= later.store.durable <= |later.store.log|
    && later.store.log[..s.store.durable] == s.store.log[..s.store.durable]
    && s.world.dispatches <= later.world.dispatches
    && (forall id :: id in s.world.replies ==>
          id in later.world.replies && later.world.replies[id] == s.world.replies[id])
  }

  lemma NextRemembers(run: seq<System>, i: nat)
    requires Run(run) && i + 1 < |run|
    ensures Remembers(run[i], run[i]) && Remembers(run[i], run[i + 1])
  {
    RunKeepsInv(run, i);
    StepKeepsInv(run[i], run[i + 1]);
  }

  lemma {:induction false} RunKeepsHistory(run: seq<System>, i: nat, j: nat)
    requires Run(run) && i <= j < |run|
    ensures Remembers(run[i], run[j])
    decreases j
  {
    hide Run, Remembers;
    if i < j {
      RunKeepsHistory(run, i, j - 1);
      NextRemembers(run, j - 1);
      RemembersChain(run[i], run[j - 1], run[j]);
    } else {
      RemembersSelf(run, i);
    }
  }

  lemma RemembersSelf(run: seq<System>, i: nat)
    requires Run(run) && i < |run|
    ensures Remembers(run[i], run[i])
  {
    RunKeepsInv(run, i);
  }

  lemma RemembersChain(a: System, b: System, c: System)
    requires Remembers(a, b) && Remembers(b, c)
    ensures Remembers(a, c)
  {
    PrefixesChain(a.store.log, b.store.log, c.store.log, a.store.durable, b.store.durable);
  }

  /**
    Once a broker has called the adapter, its reservation stays in the durable history for the
    rest of the run: after any later crash the canonical record is that reservation or a successor.
   */
  lemma DispatchSurvivesCrashes(run: seq<System>, i: nat, j: nat, k: nat) returns (first: nat)
    requires Run(run) && i <= j < |run| && k < |run[i].world.dispatches|
    ensures var d := run[i].world.dispatches[k];
            var log := run[j].store.log;
            && 0 < first <= d.index < run[i].store.durable <= run[j].store.durable <= |log|
            && log[first - 1].payload == Ready(d.credential)
            && (forall m :: first <= m <= d.index ==> log[m].payload == Reservation(d.credential, d.attemptId))
  {
    RunKeepsInv(run, i);
    RunKeepsHistory(run, i, j);
    var reg := DR.Abstract(run[i].store);
    first := BS.DispatchIsReserved(reg, run[i].world, k);
    var d := run[i].world.dispatches[k];
    forall m | 0 <= m <= d.index
      ensures run[j].store.log[m] == run[i].store.log[m]
    {
      assert run[j].store.log[..run[i].store.durable][m] == run[i].store.log[..run[i].store.durable][m];
    }
  }

  /** In every run no reservation is dispatched twice, and equal credentials are made ready in between. */
  lemma DispatchesOfARunAreSeparated(run: seq<System>, i: nat, k: nat, l: nat) returns (between: nat)
    requires Run(run) && i < |run|
    requires k < |run[i].world.dispatches| && l < |run[i].world.dispatches| && k != l
    requires run[i].world.dispatches[k].credential == run[i].world.dispatches[l].credential
    requires run[i].world.dispatches[k].index <= run[i].world.dispatches[l].index
    ensures run[i].world.dispatches[k].attemptId != run[i].world.dispatches[l].attemptId
    ensures run[i].world.dispatches[k].index < between < run[i].world.dispatches[l].index < |run[i].store.log|
    ensures run[i].store.log[between].payload == Ready(run[i].world.dispatches[k].credential)
  {
    RunKeepsInv(run, i);
    between := BS.DispatchesAreSeparated(DR.Abstract(run[i].store), run[i].world, k, l);
  }

  /** The record is still the reservation of this dispatch, perhaps encrypted again. */
  ghost predicate Standing(s: System, d: B.Dispatch) {
    && d.index < |s.store.log|
    && forall m :: d.index <= m < |s.store.log| ==> s.store.log[m].payload == Reservation(d.credential, d.attemptId)
  }

  /**
    Separation along the clock: if the first of two dispatches with one credential is made while
    its own reservation stands, and the second rests on a later reservation, then the credential
    was made ready again after the first.
   */
  lemma TimelyDispatchesAreSeparated(run: seq<System>, i: nat, j: nat, k: nat, l: nat) returns (between: nat)
    requires Run(run) && i <= j < |run| && k != l
    requires k < |run[i].world.dispatches| && l < |run[j].world.dispatches|
    requires run[i].world.dispatches[k].credential == run[j].world.dispatches[l].credential
    requires Standing(run[i], run[i].world.dispatches[k])
    requires run[i].world.dispatches[k].index <= run[j].world.dispatches[l].index
    ensures run[i].world.dispatches[k].index < between < run[j].world.dispatches[l].index < |run[j].store.log|
    ensures run[j].store.log[between].payload == Ready(run[i].world.dispatches[k].credential)
    ensures between < |run[i].store.log| ==> run[i].store.log[between].payload.Blocked?
  {
    RunKeepsInv(run, j);
    RunKeepsHistory(run, i, j);
    assert run[j].world.dispatches[k] == run[i].world.dispatches[k];
    between := BS.DispatchesAreSeparated(DR.Abstract(run[j].store), run[j].world, k, l);
  }

  /**
    In every run a refresh outcome replaces nothing but the exact reservation of its own attempt,
    and is the one that the adapter's reply to this attempt calls for.
   */
  lemma StaleOwnersAreFenced(run: seq<System>, i: nat, m: nat, attemptId: nat, source: Credential, reply: AdapterReply)
    requires Run(run) && i < |run| && m < |run[i].store.log|
    requires var record, intents := run[i].store.log[m], run[i].world.intents;
             && record.operation == R.CompareAndSwap
             && record.commitId in intents
             && intents[record.commitId].purpose == B.Settling(attemptId, source, reply)
    ensures m > 0 && run[i].store.log[m - 1].payload == Reservation(source, attemptId)
    ensures attemptId in run[i].world.replies && run[i].world.replies[attemptId] == reply
    ensures BS.LegalOutcome(source, attemptId, reply, run[i].store.log[m].payload)
  {
    RunKeepsInv(run, i);
    BS.OutcomeReplacesOwnReservation(DR.Abstract(run[i].store), run[i].world, m, attemptId, source, reply);
  }

  /** In every run a blocked record is fenced by the credential that was ready just before its reservation. */
  lemma BlockedRecordsOfARunAreFenced(run: seq<System>, i: nat, m: nat) returns (start: nat)
    requires Run(run) && i < |run| && m < |run[i].store.log| && run[i].store.log[m].payload.Blocked?
    ensures BS.FencedSince(run[i].store.log, start, m)
    ensures run[i].store.log[m].payload.fence
         == FenceOf(run[i].store.log[start].payload.credential, run[i].store.log[m].payload.fence.reservationId)
  {
    RunKeepsInv(run, i);
    start := BS.BlockedRecordsAreFenced(DR.Abstract(run[i].store), run[i].world, m);
  }

  /** A file at the canonical name is always a whole record of a continuous history. */
  lemma CanonicalFileIsWhole(run: seq<System>, i: nat)
    requires Run(run) && i < |run|
    ensures var s := run[i].store;
            && s.trail != []
            && R.Numbered(s.log)
            && (D.Entry(s).None? <==> s.log == [])
            && (D.Entry(s).Some? ==> D.Entry(s).value in s.files
                                     && s.files[D.Entry(s).value] == D.File(R.Latest(s.log), true))
  {
    RunKeepsInv(run, i);
    var s := run[i].store;
    assert DR.EntryOk(s, s.trail[|s.trail| - 1], s.durable + (|s.trail| - 1));
  }

  /** Whatever any caller was told, at any two points of a run, agrees. */
  lemma ReportsOfARunAgree(run: seq<System>, i: nat, j: nat, first: R.Record, second: R.Record)
    requires Run(run) && i <= j < |run|
    requires first in run[i].store.reported && second in run[j].store.reported
    requires first.generation == second.generation
    ensures first == second
  {
    RunKeepsInv(run, i);
    RunKeepsInv(run, j);
    RunKeepsHistory(run, i, j);
    var reg := DR.Abstract(run[i].store);
    assert R.Kept(reg, first) && R.Kept(DR.Abstract(run[j].store), second);
    var m := first.generation - 1;
    assert run[j].store.log[..run[i].store.durable][m] == run[i].store.log[..run[i].store.durable][m];
  }

  /**
    What a broker's operation reports as committed is durable and has the payload it set out to
    commit; a refresh that succeeds brings the acceptable candidate of its adapter or, without a
    dispatch, a credential of the caller's account that is newer than the caller's.
   */
  lemma SuccessIsDurable(run: seq<System>, i: nat, a: nat)
    requires Run(run) && i < |run| && a in run[i].world.actors
    requires run[i].world.actors[a].stage.Finished? && !run[i].world.actors[a].stage.result.Threw?
    ensures var actor := run[i].world.actors[a];
            var record := actor.stage.result.record;
            && 0 < record.generation <= run[i].store.durable <= |run[i].store.log|
            && run[i].store.log[record.generation - 1] == record
            && (actor.desired.Some? ==> actor.desired.value == record.payload)
            && (actor.stage.result.Succeeded? && actor.goal.Refresh? ==>
                  if actor.reservation.Some? then BS.Refreshed(actor, record.payload)
                  else BS.Newer(actor.goal.expectation, record))
  {
    RunKeepsInv(run, i);
    assert BS.ActorOk(DR.Abstract(run[i].store), run[i].world, run[i].world.actors[a]);
  }

  /**
    An error that its caller may simply try again is safe to try again: the adapter was never
    called for the attempt, or it reported that it had sent nothing.
   */
  lemma RetryableMeansUnsent(run: seq<System>, i: nat, a: nat)
    requires Run(run) && i < |run| && a in run[i].world.actors
    requires var actor := run[i].world.actors[a];
             actor.stage.Finished? && !actor.stage.result.Succeeded? && Retryable(actor.stage.result.code)
    ensures var attemptId := run[i].world.actors[a].attemptId;
            attemptId.Some? ==>
              BS.NotCalled(run[i].world, attemptId.value) || BS.ReportedUnsent(run[i].world, attemptId.value)
  {
    RunKeepsInv(run, i);
    assert BS.ActorOk(DR.Abstract(run[i].store), run[i].world, run[i].world.actors[a]);
  }

  /**
    In every run, leaving the blocked state keeps account and user. A source token comes back only
    with the whole source credential, over the reservation of an attempt for which the adapter was
    called and reported that it had sent nothing. A recovery brings back neither token and clears
    exactly the reservation that it names.
   */
  lemma UnblockingInARunKeepsIdentity(run: seq<System>, i: nat, m: nat) returns (start: nat)
    requires Run(run) && i < |run| && 0 < m < |run[i].store.log|
    requires run[i].store.log[m - 1].payload.Blocked? && run[i].store.log[m].payload.Ready?
    ensures BS.FencedSince(run[i].store.log, start, m - 1)
    ensures run[i].store.log[m].commitId in run[i].world.intents
    ensures var source, next := run[i].store.log[start].payload.credential, run[i].store.log[m].payload.credential;
            var attemptId := run[i].store.log[m - 1].payload.fence.reservationId;
            var purpose := run[i].world.intents[run[i].store.log[m].commitId].purpose;
            && next.accountId == source.accountId
            && next.userId == source.userId
            && (next.accessToken == source.accessToken || next.refreshToken == source.refreshToken ==>
                  && next == source
                  && run[i].store.log[m - 1].payload == Reservation(source, attemptId)
                  && BS.ReportedUnsent(run[i].world, attemptId))
            && (purpose.Recovering? ==>
                  && next.accessToken != source.accessToken
                  && next.refreshToken != source.refreshToken
                  && purpose.reservationId == attemptId)
  {
    RunKeepsInv(run, i);
    start := BS.UnblockingKeepsIdentity(DR.Abstract(run[i].store), run[i].world, m);
  }

  /** The step from `i` puts a record at place `m` of the history. */
  ghost predicate Applies(run: seq<System>, i: nat, m: nat) {
    && i + 1 < |run|
    && |run[i].store.log| == m
    && |run[i + 1].store.log| == m + 1
  }

  /**
    A request replaces the record at most once in a run, across all crashes: a request names the
    generation it replaces, so a second application would put a record at the same place. That
    happens only when the first was lost in a crash, never durable and never reported to anyone.
   */
  lemma AppliedAgainMeansLost(run: seq<System>, i: nat, j: nat, m: nat)
    requires Run(run) && i < j && Applies(run, i, m) && Applies(run, j, m)
    ensures forall t :: i < t <= j ==> run[t].store.durable <= m
    ensures forall t, r :: i < t <= j && r in run[t].store.reported ==> r.generation <= m
  {
    hide Run;
    forall t | i < t <= j
      ensures run[t].store.durable <= m
      ensures forall r :: r in run[t].store.reported ==> r.generation <= m
    {
      RunKeepsHistory(run, t, j);
      ReportedIsDurable(run, t);
    }
  }

  lemma ReportedIsDurable(run: seq<System>, t: nat)
    requires Run(run) && t < |run|
    ensures forall r :: r in run[t].store.reported ==> r.generation <= run[t].store.durable
  {
    RunKeepsInv(run, t);
    assert forall r :: r in run[t].store.reported ==> R.Kept(DR.Abstract(run[t].store), r);
  }

  /** Once a record is durable, no later step puts anything in its place, so no retry applies again. */
  lemma DurableIsAppliedOnce(run: seq<System>, i: nat, j: nat, m: nat)
    requires Run(run) && i <= j < |run| && m < run[i].store.durable
    ensures m < |run[i].store.log| && m < |run[j].store.log| && run[j].store.log[m] == run[i].store.log[m]
    ensures !Applies(run, j, m)
  {
    hide Run;
    RunKeepsHistory(run, i, j);
    assert run[j].store.log[..run[i].store.durable][m] == run[i].store.log[..run[i].store.durable][m];
  }
}
