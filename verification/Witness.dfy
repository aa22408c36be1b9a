/**
  A run of the whole system, built step by step: brokers install, reserve, recover and call the
  adapter over the store with its locks and disk. It shows that such runs exist, and that two
  dispatches with one credential need not be separated along the clock when one of them is late.
 */
module Witness {
  import opened Options
  import opened Payloads
  import opened StoreErrors
  import D = DiskStore
  import DR = DiskRefinement
  import R = Register
  import B = Broker
  import BS = BrokerSafety
  import opened EndToEnd

  // Reachability

  ghost predicate Path(run: seq<System>) {
    run != [] && forall i :: 0 <= i < |run| - 1 ==> Step(run[i], run[i + 1])
  }

  ghost predicate Reaches(s: System, t: System) {
    exists run :: Path(run) && run[0] == s && run[|run| - 1] == t
  }

  lemma Stay(s: System)
    ensures Reaches(s, s)
  {
    assert Path([s]);
  }

  lemma Then(s: System, t: System, u: System)
    requires Reaches(s, t) && Step(t, u)
    ensures Reaches(s, u)
  {
    hide Step;
    var run :| Path(run) && run[0] == s && run[|run| - 1] == t;
    var longer := run + [u];
    forall i | 0 <= i < |longer| - 1
      ensures Step(longer[i], longer[i + 1])
    {
      assert i < |run| - 1 ==> longer[i] == run[i] && longer[i + 1] == run[i + 1];
    }
    assert Path(longer);
  }

  lemma {:induction false} PathKeepsInv(run: seq<System>, i: nat)
    requires Path(run) && Inv(run[0]) && i < |run|
    ensures Inv(run[i])
  {
    hide Step, Inv;
    if i > 0 {
      PathKeepsInv(run, i - 1);
      StepKeepsInv(run[i - 1], run[i]);
    }
  }

  lemma ReachesKeepsInv(s: System, t: System)
    requires Inv(s) && Reaches(s, t)
    ensures Inv(t)
  {
    hide Step, Inv;
    var run :| Path(run) && run[0] == s && run[|run| - 1] == t;
    PathKeepsInv(run, |run| - 1);
  }

  lemma Chain(s: System, t: System, u: System)
    requires Reaches(s, t) && Reaches(t, u)
    ensures Reaches(s, u)
  {
    hide Step;
    var run :| Path(run) && run[0] == t && run[|run| - 1] == u;
    ChainUpTo(s, run, |run| - 1);
  }

  lemma {:induction false} ChainUpTo(s: System, run: seq<System>, i: nat)
    requires Path(run) && Reaches(s, run[0]) && i < |run|
    ensures Reaches(s, run[i])
  {
    hide Step;
    if i > 0 {
      ChainUpTo(s, run, i - 1);
      Then(s, run[i - 1], run[i]);
    }
  }

  /** The store moves alone. */
  lemma StoreThen(s: System, t: System, store: D.State)
    requires Reaches(s, t) && D.Step(t.store, store, R.Internal)
    ensures Reaches(s, t.(store := store))
  {
    hide D.Step, Reaches;
    assert B.Step(t.world, t.world, R.Internal);
    Then(s, t, t.(store := store));
  }

  lemma ClientThen(s: System, t: System, store: D.State, id: nat)
    requires Reaches(s, t) && D.ClientStep(t.store, store, id)
    ensures Reaches(s, t.(store := store))
  {
    hide D.ClientStep, Reaches;
    StoreThen(s, t, store);
  }

  lemma HolderThen(s: System, t: System, store: D.State, id: nat)
    requires Reaches(s, t) && D.HolderStep(t.store, store, id)
    ensures Reaches(s, t.(store := store))
  {
    hide D.HolderStep, Reaches;
    StoreThen(s, t, store);
  }

  // One transaction on a store where nothing else happens

  ghost predicate Quiet(st: D.State) {
    st.owner.None? && st.temps == {}
  }

  /** The transaction has the lock and has looked at the canonical file. */
  ghost predicate HasLooked(before: D.State, st: D.State, t: nat) {
    && t in before.txs
    && st == D.With(before, t, before.txs[t].(pc := D.Looked, holder := D.Alive, seen := Some(|before.log|),
                                              current := R.Latest(before.log))).(owner := Some(t))
  }

  lemma TakeLock(s: System, t: nat) returns (u: System)
    requires DR.DiskOk(s.store) && Quiet(s.store) && D.Active(s.store, t, D.Starting)
    ensures Reaches(s, u) && u.world == s.world
    ensures HasLooked(s.store, u.store, t)
  {
    hide Reaches;
    var st, tx := s.store, s.store.txs[t];
    Stay(s);
    var locked := D.With(st, t, tx.(pc := D.Locked, holder := D.Alive)).(owner := Some(t));
    assert D.AcquireLock(st, locked, t);
    ClientThen(s, s, locked, t);
    var inspected := D.With(locked, t, locked.txs[t].(pc := D.Inspected));
    assert D.Inspect(locked, inspected, t);
    ClientThen(s, s.(store := locked), inspected, t);
    assert DR.EntryOk(st, D.Entry(st), |st.log|);
    var looked := D.With(inspected, t, inspected.txs[t].(seen := Some(|st.log|), current := R.Latest(st.log), pc := D.Looked));
    assert D.ReadCanonical(inspected, looked, t);
    ClientThen(s, s.(store := inspected), looked, t);
    u := s.(store := looked);
    assert looked.txs == st.txs[t := looked.txs[t]];
  }

  /** The transaction is done and its caller is about to hear of it. */
  lemma GiveLockBack(s: System, t: nat, outcome: R.Outcome) returns (u: System)
    requires D.Active(s.store, t, D.Closing(outcome)) && s.store.txs[t].holder.Alive? && s.store.owner == Some(t)
    ensures Reaches(s, u) && u.world == s.world
    ensures u.store == D.With(s.store, t, s.store.txs[t].(pc := D.Returning(outcome), holder := D.Gone)).(owner := None)
  {
    hide Reaches;
    var st := s.store;
    Stay(s);
    var freed := D.With(st, t, st.txs[t].(holder := D.Gone)).(owner := None);
    assert D.HolderDies(st, freed, t);
    HolderThen(s, s, freed, t);
    var done := D.With(freed, t, freed.txs[t].(pc := D.Returning(outcome)));
    assert D.Release(freed, done, t);
    ClientThen(s, s.(store := freed), done, t);
    u := s.(store := done);
    assert done.txs == st.txs[t := done.txs[t]];
  }

  /** A read, from its start to the moment before its answer. */
  lemma StoreReads(s: System, t: nat) returns (u: System)
    requires DR.DiskOk(s.store) && Quiet(s.store) && D.Active(s.store, t, D.Starting)
    requires s.store.txs[t].request.Read?
    ensures Reaches(s, u) && u.world == s.world && Quiet(u.store)
    ensures D.Active(u.store, t, D.Returning(R.Found(R.Latest(s.store.log))))
    ensures u.store.log == s.store.log && u.store.txs.Keys == s.store.txs.Keys
  {
    hide Reaches, DR.DiskOk;
    assert s.store.trail != [] by {
      TrailIsNotEmpty(s.store);
    }
    var v := TakeLock(s, t);
    var found := R.Found(R.Latest(s.store.log));
    var closing := D.With(D.SyncedDirectory(v.store), t, v.store.txs[t].(pc := D.Closing(found)));
    assert D.ReportLook(v.store, closing, t);
    ClientThen(s, v, closing, t);
    var w := v.(store := closing);
    u := GiveLockBack(w, t, found);
    Chain(s, w, u);
  }

  lemma TrailIsNotEmpty(st: D.State)
    requires DR.DiskOk(st)
    ensures st.trail != []
  {
  }

  lemma CreateTempIsAStep(st: D.State, st': D.State, t: nat, inode: nat)
    requires D.CreateTemp(st, st', t, inode)
    ensures D.ClientStep(st, st', t)
  {
  }

  lemma WriteTempIsAStep(st: D.State, st': D.State, t: nat)
    requires D.WriteTemp(st, st', t)
    ensures D.ClientStep(st, st', t)
  {
  }

  lemma SyncTempIsAStep(st: D.State, st': D.State, t: nat)
    requires D.SyncTemp(st, st', t)
    ensures D.ClientStep(st, st', t)
  {
  }

  /** Writing the temporary file, up to its sync. */
  lemma WriteDraft(s: System, t: nat, inode: nat, record: R.Record) returns (u: System)
    requires D.Active(s.store, t, D.Looked) && inode !in s.store.files
    requires var tx := s.store.txs[t];
             !tx.request.Read? && R.Decide(tx.request, tx.current) == R.Write(record)
    ensures Reaches(s, u) && u.world == s.world
    ensures u.store == D.With(s.store, t, s.store.txs[t].(pc := D.TempSynced, temp := inode, draft := Some(record)))
                       .(files := s.store.files[inode := D.File(Some(record), true)], temps := s.store.temps + {inode})
  {
    hide Reaches, R.Decide, D.ClientStep;
    var st := s.store;
    Stay(s);
    var created := D.With(st, t, st.txs[t].(pc := D.TempCreated, temp := inode, draft := Some(record)))
                   .(files := st.files[inode := D.File(None, false)], temps := st.temps + {inode});
    CreateTempIsAStep(st, created, t, inode);
    ClientThen(s, s, created, t);
    var written := D.With(created, t, created.txs[t].(pc := D.TempWritten))
                   .(files := created.files[inode := D.File(Some(record), false)]);
    WriteTempIsAStep(created, written, t);
    ClientThen(s, s.(store := created), written, t);
    var synced := D.With(written, t, written.txs[t].(pc := D.TempSynced))
                  .(files := written.files[inode := D.File(Some(record), true)]);
    SyncTempIsAStep(written, synced, t);
    ClientThen(s, s.(store := written), synced, t);
    u := s.(store := synced);
    assert synced.txs == st.txs[t := synced.txs[t]];
    assert synced.files == st.files[inode := D.File(Some(record), true)];
  }

  /** The rename, asked for, performed and confirmed. */
  lemma RenameDraft(s: System, t: nat, record: R.Record) returns (u: System)
    requires D.Active(s.store, t, D.TempSynced) && s.store.txs[t].holder.Alive?
    requires var tx := s.store.txs[t];
             tx.temp in s.store.temps && tx.temp in s.store.files && s.store.files[tx.temp].content == Some(record)
    ensures Reaches(s, u) && u.world == s.world
    ensures var tx := s.store.txs[t];
            u.store == D.With(s.store, t, tx.(pc := D.Acknowledged, command := D.Answered(D.Confirmed), renamed := true))
                       .(trail := s.store.trail + [Some(tx.temp)], temps := s.store.temps - {tx.temp},
                         log := s.store.log + [record])
  {
    hide Reaches;
    var st, tx := s.store, s.store.txs[t];
    Stay(s);
    var asked := D.With(st, t, tx.(pc := D.Asked, command := D.Queued));
    assert D.AskRename(st, asked, t);
    ClientThen(s, s, asked, t);
    var renamed := D.With(asked, t, asked.txs[t].(command := D.Performed, renamed := true))
                   .(trail := asked.trail + [Some(tx.temp)], temps := asked.temps - {tx.temp}, log := asked.log + [record]);
    assert D.HolderRenames(asked, renamed, t);
    HolderThen(s, s.(store := asked), renamed, t);
    var answered := D.With(renamed, t, renamed.txs[t].(command := D.Answered(D.Confirmed)));
    assert D.HolderAnswers(renamed, answered, t, D.Confirmed);
    HolderThen(s, s.(store := renamed), answered, t);
    var heard := D.With(answered, t, answered.txs[t].(pc := D.Acknowledged));
    assert D.ReceiveAnswer(answered, heard, t);
    ClientThen(s, s.(store := answered), heard, t);
    u := s.(store := heard);
    assert heard.txs == st.txs[t := heard.txs[t]];
  }

  /** The directory sync and the readback. */
  lemma ConfirmRename(s: System, t: nat, record: R.Record) returns (u: System)
    requires D.Active(s.store, t, D.Acknowledged) && s.store.txs[t].draft == Some(record)
    requires s.store.trail != [] && D.Entry(s.store) == Some(s.store.txs[t].temp)
    requires s.store.txs[t].temp in s.store.files && s.store.files[s.store.txs[t].temp].content == Some(record)
    ensures Reaches(s, u) && u.world == s.world
    ensures u.store == D.With(D.SyncedDirectory(s.store), t, s.store.txs[t].(pc := D.Closing(R.Stored(record, false))))
  {
    hide Reaches;
    var st := s.store;
    Stay(s);
    var synced := D.With(D.SyncedDirectory(st), t, st.txs[t].(pc := D.DirectorySynced));
    assert D.SyncDirectory(st, synced, t);
    ClientThen(s, s, synced, t);
    var read := D.With(synced, t, synced.txs[t].(pc := D.Closing(R.Stored(record, false))));
    assert D.ReadBack(synced, read, t);
    ClientThen(s, s.(store := synced), read, t);
    u := s.(store := read);
    assert read.txs == st.txs[t := read.txs[t]];
  }

  /** A compare-and-swap that writes, from its start to the moment before its answer. */
  lemma StoreSwaps(s: System, t: nat, record: R.Record) returns (u: System)
    requires DR.DiskOk(s.store) && Quiet(s.store) && D.Active(s.store, t, D.Starting)
    requires var request := s.store.txs[t].request;
             request.Swap? && R.Decide(request, R.Latest(s.store.log)) == R.Write(record)
    ensures Reaches(s, u) && u.world == s.world && Quiet(u.store)
    ensures D.Active(u.store, t, D.Returning(R.Stored(record, false)))
    ensures u.store.log == s.store.log + [record] && u.store.txs.Keys == s.store.txs.Keys
  {
    hide Reaches, DR.DiskOk, R.Decide;
    TrailIsNotEmpty(s.store);
    var looked := TakeLock(s, t);
    var inode := FreshNumber(s.store.files.Keys);
    var drafted := WriteDraft(looked, t, inode, record);
    Chain(s, looked, drafted);
    var renamed := RenameDraft(drafted, t, record);
    Chain(s, drafted, renamed);
    var closing := ConfirmRename(renamed, t, record);
    Chain(s, renamed, closing);
    u := GiveLockBack(closing, t, R.Stored(record, false));
    Chain(s, closing, u);
  }

  lemma FreshNumber(used: set<nat>) returns (n: nat)
    ensures n !in used
  {
    n := Above(used);
  }

  lemma {:induction false} Above(used: set<nat>) returns (n: nat)
    ensures forall m :: m in used ==> m < n
    decreases |used|
  {
    if used == {} {
      n := 0;
    } else {
      var m :| m in used;
      var k := Above(used - {m});
      n := if m < k then k else m + 1;
      assert forall x :: x in used ==> x == m || x in used - {m};
    }
  }

  // One store call of an actor

  /** The actor asks the store, which has nothing else to do. */
  lemma Asks(s: System, i: nat, t: nat, request: R.Request) returns (u: System)
    requires i in s.world.actors && s.world.actors[i].call.None? && B.Wanted(s.world.actors[i]) == Some(request)
    requires t !in s.store.txs
    ensures Reaches(s, u)
    ensures u.world == s.world.(actors := s.world.actors[i := s.world.actors[i].(call := Some(t))])
    ensures u.store == D.With(s.store, t, D.Transaction(request, D.Starting, D.NotStarted, D.Unsent, None, 0, None, None, false))
  {
    hide Reaches, B.Wanted;
    Stay(s);
    u := System(
      D.With(s.store, t, D.Transaction(request, D.Starting, D.NotStarted, D.Unsent, None, 0, None, None, false)),
      s.world.(actors := s.world.actors[i := s.world.actors[i].(call := Some(t))]));
    assert D.Step(s.store, u.store, R.Begin(t, request));
    assert B.Ask(s.world, u.world, i, t, request);
    Then(s, s, u);
  }

  /** The store answers, and the actor goes on. */
  lemma Hears(s: System, i: nat, t: nat, outcome: R.Outcome, attemptId: nat, commitId: nat) returns (u: System)
    requires i in s.world.actors && s.world.actors[i].call == Some(t) && D.Active(s.store, t, D.Returning(outcome))
    requires attemptId !in s.world.attempts && commitId !in s.world.intents
    ensures Reaches(s, u)
    ensures u.world == B.Update(s.world, i, B.Resume(s.world.actors[i].(call := None), outcome, attemptId, commitId))
    ensures u.store.log == s.store.log && u.store.owner == s.store.owner && u.store.temps == s.store.temps
  {
    hide Reaches, B.Resume, B.Update;
    Stay(s);
    u := System(
      D.With(s.store, t, s.store.txs[t].(pc := D.Returned(outcome))).(reported := s.store.reported + R.RecordsIn(outcome)),
      B.Update(s.world, i, B.Resume(s.world.actors[i].(call := None), outcome, attemptId, commitId)));
    assert D.Step(s.store, u.store, R.Respond(t, outcome));
    assert B.Answer(s.world, u.world, i, t, outcome, attemptId, commitId);
    Then(s, s, u);
  }

  /** What an actor makes of an answer, in an otherwise unchanged world. */
  function Moved(w: B.World, i: nat, outcome: R.Outcome, attemptId: nat, commitId: nat): B.World
    requires i in w.actors
  {
    B.Update(w, i, B.Resume(w.actors[i], outcome, attemptId, commitId))
  }

  /** An actor that waits for no call, on a quiet store. */
  ghost predicate Idle(s: System, i: nat) {
    Inv(s) && Quiet(s.store) && i in s.world.actors && s.world.actors[i].call.None?
  }

  lemma MovedForgets(w: B.World, asked: B.World, i: nat, t: nat, outcome: R.Outcome, attemptId: nat, commitId: nat)
    requires i in w.actors && w.actors[i].call.None?
    requires asked == w.(actors := w.actors[i := w.actors[i].(call := Some(t))])
    ensures B.Update(asked, i, B.Resume(asked.actors[i].(call := None), outcome, attemptId, commitId))
         == Moved(w, i, outcome, attemptId, commitId)
  {
    hide B.Resume, B.Update;
    assert asked.actors[i].(call := None) == w.actors[i];
    BS.UpdateForgets(w, asked, i, B.Resume(w.actors[i], outcome, attemptId, commitId));
  }

  lemma ReadRound(s: System, i: nat, attemptId: nat, commitId: nat) returns (u: System)
    requires Idle(s, i) && B.Wanted(s.world.actors[i]) == Some(R.Read)
    requires attemptId !in s.world.attempts && commitId !in s.world.intents
    ensures Reaches(s, u) && Inv(u) && Quiet(u.store) && u.store.log == s.store.log
    ensures u.world == Moved(s.world, i, R.Found(R.Latest(s.store.log)), attemptId, commitId)
  {
    hide Reaches, Inv, B.Wanted, B.Resume, B.Update, DR.DiskOk;
    var t := FreshNumber(s.store.txs.Keys);
    var asked := Asks(s, i, t, R.Read);
    DiskIsOk(s, asked);
    var found := R.Found(R.Latest(s.store.log));
    var ready := StoreReads(asked, t);
    Chain(s, asked, ready);
    u := Hears(ready, i, t, found, attemptId, commitId);
    Chain(s, ready, u);
    MovedForgets(s.world, asked.world, i, t, found, attemptId, commitId);
    ReachesKeepsInv(s, u);
  }

  lemma DiskIsOk(s: System, t: System)
    requires Inv(s) && Reaches(s, t)
    ensures Inv(t) && DR.DiskOk(t.store)
  {
    hide Reaches;
    ReachesKeepsInv(s, t);
    hide DR.DiskOk;
  }

  lemma SwapRound(s: System, i: nat, record: R.Record, attemptId: nat, commitId: nat) returns (u: System)
    requires Idle(s, i) && attemptId !in s.world.attempts && commitId !in s.world.intents
    requires var wanted := B.Wanted(s.world.actors[i]);
             wanted.Some? && wanted.value.Swap? && R.Decide(wanted.value, R.Latest(s.store.log)) == R.Write(record)
    ensures Reaches(s, u) && Inv(u) && Quiet(u.store) && u.store.log == s.store.log + [record]
    ensures u.world == Moved(s.world, i, R.Stored(record, false), attemptId, commitId)
  {
    hide Reaches, Inv, B.Wanted, B.Resume, B.Update, DR.DiskOk, R.Decide;
    var t := FreshNumber(s.store.txs.Keys);
    var asked := Asks(s, i, t, B.Wanted(s.world.actors[i]).value);
    DiskIsOk(s, asked);
    var ready := StoreSwaps(asked, t, record);
    Chain(s, asked, ready);
    u := Hears(ready, i, t, R.Stored(record, false), attemptId, commitId);
    Chain(s, ready, u);
    MovedForgets(s.world, asked.world, i, t, R.Stored(record, false), attemptId, commitId);
    ReachesKeepsInv(s, u);
  }

  // One operation of a broker

  function Committed(log: seq<R.Record>, commitId: nat, payload: Payload): R.Record {
    R.Record(|log| + 1, |log|, commitId, R.CompareAndSwap, payload)
  }

  /** A first attempt at the latest generation. */
  function FirstTry(log: seq<R.Record>, commitId: nat, payload: Payload): B.Attempt {
    B.Attempt(|log|, payload, commitId, false, false, false, None)
  }

  lemma SwapIsDecided(s: System, commitId: nat, payload: Payload)
    requires Inv(s) && |s.store.log| < R.MAX_GENERATION
    requires s.store.log != [] ==> s.store.log[|s.store.log| - 1].commitId != commitId
    ensures R.Decide(R.Swap(|s.store.log|, commitId, payload), R.Latest(s.store.log))
         == R.Write(Committed(s.store.log, commitId, payload))
  {
    assert R.Numbered(s.store.log);
    hide Inv;
  }

  /** What the store's confirmation and the readback make of an actor. */
  lemma SwapIsConfirmed(a: B.Actor, log: seq<R.Record>, commitId: nat, payload: Payload, x: nat, y: nat)
    requires a.stage == B.Swapping(FirstTry(log, commitId, payload))
    ensures var record := Committed(log, commitId, payload);
            var b := a.(stage := B.Confirming(a.stage.attempt.(committed := Some(record.generation))));
            && B.Resume(a, R.Stored(record, false), x, y) == b
            && B.Resume(b, R.Found(Some(record)), x, y) == B.AfterProof(a, record)
  {
  }

  /** Nothing is recorded for an actor that starts no attempt and whose reservation and reply are known. */
  lemma UpdateOnlyStores(w: B.World, i: nat, a: B.Actor)
    requires !a.stage.Swapping? && (a.attemptId.Some? ==> a.attemptId.value in w.attempts)
    requires a.attemptId.Some? && a.reply.Some? ==> a.attemptId.value in w.replies
    ensures B.Update(w, i, a) == w.(actors := w.actors[i := a])
  {
  }

  lemma AttemptIsKnown(s: System, i: nat)
    requires Inv(s) && i in s.world.actors && s.world.actors[i].attemptId.Some?
    ensures s.world.actors[i].attemptId.value in s.world.attempts
    ensures s.world.actors[i].reply.Some? ==> s.world.actors[i].attemptId.value in s.world.replies
  {
    assert BS.ActorOk(DR.Abstract(s.store), s.world, s.world.actors[i]);
  }

  lemma CommitRound(s: System, i: nat, commitId: nat, payload: Payload) returns (u: System)
    requires Idle(s, i) && |s.store.log| < R.MAX_GENERATION
    requires s.store.log != [] ==> s.store.log[|s.store.log| - 1].commitId != commitId
    requires s.world.actors[i].stage == B.Swapping(FirstTry(s.store.log, commitId, payload))
    ensures Reaches(s, u) && Inv(u) && Quiet(u.store)
    ensures var record := Committed(s.store.log, commitId, payload);
            && u.store.log == s.store.log + [record]
            && u.world == s.world.(actors := s.world.actors[i := B.AfterProof(s.world.actors[i], record)])
  {
    hide Reaches, Inv, B.Resume, B.Update, R.Decide, B.AfterProof;
    var a, w, record := s.world.actors[i], s.world, Committed(s.store.log, commitId, payload);
    var x := FreshNumber(w.attempts.Keys);
    var y := FreshNumber(w.intents.Keys);
    if a.attemptId.Some? {
      AttemptIsKnown(s, i);
    }
    SwapIsDecided(s, commitId, payload);
    SwapIsConfirmed(a, s.store.log, commitId, payload, x, y);
    var b := a.(stage := B.Confirming(a.stage.attempt.(committed := Some(record.generation))));
    UpdateOnlyStores(w, i, b);
    var v := SwapRound(s, i, record, x, y);
    assert v.world == w.(actors := w.actors[i := b]);
    assert R.Latest(v.store.log) == Some(record);
    u := ReadRound(v, i, x, y);
    Chain(s, v, u);
    ProofKeepsAttempt(a, record);
    UpdateOnlyStores(v.world, i, B.AfterProof(a, record));
    assert v.world.actors[i := B.AfterProof(a, record)] == w.actors[i := B.AfterProof(a, record)];
  }

  lemma ProofKeepsAttempt(a: B.Actor, record: R.Record)
    ensures !B.AfterProof(a, record).stage.Swapping? && B.AfterProof(a, record).attemptId == a.attemptId
    ensures B.AfterProof(a, record).reply == a.reply
  {
  }

  /** Install, reservation or recovery, from its start to its success. */
  lemma Operation(s: System, i: nat, goal: B.Goal, attemptId: nat, commitId: nat, payload: Payload) returns (u: System)
    requires Inv(s) && Quiet(s.store) && i !in s.world.actors && |s.store.log| < R.MAX_GENERATION
    requires attemptId !in s.world.attempts && commitId !in s.world.intents && !goal.Rekey?
    requires s.store.log != [] ==> s.store.log[|s.store.log| - 1].commitId != commitId
    requires B.Open(B.Fresh(goal), R.Found(R.Latest(s.store.log)), attemptId, commitId).stage
          == B.Swapping(FirstTry(s.store.log, commitId, payload))
    requires B.Open(B.Fresh(goal), R.Found(R.Latest(s.store.log)), attemptId, commitId).call.None?
    ensures Reaches(s, u) && Inv(u) && Quiet(u.store)
    ensures var tried := B.Open(B.Fresh(goal), R.Found(R.Latest(s.store.log)), attemptId, commitId);
            var record := Committed(s.store.log, commitId, payload);
            && u.store.log == s.store.log + [record]
            && u.world.actors == s.world.actors[i := B.AfterProof(tried, record)]
            && u.world.intents.Keys == s.world.intents.Keys + {commitId}
            && u.world.attempts.Keys <= s.world.attempts.Keys + {attemptId}
            && u.world.dispatches == s.world.dispatches
  {
    hide Reaches, Inv, R.Decide, B.AfterProof, B.Open;
    var spawned := s.(world := s.world.(actors := s.world.actors[i := B.Fresh(goal)]));
    Stay(s);
    assert B.Spawn(s.world, spawned.world, i, goal);
    Then(s, s, spawned);
    ReachesKeepsInv(s, spawned);
    var begun := ReadRound(spawned, i, attemptId, commitId);
    Chain(s, spawned, begun);
    u := CommitRound(begun, i, commitId, payload);
    Chain(s, begun, u);
    var tried := B.Open(B.Fresh(goal), R.Found(R.Latest(s.store.log)), attemptId, commitId);
    OpenPicksAttempt(goal, R.Found(R.Latest(s.store.log)), attemptId, commitId);
    assert begun.world == B.Update(spawned.world, i, tried);
  }

  lemma OpenPicksAttempt(goal: B.Goal, outcome: R.Outcome, attemptId: nat, commitId: nat)
    ensures B.Open(B.Fresh(goal), outcome, attemptId, commitId).attemptId in {None, Some(attemptId)}
  {
  }

  // The run

  const START := System(D.State(map[], [None], {}, None, map[], [], 0, {}), B.World(map[], map[], map[], [], map[]))

  lemma StartIsSafe()
    ensures Init(START) && Inv(START) && Quiet(START.store)
  {
    assert Run([START]);
    RunKeepsInv([START], 0);
  }

  /** An install over nothing or over a ready record opens with a first try. */
  lemma InstallOpens(log: seq<R.Record>, c: Credential, x: nat, y: nat)
    requires R.Numbered(log) && (log != [] ==> log[|log| - 1].payload.Ready?)
    ensures var a := B.Open(B.Fresh(B.Install(c)), R.Found(R.Latest(log)), x, y);
            a.call.None? && a.stage == B.Swapping(FirstTry(log, y, Ready(c)))
  {
  }

  /** So does a refresh of a ready record, and it ends with its reservation. */
  lemma RefreshOpens(log: seq<R.Record>, c: Credential, x: nat, y: nat)
    requires R.Numbered(log) && log != [] && log[|log| - 1].payload == Ready(c)
    ensures var a := B.Open(B.Fresh(B.Refresh(None)), R.Found(R.Latest(log)), x, y);
            var record := Committed(log, y, Reservation(c, x));
            && a.call.None?
            && a.stage == B.Swapping(FirstTry(log, y, Reservation(c, x)))
            && HoldsBack(B.AfterProof(a, record), c, x, |log|)
  {
  }

  /** And a recovery of a blocked record. */
  lemma RecoveryOpens(log: seq<R.Record>, source: Credential, id: nat, c: Credential, x: nat, y: nat)
    requires R.Numbered(log) && log != [] && log[|log| - 1].payload == Reservation(source, id)
    requires Replaces(c, FenceOf(source, id))
    ensures var a := B.Open(B.Fresh(B.Recover(|log|, id, c)), R.Found(R.Latest(log)), x, y);
            a.call.None? && a.stage == B.Swapping(FirstTry(log, y, Ready(c)))
  {
  }

  /** A broker whose reservation, made at this index, was confirmed and that has not yet called the adapter. */
  ghost predicate HoldsBack(a: B.Actor, c: Credential, attemptId: nat, index: nat) {
    && a.stage.Reserved? && a.stage.record.generation == index + 1
    && a.attemptId == Some(attemptId)
    && a.before.Some? && a.before.value.payload == Ready(c)
  }

  lemma LogOf(s: System)
    requires Inv(s)
    ensures R.Numbered(s.store.log)
  {
  }

  /** A broker reserves a refresh of a freshly installed credential. */
  lemma FirstOwner(c: Credential) returns (s: System)
    ensures Reaches(START, s) && Inv(s) && Quiet(s.store)
    ensures |s.store.log| == 2 && s.store.log[1].payload == Reservation(c, 2) && s.store.log[1].commitId == 2
    ensures s.world.actors.Keys == {0, 1} && HoldsBack(s.world.actors[1], c, 2, 1)
    ensures s.world.intents.Keys == {1, 2} && s.world.attempts.Keys <= {1, 2} && s.world.dispatches == []
  {
    hide Reaches, Inv, B.Open, B.AfterProof, HoldsBack;
    StartIsSafe();
    InstallOpens([], c, 1, 1);
    var installed := Operation(START, 0, B.Install(c), 1, 1, Ready(c));
    LogOf(installed);
    RefreshOpens(installed.store.log, c, 2, 2);
    s := Operation(installed, 1, B.Refresh(None), 2, 2, Reservation(c, 2));
    Chain(START, installed, s);
  }

  /** An operator recovers it, and the credential is installed once more. */
  lemma Takeover(c: Credential, next: Credential) returns (s: System)
    requires Replaces(next, FenceOf(c, 2))
    ensures Reaches(START, s) && Inv(s) && Quiet(s.store)
    ensures |s.store.log| == 4 && s.store.log[1].payload == Reservation(c, 2)
    ensures s.store.log[3].payload == Ready(c) && s.store.log[3].commitId == 4
    ensures s.world.actors.Keys == {0, 1, 2, 3} && HoldsBack(s.world.actors[1], c, 2, 1)
    ensures s.world.intents.Keys == {1, 2, 3, 4} && s.world.attempts.Keys <= {1, 2, 3, 4} && s.world.dispatches == []
  {
    hide Reaches, Inv, B.Open, B.AfterProof, HoldsBack, Replaces;
    var reserved := FirstOwner(c);
    LogOf(reserved);
    RecoveryOpens(reserved.store.log, c, 2, next, 3, 3);
    var recovered := Operation(reserved, 2, B.Recover(2, 2, next), 3, 3, Ready(next));
    Chain(START, reserved, recovered);
    LogOf(recovered);
    InstallOpens(recovered.store.log, c, 4, 4);
    s := Operation(recovered, 3, B.Install(c), 4, 4, Ready(c));
    Chain(START, recovered, s);
  }

  /** A second broker reserves a refresh of the same credential. */
  lemma SecondOwner(c: Credential, next: Credential) returns (s: System)
    requires Replaces(next, FenceOf(c, 2))
    ensures Reaches(START, s) && Inv(s)
    ensures |s.store.log| == 5 && s.store.log[1].payload == Reservation(c, 2)
    ensures s.store.log[4].payload == Reservation(c, 5)
    ensures 1 in s.world.actors && HoldsBack(s.world.actors[1], c, 2, 1)
    ensures 4 in s.world.actors && HoldsBack(s.world.actors[4], c, 5, 4)
    ensures s.world.dispatches == []
  {
    hide Reaches, Inv, B.Open, B.AfterProof, HoldsBack, Replaces;
    var ready := Takeover(c, next);
    LogOf(ready);
    RefreshOpens(ready.store.log, c, 5, 5);
    s := Operation(ready, 4, B.Refresh(None), 5, 5, Reservation(c, 5));
    Chain(START, ready, s);
  }

  /** A broker that holds back may call the adapter at any time, whatever the record is by then. */
  lemma CallsAdapter(s: System, i: nat, c: Credential, attemptId: nat, index: nat) returns (u: System)
    requires i in s.world.actors && HoldsBack(s.world.actors[i], c, attemptId, index)
    ensures Step(s, u) && u.store == s.store
    ensures u.world.dispatches == s.world.dispatches + [B.Dispatch(attemptId, c, index)]
    ensures forall j :: j in s.world.actors && j != i ==> j in u.world.actors && u.world.actors[j] == s.world.actors[j]
  {
    var a := s.world.actors[i];
    u := s.(world := s.world.(actors := s.world.actors[i := a.(stage := B.Dispatched(a.stage.record))],
                              dispatches := s.world.dispatches + [B.Dispatch(attemptId, c, index)]));
    assert B.CallAdapter(s.world, u.world, i);
    assert B.LocalStep(s.world, u.world);
  }

  /**
    There is a run in which two brokers call the adapter with the same credential and nothing
    at all is committed in between: the second call is late, its reservation no longer stands.
   */
  lemma LateDispatch(c: Credential, next: Credential) returns (run: seq<System>, i: nat)
    requires next.accountId == c.accountId && next.userId == c.userId
    requires next.accessToken != c.accessToken && next.refreshToken != c.refreshToken
    ensures Run(run) && i + 1 < |run| && run[i + 1].store == run[i].store
    ensures run[i].world.dispatches == [B.Dispatch(5, c, 4)] && Standing(run[i], run[i].world.dispatches[0])
    ensures run[i + 1].world.dispatches == [B.Dispatch(5, c, 4), B.Dispatch(2, c, 1)]
    ensures !Standing(run[i + 1], run[i + 1].world.dispatches[1])
  {
    hide HoldsBack, Inv, Run, Step, Reaches, Replaces;
    ReplacesComparesSources(next, c, 2);
    var s := SecondOwner(c, next);
    var first := CallsAdapter(s, 4, c, 5, 4);
    var second := CallsAdapter(first, 1, c, 2, 1);
    Then(START, s, first);
    StartIsSafe();
    run, i := RunUpTo(START, first, second);
    assert second.store.log[4].payload != Reservation(c, 2);
  }

  /**
    The same with the late call first: nothing is committed in between either, though the second
    call is made while its own reservation stands.
   */
  lemma LateDispatchFirst(c: Credential, next: Credential) returns (run: seq<System>, i: nat)
    requires next.accountId == c.accountId && next.userId == c.userId
    requires next.accessToken != c.accessToken && next.refreshToken != c.refreshToken
    ensures Run(run) && i + 1 < |run| && run[i + 1].store == run[i].store
    ensures run[i].world.dispatches == [B.Dispatch(2, c, 1)] && !Standing(run[i], run[i].world.dispatches[0])
    ensures run[i + 1].world.dispatches == [B.Dispatch(2, c, 1), B.Dispatch(5, c, 4)]
    ensures Standing(run[i + 1], run[i + 1].world.dispatches[1])
  {
    hide HoldsBack, Inv, Run, Step, Reaches, Replaces;
    ReplacesComparesSources(next, c, 2);
    var s := SecondOwner(c, next);
    var first := CallsAdapter(s, 1, c, 2, 1);
    var second := CallsAdapter(first, 4, c, 5, 4);
    Then(START, s, first);
    StartIsSafe();
    run, i := RunUpTo(START, first, second);
    assert first.store.log[4].payload != Reservation(c, 2);
  }

  lemma RunUpTo(s: System, t: System, u: System) returns (run: seq<System>, i: nat)
    requires Init(s) && Reaches(s, t) && Step(t, u)
    ensures Run(run) && i + 1 < |run| && run[i] == t && run[i + 1] == u
  {
    hide Step, Init;
    var path :| Path(path) && path[0] == s && path[|path| - 1] == t;
    run, i := path + [u], |path| - 1;
    forall k | 0 <= k < |run| - 1
      ensures Step(run[k], run[k + 1])
    {
      assert k < |path| - 1 ==> run[k] == path[k] && run[k + 1] == path[k + 1];
    }
  }
}
