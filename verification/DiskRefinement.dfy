/**
  The store of module DiskStore behaves like the register of module Register: every step of
  the transactions, their holders, the operator and the machine is a step of the register.
 */
module DiskRefinement {
  import opened Options
  import opened Payloads
  import opened StoreErrors
  import opened DiskStore
  import R = Register

  function CallOf(tx: Transaction): R.Call {
    R.Call(tx.request, tx.seen, tx.renamed,
           !tx.pc.Returned? && !tx.pc.Abandoned?,
           if tx.pc.Returned? then Some(tx.pc.outcome) else None)
  }

  function Abstract(s: State): R.State {
    R.State(s.log, s.durable, map t | t in s.txs :: CallOf(s.txs[t]), s.reported)
  }

  // Invariant

  /** The canonical name meant a whole, synced file at every point a crash may return to. */
  ghost predicate EntryOk(s: State, entry: Option<nat>, length: nat) {
    && length <= |s.log|
    && if length == 0 then entry.None?
       else && entry.Some?
            && entry.value in s.files
            && s.files[entry.value] == File(Some(s.log[length - 1]), true)
  }

  ghost predicate DiskOk(s: State) {
    && s.durable <= |s.log|
    && |s.trail| == |s.log| - s.durable + 1
    && forall i :: 0 <= i < |s.trail| ==> EntryOk(s, s.trail[i], s.durable + i)
  }

  ghost predicate LookOk(s: State, tx: Transaction) {
    && (tx.seen.Some? ==> tx.seen.value <= |s.log| && tx.current == R.Latest(s.log[..tx.seen.value]))
    && (tx.draft.Some? ==>
          && tx.seen.Some?
          && !tx.request.Read?
          && R.Decide(tx.request, tx.current) == R.Write(tx.draft.value)
          && tx.draft.value.base == tx.request.expected == tx.seen.value)
  }

  ghost predicate FileOk(s: State, tx: Transaction) {
    tx.draft.Some? ==>
      && tx.temp in s.files
      && (tx.pc.TempWritten? ==> s.files[tx.temp].content == tx.draft)
      && (tx.pc.TempSynced? || !tx.command.Unsent? ==> s.files[tx.temp] == File(tx.draft, true))
      && (!tx.renamed ==> Some(tx.temp) !in s.trail)
      && (tx.renamed ==> tx.draft.value.base < |s.log| && s.log[tx.draft.value.base] == tx.draft.value)
  }

  ghost predicate CommandOk(tx: Transaction) {
    && (tx.command.Unsent? || tx.command.Queued? ==> !tx.renamed)
    && (tx.command.Performed? ==> tx.renamed)
    && (tx.command.Answered? ==> (tx.renamed <==> tx.command.answer in {Confirmed, Unsure}))
    && (!tx.command.Unsent? ==> tx.draft.Some?)
  }

  /** Only the lock's owner can have a live holder, so nothing changed since its look. */
  ghost predicate HolderOk(s: State, tx: Transaction) {
    tx.holder.Alive? && tx.seen.Some? ==> |s.log| == tx.seen.value + if tx.renamed then 1 else 0
  }

  ghost predicate PcOk(s: State, tx: Transaction) {
    match tx.pc
    case Starting => tx.holder.NotStarted? && tx.seen.None? && tx.draft.None?
    case Locked => tx.seen.None? && tx.draft.None?
    case Inspected => tx.seen.None? && tx.draft.None?
    case Looked => tx.seen.Some? && tx.draft.None?
    case TempCreated => tx.draft.Some? && tx.command.Unsent?
    case TempWritten => tx.draft.Some? && tx.command.Unsent?
    case TempSynced => tx.draft.Some? && tx.command.Unsent?
    case Asked => !tx.command.Unsent?
    case Acknowledged => tx.draft.Some? && tx.renamed
    case DirectorySynced => tx.draft.Some? && tx.renamed && tx.draft.value.base < s.durable
    case Closing(outcome) =>
      && R.Justified(s.log, s.durable, CallOf(tx), outcome)
      && StateOf(outcome) != Committed
      && (tx.command.Queued? ==> outcome == R.Failed(StoreError(CommitOutcomeUncertain, Uncertain)))
    case Returning(outcome) =>
      && R.Justified(s.log, s.durable, CallOf(tx), outcome)
      && (tx.holder.Alive? && tx.command.Queued? ==> outcome == R.Failed(StoreError(LockReleaseFailed, Uncertain)))
    case Returned(outcome) =>
      tx.holder.Alive? && tx.command.Queued? ==> outcome == R.Failed(StoreError(LockReleaseFailed, Uncertain))
    case Abandoned => true
  }

  ghost predicate TxOk(s: State, tx: Transaction) {
    LookOk(s, tx) && FileOk(s, tx) && CommandOk(tx) && HolderOk(s, tx) && PcOk(s, tx)
  }

  ghost predicate LockOk(s: State) {
    && (s.owner.Some? ==> s.owner.value in s.txs)
    && forall t :: t in s.txs ==> (s.txs[t].holder.Alive? <==> s.owner == Some(t))
  }

  ghost predicate TempsDistinct(s: State) {
    forall t, u | t in s.txs && u in s.txs && t != u ::
      s.txs[t].draft.Some? && s.txs[u].draft.Some? ==> s.txs[t].temp != s.txs[u].temp
  }

  ghost predicate Inv(s: State) {
    && R.Inv(Abstract(s))
    && DiskOk(s)
    && LockOk(s)
    && TempsDistinct(s)
    && forall t :: t in s.txs ==> TxOk(s, s.txs[t])
  }

  lemma InitInv(s: State)
    requires Init(s)
    ensures Inv(s) && R.Init(Abstract(s))
  {
  }

  lemma LogIsNumbered(s: State)
    requires Inv(s)
    ensures R.Numbered(s.log) && s.durable <= |s.log|
  {
  }

  // Steps that leave the disk alone

  /** Justification reads only the history, which a quiet step does not touch. */
  ghost predicate SameDisk(s: State, s': State) {
    && s'.files == s.files
    && s'.trail == s.trail
    && s'.log == s.log
    && s'.durable == s.durable
  }

  lemma TxOkFrame(s: State, s': State, tx: Transaction)
    requires TxOk(s, tx) && SameDisk(s, s')
    ensures TxOk(s', tx)
  {
  }

  /** A step of one transaction that leaves the disk alone keeps everybody else's facts. */
  lemma QuietStep(s: State, s': State, t: nat)
    requires Inv(s) && SameDisk(s, s')
    requires t in s'.txs && s'.txs.Keys == s.txs.Keys + {t}
    requires forall u :: u in s.txs && u != t ==> s'.txs[u] == s.txs[u]
    requires LockOk(s')
    requires t in s.txs ==> s'.txs[t].temp == s.txs[t].temp && s'.txs[t].draft == s.txs[t].draft
    requires t !in s.txs ==> s'.txs[t].draft.None?
    requires TxOk(s', s'.txs[t])
    ensures DiskOk(s') && TempsDistinct(s')
    ensures forall u :: u in s'.txs ==> TxOk(s', s'.txs[u])
  {
    forall i | 0 <= i < |s'.trail|
      ensures EntryOk(s', s'.trail[i], s'.durable + i)
    {
      assert EntryOk(s, s.trail[i], s.durable + i);
    }
    forall u | u in s'.txs
      ensures TxOk(s', s'.txs[u])
    {
      if u != t {
        assert TxOk(s, s.txs[u]);
        TxOkFrame(s, s', s.txs[u]);
      }
    }
  }

  lemma SameCalls(s: State, s': State)
    requires s'.txs.Keys == s.txs.Keys && s'.log == s.log && s'.durable == s.durable && s'.reported == s.reported
    requires forall t :: t in s.txs ==> CallOf(s'.txs[t]) == CallOf(s.txs[t])
    ensures Abstract(s') == Abstract(s)
  {
    assert Abstract(s').calls == Abstract(s).calls;
  }

  lemma CallMoves(s: State, s': State, t: nat, tx: Transaction)
    requires s'.txs == s.txs[t := tx]
    ensures Abstract(s').calls == Abstract(s).calls[t := CallOf(tx)]
  {
    hide CallOf;
  }

  /** One transaction moves on and nothing that its caller could notice happens. */
  lemma SilentStep(s: State, s': State, t: nat, tx: Transaction)
    requires Inv(s) && t in s.txs && s' == With(s, t, tx)
    requires CallOf(tx) == CallOf(s.txs[t])
    requires tx.temp == s.txs[t].temp && tx.draft == s.txs[t].draft && tx.holder == s.txs[t].holder
    requires TxOk(s', tx)
    ensures Inv(s') && Abstract(s') == Abstract(s)
  {
    hide R.Inv, TxOk, DiskOk;
    QuietStep(s, s', t);
    SameCalls(s, s');
  }

  lemma InspectRefines(s: State, s': State, t: nat)
    requires Inv(s) && Inspect(s, s', t)
    ensures Inv(s') && Abstract(s') == Abstract(s)
  {
    hide R.Inv, DiskOk, LockOk, TempsDistinct;
    SilentStep(s, s', t, s'.txs[t]);
  }

  lemma GuardFailsRefines(s: State, s': State, t: nat, thrown: Thrown)
    requires Inv(s) && GuardFails(s, s', t, thrown)
    ensures Inv(s') && Abstract(s') == Abstract(s)
  {
    hide R.Inv, DiskOk, LockOk, TempsDistinct;
    SilentStep(s, s', t, s'.txs[t]);
  }

  lemma AcquireFailsRefines(s: State, s': State, t: nat, thrown: Thrown)
    requires Inv(s) && AcquireFails(s, s', t, thrown)
    ensures Inv(s') && Abstract(s') == Abstract(s)
  {
    hide R.Inv, DiskOk, LockOk, TempsDistinct;
    SilentStep(s, s', t, s'.txs[t]);
  }

  lemma AcquireLockRefines(s: State, s': State, t: nat)
    requires Inv(s) && AcquireLock(s, s', t)
    ensures Inv(s') && Abstract(s') == Abstract(s)
  {
    hide R.Inv, DiskOk, TempsDistinct;
    QuietStep(s, s', t);
    SameCalls(s, s');
  }

  lemma HolderDiesRefines(s: State, s': State, t: nat)
    requires Inv(s) && HolderDies(s, s', t)
    ensures Inv(s') && Abstract(s') == Abstract(s)
  {
    hide R.Inv, DiskOk, TempsDistinct;
    QuietStep(s, s', t);
    SameCalls(s, s');
  }

  lemma RefuseRequestRefines(s: State, s': State, t: nat)
    requires Inv(s) && RefuseRequest(s, s', t)
    ensures Inv(s') && Abstract(s') == Abstract(s)
  {
    hide R.Inv, DiskOk, LockOk, TempsDistinct;
    SilentStep(s, s', t, s'.txs[t]);
  }

  lemma AskRenameRefines(s: State, s': State, t: nat)
    requires Inv(s) && AskRename(s, s', t)
    ensures Inv(s') && Abstract(s') == Abstract(s)
  {
    hide R.Inv, DiskOk, LockOk, TempsDistinct;
    SilentStep(s, s', t, s'.txs[t]);
  }

  lemma AskFailsRefines(s: State, s': State, t: nat, thrown: Thrown)
    requires Inv(s) && AskFails(s, s', t, thrown)
    ensures Inv(s') && Abstract(s') == Abstract(s)
  {
    hide R.Inv, DiskOk, LockOk, TempsDistinct;
    SilentStep(s, s', t, s'.txs[t]);
  }

  lemma ReceiveAnswerRefines(s: State, s': State, t: nat)
    requires Inv(s) && ReceiveAnswer(s, s', t)
    ensures Inv(s') && Abstract(s') == Abstract(s)
  {
    hide R.Inv, DiskOk, LockOk, TempsDistinct;
    SilentStep(s, s', t, s'.txs[t]);
  }

  lemma GiveUpRefines(s: State, s': State, t: nat)
    requires Inv(s) && GiveUp(s, s', t)
    ensures Inv(s') && Abstract(s') == Abstract(s)
  {
    hide R.Inv, DiskOk, LockOk, TempsDistinct;
    SilentStep(s, s', t, s'.txs[t]);
  }

  lemma CheckFailsRefines(s: State, s': State, t: nat, thrown: Thrown)
    requires Inv(s) && CheckFailsAfterRename(s, s', t, thrown)
    ensures Inv(s') && Abstract(s') == Abstract(s)
  {
    hide R.Inv, DiskOk, LockOk, TempsDistinct;
    SilentStep(s, s', t, s'.txs[t]);
  }

  lemma ReadBackRefines(s: State, s': State, t: nat)
    requires Inv(s) && ReadBack(s, s', t)
    ensures Inv(s') && Abstract(s') == Abstract(s)
  {
    hide R.Inv, LockOk, TempsDistinct;
    LogIsNumbered(s);
    SilentStep(s, s', t, s'.txs[t]);
  }

  lemma ReleaseRefines(s: State, s': State, t: nat)
    requires Inv(s) && Release(s, s', t)
    ensures Inv(s') && Abstract(s') == Abstract(s)
  {
    hide R.Inv, DiskOk, LockOk, TempsDistinct;
    SilentStep(s, s', t, s'.txs[t]);
  }

  lemma ReleaseFailsRefines(s: State, s': State, t: nat)
    requires Inv(s) && ReleaseFails(s, s', t)
    ensures Inv(s') && Abstract(s') == Abstract(s)
  {
    hide R.Inv, DiskOk, LockOk, TempsDistinct;
    SilentStep(s, s', t, s'.txs[t]);
  }

  lemma HolderSpeaksRefines(s: State, s': State, t: nat, answer: Answer)
    requires Inv(s) && (HolderRefuses(s, s', t, answer) || HolderAnswers(s, s', t, answer))
    ensures Inv(s') && Abstract(s') == Abstract(s)
  {
    hide R.Inv, DiskOk, LockOk, TempsDistinct;
    SilentStep(s, s', t, s'.txs[t]);
  }

  // Steps on the disk

  lemma ReadCanonicalRefines(s: State, s': State, t: nat)
    requires Inv(s) && ReadCanonical(s, s', t)
    ensures Inv(s') && R.Step(Abstract(s), Abstract(s'), R.Internal)
  {
    hide R.Inv, DiskOk, TxOk, TempsDistinct;
    LookReadsLatest(s, s', t);
    QuietStep(s, s', t);
    LookIsAbstract(s, s', t);
    R.StepInv(Abstract(s), Abstract(s'), R.Internal);
  }

  lemma LookReadsLatest(s: State, s': State, t: nat)
    requires DiskOk(s) && ReadCanonical(s, s', t) && TxOk(s, s.txs[t])
    ensures TxOk(s', s'.txs[t])
  {
    hide R.Justified, R.Decide;
    assert EntryOk(s, Entry(s), |s.log|);
    assert s.log[..|s.log|] == s.log;
  }

  lemma LookIsAbstract(s: State, s': State, t: nat)
    requires ReadCanonical(s, s', t) && TxOk(s, s.txs[t])
    ensures R.Look(Abstract(s), Abstract(s'), t)
  {
    CallMoves(s, s', t, s'.txs[t]);
  }

  /** Syncing the directory makes the whole history durable and disturbs nobody. */
  lemma SyncedDirectoryOk(s: State, s': State, tx: Transaction)
    requires DiskOk(s) && TxOk(s, tx)
    requires s'.files == s.files && s'.log == s.log && s'.trail == [Entry(s)] && s'.durable == |s.log|
    ensures DiskOk(s') && TxOk(s', tx)
  {
    assert EntryOk(s, Entry(s), |s.log|);
  }

  lemma SyncStepOk(s: State, s': State, t: nat, tx: Transaction)
    requires Inv(s) && t in s.txs && s' == With(SyncedDirectory(s), t, tx)
    requires CallOf(tx) == CallOf(s.txs[t])
    requires tx.temp == s.txs[t].temp && tx.draft == s.txs[t].draft && tx.holder == s.txs[t].holder
    requires TxOk(s', tx)
    ensures Inv(s') && R.Step(Abstract(s), Abstract(s'), R.Internal)
  {
    hide R.Inv, DiskOk, TxOk, CallOf;
    SyncedDirectoryOk(s, s', s.txs[t]);
    forall u | u in s'.txs
      ensures TxOk(s', s'.txs[u])
    {
      if u != t {
        SyncedDirectoryOk(s, s', s.txs[u]);
      }
    }
    CallMoves(s, s', t, tx);
    assert Abstract(s).calls[t := CallOf(tx)] == Abstract(s).calls;
    assert R.Persist(Abstract(s), Abstract(s'));
    R.StepInv(Abstract(s), Abstract(s'), R.Internal);
  }

  lemma ReportLookRefines(s: State, s': State, t: nat)
    requires Inv(s) && ReportLook(s, s', t)
    ensures Inv(s') && R.Step(Abstract(s), Abstract(s'), R.Internal)
  {
    hide R.Inv;
    LogIsNumbered(s);
    SyncedDirectoryOk(s, SyncedDirectory(s), s.txs[t]);
    SyncStepOk(s, s', t, s'.txs[t]);
  }

  lemma SyncDirectoryRefines(s: State, s': State, t: nat)
    requires Inv(s) && SyncDirectory(s, s', t)
    ensures Inv(s') && R.Step(Abstract(s), Abstract(s'), R.Internal)
  {
    hide R.Inv;
    SyncedDirectoryOk(s, SyncedDirectory(s), s.txs[t]);
    SyncStepOk(s, s', t, s'.txs[t]);
  }

  /** Writing to a file that no name points at, and that is no other draft, disturbs nobody. */
  lemma TempStep(s: State, s': State, t: nat, inode: nat, file: File, temps: set<nat>, tx: Transaction)
    requires Inv(s) && t in s.txs
    requires s' == With(s, t, tx).(files := s.files[inode := file], temps := temps)
    requires Some(inode) !in s.trail
    requires forall u :: u in s.txs && u != t && s.txs[u].draft.Some? ==> s.txs[u].temp != inode
    requires CallOf(tx) == CallOf(s.txs[t])
    requires tx.temp == inode && tx.draft.Some? && tx.holder == s.txs[t].holder
    requires TxOk(s', tx)
    ensures Inv(s') && Abstract(s') == Abstract(s)
  {
    hide R.Inv, TxOk;
    forall i | 0 <= i < |s'.trail|
      ensures EntryOk(s', s'.trail[i], s'.durable + i)
    {
      assert EntryOk(s, s.trail[i], s.durable + i);
    }
    forall u | u in s'.txs
      ensures TxOk(s', s'.txs[u])
    {
      if u != t {
        OtherFileOk(s, s', s.txs[u], inode, file);
      }
    }
    SameCalls(s, s');
  }

  lemma OtherFileOk(s: State, s': State, tx: Transaction, inode: nat, file: File)
    requires TxOk(s, tx) && (tx.draft.Some? ==> tx.temp != inode)
    requires s'.files == s.files[inode := file]
    requires s'.trail == s.trail && s'.log == s.log && s'.durable == s.durable
    ensures TxOk(s', tx)
  {
    hide R.Justified, R.Decide;
  }

  lemma CreateTempRefines(s: State, s': State, t: nat, inode: nat)
    requires Inv(s) && CreateTemp(s, s', t, inode)
    ensures Inv(s') && Abstract(s') == Abstract(s)
  {
    hide R.Inv;
    LogIsNumbered(s);
    forall i | 0 <= i < |s.trail|
      ensures s.trail[i] != Some(inode)
    {
      assert EntryOk(s, s.trail[i], s.durable + i);
    }
    forall u | u in s.txs && u != t && s.txs[u].draft.Some?
      ensures s.txs[u].temp != inode
    {
      assert TxOk(s, s.txs[u]);
    }
    TempStep(s, s', t, inode, File(None, false), s'.temps, s'.txs[t]);
  }

  lemma WriteTempRefines(s: State, s': State, t: nat)
    requires Inv(s) && WriteTemp(s, s', t)
    ensures Inv(s') && Abstract(s') == Abstract(s)
  {
    hide R.Inv, R.Justified, R.Decide, DiskOk, LockOk;
    var inode := s.txs[t].temp;
    TempStep(s, s', t, inode, s'.files[inode], s.temps, s'.txs[t]);
  }

  lemma SyncTempRefines(s: State, s': State, t: nat)
    requires Inv(s) && SyncTemp(s, s', t)
    ensures Inv(s') && Abstract(s') == Abstract(s)
  {
    hide R.Inv, R.Justified, R.Decide, DiskOk, LockOk;
    var inode := s.txs[t].temp;
    TempStep(s, s', t, inode, s'.files[inode], s.temps, s'.txs[t]);
  }

  /** The rename runs in the lock's owner, so the draft still continues the history. */
  lemma HolderRenamesRefines(s: State, s': State, t: nat)
    requires Inv(s) && HolderRenames(s, s', t)
    ensures Inv(s') && R.Step(Abstract(s), Abstract(s'), R.Internal)
  {
    var tx := s.txs[t];
    assert TxOk(s, tx);
    RenameAppends(s, s', t);
    hide R.Inv;
    RenameIsApply(s, s', t);
    R.StepInv(Abstract(s), Abstract(s'), R.Internal);
    RenameKeepsDisk(s, s', tx.temp, tx.draft.value);
    hide TxOk, DiskOk;
    forall u | u in s'.txs
      ensures TxOk(s', s'.txs[u])
    {
      if u != t {
        assert TxOk(s, s.txs[u]);
        RenameKeepsOthers(s, s', s.txs[u], tx);
      } else {
        RenameKeepsSelf(s, s', tx, s'.txs[t]);
      }
    }
  }

  lemma RenameAppends(s: State, s': State, t: nat)
    requires HolderRenames(s, s', t) && TxOk(s, s.txs[t])
    ensures var tx := s.txs[t];
            && tx.draft.Some? && s.files[tx.temp] == File(tx.draft, true)
            && s'.log == s.log + [tx.draft.value]
  {
  }

  lemma RenameIsApply(s: State, s': State, t: nat)
    requires HolderRenames(s, s', t) && TxOk(s, s.txs[t])
    ensures R.Apply(Abstract(s), Abstract(s'), t)
  {
    RenameAppends(s, s', t);
    assert s.log[..|s.log|] == s.log;
    CallMoves(s, s', t, s'.txs[t]);
  }

  lemma RenameKeepsDisk(s: State, s': State, inode: nat, record: R.Record)
    requires DiskOk(s) && s'.files == s.files && s'.durable == s.durable
    requires s'.trail == s.trail + [Some(inode)] && s'.log == s.log + [record]
    requires inode in s.files && s.files[inode] == File(Some(record), true)
    ensures DiskOk(s')
  {
    forall i | 0 <= i < |s'.trail|
      ensures EntryOk(s', s'.trail[i], s'.durable + i)
    {
      if i < |s.trail| {
        assert EntryOk(s, s.trail[i], s.durable + i);
      }
    }
  }

  lemma RenameKeepsOthers(s: State, s': State, other: Transaction, tx: Transaction)
    requires TxOk(s, other) && !other.holder.Alive? && DiskOk(s)
    requires tx.draft.Some?
    requires other.draft.Some? ==> other.temp != tx.temp
    requires s'.files == s.files && s'.durable == s.durable
    requires s'.trail == s.trail + [Some(tx.temp)] && s'.log == s.log + [tx.draft.value]
    ensures TxOk(s', other)
  {
    HistoryGrows(s, s', other);
  }

  lemma RenameKeepsSelf(s: State, s': State, tx: Transaction, tx': Transaction)
    requires TxOk(s, tx) && tx.holder.Alive? && tx.command.Queued? && DiskOk(s)
    requires tx' == tx.(command := Performed, renamed := true)
    requires s'.files == s.files && s'.durable == s.durable
    requires s'.trail == s.trail + [Some(tx.temp)] && s'.log == s.log + [tx.draft.value]
    ensures TxOk(s', tx')
  {
    HistoryGrows(s, s', tx);
  }

  /** A longer history leaves every look at it, and every report about it, as it was. */
  lemma HistoryGrows(s: State, s': State, tx: Transaction)
    requires s.log <= s'.log && s.durable == s'.durable <= |s.log|
    ensures tx.seen.Some? && tx.seen.value <= |s.log| ==> s'.log[..tx.seen.value] == s.log[..tx.seen.value]
    ensures forall outcome :: R.Justified(s.log, s.durable, CallOf(tx), outcome)
                              ==> R.Justified(s'.log, s'.durable, CallOf(tx), outcome)
  {
    assert tx.seen.Some? && tx.seen.value <= |s.log| ==> s'.log[..tx.seen.value] == s.log[..tx.seen.value];
  }

  lemma PowerFailsRefines(s: State, s': State, keep: nat, files: map<nat, File>, temps: set<nat>)
    requires Inv(s) && PowerFails(s, s', keep, files, temps)
    ensures Inv(s') && R.Step(Abstract(s), Abstract(s'), R.MachineCrash)
  {
    assert EntryOk(s, s.trail[keep], s.durable + keep);
    assert R.Crash(Abstract(s), Abstract(s'), s.durable + keep) by {
      assert Abstract(s').calls == map[];
    }
    R.StepInv(Abstract(s), Abstract(s'), R.MachineCrash);
  }

  // Every step

  lemma ClientStepRefines(s: State, s': State, t: nat)
    requires Inv(s) && ClientStep(s, s', t)
    ensures Inv(s') && R.Step(Abstract(s), Abstract(s'), R.Internal)
  {
    if
    case AcquireLock(s, s', t) => AcquireLockRefines(s, s', t);
    case exists thrown :: AcquireFails(s, s', t, thrown) =>
      var thrown :| AcquireFails(s, s', t, thrown);
      AcquireFailsRefines(s, s', t, thrown);
    case Inspect(s, s', t) => InspectRefines(s, s', t);
    case exists thrown :: GuardFails(s, s', t, thrown) =>
      var thrown :| GuardFails(s, s', t, thrown);
      GuardFailsRefines(s, s', t, thrown);
    case ReadCanonical(s, s', t) => ReadCanonicalRefines(s, s', t);
    case ReportLook(s, s', t) => ReportLookRefines(s, s', t);
    case RefuseRequest(s, s', t) => RefuseRequestRefines(s, s', t);
    case exists inode :: CreateTemp(s, s', t, inode) =>
      var inode :| CreateTemp(s, s', t, inode);
      CreateTempRefines(s, s', t, inode);
    case WriteTemp(s, s', t) => WriteTempRefines(s, s', t);
    case SyncTemp(s, s', t) => SyncTempRefines(s, s', t);
    case AskRename(s, s', t) => AskRenameRefines(s, s', t);
    case exists thrown :: AskFails(s, s', t, thrown) =>
      var thrown :| AskFails(s, s', t, thrown);
      AskFailsRefines(s, s', t, thrown);
    case ReceiveAnswer(s, s', t) => ReceiveAnswerRefines(s, s', t);
    case GiveUp(s, s', t) => GiveUpRefines(s, s', t);
    case exists thrown :: CheckFailsAfterRename(s, s', t, thrown) =>
      var thrown :| CheckFailsAfterRename(s, s', t, thrown);
      CheckFailsRefines(s, s', t, thrown);
    case SyncDirectory(s, s', t) => SyncDirectoryRefines(s, s', t);
    case ReadBack(s, s', t) => ReadBackRefines(s, s', t);
    case Release(s, s', t) => ReleaseRefines(s, s', t);
    case ReleaseFails(s, s', t) => ReleaseFailsRefines(s, s', t);
  }

  lemma HolderStepRefines(s: State, s': State, t: nat)
    requires Inv(s) && HolderStep(s, s', t)
    ensures Inv(s') && R.Step(Abstract(s), Abstract(s'), R.Internal)
  {
    if
    case exists answer :: HolderRefuses(s, s', t, answer) =>
      var answer :| HolderRefuses(s, s', t, answer);
      HolderSpeaksRefines(s, s', t, answer);
    case HolderRenames(s, s', t) => HolderRenamesRefines(s, s', t);
    case exists answer :: HolderAnswers(s, s', t, answer) =>
      var answer :| HolderAnswers(s, s', t, answer);
      HolderSpeaksRefines(s, s', t, answer);
    case HolderDies(s, s', t) => HolderDiesRefines(s, s', t);
  }

  lemma OperatorCleansRefines(s: State, s': State, left: set<nat>)
    requires Inv(s) && OperatorCleans(s, s', left)
    ensures Inv(s') && Abstract(s') == Abstract(s)
  {
    forall i | 0 <= i < |s'.trail|
      ensures EntryOk(s', s'.trail[i], s'.durable + i)
    {
      assert EntryOk(s, s.trail[i], s.durable + i);
    }
    forall u | u in s'.txs
      ensures TxOk(s', s'.txs[u])
    {
      TxOkFrame(s, s', s.txs[u]);
    }
  }

  lemma BeginKeepsTransactions(s: State, s': State, t: nat, request: R.Request)
    requires Inv(s) && Step(s, s', R.Begin(t, request))
    ensures DiskOk(s') && LockOk(s') && TempsDistinct(s')
    ensures forall u :: u in s'.txs ==> TxOk(s', s'.txs[u])
  {
    hide R.Inv, DiskOk, TempsDistinct, TxOk;
    FreshTxOk(s', request);
    QuietStep(s, s', t);
  }

  lemma FreshTxOk(s: State, request: R.Request)
    ensures TxOk(s, Transaction(request, Starting, NotStarted, Unsent, None, 0, None, None, false))
  {
  }

  lemma BeginRefines(s: State, s': State, t: nat, request: R.Request)
    requires Inv(s) && Step(s, s', R.Begin(t, request))
    ensures Inv(s') && R.Step(Abstract(s), Abstract(s'), R.Begin(t, request))
  {
    hide R.Inv, DiskOk, LockOk, TxOk, TempsDistinct;
    BeginKeepsTransactions(s, s', t, request);
    CallMoves(s, s', t, s'.txs[t]);
    R.StepInv(Abstract(s), Abstract(s'), R.Begin(t, request));
  }

  lemma RespondKeepsTransactions(s: State, s': State, t: nat, outcome: R.Outcome)
    requires Inv(s) && Step(s, s', R.Respond(t, outcome))
    ensures DiskOk(s') && LockOk(s') && TempsDistinct(s')
    ensures forall u :: u in s'.txs ==> TxOk(s', s'.txs[u])
  {
    hide R.Inv, DiskOk, TempsDistinct;
    ReturnedTxOk(s, s', s.txs[t], outcome);
    hide TxOk;
    QuietStep(s, s', t);
  }

  lemma ReturnedTxOk(s: State, s': State, tx: Transaction, outcome: R.Outcome)
    requires TxOk(s, tx) && SameDisk(s, s') && tx.pc == Returning(outcome)
    ensures TxOk(s', tx.(pc := Returned(outcome)))
  {
    hide R.Justified, R.Decide;
  }

  lemma RespondIsAbstract(s: State, s': State, t: nat, outcome: R.Outcome)
    requires Inv(s) && Step(s, s', R.Respond(t, outcome))
    ensures R.Step(Abstract(s), Abstract(s'), R.Respond(t, outcome))
  {
    hide R.Inv, R.Justified, DiskOk, LockOk, TempsDistinct;
    assert PcOk(s, s.txs[t]);
    CallMoves(s, s', t, s'.txs[t]);
  }

  lemma RespondRefines(s: State, s': State, t: nat, outcome: R.Outcome)
    requires Inv(s) && Step(s, s', R.Respond(t, outcome))
    ensures Inv(s') && R.Step(Abstract(s), Abstract(s'), R.Respond(t, outcome))
  {
    hide R.Inv;
    RespondKeepsTransactions(s, s', t, outcome);
    RespondIsAbstract(s, s', t, outcome);
    R.StepInv(Abstract(s), Abstract(s'), R.Respond(t, outcome));
  }

  lemma DetachKeepsTransactions(s: State, s': State, t: nat)
    requires Inv(s) && Step(s, s', R.Detach(t))
    ensures DiskOk(s') && LockOk(s') && TempsDistinct(s')
    ensures forall u :: u in s'.txs ==> TxOk(s', s'.txs[u])
  {
    hide R.Inv, DiskOk, TempsDistinct;
    AbandonedTxOk(s, s', s.txs[t]);
    hide TxOk;
    QuietStep(s, s', t);
  }

  lemma AbandonedTxOk(s: State, s': State, tx: Transaction)
    requires TxOk(s, tx) && SameDisk(s, s')
    ensures TxOk(s', tx.(pc := Abandoned))
  {
    hide R.Justified, R.Decide;
  }

  lemma DetachRefines(s: State, s': State, t: nat)
    requires Inv(s) && Step(s, s', R.Detach(t))
    ensures Inv(s') && R.Step(Abstract(s), Abstract(s'), R.Detach(t))
  {
    hide R.Inv, DiskOk, LockOk, TxOk, TempsDistinct;
    DetachKeepsTransactions(s, s', t);
    CallMoves(s, s', t, s'.txs[t]);
    R.StepInv(Abstract(s), Abstract(s'), R.Detach(t));
  }

  /** The store with its locks, holders and disk refines the register, through every crash. */
  lemma StepRefines(s: State, s': State, event: R.Event)
    requires Inv(s) && Step(s, s', event)
    ensures Inv(s') && R.Step(Abstract(s), Abstract(s'), event)
  {
    match event
    case Internal =>
      if t :| ClientStep(s, s', t) {
        ClientStepRefines(s, s', t);
      } else if t :| HolderStep(s, s', t) {
        HolderStepRefines(s, s', t);
      } else {
        var left :| OperatorCleans(s, s', left);
        OperatorCleansRefines(s, s', left);
      }
    case Begin(t, request) => BeginRefines(s, s', t, request);
    case Respond(t, outcome) => RespondRefines(s, s', t, outcome);
    case Detach(t) => DetachRefines(s, s', t);
    case MachineCrash =>
      var keep, files, temps :| PowerFails(s, s', keep, files, temps);
      PowerFailsRefines(s, s', keep, files, temps);
  }

  // Consequences for the files

  /**
    A holder renames only over the record its transaction read, whatever happened to the
    transaction and its client in between.
   */
  lemma RenameReplacesWhatWasRead(s: State, s': State, t: nat)
    requires Inv(s) && HolderRenames(s, s', t)
    ensures s.owner == Some(t)
    ensures s.txs[t].seen == Some(|s.log|) && s.txs[t].current == R.Latest(s.log)
    ensures s.txs[t].draft.Some?
    ensures s'.log == s.log + [s.txs[t].draft.value]
    ensures s.txs[t].draft.value.base == |s.log| == s.txs[t].request.expected
    ensures Entry(s') == Some(s.txs[t].temp)
  {
    assert TxOk(s, s.txs[t]);
    assert s.log[..|s.log|] == s.log;
  }

  /** A power failure at any point leaves a whole record: the last durable one or a successor. */
  lemma CrashLeavesWholeRecord(s: State, s': State, keep: nat, files: map<nat, File>, temps: set<nat>)
    requires Inv(s) && PowerFails(s, s', keep, files, temps)
    ensures s.durable <= |s'.log| <= |s.log| && s'.log == s.log[..|s'.log|]
    ensures Entry(s').None? <==> s'.log == []
    ensures Entry(s').Some? ==>
              Entry(s').value in s'.files && s'.files[Entry(s').value] == File(R.Latest(s'.log), true)
  {
    assert EntryOk(s, s.trail[keep], s.durable + keep);
  }

  /** The error that a transaction returns tells the truth about its rename, now and later. */
  lemma ReturnedOutcomeIsHonest(s: State, t: nat)
    requires Inv(s) && t in s.txs && s.txs[t].pc.Returned?
    ensures R.Honest(s.txs[t].renamed, s.txs[t].pc.outcome)
    ensures s.txs[t].holder.Alive? && s.txs[t].command.Queued? ==>
              s.txs[t].pc.outcome == R.Failed(StoreError(LockReleaseFailed, Uncertain))
  {
    assert TxOk(s, s.txs[t]);
    assert R.CallOk(Abstract(s), Abstract(s).calls[t]);
  }
}
