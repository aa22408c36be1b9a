/**
  The encrypted store as it really runs: transactions of any number of processes over one
  directory, each behind an advisory lock that lives in a separate holder process
  (src/encrypted-auth-state-store.mjs, src/advisory-lock.mjs, src/advisory-lock-holder.mjs).

  A transaction takes the lock, looks at the canonical file, writes and syncs a temporary
  file, asks its holder to rename it, syncs the directory, reads back and releases. The
  holder owns the lock and may die at any instant; the client may die at any instant and
  leave its holder behind; the machine may crash at any instant.

  Encryption is an inverse pair and is not shown: a file holds a record or is torn.
 */
module DiskStore {
  import opened Options
  import opened Payloads
  import opened StoreErrors
  import R = Register

  /** A file whose content was not synced may be torn by a machine crash. */
  datatype File = File(content: Option<R.Record>, synced: bool)

  datatype Holder = NotStarted | Alive | Gone

  /** The holder's answers: ok, `lock_replaced`, `lock_commit_uncertain`, any other code. */
  datatype Answer = Confirmed | Replaced | Unsure | Errored

  /** The one rename command of a transaction, seen from the holder. */
  datatype Command = Unsent | Queued | Performed | Answered(answer: Answer)

  datatype Pc =
    | Starting
    | Locked
    | Inspected
    | Looked
    | TempCreated
    | TempWritten
    | TempSynced
    | Asked
    | Acknowledged
    | DirectorySynced
    | Closing(outcome: R.Outcome)
    | Returning(outcome: R.Outcome)
    | Returned(outcome: R.Outcome)
    | Abandoned

  /** `seen` and `renamed` only record what happened; no step depends on them. */
  datatype Transaction = Transaction(
    request: R.Request,
    pc: Pc,
    holder: Holder,
    command: Command,
    current: Option<R.Record>,
    temp: nat,
    draft: Option<R.Record>,
    seen: Option<nat>,
    renamed: bool)

  /**
    `trail` lists what the canonical name meant since the last directory sync, oldest first;
    its last element is what it means now. `log`, `durable` and `reported` only record history.
   */
  datatype State = State(
    files: map<nat, File>,
    trail: seq<Option<nat>>,
    temps: set<nat>,
    owner: Option<nat>,
    txs: map<nat, Transaction>,
    log: seq<R.Record>,
    durable: nat,
    reported: set<R.Record>)

  function Entry(s: State): Option<nat>
    requires s.trail != []
  {
    s.trail[|s.trail| - 1]
  }

  ghost predicate Init(s: State) {
    && s.trail == [None]
    && s == State(map[], [None], {}, None, map[], [], 0, {})
  }

  // Client steps

  ghost predicate Active(s: State, t: nat, pc: Pc) {
    t in s.txs && s.txs[t].pc == pc
  }

  function With(s: State, t: nat, tx: Transaction): State {
    s.(txs := s.txs[t := tx])
  }

  ghost predicate AcquireLock(s: State, s': State, t: nat) {
    && Active(s, t, Starting)
    && s.owner.None?
    && s' == With(s, t, s.txs[t].(pc := Locked, holder := Alive)).(owner := Some(t))
  }

  /** No lock object reaches the transaction, so nothing is released afterwards. */
  ghost predicate AcquireFails(s: State, s': State, t: nat, thrown: Thrown) {
    && (Active(s, t, Starting) || Active(s, t, Locked))
    && (thrown.ByLock? ==> thrown.code != LockCommitUncertain)
    && !thrown.ByStore?
    && s' == With(s, t, s.txs[t].(pc := Returning(R.Failed(WrapExternalError(thrown, NotRenamed)))))
  }

  /** `#assertNoRecoveryArtifacts` */
  ghost predicate Inspect(s: State, s': State, t: nat) {
    && Active(s, t, Locked)
    && s' == With(s, t, s.txs[t].(pc :=
               if s.temps == {} then Inspected
               else Closing(R.Failed(WrapExternalError(ByStore(StoreError(RecoveryRequiredCode, Unstated)), NotRenamed)))))
  }

  /** A directory, ACL, key or lock check fails before the rename is asked for. */
  ghost predicate GuardFails(s: State, s': State, t: nat, thrown: Thrown) {
    && t in s.txs
    && s.txs[t].pc in {Locked, Inspected, Looked, TempCreated, TempWritten, TempSynced}
    && (thrown.ByLock? ==> thrown.code != LockCommitUncertain)
    && (thrown.ByStore? ==> thrown.error.commitState in {Unstated, NotCommitted} && thrown.error.code != GenerationConflict)
    && s' == With(s, t, s.txs[t].(pc := Closing(R.Failed(WrapExternalError(thrown, NotRenamed)))))
  }

  /** `#readCanonical`, under the lock only if the holder is still alive. */
  ghost predicate ReadCanonical(s: State, s': State, t: nat) {
    && Active(s, t, Inspected)
    && s.trail != []
    && (Entry(s).Some? ==> Entry(s).value in s.files)
    && var current := if Entry(s).None? then None else s.files[Entry(s).value].content;
    && s' == With(s, t, s.txs[t].(
         seen := Some(|s.log|),
         current := current,
         pc := if Entry(s).Some? && current.None? then Closing(R.Failed(StoreError(InvalidStore, Unstated))) else Looked))
  }

  function SyncedDirectory(s: State): State
    requires s.trail != []
  {
    s.(trail := [Entry(s)], durable := |s.log|)
  }

  /** Reads and replays report only after `#proveDirectoryDurable`. */
  ghost predicate ReportLook(s: State, s': State, t: nat) {
    && Active(s, t, Looked)
    && s.trail != []
    && var tx := s.txs[t];
    && (tx.request.Read? || R.Decide(tx.request, tx.current).Replay?)
    && (tx.request.Read? || tx.current.Some?)
    && s' == With(SyncedDirectory(s), t, tx.(pc := Closing(
               if tx.request.Read? then R.Found(tx.current) else R.Stored(tx.current.value, true))))
  }

  ghost predicate RefuseRequest(s: State, s': State, t: nat) {
    && Active(s, t, Looked)
    && var tx := s.txs[t];
    && !tx.request.Read?
    && R.Decide(tx.request, tx.current).Refuse?
    && s' == With(s, t, tx.(pc := Closing(R.Failed(WrapExternalError(
               ByStore(StoreError(R.Decide(tx.request, tx.current).code, Unstated)), NotRenamed)))))
  }

  ghost predicate CreateTemp(s: State, s': State, t: nat, inode: nat) {
    && Active(s, t, Looked)
    && inode !in s.files
    && var tx := s.txs[t];
    && !tx.request.Read?
    && R.Decide(tx.request, tx.current).Write?
    && s' == With(s, t, tx.(pc := TempCreated, temp := inode, draft := Some(R.Decide(tx.request, tx.current).record)))
             .(files := s.files[inode := File(None, false)], temps := s.temps + {inode})
  }

  ghost predicate WriteTemp(s: State, s': State, t: nat) {
    && Active(s, t, TempCreated)
    && s' == With(s, t, s.txs[t].(pc := TempWritten))
             .(files := s.files[s.txs[t].temp := File(s.txs[t].draft, false)])
  }

  ghost predicate SyncTemp(s: State, s': State, t: nat) {
    && Active(s, t, TempWritten)
    && s.txs[t].temp in s.files
    && s' == With(s, t, s.txs[t].(pc := TempSynced))
             .(files := s.files[s.txs[t].temp := s.files[s.txs[t].temp].(synced := true)])
  }

  /** `lock.renameWhileHeld` writes the command; the client cannot know that the holder still lives. */
  ghost predicate AskRename(s: State, s': State, t: nat) {
    && Active(s, t, TempSynced)
    && s' == With(s, t, s.txs[t].(pc := Asked, command := Queued))
  }

  /** `lock.renameWhileHeld` throws before it writes the command. */
  ghost predicate AskFails(s: State, s': State, t: nat, thrown: Thrown) {
    && Active(s, t, TempSynced)
    && thrown.ByLock?
    && s' == With(s, t, s.txs[t].(pc := Closing(R.Failed(WrapExternalError(thrown, RenameAttempted)))))
  }

  /** What `renameWhileHeld` throws for an answer (the `line` handler of the lock client). */
  function AnswerThrows(answer: Answer): Thrown
    requires !answer.Confirmed?
  {
    match answer
    case Replaced => ByLock(LockReplaced, true)
    case Unsure => ByLock(LockCommitUncertain, false)
    case Errored => ByLock(LockCommitFailed, false)
  }

  ghost predicate ReceiveAnswer(s: State, s': State, t: nat) {
    && Active(s, t, Asked)
    && var tx := s.txs[t];
    && tx.command.Answered?
    && s' == With(s, t, tx.(pc :=
               if tx.command.answer.Confirmed? then Acknowledged
               else Closing(R.Failed(WrapExternalError(AnswerThrows(tx.command.answer), RenameAttempted)))))
  }

  /** Timeout, write error or loss: the client stops waiting for the answer. */
  ghost predicate GiveUp(s: State, s': State, t: nat) {
    && Active(s, t, Asked)
    && s' == With(s, t, s.txs[t].(pc :=
               Closing(R.Failed(WrapExternalError(ByLock(LockCommitUncertain, false), RenameAttempted)))))
  }

  ghost predicate CheckFailsAfterRename(s: State, s': State, t: nat, thrown: Thrown) {
    && (Active(s, t, Acknowledged) || Active(s, t, DirectorySynced))
    && s' == With(s, t, s.txs[t].(pc := Closing(R.Failed(WrapExternalError(thrown,
               if s.txs[t].pc.Acknowledged? then Renamed else Synced)))))
  }

  ghost predicate SyncDirectory(s: State, s': State, t: nat) {
    && Active(s, t, Acknowledged)
    && s.trail != []
    && s' == With(SyncedDirectory(s), t, s.txs[t].(pc := DirectorySynced))
  }

  ghost predicate ReadBack(s: State, s': State, t: nat) {
    && Active(s, t, DirectorySynced)
    && s.trail != []
    && (Entry(s).Some? ==> Entry(s).value in s.files)
    && var tx := s.txs[t];
    && tx.draft.Some?
    && s' == With(s, t, tx.(pc := Closing(
               if Entry(s).Some? && s.files[Entry(s).value].content == tx.draft then R.Stored(tx.draft.value, false)
               else R.Failed(WrapExternalError(ByStore(StoreError(InvalidStore, Uncertain)), Synced)))))
  }

  /** `lock.release` succeeds only once the holder's process group is gone. */
  ghost predicate Release(s: State, s': State, t: nat) {
    && t in s.txs
    && s.txs[t].pc.Closing?
    && s.txs[t].holder.Gone?
    && s' == With(s, t, s.txs[t].(pc := Returning(s.txs[t].pc.outcome)))
  }

  function StateOf(outcome: R.Outcome): CommitState {
    if outcome.Failed? then outcome.error.commitState else Unstated
  }

  ghost predicate ReleaseFails(s: State, s': State, t: nat) {
    && t in s.txs
    && s.txs[t].pc.Closing?
    && var outcome := s.txs[t].pc.outcome;
    && s' == With(s, t, s.txs[t].(pc := Returning(R.Failed(
               ReleaseFailure(StateOf(outcome), outcome.Stored? && !outcome.replayed)))))
  }

  // Holder steps

  ghost predicate HolderRefuses(s: State, s': State, t: nat, answer: Answer) {
    && t in s.txs
    && s.txs[t].holder.Alive?
    && s.txs[t].command.Queued?
    && answer in {Replaced, Errored}
    && s' == With(s, t, s.txs[t].(command := Answered(answer)))
  }

  ghost predicate HolderRenames(s: State, s': State, t: nat) {
    && t in s.txs
    && var tx := s.txs[t];
    && tx.holder.Alive?
    && tx.command.Queued?
    && tx.temp in s.temps
    && tx.temp in s.files
    && s' == With(s, t, tx.(command := Performed, renamed := true))
             .(trail := s.trail + [Some(tx.temp)],
               temps := s.temps - {tx.temp},
               log := s.log + (if s.files[tx.temp].content.None? then [] else [s.files[tx.temp].content.value]))
  }

  /** After the rename the holder checks its lock path once more. */
  ghost predicate HolderAnswers(s: State, s': State, t: nat, answer: Answer) {
    && t in s.txs
    && s.txs[t].holder.Alive?
    && s.txs[t].command.Performed?
    && answer in {Confirmed, Unsure}
    && s' == With(s, t, s.txs[t].(command := Answered(answer)))
  }

  ghost predicate HolderDies(s: State, s': State, t: nat) {
    && t in s.txs
    && s.txs[t].holder.Alive?
    && s' == With(s, t, s.txs[t].(holder := Gone)).(owner := if s.owner == Some(t) then None else s.owner)
  }

  // The world around the transactions

  /** An operator removes leftover temporary files. */
  ghost predicate OperatorCleans(s: State, s': State, left: set<nat>) {
    && left <= s.temps
    && s' == s.(temps := left)
  }

  /** Every process dies; the directory falls back to a point not before its last sync. */
  ghost predicate PowerFails(s: State, s': State, keep: nat, files: map<nat, File>, temps: set<nat>) {
    && keep < |s.trail|
    && files.Keys == s.files.Keys
    && (forall n :: n in s.files && s.files[n].synced ==> files[n] == s.files[n])
    && s' == s.(files := files,
                trail := [s.trail[keep]],
                temps := temps,
                owner := None,
                txs := map[],
                log := if s.durable + keep <= |s.log| then s.log[..s.durable + keep] else s.log,
                durable := s.durable + keep)
  }

  ghost predicate ClientStep(s: State, s': State, t: nat) {
    || AcquireLock(s, s', t)
    || (exists thrown :: AcquireFails(s, s', t, thrown))
    || Inspect(s, s', t)
    || (exists thrown :: GuardFails(s, s', t, thrown))
    || ReadCanonical(s, s', t)
    || ReportLook(s, s', t)
    || RefuseRequest(s, s', t)
    || (exists inode :: CreateTemp(s, s', t, inode))
    || WriteTemp(s, s', t)
    || SyncTemp(s, s', t)
    || AskRename(s, s', t)
    || (exists thrown :: AskFails(s, s', t, thrown))
    || ReceiveAnswer(s, s', t)
    || GiveUp(s, s', t)
    || (exists thrown :: CheckFailsAfterRename(s, s', t, thrown))
    || SyncDirectory(s, s', t)
    || ReadBack(s, s', t)
    || Release(s, s', t)
    || ReleaseFails(s, s', t)
  }

  ghost predicate HolderStep(s: State, s': State, t: nat) {
    || (exists answer :: HolderRefuses(s, s', t, answer))
    || HolderRenames(s, s', t)
    || (exists answer :: HolderAnswers(s, s', t, answer))
    || HolderDies(s, s', t)
  }

  ghost predicate Step(s: State, s': State, event: R.Event) {
    match event
    case Internal =>
      || (exists t :: ClientStep(s, s', t))
      || (exists t :: HolderStep(s, s', t))
      || (exists left :: OperatorCleans(s, s', left))
    case Begin(t, request) =>
      && t !in s.txs
      && s' == With(s, t, Transaction(request, Starting, NotStarted, Unsent, None, 0, None, None, false))
    case Respond(t, outcome) =>
      && Active(s, t, Returning(outcome))
      && s' == With(s, t, s.txs[t].(pc := Returned(outcome))).(reported := s.reported + R.RecordsIn(outcome))
    case Detach(t) =>
      && t in s.txs
      && !s.txs[t].pc.Returned?
      && !s.txs[t].pc.Abandoned?
      && s' == With(s, t, s.txs[t].(pc := Abandoned))
    case MachineCrash =>
      exists keep, files, temps :: PowerFails(s, s', keep, files, temps)
  }
}
