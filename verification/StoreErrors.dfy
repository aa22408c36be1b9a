/**
  How the encrypted store classifies failures (src/encrypted-auth-state-store.mjs),
  and how the broker reads that classification (src/auth-broker.mjs).
 */
module StoreErrors {

  datatype StoreCode =
    | GenerationConflict
    | CommitIdConflict
    | GenerationExhausted
    | RecoveryRequiredCode
    | LockReleaseFailed
    | CommitOutcomeUncertain
    | IoFailed
    | KeyUnavailable
    | InvalidLockProvider
    | InvalidStore

  /** The optional `commitState` property of a store error. */
  datatype CommitState = Unstated | NotCommitted | Committed | Uncertain

  datatype StoreError = StoreError(code: StoreCode, commitState: CommitState)

  datatype LockCode =
    | LockCleanupFailed
    | LockLost
    | LockReplaced
    | UnsafeLockFile
    | LockCommitUncertain
    | LockCommitFailed
    | LockUnavailable
    | LockTimeout
    | UnsupportedPlatform
    | DestinationChangedCode
    | InvalidRenameRequest
    | UnknownFailure

  /** What a storage step may throw; `refused` is the lock's `renameOutcome: "not-committed"`. */
  datatype Thrown =
    | ByLock(code: LockCode, refused: bool)
    | ByStore(error: StoreError)
    | Foreign

  datatype Phase = NotRenamed | RenameAttempted | Renamed | Synced

  predicate UnsafeLock(thrown: Thrown) {
    thrown.ByLock? && thrown.code in {LockCleanupFailed, LockLost, LockReplaced, UnsafeLockFile}
  }

  /** `wrapExternalError` */
  function WrapExternalError(thrown: Thrown, phase: Phase): StoreError {
    if phase == RenameAttempted && thrown.ByLock? && thrown.refused then
      if UnsafeLock(thrown)
      then StoreError(RecoveryRequiredCode, NotCommitted)
      else StoreError(IoFailed, NotCommitted)
    else if phase != NotRenamed || (thrown.ByLock? && thrown.code == LockCommitUncertain) then
      StoreError(CommitOutcomeUncertain, Uncertain)
    else if UnsafeLock(thrown) then StoreError(RecoveryRequiredCode, NotCommitted)
    else if thrown.ByLock? && thrown.code == UnsupportedPlatform then StoreError(InvalidLockProvider, NotCommitted)
    else if thrown.ByStore? then thrown.error
    else StoreError(IoFailed, NotCommitted)
  }

  /** An error is in doubt once a rename was asked for, unless the lock says that it refused it. */
  lemma DoubtIsExact(thrown: Thrown, phase: Phase)
    ensures var refused := phase == RenameAttempted && thrown.ByLock? && thrown.refused;
            var uncertain := thrown.ByLock? && thrown.code == LockCommitUncertain;
            var error := WrapExternalError(thrown, phase);
            if !refused && (phase != NotRenamed || uncertain) then error == StoreError(CommitOutcomeUncertain, Uncertain)
            else if thrown.ByStore? then error == thrown.error
            else && error.commitState == NotCommitted
                 && (error.code == RecoveryRequiredCode <==> UnsafeLock(thrown))
                 && (error.code == InvalidLockProvider <==>
                       thrown.ByLock? && thrown.code == UnsupportedPlatform && !refused)
                 && error.code in {RecoveryRequiredCode, InvalidLockProvider, IoFailed}
  {
  }

  /** The error that replaces the transaction's result when `lock.release` fails. */
  function ReleaseFailure(primary: CommitState, mutationCommitted: bool): StoreError {
    StoreError(LockReleaseFailed,
               if primary == NotCommitted || primary == Uncertain then primary
               else if mutationCommitted then Committed
               else NotCommitted)
  }

  /** `storeCommitMayHaveSucceeded` */
  predicate MayHaveSucceeded(e: StoreError) {
    e.code == CommitOutcomeUncertain || e.commitState == Committed || e.commitState == Uncertain
  }

  /** Store codes that mean the stored state, not the moment, is at fault. */
  predicate InvalidStoreCode(code: StoreCode) {
    code in {CommitIdConflict, GenerationExhausted, InvalidLockProvider, InvalidStore}
  }

  /** Errors that only the broker's callers see. */
  datatype BrokerCode =
    | CasConflict
    | InvalidCredential
    | InvalidRequest
    | InvalidStoreSnapshot
    | ReauthRequiredCode
    | RecoveryRequiredError
    | RefreshFailed
    | RefreshOutcomeUncertain
    | StoreUnavailable
    | Uninitialized

  /** The codes that `ERROR_DEFINITIONS` lets a caller try again. */
  predicate Retryable(code: BrokerCode) {
    code == StoreUnavailable || code == RefreshFailed
  }

  /** `storeReadError` */
  function StoreReadError(e: StoreError): BrokerCode {
    if e.code == LockReleaseFailed || e.code == RecoveryRequiredCode then RecoveryRequiredError
    else if InvalidStoreCode(e.code) then InvalidStoreSnapshot
    else StoreUnavailable
  }

  /** Reading fails for good only if the stored state or the lock is at fault; the rest may pass. */
  lemma ReadErrorIsExact(e: StoreError)
    ensures StoreReadError(e) == StoreUnavailable <==>
              e.code in {GenerationConflict, CommitOutcomeUncertain, IoFailed, KeyUnavailable}
    ensures StoreReadError(e) == RecoveryRequiredError <==> e.code in {LockReleaseFailed, RecoveryRequiredCode}
    ensures StoreReadError(e) == InvalidStoreSnapshot <==>
              e.code in {CommitIdConflict, GenerationExhausted, InvalidLockProvider, InvalidStore}
  {
  }

  /** A failed release never hides a doubt, and says committed exactly for a transaction that was. */
  lemma ReleaseKeepsDoubt(primary: CommitState, mutationCommitted: bool)
    ensures var error := ReleaseFailure(primary, mutationCommitted);
            && error.code == LockReleaseFailed
            && (primary == Uncertain <==> error.commitState == Uncertain)
            && (error.commitState == Committed <==> mutationCommitted && primary !in {NotCommitted, Uncertain})
            && error.commitState != Unstated
            && (MayHaveSucceeded(error) <==> error.commitState != NotCommitted)
  {
  }
}
