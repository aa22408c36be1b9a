# Verified model of the credential broker, its store and its helpers

Several broker processes share one encrypted credential record. A refresh first replaces the
ready credential with a reservation, then calls the refresh adapter, then commits the outcome
on top of its own reservation. The record changes only by compare-and-swap on a 64-bit
generation; the replacing rename runs inside the process that owns the advisory lock. Around
this core the repository has a native helper (a process-group supervisor, a streaming SHA-256,
a mount-table parser), a planner of disjoint paths and a bounded scanner of guest output.

This project models these parts in Dafny and proves what they are for: safety of every run,
refinement of a simple register by the store, exact agreement of each parser or codec with an
independent definition. Verify it with `dafny verify dfyconfig.toml`.

## How the parts fit together

- `Register` is the specification of the store: an atomic register with a durable history,
  calls that may be abandoned, and machine crashes that may lose what was not yet synced.
- `DiskStore` is the store itself: transactions, lock holders, temporary files, a directory
  whose entry may fall back at a crash to any state since its last sync. `DiskRefinement`
  proves that each of its steps is a step of `Register`.
- `Broker` has the operations of the broker as actors over the register (install, refresh,
  recovery, key rotation); `BrokerSafety` proves the invariant of all their interleavings.
- `EndToEnd` puts `DiskStore` under `Broker` and states the results over whole runs; `Witness`
  builds such a run from its first step.
- `Progress` has the rebase loops as methods over a store that rotates its key at any moment.
- `AdvisoryLock` is the client's event machine as functions, with its invariant, and
  `LockSettlement` says that it forgets nothing. `LockClient` is the same machine as a class whose
  methods change the closure variables in place, `LockHolder` is the process at the other end of
  the pipe, and `LockBridge` ties both to what `DiskStore` assumes of its lock.
- `Supervisor`, `Sha256` with `Primes` and `Sha256Stream`, and `Decimal` with `MountInfo` model the
  native helper. `WordLaws` has the laws of the word operations bit by bit, `BitVectors` and
  `MachineWords` show that they are those of machine words, and `Sha256Example` follows one
  message to its published digest.
- `Utf8`, `Base64Url`, `Json` and `Envelope` are the file format; `ImagePaths` plans paths;
  `LineScanner` scans output. `Strings`, `Bytes`, `Options`, `Payloads` and `StoreErrors` are
  shared.

## Assumptions

- `flock` is exclusive per inode and the lock file is not replaced while a holder runs; a
  rename is atomic; the clock does not go back; a system call that fails changes nothing,
  except where the code itself treats the result as uncertain.
- In the protocol a hash is an injective constructor and a UUID is a number that was not used
  before. In `ImagePaths` and `Sha256Stream` the hash is SHA-256 itself, and a result that
  would need collision freedom names the two inputs that would collide.
- Authenticated encryption is a pair of functions of which one inverts the other.
- A text is a sequence of whole characters, so unpaired surrogates do not occur.

## Model

| member | source | states |
|---|---|---|
| `EndToEnd.RunKeepsInv` | src/encrypted-auth-state-store.mjs:381-541 | every state of every run of brokers over the store, with deaths of clients and holders and power failures anywhere, satisfies the store's and the protocol's invariants |
| `EndToEnd.DispatchSurvivesCrashes` | src/auth-broker.mjs:1219-1273 | the adapter is called only on a durable reservation that directly replaced its own source credential; at every later point of the run, after any crashes, that part of the history is still there and durable |
| `EndToEnd.DispatchesOfARunAreSeparated` | src/auth-broker.mjs:1099-1135 | no reservation ID is dispatched twice, and between the reservations of two dispatches with one credential stands a commit that made this credential ready again |
| `EndToEnd.TimelyDispatchesAreSeparated` | src/auth-broker.mjs:1219-1273 | along the clock: if the first of two dispatches with one credential is made while its own reservation stands and the second rests on a later reservation, the credential was made ready again after the first |
| `Witness.LateDispatch` | src/auth-broker.mjs:1219-1273 | the order of the two reservations is needed: a complete run in which, after a recovery and a second install, a late broker calls the adapter with the credential that another has just sent, and nothing is committed in between |
| `Witness.LateDispatchFirst` | src/auth-broker.mjs:1219-1273 | and so is the first reservation standing: the same run with the late call first |
| `EndToEnd.StaleOwnersAreFenced` | src/auth-broker.mjs:1137-1166 | a post-dispatch commit replaced nothing but the exact reservation of its own attempt, so a recovery is never overwritten by a late outcome; and it is the outcome that the adapter's recorded reply to this attempt calls for |
| `EndToEnd.BlockedRecordsOfARunAreFenced` | src/auth-broker.mjs:340-414 | the reservation ID and the four source hashes of a blocked record are those of the credential that was ready just before the reservation |
| `EndToEnd.UnblockingInARunKeepsIdentity` | src/auth-broker.mjs:1247-1272 | in every run, leaving the blocked state keeps account and user; a source token comes back only with the whole source credential, over the reservation of an attempt for which the adapter was called and reported that it had sent nothing; a recovery brings back neither token and clears exactly the reservation it names |
| `EndToEnd.AppliedAgainMeansLost` | src/encrypted-auth-state-store.mjs:394-448 | in every run, across all crashes, a second record at one place of the history means that the first was never durable and never reported |
| `EndToEnd.DurableIsAppliedOnce` | src/encrypted-auth-state-store.mjs:394-448 | once a record is durable no later step of the run puts another in its place, so no retry of its request is applied |
| `EndToEnd.CanonicalFileIsWhole` | src/encrypted-auth-state-store.mjs:960-1020 | the canonical name means no file exactly when nothing was committed, and otherwise a whole synced record, the latest of a history whose generations rise by one |
| `EndToEnd.ReportsOfARunAgree` | src/encrypted-auth-state-store.mjs:190-202 | any two records reported anywhere in a run with one generation are the same record: same commit ID, same payload |
| `EndToEnd.SuccessIsDurable` | src/auth-broker.mjs:838-873 | what an operation reports as committed, whether it returns or throws, is durable and has the payload it set out to commit; a refresh succeeds only with the acceptable candidate of its adapter or, without a dispatch, with a token of the caller's account that is newer than the caller's |
| `EndToEnd.RetryableMeansUnsent` | src/auth-broker.mjs:55-82 | in every run, an operation that ended with an error that its caller may simply try again never called the adapter for its attempt, or the adapter reported that it had sent nothing |
| `EndToEnd.RunKeepsHistory` | src/encrypted-auth-state-store.mjs:592-599 | durable history, past dispatches and recorded replies are never taken back, through any crash |
| `Register.StepInv` | src/encrypted-auth-state-store.mjs:394-501 | each step of the register keeps its invariant: numbered history, honest answers, reported records durable, one application per generation |
| `Register.DurableHistoryIsKept` | src/encrypted-auth-state-store.mjs:592-599 | no step, not even a machine crash, changes what was synced |
| `Register.ReportsAgree` | src/encrypted-auth-state-store.mjs:394-448 | reported records with one generation are equal |
| `Register.SameRequestAppliesOnce` | src/encrypted-auth-state-store.mjs:394-448 | of two calls between the same two machine crashes that make the same request, at most one replaces the record |
| `Register.RetryIsRecognised` | src/encrypted-auth-state-store.mjs:402-429 | while the record of the first try is the latest, the same request is replayed; once anything newer is there, it is refused |
| `Register.DecideIsExact` | src/encrypted-auth-state-store.mjs:394-448 | when a request writes and what, when it is a replay, and when a conflict of commit IDs or an exhausted generation |
| `Register.AnsweredCallsAreSettled` | src/encrypted-auth-state-store.mjs:503-541 | after its answer a call changes nothing any more, unless the answer was a failed release with an uncertain state |
| `DiskRefinement.StepRefines` | src/encrypted-auth-state-store.mjs:503-541 | every step of transactions, holders, operator and machine is a step of the register |
| `DiskRefinement.ClientStepRefines` | src/encrypted-auth-state-store.mjs:960-1020 | every step of a transaction, failing or not, is a step of the register |
| `DiskRefinement.HolderRenamesRefines` | src/advisory-lock-holder.mjs:98-135 | the rename of a holder is the register's atomic compare-and-swap |
| `DiskRefinement.RenameReplacesWhatWasRead` | src/encrypted-auth-state-store.mjs:988-990 | a rename happens only in the lock's owner and only over the record that its transaction read, whatever became of the transaction |
| `DiskRefinement.CrashLeavesWholeRecord` | src/encrypted-auth-state-store.mjs:975-1000 | after a power failure at any point the canonical file is a whole record, the last durable one or a successor |
| `DiskRefinement.ReturnedOutcomeIsHonest` | src/encrypted-auth-state-store.mjs:225-278 | an error that says not committed means that this call replaced nothing, and a replaced file is reported as success, committed or uncertain |
| `BrokerSafety.StepKeepsInv` | src/auth-broker.mjs:793-873 | every step of any number of brokers, installs, recoveries, rotations and crashes keeps the protocol's invariant |
| `BrokerSafety.RecordFollowsIntent` | src/auth-broker.mjs:892-964 | each record copies its predecessor's payload (rotation) or follows it by a legal change: install over ready, reservation over its source, outcome over its reservation, recovery over a blocked record |
| `BrokerSafety.OutcomeReplacesOwnReservation` | src/auth-broker.mjs:1137-1166 | a refresh outcome replaces exactly the reservation of its own attempt, and what the adapter replied decides it: the source if nothing was sent, an acceptable candidate, or a blocked record |
| `BrokerSafety.BlockedRecordsAreFenced` | src/auth-broker.mjs:340-414 | from the reservation on, every blocked record carries the fence of the credential that was ready before |
| `BrokerSafety.UnblockingKeepsIdentity` | src/auth-broker.mjs:1247-1272 | leaving the blocked state keeps account and user; a source token comes back only with the whole source credential, over its reservation, when the adapter reported that nothing was sent; a recovery brings back neither |
| `BrokerSafety.ReservationOrigin` | src/auth-broker.mjs:1099-1135 | a standing reservation goes back, through copies of itself, to a record with its source ready |
| `BrokerSafety.DispatchesAreSeparated` | src/auth-broker.mjs:1219-1273 | the separation of dispatches, on the history of the register |
| `BrokerSafety.DispatchIsReserved` | src/auth-broker.mjs:1219-1273 | a dispatch rests on its own durable reservation |
| `BrokerSafety.SettleIsLegal` | src/auth-broker.mjs:1247-1286 | for every reply of the adapter the payload to commit is the one legal outcome for it |
| `BrokerSafety.OutcomeIsTold` | src/auth-broker.mjs:1168-1190 | the caller hears of success exactly for an acceptable candidate, of a failed refresh exactly when nothing was sent, of a needed login exactly when the adapter says so, and of a needed recovery otherwise |
| `BrokerSafety.SwapIsExact` | src/auth-broker.mjs:793-837 | a compare-and-swap is repeated once, unchanged, and only after a passing failure; a clean conflict or an unavailable store is reported only if no failure so far can have committed it, and after a dispatch the latter is a doubt |
| `BrokerSafety.ReadBackIsExact` | src/auth-broker.mjs:838-873 | the readback proves exactly the record of this commit or a later one with its payload; the rest is a doubt as soon as some failure can have committed |
| `BrokerSafety.RereadsAreExact` | src/auth-broker.mjs:942-964 | after a conflict or a doubt the canonical record decides: accept the desired payload, try again over the payload before it, or stop; a recovery never tries again |
| `BrokerSafety.LooksAgainExactly` | src/auth-broker.mjs:1113-1121 | a refresh looks again after a conflict or a doubt, a recovery only after a doubt, and everything else is thrown as it is |
| `BrokerSafety.RebasesAreBounded` | src/auth-broker.mjs:1102-1135 | an operation over an unchanged payload is tried again over the latest record, at most seven times, and then ends with a conflict before a dispatch and a doubt after it |
| `BrokerSafety.OpenRefreshIsExact` | src/auth-broker.mjs:1219-1241 | when a refresh reserves, when it returns the token it has seen, and when it refuses, for every expectation of its caller |
| `BrokerSafety.OpenRecoveryIsExact` | src/auth-broker.mjs:904-940 | a recovery is tried exactly for the blocked record and the reservation that the operator names, with a credential that replaces its source |
| `BrokerSafety.ResumeMoves` | src/auth-broker.mjs:793-873 | for every answer of the store an actor goes on to a stage whose beliefs the history supports |
| `BrokerSafety.ResumeKeepsAttempt` | src/auth-broker.mjs:1219-1240 | a reservation ID is chosen once, when a refresh opens, and no store answer causes a dispatch |
| `Payloads.BlockedOutcome` | src/auth-broker.mjs:367-377 | a blocked outcome keeps fence and status and never claims that a refresh is in progress |
| `Payloads.SettleIsExact` | src/auth-broker.mjs:1247-1286 | the source is committed again if and only if nothing was sent; the candidate if and only if it is well formed, of the same account and user, with two new tokens and enough time to live; otherwise the record stays blocked behind its fence, for a login if and only if the adapter asks for one |
| `Payloads.BlockedReasonIsExact` | src/auth-broker.mjs:1188-1217 | the reason of a blocked record is the first fault of the candidate, in the order of the checks, or what the adapter says, and never that a refresh is in progress |
| `Payloads.ThrownIsSettledSafely` | src/auth-broker.mjs:558-586 | of everything an adapter can throw, only an error that says it came before the dispatch, not after it and with none of the known codes brings the source back |
| `StoreErrors.DoubtIsExact` | src/encrypted-auth-state-store.mjs:225-278 | which failures are in doubt, which mean that nothing was committed, and which of those need a recovery |
| `StoreErrors.ReadErrorIsExact` | src/auth-broker.mjs:660-667 | a failed read is passing, asks for a recovery or condemns the stored state, exactly by its code |
| `StoreErrors.ReleaseKeepsDoubt` | src/encrypted-auth-state-store.mjs:503-541 | a failed release never hides a doubt and says committed exactly for a transaction that was |
| `Payloads.ReplacesComparesSources` | src/auth-broker.mjs:904-940 | comparing hashes in a recovery decides what comparing tokens and identities would |
| `Progress.CompareAndRead` | src/auth-broker.mjs:793-873 | over a store that does not fail it fails only after a rotation, and then leaves the payload as it was |
| `Progress.CommitAfterDispatch` | src/auth-broker.mjs:1137-1166 | with at most seven rotations after the reservation the outcome is committed; when it gives up there were at least eight, and the reservation is still canonical |
| `Progress.ReserveRefresh` | src/auth-broker.mjs:1099-1135 | the same numbers for the reservation; when it gives up, the ready credential is still canonical |
| `AdvisoryLock.HandleKeepsInv` | src/advisory-lock.mjs:474-800 | every callback, timer and continuation, in any order, keeps the invariant of the lock |
| `AdvisoryLock.HandleKeeps` | src/advisory-lock.mjs:474-800 | no event changes a settled promise, undoes a flag or writes a command after `unavailable` is set |
| `AdvisoryLock.RunIsSafe` | src/advisory-lock.mjs:474-800 | both, for every sequence of events |
| `AdvisoryLock.AnswersStayTrue` | src/advisory-lock.mjs:616-662 | success means the rename happened, a refusal that it never will, and a doubt without a cleanup error that the holder's group is gone and nothing can change any more |
| `LockSettlement.AttemptsNeverOverlap` | src/advisory-lock.mjs:510-584 | only its own end moves a cleanup attempt, and after one that succeeded there is no other |
| `LockSettlement.EffortsNeverOverlap` | src/advisory-lock.mjs:141-159 | in every run at most one stop and one close is in flight, each succeeds at most once, and neither is invoked again after its success |
| `LockSettlement.EveryScheduleSettles` | src/advisory-lock.mjs:684-773 | for every sequence of events: each event that is owed to a call (end of the identity check, timer or answer, end of stop and of close, its own continuation) brings it nearer to its settlement and no other event takes it back, so the fifth finds it settled; and it is settled exactly when nothing is owed to it |
| `LockSettlement.SomethingIsOwed` | src/advisory-lock.mjs:684-773 | while a call is not settled, an event that is owed to it can happen |
| `LockSettlement.EveryCallCanSettle` | src/advisory-lock.mjs:684-773 | from every reachable state at most five events, those that are owed to the call, settle it |
| `LockSettlement.ReleasedMeansDone` | src/advisory-lock.mjs:780-800 | `release` resolves only with the group stopped and gone, references disposed, handle closed and nothing pending |
| `LockSettlement.FailedReleaseCanBeRetried` | src/advisory-lock.mjs:780-800 | after a failed release another one succeeds as soon as the cleanup does |
| `LockClient.Client.BeginQuiescence` | src/advisory-lock.mjs:552-584 | the lock becomes unavailable, and an attempt begins exactly if none is in progress, none has succeeded, and it is the first or a retry; the promise that is returned |
| `LockClient.Client.CallRename` | src/advisory-lock.mjs:684-716 | on a lock that is held, and only there, the call goes on to its identity check and changes nothing else; otherwise it waits in doubt and the lock is unavailable |
| `LockClient.Client.WriteCommand` | src/advisory-lock.mjs:717-771 | exactly if the lock is still held after the identity check, one command is written, with a new number that is registered for the call; otherwise none is and the call waits in doubt |
| `LockClient.Client.Line` | src/advisory-lock.mjs:616-658 | a late answer changes nothing; any other moves exactly the call that waits for it, and what this call is told is true of the renames of the holder |
| `LockClient.Client.RejectPendingCommands` | src/advisory-lock.mjs:529-538 | exactly the calls with a pending command are rejected, and nothing is left pending |
| `LockClient.Client.CloseEnds` | src/advisory-lock.mjs:510-584 | an attempt has failed if any of its three parts has, and the first end, no other, rejects everything pending |
| `LockClient.Client.CallRelease` | src/advisory-lock.mjs:780-800 | at most one release is in flight; one that starts makes the lock unavailable and waits for a cleanup that is in progress, has succeeded or begins now |
| `LockClient.Client.Dispatch` | src/advisory-lock.mjs:474-800 | every event keeps the invariant and takes back no settled promise, no cleanup and no answer of the holder |
| `LockClient.Serve` | src/advisory-lock.mjs:474-800 | the event loop ends in a state that satisfies the invariant and whose answers are true |
| `LockHolder.Holder.HandleCommand` | src/advisory-lock-holder.mjs:98-135 | a rename is performed if and only if the latch is open, the command is well formed, the lock current, the destination as expected and seen, the system call good and the source there; the answer is ok if and only if it was performed and the lock is still current, and which other answer is given in each other case; the latch closes exactly when the lock was seen replaced |
| `LockHolder.Holder.Drain` | src/advisory-lock-holder.mjs:137-143 | of every queue: each command in turn is performed and answered exactly as the directory that it finds and the latch before it say; answers are true, and after a doubt nothing is renamed |
| `LockHolder.CheckedMeansAllowed` | src/advisory-lock-holder.mjs:27-96 | the precondition check passes exactly for an absent destination, or for a regular file with one link whose device and inode have the given decimals |
| `LockHolder.ReadableIsParsed` | src/advisory-lock-holder.mjs:28-54 | a precondition is read exactly if it names no file or gives two numbers in canonical decimal |
| `LockHolder.RenameMovesEntry` | src/advisory-lock-holder.mjs:120 | a rename moves one entry over another and leaves the rest of the directory alone |
| `LockBridge.HolderStepIsSimulated` | src/advisory-lock-holder.mjs:98-135 | a command that the holder performs is the rename of the store and its answer, and one that it does not is the refusal of the store |
| `LockBridge.AnswerFitsStore` | src/advisory-lock.mjs:616-658 | an answer that reaches the client rejects the call with exactly what the store expects for it, or resolves it |
| `LockBridge.LostAnswerFitsStore` | src/advisory-lock.mjs:733-771 | a timer, a write error and the end of the first cleanup reject the call with the doubt that the store expects |
| `LockBridge.StoreConcludesTheTruth` | src/encrypted-auth-state-store.mjs:225-278 | when the store concludes from a rejection that nothing was committed, the holder never renames for this call, however the run goes on; when the call resolved, it has |
| `LockBridge.StoreCommand` | src/advisory-lock-holder.mjs:98-135 | for a command of the store, which names no precondition: renamed if and only if the lock is current, the system call good and the source there; which answer the store gets in each case, and when the holder latches |
| `Supervisor.Supervise` | native/linux-ext4-inspector.c:320-376 | for every kernel: no signal follows the reap of the leader, and the group is always sent the last signal; the result is success if and only if, at any point after the reap, no child and no group was left before the hard deadline and the leader had been seen to end within its phase with nothing sent to it before; it is a timeout if and only if the same holds of the group, the phase had run out before the leader was asked, and it then ended within its grace or was killed after it and ended before the hard deadline; an error is never reported without a failed call, a clock past the hard deadline, an impossible plan or a contradicting group in the trace |
| `Supervisor.Terminated` | native/linux-ext4-inspector.c:345-376 | the part after the execution phase: asked first, killed only after the grace phase, and a timeout if and only if the leader then ended so and the group was left in time |
| `Supervisor.KillAndWatch` | native/linux-ext4-inspector.c:361-372 | the part after the grace phase: killed after the clock showed its end, and seen to end before the hard deadline; or neither, with the reason in the trace |
| `Supervisor.PhaseDeadline` | native/linux-ext4-inspector.c:131-146 | a phase ends inside the hard deadline less its reserve, without overflow; it is refused exactly for a reserve or a time that leaves no room, or a failed clock |
| `Supervisor.TerminalUntil` | native/linux-ext4-inspector.c:148-181 | seen terminal by this call, with the clock then still before the deadline, and not before; or never so seen, and either the clock at or past it or a failed call last; the watch ends with its first failed call or late clock |
| `Supervisor.PollDelay` | native/linux-ext4-inspector.c:168-179 | a pause learns nothing, goes on after interruptions only before the deadline, and says why it did not end |
| `Supervisor.SignalUnreaped` | native/linux-ext4-inspector.c:208-212 | one signal, before any reap |
| `Supervisor.ReapLeaderUntil` | native/linux-ext4-inspector.c:235-253 | the leader is reaped exactly when it says so, and no signal is sent; if not, the last event shows why |
| `Supervisor.DrainGroupUntil` | native/linux-ext4-inspector.c:255-302 | success if and only if the last events are no child left, no group, and a time before the deadline; the drain ends as soon as the group is found gone, a call fails or the clock is late, and its last event shows which |
| `Supervisor.FinishGroup` | native/linux-ext4-inspector.c:304-308 | the last signal comes before the reap; success if and only if the leader was reaped and at some time after it the group was gone before the deadline |
| `Supervisor.ForceCleanup` | native/linux-ext4-inspector.c:310-318 | cleanup begins with the last signal, asks nothing of the leader and keeps the order of signals and reap |
| `Primes.PrimesAreTheFirst` | native/linux-ext4-inspector.c:404-418 | the table behind the constants lists exactly the primes up to 311 |
| `Sha256.RoundConstantsAreCubeRoots` | native/linux-ext4-inspector.c:404-418 | the constants are the fractions of the cube roots of the first 64 primes, as section 4.2.2 of FIPS 180-4 says |
| `Sha256.InitialWordsAreSquareRoots` | native/linux-ext4-inspector.c:480-490 | the first hash value is that of section 5.3.3 of FIPS 180-4 |
| `Sha256.ZeroCountIsLeast` | native/linux-ext4-inspector.c:506-538 | the padding is the shortest that fills the last block, as section 5.1.1 of FIPS 180-4 says |
| `WordLaws.BitOfRotateRight` | native/linux-ext4-inspector.c:420-422 | bit i of a rotated word is bit (i + n) mod 32 of the word |
| `WordLaws.BigSigmas` | native/linux-ext4-inspector.c:456-461 | each bit of the large functions of section 4.1.2 of FIPS 180-4 is the sum modulo 2 of the three bits that the standard names |
| `WordLaws.SmallSigmas` | native/linux-ext4-inspector.c:438-443 | the same for the small functions, whose third bit comes from a shift |
| `WordLaws.ChoiceByBit` | native/linux-ext4-inspector.c:451-452 | each bit of the first word chooses between the other two |
| `WordLaws.MajorityByBit` | native/linux-ext4-inspector.c:453-455 | each bit is the one that at least two of the words have |
| `WordLaws.SameBits` | native/linux-ext4-inspector.c:420-422 | words with the same bits are the same, so the laws by bit say all about these functions |
| `MachineWords.Big0OfNum` | native/linux-ext4-inspector.c:456-458 | the first large function on numbers is the one of shifts and bitwise operations on machine words |
| `MachineWords.ChoiceOfNum` | native/linux-ext4-inspector.c:451-452 | so is the choice function |
| `Sha256Example.DigestOfAbc` | native/linux-ext4-inspector.c:424-538 | the digest of the message abc is the published one: every constant, every function and the order of all words of schedule, round and digest |
| `Sha256Stream.FillSchedule` | native/linux-ext4-inspector.c:424-445 | the message schedule of section 6.2 of FIPS 180-4 |
| `Sha256Stream.Context.Transform` | native/linux-ext4-inspector.c:424-478 | one block advances the state by the compression function of section 6.2.2 of FIPS 180-4, whose functions are pinned by `WordLaws` and whose order by `Sha256Example` |
| `Sha256Stream.Context.Update` | native/linux-ext4-inspector.c:492-504 | the context after any input is a function of all bytes seen so far |
| `Sha256Stream.Context.Finalize` | native/linux-ext4-inspector.c:506-538 | the digest of all bytes seen is that of the padded message, with the words and bytes in the order of `Sha256Example` |
| `Sha256Stream.DigestOf` | native/linux-ext4-inspector.c:480-538 | for every way of splitting a message over updates the digest is one-shot SHA-256 |
| `Sha256Stream.PreimageIsInjective` | native/linux-ext4-inspector.c:1249-1279 | equal hash inputs have equal UUID, handle type and handle bytes |
| `Sha256Stream.BuildObjectId` | native/linux-ext4-inspector.c:1249-1279 | the identifier is the prefix and the hexadecimal digest of that input |
| `Decimal.ParseU64Decimal` | native/linux-ext4-inspector.c:613-628 | no step overflows; accepted are exactly the canonical decimals below 2^64, with their value |
| `Decimal.Uint64sAreRendered` | native/linux-ext4-inspector.c:613-628 | the accepted texts are exactly the written forms of the 64-bit numbers |
| `Decimal.CanonicalIsRendered` | src/encrypted-auth-state-store.mjs:118-131 | a number has one canonical decimal |
| `MountInfo.CarrierIsPrivate` | native/linux-ext4-inspector.c:2367-2440 | 1 exactly if the table is well formed, exactly one line has the mount ID, its separator has three fields after it and no propagation tag before it; 0 exactly if there is such a tag; -1 exactly otherwise |
| `MountInfo.ScanLine` | native/linux-ext4-inspector.c:2389-2423 | one line: accepted exactly if its fields are well formed; the buffer is restored |
| `MountInfo.ParseToken` | native/linux-ext4-inspector.c:2397-2405 | parsing a field in place, with the byte after it restored |
| `MountInfo.TableReadsBack` | native/linux-ext4-inspector.c:2379-2423 | a table written from rows of fields has exactly these rows |
| `MountInfo.TagsAreNamed` | native/linux-ext4-inspector.c:2410-2418 | the propagation tags are one word and three prefixes |
| `Envelope.ReadInvertsWrite` | src/encrypted-auth-state-store.mjs:829-958 | a text is read as a record exactly if the record is valid and the store writes this text for it under that key and nonce; writer and reader agree on the size limit |
| `Envelope.HeaderText` | src/encrypted-auth-state-store.mjs:829-835 | the authenticated header is the text of these four keys in this order |
| `Envelope.RecordText` | src/encrypted-auth-state-store.mjs:843 | the encrypted record is the text of its six keys in this order, generations in quoted decimals |
| `Envelope.RecordIsExact` | src/encrypted-auth-state-store.mjs:917-953 | exactly the canonical plaintext of a valid record is read as it: base plus one, field order, limits |
| `Envelope.EnvelopeFieldsAreExact` | src/encrypted-auth-state-store.mjs:869-902 | exactly the fields written for an envelope pass the checks before decryption |
| `Envelope.GenerationIsExact` | src/encrypted-auth-state-store.mjs:118-131 | a generation is accepted exactly from its own decimal, below 2^64 |
| `Envelope.UnsealIsExact` | src/encrypted-auth-state-store.mjs:903-953 | opening succeeds exactly on what was sealed with the same header |
| `Json.CanonicalIsExact` | src/encrypted-auth-state-store.mjs:97-116 | the canonical reader accepts exactly the serialization of fields with the expected keys in order |
| `Json.ObjectReadsBack` | src/encrypted-auth-state-store.mjs:97-116 | every serialized object is parsed back, escapes included |
| `Json.EscapesAreWritten` | src/encrypted-auth-state-store.mjs:97-99 | quotation mark, backslash and control characters are written as section 25.5.2 of ECMA-262 says |
| `Json.HexDigitsAreRead` | src/encrypted-auth-state-store.mjs:101-108 | an escape is read with digits of both cases |
| `Base64Url.AcceptedIffCanonical` | src/encrypted-auth-state-store.mjs:175-188 | accepted are exactly the texts over the alphabet of section 5 of RFC 4648 with no lone digit, no stray bits and the expected length |
| `Base64Url.DecodeEncode` | src/encrypted-auth-state-store.mjs:829-867 | every byte string is read back from its encoding |
| `Base64Url.DecodeStrictly` | src/encrypted-auth-state-store.mjs:175-188 | what is accepted is the encoding of the result |
| `Base64Url.DigitsAreTheAlphabet` | src/encrypted-auth-state-store.mjs:175-188 | the 64 digits are those of table 2 of RFC 4648, in its order |
| `Base64Url.PublishedVectors` | src/encrypted-auth-state-store.mjs:854-856 | the vectors of section 10 of RFC 4648, without padding |
| `ImagePaths.DigestInputIsInjective` | src/ext4-filesystem-image-paths.mjs:233-255 | lists of parts with the same hash input are the same list |
| `ImagePaths.Digest` | src/ext4-filesystem-image-paths.mjs:233-255 | the loop hashes the domain and every part with its length, in order |
| `ImagePaths.ContainsMeansPrefix` | src/ext4-filesystem-image-paths.mjs:194-201 | one path contains another exactly if its components are the first ones of the other |
| `ImagePaths.AssertDisjointRoots` | src/ext4-filesystem-image-paths.mjs:203-213 | accepts exactly the lists whose roots are pairwise disjoint |
| `ImagePaths.Create` | src/ext4-filesystem-image-paths.mjs:285-294 | accepts exactly a valid backend ID with canonical, pairwise disjoint roots |
| `ImagePaths.PlannedTreesAreDisjoint` | src/ext4-filesystem-image-paths.mjs:303-409 | image, mount and artifact trees planned for any requests never contain one another; that trees of one kind differ is said by the overlap rows below |
| `ImagePaths.DisjointTrees` | src/ext4-filesystem-image-paths.mjs:194-213 | what lies in disjoint trees is disjoint |
| `ImagePaths.SiblingsAreDisjoint` | src/ext4-filesystem-image-paths.mjs:171-181 | direct children of one directory are equal or disjoint |
| `ImagePaths.ParentOfChild` | src/ext4-filesystem-image-paths.mjs:171-181 | parent and name of a direct child are those it was built from |
| `ImagePaths.AttachedRootIsAccepted` | src/ext4-filesystem-image-paths.mjs:321-461 | a root planned for an attachment is accepted as a capture source of its storage |
| `ImagePaths.RestoredRootIsAccepted` | src/ext4-filesystem-image-paths.mjs:350-461 | so is a root planned for a restore |
| `ImagePaths.OverlapMeansSameStorage` | src/ext4-filesystem-image-paths.mjs:321-348 | storages whose mount trees overlap are the same storage, unless SHA-256 collides on exactly their two hash inputs |
| `ImagePaths.OverlapMeansSameImage` | src/ext4-filesystem-image-paths.mjs:321-348 | the same for their images |
| `ImagePaths.OverlapMeansSameCheckpoint` | src/ext4-filesystem-image-paths.mjs:386-409 | checkpoints whose artifact trees overlap have the same session, storage, artifact and checkpoint IDs, unless their two hash inputs agree on the first 24 bytes of SHA-256 |
| `ImagePaths.OverlapMeansSameRestore` | src/ext4-filesystem-image-paths.mjs:350-384 | restore destinations that overlap are of one storage and one operation, each unless two named inputs collide |
| `ImagePaths.OverlapMeansSameRoot` | src/ext4-filesystem-image-paths.mjs:321-348 | attachment roots that overlap are of one storage, unless both of its names collide |
| `ImagePaths.SameStorageMeansSameSession` | src/ext4-filesystem-image-paths.mjs:296-301 | sessions with one storage ID are the same session, unless their inputs agree on 24 bytes of SHA-256 |
| `ImagePaths.UuidHasGroups` | src/ext4-filesystem-image-paths.mjs:61-62 | a session ID is accepted exactly if it is five groups of lower-case digits with a version and a variant |
| `ImagePaths.PlansAgree` | src/ext4-filesystem-image-paths.mjs:303-384 | what is provisioned for a storage, what is attached and what is restored into have one image and one mount |
| `ImagePaths.ProvisionIsPlannedIff` | src/ext4-filesystem-image-paths.mjs:303-319 | a provision is planned exactly for this backend, a UUID, and roots of at most 4030 and 4025 bytes |
| `ImagePaths.WritableIsPlannedIff` | src/ext4-filesystem-image-paths.mjs:321-348 | an attachment exactly for an attach request of this backend, and roots of at most 3976 and 4025 bytes |
| `ImagePaths.RestoreIsPlannedIff` | src/ext4-filesystem-image-paths.mjs:350-384 | a restore exactly for a restore request of this backend, and a mount root of at most 3970 bytes |
| `ImagePaths.ArtifactIsPlannedIff` | src/ext4-filesystem-image-paths.mjs:386-409 | an artifact directory exactly for matching checkpoint and request, and an archive root of at most 4037 bytes |
| `LineScanner.Scan` | integration/linux-ext4-sudden-guest-power-loss-conformance.mjs:503-551 | every way of cutting a text into chunks gives the summary of the line-by-line specification |
| `LineScanner.Controller.Consume` | integration/linux-ext4-sudden-guest-power-loss-conformance.mjs:521-543 | the state is a function of the text seen: partial line, kept lines, counts |
| `LineScanner.Controller.RecordLine` | integration/linux-ext4-sudden-guest-power-loss-conformance.mjs:503-519 | one more recorded line: newest 256, first 32 protocol lines, newest four errors, exact counts |
| `LineScanner.Controller.Finish` | integration/linux-ext4-sudden-guest-power-loss-conformance.mjs:545-551 | a last line without newline counts unless it is empty or over-long |
| `LineScanner.Controller.RecordOutput` | integration/linux-ext4-sudden-guest-power-loss-conformance.mjs:553-564 | the buffered output is the bounded tail of everything that arrived, and nothing is scanned after an overflow |
| `LineScanner.Controller.RecordErrorOutput` | integration/linux-ext4-sudden-guest-power-loss-conformance.mjs:553-564 | the same for the error output, which shares the byte count and is not scanned |
| `LineScanner.PushBounded` | integration/linux-ext4-sudden-guest-power-loss-conformance.mjs:492-495 | the collection holds the newest values |
| `LineScanner.SummaryIsBounded` | integration/linux-ext4-sudden-guest-power-loss-conformance.mjs:492-551 | histories and lines stay within their limits for every text |
| `LineScanner.LinesAreCut` | integration/linux-ext4-sudden-guest-power-loss-conformance.mjs:503-543 | one carriage return at the end of a line is dropped and nothing else, and a line is too long from 8193 bytes on |
| `LineScanner.ErrorsAreCounted` | integration/linux-ext4-sudden-guest-power-loss-conformance.mjs:506-518 | for any two patterns the error count is exact if and only if no error line is a protocol line after the 32nd, since such a line returns before it is counted |
| `LineScanner.ErrorLinesAreProtocolLines` | integration/linux-ext4-sudden-guest-power-loss-conformance.mjs:87-90 | every line that matches the guest error pattern matches the protocol pattern |
| `LineScanner.HexCharacters` | integration/linux-ext4-sudden-guest-power-loss-conformance.mjs:87-90 | the characters of a run ID in the guest error pattern |
| `LineScanner.NameCharacters` | integration/linux-ext4-sudden-guest-power-loss-conformance.mjs:87-90 | the characters of a step name in it |
| `LineScanner.CountedErrors` | integration/linux-ext4-sudden-guest-power-loss-conformance.mjs:506-518 | for such patterns the counted errors are exactly those among the first 32 protocol lines |
| `LineScanner.ErrorsExactIff` | integration/linux-ext4-sudden-guest-power-loss-conformance.mjs:506-518 | for such patterns the count is exact if and only if no error line comes after the 32nd protocol line, and wrong whenever there are more than 32 error lines |
| `LineScanner.ErrorIsMissed` | integration/linux-ext4-sudden-guest-power-loss-conformance.mjs:506-518 | with 33 error lines, and the patterns of the harness, 32 are counted |
| `LineScanner.LateErrorIsMissed` | integration/linux-ext4-sudden-guest-power-loss-conformance.mjs:506-518 | with 32 other protocol lines before it, a single error line is not counted |
| `LineScanner.HealthyMeansNoErrors` | integration/linux-ext4-sudden-guest-power-loss-conformance.mjs:570-586 | without protocol overflow and without counted errors there was no error line |
| `Utf8.BoundedTail` | integration/linux-ext4-sudden-guest-power-loss-conformance.mjs:464-473 | the result is the longest suffix of whole characters that fits |
| `Utf8.TailFits` | integration/linux-ext4-sudden-guest-power-loss-conformance.mjs:464-473 | it is a suffix and within the limit |
| `Utf8.TailIsLongest` | integration/linux-ext4-sudden-guest-power-loss-conformance.mjs:464-473 | when something was cut, it misses at most three bytes of the limit, and no longer suffix fits |
| `Utf8.TailOfGrowing` | integration/linux-ext4-sudden-guest-power-loss-conformance.mjs:458-462 | cutting a text while it grows gives the same tail as cutting it at the end |
| `Utf8.DecodeEncode` | src/encrypted-auth-state-store.mjs:917-923 | UTF-8 of section 3 of RFC 3629 is read back |
| `Utf8.EncodeDecode` | src/encrypted-auth-state-store.mjs:917-923 | only the encoding of a text is decoded to it |
| `Utf8.PublishedExamples` | src/encrypted-auth-state-store.mjs:917-923 | the examples of section 7 of RFC 3629 |

## Notes on the source

- The separation of dispatches with one credential holds along the history of the record. Along
  the clock it holds if the first owner's reservation stands when it calls the adapter and the
  second rests on a later one. `Witness` shows that neither condition can be dropped. They are not
  necessary: a late call may happen to be followed by a fresh install before the next one. Nothing
  in the code keeps a broker whose reservation was recovered from calling the adapter
  afterwards, which is why docs/architecture/auth-broker.md:231-232 asks the caller of a recovery
  to stop or fence the old owner first. What the code does ensure is that such a late outcome is
  never committed.
- A guest error line that comes after 32 protocol lines is not counted as an error, because the
  scanner returns at the overflow. `LineScanner.ErrorsExactIff` says exactly when this happens,
  `LineScanner.HealthyMeansNoErrors` why the harness still notices.
- A failed readback after a commit never reaches the caller under its own code: the surrounding
  handler turns it into an uncertain outcome.

## Left out

- AES-GCM, JWT claims and the fields of `auth.json`: a cipher parameter, and a flag that says
  whether a candidate was well formed.
- Directory, owner and ACL inspection in the store: guards that may fail at any time.
- Handling of proxies, prototypes and captured intrinsics: no counterpart in Dafny.
- ioctl, mount, loop, xattr and openat2 calls of the native helper; `read_mountinfo` is a
  precondition (the table is not empty, ends in a newline and holds no NUL).
- The shared single-flight map, worker gateway callbacks, grants and their expiry: they only
  decide when a refresh starts.
- EndToEnd.RetryableMeansUnsent: speaks of one `#refreshOnce`; `#refreshShared`, which ends with a
  retryable failure after eight grants with its caller's own token, is not part of this model.
- The acquisition of the lock before it is held, the texts of error messages, and the results of
  `assertHeld` and `waitForLoss`, which appear only as triggers of quiescence.
- The value of a wait status, and kernels that answer for ever: each script of answers is finite,
  of any length, and every call fails after its end.
- `DiskStore` and `Broker` are transition systems over values: one process's death ends its
  actors and transactions one by one, and aliasing between objects is not modelled.
- JSON values other than texts and whole numbers, whitespace before or inside an object, and
  escaped surrogates are refused by the parser, where the source refuses them by comparing with
  the canonical text or by type; the error code may differ.
- Contract checks of session and storage requests, which are made in other files.
- PostgreSQL authorities, launchers, provider state, probes and the rest of the integration
  harness.
