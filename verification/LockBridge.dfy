/**
  The lock of module DiskStore is the lock of modules AdvisoryLock and LockHolder: what the
  store's transactions assume of their holder and of `renameWhileHeld` is what those do.
 */
module LockBridge {
  import opened Options
  import opened StoreErrors
  import L = AdvisoryLock
  import D = DiskStore
  import H = LockHolder

  /** The holder's answers, as the store tells them apart. */
  function AnswerOf(reply: L.Reply): D.Answer {
    match reply
    case Ok => D.Confirmed
    case LockPathReplaced => D.Replaced
    case Unsure => D.Unsure
    case DestinationChanged => D.Errored
    case RenameError => D.Errored
  }

  /** What `renameWhileHeld` throws, as the store sees it. */
  function ThrownBy(code: LockCode, notCommitted: bool): Thrown {
    ByLock(code, notCommitted)
  }

  /** A command at the holder, as the store's transaction has it. */
  function CommandOf(command: L.Command): D.Command {
    if command.reply.None? then D.Queued else D.Answered(AnswerOf(command.reply.value))
  }

  /** The lock that a call of `renameWhileHeld` uses, and the transaction that makes this call. */
  ghost predicate Mirrors(g: L.Group, id: nat, tx: D.Transaction) {
    && id < |g.commands|
    && (tx.holder.Alive? <==> !g.gone)
    && tx.command == CommandOf(g.commands[id])
    && tx.renamed == g.commands[id].performed
  }

  /** A holder that performs its command does the store's rename and then answers; one that does not, refuses. */
  lemma HolderStepIsSimulated(g: L.Group, reply: L.Reply, st: D.State, t: nat) returns (mid: D.State, st': D.State)
    requires L.CommandsOk(g) && !g.gone && !g.latched && g.handled < |g.commands|
    requires t in st.txs && Mirrors(g, g.handled, st.txs[t])
    requires st.txs[t].temp in st.temps && st.txs[t].temp in st.files
    ensures t in st'.txs && Mirrors(L.Handled(g, reply), g.handled, st'.txs[t])
    ensures if L.Handled(g, reply).commands[g.handled].performed
            then D.HolderRenames(st, mid, t) && D.HolderAnswers(mid, st', t, AnswerOf(reply))
            else mid == st && D.HolderRefuses(st, st', t, AnswerOf(reply))
  {
    var tx := st.txs[t];
    assert L.CommandOk(g.commands[g.handled]) && g.commands[g.handled].reply.None?;
    if reply.Ok? || reply.Unsure? {
      mid := D.With(st, t, tx.(command := D.Performed, renamed := true))
             .(trail := st.trail + [Some(tx.temp)],
               temps := st.temps - {tx.temp},
               log := st.log + (if st.files[tx.temp].content.None? then [] else [st.files[tx.temp].content.value]));
      st' := D.With(mid, t, mid.txs[t].(command := D.Answered(AnswerOf(reply))));
    } else {
      mid := st;
      st' := D.With(st, t, tx.(command := D.Answered(AnswerOf(reply))));
    }
  }

  /** The death of the group is the death of the store's holder, which frees the lock. */
  lemma GroupDeathIsSimulated(g: L.Group, id: nat, st: D.State, t: nat) returns (st': D.State)
    requires !g.gone && t in st.txs && Mirrors(g, id, st.txs[t])
    ensures t in st'.txs && Mirrors(g.(gone := true), id, st'.txs[t]) && D.HolderDies(st, st', t)
  {
    st' := D.With(st, t, st.txs[t].(holder := D.Gone)).(owner := if st.owner == Some(t) then None else st.owner);
  }

  /** The code and the outcome that a call carries once it can only be rejected. */
  function Rejection(call: L.Call): Option<Thrown> {
    match call
    case Waiting(_, code, notCommitted) => Some(ThrownBy(code, notCommitted))
    case Settled(Rejected(code, notCommitted, _)) => Some(ThrownBy(code, notCommitted))
    case _ => None
  }

  /**
    An answer that reaches the client does what the store's `ReceiveAnswer` does with it. The
    store names no expected destination, so `DestinationChanged` is never said to it.
   */
  lemma AnswerFitsStore(s: L.Lock, id: nat)
    requires L.Inv(s) && L.Enabled(s, L.LineArrives(id)) && id in s.pending && !s.unavailable
    requires s.group.commands[id].reply != Some(L.DestinationChanged)
    ensures var c, answer := s.pending[id], AnswerOf(s.group.commands[id].reply.value);
            var calls := L.Handle(s, L.LineArrives(id)).calls;
            && c in calls
            && (answer.Confirmed? ==> calls[c] == L.Settled(L.Resolved))
            && (!answer.Confirmed? ==> Rejection(calls[c]) == Some(D.AnswerThrows(answer)))
  {
    hide L.Inv, L.BeginQuiescence, L.WaitFor;
  }

  /** A lost answer, by timer, write error or the end of the group, is the store's `GiveUp`. */
  lemma LostAnswerFitsStore(s: L.Lock, e: L.Event, c: nat)
    requires L.Inv(s) && L.Enabled(s, e) && c in s.calls && s.calls[c].Pending?
    requires e == L.TimerFires(s.calls[c].command) || e == L.WriteFails(s.calls[c].command)
             || (e.CloseEnds? && s.cleanup.results == [])
    ensures c in L.Handle(s, e).calls
    ensures Rejection(L.Handle(s, e).calls[c]) == Some(ByLock(LockCommitUncertain, false))
  {
    assert s.calls[c].command in s.pending && s.pending[s.calls[c].command] == c;
    hide L.Inv, L.BeginQuiescence, L.WaitFor, L.AfterClose;
  }

  /** The rest of the wait for quiescence changes neither. */
  lemma RejectionStays(s: L.Lock, c: nat)
    requires L.Enabled(s, L.CallContinues(c))
    ensures c in L.Handle(s, L.CallContinues(c)).calls
    ensures Rejection(L.Handle(s, L.CallContinues(c)).calls[c]) == Rejection(s.calls[c])
  {
  }

  /**
    End to end: if the store concludes from a settled call that nothing was committed, the holder
    never performs its rename; if the call resolved, the holder has performed it.
   */
  lemma StoreConcludesTheTruth(s: L.Lock, events: seq<L.Event>, c: nat)
    requires L.Inv(s) && c in s.calls && s.calls[c].Settled?
    ensures Rejection(s.calls[c]).Some?
            && WrapExternalError(Rejection(s.calls[c]).value, RenameAttempted).commitState == NotCommitted ==>
              L.NeverCommits(L.Run(s, events).group, c)
    ensures Rejection(s.calls[c]).None? ==> L.HasCommitted(L.Run(s, events).group, c)
  {
    L.AnswersStayTrue(s, events, c);
    hide L.Inv, L.Run, L.NeverCommits, L.HasCommitted;
  }

  /**
    The store's transaction has no precondition on the destination, so its holder never reports a
    change of it: it renames unless the lock, the system call or the source is missing.
   */
  method StoreCommand(holder: H.Holder, source: string, destination: string, found: H.Findings)
      returns (answer: D.Answer, ghost performed: bool)
    requires !holder.unavailable
    modifies holder
    ensures performed <==> found.lockCurrent && !found.renameFails && source in old(holder.files)
    ensures holder.files == if performed then H.Rename(old(holder.files), source, destination) else old(holder.files)
    ensures answer == D.Confirmed <==> performed && found.lockStillCurrent
    ensures answer == D.Unsure <==> performed && !found.lockStillCurrent
    ensures answer == D.Replaced <==> !found.lockCurrent
    ensures holder.unavailable <==> answer in {D.Replaced, D.Unsure}
  {
    var reply, said, done := holder.HandleCommand(H.Request(true, source, destination, None), found);
    answer, performed := AnswerOf(reply), done;
  }
}
