/**
  What the encrypted store is to its callers: one register, changed only by atomic
  compare-and-swap on the generation, that survives crashes.

  The register keeps the whole history of committed records. A machine crash may
  forget the tail that no directory sync has made durable, and ends every open call.
 */
module Register {
  import opened Options
  import opened Payloads
  import opened StoreErrors

  const MAX_GENERATION: nat := 18_446_744_073_709_551_615

  datatype Operation = CompareAndSwap | RotateEncryption

  datatype Record = Record(
    generation: nat,
    base: nat,
    commitId: nat,
    operation: Operation,
    payload: Payload)

  datatype Request =
    | Read
    | Swap(expected: nat, commitId: nat, payload: Payload)
    | Rotate(expected: nat, commitId: nat)

  datatype Outcome =
    | Found(current: Option<Record>)
    | Stored(record: Record, replayed: bool)
    | Failed(error: StoreError)

  /**
    A call of the store. `seen` is the generation found by its one look at the register,
    `applied` tells whether it replaced the record, `attached` whether somebody still waits.
   */
  datatype Call = Call(request: Request, seen: Option<nat>, applied: bool, attached: bool, outcome: Option<Outcome>)

  /** `reported` collects every record that any caller was ever told of. */
  datatype State = State(log: seq<Record>, durable: nat, calls: map<nat, Call>, reported: set<Record>)

  datatype Event =
    | Internal
    | Begin(call: nat, request: Request)
    | Respond(call: nat, outcome: Outcome)
    | Detach(call: nat)
    | MachineCrash

  ghost predicate Init(s: State) {
    s == State([], 0, map[], {})
  }

  function Latest(log: seq<Record>): Option<Record> {
    if |log| == 0 then None else Some(log[|log| - 1])
  }

  function OperationOf(request: Request): Operation
    requires !request.Read?
  {
    if request.Swap? then CompareAndSwap else RotateEncryption
  }

  datatype Decision = Refuse(code: StoreCode) | Replay | Write(record: Record)

  /** The body of `compareAndSwap` and `rotateEncryption` between the look and the commit. */
  function Decide(request: Request, current: Option<Record>): Decision
    requires !request.Read?
  {
    if current.None? && request.Rotate? then Refuse(IoFailed)
    else if current.Some? && current.value.commitId == request.commitId then
      if || current.value.operation != OperationOf(request)
         || (request.Swap? && current.value.payload != request.payload)
      then Refuse(CommitIdConflict)
      else if current.value.base != request.expected then Refuse(GenerationConflict)
      else Replay
    else
      var generation := if current.None? then 0 else current.value.generation;
      if generation != request.expected then Refuse(GenerationConflict)
      else if generation >= MAX_GENERATION then Refuse(GenerationExhausted)
      else Write(Record(generation + 1, generation, request.commitId, OperationOf(request),
                        if request.Swap? then request.payload else current.value.payload))
  }

  /**
    A request writes exactly if it expects the generation that is there, below the last one, and
    its commit ID is not that of the current record; one with that ID is a replay exactly if it
    asks for what this record did, and a conflict of IDs exactly if it asks for something else.
   */
  lemma DecideIsExact(request: Request, current: Option<Record>)
    requires !request.Read?
    ensures var decision := Decide(request, current);
            var generation := if current.None? then 0 else current.value.generation;
            var again := current.Some? && current.value.commitId == request.commitId;
            var same := again && current.value.operation == OperationOf(request)
                        && (request.Swap? ==> current.value.payload == request.payload);
            var possible := current.Some? || request.Swap?;
            && (decision.Write? <==> possible && !again && generation == request.expected < 18_446_744_073_709_551_615)
            && (decision.Write? ==>
                  && decision.record.generation == request.expected + 1
                  && decision.record.base == request.expected
                  && decision.record.commitId == request.commitId
                  && decision.record.operation == OperationOf(request)
                  && (request.Swap? ==> decision.record.payload == request.payload)
                  && (request.Rotate? ==> decision.record.payload == current.value.payload))
            && (decision == Replay <==> same && current.value.base == request.expected)
            && (decision == Refuse(CommitIdConflict) <==> again && !same)
            && (decision == Refuse(GenerationExhausted) <==>
                  possible && !again && generation == request.expected >= 18_446_744_073_709_551_615)
  {
  }

  /** A call that nobody will ever see finish may still replace the record, and only such a call. */
  predicate MayStillApply(call: Call) {
    call.outcome.Some? ==>
      call.outcome.value.Failed? && call.outcome.value.error == StoreError(LockReleaseFailed, Uncertain)
  }

  /** What a report entitles its receiver to believe. */
  ghost predicate Justified(log: seq<Record>, durable: nat, call: Call, outcome: Outcome) {
    match outcome
    case Found(None) =>
      call.request.Read? && call.seen == Some(0)
    case Found(Some(record)) =>
      && call.request.Read?
      && call.seen == Some(record.generation)
      && 0 < record.generation <= durable <= |log|
      && log[record.generation - 1] == record
    case Stored(record, replayed) =>
      && !call.request.Read?
      && (replayed <==> !call.applied)
      && call.request.expected < durable <= |log|
      && log[call.request.expected] == record
      && record.commitId == call.request.commitId
      && record.operation == OperationOf(call.request)
      && (call.request.Swap? ==> record.payload == call.request.payload)
    case Failed(error) =>
      && (error.commitState in {Unstated, NotCommitted} ==> !call.applied)
      && (error.commitState == Committed ==> !call.request.Read? && call.applied && call.request.expected < durable)
      && (error.code == GenerationConflict ==> RefusedByLook(log, call))
  }

  ghost predicate RefusedByLook(log: seq<Record>, call: Call) {
    && call.seen.Some?
    && call.seen.value <= |log|
    && !call.request.Read?
    && Decide(call.request, Latest(log[..call.seen.value])) == Refuse(GenerationConflict)
  }

  function RecordsIn(outcome: Outcome): set<Record> {
    match outcome
    case Found(Some(record)) => {record}
    case Stored(record, _) => {record}
    case _ => {}
  }

  /** One look at the register. */
  ghost predicate Look(s: State, s': State, c: nat) {
    && c in s.calls
    && s.calls[c].attached
    && s.calls[c].seen.None?
    && s' == s.(calls := s.calls[c := s.calls[c].(seen := Some(|s.log|))])
  }

  /** The atomic compare-and-swap: nothing was committed since this call's look. */
  ghost predicate Apply(s: State, s': State, c: nat) {
    && c in s.calls
    && var call := s.calls[c];
    && !call.request.Read?
    && !call.applied
    && MayStillApply(call)
    && call.seen == Some(|s.log|)
    && Decide(call.request, Latest(s.log)).Write?
    && s' == s.(log := s.log + [Decide(call.request, Latest(s.log)).record],
                calls := s.calls[c := call.(applied := true)])
  }

  /** A directory sync. */
  ghost predicate Persist(s: State, s': State) {
    s' == s.(durable := |s.log|)
  }

  ghost predicate Crash(s: State, s': State, keep: nat) {
    && s.durable <= keep <= |s.log|
    && s' == s.(log := s.log[..keep], durable := keep, calls := map[])
  }

  ghost predicate Step(s: State, s': State, event: Event) {
    match event
    case Internal =>
      || s' == s
      || Persist(s, s')
      || (exists c :: Look(s, s', c))
      || (exists c :: Apply(s, s', c))
    case Begin(c, request) =>
      && c !in s.calls
      && s' == s.(calls := s.calls[c := Call(request, None, false, true, None)])
    case Respond(c, outcome) =>
      && c in s.calls
      && s.calls[c].attached
      && Justified(s.log, s.durable, s.calls[c], outcome)
      && s' == s.(calls := s.calls[c := s.calls[c].(attached := false, outcome := Some(outcome))],
                  reported := s.reported + RecordsIn(outcome))
    case Detach(c) =>
      && c in s.calls
      && s.calls[c].attached
      && s' == s.(calls := s.calls[c := s.calls[c].(attached := false)])
    case MachineCrash =>
      exists keep :: Crash(s, s', keep)
  }

  // What every state of the register satisfies

  ghost predicate Numbered(log: seq<Record>) {
    && |log| <= MAX_GENERATION
    && forall i :: 0 <= i < |log| ==> log[i].base == i && log[i].generation == i + 1
  }

  ghost predicate CallOk(s: State, call: Call) {
    && (call.seen.Some? ==> call.seen.value <= |s.log|)
    && (call.attached ==> call.outcome.None?)
    && (call.applied ==> !call.request.Read? && call.request.expected < |s.log|)
    && (call.outcome.Some? ==> Honest(call.applied, call.outcome.value))
  }

  /** What a caller was told agrees with whether its call replaced the record. */
  predicate Honest(applied: bool, outcome: Outcome) {
    && (applied ==> || (outcome.Stored? && !outcome.replayed)
                    || (outcome.Failed? && outcome.error.commitState in {Committed, Uncertain}))
    && (outcome.Stored? && !outcome.replayed ==> applied)
    && (outcome.Failed? && outcome.error.commitState == Committed ==> applied)
  }

  /** A record that was reported is durable history. */
  ghost predicate Kept(s: State, record: Record) {
    0 < record.generation <= s.durable <= |s.log| && s.log[record.generation - 1] == record
  }

  /** Two calls never both replace the record of one generation. */
  ghost predicate AppliedOnce(s: State) {
    forall c, d | c in s.calls && d in s.calls && s.calls[c].applied && s.calls[d].applied ::
      Target(s.calls[c]) == Target(s.calls[d]) ==> c == d
  }

  function Target(call: Call): nat {
    if call.request.Read? then 0 else call.request.expected
  }

  ghost predicate Inv(s: State) {
    && Numbered(s.log)
    && s.durable <= |s.log|
    && (forall c :: c in s.calls ==> CallOk(s, s.calls[c]))
    && (forall r :: r in s.reported ==> Kept(s, r))
    && AppliedOnce(s)
  }

  lemma InitInv(s: State)
    requires Init(s)
    ensures Inv(s)
  {
  }

  lemma StepInv(s: State, s': State, event: Event)
    requires Inv(s) && Step(s, s', event)
    ensures Inv(s')
  {
    match event
    case Internal =>
      if c :| Look(s, s', c) {
        CallMovesInv(s, s', c);
      } else if c :| Apply(s, s', c) {
        ApplyInv(s, s', c);
      }
    case Begin(c, _) => CallMovesInv(s, s', c);
    case Respond(c, outcome) => RespondInv(s, s', c, outcome);
    case Detach(c) => CallMovesInv(s, s', c);
    case MachineCrash =>
      var keep :| Crash(s, s', keep);
      assert forall r :: r in s'.reported ==> Kept(s, r);
  }

  lemma CallMovesInv(s: State, s': State, c: nat)
    requires Inv(s) && c in s'.calls && s' == s.(calls := s.calls[c := s'.calls[c]])
    requires CallOk(s, s'.calls[c])
    requires s'.calls[c].applied ==> c in s.calls && s.calls[c].applied && s.calls[c].request == s'.calls[c].request
    ensures Inv(s')
  {
  }

  lemma RespondInv(s: State, s': State, c: nat, outcome: Outcome)
    requires Inv(s) && Step(s, s', Respond(c, outcome))
    ensures Inv(s')
  {
    CallMovesInv(s, s.(calls := s'.calls), c);
    forall r | r in s'.reported
      ensures Kept(s', r)
    {
      assert Kept(s, r) || r in RecordsIn(outcome);
    }
  }

  lemma ApplyInv(s: State, s': State, c: nat)
    requires Inv(s) && Apply(s, s', c)
    ensures Inv(s')
  {
    assert forall r :: r in s'.reported ==> Kept(s, r);
    forall d | d in s'.calls
      ensures CallOk(s', s'.calls[d])
    {
      assert CallOk(s, s.calls[d]);
    }
    forall d, e | d in s'.calls && e in s'.calls && s'.calls[d].applied && s'.calls[e].applied
      ensures Target(s'.calls[d]) == Target(s'.calls[e]) ==> d == e
    {
      assert CallOk(s, s.calls[d]) && CallOk(s, s.calls[e]);
    }
  }

  /** No step, not even a machine crash, takes back what a directory sync made durable. */
  lemma DurableHistoryIsKept(s: State, s': State, event: Event)
    requires Inv(s) && Step(s, s', event)
    ensures s.durable <= s'.durable <= |s'.log|
    ensures s'.log[..s.durable] == s.log[..s.durable]
    ensures s.reported <= s'.reported
  {
  }

  /** Outside a crash, an answered call is settled unless the answer was a failed lock release. */
  lemma AnsweredCallsAreSettled(s: State, s': State, event: Event, c: nat)
    requires Inv(s) && Step(s, s', event)
    requires c in s.calls && !MayStillApply(s.calls[c])
    ensures event.MachineCrash? || (c in s'.calls && s'.calls[c] == s.calls[c])
  {
    assert CallOk(s, s.calls[c]);
  }

  /** Reports never disagree: a generation names one commit and one payload for ever. */
  lemma ReportsAgree(s: State, first: Record, second: Record)
    requires Inv(s) && first in s.reported && second in s.reported
    requires first.generation == second.generation
    ensures first == second
  {
    assert Kept(s, first) && Kept(s, second);
  }

  /** Of two calls that make the same request, at most one replaces the record. */
  lemma SameRequestAppliesOnce(s: State, c: nat, d: nat)
    requires Inv(s) && c in s.calls && d in s.calls && c != d && s.calls[c].request == s.calls[d].request
    ensures !s.calls[c].applied || !s.calls[d].applied
  {
    assert s.calls[c].applied ==> CallOk(s, s.calls[c]);
    assert Target(s.calls[c]) == Target(s.calls[d]);
  }

  /**
    A retry is never a second application: while the record that the first try wrote is
    still the latest, the same request is recognised and replayed; once anything newer is
    the latest, it is refused.
   */
  lemma RetryIsRecognised(log: seq<Record>, request: Request, at: nat, later: seq<Record>)
    requires !request.Read? && at == |log|
    requires Numbered(log) && Decide(request, Latest(log)).Write?
    requires var written := log + [Decide(request, Latest(log)).record];
             && Numbered(later) && written <= later
             && forall i :: at < i < |later| ==> later[i].commitId != request.commitId
    ensures |later| == at + 1 ==> Decide(request, Latest(later)) == Replay
    ensures |later| > at + 1 ==> Decide(request, Latest(later)) == Refuse(GenerationConflict)
  {
    var written := log + [Decide(request, Latest(log)).record];
    assert later[at] == written[at];
  }
}
