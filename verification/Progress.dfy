/**
  The rebase loops of the broker (`#reserveRefresh` and `#commitAfterDispatch` in
  src/auth-broker.mjs) over a store that does not fail, while an operator rotates the
  encryption key at arbitrary moments.
 */
module Progress {
  import opened Options
  import opened Payloads
  import opened StoreErrors
  import opened Broker
  import R = Register

  function Total(script: seq<nat>): nat {
    if script == [] then 0 else script[0] + Total(script[1..])
  }

  /**
    The canonical record behind a store that always answers. `script` says how many key
    rotations slip in before each following store call; after its end there are none.
   */
  class RotatedStore {
    var log: seq<R.Record>
    var script: seq<nat>
    var nextId: nat

    ghost predicate Valid()
      reads this
    {
      && log != []
      && R.Numbered(log)
      && |log| + Total(script) < R.MAX_GENERATION
      && forall i :: 0 <= i < |log| ==> log[i].commitId < nextId
    }

    function Latest(): R.Record
      requires log != []
      reads this
    {
      log[|log| - 1]
    }

    constructor (record: R.Record, script: seq<nat>)
      requires record.generation == 1 && record.base == 0 && 1 + Total(script) < R.MAX_GENERATION
      ensures Valid() && log == [record] && this.script == script
    {
      log, this.script, nextId := [record], script, record.commitId + 1;
    }

    method FreshId() returns (id: nat)
      requires Valid()
      modifies this`nextId
      ensures Valid() && id < nextId
      ensures forall i :: 0 <= i < |log| ==> log[i].commitId != id
    {
      id := nextId;
      nextId := nextId + 1;
    }

    /** The rotations that slip in before one store call: they change the generation, never the payload. */
    method Interleave()
      requires Valid()
      modifies this
      ensures Valid()
      ensures old(log) <= log && Latest().payload == old(Latest().payload)
      ensures |log| + Total(script) == old(|log| + Total(script))
      ensures forall i :: old(|log|) <= i < |log| ==> log[i].commitId >= old(nextId)
      ensures old(nextId) <= nextId
    {
      if script != [] {
        var rotations, rest := script[0], script[1..];
        ghost var start, size, payload := log, |log|, Latest().payload;
        ghost var room := |log| + Total(script);
        script := rest;
        while rotations > 0
          invariant log != [] && R.Numbered(log)
          invariant forall i :: 0 <= i < |log| ==> log[i].commitId < nextId
          invariant forall i :: size <= i < |log| ==> log[i].commitId >= old(nextId)
          invariant old(nextId) <= nextId && script == rest
          invariant start <= log && Latest().payload == payload
          invariant |log| + rotations + Total(rest) == room
        {
          log := log + [R.Record(|log| + 1, |log|, nextId, R.RotateEncryption, Latest().payload)];
          nextId := nextId + 1;
          rotations := rotations - 1;
        }
      }
    }

    method Read() returns (outcome: R.Outcome)
      requires Valid()
      modifies this
      ensures Valid()
      ensures old(log) <= log && Latest().payload == old(Latest().payload)
      ensures |log| + Total(script) == old(|log| + Total(script))
      ensures outcome == R.Found(Some(Latest()))
    {
      Interleave();
      outcome := R.Found(Some(Latest()));
    }

    /** `compareAndSwap` of module Register, after the rotations that slip in. */
    method CompareAndSwap(request: R.Request) returns (outcome: R.Outcome)
      requires Valid() && request.Swap? && request.expected <= |log| && request.commitId < nextId
      requires forall i :: 0 <= i < |log| ==> log[i].commitId != request.commitId
      requires |log| + Total(script) + 1 < R.MAX_GENERATION
      modifies this
      ensures Valid() && old(log) <= log
      ensures outcome.Stored? <==> old(|log|) + (old(Total(script)) - Total(script)) == request.expected
      ensures outcome.Stored? ==>
                && |log| == request.expected + 1
                && outcome.record == Latest()
                && Latest().payload == request.payload
                && Latest().commitId == request.commitId
                && |log| + Total(script) == old(|log| + Total(script)) + 1
      ensures !outcome.Stored? ==>
                && outcome == R.Failed(StoreError(GenerationConflict, Unstated))
                && |log| > request.expected
                && Latest().payload == old(Latest().payload)
                && |log| + Total(script) == old(|log| + Total(script))
    {
      Interleave();
      assert Latest().commitId != request.commitId;
      var decision := R.Decide(request, Some(Latest()));
      if decision.Write? {
        log := log + [decision.record];
        outcome := R.Stored(decision.record, false);
      } else {
        outcome := R.Failed(StoreError(GenerationConflict, Unstated));
      }
    }
  }

  datatype Finish = Landed(record: R.Record) | GaveUp(code: BrokerCode)

  /** `#compareAndRead`: fails only if a rotation came between, and then leaves the payload alone. */
  method CompareAndRead(store: RotatedStore, expected: nat, payload: Payload, postDispatch: bool) returns (step: ReadStep)
    requires store.Valid() && 0 < expected <= |store.log|
    requires |store.log| + Total(store.script) + 1 < R.MAX_GENERATION
    modifies store
    ensures store.Valid() && old(store.log) <= store.log
    ensures step.Proven? ==> step.record == store.Latest() && step.record.payload == payload
    ensures step.ReadThrows? ==>
              && step.code == CasConflict
              && |store.log| > expected
              && store.Latest().payload == old(store.Latest().payload)
              && |store.log| + Total(store.script) == old(|store.log| + Total(store.script))
  {
    var commitId := store.FreshId();
    var first := Attempt(expected, payload, commitId, postDispatch, false, false, None);
    var swap := SwapAgain(first);
    while swap.SwapAgain?
      invariant store.Valid() && old(store.log) <= store.log
      invariant swap.SwapAgain? ==>
                  && swap.attempt == first
                  && store.log == old(store.log)
                  && store.script == old(store.script)
                  && commitId < store.nextId
                  && forall i :: 0 <= i < |store.log| ==> store.log[i].commitId != commitId
      invariant swap.SwapThrows? ==>
                  && swap.code == CasConflict
                  && |store.log| > expected
                  && store.Latest().payload == old(store.Latest().payload)
                  && |store.log| + Total(store.script) == old(|store.log| + Total(store.script))
      invariant swap.ReadBack? ==>
                  && swap.attempt == first.(committed := Some(|store.log|))
                  && store.Latest().payload == payload
                  && store.Latest().commitId == commitId
      decreases swap.SwapAgain?
    {
      var outcome := store.CompareAndSwap(R.Swap(expected, commitId, payload));
      swap := OnSwap(swap.attempt, outcome);
    }
    if swap.SwapThrows? {
      return ReadThrows(swap.code);
    }
    var outcome := store.Read();
    step := OnReadBack(swap.attempt, outcome);
  }

  /**
    `#commitAfterDispatch`. Each failed attempt costs a rotation: with at most seven rotations
    after `before` it always commits, and when it gives up there were eight, and the reservation
    is still the canonical payload.
   */
  method CommitAfterDispatch(store: RotatedStore, before: R.Record, payload: Payload) returns (finish: Finish)
    requires store.Valid() && 0 < before.generation <= |store.log|
    requires store.Latest().payload == before.payload != payload
    requires |store.log| + Total(store.script) + 1 < R.MAX_GENERATION
    modifies store
    ensures store.Valid() && old(store.log) <= store.log
    ensures finish.Landed? ==> finish.record == store.Latest() && finish.record.payload == payload
    ensures finish.GaveUp? ==>
              && finish.code == RefreshOutcomeUncertain
              && store.Latest().payload == before.payload
              && |store.log| >= before.generation + 8
    ensures old(|store.log|) + old(Total(store.script)) - before.generation <= 7 ==> finish.Landed?
  {
    var current := before;
    var attempt := 0;
    while attempt < MAX_STORAGE_ONLY_REBASES
      invariant attempt <= MAX_STORAGE_ONLY_REBASES
      invariant store.Valid() && old(store.log) <= store.log
      invariant 0 < current.generation <= |store.log|
      invariant store.Latest().payload == before.payload
      invariant |store.log| + Total(store.script) == old(|store.log| + Total(store.script))
      invariant current.generation >= before.generation + attempt
    {
      var step := CompareAndRead(store, current.generation, payload, true);
      if step.Proven? {
        return Landed(step.record);
      }
      var outcome := store.Read();
      match OnCommitReread(before.payload, payload, step.code, outcome)
      case Accept(latest) => return Landed(latest);
      case Stop(code) => return GaveUp(code);
      case Rebase(latest) =>
        current := latest;
        attempt := attempt + 1;
    }
    finish := GaveUp(RefreshOutcomeUncertain);
  }

  /** `#reserveRefresh`: the same bound, with the ready credential in place of the reservation. */
  method ReserveRefresh(store: RotatedStore, before: R.Record, reservationId: nat) returns (finish: Finish)
    requires store.Valid() && 0 < before.generation <= |store.log|
    requires before.payload.Ready? && store.Latest().payload == before.payload
    requires |store.log| + Total(store.script) + 1 < R.MAX_GENERATION
    modifies store
    ensures store.Valid() && old(store.log) <= store.log
    ensures finish.Landed? ==>
              finish.record == store.Latest()
              && finish.record.payload == Reservation(before.payload.credential, reservationId)
    ensures finish.GaveUp? ==>
              && finish.code == CasConflict
              && store.Latest().payload == before.payload
              && |store.log| >= before.generation + 8
    ensures old(|store.log|) + old(Total(store.script)) - before.generation <= 7 ==> finish.Landed?
  {
    var payload := Reservation(before.payload.credential, reservationId);
    var current := before;
    var attempt := 0;
    while attempt < MAX_STORAGE_ONLY_REBASES
      invariant attempt <= MAX_STORAGE_ONLY_REBASES
      invariant store.Valid() && old(store.log) <= store.log
      invariant 0 < current.generation <= |store.log|
      invariant store.Latest().payload == before.payload
      invariant |store.log| + Total(store.script) == old(|store.log| + Total(store.script))
      invariant current.generation >= before.generation + attempt
    {
      var step := CompareAndRead(store, current.generation, payload, false);
      if step.Proven? {
        return Landed(step.record);
      }
      var outcome := store.Read();
      match OnReserveReread(before.payload, payload, current.generation, step.code, outcome)
      case Accept(latest) => return Landed(latest);
      case Stop(code) => return GaveUp(code);
      case Rebase(latest) =>
        current := latest;
        attempt := attempt + 1;
    }
    finish := GaveUp(CasConflict);
  }
}
