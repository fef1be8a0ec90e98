/**
 The prepared-transaction slot (rust/src/api/wallet/transactions/prepared.rs): a generation-stamped capability store,
 with the operations of its two guards.  A transaction is any value of type T; a hash is an opaque name.
 */
module Prepared {
  import opened Common

  type Hash = nat

  const MAX_GENERATION: nat := 0xFFFF_FFFF_FFFF_FFFF

  datatype Error =
    | GenerationOverflow
    | PreparationInProgress
    | ReplacementDuringSubmission
    | AlreadySubmitting
    | CancellationDuringSubmission
    | NotFound
    | CannotDelete
    | EmptyGuard
    | PreparationStateInconsistent
    | SubmissionStateInconsistent
    | CancellationStateInconsistent

  datatype Slot<T> =
    | Empty
    | Ready(generation: nat, hash: Hash, transaction: T)
    | InFlight(generation: nat, hash: Hash)

  datatype Store<T> = Store(slot: Slot<T>, next: nat, preparing: Option<nat>)

  function Initial<T>(): Store<T> {
    Store(Empty, 0, None)
  }

  predicate Holds<T>(s: Store<T>, generation: nat) {
    !s.slot.Empty? && s.slot.generation == generation
  }

  predicate IsReady<T>(s: Store<T>, generation: nat, hash: Hash) {
    s.slot.Ready? && s.slot.generation == generation && s.slot.hash == hash
  }

  predicate IsInFlight<T>(s: Store<T>, generation: nat, hash: Hash) {
    s.slot == InFlight(generation, hash)
  }

  // ----- Checks -----

  /** ensure_replaceable, then allocate_generation: why a new preparation is refused. */
  function ReplaceRefusal<T>(s: Store<T>): Option<Error> {
    if s.preparing.Some? then Some(PreparationInProgress)
    else if s.slot.InFlight? then Some(ReplacementDuringSubmission)
    else if s.next >= MAX_GENERATION then Some(GenerationOverflow)
    else None
  }

  /** ensure_ready_exact; the other exact operations differ only in the error for a submission under way. */
  function ExactRefusal<T>(s: Store<T>, generation: nat, hash: Hash, busy: Error): Option<Error> {
    if s.preparing.Some? then Some(PreparationInProgress)
    else if IsInFlight(s, generation, hash) then Some(busy)
    else if IsReady(s, generation, hash) then None
    else Some(NotFound)
  }

  /** The same for the operations that name only a hash. */
  function HashRefusal<T>(s: Store<T>, hash: Hash, busy: Error, missing: Error): Option<Error> {
    if s.preparing.Some? then Some(PreparationInProgress)
    else if s.slot.InFlight? && s.slot.hash == hash then Some(busy)
    else if s.slot.Ready? && s.slot.hash == hash then None
    else Some(missing)
  }

  // ----- Store operations -----

  function Replaced<T>(s: Store<T>, hash: Hash, transaction: T): Store<T> {
    if ReplaceRefusal(s).Some? then s else Store(Ready(s.next + 1, hash, transaction), s.next + 1, None)
  }

  function Begun<T>(s: Store<T>): Store<T> {
    if ReplaceRefusal(s).Some? then s else Store(s.slot, s.next + 1, Some(s.next + 1))
  }

  function CommitRefusal<T>(s: Store<T>, generation: nat): Option<Error> {
    if s.preparing != Some(generation) then Some(PreparationStateInconsistent)
    else if s.slot.InFlight? then Some(ReplacementDuringSubmission)
    else None
  }

  function Committed<T>(s: Store<T>, generation: nat, hash: Hash, transaction: T): Store<T> {
    if CommitRefusal(s, generation).Some? then s else Store(Ready(generation, hash, transaction), s.next, None)
  }

  function Abandoned<T>(s: Store<T>, generation: nat): Store<T> {
    if s.preparing == Some(generation) then Store(s.slot, s.next, None) else s
  }

  function Cancelled<T>(s: Store<T>, hash: Hash): Store<T> {
    if HashRefusal(s, hash, CancellationDuringSubmission, CannotDelete).Some? then s else Store(Empty, s.next, s.preparing)
  }

  function CancelledExact<T>(s: Store<T>, generation: nat, hash: Hash): Store<T> {
    if ExactRefusal(s, generation, hash, CancellationDuringSubmission).Some? then s else Store(Empty, s.next, s.preparing)
  }

  function Taken<T>(s: Store<T>, hash: Hash): Store<T> {
    if HashRefusal(s, hash, AlreadySubmitting, NotFound).Some? then s
    else Store(InFlight(s.slot.generation, hash), s.next, s.preparing)
  }

  function TakenExact<T>(s: Store<T>, generation: nat, hash: Hash): Store<T> {
    if ExactRefusal(s, generation, hash, AlreadySubmitting).Some? then s
    else Store(InFlight(generation, hash), s.next, s.preparing)
  }

  function Restored<T>(s: Store<T>, generation: nat, hash: Hash, transaction: T): Store<T> {
    if IsInFlight(s, generation, hash) then Store(Ready(generation, hash, transaction), s.next, s.preparing) else s
  }

  function Finished<T>(s: Store<T>, generation: nat, hash: Hash): Store<T> {
    if IsInFlight(s, generation, hash) then Store(Empty, s.next, s.preparing) else s
  }

  // ----- Operations of parties that hold no guard -----

  datatype Op<T> =
    | OpReplace(hash: Hash, transaction: T)
    | OpCancel(hash: Hash)
    | OpCancelExact(generation: nat, hash: Hash)
    | OpInspect(generation: nat, hash: Hash)

  function After<T>(s: Store<T>, op: Op<T>): Store<T> {
    match op
    case OpReplace(hash, transaction) => Replaced(s, hash, transaction)
    case OpCancel(hash) => Cancelled(s, hash)
    case OpCancelExact(generation, hash) => CancelledExact(s, generation, hash)
    case OpInspect(_, _) => s
  }

  function AfterAll<T>(s: Store<T>, ops: seq<Op<T>>): Store<T> {
    if ops == [] then s else After(AfterAll(s, ops[..|ops| - 1]), ops[|ops| - 1])
  }

  /** A guard is out: a preparation is open or a submission is under way. */
  predicate Guarded<T>(s: Store<T>) {
    s.preparing.Some? || s.slot.InFlight?
  }

  /** While a guard is out nobody else can change the store, and nobody else can get a guard. */
  lemma {:induction false} GuardFreezes<T>(s: Store<T>, op: Op<T>)
    requires Guarded(s)
    ensures After(s, op) == s
    ensures Begun(s) == s && ReplaceRefusal(s).Some?
    ensures forall hash :: Taken(s, hash) == s && HashRefusal(s, hash, AlreadySubmitting, NotFound).Some?
    ensures forall generation, hash ::
              TakenExact(s, generation, hash) == s && ExactRefusal(s, generation, hash, AlreadySubmitting).Some?
  {
  }

  lemma {:induction false} GuardFreezesAll<T>(s: Store<T>, ops: seq<Op<T>>)
    requires Guarded(s)
    ensures AfterAll(s, ops) == s
  {
    if ops != [] {
      GuardFreezesAll(s, ops[..|ops| - 1]);
      GuardFreezes(s, ops[|ops| - 1]);
    }
  }

  // ----- The store as the source's object -----

  class PreparedTransactionStore<T(!new)> {
    var state: Slot<T>
    var nextGeneration: nat
    var activePreparation: Option<nat>

    ghost function View(): Store<T>
      reads this
    {
      Store(state, nextGeneration, activePreparation)
    }

    constructor ()
      ensures View() == Initial()
    {
      state, nextGeneration, activePreparation := Empty, 0, None;
    }

    method AllocateGeneration() returns (r: Result<nat, Error>)
      modifies this
      ensures old(nextGeneration) >= MAX_GENERATION ==> r == Failure(GenerationOverflow) && View() == old(View())
      ensures old(nextGeneration) < MAX_GENERATION ==>
                r == Success(old(nextGeneration) + 1) && View() == old(View()).(next := old(nextGeneration) + 1)
    {
      if nextGeneration >= MAX_GENERATION {
        return Failure(GenerationOverflow);
      }
      nextGeneration := nextGeneration + 1;
      return Success(nextGeneration);
    }

    method EnsureReplaceable() returns (r: Option<Error>)
      ensures r.Some? <==> Guarded(View())
      ensures r.Some? ==> ReplaceRefusal(View()) == r
    {
      if activePreparation.Some? {
        return Some(PreparationInProgress);
      }
      if state.InFlight? {
        return Some(ReplacementDuringSubmission);
      }
      return None;
    }

    method EnsureReadyExact(generation: nat, hash: Hash) returns (r: Option<Error>)
      ensures r == ExactRefusal(View(), generation, hash, AlreadySubmitting)
    {
      if activePreparation.Some? {
        return Some(PreparationInProgress);
      }
      if state.Ready? && state.generation == generation && state.hash == hash {
        return None;
      }
      if state.InFlight? && state.generation == generation && state.hash == hash {
        return Some(AlreadySubmitting);
      }
      return Some(NotFound);
    }

    method ReadyExact(generation: nat, hash: Hash) returns (r: Result<T, Error>)
      ensures r.Success? <==> activePreparation == None && IsReady(View(), generation, hash)
      ensures r.Success? ==> state == Ready(generation, hash, r.value)
      ensures r.Failure? ==> ExactRefusal(View(), generation, hash, AlreadySubmitting) == Some(r.error)
    {
      var refusal := EnsureReadyExact(generation, hash);
      if refusal.Some? {
        return Failure(refusal.value);
      }
      return Success(state.transaction);
    }

    method Replace(hash: Hash, transaction: T) returns (r: Result<nat, Error>)
      modifies this
      ensures View() == Replaced(old(View()), hash, transaction)
      ensures r == match ReplaceRefusal(old(View()))
                   case Some(e) => Failure(e)
                   case None => Success(old(nextGeneration) + 1)
    {
      var refusal := EnsureReplaceable();
      if refusal.Some? {
        return Failure(refusal.value);
      }
      r := AllocateGeneration();
      if r.Success? {
        state := Ready(r.value, hash, transaction);
      }
    }

    method BeginPreparation() returns (r: Result<nat, Error>)
      modifies this
      ensures View() == Begun(old(View()))
      ensures r == match ReplaceRefusal(old(View()))
                   case Some(e) => Failure(e)
                   case None => Success(old(nextGeneration) + 1)
    {
      var refusal := EnsureReplaceable();
      if refusal.Some? {
        return Failure(refusal.value);
      }
      r := AllocateGeneration();
      if r.Success? {
        activePreparation := Some(r.value);
      }
    }

    method CommitPreparation(generation: nat, hash: Hash, transaction: T) returns (r: Option<Error>)
      modifies this
      ensures View() == Committed(old(View()), generation, hash, transaction)
      ensures r == CommitRefusal(old(View()), generation)
    {
      if activePreparation != Some(generation) {
        return Some(PreparationStateInconsistent);
      }
      if state.InFlight? {
        return Some(ReplacementDuringSubmission);
      }
      state := Ready(generation, hash, transaction);
      activePreparation := None;
      return None;
    }

    method AbandonPreparation(generation: nat) returns (done: bool)
      modifies this
      ensures View() == Abandoned(old(View()), generation)
      ensures done == (old(activePreparation) == Some(generation))
    {
      done := activePreparation == Some(generation);
      if done {
        activePreparation := None;
      }
    }

    /** mem::take followed by a match: the last branch is the source's inconsistency error. */
    method TakeReady() returns (r: Result<T, Error>)
      modifies this`state
      ensures old(state).Ready? ==> r == Success(old(state).transaction) && state == Empty
      ensures !old(state).Ready? ==> r == Failure(CancellationStateInconsistent) && state == old(state)
    {
      var previous := state;
      state := Empty;
      if previous.Ready? {
        return Success(previous.transaction);
      }
      state := previous;
      return Failure(CancellationStateInconsistent);
    }

    method Cancel(hash: Hash) returns (r: Result<T, Error>)
      modifies this
      ensures View() == Cancelled(old(View()), hash)
      ensures r == match HashRefusal(old(View()), hash, CancellationDuringSubmission, CannotDelete)
                   case Some(e) => Failure(e)
                   case None => Success(old(state).transaction)
    {
      if activePreparation.Some? {
        return Failure(PreparationInProgress);
      }
      if state.InFlight? && state.hash == hash {
        return Failure(CancellationDuringSubmission);
      }
      if !(state.Ready? && state.hash == hash) {
        return Failure(CannotDelete);
      }
      r := TakeReady();
    }

    method CancelExact(generation: nat, hash: Hash) returns (r: Result<T, Error>)
      modifies this
      ensures View() == CancelledExact(old(View()), generation, hash)
      ensures r == match ExactRefusal(old(View()), generation, hash, CancellationDuringSubmission)
                   case Some(e) => Failure(e)
                   case None => Success(old(state).transaction)
    {
      if activePreparation.Some? {
        return Failure(PreparationInProgress);
      }
      if state.InFlight? && state.generation == generation && state.hash == hash {
        return Failure(CancellationDuringSubmission);
      }
      if !(state.Ready? && state.generation == generation && state.hash == hash) {
        return Failure(NotFound);
      }
      r := TakeReady();
    }

    method TakeReadyForSubmission() returns (r: Result<(nat, T), Error>)
      modifies this`state
      ensures old(state).Ready? ==>
                && r == Success((old(state).generation, old(state).transaction))
                && state == InFlight(old(state).generation, old(state).hash)
      ensures !old(state).Ready? ==> r == Failure(SubmissionStateInconsistent) && state == old(state)
    {
      var previous := state;
      state := Empty;
      if previous.Ready? {
        state := InFlight(previous.generation, previous.hash);
        return Success((previous.generation, previous.transaction));
      }
      state := previous;
      return Failure(SubmissionStateInconsistent);
    }

    method TakeForSubmission(hash: Hash) returns (r: Result<(nat, T), Error>)
      modifies this
      ensures View() == Taken(old(View()), hash)
      ensures r == match HashRefusal(old(View()), hash, AlreadySubmitting, NotFound)
                   case Some(e) => Failure(e)
                   case None => Success((old(state).generation, old(state).transaction))
    {
      if activePreparation.Some? {
        return Failure(PreparationInProgress);
      }
      if state.InFlight? && state.hash == hash {
        return Failure(AlreadySubmitting);
      }
      if !(state.Ready? && state.hash == hash) {
        return Failure(NotFound);
      }
      r := TakeReadyForSubmission();
    }

    method TakeForSubmissionExact(generation: nat, hash: Hash) returns (r: Result<T, Error>)
      modifies this
      ensures View() == TakenExact(old(View()), generation, hash)
      ensures r == match ExactRefusal(old(View()), generation, hash, AlreadySubmitting)
                   case Some(e) => Failure(e)
                   case None => Success(old(state).transaction)
    {
      if activePreparation.Some? {
        return Failure(PreparationInProgress);
      }
      if state.InFlight? && state.generation == generation && state.hash == hash {
        return Failure(AlreadySubmitting);
      }
      if !(state.Ready? && state.generation == generation && state.hash == hash) {
        return Failure(NotFound);
      }
      var taken := TakeReadyForSubmission();
      if taken.Failure? || taken.value.0 != generation {
        assert false;   // the source's inconsistency error
      }
      return Success(taken.value.1);
    }

    method RestoreAfterSubmission(generation: nat, hash: Hash, transaction: T) returns (r: Option<Error>)
      modifies this
      ensures View() == Restored(old(View()), generation, hash, transaction)
      ensures r == if IsInFlight(old(View()), generation, hash) then None else Some(SubmissionStateInconsistent)
    {
      if state.InFlight? && state.generation == generation && state.hash == hash {
        state := Ready(generation, hash, transaction);
        return None;
      }
      return Some(SubmissionStateInconsistent);
    }

    method FinishSubmission(generation: nat, hash: Hash) returns (done: bool)
      modifies this
      ensures View() == Finished(old(View()), generation, hash)
      ensures done == IsInFlight(old(View()), generation, hash)
    {
      done := state.InFlight? && state.generation == generation && state.hash == hash;
      if done {
        state := Empty;
      }
    }

    /** Other tasks use the store between two steps of a guard's owner. */
    method Interleave(ops: seq<Op<T>>)
      modifies this
      ensures View() == AfterAll(old(View()), ops)
    {
      var i := 0;
      while i < |ops|
        invariant 0 <= i <= |ops|
        invariant View() == AfterAll(old(View()), ops[..i])
      {
        match ops[i] {
          case OpReplace(hash, transaction) => var _ := Replace(hash, transaction);
          case OpCancel(hash) => var _ := Cancel(hash);
          case OpCancelExact(generation, hash) => var _ := CancelExact(generation, hash);
          case OpInspect(generation, hash) => var _ := ReadyExact(generation, hash);
        }
        assert ops[..i + 1][..i] == ops[..i];
        i := i + 1;
      }
      assert ops[..i] == ops;
    }
  }
}
