/**
 The two guards of the prepared-transaction slot as the objects that own them, and the broadcast that drives one
 (rust/src/api/wallet/transactions/prepared.rs, rust/src/api/wallet/transactions.rs).  Other tasks may use the store
 between any two steps of a guard's owner.
 */
module PreparedGuards {
  import opened Common
  import opened Prepared
  import opened PreparedRuns

  class PreparationGuard<T(!new)> {
    const store: PreparedTransactionStore<T>
    const generation: nat
    var active: bool

    constructor (store: PreparedTransactionStore<T>, generation: nat)
      ensures this.store == store && this.generation == generation && active
    {
      this.store, this.generation, active := store, generation, true;
    }

    /** The guard as the machine of all runs sees it. */
    ghost function View(): Preparation
      reads this
    {
      Preparation(generation, active)
    }

    /** The store still records this guard's preparation. */
    ghost predicate Live()
      reads this, store
    {
      active && store.activePreparation == Some(generation) && !store.state.InFlight?
    }

    static method Begin(store: PreparedTransactionStore<T>) returns (r: Result<PreparationGuard<T>, Error>)
      modifies store
      ensures store.View() == Begun(old(store.View()))
      ensures r.Failure? <==> ReplaceRefusal(old(store.View())).Some?
      ensures r.Failure? ==> ReplaceRefusal(old(store.View())) == Some(r.error)
      ensures r.Success? ==> fresh(r.value) && r.value.store == store && r.value.Live()
      ensures r.Success? ==> r.value.View() == Preparation(old(store.nextGeneration) + 1, true)
    {
      var begun := store.BeginPreparation();
      if begun.Failure? {
        return Failure(begun.error);
      }
      var guard := new PreparationGuard(store, begun.value);
      return Success(guard);
    }

    /** Consumes the guard: it publishes, or the guard is dropped with the preparation still open. */
    method Commit(hash: Hash, transaction: T) returns (r: Result<nat, Error>)
      requires active
      modifies this, store
      ensures old(Live()) ==>
                r == Success(generation) && store.View() == Committed(old(store.View()), generation, hash, transaction)
      ensures !old(Live()) ==> r.Failure? && store.View() == Abandoned(old(store.View()), generation)
      ensures store.View() == CommitBy(old(store.View()), old(View()), hash, transaction)
      ensures !View().live
    {
      var refusal := store.CommitPreparation(generation, hash, transaction);
      if refusal.Some? {
        Drop();
        return Failure(refusal.value);
      }
      active := false;
      return Success(generation);
    }

    method Drop()
      modifies this, store
      ensures store.View() == DropBy(old(store.View()), old(View()))
      ensures !View().live
    {
      if active {
        var _ := store.AbandonPreparation(generation);
        active := false;
      }
    }
  }

  class SubmissionGuard<T(!new)> {
    const store: PreparedTransactionStore<T>
    const generation: nat
    const hash: Hash
    var transaction: Option<T>

    constructor (store: PreparedTransactionStore<T>, generation: nat, hash: Hash, transaction: T)
      ensures this.store == store && this.generation == generation && this.hash == hash && this.transaction == Some(transaction)
    {
      this.store, this.generation, this.hash, this.transaction := store, generation, hash, Some(transaction);
    }

    /** The guard as the machine of all runs sees it: used up when it has given its transaction away. */
    ghost function View(): Submission<T>
      reads this
    {
      Submission(generation, hash, transaction, transaction.Some?)
    }

    /** The slot is in flight under this guard's capability, and the guard holds the transaction. */
    ghost predicate Live()
      reads this, store
    {
      transaction.Some? && store.state == InFlight(generation, hash)
    }

    static method Take(store: PreparedTransactionStore<T>, hash: Hash) returns (r: Result<SubmissionGuard<T>, Error>)
      modifies store
      ensures store.View() == Taken(old(store.View()), hash)
      ensures r.Failure? ==> HashRefusal(old(store.View()), hash, AlreadySubmitting, NotFound) == Some(r.error)
      ensures r.Success? ==> fresh(r.value) && r.value.store == store && r.value.Live()
      ensures r.Success? ==>
                old(store.state) == Ready(r.value.generation, hash, r.value.transaction.value) && r.value.hash == hash
    {
      var taken := store.TakeForSubmission(hash);
      if taken.Failure? {
        return Failure(taken.error);
      }
      var guard := new SubmissionGuard(store, taken.value.0, hash, taken.value.1);
      return Success(guard);
    }

    static method TakeExact(
      store: PreparedTransactionStore<T>, generation: nat, hash: Hash) returns (r: Result<SubmissionGuard<T>, Error>)
      modifies store
      ensures store.View() == TakenExact(old(store.View()), generation, hash)
      ensures r.Failure? ==> ExactRefusal(old(store.View()), generation, hash, AlreadySubmitting) == Some(r.error)
      ensures r.Success? ==> fresh(r.value) && r.value.store == store && r.value.Live()
      ensures r.Success? ==> old(store.state) == Ready(generation, hash, r.value.transaction.value)
      ensures r.Success? ==> r.value.generation == generation && r.value.hash == hash && old(store.activePreparation) == None
    {
      var taken := store.TakeForSubmissionExact(generation, hash);
      if taken.Failure? {
        return Failure(taken.error);
      }
      var guard := new SubmissionGuard(store, generation, hash, taken.value);
      return Success(guard);
    }

    method Restore() returns (r: Option<Error>)
      modifies this, store
      ensures !View().live
      ensures old(Live()) ==> r == None && store.View() == Restored(old(store.View()), generation, hash, old(transaction.value))
      ensures !old(Live()) ==> r.Some?
      ensures store.View() == GiveBack(old(store.View()), old(View()))
    {
      if transaction == None {
        return Some(EmptyGuard);
      }
      var held := transaction.value;
      transaction := None;
      r := store.RestoreAfterSubmission(generation, hash, held);
    }

    /** Consumes the guard: a refused finish puts the transaction back and drops it. */
    method Finish() returns (r: Result<T, Error>)
      modifies this, store
      ensures !View().live
      ensures old(Live()) ==>
                r == Success(old(transaction.value)) && store.View() == Finished(old(store.View()), generation, hash)
      ensures !old(Live()) ==> r.Failure?
      ensures store.View() == FinishBy(old(store.View()), old(View()))
    {
      if transaction == None {
        return Failure(EmptyGuard);
      }
      var held := transaction.value;
      transaction := None;
      var done := store.FinishSubmission(generation, hash);
      if !done {
        transaction := Some(held);
        Drop();
        return Failure(SubmissionStateInconsistent);
      }
      return Success(held);
    }

    method Drop()
      modifies this, store
      ensures !View().live
      ensures store.View() == GiveBack(old(store.View()), old(View()))
    {
      if transaction.Some? {
        var held := transaction.value;
        transaction := None;
        var _ := store.RestoreAfterSubmission(generation, hash, held);
      }
    }
  }

  // ----- Broadcasting -----

  /** How resolve_submission classifies the daemon's answer; `applied`: local state accepted the transaction. */
  datatype Resolution = WasSubmitted(applied: bool) | IsRetryable | DaemonRejected | FailedLocally

  datatype Outcome = Submitted | SubmittedNeedsResync | Retryable | Rejected | LocalFailure

  datatype BroadcastError = StoreError(error: Error) | StorageReadFailed

  function OutcomeOf(resolution: Resolution): Outcome {
    match resolution
    case WasSubmitted(applied) => if applied then Submitted else SubmittedNeedsResync
    case IsRetryable => Retryable
    case DaemonRejected => Rejected
    case FailedLocally => LocalFailure
  }

  /**
   A broadcast, with other tasks using the store while it waits for the daemon.  It succeeds only for the capability
   in the slot; a terminal outcome empties the slot, and everything else, errors included, leaves the store as it was.
   */
  method BroadcastPreparedTransaction<T(!new)>(store: PreparedTransactionStore<T>, generation: nat, hash: Hash,
                                               online: bool, readable: bool, resolution: Resolution, others: seq<Op<T>>)
    returns (r: Result<Outcome, BroadcastError>, sent: Option<T>)
    modifies store
    ensures r.Success? <==>
              old(store.activePreparation == None && IsReady(store.View(), generation, hash)) && (online ==> readable)
    ensures r.Success? ==> (r.value == Submitted <==> online && resolution == WasSubmitted(true))
    ensures r.Success? ==> (r.value == SubmittedNeedsResync <==> online && resolution == WasSubmitted(false))
    ensures r.Success? ==> (r.value == Rejected <==> online && resolution == DaemonRejected)
    ensures r.Success? ==> (r.value == LocalFailure <==> online && resolution == FailedLocally)
    ensures r.Success? ==> (r.value == Retryable <==> !online || resolution == IsRetryable)
    ensures r.Failure? && r.error.StoreError? ==>
              ExactRefusal(old(store.View()), generation, hash, AlreadySubmitting) == Some(r.error.error)
    ensures r.Success? && r.value != Retryable ==> store.View() == old(store.View()).(slot := Empty)
    ensures r.Failure? || r.value == Retryable ==> store.View() == old(store.View())
    ensures sent.Some? <==> r.Success? && online
    ensures sent.Some? ==> old(store.state) == Ready(generation, hash, sent.value)
  {
    sent := None;
    if !online {
      var refusal := store.EnsureReadyExact(generation, hash);
      if refusal.Some? {
        return Failure(StoreError(refusal.value)), None;
      }
      return Success(Retryable), None;
    }
    var taken := SubmissionGuard.TakeExact(store, generation, hash);
    if taken.Failure? {
      return Failure(StoreError(taken.error)), None;
    }
    var guard := taken.value;
    GuardFreezesAll(store.View(), others);
    store.Interleave(others);
    if !readable {
      guard.Drop();
      return Failure(StorageReadFailed), None;
    }
    sent := guard.transaction;
    if resolution == IsRetryable {
      var _ := guard.Restore();
    } else {
      var _ := guard.Finish();
    }
    return Success(OutcomeOf(resolution)), sent;
  }
}
