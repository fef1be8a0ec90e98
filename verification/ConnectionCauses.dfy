/**
 Why an `online_mode` call ends as it does: over every run, each error it returns and each rollback of its worker has its
 cause, so that a call that nobody cancels, drops or times out, and whose network operations succeed, returns Ok.
 */
module ConnectionCauses {
  import opened Common
  import opened Connection
  import opened ConnectionInvariant
  import opened ConnectionSteps

  // ----- One attempt -----

  /** The caller has stopped waiting for its worker's success. */
  predicate GaveUp(c: CallerPc) {
    c == TimedOut || c == TimedOutReleased || c.JoiningTimeout? || (c.Returned? && c.outcome != ReturnedOk)
  }

  /** The caller has returned this, or is about to return it without having spawned a worker. */
  predicate Leaves(c: CallerPc, o: Outcome) {
    c == AbandonHeld(o) || c == AbandonCompleted(o) || c == Returned(o)
  }

  predicate Failing(w: WorkerPc) {
    w == Failed || w == FailedCompleted || w == FailedCleared
  }

  predicate FailureCaused(a: Attempt) {
    Failing(a.worker) || a.result == DeliveredErr || Leaves(a.caller, ConnectError) ==> a.failed || a.cancelled
  }

  predicate CancellationCaused(a: Attempt) {
    Leaves(a.caller, CancelledError) || a.caller == Aborting || a.caller == WaitAbort ==> a.cancelled
  }

  predicate RollbackCaused(a: Attempt) {
    a.rolledBack || a.worker == RollingBack || a.worker == Judging(false) ==> a.cancelled || GaveUp(a.caller)
  }

  predicate Caused(a: Attempt) {
    FailureCaused(a) && CancellationCaused(a) && RollbackCaused(a)
  }

  lemma {:induction false} WorkerKeepsFailure(a: Attempt, ok: bool)
    requires Local(a) && FailureCaused(a) && WorkerEnabled(a, ok)
    ensures FailureCaused(WorkerNext(a, ok))
  {
  }

  lemma {:induction false} GoneMeansGivenUp(a: Attempt)
    requires Local(a) && CancellationCaused(a) && (a.accepted == SenderGone || a.finalized == SenderGone)
    requires AwaitingAck(a.worker)
    ensures a.cancelled || GaveUp(a.caller)
  {
  }

  lemma {:induction false} UnheardMeansGivenUp(a: Attempt)
    requires Local(a) && a.worker == Connected && a.caller != WaitResult
    requires CancellationCaused(a)
    ensures a.cancelled || GaveUp(a.caller)
  {
  }

  lemma {:induction false} WorkerKeepsRollback(a: Attempt, ok: bool)
    requires Local(a) && Caused(a) && WorkerEnabled(a, ok)
    ensures RollbackCaused(WorkerNext(a, ok))
  {
    if AwaitingAck(a.worker) && (a.accepted == SenderGone || a.finalized == SenderGone) {
      GoneMeansGivenUp(a);
    }
    if a.worker == Connected && a.caller != WaitResult {
      UnheardMeansGivenUp(a);
    }
  }

  lemma {:induction false} WorkerKeepsCaused(a: Attempt, ok: bool)
    requires Local(a) && Caused(a) && WorkerEnabled(a, ok)
    ensures Caused(WorkerNext(a, ok))
  {
    WorkerKeepsFailure(a, ok);
    WorkerKeepsRollback(a, ok);
  }

  lemma {:induction false} CallerKeepsFailure(a: Attempt, ok: bool, stale: bool, k: nat)
    requires FailureCaused(a) && CallerMay(a, ok)
    ensures FailureCaused(CallerNext(a, ok, stale, k))
  {
  }

  lemma {:induction false} CallerKeepsCancellation(a: Attempt, ok: bool, stale: bool, k: nat)
    requires CancellationCaused(a) && CallerMay(a, ok)
    ensures CancellationCaused(CallerNext(a, ok, stale, k))
  {
  }

  lemma {:induction false} CallerStaysGivenUp(a: Attempt, ok: bool, stale: bool, k: nat)
    requires CallerMay(a, ok) && GaveUp(a.caller)
    ensures GaveUp(CallerNext(a, ok, stale, k).caller)
  {
  }

  lemma {:induction false} CallerKeepsRollback(a: Attempt, ok: bool, stale: bool, k: nat)
    requires Local(a) && RollbackCaused(a) && CallerMay(a, ok)
    ensures RollbackCaused(CallerNext(a, ok, stale, k))
  {
    if GaveUp(a.caller) {
      CallerStaysGivenUp(a, ok, stale, k);
    }
  }

  lemma {:induction false} CallerKeepsCaused(a: Attempt, ok: bool, stale: bool, k: nat)
    requires Local(a) && Caused(a) && CallerMay(a, ok)
    ensures Caused(CallerNext(a, ok, stale, k))
  {
    CallerKeepsFailure(a, ok, stale, k);
    CallerKeepsCancellation(a, ok, stale, k);
    CallerKeepsRollback(a, ok, stale, k);
  }

  lemma {:induction false} DropKeepsCaused(a: Attempt)
    requires Local(a) && Caused(a) && AtAwait(a.caller)
    ensures Caused(CallerDropped(a))
  {
  }

  // ----- Causes -----

  /** A canceller raises the flag of attempt `i`. */
  predicate Flags(n: Net, act: Action, i: nat) {
    act.Cancel? && act.k < |n.cancellers| && n.cancellers[act.k].pc == Flagging(i)
  }

  /** A network operation of the worker of attempt `i` fails. */
  predicate Fails(n: Net, act: Action, i: nat) {
    act == Worker(i, false) && i < |n.attempts| && (n.attempts[i].worker == Connecting || n.attempts[i].worker == Installing)
  }

  /** The caller of attempt `i` is at `c` and takes the step that `ok` chooses. */
  predicate StepsAt(n: Net, act: Action, i: nat, c: CallerPc, ok: bool) {
    act == Caller(i, ok) && i < |n.attempts| && n.attempts[i].caller == c
  }

  /** The host drops the future of the call, itself or while it joins its timeout. */
  predicate Drops(n: Net, act: Action, i: nat) {
    || act == DropCaller(i)
    || (act.DropCancel? && i < |n.attempts| && n.attempts[i].caller == JoiningTimeout(act.k))
  }

  /** What justifies outcome `o` of attempt `i`. */
  predicate Justifies(n: Net, act: Action, i: nat, o: Outcome) {
    match o
    case ReturnedOk => true
    case AlreadyOnline => StepsAt(n, act, i, Acquired, true) && n.handler.Some?
    case StaleStopFailed => StepsAt(n, act, i, StaleStop, false)
    case CancelledError => Flags(n, act, i)
    case ConnectError => Flags(n, act, i) || Fails(n, act, i)
    case TimeoutError => StepsAt(n, act, i, WaitResult, false)
    case DroppedByHost => Drops(n, act, i)
    case WorkerFailed => false
  }

  /** Outcome `o` has been justified, as far as the attempt itself shows. */
  predicate Owes(a: Attempt, o: Outcome) {
    match o
    case ReturnedOk => true
    case CancelledError => a.cancelled
    case ConnectError => a.cancelled || a.failed
    case TimeoutError => a.caller == TimedOut || a.caller == TimedOutReleased || a.caller.JoiningTimeout? || Leaves(a.caller, o)
    case _ => Leaves(a.caller, o)
  }

  ghost predicate Justified(n: Net, act: Action, m: Net, i: nat, o: Outcome) {
    && (i < |n.attempts| ==> i < |m.attempts|)
    && (i < |m.attempts| && o != ReturnedOk && o != WorkerFailed && Owes(m.attempts[i], o) ==>
          (i < |n.attempts| && Owes(n.attempts[i], o)) || Justifies(n, act, i, o))
  }

  lemma {:induction false} WorkerOwes(a: Attempt, ok: bool, o: Outcome)
    ensures Owes(WorkerNext(a, ok), o) ==>
              Owes(a, o) || (o == ConnectError && !ok && (a.worker == Connecting || a.worker == Installing))
  {
  }

  /** The caller's own step that leads to outcome `o`. */
  predicate TurnsTo(c: CallerPc, ok: bool, o: Outcome) {
    || (o == AlreadyOnline && c == Acquired && ok)
    || (o == StaleStopFailed && c == StaleStop && !ok)
    || (o == TimeoutError && c == WaitResult && !ok)
  }

  lemma {:induction false} CallerOwes(a: Attempt, ok: bool, stale: bool, k: nat, o: Outcome)
    requires !a.caller.Returned? && o != ReturnedOk && o != WorkerFailed
    ensures Owes(CallerNext(a, ok, stale, k), o) ==> Owes(a, o) || TurnsTo(a.caller, ok, o)
  {
  }

  lemma {:induction false} WorkerJustified(n: Net, j: nat, ok: bool, i: nat, o: Outcome)
    requires Enabled(n, Worker(j, ok))
    ensures Justified(n, Worker(j, ok), Apply(n, Worker(j, ok)), i, o)
  {
    WorkerOwes(n.attempts[j], ok, o);
  }

  lemma {:induction false} CallerJustified(n: Net, j: nat, ok: bool, i: nat, o: Outcome)
    requires Enabled(n, Caller(j, ok))
    ensures Justified(n, Caller(j, ok), Apply(n, Caller(j, ok)), i, o)
  {
    var m := Apply(n, Caller(j, ok));
    assert m.attempts == n.attempts[j := CallerNext(n.attempts[j], ok, n.active.Some?, |n.cancellers|)];
    if o != ReturnedOk && o != WorkerFailed && i == j {
      CallerOwes(n.attempts[j], ok, n.active.Some?, |n.cancellers|, o);
    }
  }

  /** A canceller's step leaves an attempt's positions and history alone; it raises the flag of its target only. */
  predicate Untouched(a: Attempt, b: Attempt) {
    b.caller == a.caller && b.failed == a.failed && b.worker == a.worker && b.rolledBack == a.rolledBack && b.result == a.result
  }

  lemma {:induction false} CancelLeaves(n: Net, k: nat, i: nat)
    requires Enabled(n, Cancel(k)) && i < |n.attempts|
    ensures var m := CancelNext(n, k);
            && |m.attempts| == |n.attempts| && Untouched(n.attempts[i], m.attempts[i])
            && (m.attempts[i].cancelled <==> n.attempts[i].cancelled || n.cancellers[k].pc == Flagging(i))
  {
    match n.cancellers[k].pc
    case Flagging(t) =>
    case WantBarrier(t) =>
    case HoldBarrier(t) =>
    case _ => CancelMoves(n, k);
  }

  lemma {:induction false} CancelMoves(n: Net, k: nat)
    requires Enabled(n, Cancel(k))
    requires var pc := n.cancellers[k].pc; !pc.Flagging? && !pc.WantBarrier? && !pc.HoldBarrier?
    ensures CancelNext(n, k).attempts == n.attempts
  {
  }

  lemma {:induction false} CancelSize(n: Net, k: nat)
    requires Enabled(n, Cancel(k))
    ensures |CancelNext(n, k).attempts| == |n.attempts|
  {
    match n.cancellers[k].pc
    case Flagging(t) =>
    case WantBarrier(t) =>
    case HoldBarrier(t) =>
    case _ => CancelMoves(n, k);
  }

  lemma {:induction false} CancelJustified(n: Net, k: nat, i: nat, o: Outcome)
    requires Enabled(n, Cancel(k))
    ensures Justified(n, Cancel(k), Apply(n, Cancel(k)), i, o)
  {
    CancelSize(n, k);
    if i < |n.attempts| {
      CancelLeaves(n, k, i);
    }
  }

  lemma {:induction false} DropJustified(n: Net, j: nat, i: nat, o: Outcome)
    requires Enabled(n, DropCaller(j))
    ensures Justified(n, DropCaller(j), Apply(n, DropCaller(j)), i, o)
  {
  }

  lemma {:induction false} DropCancelJustified(n: Net, k: nat, i: nat, o: Outcome)
    requires Enabled(n, DropCancel(k))
    ensures Justified(n, DropCancel(k), Apply(n, DropCancel(k)), i, o)
  {
  }

  lemma {:induction false} StepJustified(n: Net, act: Action, i: nat, o: Outcome)
    requires Enabled(n, act)
    ensures Justified(n, act, Apply(n, act), i, o)
  {
    match act {
      case BeginAttempt =>
      case BeginCancel(_) =>
      case Worker(j, ok) => WorkerJustified(n, j, ok, i, o);
      case Caller(j, ok) => CallerJustified(n, j, ok, i, o);
      case DropCaller(j) => DropJustified(n, j, i, o);
      case Cancel(k) => CancelJustified(n, k, i, o);
      case DropCancel(k) => DropCancelJustified(n, k, i, o);
    }
  }

  lemma {:induction false} DropCancelKeepsCaused(n: Net, k: nat, i: nat)
    requires Enabled(n, DropCancel(k)) && i < |n.attempts| && Caused(n.attempts[i])
    ensures |DropCanceller(n, k).attempts| == |n.attempts| && Caused(DropCanceller(n, k).attempts[i])
  {
  }

  lemma {:induction false} CallerStepKeepsCaused(n: Net, i: nat, ok: bool)
    requires Inv(n) && Enabled(n, Caller(i, ok)) && Caused(n.attempts[i])
    ensures Caused(Apply(n, Caller(i, ok)).attempts[i])
  {
    CallerMayStep(n, i, ok);
    CallerKeepsCaused(n.attempts[i], ok, n.active.Some?, |n.cancellers|);
  }

  lemma {:induction false} StepKeepsCaused(n: Net, act: Action, i: nat)
    requires Inv(n) && Enabled(n, act) && (i < |n.attempts| ==> Caused(n.attempts[i]))
    requires i < |Apply(n, act).attempts|
    ensures Caused(Apply(n, act).attempts[i])
  {
    match act {
      case Worker(j, ok) =>
        if i == j {
          WorkerKeepsCaused(n.attempts[i], ok);
        }
      case Caller(j, ok) =>
        if i == j {
          CallerStepKeepsCaused(n, i, ok);
        }
      case DropCaller(j) =>
        if i == j {
          DropKeepsCaused(n.attempts[i]);
        }
      case Cancel(k) =>
        CancelSize(n, k);
        CancelLeaves(n, k, i);
      case DropCancel(k) => DropCancelKeepsCaused(n, k, i);
      case _ =>
    }
  }

  // ----- Over every run -----

  lemma {:induction false} RunCaused(nets: seq<Net>, acts: seq<Action>, j: nat, i: nat)
    requires Run(nets, acts) && j < |nets| && i < |nets[j].attempts|
    ensures Caused(nets[j].attempts[i])
    decreases j
  {
    if i < |nets[j - 1].attempts| {
      RunCaused(nets, acts, j - 1, i);
    }
    RunInv(nets, acts, j - 1);
    StepKeepsCaused(nets[j - 1], acts[j - 1], i);
  }

  lemma {:induction false} OwedBefore(nets: seq<Net>, acts: seq<Action>, j: nat, i: nat, o: Outcome)
    requires |nets| == |acts| + 1 && |nets[0].attempts| == 0
    requires forall p :: 0 <= p < |acts| ==> Justified(nets[p], acts[p], nets[p + 1], i, o)
    requires j < |nets| && i < |nets[j].attempts| && o != ReturnedOk && o != WorkerFailed && Owes(nets[j].attempts[i], o)
    ensures exists p :: 0 <= p < j && Justifies(nets[p], acts[p], i, o)
    decreases j
  {
    assert Justified(nets[j - 1], acts[j - 1], nets[j - 1 + 1], i, o);
    if !Justifies(nets[j - 1], acts[j - 1], i, o) {
      OwedBefore(nets, acts, j - 1, i, o);
    }
  }

  lemma {:induction false} ReturnedOwes(a: Attempt, o: Outcome)
    requires Local(a) && Caused(a) && a.caller == Returned(o)
    ensures o != WorkerFailed && Owes(a, o)
  {
  }

  /**
   Every outcome but Ok has its cause earlier in the run: a cancelled or failed call was cancelled by a canceller or saw
   a network operation fail, a timeout was a timeout, and so on.
   */
  lemma {:induction false} OutcomeHasCause(nets: seq<Net>, acts: seq<Action>, j: nat, i: nat, o: Outcome)
    requires Run(nets, acts) && j < |nets| && i < |nets[j].attempts| && nets[j].attempts[i].caller == Returned(o)
    ensures o != ReturnedOk ==> exists p :: 0 <= p < j && Justifies(nets[p], acts[p], i, o)
  {
    RunInv(nets, acts, j);
    RunCaused(nets, acts, j, i);
    ReturnedOwes(nets[j].attempts[i], o);
    forall p | 0 <= p < |acts| ensures Justified(nets[p], acts[p], nets[p + 1], i, o) {
      StepJustified(nets[p], acts[p], i, o);
    }
    if o != ReturnedOk {
      OwedBefore(nets, acts, j, i, o);
    }
  }

  /** A worker rolls back only an attempt that was cancelled or whose caller gave up. */
  lemma {:induction false} RollbackHasCause(nets: seq<Net>, acts: seq<Action>, j: nat, i: nat)
    requires Run(nets, acts) && j < |nets| && i < |nets[j].attempts| && nets[j].attempts[i].rolledBack
    ensures GaveUp(nets[j].attempts[i].caller) || exists p :: 0 <= p < j && Flags(nets[p], acts[p], i)
  {
    RunCaused(nets, acts, j, i);
    if nets[j].attempts[i].cancelled {
      forall p | 0 <= p < |acts| ensures Justified(nets[p], acts[p], nets[p + 1], i, CancelledError) {
        StepJustified(nets[p], acts[p], i, CancelledError);
      }
      OwedBefore(nets, acts, j, i, CancelledError);
      var p :| 0 <= p < j && Justifies(nets[p], acts[p], i, CancelledError);
      assert Flags(nets[p], acts[p], i);
    }
  }
}
