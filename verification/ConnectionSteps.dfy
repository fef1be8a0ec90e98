/**
 Every step of every participant keeps the connection invariant.
 */
module ConnectionSteps {
  import opened Common
  import opened Connection
  import opened ConnectionInvariant

  // ----- Worker steps -----

  lemma {:induction false} WorkerBarrier(a: Attempt, ok: bool)
    requires WorkerLocal(a) && WorkerEnabled(a, ok)
    ensures a.barrier.HeldBy? || WorkerNext(a, ok).barrier.HeldBy? ==> WorkerNext(a, ok).barrier == a.barrier
  {
  }

  lemma {:induction false} WorkerGuard(a: Attempt, ok: bool)
    requires WorkerEnabled(a, ok)
    ensures WorkerNext(a, ok).caller == a.caller && WorkerNext(a, ok).cancelled == a.cancelled
    ensures a.completed ==> WorkerNext(a, ok).completed
    ensures GuardHeld(WorkerNext(a, ok)) <==> GuardHeld(a) && a.worker != FailedCompleted && a.worker != LeftCompleted
  {
  }

  lemma {:induction false} WorkerHandler(a: Attempt, ok: bool)
    requires WorkerLocal(a) && WorkerEnabled(a, ok)
    ensures WorkerNext(a, ok).activated == a.activated
    ensures a.worker == Installing && ok ==> WorkerNext(a, ok).installed && !WorkerNext(a, ok).rolledBack && !a.completed
    ensures a.worker != Undoing && a.worker != RollingBack && a.installed && !a.rolledBack ==>
              WorkerNext(a, ok).installed && !WorkerNext(a, ok).rolledBack
  {
  }

  lemma {:induction false} WorkerKeepsAnchored(n: Net, i: nat, ok: bool)
    requires Inv(n) && Enabled(n, Worker(i, ok))
    ensures Anchored(Apply(n, Worker(i, ok)))
  {
    WorkerHandler(n.attempts[i], ok);
  }

  lemma {:induction false} WorkerKeepsLinked(n: Net, i: nat, ok: bool, j: nat)
    requires Inv(n) && Enabled(n, Worker(i, ok)) && j < |n.attempts|
    ensures Linked(Apply(n, Worker(i, ok)), j)
  {
    assert Linked(n, j) && Linked(n, i);
    WorkerBarrier(n.attempts[i], ok);
    WorkerGuard(n.attempts[i], ok);
  }

  lemma {:induction false} WorkerGrows(n: Net, i: nat, ok: bool)
    requires Inv(n) && Enabled(n, Worker(i, ok))
    ensures Grows(n, Apply(n, Worker(i, ok)))
  {
    WorkerGuard(n.attempts[i], ok);
    WorkerHandler(n.attempts[i], ok);
  }

  lemma {:induction false} WorkerKeepsInv(n: Net, i: nat, ok: bool)
    requires Inv(n) && Enabled(n, Worker(i, ok))
    ensures Inv(Apply(n, Worker(i, ok)))
  {
    var m := Apply(n, Worker(i, ok));
    WorkerKeepsAnchored(n, i, ok);
    WorkerKeepsLocal(n.attempts[i], ok);
    forall j | 0 <= j < |m.attempts| ensures Linked(m, j) {
      WorkerKeepsLinked(n, i, ok, j);
    }
    WorkerGrows(n, i, ok);
    forall k | 0 <= k < |m.cancellers| ensures CancelOk(m, k) {
      WorkerBarrier(n.attempts[i], ok);
      CancelOkGrows(n, m, k);
    }
  }

  // ----- Caller steps -----

  lemma {:induction false} CallerFrame(a: Attempt, ok: bool, stale: bool, k: nat)
    ensures var b := CallerNext(a, ok, stale, k);
            && b.barrier == a.barrier && b.installed == a.installed && b.rolledBack == a.rolledBack
            && (a.completed ==> b.completed) && (a.activated ==> b.activated) && b.cancelled == a.cancelled
  {
  }

  lemma {:induction false} CallerGuard(a: Attempt, ok: bool, stale: bool, k: nat)
    requires CallerLocal(a) && !a.caller.Returned?
    ensures GuardHeld(CallerNext(a, ok, stale, k)) <==> GuardHeld(a) && !a.caller.AbandonCompleted?
  {
  }

  lemma {:induction false} CallerJoins(a: Attempt, ok: bool, stale: bool, k: nat)
    ensures CallerNext(a, ok, stale, k).caller.JoiningTimeout? ==>
              a.caller == TimedOutReleased && CallerNext(a, ok, stale, k).caller.canceller == k
    ensures a.caller == Setting ==> CallerNext(a, ok, stale, k).activated
  {
  }

  /** Acquiring and releasing the active_connection mutex. */
  lemma {:induction false} CallerLocks(n: Net, i: nat, ok: bool, stale: bool, k: nat)
    requires i < |n.attempts| && CallerEnabled(n, i, ok) && stale == n.active.Some?
    requires HoldsActive(n.attempts[i].caller) <==> n.activeLock == Some(i)
    ensures var m := SharedAfterCaller(n, i);
            && (HoldsActive(CallerNext(n.attempts[i], ok, stale, k).caller) <==> m.activeLock == Some(i))
            && (m.activeLock == n.activeLock || {m.activeLock, n.activeLock} <= {Some(i), None})
  {
  }

  lemma {:induction false} CallerShares(n: Net, i: nat)
    requires i < |n.attempts|
    ensures var m := SharedAfterCaller(n, i);
            && m.attempts == n.attempts && m.closed == n.closed
            && n.cancellers <= m.cancellers && (m.cancellers == n.cancellers || n.attempts[i].caller == TimedOutReleased)
            && m.current == (if n.attempts[i].caller.AbandonCompleted? then Cleared(n.current, i) else n.current)
            && (m.handler == n.handler || m.handler == None)
            && (m.active == n.active || m.active == None || (m.active == Some(i) && n.attempts[i].caller == Setting))
  {
  }

  lemma {:induction false} JoinedTimeoutCompleted(n: Net, i: nat, k: nat)
    requires Inv(n) && i < |n.attempts| && n.attempts[i].caller == JoiningTimeout(k)
    requires k < |n.cancellers| && n.cancellers[k].pc == Done
    ensures n.attempts[i].completed
  {
    assert Linked(n, i) && CancelOk(n, k);
  }

  lemma {:induction false} CallerMayUnjoined(n: Net, i: nat, ok: bool)
    requires i < |n.attempts| && CallerEnabled(n, i, ok) && !n.attempts[i].caller.JoiningTimeout?
    ensures CallerMay(n.attempts[i], ok)
  {
  }

  lemma {:induction false} CallerMayStep(n: Net, i: nat, ok: bool)
    requires Inv(n) && i < |n.attempts| && CallerEnabled(n, i, ok)
    ensures CallerMay(n.attempts[i], ok)
  {
    if n.attempts[i].caller.JoiningTimeout? {
      JoinedTimeoutCompleted(n, i, n.attempts[i].caller.canceller);
    } else {
      CallerMayUnjoined(n, i, ok);
    }
  }

  lemma {:induction false} CallerAnchorsLock(n: Net, i: nat)
    requires Anchored(n) && i < |n.attempts|
    ensures SharedAfterCaller(n, i).activeLock.Some? ==> SharedAfterCaller(n, i).activeLock.value < |n.attempts|
  {
  }

  lemma {:induction false} CallerKeepsAnchored(n: Net, i: nat, ok: bool)
    requires Anchored(n) && Enabled(n, Caller(i, ok))
    ensures Anchored(Apply(n, Caller(i, ok)))
  {
    CallerShares(n, i);
    CallerAnchorsLock(n, i);
    CallerFrame(n.attempts[i], ok, n.active.Some?, |n.cancellers|);
    CallerJoins(n.attempts[i], ok, n.active.Some?, |n.cancellers|);
  }

  lemma {:induction false} CallerKeepsJoined(n: Net, i: nat, ok: bool)
    requires i < |n.attempts| && Enabled(n, Caller(i, ok))
    ensures Joined(Apply(n, Caller(i, ok)), i)
  {
    CallerJoins(n.attempts[i], ok, n.active.Some?, |n.cancellers|);
  }

  lemma {:induction false} CallerKeepsOwnLink(n: Net, i: nat, ok: bool)
    requires Inv(n) && Enabled(n, Caller(i, ok))
    ensures Linked(Apply(n, Caller(i, ok)), i)
  {
    var a := n.attempts[i];
    assert Linked(n, i);
    CallerShares(n, i);
    CallerFrame(a, ok, n.active.Some?, |n.cancellers|);
    CallerLocks(n, i, ok, n.active.Some?, |n.cancellers|);
    CallerGuard(a, ok, n.active.Some?, |n.cancellers|);
    CallerKeepsJoined(n, i, ok);
  }

  lemma {:induction false} CallerKeepsOtherLink(n: Net, i: nat, ok: bool, j: nat)
    requires Inv(n) && Enabled(n, Caller(i, ok)) && j < |n.attempts| && j != i
    ensures Linked(Apply(n, Caller(i, ok)), j)
  {
    assert Linked(n, j) && Linked(n, i);
    CallerShares(n, i);
    CallerLocks(n, i, ok, n.active.Some?, |n.cancellers|);
  }

  lemma {:induction false} CallerGrows(n: Net, i: nat, ok: bool)
    requires Inv(n) && Enabled(n, Caller(i, ok))
    ensures Grows(n, Apply(n, Caller(i, ok)))
  {
    CallerShares(n, i);
    CallerFrame(n.attempts[i], ok, n.active.Some?, |n.cancellers|);
    assert Local(n.attempts[i]);
  }

  lemma {:induction false} CallerKeepsLink(n: Net, i: nat, ok: bool, j: nat)
    requires Inv(n) && Enabled(n, Caller(i, ok)) && j < |n.attempts|
    ensures Linked(Apply(n, Caller(i, ok)), j)
  {
    if j == i {
      CallerKeepsOwnLink(n, i, ok);
    } else {
      CallerKeepsOtherLink(n, i, ok, j);
    }
  }

  lemma {:induction false} CallerKeepsCanceller(n: Net, i: nat, ok: bool, k: nat)
    requires Inv(n) && Enabled(n, Caller(i, ok)) && k < |Apply(n, Caller(i, ok)).cancellers|
    ensures CancelOk(Apply(n, Caller(i, ok)), k)
  {
    CallerShares(n, i);
    CallerFrame(n.attempts[i], ok, n.active.Some?, |n.cancellers|);
    if k < |n.cancellers| {
      CallerGrows(n, i, ok);
      CancelOkGrows(n, Apply(n, Caller(i, ok)), k);
    }
  }

  lemma {:induction false} CallerKeepsInv(n: Net, i: nat, ok: bool)
    requires Inv(n) && Enabled(n, Caller(i, ok))
    ensures Inv(Apply(n, Caller(i, ok)))
  {
    var m := Apply(n, Caller(i, ok));
    CallerKeepsAnchored(n, i, ok);
    CallerMayStep(n, i, ok);
    CallerKeepsLocal(n.attempts[i], ok, n.active.Some?, |n.cancellers|);
    CallerShares(n, i);
    forall j | 0 <= j < |m.attempts| ensures Linked(m, j) {
      CallerKeepsLink(n, i, ok, j);
    }
    forall k | 0 <= k < |m.cancellers| ensures CancelOk(m, k) {
      CallerKeepsCanceller(n, i, ok, k);
    }
  }

  /** The caller leaves its position, and with it the active_connection lock if it held it. */
  function Release(n: Net, i: nat): Option<nat>
    requires i < |n.attempts|
  {
    if HoldsActive(n.attempts[i].caller) then None else n.activeLock
  }

  /** Only the caller's own position and acknowledgements change. */
  predicate Repositions(a: Attempt, b: Attempt) {
    && (GuardHeld(b) <==> GuardHeld(a))
    && !HoldsActive(b.caller) && !b.caller.JoiningTimeout?
    && b.barrier == a.barrier && b.completed == a.completed && b.activated == a.activated
    && b.installed == a.installed && b.rolledBack == a.rolledBack && b.cancelled == a.cancelled
  }

  lemma {:induction false} ReplaceKeepsLinked(n: Net, i: nat, b: Attempt, j: nat)
    requires i < |n.attempts| && j < |n.attempts| && Linked(n, i) && Linked(n, j) && Repositions(n.attempts[i], b)
    ensures Linked(Upd(n, i, b).(activeLock := Release(n, i)), j)
  {
  }

  lemma {:induction false} ReplaceKeepsInv(n: Net, i: nat, b: Attempt)
    requires Inv(n) && i < |n.attempts| && Local(b) && Repositions(n.attempts[i], b)
    ensures Inv(Upd(n, i, b).(activeLock := Release(n, i)))
  {
    var m := Upd(n, i, b).(activeLock := Release(n, i));
    forall j | 0 <= j < |m.attempts| ensures Linked(m, j) {
      ReplaceKeepsLinked(n, i, b, j);
    }
    forall k | 0 <= k < |m.cancellers| ensures CancelOk(m, k) {
      CancelOkGrows(n, m, k);
    }
  }

  lemma {:induction false} DropFrame(a: Attempt)
    requires Local(a) && AtAwait(a.caller)
    ensures Repositions(a, CallerDropped(a))
  {
  }

  lemma {:induction false} DropCallerKeepsInv(n: Net, i: nat)
    requires Inv(n) && Enabled(n, DropCaller(i))
    ensures Inv(Apply(n, DropCaller(i)))
  {
    DropKeepsLocal(n.attempts[i]);
    DropFrame(n.attempts[i]);
    ReplaceKeepsInv(n, i, CallerDropped(n.attempts[i]));
    assert AtAwait(n.attempts[i].caller) && HoldsActive(n.attempts[i].caller) ==> n.attempts[i].caller == StaleStop;
  }

  // ----- New participants -----

  lemma {:induction false} BeginAttemptKeepsInv(n: Net)
    requires Inv(n) && Enabled(n, BeginAttempt)
    ensures Inv(Apply(n, BeginAttempt))
  {
    var m := Apply(n, BeginAttempt);
    forall j | 0 <= j < |m.attempts| ensures Local(m.attempts[j]) && Linked(m, j) {
      if j < |n.attempts| {
        assert Linked(n, j);
      }
    }
    forall k | 0 <= k < |m.cancellers| ensures CancelOk(m, k) {
      CancelOkGrows(n, m, k);
    }
  }

  lemma {:induction false} BeginCancelKeepsInv(n: Net, kind: CancelKind)
    requires Inv(n) && Enabled(n, BeginCancel(kind))
    ensures Inv(Apply(n, BeginCancel(kind)))
  {
    var m := Apply(n, BeginCancel(kind));
    forall j | 0 <= j < |m.attempts| ensures Linked(m, j) {
      assert Linked(n, j);
    }
    forall k | 0 <= k < |m.cancellers| ensures CancelOk(m, k) {
      if k < |n.cancellers| {
        CancelOkGrows(n, m, k);
      }
    }
  }

  // ----- Cancellers -----

  /** Setting the flag or moving the barrier of a waiting attempt leaves it locally sound. */
  lemma {:induction false} CancelKeepsLocal(a: Attempt, b: Attempt)
    requires Local(a)
    requires b == a.(cancelled := true) ||
             (b == a.(barrier := b.barrier) && a.barrier != HeldByWorker && b.barrier != HeldByWorker)
    ensures Local(b)
    ensures GuardHeld(b) <==> GuardHeld(a)
  {
  }

  /** A canceller that moves without touching an attempt or the barrier. */
  lemma {:induction false} MoveKeepsInv(n: Net, k: nat, m: Net)
    requires Inv(n) && k < |n.cancellers| && !n.cancellers[k].pc.HoldBarrier?
    requires m.attempts == n.attempts && m.current == n.current && m.activeLock == n.activeLock
    requires m.active == n.active || m.active == None
    requires m.handler == n.handler || m.handler == None
    requires n.closed ==> m.closed
    requires exists c :: m.cancellers == n.cancellers[k := c] && c.kind == n.cancellers[k].kind && !c.pc.HoldBarrier?
    requires m.cancellers[k].pc == Gone ==> forall j :: 0 <= j < |n.attempts| ==> n.attempts[j].caller != JoiningTimeout(k)
    requires CancelOk(m, k)
    ensures Inv(m)
  {
    forall j | 0 <= j < |m.attempts| ensures Linked(m, j) {
      assert Linked(n, j);
    }
    forall k' | 0 <= k' < |m.cancellers| ensures CancelOk(m, k') {
      if k' != k {
        CancelOkGrows(n, m, k');
      }
    }
  }

  lemma {:induction false} ReadingKeepsInv(n: Net, k: nat)
    requires Inv(n) && k < |n.cancellers| && n.cancellers[k].pc == Reading
    ensures Inv(CancelNext(n, k))
  {
    var m := CancelNext(n, k);
    assert CancelOk(n, k);
    forall i | 0 <= i < |n.attempts| ensures n.attempts[i].completed || n.current == Some(i) {
      assert Linked(n, i) && Local(n.attempts[i]);
    }
    assert CompletedBelow(m, |n.attempts|, n.current);
    MoveKeepsInv(n, k, m);
  }

  lemma {:induction false} WaitingKeepsInv(n: Net, k: nat)
    requires Inv(n) && k < |n.cancellers| && CancelEnabled(n, k)
    requires n.cancellers[k].pc.WaitCompleted? || n.cancellers[k].pc == Taking || n.cancellers[k].pc == Stopping
    ensures Inv(CancelNext(n, k))
  {
    var m := CancelNext(n, k);
    assert CancelOk(n, k);
    assert CompletedBelow(m, n.cancellers[k].seen, None);
    MoveKeepsInv(n, k, m);
  }

  /** The target changes in its flag or barrier only, and the barrier follows the canceller's position. */
  predicate Targets(n: Net, k: nat, t: nat, b: Attempt, pc: CancelPc)
    requires k < |n.cancellers| && t < |n.attempts|
  {
    var a := n.attempts[t];
    && (GuardHeld(b) <==> GuardHeld(a))
    && b.completed == a.completed && b.caller == a.caller && b.activated == a.activated && (a.cancelled ==> b.cancelled)
    && b.installed == a.installed && b.rolledBack == a.rolledBack
    && (b.barrier == HeldBy(k) <==> pc == HoldBarrier(t))
    && (a.barrier == HeldBy(k) <==> n.cancellers[k].pc == HoldBarrier(t))
    && (n.cancellers[k].pc.HoldBarrier? ==> n.cancellers[k].pc.target == t)
    && pc != Gone
    && ((a.barrier.HeldBy? && a.barrier != HeldBy(k)) || (b.barrier.HeldBy? && b.barrier != HeldBy(k)) ==> b.barrier == a.barrier)
  }

  lemma {:induction false} TargetKeepsLinked(n: Net, k: nat, t: nat, b: Attempt, pc: CancelPc, j: nat)
    requires Inv(n) && k < |n.cancellers| && t < |n.attempts| && Targets(n, k, t, b, pc) && j < |n.attempts|
    ensures Linked(At(Upd(n, t, b), k, pc), j)
  {
    assert Linked(n, j);
  }

  lemma {:induction false} TargetKeepsOthers(n: Net, k: nat, t: nat, b: Attempt, pc: CancelPc, k': nat)
    requires Inv(n) && k < |n.cancellers| && t < |n.attempts| && Targets(n, k, t, b, pc) && k' < |n.cancellers| && k' != k
    ensures CancelOk(At(Upd(n, t, b), k, pc), k')
  {
    assert CancelOk(n, k');
    CancelOkGrows(n, At(Upd(n, t, b), k, pc), k');
  }

  lemma {:induction false} TargetKeepsInv(n: Net, k: nat, t: nat, b: Attempt, pc: CancelPc)
    requires Inv(n) && k < |n.cancellers| && t < |n.attempts| && Targets(n, k, t, b, pc)
    requires Local(b) && CancelOk(At(Upd(n, t, b), k, pc), k)
    ensures Inv(At(Upd(n, t, b), k, pc))
  {
    var m := At(Upd(n, t, b), k, pc);
    forall j | 0 <= j < |m.attempts| ensures Linked(m, j) {
      TargetKeepsLinked(n, k, t, b, pc, j);
    }
    forall k' | 0 <= k' < |m.cancellers| ensures CancelOk(m, k') {
      if k' != k {
        TargetKeepsOthers(n, k, t, b, pc, k');
      }
    }
  }

  lemma {:induction false} TargetingKeepsInv(n: Net, k: nat)
    requires Inv(n) && k < |n.cancellers| && CancelEnabled(n, k)
    requires n.cancellers[k].pc.Flagging? || n.cancellers[k].pc.WantBarrier? || n.cancellers[k].pc.HoldBarrier?
    ensures Inv(CancelNext(n, k))
  {
    var m := CancelNext(n, k);
    var t := n.cancellers[k].pc.target;
    assert CancelOk(n, k) && Linked(n, t);
    CancelKeepsLocal(n.attempts[t], m.attempts[t]);
    assert CompletedBelow(m, n.cancellers[k].seen, Some(t));
    assert m == At(Upd(n, t, m.attempts[t]), k, m.cancellers[k].pc);
    TargetKeepsInv(n, k, t, m.attempts[t], m.cancellers[k].pc);
  }

  lemma {:induction false} CancelKeepsInv(n: Net, k: nat)
    requires Inv(n) && Enabled(n, Cancel(k))
    ensures Inv(Apply(n, Cancel(k)))
  {
    match n.cancellers[k].pc {
      case Reading => ReadingKeepsInv(n, k);
      case Flagging(_) | WantBarrier(_) | HoldBarrier(_) => TargetingKeepsInv(n, k);
      case _ => WaitingKeepsInv(n, k);
    }
  }

  lemma {:induction false} LeaveJoinKeepsLocal(a: Attempt)
    requires Local(a) && a.caller.JoiningTimeout?
    ensures Local(a.(caller := Returned(DroppedByHost)))
  {
  }

  lemma {:induction false} LeaveJoinKeepsInv(n: Net, i: nat)
    requires Inv(n) && i < |n.attempts| && n.attempts[i].caller.JoiningTimeout?
    ensures Inv(Upd(n, i, n.attempts[i].(caller := Returned(DroppedByHost))))
  {
    assert Local(n.attempts[i]);
    LeaveJoinKeepsLocal(n.attempts[i]);
    ReplaceKeepsInv(n, i, n.attempts[i].(caller := Returned(DroppedByHost)));
  }

  lemma {:induction false} DropCancelKeepsInv(n: Net, k: nat)
    requires Inv(n) && Enabled(n, DropCancel(k))
    ensures Inv(Apply(n, DropCancel(k)))
  {
    var c := n.cancellers[k];
    assert CancelOk(n, k);
    var left := n;
    if c.kind.TimeoutOf? && n.attempts[c.kind.attempt].caller == JoiningTimeout(k) {
      LeaveJoinKeepsInv(n, c.kind.attempt);
      left := Upd(n, c.kind.attempt, n.attempts[c.kind.attempt].(caller := Returned(DroppedByHost)));
    }
    forall j | 0 <= j < |left.attempts| ensures left.attempts[j].caller != JoiningTimeout(k) {
      assert Linked(left, j);
    }
    MoveKeepsInv(left, k, At(left, k, Gone));
  }

  // ----- All steps -----

  lemma {:induction false} StepKeepsInv(n: Net, act: Action)
    requires Inv(n) && Enabled(n, act)
    ensures Inv(Apply(n, act))
  {
    match act {
      case BeginAttempt => BeginAttemptKeepsInv(n);
      case BeginCancel(kind) => BeginCancelKeepsInv(n, kind);
      case Worker(i, ok) => WorkerKeepsInv(n, i, ok);
      case Caller(i, ok) => CallerKeepsInv(n, i, ok);
      case DropCaller(i) => DropCallerKeepsInv(n, i);
      case Cancel(k) => CancelKeepsInv(n, k);
      case DropCancel(k) => DropCancelKeepsInv(n, k);
    }
  }

  lemma {:induction false} RunInv(nets: seq<Net>, acts: seq<Action>, j: nat)
    requires Run(nets, acts) && j < |nets|
    ensures Inv(nets[j])
    decreases j
  {
    if j > 0 {
      RunInv(nets, acts, j - 1);
      StepKeepsInv(nets[j - 1], acts[j - 1]);
    }
  }
}
