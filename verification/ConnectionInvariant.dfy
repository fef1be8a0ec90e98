/**
 The inductive invariant of the connection protocol.  `Local` relates the two tasks of one attempt; the other
 predicates tie attempts and cancellers to the state they share.
 */
module ConnectionInvariant {
  import opened Common
  import opened Connection

  // ----- One attempt -----

  predicate HoldsGuardBeforeSpawn(c: CallerPc) {
    BeforeSpawn(c) || c.AbandonHeld? || c.AbandonCompleted?
  }

  /** The guard is alive, so the attempt occupies the slot. */
  predicate GuardHeld(a: Attempt) {
    if a.worker == NotSpawned then HoldsGuardBeforeSpawn(a.caller)
    else a.worker != FailedCleared && a.worker != Finished
  }

  predicate HoldsActivation(w: WorkerPc) {
    w == Activating || w == Installing || w == Installed || w == Undoing
  }

  predicate BeforeInstall(w: WorkerPc) {
    w == NotSpawned || w == Connecting || w == WantActivation || w == Activating || w == Installing
  }

  predicate HandlerUp(w: WorkerPc) {
    w == Installed || w == Undoing || w == Connected || w == AwaitAccepted || w == AwaitFinalized || w.Judging? ||
        w == RollingBack
  }

  predicate EarlyReturn(o: Outcome) {
    o == AlreadyOnline || o == StaleStopFailed || o == CancelledError || o == DroppedByHost
  }

  /** When `complete` has run. */
  predicate CompletedPc(a: Attempt) {
    if a.worker == NotSpawned then a.caller.AbandonCompleted? || a.caller.Returned?
    else a.worker == FailedCompleted || a.worker == FailedCleared || a.worker == LeftCompleted || a.worker == Finished
  }

  predicate WorkerLocal(a: Attempt) {
    && (a.completed <==> CompletedPc(a))
    && (a.barrier == HeldByWorker <==> HoldsActivation(a.worker))
    && (BeforeInstall(a.worker) ==> !a.installed && !a.rolledBack)
    && (HandlerUp(a.worker) ==> a.installed && !a.rolledBack)
    && ((a.worker == Failed || a.worker == FailedCompleted || a.worker == FailedCleared) ==> !a.installed || a.rolledBack)
    && (a.worker == Undoing ==> a.cancelled)
    && (a.worker == AwaitFinalized ==> a.accepted == Sent)
    && (a.worker == Judging(true) ==> a.finalized == Sent)
    && (a.installed && !a.rolledBack && !HandlerUp(a.worker) ==> a.finalized == Sent)
    && (a.finalized == Sent ==> a.activated && a.accepted == Sent)
  }

  predicate Trying(w: WorkerPc) {
    w == Connecting || w == WantActivation || HoldsActivation(w) || w == Connected || w == Failed ||
        w == FailedCompleted || w == FailedCleared
  }

  predicate AwaitingAck(w: WorkerPc) {
    w == AwaitAccepted || w == AwaitFinalized
  }

  predicate Acks(a: Attempt, accepted: Ack, finalized: Ack, activated: bool) {
    a.accepted == accepted && a.finalized == finalized && a.activated == activated
  }

  predicate CallerLocal(a: Attempt) {
    if a.worker == NotSpawned then
      && (HoldsGuardBeforeSpawn(a.caller) || a.caller.Returned?)
      && (a.caller.Returned? ==> EarlyReturn(a.caller.outcome))
      && ((a.caller.AbandonHeld? || a.caller.AbandonCompleted?) ==> EarlyReturn(a.caller.why))
      && Acks(a, Unsent, Unsent, false) && a.result == Undelivered
    else
      match a.caller
      case WaitResult =>
        && Acks(a, Unsent, Unsent, false)
        && (match a.result
            case Undelivered => Trying(a.worker)
            case DeliveredOk => a.worker == AwaitAccepted
            case DeliveredErr => a.worker == Finished && (!a.installed || a.rolledBack))
      case GotOk => Acks(a, Unsent, Unsent, false) && a.worker == AwaitAccepted
      case Accepted | WantLock | Locked | Setting | Aborting => Acks(a, Sent, Unsent, false) && AwaitingAck(a.worker)
      case HasSet => Acks(a, Sent, Unsent, true) && AwaitingAck(a.worker)
      case HasSent | WaitDone | FinalCheck =>
        && Acks(a, Sent, Sent, true)
        && (AwaitingAck(a.worker) || a.worker == Judging(true) || Delivered(a))
        && (a.caller == FinalCheck ==> a.completed)
      case WaitAbort => Acks(a, Sent, SenderGone, false)
      case TimedOut => Acks(a, Unsent, Unsent, false)
      case TimedOutReleased => Acks(a, SenderGone, Unsent, false)
      case JoiningTimeout(_) => Acks(a, SenderGone, SenderGone, false)
      case Returned(o) => ReturnedLocal(a, o)
      case _ => false
  }

  /** After judging an attempt whose finalization arrived, only a cancellation makes the worker roll back. */
  predicate Delivered(a: Attempt) {
    && a.installed
    && (a.worker == RollingBack || a.worker == Leaving || a.worker == LeftCompleted || a.worker == Finished)
    && (a.worker == RollingBack || a.rolledBack ==> a.cancelled)
  }

  predicate ReturnedLocal(a: Attempt, o: Outcome) {
    match o
    case ReturnedOk => a.completed && a.installed && a.activated && !a.rolledBack
    case CancelledError => a.completed
    case ConnectError => a.worker == Finished && (!a.installed || a.rolledBack)
    case TimeoutError => a.completed && Acks(a, SenderGone, SenderGone, false)
    case DroppedByHost => a.accepted != Unsent && a.finalized != Unsent
    case _ => false
  }

  predicate Local(a: Attempt) {
    WorkerLocal(a) && CallerLocal(a)
  }

  // The steps are taken phase by phase.

  lemma {:induction false} DiallingKeepsLocal(a: Attempt, ok: bool)
    requires Local(a) && WorkerEnabled(a, ok) && (a.worker == Connecting || a.worker == WantActivation)
    ensures Local(WorkerNext(a, ok))
  {
  }

  lemma {:induction false} InstallingKeepsLocal(a: Attempt, ok: bool)
    requires Local(a) && WorkerEnabled(a, ok) && HoldsActivation(a.worker)
    ensures Local(WorkerNext(a, ok))
  {
  }

  lemma {:induction false} FailingKeepsLocal(a: Attempt, ok: bool)
    requires Local(a) && WorkerEnabled(a, ok) && (a.worker == Failed || a.worker == FailedCompleted)
    ensures Local(WorkerNext(a, ok))
  {
  }

  lemma {:induction false} ReportingKeepsLocal(a: Attempt, ok: bool)
    requires Local(a) && WorkerEnabled(a, ok) && a.worker == FailedCleared
    ensures Local(WorkerNext(a, ok))
  {
  }

  lemma {:induction false} HandshakeKeepsLocal(a: Attempt, ok: bool)
    requires Local(a) && WorkerEnabled(a, ok) && (a.worker == Connected || AwaitingAck(a.worker))
    ensures Local(WorkerNext(a, ok))
  {
  }

  lemma {:induction false} JudgingKeepsLocal(a: Attempt, ok: bool)
    requires Local(a) && WorkerEnabled(a, ok) && (a.worker.Judging? || a.worker == RollingBack)
    ensures Local(WorkerNext(a, ok))
  {
  }

  lemma {:induction false} LeavingKeepsLocal(a: Attempt, ok: bool)
    requires Local(a) && WorkerEnabled(a, ok) && a.worker == Leaving
    ensures Local(WorkerNext(a, ok))
  {
  }

  lemma {:induction false} LeftKeepsLocal(a: Attempt, ok: bool)
    requires Local(a) && WorkerEnabled(a, ok) && a.worker == LeftCompleted
    ensures Local(WorkerNext(a, ok))
  {
  }

  lemma {:induction false} WorkerKeepsLocal(a: Attempt, ok: bool)
    requires Local(a) && WorkerEnabled(a, ok)
    ensures Local(WorkerNext(a, ok))
  {
    match a.worker {
      case Connecting | WantActivation => DiallingKeepsLocal(a, ok);
      case Activating | Installing | Installed | Undoing => InstallingKeepsLocal(a, ok);
      case Failed | FailedCompleted => FailingKeepsLocal(a, ok);
      case FailedCleared => ReportingKeepsLocal(a, ok);
      case Connected | AwaitAccepted | AwaitFinalized => HandshakeKeepsLocal(a, ok);
      case Judging(_) | RollingBack => JudgingKeepsLocal(a, ok);
      case Leaving => LeavingKeepsLocal(a, ok);
      case _ => LeftKeepsLocal(a, ok);
    }
  }

  /** The conditions under which the caller's own step is taken. */
  predicate CallerMay(a: Attempt, ok: bool) {
    && !a.caller.Returned?
    && (a.caller == WaitDone || a.caller == WaitAbort || a.caller.JoiningTimeout? ==> a.completed)
    && (a.caller == WaitResult && ok ==> a.result != Undelivered)
  }

  lemma {:induction false} PreparingKeepsLocal(a: Attempt, ok: bool, stale: bool, k: nat)
    requires Local(a) && CallerMay(a, ok) && HoldsGuardBeforeSpawn(a.caller)
    ensures Local(CallerNext(a, ok, stale, k))
  {
  }

  lemma {:induction false} ReceivingKeepsLocal(a: Attempt, ok: bool, stale: bool, k: nat)
    requires Local(a) && CallerMay(a, ok) && (a.caller == WaitResult || a.caller == GotOk)
    ensures Local(CallerNext(a, ok, stale, k))
  {
  }

  lemma {:induction false} AcceptingKeepsLocal(a: Attempt, ok: bool, stale: bool, k: nat)
    requires Local(a) && CallerMay(a, ok)
    requires a.caller == Accepted || a.caller == WantLock || a.caller == Locked || a.caller == Setting || a.caller == HasSet
    ensures Local(CallerNext(a, ok, stale, k))
  {
  }

  lemma {:induction false} FinalizingKeepsLocal(a: Attempt, ok: bool, stale: bool, k: nat)
    requires Local(a) && CallerMay(a, ok) && (a.caller == HasSent || a.caller == WaitDone || a.caller == FinalCheck)
    ensures Local(CallerNext(a, ok, stale, k))
  {
  }

  lemma {:induction false} AbortingKeepsLocal(a: Attempt, ok: bool, stale: bool, k: nat)
    requires Local(a) && CallerMay(a, ok) && (a.caller == Aborting || a.caller == WaitAbort)
    ensures Local(CallerNext(a, ok, stale, k))
  {
  }

  lemma {:induction false} TimingOutKeepsLocal(a: Attempt, ok: bool, stale: bool, k: nat)
    requires Local(a) && CallerMay(a, ok) && (a.caller == TimedOut || a.caller == TimedOutReleased || a.caller.JoiningTimeout?)
    ensures Local(CallerNext(a, ok, stale, k))
  {
  }

  lemma {:induction false} CallerKeepsLocal(a: Attempt, ok: bool, stale: bool, k: nat)
    requires Local(a) && CallerMay(a, ok)
    ensures Local(CallerNext(a, ok, stale, k))
  {
    match a.caller {
      case WaitResult | GotOk => ReceivingKeepsLocal(a, ok, stale, k);
      case Accepted | WantLock | Locked | Setting | HasSet => AcceptingKeepsLocal(a, ok, stale, k);
      case HasSent | WaitDone | FinalCheck => FinalizingKeepsLocal(a, ok, stale, k);
      case Aborting | WaitAbort => AbortingKeepsLocal(a, ok, stale, k);
      case TimedOut | TimedOutReleased | JoiningTimeout(_) => TimingOutKeepsLocal(a, ok, stale, k);
      case _ => PreparingKeepsLocal(a, ok, stale, k);
    }
  }

  lemma {:induction false} DropKeepsLocal(a: Attempt)
    requires Local(a) && AtAwait(a.caller)
    ensures Local(CallerDropped(a))
  {
    if !BeforeSpawn(a.caller) {
      HangingUpKeepsLocal(a);
    }
  }

  lemma {:induction false} HangingUpKeepsLocal(a: Attempt)
    requires Local(a) && AtAwait(a.caller) && !BeforeSpawn(a.caller)
    ensures Local(CallerDropped(a))
  {
  }

  // ----- The whole net -----

  /** The caller waits on the canceller that its own timeout started. */
  predicate Joined(n: Net, i: nat)
    requires i < |n.attempts|
  {
    var c := n.attempts[i].caller;
    c.JoiningTimeout? ==>
      && c.canceller < |n.cancellers|
      && n.cancellers[c.canceller].kind == TimeoutOf(i)
      && n.cancellers[c.canceller].pc != Gone
  }

  /** The slot, the active_connection lock, the activation barrier and the timeout join name the attempts that hold them. */
  predicate Linked(n: Net, i: nat)
    requires i < |n.attempts|
  {
    var a := n.attempts[i];
    && (GuardHeld(a) <==> n.current == Some(i))
    && (HoldsActive(a.caller) <==> n.activeLock == Some(i))
    && (a.barrier.HeldBy? ==> a.barrier.canceller < |n.cancellers| && n.cancellers[a.barrier.canceller].pc == HoldBarrier(i))
    && Joined(n, i)
  }

  predicate Anchored(n: Net) {
    && (n.current.Some? ==> n.current.value < |n.attempts|)
    && (n.activeLock.Some? ==> n.activeLock.value < |n.attempts|)
    && (n.active.Some? ==> n.active.value < |n.attempts| && n.attempts[n.active.value].activated)
    && (n.handler.Some? ==>
          && n.handler.value < |n.attempts|
          && n.attempts[n.handler.value].installed
          && !n.attempts[n.handler.value].rolledBack)
  }

  /** The first `seen` attempts have completed, save possibly the one a canceller still waits for. */
  ghost predicate CompletedBelow(n: Net, seen: nat, but: Option<nat>) {
    seen <= |n.attempts| && forall i :: 0 <= i < seen ==> n.attempts[i].completed || but == Some(i)
  }

  /** What a canceller has established when it waits for `waiting`, or for nobody. */
  ghost predicate Covered(n: Net, c: Canceller, waiting: Option<nat>) {
    && CompletedBelow(n, c.seen, waiting)
    && (c.kind == Close ==> n.closed && c.seen == |n.attempts|)
    && (c.kind.TimeoutOf? ==> c.kind.attempt < c.seen)
  }

  /** The attempt that the canceller found in the slot carries the flag. */
  predicate Flagged(n: Net, c: Canceller) {
    c.found.Some? ==> c.found.value < |n.attempts| && n.attempts[c.found.value].cancelled
  }

  predicate NoneBelow(holder: Option<nat>, seen: nat) {
    holder.Some? ==> holder.value >= seen
  }

  predicate Chases(n: Net, c: Canceller, t: nat) {
    t < |n.attempts| && c.found == Some(t)
  }

  ghost predicate CancelOk(n: Net, k: nat)
    requires k < |n.cancellers|
  {
    var c := n.cancellers[k];
    && (c.kind.TimeoutOf? ==> c.kind.attempt < |n.attempts|)
    && match c.pc
       case Reading | Gone => true
       case Flagging(t) => Covered(n, c, Some(t)) && Chases(n, c, t)
       case WantBarrier(t) => Covered(n, c, Some(t)) && Chases(n, c, t) && Flagged(n, c)
       case HoldBarrier(t) => Covered(n, c, Some(t)) && Chases(n, c, t) && Flagged(n, c) && n.attempts[t].barrier == HeldBy(k)
       case WaitCompleted(t) => Covered(n, c, Some(t)) && Chases(n, c, t) && Flagged(n, c)
       case Taking => Covered(n, c, None) && Flagged(n, c) && !c.kind.TimeoutOf?
       case Stopping => Covered(n, c, None) && Flagged(n, c) && !c.kind.TimeoutOf? && NoneBelow(n.active, c.seen)
       case Done =>
         && Covered(n, c, None) && Flagged(n, c)
         && (!c.kind.TimeoutOf? ==> NoneBelow(n.active, c.seen) && NoneBelow(n.handler, c.seen))
  }

  ghost predicate Inv(n: Net) {
    && Anchored(n)
    && (forall i :: 0 <= i < |n.attempts| ==> Local(n.attempts[i]) && Linked(n, i))
    && (forall k :: 0 <= k < |n.cancellers| ==> CancelOk(n, k))
  }

  /** What every step keeps for a canceller it does not move. */
  ghost predicate Grows(n: Net, m: Net) {
    && |n.attempts| <= |m.attempts|
    && (n.closed ==> m.closed && |n.attempts| == |m.attempts|)
    && (forall i :: 0 <= i < |n.attempts| ==> Lasts(n.attempts[i], m.attempts[i]))
    && Kept(n, n.active, m.active) && Kept(n, n.handler, m.handler)
  }

  predicate Lasts(a: Attempt, b: Attempt) {
    (a.completed ==> b.completed) && (a.cancelled ==> b.cancelled)
  }

  /** A completed attempt never comes back as the holder. */
  predicate Kept(n: Net, before: Option<nat>, after: Option<nat>) {
    after.Some? && after != before ==> after.value >= |n.attempts| || !n.attempts[after.value].completed
  }

  lemma {:induction false} CancelOkGrows(n: Net, m: Net, k: nat)
    requires k < |n.cancellers| && CancelOk(n, k) && Grows(n, m)
    requires k < |m.cancellers| && m.cancellers[k] == n.cancellers[k]
    requires n.cancellers[k].pc.HoldBarrier? ==> m.attempts[n.cancellers[k].pc.target].barrier == HeldBy(k)
    ensures CancelOk(m, k)
  {
    var c := n.cancellers[k];
    assert forall w: Option<nat> :: CompletedBelow(n, c.seen, w) ==> CompletedBelow(m, c.seen, w);
  }
}
