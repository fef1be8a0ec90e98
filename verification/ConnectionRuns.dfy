/**
 What the connection protocol promises over every run: any number of callers, workers and cancellers, interleaved in
 any way, with futures dropped at any await point.
 */
module ConnectionRuns {
  import opened Common
  import opened Connection
  import opened ConnectionInvariant
  import opened ConnectionSteps

  /** The worker of attempt `i` installs its network handler. */
  predicate Installs(n: Net, act: Action, i: nat) {
    act == Worker(i, true) && i < |n.attempts| && n.attempts[i].worker == Installing
  }

  /** The worker of attempt `i` rolls its connection back. */
  predicate RollsBack(n: Net, act: Action, i: nat) {
    act.Worker? && act.i == i && i < |n.attempts| && (n.attempts[i].worker == Undoing || n.attempts[i].worker == RollingBack)
  }

  /** The caller of attempt `i` stores its API in active_connection. */
  predicate Activates(n: Net, act: Action, i: nat) {
    act.Caller? && act.i == i && i < |n.attempts| && n.attempts[i].caller == Setting
  }

  // ----- History -----

  /** What one step may change in the past of attempt `i`. */
  ghost predicate Extends(n: Net, act: Action, m: Net, i: nat) {
    && (i < |n.attempts| ==> i < |m.attempts|)
    && (i < |m.attempts| ==>
          && (m.attempts[i].activated ==> (i < |n.attempts| && n.attempts[i].activated) || Activates(n, act, i))
          && (m.attempts[i].installed ==> (i < |n.attempts| && n.attempts[i].installed) || Installs(n, act, i)))
    && (i < |n.attempts| && (n.attempts[i].rolledBack || RollsBack(n, act, i)) ==> i < |m.attempts| && m.attempts[i].rolledBack)
    && (i < |n.attempts| && n.attempts[i].caller.Returned? ==> i < |m.attempts| && m.attempts[i].caller == n.attempts[i].caller)
  }

  lemma {:induction false} WorkerExtends(n: Net, i: nat, ok: bool, j: nat)
    requires Inv(n) && Enabled(n, Worker(i, ok))
    ensures Extends(n, Worker(i, ok), Apply(n, Worker(i, ok)), j)
  {
  }

  lemma {:induction false} CallerExtends(n: Net, i: nat, ok: bool, j: nat)
    requires Inv(n) && Enabled(n, Caller(i, ok))
    ensures Extends(n, Caller(i, ok), Apply(n, Caller(i, ok)), j)
  {
    assert Local(n.attempts[i]);
  }

  /** A canceller changes attempts only in the flag or the barrier of its target. */
  lemma {:induction false} CancelTouches(n: Net, k: nat)
    requires Enabled(n, Cancel(k))
    ensures var m := CancelNext(n, k);
            && |m.attempts| == |n.attempts|
            && (forall j :: 0 <= j < |n.attempts| ==> SameHistory(n.attempts[j], m.attempts[j]))
  {
    match n.cancellers[k].pc
    case Flagging(t) =>
    case WantBarrier(t) =>
    case HoldBarrier(t) =>
    case _ => CancelMovesOnly(n, k);
  }

  lemma {:induction false} CancelMovesOnly(n: Net, k: nat)
    requires Enabled(n, Cancel(k))
    requires var pc := n.cancellers[k].pc; !pc.Flagging? && !pc.WantBarrier? && !pc.HoldBarrier?
    ensures CancelNext(n, k).attempts == n.attempts
  {
  }

  predicate SameHistory(a: Attempt, b: Attempt) {
    b.activated == a.activated && b.installed == a.installed && b.rolledBack == a.rolledBack && b.caller == a.caller
  }

  lemma {:induction false} CancelExtends(n: Net, k: nat, j: nat)
    requires Enabled(n, Cancel(k))
    ensures Extends(n, Cancel(k), Apply(n, Cancel(k)), j)
  {
    CancelTouches(n, k);
    if j < |n.attempts| {
      assert SameHistory(n.attempts[j], CancelNext(n, k).attempts[j]);
    }
  }

  lemma {:induction false} DropCancelExtends(n: Net, k: nat, j: nat)
    requires Enabled(n, DropCancel(k))
    ensures Extends(n, DropCancel(k), Apply(n, DropCancel(k)), j)
  {
  }

  lemma {:induction false} StepExtends(n: Net, act: Action, j: nat)
    requires Inv(n) && Enabled(n, act)
    ensures Extends(n, act, Apply(n, act), j)
  {
    match act {
      case Worker(i, ok) => WorkerExtends(n, i, ok, j);
      case Caller(i, ok) => CallerExtends(n, i, ok, j);
      case Cancel(k) => CancelExtends(n, k, j);
      case DropCancel(k) => DropCancelExtends(n, k, j);
      case _ =>
    }
  }

  /** A run seen through the history of one attempt. */
  ghost predicate History(nets: seq<Net>, acts: seq<Action>, i: nat) {
    && |nets| == |acts| + 1 && |nets[0].attempts| == 0
    && forall j :: 0 <= j < |acts| ==> Extends(nets[j], acts[j], nets[j + 1], i)
  }

  lemma {:induction false} RunHistory(nets: seq<Net>, acts: seq<Action>, i: nat)
    requires Run(nets, acts)
    ensures History(nets, acts, i)
  {
    forall j | 0 <= j < |acts| ensures Extends(nets[j], acts[j], nets[j + 1], i) {
      RunInv(nets, acts, j);
      StepExtends(nets[j], acts[j], i);
    }
  }

  lemma {:induction false} ActivatedBefore(nets: seq<Net>, acts: seq<Action>, i: nat, j: nat)
    requires History(nets, acts, i) && j < |nets| && i < |nets[j].attempts| && nets[j].attempts[i].activated
    ensures exists p :: 0 <= p < j && Activates(nets[p], acts[p], i)
    decreases j
  {
    assert Extends(nets[j - 1], acts[j - 1], nets[j], i);
    if !Activates(nets[j - 1], acts[j - 1], i) {
      ActivatedBefore(nets, acts, i, j - 1);
    }
  }

  lemma {:induction false} InstalledBefore(nets: seq<Net>, acts: seq<Action>, i: nat, j: nat)
    requires History(nets, acts, i) && j < |nets| && i < |nets[j].attempts| && nets[j].attempts[i].installed
    ensures exists p :: 0 <= p < j && Installs(nets[p], acts[p], i)
    decreases j
  {
    assert Extends(nets[j - 1], acts[j - 1], nets[j], i);
    if !Installs(nets[j - 1], acts[j - 1], i) {
      InstalledBefore(nets, acts, i, j - 1);
    }
  }

  lemma {:induction false} RolledBackAfter(nets: seq<Net>, acts: seq<Action>, i: nat, p: nat, j: nat)
    requires History(nets, acts, i) && p < j < |nets| && RollsBack(nets[p], acts[p], i)
    ensures i < |nets[j].attempts| && nets[j].attempts[i].rolledBack
    decreases j
  {
    assert Extends(nets[j - 1], acts[j - 1], nets[j], i);
    if p < j - 1 {
      RolledBackAfter(nets, acts, i, p, j - 1);
    }
  }

  lemma {:induction false} ReturnedStays(nets: seq<Net>, acts: seq<Action>, i: nat, j: nat, q: nat)
    requires History(nets, acts, i) && j <= q < |nets| && i < |nets[j].attempts| && nets[j].attempts[i].caller.Returned?
    ensures i < |nets[q].attempts| && nets[q].attempts[i].caller == nets[j].attempts[i].caller
    decreases q
  {
    if j < q {
      ReturnedStays(nets, acts, i, j, q - 1);
      assert Extends(nets[q - 1], acts[q - 1], nets[q], i);
    }
  }

  // ----- The protocol's promises -----

  /**
   An attempt that has completed with its handler installed had its API stored in active_connection before it
   completed.
   */
  lemma {:induction false} InstalledImpliesActivated(nets: seq<Net>, acts: seq<Action>, j: nat, i: nat)
    requires Run(nets, acts) && j < |nets| && i < |nets[j].attempts|
    requires nets[j].attempts[i].completed && nets[j].handler == Some(i)
    ensures exists p :: 0 <= p < j && Activates(nets[p], acts[p], i) && !nets[p].attempts[i].completed
  {
    RunInv(nets, acts, j);
    RunHistory(nets, acts, i);
    ActivatedBefore(nets, acts, i, j);
    var p :| 0 <= p < j && Activates(nets[p], acts[p], i);
    RunInv(nets, acts, p);
    ActivatingIsUnfinished(nets[p], acts[p], i);
  }

  lemma {:induction false} ActivatingIsUnfinished(n: Net, act: Action, i: nat)
    requires Inv(n) && Activates(n, act, i)
    ensures !n.attempts[i].completed
  {
    assert Local(n.attempts[i]);
  }

  /** `online_mode` returned Ok: the worker installed, the caller activated, and the worker never rolls back. */
  lemma {:induction false} OkNeverRollsBack(nets: seq<Net>, acts: seq<Action>, j: nat, i: nat)
    requires Run(nets, acts) && j < |nets| && i < |nets[j].attempts|
    requires nets[j].attempts[i].caller == Returned(ReturnedOk)
    ensures exists p :: 0 <= p < j && Installs(nets[p], acts[p], i)
    ensures exists p :: 0 <= p < j && Activates(nets[p], acts[p], i)
    ensures forall p :: 0 <= p < |acts| ==> !RollsBack(nets[p], acts[p], i)
  {
    RunInv(nets, acts, j);
    RunHistory(nets, acts, i);
    InstalledBefore(nets, acts, i, j);
    ActivatedBefore(nets, acts, i, j);
    ReturnedStays(nets, acts, i, j, |acts|);
    RunInv(nets, acts, |acts|);
    assert Local(nets[|acts|].attempts[i]);
    forall p | 0 <= p < |acts| ensures !RollsBack(nets[p], acts[p], i) {
      if RollsBack(nets[p], acts[p], i) {
        RolledBackAfter(nets, acts, i, p, |acts|);
      }
    }
  }

  /** A timeout error: from then on the attempt's handler is not installed. */
  lemma {:induction false} TimeoutLeavesNoHandler(nets: seq<Net>, acts: seq<Action>, j: nat, i: nat, q: nat)
    requires Run(nets, acts) && j <= q < |nets| && i < |nets[j].attempts|
    requires nets[j].attempts[i].caller == Returned(TimeoutError)
    ensures nets[q].handler != Some(i) && nets[q].active != Some(i)
  {
    RunHistory(nets, acts, i);
    ReturnedStays(nets, acts, i, j, q);
    RunInv(nets, acts, q);
    assert Local(nets[q].attempts[i]);
  }

  /** The worker-failed error is never returned. */
  lemma {:induction false} WorkerFailedUnreachable(nets: seq<Net>, acts: seq<Action>, j: nat, i: nat)
    requires Run(nets, acts) && j < |nets| && i < |nets[j].attempts|
    ensures nets[j].attempts[i].caller != Returned(WorkerFailed)
  {
    RunInv(nets, acts, j);
    assert Local(nets[j].attempts[i]);
  }

  /** Whenever the caller waits for its worker to complete, both acknowledgements have been sent or dropped. */
  lemma {:induction false} WaitingCallerHasReleased(nets: seq<Net>, acts: seq<Action>, j: nat, i: nat)
    requires Run(nets, acts) && j < |nets| && i < |nets[j].attempts|
    requires var c := nets[j].attempts[i].caller; c == WaitDone || c == WaitAbort || c.JoiningTimeout?
    ensures nets[j].attempts[i].accepted != Unsent && nets[j].attempts[i].finalized != Unsent
  {
    RunInv(nets, acts, j);
    assert Local(nets[j].attempts[i]);
  }

  /** At most one attempt is in progress, and it is the one in the slot. */
  lemma {:induction false} OneAttemptAtATime(nets: seq<Net>, acts: seq<Action>, j: nat, i: nat)
    requires Run(nets, acts) && j < |nets| && i < |nets[j].attempts| && !nets[j].attempts[i].completed
    ensures nets[j].current == Some(i)
  {
    RunInv(nets, acts, j);
    assert Linked(nets[j], i) && Local(nets[j].attempts[i]);
  }

  // ----- Close -----

  /** Canceller `k` is a `close` that has returned. */
  predicate Closed(n: Net, k: nat) {
    k < |n.cancellers| && n.cancellers[k].kind == Close && n.cancellers[k].pc == Done
  }

  lemma {:induction false} StepKeepsClosed(n: Net, act: Action, k: nat)
    requires Enabled(n, act) && Closed(n, k)
    ensures Closed(Apply(n, act), k)
  {
  }

  lemma {:induction false} ClosedStays(nets: seq<Net>, acts: seq<Action>, k: nat, j: nat, q: nat)
    requires Run(nets, acts) && j <= q < |nets| && Closed(nets[j], k)
    ensures Closed(nets[q], k)
    decreases q
  {
    if j < q {
      ClosedStays(nets, acts, k, j, q - 1);
      StepKeepsClosed(nets[q - 1], acts[q - 1], k);
    }
  }

  lemma {:induction false} ClosedInv(n: Net, k: nat)
    requires Inv(n) && Closed(n, k)
    ensures n.closed && CompletedBelow(n, |n.attempts|, None) && n.handler == None && n.active == None
  {
    assert CancelOk(n, k);
  }

  /** After `close` returns: no handler, no active connection, and no step begins, installs or activates anything. */
  lemma {:induction false} CloseIsFinal(nets: seq<Net>, acts: seq<Action>, k: nat, j: nat, q: nat)
    requires Run(nets, acts) && j <= q < |nets| && Closed(nets[j], k)
    ensures nets[q].handler == None && nets[q].active == None
    ensures q < |acts| ==> acts[q] != BeginAttempt
    ensures q < |acts| ==> forall i: nat :: !Installs(nets[q], acts[q], i) && !Activates(nets[q], acts[q], i)
  {
    ClosedStays(nets, acts, k, j, q);
    RunInv(nets, acts, q);
    ClosedInv(nets[q], k);
    forall i: nat | q < |acts| && i < |nets[q].attempts|
      ensures !Installs(nets[q], acts[q], i) && !Activates(nets[q], acts[q], i)
    {
      assert Local(nets[q].attempts[i]);
    }
  }

  // ----- Offline -----

  /** Canceller `k` is an `offline_mode` or `close` that has returned, having found `seen` attempts begun. */
  predicate Stopped(n: Net, k: nat, seen: nat, found: Option<nat>) {
    && k < |n.cancellers| && n.cancellers[k].pc == Done && !n.cancellers[k].kind.TimeoutOf?
    && n.cancellers[k].seen == seen && n.cancellers[k].found == found
  }

  /** Canceller `k` has read the slot, and not been dropped since. */
  predicate HasRead(n: Net, k: nat, kind: CancelKind, seen: nat, found: Option<nat>) {
    && k < |n.cancellers| && n.cancellers[k].pc != Reading
    && n.cancellers[k].kind == kind && n.cancellers[k].seen == seen && n.cancellers[k].found == found
  }

  /** Its first step reads the slot. */
  predicate Reads(n: Net, act: Action, k: nat) {
    act == Cancel(k) && k < |n.cancellers| && n.cancellers[k].pc == Reading
  }

  lemma {:induction false} ReadsHasRead(n: Net, act: Action, k: nat)
    requires Enabled(n, act) && Reads(n, act, k)
    ensures HasRead(Apply(n, act), k, n.cancellers[k].kind, |n.attempts|, n.current)
  {
  }

  lemma {:induction false} CancelKeepsRead(n: Net, j: nat, k: nat, kind: CancelKind, seen: nat, found: Option<nat>)
    requires Enabled(n, Cancel(j)) && HasRead(n, k, kind, seen, found)
    ensures HasRead(Apply(n, Cancel(j)), k, kind, seen, found)
  {
  }

  lemma {:induction false} StepKeepsRead(n: Net, act: Action, k: nat, kind: CancelKind, seen: nat, found: Option<nat>)
    requires Enabled(n, act) && HasRead(n, k, kind, seen, found)
    ensures HasRead(Apply(n, act), k, kind, seen, found)
  {
    if act.Cancel? {
      CancelKeepsRead(n, act.k, k, kind, seen, found);
    } else if act.Caller? {
      CallerShares(n, act.i);
    }
  }

  lemma {:induction false} ReadStays(nets: seq<Net>, acts: seq<Action>, r: nat, q: nat, k: nat)
    requires Run(nets, acts) && r < q < |nets| && Reads(nets[r], acts[r], k)
    ensures HasRead(nets[q], k, nets[r].cancellers[k].kind, |nets[r].attempts|, nets[r].current)
    decreases q
  {
    if r == q - 1 {
      ReadsHasRead(nets[r], acts[r], k);
    } else {
      ReadStays(nets, acts, r, q - 1, k);
      StepKeepsRead(nets[q - 1], acts[q - 1], k, nets[r].cancellers[k].kind, |nets[r].attempts|, nets[r].current);
    }
  }

  lemma {:induction false} DoneStays(nets: seq<Net>, acts: seq<Action>, k: nat, q: nat, p: nat)
    requires Run(nets, acts) && q <= p < |nets| && k < |nets[q].cancellers| && nets[q].cancellers[k].pc == Done
    ensures k < |nets[p].cancellers| && nets[p].cancellers[k].pc == Done
    decreases p
  {
    if q < p {
      DoneStays(nets, acts, k, q, p - 1);
      StepKeepsDone(nets[p - 1], acts[p - 1], k);
    }
  }

  lemma {:induction false} StepKeepsDone(n: Net, act: Action, k: nat)
    requires Enabled(n, act) && k < |n.cancellers| && n.cancellers[k].pc == Done
    ensures k < |Apply(n, act).cancellers| && Apply(n, act).cancellers[k].pc == Done
  {
    if act.Caller? {
      CallerShares(n, act.i);
    }
  }

  lemma {:induction false} StoppedMeans(n: Net, k: nat, seen: nat, found: Option<nat>, i: nat)
    requires Inv(n) && Stopped(n, k, seen, found)
    ensures i < seen ==> i < |n.attempts| && n.attempts[i].completed && n.handler != Some(i) && n.active != Some(i)
    ensures found.Some? ==> found.value < |n.attempts| && n.attempts[found.value].cancelled
  {
    assert CancelOk(n, k);
  }

  /**
   When `offline_mode` or `close` has returned: every attempt begun before its first step has completed, the one it found
   in progress was cancelled, and neither the handler nor the active connection is ever again one of those attempts'.
   */
  lemma {:induction false} OfflineStops(nets: seq<Net>, acts: seq<Action>, r: nat, q: nat, p: nat, k: nat, i: nat)
    requires Run(nets, acts) && r < q <= p < |nets| && Reads(nets[r], acts[r], k)
    requires nets[r].cancellers[k].kind == Offline || nets[r].cancellers[k].kind == Close
    requires k < |nets[q].cancellers| && nets[q].cancellers[k].pc == Done
    requires i < |nets[r].attempts|
    ensures i < |nets[p].attempts| && nets[p].attempts[i].completed
    ensures nets[p].handler != Some(i) && nets[p].active != Some(i)
    ensures nets[r].current == Some(i) ==> nets[p].attempts[i].cancelled
    ensures p < |acts| ==> !Installs(nets[p], acts[p], i) && !Activates(nets[p], acts[p], i)
  {
    ReadStays(nets, acts, r, p, k);
    DoneStays(nets, acts, k, q, p);
    RunInv(nets, acts, p);
    StoppedMeans(nets[p], k, |nets[r].attempts|, nets[r].current, i);
    assert Local(nets[p].attempts[i]);
  }

  // ----- The old connection -----

  /** The caller has dealt with the connection that an earlier attempt may have left. */
  predicate PastStale(a: Attempt) {
    a.caller == StaleStop || a.caller == CancelCheck || a.worker != NotSpawned
  }

  predicate OwnActive(n: Net) {
    n.current.Some? && n.current.value < |n.attempts| && PastStale(n.attempts[n.current.value]) ==>
      n.active == None || n.active == n.current
  }

  lemma {:induction false} WorkerKeepsOwn(n: Net, i: nat, ok: bool)
    requires Inv(n) && Enabled(n, Worker(i, ok)) && OwnActive(n)
    ensures OwnActive(Apply(n, Worker(i, ok)))
  {
  }

  lemma {:induction false} CallerPasses(a: Attempt, ok: bool, stale: bool, k: nat)
    requires PastStale(CallerNext(a, ok, stale, k))
    ensures PastStale(a) || a.caller == StaleCheck
  {
  }

  lemma {:induction false} CallerKeepsOwn(n: Net, i: nat, ok: bool)
    requires Inv(n) && Enabled(n, Caller(i, ok)) && OwnActive(n)
    ensures OwnActive(Apply(n, Caller(i, ok)))
  {
    var a := n.attempts[i];
    var b := CallerNext(a, ok, n.active.Some?, |n.cancellers|);
    assert Local(a) && Linked(n, i);
    CallerShares(n, i);
    if PastStale(b) {
      CallerPasses(a, ok, n.active.Some?, |n.cancellers|);
    }
    if a.caller == StaleCheck {
      assert SharedAfterCaller(n, i).active == None;
    }
  }

  lemma {:induction false} CancelKeepsOwn(n: Net, k: nat)
    requires Inv(n) && Enabled(n, Cancel(k)) && OwnActive(n)
    ensures OwnActive(Apply(n, Cancel(k)))
  {
    match n.cancellers[k].pc
    case Flagging(t) =>
    case WantBarrier(t) =>
    case HoldBarrier(t) =>
    case _ => CancelMovesOnly(n, k);
  }

  lemma {:induction false} DropsKeepOwn(n: Net, act: Action)
    requires Inv(n) && Enabled(n, act) && OwnActive(n) && (act.DropCaller? || act.DropCancel?)
    ensures OwnActive(Apply(n, act))
  {
  }

  lemma {:induction false} StepKeepsOwn(n: Net, act: Action)
    requires Inv(n) && Enabled(n, act) && OwnActive(n)
    ensures OwnActive(Apply(n, act))
  {
    match act {
      case BeginAttempt =>
      case BeginCancel(_) =>
      case Worker(i, ok) => WorkerKeepsOwn(n, i, ok);
      case Caller(i, ok) => CallerKeepsOwn(n, i, ok);
      case Cancel(k) => CancelKeepsOwn(n, k);
      case _ => DropsKeepOwn(n, act);
    }
  }

  lemma {:induction false} OwnThroughout(nets: seq<Net>, j: nat)
    requires j < |nets| && OwnActive(nets[0])
    requires forall p :: 0 <= p < |nets| - 1 && OwnActive(nets[p]) ==> OwnActive(nets[p + 1])
    ensures OwnActive(nets[j])
    decreases j
  {
    if j > 0 {
      OwnThroughout(nets, j - 1);
      assert OwnActive(nets[j - 1 + 1]);
    }
  }

  lemma {:induction false} RunOwnActive(nets: seq<Net>, acts: seq<Action>, j: nat)
    requires Run(nets, acts) && j < |nets|
    ensures OwnActive(nets[j])
  {
    forall p | 0 <= p < |nets| - 1 && OwnActive(nets[p]) ensures OwnActive(nets[p + 1]) {
      RunInv(nets, acts, p);
      StepKeepsOwn(nets[p], acts[p]);
    }
    OwnThroughout(nets, j);
  }

  /** From the spawn of its worker until an attempt completes, no other attempt's connection is the active one. */
  lemma {:induction false} OldConnectionGone(nets: seq<Net>, acts: seq<Action>, j: nat, i: nat)
    requires Run(nets, acts) && j < |nets| && i < |nets[j].attempts|
    requires !nets[j].attempts[i].completed && nets[j].attempts[i].worker != NotSpawned
    ensures nets[j].active == None || nets[j].active == Some(i)
  {
    OneAttemptAtATime(nets, acts, j, i);
    RunOwnActive(nets, acts, j);
  }
}
