/**
 The connection protocol cannot deadlock and cannot run for ever: every step but the start of a new call lowers a
 natural number, and when nobody can move every call has returned and every attempt has completed.
 */
module ConnectionProgress {
  import opened Common
  import opened Connection
  import opened ConnectionInvariant
  import opened ConnectionSteps

  // ----- Nobody can run for ever -----

  function WorkerRank(w: WorkerPc): nat {
    match w
    case Connecting => 15
    case WantActivation => 14
    case Activating => 13
    case Installing => 12
    case Installed => 11
    case Undoing => 10
    case Connected => 9
    case AwaitAccepted => 8
    case AwaitFinalized => 7
    case Judging(_) => 6
    case RollingBack => 5
    case Failed | Leaving => 4
    case FailedCompleted | LeftCompleted => 3
    case FailedCleared => 2
    case Finished | NotSpawned => 0
  }

  function CallerRank(c: CallerPc): nat {
    match c
    case Acquired => 43
    case StaleCheck => 42
    case StaleStop => 41
    case CancelCheck => 40
    case WaitResult => 21
    case GotOk => 20
    case Accepted => 19
    case WantLock => 18
    case Locked => 17
    case Setting => 16
    case HasSet => 15
    case HasSent => 14
    case WaitDone => 13
    case FinalCheck => 12
    case TimedOut => 11
    case TimedOutReleased => 10
    case Aborting => 5
    case WaitAbort => 4
    case AbandonHeld(_) => 2
    case AbandonCompleted(_) => 1
    case JoiningTimeout(_) => 1
    case Returned(_) => 0
  }

  function CancelRank(pc: CancelPc): nat {
    match pc
    case Reading => 8
    case Flagging(_) => 7
    case WantBarrier(_) => 6
    case HoldBarrier(_) => 5
    case WaitCompleted(_) => 4
    case Taking => 3
    case Stopping => 2
    case Done | Gone => 0
  }

  function AttemptRank(a: Attempt): nat {
    WorkerRank(a.worker) + CallerRank(a.caller)
  }

  function AttemptsRank(s: seq<Attempt>): nat {
    if s == [] then 0 else AttemptsRank(s[..|s| - 1]) + AttemptRank(s[|s| - 1])
  }

  function CancellersRank(s: seq<Canceller>): nat {
    if s == [] then 0 else CancellersRank(s[..|s| - 1]) + CancelRank(s[|s| - 1].pc)
  }

  /** How much work the calls already made can still do. */
  function Remaining(n: Net): nat {
    AttemptsRank(n.attempts) + CancellersRank(n.cancellers)
  }

  lemma {:induction false} AttemptsRankUpd(s: seq<Attempt>, i: nat, a: Attempt)
    requires i < |s|
    ensures AttemptsRank(s[i := a]) + AttemptRank(s[i]) == AttemptsRank(s) + AttemptRank(a)
  {
    if i < |s| - 1 {
      AttemptsRankUpd(s[..|s| - 1], i, a);
      assert s[i := a][..|s| - 1] == s[..|s| - 1][i := a];
    } else {
      assert s[i := a][..|s| - 1] == s[..|s| - 1];
    }
  }

  lemma {:induction false} CancellersRankUpd(s: seq<Canceller>, k: nat, c: Canceller)
    requires k < |s|
    ensures CancellersRank(s[k := c]) + CancelRank(s[k].pc) == CancellersRank(s) + CancelRank(c.pc)
  {
    if k < |s| - 1 {
      CancellersRankUpd(s[..|s| - 1], k, c);
      assert s[k := c][..|s| - 1] == s[..|s| - 1][k := c];
    } else {
      assert s[k := c][..|s| - 1] == s[..|s| - 1];
    }
  }

  lemma {:induction false} WorkerRankDrops(a: Attempt, ok: bool)
    requires WorkerEnabled(a, ok)
    ensures AttemptRank(WorkerNext(a, ok)) < AttemptRank(a)
  {
  }

  lemma {:induction false} WorkerWorks(n: Net, i: nat, ok: bool)
    requires Enabled(n, Worker(i, ok))
    ensures Remaining(Apply(n, Worker(i, ok))) < Remaining(n)
  {
    AttemptsRankUpd(n.attempts, i, WorkerNext(n.attempts[i], ok));
    WorkerRankDrops(n.attempts[i], ok);
  }

  lemma {:induction false} CallerRankDrops(a: Attempt, ok: bool, stale: bool, k: nat)
    requires !a.caller.Returned?
    requires a.caller == CancelCheck ==> a.worker == NotSpawned
    ensures var b := CallerNext(a, ok, stale, k);
            AttemptRank(b) + (if a.caller == TimedOutReleased then CancelRank(Reading) else 0) < AttemptRank(a)
  {
  }

  lemma {:induction false} CallerWorks(n: Net, i: nat, ok: bool)
    requires Inv(n) && Enabled(n, Caller(i, ok))
    ensures Remaining(Apply(n, Caller(i, ok))) < Remaining(n)
  {
    assert Local(n.attempts[i]);
    AttemptsRankUpd(n.attempts, i, CallerNext(n.attempts[i], ok, n.active.Some?, |n.cancellers|));
    CallerRankDrops(n.attempts[i], ok, n.active.Some?, |n.cancellers|);
    var more := n.cancellers + [NewCanceller(TimeoutOf(i))];
    assert more[..|more| - 1] == n.cancellers;
  }

  lemma {:induction false} DropCallerWorks(n: Net, i: nat)
    requires Enabled(n, DropCaller(i))
    ensures Remaining(Apply(n, DropCaller(i))) < Remaining(n)
  {
    AttemptsRankUpd(n.attempts, i, CallerDropped(n.attempts[i]));
  }

  lemma {:induction false} CancelWorks(n: Net, k: nat)
    requires Enabled(n, Cancel(k))
    ensures Remaining(Apply(n, Cancel(k))) < Remaining(n)
  {
    var m := Apply(n, Cancel(k));
    CancellersRankUpd(n.cancellers, k, m.cancellers[k]);
    var pc := n.cancellers[k].pc;
    if pc.Flagging? || pc.WantBarrier? || pc.HoldBarrier? {
      AttemptsRankUpd(n.attempts, pc.target, m.attempts[pc.target]);
    }
  }

  lemma {:induction false} DropCancelEffect(n: Net, k: nat)
    requires Enabled(n, DropCancel(k))
    ensures Apply(n, DropCancel(k)).cancellers == n.cancellers[k := n.cancellers[k].(pc := Gone)]
    ensures AttemptsRank(Apply(n, DropCancel(k)).attempts) <= AttemptsRank(n.attempts)
  {
    var c := n.cancellers[k];
    if c.kind.TimeoutOf? && c.kind.attempt < |n.attempts| && n.attempts[c.kind.attempt].caller == JoiningTimeout(k) {
      AttemptsRankUpd(n.attempts, c.kind.attempt, n.attempts[c.kind.attempt].(caller := Returned(DroppedByHost)));
    }
  }

  lemma {:induction false} DropCancelWorks(n: Net, k: nat)
    requires Enabled(n, DropCancel(k))
    ensures Remaining(Apply(n, DropCancel(k))) < Remaining(n)
  {
    DropCancelEffect(n, k);
    CancellersRankUpd(n.cancellers, k, n.cancellers[k].(pc := Gone));
  }

  /** Every step but the start of a new call uses up work. */
  lemma {:induction false} StepWorks(n: Net, act: Action)
    requires Inv(n) && Enabled(n, act) && act != BeginAttempt && !act.BeginCancel?
    ensures Remaining(Apply(n, act)) < Remaining(n)
  {
    match act {
      case Worker(i, ok) => WorkerWorks(n, i, ok);
      case Caller(i, ok) => CallerWorks(n, i, ok);
      case DropCaller(i) => DropCallerWorks(n, i);
      case Cancel(k) => CancelWorks(n, k);
      case DropCancel(k) => DropCancelWorks(n, k);
    }
  }

  lemma {:induction false} DescentEnds(nets: seq<Net>, j: nat, q: nat)
    requires j <= q < |nets|
    requires forall p :: j <= p < q ==> Remaining(nets[p + 1]) < Remaining(nets[p])
    ensures q - j + Remaining(nets[q]) <= Remaining(nets[j])
    decreases q
  {
    if j < q {
      DescentEnds(nets, j, q - 1);
      assert Remaining(nets[q - 1 + 1]) < Remaining(nets[q - 1]);
    }
  }

  /** From any point of a run, without new calls at most `Remaining` steps can follow. */
  lemma {:induction false} QuietRunEnds(nets: seq<Net>, acts: seq<Action>, j: nat, q: nat)
    requires Run(nets, acts) && j <= q < |nets|
    requires forall p :: j <= p < q ==> acts[p] != BeginAttempt && !acts[p].BeginCancel?
    ensures q - j + Remaining(nets[q]) <= Remaining(nets[j])
  {
    forall p | j <= p < q ensures Remaining(nets[p + 1]) < Remaining(nets[p]) {
      RunInv(nets, acts, p);
      StepWorks(nets[p], acts[p]);
    }
    DescentEnds(nets, j, q);
  }

  // ----- Nobody gets stuck -----

  /** The participants' own steps; the host drops nothing and no timeout fires. */
  predicate Own(n: Net, act: Action) {
    match act
    case Worker(_, _) => true
    case Caller(i, ok) => i < |n.attempts| && n.attempts[i].caller == WaitResult ==> ok
    case Cancel(_) => true
    case _ => false
  }

  ghost predicate Stuck(n: Net) {
    forall act :: Own(n, act) ==> !Enabled(n, act)
  }

  lemma {:induction false} StuckWorker(n: Net, i: nat)
    requires Stuck(n) && i < |n.attempts|
    ensures !WorkerEnabled(n.attempts[i], true) && !WorkerEnabled(n.attempts[i], false)
  {
    assert Own(n, Worker(i, true)) && Own(n, Worker(i, false));
  }

  lemma {:induction false} StuckCaller(n: Net, i: nat)
    requires Stuck(n) && i < |n.attempts|
    ensures !CallerEnabled(n, i, true)
    ensures n.attempts[i].caller != WaitResult ==> !CallerEnabled(n, i, false)
  {
    assert Own(n, Caller(i, true));
    if n.attempts[i].caller != WaitResult {
      assert Own(n, Caller(i, false));
    }
  }

  lemma {:induction false} StuckLock(n: Net)
    requires Inv(n) && Stuck(n)
    ensures n.activeLock == None
  {
    if n.activeLock.Some? {
      var i := n.activeLock.value;
      assert Linked(n, i);
      StuckCaller(n, i);
    }
  }

  /** Where an attempt can rest when neither of its tasks can move. */
  lemma {:induction false} RestingAttempt(a: Attempt)
    requires Local(a) && a.barrier == Free
    requires !WorkerEnabled(a, true) && !WorkerEnabled(a, false)
    requires a.caller.Returned? || a.caller.JoiningTimeout? ||
             (a.caller == WaitResult && a.result == Undelivered) ||
             ((a.caller == WaitDone || a.caller == WaitAbort) && !a.completed)
    ensures a.completed && (a.caller.Returned? || a.caller.JoiningTimeout?)
  {
  }

  lemma {:induction false} StuckAttempt(n: Net, i: nat)
    requires Inv(n) && Stuck(n) && i < |n.attempts|
    ensures n.attempts[i].completed && (n.attempts[i].caller.Returned? || n.attempts[i].caller.JoiningTimeout?)
  {
    StuckLock(n);
    StuckBarrier(n, i);
    StuckWorker(n, i);
    StuckCaller(n, i);
    RestingAttempt(n.attempts[i]);
  }

  lemma {:induction false} StuckCanceller(n: Net, k: nat)
    requires Inv(n) && Stuck(n) && k < |n.cancellers|
    ensures n.cancellers[k].pc == Done || n.cancellers[k].pc == Gone
  {
    StuckLock(n);
    assert Own(n, Cancel(k)) && CancelOk(n, k);
    var pc := n.cancellers[k].pc;
    if pc.WaitCompleted? || pc.WantBarrier? {
      StuckAttempt(n, pc.target);
      StuckBarrier(n, pc.target);
    }
  }

  lemma {:induction false} StuckBarrier(n: Net, i: nat)
    requires Inv(n) && Stuck(n) && i < |n.attempts|
    ensures n.attempts[i].barrier == Free
  {
    assert Local(n.attempts[i]) && Linked(n, i);
    StuckWorker(n, i);
    if n.attempts[i].barrier.HeldBy? {
      assert Own(n, Cancel(n.attempts[i].barrier.canceller));
    }
  }

  /** When nobody can move, every attempt has completed, the slot is free and every call has returned. */
  lemma {:induction false} StuckMeansDone(n: Net)
    requires Inv(n) && Stuck(n)
    ensures n.current == None
    ensures forall i :: 0 <= i < |n.attempts| ==> n.attempts[i].completed && n.attempts[i].caller.Returned?
    ensures forall k :: 0 <= k < |n.cancellers| ==> n.cancellers[k].pc == Done || n.cancellers[k].pc == Gone
  {
    forall i | 0 <= i < |n.attempts|
      ensures n.attempts[i].completed && n.attempts[i].caller.Returned? && n.current != Some(i)
    {
      StuckAttempt(n, i);
      assert Linked(n, i) && Local(n.attempts[i]);
      StuckWorker(n, i);
      if n.attempts[i].caller.JoiningTimeout? {
        StuckCanceller(n, n.attempts[i].caller.canceller);
        StuckCaller(n, i);
      }
    }
    forall k | 0 <= k < |n.cancellers| ensures n.cancellers[k].pc == Done || n.cancellers[k].pc == Gone {
      StuckCanceller(n, k);
    }
  }

  /** In every reachable state with an uncompleted attempt some participant can step by itself. */
  lemma {:induction false} NoDeadlock(nets: seq<Net>, acts: seq<Action>, j: nat, i: nat)
    requires Run(nets, acts) && j < |nets| && i < |nets[j].attempts|
    requires !nets[j].attempts[i].completed || !nets[j].attempts[i].caller.Returned?
    ensures exists act :: Own(nets[j], act) && Enabled(nets[j], act)
  {
    RunInv(nets, acts, j);
    if Stuck(nets[j]) {
      StuckMeansDone(nets[j]);
    }
  }
}
