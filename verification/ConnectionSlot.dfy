/**
 The objects behind the connection protocol (rust/src/api/wallet.rs): one attempt's flags, the slot that holds the
 attempt in progress, and the guard that owns it.
 */
module ConnectionSlot {
  import opened Common

  datatype AcquireError = NetworkConnectCancelled | NetworkConnectInProgress

  class WalletConnectionAttempt {
    var cancelled: bool
    var completed: bool
    var notices: nat   // how often notify_waiters has run

    constructor ()
      ensures !cancelled && !completed && notices == 0
    {
      cancelled, completed, notices := false, false, 0;
    }

    method Cancel()
      modifies this
      ensures cancelled && completed == old(completed) && notices == old(notices)
    {
      cancelled := true;
    }

    method Complete()
      modifies this
      ensures completed && notices == old(notices) + 1 && cancelled == old(cancelled)
    {
      completed := true;
      notices := notices + 1;
    }
  }

  class WalletConnectionAttempts {
    var current: WalletConnectionAttempt?
    var closed: bool

    constructor ()
      ensures current == null && !closed
    {
      current, closed := null, false;
    }

    /** ConnectionAttemptGuard::acquire: a fresh attempt takes an open, empty slot; otherwise nothing changes. */
    method Acquire() returns (r: Result<WalletConnectionAttempt, AcquireError>)
      modifies this
      ensures closed == old(closed)
      ensures old(closed) ==> r == Failure(NetworkConnectCancelled) && current == old(current)
      ensures !old(closed) && old(current) != null ==> r == Failure(NetworkConnectInProgress) && current == old(current)
      ensures !old(closed) && old(current) == null ==>
                r.Success? && fresh(r.value) && current == r.value && !r.value.cancelled && !r.value.completed
    {
      var attempt := new WalletConnectionAttempt();
      if closed {
        return Failure(NetworkConnectCancelled);
      }
      if current != null {
        return Failure(NetworkConnectInProgress);
      }
      current := attempt;
      return Success(attempt);
    }

    /** Dropping the guard completes its own attempt and empties the slot only if the slot still holds that attempt. */
    method DropGuard(attempt: WalletConnectionAttempt)
      modifies this, attempt
      ensures attempt.completed && attempt.notices == old(attempt.notices) + 1 && attempt.cancelled == old(attempt.cancelled)
      ensures closed == old(closed)
      ensures current == if old(current) == attempt then null else old(current)
    {
      attempt.Complete();
      if current == attempt {
        current := null;
      }
    }

    /** Also what dropping the wallet does, with `terminal`. */
    method CancelCurrent(terminal: bool) returns (attempt: WalletConnectionAttempt?)
      modifies this, current
      ensures attempt == current == old(current)
      ensures closed == (old(closed) || terminal)
      ensures attempt != null ==> attempt.cancelled && attempt.completed == old(current.completed)
    {
      if terminal {
        closed := true;
      }
      attempt := current;
      if attempt != null {
        attempt.Cancel();
      }
    }
  }
}

/**
 `wait_completed` at the grain of its atomic operations.  A `Notified` future is woken by every notify_waiters call
 made after the future was created.
 */
module CompletionWait {
  datatype CompleterPc = Working | Stored | Notified

  datatype WaiterPc =
    | FirstCheck
    | Subscribing
    | SecondCheck(seen: nat)   // notices there were when the Notified future was created
    | Asleep(seen: nat)
    | Returned

  datatype Wait = Wait(completed: bool, notices: nat, completer: CompleterPc, waiters: seq<WaiterPc>)

  datatype Action = Complete | Waiter(i: nat)

  predicate Begins(w: Wait) {
    && !w.completed && w.notices == 0 && w.completer == Working
    && forall i :: 0 <= i < |w.waiters| ==> w.waiters[i] == FirstCheck
  }

  predicate CanMove(w: Wait, i: nat)
    requires i < |w.waiters|
  {
    match w.waiters[i]
    case Asleep(seen) => seen < w.notices
    case Returned => false
    case _ => true
  }

  function Moved(w: Wait, i: nat): WaiterPc
    requires i < |w.waiters|
  {
    match w.waiters[i]
    case FirstCheck => if w.completed then Returned else Subscribing
    case Subscribing => SecondCheck(w.notices)
    case SecondCheck(seen) => if w.completed then Returned else Asleep(seen)
    case Asleep(_) => FirstCheck
    case Returned => Returned
  }

  predicate Enabled(w: Wait, act: Action) {
    match act
    case Complete => w.completer != Notified
    case Waiter(i) => i < |w.waiters| && CanMove(w, i)
  }

  /** `complete` stores the flag and then notifies: two steps. */
  function Apply(w: Wait, act: Action): Wait
    requires Enabled(w, act)
  {
    match act
    case Complete =>
      if w.completer == Working then w.(completed := true, completer := Stored)
      else w.(notices := w.notices + 1, completer := Notified)
    case Waiter(i) => w.(waiters := w.waiters[i := Moved(w, i)])
  }

  ghost predicate Run(waits: seq<Wait>, acts: seq<Action>) {
    && |waits| == |acts| + 1
    && Begins(waits[0])
    && forall j :: 0 <= j < |acts| ==> Enabled(waits[j], acts[j]) && waits[j + 1] == Apply(waits[j], acts[j])
  }

  ghost predicate Inv(w: Wait) {
    && (w.completed <==> w.completer != Working)
    && w.notices == (if w.completer == Notified then 1 else 0)
    && forall i :: 0 <= i < |w.waiters| ==>
         match w.waiters[i]
         case SecondCheck(seen) => seen == 0 || w.completed
         case Asleep(seen) => seen == 0
         case Returned => w.completed
         case _ => true
  }

  lemma {:induction false} StepKeepsInv(w: Wait, act: Action)
    requires Inv(w) && Enabled(w, act)
    ensures Inv(Apply(w, act))
  {
  }

  lemma {:induction false} RunInv(waits: seq<Wait>, acts: seq<Action>, j: nat)
    requires Run(waits, acts) && j < |waits|
    ensures Inv(waits[j])
    decreases j
  {
    if j > 0 {
      RunInv(waits, acts, j - 1);
      StepKeepsInv(waits[j - 1], acts[j - 1]);
    }
  }

  /** A waiter returns only after completion, and once the notice is out none is left asleep. */
  lemma {:induction false} NeverSleepsThrough(waits: seq<Wait>, acts: seq<Action>, j: nat, i: nat)
    requires Run(waits, acts) && j < |waits| && i < |waits[j].waiters|
    ensures waits[j].waiters[i] == Returned ==> waits[j].completed
    ensures waits[j].completer == Notified && waits[j].waiters[i] != Returned ==> CanMove(waits[j], i)
  {
    RunInv(waits, acts, j);
  }

  function Distance(pc: WaiterPc): nat {
    match pc
    case Asleep(_) => 4
    case Subscribing => 3
    case SecondCheck(_) => 2
    case FirstCheck => 1
    case Returned => 0
  }

  /** After the notice each step of a waiter brings it closer to its return, and only its own steps move it. */
  lemma {:induction false} ReturnsAfterNotice(waits: seq<Wait>, acts: seq<Action>, j: nat, i: nat)
    requires Run(waits, acts) && j < |acts| && i < |waits[j].waiters| && waits[j].completer == Notified
    ensures i < |waits[j + 1].waiters|
    ensures acts[j] == Waiter(i) ==> Distance(waits[j + 1].waiters[i]) < Distance(waits[j].waiters[i])
    ensures acts[j] != Waiter(i) ==> waits[j + 1].waiters[i] == waits[j].waiters[i]
  {
    RunInv(waits, acts, j);
    assert waits[j + 1] == Apply(waits[j], acts[j]);
  }
}
