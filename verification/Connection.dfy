/**
 The connection-attempt protocol of a wallet (rust/src/api/wallet/runtime.rs, rust/src/api/wallet.rs) as a
 machine over the atomic steps of its participants: callers of `online_mode`, the worker each of them spawns, and
 cancellers (`offline_mode`, `close`, a caller whose timeout fired).  Any number of attempts and cancellers interleave.
 The worker does not panic; the host may drop a future at any await point.  `set_offline_mode` always leaves no handler
 installed, which is what the source relies on.  An attempt's daemon API is named by the attempt.
 */
module Connection {
  import opened Common

  /** A oneshot acknowledgement, seen from its receiver. */
  datatype Ack = Unsent | Sent | SenderGone

  datatype Delivery = Undelivered | DeliveredOk | DeliveredErr

  datatype Outcome =
    | ReturnedOk | AlreadyOnline | StaleStopFailed | CancelledError | ConnectError | WorkerFailed | TimeoutError | DroppedByHost

  datatype Barrier = Free | HeldByWorker | HeldBy(canceller: nat)

  datatype WorkerPc =
    | NotSpawned
    | Connecting                      // dialling and preflight
    | WantActivation                  // waits for the activation lock
    | Activating                      // holds the activation lock, cancellation not yet checked
    | Installing                      // inside set_online_mode_with_api
    | Installed                       // handler installed, cancellation not yet checked
    | Undoing                         // rollback under the activation lock
    | Failed                          // connect_wallet returned an error, guard still held
    | FailedCompleted                 // complete() done, slot not yet cleared
    | FailedCleared                   // guard dropped, error not yet sent
    | Connected                       // connect_wallet returned the API
    | AwaitAccepted
    | AwaitFinalized
    | Judging(finalized: bool)
    | RollingBack
    | Leaving
    | LeftCompleted                   // complete() done, slot not yet cleared
    | Finished

  datatype CallerPc =
    | Acquired                        // holds the guard
    | StaleCheck
    | StaleStop                       // stops the old connection, still holding the active_connection lock
    | CancelCheck
    | AbandonHeld(why: Outcome)       // returning before a worker exists: drops the guard
    | AbandonCompleted(why: Outcome)
    | WaitResult
    | GotOk
    | Accepted
    | WantLock
    | Locked                          // holds the active_connection lock
    | Setting
    | HasSet
    | HasSent
    | WaitDone
    | FinalCheck
    | Aborting
    | WaitAbort
    | TimedOut
    | TimedOutReleased                // accepted_sender dropped
    | JoiningTimeout(canceller: nat)
    | Returned(outcome: Outcome)

  datatype Attempt = Attempt(
    cancelled: bool,
    completed: bool,
    barrier: Barrier,
    worker: WorkerPc,
    caller: CallerPc,
    result: Delivery,
    accepted: Ack,
    finalized: Ack,
    installed: bool,    // history: the worker installed the handler
    activated: bool,    // history: the caller stored the API in active_connection
    rolledBack: bool,   // history: the worker rolled back
    failed: bool)       // history: a network operation of the worker failed

  datatype CancelKind = Offline | Close | TimeoutOf(attempt: nat)

  datatype CancelPc =
    | Reading
    | Flagging(target: nat)
    | WantBarrier(target: nat)
    | HoldBarrier(target: nat)
    | WaitCompleted(target: nat)
    | Taking
    | Stopping
    | Done
    | Gone

  /** `seen` and `found` are history: how many attempts had begun, and which was in the slot, when the canceller read it. */
  datatype Canceller = Canceller(kind: CancelKind, pc: CancelPc, seen: nat, found: Option<nat>)

  function NewCanceller(kind: CancelKind): Canceller {
    Canceller(kind, Reading, 0, None)
  }

  datatype Net = Net(
    attempts: seq<Attempt>,
    cancellers: seq<Canceller>,
    current: Option<nat>,
    closed: bool,
    active: Option<nat>,       // active_connection, by attempt
    activeLock: Option<nat>,   // the caller holding its mutex
    handler: Option<nat>)      // the network handler installed in the wallet, by attempt

  const Fresh := Attempt(false, false, Free, NotSpawned, Acquired, Undelivered, Unsent, Unsent, false, false, false, false)

  const Start := Net([], [], None, false, None, None, None)

  datatype Action =
    | BeginAttempt
    | BeginCancel(kind: CancelKind)
    | Worker(i: nat, ok: bool)     // `ok` chooses the result of the network operation in progress
    | Caller(i: nat, ok: bool)     // `ok` chooses: wallet online, stop succeeded, result rather than timeout
    | DropCaller(i: nat)
    | Cancel(k: nat)
    | DropCancel(k: nat)

  // ----- The worker -----

  predicate WorkerEnabled(a: Attempt, ok: bool) {
    match a.worker
    case NotSpawned | Finished => false
    case WantActivation => a.barrier == Free
    case AwaitAccepted => a.accepted != Unsent
    case AwaitFinalized => a.finalized != Unsent
    case _ => true
  }

  function WorkerPcNext(a: Attempt, ok: bool): WorkerPc {
    match a.worker
    case Connecting => if ok then WantActivation else Failed
    case WantActivation => Activating
    case Activating => if a.cancelled then Failed else Installing
    case Installing => if ok then Installed else Failed
    case Installed => if a.cancelled then Undoing else Connected
    case Undoing => Failed
    case Failed => FailedCompleted
    case FailedCompleted => FailedCleared
    case FailedCleared => Finished
    case Connected => if a.caller == WaitResult then AwaitAccepted else Judging(false)
    case AwaitAccepted => if a.accepted == Sent then AwaitFinalized else Judging(false)
    case AwaitFinalized => Judging(a.finalized == Sent)
    case Judging(finalized) => if !finalized || a.cancelled then RollingBack else Leaving
    case RollingBack => Leaving
    case Leaving => LeftCompleted
    case LeftCompleted => Finished
    case _ => a.worker
  }

  predicate ReleasesActivation(a: Attempt, ok: bool) {
    (a.worker == Activating && a.cancelled) || (a.worker == Installing && !ok) || (a.worker == Installed && !a.cancelled) ||
    a.worker == Undoing
  }

  function WorkerNext(a: Attempt, ok: bool): Attempt {
    Attempt(
      a.cancelled,
      a.completed || a.worker == Failed || a.worker == Leaving,
      if a.worker == WantActivation then HeldByWorker else if ReleasesActivation(a, ok) then Free else a.barrier,
      WorkerPcNext(a, ok),
      a.caller,
      if a.caller != WaitResult then a.result
      else if a.worker == Connected then DeliveredOk
      else if a.worker == FailedCleared then DeliveredErr
      else a.result,
      a.accepted,
      a.finalized,
      a.installed || (a.worker == Installing && ok),
      a.activated,
      a.rolledBack || a.worker == Undoing || a.worker == RollingBack,
      a.failed || ((a.worker == Connecting || a.worker == Installing) && !ok))
  }

  function HandlerAfterWorker(handler: Option<nat>, a: Attempt, i: nat, ok: bool): Option<nat> {
    if a.worker == Installing && ok then Some(i)
    else if a.worker == Undoing || a.worker == RollingBack then None
    else handler
  }

  /** Dropping the guard clears the slot if it still names this attempt. */
  function Cleared(current: Option<nat>, i: nat): Option<nat> {
    if current == Some(i) then None else current
  }

  // ----- The caller -----

  /** The worker still holds the receivers of both acknowledgements. */
  predicate Listening(w: WorkerPc) {
    w == Connecting || w == WantActivation || w == Activating || w == Installing || w == Installed || w == Undoing ||
    w == Connected || w == AwaitAccepted || w == AwaitFinalized
  }

  predicate HoldsActive(c: CallerPc) {
    c == StaleStop || c == Locked || c == Setting || c == HasSet || c == HasSent
  }

  predicate CallerEnabled(n: Net, i: nat, ok: bool)
    requires i < |n.attempts|
  {
    var a := n.attempts[i];
    match a.caller
    case Acquired => ok ==> n.handler.Some?
    case StaleCheck => n.activeLock == None
    case WaitResult => ok ==> a.result != Undelivered
    case WantLock => n.activeLock == None
    case WaitDone => a.completed
    case WaitAbort => a.completed
    case JoiningTimeout(k) => k < |n.cancellers| && n.cancellers[k].pc == Done
    case Returned(_) => false
    case _ => true
  }

  /** `stale`: active_connection holds an old connection; `k`: the number the next canceller gets. */
  function CallerPcNext(a: Attempt, ok: bool, stale: bool, k: nat): CallerPc {
    match a.caller
    case Acquired => if ok then AbandonHeld(AlreadyOnline) else StaleCheck
    case StaleCheck => if stale then StaleStop else CancelCheck
    case StaleStop => if ok then CancelCheck else AbandonHeld(StaleStopFailed)
    case CancelCheck => if a.cancelled then AbandonHeld(CancelledError) else WaitResult
    case AbandonHeld(why) => AbandonCompleted(why)
    case AbandonCompleted(why) => Returned(why)
    case WaitResult => if !ok then TimedOut else if a.result == DeliveredOk then GotOk else Returned(ConnectError)
    case GotOk => if Listening(a.worker) then Accepted else Returned(WorkerFailed)
    case Accepted => if a.cancelled then Aborting else WantLock
    case WantLock => Locked
    case Locked => if a.cancelled then Aborting else Setting
    case Setting => HasSet
    case HasSet => if Listening(a.worker) then HasSent else Returned(WorkerFailed)
    case HasSent => WaitDone
    case WaitDone => FinalCheck
    case FinalCheck => Returned(if a.cancelled then CancelledError else ReturnedOk)
    case Aborting => WaitAbort
    case WaitAbort => Returned(CancelledError)
    case TimedOut => TimedOutReleased
    case TimedOutReleased => JoiningTimeout(k)
    case JoiningTimeout(_) => Returned(TimeoutError)
    case Returned(_) => a.caller
  }

  /** The caller returns through an early exit, dropping whatever it has not sent. */
  predicate HangsUp(a: Attempt, ok: bool) {
    (a.caller == WaitResult && ok && a.result != DeliveredOk) ||
        ((a.caller == GotOk || a.caller == HasSet) && !Listening(a.worker))
  }

  function Dropped(ack: Ack): Ack {
    if ack == Unsent then SenderGone else ack
  }

  function CallerNext(a: Attempt, ok: bool, stale: bool, k: nat): Attempt {
    Attempt(
      a.cancelled,
      a.completed || a.caller.AbandonHeld?,
      a.barrier,
      if a.caller == CancelCheck && !a.cancelled then Connecting else a.worker,
      CallerPcNext(a, ok, stale, k),
      a.result,
      if HangsUp(a, ok) then Dropped(a.accepted)
      else if a.caller == GotOk then Sent
      else if a.caller == TimedOut then SenderGone
      else a.accepted,
      if HangsUp(a, ok) then Dropped(a.finalized)
      else if a.caller == HasSet then Sent
      else if a.caller == Aborting || a.caller == TimedOutReleased then SenderGone
      else a.finalized,
      a.installed,
      a.activated || a.caller == Setting,
      a.rolledBack,
      a.failed)
  }

  predicate BeforeSpawn(c: CallerPc) {
    c == Acquired || c == StaleCheck || c == StaleStop || c == CancelCheck
  }

  /** The caller is suspended at an await point, where the host may drop its future. */
  predicate AtAwait(c: CallerPc) {
    c == Acquired || c == StaleCheck || c == StaleStop || c == WaitResult || c == WantLock || c == WaitDone || c == WaitAbort
  }

  function CallerDropped(a: Attempt): Attempt {
    if BeforeSpawn(a.caller) then a.(caller := AbandonHeld(DroppedByHost))
    else a.(accepted := Dropped(a.accepted), finalized := Dropped(a.finalized), caller := Returned(DroppedByHost))
  }

  predicate ReleasesActive(a: Attempt) {
    a.caller == StaleStop || (a.caller == Locked && a.cancelled) || (a.caller == HasSet && !Listening(a.worker)) ||
        a.caller == HasSent
  }

  /** What the caller's own step does to the state it shares. */
  function SharedAfterCaller(n: Net, i: nat): Net
    requires i < |n.attempts|
  {
    var a := n.attempts[i];
    Net(n.attempts,
        if a.caller == TimedOutReleased then n.cancellers + [NewCanceller(TimeoutOf(i))] else n.cancellers,
        if a.caller.AbandonCompleted? then Cleared(n.current, i) else n.current,
        n.closed,
        if a.caller == StaleCheck then None else if a.caller == Setting then Some(i) else n.active,
        if a.caller == WantLock || (a.caller == StaleCheck && n.active.Some?) then Some(i)
        else if ReleasesActive(a) then None
        else n.activeLock,
        if a.caller == StaleStop then None else n.handler)
  }

  // ----- Cancellers -----

  predicate CancelEnabled(n: Net, k: nat)
    requires k < |n.cancellers|
  {
    match n.cancellers[k].pc
    case Done | Gone => false
    case Reading | Stopping => true
    case Taking => n.activeLock == None
    case Flagging(t) => t < |n.attempts|
    case WantBarrier(t) => t < |n.attempts| && n.attempts[t].barrier == Free
    case HoldBarrier(t) => t < |n.attempts|
    case WaitCompleted(t) => t < |n.attempts| && n.attempts[t].completed
  }

  function AfterWait(kind: CancelKind): CancelPc {
    if kind.TimeoutOf? then Done else Taking
  }

  function CancelNext(n: Net, k: nat): Net
    requires k < |n.cancellers| && CancelEnabled(n, k)
  {
    var c := n.cancellers[k];
    match c.pc
    case Reading =>
      var pc := if n.current.Some? then Flagging(n.current.value) else AfterWait(c.kind);
      n.(cancellers := n.cancellers[k := Canceller(c.kind, pc, |n.attempts|, n.current)], closed := n.closed || c.kind == Close)
    case Flagging(t) => At(Upd(n, t, n.attempts[t].(cancelled := true)), k, WantBarrier(t))
    case WantBarrier(t) => At(Upd(n, t, n.attempts[t].(barrier := HeldBy(k))), k, HoldBarrier(t))
    case HoldBarrier(t) => At(Upd(n, t, n.attempts[t].(barrier := Free)), k, WaitCompleted(t))
    case WaitCompleted(t) => At(n, k, AfterWait(c.kind))
    case Taking => At(n, k, Stopping).(active := None)
    case Stopping => At(n, k, Done).(handler := None)
    case _ => n
  }

  function At(n: Net, k: nat, pc: CancelPc): Net
    requires k < |n.cancellers|
  {
    n.(cancellers := n.cancellers[k := n.cancellers[k].(pc := pc)])
  }

  function Upd(n: Net, i: nat, a: Attempt): Net
    requires i < |n.attempts|
  {
    n.(attempts := n.attempts[i := a])
  }

  // ----- The machine -----

  /** The canceller is suspended at an await point. */
  predicate Droppable(pc: CancelPc) {
    !pc.HoldBarrier? && pc != Done && pc != Gone
  }

  predicate Enabled(n: Net, act: Action) {
    match act
    case BeginAttempt => !n.closed && n.current == None
    case BeginCancel(kind) => kind == Offline || kind == Close
    case Worker(i, ok) => i < |n.attempts| && WorkerEnabled(n.attempts[i], ok)
    case Caller(i, ok) => i < |n.attempts| && CallerEnabled(n, i, ok)
    case DropCaller(i) => i < |n.attempts| && AtAwait(n.attempts[i].caller)
    case Cancel(k) => k < |n.cancellers| && CancelEnabled(n, k)
    case DropCancel(k) => k < |n.cancellers| && Droppable(n.cancellers[k].pc)
  }

  function Apply(n: Net, act: Action): Net
    requires Enabled(n, act)
  {
    match act
    case BeginAttempt => n.(attempts := n.attempts + [Fresh], current := Some(|n.attempts|))
    case BeginCancel(kind) => n.(cancellers := n.cancellers + [NewCanceller(kind)])
    case Worker(i, ok) =>
      var a := n.attempts[i];
      Upd(n, i, WorkerNext(a, ok))
        .(handler := HandlerAfterWorker(n.handler, a, i, ok),
          current := if a.worker == FailedCompleted || a.worker == LeftCompleted then Cleared(n.current, i) else n.current)
    case Caller(i, ok) => Upd(SharedAfterCaller(n, i), i, CallerNext(n.attempts[i], ok, n.active.Some?, |n.cancellers|))
    case DropCaller(i) =>
      Upd(n, i, CallerDropped(n.attempts[i])).(activeLock := if n.attempts[i].caller == StaleStop then None else n.activeLock)
    case Cancel(k) => CancelNext(n, k)
    case DropCancel(k) => DropCanceller(n, k)
  }

  /** A dropped timeout join takes its caller with it: both are one future. */
  function DropCanceller(n: Net, k: nat): Net
    requires k < |n.cancellers|
  {
    var c := n.cancellers[k];
    var m := At(n, k, Gone);
    if c.kind.TimeoutOf? && c.kind.attempt < |n.attempts| && n.attempts[c.kind.attempt].caller == JoiningTimeout(k)
    then Upd(m, c.kind.attempt, n.attempts[c.kind.attempt].(caller := Returned(DroppedByHost)))
    else m
  }

  /** Every interleaving. */
  ghost predicate Run(nets: seq<Net>, acts: seq<Action>) {
    && |nets| == |acts| + 1
    && nets[0] == Start
    && forall j :: 0 <= j < |acts| ==> Enabled(nets[j], acts[j]) && nets[j + 1] == Apply(nets[j], acts[j])
  }
}
