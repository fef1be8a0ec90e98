/**
 The XSWD event dispatcher (rust/src/api/xswd/impl/dispatcher.rs, `run`) as a machine over values.

 One turn is one iteration of the loop.  The channel, the readiness of the callback future and the
 work of other tasks on the shared registry are inputs of the turn.  A request's reply channel is named
 by the request's arrival number, so `answers` is the complete record of everything sent to reply channels.
 */
module Dispatcher {
  import opened Common
  import opened Registry
  import opened Payload

  const MAX_DEFERRED: nat := 64
  const MAX_BURST: nat := 16

  datatype Event =
    | RequestApplication(app: App)
    | RequestPermission(app: App, payload: Option<Json>)
    | PrefetchPermissions(app: App, payload: Option<Json>, permissions: seq<string>)
    | CancelRequest(app: App)
    | AppDisconnect(app: App)
  {
    predicate IsDecision() {
      RequestApplication? || RequestPermission? || PrefetchPermissions?
    }

    predicate ExpectsReply() {
      !AppDisconnect?
    }
  }

  datatype NoteKind = CancelNote | DisconnectNote

  datatype Note = Note(app: App, ref: nat, kind: NoteKind, cancelledAdmission: bool)

  datatype Deferred = Raw(event: Event, id: nat) | Notification(note: Note)

  datatype PendingResponse = PermissionReply(id: nat) | PrefetchReply(id: nat, permissions: seq<string>)

  datatype CallbackKind = Decision(response: PendingResponse, admission: bool) | Notify(kind: NoteKind)

  /** Which of the two callback outcome types the running future yields. */
  datatype FutureKind = DecisionFuture | NotificationFuture

  datatype Active = Active(app: App, kind: CallbackKind, future: FutureKind)

  datatype DecisionOutcome = Accept | Reject | AlwaysAccept | AlwaysReject | InvalidPayload | Timeout | Exception

  datatype NotificationOutcome = Completed | NotificationInvalidPayload | NotificationTimeout | NotificationException

  datatype Outcome = OfDecision(decision: DecisionOutcome) | OfNotification(notification: NotificationOutcome)
  {
    function Kind(): FutureKind {
      if OfDecision? then DecisionFuture else NotificationFuture
    }
  }

  datatype Reason =
    | HandlerClosed | HandlerOverloaded | RequestCancelled | QueueFull
    | ReferenceFailure(error: ReferenceError) | ProjectionFailed | CallbackFailed(outcome: DecisionOutcome)

  datatype Reply =
    | Permission(decision: DecisionOutcome)
    | Granted(permissions: seq<string>)
    | Acknowledged
    | Failed(reason: Reason)

  datatype Answer = Answer(id: nat, reply: Reply)

  /** Callbacks started, in order: what the user is shown. */
  datatype Start = StartDecision(id: nat) | StartNote(note: Note)

  datatype Channel = Empty | Message(event: Event) | Closed

  /** Inputs of one iteration; the three op lists are the other tasks' registry work before its first, second and third lock. */
  datatype Turn = Turn(channel: Channel, ready: Option<Outcome>, before: seq<Op>, middle: seq<Op>, late: seq<Op>)

  /** The loop's own variables, with the record of what it received, sent and started. */
  datatype Desk = Desk(
    running: bool,
    deferred: seq<Deferred>,
    active: Option<Active>,
    burst: nat,
    received: seq<Event>,
    answers: seq<Answer>,
    starts: seq<Start>)

  /** `revoked` records the sessions whose authority a turn of this dispatcher ended. */
  datatype State = State(desk: Desk, observed: seq<App>, registry: Sessions, limits: Limits, revoked: set<App>)

  function Initial(registry: Sessions, limits: Limits): State {
    State(Desk(true, [], None, 0, [], [], []), [], registry, limits, {})
  }

  // ----- Responses -----

  /** First occurrences in order: the keys of an insertion-ordered map filled from the list. */
  function Distinct(names: seq<string>): seq<string> {
    if names == [] then []
    else
      var front := Distinct(names[..|names| - 1]);
      var last := names[|names| - 1];
      if last in front then front else front + [last]
  }

  function DecisionReply(response: PendingResponse, outcome: DecisionOutcome): Reply {
    match outcome
    case InvalidPayload | Timeout | Exception => Failed(CallbackFailed(outcome))
    case Accept | AlwaysAccept =>
      if response.PermissionReply? then Permission(outcome) else Granted(Distinct(response.permissions))
    case Reject | AlwaysReject =>
      if response.PermissionReply? then Permission(outcome) else Granted([])
  }

  /** The reply gives the application authority it did not have. */
  predicate Accepting(reply: Reply) {
    match reply
    case Permission(decision) => decision.Accept? || decision.AlwaysAccept?
    case Granted(permissions) => permissions != []
    case _ => false
  }

  /** What failing a queued item sends. */
  function FailItem(item: Deferred, reason: Reason): seq<Answer> {
    if item.Notification? || item.event.AppDisconnect? then []
    else if item.event.CancelRequest? then [Answer(item.id, Acknowledged)]
    else [Answer(item.id, Failed(reason))]
  }

  function FailItems(items: seq<Deferred>, reason: Reason): seq<Answer> {
    if items == [] then [] else FailItems(items[..|items| - 1], reason) + FailItem(items[|items| - 1], reason)
  }

  /** What failing the running callback sends. */
  function FailActive(active: Active, reason: Reason): seq<Answer> {
    if active.kind.Decision? then [Answer(active.kind.response.id, Failed(reason))] else []
  }

  /** `complete_kind`: a callback whose outcome has the wrong type would drop its response. */
  function CompleteActive(active: Active, outcome: Outcome): seq<Answer> {
    match (active.kind, outcome)
    case (Decision(response, _), OfDecision(o)) => [Answer(response.id, DecisionReply(response, o))]
    case _ => []
  }

  // ----- The deferred queue -----

  predicate IsDecisionItem(item: Deferred) {
    item.Raw? && item.event.IsDecision()
  }

  predicate IsDecisionOf(item: Deferred, app: App) {
    IsDecisionItem(item) && item.event.app == app
  }

  predicate IsDisconnectNoteOf(item: Deferred, app: App) {
    item.Notification? && item.note.kind == DisconnectNote && item.note.app == app
  }

  function Retained(items: seq<Deferred>, app: App): seq<Deferred> {
    if items == [] then []
    else
      var front := Retained(items[..|items| - 1], app);
      var last := items[|items| - 1];
      if IsDecisionOf(last, app) then front else front + [last]
  }

  function CancelAnswers(items: seq<Deferred>, app: App): seq<Answer> {
    if items == [] then []
    else
      var front := CancelAnswers(items[..|items| - 1], app);
      var last := items[|items| - 1];
      if IsDecisionOf(last, app) then front + [Answer(last.id, Failed(RequestCancelled))] else front
  }

  predicate HoldsAdmission(items: seq<Deferred>, app: App) {
    exists i :: 0 <= i < |items| && items[i].Raw? && items[i].event == RequestApplication(app)
  }

  /** Position of the oldest queued decision, or the queue's length. */
  function FirstDecision(items: seq<Deferred>): (i: nat)
    ensures i <= |items|
    ensures forall j :: 0 <= j < i ==> !IsDecisionItem(items[j])
    ensures i < |items| ==> IsDecisionItem(items[i])
  {
    if items == [] then 0
    else if IsDecisionItem(items[0]) then 0
    else 1 + FirstDecision(items[1..])
  }

  predicate IsDecisionFor(active: Option<Active>, app: App) {
    active.Some? && active.value.kind.Decision? && active.value.app == app
  }

  predicate IsAdmission(active: Option<Active>) {
    active.Some? && active.value.kind.Decision? && active.value.kind.admission
  }

  predicate IsDisconnectFor(active: Option<Active>, app: App) {
    active.Some? && active.value.kind == Notify(DisconnectNote) && active.value.app == app
  }

  predicate DisconnectKnown(items: seq<Deferred>, active: Option<Active>, app: App) {
    IsDisconnectFor(active, app) || exists i :: 0 <= i < |items| && IsDisconnectNoteOf(items[i], app)
  }

  datatype Deferral = Deferral(deferred: seq<Deferred>, answers: seq<Answer>, next: Option<Note>)

  /** `defer_xswd_disconnect` */
  function DeferDisconnect(items: seq<Deferred>, active: Option<Active>, note: Note): Deferral {
    if DisconnectKnown(items, active, note.app) then Deferral(items, [], None)
    else if |items| < MAX_DEFERRED then Deferral(items + [Notification(note)], [], None)
    else
      var i := FirstDecision(items);
      if i < |items| then
        var kept := items[..i] + items[i + 1..];
        Deferral(if |kept| < MAX_DEFERRED then kept + [Notification(note)] else kept, FailItem(items[i], QueueFull), None)
      else
        Deferral(items[1..] + [Notification(note)], [], if items[0].Notification? then Some(items[0].note) else None)
  }

  // ----- What a turn does to the desk -----

  /** What the registry and the payload projection tell the loop during a turn. */
  datatype Advice = Advice(projects: bool, granted: Result<nat, ReferenceError>, noted: Result<nat, ReferenceError>)

  function Send(d: Desk, answers: seq<Answer>): Desk {
    d.(answers := d.answers + answers)
  }

  function ResponseFor(event: Event, id: nat): PendingResponse {
    if event.PrefetchPermissions? then PrefetchReply(id, event.permissions) else PermissionReply(id)
  }

  function BeginDecision(d: Desk, event: Event, id: nat): Desk {
    d.(active := Some(Active(event.app, Decision(ResponseFor(event, id), event.RequestApplication?), DecisionFuture)),
       burst := 0, starts := d.starts + [StartDecision(id)])
  }

  function BeginNote(d: Desk, note: Note): Desk {
    d.(active := Some(Active(note.app, Notify(note.kind), NotificationFuture)),
       burst := 0, starts := d.starts + [StartNote(note)])
  }

  /** A request is shown if its payload projects and its session is granted a reference; otherwise it is refused. */
  function OpenDecision(d: Desk, event: Event, id: nat, a: Advice): Desk {
    if !event.RequestApplication? && !a.projects then Send(d, [Answer(id, Failed(ProjectionFailed))])
    else match a.granted
      case Success(_) => BeginDecision(d, event, id)
      case Failure(e) => Send(d, [Answer(id, Failed(ReferenceFailure(e)))])
  }

  function OpenNote(d: Desk, app: App, kind: NoteKind, a: Advice): Desk {
    match a.noted
    case Success(ref) => BeginNote(d, Note(app, ref, kind, false))
    case Failure(_) => d
  }

  /** `prepare_xswd_event` on an idle dispatcher, and what `run` does with the result. */
  function Open(d: Desk, event: Event, id: nat, a: Advice): Desk {
    match event
    case CancelRequest(app) => OpenNote(Send(d, [Answer(id, Acknowledged)]), app, CancelNote, a)
    case AppDisconnect(app) => OpenNote(d, app, DisconnectNote, a)
    case _ => OpenDecision(d, event, id, a)
  }

  /** A session's queued decisions are cancelled, and so is its running decision. */
  function Sweep(d: Desk, app: App): Desk {
    var d1 := d.(answers := d.answers + CancelAnswers(d.deferred, app), deferred := Retained(d.deferred, app));
    if IsDecisionFor(d.active, app)
    then d1.(answers := d1.answers + FailActive(d.active.value, RequestCancelled), active := None)
    else d1
  }

  predicate CancelsAdmission(d: Desk, app: App) {
    HoldsAdmission(d.deferred, app) || (IsDecisionFor(d.active, app) && IsAdmission(d.active))
  }

  /** A cancel while a callback runs. */
  function OnCancel(d: Desk, app: App, id: nat, a: Advice): Desk {
    var d1 := Send(Sweep(d, app), [Answer(id, Acknowledged)]);
    match a.noted
    case Failure(_) => d1
    case Success(ref) =>
      var note := Note(app, ref, CancelNote, CancelsAdmission(d, app));
      if IsDecisionFor(d.active, app) then BeginNote(d1, note)
      else if |d1.deferred| < MAX_DEFERRED then d1.(deferred := d1.deferred + [Notification(note)])
      else d1
  }

  /** A disconnect while a callback runs. */
  function OnDisconnect(d: Desk, app: App, a: Advice): Desk {
    var d1 := Sweep(d, app);
    match a.noted
    case Failure(_) => d1
    case Success(ref) =>
      var note := Note(app, ref, DisconnectNote, false);
      if IsDecisionFor(d.active, app) then BeginNote(d1, note) else QueueDisconnect(d1, note)
  }

  /** Queues the notification; a saturated queue starts its oldest notification in place of the running callback. */
  function QueueDisconnect(d: Desk, note: Note): Desk {
    var q := DeferDisconnect(d.deferred, d.active, note);
    var d1 := d.(answers := d.answers + q.answers, deferred := q.deferred);
    if q.next.None? then d1
    else if d.active.None? then BeginNote(d1, q.next.value)
    else BeginNote(Send(d1, FailActive(d.active.value, HandlerOverloaded)), q.next.value)
  }

  /** `defer_xswd_decision` */
  function OnDecision(d: Desk, event: Event, id: nat): Desk {
    if |d.deferred| < MAX_DEFERRED then d.(deferred := d.deferred + [Raw(event, id)])
    else Send(d, FailItem(Raw(event, id), QueueFull))
  }

  /** The channel is closed: everything pending is failed. */
  function ShutDesk(d: Desk): Desk {
    var failed := if d.active.Some? then FailActive(d.active.value, HandlerClosed) else [];
    d.(answers := d.answers + failed + FailItems(d.deferred, HandlerClosed), active := None, deferred := [], running := false)
  }

  // ----- One iteration of the loop -----

  datatype Move =
    | Complete(outcome: Outcome)
    | StartQueued(note: Note)
    | OpenQueued(event: Event, id: nat)
    | OpenMessage(event: Event)
    | Handle(event: Event)
    | Shut
    | Wait

  /** The biased `select!`: the callback is polled first once a full burst of events was received. */
  predicate TakesCallback(d: Desk, t: Turn) {
    d.active.Some? && t.ready.Some? && (d.burst >= MAX_BURST || t.channel.Empty?)
  }

  function MoveOf(d: Desk, t: Turn): Move {
    if TakesCallback(d, t) then Complete(t.ready.value)
    else if d.active.None? && d.deferred != [] then
      match d.deferred[0]
      case Raw(event, id) => OpenQueued(event, id)
      case Notification(note) => StartQueued(note)
    else match t.channel
      case Empty => Wait
      case Closed => Shut
      case Message(event) => if d.active.Some? then Handle(event) else OpenMessage(event)
  }

  function Received(d: Desk, event: Event): Desk {
    d.(received := d.received + [event])
  }

  /** Received while a callback runs: counts towards the burst. */
  function Heard(d: Desk, event: Event): Desk {
    Received(d, event).(burst := (if d.burst >= MAX_BURST then 0 else d.burst) + 1)
  }

  function HandleEvent(d: Desk, event: Event, a: Advice): Desk {
    match event
    case CancelRequest(app) => OnCancel(Heard(d, event), app, |d.received|, a)
    case AppDisconnect(app) => OnDisconnect(Heard(d, event), app, a)
    case _ => OnDecision(Heard(d, event), event, |d.received|)
  }

  function StepDesk(d: Desk, m: Move, a: Advice): Desk
    requires m.Complete? ==> d.active.Some?
    requires m.StartQueued? || m.OpenQueued? ==> d.deferred != []
  {
    match m
    case Complete(outcome) => Send(d, CompleteActive(d.active.value, outcome)).(active := None, burst := 0)
    case StartQueued(note) => BeginNote(d.(deferred := d.deferred[1..]), note)
    case OpenQueued(event, id) => Open(d.(deferred := d.deferred[1..]), event, id, a)
    case OpenMessage(event) => Open(Received(d, event), event, |d.received|, a)
    case Handle(event) => HandleEvent(d, event, a)
    case Shut => ShutDesk(d)
    case Wait => d
  }

  // ----- What a turn does to the registry -----

  /** The shared registry and the record of sessions revoked here. */
  datatype Authority = Authority(registry: Sessions, revoked: set<App>)

  ghost function Interleaved(a: Authority, ops: seq<Op>): Authority {
    a.(registry := ApplyAll(a.registry, ops))
  }

  ghost function Revoke(a: Authority, app: App): Authority {
    Authority(Invalidate(a.registry, app), a.revoked + {app})
  }

  ghost function RevokeAll(a: Authority, apps: seq<App>): Authority {
    if apps == [] then a else Revoke(RevokeAll(a, apps[..|apps| - 1]), apps[|apps| - 1])
  }

  ghost function Projected(a: Authority, app: App): Authority {
    a.(registry := Project(a.registry, app))
  }

  /** The authority as the turn's first registry access finds it, after its invalidation if it makes one. */
  ghost function FirstAccess(s: State, m: Move, t: Turn): Authority {
    var a := Authority(s.registry, s.revoked);
    match m
    case OpenQueued(event, _) => OpenAccess(a, event, t)
    case OpenMessage(event) => OpenAccess(a, event, t)
    case Handle(CancelRequest(app)) => if CancelsAdmission(s.desk, app) then Revoke(Interleaved(a, t.before), app) else a
    case Handle(AppDisconnect(app)) => Revoke(Interleaved(a, t.before), app)
    case _ => a
  }

  ghost function OpenAccess(a: Authority, event: Event, t: Turn): Authority {
    if event.AppDisconnect? then Revoke(Interleaved(a, t.before), event.app) else a
  }

  /** The authority as the turn projects the event's session. */
  ghost function BeforeProjection(s: State, m: Move, t: Turn): Authority {
    var a := FirstAccess(s, m, t);
    match m
    case OpenQueued(event, _) => Interleaved(a, if event.AppDisconnect? then t.middle else t.before)
    case OpenMessage(event) => Interleaved(a, if event.AppDisconnect? then t.middle else t.before)
    case Handle(_) => Interleaved(a, t.middle)
    case _ => a
  }

  ghost function AdviceOf(s: State, m: Move, t: Turn): Advice {
    var registry := BeforeProjection(s, m, t).registry;
    var event := MoveEvent(m);
    if event.None? then Advice(false, Failure(Invalid), Failure(Invalid)) else AdviceFor(registry, event.value, s.limits)
  }

  ghost function AdviceFor(registry: Sessions, event: Event, limits: Limits): Advice {
    Advice(PayloadProjects(event, limits), RegisterResult(registry, event.app), ProjectResult(registry, event.app))
  }

  function MoveEvent(m: Move): Option<Event> {
    match m
    case OpenQueued(event, _) => Some(event)
    case OpenMessage(event) => Some(event)
    case Handle(event) => Some(event)
    case _ => None
  }

  predicate PayloadProjects(event: Event, limits: Limits) {
    match event
    case RequestPermission(_, payload) => Projects(payload, limits)
    case PrefetchPermissions(_, payload, _) => Projects(payload, limits)
    case _ => true
  }

  /** Whether the turn asks the registry for a reference to the event's session. */
  predicate ProjectsSession(m: Move, limits: Limits) {
    match m
    case OpenQueued(event, _) => PayloadProjects(event, limits)
    case OpenMessage(event) => PayloadProjects(event, limits)
    case Handle(event) => !event.IsDecision()
    case _ => false
  }

  /** A disconnect finds the queue saturated while an admission is running: that admission is overloaded. */
  predicate OverloadsAdmission(d: Desk, app: App, a: Advice) {
    && a.noted.Success? && !IsDecisionFor(d.active, app) && IsAdmission(d.active)
    && DeferDisconnect(Retained(d.deferred, app), d.active, Note(app, a.noted.value, DisconnectNote, false)).next.Some?
  }

  ghost function AuthorityAfter(s: State, m: Move, t: Turn): Authority {
    if m.Shut? then
      var a := Interleaved(Authority(s.registry, s.revoked), t.before);
      RevokeAll(a, Living(s.observed, a.registry.dead))
    else if !ProjectsSession(m, s.limits) then Authority(s.registry, s.revoked)
    else
      var a := Projected(BeforeProjection(s, m, t), MoveEvent(m).value.app);
      if m.Handle? && m.event.AppDisconnect? && OverloadsAdmission(s.desk, m.event.app, AdviceOf(s, m, t))
      then Revoke(Interleaved(a, t.late), s.desk.active.value.app)
      else a
  }

  /** `track_xswd_state`: dead states are forgotten, a new one is remembered once. */
  function Track(observed: seq<App>, dead: set<App>, app: App): seq<App> {
    var live := Living(observed, dead);
    if app in live then live else live + [app]
  }

  function Living(observed: seq<App>, dead: set<App>): seq<App> {
    if observed == [] then []
    else
      var front := Living(observed[..|observed| - 1], dead);
      var last := observed[|observed| - 1];
      if last in dead then front else front + [last]
  }

  ghost function Step(s: State, t: Turn): State {
    var m := MoveOf(s.desk, t);
    var a := AuthorityAfter(s, m, t);
    State(StepDesk(s.desk, m, AdviceOf(s, m, t)),
          if m.OpenMessage? || m.Handle? then Track(s.observed, s.registry.dead, m.event.app) else s.observed,
          a.registry, s.limits, a.revoked)
  }

  // ----- Runs -----

  function ItemApp(item: Deferred): App {
    if item.Raw? then item.event.app else item.note.app
  }

  /** The states the dispatcher keeps alive. */
  predicate Holds(d: Desk, app: App) {
    || (d.active.Some? && d.active.value.app == app)
    || exists i :: 0 <= i < |d.deferred| && ItemApp(d.deferred[i]) == app
  }

  predicate MayDrop(t: Turn, app: App) {
    DropState(app) in t.before || DropState(app) in t.middle || DropState(app) in t.late
  }

  /** One of the loop's inputs is there, and a future yields the type it was built to yield. */
  predicate Awake(d: Desk, t: Turn) {
    && d.running
    && !MoveOf(d, t).Wait?
    && (t.ready.Some? ==> d.active.Some? && t.ready.value.Kind() == d.active.value.future)
  }

  /** Nobody drops a state that the dispatcher or the message still references. */
  ghost predicate References(d: Desk, t: Turn, dead: set<App>) {
    && (forall app :: Holds(d, app) ==> !MayDrop(t, app))
    && (t.channel.Message? ==> !MayDrop(t, t.channel.event.app) && t.channel.event.app !in dead)
  }

  ghost predicate Enabled(s: State, t: Turn) {
    Awake(s.desk, t) && References(s.desk, t, s.registry.dead)
  }

  /** A run from a fresh handler, on a registry that other handlers may already have used. */
  ghost predicate Run(states: seq<State>, turns: seq<Turn>) {
    && |states| == |turns| + 1
    && Valid(states[0].registry)
    && states[0] == Initial(states[0].registry, states[0].limits)
    && forall i :: 0 <= i < |turns| ==> Enabled(states[i], turns[i]) && states[i + 1] == Step(states[i], turns[i])
  }
}
