/**
 Every request is answered exactly once: conservation of the dispatcher's reply channels, and the shape of
 its queue.  Nothing here depends on what the registry or the payload projection advise.
 */
module DispatcherLedger {
  import opened Common
  import opened Registry
  import opened Dispatcher

  // ----- How often a reply channel occurs -----

  function InItem(item: Deferred, id: nat): nat {
    if item.Raw? && item.event.ExpectsReply() && item.id == id then 1 else 0
  }

  function InQueue(items: seq<Deferred>, id: nat): nat {
    if items == [] then 0 else InQueue(items[..|items| - 1], id) + InItem(items[|items| - 1], id)
  }

  function InActive(active: Option<Active>, id: nat): nat {
    if active.Some? && active.value.kind.Decision? && active.value.kind.response.id == id then 1 else 0
  }

  function InAnswers(answers: seq<Answer>, id: nat): nat {
    if answers == [] then 0 else InAnswers(answers[..|answers| - 1], id) + (if answers[|answers| - 1].id == id then 1 else 0)
  }

  /** Waiting with the queue or with the running callback. */
  function Pending(d: Desk, id: nat): nat {
    InQueue(d.deferred, id) + InActive(d.active, id)
  }

  function Occurrences(d: Desk, id: nat): nat {
    Pending(d, id) + InAnswers(d.answers, id)
  }

  /** The event carries a reply channel. */
  predicate Owed(received: seq<Event>, id: nat) {
    id < |received| && received[id].ExpectsReply()
  }

  /** A channel handed to the dispatcher occurs exactly once: waiting, or used. */
  ghost predicate Balanced(d: Desk) {
    forall id: nat :: Occurrences(d, id) == if Owed(d.received, id) then 1 else 0
  }

  lemma {:induction false} InQueueConcat(a: seq<Deferred>, b: seq<Deferred>, id: nat)
    ensures InQueue(a + b, id) == InQueue(a, id) + InQueue(b, id)
  {
    if b == [] {
      assert a + b == a;
    } else {
      assert (a + b)[..|a + b| - 1] == a + b[..|b| - 1];
      InQueueConcat(a, b[..|b| - 1], id);
    }
  }

  lemma {:induction false} InAnswersConcat(a: seq<Answer>, b: seq<Answer>, id: nat)
    ensures InAnswers(a + b, id) == InAnswers(a, id) + InAnswers(b, id)
  {
    if b == [] {
      assert a + b == a;
    } else {
      assert (a + b)[..|a + b| - 1] == a + b[..|b| - 1];
      InAnswersConcat(a, b[..|b| - 1], id);
    }
  }

  lemma {:induction false} InQueueAppend(items: seq<Deferred>, item: Deferred, id: nat)
    ensures InQueue(items + [item], id) == InQueue(items, id) + InItem(item, id)
  {
    assert (items + [item])[..|items|] == items;
  }

  lemma {:induction false} InQueueRemove(items: seq<Deferred>, i: nat, id: nat)
    requires i < |items|
    ensures InQueue(items, id) == InQueue(items[..i] + items[i + 1..], id) + InItem(items[i], id)
  {
    assert items == (items[..i] + [items[i]]) + items[i + 1..];
    InQueueConcat(items[..i] + [items[i]], items[i + 1..], id);
    InQueueAppend(items[..i], items[i], id);
    InQueueConcat(items[..i], items[i + 1..], id);
  }

  lemma {:induction false} InQueuePop(items: seq<Deferred>, id: nat)
    requires items != []
    ensures InQueue(items, id) == InQueue(items[1..], id) + InItem(items[0], id)
  {
    InQueueRemove(items, 0, id);
    assert items[..0] + items[1..] == items[1..];
  }

  lemma {:induction false} InAnswersOne(a: Answer, id: nat)
    ensures InAnswers([a], id) == if a.id == id then 1 else 0
  {
    assert [a][..0] == [];
  }

  /** Cancelling a session moves its queued channels, and only those, to the answers. */
  lemma {:induction false} CancelMoves(items: seq<Deferred>, app: App, id: nat)
    ensures InQueue(items, id) == InQueue(Retained(items, app), id) + InAnswers(CancelAnswers(items, app), id)
  {
    if items != [] {
      var front := items[..|items| - 1];
      var last := items[|items| - 1];
      CancelMoves(front, app, id);
      if IsDecisionOf(last, app) {
        var a := Answer(last.id, Failed(RequestCancelled));
        InAnswersConcat(CancelAnswers(front, app), [a], id);
        InAnswersOne(a, id);
      } else {
        InQueueAppend(Retained(front, app), last, id);
      }
    }
  }

  lemma {:induction false} FailItemMoves(item: Deferred, reason: Reason, id: nat)
    ensures InAnswers(FailItem(item, reason), id) == InItem(item, id)
  {
    if item.Raw? && item.event.ExpectsReply() {
      InAnswersOne(FailItem(item, reason)[0], id);
      assert [FailItem(item, reason)[0]] == FailItem(item, reason);
    }
  }

  lemma {:induction false} FailItemsMoves(items: seq<Deferred>, reason: Reason, id: nat)
    ensures InAnswers(FailItems(items, reason), id) == InQueue(items, id)
  {
    if items != [] {
      var front := items[..|items| - 1];
      FailItemsMoves(front, reason, id);
      FailItemMoves(items[|items| - 1], reason, id);
      InAnswersConcat(FailItems(front, reason), FailItem(items[|items| - 1], reason), id);
    }
  }

  lemma {:induction false} FailActiveMoves(active: Active, reason: Reason, id: nat)
    ensures InAnswers(FailActive(active, reason), id) == InActive(Some(active), id)
  {
    if active.kind.Decision? {
      InAnswersOne(FailActive(active, reason)[0], id);
      assert [FailActive(active, reason)[0]] == FailActive(active, reason);
    }
  }

  // ----- What the queue and the running callback look like -----

  /** Only decisions are queued raw, each with its own event; a notification is queued already prepared. */
  ghost predicate QueueShape(items: seq<Deferred>, received: seq<Event>) {
    && |items| <= MAX_DEFERRED
    && forall i :: 0 <= i < |items| && items[i].Raw? ==>
                     items[i].event.IsDecision() && items[i].id < |received| && received[items[i].id] == items[i].event
  }

  /** A running decision is for the event of its channel, and its future yields what its kind expects. */
  ghost predicate ActiveShape(active: Option<Active>, received: seq<Event>) {
    active.Some? ==>
      && (active.value.kind.Decision? <==> active.value.future == DecisionFuture)
      && (active.value.kind.Decision? ==> DecisionShape(active.value, received))
  }

  ghost predicate DecisionShape(a: Active, received: seq<Event>)
    requires a.kind.Decision?
  {
    var id := a.kind.response.id;
    && id < |received| && received[id].IsDecision() && received[id].app == a.app
    && (a.kind.admission <==> received[id].RequestApplication?)
    && (a.kind.response.PrefetchReply? <==> received[id].PrefetchPermissions?)
    && (received[id].PrefetchPermissions? ==> a.kind.response.permissions == received[id].permissions)
  }

  ghost predicate Shape(d: Desk) {
    && QueueShape(d.deferred, d.received)
    && ActiveShape(d.active, d.received)
    && d.burst <= MAX_BURST
    && (!d.running ==> d.active.None? && d.deferred == [])
  }

  /** Exactly the decisions of the session are dropped. */
  lemma {:induction false} RetainedIsFilter(items: seq<Deferred>, app: App)
    ensures |Retained(items, app)| <= |items|
    ensures forall i :: 0 <= i < |Retained(items, app)| ==>
                          Retained(items, app)[i] in items && !IsDecisionOf(Retained(items, app)[i], app)
    ensures forall i :: 0 <= i < |items| && !IsDecisionOf(items[i], app) ==> items[i] in Retained(items, app)
  {
    if items != [] {
      RetainedIsFilter(items[..|items| - 1], app);
    }
  }

  lemma {:induction false} RetainedShape(items: seq<Deferred>, app: App, received: seq<Event>)
    requires QueueShape(items, received)
    ensures QueueShape(Retained(items, app), received)
  {
    RetainedIsFilter(items, app);
    forall i | 0 <= i < |Retained(items, app)| && Retained(items, app)[i].Raw?
      ensures var item := Retained(items, app)[i];
              item.event.IsDecision() && item.id < |received| && received[item.id] == item.event
    {
      var j :| 0 <= j < |items| && items[j] == Retained(items, app)[i];
    }
  }

  /** The queue is full and holds no decision to give up. */
  predicate Saturated(items: seq<Deferred>) {
    |items| == MAX_DEFERRED && FirstDecision(items) == |items|
  }

  /** A full queue without decisions has a notification at its front, so the saturated branch always finds one to start. */
  lemma {:induction false} SaturationYieldsNote(items: seq<Deferred>, active: Option<Active>, note: Note, received: seq<Event>)
    requires QueueShape(items, received)
    ensures var q := DeferDisconnect(items, active, note);
            && (q.next.Some? <==> Saturated(items) && !DisconnectKnown(items, active, note.app))
            && (q.next.Some? ==> items[0] == Notification(q.next.value) && q.deferred == items[1..] + [Notification(note)])
  {
  }

  lemma {:induction false} DeferDisconnectShape(items: seq<Deferred>, active: Option<Active>, note: Note, received: seq<Event>)
    requires QueueShape(items, received)
    ensures QueueShape(DeferDisconnect(items, active, note).deferred, received)
  {
  }

  lemma {:induction false} DeferDisconnectMoves(
      items: seq<Deferred>, active: Option<Active>, note: Note, received: seq<Event>, id: nat)
    requires QueueShape(items, received)
    ensures var q := DeferDisconnect(items, active, note);
            InQueue(q.deferred, id) + InAnswers(q.answers, id) == InQueue(items, id)
  {
    var added := Notification(note);
    if !DisconnectKnown(items, active, note.app) {
      var i := FirstDecision(items);
      if |items| < MAX_DEFERRED {
        InQueueAppend(items, added, id);
      } else if i < |items| {
        InQueueRemove(items, i, id);
        InQueueAppend(items[..i] + items[i + 1..], added, id);
        FailItemMoves(items[i], QueueFull, id);
      } else {
        SaturationYieldsNote(items, active, note, received);
        InQueuePop(items, id);
        InQueueAppend(items[1..], added, id);
      }
    }
  }

  // ----- The pieces of a turn conserve reply channels -----

  lemma {:induction false} SendConserves(d: Desk, answers: seq<Answer>, id: nat)
    ensures Occurrences(Send(d, answers), id) == Occurrences(d, id) + InAnswers(answers, id)
  {
    InAnswersConcat(d.answers, answers, id);
  }

  lemma {:induction false} SendOneConserves(d: Desk, a: Answer, id: nat)
    ensures Occurrences(Send(d, [a]), id) == Occurrences(d, id) + (if a.id == id then 1 else 0)
  {
    SendConserves(d, [a], id);
    InAnswersOne(a, id);
  }

  /** Opening an event on an idle dispatcher takes over its reply channel and no other. */
  lemma {:induction false} OpenConserves(d: Desk, event: Event, shown: nat, a: Advice, id: nat)
    requires d.active.None?
    ensures Occurrences(Open(d, event, shown, a), id)
         == Occurrences(d, id) + (if event.ExpectsReply() && shown == id then 1 else 0)
  {
    match event
    case AppDisconnect(_) =>
    case CancelRequest(_) => SendOneConserves(d, Answer(shown, Acknowledged), id);
    case _ =>
      if !event.RequestApplication? && !a.projects {
        SendOneConserves(d, Answer(shown, Failed(ProjectionFailed)), id);
      } else if a.granted.Failure? {
        SendOneConserves(d, Answer(shown, Failed(ReferenceFailure(a.granted.error))), id);
      }
  }

  lemma {:induction false} SweepConserves(d: Desk, app: App, id: nat)
    ensures Occurrences(Sweep(d, app), id) == Occurrences(d, id)
  {
    CancelMoves(d.deferred, app, id);
    var cancelled := CancelAnswers(d.deferred, app);
    InAnswersConcat(d.answers, cancelled, id);
    if IsDecisionFor(d.active, app) {
      FailActiveMoves(d.active.value, RequestCancelled, id);
      InAnswersConcat(d.answers + cancelled, FailActive(d.active.value, RequestCancelled), id);
    }
  }

  lemma {:induction false} OnCancelConserves(d: Desk, app: App, cancel: nat, a: Advice, id: nat)
    ensures Occurrences(OnCancel(d, app, cancel, a), id) == Occurrences(d, id) + (if cancel == id then 1 else 0)
  {
    var swept := Sweep(d, app);
    SweepConserves(d, app, id);
    SendOneConserves(swept, Answer(cancel, Acknowledged), id);
    if a.noted.Success? {
      InQueueAppend(swept.deferred, Notification(Note(app, a.noted.value, CancelNote, CancelsAdmission(d, app))), id);
    }
  }

  lemma {:induction false} QueueDisconnectConserves(d: Desk, note: Note, id: nat)
    requires QueueShape(d.deferred, d.received)
    ensures Occurrences(QueueDisconnect(d, note), id) == Occurrences(d, id)
  {
    var q := DeferDisconnect(d.deferred, d.active, note);
    DeferDisconnectMoves(d.deferred, d.active, note, d.received, id);
    InAnswersConcat(d.answers, q.answers, id);
    if q.next.Some? && d.active.Some? {
      FailActiveMoves(d.active.value, HandlerOverloaded, id);
      InAnswersConcat(d.answers + q.answers, FailActive(d.active.value, HandlerOverloaded), id);
    }
  }

  lemma {:induction false} SweepShape(d: Desk, app: App)
    requires QueueShape(d.deferred, d.received) && ActiveShape(d.active, d.received)
    ensures QueueShape(Sweep(d, app).deferred, d.received) && ActiveShape(Sweep(d, app).active, d.received)
    ensures Sweep(d, app).received == d.received && Sweep(d, app).starts == d.starts
  {
    RetainedShape(d.deferred, app, d.received);
  }

  lemma {:induction false} OnDisconnectConserves(d: Desk, app: App, a: Advice, id: nat)
    requires QueueShape(d.deferred, d.received) && ActiveShape(d.active, d.received)
    ensures Occurrences(OnDisconnect(d, app, a), id) == Occurrences(d, id)
  {
    SweepConserves(d, app, id);
    SweepShape(d, app);
    if a.noted.Success? && !IsDecisionFor(d.active, app) {
      QueueDisconnectConserves(Sweep(d, app), Note(app, a.noted.value, DisconnectNote, false), id);
    }
  }

  lemma {:induction false} OnDecisionConserves(d: Desk, event: Event, arrived: nat, id: nat)
    requires event.IsDecision()
    ensures Occurrences(OnDecision(d, event, arrived), id) == Occurrences(d, id) + (if arrived == id then 1 else 0)
  {
    InQueueAppend(d.deferred, Raw(event, arrived), id);
    FailItemMoves(Raw(event, arrived), QueueFull, id);
    SendConserves(d, FailItem(Raw(event, arrived), QueueFull), id);
  }

  lemma {:induction false} ShutConserves(d: Desk, id: nat)
    ensures Occurrences(ShutDesk(d), id) == Occurrences(d, id)
  {
    var failed := if d.active.Some? then FailActive(d.active.value, HandlerClosed) else [];
    FailItemsMoves(d.deferred, HandlerClosed, id);
    InAnswersConcat(d.answers, failed, id);
    InAnswersConcat(d.answers + failed, FailItems(d.deferred, HandlerClosed), id);
    if d.active.Some? {
      FailActiveMoves(d.active.value, HandlerClosed, id);
    }
  }

  /** The branch of `complete_kind` that would drop a response is never taken. */
  lemma {:induction false} OutcomeKindsMatch(d: Desk, t: Turn)
    requires Shape(d) && Awake(d, t) && TakesCallback(d, t)
    ensures d.active.value.kind.Decision? <==> t.ready.value.OfDecision?
    ensures forall id :: InAnswers(CompleteActive(d.active.value, t.ready.value), id) == InActive(d.active, id)
  {
    var sent := CompleteActive(d.active.value, t.ready.value);
    if d.active.value.kind.Decision? {
      forall id ensures InAnswers(sent, id) == InActive(d.active, id) {
        InAnswersOne(sent[0], id);
        assert [sent[0]] == sent;
      }
    }
  }

  lemma {:induction false} HeardFrame(d: Desk, event: Event, id: nat)
    requires QueueShape(d.deferred, d.received) && ActiveShape(d.active, d.received)
    ensures Occurrences(Heard(d, event), id) == Occurrences(d, id)
    ensures QueueShape(d.deferred, Heard(d, event).received) && ActiveShape(d.active, Heard(d, event).received)
  {
  }

  lemma {:induction false} HandleConserves(d: Desk, event: Event, a: Advice, id: nat)
    requires QueueShape(d.deferred, d.received) && ActiveShape(d.active, d.received)
    ensures Occurrences(HandleEvent(d, event, a), id)
         == Occurrences(d, id) + (if event.ExpectsReply() && id == |d.received| then 1 else 0)
  {
    var d1 := Heard(d, event);
    HeardFrame(d, event, id);
    match event
    case CancelRequest(app) => OnCancelConserves(d1, app, |d.received|, a, id);
    case AppDisconnect(app) => OnDisconnectConserves(d1, app, a, id);
    case _ => OnDecisionConserves(d1, event, |d.received|, id);
  }

  // ----- What a turn receives -----

  lemma {:induction false} QueueDisconnectFrame(d: Desk, note: Note)
    ensures var e := QueueDisconnect(d, note);
            e.received == d.received && e.running == d.running
  {
  }

  lemma {:induction false} HandleFrame(d: Desk, event: Event, a: Advice)
    ensures var e := HandleEvent(d, event, a);
            e.received == d.received + [event] && e.running == d.running
  {
    var d1 := Heard(d, event);
    if event.AppDisconnect? && a.noted.Success? {
      QueueDisconnectFrame(Sweep(d1, event.app), Note(event.app, a.noted.value, DisconnectNote, false));
    }
  }

  lemma {:induction false} StepReceives(d: Desk, t: Turn, a: Advice)
    requires Awake(d, t)
    ensures var m := MoveOf(d, t);
            var e := StepDesk(d, m, a);
            && e.received == (if m.OpenMessage? || m.Handle? then d.received + [m.event] else d.received)
            && (e.running <==> !m.Shut?)
  {
    var m := MoveOf(d, t);
    if m.Handle? {
      HandleFrame(d, m.event, a);
    }
  }

  /** The turn receives the event of arrival number `next`, and it carries the channel `id`. */
  predicate TakesChannel(m: Move, id: nat, next: nat) {
    (m.OpenMessage? || m.Handle?) && m.event.ExpectsReply() && id == next
  }

  lemma {:induction false} StepConserves(d: Desk, t: Turn, a: Advice, id: nat)
    requires Shape(d) && Awake(d, t)
    ensures Occurrences(StepDesk(d, MoveOf(d, t), a), id)
         == Occurrences(d, id) + (if TakesChannel(MoveOf(d, t), id, |d.received|) then 1 else 0)
  {
    var m := MoveOf(d, t);
    match m
    case Complete(outcome) =>
      OutcomeKindsMatch(d, t);
      SendConserves(d, CompleteActive(d.active.value, outcome), id);
    case StartQueued(note) => InQueuePop(d.deferred, id);
    case OpenQueued(event, shown) =>
      InQueuePop(d.deferred, id);
      OpenConserves(d.(deferred := d.deferred[1..]), event, shown, a, id);
    case OpenMessage(event) => OpenConserves(Received(d, event), event, |d.received|, a, id);
    case Handle(event) => HandleConserves(d, event, a, id);
    case Shut => ShutConserves(d, id);
    case Wait =>
  }

  /** Conservation: a turn neither loses nor duplicates a reply channel. */
  lemma {:induction false} StepKeepsBalance(d: Desk, t: Turn, a: Advice)
    requires Shape(d) && Balanced(d) && Awake(d, t)
    ensures Balanced(StepDesk(d, MoveOf(d, t), a))
  {
    var e := StepDesk(d, MoveOf(d, t), a);
    StepReceives(d, t, a);
    forall id: nat ensures Occurrences(e, id) == if Owed(e.received, id) then 1 else 0 {
      StepConserves(d, t, a, id);
      assert Occurrences(d, id) == if Owed(d.received, id) then 1 else 0;
    }
  }

  // ----- A turn keeps the shape -----

  lemma {:induction false} OpenKeepsShape(d: Desk, event: Event, id: nat, a: Advice)
    requires Shape(d) && d.running && d.active.None? && id < |d.received| && d.received[id] == event
    ensures Shape(Open(d, event, id, a))
  {
  }

  lemma {:induction false} QueueDisconnectKeepsShape(d: Desk, note: Note)
    requires Shape(d) && d.running
    ensures Shape(QueueDisconnect(d, note))
  {
    DeferDisconnectShape(d.deferred, d.active, note, d.received);
  }

  lemma {:induction false} HandleKeepsShape(d: Desk, event: Event, a: Advice)
    requires Shape(d) && d.running && d.active.Some?
    ensures Shape(HandleEvent(d, event, a))
  {
    var d1 := Heard(d, event);
    HeardFrame(d, event, 0);
    if event.CancelRequest? {
      SweepShape(d1, event.app);
    } else if event.AppDisconnect? {
      SweepShape(d1, event.app);
      if a.noted.Success? && !IsDecisionFor(d1.active, event.app) {
        QueueDisconnectKeepsShape(Sweep(d1, event.app), Note(event.app, a.noted.value, DisconnectNote, false));
      }
    }
  }

  /** The queue invariant: at most 64 items, no raw cancel or disconnect, a future of the right type, a bounded burst. */
  lemma {:induction false} StepKeepsShape(d: Desk, t: Turn, a: Advice)
    requires Shape(d) && Awake(d, t)
    ensures Shape(StepDesk(d, MoveOf(d, t), a))
  {
    var m := MoveOf(d, t);
    match m
    case Complete(_) =>
    case StartQueued(_) =>
    case OpenQueued(event, id) => OpenKeepsShape(d.(deferred := d.deferred[1..]), event, id, a);
    case OpenMessage(event) => OpenKeepsShape(Received(d, event), event, |d.received|, a);
    case Handle(event) => HandleKeepsShape(d, event, a);
    case Shut =>
    case Wait =>
  }
}
