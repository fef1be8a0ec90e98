/** The dispatcher as it is written: an object whose loop pops, pushes and starts callbacks in place. */
module DispatcherLoop {
  import opened Common
  import opened Registry
  import Payload
  import opened Dispatcher
  import opened DispatcherLedger
  import opened DispatcherAuthority
  import opened DispatcherRuns
  import DispatcherReplies

  class XswdHandler {
    const registry: SessionRegistry
    const limits: Payload.Limits
    var running: bool
    var deferred: seq<Deferred>
    var active: Option<Active>
    var burst: nat
    var observed: seq<App>
    var received: seq<Event>
    var answers: seq<Answer>
    var starts: seq<Start>
    ghost var revoked: set<App>

    constructor (registry: SessionRegistry, limits: Payload.Limits)
      ensures this.registry == registry
      ensures View() == Initial(registry.View(), limits)
    {
      this.registry, this.limits := registry, limits;
      running, deferred, active, burst, observed := true, [], None, 0, [];
      received, answers, starts, revoked := [], [], [], {};
    }

    function Record(): Desk
      reads this
    {
      Desk(running, deferred, active, burst, received, answers, starts)
    }

    ghost function Rights(): Authority
      reads this, registry
    {
      Authority(registry.View(), revoked)
    }

    ghost function View(): State
      reads this, registry
    {
      State(Record(), observed, registry.View(), limits, revoked)
    }

    // ----- The helpers with loops -----

    /** `cancel_deferred_xswd_decisions` */
    method CancelDeferred(app: App) returns (cancelledAdmission: bool)
      modifies this`deferred, this`answers
      ensures deferred == Retained(old(deferred), app)
      ensures answers == old(answers) + CancelAnswers(old(deferred), app)
      ensures cancelledAdmission <==> HoldsAdmission(old(deferred), app)
    {
      cancelledAdmission := false;
      var retained := [];
      ghost var i := 0;
      while deferred != []
        invariant i <= |old(deferred)| && deferred == old(deferred)[i..]
        invariant retained == Retained(old(deferred)[..i], app)
        invariant answers == old(answers) + CancelAnswers(old(deferred)[..i], app)
        invariant cancelledAdmission <==> HoldsAdmission(old(deferred)[..i], app)
        decreases |deferred|
      {
        var item := deferred[0];
        assert old(deferred)[..i + 1][..i] == old(deferred)[..i];
        deferred := deferred[1..];
        if IsDecisionOf(item, app) {
          if item.event.RequestApplication? {
            cancelledAdmission := true;
          }
          answers := answers + [Answer(item.id, Failed(RequestCancelled))];
        } else {
          retained := retained + [item];
        }
        i := i + 1;
      }
      assert old(deferred)[..i] == old(deferred);
      deferred := retained;
    }

    /** `fail_deferred_xswd_events` */
    method FailDeferred(reason: Reason)
      modifies this`deferred, this`answers
      ensures deferred == [] && answers == old(answers) + FailItems(old(deferred), reason)
    {
      ghost var i := 0;
      while deferred != []
        invariant i <= |old(deferred)| && deferred == old(deferred)[i..]
        invariant answers == old(answers) + FailItems(old(deferred)[..i], reason)
        decreases |deferred|
      {
        assert old(deferred)[..i + 1][..i] == old(deferred)[..i];
        answers := answers + FailItem(deferred[0], reason);
        deferred := deferred[1..];
        i := i + 1;
      }
      assert old(deferred)[..i] == old(deferred);
    }

    /** `defer_xswd_disconnect` */
    method DeferDisconnectNote(note: Note) returns (next: Option<Note>)
      modifies this`deferred, this`answers
      ensures var q := DeferDisconnect(old(deferred), active, note);
              deferred == q.deferred && answers == old(answers) + q.answers && next == q.next
    {
      next := None;
      if DisconnectKnown(deferred, active, note.app) {
        return;
      }
      if |deferred| >= MAX_DEFERRED {
        var i := FirstDecision(deferred);
        if i < |deferred| {
          var item := deferred[i];
          deferred := deferred[..i] + deferred[i + 1..];
          answers := answers + FailItem(item, QueueFull);
        } else {
          var front := deferred[0];
          next := if front.Notification? then Some(front.note) else None;
          deferred := deferred[1..] + [Notification(note)];
          return;
        }
      }
      if |deferred| < MAX_DEFERRED {
        deferred := deferred + [Notification(note)];
      }
    }

    /** `invalidate_observed_xswd_states` */
    method InvalidateObserved(ops: seq<Op>)
      requires Upheld(Rights())
      modifies registry, this`revoked
      ensures Rights() == RevokeAll(Interleaved(old(Rights()), ops), Living(observed, ApplyAll(old(registry.View()), ops).dead))
    {
      InterleavedUpholds(Rights(), ops);
      registry.Interleave(ops);
      ghost var start := Rights();
      var states := Living(observed, registry.dead);
      LivingIsFilter(observed, registry.dead);
      for i := 0 to |states|
        invariant Rights() == RevokeAll(start, states[..i])
        invariant Valid(registry.View())
      {
        assert states[..i + 1][..i] == states[..i];
        registry.InvalidateState(states[i]);
        revoked := revoked + {states[i]};
      }
      assert states[..|states|] == states;
    }

    // ----- Callbacks -----

    method StartNotification(note: Note)
      modifies this`active, this`burst, this`starts
      ensures Record() == BeginNote(old(Record()), note)
    {
      active, burst := Some(Active(note.app, Notify(note.kind), NotificationFuture)), 0;
      starts := starts + [StartNote(note)];
    }

    method StartDecisionCallback(event: Event, id: nat)
      requires event.IsDecision()
      modifies this`active, this`burst, this`starts
      ensures Record() == BeginDecision(old(Record()), event, id)
    {
      active, burst := Some(Active(event.app, Decision(ResponseFor(event, id), event.RequestApplication?), DecisionFuture)), 0;
      starts := starts + [Start.StartDecision(id)];
    }

    // ----- Opening an event while idle -----

    method RegisterAndShow(event: Event, id: nat, ops: seq<Op>)
      requires event.IsDecision() && Valid(registry.View()) && PayloadProjects(event, limits)
      modifies this`active, this`burst, this`starts, this`answers, registry
      ensures var before := ApplyAll(old(registry.View()), ops);
              && Record() == Open(old(Record()), event, id, AdviceFor(before, event, limits))
              && registry.View() == Project(before, event.app)
    {
      registry.Interleave(ops);
      var reference := registry.Register(event.app);
      match reference {
        case Success(_) => StartDecisionCallback(event, id);
        case Failure(e) => answers := answers + [Answer(id, Failed(ReferenceFailure(e)))];
      }
    }

    method OpenRequest(event: Event, id: nat, ops: seq<Op>)
      requires event.IsDecision() && Valid(registry.View()) && Payload.NativeLimits(limits)
      modifies this`active, this`burst, this`starts, this`answers, registry
      ensures var before := ApplyAll(old(registry.View()), ops);
              && Record() == Open(old(Record()), event, id, AdviceFor(before, event, limits))
              && registry.View() == if PayloadProjects(event, limits) then Project(before, event.app) else old(registry.View())
    {
      if event.RequestApplication? {
        RegisterAndShow(event, id, ops);
      } else {
        var payload := Payload.ProjectPayload(event.payload, limits);
        if payload.Success? {
          RegisterAndShow(event, id, ops);
        } else {
          answers := answers + [Answer(id, Failed(ProjectionFailed))];
        }
      }
    }

    method ProjectAndNotify(app: App, kind: NoteKind, ops: seq<Op>)
      requires Valid(registry.View())
      modifies this`active, this`burst, this`starts, registry
      ensures var before := ApplyAll(old(registry.View()), ops);
              && (forall a: Advice :: a.noted == ProjectResult(before, app) ==> Record() == OpenNote(old(Record()), app, kind, a))
              && registry.View() == Project(before, app)
    {
      registry.Interleave(ops);
      var reference := registry.ProjectState(app);
      if reference.Success? {
        StartNotification(Note(app, reference.value, kind, false));
      }
    }

    method OpenLifecycle(event: Event, id: nat, t: Turn)
      requires !event.IsDecision() && Valid(registry.View())
      modifies this`active, this`burst, this`starts, this`answers, this`revoked, registry
      ensures var a := Interleaved(OpenAccess(old(Rights()), event, t), if event.AppDisconnect? then t.middle else t.before);
              && Record() == Open(old(Record()), event, id, AdviceFor(a.registry, event, limits))
              && Rights() == Projected(a, event.app)
    {
      match event {
        case CancelRequest(app) =>
          answers := answers + [Answer(id, Acknowledged)];
          ProjectAndNotify(app, CancelNote, t.before);
        case AppDisconnect(app) =>
          registry.Interleave(t.before);
          registry.InvalidateState(app);
          revoked := revoked + {app};
          ProjectAndNotify(app, DisconnectNote, t.middle);
      }
    }

    // ----- Handling an event while a callback runs -----

    method FailCallback(reason: Reason)
      requires active.Some?
      modifies this`active, this`answers
      ensures active == None && answers == old(answers) + FailActive(old(active).value, reason)
    {
      if active.value.kind.Decision? {
        answers := answers + [Answer(active.value.kind.response.id, Failed(reason))];
      }
      active := None;
    }

    /** The session's pending decisions are cancelled; if one was an admission, its authority is revoked. */
    method CancelPending(app: App, ops: seq<Op>) returns (admission: bool)
      requires Valid(registry.View()) && active.Some?
      modifies this`deferred, this`active, this`answers, this`revoked, registry
      ensures Record() == Sweep(old(Record()), app) && admission == CancelsAdmission(old(Record()), app)
      ensures Rights() == if admission then Revoke(Interleaved(old(Rights()), ops), app) else old(Rights())
      ensures Valid(registry.View())
    {
      var cancelledDeferred := CancelDeferred(app);
      var cancelsActive := IsDecisionFor(active, app);
      admission := cancelledDeferred || (cancelsActive && IsAdmission(active));
      if admission {
        registry.Interleave(ops);
        registry.InvalidateState(app);
        revoked := revoked + {app};
      }
      if cancelsActive {
        FailCallback(RequestCancelled);
      }
    }

    method HandleCancel(app: App, id: nat, t: Turn)
      requires Valid(registry.View()) && active.Some?
      modifies this`deferred, this`active, this`burst, this`starts, this`answers, this`revoked, registry
      ensures var first := if CancelsAdmission(old(Record()), app)
              then Revoke(Interleaved(old(Rights()), t.before), app) else old(Rights());
              var a := Interleaved(first, t.middle);
              && (forall advice: Advice :: advice.noted == ProjectResult(a.registry, app) ==>
                                             Record() == OnCancel(old(Record()), app, id, advice))
              && Rights() == Projected(a, app)
    {
      var cancelsActive := IsDecisionFor(active, app);
      var cancelledAdmission := CancelPending(app, t.before);
      answers := answers + [Answer(id, Acknowledged)];
      registry.Interleave(t.middle);
      var reference := registry.ProjectState(app);
      if reference.Success? {
        var note := Note(app, reference.value, CancelNote, cancelledAdmission);
        if cancelsActive {
          StartNotification(note);
        } else if |deferred| < MAX_DEFERRED {
          deferred := deferred + [Notification(note)];
        }
      }
    }

    /** Queues a disconnect notification, replacing the running callback when the queue is saturated. */
    method QueueDisconnectNote(note: Note, ops: seq<Op>)
      requires Valid(registry.View()) && active.Some?
      modifies this`deferred, this`active, this`burst, this`starts, this`answers, this`revoked, registry
      ensures Record() == QueueDisconnect(old(Record()), note)
      ensures Rights() == if IsAdmission(old(active)) && DeferDisconnect(old(deferred), old(active), note).next.Some?
                          then Revoke(Interleaved(old(Rights()), ops), old(active).value.app) else old(Rights())
    {
      var next := DeferDisconnectNote(note);
      if next.Some? {
        if IsAdmission(active) {
          registry.Interleave(ops);
          registry.InvalidateState(active.value.app);
          revoked := revoked + {active.value.app};
        }
        FailCallback(HandlerOverloaded);
        StartNotification(next.value);
      }
    }

    method HandleDisconnect(app: App, t: Turn)
      requires Valid(registry.View()) && active.Some?
      modifies this`deferred, this`active, this`burst, this`starts, this`answers, this`revoked, registry
      ensures var a := Interleaved(Revoke(Interleaved(old(Rights()), t.before), app), t.middle);
              var noted := ProjectResult(a.registry, app);
              && (forall advice: Advice :: advice.noted == noted ==> Record() == OnDisconnect(old(Record()), app, advice))
              && (forall advice: Advice :: advice.noted == noted ==>
                    Rights() == if OverloadsAdmission(old(Record()), app, advice)
                                then Revoke(Interleaved(Projected(a, app), t.late), old(active).value.app) else Projected(a, app))
    {
      var _ := CancelDeferred(app);
      var disconnectsActive := IsDecisionFor(active, app);
      registry.Interleave(t.before);
      registry.InvalidateState(app);
      revoked := revoked + {app};
      if disconnectsActive {
        FailCallback(RequestCancelled);
      }
      registry.Interleave(t.middle);
      var reference := registry.ProjectState(app);
      if reference.Success? {
        var note := Note(app, reference.value, DisconnectNote, false);
        if disconnectsActive {
          StartNotification(note);
        } else {
          QueueDisconnectNote(note, t.late);
        }
      }
    }

    /** `defer_xswd_decision` */
    method DeferDecision(event: Event, id: nat)
      requires event.IsDecision()
      modifies this`deferred, this`answers
      ensures Record() == OnDecision(old(Record()), event, id)
    {
      if |deferred| < MAX_DEFERRED {
        deferred := deferred + [Raw(event, id)];
      } else {
        answers := answers + [Answer(id, Failed(QueueFull))];
      }
    }

    // ----- The loop -----

    method ReceiveEvent(event: Event)
      modifies this`received, this`observed
      ensures Record() == Received(old(Record()), event) && observed == Track(old(observed), registry.dead, event.app)
    {
      received := received + [event];
      var live := Living(observed, registry.dead);
      observed := if event.app in live then live else live + [event.app];
    }

    method OpenEvent(event: Event, id: nat, t: Turn)
      requires Valid(registry.View()) && Payload.NativeLimits(limits)
      modifies this`active, this`burst, this`starts, this`answers, this`revoked, registry
      ensures var a := Interleaved(OpenAccess(old(Rights()), event, t), if event.AppDisconnect? then t.middle else t.before);
              && Record() == Open(old(Record()), event, id, AdviceFor(a.registry, event, limits))
              && Rights() == if PayloadProjects(event, limits) then Projected(a, event.app) else old(Rights())
    {
      if event.IsDecision() {
        OpenRequest(event, id, t.before);
      } else {
        OpenLifecycle(event, id, t);
      }
    }

    /** The running callback fails first, then everything queued in order; the loop is left. */
    method FailPending()
      modifies this`deferred, this`active, this`answers, this`running
      ensures Record() == ShutDesk(old(Record()))
    {
      if active.Some? {
        FailCallback(HandlerClosed);
      }
      FailDeferred(HandlerClosed);
      running := false;
    }

    /** Channel closed: revoke what was observed, fail what is pending, leave the loop. */
    method CloseDown(ops: seq<Op>)
      requires Upheld(Rights())
      modifies this`deferred, this`active, this`answers, this`revoked, this`running, registry
      ensures Record() == ShutDesk(old(Record()))
      ensures Rights() == RevokeAll(Interleaved(old(Rights()), ops), Living(observed, ApplyAll(old(registry.View()), ops).dead))
    {
      InvalidateObserved(ops);
      FailPending();
    }

    method IterateQueued(t: Turn)
      requires Inv(View()) && Enabled(View(), t) && Payload.NativeLimits(limits) && active.None? && deferred != []
      modifies this, registry
      ensures View() == Step(old(View()), t)
    {
      var item := deferred[0];
      deferred := deferred[1..];
      match item {
        case Raw(event, id) => OpenEvent(event, id, t);
        case Notification(note) => StartNotification(note);
      }
    }

    method IterateReceived(event: Event, t: Turn)
      requires Inv(View()) && Enabled(View(), t) && Payload.NativeLimits(limits)
      requires active.None? && deferred == [] && t.channel == Message(event)
      modifies this, registry
      ensures View() == Step(old(View()), t)
    {
      ReceiveEvent(event);
      OpenEvent(event, |received| - 1, t);
    }

    method IterateIdle(t: Turn)
      requires Inv(View()) && Enabled(View(), t) && Payload.NativeLimits(limits) && active.None?
      modifies this, registry
      ensures View() == Step(old(View()), t)
    {
      if deferred != [] {
        IterateQueued(t);
      } else {
        match t.channel {
          case Message(event) => IterateReceived(event, t);
          case Closed => CloseDown(t.before);
        }
      }
    }

    method HearEvent(event: Event)
      modifies this`received, this`observed, this`burst
      ensures Record() == Heard(old(Record()), event) && observed == Track(old(observed), registry.dead, event.app)
    {
      ReceiveEvent(event);
      burst := (if burst >= MAX_BURST then 0 else burst) + 1;
    }

    method HandleCancelMessage(app: App, t: Turn)
      requires Valid(registry.View()) && active.Some?
      modifies this, registry
      ensures var s := old(View());
              var n := View();
              && n.desk == HandleEvent(s.desk, CancelRequest(app), AdviceOf(s, Handle(CancelRequest(app)), t))
              && n.observed == Track(s.observed, s.registry.dead, CancelRequest(app).app)
              && Rights() == AuthorityAfter(s, Handle(CancelRequest(app)), t)
    {
      HearEvent(CancelRequest(app));
      HandleCancel(app, |received| - 1, t);
    }

    method HandleDisconnectMessage(app: App, t: Turn)
      requires Valid(registry.View()) && active.Some?
      modifies this, registry
      ensures var s := old(View());
              var n := View();
              && n.desk == HandleEvent(s.desk, AppDisconnect(app), AdviceOf(s, Handle(AppDisconnect(app)), t))
              && n.observed == Track(s.observed, s.registry.dead, AppDisconnect(app).app)
              && Rights() == AuthorityAfter(s, Handle(AppDisconnect(app)), t)
    {
      HearEvent(AppDisconnect(app));
      HandleDisconnect(app, t);
    }

    method HandleDecisionMessage(event: Event, t: Turn)
      requires event.IsDecision()
      requires Valid(registry.View()) && active.Some?
      modifies this, registry
      ensures var s := old(View());
              var n := View();
              && n.desk == HandleEvent(s.desk, event, AdviceOf(s, Handle(event), t))
              && n.observed == Track(s.observed, s.registry.dead, event.app)
              && Rights() == AuthorityAfter(s, Handle(event), t)
    {
      HearEvent(event);
      DeferDecision(event, |received| - 1);
    }

    method HandleMessage(event: Event, t: Turn)
      requires Valid(registry.View()) && active.Some?
      modifies this, registry
      ensures var s := old(View());
              var n := View();
              && n.desk == HandleEvent(s.desk, event, AdviceOf(s, Handle(event), t))
              && n.observed == Track(s.observed, s.registry.dead, event.app)
              && Rights() == AuthorityAfter(s, Handle(event), t)
    {
      match event {
        case CancelRequest(app) => HandleCancelMessage(app, t);
        case AppDisconnect(app) => HandleDisconnectMessage(app, t);
        case _ => HandleDecisionMessage(event, t);
      }
    }

    /** `complete_kind` on the running callback. */
    method CompleteCallback(outcome: Outcome)
      requires active.Some?
      modifies this`active, this`burst, this`answers
      ensures Record() == StepDesk(old(Record()), Complete(outcome), Advice(false, Failure(Invalid), Failure(Invalid)))
      ensures old(active.value.kind.Decision?) && outcome.OfDecision? && DecisionShape(old(active.value), received) ==>
                var response := old(active.value.kind.response);
                && |answers| == |old(answers)| + 1 && answers[..|old(answers)|] == old(answers)
                && answers[|old(answers)|].id == response.id
                && DispatcherReplies.Tells(received[response.id], outcome.decision, answers[|old(answers)|].reply)
    {
      burst := 0;
      if active.value.kind.Decision? && outcome.OfDecision? && DecisionShape(active.value, received) {
        DispatcherReplies.ReplyTells(active.value, received, outcome.decision);
      }
      if active.value.kind.Decision? && outcome.OfDecision? {
        var response := active.value.kind.response;
        answers := answers + [Answer(response.id, DecisionReply(response, outcome.decision))];
      }
      active := None;
    }

    method IterateBusy(t: Turn)
      requires Inv(View()) && Enabled(View(), t) && active.Some?
      modifies this, registry
      ensures View() == Step(old(View()), t)
    {
      if t.ready.Some? && (burst >= MAX_BURST || t.channel.Empty?) {
        CompleteCallback(t.ready.value);
      } else {
        match t.channel {
          case Message(event) => HandleMessage(event, t);
          case Closed => CloseDown(t.before);
        }
      }
    }

    /** One iteration of the loop is one step of the machine. */
    method Iterate(t: Turn)
      requires Inv(View()) && Enabled(View(), t) && Payload.NativeLimits(limits)
      modifies this, registry
      ensures View() == Step(old(View()), t) && Inv(View())
    {
      StepKeepsInv(View(), t);
      if active.None? {
        IterateIdle(t);
      } else {
        IterateBusy(t);
      }
    }

    /** The loop itself: fed with the turns of a run it goes through that run's states. */
    method Loop(turns: seq<Turn>, ghost states: seq<State>)
      requires Run(states, turns) && View() == states[0] && Payload.NativeLimits(limits)
      modifies this, registry
      ensures View() == states[|turns|]
    {
      RunInv(states, turns, 0);
      for i := 0 to |turns|
        invariant View() == states[i] && Inv(View())
      {
        Iterate(turns[i]);
      }
    }
  }
}
