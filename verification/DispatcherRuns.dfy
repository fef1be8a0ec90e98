/** What holds of every run of the dispatcher, for every event stream and all interference on the registry. */
module DispatcherRuns {
  import opened Common
  import opened Registry
  import opened Dispatcher
  import opened DispatcherLedger
  import opened DispatcherAuthority
  import opened DispatcherOrder

  /** Every live session an event came from is remembered; once the channel closed, it is revoked. */
  ghost predicate Remembered(s: State) {
    forall i :: 0 <= i < |s.desk.received| ==>
                  var app := s.desk.received[i].app;
                  app in s.registry.dead || (if s.desk.running then app in s.observed else app in s.revoked)
  }

  ghost predicate Inv(s: State) {
    && Shape(s.desk)
    && Balanced(s.desk)
    && Upheld(Authority(s.registry, s.revoked))
    && HeldAlive(s.desk, s.registry.dead)
    && DispatcherAuthority.Granted(s)
    && Ordered(s.desk)
    && Disconnects(s.desk, s.revoked)
    && Remembered(s)
  }

  lemma {:induction false} StepKeepsRemembered(s: State, t: Turn)
    requires Inv(s) && Enabled(s, t)
    ensures Remembered(Step(s, t))
  {
    var m := MoveOf(s.desk, t);
    var n := Step(s, t);
    StepReceives(s.desk, t, AdviceOf(s, m, t));
    AuthorityAfterUpholds(s, t);
    LivingIsFilter(s.observed, s.registry.dead);
    if m.Shut? {
      ShutUpholds(s, t);
    }
  }

  /** The invariant is inductive. */
  lemma {:induction false} StepKeepsInv(s: State, t: Turn)
    requires Inv(s) && Enabled(s, t)
    ensures Inv(Step(s, t))
  {
    var a := AdviceOf(s, MoveOf(s.desk, t), t);
    StepKeepsShape(s.desk, t, a);
    StepKeepsBalance(s.desk, t, a);
    AuthorityAfterUpholds(s, t);
    StepKeepsHeldAlive(s, t);
    StepKeepsGranted(s, t);
    StepKeepsOrdered(s.desk, t, a);
    StepKeepsDisconnects(s, t);
    StepKeepsRemembered(s, t);
  }

  lemma {:induction false} RunInv(states: seq<State>, turns: seq<Turn>, i: nat)
    requires Run(states, turns) && i < |states|
    ensures Inv(states[i])
  {
    if i == 0 {
      assert states[0].desk == Desk(true, [], None, 0, [], [], []);
    } else {
      RunInv(states, turns, i - 1);
      StepKeepsInv(states[i - 1], turns[i - 1]);
    }
  }

  lemma {:induction false} DistinctNames(names: seq<string>)
    ensures forall name :: name in Distinct(names) <==> name in names
    ensures forall i, j :: 0 <= i < j < |Distinct(names)| ==> Distinct(names)[i] != Distinct(names)[j]
  {
    if names != [] {
      DistinctNames(names[..|names| - 1]);
      assert names == names[..|names| - 1] + [names[|names| - 1]];
    }
  }

  /**
   Only the user grants: a completed decision is answered with authority exactly when the user accepted, and a prefetch
   grants the requested names, each once, and no other.
   */
  lemma {:induction false} UserDecides(response: PendingResponse, outcome: DecisionOutcome)
    ensures Accepting(DecisionReply(response, outcome)) <==>
            (outcome.Accept? || outcome.AlwaysAccept?) && (response.PrefetchReply? ==> response.permissions != [])
    ensures outcome.InvalidPayload? || outcome.Timeout? || outcome.Exception? ==>
              DecisionReply(response, outcome) == Failed(CallbackFailed(outcome))
    ensures outcome.Accept? || outcome.AlwaysAccept? || outcome.Reject? || outcome.AlwaysReject? ==>
              if response.PermissionReply? then DecisionReply(response, outcome) == Permission(outcome)
              else DecisionReply(response, outcome).Granted?
    ensures response.PrefetchReply? && Accepting(DecisionReply(response, outcome)) ==>
              var granted := DecisionReply(response, outcome).permissions;
              && (forall name :: name in granted <==> name in response.permissions)
              && (forall i, j :: 0 <= i < j < |granted| ==> granted[i] != granted[j])
  {
    if response.PrefetchReply? {
      DistinctNames(response.permissions);
      assert response.permissions != [] ==> response.permissions[0] in Distinct(response.permissions);
    }
  }

  // ----- Exactly one answer -----

  /**
   In every state of every run, a request is waiting in exactly one place or was answered exactly once, never both;
   after the loop has ended it was answered exactly once.
   */
  lemma {:induction false} AnsweredExactlyOnce(states: seq<State>, turns: seq<Turn>, i: nat, id: nat)
    requires Run(states, turns) && i < |states|
    ensures var d := states[i].desk;
            if Owed(d.received, id) then
              Pending(d, id) + InAnswers(d.answers, id) == 1 && (!d.running ==> InAnswers(d.answers, id) == 1)
            else Pending(d, id) == 0 && InAnswers(d.answers, id) == 0
  {
    RunInv(states, turns, i);
    var d := states[i].desk;
    assert Occurrences(d, id) == if Owed(d.received, id) then 1 else 0;
    if !d.running {
      assert InQueue([], id) == 0;
    }
  }

  // ----- No authority after revocation -----

  ghost predicate Refusing(answers: seq<Answer>) {
    forall k :: 0 <= k < |answers| ==> !Accepting(answers[k].reply)
  }

  lemma {:induction false} CancelAnswersRefuse(items: seq<Deferred>, app: App)
    ensures Refusing(CancelAnswers(items, app))
  {
    if items != [] {
      CancelAnswersRefuse(items[..|items| - 1], app);
    }
  }

  lemma {:induction false} FailItemsRefuse(items: seq<Deferred>, reason: Reason)
    ensures Refusing(FailItems(items, reason))
  {
    if items != [] {
      FailItemsRefuse(items[..|items| - 1], reason);
    }
  }

  /** The turn only adds answers, and none of them grants authority. */
  ghost predicate AddsRefusals(before: seq<Answer>, after: seq<Answer>) {
    before <= after && Refusing(after[|before|..])
  }

  lemma {:induction false} SweepRefuses(d: Desk, app: App)
    ensures AddsRefusals(d.answers, Sweep(d, app).answers)
  {
    CancelAnswersRefuse(d.deferred, app);
  }

  lemma {:induction false} QueueDisconnectRefuses(d: Desk, note: Note)
    ensures AddsRefusals(d.answers, QueueDisconnect(d, note).answers)
  {
  }

  lemma {:induction false} AddsRefusalsTrans(a: seq<Answer>, b: seq<Answer>, c: seq<Answer>)
    requires AddsRefusals(a, b) && AddsRefusals(b, c)
    ensures AddsRefusals(a, c)
  {
    forall k | 0 <= k < |c[|a|..]| ensures !Accepting(c[|a|..][k].reply) {
      if k < |b| - |a| {
        assert c[|a|..][k] == b[|a|..][k];
      } else {
        assert c[|a|..][k] == c[|b|..][k - (|b| - |a|)];
      }
    }
  }

  lemma {:induction false} HandleRefuses(d: Desk, event: Event, a: Advice)
    ensures AddsRefusals(d.answers, HandleEvent(d, event, a).answers)
  {
    var h := Heard(d, event);
    if !event.IsDecision() {
      SweepRefuses(h, event.app);
      var swept := Sweep(h, event.app);
      if event.CancelRequest? {
        AddsRefusalsTrans(h.answers, swept.answers, swept.answers + [Answer(|d.received|, Acknowledged)]);
      } else if a.noted.Success? && !IsDecisionFor(h.active, event.app) {
        var note := Note(event.app, a.noted.value, DisconnectNote, false);
        QueueDisconnectRefuses(swept, note);
        AddsRefusalsTrans(h.answers, swept.answers, QueueDisconnect(swept, note).answers);
      }
    }
  }

  /** Only the completion of the running decision can grant authority. */
  lemma {:induction false} StepAnswers(d: Desk, t: Turn, a: Advice)
    requires Awake(d, t)
    ensures var e := StepDesk(d, MoveOf(d, t), a);
            && d.answers <= e.answers
            && (MoveOf(d, t).Complete? || AddsRefusals(d.answers, e.answers))
            && (MoveOf(d, t).Complete? ==> forall k :: |d.answers| <= k < |e.answers| ==>
                  d.active.value.kind.Decision? && e.answers[k].id == d.active.value.kind.response.id)
  {
    var m := MoveOf(d, t);
    if m.Handle? {
      HandleRefuses(d, m.event, a);
    } else if m.Shut? {
      FailItemsRefuse(d.deferred, HandlerClosed);
    }
  }

  /** A turn never grants authority to a session revoked before it. */
  lemma {:induction false} StepGrantsNothingRevoked(s: State, t: Turn, k: nat)
    requires Inv(s) && Enabled(s, t)
    requires |s.desk.answers| <= k < |Step(s, t).desk.answers|
    requires Accepting(Step(s, t).desk.answers[k].reply)
    ensures var id := Step(s, t).desk.answers[k].id;
            id < |s.desk.received| && s.desk.received[id].app !in s.revoked
  {
    var a := AdviceOf(s, MoveOf(s.desk, t), t);
    var e := StepDesk(s.desk, MoveOf(s.desk, t), a);
    StepAnswers(s.desk, t, a);
    assert e.answers[|s.desk.answers|..][k - |s.desk.answers|] == e.answers[k];
  }

  /** What relates two successive states: the records grow, and a new grant is for a session not revoked before. */
  ghost predicate Progress(s: State, n: State) {
    && s.revoked <= n.revoked
    && s.desk.received <= n.desk.received
    && s.desk.answers <= n.desk.answers
    && (forall k :: 0 <= k < |n.desk.answers| ==> n.desk.answers[k].id < |n.desk.received|)
    && (forall k :: |s.desk.answers| <= k < |n.desk.answers| && Accepting(n.desk.answers[k].reply) ==>
                      var id := n.desk.answers[k].id;
                      id < |s.desk.received| && s.desk.received[id].app !in s.revoked)
  }

  lemma {:induction false} StepProgress(s: State, t: Turn)
    requires Inv(s) && Enabled(s, t)
    ensures Progress(s, Step(s, t))
  {
    var n := Step(s, t);
    AuthorityAfterUpholds(s, t);
    StepReceives(s.desk, t, AdviceOf(s, MoveOf(s.desk, t), t));
    StepAnswers(s.desk, t, AdviceOf(s, MoveOf(s.desk, t), t));
    StepKeepsInv(s, t);
    forall k | 0 <= k < |n.desk.answers| ensures n.desk.answers[k].id < |n.desk.received| {
      AnsweredIdsReceived(n.desk, k);
    }
    forall k | |s.desk.answers| <= k < |n.desk.answers| && Accepting(n.desk.answers[k].reply)
      ensures var id := n.desk.answers[k].id; id < |s.desk.received| && s.desk.received[id].app !in s.revoked
    {
      StepGrantsNothingRevoked(s, t, k);
    }
  }

  lemma {:induction false} RunProgress(states: seq<State>, turns: seq<Turn>)
    requires Run(states, turns)
    ensures forall i :: 0 <= i < |states| - 1 ==> Progress(states[i], states[i + 1])
    ensures forall k :: 0 <= k < |states[0].desk.answers| ==> states[0].desk.answers[k].id < |states[0].desk.received|
  {
    forall i | 0 <= i < |states| - 1 ensures Progress(states[i], states[i + 1]) {
      RunInv(states, turns, i);
      StepProgress(states[i], turns[i]);
    }
  }

  lemma {:induction false} ProgressGrows(states: seq<State>, i: nat, j: nat)
    requires forall k :: 0 <= k < |states| - 1 ==> Progress(states[k], states[k + 1])
    requires i <= j < |states|
    ensures states[i].revoked <= states[j].revoked
    ensures states[i].desk.received <= states[j].desk.received
    ensures states[i].desk.answers <= states[j].desk.answers
    decreases j
  {
    if i < j {
      ProgressGrows(states, i, j - 1);
      assert Progress(states[j - 1], states[j - 1 + 1]);
    }
  }

  lemma {:induction false} ProgressRefuses(states: seq<State>, i: nat, j: nat, app: App, k: nat)
    requires forall l :: 0 <= l < |states| - 1 ==> Progress(states[l], states[l + 1])
    requires i <= j < |states| && app in states[i].revoked
    requires |states[i].desk.answers| <= k < |states[j].desk.answers|
    requires states[j].desk.answers[k].id < |states[j].desk.received|
    requires states[j].desk.received[states[j].desk.answers[k].id].app == app
    ensures !Accepting(states[j].desk.answers[k].reply)
    decreases j
  {
    if i < j {
      var s, n := states[j - 1], states[j];
      assert Progress(s, states[j - 1 + 1]);
      ProgressGrows(states, i, j - 1);
      if k < |s.desk.answers| {
        assert j - 1 > 0 ==> Progress(states[j - 2], states[j - 2 + 1]);
        ProgressRefuses(states, i, j - 1, app, k);
      }
    }
  }

  /**
   Once a session is revoked at some point of a run, no answer sent after that point, to any of its requests,
   grants it authority.
   */
  lemma {:induction false} RevokedNeverAccepted(states: seq<State>, turns: seq<Turn>, i: nat, j: nat, app: App, k: nat)
    requires Run(states, turns) && i <= j < |states|
    requires app in states[i].revoked
    requires |states[i].desk.answers| <= k < |states[j].desk.answers|
    requires var id := states[j].desk.answers[k].id; id < |states[j].desk.received| && states[j].desk.received[id].app == app
    ensures !Accepting(states[j].desk.answers[k].reply)
  {
    RunProgress(states, turns);
    ProgressRefuses(states, i, j, app, k);
  }

  lemma {:induction false} InAnswersPositive(answers: seq<Answer>, k: nat)
    requires k < |answers|
    ensures InAnswers(answers, answers[k].id) >= 1
  {
    if k < |answers| - 1 {
      InAnswersPositive(answers[..|answers| - 1], k);
    }
  }

  lemma {:induction false} AnsweredIdsReceived(d: Desk, k: nat)
    requires Balanced(d) && k < |d.answers|
    ensures Owed(d.received, d.answers[k].id)
  {
    InAnswersPositive(d.answers, k);
    var id := d.answers[k].id;
    assert Occurrences(d, id) == if Owed(d.received, id) then 1 else 0;
  }

  /** A processed disconnect revokes its session, and so does a cancel exactly when it hits a pending admission. */
  lemma {:induction false} WhoIsRevoked(states: seq<State>, turns: seq<Turn>, i: nat)
    requires Run(states, turns) && i < |turns|
    requires var m := MoveOf(states[i].desk, turns[i]); m.OpenMessage? || m.Handle?
    ensures var m := MoveOf(states[i].desk, turns[i]);
            && (m.event.AppDisconnect? ==> m.event.app in states[i + 1].revoked)
            && (m.event.CancelRequest? && m.event.app !in states[i].revoked ==>
                  (m.event.app in states[i + 1].revoked <==> AdmissionPending(states[i].desk, m.event.app)))
  {
    RunInv(states, turns, i);
    RevokedBy(states[i], turns[i]);
    AdmissionPendingExact(states[i].desk, MoveOf(states[i].desk, turns[i]).event.app);
  }

  /** Some admission request of the session has arrived and still waits for its answer. */
  ghost predicate AdmissionPending(d: Desk, app: App) {
    exists id: nat :: id < |d.received| && d.received[id] == RequestApplication(app) && Pending(d, id) == 1
  }

  lemma {:induction false} InQueuePositive(items: seq<Deferred>, i: nat)
    requires i < |items| && items[i].Raw? && items[i].event.ExpectsReply()
    ensures InQueue(items, items[i].id) >= 1
  {
    if i < |items| - 1 {
      InQueuePositive(items[..|items| - 1], i);
    }
  }

  lemma {:induction false} InQueueWitness(items: seq<Deferred>, id: nat) returns (i: nat)
    requires InQueue(items, id) >= 1
    ensures i < |items| && items[i].Raw? && items[i].id == id
  {
    if InItem(items[|items| - 1], id) == 1 {
      i := |items| - 1;
    } else {
      i := InQueueWitness(items[..|items| - 1], id);
    }
  }

  /** The flag the dispatcher computes by looking at its queue and callback is the fact about the whole history. */
  lemma {:induction false} AdmissionPendingExact(d: Desk, app: App)
    requires Shape(d) && Balanced(d)
    ensures CancelsAdmission(d, app) <==> AdmissionPending(d, app)
  {
    if HoldsAdmission(d.deferred, app) {
      var i :| 0 <= i < |d.deferred| && d.deferred[i].Raw? && d.deferred[i].event == RequestApplication(app);
      InQueuePositive(d.deferred, i);
      assert Occurrences(d, d.deferred[i].id) == 1;
    } else if CancelsAdmission(d, app) {
      var id := d.active.value.kind.response.id;
      assert Occurrences(d, id) == 1;
      assert d.received[id] == RequestApplication(app);
    }
    if AdmissionPending(d, app) {
      var id: nat :| id < |d.received| && d.received[id] == RequestApplication(app) && Pending(d, id) == 1;
      if InActive(d.active, id) == 0 {
        var i := InQueueWitness(d.deferred, id);
        assert d.deferred[i].event == RequestApplication(app);
      }
    }
  }

  // ----- What an acknowledged cancel means -----

  lemma {:induction false} SweepClears(items: seq<Deferred>, app: App, received: seq<Event>, id: nat)
    requires QueueShape(items, received) && id < |received| && received[id].IsDecision() && received[id].app == app
    ensures InQueue(Retained(items, app), id) == 0
  {
    RetainedShape(items, app, received);
    RetainedIsFilter(items, app);
    if InQueue(Retained(items, app), id) >= 1 {
      var i := InQueueWitness(Retained(items, app), id);
      assert false;
    }
  }

  /** What the queue is after a cancel: the other sessions' items in their order, then at most the cancel's own notification. */
  ghost predicate OthersSurvive(items: seq<Deferred>, after: seq<Deferred>, app: App) {
    || after == Retained(items, app)
    || (|after| > 0 && after[..|after| - 1] == Retained(items, app) && after[|after| - 1].Notification? &&
        after[|after| - 1].note.app == app && after[|after| - 1].note.kind == CancelNote)
  }

  lemma {:induction false} OnCancelMeaning(d: Desk, app: App, id: nat, a: Advice, earlier: nat)
    requires QueueShape(d.deferred, d.received) && ActiveShape(d.active, d.received)
    ensures var e := OnCancel(d, app, id, a);
            var n := |e.answers| - 1;
            && n >= 0 && e.answers[n] == Answer(id, Acknowledged)
            && (earlier < |d.received| && d.received[earlier].IsDecision() && d.received[earlier].app == app ==>
                  InAnswers(e.answers[..n], earlier) == Occurrences(d, earlier))
            && OthersSurvive(d.deferred, e.deferred, app)
            && (d.active.Some? && !IsDecisionFor(d.active, app) ==> e.active == d.active)
  {
    var e := OnCancel(d, app, id, a);
    var swept := Sweep(d, app);
    SweepConserves(d, app, earlier);
    assert e.answers == swept.answers + [Answer(id, Acknowledged)];
    assert e.answers[..|e.answers| - 1] == swept.answers;
    if earlier < |d.received| && d.received[earlier].IsDecision() && d.received[earlier].app == app {
      SweepClears(d.deferred, app, d.received, earlier);
    }
  }

  /** The turn takes a cancel from the channel. */
  predicate Cancels(d: Desk, t: Turn) {
    var m := MoveOf(d, t);
    (m.OpenMessage? || m.Handle?) && m.event.CancelRequest?
  }

  /** A cancel that reaches a dispatcher with nothing pending: all that was owed had been answered. */
  lemma {:induction false} CancelDoneAtOnce(d: Desk, e: Desk, app: App, earlier: nat)
    requires d.active.None? && d.deferred == [] && e.deferred == []
    requires e.answers == d.answers + [Answer(|d.received|, Acknowledged)]
    requires Owed(d.received, earlier) ==> InAnswers(d.answers, earlier) == 1
    ensures CancelDone(d, e, app, earlier)
  {
    assert e.answers[..|d.answers|] == d.answers;
  }

  lemma {:induction false} OpenCancelMeaning(d: Desk, event: Event, a: Advice, earlier: nat)
    requires event.CancelRequest? && d.active.None? && d.deferred == []
    requires Owed(d.received, earlier) ==> InAnswers(d.answers, earlier) == 1
    ensures CancelDone(d, Open(Received(d, event), event, |d.received|, a), event.app, earlier)
  {
    var e := Open(Received(d, event), event, |d.received|, a);
    assert e.answers == d.answers + [Answer(|d.received|, Acknowledged)];
    CancelDoneAtOnce(d, e, event.app, earlier);
  }

  /** A cancel that reaches a dispatcher with a callback running. */
  lemma {:induction false} HandleCancelMeaning(d: Desk, event: Event, a: Advice, earlier: nat)
    requires event.CancelRequest? && QueueShape(d.deferred, d.received) && ActiveShape(d.active, d.received)
    requires Occurrences(d, earlier) == if Owed(d.received, earlier) then 1 else 0
    ensures CancelDone(d, OnCancel(Heard(d, event), event.app, |d.received|, a), event.app, earlier)
  {
    var h := Heard(d, event);
    HeardFrame(d, event, earlier);
    OnCancelMeaning(h, event.app, |d.received|, a, earlier);
    if earlier < |d.received| {
      assert h.received[earlier] == d.received[earlier];
    }
  }

  lemma {:induction false} StepCancelMeaning(d: Desk, t: Turn, a: Advice, earlier: nat)
    requires QueueShape(d.deferred, d.received) && ActiveShape(d.active, d.received) && Cancels(d, t)
    requires Occurrences(d, earlier) == if Owed(d.received, earlier) then 1 else 0
    ensures CancelDone(d, StepDesk(d, MoveOf(d, t), a), MoveOf(d, t).event.app, earlier)
  {
    var m := MoveOf(d, t);
    if m.Handle? {
      HandleCancelMeaning(d, m.event, a, earlier);
    } else {
      assert Pending(d, earlier) == 0;
      OpenCancelMeaning(d, m.event, a, earlier);
    }
  }

  /**
   The acknowledgement of a cancel is the last answer of its turn, and every decision of that session that arrived
   earlier was answered, once, before it.  Decisions of other sessions stay queued in their order, and a running callback
   that is not a decision of that session keeps running.
   */
  ghost predicate CancelDone(d: Desk, e: Desk, app: App, earlier: nat) {
    var n := |e.answers| - 1;
    && n >= 0 && e.answers[n] == Answer(|d.received|, Acknowledged)
    && (earlier < |d.received| && d.received[earlier].IsDecision() && d.received[earlier].app == app ==>
          InAnswers(e.answers[..n], earlier) == 1)
    && OthersSurvive(d.deferred, e.deferred, app)
    && (d.active.Some? && !IsDecisionFor(d.active, app) ==> e.active == d.active)
  }

  /** The turn started or queued the notification. */
  predicate CarriesNote(d: Desk, e: Desk, app: App, note: Note) {
    e.starts == d.starts + [StartNote(note)] || e.deferred == Retained(d.deferred, app) + [Notification(note)]
  }

  /** The notification of a cancel tells the user whether the session was still waiting for its admission. */
  lemma {:induction false} CancelNoteFlag(d: Desk, t: Turn, a: Advice, note: Note)
    requires Shape(d) && Balanced(d) && Cancels(d, t)
    requires CarriesNote(d, StepDesk(d, MoveOf(d, t), a), MoveOf(d, t).event.app, note)
    ensures note.app == MoveOf(d, t).event.app && note.kind == CancelNote
    ensures note.cancelledAdmission <==> AdmissionPending(d, note.app)
  {
    var m := MoveOf(d, t);
    AdmissionPendingExact(d, m.event.app);
    if m.Handle? {
      CancelCarries(Heard(d, m.event), m.event.app, |d.received|, a, note);
    } else {
      assert Retained([], m.event.app) == [];
      var e := StepDesk(d, m, a);
      assert e.starts == d.starts + [StartNote(note)];
      assert e.starts[|d.starts|] == StartNote(note);
    }
  }

  lemma {:induction false} CancelCarries(d: Desk, app: App, id: nat, a: Advice, note: Note)
    requires CarriesNote(d, OnCancel(d, app, id, a), app, note)
    ensures note.app == app && note.kind == CancelNote && note.cancelledAdmission == CancelsAdmission(d, app)
  {
    var e := OnCancel(d, app, id, a);
    var kept := Retained(d.deferred, app);
    if e.starts == d.starts + [StartNote(note)] {
      assert e.starts[|d.starts|] == StartNote(note);
    } else {
      assert e.deferred[|kept|] == Notification(note);
    }
  }

  /** A cancel revokes exactly when an admission was pending, and the session is then tombstoned when it is acknowledged. */
  lemma {:induction false} CancelTombstones(states: seq<State>, turns: seq<Turn>, i: nat)
    requires Run(states, turns) && i < |turns| && Cancels(states[i].desk, turns[i])
    ensures var app := MoveOf(states[i].desk, turns[i]).event.app;
            && (AdmissionPending(states[i].desk, app) ==> Tombstoned(states[i + 1].registry, app))
            && (app in states[i + 1].revoked <==> AdmissionPending(states[i].desk, app) || app in states[i].revoked)
  {
    var s, t := states[i], turns[i];
    RunInv(states, turns, i);
    AdmissionPendingExact(s.desk, MoveOf(s.desk, t).event.app);
    RevokedBy(s, t);
    MoveEventAlive(s, t);
    AuthorityAfterUpholds(s, t);
  }

  /**
   When a cancel is acknowledged the session's earlier decisions have been answered and other sessions are untouched; if
   an admission was pending the session is tombstoned, and the notification says so, exactly then.
   */
  lemma {:induction false} CancelAcknowledged(states: seq<State>, turns: seq<Turn>, i: nat, earlier: nat)
    requires Run(states, turns) && i < |turns| && Cancels(states[i].desk, turns[i])
    ensures var d, e := states[i].desk, states[i + 1].desk;
            var app := MoveOf(d, turns[i]).event.app;
            && CancelDone(d, e, app, earlier)
            && (AdmissionPending(d, app) ==> Tombstoned(states[i + 1].registry, app))
            && (app in states[i + 1].revoked <==> AdmissionPending(d, app) || app in states[i].revoked)
            && (forall note :: CarriesNote(d, e, app, note) ==>
                  note.app == app && note.kind == CancelNote && (note.cancelledAdmission <==> AdmissionPending(d, app)))
  {
    var d, t := states[i].desk, turns[i];
    var a := AdviceOf(states[i], MoveOf(d, t), t);
    var e := StepDesk(d, MoveOf(d, t), a);
    RunInv(states, turns, i);
    CancelTombstones(states, turns, i);
    assert Occurrences(d, earlier) == if Owed(d.received, earlier) then 1 else 0;
    StepCancelMeaning(d, t, a, earlier);
    forall note | CarriesNote(d, e, MoveOf(d, t).event.app, note)
      ensures note.app == MoveOf(d, t).event.app && note.kind == CancelNote &&
              (note.cancelledAdmission <==> AdmissionPending(d, note.app))
    {
      CancelNoteFlag(d, t, a, note);
    }
  }

  // ----- Notifications, fairness, arrival order -----

  /** In every run: at most 64 queued items, none a raw cancel or disconnect, one disconnect notification per session. */
  lemma {:induction false} QueueInvariant(states: seq<State>, turns: seq<Turn>, i: nat)
    requires Run(states, turns) && i < |states|
    ensures var d := states[i].desk;
            && |d.deferred| <= MAX_DEFERRED
            && (forall k :: 0 <= k < |d.deferred| && d.deferred[k].Raw? ==> d.deferred[k].event.IsDecision())
            && (forall k, l :: 0 <= k < l < |d.deferred| && IsDisconnectItem(d.deferred[k]) && IsDisconnectItem(d.deferred[l]) ==>
                                 d.deferred[k].note.app != d.deferred[l].note.app)
            && (forall k :: 0 <= k < |d.deferred| && IsDisconnectItem(d.deferred[k]) ==>
                              !IsDisconnectFor(d.active, d.deferred[k].note.app))
            && (i + 1 < |states| && !MoveOf(d, turns[i]).Shut? ==> FirstInFirstOut(d, states[i + 1].desk))
  {
    RunInv(states, turns, i);
    var s := states[i];
    if i + 1 < |states| {
      var m := MoveOf(s.desk, turns[i]);
      if !m.Shut? {
        StepFifo(s.desk, turns[i], AdviceOf(s, m, turns[i]));
      }
    }
  }

  /** The same callback is running before and after the turn. */
  predicate SameCallback(d: Desk, e: Desk) {
    d.active.Some? && e.active.Some? && |d.starts| == |e.starts|
  }

  lemma {:induction false} OneBypass(d: Desk, t: Turn, a: Advice)
    requires Shape(d) && Awake(d, t) && d.active.Some? && t.ready.Some?
    requires SameCallback(d, StepDesk(d, MoveOf(d, t), a))
    ensures d.burst < MAX_BURST && StepDesk(d, MoveOf(d, t), a).burst == d.burst + 1
  {
  }

  lemma {:induction false} RunBypass(states: seq<State>, turns: seq<Turn>, k: nat)
    requires Run(states, turns) && k < |turns| && turns[k].ready.Some? && SameCallback(states[k].desk, states[k + 1].desk)
    ensures states[k + 1].desk.burst == states[k].desk.burst + 1
  {
    RunInv(states, turns, k);
    OneBypass(states[k].desk, turns[k], AdviceOf(states[k], MoveOf(states[k].desk, turns[k]), turns[k]));
  }

  lemma {:induction false} BurstCounts(states: seq<State>, i: nat, j: nat)
    requires i <= j < |states|
    requires forall k :: i <= k < j ==> states[k + 1].desk.burst == states[k].desk.burst + 1
    ensures states[j].desk.burst == states[i].desk.burst + (j - i)
    decreases j
  {
    if i < j {
      BurstCounts(states, i, j - 1);
      assert states[j - 1 + 1].desk.burst == states[j - 1].desk.burst + 1;
    }
  }

  /** Once the callback is ready, at most 16 turns pass before it is completed, cancelled or replaced. */
  lemma {:induction false} BoundedBypass(states: seq<State>, turns: seq<Turn>, i: nat, j: nat)
    requires Run(states, turns) && i <= j < |states|
    requires forall k :: i <= k < j ==> turns[k].ready.Some? && SameCallback(states[k].desk, states[k + 1].desk)
    ensures j - i <= MAX_BURST
  {
    forall k | i <= k < j ensures states[k + 1].desk.burst == states[k].desk.burst + 1 {
      RunBypass(states, turns, k);
    }
    BurstCounts(states, i, j);
    RunInv(states, turns, j);
  }

  /** The decisions shown to the user are shown in the order they arrived. */
  lemma {:induction false} ShownInArrivalOrder(states: seq<State>, turns: seq<Turn>, n: nat, i: nat, j: nat)
    requires Run(states, turns) && n < |states|
    requires i < j < |states[n].desk.starts|
    requires states[n].desk.starts[i].StartDecision? && states[n].desk.starts[j].StartDecision?
    ensures states[n].desk.starts[i].id < states[n].desk.starts[j].id < |states[n].desk.received|
  {
    RunInv(states, turns, n);
  }

  /** When the loop has ended, every live session it ever heard from is tombstoned. */
  lemma {:induction false} ClosedLeavesNoAuthority(states: seq<State>, turns: seq<Turn>, n: nat, i: nat)
    requires Run(states, turns) && n < |states| && !states[n].desk.running
    requires i < |states[n].desk.received|
    ensures var app := states[n].desk.received[i].app;
            app in states[n].registry.dead || Tombstoned(states[n].registry, app)
  {
    RunInv(states, turns, n);
  }
}
