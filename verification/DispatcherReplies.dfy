/**
 What the dispatcher's answers and callbacks mean: over every run, each answer says what happened to the request it
 answers, and each request, cancel and disconnect has the effect it is promised.
 */
module DispatcherReplies {
  import opened Common
  import opened Registry
  import opened Payload
  import opened Dispatcher
  import opened DispatcherLedger
  import opened DispatcherAuthority
  import opened DispatcherRuns

  // ----- Granted names -----

  /** `granted` lists the names, each at its first occurrence. */
  predicate FirstAt(names: seq<string>, granted: seq<string>, ps: seq<nat>) {
    && |ps| == |granted|
    && (forall k :: 0 <= k < |ps| ==> ps[k] < |names| && granted[k] == names[ps[k]])
    && (forall j, k :: 0 <= j < k < |ps| ==> ps[j] < ps[k])
    && (forall p :: 0 <= p < |names| ==> (p in ps <==> IsFirst(names, p)))
  }

  /** Each name once, in the order of first occurrence. */
  ghost predicate FirstOccurrences(names: seq<string>, granted: seq<string>) {
    exists ps: seq<nat> :: FirstAt(names, granted, ps)
  }

  function FirstPlaces(names: seq<string>): seq<nat> {
    if names == [] then []
    else
      var n := |names| - 1;
      if names[n] in names[..n] then FirstPlaces(names[..n]) else FirstPlaces(names[..n]) + [n]
  }

  predicate IsFirst(names: seq<string>, p: nat)
    requires p < |names|
  {
    names[p] !in names[..p]
  }

  lemma {:induction false} FirstOfPrefix(names: seq<string>, n: nat, p: nat)
    requires p < n <= |names|
    ensures IsFirst(names[..n], p) <==> IsFirst(names, p)
  {
    assert names[..n][..p] == names[..p];
  }

  lemma {:induction false} FirstKept(names: seq<string>, granted: seq<string>, ps: seq<nat>)
    requires names != [] && FirstAt(names[..|names| - 1], granted, ps) && !IsFirst(names, |names| - 1)
    ensures FirstAt(names, granted, ps)
  {
    var n := |names| - 1;
    assert forall k :: 0 <= k < |ps| ==> ps[k] < n && names[..n][ps[k]] == names[ps[k]];
    forall p | 0 <= p < |names| ensures p in ps <==> IsFirst(names, p) {
      if p < n {
        FirstOfPrefix(names, n, p);
      }
    }
  }

  lemma {:induction false} FirstAdded(names: seq<string>, granted: seq<string>, ps: seq<nat>)
    requires names != [] && FirstAt(names[..|names| - 1], granted, ps) && IsFirst(names, |names| - 1)
    ensures FirstAt(names, granted + [names[|names| - 1]], ps + [|names| - 1])
  {
    var n := |names| - 1;
    var qs := ps + [n];
    assert forall k :: 0 <= k < |ps| ==> ps[k] < n && names[..n][ps[k]] == names[ps[k]];
    forall p | 0 <= p < |names| ensures p in qs <==> IsFirst(names, p) {
      if p < n {
        FirstOfPrefix(names, n, p);
        assert p in qs <==> p in ps;
      } else {
        assert qs[|ps|] == n;
      }
    }
  }

  lemma {:induction false} DistinctFirst(names: seq<string>)
    ensures FirstAt(names, Distinct(names), FirstPlaces(names))
  {
    if names != [] {
      var init := names[..|names| - 1];
      DistinctFirst(init);
      DistinctNames(init);
      if IsFirst(names, |names| - 1) {
        FirstAdded(names, Distinct(init), FirstPlaces(init));
      } else {
        FirstKept(names, Distinct(init), FirstPlaces(init));
      }
    }
  }

  // ----- The answer to a completed decision -----

  /** The reply tells the application what the user decided. */
  ghost predicate Tells(event: Event, o: DecisionOutcome, reply: Reply) {
    match o
    case InvalidPayload | Timeout | Exception => reply == Failed(CallbackFailed(o))
    case Accept | AlwaysAccept =>
      if event.PrefetchPermissions? then reply.Granted? && FirstOccurrences(event.permissions, reply.permissions)
      else reply == Permission(o)
    case Reject | AlwaysReject => reply == if event.PrefetchPermissions? then Reply.Granted([]) else Permission(o)
  }

  lemma {:induction false} ReplyTells(a: Active, received: seq<Event>, o: DecisionOutcome)
    requires a.kind.Decision? && DecisionShape(a, received)
    ensures Tells(received[a.kind.response.id], o, DecisionReply(a.kind.response, o))
  {
    if received[a.kind.response.id].PrefetchPermissions? {
      DistinctFirst(a.kind.response.permissions);
    }
  }

  // ----- The running callback is the last one shown -----

  predicate Shows(start: Start, a: Active) {
    match a.kind
    case Decision(response, _) => start == StartDecision(response.id)
    case Notify(kind) => start.StartNote? && start.note.kind == kind && start.note.app == a.app
  }

  predicate Showing(d: Desk) {
    d.active.Some? ==> d.starts != [] && Shows(d.starts[|d.starts| - 1], d.active.value)
  }

  /** What a turn does to the callbacks: at most one is started, and then it runs, at the start of a burst. */
  predicate Starting(d: Desk, e: Desk) {
    || (e.starts == d.starts && (e.active == d.active || e.active.None?))
    || (&& |e.starts| == |d.starts| + 1 && e.starts[..|d.starts|] == d.starts
        && e.active.Some? && Shows(e.starts[|d.starts|], e.active.value) && e.burst == 0)
  }

  lemma {:induction false} BeginsStarting(d: Desk, d1: Desk, note: Note)
    requires d1.starts == d.starts
    ensures Starting(d, BeginNote(d1, note))
  {
  }

  lemma {:induction false} QueueDisconnectStarting(d: Desk, note: Note)
    ensures Starting(d, QueueDisconnect(d, note))
  {
  }

  lemma {:induction false} SweepStarting(d: Desk, app: App)
    ensures var e := Sweep(d, app);
            && e.starts == d.starts && e.burst == d.burst
            && (if IsDecisionFor(d.active, app) then e.active.None? else e.active == d.active)
  {
  }

  lemma {:induction false} HandleStarting(d: Desk, event: Event, a: Advice)
    ensures Starting(d, HandleEvent(d, event, a))
  {
    var h := Heard(d, event);
    SweepStarting(h, event.app);
    if event.AppDisconnect? && a.noted.Success? {
      QueueDisconnectStarting(Sweep(h, event.app), Note(event.app, a.noted.value, DisconnectNote, false));
    }
  }

  lemma {:induction false} OpenStarting(d: Desk, d1: Desk, event: Event, id: nat, a: Advice)
    requires d1.starts == d.starts && d1.active == d.active
    ensures Starting(d, Open(d1, event, id, a))
  {
  }

  lemma {:induction false} StepStarting(d: Desk, t: Turn, a: Advice)
    requires Awake(d, t)
    ensures Starting(d, StepDesk(d, MoveOf(d, t), a))
  {
    var m := MoveOf(d, t);
    match m {
      case Handle(event) => HandleStarting(d, event, a);
      case OpenMessage(event) => OpenStarting(d, Received(d, event), event, |d.received|, a);
      case OpenQueued(event, id) => OpenStarting(d, d.(deferred := d.deferred[1..]), event, id, a);
      case StartQueued(note) => BeginsStarting(d, d.(deferred := d.deferred[1..]), note);
      case _ =>
    }
  }

  lemma {:induction false} RunStarting(states: seq<State>, turns: seq<Turn>, i: nat)
    requires Run(states, turns) && i < |turns|
    ensures Starting(states[i].desk, states[i + 1].desk)
  {
    StepStarting(states[i].desk, turns[i], AdviceOf(states[i], MoveOf(states[i].desk, turns[i]), turns[i]));
  }

  lemma {:induction false} ShowingThroughout(states: seq<State>, i: nat)
    requires i < |states| && Showing(states[0].desk)
    requires forall j :: 0 <= j < |states| - 1 ==> Starting(states[j].desk, states[j + 1].desk)
    ensures Showing(states[i].desk)
    decreases i
  {
    if i > 0 {
      ShowingThroughout(states, i - 1);
      assert Starting(states[i - 1].desk, states[i - 1 + 1].desk);
      ShowingStays(states[i - 1].desk, states[i].desk);
    }
  }

  lemma {:induction false} RunShowing(states: seq<State>, turns: seq<Turn>, i: nat)
    requires Run(states, turns) && i < |states|
    ensures Showing(states[i].desk)
  {
    forall j | 0 <= j < |states| - 1 ensures Starting(states[j].desk, states[j + 1].desk) {
      RunStarting(states, turns, j);
    }
    ShowingThroughout(states, i);
  }

  lemma {:induction false} ShowingStays(d: Desk, e: Desk)
    requires Showing(d) && Starting(d, e)
    ensures Showing(e)
  {
  }

  /**
   The user's decision reaches the application that asked: when the callback of a shown request completes, exactly one
   answer is sent, to that request, and it says what the user decided; a prefetch is granted the names it asked for.
   */
  lemma {:induction false} DecisionTold(states: seq<State>, turns: seq<Turn>, i: nat)
    requires Run(states, turns) && i < |turns| && MoveOf(states[i].desk, turns[i]).Complete?
    requires states[i].desk.starts != [] && states[i].desk.starts[|states[i].desk.starts| - 1].StartDecision?
    ensures var d, e := states[i].desk, states[i + 1].desk;
            var id := d.starts[|d.starts| - 1].id;
            && turns[i].ready.Some? && turns[i].ready.value.OfDecision?
            && id < |d.received|
            && |e.answers| == |d.answers| + 1 && e.answers[..|d.answers|] == d.answers
            && e.answers[|d.answers|].id == id
            && Tells(d.received[id], turns[i].ready.value.decision, e.answers[|d.answers|].reply)
            && e.active.None? && e.deferred == d.deferred
  {
    RunInv(states, turns, i);
    RunShowing(states, turns, i);
    var d := states[i].desk;
    OutcomeKindsMatch(d, turns[i]);
    ReplyTells(d.active.value, d.received, turns[i].ready.value.decision);
  }

  /** The first complete burst lets the callback through: right after it starts, it is bypassed 16 times and no more. */
  lemma {:induction false} ExactBypass(states: seq<State>, turns: seq<Turn>, i: nat, j: nat)
    requires Run(states, turns) && 0 < i <= j < |turns|
    requires |states[i - 1].desk.starts| < |states[i].desk.starts|
    requires forall k :: i <= k < j ==> turns[k].ready.Some? && SameCallback(states[k].desk, states[k + 1].desk)
    requires turns[j].ready.Some? && !turns[j].channel.Empty?
    ensures MoveOf(states[j].desk, turns[j]).Complete? <==> j - i == 16
    ensures j - i <= 16
  {
    RunStarting(states, turns, i - 1);
    forall k | i <= k < j ensures states[k + 1].desk.burst == states[k].desk.burst + 1 {
      RunBypass(states, turns, k);
    }
    BurstCounts(states, i, j);
    BoundedBypass(states, turns, i, j);
    assert states[j].desk.active.Some? by {
      if i < j {
        assert SameCallback(states[j - 1].desk, states[j - 1 + 1].desk);
      }
    }
  }

  // ----- Why each answer is sent -----

  /** The turn takes up request `id`, from the channel or from the queue. */
  predicate TakesUp(d: Desk, m: Move, event: Event, id: nat) {
    m == OpenQueued(event, id) || (m == OpenMessage(event) && id == |d.received|)
  }

  /** Request `id` is the oldest decision in the queue. */
  predicate OldestQueued(items: seq<Deferred>, id: nat) {
    exists i :: 0 <= i < |items| && items[i].Raw? && items[i].id == id && forall j :: 0 <= j < i ==> items[j].Notification?
  }

  predicate OnlyNotes(items: seq<Deferred>) {
    forall j :: 0 <= j < |items| ==> items[j].Notification?
  }

  /** What a failure says of the request; `received` is the record after the turn. */
  predicate Explains(d: Desk, m: Move, a: Advice, received: seq<Event>, id: nat, reason: Reason)
    requires id < |received|
  {
    match reason
    case HandlerClosed => m.Shut?
    case RequestCancelled =>
      m.Handle? && !m.event.IsDecision() && received[id].IsDecision() && received[id].app == m.event.app
    case QueueFull =>
      m.Handle? && |d.deferred| == MAX_DEFERRED &&
      (if m.event.IsDecision() then id == |d.received| else m.event.AppDisconnect? && OldestQueued(d.deferred, id))
    case HandlerOverloaded =>
      && m.Handle? && m.event.AppDisconnect? && |d.deferred| == MAX_DEFERRED && OnlyNotes(d.deferred)
      && d.active.Some? && d.active.value.kind.Decision? && d.active.value.kind.response.id == id
    case ProjectionFailed => TakesUp(d, m, received[id], id) && !received[id].RequestApplication? && !a.projects
    case ReferenceFailure(e) => TakesUp(d, m, received[id], id) && a.granted == Failure(e)
    case CallbackFailed(o) => m == Complete(OfDecision(o))
  }

  predicate Warranted(d: Desk, m: Move, a: Advice, received: seq<Event>, answer: Answer) {
    && answer.id < |received|
    && match answer.reply
       case Permission(_) => m.Complete?
       case Granted(_) => m.Complete?
       case Acknowledged => (m.OpenMessage? || m.Handle?) && m.event.CancelRequest? && answer.id == |d.received|
       case Failed(reason) => Explains(d, m, a, received, answer.id, reason)
  }

  ghost predicate AllWarranted(d: Desk, m: Move, a: Advice, received: seq<Event>, sent: seq<Answer>) {
    forall k :: 0 <= k < |sent| ==> Warranted(d, m, a, received, sent[k])
  }

  // What is sent, piece by piece.

  lemma {:induction false} CancelAnswersSay(items: seq<Deferred>, app: App, received: seq<Event>, k: nat)
    requires QueueShape(items, received) && k < |CancelAnswers(items, app)|
    ensures var answer := CancelAnswers(items, app)[k];
            && answer.reply == Failed(RequestCancelled)
            && answer.id < |received| && received[answer.id].IsDecision() && received[answer.id].app == app
  {
    var n := |items| - 1;
    if k < |CancelAnswers(items[..n], app)| {
      CancelAnswersSay(items[..n], app, received, k);
    }
  }

  lemma {:induction false} FailItemsSay(items: seq<Deferred>, reason: Reason, received: seq<Event>, k: nat)
    requires QueueShape(items, received) && k < |FailItems(items, reason)|
    ensures var answer := FailItems(items, reason)[k];
            answer.reply == Failed(reason) && answer.id < |received|
  {
    var n := |items| - 1;
    if k < |FailItems(items[..n], reason)| {
      FailItemsSay(items[..n], reason, received, k);
    }
  }

  function SweptAnswers(d: Desk, app: App): seq<Answer> {
    CancelAnswers(d.deferred, app) + if IsDecisionFor(d.active, app) then FailActive(d.active.value, RequestCancelled) else []
  }

  lemma {:induction false} SweepSends(d: Desk, app: App)
    ensures Sweep(d, app).answers == d.answers + SweptAnswers(d, app)
  {
  }

  lemma {:induction false} SweptWarranted(d: Desk, event: Event, a: Advice)
    requires Shape(d) && !event.IsDecision()
    ensures AllWarranted(d, Handle(event), a, d.received + [event], SweptAnswers(Heard(d, event), event.app))
  {
    var received := d.received + [event];
    HeardFrame(d, event, 0);
    var sent := SweptAnswers(Heard(d, event), event.app);
    forall k | 0 <= k < |sent| ensures Warranted(d, Handle(event), a, received, sent[k]) {
      if k < |CancelAnswers(d.deferred, event.app)| {
        CancelAnswersSay(d.deferred, event.app, received, k);
      }
    }
  }

  lemma {:induction false} RetainedFull(items: seq<Deferred>, app: App)
    ensures |Retained(items, app)| == |items| ==> Retained(items, app) == items
  {
    if items != [] {
      var n := |items| - 1;
      RetainedIsFilter(items[..n], app);
      RetainedFull(items[..n], app);
      assert items == items[..n] + [items[n]];
    }
  }

  function OverloadAnswers(d: Desk, note: Note): seq<Answer> {
    var q := DeferDisconnect(d.deferred, d.active, note);
    q.answers + if q.next.Some? && d.active.Some? then FailActive(d.active.value, HandlerOverloaded) else []
  }

  lemma {:induction false} QueueDisconnectSends(d: Desk, note: Note)
    ensures QueueDisconnect(d, note).answers == d.answers + OverloadAnswers(d, note)
  {
  }

  /** A full queue gives up its oldest decision to a disconnect, or, without decisions, the running callback. */
  predicate GivesUp(items: seq<Deferred>, q: Deferral, received: seq<Event>) {
    && (forall k :: 0 <= k < |q.answers| ==>
          && |items| == MAX_DEFERRED && q.answers[k].reply == Failed(QueueFull)
          && q.answers[k].id < |received| && OldestQueued(items, q.answers[k].id))
    && (q.next.Some? ==> |items| == MAX_DEFERRED && OnlyNotes(items))
  }

  lemma {:induction false} DeferSays(items: seq<Deferred>, active: Option<Active>, note: Note, received: seq<Event>)
    requires QueueShape(items, received)
    ensures GivesUp(items, DeferDisconnect(items, active, note), received)
  {
    var i := FirstDecision(items);
    assert forall j :: 0 <= j < i ==> items[j].Notification?;
  }

  lemma {:induction false} EvictedWarranted(d: Desk, event: Event, a: Advice, q: Deferral)
    requires event.AppDisconnect? && GivesUp(d.deferred, q, d.received + [event])
    ensures AllWarranted(d, Handle(event), a, d.received + [event], q.answers)
  {
  }

  lemma {:induction false} ReplacedWarranted(d: Desk, event: Event, a: Advice, q: Deferral)
    requires event.AppDisconnect? && ActiveShape(d.active, d.received) && d.active.Some?
    requires q.next.Some? && GivesUp(d.deferred, q, d.received + [event])
    ensures AllWarranted(d, Handle(event), a, d.received + [event], FailActive(d.active.value, HandlerOverloaded))
  {
  }

  /** The swept queue is the queue itself when it is still full. */
  lemma {:induction false} SweptGivesUp(d: Desk, event: Event, note: Note)
    requires Shape(d)
    ensures var q := DeferDisconnect(Retained(d.deferred, event.app), d.active, note);
            GivesUp(d.deferred, q, d.received + [event])
  {
    var received := d.received + [event];
    HeardFrame(d, event, 0);
    RetainedShape(d.deferred, event.app, received);
    RetainedIsFilter(d.deferred, event.app);
    RetainedFull(d.deferred, event.app);
    DeferSays(Retained(d.deferred, event.app), d.active, note, received);
  }

  lemma {:induction false} OverloadWarranted(d: Desk, event: Event, a: Advice, note: Note)
    requires Shape(d) && event.AppDisconnect? && !IsDecisionFor(d.active, event.app)
    ensures AllWarranted(d, Handle(event), a, d.received + [event], OverloadAnswers(Sweep(Heard(d, event), event.app), note))
  {
    var swept := Sweep(Heard(d, event), event.app);
    assert swept.deferred == Retained(d.deferred, event.app) && swept.active == d.active;
    var q := DeferDisconnect(swept.deferred, swept.active, note);
    SweptGivesUp(d, event, note);
    EvictedWarranted(d, event, a, q);
    if q.next.Some? && d.active.Some? {
      ReplacedWarranted(d, event, a, q);
      BothWarranted(d, Handle(event), a, d.received + [event], q.answers, FailActive(d.active.value, HandlerOverloaded));
    } else {
      assert OverloadAnswers(swept, note) == q.answers;
    }
  }

  /** What a turn sends. */
  function Sends(d: Desk, event: Event, a: Advice): seq<Answer> {
    var h := Heard(d, event);
    if event.IsDecision() then if |d.deferred| < MAX_DEFERRED then [] else [Answer(|d.received|, Failed(QueueFull))]
    else if event.CancelRequest? then SweptAnswers(h, event.app) + [Answer(|d.received|, Acknowledged)]
    else if a.noted.Failure? || IsDecisionFor(d.active, event.app) then SweptAnswers(h, event.app)
    else
      SweptAnswers(h, event.app) +
      OverloadAnswers(Sweep(h, event.app), Note(event.app, a.noted.value, DisconnectNote, false))
  }

  lemma {:induction false} HandleSends(d: Desk, event: Event, a: Advice)
    ensures HandleEvent(d, event, a).answers == d.answers + Sends(d, event, a)
  {
    var h := Heard(d, event);
    if !event.IsDecision() {
      SweepSends(h, event.app);
      if event.AppDisconnect? && a.noted.Success? {
        QueueDisconnectSends(Sweep(h, event.app), Note(event.app, a.noted.value, DisconnectNote, false));
      }
    }
  }

  lemma {:induction false} BothWarranted(d: Desk, m: Move, a: Advice, received: seq<Event>, x: seq<Answer>, y: seq<Answer>)
    requires AllWarranted(d, m, a, received, x) && AllWarranted(d, m, a, received, y)
    ensures AllWarranted(d, m, a, received, x + y)
  {
  }

  lemma {:induction false} HandleWarranted(d: Desk, event: Event, a: Advice)
    requires Shape(d)
    ensures AllWarranted(d, Handle(event), a, d.received + [event], Sends(d, event, a))
  {
    var h, received := Heard(d, event), d.received + [event];
    if !event.IsDecision() {
      SweptWarranted(d, event, a);
      if event.CancelRequest? {
        BothWarranted(d, Handle(event), a, received, SweptAnswers(h, event.app), [Answer(|d.received|, Acknowledged)]);
      } else if a.noted.Success? && !IsDecisionFor(d.active, event.app) {
        var note := Note(event.app, a.noted.value, DisconnectNote, false);
        OverloadWarranted(d, event, a, note);
        BothWarranted(d, Handle(event), a, received, SweptAnswers(h, event.app), OverloadAnswers(Sweep(h, event.app), note));
      }
    }
  }

  /** The answers of a turn, seen from the desk. */
  ghost predicate AnswersWarranted(d: Desk, m: Move, a: Advice, e: Desk) {
    && d.answers <= e.answers
    && forall k :: |d.answers| <= k < |e.answers| ==> Warranted(d, m, a, e.received, e.answers[k])
  }

  lemma {:induction false} SentWarranted(d: Desk, m: Move, a: Advice, e: Desk, sent: seq<Answer>)
    requires e.answers == d.answers + sent && AllWarranted(d, m, a, e.received, sent)
    ensures AnswersWarranted(d, m, a, e)
  {
    forall k | |d.answers| <= k < |e.answers| ensures Warranted(d, m, a, e.received, e.answers[k]) {
      assert e.answers[k] == sent[k - |d.answers|];
    }
  }

  lemma {:induction false} ShutWarranted(d: Desk, a: Advice)
    requires Shape(d)
    ensures AnswersWarranted(d, Shut, a, ShutDesk(d))
  {
    var failed := if d.active.Some? then FailActive(d.active.value, HandlerClosed) else [];
    var sent := failed + FailItems(d.deferred, HandlerClosed);
    assert ShutDesk(d).answers == d.answers + sent;
    forall k | 0 <= k < |sent| ensures Warranted(d, Shut, a, d.received, sent[k]) {
      if k >= |failed| {
        FailItemsSay(d.deferred, HandlerClosed, d.received, k - |failed|);
      }
    }
    SentWarranted(d, Shut, a, ShutDesk(d), sent);
  }

  lemma {:induction false} OpenWarranted(d: Desk, d1: Desk, m: Move, event: Event, id: nat, a: Advice)
    requires TakesUp(d, m, event, id) && d1.answers == d.answers && id < |d1.received| && d1.received[id] == event
    requires m.OpenQueued? ==> event.IsDecision()
    ensures AnswersWarranted(d, m, a, Open(d1, event, id, a))
  {
  }

  lemma {:induction false} StepWarranted(d: Desk, t: Turn, a: Advice)
    requires Shape(d) && Awake(d, t)
    ensures AnswersWarranted(d, MoveOf(d, t), a, StepDesk(d, MoveOf(d, t), a))
  {
    var m := MoveOf(d, t);
    match m {
      case Handle(event) =>
        HandleSends(d, event, a);
        HandleWarranted(d, event, a);
        HandleFrame(d, event, a);
        SentWarranted(d, m, a, HandleEvent(d, event, a), Sends(d, event, a));
      case Shut => ShutWarranted(d, a);
      case OpenMessage(event) => OpenWarranted(d, Received(d, event), m, event, |d.received|, a);
      case OpenQueued(event, id) => OpenWarranted(d, d.(deferred := d.deferred[1..]), m, event, id, a);
      case Complete(_) => OutcomeKindsMatch(d, t);
      case _ =>
    }
  }

  /**
   Every answer of every run says why it is sent: only a completed callback grants or decides, only a cancel is
   acknowledged, and each failure names what happened to that request in that turn.
   */
  lemma {:induction false} ReplyWarranted(states: seq<State>, turns: seq<Turn>, i: nat, k: nat)
    requires Run(states, turns) && i < |turns| && |states[i].desk.answers| <= k < |states[i + 1].desk.answers|
    ensures var m := MoveOf(states[i].desk, turns[i]);
            var e := states[i + 1].desk;
            && e.answers[k].id < |e.received|
            && Warranted(states[i].desk, m, AdviceOf(states[i], m, turns[i]), e.received, e.answers[k])
  {
    RunInv(states, turns, i);
    StepWarranted(states[i].desk, turns[i], AdviceOf(states[i], MoveOf(states[i].desk, turns[i]), turns[i]));
  }

  lemma {:induction false} CancelAnswersOnly(items: seq<Deferred>, app: App, k: nat)
    requires k < |CancelAnswers(items, app)|
    ensures CancelAnswers(items, app)[k].reply == Failed(RequestCancelled)
  {
    var n := |items| - 1;
    if k < |CancelAnswers(items[..n], app)| {
      CancelAnswersOnly(items[..n], app, k);
    }
  }

  lemma {:induction false} SendsOverload(d: Desk, event: Event, a: Advice, k: nat)
    requires k < |Sends(d, event, a)| && Sends(d, event, a)[k].reply == Failed(HandlerOverloaded)
    ensures event.AppDisconnect? && a.noted.Success? && !IsDecisionFor(d.active, event.app) && d.active.Some?
    ensures var note := Note(event.app, a.noted.value, DisconnectNote, false);
            DeferDisconnect(Retained(d.deferred, event.app), d.active, note).next.Some?
  {
    var h := Heard(d, event);
    if !event.IsDecision() && k < |SweptAnswers(h, event.app)| {
      assert Sends(d, event, a)[k] == SweptAnswers(h, event.app)[k];
      if k < |CancelAnswers(h.deferred, event.app)| {
        CancelAnswersOnly(h.deferred, event.app, k);
      }
    }
  }

  /** An admission that is given up to an overload loses its session's authority in the same turn. */
  lemma {:induction false} OverloadRevokes(states: seq<State>, turns: seq<Turn>, i: nat, k: nat)
    requires Run(states, turns) && i < |turns| && |states[i].desk.answers| <= k < |states[i + 1].desk.answers|
    requires states[i + 1].desk.answers[k].reply == Failed(HandlerOverloaded)
    ensures var e := states[i + 1].desk;
            && e.answers[k].id < |e.received|
            && (e.received[e.answers[k].id].RequestApplication? ==> e.received[e.answers[k].id].app in states[i + 1].revoked)
  {
    var s, t := states[i], turns[i];
    RunInv(states, turns, i);
    ReplyWarranted(states, turns, i, k);
    var m := MoveOf(s.desk, t);
    var a := AdviceOf(s, m, t);
    HandleSends(s.desk, m.event, a);
    SendsOverload(s.desk, m.event, a, k - |s.desk.answers|);
    HandleFrame(s.desk, m.event, a);
    assert s.desk.active.value.kind.admission ==> OverloadsAdmission(s.desk, m.event.app, a);
  }

  // ----- What becomes of each event -----

  lemma {:induction false} ProjectKeepsTombstones(r: Sessions, app: App)
    requires Valid(r) && app !in r.dead
    ensures Tombstoned(Project(r, app), app) <==> Tombstoned(r, app)
  {
    if Tombstoned(r, app) {
      ApplyKeepsTombstone(r, ProjectApp(app), app);
    } else {
      RegisterGrantsIffNotTombstoned(r, app);
      RegisteredIsAuthorized(r, app);
    }
  }

  lemma {:induction false} GrantedIffLive(s: State, t: Turn)
    requires Inv(s) && Enabled(s, t)
    requires var m := MoveOf(s.desk, t); MoveEvent(m).Some? && MoveEvent(m).value.IsDecision() && !m.Handle?
    requires PayloadProjects(MoveEvent(MoveOf(s.desk, t)).value, s.limits)
    ensures var m := MoveOf(s.desk, t);
            AdviceOf(s, m, t).granted.Success? <==> !Tombstoned(Step(s, t).registry, MoveEvent(m).value.app)
  {
    var m := MoveOf(s.desk, t);
    var app := MoveEvent(m).value.app;
    var before := BeforeProjection(s, m, t).registry;
    MoveEventAlive(s, t);
    BeforeProjectionUpholds(s, t);
    RegisterGrantsIffNotTombstoned(before, app);
    ProjectKeepsTombstones(before, app);
    assert Step(s, t).registry == Project(before, app);
  }

  /** The request's callback is started, and nothing is answered. */
  predicate Shown(d: Desk, e: Desk, event: Event, id: nat) {
    && e.starts == d.starts + [StartDecision(id)] && e.answers == d.answers
    && e.active.Some? && e.active.value.app == event.app && e.active.value.kind.Decision?
  }

  /** The request is answered with this failure, and nothing is started. */
  predicate RefusedWith(d: Desk, e: Desk, id: nat, reason: Reason) {
    e.starts == d.starts && e.active.None? && e.answers == d.answers + [Answer(id, Failed(reason))]
  }

  /**
   A request that is taken up is shown to the user exactly when its payload projects and its session is not tombstoned;
   otherwise it is refused at once, and the failure says which of the two it was.
   */
  lemma {:induction false} RequestShown(states: seq<State>, turns: seq<Turn>, i: nat, event: Event, id: nat)
    requires Run(states, turns) && i < |turns|
    requires TakesUp(states[i].desk, MoveOf(states[i].desk, turns[i]), event, id) && event.IsDecision()
    ensures var d, e := states[i].desk, states[i + 1].desk;
            if !PayloadProjects(event, states[i].limits) then RefusedWith(d, e, id, ProjectionFailed)
            else if Tombstoned(states[i + 1].registry, event.app) then
              exists error :: RefusedWith(d, e, id, ReferenceFailure(error))
            else Shown(d, e, event, id)
  {
    var s, t := states[i], turns[i];
    RunInv(states, turns, i);
    var m := MoveOf(s.desk, t);
    var a := AdviceOf(s, m, t);
    if PayloadProjects(event, s.limits) {
      GrantedIffLive(s, t);
      if a.granted.Failure? {
        assert RefusedWith(s.desk, states[i + 1].desk, id, ReferenceFailure(a.granted.error));
      }
    }
  }

  /** A request that arrives while a callback runs waits at the end of the queue, or finds it full and is refused. */
  lemma {:induction false} RequestQueued(states: seq<State>, turns: seq<Turn>, i: nat)
    requires Run(states, turns) && i < |turns|
    requires var m := MoveOf(states[i].desk, turns[i]); m.Handle? && m.event.IsDecision()
    ensures var d, e, event := states[i].desk, states[i + 1].desk, MoveOf(states[i].desk, turns[i]).event;
            && e.active == d.active && e.starts == d.starts
            && (|d.deferred| < 64 ==> e.deferred == d.deferred + [Raw(event, |d.received|)] && e.answers == d.answers)
            && (|d.deferred| == 64 ==>
                  e.deferred == d.deferred && e.answers == d.answers + [Answer(|d.received|, Failed(QueueFull))])
            && |d.deferred| <= 64
  {
    RunInv(states, turns, i);
  }

  // ----- Notifications reach the user -----

  lemma {:induction false} UnnotedIsExhausted(s: State, t: Turn)
    requires Inv(s) && Enabled(s, t) && MoveEvent(MoveOf(s.desk, t)).Some?
    requires ProjectsSession(MoveOf(s.desk, t), s.limits)
    requires AdviceOf(s, MoveOf(s.desk, t), t).noted.Failure?
    ensures Step(s, t).registry.next == MAX_REFERENCE
  {
    BeforeProjectionUpholds(s, t);
  }

  lemma {:induction false} QueueDisconnectKnown(d: Desk, note: Note, received: seq<Event>)
    requires QueueShape(d.deferred, received) && note.kind == DisconnectNote
    ensures var e := QueueDisconnect(d, note); DisconnectKnown(e.deferred, e.active, note.app)
  {
    var q := DeferDisconnect(d.deferred, d.active, note);
    var e := QueueDisconnect(d, note);
    if !DisconnectKnown(d.deferred, d.active, note.app) {
      var last := |q.deferred| - 1;
      assert q.deferred[last] == Notification(note);
      assert IsDisconnectNoteOf(e.deferred[last], note.app);
    }
  }

  lemma {:induction false} OnDisconnectKnown(d: Desk, app: App, a: Advice)
    requires QueueShape(d.deferred, d.received) && a.noted.Success?
    ensures var e := OnDisconnect(d, app, a); DisconnectKnown(e.deferred, e.active, app)
  {
    RetainedShape(d.deferred, app, d.received);
    if !IsDecisionFor(d.active, app) {
      QueueDisconnectKnown(Sweep(d, app), Note(app, a.noted.value, DisconnectNote, false), d.received);
    }
  }

  /** After a disconnect its notification runs or waits in the queue, unless the reference counter is exhausted. */
  lemma {:induction false} DisconnectNotified(states: seq<State>, turns: seq<Turn>, i: nat)
    requires Run(states, turns) && i < |turns|
    requires var m := MoveOf(states[i].desk, turns[i]); (m.OpenMessage? || m.Handle?) && m.event.AppDisconnect?
    ensures var e, app := states[i + 1].desk, MoveOf(states[i].desk, turns[i]).event.app;
            DisconnectKnown(e.deferred, e.active, app) || states[i + 1].registry.next == MAX_REFERENCE
  {
    var s, t := states[i], turns[i];
    RunInv(states, turns, i);
    var m := MoveOf(s.desk, t);
    var a := AdviceOf(s, m, t);
    if a.noted.Failure? {
      UnnotedIsExhausted(s, t);
    } else if m.Handle? {
      HeardFrame(s.desk, m.event, 0);
      OnDisconnectKnown(Heard(s.desk, m.event), m.event.app, a);
    }
  }

  lemma {:induction false} OnCancelCarries(d: Desk, app: App, id: nat, a: Advice)
    requires a.noted.Success? && (IsDecisionFor(d.active, app) || |Retained(d.deferred, app)| < MAX_DEFERRED)
    ensures exists note :: CarriesNote(d, OnCancel(d, app, id, a), app, note)
  {
    assert CarriesNote(d, OnCancel(d, app, id, a), app, Note(app, a.noted.value, CancelNote, CancelsAdmission(d, app)));
  }

  /**
   A cancel is notified: at once when nothing else runs or its session's decision was running, else in the queue if there
   is room; only a full queue or an exhausted reference counter loses the notification.
   */
  lemma {:induction false} CancelNotified(states: seq<State>, turns: seq<Turn>, i: nat)
    requires Run(states, turns) && i < |turns| && Cancels(states[i].desk, turns[i])
    ensures var d, e, app := states[i].desk, states[i + 1].desk, MoveOf(states[i].desk, turns[i]).event.app;
            || (exists note :: CarriesNote(d, e, app, note))
            || (d.active.Some? && !IsDecisionFor(d.active, app) && |Retained(d.deferred, app)| == MAX_DEFERRED)
            || states[i + 1].registry.next == MAX_REFERENCE
  {
    var s, t := states[i], turns[i];
    RunInv(states, turns, i);
    var m := MoveOf(s.desk, t);
    var a := AdviceOf(s, m, t);
    RetainedIsFilter(s.desk.deferred, m.event.app);
    if a.noted.Failure? {
      UnnotedIsExhausted(s, t);
    } else if m.OpenMessage? {
      assert CarriesNote(s.desk, states[i + 1].desk, m.event.app, Note(m.event.app, a.noted.value, CancelNote, false));
    } else if IsDecisionFor(s.desk.active, m.event.app) || |Retained(s.desk.deferred, m.event.app)| < MAX_DEFERRED {
      OnCancelCarries(Heard(s.desk, m.event), m.event.app, |s.desk.received|, a);
      var note :| CarriesNote(Heard(s.desk, m.event), states[i + 1].desk, m.event.app, note);
      assert CarriesNote(s.desk, states[i + 1].desk, m.event.app, note);
    }
  }

  // ----- Notifications name their session -----

  /** A note of this desk, started or queued. */
  predicate Notes(d: Desk, note: Note) {
    StartNote(note) in d.starts || Notification(note) in d.deferred
  }

  lemma {:induction false} RetainedNotes(items: seq<Deferred>, app: App, note: Note)
    ensures Notification(note) in Retained(items, app) ==> Notification(note) in items
  {
    RetainedIsFilter(items, app);
  }

  lemma {:induction false} QueueDisconnectNotes(d: Desk, note: Note, received: seq<Event>, other: Note)
    requires QueueShape(d.deferred, received)
    ensures Notes(QueueDisconnect(d, note), other) ==> Notes(d, other) || other == note
  {
    SaturationYieldsNote(d.deferred, d.active, note, received);
    var q := DeferDisconnect(d.deferred, d.active, note);
    assert q.next.Some? ==> Notification(q.next.value) in d.deferred;
  }

  lemma {:induction false} SweepNotes(d: Desk, app: App, note: Note)
    ensures Notes(Sweep(d, app), note) ==> Notes(d, note)
  {
    RetainedNotes(d.deferred, app, note);
  }

  lemma {:induction false} HandleNotes(d: Desk, event: Event, a: Advice, note: Note)
    requires Shape(d) && Notes(HandleEvent(d, event, a), note) && !Notes(d, note)
    ensures a.noted == Success(note.ref) && note.app == event.app
  {
    var h := Heard(d, event);
    assert Notes(h, note) <==> Notes(d, note);
    SweepNotes(h, event.app, note);
    if event.AppDisconnect? && a.noted.Success? && !IsDecisionFor(h.active, event.app) {
      HeardFrame(d, event, 0);
      RetainedShape(h.deferred, event.app, h.received);
      QueueDisconnectNotes(Sweep(h, event.app), Note(event.app, a.noted.value, DisconnectNote, false), h.received, note);
    }
  }

  /** A new note is made from the turn's cancel or disconnect, with the reference that the registry gave for its session. */
  lemma {:induction false} StepNotes(d: Desk, t: Turn, a: Advice, note: Note)
    requires Shape(d) && Awake(d, t)
    requires Notes(StepDesk(d, MoveOf(d, t), a), note) && !Notes(d, note)
    ensures var m := MoveOf(d, t);
            && MoveEvent(m).Some? && !MoveEvent(m).value.IsDecision()
            && a.noted == Success(note.ref) && note.app == MoveEvent(m).value.app
  {
    var m := MoveOf(d, t);
    if m.Handle? {
      HandleNotes(d, m.event, a, note);
    }
  }

  lemma {:induction false} InterleavedNames(a: Authority, ops: seq<Op>, ref: nat, app: App)
    requires Valid(a.registry) && Names(a.registry, ref, app)
    ensures Valid(Interleaved(a, ops).registry) && Names(Interleaved(a, ops).registry, ref, app)
  {
    ApplyAllKeepsValid(a.registry, ops);
    ApplyAllAuthorizes(a.registry, ops, ref, app);
  }

  lemma {:induction false} RevokeNames(a: Authority, revoked: App, ref: nat, app: App)
    requires Valid(a.registry) && Names(a.registry, ref, app)
    ensures Valid(Revoke(a, revoked).registry) && Names(Revoke(a, revoked).registry, ref, app)
  {
    ApplyKeepsValid(a.registry, InvalidateApp(revoked));
    ApplyKeepsName(a.registry, InvalidateApp(revoked), ref, app);
  }

  lemma {:induction false} RevokeAllNames(a: Authority, apps: seq<App>, ref: nat, app: App)
    requires Valid(a.registry) && Names(a.registry, ref, app)
    ensures Valid(RevokeAll(a, apps).registry) && Names(RevokeAll(a, apps).registry, ref, app)
  {
    if apps != [] {
      RevokeAllNames(a, apps[..|apps| - 1], ref, app);
      RevokeNames(RevokeAll(a, apps[..|apps| - 1]), apps[|apps| - 1], ref, app);
    }
  }

  lemma {:induction false} ProjectNames(r: Sessions, app: App)
    requires Valid(r) && ProjectResult(r, app).Success?
    ensures Names(Project(r, app), ProjectResult(r, app).value, app)
  {
    ApplyKeepsValid(r, ProjectApp(app));
  }

  lemma {:induction false} FirstAccessNames(s: State, m: Move, t: Turn, ref: nat, app: App)
    requires Valid(s.registry) && Names(s.registry, ref, app)
    ensures var a := FirstAccess(s, m, t); Valid(a.registry) && Names(a.registry, ref, app)
  {
    var a := Authority(s.registry, s.revoked);
    InterleavedNames(a, t.before, ref, app);
    if MoveEvent(m).Some? {
      RevokeNames(Interleaved(a, t.before), MoveEvent(m).value.app, ref, app);
    }
  }

  lemma {:induction false} BeforeProjectionNames(s: State, m: Move, t: Turn, ref: nat, app: App)
    requires Valid(s.registry) && Names(s.registry, ref, app)
    ensures var a := BeforeProjection(s, m, t); Valid(a.registry) && Names(a.registry, ref, app)
  {
    FirstAccessNames(s, m, t, ref, app);
    var a := FirstAccess(s, m, t);
    InterleavedNames(a, t.before, ref, app);
    InterleavedNames(a, t.middle, ref, app);
  }

  /** From the projection of the event's session to the end of the turn. */
  lemma {:induction false} AfterProjectionNames(s: State, m: Move, t: Turn, ref: nat, app: App)
    requires ProjectsSession(m, s.limits)
    requires var p := Projected(BeforeProjection(s, m, t), MoveEvent(m).value.app).registry; Valid(p) && Names(p, ref, app)
    ensures Names(AuthorityAfter(s, m, t).registry, ref, app)
  {
    var p := Projected(BeforeProjection(s, m, t), MoveEvent(m).value.app);
    InterleavedNames(p, t.late, ref, app);
    if s.desk.active.Some? {
      RevokeNames(Interleaved(p, t.late), s.desk.active.value.app, ref, app);
    }
  }

  lemma {:induction false} OldNames(s: State, m: Move, t: Turn, ref: nat, app: App)
    requires Valid(s.registry) && Names(s.registry, ref, app)
    ensures Names(AuthorityAfter(s, m, t).registry, ref, app)
  {
    if m.Shut? {
      var a := Authority(s.registry, s.revoked);
      InterleavedNames(a, t.before, ref, app);
      RevokeAllNames(Interleaved(a, t.before), Living(s.observed, Interleaved(a, t.before).registry.dead), ref, app);
    } else if ProjectsSession(m, s.limits) {
      BeforeProjectionNames(s, m, t, ref, app);
      var before := BeforeProjection(s, m, t).registry;
      ApplyKeepsValid(before, ProjectApp(MoveEvent(m).value.app));
      ApplyKeepsName(before, ProjectApp(MoveEvent(m).value.app), ref, app);
      AfterProjectionNames(s, m, t, ref, app);
    }
  }

  lemma {:induction false} NewNames(s: State, t: Turn, note: Note)
    requires Inv(s) && Enabled(s, t) && Notes(Step(s, t).desk, note) && !Notes(s.desk, note)
    ensures Names(Step(s, t).registry, note.ref, note.app)
  {
    var m := MoveOf(s.desk, t);
    StepNotes(s.desk, t, AdviceOf(s, m, t), note);
    BeforeProjectionUpholds(s, t);
    var before := BeforeProjection(s, m, t).registry;
    ApplyKeepsValid(before, ProjectApp(note.app));
    ProjectNames(before, note.app);
    AfterProjectionNames(s, m, t, note.ref, note.app);
  }

  ghost predicate AllNamed(s: State) {
    forall note :: Notes(s.desk, note) ==> Names(s.registry, note.ref, note.app)
  }

  lemma {:induction false} StepKeepsNamed(s: State, t: Turn)
    requires Inv(s) && Enabled(s, t) && AllNamed(s)
    ensures AllNamed(Step(s, t))
  {
    forall note | Notes(Step(s, t).desk, note) ensures Names(Step(s, t).registry, note.ref, note.app) {
      if Notes(s.desk, note) {
        OldNames(s, MoveOf(s.desk, t), t, note.ref, note.app);
      } else {
        NewNames(s, t, note);
      }
    }
  }

  /** In every run, the reference that a notification carries was given out for its own session and never names another. */
  lemma {:induction false} NotesNameTheirSession(states: seq<State>, turns: seq<Turn>, i: nat)
    requires Run(states, turns) && i < |states|
    ensures AllNamed(states[i])
    decreases i
  {
    if i > 0 {
      NotesNameTheirSession(states, turns, i - 1);
      RunInv(states, turns, i - 1);
      StepKeepsNamed(states[i - 1], turns[i - 1]);
    }
  }
}
