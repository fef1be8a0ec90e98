/** Order in the dispatcher: arrival order of decisions, first-in first-out of notifications, one disconnect per session. */
module DispatcherOrder {
  import opened Common
  import opened Registry
  import opened Dispatcher
  import opened DispatcherLedger
  import opened DispatcherAuthority

  /** Where the retained items came from. */
  lemma {:induction false} RetainedPositions(items: seq<Deferred>, app: App) returns (p: seq<nat>)
    ensures |p| == |Retained(items, app)|
    ensures forall i :: 0 <= i < |p| ==> p[i] < |items| && items[p[i]] == Retained(items, app)[i]
    ensures forall i, j :: 0 <= i < j < |p| ==> p[i] < p[j]
  {
    p := [];
    if items != [] {
      p := RetainedPositions(items[..|items| - 1], app);
      if !IsDecisionOf(items[|items| - 1], app) {
        p := p + [|items| - 1];
      }
    }
  }

  // ----- Decisions start in arrival order -----

  ghost predicate QueueOrdered(items: seq<Deferred>) {
    forall i, j :: 0 <= i < j < |items| && items[i].Raw? && items[j].Raw? ==> items[i].id < items[j].id
  }

  /** Every decision shown so far arrived before every decision still queued. */
  ghost predicate ShownBefore(starts: seq<Start>, items: seq<Deferred>) {
    forall i, j :: 0 <= i < |starts| && 0 <= j < |items| && starts[i].StartDecision? && items[j].Raw? ==>
          starts[i].id < items[j].id
  }

  ghost predicate ShownOrdered(starts: seq<Start>, bound: nat) {
    && (forall i :: 0 <= i < |starts| && starts[i].StartDecision? ==> starts[i].id < bound)
    && (forall i, j :: 0 <= i < j < |starts| && starts[i].StartDecision? && starts[j].StartDecision? ==>
            starts[i].id < starts[j].id)
  }

  ghost predicate Ordered(d: Desk) {
    QueueOrdered(d.deferred) && ShownBefore(d.starts, d.deferred) && ShownOrdered(d.starts, |d.received|)
  }

  lemma {:induction false} SweepOrdered(d: Desk, app: App)
    requires Ordered(d)
    ensures Ordered(Sweep(d, app))
  {
    var p := RetainedPositions(d.deferred, app);
  }

  /** `r` starts with the items at the increasing positions `p`. */
  ghost predicate Selects(items: seq<Deferred>, r: seq<Deferred>, p: seq<nat>) {
    && |p| <= |r|
    && (forall i :: 0 <= i < |p| ==> p[i] < |items| && items[p[i]] == r[i])
    && (forall i, j :: 0 <= i < j < |p| ==> p[i] < p[j])
  }

  lemma {:induction false} SelectsAll(items: seq<Deferred>, tail: seq<Deferred>) returns (p: seq<nat>)
    ensures |p| == |items| && Selects(items, items + tail, p)
  {
    p := seq(|items|, i => i);
  }

  lemma {:induction false} SelectsBut(items: seq<Deferred>, k: nat, tail: seq<Deferred>) returns (p: seq<nat>)
    requires k < |items|
    ensures |p| == |items| - 1 && Selects(items, items[..k] + items[k + 1..] + tail, p)
    ensures forall i :: 0 <= i < |p| ==> p[i] != k
  {
    p := seq(|items| - 1, i => if i < k then i else i + 1);
  }

  /** `defer_xswd_disconnect` drops one item at most and appends the notification at most: where the kept items came from. */
  lemma {:induction false} DeferPositions(items: seq<Deferred>, active: Option<Active>, note: Note) returns (p: seq<nat>)
    ensures var q := DeferDisconnect(items, active, note);
            && Selects(items, q.deferred, p)
            && (q.deferred[|p|..] == [] ||
                  (q.deferred[|p|..] == [Notification(note)] && !DisconnectKnown(items, active, note.app)))
            && (q.next.Some? ==> forall i :: 0 <= i < |p| ==> p[i] > 0)
  {
    var r := DeferDisconnect(items, active, note).deferred;
    if DisconnectKnown(items, active, note.app) {
      p := SelectsAll(items, []);
      assert items + [] == r;
    } else if |items| < MAX_DEFERRED {
      p := SelectsAll(items, [Notification(note)]);
    } else {
      var k := if FirstDecision(items) < |items| then FirstDecision(items) else 0;
      var kept := items[..k] + items[k + 1..];
      assert k == 0 ==> kept == items[1..];
      p := SelectsBut(items, k, r[|kept|..]);
      assert r == kept + r[|kept|..];
    }
  }

  lemma {:induction false} DeferDisconnectOrdered(items: seq<Deferred>, active: Option<Active>, note: Note, starts: seq<Start>)
    requires QueueOrdered(items) && ShownBefore(starts, items)
    ensures QueueOrdered(DeferDisconnect(items, active, note).deferred)
    ensures ShownBefore(starts, DeferDisconnect(items, active, note).deferred)
  {
    var p := DeferPositions(items, active, note);
    var r := DeferDisconnect(items, active, note).deferred;
    forall i | |p| <= i < |r| ensures r[i].Notification? {
      assert r[i] == r[|p|..][i - |p|];
    }
    SelectionOrdered(items, r, p, starts);
  }

  /** A selection from an ordered queue, with notifications after it, is ordered. */
  lemma {:induction false} SelectionOrdered(items: seq<Deferred>, r: seq<Deferred>, p: seq<nat>, starts: seq<Start>)
    requires QueueOrdered(items) && ShownBefore(starts, items) && Selects(items, r, p)
    requires forall i :: |p| <= i < |r| ==> r[i].Notification?
    ensures QueueOrdered(r) && ShownBefore(starts, r)
  {
  }

  lemma {:induction false} QueueDisconnectOrdered(d: Desk, note: Note)
    requires Ordered(d)
    ensures Ordered(QueueDisconnect(d, note))
  {
    DeferDisconnectOrdered(d.deferred, d.active, note, d.starts);
  }

  lemma {:induction false} OnCancelOrdered(d: Desk, app: App, id: nat, a: Advice)
    requires Ordered(d)
    ensures Ordered(OnCancel(d, app, id, a))
  {
    SweepOrdered(d, app);
  }

  lemma {:induction false} OnDisconnectOrdered(d: Desk, app: App, a: Advice)
    requires Ordered(d) && QueueShape(d.deferred, d.received) && ActiveShape(d.active, d.received)
    ensures Ordered(OnDisconnect(d, app, a))
  {
    SweepOrdered(d, app);
    SweepShape(d, app);
    if a.noted.Success? && !IsDecisionFor(d.active, app) {
      QueueDisconnectOrdered(Sweep(d, app), Note(app, a.noted.value, DisconnectNote, false));
    }
  }

  lemma {:induction false} HandleOrdered(d: Desk, event: Event, a: Advice)
    requires Ordered(d) && Shape(d)
    ensures Ordered(HandleEvent(d, event, a))
  {
    var h := Heard(d, event);
    HeardFrame(d, event, 0);
    match event
    case CancelRequest(app) => OnCancelOrdered(h, app, |d.received|, a);
    case AppDisconnect(app) => OnDisconnectOrdered(h, app, a);
    case _ =>
  }

  lemma {:induction false} OpenOrdered(d: Desk, event: Event, id: nat, a: Advice)
    requires Ordered(d) && id < |d.received|
    requires forall i :: 0 <= i < |d.deferred| && d.deferred[i].Raw? ==> id < d.deferred[i].id
    requires forall i :: 0 <= i < |d.starts| && d.starts[i].StartDecision? ==> d.starts[i].id < id
    ensures Ordered(Open(d, event, id, a))
  {
  }

  lemma {:induction false} StepKeepsOrdered(d: Desk, t: Turn, a: Advice)
    requires Ordered(d) && Shape(d) && Awake(d, t)
    ensures Ordered(StepDesk(d, MoveOf(d, t), a))
  {
    var m := MoveOf(d, t);
    match m
    case Handle(event) => HandleOrdered(d, event, a);
    case OpenQueued(event, id) =>
      assert d.deferred[0] == Raw(event, id);
      OpenOrdered(d.(deferred := d.deferred[1..]), event, id, a);
    case OpenMessage(event) => OpenOrdered(Received(d, event), event, |d.received|, a);
    case _ =>
  }

  // ----- One disconnect notification per session -----

  predicate IsDisconnectItem(item: Deferred) {
    item.Notification? && item.note.kind == DisconnectNote
  }

  ghost predicate QueueDisconnects(items: seq<Deferred>, revoked: set<App>) {
    && (forall i :: 0 <= i < |items| && IsDisconnectItem(items[i]) ==> items[i].note.app in revoked)
    && (forall i, j :: 0 <= i < j < |items| && IsDisconnectItem(items[i]) && IsDisconnectItem(items[j]) ==>
                         items[i].note.app != items[j].note.app)
  }

  /**
   The queue and the running callback together hold at most one disconnect notification of a session, and only of
   revoked ones.
   */
  ghost predicate Disconnects(d: Desk, revoked: set<App>) {
    && QueueDisconnects(d.deferred, revoked)
    && forall i :: 0 <= i < |d.deferred| && IsDisconnectItem(d.deferred[i]) ==> !IsDisconnectFor(d.active, d.deferred[i].note.app)
  }

  lemma {:induction false} SweepDisconnects(d: Desk, app: App, revoked: set<App>)
    requires Disconnects(d, revoked)
    ensures Disconnects(Sweep(d, app), revoked)
  {
    var p := RetainedPositions(d.deferred, app);
  }

  lemma {:induction false} DeferDisconnectUnique(items: seq<Deferred>, active: Option<Active>, note: Note, revoked: set<App>)
    requires QueueDisconnects(items, revoked) && note.app in revoked
    ensures QueueDisconnects(DeferDisconnect(items, active, note).deferred, revoked)
  {
    var p := DeferPositions(items, active, note);
    var r := DeferDisconnect(items, active, note).deferred;
    assert forall i :: |p| <= i < |r| ==> r[i] == r[|p|..][i - |p|];
    forall i, j | 0 <= i < j < |r| && IsDisconnectItem(r[i]) && IsDisconnectItem(r[j]) ensures r[i].note.app != r[j].note.app {
      if j == |p| {
        assert !IsDisconnectNoteOf(items[p[i]], note.app);
      } else {
        assert p[i] < p[j];
      }
    }
  }

  /** Nothing left in the queue repeats the running callback, or the notification that replaces it. */
  lemma {:induction false} DeferDisconnectApart(items: seq<Deferred>, active: Option<Active>, note: Note, revoked: set<App>)
    requires QueueDisconnects(items, revoked) && note.kind == DisconnectNote
    requires forall i :: 0 <= i < |items| && IsDisconnectItem(items[i]) ==> !IsDisconnectFor(active, items[i].note.app)
    ensures var q := DeferDisconnect(items, active, note);
            forall i :: 0 <= i < |q.deferred| && IsDisconnectItem(q.deferred[i]) ==>
              if q.next.Some? then !(q.next.value.kind == DisconnectNote && q.next.value.app == q.deferred[i].note.app)
              else !IsDisconnectFor(active, q.deferred[i].note.app)
  {
    var p := DeferPositions(items, active, note);
    var q := DeferDisconnect(items, active, note);
    assert forall i :: |p| <= i < |q.deferred| ==> q.deferred[i] == q.deferred[|p|..][i - |p|];
    if q.next.Some? {
      assert q.next.value == items[0].note && !IsDisconnectNoteOf(items[0], note.app);
    }
  }

  lemma {:induction false} QueueDisconnectDisconnects(d: Desk, note: Note, revoked: set<App>)
    requires Disconnects(d, revoked) && QueueShape(d.deferred, d.received)
    requires note.app in revoked && note.kind == DisconnectNote
    ensures Disconnects(QueueDisconnect(d, note), revoked)
  {
    DeferDisconnectUnique(d.deferred, d.active, note, revoked);
    DeferDisconnectApart(d.deferred, d.active, note, revoked);
  }

  lemma {:induction false} HandleDisconnects(d: Desk, event: Event, a: Advice, revoked: set<App>, after: set<App>)
    requires Disconnects(d, revoked) && Shape(d) && d.active.Some?
    requires d.active.value.kind.Decision? ==> d.active.value.app !in revoked
    requires revoked <= after && (event.AppDisconnect? ==> event.app in after)
    ensures Disconnects(HandleEvent(d, event, a), after)
  {
    var h := Heard(d, event);
    HeardFrame(d, event, 0);
    assert Disconnects(h, after);
    if !event.IsDecision() {
      SweepDisconnects(h, event.app, after);
      SweepShape(h, event.app);
      if event.AppDisconnect? && a.noted.Success? {
        if IsDecisionFor(h.active, event.app) {
          SweepDisconnects(h, event.app, revoked);
        } else {
          QueueDisconnectDisconnects(Sweep(h, event.app), Note(event.app, a.noted.value, DisconnectNote, false), after);
        }
      }
    }
  }

  lemma {:induction false} StepKeepsDisconnects(s: State, t: Turn)
    requires Upheld(Authority(s.registry, s.revoked)) && HeldAlive(s.desk, s.registry.dead) && Enabled(s, t)
    requires Shape(s.desk) && DispatcherAuthority.Granted(s) && Disconnects(s.desk, s.revoked)
    ensures Disconnects(Step(s, t).desk, Step(s, t).revoked)
  {
    var m := MoveOf(s.desk, t);
    var n := Step(s, t);
    AuthorityAfterUpholds(s, t);
    if !m.Shut? {
      RevokedBy(s, t);
    }
    if m.Handle? {
      HandleDisconnects(s.desk, m.event, AdviceOf(s, m, t), s.revoked, n.revoked);
    } else if m.OpenQueued? {
      assert s.desk.deferred[0].event.IsDecision();
    } else if m.StartQueued? {
      assert s.desk.deferred[0] == Notification(m.note);
    }
  }

  // ----- Queued notifications leave only by being started, oldest first -----

  function Notes(items: seq<Deferred>): seq<Note> {
    if items == [] then []
    else
      var front := Notes(items[..|items| - 1]);
      if items[|items| - 1].Notification? then front + [items[|items| - 1].note] else front
  }

  lemma {:induction false} NotesConcat(a: seq<Deferred>, b: seq<Deferred>)
    ensures Notes(a + b) == Notes(a) + Notes(b)
  {
    if b == [] {
      assert a + b == a;
    } else {
      assert (a + b)[..|a + b| - 1] == a + b[..|b| - 1];
      NotesConcat(a, b[..|b| - 1]);
    }
  }

  lemma {:induction false} NotesOne(item: Deferred)
    ensures Notes([item]) == if item.Notification? then [item.note] else []
  {
    assert [item][..0] == [];
  }

  lemma {:induction false} NotesPop(items: seq<Deferred>)
    requires items != []
    ensures Notes(items) == (if items[0].Notification? then [items[0].note] else []) + Notes(items[1..])
  {
    assert items == [items[0]] + items[1..];
    NotesConcat([items[0]], items[1..]);
    NotesOne(items[0]);
  }

  lemma {:induction false} NotesAppend(items: seq<Deferred>, item: Deferred)
    ensures Notes(items + [item]) == Notes(items) + (if item.Notification? then [item.note] else [])
  {
    NotesConcat(items, [item]);
    NotesOne(item);
  }

  lemma {:induction false} NotesOfRetained(items: seq<Deferred>, app: App)
    ensures Notes(Retained(items, app)) == Notes(items)
  {
    if items != [] {
      NotesOfRetained(items[..|items| - 1], app);
      if !IsDecisionOf(items[|items| - 1], app) {
        NotesAppend(Retained(items[..|items| - 1], app), items[|items| - 1]);
      }
    }
  }

  lemma {:induction false} NotesRemove(items: seq<Deferred>, i: nat)
    requires i < |items| && items[i].Raw?
    ensures Notes(items[..i] + items[i + 1..]) == Notes(items)
  {
    assert items == (items[..i] + [items[i]]) + items[i + 1..];
    NotesConcat(items[..i] + [items[i]], items[i + 1..]);
    NotesAppend(items[..i], items[i]);
    NotesConcat(items[..i], items[i + 1..]);
  }

  /** Between two desks the notification queue only grew at its end, except that its front may have been started. */
  ghost predicate FirstInFirstOut(d: Desk, e: Desk) {
    || Notes(d.deferred) <= Notes(e.deferred)
    || (Notes(d.deferred) != [] && Notes(d.deferred)[1..] <= Notes(e.deferred) &&
        e.starts == d.starts + [StartNote(Notes(d.deferred)[0])])
  }

  lemma {:induction false} QueueDisconnectFifo(d: Desk, note: Note)
    requires QueueShape(d.deferred, d.received)
    ensures FirstInFirstOut(d, QueueDisconnect(d, note))
  {
    var items := d.deferred;
    var i := FirstDecision(items);
    SaturationYieldsNote(items, d.active, note, d.received);
    if !DisconnectKnown(items, d.active, note.app) {
      if |items| < MAX_DEFERRED {
        NotesAppend(items, Notification(note));
      } else if i < |items| {
        NotesRemove(items, i);
        NotesAppend(items[..i] + items[i + 1..], Notification(note));
      } else {
        NotesPop(items);
        NotesAppend(items[1..], Notification(note));
      }
    }
  }

  lemma {:induction false} OnCancelFifo(d: Desk, app: App, id: nat, a: Advice)
    ensures FirstInFirstOut(d, OnCancel(d, app, id, a))
  {
    NotesOfRetained(d.deferred, app);
    if a.noted.Success? {
      NotesAppend(Retained(d.deferred, app), Notification(Note(app, a.noted.value, CancelNote, CancelsAdmission(d, app))));
    }
  }

  lemma {:induction false} OnDisconnectFifo(d: Desk, app: App, a: Advice)
    requires Shape(d)
    ensures FirstInFirstOut(d, OnDisconnect(d, app, a))
  {
    NotesOfRetained(d.deferred, app);
    SweepShape(d, app);
    if a.noted.Success? && !IsDecisionFor(d.active, app) {
      QueueDisconnectFifo(Sweep(d, app), Note(app, a.noted.value, DisconnectNote, false));
    }
  }

  lemma {:induction false} HandleFifo(d: Desk, event: Event, a: Advice)
    requires Shape(d)
    ensures FirstInFirstOut(d, HandleEvent(d, event, a))
  {
    var h := Heard(d, event);
    HeardFrame(d, event, 0);
    match event
    case CancelRequest(app) => OnCancelFifo(h, app, |d.received|, a);
    case AppDisconnect(app) => OnDisconnectFifo(h, app, a);
    case _ => NotesAppend(h.deferred, Raw(event, |d.received|));
  }

  /** A queued notification leaves the queue only by being started, oldest first, or when the channel closes. */
  lemma {:induction false} StepFifo(d: Desk, t: Turn, a: Advice)
    requires Shape(d) && Awake(d, t) && !MoveOf(d, t).Shut?
    ensures FirstInFirstOut(d, StepDesk(d, MoveOf(d, t), a))
  {
    var m := MoveOf(d, t);
    if m.Handle? {
      HandleFifo(d, m.event, a);
    } else if m.OpenQueued? || m.StartQueued? {
      NotesPop(d.deferred);
    }
  }
}
