/**
 Authority in the dispatcher: what a turn revokes stays revoked, and a running decision belongs to a session that has
 not been revoked.
 */
module DispatcherAuthority {
  import opened Common
  import opened Registry
  import opened Dispatcher
  import opened DispatcherLedger

  // ----- Revoked sessions stay tombstoned while they live -----

  ghost predicate Upheld(a: Authority) {
    && Valid(a.registry)
    && forall app :: app in a.revoked && app !in a.registry.dead ==> Tombstoned(a.registry, app)
  }

  lemma {:induction false} InterleavedUpholds(a: Authority, ops: seq<Op>)
    requires Upheld(a)
    ensures Upheld(Interleaved(a, ops))
    ensures forall app :: app in Interleaved(a, ops).registry.dead <==> app in a.registry.dead || DropState(app) in ops
  {
    ApplyAllKeepsValid(a.registry, ops);
    var b := Interleaved(a, ops);
    forall app | app in b.revoked && app !in b.registry.dead ensures Tombstoned(b.registry, app) {
      TombstonePermanent(a.registry, ops, app);
    }
  }

  lemma {:induction false} RevokeUpholds(a: Authority, app: App)
    requires Upheld(a) && app !in a.registry.dead
    ensures Upheld(Revoke(a, app)) && Revoke(a, app).registry.dead == a.registry.dead
  {
    InvalidateTombstones(a.registry, app);
    var b := Revoke(a, app);
    forall other | other in b.revoked && other !in b.registry.dead ensures Tombstoned(b.registry, other) {
      if other != app {
        ApplyKeepsTombstone(a.registry, InvalidateApp(app), other);
      }
    }
  }

  lemma {:induction false} ProjectedUpholds(a: Authority, app: App)
    requires Upheld(a)
    ensures Upheld(Projected(a, app)) && Projected(a, app).registry.dead == a.registry.dead
  {
    ApplyKeepsValid(a.registry, ProjectApp(app));
    var b := Projected(a, app);
    forall other | other in b.revoked && other !in b.registry.dead ensures Tombstoned(b.registry, other) {
      ApplyKeepsTombstone(a.registry, ProjectApp(app), other);
    }
  }

  lemma {:induction false} RevokeAllUpholds(a: Authority, apps: seq<App>)
    requires Upheld(a) && forall app :: app in apps ==> app !in a.registry.dead
    ensures Upheld(RevokeAll(a, apps)) && RevokeAll(a, apps).registry.dead == a.registry.dead
    ensures RevokeAll(a, apps).revoked == a.revoked + (set app | app in apps)
  {
    if apps != [] {
      var front := apps[..|apps| - 1];
      assert apps == front + [apps[|apps| - 1]];
      RevokeAllUpholds(a, front);
      RevokeUpholds(RevokeAll(a, front), apps[|apps| - 1]);
    }
  }

  lemma {:induction false} LivingIsFilter(observed: seq<App>, dead: set<App>)
    ensures forall app :: app in Living(observed, dead) <==> app in observed && app !in dead
  {
    if observed != [] {
      LivingIsFilter(observed[..|observed| - 1], dead);
      assert observed == observed[..|observed| - 1] + [observed[|observed| - 1]];
    }
  }

  /** Everything the dispatcher references is alive. */
  ghost predicate HeldAlive(d: Desk, dead: set<App>) {
    forall app :: Holds(d, app) ==> app !in dead
  }

  lemma {:induction false} MoveEventAlive(s: State, t: Turn)
    requires HeldAlive(s.desk, s.registry.dead) && Enabled(s, t) && MoveEvent(MoveOf(s.desk, t)).Some?
    ensures var app := MoveEvent(MoveOf(s.desk, t)).value.app;
            app !in s.registry.dead && !MayDrop(t, app)
  {
    var m := MoveOf(s.desk, t);
    if m.OpenQueued? {
      assert ItemApp(s.desk.deferred[0]) == m.event.app;
      assert Holds(s.desk, m.event.app);
    }
  }

  lemma {:induction false} FirstAccessUpholds(s: State, t: Turn)
    requires Upheld(Authority(s.registry, s.revoked)) && HeldAlive(s.desk, s.registry.dead) && Enabled(s, t)
    requires MoveEvent(MoveOf(s.desk, t)).Some?
    ensures var a := FirstAccess(s, MoveOf(s.desk, t), t);
            && Upheld(a)
            && s.revoked <= a.revoked && s.registry.dead <= a.registry.dead
            && forall app :: app in a.registry.dead ==> app in s.registry.dead || MayDrop(t, app)
  {
    var m := MoveOf(s.desk, t);
    var a := Authority(s.registry, s.revoked);
    MoveEventAlive(s, t);
    InterleavedUpholds(a, t.before);
    RevokeUpholds(Interleaved(a, t.before), MoveEvent(m).value.app);
  }

  lemma {:induction false} BeforeProjectionUpholds(s: State, t: Turn)
    requires Upheld(Authority(s.registry, s.revoked)) && HeldAlive(s.desk, s.registry.dead) && Enabled(s, t)
    requires MoveEvent(MoveOf(s.desk, t)).Some?
    ensures var a := BeforeProjection(s, MoveOf(s.desk, t), t);
            && Upheld(a)
            && a.revoked == FirstAccess(s, MoveOf(s.desk, t), t).revoked && s.registry.dead <= a.registry.dead
            && forall app :: app in a.registry.dead ==> app in s.registry.dead || MayDrop(t, app)
  {
    FirstAccessUpholds(s, t);
    var a := FirstAccess(s, MoveOf(s.desk, t), t);
    InterleavedUpholds(a, t.before);
    InterleavedUpholds(a, t.middle);
  }

  lemma {:induction false} ShutUpholds(s: State, t: Turn)
    requires Upheld(Authority(s.registry, s.revoked)) && MoveOf(s.desk, t).Shut?
    ensures var b := AuthorityAfter(s, Shut, t);
            && Upheld(b)
            && s.revoked <= b.revoked && s.registry.dead <= b.registry.dead
            && (forall app :: app in b.registry.dead ==> app in s.registry.dead || MayDrop(t, app))
            && (forall app :: app in s.observed && app !in b.registry.dead ==> app in b.revoked)
  {
    var a := Interleaved(Authority(s.registry, s.revoked), t.before);
    InterleavedUpholds(Authority(s.registry, s.revoked), t.before);
    LivingIsFilter(s.observed, a.registry.dead);
    RevokeAllUpholds(a, Living(s.observed, a.registry.dead));
  }

  /** No turn, whatever the other tasks do in between, gives a revoked live session its authority back. */
  lemma {:induction false} AuthorityAfterUpholds(s: State, t: Turn)
    requires Upheld(Authority(s.registry, s.revoked)) && HeldAlive(s.desk, s.registry.dead) && Enabled(s, t)
    ensures var b := AuthorityAfter(s, MoveOf(s.desk, t), t);
            && Upheld(b)
            && s.revoked <= b.revoked && s.registry.dead <= b.registry.dead
            && forall app :: app in b.registry.dead ==> app in s.registry.dead || MayDrop(t, app)
  {
    var m := MoveOf(s.desk, t);
    if m.Shut? {
      ShutUpholds(s, t);
    } else if ProjectsSession(m, s.limits) {
      FirstAccessUpholds(s, t);
      BeforeProjectionUpholds(s, t);
      var a := Projected(BeforeProjection(s, m, t), MoveEvent(m).value.app);
      ProjectedUpholds(BeforeProjection(s, m, t), MoveEvent(m).value.app);
      InterleavedUpholds(a, t.late);
      if m.Handle? && s.desk.active.Some? {
        assert Holds(s.desk, s.desk.active.value.app);
        RevokeUpholds(Interleaved(a, t.late), s.desk.active.value.app);
      }
    }
  }

  /** What the turn adds to the revoked sessions. */
  lemma {:induction false} RevokedBy(s: State, t: Turn)
    requires Upheld(Authority(s.registry, s.revoked)) && HeldAlive(s.desk, s.registry.dead) && Enabled(s, t)
    requires !MoveOf(s.desk, t).Shut?
    ensures var m := MoveOf(s.desk, t);
            var b := AuthorityAfter(s, m, t);
            && (MoveEvent(m).Some? && MoveEvent(m).value.AppDisconnect? ==> MoveEvent(m).value.app in b.revoked)
            && (m.Handle? && m.event.CancelRequest? ==>
                  b.revoked == if CancelsAdmission(s.desk, m.event.app) then s.revoked + {m.event.app} else s.revoked)
            && (MoveEvent(m).Some? && MoveEvent(m).value.IsDecision() ==> b.revoked == s.revoked)
            && (m.OpenMessage? && m.event.CancelRequest? ==> b.revoked == s.revoked)
            && (MoveEvent(m).None? ==> b.revoked == s.revoked)
            && (MoveEvent(m).Some? ==> b.revoked <= s.revoked + {MoveEvent(m).value.app} +
                                                    (if s.desk.active.Some? &&
                                                        BusyOverload(s, m, t) then {s.desk.active.value.app} else {}))
  {
  }

  ghost predicate BusyOverload(s: State, m: Move, t: Turn) {
    m.Handle? && m.event.AppDisconnect? && OverloadsAdmission(s.desk, m.event.app, AdviceOf(s, m, t))
  }

  // ----- Held states stay alive -----

  lemma {:induction false} QueueDisconnectHolds(d: Desk, note: Note, app: App)
    requires QueueShape(d.deferred, d.received) && Holds(QueueDisconnect(d, note), app)
    ensures Holds(d, app) || note.app == app
  {
    var e := QueueDisconnect(d, note);
    SaturationYieldsNote(d.deferred, d.active, note, d.received);
    var q := DeferDisconnect(d.deferred, d.active, note);
    if e.active.Some? && e.active.value.app == app {
      if q.next.Some? {
        assert ItemApp(d.deferred[0]) == app;
      }
    } else {
      var i :| 0 <= i < |e.deferred| && ItemApp(e.deferred[i]) == app;
      assert e.deferred[i] in d.deferred || e.deferred[i] == Notification(note);
    }
  }

  lemma {:induction false} SweepHolds(d: Desk, swept: App, app: App)
    requires Holds(Sweep(d, swept), app)
    ensures Holds(d, app)
  {
    var e := Sweep(d, swept);
    RetainedIsFilter(d.deferred, swept);
    if !(e.active.Some? && e.active.value.app == app) {
      var i :| 0 <= i < |e.deferred| && ItemApp(e.deferred[i]) == app;
      var j :| 0 <= j < |d.deferred| && d.deferred[j] == e.deferred[i];
      assert ItemApp(d.deferred[j]) == app;
    }
  }

  lemma {:induction false} OnCancelHolds(d: Desk, source: App, id: nat, a: Advice, app: App)
    requires Holds(OnCancel(d, source, id, a), app)
    ensures Holds(d, app) || app == source
  {
    var e := OnCancel(d, source, id, a);
    var swept := Sweep(d, source);
    if app != source {
      if e.active.Some? && e.active.value.app == app {
        assert Holds(swept, app);
      } else {
        var i :| 0 <= i < |e.deferred| && ItemApp(e.deferred[i]) == app;
        assert i < |swept.deferred| && swept.deferred[i] == e.deferred[i];
        assert Holds(swept, app);
      }
      SweepHolds(d, source, app);
    }
  }

  lemma {:induction false} OnDisconnectHolds(d: Desk, source: App, a: Advice, app: App)
    requires QueueShape(d.deferred, d.received) && ActiveShape(d.active, d.received)
    requires Holds(OnDisconnect(d, source, a), app)
    ensures Holds(d, app) || app == source
  {
    var swept := Sweep(d, source);
    SweepShape(d, source);
    if a.noted.Success? {
      var note := Note(source, a.noted.value, DisconnectNote, false);
      if IsDecisionFor(d.active, source) {
        if app != source {
          var i :| 0 <= i < |swept.deferred| && ItemApp(swept.deferred[i]) == app;
          SweepHolds(d, source, app);
        }
      } else {
        QueueDisconnectHolds(swept, note, app);
        if Holds(swept, app) {
          SweepHolds(d, source, app);
        }
      }
    } else {
      SweepHolds(d, source, app);
    }
  }

  lemma {:induction false} HandleHolds(d: Desk, event: Event, a: Advice, app: App)
    requires Shape(d) && Holds(HandleEvent(d, event, a), app)
    ensures Holds(d, app) || app == event.app
  {
    var h := Heard(d, event);
    HeardFrame(d, event, 0);
    match event
    case CancelRequest(source) => OnCancelHolds(h, source, |d.received|, a, app); assert Holds(h, app) ==> Holds(d, app);
    case AppDisconnect(source) => OnDisconnectHolds(h, source, a, app); assert Holds(h, app) ==> Holds(d, app);
    case _ =>
      var e := HandleEvent(d, event, a);
      if !(e.active.Some? && e.active.value.app == app) {
        var i :| 0 <= i < |e.deferred| && ItemApp(e.deferred[i]) == app;
        assert i < |d.deferred| ==> d.deferred[i] == e.deferred[i];
      }
  }

  lemma {:induction false} StepHolds(d: Desk, t: Turn, a: Advice, app: App)
    requires Shape(d) && Awake(d, t) && Holds(StepDesk(d, MoveOf(d, t), a), app)
    ensures Holds(d, app) || (MoveEvent(MoveOf(d, t)).Some? && MoveEvent(MoveOf(d, t)).value.app == app)
  {
    var m := MoveOf(d, t);
    var e := StepDesk(d, m, a);
    if m.Handle? {
      HandleHolds(d, m.event, a, app);
    } else if !(e.active.Some? && e.active.value.app == app) {
      var i :| 0 <= i < |e.deferred| && ItemApp(e.deferred[i]) == app;
      assert e.deferred[i] in d.deferred;
    } else if m.StartQueued? {
      assert ItemApp(d.deferred[0]) == app;
    }
  }

  lemma {:induction false} StepKeepsHeldAlive(s: State, t: Turn)
    requires Upheld(Authority(s.registry, s.revoked)) && HeldAlive(s.desk, s.registry.dead) && Enabled(s, t) && Shape(s.desk)
    ensures HeldAlive(Step(s, t).desk, Step(s, t).registry.dead)
  {
    var n := Step(s, t);
    AuthorityAfterUpholds(s, t);
    forall app | Holds(n.desk, app) ensures app !in n.registry.dead {
      StepHolds(s.desk, t, AdviceOf(s, MoveOf(s.desk, t), t), app);
      if MoveEvent(MoveOf(s.desk, t)).Some? {
        MoveEventAlive(s, t);
      }
    }
  }

  // ----- The running decision belongs to a session that is not revoked -----

  ghost predicate Granted(s: State) {
    s.desk.active.Some? && s.desk.active.value.kind.Decision? ==> s.desk.active.value.app !in s.revoked
  }

  lemma {:induction false} OpenGranted(s: State, t: Turn)
    requires Upheld(Authority(s.registry, s.revoked)) && HeldAlive(s.desk, s.registry.dead) && Enabled(s, t)
    requires var m := MoveOf(s.desk, t); MoveEvent(m).Some? && !m.Handle? && MoveEvent(m).value.IsDecision()
    ensures AdviceOf(s, MoveOf(s.desk, t), t).granted.Success? ==> MoveEvent(MoveOf(s.desk, t)).value.app !in s.revoked
  {
    var m := MoveOf(s.desk, t);
    var app := MoveEvent(m).value.app;
    MoveEventAlive(s, t);
    BeforeProjectionUpholds(s, t);
    RegisterGrantsIffNotTombstoned(BeforeProjection(s, m, t).registry, app);
  }

  /** After a turn the running callback is a decision only if it was just granted or was running before and was not swept. */
  lemma {:induction false} ActiveDecisionOrigin(d: Desk, t: Turn, a: Advice)
    requires Shape(d) && Awake(d, t)
    requires var e := StepDesk(d, MoveOf(d, t), a); e.active.Some? && e.active.value.kind.Decision?
    ensures var m := MoveOf(d, t);
            var app := StepDesk(d, m, a).active.value.app;
            if m.Handle? then
              && d.active == StepDesk(d, m, a).active
              && (!m.event.IsDecision() ==> app != m.event.app)
              && (m.event.AppDisconnect? ==> !OverloadsAdmission(d, m.event.app, a))
            else MoveEvent(m).Some? && MoveEvent(m).value.IsDecision() && MoveEvent(m).value.app == app && a.granted.Success?
  {
    var m := MoveOf(d, t);
    if m.Handle? {
      var h := Heard(d, m.event);
      HeardFrame(d, m.event, 0);
      if m.event.AppDisconnect? {
        SweepShape(h, m.event.app);
      }
    } else if m.OpenQueued? {
      assert d.deferred[0].event.IsDecision();
    }
  }

  lemma {:induction false} StepKeepsGranted(s: State, t: Turn)
    requires Upheld(Authority(s.registry, s.revoked)) && HeldAlive(s.desk, s.registry.dead) && Enabled(s, t)
    requires Shape(s.desk) && Granted(s)
    ensures Granted(Step(s, t))
  {
    var n := Step(s, t);
    var m := MoveOf(s.desk, t);
    var a := AdviceOf(s, m, t);
    if n.desk.active.Some? && n.desk.active.value.kind.Decision? {
      ActiveDecisionOrigin(s.desk, t, a);
      RevokedBy(s, t);
      if !m.Handle? {
        OpenGranted(s, t);
      }
    }
  }
}
