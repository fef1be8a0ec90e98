/**
 The XSWD session registry (rust/src/api/xswd/impl/registry.rs).

 An application state (`Arc<AppState>`) is an opaque number: identity of two
 references is equality of the numbers.  `dead` holds the states whose last strong
 reference is gone; a `Weak` keeps the allocation, so a number is never reused.
 `next` is the process-wide 64-bit reference counter, shared with other registries.
 */
module Registry {
  import opened Common

  type App = nat

  const MAX_REFERENCE: nat := 0xFFFF_FFFF_FFFF_FFFF

  datatype Entry = Entry(app: App, active: bool)

  datatype ReferenceError = Exhausted | Invalid

  datatype Sessions = Sessions(entries: map<nat, Entry>, next: nat, dead: set<App>)

  /** References are below the counter and name pairwise different states. */
  ghost predicate Valid(r: Sessions) {
    && r.next <= MAX_REFERENCE
    && (forall k :: k in r.entries ==> k < r.next)
    && (forall j, k :: j in r.entries && k in r.entries && r.entries[j].app == r.entries[k].app ==> j == k)
  }

  function RemoveDead(r: Sessions): Sessions {
    r.(entries := map k | k in r.entries && r.entries[k].app !in r.dead :: r.entries[k])
  }

  ghost predicate Known(r: Sessions, app: App) {
    exists k :: k in r.entries && r.entries[k].app == app
  }

  ghost function ReferenceOf(r: Sessions, app: App): (k: nat)
    requires Known(r, app)
    ensures k in r.entries && r.entries[k].app == app
  {
    var k :| k in r.entries && r.entries[k].app == app;
    k
  }

  /** Inserts a fresh reference unless the counter is exhausted. */
  function Mint(r: Sessions, app: App, active: bool): Sessions {
    if r.next < MAX_REFERENCE
    then r.(entries := r.entries[r.next := Entry(app, active)], next := r.next + 1)
    else r
  }

  ghost function Project(r: Sessions, app: App): Sessions {
    var alive := RemoveDead(r);
    if Known(alive, app) then alive else Mint(alive, app, true)
  }

  ghost function ProjectResult(r: Sessions, app: App): Result<nat, ReferenceError> {
    var alive := RemoveDead(r);
    if Known(alive, app) then Success(ReferenceOf(alive, app))
    else if alive.next < MAX_REFERENCE then Success(alive.next)
    else Failure(Exhausted)
  }

  /** `register` changes the registry exactly as `project` does. */
  ghost function RegisterResult(r: Sessions, app: App): Result<nat, ReferenceError> {
    match ProjectResult(r, app)
    case Failure(e) => Failure(e)
    case Success(ref) =>
      var after := Project(r, app);
      if ref in after.entries && after.entries[ref].active then Success(ref) else Failure(Invalid)
  }

  function Deactivate(entries: map<nat, Entry>, app: App): map<nat, Entry> {
    map k | k in entries :: if entries[k].app == app then Entry(app, false) else entries[k]
  }

  ghost function Invalidate(r: Sessions, app: App): Sessions {
    var alive := RemoveDead(r);
    if Known(alive, app) then alive.(entries := Deactivate(alive.entries, app))
    else Mint(alive, app, false)
  }

  function Clear(r: Sessions): Sessions {
    var alive := RemoveDead(r);
    alive.(entries := map k | k in alive.entries :: Entry(alive.entries[k].app, false))
  }

  function Resolve(r: Sessions, ref: nat): Option<App> {
    var alive := RemoveDead(r);
    if ref in alive.entries && alive.entries[ref].active then Some(alive.entries[ref].app) else None
  }

  /** What other tasks sharing the registry, the counter and the states may do between two lock acquisitions. */
  datatype Op =
    | ProjectApp(app: App)
    | InvalidateApp(app: App)
    | ClearAll
    | ResolveReference(ref: nat)
    | DropState(app: App)
    | ReferenceTakenElsewhere

  ghost function Apply(r: Sessions, op: Op): Sessions {
    match op
    case ProjectApp(app) => Project(r, app)
    case InvalidateApp(app) => Invalidate(r, app)
    case ClearAll => Clear(r)
    case ResolveReference(_) => RemoveDead(r)
    case DropState(app) => r.(dead := r.dead + {app})
    case ReferenceTakenElsewhere => if r.next < MAX_REFERENCE then r.(next := r.next + 1) else r
  }

  ghost function ApplyAll(r: Sessions, ops: seq<Op>): Sessions
  {
    if ops == [] then r else Apply(ApplyAll(r, ops[..|ops| - 1]), ops[|ops| - 1])
  }

  /**
   A state has lost its authority for good: no reference to it is active, and either a reference
   marks it or the counter can never mint one again.
   */
  ghost predicate Tombstoned(r: Sessions, app: App) {
    && (forall k :: k in r.entries && r.entries[k].app == app ==> !r.entries[k].active)
    && (Known(r, app) || r.next == MAX_REFERENCE)
  }

  lemma {:induction false} RemoveDeadKnown(r: Sessions, app: App)
    ensures Known(RemoveDead(r), app) <==> Known(r, app) && app !in r.dead
  {
    var alive := RemoveDead(r);
    if Known(r, app) && app !in r.dead {
      var k := ReferenceOf(r, app);
      assert k in alive.entries;
    }
  }

  lemma {:induction false} ApplyKeepsValid(r: Sessions, op: Op)
    requires Valid(r)
    ensures Valid(Apply(r, op))
    ensures r.dead <= Apply(r, op).dead
  {
    if op.ProjectApp? || op.InvalidateApp? {
      RemoveDeadKnown(r, op.app);
    }
  }

  lemma {:induction false} ApplyAllKeepsValid(r: Sessions, ops: seq<Op>)
    requires Valid(r)
    ensures Valid(ApplyAll(r, ops))
    ensures r.dead <= ApplyAll(r, ops).dead
    ensures forall app :: app in ApplyAll(r, ops).dead <==> app in r.dead || DropState(app) in ops
  {
    if ops != [] {
      var rest := ops[..|ops| - 1];
      ApplyAllKeepsValid(r, rest);
      ApplyKeepsValid(ApplyAll(r, rest), ops[|ops| - 1]);
    }
  }

  /** A tombstone of a live state survives any single operation of any task. */
  lemma {:induction false} ApplyKeepsTombstone(r: Sessions, op: Op, app: App)
    requires Valid(r) && Tombstoned(r, app) && app !in r.dead
    ensures Tombstoned(Apply(r, op), app)
  {
    RemoveDeadKnown(r, app);
    var after := Apply(r, op);
    if op.ProjectApp? || op.InvalidateApp? {
      RemoveDeadKnown(r, op.app);
    }
    if Known(r, app) {
      var k := ReferenceOf(r, app);
      assert k in after.entries && after.entries[k].app == app;
    }
  }

  /** A tombstone is permanent while its state lives, whatever the other tasks do and even with the counter exhausted. */
  lemma {:induction false} TombstonePermanent(r: Sessions, ops: seq<Op>, app: App)
    requires Valid(r) && Tombstoned(r, app) && app !in r.dead
    requires DropState(app) !in ops
    ensures Tombstoned(ApplyAll(r, ops), app)
    ensures app !in ApplyAll(r, ops).dead
    ensures forall ref :: Resolve(ApplyAll(r, ops), ref) != Some(app)
  {
    if ops != [] {
      var rest := ops[..|ops| - 1];
      TombstonePermanent(r, rest, app);
      ApplyAllKeepsValid(r, rest);
      ApplyKeepsTombstone(ApplyAll(r, rest), ops[|ops| - 1], app);
    }
  }

  /** Invalidation tombstones its state, known or not, and leaves every other tombstone in place. */
  lemma {:induction false} InvalidateTombstones(r: Sessions, app: App)
    requires Valid(r) && app !in r.dead
    ensures Tombstoned(Invalidate(r, app), app)
    ensures Valid(Invalidate(r, app)) && Invalidate(r, app).dead == r.dead
  {
    ApplyKeepsValid(r, InvalidateApp(app));
    RemoveDeadKnown(r, app);
    var alive := RemoveDead(r);
    var after := Invalidate(r, app);
    if Known(alive, app) {
      var k := ReferenceOf(alive, app);
      assert k in after.entries && after.entries[k].app == app;
    } else if alive.next < MAX_REFERENCE {
      assert alive.next in after.entries && after.entries[alive.next].app == app;
    }
  }

  /** A live state obtains a reference through `register` if and only if it is not tombstoned. */
  lemma {:induction false} RegisterGrantsIffNotTombstoned(r: Sessions, app: App)
    requires Valid(r) && app !in r.dead
    ensures RegisterResult(r, app).Success? <==> !Tombstoned(r, app)
  {
    RemoveDeadKnown(r, app);
    var alive := RemoveDead(r);
    if Known(alive, app) {
      var k := ReferenceOf(alive, app);
      assert k in r.entries && r.entries[k].app == app;
      assert ProjectResult(r, app) == Success(k);
    }
  }

  /** Clearing leaves no authority at all, and a tombstone for every live session that was known. */
  lemma {:induction false} ClearTombstones(r: Sessions, app: App, ref: nat)
    requires Valid(r)
    ensures Known(r, app) && app !in r.dead ==> Tombstoned(Clear(r), app)
    ensures Resolve(Clear(r), ref) == None
    ensures Valid(Clear(r)) && Clear(r).next == r.next && Clear(r).dead == r.dead
  {
    ApplyKeepsValid(r, ClearAll);
    RemoveDeadKnown(r, app);
    if Known(r, app) && app !in r.dead {
      var k := ReferenceOf(RemoveDead(r), app);
      assert k in Clear(r).entries && Clear(r).entries[k].app == app;
    }
  }

  // ----- What a reference means -----

  /** The reference was handed out for this state and can never be handed out again. */
  predicate Names(r: Sessions, ref: nat, app: App) {
    ref < r.next && (ref in r.entries ==> r.entries[ref].app == app)
  }

  predicate Authorizes(r: Sessions, ref: nat, app: App) {
    ref in r.entries && r.entries[ref] == Entry(app, true) && app !in r.dead
  }

  predicate Ends(op: Op, app: App) {
    op == InvalidateApp(app) || op == ClearAll || op == DropState(app)
  }

  lemma {:induction false} ResolvesIffAuthorized(r: Sessions, ref: nat, app: App)
    requires Names(r, ref, app)
    ensures Resolve(r, ref) == if Authorizes(r, ref, app) then Some(app) else None
  {
  }

  lemma {:induction false} ApplyKeepsName(r: Sessions, op: Op, ref: nat, app: App)
    requires Valid(r) && Names(r, ref, app)
    ensures Names(Apply(r, op), ref, app)
  {
    if op.ProjectApp? || op.InvalidateApp? {
      RemoveDeadKnown(r, op.app);
    }
  }

  lemma {:induction false} ApplyAuthorizes(r: Sessions, op: Op, ref: nat, app: App)
    requires Valid(r) && Names(r, ref, app)
    ensures Authorizes(Apply(r, op), ref, app) <==> Authorizes(r, ref, app) && !Ends(op, app)
  {
    if op.ProjectApp? || op.InvalidateApp? {
      RemoveDeadKnown(r, op.app);
      if Known(RemoveDead(r), op.app) {
        var k := ReferenceOf(RemoveDead(r), op.app);
        assert k in r.entries;
      }
    }
    if Authorizes(r, ref, app) {
      assert ref in RemoveDead(r).entries;
    }
  }

  lemma {:induction false} ApplyAllAuthorizes(r: Sessions, ops: seq<Op>, ref: nat, app: App)
    requires Valid(r) && Names(r, ref, app)
    ensures Names(ApplyAll(r, ops), ref, app)
    ensures Authorizes(ApplyAll(r, ops), ref, app) <==> Authorizes(r, ref, app) && forall op :: op in ops ==> !Ends(op, app)
  {
    if ops != [] {
      var rest, last := ops[..|ops| - 1], ops[|ops| - 1];
      ApplyAllAuthorizes(r, rest, ref, app);
      ApplyAllKeepsValid(r, rest);
      ApplyKeepsName(ApplyAll(r, rest), last, ref, app);
      ApplyAuthorizes(ApplyAll(r, rest), last, ref, app);
      assert forall op :: op in ops <==> op in rest || op == last;
    }
  }

  lemma {:induction false} RegisteredIsAuthorized(r: Sessions, app: App)
    requires Valid(r) && app !in r.dead && RegisterResult(r, app).Success?
    ensures Names(Project(r, app), RegisterResult(r, app).value, app)
    ensures Authorizes(Project(r, app), RegisterResult(r, app).value, app)
    ensures Valid(Project(r, app))
  {
    ApplyKeepsValid(r, ProjectApp(app));
  }

  /**
   A granted reference resolves to its own session until that session is invalidated, cleared or dropped, and from then
   on to nothing, whatever the other tasks do.
   */
  lemma {:induction false} GrantLasts(r: Sessions, app: App, ops: seq<Op>)
    requires Valid(r) && app !in r.dead && RegisterResult(r, app).Success?
    ensures var ref := RegisterResult(r, app).value;
            var after := ApplyAll(Project(r, app), ops);
            Resolve(after, ref) ==
              if InvalidateApp(app) in ops || ClearAll in ops || DropState(app) in ops then None else Some(app)
  {
    var ref := RegisterResult(r, app).value;
    RegisteredIsAuthorized(r, app);
    ApplyAllAuthorizes(Project(r, app), ops, ref, app);
    ResolvesIffAuthorized(ApplyAll(Project(r, app), ops), ref, app);
    assert (exists op :: op in ops && Ends(op, app)) <==> InvalidateApp(app) in ops || ClearAll in ops || DropState(app) in ops;
  }

  /** The registry object: the methods of `XswdSessionRegistry`, each proved against the functions above. */
  class SessionRegistry {
    var entries: map<nat, Entry>
    var next: nat
    var dead: set<App>

    constructor ()
      ensures View() == Sessions(map[], 1, {})
      ensures Valid(View())
    {
      entries, next, dead := map[], 1, {};
    }

    function View(): Sessions
      reads this
    {
      Sessions(entries, next, dead)
    }

    method RemoveDeadEntries()
      modifies this
      ensures View() == RemoveDead(old(View()))
    {
      entries := map k | k in entries && entries[k].app !in dead :: entries[k];
    }

    /** The linear search of `project`: the reference found is the only one there is. */
    method Find(app: App) returns (found: Option<nat>)
      requires Valid(View())
      ensures found.Some? <==> Known(View(), app)
      ensures found.Some? ==> found.value == ReferenceOf(View(), app)
    {
      var pending := entries.Keys;
      while pending != {}
        invariant pending <= entries.Keys
        invariant forall k :: k in entries && k !in pending ==> entries[k].app != app
        decreases pending
      {
        var k :| k in pending;
        if entries[k].app == app {
          return Some(k);
        }
        pending := pending - {k};
      }
      found := None;
    }

    method Insert(app: App, active: bool) returns (ref: Option<nat>)
      modifies this
      ensures View() == Mint(old(View()), app, active)
      ensures ref == if old(next) < MAX_REFERENCE then Some(old(next)) else None
    {
      if next < MAX_REFERENCE {
        ref := Some(next);
        entries := entries[next := Entry(app, active)];
        next := next + 1;
      } else {
        ref := None;
      }
    }

    method ProjectState(app: App) returns (r: Result<nat, ReferenceError>)
      requires Valid(View())
      modifies this
      ensures View() == Project(old(View()), app) && Valid(View())
      ensures r == ProjectResult(old(View()), app)
    {
      ApplyKeepsValid(View(), ProjectApp(app));
      RemoveDeadEntries();
      var found := Find(app);
      match found {
        case Some(ref) => r := Success(ref);
        case None =>
          var minted := Insert(app, true);
          r := if minted.Some? then Success(minted.value) else Failure(Exhausted);
      }
    }

    method Register(app: App) returns (r: Result<nat, ReferenceError>)
      requires Valid(View())
      modifies this
      ensures View() == Project(old(View()), app) && Valid(View())
      ensures r == RegisterResult(old(View()), app)
    {
      r := ProjectState(app);
      if r.Success? && !(r.value in entries && entries[r.value].active) {
        r := Failure(Invalid);
      }
    }

    /** The loop of `invalidate_state` over the entries. */
    method DeactivateEntries(app: App) returns (found: bool)
      modifies this`entries
      ensures entries == Deactivate(old(entries), app)
      ensures found <==> Known(old(View()), app)
    {
      found := false;
      var pending := entries.Keys;
      while pending != {}
        invariant entries.Keys == old(entries).Keys && pending <= entries.Keys
        invariant forall k :: k in pending ==> entries[k] == old(entries)[k]
        invariant forall k :: k in entries && k !in pending ==>
                                entries[k] == Deactivate(old(entries), app)[k]
        invariant !found ==> forall k :: k in entries && k !in pending ==> old(entries)[k].app != app
        invariant found ==> Known(old(View()), app)
        decreases pending
      {
        var k :| k in pending;
        if entries[k].app == app {
          entries := entries[k := Entry(app, false)];
          found := true;
        }
        pending := pending - {k};
      }
    }

    /** Deactivates the state, or leaves an inactive reference for a state never seen. */
    method InvalidateState(app: App)
      requires Valid(View())
      modifies this
      ensures View() == Invalidate(old(View()), app) && Valid(View())
    {
      ApplyKeepsValid(View(), InvalidateApp(app));
      RemoveDeadEntries();
      ghost var alive := View();
      var found := DeactivateEntries(app);
      if !found {
        assert entries == alive.entries;
        var _ := Insert(app, false);
      }
    }

    method ClearAuthority()
      requires Valid(View())
      modifies this
      ensures View() == Clear(old(View())) && Valid(View())
      ensures forall app :: Known(old(View()), app) && app !in dead ==> Tombstoned(View(), app)
    {
      RemoveDeadEntries();
      entries := map k | k in entries :: Entry(entries[k].app, false);
      ghost var before := old(View());
      assert View() == Clear(before);
      forall app | Known(before, app) && app !in before.dead ensures Tombstoned(View(), app) {
        ClearTombstones(before, app, 0);
      }
      ClearTombstones(before, 0, 0);
    }

    method ResolveSession(ref: nat) returns (app: Option<App>)
      modifies this
      ensures View() == RemoveDead(old(View()))
      ensures app == Resolve(old(View()), ref)
    {
      RemoveDeadEntries();
      app := if ref in entries && entries[ref].active then Some(entries[ref].app) else None;
    }

    /** Any amount of work by other tasks while this task does not hold the registry lock. */
    method Interleave(ops: seq<Op>)
      requires Valid(View())
      modifies this
      ensures View() == ApplyAll(old(View()), ops) && Valid(View())
    {
      ghost var start := View();
      for i := 0 to |ops|
        invariant View() == ApplyAll(start, ops[..i]) && Valid(View())
      {
        ApplyKeepsValid(View(), ops[i]);
        assert ops[..i + 1][..i] == ops[..i];
        match ops[i] {
          case ProjectApp(app) => var _ := ProjectState(app);
          case InvalidateApp(app) => InvalidateState(app);
          case ClearAll => ClearAuthority();
          case ResolveReference(ref) => var _ := ResolveSession(ref);
          case DropState(app) => dead := dead + {app};
          case ReferenceTakenElsewhere =>
            if next < MAX_REFERENCE {
              next := next + 1;
            }
        }
      }
      assert ops[..|ops|] == ops;
    }
  }
}
