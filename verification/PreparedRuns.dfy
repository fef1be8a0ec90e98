/**
 Every run of the prepared-transaction store: its guards are created, used and dropped in any order, by any number of
 tasks, between operations that need no guard.
 */
module PreparedRuns {
  import opened Common
  import opened Prepared

  /** A preparation guard, as a value. */
  datatype Preparation = Preparation(generation: nat, live: bool)

  /** A submission guard, as a value. */
  datatype Submission<T> = Submission(generation: nat, hash: Hash, transaction: Option<T>, live: bool)

  /** `minted` records what each generation was published with. */
  datatype System<T> = System(
    store: Store<T>,
    preparations: seq<Preparation>,
    submissions: seq<Submission<T>>,
    minted: map<nat, (Hash, T)>)

  datatype Step<T> =
    | Outside(op: Op<T>)
    | Begin
    | Commit(p: nat, hash: Hash, transaction: T)
    | DropPreparation(p: nat)
    | Take(hash: Hash)
    | TakeExact(generation: nat, hash: Hash)
    | Restore(i: nat)
    | Finish(i: nat)
    | DropSubmission(i: nat)

  datatype Reply<T> = Accepted | Minted(generation: nat) | Gave(transaction: T) | Refused(error: Error)

  /** A guard is used by its owner, once: commit, restore and finish consume it. */
  predicate Enabled<T>(s: System<T>, step: Step<T>) {
    match step
    case Commit(p, _, _) => p < |s.preparations| && s.preparations[p].live
    case DropPreparation(p) => p < |s.preparations| && s.preparations[p].live
    case Restore(i) => i < |s.submissions| && s.submissions[i].live
    case Finish(i) => i < |s.submissions| && s.submissions[i].live
    case DropSubmission(i) => i < |s.submissions| && s.submissions[i].live
    case _ => true
  }

  function Refuse<T>(refusal: Option<Error>, otherwise: Reply<T>): Reply<T> {
    if refusal.Some? then Refused(refusal.value) else otherwise
  }

  function OpReply<T>(s: Store<T>, op: Op<T>): Reply<T> {
    match op
    case OpReplace(_, _) => Refuse(ReplaceRefusal(s), Minted(s.next + 1))
    case OpCancel(hash) =>
      var refusal := HashRefusal(s, hash, CancellationDuringSubmission, CannotDelete);
      if refusal.Some? then Refused(refusal.value) else Gave(s.slot.transaction)
    case OpCancelExact(generation, hash) =>
      var refusal := ExactRefusal(s, generation, hash, CancellationDuringSubmission);
      if refusal.Some? then Refused(refusal.value) else Gave(s.slot.transaction)
    case OpInspect(generation, hash) =>
      var refusal := ExactRefusal(s, generation, hash, AlreadySubmitting);
      if refusal.Some? then Refused(refusal.value) else Gave(s.slot.transaction)
  }

  function ReplyOf<T>(s: System<T>, step: Step<T>): Reply<T>
    requires Enabled(s, step)
  {
    match step
    case Outside(op) => OpReply(s.store, op)
    case Begin => Refuse(ReplaceRefusal(s.store), Accepted)
    case Commit(p, _, _) => Refuse(CommitRefusal(s.store, s.preparations[p].generation), Minted(s.preparations[p].generation))
    case DropPreparation(_) => Accepted
    case Take(hash) => Refuse(HashRefusal(s.store, hash, AlreadySubmitting, NotFound), Accepted)
    case TakeExact(generation, hash) => Refuse(ExactRefusal(s.store, generation, hash, AlreadySubmitting), Accepted)
    case Restore(i) =>
      var g := s.submissions[i];
      if g.transaction == None then Refused(EmptyGuard)
      else if IsInFlight(s.store, g.generation, g.hash) then Accepted
      else Refused(SubmissionStateInconsistent)
    case Finish(i) =>
      var g := s.submissions[i];
      if g.transaction == None then Refused(EmptyGuard)
      else if IsInFlight(s.store, g.generation, g.hash) then Gave(g.transaction.value)
      else Refused(SubmissionStateInconsistent)
    case DropSubmission(_) => Accepted
  }

  // What the use of one guard does to the store.

  /** Also what dropping the guard does: an untaken transaction goes back. */
  function GiveBack<T>(s: Store<T>, g: Submission<T>): Store<T> {
    if g.transaction == None then s else Restored(s, g.generation, g.hash, g.transaction.value)
  }

  /** A refused finish puts the transaction back and drops the guard, which restores it. */
  function FinishBy<T>(s: Store<T>, g: Submission<T>): Store<T> {
    if g.transaction.Some? && IsInFlight(s, g.generation, g.hash) then Finished(s, g.generation, g.hash) else GiveBack(s, g)
  }

  /** A refused commit still drops the guard, which abandons the preparation. */
  function CommitBy<T>(s: Store<T>, g: Preparation, hash: Hash, transaction: T): Store<T> {
    if CommitRefusal(s, g.generation).Some? then Abandoned(s, g.generation) else Committed(s, g.generation, hash, transaction)
  }

  function DropBy<T>(s: Store<T>, g: Preparation): Store<T> {
    if g.live then Abandoned(s, g.generation) else s
  }

  function StoreAfter<T>(s: System<T>, step: Step<T>): Store<T>
    requires Enabled(s, step)
  {
    match step
    case Outside(op) => After(s.store, op)
    case Begin => Begun(s.store)
    case Commit(p, hash, transaction) => CommitBy(s.store, s.preparations[p], hash, transaction)
    case DropPreparation(p) => DropBy(s.store, s.preparations[p])
    case Take(hash) => Taken(s.store, hash)
    case TakeExact(generation, hash) => TakenExact(s.store, generation, hash)
    case Restore(i) => GiveBack(s.store, s.submissions[i])
    case Finish(i) => FinishBy(s.store, s.submissions[i])
    case DropSubmission(i) => GiveBack(s.store, s.submissions[i])
  }

  function PreparationsAfter<T>(s: System<T>, step: Step<T>): seq<Preparation>
    requires Enabled(s, step)
  {
    match step
    case Begin =>
      if ReplaceRefusal(s.store).Some? then s.preparations else s.preparations + [Preparation(s.store.next + 1, true)]
    case Commit(p, _, _) => s.preparations[p := s.preparations[p].(live := false)]
    case DropPreparation(p) => s.preparations[p := s.preparations[p].(live := false)]
    case _ => s.preparations
  }

  function SubmissionsAfter<T>(s: System<T>, step: Step<T>): seq<Submission<T>>
    requires Enabled(s, step)
  {
    match step
    case Take(hash) =>
      if HashRefusal(s.store, hash, AlreadySubmitting, NotFound).Some? then s.submissions
      else s.submissions + [Submission(s.store.slot.generation, hash, Some(s.store.slot.transaction), true)]
    case TakeExact(generation, hash) =>
      if ExactRefusal(s.store, generation, hash, AlreadySubmitting).Some? then s.submissions
      else s.submissions + [Submission(generation, hash, Some(s.store.slot.transaction), true)]
    case Restore(i) => s.submissions[i := s.submissions[i].(live := false)]
    case Finish(i) => s.submissions[i := s.submissions[i].(live := false)]
    case DropSubmission(i) => s.submissions[i := s.submissions[i].(live := false)]
    case _ => s.submissions
  }

  function MintedAfter<T>(s: System<T>, step: Step<T>): map<nat, (Hash, T)>
    requires Enabled(s, step)
  {
    var r := ReplyOf(s, step);
    match step
    case Outside(OpReplace(hash, transaction)) => if r.Minted? then s.minted[r.generation := (hash, transaction)] else s.minted
    case Commit(_, hash, transaction) => if r.Minted? then s.minted[r.generation := (hash, transaction)] else s.minted
    case _ => s.minted
  }

  function Apply<T>(s: System<T>, step: Step<T>): System<T>
    requires Enabled(s, step)
  {
    System(StoreAfter(s, step), PreparationsAfter(s, step), SubmissionsAfter(s, step), MintedAfter(s, step))
  }

  ghost predicate Run<T(!new)>(states: seq<System<T>>, steps: seq<Step<T>>) {
    && |states| == |steps| + 1
    && states[0] == System(Initial(), [], [], map[])
    && forall j :: 0 <= j < |steps| ==> Enabled(states[j], steps[j]) && states[j + 1] == Apply(states[j], steps[j])
  }

  // ----- The invariant -----

  /** A live preparation guard exists exactly when the store records its generation, and there is one at most. */
  ghost predicate PreparationsMatch<T>(s: System<T>) {
    && (forall p :: 0 <= p < |s.preparations| && s.preparations[p].live ==>
          s.store.preparing == Some(s.preparations[p].generation))
    && (forall p, q :: 0 <= p < q < |s.preparations| ==> !(s.preparations[p].live && s.preparations[q].live))
    && (s.store.preparing.Some? ==> exists p :: 0 <= p < |s.preparations| && s.preparations[p].live)
  }

  /** A live submission guard exists exactly when the slot is in flight under its capability, and there is one at most. */
  ghost predicate SubmissionsMatch<T>(s: System<T>) {
    && (forall i :: 0 <= i < |s.submissions| && s.submissions[i].live ==>
          IsInFlight(s.store, s.submissions[i].generation, s.submissions[i].hash) && s.submissions[i].transaction.Some?)
    && (forall i, k :: 0 <= i < k < |s.submissions| ==> !(s.submissions[i].live && s.submissions[k].live))
    && (s.store.slot.InFlight? ==> exists i :: 0 <= i < |s.submissions| && s.submissions[i].live)
  }

  /** Generations are allocated in order, and an open preparation holds the newest. */
  predicate Ordered<T>(s: System<T>) {
    && s.store.next <= MAX_GENERATION
    && (!s.store.slot.Empty? ==> 1 <= s.store.slot.generation <= s.store.next)
    && (s.store.preparing.Some? ==>
          && 1 <= s.store.preparing.value == s.store.next
          && !s.store.slot.InFlight?
          && (s.store.slot.Ready? ==> s.store.slot.generation < s.store.next))
  }

  /** The slot and the guards carry what was minted. */
  ghost predicate Genuine<T>(s: System<T>) {
    && (forall g :: g in s.minted ==> g <= s.store.next && s.store.preparing != Some(g))
    && (!s.store.slot.Empty? ==> s.store.slot.generation in s.minted && s.minted[s.store.slot.generation].0 == s.store.slot.hash)
    && (s.store.slot.Ready? ==> s.minted[s.store.slot.generation].1 == s.store.slot.transaction)
    && (forall i :: 0 <= i < |s.submissions| && s.submissions[i].live ==>
          && s.submissions[i].transaction.Some?
          && s.submissions[i].generation in s.minted
          && s.minted[s.submissions[i].generation] == (s.submissions[i].hash, s.submissions[i].transaction.value))
  }

  ghost predicate Inv<T>(s: System<T>) {
    PreparationsMatch(s) && SubmissionsMatch(s) && Ordered(s) && Genuine(s)
  }

  lemma {:induction false} StepKeepsOrdered<T>(s: System<T>, step: Step<T>)
    requires Inv(s) && Enabled(s, step)
    ensures Ordered(Apply(s, step))
  {
  }

  lemma {:induction false} StepKeepsPreparations<T>(s: System<T>, step: Step<T>)
    requires Inv(s) && Enabled(s, step)
    ensures PreparationsMatch(Apply(s, step))
  {
    var m := Apply(s, step);
    if m.store.preparing.Some? {
      var p := |s.preparations|;
      if s.store.preparing.Some? {
        p :| 0 <= p < |s.preparations| && s.preparations[p].live;
      }
      assert 0 <= p < |m.preparations| && m.preparations[p].live;
    }
  }

  lemma {:induction false} StepKeepsSubmissions<T>(s: System<T>, step: Step<T>)
    requires Inv(s) && Enabled(s, step)
    ensures SubmissionsMatch(Apply(s, step))
  {
    var m := Apply(s, step);
    if m.store.slot.InFlight? {
      var i := |s.submissions|;
      if s.store.slot.InFlight? {
        i :| 0 <= i < |s.submissions| && s.submissions[i].live;
      }
      assert 0 <= i < |m.submissions| && m.submissions[i].live;
    }
  }

  lemma {:induction false} StepKeepsGenuine<T>(s: System<T>, step: Step<T>)
    requires Inv(s) && Enabled(s, step)
    ensures Genuine(Apply(s, step))
  {
  }

  lemma {:induction false} StepKeepsInv<T>(s: System<T>, step: Step<T>)
    requires Inv(s) && Enabled(s, step)
    ensures Inv(Apply(s, step))
  {
    StepKeepsPreparations(s, step);
    StepKeepsSubmissions(s, step);
    StepKeepsOrdered(s, step);
    StepKeepsGenuine(s, step);
  }

  lemma {:induction false} RunInv<T(!new)>(states: seq<System<T>>, steps: seq<Step<T>>, j: nat)
    requires Run(states, steps) && j < |states|
    ensures Inv(states[j])
    decreases j
  {
    if j > 0 {
      RunInv(states, steps, j - 1);
      StepKeepsInv(states[j - 1], steps[j - 1]);
    }
  }

  // ----- Guards and slot agree -----

  predicate LivePreparation<T>(s: System<T>, p: nat, generation: nat) {
    p < |s.preparations| && s.preparations[p] == Preparation(generation, true)
  }

  predicate LiveSubmission<T>(s: System<T>, i: nat, generation: nat, hash: Hash) {
    i < |s.submissions| && s.submissions[i].live && s.submissions[i].generation == generation && s.submissions[i].hash == hash
  }

  /** In every run: guards are live exactly when the store says so, and the two kinds never coexist. */
  lemma {:induction false} GuardsMatchStore<T(!new)>(states: seq<System<T>>, steps: seq<Step<T>>, j: nat)
    requires Run(states, steps) && j < |states|
    ensures forall g: nat :: (exists p: nat :: LivePreparation(states[j], p, g)) <==> states[j].store.preparing == Some(g)
    ensures forall g: nat, h: Hash ::
              (exists i: nat :: LiveSubmission(states[j], i, g, h)) <==> IsInFlight(states[j].store, g, h)
    ensures forall p: nat, i: nat, g: nat, g': nat, h: Hash ::
              !(LivePreparation(states[j], p, g) && LiveSubmission(states[j], i, g', h))
  {
    RunInv(states, steps, j);
    var s := states[j];
    if s.store.preparing.Some? {
      var p :| 0 <= p < |s.preparations| && s.preparations[p].live;
      assert LivePreparation(s, p, s.store.preparing.value);
    }
    if s.store.slot.InFlight? {
      var i :| 0 <= i < |s.submissions| && s.submissions[i].live;
      assert LiveSubmission(s, i, s.store.slot.generation, s.store.slot.hash);
    }
  }

  predicate Inconsistent(e: Error) {
    e == EmptyGuard || e == PreparationStateInconsistent || e == SubmissionStateInconsistent || e == CancellationStateInconsistent
  }

  /** Hence no run sees an inconsistency error, and commit, restore and finish never fail. */
  lemma {:induction false} NeverInconsistent<T(!new)>(states: seq<System<T>>, steps: seq<Step<T>>, j: nat)
    requires Run(states, steps) && j < |steps|
    ensures var r := ReplyOf(states[j], steps[j]);
            && (r.Refused? ==> !Inconsistent(r.error))
            && (steps[j].Commit? || steps[j].Restore? || steps[j].Finish? ==> !r.Refused?)
  {
    RunInv(states, steps, j);
    assert Enabled(states[j], steps[j]);
  }

  // ----- A capability names one transaction -----

  /** What a step hands out, and under which capability. */
  function Handed<T>(s: System<T>, step: Step<T>): Option<(nat, Hash, T)>
    requires Enabled(s, step)
  {
    var r := ReplyOf(s, step);
    match step
    case Outside(OpCancel(hash)) =>
      if r.Gave? && s.store.slot.Ready? then Some((s.store.slot.generation, hash, r.transaction)) else None
    case Outside(OpCancelExact(generation, hash)) => if r.Gave? then Some((generation, hash, r.transaction)) else None
    case Outside(OpInspect(generation, hash)) => if r.Gave? then Some((generation, hash, r.transaction)) else None
    case Take(hash) =>
      if r.Accepted? && s.store.slot.Ready? then Some((s.store.slot.generation, hash, s.store.slot.transaction)) else None
    case TakeExact(generation, hash) =>
      if r.Accepted? && s.store.slot.Ready? then Some((generation, hash, s.store.slot.transaction)) else None
    case Finish(i) => if r.Gave? then Some((s.submissions[i].generation, s.submissions[i].hash, r.transaction)) else None
    case _ => None
  }

  /** What a step publishes. */
  function Published<T>(s: System<T>, step: Step<T>): Option<(nat, Hash, T)>
    requires Enabled(s, step)
  {
    var r := ReplyOf(s, step);
    match step
    case Outside(OpReplace(hash, transaction)) => if r.Minted? then Some((r.generation, hash, transaction)) else None
    case Commit(_, hash, transaction) => if r.Minted? then Some((r.generation, hash, transaction)) else None
    case _ => None
  }

  lemma {:induction false} HandedIsGenuine<T>(s: System<T>, step: Step<T>)
    requires Inv(s) && Enabled(s, step) && Handed(s, step).Some?
    ensures var (g, h, t) := Handed(s, step).value; g in s.minted && s.minted[g] == (h, t)
  {
  }

  lemma {:induction false} StepKeepsMinted<T>(s: System<T>, step: Step<T>, g: nat)
    requires Inv(s) && Enabled(s, step) && g in s.minted
    ensures g in Apply(s, step).minted && Apply(s, step).minted[g] == s.minted[g]
  {
  }

  lemma {:induction false} PublishedIsMinted<T>(s: System<T>, step: Step<T>)
    requires Enabled(s, step) && Published(s, step).Some?
    ensures var (g, h, t) := Published(s, step).value; g in Apply(s, step).minted && Apply(s, step).minted[g] == (h, t)
  {
  }

  lemma {:induction false} MintedStays<T(!new)>(states: seq<System<T>>, steps: seq<Step<T>>, j: nat, q: nat, g: nat)
    requires Run(states, steps) && j <= q < |states| && g in states[j].minted
    ensures g in states[q].minted && states[q].minted[g] == states[j].minted[g]
    decreases q
  {
    if j < q {
      MintedStays(states, steps, j, q - 1, g);
      RunInv(states, steps, q - 1);
      StepKeepsMinted(states[q - 1], steps[q - 1], g);
    }
  }

  /** Whatever is ever handed out under a generation is what that generation was published with. */
  lemma {:induction false} CapabilityNamesOneValue<T(!new)>(states: seq<System<T>>, steps: seq<Step<T>>, j: nat, q: nat)
    requires Run(states, steps) && j < q < |steps|
    requires Published(states[j], steps[j]).Some? && Handed(states[q], steps[q]).Some?
    requires Published(states[j], steps[j]).value.0 == Handed(states[q], steps[q]).value.0
    ensures Published(states[j], steps[j]) == Handed(states[q], steps[q])
  {
    PublishedIsMinted(states[j], steps[j]);
    MintedStays(states, steps, j + 1, q, Published(states[j], steps[j]).value.0);
    RunInv(states, steps, q);
    HandedIsGenuine(states[q], steps[q]);
  }

  // ----- What gives a capability back -----

  lemma {:induction false} SubmissionFreezes<T>(s: System<T>, step: Step<T>, i: nat)
    requires Inv(s) && Enabled(s, step)
    requires i < |s.submissions| && s.submissions[i].live && Apply(s, step).submissions[i].live
    ensures Apply(s, step).store == s.store && Apply(s, step).submissions[i] == s.submissions[i]
  {
  }

  lemma {:induction false} StaysDead<T>(s: System<T>, step: Step<T>, i: nat)
    requires Enabled(s, step) && i < |s.submissions|
    ensures i < |Apply(s, step).submissions|
    ensures Apply(s, step).submissions[i].live ==> s.submissions[i].live
  {
  }

  /** What a step keeps of submission guard `i`: it is not revived, and while it lives the store is frozen. */
  ghost predicate GuardKept<T>(s: System<T>, n: System<T>, i: nat) {
    i < |s.submissions| ==>
      && i < |n.submissions|
      && (n.submissions[i].live ==> s.submissions[i].live && n.store == s.store && n.submissions[i] == s.submissions[i])
  }

  lemma {:induction false} StepKeepsGuard<T>(s: System<T>, step: Step<T>, i: nat)
    requires Inv(s) && Enabled(s, step)
    ensures GuardKept(s, Apply(s, step), i)
  {
    if i < |s.submissions| {
      StaysDead(s, step, i);
      if Apply(s, step).submissions[i].live {
        SubmissionFreezes(s, step, i);
      }
    }
  }

  lemma {:induction false} GuardKeptThroughout<T>(states: seq<System<T>>, j: nat, q: nat, i: nat)
    requires j <= q < |states| && i < |states[j].submissions|
    requires forall p :: j <= p < q ==> GuardKept(states[p], states[p + 1], i)
    ensures i < |states[q].submissions|
    ensures states[q].submissions[i].live ==>
              states[q].store == states[j].store && states[q].submissions[i] == states[j].submissions[i]
    decreases q
  {
    if j < q {
      GuardKeptThroughout(states, j, q - 1, i);
      assert GuardKept(states[q - 1], states[q - 1 + 1], i);
    }
  }

  /** From the state after a take until its guard is used, nothing changes the store. */
  lemma {:induction false} HeldWhileSubmitting<T(!new)>(states: seq<System<T>>, steps: seq<Step<T>>, j: nat, q: nat, i: nat)
    requires Run(states, steps) && j <= q < |states| && i < |states[j].submissions|
    ensures i < |states[q].submissions|
    ensures states[q].submissions[i].live ==>
              states[q].store == states[j].store && states[q].submissions[i] == states[j].submissions[i]
  {
    forall p | j <= p < q ensures GuardKept(states[p], states[p + 1], i) {
      RunInv(states, steps, p);
      StepKeepsGuard(states[p], steps[p], i);
    }
    GuardKeptThroughout(states, j, q, i);
  }

  /** Step `j` took a submission guard. */
  predicate Takes<T>(s: System<T>, step: Step<T>)
    requires Enabled(s, step)
  {
    (step.Take? || step.TakeExact?) && ReplyOf(s, step).Accepted?
  }

  /**
   A submission that is retried or interrupted, however long it took and whatever else was tried meanwhile, gives back
   the same capability with the same transaction: the store is exactly what it was before the take.
   */
  lemma {:induction false} RetryGivesBack<T(!new)>(states: seq<System<T>>, steps: seq<Step<T>>, j: nat, q: nat)
    requires Run(states, steps) && j < q < |steps| && Takes(states[j], steps[j])
    requires steps[q] == Restore(|states[j].submissions|) || steps[q] == DropSubmission(|states[j].submissions|)
    ensures states[q + 1].store == states[j].store
  {
    var i := |states[j].submissions|;
    RunInv(states, steps, j);
    RunInv(states, steps, q);
    assert states[j + 1] == Apply(states[j], steps[j]);
    assert Enabled(states[q], steps[q]);
    HeldWhileSubmitting(states, steps, j + 1, q, i);
    assert states[q + 1] == Apply(states[q], steps[q]);
  }

  lemma {:induction false} PreparationFreezes<T>(s: System<T>, step: Step<T>, p: nat)
    requires Inv(s) && Enabled(s, step)
    requires p < |s.preparations| && s.preparations[p].live && Apply(s, step).preparations[p].live
    ensures Apply(s, step).store == s.store && Apply(s, step).preparations[p] == s.preparations[p]
  {
  }

  lemma {:induction false} HeldWhilePreparing<T(!new)>(states: seq<System<T>>, steps: seq<Step<T>>, j: nat, q: nat, p: nat)
    requires Run(states, steps) && j <= q < |states| && p < |states[j].preparations|
    requires p < |states[q].preparations| && states[q].preparations[p].live
    ensures states[q].store == states[j].store && states[q].preparations[p] == states[j].preparations[p]
    decreases q
  {
    if j < q {
      PreparationsGrow(states, steps, j, q - 1);
      HeldWhilePreparing(states, steps, j, q - 1, p);
      RunInv(states, steps, q - 1);
      PreparationFreezes(states[q - 1], steps[q - 1], p);
    }
  }

  lemma {:induction false} PreparationsGrow<T(!new)>(states: seq<System<T>>, steps: seq<Step<T>>, j: nat, q: nat)
    requires Run(states, steps) && j <= q < |states|
    ensures |states[j].preparations| <= |states[q].preparations|
    decreases q
  {
    if j < q {
      PreparationsGrow(states, steps, j, q - 1);
    }
  }

  /** An abandoned preparation leaves the slot as it found it; only its generation number is spent. */
  lemma {:induction false} AbandonGivesBack<T(!new)>(states: seq<System<T>>, steps: seq<Step<T>>, j: nat, q: nat)
    requires Run(states, steps) && j < q < |steps| && steps[j] == Begin && ReplyOf(states[j], steps[j]).Accepted?
    requires steps[q] == DropPreparation(|states[j].preparations|)
    ensures states[q + 1].store == Store(states[j].store.slot, states[j].store.next + 1, None)
  {
    var p := |states[j].preparations|;
    RunInv(states, steps, j);
    RunInv(states, steps, q);
    assert states[j + 1] == Apply(states[j], steps[j]);
    assert Enabled(states[q], steps[q]);
    HeldWhilePreparing(states, steps, j + 1, q, p);
    assert states[q + 1] == Apply(states[q], steps[q]);
  }

  // ----- What ends a capability -----

  /** The step ends generation `g`: another is published over it, it is cancelled, or its submission is finished. */
  predicate Ends<T>(s: System<T>, step: Step<T>, g: nat)
    requires Enabled(s, step)
  {
    && Holds(s.store, g)
    && (ReplyOf(s, step).Minted? || (ReplyOf(s, step).Gave? && !(step.Outside? && step.op.OpInspect?)))
  }

  /** Those steps and no others take it out of the slot. */
  lemma {:induction false} EndsExactly<T>(s: System<T>, step: Step<T>, g: nat)
    requires Inv(s) && Enabled(s, step) && Holds(s.store, g)
    ensures Ends(s, step, g) <==> !Holds(Apply(s, step).store, g)
  {
  }

  /** Allocated, not being prepared, and not in the slot. */
  predicate Retired<T>(s: System<T>, g: nat) {
    g <= s.store.next && s.store.preparing != Some(g) && !Holds(s.store, g)
  }

  lemma {:induction false} EndsRetires<T>(s: System<T>, step: Step<T>, g: nat)
    requires Inv(s) && Enabled(s, step) && Ends(s, step, g)
    ensures Retired(Apply(s, step), g)
  {
    EndsExactly(s, step, g);
  }

  lemma {:induction false} StepKeepsRetired<T>(s: System<T>, step: Step<T>, g: nat)
    requires Inv(s) && Enabled(s, step) && Retired(s, g)
    ensures Retired(Apply(s, step), g)
  {
  }

  lemma {:induction false} RetiredStays<T(!new)>(states: seq<System<T>>, steps: seq<Step<T>>, j: nat, q: nat, g: nat)
    requires Run(states, steps) && j <= q < |states| && Retired(states[j], g)
    ensures Retired(states[q], g)
    decreases q
  {
    if j < q {
      RetiredStays(states, steps, j, q - 1, g);
      RunInv(states, steps, q - 1);
      StepKeepsRetired(states[q - 1], steps[q - 1], g);
    }
  }

  /** After replacement, cancellation or a terminal outcome the capability is refused in every later state. */
  lemma {:induction false} EndedForever<T(!new)>(
    states: seq<System<T>>, steps: seq<Step<T>>, j: nat, q: nat, g: nat, h: Hash, busy: Error)
    requires Run(states, steps) && j < |steps| && Ends(states[j], steps[j], g) && j < q < |states|
    ensures ExactRefusal(states[q].store, g, h, busy) in {Some(PreparationInProgress), Some(NotFound)}
    ensures q < |steps| && Handed(states[q], steps[q]).Some? ==> Handed(states[q], steps[q]).value.0 != g
  {
    RunInv(states, steps, j);
    EndsRetires(states[j], steps[j], g);
    RetiredStays(states, steps, j + 1, q, g);
    RunInv(states, steps, q);
  }

  /** Each generation ends at most once. */
  lemma {:induction false} EndsAtMostOnce<T(!new)>(states: seq<System<T>>, steps: seq<Step<T>>, j: nat, q: nat, g: nat)
    requires Run(states, steps) && j < q < |steps| && Ends(states[j], steps[j], g)
    ensures !Ends(states[q], steps[q], g)
  {
    RunInv(states, steps, j);
    EndsRetires(states[j], steps[j], g);
    RetiredStays(states, steps, j + 1, q, g);
  }

  // ----- When an operation is refused -----

  ghost predicate Preparing<T>(s: System<T>) {
    exists p :: 0 <= p < |s.preparations| && s.preparations[p].live
  }

  ghost predicate Submitting<T>(s: System<T>) {
    exists i :: 0 <= i < |s.submissions| && s.submissions[i].live
  }

  lemma {:induction false} GuardsOut<T>(s: System<T>)
    requires Inv(s)
    ensures Preparing(s) <==> s.store.preparing.Some?
    ensures Submitting(s) <==> s.store.slot.InFlight?
  {
  }

  lemma {:induction false} PublishedHolds<T>(s: System<T>, step: Step<T>)
    requires Inv(s) && Enabled(s, step) && Published(s, step).Some?
    ensures Holds(Apply(s, step).store, Published(s, step).value.0)
  {
  }

  /** What a step does to the hold on generation `g`: it ends it, or leaves it, and never gives it back. */
  ghost predicate HoldKept<T>(s: System<T>, step: Step<T>, n: System<T>, g: nat) {
    Enabled(s, step)
    && (Holds(s.store, g) ==> (Holds(n.store, g) <==> !Ends(s, step, g)))
    && (Retired(s, g) ==> Retired(n, g))
    && (Ends(s, step, g) ==> Retired(n, g))
  }

  lemma {:induction false} StepKeepsHold<T>(s: System<T>, step: Step<T>, g: nat)
    requires Inv(s) && Enabled(s, step)
    ensures HoldKept(s, step, Apply(s, step), g)
  {
    if Holds(s.store, g) {
      EndsExactly(s, step, g);
    }
    if Ends(s, step, g) {
      EndsRetires(s, step, g);
    }
    if Retired(s, g) {
      StepKeepsRetired(s, step, g);
    }
  }

  ghost predicate EndedBetween<T>(states: seq<System<T>>, steps: seq<Step<T>>, j: nat, q: nat, g: nat)
    requires q <= |steps| < |states| && forall p :: 0 <= p < |steps| ==> Enabled(states[p], steps[p])
  {
    exists p :: j <= p < q && Ends(states[p], steps[p], g)
  }

  lemma {:induction false} HeldUntilEnded<T>(states: seq<System<T>>, steps: seq<Step<T>>, j: nat, q: nat, g: nat)
    requires j <= q <= |steps| < |states| && Holds(states[j].store, g)
    requires forall p :: 0 <= p < |steps| ==> Enabled(states[p], steps[p])
    requires forall p :: 0 <= p < |steps| ==> HoldKept(states[p], steps[p], states[p + 1], g)
    ensures if EndedBetween(states, steps, j, q, g) then Retired(states[q], g) else Holds(states[q].store, g)
    decreases q
  {
    if j < q {
      HeldUntilEnded(states, steps, j, q - 1, g);
      assert HoldKept(states[q - 1], steps[q - 1], states[q - 1 + 1], g);
      if EndedBetween(states, steps, j, q - 1, g) {
        var p :| j <= p < q - 1 && Ends(states[p], steps[p], g);
        assert EndedBetween(states, steps, j, q, g);
      } else if Ends(states[q - 1], steps[q - 1], g) {
        assert EndedBetween(states, steps, j, q, g);
      }
    }
  }

  /** In every run a published generation is in the slot exactly until it ends. */
  lemma {:induction false} PublishedUntilEnded<T(!new)>(states: seq<System<T>>, steps: seq<Step<T>>, j: nat, q: nat)
    requires Run(states, steps) && j < q < |states| && Published(states[j], steps[j]).Some?
    ensures Holds(states[q].store, Published(states[j], steps[j]).value.0) <==>
            !EndedBetween(states, steps, j + 1, q, Published(states[j], steps[j]).value.0)
  {
    var g := Published(states[j], steps[j]).value.0;
    RunInv(states, steps, j);
    PublishedHolds(states[j], steps[j]);
    forall p | 0 <= p < |steps| ensures HoldKept(states[p], steps[p], states[p + 1], g) {
      RunInv(states, steps, p);
      StepKeepsHold(states[p], steps[p], g);
    }
    assert states[j + 1] == Apply(states[j], steps[j]);
    HeldUntilEnded(states, steps, j + 1, q, g);
  }

  predicate BusyError(e: Error) {
    e == AlreadySubmitting || e == CancellationDuringSubmission
  }

  /** Refusals by what is out: a preparation refuses everything, a submission its own capability. */
  lemma {:induction false} RefusalsOf<T>(s: System<T>, g: nat, h: Hash, t: T, other: Hash, busy: Error)
    requires Inv(s) && BusyError(busy) && g in s.minted && s.minted[g] == (h, t)
    ensures ExactRefusal(s.store, g, other, busy) ==
            if Preparing(s) then Some(PreparationInProgress)
            else if !Holds(s.store, g) || other != h then Some(NotFound)
            else if Submitting(s) then Some(busy)
            else None
  {
    GuardsOut(s);
  }

  /**
   In every run, the capability of a published transaction is accepted exactly when no guard is out and it has not been
   replaced, cancelled or finished; under any other hash it is refused, and each refusal says why.
   */
  lemma {:induction false} RefusedExactly<T(!new)>(
    states: seq<System<T>>, steps: seq<Step<T>>, j: nat, q: nat, other: Hash, busy: Error)
    requires Run(states, steps) && j < q < |states| && Published(states[j], steps[j]).Some? && BusyError(busy)
    ensures var (g, h, t) := Published(states[j], steps[j]).value;
            var s := states[q];
            ExactRefusal(s.store, g, other, busy) ==
              if Preparing(s) then Some(PreparationInProgress)
              else if other != h || EndedBetween(states, steps, j + 1, q, g) then Some(NotFound)
              else if Submitting(s) then Some(busy)
              else None
  {
    var (g, h, t) := Published(states[j], steps[j]).value;
    PublishedIsMinted(states[j], steps[j]);
    MintedStays(states, steps, j + 1, q, g);
    RunInv(states, steps, q);
    PublishedUntilEnded(states, steps, j, q);
    RefusalsOf(states[q], g, h, t, other, busy);
  }

  /** A new preparation is refused exactly while a guard is out or when the generations are exhausted. */
  lemma {:induction false} ReplaceRefusedExactly<T(!new)>(states: seq<System<T>>, steps: seq<Step<T>>, q: nat)
    requires Run(states, steps) && q < |states|
    ensures ReplaceRefusal(states[q].store) ==
            if Preparing(states[q]) then Some(PreparationInProgress)
            else if Submitting(states[q]) then Some(ReplacementDuringSubmission)
            else if states[q].store.next + 1 == PowerOfTwo(64) then Some(GenerationOverflow)
            else None
  {
    RunInv(states, steps, q);
    GuardsOut(states[q]);
    MachinePowers();
  }

  /** The operations that name only a hash find the generation in the slot, if it was published with that hash. */
  lemma {:induction false} HashRefusedExactly<T(!new)>(
    states: seq<System<T>>, steps: seq<Step<T>>, q: nat, h: Hash, busy: Error, missing: Error)
    requires Run(states, steps) && q < |states|
    ensures var s := states[q];
            HashRefusal(s.store, h, busy, missing) ==
              if Preparing(s) then Some(PreparationInProgress)
              else if !exists g :: Holds(s.store, g) && g in s.minted && s.minted[g].0 == h then Some(missing)
              else if Submitting(s) then Some(busy)
              else None
  {
    RunInv(states, steps, q);
    var s := states[q];
    GuardsOut(s);
    if !s.store.slot.Empty? {
      assert Holds(s.store, s.store.slot.generation);
    }
  }
}
