/**
 Whole lives of a version 2 address book: attempts interrupted at any write, resumed any number of times, and user
 operations around them.
 */
module MigrationRuns {
  import opened Common
  import opened DataElement
  import opened AddressBook
  import opened Migration

  // ----- One attempt, given what it collects -----

  /** The tree holds what was there and some of the missing entries, and no marker. */
  ghost predicate Partial(m: map<string, Entry>, before: Tree, tree: Tree) {
    MarkerKey !in tree && exists ids: set<string> :: Extends(before, tree, Stored(m), ids)
  }

  lemma {:induction false} PartialAtFirst(m: map<string, Entry>, before: Tree)
    requires MarkerKey !in before
    ensures Partial(m, before, before)
  {
    assert Extends(before, before, Stored(m), {});
  }

  lemma {:induction false} ExtendsLeavesMarkerOut(before: Tree, tree: Tree, m: map<string, Element>, ids: set<string>)
    requires Extends(before, tree, m, ids) && MarkerKey !in before
    ensures MarkerKey !in tree
  {
    if MarkerKey in tree {
      var id :| id in ids && MarkerKey == EntryKey(id);
      KeysApart(id, id);
    }
  }

  lemma {:induction false} FailureStaysPartial<A>(
    env: Env<A>, m: map<string, Entry>, before: Tree, tree: Tree, after: Tree, r: Result<MigrationResult, BookError>)
    requires Partial(m, before, tree) && Tries(env, m, tree, after, r) && r.Failure?
    ensures Partial(m, before, after)
  {
    var ids: set<string> :| Extends(before, tree, Stored(m), ids);
    var more: set<string> :| Extends(tree, after, Stored(m), more);
    ExtendsLeavesMarkerOut(tree, after, Stored(m), more);
    ExtendsTwice(before, tree, after, Stored(m), ids, more);
  }

  /** An attempt that succeeds from a partial tree ends exactly where it would have ended from the start. */
  lemma {:induction false} SuccessFromPartial<A>(
    env: Env<A>, m: map<string, Entry>, before: Tree, tree: Tree, after: Tree, r: Result<MigrationResult, BookError>)
    requires Partial(m, before, tree) && Tries(env, m, tree, after, r) && r.Success?
    ensures Completes(env, before, after, m) && r.value == MigrationResult(|m|, false)
  {
    var ids: set<string> :| Extends(before, tree, Stored(m), ids);
    PartialThenComplete(env, before, tree, after, m, ids);
  }

  // ----- Interrupted and resumed -----

  /** Successive attempts over a fixed legacy tree. */
  ghost predicate Attempts<A>(env: Env<A>, legacy: Tree, trees: seq<Tree>, results: seq<Result<MigrationResult, BookError>>) {
    && |trees| == |results| + 1
    && forall j :: 0 <= j < |results| ==> Attempted(env, legacy, trees[j], trees[j + 1], results[j])
  }

  /** The same, given what they collect. */
  ghost predicate AllTry<A>(
    env: Env<A>, m: map<string, Entry>, trees: seq<Tree>, results: seq<Result<MigrationResult, BookError>>) {
    && |trees| == |results| + 1
    && forall j :: 0 <= j < |results| ==> Tries(env, m, trees[j], trees[j + 1], results[j])
  }

  lemma {:induction false} FailuresStayPartial<A>(
    env: Env<A>, m: map<string, Entry>, trees: seq<Tree>, results: seq<Result<MigrationResult, BookError>>, j: nat)
    requires AllTry(env, m, trees, results) && j <= |results| && MarkerKey !in trees[0]
    requires forall p :: 0 <= p < j ==> results[p].Failure?
    ensures Partial(m, trees[0], trees[j])
    decreases j
  {
    if j == 0 {
      PartialAtFirst(m, trees[0]);
    } else {
      FailuresStayPartial(env, m, trees, results, j - 1);
      FailureStaysPartial(env, m, trees[0], trees[j - 1], trees[j], results[j - 1]);
    }
  }

  /**
   Resumable and order-independent: after any number of failed attempts, the first success leaves the tree and reports
   the count of any single attempt that succeeds from the start, whatever order each of them iterated in.
   */
  lemma {:induction false} ResumedEqualsUninterrupted<A>(
    env: Env<A>, legacy: Tree, trees: seq<Tree>, results: seq<Result<MigrationResult, BookError>>, last: nat,
    once: Tree, r: Result<MigrationResult, BookError>)
    requires Attempts(env, legacy, trees, results) && last < |results| && MarkerKey !in trees[0]
    requires results[last].Success? && forall p :: 0 <= p < last ==> results[p].Failure?
    requires Attempted(env, legacy, trees[0], once, r) && r.Success?
    ensures trees[last + 1] == once && results[last] == r
  {
    var m := Contents(LegacyEntries(env, legacy));
    FailuresStayPartial(env, m, trees, results, last);
    SuccessFromPartial(env, m, trees[0], trees[last], trees[last + 1], results[last]);
    CompletesUnique(env, trees[0], trees[last + 1], once, m);
  }

  /** A failed attempt never spoils the next: if nothing but writes was in the way, nothing but writes still is. */
  lemma {:induction false} StillReady<A(!new)>(env: Env<A>, legacy: Tree, before: Tree, tree: Tree, writesLeft: nat)
    requires Lawful(env) && Ready(env, legacy, before, writesLeft)
    requires Partial(Contents(LegacyEntries(env, legacy)), before, tree)
    ensures Ready(env, legacy, tree, writesLeft)
  {
    var m := Contents(LegacyEntries(env, legacy));
    var ids: set<string> :| Extends(before, tree, Stored(m), ids);
    PartialStaysCompatible(env, legacy, before, tree, m, ids);
    MissingAfter(before, tree, Stored(m), ids);
    SubsetSize(Missing(tree, m.Keys), Missing(before, m.Keys));
  }

  // ----- User operations -----

  /** What reaches the storage: calls of the migration, and the writes of upsert and remove. */
  datatype BookAction =
    | Migrate(result: Result<MigrationResult, BookError>)
    | WriteEntry(address: string, name: string, destinationLabel: Option<string>, note: Option<string>)
    | RemoveEntry(id: string)

  /** A write may fail; an entry that does not normalize and an invalid identifier are refused. */
  ghost predicate BookStep<A>(env: Env<A>, legacy: Tree, before: Tree, act: BookAction, after: Tree) {
    match act
    case Migrate(result) => Attempted(env, legacy, before, after, result)
    case WriteEntry(address, name, destinationLabel, note) =>
      after == before || WritesEntry(before, after, NormalizeEntry(env, address, name, destinationLabel, note))
    case RemoveEntry(id) => after == before || (ValidEntryId(id) && after == before - {EntryKey(id)})
  }

  predicate WritesEntry(before: Tree, after: Tree, entry: Result<Entry, BookError>) {
    entry.Success? && after == before[EntryKey(entry.value.id) := EncodeEntry(entry.value)]
  }

  /** Some earlier call of the migration succeeded. */
  ghost predicate CalledBefore(acts: seq<BookAction>, j: nat) {
    exists p :: 0 <= p < j && p < |acts| && acts[p].Migrate? && acts[p].result.Success?
  }

  /**
   A life of the book, from an empty tree.  upsert and remove call the migration first, go on only if it succeeded, and
   take the storage lock again later: anything may happen in between.
   */
  ghost predicate BookRun<A>(env: Env<A>, legacy: Tree, trees: seq<Tree>, acts: seq<BookAction>) {
    && |trees| == |acts| + 1
    && trees[0] == map[]
    && (forall j :: 0 <= j < |acts| ==> BookStep(env, legacy, trees[j], acts[j], trees[j + 1]))
    && (forall j :: 0 <= j < |acts| && !acts[j].Migrate? ==> CalledBefore(acts, j))
  }

  // ----- The marker -----

  predicate MarkerKept(before: Tree, after: Tree) {
    MarkerKey in before ==> MarkerKey in after && after[MarkerKey] == before[MarkerKey]
  }

  lemma {:induction false} StepKeepsMarker<A>(env: Env<A>, legacy: Tree, before: Tree, act: BookAction, after: Tree)
    requires BookStep(env, legacy, before, act, after)
    ensures MarkerKept(before, after)
  {
    match act {
      case Migrate(result) =>
      case WriteEntry(address, name, destinationLabel, note) =>
        var entry := NormalizeEntry(env, address, name, destinationLabel, note);
        if entry.Success? {
          KeysApart(entry.value.id, entry.value.id);
        }
      case RemoveEntry(id) => KeysApart(id, id);
    }
  }

  /** A successful call leaves the marker. */
  lemma {:induction false} SuccessMarks<A>(
    env: Env<A>, legacy: Tree, before: Tree, after: Tree, r: Result<MigrationResult, BookError>)
    requires Attempted(env, legacy, before, after, r) && r.Success?
    ensures MarkerKey in after
  {
  }

  lemma {:induction false} KeptStays(trees: seq<Tree>, j: nat, q: nat)
    requires forall p :: 0 <= p < |trees| - 1 ==> MarkerKept(trees[p], trees[p + 1])
    requires j <= q < |trees| && MarkerKey in trees[j]
    ensures MarkerKey in trees[q] && trees[q][MarkerKey] == trees[j][MarkerKey]
    decreases q
  {
    if j < q {
      KeptStays(trees, j, q - 1);
      assert MarkerKept(trees[q - 1], trees[q - 1 + 1]);
    }
  }

  /** Nothing ever removes or changes the marker. */
  lemma {:induction false} MarkerStays<A>(env: Env<A>, legacy: Tree, trees: seq<Tree>, acts: seq<BookAction>, j: nat, q: nat)
    requires BookRun(env, legacy, trees, acts) && j <= q < |trees| && MarkerKey in trees[j]
    ensures MarkerKey in trees[q] && trees[q][MarkerKey] == trees[j][MarkerKey]
  {
    forall p | 0 <= p < |trees| - 1 ensures MarkerKept(trees[p], trees[p + 1]) {
      StepKeepsMarker(env, legacy, trees[p], acts[p], trees[p + 1]);
    }
    KeptStays(trees, j, q);
  }

  /** Whenever a user operation reaches the storage, the marker is there. */
  lemma {:induction false} UserFindsMarker<A>(env: Env<A>, legacy: Tree, trees: seq<Tree>, acts: seq<BookAction>, j: nat)
    requires BookRun(env, legacy, trees, acts) && j < |acts| && !acts[j].Migrate?
    ensures MarkerKey in trees[j]
  {
    assert CalledBefore(acts, j);
    var p :| 0 <= p < j && p < |acts| && acts[p].Migrate? && acts[p].result.Success?;
    assert BookStep(env, legacy, trees[p], acts[p], trees[p + 1]);
    SuccessMarks(env, legacy, trees[p], trees[p + 1], acts[p].result);
    MarkerStays(env, legacy, trees, acts, p + 1, j);
  }

  // ----- What the tree holds -----

  /** Over unclean legacy data the book stays empty. */
  lemma {:induction false} UncleanStaysEmpty<A>(env: Env<A>, legacy: Tree, trees: seq<Tree>, acts: seq<BookAction>, j: nat)
    requires BookRun(env, legacy, trees, acts) && j < |trees| && !Clean(LegacyEntries(env, legacy))
    ensures trees[j] == map[]
    decreases j
  {
    if j > 0 {
      UncleanStaysEmpty(env, legacy, trees, acts, j - 1);
      assert BookStep(env, legacy, trees[j - 1], acts[j - 1], trees[j]);
      if !acts[j - 1].Migrate? {
        UserFindsMarker(env, legacy, trees, acts, j - 1);
      }
    }
  }

  /** What a reachable tree looks like, when the legacy tree is clean: part of the migration, or the right marker. */
  ghost predicate Shaped(m: map<string, Entry>, tree: Tree) {
    if MarkerKey in tree then tree[MarkerKey] == EncodeMarker(|m|) else Partial(m, map[], tree)
  }

  lemma {:induction false} TryKeepsShape<A>(
    env: Env<A>, m: map<string, Entry>, before: Tree, after: Tree, r: Result<MigrationResult, BookError>)
    requires Shaped(m, before) && Tries(env, m, before, after, r)
    ensures Shaped(m, after)
  {
    if MarkerKey !in before && r.Failure? {
      FailureStaysPartial(env, m, map[], before, after, r);
    }
  }

  lemma {:induction false} StepKeepsShape<A>(env: Env<A>, legacy: Tree, before: Tree, act: BookAction, after: Tree)
    requires Clean(LegacyEntries(env, legacy)) && BookStep(env, legacy, before, act, after)
    requires Shaped(Contents(LegacyEntries(env, legacy)), before) && (!act.Migrate? ==> MarkerKey in before)
    ensures Shaped(Contents(LegacyEntries(env, legacy)), after)
  {
    if act.Migrate? {
      TryKeepsShape(env, Contents(LegacyEntries(env, legacy)), before, after, act.result);
    } else {
      StepKeepsMarker(env, legacy, before, act, after);
    }
  }

  lemma {:induction false} ShapeStays(m: map<string, Entry>, trees: seq<Tree>, j: nat)
    requires j < |trees| && Shaped(m, trees[0])
    requires forall p :: 0 <= p < |trees| - 1 && Shaped(m, trees[p]) ==> Shaped(m, trees[p + 1])
    ensures Shaped(m, trees[j])
    decreases j
  {
    if j > 0 {
      ShapeStays(m, trees, j - 1);
      assert Shaped(m, trees[j - 1 + 1]);
    }
  }

  lemma {:induction false} BookShape<A>(env: Env<A>, legacy: Tree, trees: seq<Tree>, acts: seq<BookAction>, j: nat)
    requires BookRun(env, legacy, trees, acts) && j < |trees| && Clean(LegacyEntries(env, legacy))
    ensures Shaped(Contents(LegacyEntries(env, legacy)), trees[j])
  {
    var m := Contents(LegacyEntries(env, legacy));
    PartialAtFirst(m, map[]);
    forall p | 0 <= p < |trees| - 1 && Shaped(m, trees[p]) ensures Shaped(m, trees[p + 1]) {
      if !acts[p].Migrate? {
        UserFindsMarker(env, legacy, trees, acts, p);
      }
      StepKeepsShape(env, legacy, trees[p], acts[p], trees[p + 1]);
    }
    ShapeStays(m, trees, j);
  }

  /** As long as the marker is absent the tree holds entries of the migration and nothing else. */
  lemma {:induction false} NoUserEntryBeforeMarker<A>(
    env: Env<A>, legacy: Tree, trees: seq<Tree>, acts: seq<BookAction>, j: nat, k: DataValue)
    requires BookRun(env, legacy, trees, acts) && j < |trees| && MarkerKey !in trees[j] && k in trees[j]
    ensures Clean(LegacyEntries(env, legacy))
    ensures var m := Contents(LegacyEntries(env, legacy));
            exists id :: id in m && k == EntryKey(id) && trees[j][k] == Stored(m)[id]
  {
    if !Clean(LegacyEntries(env, legacy)) {
      UncleanStaysEmpty(env, legacy, trees, acts, j);
    }
    var m := Contents(LegacyEntries(env, legacy));
    BookShape(env, legacy, trees, acts, j);
    var ids: set<string> :| Extends(map[], trees[j], Stored(m), ids);
    var id :| id in ids && k == EntryKey(id);
    assert id in m;
  }

  /** Once the marker is there, it stays, and every later call reads it, reports its count and changes nothing. */
  lemma {:induction false} LaterCallsOnlyRead<A>(
    env: Env<A>, legacy: Tree, trees: seq<Tree>, acts: seq<BookAction>, j: nat, q: nat)
    requires BookRun(env, legacy, trees, acts) && j <= q < |acts| && MarkerKey in trees[j] && acts[q].Migrate?
    ensures trees[q + 1] == trees[q] && Clean(LegacyEntries(env, legacy))
    ensures acts[q].result == Success(MigrationResult(|Contents(LegacyEntries(env, legacy))|, true))
  {
    MarkerStays(env, legacy, trees, acts, j, q);
    if !Clean(LegacyEntries(env, legacy)) {
      UncleanStaysEmpty(env, legacy, trees, acts, q);
    }
    BookShape(env, legacy, trees, acts, q);
    assert BookStep(env, legacy, trees[q], acts[q], trees[q + 1]);
    DecodeEncodeMarker(|Contents(LegacyEntries(env, legacy))|);
  }

  lemma {:induction false} CollectedReadsBack<A(!new)>(env: Env<A>, legacy: Tree, m: map<string, Entry>, id: string)
    requires Lawful(env) && CollectsAll(LegacyEntries(env, legacy), m) && id in m
    ensures DecodeEntry(env, id, EncodeEntry(m[id])) == Success(m[id])
  {
    CollectedIsNormalized(env, legacy, m, id);
    DecodeEncodeEntry(env, m[id]);
  }

  lemma {:induction false} MigratedHolds<A>(env: Env<A>, after: Tree, m: map<string, Entry>, id: string)
    requires Completes(env, map[], after, m) && id in m
    ensures EntryKey(id) in after && after[EntryKey(id)] == Stored(m)[id]
  {
    var all: Tree :| Extends(map[], all, Stored(m), Missing(map[], m.Keys)) && after == Marked(all, m);
    KeysApart(id, id);
    assert id in Missing(map[], m.Keys);
  }

  /** From an empty tree, every collected entry reads back from the finished tree as itself. */
  lemma {:induction false} MigratedReadsBack<A(!new)>(env: Env<A>, legacy: Tree, after: Tree, m: map<string, Entry>, id: string)
    requires Lawful(env) && CollectsAll(LegacyEntries(env, legacy), m) && Completes(env, map[], after, m) && id in m
    ensures EntryKey(id) in after && DecodeEntry(env, id, after[EntryKey(id)]) == Success(m[id])
  {
    MigratedHolds(env, after, m, id);
    CollectedReadsBack(env, legacy, m, id);
  }

  /** And the finished tree holds nothing else but the marker. */
  lemma {:induction false} MigratedHoldsOnly<A>(env: Env<A>, after: Tree, m: map<string, Entry>, k: DataValue)
    requires Completes(env, map[], after, m) && k in after
    ensures k == MarkerKey || exists id :: id in m && k == EntryKey(id)
  {
    var all: Tree :| Extends(map[], all, Stored(m), Missing(map[], m.Keys)) && after == Marked(all, m);
    if k != MarkerKey {
      var id :| id in Missing(map[], m.Keys) && k == EntryKey(id);
    }
  }

  /** The new book holds nothing but the entries of the legacy one and the marker, and the count is theirs. */
  lemma {:induction false} MigratedOnlyLegacy<A>(
      env: Env<A>, legacy: Tree, after: Tree, r: Result<MigrationResult, BookError>, k: DataValue)
    requires Attempted(env, legacy, map[], after, r) && r.Success?
    ensures k in after && k != MarkerKey ==>
              exists key, e :: key in legacy && LegacyHolds(env, key, legacy[key], e) && k == EntryKey(e.id)
    ensures r.value.count + 1 == |after|
  {
    var d := LegacyEntries(env, legacy);
    var m := Contents(d);
    if k in after && k != MarkerKey {
      MigratedHoldsOnly(env, after, m, k);
      var id :| id in m && k == EntryKey(id);
      var key :| key in d.Keys && d[key] == Success(m[id]) && m[id].id == id;
      LegacyMeans(env, key, legacy[key], m[id]);
    }
    FinishedSize(env, after, m);
  }

  function KeysOf(ids: set<string>): set<DataValue> {
    set id | id in ids :: EntryKey(id)
  }

  lemma {:induction false} FinishedKeys<A>(env: Env<A>, after: Tree, m: map<string, Entry>)
    requires Completes(env, map[], after, m)
    ensures after.Keys == KeysOf(m.Keys) + {MarkerKey}
  {
    forall k ensures k in after.Keys <==> k in KeysOf(m.Keys) + {MarkerKey} {
      FinishedKey(env, after, m, k);
    }
  }

  lemma {:induction false} FinishedKey<A>(env: Env<A>, after: Tree, m: map<string, Entry>, k: DataValue)
    requires Completes(env, map[], after, m)
    ensures k in after <==> k == MarkerKey || k in KeysOf(m.Keys)
  {
    if k in after {
      MigratedHoldsOnly(env, after, m, k);
    }
    if k in KeysOf(m.Keys) {
      var id :| id in m.Keys && k == EntryKey(id);
      MigratedHolds(env, after, m, id);
    }
  }

  lemma {:induction false} FinishedSize<A>(env: Env<A>, after: Tree, m: map<string, Entry>)
    requires Completes(env, map[], after, m)
    ensures |after| == |m| + 1
  {
    FinishedKeys(env, after, m);
    EntryKeysApart(m.Keys);
    if MarkerKey in KeysOf(m.Keys) {
      var id :| id in m.Keys && MarkerKey == EntryKey(id);
      KeysApart(id, id);
    }
    assert |after.Keys| == |KeysOf(m.Keys)| + 1;
  }

  lemma {:induction false} EntryKeysApart(ids: set<string>)
    ensures |KeysOf(ids)| == |ids|
  {
    if ids != {} {
      var one :| one in ids;
      EntryKeysApart(ids - {one});
      forall id | id in ids - {one} ensures EntryKey(id) != EntryKey(one) {
        KeysApart(id, one);
      }
      assert KeysOf(ids) == KeysOf(ids - {one}) + {EntryKey(one)};
    }
  }

  lemma {:induction false} WrittenReadsBack<A(!new)>(env: Env<A>, before: Tree, after: Tree, e: Entry)
    requires Lawful(env) && Normalized(env, e) && after == before[EntryKey(e.id) := EncodeEntry(e)]
    ensures StoredAt(env, after, e) && after - {EntryKey(e.id)} == before - {EntryKey(e.id)}
  {
    StoredReadsBack(env, e);
  }

  /** A user's write that reaches the storage reads back as the entry that the given texts describe; the rest stays. */
  lemma {:induction false} UpsertReadsBack<A(!new)>(env: Env<A>, legacy: Tree, before: Tree, act: BookAction, after: Tree)
    requires Lawful(env) && act.WriteEntry? && BookStep(env, legacy, before, act, after) && after != before
    ensures exists e ::
              && Describes(env, act.address, act.name, act.destinationLabel, act.note, e)
              && StoredAt(env, after, e)
              && after - {EntryKey(e.id)} == before - {EntryKey(e.id)}
  {
    var e := NormalizeEntry(env, act.address, act.name, act.destinationLabel, act.note).value;
    NormalizeMeans(env, act.address, act.name, act.destinationLabel, act.note, e);
    NormalizeIdempotent(env, act.address, act.name, act.destinationLabel, act.note);
    WrittenReadsBack(env, before, after, e);
  }

  // ----- Reading the book -----

  ghost predicate IsEntry<A>(env: Env<A>, k: DataValue, v: Element, e: Entry) {
    k == EntryKey(e.id) && v == EncodeEntry(e) && Normalized(env, e)
  }

  /** Every key but the marker's is the key of a normalized entry stored under it. */
  ghost predicate Readable<A>(env: Env<A>, tree: Tree) {
    forall k :: k in tree && k != MarkerKey ==> exists e :: IsEntry(env, k, tree[k], e)
  }

  lemma {:induction false} ExtendsReadable<A(!new)>(
    env: Env<A>, legacy: Tree, before: Tree, after: Tree, m: map<string, Entry>, ids: set<string>)
    requires Lawful(env) && CollectsAll(LegacyEntries(env, legacy), m)
    requires Readable(env, before) && Extends(before, after, Stored(m), ids)
    ensures Readable(env, after)
  {
    forall k | k in after && k != MarkerKey ensures exists e :: IsEntry(env, k, after[k], e) {
      if k !in before {
        var id :| id in ids && k == EntryKey(id);
        CollectedIsNormalized(env, legacy, m, id);
        assert IsEntry(env, k, after[k], m[id]);
      }
    }
  }

  lemma {:induction false} TryKeepsReadable<A(!new)>(
    env: Env<A>, legacy: Tree, m: map<string, Entry>, before: Tree, after: Tree, r: Result<MigrationResult, BookError>)
    requires Lawful(env) && CollectsAll(LegacyEntries(env, legacy), m) && Readable(env, before) && Tries(env, m, before, after, r)
    ensures Readable(env, after)
  {
    if MarkerKey !in before {
      if r.Success? {
        var all: Tree :| Extends(before, all, Stored(m), Missing(before, m.Keys)) && after == Marked(all, m);
        ExtendsReadable(env, legacy, before, all, m, Missing(before, m.Keys));
      } else {
        var ids: set<string> :| Extends(before, after, Stored(m), ids);
        ExtendsReadable(env, legacy, before, after, m, ids);
      }
    }
  }

  lemma {:induction false} WriteKeepsReadable<A>(env: Env<A>, before: Tree, e: Entry)
    requires Readable(env, before) && Normalized(env, e)
    ensures Readable(env, before[EntryKey(e.id) := EncodeEntry(e)])
  {
    var after := before[EntryKey(e.id) := EncodeEntry(e)];
    forall k | k in after && k != MarkerKey ensures exists x :: IsEntry(env, k, after[k], x) {
      if k == EntryKey(e.id) {
        assert IsEntry(env, k, after[k], e);
      }
    }
  }

  lemma {:induction false} StepKeepsReadable<A(!new)>(env: Env<A>, legacy: Tree, before: Tree, act: BookAction, after: Tree)
    requires Lawful(env) && Readable(env, before) && BookStep(env, legacy, before, act, after)
    ensures Readable(env, after)
  {
    match act {
      case Migrate(result) =>
        if Clean(LegacyEntries(env, legacy)) {
          TryKeepsReadable(env, legacy, Contents(LegacyEntries(env, legacy)), before, after, result);
        }
      case WriteEntry(address, name, destinationLabel, note) =>
        if after != before {
          NormalizeIdempotent(env, address, name, destinationLabel, note);
          WriteKeepsReadable(env, before, NormalizeEntry(env, address, name, destinationLabel, note).value);
        }
      case RemoveEntry(id) =>
    }
  }

  lemma {:induction false} BookReadable<A(!new)>(env: Env<A>, legacy: Tree, trees: seq<Tree>, acts: seq<BookAction>, j: nat)
    requires Lawful(env) && BookRun(env, legacy, trees, acts) && j < |trees|
    ensures Readable(env, trees[j])
    decreases j
  {
    if j > 0 {
      BookReadable(env, legacy, trees, acts, j - 1);
      StepKeepsReadable(env, legacy, trees[j - 1], acts[j - 1], trees[j]);
    }
  }

  /** In every reachable book read_v2_entries reads each key: the marker is skipped, any other gives the entry stored there. */
  lemma {:induction false} ReachableBookReads<A(!new)>(
    env: Env<A>, legacy: Tree, trees: seq<Tree>, acts: seq<BookAction>, j: nat, k: DataValue)
    requires Lawful(env) && BookRun(env, legacy, trees, acts) && j < |trees| && k in trees[j]
    ensures k == MarkerKey ==> StoredEntries(env, trees[j])[k] == Success(None)
    ensures k != MarkerKey ==> exists e :: IsEntry(env, k, trees[j][k], e) && StoredEntries(env, trees[j])[k] == Success(Some(e))
  {
    BookReadable(env, legacy, trees, acts, j);
    if k != MarkerKey {
      var e :| IsEntry(env, k, trees[j][k], e);
      StoredReadsBack(env, e);
    }
  }
}
