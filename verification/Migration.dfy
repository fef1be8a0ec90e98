/**
 The version 2 address-book migration (rust/src/api/address_book_v2.rs): interrupted at any write, resumed, and run in
 every iteration order of its hash maps.
 */
module Migration {
  import opened Common
  import opened DataElement
  import opened AddressBook

  type Tree = map<DataValue, Element>

  const COUNT_LIMIT: nat := 0x1_0000_0000

  datatype MigrationResult = MigrationResult(count: nat, alreadyComplete: bool)

  // ----- The legacy tree -----

  /** One legacy entry, in the order the source checks it. */
  function LegacyEntry<A>(env: Env<A>, key: DataValue, value: Element): Result<Entry, BookError> {
    if !key.Text? then Failure(LegacyKeyInvalid)
    else if !value.Fields? then Failure(LegacyEntryInvalid)
    else
      var name := StringField(value.fields, "name", true);
      var address := StringField(value.fields, "address", true);
      var note := StringField(value.fields, "note", false);
      if name.Failure? then Failure(name.error)
      else if address.Failure? then Failure(address.error)
      else if note.Failure? then Failure(note.error)
      else if name.value == None || address.value == None then Failure(SchemaInvalid)
      else
        var keyed := CanonicalDestination(env, key.text);
        var entry := NormalizeEntry(env, address.value.value, name.value.value, None, note.value);
        if keyed.Failure? then Failure(keyed.error)
        else if entry.Failure? then Failure(entry.error)
        else if entry.value.destination.address != keyed.value.address then Failure(LegacyAddressMismatch)
        else Success(entry.value)
  }

  /**
   What a legacy entry stands for: its name and note without outer white space, no destination label, and the printed
   form of the address, which the key must also be an address of.
   */
  ghost predicate LegacyHolds<A>(env: Env<A>, key: DataValue, value: Element, e: Entry) {
    && key.Text? && value.Fields?
    && exists address: string, name: string, note: Option<string> ::
         HoldsLegacy(value.fields, address, name, note) && Transcribes(env, key.text, address, name, note, e)
  }

  predicate HoldsLegacy(fields: seq<Field>, address: string, name: string, note: Option<string>) {
    HoldsText(fields, "name", Some(name)) && HoldsText(fields, "address", Some(address)) && HoldsText(fields, "note", note)
  }

  ghost predicate Transcribes<A>(env: Env<A>, key: string, address: string, name: string, note: Option<string>, e: Entry) {
    && Strips(name, e.name) && 1 <= |e.name| <= MAX_NAME_CHARS
    && e.destinationLabel == None
    && Tidied(note, MAX_NOTE_CHARS, e.note)
    && Addresses(env, address, e.destination)
    && (exists d :: Addresses(env, key, d) && d.address == e.destination.address)
    && e.id == env.idOf(e.destination.address)
  }

  lemma {:induction false} TranscribesIff<A>(
      env: Env<A>, key: string, address: string, name: string, note: Option<string>, e: Entry)
    ensures Transcribes(env, key, address, name, note, e) <==>
            && NormalizeEntry(env, address, name, None, note) == Success(e)
            && CanonicalDestination(env, key).Success?
            && CanonicalDestination(env, key).value.address == e.destination.address
  {
    NormalizeMeans(env, address, name, None, note, e);
    var keyed := CanonicalDestination(env, key);
    if keyed.Success? {
      DestinationMeans(env, key, keyed.value);
    }
    if Transcribes(env, key, address, name, note, e) {
      var d :| Addresses(env, key, d) && d.address == e.destination.address;
      DestinationMeans(env, key, d);
    }
  }

  /** The migration accepts exactly the legacy entries that stand for an entry, and takes that entry. */
  lemma {:induction false} LegacyMeans<A>(env: Env<A>, key: DataValue, value: Element, e: Entry)
    ensures LegacyEntry(env, key, value) == Success(e) <==> LegacyHolds(env, key, value, e)
  {
    if LegacyEntry(env, key, value) == Success(e) {
      LegacyRead(env, key, value, e);
    }
    if LegacyHolds(env, key, value, e) {
      var address: string, name: string, note: Option<string> :|
        HoldsLegacy(value.fields, address, name, note) && Transcribes(env, key.text, address, name, note, e);
      TranscribesIff(env, key.text, address, name, note, e);
      LegacyTaken(env, key.text, value.fields, e, address, name, note);
    }
  }

  lemma {:induction false} LegacyRead<A>(env: Env<A>, key: DataValue, value: Element, e: Entry)
    requires LegacyEntry(env, key, value) == Success(e)
    ensures LegacyHolds(env, key, value, e)
  {
    var name := StringField(value.fields, "name", true).value.value;
    var address := StringField(value.fields, "address", true).value.value;
    var note := StringField(value.fields, "note", false).value;
    TranscribesIff(env, key.text, address, name, note, e);
    assert HoldsLegacy(value.fields, address, name, note);
  }

  lemma {:induction false} LegacyTaken<A>(
      env: Env<A>, key: string, fields: seq<Field>, e: Entry, address: string, name: string, note: Option<string>)
    requires HoldsLegacy(fields, address, name, note)
    requires NormalizeEntry(env, address, name, None, note) == Success(e)
    requires CanonicalDestination(env, key).Success? && CanonicalDestination(env, key).value.address == e.destination.address
    ensures LegacyEntry(env, Text(key), Fields(fields)) == Success(e)
  {
    StringFieldMeans(fields, "name", true, Some(name));
    StringFieldMeans(fields, "address", true, Some(address));
    StringFieldMeans(fields, "note", false, note);
  }

  /** What a refusal of the migration says of the legacy entry. */
  ghost predicate LegacyFaulty<A>(env: Env<A>, key: DataValue, value: Element, e: BookError) {
    match e
    case LegacyKeyInvalid => !key.Text?
    case LegacyEntryInvalid => key.Text? && !value.Fields?
    case SchemaInvalid => value.Fields? && forall address, name, note :: !HoldsLegacy(value.fields, address, name, note)
    case LegacyAddressMismatch => key.Text? && value.Fields? && exists address, d, other ::
      HoldsText(value.fields, "address", Some(address)) && Addresses(env, address, d) && Addresses(env, key.text, other)
      && d.address != other.address
    case _ => key.Text? && value.Fields? && exists address, name, note ::
      && HoldsLegacy(value.fields, address, name, note)
      && (Faulty(env, key.text, "", None, None, e) || Faulty(env, address, name, None, note, e))
  }

  lemma {:induction false} LegacyFaultFound<A>(env: Env<A>, key: DataValue, value: Element)
    requires LegacyEntry(env, key, value).Failure?
    ensures LegacyFaulty(env, key, value, LegacyEntry(env, key, value).error)
  {
    if key.Text? && value.Fields? {
      var name := StringField(value.fields, "name", true);
      var address := StringField(value.fields, "address", true);
      var note := StringField(value.fields, "note", false);
      if name.Success? && address.Success? && note.Success? {
        assert HoldsLegacy(value.fields, address.value.value, name.value.value, note.value);
        HeldFaultFound(env, key.text, value.fields, address.value.value, name.value.value, note.value);
      } else {
        NothingHeld(value.fields, name, address, note);
      }
    }
  }

  lemma {:induction false} NothingHeld(
      fields: seq<Field>, name: Result<Option<string>, BookError>, address: Result<Option<string>, BookError>,
      note: Result<Option<string>, BookError>)
    requires name == StringField(fields, "name", true) && address == StringField(fields, "address", true)
    requires note == StringField(fields, "note", false)
    requires name.Failure? || address.Failure? || note.Failure?
    ensures name.Failure? ==> name.error == SchemaInvalid
    ensures address.Failure? ==> address.error == SchemaInvalid
    ensures note.Failure? ==> note.error == SchemaInvalid
    ensures forall a, n, o :: !HoldsLegacy(fields, a, n, o)
  {
  }

  lemma {:induction false} HeldFaultFound<A>(
      env: Env<A>, key: string, fields: seq<Field>, address: string, name: string, note: Option<string>)
    requires HoldsLegacy(fields, address, name, note) && LegacyEntry(env, Text(key), Fields(fields)).Failure?
    ensures LegacyFaulty(env, Text(key), Fields(fields), LegacyEntry(env, Text(key), Fields(fields)).error)
  {
    StringFieldMeans(fields, "name", true, Some(name));
    StringFieldMeans(fields, "address", true, Some(address));
    StringFieldMeans(fields, "note", false, note);
    var keyed := CanonicalDestination(env, key);
    var entry := NormalizeEntry(env, address, name, None, note);
    if keyed.Failure? {
      DestinationFault(env, key);
    } else if entry.Failure? {
      NormalizeFault(env, address, name, None, note);
    } else {
      DestinationMeans(env, key, keyed.value);
      DestinationMeans(env, address, entry.value.destination);
    }
  }

  /** What the first loop reads, entry by entry. */
  type Decoded = map<DataValue, Result<Entry, BookError>>

  function LegacyEntries<A>(env: Env<A>, legacy: Tree): (d: Decoded)
    ensures d.Keys == legacy.Keys
  {
    map k | k in legacy :: LegacyEntry(env, k, legacy[k])
  }

  /** Every legacy entry is valid, and entries with one identifier agree. */
  ghost predicate Clean(d: Decoded) {
    && (forall k :: k in d ==> d[k].Success?)
    && (forall k, l :: k in d && l in d && d[k].value.id == d[l].value.id ==> d[k] == d[l])
  }

  /** `m` holds exactly the entries under `keys`, by identifier. */
  ghost predicate Collects(d: Decoded, keys: set<DataValue>, m: map<string, Entry>) {
    && keys <= d.Keys
    && (forall k :: k in keys ==> d[k].Success? && d[k].value.id in m && m[d[k].value.id] == d[k].value)
    && (forall id :: id in m ==> exists k :: k in keys && d[k] == Success(m[id]) && m[id].id == id)
  }

  ghost predicate CollectsAll(d: Decoded, m: map<string, Entry>) {
    Collects(d, d.Keys, m)
  }

  /** Whatever the iteration order, the same entries are collected. */
  lemma {:induction false} CollectsUnique(d: Decoded, m: map<string, Entry>, n: map<string, Entry>)
    requires CollectsAll(d, m) && CollectsAll(d, n)
    ensures m == n
  {
    forall id | id in m ensures id in n && n[id] == m[id] {
      var k :| k in d.Keys && d[k] == Success(m[id]) && m[id].id == id;
    }
    forall id | id in n ensures id in m {
      var k :| k in d.Keys && d[k] == Success(n[id]) && n[id].id == id;
    }
  }

  lemma {:induction false} LegacyIsNormalized<A(!new)>(env: Env<A>, key: DataValue, value: Element)
    requires Lawful(env) && LegacyEntry(env, key, value).Success?
    ensures Normalized(env, LegacyEntry(env, key, value).value)
  {
    var name := StringField(value.fields, "name", true).value.value;
    var address := StringField(value.fields, "address", true).value.value;
    NormalizeIdempotent(env, address, name, None, StringField(value.fields, "note", false).value);
  }

  lemma {:induction false} CollectedIsNormalized<A(!new)>(env: Env<A>, legacy: Tree, m: map<string, Entry>, id: string)
    requires Lawful(env) && CollectsAll(LegacyEntries(env, legacy), m) && id in m
    ensures m[id].id == id && Normalized(env, m[id])
  {
    var d := LegacyEntries(env, legacy);
    var k :| k in d.Keys && d[k] == Success(m[id]) && m[id].id == id;
    LegacyIsNormalized(env, k, legacy[k]);
  }

  /** The first loop, over the legacy entries in any order: succeeds exactly on clean data. */
  method CollectEntries(d: Decoded) returns (r: Result<map<string, Entry>, BookError>)
    ensures r.Success? <==> Clean(d)
    ensures r.Success? ==> CollectsAll(d, r.value)
  {
    var migrated: map<string, Entry> := map[];
    var rest := d.Keys;
    while rest != {}
      invariant rest <= d.Keys
      invariant Collects(d, d.Keys - rest, migrated)
      decreases |rest|
    {
      var key :| key in rest;
      if d[key].Failure? {
        return Failure(d[key].error);
      }
      var entry := d[key].value;
      if entry.id in migrated && migrated[entry.id] != entry {
        DuplicateIsUnclean(d, d.Keys - rest, migrated, key);
        return Failure(MigrationDuplicate);
      }
      CollectOne(d, d.Keys - rest, migrated, key);
      migrated := migrated[entry.id := entry];
      assert d.Keys - (rest - {key}) == d.Keys - rest + {key};
      rest := rest - {key};
    }
    assert d.Keys - rest == d.Keys;
    CollectedIsClean(d, migrated);
    return Success(migrated);
  }

  lemma {:induction false} DuplicateIsUnclean(d: Decoded, keys: set<DataValue>, m: map<string, Entry>, key: DataValue)
    requires Collects(d, keys, m) && key in d && d[key].Success?
    requires d[key].value.id in m && m[d[key].value.id] != d[key].value
    ensures !Clean(d)
  {
    var id := d[key].value.id;
    var k :| k in keys && d[k] == Success(m[id]) && m[id].id == id;
    assert k in d;
  }

  lemma {:induction false} CollectOne(d: Decoded, keys: set<DataValue>, m: map<string, Entry>, key: DataValue)
    requires Collects(d, keys, m) && key in d && d[key].Success?
    requires d[key].value.id in m ==> m[d[key].value.id] == d[key].value
    ensures Collects(d, keys + {key}, m[d[key].value.id := d[key].value])
  {
    var e := d[key].value;
    var more := m[e.id := e];
    forall id | id in more ensures exists k :: k in keys + {key} && d[k] == Success(more[id]) && more[id].id == id {
      if id == e.id {
        assert key in keys + {key};
      } else {
        var k :| k in keys && d[k] == Success(m[id]) && m[id].id == id;
        assert k in keys + {key};
      }
    }
  }

  /** Clean legacy data can be collected. */
  lemma {:induction false} CleanCollects(d: Decoded, keys: set<DataValue>) returns (m: map<string, Entry>)
    requires Clean(d) && keys <= d.Keys
    ensures Collects(d, keys, m)
    decreases |keys|
  {
    if keys == {} {
      m := map[];
    } else {
      var key :| key in keys;
      m := CleanCollects(d, keys - {key});
      if d[key].value.id in m && m[d[key].value.id] != d[key].value {
        DuplicateIsUnclean(d, keys - {key}, m, key);
      }
      CollectOne(d, keys - {key}, m, key);
      assert keys - {key} + {key} == keys;
      m := m[d[key].value.id := d[key].value];
    }
  }

  lemma {:induction false} CleanHasContents(d: Decoded)
    requires Clean(d)
    ensures exists m :: CollectsAll(d, m)
  {
    var m := CleanCollects(d, d.Keys);
    assert CollectsAll(d, m);
  }

  /** The entries of clean legacy data, by identifier. */
  ghost function Contents(d: Decoded): (m: map<string, Entry>)
    requires Clean(d)
    ensures CollectsAll(d, m)
  {
    CleanHasContents(d);
    var m :| CollectsAll(d, m);
    m
  }

  lemma {:induction false} CollectedIsClean(d: Decoded, m: map<string, Entry>)
    requires CollectsAll(d, m)
    ensures Clean(d)
  {
    forall k, l | k in d && l in d && d[k].value.id == d[l].value.id ensures d[k] == d[l] {
      assert k in d.Keys && l in d.Keys;
    }
  }

  // ----- Reading the version 2 tree -----

  type ReadKeys = map<DataValue, Result<Option<Entry>, BookError>>

  function StoredEntries<A>(env: Env<A>, tree: Tree): (d: ReadKeys)
    ensures d.Keys == tree.Keys
  {
    map k | k in tree :: ReadStored(env, k, tree[k])
  }

  /** The keys that hold an entry. */
  function EntryKeys(d: ReadKeys, keys: set<DataValue>): set<DataValue> {
    set k | k in keys && k in d && d[k].Success? && d[k].value.Some?
  }

  /** The loop of read_v2_entries, in any order: all entries, each once, unless some key cannot be read. */
  method ReadV2Entries(d: ReadKeys) returns (r: Result<seq<Entry>, BookError>)
    ensures r.Success? <==> forall k :: k in d ==> d[k].Success?
    ensures r.Success? ==> |r.value| == |EntryKeys(d, d.Keys)|
    ensures r.Success? ==> forall e :: e in r.value <==> exists k :: k in d && d[k] == Success(Some(e))
  {
    var entries: seq<Entry> := [];
    var rest := d.Keys;
    while rest != {}
      invariant rest <= d.Keys
      invariant forall k :: k in d && k !in rest ==> d[k].Success?
      invariant |entries| == |EntryKeys(d, d.Keys - rest)|
      invariant forall e :: e in entries <==> exists k :: k in d && k !in rest && d[k] == Success(Some(e))
      decreases |rest|
    {
      var key :| key in rest;
      if d[key].Failure? {
        return Failure(d[key].error);
      }
      ghost var done := EntryKeys(d, d.Keys - rest);
      ghost var later := EntryKeys(d, d.Keys - (rest - {key}));
      if d[key].value.Some? {
        assert later == done + {key} && key !in done;
        entries := entries + [d[key].value.value];
      } else {
        assert later == done;
      }
      rest := rest - {key};
    }
    assert d.Keys - rest == d.Keys;
    return Success(entries);
  }

  // ----- Writing -----

  /** The collected entries as they are stored. */
  function Stored(m: map<string, Entry>): (r: map<string, Element>)
    ensures r.Keys == m.Keys
  {
    map id | id in m :: EncodeEntry(m[id])
  }

  /** `after` is `before` plus the entries `ids`, none of which `before` had. */
  ghost predicate Extends(before: Tree, after: Tree, m: map<string, Element>, ids: set<string>) {
    && (forall k :: k in before ==> k in after && after[k] == before[k])
    && (forall id :: id in ids ==> id in m && EntryKey(id) !in before && EntryKey(id) in after && after[EntryKey(id)] == m[id])
    && (forall k :: k in after ==> k in before || exists id :: id in ids && k == EntryKey(id))
  }

  function Missing(tree: Tree, ids: set<string>): set<string> {
    set id | id in ids && EntryKey(id) !in tree
  }

  predicate Agrees<A>(env: Env<A>, tree: Tree, m: map<string, Entry>, id: string)
    requires id in m && EntryKey(id) in tree
  {
    DecodeEntry(env, id, tree[EntryKey(id)]) == Success(m[id])
  }

  /** The entries already stored agree with the legacy data. */
  ghost predicate Compatible<A>(env: Env<A>, tree: Tree, m: map<string, Entry>) {
    forall id :: id in m && EntryKey(id) in tree ==> Agrees(env, tree, m, id)
  }

  /** The finished tree: every missing entry, then the marker with the count. */
  ghost predicate Completes<A>(env: Env<A>, before: Tree, after: Tree, m: map<string, Entry>) {
    && Compatible(env, before, m)
    && |m| < COUNT_LIMIT
    && exists all: Tree :: Extends(before, all, Stored(m), Missing(before, m.Keys)) && after == Marked(all, m)
  }

  function Marked(tree: Tree, m: map<string, Entry>): Tree {
    tree[MarkerKey := EncodeMarker(|m|)]
  }

  /** What one call may do when `m` is what it collects, interruptions included. */
  ghost predicate Tries<A>(env: Env<A>, m: map<string, Entry>, before: Tree, after: Tree, r: Result<MigrationResult, BookError>) {
    if MarkerKey in before then after == before && r == MarkerResult(before[MarkerKey])
    else if r.Success? then Completes(env, before, after, m) && r.value == MigrationResult(|m|, false)
    else exists ids: set<string> :: Extends(before, after, Stored(m), ids)
  }

  /** What one call of migrate_address_book_v2 may do. */
  ghost predicate Attempted<A>(env: Env<A>, legacy: Tree, before: Tree, after: Tree, r: Result<MigrationResult, BookError>) {
    if Clean(LegacyEntries(env, legacy)) then Tries(env, Contents(LegacyEntries(env, legacy)), before, after, r)
    else after == before && if MarkerKey in before then r == MarkerResult(before[MarkerKey]) else r.Failure?
  }

  function MarkerResult(marker: Element): Result<MigrationResult, BookError> {
    match DecodeMarker(marker)
    case Failure(e) => Failure(e)
    case Success(count) => Success(MigrationResult(count, true))
  }

  lemma {:induction false} ExtendsUnique(before: Tree, a: Tree, b: Tree, m: map<string, Element>, ids: set<string>)
    requires Extends(before, a, m, ids) && Extends(before, b, m, ids)
    ensures a == b
  {
    forall k | k in a ensures k in b && b[k] == a[k] {
    }
    forall k | k in b ensures k in a && b[k] == a[k] {
    }
  }

  lemma {:induction false} CompletesUnique<A>(env: Env<A>, before: Tree, a: Tree, b: Tree, m: map<string, Entry>)
    requires Completes(env, before, a, m) && Completes(env, before, b, m)
    ensures a == b
  {
    var all: Tree :| Extends(before, all, Stored(m), Missing(before, m.Keys)) && a == Marked(all, m);
    var others: Tree :| Extends(before, others, Stored(m), Missing(before, m.Keys)) && b == Marked(others, m);
    ExtendsUnique(before, all, others, Stored(m), Missing(before, m.Keys));
  }

  /** Two extensions in a row are one. */
  lemma {:induction false} ExtendsTwice(t: Tree, u: Tree, v: Tree, m: map<string, Element>, a: set<string>, b: set<string>)
    requires Extends(t, u, m, a) && Extends(u, v, m, b)
    ensures Extends(t, v, m, a + b)
  {
    forall k | k in v ensures k in t || exists id :: id in a + b && k == EntryKey(id) {
      if k in u && k !in t {
        var id :| id in a && k == EntryKey(id);
        assert id in a + b;
      } else if k !in u {
        var id :| id in b && k == EntryKey(id);
        assert id in a + b;
      }
    }
  }

  lemma {:induction false} MissingAfter(t: Tree, u: Tree, m: map<string, Element>, ids: set<string>)
    requires Extends(t, u, m, ids)
    ensures Missing(t, m.Keys) == ids + Missing(u, m.Keys)
  {
    forall id | id in Missing(t, m.Keys) ensures id in ids + Missing(u, m.Keys) {
      if EntryKey(id) in u {
        var other :| other in ids && EntryKey(id) == EntryKey(other);
        KeysApart(id, other);
      }
    }
  }

  /** An interrupted attempt followed by a completed one ends where one uninterrupted attempt ends. */
  lemma {:induction false} PartialThenComplete<A>(env: Env<A>, t: Tree, u: Tree, v: Tree, m: map<string, Entry>, ids: set<string>)
    requires Extends(t, u, Stored(m), ids) && Completes(env, u, v, m)
    ensures Completes(env, t, v, m)
  {
    var all: Tree :| Extends(u, all, Stored(m), Missing(u, m.Keys)) && v == Marked(all, m);
    ExtendsTwice(t, u, all, Stored(m), ids, Missing(u, m.Keys));
    MissingAfter(t, u, Stored(m), ids);
  }

  /** What an interrupted attempt wrote never conflicts with the next one: stored entries read back as themselves. */
  lemma {:induction false} PartialStaysCompatible<A(!new)>(
    env: Env<A>, legacy: Tree, t: Tree, u: Tree, m: map<string, Entry>, ids: set<string>)
    requires Lawful(env) && CollectsAll(LegacyEntries(env, legacy), m)
    requires Compatible(env, t, m) && Extends(t, u, Stored(m), ids)
    ensures Compatible(env, u, m)
  {
    forall id | id in m && EntryKey(id) in u ensures Agrees(env, u, m, id) {
      if EntryKey(id) in t {
        assert Agrees(env, t, m, id);
      } else {
        var other :| other in ids && EntryKey(id) == EntryKey(other);
        KeysApart(id, other);
        CollectedIsNormalized(env, legacy, m, id);
        DecodeEncodeEntry(env, m[id]);
      }
    }
  }

  // ----- What a completed migration means -----

  predicate StoredAt<A>(env: Env<A>, tree: Tree, e: Entry) {
    EntryKey(e.id) in tree && ReadStored(env, EntryKey(e.id), tree[EntryKey(e.id)]) == Success(Some(e))
  }

  /** Every legacy entry stands for an entry, and reading the tree finds that entry. */
  ghost predicate Migrated<A>(env: Env<A>, legacy: Tree, tree: Tree) {
    forall key :: key in legacy ==> exists e :: LegacyHolds(env, key, legacy[key], e) && StoredAt(env, tree, e)
  }

  lemma {:induction false} DecodedIsStored<A>(env: Env<A>, tree: Tree, e: Entry)
    requires ValidEntryId(e.id) && EntryKey(e.id) in tree && DecodeEntry(env, e.id, tree[EntryKey(e.id)]) == Success(e)
    ensures StoredAt(env, tree, e)
  {
    KeysApart(e.id, e.id);
    assert (ENTRY_PREFIX + e.id)[|ENTRY_PREFIX|..] == e.id;
  }

  /** Written now or found in agreement, a collected entry is in the finished tree. */
  lemma {:induction false} CompletedHolds<A(!new)>(
      env: Env<A>, before: Tree, after: Tree, m: map<string, Entry>, id: string)
    requires Completes(env, before, after, m) && id in m && Normalized(env, m[id]) && m[id].id == id
    ensures EntryKey(id) in after && DecodeEntry(env, id, after[EntryKey(id)]) == Success(m[id])
  {
    var all: Tree :| Extends(before, all, Stored(m), Missing(before, m.Keys)) && after == Marked(all, m);
    KeysApart(id, id);
    if EntryKey(id) in before {
      assert Agrees(env, before, m, id);
    } else {
      assert id in Missing(before, m.Keys);
      DecodeEncodeEntry(env, m[id]);
    }
  }

  lemma {:induction false} CompletedIsMigrated<A(!new)>(
      env: Env<A>, legacy: Tree, before: Tree, after: Tree, m: map<string, Entry>)
    requires Lawful(env) && CollectsAll(LegacyEntries(env, legacy), m) && Completes(env, before, after, m)
    ensures Migrated(env, legacy, after)
  {
    var d := LegacyEntries(env, legacy);
    forall key | key in legacy ensures exists e :: LegacyHolds(env, key, legacy[key], e) && StoredAt(env, after, e) {
      assert key in d.Keys;
      var e := d[key].value;
      LegacyMeans(env, key, legacy[key], e);
      CollectedIsNormalized(env, legacy, m, e.id);
      NormalizedIdIsValid(env, e);
      CompletedHolds(env, before, after, m, e.id);
      DecodedIsStored(env, after, e);
    }
  }

  // ----- The storage and the call -----

  lemma {:induction false} SubsetSize<X>(a: set<X>, b: set<X>)
    requires a <= b
    ensures |a| <= |b|
  {
    assert b == a + (b - a);
  }

  lemma {:induction false} ExtendOne(before: Tree, tree: Tree, m: map<string, Element>, ids: set<string>, id: string)
    requires Extends(before, tree, m, ids) && id in m && EntryKey(id) !in tree
    ensures Extends(before, tree[EntryKey(id) := m[id]], m, ids + {id})
    ensures id !in ids
  {
    var after := tree[EntryKey(id) := m[id]];
    forall k | k in after ensures k in before || exists i :: i in ids + {id} && k == EntryKey(i) {
      if k == EntryKey(id) {
        assert id in ids + {id};
      } else if k !in before {
        var i :| i in ids && k == EntryKey(i);
        assert i in ids + {id};
      }
    }
  }

  /** The encrypted storage: a write is atomic, and after `writesLeft` of them the process is interrupted. */
  class AddressBookStorage {
    const legacy: Tree
    var tree: Tree
    var writesLeft: nat

    constructor (legacy: Tree, tree: Tree, writesLeft: nat)
      ensures this.legacy == legacy && this.tree == tree && this.writesLeft == writesLeft
    {
      this.legacy, this.tree, this.writesLeft := legacy, tree, writesLeft;
    }

    method SetCustomData(key: DataValue, value: Element) returns (done: bool)
      modifies this
      ensures done == (old(writesLeft) > 0)
      ensures tree == if done then old(tree)[key := value] else old(tree)
      ensures writesLeft == if done then old(writesLeft) - 1 else 0
    {
      done := writesLeft > 0;
      if done {
        tree := tree[key := value];
        writesLeft := writesLeft - 1;
      }
    }

    /** One entry of the second loop: checked if it is there, written if it is not. */
    method WriteEntry<A>(env: Env<A>, migrated: map<string, Entry>, id: string) returns (error: Option<BookError>)
      requires id in migrated
      modifies this
      ensures Wrote(env, old(tree), tree, migrated, id, old(writesLeft), writesLeft, error.Some?)
    {
      var key := EntryKey(id);
      if key in tree {
        var existing := DecodeEntry(env, id, tree[key]);
        if existing.Failure? {
          return Some(existing.error);
        }
        return if existing.value != migrated[id] then Some(EntryConflict) else None;
      }
      var done := SetCustomData(key, EncodeEntry(migrated[id]));
      return if done then None else Some(WriteFailed);
    }

    method WriteNext<A>(
      env: Env<A>, migrated: map<string, Entry>, ghost rest: set<string>, id: string, ghost before: Tree,
      ghost written: set<string>)
      returns (error: Option<BookError>, ghost more: set<string>)
      requires id in rest && Loop(env, before, tree, migrated, rest, written)
      modifies this
      ensures writesLeft + |more| == old(writesLeft) + |written|
      ensures error == None ==> Loop(env, before, tree, migrated, rest - {id}, more)
      ensures error.Some? ==> more == written && Stops(env, before, tree, migrated, written, writesLeft)
    {
      error := WriteEntry(env, migrated, id);
      if error.Some? {
        LoopFails(env, before, old(tree), tree, migrated, rest, written, id, old(writesLeft), writesLeft);
        more := written;
      } else {
        LoopStep(env, before, old(tree), tree, migrated, rest, written, id, old(writesLeft), writesLeft);
        more := WrittenAfter(old(tree), written, id);
      }
    }

    /** The second loop, over the collected entries in any order. */
    method WriteEntries<A>(
      env: Env<A>, migrated: map<string, Entry>) returns (error: Option<BookError>, ghost written: set<string>)
      modifies this
      ensures Extends(old(tree), tree, Stored(migrated), written)
      ensures writesLeft + |written| == old(writesLeft)
      ensures error == None ==> Compatible(env, old(tree), migrated) && written == Missing(old(tree), migrated.Keys)
      ensures error.Some? ==>
                !Compatible(env, old(tree), migrated) || (writesLeft == 0 && written < Missing(old(tree), migrated.Keys))
    {
      error := None;
      written := {};
      var rest := migrated.Keys;
      while rest != {}
        invariant Loop(env, old(tree), tree, migrated, rest, written)
        invariant writesLeft + |written| == old(writesLeft) && error == None
        decreases |rest|
      {
        var id :| id in rest;
        error, written := WriteNext(env, migrated, rest, id, old(tree), written);
        if error.Some? {
          return;
        }
        rest := rest - {id};
      }
      LoopEnds(env, old(tree), tree, migrated, written);
    }

    /** The second half of a call, once the legacy entries are collected. */
    method StoreMigrated<A>(env: Env<A>, migrated: map<string, Entry>) returns (r: Result<MigrationResult, BookError>)
      requires MarkerKey !in tree && CollectsAll(LegacyEntries(env, legacy), migrated)
      modifies this
      ensures r.Success? ==> Completes(env, old(tree), tree, migrated) && r.value == MigrationResult(|migrated|, false)
      ensures r.Failure? ==> exists ids: set<string> :: Extends(old(tree), tree, Stored(migrated), ids)
      ensures Permits(env, old(tree), migrated, old(writesLeft)) ==> r.Success?
    {
      var error, written := WriteEntries(env, migrated);
      if error.Some? {
        Insufficient(env, old(tree), migrated, old(writesLeft), written);
        return Failure(error.value);
      }
      if |migrated| >= COUNT_LIMIT {
        return Failure(EntryCountOverflow);
      }
      ghost var all := tree;
      var done := SetCustomData(MarkerKey, EncodeMarker(|migrated|));
      if !done {
        return Failure(WriteFailed);
      }
      assert tree == Marked(all, migrated);
      return Success(MigrationResult(|migrated|, false));
    }

    /** One call; it succeeds whenever the data allow it and the writes last. */
    method MigrateAddressBook<A(!new)>(env: Env<A>) returns (r: Result<MigrationResult, BookError>)
      modifies this
      ensures Attempted(env, legacy, old(tree), tree, r)
      ensures Ready(env, legacy, old(tree), old(writesLeft)) ==> r.Success?
      ensures Lawful(env) && MarkerKey !in old(tree) && r.Success? ==> Migrated(env, legacy, tree)
    {
      if MarkerKey in tree {
        return MarkerResult(tree[MarkerKey]);
      }
      var collected := CollectEntries(LegacyEntries(env, legacy));
      if collected.Failure? {
        return Failure(collected.error);
      }
      CollectsUnique(LegacyEntries(env, legacy), collected.value, Contents(LegacyEntries(env, legacy)));
      ghost var before := tree;
      r := StoreMigrated(env, collected.value);
      if Lawful(env) && r.Success? {
        CompletedIsMigrated(env, legacy, before, tree, collected.value);
      }
    }
  }

  /** Nothing stands in the way of a migration: it is due, the data are clean, the stored entries agree, the writes suffice. */
  ghost predicate Ready<A>(env: Env<A>, legacy: Tree, tree: Tree, writesLeft: nat) {
    && MarkerKey !in tree
    && Clean(LegacyEntries(env, legacy))
    && Permits(env, tree, Contents(LegacyEntries(env, legacy)), writesLeft)
  }

  ghost predicate Permits<A>(env: Env<A>, tree: Tree, m: map<string, Entry>, writesLeft: nat) {
    Compatible(env, tree, m) && |m| < COUNT_LIMIT && writesLeft > |Missing(tree, m.Keys)|
  }

  lemma {:induction false} Insufficient<A>(env: Env<A>, tree: Tree, m: map<string, Entry>, writesLeft: nat, written: set<string>)
    requires !Compatible(env, tree, m) || (written <= Missing(tree, m.Keys) && writesLeft == |written|)
    ensures !Permits(env, tree, m, writesLeft)
  {
    if written <= Missing(tree, m.Keys) {
      SubsetSize(written, Missing(tree, m.Keys));
    }
  }

  ghost function WrittenAfter(tree: Tree, written: set<string>, id: string): set<string> {
    if EntryKey(id) in tree then written else written + {id}
  }

  /** The second loop with `rest` still to do and `written` newly written. */
  ghost predicate Loop<A>(env: Env<A>, before: Tree, tree: Tree, m: map<string, Entry>, rest: set<string>, written: set<string>) {
    && rest <= m.Keys && written !! rest
    && Extends(before, tree, Stored(m), written)
    && (forall id :: id in m && id !in rest ==> EntryKey(id) in tree)
    && (forall id :: id in m && id !in rest && EntryKey(id) in before ==> Agrees(env, before, m, id))
  }

  /** What WriteEntry does to the tree and the writes left. */
  ghost predicate Wrote<A>(
    env: Env<A>, tree: Tree, after: Tree, m: map<string, Entry>, id: string, left: nat, leftAfter: nat, failed: bool)
    requires id in m
  {
    if EntryKey(id) in tree then after == tree && leftAfter == left && (failed <==> !Agrees(env, tree, m, id))
    else if failed then left == leftAfter == 0 && after == tree
    else left == leftAfter + 1 && after == tree[EntryKey(id) := Stored(m)[id]]
  }

  /** The loop stops early: a stored entry disagrees, or the writes ran out with entries missing. */
  ghost predicate Stops<A>(env: Env<A>, before: Tree, tree: Tree, m: map<string, Entry>, written: set<string>, left: nat) {
    && Extends(before, tree, Stored(m), written)
    && (!Compatible(env, before, m) || (left == 0 && written < Missing(before, m.Keys)))
  }

  lemma {:induction false} LoopStep<A>(
    env: Env<A>, before: Tree, tree: Tree, after: Tree, m: map<string, Entry>, rest: set<string>, written: set<string>,
    id: string, left: nat, leftAfter: nat)
    requires Loop(env, before, tree, m, rest, written) && id in rest && Wrote(env, tree, after, m, id, left, leftAfter, false)
    ensures Loop(env, before, after, m, rest - {id}, WrittenAfter(tree, written, id))
    ensures leftAfter + |WrittenAfter(tree, written, id)| == left + |written|
  {
    if EntryKey(id) in tree {
      KnownKey(before, tree, Stored(m), written, id);
    } else {
      ExtendOne(before, tree, Stored(m), written, id);
    }
  }

  lemma {:induction false} LoopFails<A>(
    env: Env<A>, before: Tree, tree: Tree, after: Tree, m: map<string, Entry>, rest: set<string>, written: set<string>,
    id: string, left: nat, leftAfter: nat)
    requires Loop(env, before, tree, m, rest, written) && id in rest && Wrote(env, tree, after, m, id, left, leftAfter, true)
    ensures Stops(env, before, after, m, written, leftAfter) && left == leftAfter
  {
    if EntryKey(id) in tree {
      KnownKey(before, tree, Stored(m), written, id);
      assert !Agrees(env, before, m, id);
    } else {
      assert id in Missing(before, m.Keys);
    }
  }

  lemma {:induction false} LoopEnds<A>(env: Env<A>, before: Tree, tree: Tree, m: map<string, Entry>, written: set<string>)
    requires Loop(env, before, tree, m, {}, written)
    ensures Compatible(env, before, m) && written == Missing(before, m.Keys)
  {
    AllWritten(before, tree, Stored(m), written);
  }

  lemma {:induction false} KnownKey(before: Tree, tree: Tree, m: map<string, Element>, ids: set<string>, id: string)
    requires Extends(before, tree, m, ids) && id !in ids && EntryKey(id) in tree
    ensures EntryKey(id) in before && before[EntryKey(id)] == tree[EntryKey(id)]
  {
    if EntryKey(id) !in before {
      var other :| other in ids && EntryKey(id) == EntryKey(other);
      KeysApart(id, other);
    }
  }

  lemma {:induction false} AllWritten(before: Tree, tree: Tree, m: map<string, Element>, ids: set<string>)
    requires Extends(before, tree, m, ids) && forall id :: id in m ==> EntryKey(id) in tree
    ensures ids == Missing(before, m.Keys)
  {
    forall id | id in Missing(before, m.Keys) ensures id in ids {
      var other :| other in ids && EntryKey(id) == EntryKey(other);
      KeysApart(id, other);
    }
  }
}
