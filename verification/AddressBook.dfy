/**
 Entries of the version 2 address book and their stored form (rust/src/api/address_book_v2.rs).  The address codec and
 the entry hash are a record of functions; `Lawful` is all that is assumed of them.
 */
module AddressBook {
  import opened Common
  import opened Decimal
  import opened Utf8
  import opened DataElement

  const MARKER_KEY: string := "_meta:migration_v1_complete"
  const ENTRY_PREFIX: string := "entry:"
  const SCHEMA_VERSION: nat := 2
  const MAX_ADDRESS_BYTES: nat := 8192
  const MAX_NAME_CHARS: nat := 128
  const MAX_LABEL_CHARS: nat := 128
  const MAX_NOTE_CHARS: nat := 2048

  datatype Env<!A> = Env(
    parse: string -> Option<A>,
    text: A -> string,
    onMainnet: A -> bool,
    baseText: A -> string,
    dataKind: A -> Option<nat>,
    idOf: string -> string,
    mainnet: bool)

  /** Printing inverts parsing, does not lengthen, and leaves no outer white space; identifiers are hashes in hexadecimal. */
  ghost predicate Lawful<A(!new)>(env: Env<A>) {
    && (forall a :: env.parse(env.text(a)) == Some(a) && env.text(a) != "" && Trim(env.text(a)) == env.text(a))
    && (forall s :: env.parse(s).Some? ==> Utf8Length(env.text(env.parse(s).value)) <= Utf8Length(s))
    && (forall s :: ValidEntryId(env.idOf(s)))
  }

  /** validate_entry_id */
  predicate ValidEntryId(id: string) {
    |id| == 64 && CanonicalHex(id)
  }

  /** `dataKind` is None for a standard address. */
  datatype Destination = Destination(address: string, baseAddress: string, dataKind: Option<nat>)

  datatype Entry = Entry(
    id: string, name: string, destinationLabel: Option<string>, note: Option<string>, destination: Destination)

  datatype BookError =
    | AddressInvalid
    | NetworkMismatch
    | NameInvalid
    | LabelInvalid
    | NoteInvalid
    | SchemaInvalid
    | SchemaVersionUnsupported
    | EntryIdMismatch
    | EntryKeyInvalid
    | EntryIdInvalid
    | MarkerInvalid
    | LegacyKeyInvalid
    | LegacyEntryInvalid
    | LegacyAddressMismatch
    | MigrationDuplicate
    | EntryConflict
    | EntryCountOverflow
    | WriteFailed

  // ----- Trimming -----

  /** Unicode white space. */
  predicate IsWhite(c: char) {
    var n := c as int;
    9 <= n <= 13 || n == 32 || n == 0x85 || n == 0xA0 || n == 0x1680 || 0x2000 <= n <= 0x200A ||
    n == 0x2028 || n == 0x2029 || n == 0x202F || n == 0x205F || n == 0x3000
  }

  predicate Trimmed(s: string) {
    s != "" ==> !IsWhite(s[0]) && !IsWhite(s[|s| - 1])
  }

  predicate AllWhite(s: string) {
    forall k :: 0 <= k < |s| ==> IsWhite(s[k])
  }

  /** `s` is white space, then `t` from position `from` on, then white space. */
  predicate CutAt(s: string, t: string, from: nat) {
    && from + |t| <= |s| && t == s[from..from + |t|]
    && (forall k :: 0 <= k < from ==> IsWhite(s[k]))
    && (forall k :: from + |t| <= k < |s| ==> IsWhite(s[k]))
  }

  /** `t` is `s` without its outer white space. */
  ghost predicate Strips(s: string, t: string) {
    Trimmed(t) && exists from: nat :: CutAt(s, t, from)
  }

  function TrimStart(s: string): (t: string)
    ensures |t| <= |s| && (t != "" ==> !IsWhite(t[0]))
    ensures s != "" && !IsWhite(s[0]) ==> t == s
    ensures t != "" ==> s != "" && t[|t| - 1] == s[|s| - 1]
  {
    if s != "" && IsWhite(s[0]) then TrimStart(s[1..]) else s
  }

  function TrimEnd(s: string): (t: string)
    ensures |t| <= |s| && (t != "" ==> !IsWhite(t[|t| - 1]))
    ensures s != "" && !IsWhite(s[|s| - 1]) ==> t == s
    ensures t != "" ==> s != "" && t[0] == s[0]
  {
    if s != "" && IsWhite(s[|s| - 1]) then TrimEnd(s[..|s| - 1]) else s
  }

  function Trim(s: string): (t: string)
    ensures Trimmed(t)
    ensures Trimmed(s) ==> t == s
  {
    TrimEnd(TrimStart(s))
  }

  lemma {:induction false} StartCut(s: string)
    ensures CutAt(s, TrimStart(s), |s| - |TrimStart(s)|)
  {
    if s != "" && IsWhite(s[0]) {
      StartCut(s[1..]);
      var from := |s| - |TrimStart(s)|;
      forall k | 0 <= k < from ensures IsWhite(s[k]) {
        assert k > 0 ==> s[1..][k - 1] == s[k];
      }
    }
  }

  lemma {:induction false} EndCut(s: string)
    ensures CutAt(s, TrimEnd(s), 0)
  {
    if s != "" && IsWhite(s[|s| - 1]) {
      var init, t := s[..|s| - 1], TrimEnd(s);
      EndCut(init);
      forall k | |t| <= k < |s| ensures IsWhite(s[k]) {
        assert k < |s| - 1 ==> init[k] == s[k];
      }
    }
  }

  lemma {:induction false} CutTwice(s: string, inner: string, from: nat, t: string)
    requires CutAt(s, inner, from) && CutAt(inner, t, 0)
    ensures CutAt(s, t, from)
  {
    forall k | from + |t| <= k < |s| ensures IsWhite(s[k]) {
      assert k < from + |inner| ==> inner[k - from] == s[k];
    }
  }

  /** What is trimmed off is white space, at both ends, and all of it. */
  lemma {:induction false} TrimStrips(s: string)
    ensures Strips(s, Trim(s))
  {
    var inner := TrimStart(s);
    StartCut(s);
    EndCut(inner);
    CutTwice(s, inner, |s| - |inner|, Trim(s));
  }

  lemma {:induction false} CutsAgree(s: string, t: string, from: nat, u: string, other: nat)
    requires CutAt(s, t, from) && CutAt(s, u, other) && t != "" && Trimmed(t)
    ensures other <= from && from + |t| <= other + |u|
  {
    assert s[from] == t[0];
    assert s[from + |t| - 1] == t[|t| - 1];
  }

  lemma {:induction false} CutsEqual(s: string, t: string, from: nat, u: string, other: nat)
    requires CutAt(s, t, from) && CutAt(s, u, other) && t != "" && Trimmed(t) && u != "" && Trimmed(u)
    ensures t == u
  {
    CutsAgree(s, t, from, u, other);
    CutsAgree(s, u, other, t, from);
  }

  lemma {:induction false} CutsOfWhite(s: string, t: string, from: nat)
    requires CutAt(s, t, from) && Trimmed(t)
    ensures t == "" <==> AllWhite(s)
  {
    assert t != "" ==> s[from] == t[0];
  }

  /** There is only one such text, and it is empty exactly when all was white space. */
  lemma {:induction false} StripsUnique(s: string, t: string)
    requires Strips(s, t)
    ensures t == Trim(s)
    ensures t == "" <==> AllWhite(s)
  {
    var u := Trim(s);
    TrimStrips(s);
    var from: nat :| CutAt(s, t, from);
    var other: nat :| CutAt(s, u, other);
    CutsOfWhite(s, t, from);
    CutsOfWhite(s, u, other);
    if t != "" {
      CutsEqual(s, t, from, u, other);
    }
  }

  lemma {:induction false} StripsIff(s: string, t: string)
    ensures Strips(s, t) <==> t == Trim(s)
    ensures Trim(s) == "" <==> AllWhite(s)
  {
    TrimStrips(s);
    StripsUnique(s, Trim(s));
    if Strips(s, t) {
      StripsUnique(s, t);
    }
  }

  // ----- Normalization -----

  function CanonicalDestination<A>(env: Env<A>, address: string): Result<Destination, BookError> {
    var trimmed := Trim(address);
    if trimmed == "" || Utf8Length(trimmed) > MAX_ADDRESS_BYTES then Failure(AddressInvalid)
    else
      var parsed := env.parse(trimmed);
      if parsed == None then Failure(AddressInvalid)
      else if env.onMainnet(parsed.value) != env.mainnet then Failure(NetworkMismatch)
      else Success(Destination(env.text(parsed.value), env.baseText(parsed.value), env.dataKind(parsed.value)))
  }

  function NormalizeRequired(value: string, maxChars: nat, error: BookError): Result<string, BookError> {
    var trimmed := Trim(value);
    if trimmed == "" || |trimmed| > maxChars then Failure(error) else Success(trimmed)
  }

  function NormalizeOptional(value: Option<string>, maxChars: nat, error: BookError): Result<Option<string>, BookError> {
    if value == None then Success(None)
    else
      var trimmed := Trim(value.value);
      if trimmed == "" then Success(None)
      else if |trimmed| > maxChars then Failure(error)
      else Success(Some(trimmed))
  }

  function NormalizeEntry<A>(
    env: Env<A>, address: string, name: string, destinationLabel: Option<string>, note: Option<string>)
    : Result<Entry, BookError>
  {
    var destination := CanonicalDestination(env, address);
    var cleanName := NormalizeRequired(name, MAX_NAME_CHARS, NameInvalid);
    var cleanLabel := NormalizeOptional(destinationLabel, MAX_LABEL_CHARS, LabelInvalid);
    var cleanNote := NormalizeOptional(note, MAX_NOTE_CHARS, NoteInvalid);
    if destination.Failure? then Failure(destination.error)
    else if cleanName.Failure? then Failure(cleanName.error)
    else if cleanLabel.Failure? then Failure(cleanLabel.error)
    else if cleanNote.Failure? then Failure(cleanNote.error)
    else
      var id := env.idOf(destination.value.address);
      Success(Entry(id, cleanName.value, cleanLabel.value, cleanNote.value, destination.value))
  }

  // ----- What normalization means -----

  /** The text is the given one without outer white space, within the limit; absent if nothing would be left. */
  ghost predicate Tidied(given: Option<string>, maxChars: nat, kept: Option<string>) {
    && (kept == None <==> given == None || AllWhite(given.value))
    && (kept.Some? ==> Strips(given.value, kept.value) && |kept.value| <= maxChars)
  }

  /** The address, without outer white space, is one of this network, printed as `d` says. */
  ghost predicate Addresses<A>(env: Env<A>, address: string, d: Destination) {
    exists inner ::
      && Strips(address, inner) && inner != "" && Utf8Length(inner) <= MAX_ADDRESS_BYTES
      && Parses(env, inner, d)
  }

  predicate Parses<A>(env: Env<A>, inner: string, d: Destination) {
    match env.parse(inner)
    case None => false
    case Some(a) =>
      env.onMainnet(a) == env.mainnet && d.address == env.text(a) && d.baseAddress == env.baseText(a)
      && d.dataKind == env.dataKind(a)
  }

  /** `e` is the entry that the caller's texts describe. */
  ghost predicate Describes<A>(
      env: Env<A>, address: string, name: string, destinationLabel: Option<string>, note: Option<string>, e: Entry) {
    && Addresses(env, address, e.destination)
    && e.id == env.idOf(e.destination.address)
    && Strips(name, e.name) && 1 <= |e.name| <= MAX_NAME_CHARS
    && Tidied(destinationLabel, MAX_LABEL_CHARS, e.destinationLabel)
    && Tidied(note, MAX_NOTE_CHARS, e.note)
  }

  lemma {:induction false} DestinationMeans<A>(env: Env<A>, address: string, d: Destination)
    ensures CanonicalDestination(env, address) == Success(d) <==> Addresses(env, address, d)
  {
    TrimStrips(address);
    if Addresses(env, address, d) {
      var inner :| Strips(address, inner) && inner != "" && Utf8Length(inner) <= MAX_ADDRESS_BYTES && Parses(env, inner, d);
      StripsUnique(address, inner);
    }
  }

  lemma {:induction false} RequiredMeans(value: string, maxChars: nat, error: BookError, kept: string)
    ensures NormalizeRequired(value, maxChars, error) == Success(kept) <==> Strips(value, kept) && 1 <= |kept| <= maxChars
  {
    StripsIff(value, kept);
  }

  lemma {:induction false} OptionalMeans(value: Option<string>, maxChars: nat, error: BookError, kept: Option<string>)
    ensures NormalizeOptional(value, maxChars, error) == Success(kept) <==> Tidied(value, maxChars, kept)
  {
    if value.Some? {
      StripsIff(value.value, if kept.Some? then kept.value else "");
    }
  }

  /** Normalization accepts exactly what describes an entry, and gives that entry. */
  lemma {:induction false} NormalizeMeans<A>(
      env: Env<A>, address: string, name: string, destinationLabel: Option<string>, note: Option<string>, e: Entry)
    ensures Describes(env, address, name, destinationLabel, note, e) <==>
            NormalizeEntry(env, address, name, destinationLabel, note) == Success(e)
  {
    DestinationMeans(env, address, e.destination);
    RequiredMeans(name, MAX_NAME_CHARS, NameInvalid, e.name);
    OptionalMeans(destinationLabel, MAX_LABEL_CHARS, LabelInvalid, e.destinationLabel);
    OptionalMeans(note, MAX_NOTE_CHARS, NoteInvalid, e.note);
  }

  /** What a refusal says of the caller's texts. */
  ghost predicate Faulty<A>(
      env: Env<A>, address: string, name: string, destinationLabel: Option<string>, note: Option<string>, e: BookError) {
    match e
    case AddressInvalid => forall inner :: Strips(address, inner) ==> !Acceptable(env, inner)
    case NetworkMismatch => exists inner :: Strips(address, inner) && Acceptable(env, inner) && Foreign(env, inner)
    case NameInvalid => AllWhite(name) || TooLong(name, MAX_NAME_CHARS)
    case LabelInvalid => destinationLabel.Some? && TooLong(destinationLabel.value, MAX_LABEL_CHARS)
    case NoteInvalid => note.Some? && TooLong(note.value, MAX_NOTE_CHARS)
    case _ => false
  }

  predicate Acceptable<A>(env: Env<A>, inner: string) {
    inner != "" && Utf8Length(inner) <= MAX_ADDRESS_BYTES && env.parse(inner).Some?
  }

  predicate Foreign<A>(env: Env<A>, inner: string) {
    env.parse(inner).Some? && env.onMainnet(env.parse(inner).value) != env.mainnet
  }

  ghost predicate TooLong(value: string, maxChars: nat) {
    exists inner :: Strips(value, inner) && |inner| > maxChars
  }

  lemma {:induction false} TrimTooLong(value: string, maxChars: nat)
    ensures |Trim(value)| > maxChars ==> TooLong(value, maxChars)
    ensures Trim(value) == "" <==> AllWhite(value)
  {
    TrimStrips(value);
    StripsUnique(value, Trim(value));
  }

  lemma {:induction false} DestinationFault<A>(env: Env<A>, address: string)
    requires CanonicalDestination(env, address).Failure?
    ensures Faulty(env, address, "", None, None, CanonicalDestination(env, address).error)
  {
    TrimStrips(address);
    forall inner | Strips(address, inner) ensures inner == Trim(address) {
      StripsUnique(address, inner);
    }
  }

  /** A refusal always names a fault of what the caller gave. */
  lemma {:induction false} NormalizeFault<A>(
      env: Env<A>, address: string, name: string, destinationLabel: Option<string>, note: Option<string>)
    requires NormalizeEntry(env, address, name, destinationLabel, note).Failure?
    ensures Faulty(env, address, name, destinationLabel, note, NormalizeEntry(env, address, name, destinationLabel, note).error)
  {
    TrimTooLong(name, MAX_NAME_CHARS);
    if destinationLabel.Some? {
      TrimTooLong(destinationLabel.value, MAX_LABEL_CHARS);
    }
    if note.Some? {
      TrimTooLong(note.value, MAX_NOTE_CHARS);
    }
    if CanonicalDestination(env, address).Failure? {
      DestinationFault(env, address);
    }
  }

  /** An entry that normalization leaves alone. */
  predicate Normalized<A>(env: Env<A>, e: Entry) {
    NormalizeEntry(env, e.destination.address, e.name, e.destinationLabel, e.note) == Success(e)
  }

  lemma {:induction false} CanonicalIsCanonical<A(!new)>(env: Env<A>, address: string)
    requires Lawful(env) && CanonicalDestination(env, address).Success?
    ensures var d := CanonicalDestination(env, address).value; CanonicalDestination(env, d.address) == Success(d)
  {
    var parsed := env.parse(Trim(address)).value;
    assert env.parse(env.text(parsed)) == Some(parsed);
  }

  lemma {:induction false} RequiredIdempotent(value: string, maxChars: nat, error: BookError)
    requires NormalizeRequired(value, maxChars, error).Success?
    ensures var v := NormalizeRequired(value, maxChars, error).value; NormalizeRequired(v, maxChars, error) == Success(v)
  {
  }

  lemma {:induction false} OptionalIdempotent(value: Option<string>, maxChars: nat, error: BookError)
    requires NormalizeOptional(value, maxChars, error).Success?
    ensures var v := NormalizeOptional(value, maxChars, error).value; NormalizeOptional(v, maxChars, error) == Success(v)
  {
  }

  /** Normalizing twice is normalizing once. */
  lemma {:induction false} NormalizeIdempotent<A(!new)>(
      env: Env<A>, address: string, name: string, destinationLabel: Option<string>, note: Option<string>)
    requires Lawful(env) && NormalizeEntry(env, address, name, destinationLabel, note).Success?
    ensures Normalized(env, NormalizeEntry(env, address, name, destinationLabel, note).value)
  {
    CanonicalIsCanonical(env, address);
    RequiredIdempotent(name, MAX_NAME_CHARS, NameInvalid);
    OptionalIdempotent(destinationLabel, MAX_LABEL_CHARS, LabelInvalid);
    OptionalIdempotent(note, MAX_NOTE_CHARS, NoteInvalid);
  }

  // ----- Stored form -----

  function TextElement(s: string): Element {
    Value(Text(s))
  }

  function TextField(name: string, value: string): Field {
    Field(Text(name), TextElement(value))
  }

  function OptionalField(name: string, value: Option<string>): seq<Field> {
    if value == None then [] else [TextField(name, value.value)]
  }

  const VersionField: Field := Field(Text("schema_version"), Value(Unsigned(U8, SCHEMA_VERSION)))

  /** The fields are of the supported schema version. */
  predicate HasVersion(fields: seq<Field>) {
    Lookup(fields, Text("schema_version")) == Some(Value(Unsigned(U8, SCHEMA_VERSION)))
  }

  function EncodeEntry(e: Entry): Element {
    Fields([VersionField, TextField("id", e.id), TextField("display_name", e.name)]
           + OptionalField("destination_label", e.destinationLabel)
           + OptionalField("note", e.note)
           + [TextField("address", e.destination.address)])
  }

  /** An ordered map's lookup. */
  function Lookup(fields: seq<Field>, key: DataValue): Option<Element> {
    if fields == [] then None
    else if fields[0].key == key then Some(fields[0].value)
    else Lookup(fields[1..], key)
  }

  lemma {:induction false} LookupFinds(fields: seq<Field>, key: DataValue)
    ensures Lookup(fields, key) == None <==> forall f :: f in fields ==> f.key != key
    ensures Lookup(fields, key).Some? ==> Field(key, Lookup(fields, key).value) in fields
  {
    if fields != [] && fields[0].key != key {
      LookupFinds(fields[1..], key);
      assert forall f :: f in fields <==> f == fields[0] || f in fields[1..];
    }
  }

  /** The fields hold this text under this name, or nothing. */
  predicate HoldsText(fields: seq<Field>, name: string, value: Option<string>) {
    Lookup(fields, Text(name)) == match value case None => None case Some(text) => Some(Value(Text(text)))
  }

  /** string_field: absent, or present with text, or an error. */
  function StringField(fields: seq<Field>, name: string, required: bool): Result<Option<string>, BookError> {
    match Lookup(fields, Text(name))
    case None => if required then Failure(SchemaInvalid) else Success(None)
    case Some(Value(Text(value))) => Success(Some(value))
    case Some(_) => Failure(SchemaInvalid)
  }

  function DecodeEntry<A>(env: Env<A>, keyId: string, value: Element): Result<Entry, BookError> {
    if !value.Fields? then Failure(SchemaInvalid)
    else if !HasVersion(value.fields) then Failure(SchemaVersionUnsupported)
    else
      var id := StringField(value.fields, "id", true);
      var name := StringField(value.fields, "display_name", true);
      var address := StringField(value.fields, "address", true);
      var destinationLabel := StringField(value.fields, "destination_label", false);
      var note := StringField(value.fields, "note", false);
      if id.Failure? then Failure(id.error)
      else if name.Failure? then Failure(name.error)
      else if address.Failure? then Failure(address.error)
      else if destinationLabel.Failure? then Failure(destinationLabel.error)
      else if note.Failure? then Failure(note.error)
      else if id.value == None || name.value == None || address.value == None then Failure(SchemaInvalid)
      else
        var entry := NormalizeEntry(env, address.value.value, name.value.value, destinationLabel.value, note.value);
        Checked(keyId, id.value.value, entry)
  }

  /** The stored identifier, the key's and the canonical destination's must agree. */
  function Checked(keyId: string, storedId: string, normalized: Result<Entry, BookError>): Result<Entry, BookError> {
    if normalized.Failure? then normalized
    else if storedId != keyId || normalized.value.id != keyId then Failure(EntryIdMismatch)
    else normalized
  }

  lemma {:induction false} StringFieldMeans(fields: seq<Field>, name: string, required: bool, value: Option<string>)
    ensures StringField(fields, name, required) == Success(value) <==>
            HoldsText(fields, name, value) && (required ==> value.Some?)
  {
  }

  /** A stored value is read as `e`: its version, its texts, and one identifier in the key, the value and the address. */
  ghost predicate ReadsAs<A>(env: Env<A>, keyId: string, value: Element, e: Entry) {
    && value.Fields? && HasVersion(value.fields)
    && HoldsText(value.fields, "id", Some(keyId)) && e.id == keyId
    && exists address: string, name: string, destinationLabel: Option<string>, note: Option<string> ::
         HoldsEntry(value.fields, address, name, destinationLabel, note)
         && Describes(env, address, name, destinationLabel, note, e)
  }

  predicate HoldsEntry(
      fields: seq<Field>, address: string, name: string, destinationLabel: Option<string>, note: Option<string>) {
    && HoldsText(fields, "address", Some(address)) && HoldsText(fields, "display_name", Some(name))
    && HoldsText(fields, "destination_label", destinationLabel) && HoldsText(fields, "note", note)
  }

  /** The reader accepts exactly these values. */
  lemma {:induction false} DecodeMeans<A>(env: Env<A>, keyId: string, value: Element, e: Entry)
    ensures DecodeEntry(env, keyId, value) == Success(e) <==> ReadsAs(env, keyId, value, e)
  {
    if DecodeEntry(env, keyId, value) == Success(e) {
      DecodedReads(env, keyId, value, e);
    }
    if ReadsAs(env, keyId, value, e) {
      var address: string, name: string, destinationLabel: Option<string>, note: Option<string> :|
        HoldsEntry(value.fields, address, name, destinationLabel, note)
        && Describes(env, address, name, destinationLabel, note, e);
      NormalizeMeans(env, address, name, destinationLabel, note, e);
      ReadsDecode(env, keyId, value.fields, e, address, name, destinationLabel, note);
    }
  }

  lemma {:induction false} ReadsDecode<A>(
      env: Env<A>, keyId: string, fields: seq<Field>, e: Entry,
      address: string, name: string, destinationLabel: Option<string>, note: Option<string>)
    requires HasVersion(fields) && HoldsText(fields, "id", Some(keyId)) && e.id == keyId
    requires HoldsEntry(fields, address, name, destinationLabel, note)
    requires NormalizeEntry(env, address, name, destinationLabel, note) == Success(e)
    ensures DecodeEntry(env, keyId, Fields(fields)) == Success(e)
  {
    StringFieldMeans(fields, "id", true, Some(keyId));
    StringFieldMeans(fields, "display_name", true, Some(name));
    StringFieldMeans(fields, "address", true, Some(address));
    StringFieldMeans(fields, "destination_label", false, destinationLabel);
    StringFieldMeans(fields, "note", false, note);
  }

  lemma {:induction false} DecodedReads<A>(env: Env<A>, keyId: string, value: Element, e: Entry)
    requires DecodeEntry(env, keyId, value) == Success(e)
    ensures ReadsAs(env, keyId, value, e)
  {
    var name := StringField(value.fields, "display_name", true).value.value;
    var address := StringField(value.fields, "address", true).value.value;
    var destinationLabel := StringField(value.fields, "destination_label", false).value;
    var note := StringField(value.fields, "note", false).value;
    NormalizeMeans(env, address, name, destinationLabel, note, e);
    assert HoldsEntry(value.fields, address, name, destinationLabel, note);
  }

  lemma {:induction false} LookupConcat(a: seq<Field>, b: seq<Field>, key: DataValue)
    ensures Lookup(a + b, key) == if Lookup(a, key).Some? then Lookup(a, key) else Lookup(b, key)
  {
    if a == [] {
      assert a + b == b;
    } else {
      LookupConcat(a[1..], b, key);
      assert (a + b)[1..] == a[1..] + b;
    }
  }

  lemma {:induction false} LookupSingle(f: Field, key: DataValue)
    ensures Lookup([f], key) == if f.key == key then Some(f.value) else None
  {
    assert Lookup([], key) == None;
  }

  function EncodedHead(e: Entry): seq<Field> {
    [VersionField] + [TextField("id", e.id)] + [TextField("display_name", e.name)]
  }

  /** What a lookup finds in a stored entry. */
  lemma {:induction false} LookupEncoded(e: Entry, key: DataValue)
    ensures Lookup(EncodeEntry(e).fields, key) ==
            if key == Text("schema_version") then Some(Value(Unsigned(U8, SCHEMA_VERSION)))
            else if key == Text("id") then Some(TextElement(e.id))
            else if key == Text("display_name") then Some(TextElement(e.name))
            else if key == Text("destination_label") && e.destinationLabel.Some? then Some(TextElement(e.destinationLabel.value))
            else if key == Text("note") && e.note.Some? then Some(TextElement(e.note.value))
            else if key == Text("address") then Some(TextElement(e.destination.address))
            else None
  {
    var labels := OptionalField("destination_label", e.destinationLabel);
    var notes := OptionalField("note", e.note);
    var tail := [TextField("address", e.destination.address)];
    assert EncodeEntry(e).fields == EncodedHead(e) + labels + notes + tail;
    LookupConcat(EncodedHead(e) + labels + notes, tail, key);
    LookupConcat(EncodedHead(e) + labels, notes, key);
    LookupConcat(EncodedHead(e), labels, key);
    LookupHead(e, key);
    LookupSingle(tail[0], key);
    LookupOptional("destination_label", e.destinationLabel, key);
    LookupOptional("note", e.note, key);
  }

  lemma {:induction false} LookupOptional(name: string, value: Option<string>, key: DataValue)
    ensures Lookup(OptionalField(name, value), key) ==
            if value.Some? && key == Text(name) then Some(TextElement(value.value)) else None
  {
    if value.Some? {
      LookupSingle(TextField(name, value.value), key);
    }
  }

  lemma {:induction false} LookupHead(e: Entry, key: DataValue)
    ensures Lookup(EncodedHead(e), key) ==
            if key == Text("schema_version") then Some(Value(Unsigned(U8, SCHEMA_VERSION)))
            else if key == Text("id") then Some(TextElement(e.id))
            else if key == Text("display_name") then Some(TextElement(e.name))
            else None
  {
    var version := VersionField;
    LookupConcat([version] + [TextField("id", e.id)], [TextField("display_name", e.name)], key);
    LookupConcat([version], [TextField("id", e.id)], key);
    LookupSingle(version, key);
    LookupSingle(TextField("id", e.id), key);
    LookupSingle(TextField("display_name", e.name), key);
  }

  lemma {:induction false} StringFieldEncoded(e: Entry)
    ensures StringField(EncodeEntry(e).fields, "id", true) == Success(Some(e.id))
    ensures StringField(EncodeEntry(e).fields, "display_name", true) == Success(Some(e.name))
    ensures StringField(EncodeEntry(e).fields, "address", true) == Success(Some(e.destination.address))
    ensures StringField(EncodeEntry(e).fields, "destination_label", false) == Success(e.destinationLabel)
    ensures StringField(EncodeEntry(e).fields, "note", false) == Success(e.note)
  {
    LookupEncoded(e, Text("id"));
    LookupEncoded(e, Text("display_name"));
    LookupEncoded(e, Text("address"));
    LookupEncoded(e, Text("destination_label"));
    LookupEncoded(e, Text("note"));
  }

  /** Reading back a stored entry gives the entry, for everything normalization produces. */
  lemma {:induction false} DecodeEncodeEntry<A>(env: Env<A>, e: Entry)
    requires Normalized(env, e)
    ensures DecodeEntry(env, e.id, EncodeEntry(e)) == Success(e)
  {
    LookupEncoded(e, Text("schema_version"));
    StringFieldEncoded(e);
    assert e.id == env.idOf(e.destination.address);
  }

  // ----- The migration marker -----

  function EncodeMarker(count: nat): Element {
    Fields([VersionField, Field(Text("migrated_entries"), Value(Unsigned(U32, count)))])
  }

  function DecodeMarker(value: Element): Result<nat, BookError> {
    if !value.Fields? || !HasVersion(value.fields) then Failure(MarkerInvalid)
    else
      match Lookup(value.fields, Text("migrated_entries"))
      case Some(Value(Unsigned(U32, count))) => Success(count)
      case _ => Failure(MarkerInvalid)
  }

  lemma {:induction false} DecodeEncodeMarker(count: nat)
    ensures DecodeMarker(EncodeMarker(count)) == Success(count)
  {
    var version := VersionField;
    var entries := Field(Text("migrated_entries"), Value(Unsigned(U32, count)));
    assert EncodeMarker(count).fields == [version] + [entries];
    LookupConcat([version], [entries], Text("schema_version"));
    LookupConcat([version], [entries], Text("migrated_entries"));
    LookupSingle(version, Text("schema_version"));
    LookupSingle(version, Text("migrated_entries"));
    LookupSingle(entries, Text("migrated_entries"));
  }

  // ----- Keys -----

  const MarkerKey: DataValue := Text(MARKER_KEY)

  function EntryKey(id: string): DataValue {
    Text(ENTRY_PREFIX + id)
  }

  /** An entry never shares a key with the marker or with another entry. */
  lemma {:induction false} KeysApart(a: string, b: string)
    ensures EntryKey(a) != MarkerKey
    ensures EntryKey(a) == EntryKey(b) <==> a == b
  {
    assert (ENTRY_PREFIX + a)[0] == 'e';
    assert (ENTRY_PREFIX + a)[|ENTRY_PREFIX|..] == a && (ENTRY_PREFIX + b)[|ENTRY_PREFIX|..] == b;
  }

  /** One key and value as read_v2_entries reads them; the marker is skipped. */
  function ReadStored<A>(env: Env<A>, key: DataValue, value: Element): Result<Option<Entry>, BookError> {
    if !key.Text? then Failure(EntryKeyInvalid)
    else if key.text == MARKER_KEY then Success(None)
    else if !(ENTRY_PREFIX <= key.text) then Failure(EntryKeyInvalid)
    else
      var id := key.text[|ENTRY_PREFIX|..];
      if !ValidEntryId(id) then Failure(EntryIdInvalid)
      else
        var entry := DecodeEntry(env, id, value);
        if entry.Failure? then Failure(entry.error) else Success(Some(entry.value))
  }

  /** Only the marker is skipped, and only an entry under its own key is read; any other key or value is an error. */
  lemma {:induction false} ReadStoredMeans<A>(env: Env<A>, key: DataValue, value: Element, e: Entry)
    ensures ReadStored(env, key, value) == Success(None) <==> key == MarkerKey
    ensures ReadStored(env, key, value) == Success(Some(e)) <==>
            key == EntryKey(e.id) && ValidEntryId(e.id) && ReadsAs(env, e.id, value, e)
  {
    KeysApart(e.id, e.id);
    DecodeMeans(env, e.id, value, e);
    assert (ENTRY_PREFIX + e.id)[|ENTRY_PREFIX|..] == e.id;
    if key.Text? && ENTRY_PREFIX <= key.text && ReadStored(env, key, value) == Success(Some(e)) {
      DecodeMeans(env, key.text[|ENTRY_PREFIX|..], value, e);
      assert key.text == ENTRY_PREFIX + key.text[|ENTRY_PREFIX|..];
    }
  }

  lemma {:induction false} NormalizedIdIsValid<A(!new)>(env: Env<A>, e: Entry)
    requires Lawful(env) && Normalized(env, e)
    ensures e.id == env.idOf(e.destination.address) && ValidEntryId(e.id)
  {
  }

  /** A normalized entry under its own key is read back as itself. */
  lemma {:induction false} StoredReadsBack<A(!new)>(env: Env<A>, e: Entry)
    requires Lawful(env) && Normalized(env, e)
    ensures ReadStored(env, EntryKey(e.id), EncodeEntry(e)) == Success(Some(e))
  {
    KeysApart(e.id, e.id);
    NormalizedIdIsValid(env, e);
    DecodeEncodeEntry(env, e);
    assert (ENTRY_PREFIX + e.id)[|ENTRY_PREFIX|..] == e.id;
  }
}
