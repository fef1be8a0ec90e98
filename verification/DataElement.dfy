/**
 The lossless data-element wire (rust/src/api/models/address_dtos.rs): XELIS data elements of any nesting depth and
 the tagged form that crosses the bridge.
 */
module DataElement {
  import opened Common
  import opened Decimal

  const COLLECTION_LIMIT: nat := 255
  const BLOB_LIMIT: nat := 65535
  const HASH_SIZE: nat := 32

  type Byte = n: nat | n < 256

  datatype Width = U8 | U16 | U32 | U64 | U128

  function MaxOf(w: Width): nat {
    match w
    case U8 => 0xFF
    case U16 => 0xFFFF
    case U32 => 0xFFFF_FFFF
    case U64 => 0xFFFF_FFFF_FFFF_FFFF
    case U128 => 0xFFFF_FFFF_FFFF_FFFF_FFFF_FFFF_FFFF_FFFF
  }

  function Bits(w: Width): nat {
    match w
    case U8 => 8
    case U16 => 16
    case U32 => 32
    case U64 => 64
    case U128 => 128
  }

  lemma {:induction false} LargestOfWidth(w: Width)
    ensures MaxOf(w) + 1 == PowerOfTwo(Bits(w))
  {
    MachinePowers();
  }

  // ----- The two forms -----

  datatype DataValue =
    | Bool(flag: bool)
    | Text(text: string)
    | Unsigned(width: Width, number: nat)
    | HashBytes(hash: seq<Byte>)
    | Blob(bytes: seq<Byte>)

  /** Fields in insertion order; `Valid` says their keys are distinct. */
  datatype Element =
    | Value(value: DataValue)
    | Array(values: seq<Element>)
    | Fields(fields: seq<Field>)

  datatype Field = Field(key: DataValue, value: Element)

  datatype WireValue =
    | BoolValue(flag: bool)
    | StringValue(text: string)
    | UnsignedInteger(width: Width, decimal: string)
    | HashValue(hex: string)
    | BlobValue(bytes: seq<Byte>)

  datatype Wire =
    | WireValue(value: WireValue)
    | WireArray(values: seq<Wire>)
    | WireFields(fields: seq<WireField>)

  datatype WireField = WireField(key: WireValue, value: Wire)

  datatype DataError = CollectionTooLarge | FieldDuplicate | UnsignedInvalid | UnsignedNonCanonical | HashInvalid | BlobTooLarge

  // ----- Hexadecimal -----

  function HexDigit(d: nat): (c: char)
    requires d < 16
    ensures HexValue(c) == Some(d) && LowerHex(c)
  {
    if d < 10 then ('0' as int + d) as char else ('a' as int + d - 10) as char
  }

  function HexValue(c: char): (r: Option<nat>)
    ensures r.Some? ==> r.value < 16
  {
    if '0' <= c <= '9' then Some(c as int - '0' as int)
    else if 'a' <= c <= 'f' then Some(c as int - 'a' as int + 10)
    else if 'A' <= c <= 'F' then Some(c as int - 'A' as int + 10)
    else None
  }

  predicate LowerHex(c: char) {
    '0' <= c <= '9' || 'a' <= c <= 'f'
  }

  function HexByte(high: nat, low: nat): (b: Byte)
    requires high < 16 && low < 16
    ensures b / 16 == high && b % 16 == low
  {
    16 * high + low
  }

  function Pair(b: Byte): string {
    [HexDigit(b / 16), HexDigit(b % 16)]
  }

  function ToHex(bytes: seq<Byte>): string {
    if bytes == [] then "" else Pair(bytes[0]) + ToHex(bytes[1..])
  }

  /** Either case is accepted. */
  function FromHex(s: string): (r: Option<seq<Byte>>)
    ensures r.Some? ==> |s| == 2 * |r.value|
  {
    if s == "" then Some([])
    else if |s| == 1 then None
    else
      var rest := FromHex(s[2..]);
      if HexValue(s[0]) == None || HexValue(s[1]) == None || rest == None then None
      else Some([HexByte(HexValue(s[0]).value, HexValue(s[1]).value)] + rest.value)
  }

  predicate CanonicalHex(s: string) {
    forall i :: 0 <= i < |s| ==> LowerHex(s[i])
  }

  lemma {:induction false} FromHexOfToHex(bytes: seq<Byte>)
    ensures |ToHex(bytes)| == 2 * |bytes| && FromHex(ToHex(bytes)) == Some(bytes) && CanonicalHex(ToHex(bytes))
  {
    if bytes != [] {
      FromHexOfToHex(bytes[1..]);
      var s := ToHex(bytes);
      assert s[2..] == ToHex(bytes[1..]);
      CanonicalHexSplit(s);
      assert bytes == [bytes[0]] + bytes[1..];
    }
  }

  lemma {:induction false} CanonicalHexSplit(s: string)
    requires |s| >= 2
    ensures CanonicalHex(s) <==> LowerHex(s[0]) && LowerHex(s[1]) && CanonicalHex(s[2..])
  {
    assert forall i :: 2 <= i < |s| ==> s[i] == s[2..][i - 2];
  }

  lemma {:induction false} HexDigitOfValue(c: char)
    requires HexValue(c).Some?
    ensures HexDigit(HexValue(c).value) == c <==> LowerHex(c)
  {
  }

  lemma {:induction false} PairOfValues(a: char, b: char)
    requires HexValue(a).Some? && HexValue(b).Some?
    ensures Pair(HexByte(HexValue(a).value, HexValue(b).value)) == [a, b] <==> LowerHex(a) && LowerHex(b)
  {
    HexDigitOfValue(a);
    HexDigitOfValue(b);
    var p := Pair(HexByte(HexValue(a).value, HexValue(b).value));
    assert p == [a, b] <==> p[0] == a && p[1] == b;
  }

  lemma {:induction false} PairsMatch(p: string, t: string, q: string, u: string)
    requires |p| == |q|
    ensures p + t == q + u <==> p == q && t == u
  {
    if p + t == q + u {
      assert p == (p + t)[..|p|] && q == (q + u)[..|p|];
      assert t == (p + t)[|p|..] && u == (q + u)[|p|..];
    }
  }

  lemma {:induction false} ToHexCons(bytes: seq<Byte>)
    requires bytes != []
    ensures ToHex(bytes) == Pair(bytes[0]) + ToHex(bytes[1..])
  {
  }

  lemma {:induction false} FromHexCons(s: string)
    requires s != "" && FromHex(s).Some?
    ensures |s| >= 2 && FromHex(s[2..]).Some?
    ensures HexValue(s[0]).Some? && HexValue(s[1]).Some?
    ensures FromHex(s).value == [HexByte(HexValue(s[0]).value, HexValue(s[1]).value)] + FromHex(s[2..]).value
  {
  }

  /** Printing what was parsed gives the text back exactly when the text was lower case. */
  lemma {:induction false} ToHexOfFromHex(s: string)
    requires FromHex(s).Some?
    ensures ToHex(FromHex(s).value) == s <==> CanonicalHex(s)
  {
    if s != "" {
      FromHexCons(s);
      ToHexOfFromHex(s[2..]);
      CanonicalHexSplit(s);
      PairOfValues(s[0], s[1]);
      var bytes := FromHex(s).value;
      assert bytes[1..] == FromHex(s[2..]).value;
      ToHexCons(bytes);
      assert s == [s[0], s[1]] + s[2..];
      PairsMatch(Pair(bytes[0]), ToHex(bytes[1..]), [s[0], s[1]], s[2..]);
    }
  }

  // ----- Unsigned integers -----

  /** `str::parse` of an unsigned type, which allows a leading plus, then the canonical-notation check. */
  function ParseUnsigned(w: Width, s: string): Result<nat, DataError> {
    var digits := if s != "" && s[0] == '+' then s[1..] else s;
    match DigitsValue(digits)
    case None => Failure(UnsignedInvalid)
    case Some(n) =>
      if n > MaxOf(w) then Failure(UnsignedInvalid)
      else if NatText(n) != s then Failure(UnsignedNonCanonical)
      else Success(n)
  }

  /** The accepted texts are exactly the canonical decimals of the numbers in range. */
  lemma {:induction false} ParseUnsignedExact(w: Width, s: string, n: nat)
    ensures ParseUnsigned(w, s) == Success(n) <==> n <= MaxOf(w) && s == NatText(n)
  {
    DigitsValueOfNatText(n);
    assert NatText(n)[0] in NatText(n);
  }

  // ----- Encoding -----

  function EncodeValue(v: DataValue): WireValue {
    match v
    case Bool(flag) => BoolValue(flag)
    case Text(text) => StringValue(text)
    case Unsigned(width, number) => UnsignedInteger(width, NatText(number))
    case HashBytes(hash) => HashValue(ToHex(hash))
    case Blob(bytes) => BlobValue(bytes)
  }

  function Encode(e: Element): Wire {
    match e
    case Value(value) => WireValue(EncodeValue(value))
    case Array(values) => WireArray(EncodeAll(values))
    case Fields(fields) => WireFields(EncodeFields(fields))
  }

  function EncodeAll(es: seq<Element>): (ws: seq<Wire>)
    ensures |ws| == |es|
  {
    if es == [] then [] else EncodeAll(es[..|es| - 1]) + [Encode(es[|es| - 1])]
  }

  function EncodeFields(fs: seq<Field>): (ws: seq<WireField>)
    ensures |ws| == |fs|
  {
    if fs == [] then [] else EncodeFields(fs[..|fs| - 1]) + [EncodeField(fs[|fs| - 1])]
  }

  function EncodeField(f: Field): WireField {
    WireField(EncodeValue(f.key), Encode(f.value))
  }

  // ----- Decoding -----

  function DecodeValue(w: WireValue): Result<DataValue, DataError> {
    match w
    case BoolValue(flag) => Success(Bool(flag))
    case StringValue(text) => Success(Text(text))
    case UnsignedInteger(width, decimal) =>
      (match ParseUnsigned(width, decimal)
       case Failure(e) => Failure(e)
       case Success(n) => Success(Unsigned(width, n)))
    case HashValue(hex) =>
      var parsed := FromHex(hex);
      if parsed.Some? && |parsed.value| == HASH_SIZE then Success(HashBytes(parsed.value)) else Failure(HashInvalid)
    case BlobValue(bytes) => if |bytes| > BLOB_LIMIT then Failure(BlobTooLarge) else Success(Blob(bytes))
  }

  predicate HasKey(fs: seq<Field>, key: DataValue) {
    exists i :: 0 <= i < |fs| && fs[i].key == key
  }

  function Decode(w: Wire): Result<Element, DataError> {
    match w
    case WireValue(value) =>
      (match DecodeValue(value)
       case Failure(e) => Failure(e)
       case Success(v) => Success(Value(v)))
    case WireArray(values) =>
      if |values| > COLLECTION_LIMIT then Failure(CollectionTooLarge)
      else
        (match DecodeAll(values)
         case Failure(e) => Failure(e)
         case Success(es) => Success(Array(es)))
    case WireFields(fields) =>
      if |fields| > COLLECTION_LIMIT then Failure(CollectionTooLarge)
      else
        (match DecodeFields(fields)
         case Failure(e) => Failure(e)
         case Success(fs) => Success(Fields(fs)))
  }

  function DecodeAll(ws: seq<Wire>): Result<seq<Element>, DataError> {
    if ws == [] then Success([])
    else
      match DecodeAll(ws[..|ws| - 1])
      case Failure(e) => Failure(e)
      case Success(done) => Append(done, Decode(ws[|ws| - 1]))
  }

  function Append<A>(done: seq<A>, next: Result<A, DataError>): Result<seq<A>, DataError> {
    match next
    case Failure(e) => Failure(e)
    case Success(a) => Success(done + [a])
  }

  /** The errors of the fields in order: each key first, then its repetition, then its value. */
  function DecodeFields(ws: seq<WireField>): Result<seq<Field>, DataError> {
    if ws == [] then Success([])
    else
      match DecodeFields(ws[..|ws| - 1])
      case Failure(e) => Failure(e)
      case Success(done) => Append(done, DecodeField(done, ws[|ws| - 1]))
  }

  function DecodeField(done: seq<Field>, w: WireField): Result<Field, DataError>
    decreases w
  {
    match DecodeValue(w.key)
    case Failure(e) => Failure(e)
    case Success(k) =>
      if HasKey(done, k) then Failure(FieldDuplicate)
      else
        (match Decode(w.value)
         case Failure(e) => Failure(e)
         case Success(v) => Success(Field(k, v)))
  }

  // ----- What a data element is, and the wire's limits -----

  predicate ValidValue(v: DataValue) {
    match v
    case Unsigned(width, number) => number <= MaxOf(width)
    case HashBytes(hash) => |hash| == HASH_SIZE
    case _ => true
  }

  /** What the type of a XELIS data element guarantees: widths, hash size, an ordered map of fields. */
  predicate Valid(e: Element) {
    match e
    case Value(value) => ValidValue(value)
    case Array(values) => ValidAll(values)
    case Fields(fields) => ValidFields(fields)
  }

  predicate ValidAll(es: seq<Element>) {
    es != [] ==> ValidAll(es[..|es| - 1]) && Valid(es[|es| - 1])
  }

  predicate ValidFields(fs: seq<Field>) {
    fs != [] ==> ValidFields(fs[..|fs| - 1]) && ValidField(fs[|fs| - 1]) && !HasKey(fs[..|fs| - 1], fs[|fs| - 1].key)
  }

  predicate ValidField(f: Field) {
    ValidValue(f.key) && Valid(f.value)
  }

  predicate ValueFits(v: DataValue) {
    v.Blob? ==> |v.bytes| <= BLOB_LIMIT
  }

  /** Every collection and every blob, at any depth, is within its limit. */
  predicate Fits(e: Element) {
    match e
    case Value(value) => ValueFits(value)
    case Array(values) => |values| <= COLLECTION_LIMIT && FitsAll(values)
    case Fields(fields) => |fields| <= COLLECTION_LIMIT && FitsFields(fields)
  }

  predicate FitsAll(es: seq<Element>) {
    es != [] ==> FitsAll(es[..|es| - 1]) && Fits(es[|es| - 1])
  }

  predicate FitsFields(fs: seq<Field>) {
    fs != [] ==> FitsFields(fs[..|fs| - 1]) && FitsField(fs[|fs| - 1])
  }

  predicate FitsField(f: Field) {
    ValueFits(f.key) && Fits(f.value)
  }

  predicate CanonicalValue(w: WireValue) {
    w.HashValue? ==> CanonicalHex(w.hex)
  }

  /** Every hash on the wire, keys included, is in lower case. */
  predicate Canonical(w: Wire) {
    match w
    case WireValue(value) => CanonicalValue(value)
    case WireArray(values) => CanonicalAll(values)
    case WireFields(fields) => CanonicalFields(fields)
  }

  predicate CanonicalAll(ws: seq<Wire>) {
    ws != [] ==> CanonicalAll(ws[..|ws| - 1]) && Canonical(ws[|ws| - 1])
  }

  predicate CanonicalFields(ws: seq<WireField>) {
    ws != [] ==> CanonicalFields(ws[..|ws| - 1]) && CanonicalField(ws[|ws| - 1])
  }

  predicate CanonicalField(w: WireField) {
    CanonicalValue(w.key) && Canonical(w.value)
  }

  // ----- Element to wire and back -----

  lemma {:induction false} ValueRoundTrip(v: DataValue)
    requires ValidValue(v)
    ensures DecodeValue(EncodeValue(v)) == if ValueFits(v) then Success(v) else Failure(BlobTooLarge)
  {
    match v {
      case Unsigned(width, number) => ParseUnsignedExact(width, NatText(number), number);
      case HashBytes(hash) => FromHexOfToHex(hash);
      case _ =>
    }
  }

  /** A data element survives the bridge exactly when it is within the limits, at any depth, its field order kept. */
  lemma {:induction false} RoundTrip(e: Element)
    requires Valid(e)
    ensures Fits(e) ==> Decode(Encode(e)) == Success(e)
    ensures !Fits(e) ==> Decode(Encode(e)).Failure?
  {
    match e {
      case Value(value) => ValueRoundTrip(value);
      case Array(values) => RoundTripAll(values);
      case Fields(fields) => RoundTripFields(fields);
    }
  }

  // One more element at the end of a collection.

  lemma {:induction false} EncodeAllSnoc(es: seq<Element>, e: Element)
    ensures EncodeAll(es + [e]) == EncodeAll(es) + [Encode(e)]
    ensures ValidAll(es + [e]) <==> ValidAll(es) && Valid(e)
    ensures FitsAll(es + [e]) <==> FitsAll(es) && Fits(e)
  {
    assert (es + [e])[..|es|] == es;
  }

  lemma {:induction false} DecodeAllSnoc(ws: seq<Wire>, w: Wire)
    ensures DecodeAll(ws + [w]) ==
            match DecodeAll(ws) { case Failure(e) => Failure(e) case Success(done) => Append(done, Decode(w)) }
    ensures CanonicalAll(ws + [w]) <==> CanonicalAll(ws) && Canonical(w)
  {
    assert (ws + [w])[..|ws|] == ws;
  }

  lemma {:induction false} EncodeFieldsSnoc(fs: seq<Field>, f: Field)
    ensures EncodeFields(fs + [f]) == EncodeFields(fs) + [EncodeField(f)]
    ensures ValidFields(fs + [f]) <==> ValidFields(fs) && ValidField(f) && !HasKey(fs, f.key)
    ensures FitsFields(fs + [f]) <==> FitsFields(fs) && FitsField(f)
  {
    assert (fs + [f])[..|fs|] == fs;
  }

  lemma {:induction false} DecodeFieldsSnoc(ws: seq<WireField>, w: WireField)
    ensures DecodeFields(ws + [w]) ==
            match DecodeFields(ws) { case Failure(e) => Failure(e) case Success(done) => Append(done, DecodeField(done, w)) }
    ensures CanonicalFields(ws + [w]) <==> CanonicalFields(ws) && CanonicalField(w)
  {
    assert (ws + [w])[..|ws|] == ws;
  }

  /** The round-trip claim for a list of elements, and for a list of fields. */
  predicate Survive(es: seq<Element>) {
    if FitsAll(es) then DecodeAll(EncodeAll(es)) == Success(es) else DecodeAll(EncodeAll(es)).Failure?
  }

  predicate FieldsSurvive(fs: seq<Field>) {
    if FitsFields(fs) then DecodeFields(EncodeFields(fs)) == Success(fs) else DecodeFields(EncodeFields(fs)).Failure?
  }

  lemma {:induction false} SurviveSnoc(es: seq<Element>, e: Element)
    requires Survive(es)
    requires if Fits(e) then Decode(Encode(e)) == Success(e) else Decode(Encode(e)).Failure?
    ensures Survive(es + [e])
  {
    EncodeAllSnoc(es, e);
    DecodeAllSnoc(EncodeAll(es), Encode(e));
  }

  lemma {:induction false} FieldsSurviveSnoc(fs: seq<Field>, f: Field)
    requires FieldsSurvive(fs)
    requires if FitsField(f) then DecodeField(fs, EncodeField(f)) == Success(f) else DecodeField(fs, EncodeField(f)).Failure?
    ensures FieldsSurvive(fs + [f])
  {
    EncodeFieldsSnoc(fs, f);
    DecodeFieldsSnoc(EncodeFields(fs), EncodeField(f));
  }

  lemma {:induction false} RoundTripAll(es: seq<Element>)
    requires ValidAll(es)
    ensures Survive(es)
  {
    if es != [] {
      var init, last := es[..|es| - 1], es[|es| - 1];
      assert es == init + [last];
      RoundTripAll(init);
      RoundTrip(last);
      SurviveSnoc(init, last);
    }
  }

  lemma {:induction false} RoundTripFields(fs: seq<Field>)
    requires ValidFields(fs)
    ensures FieldsSurvive(fs)
  {
    if fs != [] {
      var n := |fs| - 1;
      RoundTripFields(fs[..n]);
      RoundTripField(fs[..n], fs[n]);
      FieldsSurviveSnoc(fs[..n], fs[n]);
      assert fs == fs[..n] + [fs[n]];
    }
  }

  lemma {:induction false} RoundTripField(done: seq<Field>, f: Field)
    requires ValidField(f) && !HasKey(done, f.key)
    ensures FitsField(f) ==> DecodeField(done, EncodeField(f)) == Success(f)
    ensures !FitsField(f) ==> DecodeField(done, EncodeField(f)).Failure?
    decreases f
  {
    ValueRoundTrip(f.key);
    RoundTrip(f.value);
  }

  // ----- Wire to element and back -----

  lemma {:induction false} AcceptedValue(w: WireValue)
    requires DecodeValue(w).Success?
    ensures ValidValue(DecodeValue(w).value) && ValueFits(DecodeValue(w).value)
    ensures EncodeValue(DecodeValue(w).value) == w <==> CanonicalValue(w)
  {
    match w {
      case UnsignedInteger(width, decimal) => ParseUnsignedExact(width, decimal, ParseUnsigned(width, decimal).value);
      case HashValue(hex) => ToHexOfFromHex(hex);
      case _ =>
    }
  }

  /**
   An accepted wire value decodes to a data element within the limits, and maps back to itself exactly when its hashes
   are in lower case.
   */
  lemma {:induction false} Accepted(w: Wire)
    requires Decode(w).Success?
    ensures Valid(Decode(w).value) && Fits(Decode(w).value)
    ensures Encode(Decode(w).value) == w <==> Canonical(w)
  {
    match w {
      case WireValue(value) => AcceptedValue(value);
      case WireArray(values) => AcceptedAll(values);
      case WireFields(fields) => AcceptedFields(fields);
    }
  }

  /** The acceptance claim for a list of elements, and for a list of fields. */
  predicate Restores(ws: seq<Wire>, es: seq<Element>) {
    ValidAll(es) && FitsAll(es) && (EncodeAll(es) == ws <==> CanonicalAll(ws))
  }

  predicate FieldsRestore(ws: seq<WireField>, fs: seq<Field>) {
    ValidFields(fs) && FitsFields(fs) && (EncodeFields(fs) == ws <==> CanonicalFields(ws))
  }

  lemma {:induction false} SnocMatch<A>(p: seq<A>, a: A, q: seq<A>, b: A)
    ensures p + [a] == q + [b] <==> p == q && a == b
  {
    if p + [a] == q + [b] {
      assert (p + [a])[..|p|] == p && (q + [b])[..|q|] == q;
      assert (p + [a])[|p|] == a && (q + [b])[|q|] == b;
    }
  }

  lemma {:induction false} RestoresSnoc(ws: seq<Wire>, es: seq<Element>, w: Wire, e: Element)
    requires Restores(ws, es) && Valid(e) && Fits(e) && (Encode(e) == w <==> Canonical(w))
    ensures Restores(ws + [w], es + [e])
  {
    EncodeAllSnoc(es, e);
    DecodeAllSnoc(ws, w);
    SnocMatch(EncodeAll(es), Encode(e), ws, w);
  }

  lemma {:induction false} FieldsRestoreSnoc(ws: seq<WireField>, fs: seq<Field>, w: WireField, f: Field)
    requires FieldsRestore(ws, fs) && ValidField(f) && FitsField(f) && !HasKey(fs, f.key) &&
             (EncodeField(f) == w <==> CanonicalField(w))
    ensures FieldsRestore(ws + [w], fs + [f])
  {
    EncodeFieldsSnoc(fs, f);
    DecodeFieldsSnoc(ws, w);
    SnocMatch(EncodeFields(fs), EncodeField(f), ws, w);
  }

  lemma {:induction false} AcceptedAll(ws: seq<Wire>)
    requires DecodeAll(ws).Success?
    ensures |DecodeAll(ws).value| == |ws| && Restores(ws, DecodeAll(ws).value)
  {
    if ws != [] {
      var n := |ws| - 1;
      AcceptedAll(ws[..n]);
      Accepted(ws[n]);
      RestoresSnoc(ws[..n], DecodeAll(ws[..n]).value, ws[n], Decode(ws[n]).value);
      assert ws == ws[..n] + [ws[n]];
    }
  }

  lemma {:induction false} AcceptedFields(ws: seq<WireField>)
    requires DecodeFields(ws).Success?
    ensures |DecodeFields(ws).value| == |ws| && FieldsRestore(ws, DecodeFields(ws).value)
  {
    if ws != [] {
      var n := |ws| - 1;
      AcceptedFields(ws[..n]);
      var done := DecodeFields(ws[..n]).value;
      AcceptedField(done, ws[n]);
      FieldsRestoreSnoc(ws[..n], done, ws[n], DecodeField(done, ws[n]).value);
      assert ws == ws[..n] + [ws[n]];
    }
  }

  lemma {:induction false} AcceptedField(done: seq<Field>, w: WireField)
    requires DecodeField(done, w).Success?
    ensures var f := DecodeField(done, w).value;
            ValidField(f) && FitsField(f) && !HasKey(done, f.key) && (EncodeField(f) == w <==> CanonicalField(w))
    decreases w
  {
    AcceptedValue(w.key);
    Accepted(w.value);
  }

  /** A valid element's keys are distinct, whatever their positions. */
  lemma {:induction false} KeysDistinct(fs: seq<Field>, i: nat, k: nat)
    requires ValidFields(fs) && i < k < |fs|
    ensures fs[i].key != fs[k].key
    decreases |fs|
  {
    var n := |fs| - 1;
    if k == n {
      assert fs[..n][i].key == fs[i].key;
    } else {
      KeysDistinct(fs[..n], i, k);
    }
  }

  /** Two data elements within the limits never share a wire form. */
  lemma {:induction false} EncodeInjective(d: Element, e: Element)
    requires Valid(d) && Fits(d) && Valid(e) && Fits(e) && Encode(d) == Encode(e)
    ensures d == e
  {
    RoundTrip(d);
    RoundTrip(e);
  }

  // ----- Which wire values are accepted -----

  function LowerChar(c: char): char {
    if 'A' <= c <= 'F' then (c as int - 'A' as int + 'a' as int) as char else c
  }

  function LowerText(s: string): (t: string)
    ensures |t| == |s| && forall i :: 0 <= i < |s| ==> t[i] == LowerChar(s[i])
  {
    seq(|s|, i requires 0 <= i < |s| => LowerChar(s[i]))
  }

  function LowerValue(w: WireValue): WireValue {
    if w.HashValue? then HashValue(LowerText(w.hex)) else w
  }

  /** The wire value with every hash, keys included, in lower case. */
  function Lowered(w: Wire): Wire {
    match w
    case WireValue(value) => WireValue(LowerValue(value))
    case WireArray(values) => WireArray(LoweredAll(values))
    case WireFields(fields) => WireFields(LoweredFields(fields))
  }

  function LoweredAll(ws: seq<Wire>): (r: seq<Wire>)
    ensures |r| == |ws|
  {
    if ws == [] then [] else LoweredAll(ws[..|ws| - 1]) + [Lowered(ws[|ws| - 1])]
  }

  function LoweredFields(ws: seq<WireField>): (r: seq<WireField>)
    ensures |r| == |ws|
  {
    if ws == [] then [] else LoweredFields(ws[..|ws| - 1]) + [LoweredField(ws[|ws| - 1])]
  }

  function LoweredField(w: WireField): WireField {
    WireField(LowerValue(w.key), Lowered(w.value))
  }

  lemma {:induction false} FromHexIgnoresCase(s: string)
    ensures FromHex(LowerText(s)) == FromHex(s)
    ensures FromHex(s).Some? ==> CanonicalHex(LowerText(s))
  {
    if |s| >= 2 {
      FromHexIgnoresCase(s[2..]);
      assert LowerText(s)[2..] == LowerText(s[2..]);
      CanonicalHexSplit(LowerText(s));
    }
  }

  lemma {:induction false} ValueIgnoresCase(w: WireValue)
    ensures DecodeValue(LowerValue(w)) == DecodeValue(w)
    ensures DecodeValue(w).Success? ==> CanonicalValue(LowerValue(w))
  {
    if w.HashValue? {
      FromHexIgnoresCase(w.hex);
    }
  }

  /** Decoding, its errors included, does not depend on the case of hashes. */
  lemma {:induction false} DecodeIgnoresCase(w: Wire)
    ensures Decode(Lowered(w)) == Decode(w)
    ensures Decode(w).Success? ==> Canonical(Lowered(w))
  {
    match w {
      case WireValue(value) => ValueIgnoresCase(value);
      case WireArray(values) => DecodeAllIgnoresCase(values);
      case WireFields(fields) => DecodeFieldsIgnoresCase(fields);
    }
  }

  lemma {:induction false} DecodeAllIgnoresCase(ws: seq<Wire>)
    ensures DecodeAll(LoweredAll(ws)) == DecodeAll(ws)
    ensures DecodeAll(ws).Success? ==> CanonicalAll(LoweredAll(ws))
  {
    if ws != [] {
      var init, last := ws[..|ws| - 1], ws[|ws| - 1];
      DecodeAllIgnoresCase(init);
      DecodeIgnoresCase(last);
      DecodeAllSnoc(LoweredAll(init), Lowered(last));
    }
  }

  lemma {:induction false} DecodeFieldsIgnoresCase(ws: seq<WireField>)
    ensures DecodeFields(LoweredFields(ws)) == DecodeFields(ws)
    ensures DecodeFields(ws).Success? ==> CanonicalFields(LoweredFields(ws))
  {
    if ws != [] {
      var init, last := ws[..|ws| - 1], ws[|ws| - 1];
      DecodeFieldsIgnoresCase(init);
      var done := DecodeFields(init);
      if done.Success? {
        DecodeFieldIgnoresCase(done.value, last);
      }
      DecodeFieldsSnoc(LoweredFields(init), LoweredField(last));
    }
  }

  lemma {:induction false} DecodeFieldIgnoresCase(done: seq<Field>, w: WireField)
    ensures DecodeField(done, LoweredField(w)) == DecodeField(done, w)
    ensures DecodeField(done, w).Success? ==> CanonicalField(LoweredField(w))
    decreases w
  {
    ValueIgnoresCase(w.key);
    DecodeIgnoresCase(w.value);
  }

  /** A wire value decodes to an element exactly when, its hashes in lower case, it is that element's wire form. */
  lemma {:induction false} DecodesExactly(w: Wire, e: Element)
    ensures Decode(w) == Success(e) <==> Valid(e) && Fits(e) && Encode(e) == Lowered(w)
  {
    DecodeIgnoresCase(w);
    if Decode(w) == Success(e) {
      Accepted(Lowered(w));
    }
    if Valid(e) && Fits(e) && Encode(e) == Lowered(w) {
      RoundTrip(e);
    }
  }

  // ----- What the errors mean -----

  predicate IsHex(s: string) {
    |s| % 2 == 0 && forall i :: 0 <= i < |s| ==> HexValue(s[i]).Some?
  }

  lemma {:induction false} FromHexDefined(s: string)
    ensures FromHex(s).Some? <==> IsHex(s)
  {
    if |s| >= 2 {
      FromHexDefined(s[2..]);
      assert forall i :: 2 <= i < |s| ==> s[2..][i - 2] == s[i];
    }
  }

  predicate ValueFault(w: WireValue, e: DataError) {
    match e
    case UnsignedInvalid =>
      w.UnsignedInteger? && forall n :: 0 <= n <= MaxOf(w.width) ==> w.decimal != NatText(n)
    case UnsignedNonCanonical => w.UnsignedInteger? && w.decimal != "" && DenotesOtherwise(w.width, w.decimal)
    case HashInvalid => w.HashValue? && (|w.hex| != 2 * HASH_SIZE || !IsHex(w.hex))
    case BlobTooLarge => w.BlobValue? && |w.bytes| > BLOB_LIMIT
    case _ => false
  }

  /** The text denotes a number in range, by leading zeros or a plus sign, but is not its canonical decimal. */
  predicate DenotesOtherwise(width: Width, s: string) {
    var digits := if s != "" && s[0] == '+' then s[1..] else s;
    && DigitsValue(digits).Some? && DigitsValue(digits).value <= MaxOf(width)
    && NatText(DigitsValue(digits).value) != s
  }

  lemma {:induction false} ValueFaultFound(w: WireValue)
    requires DecodeValue(w).Failure?
    ensures ValueFault(w, DecodeValue(w).error)
  {
    match w {
      case UnsignedInteger(width, decimal) =>
        forall n | 0 <= n <= MaxOf(width) && decimal == NatText(n) ensures false {
          ParseUnsignedExact(width, decimal, n);
        }
      case HashValue(hex) => FromHexDefined(hex);
      case _ =>
    }
  }

  predicate SameKey(a: WireValue, b: WireValue) {
    DecodeValue(a).Success? && DecodeValue(a) == DecodeValue(b)
  }

  /** The wire value has this fault, in itself or somewhere inside. */
  predicate Fault(w: Wire, e: DataError) {
    match w
    case WireValue(value) => ValueFault(value, e)
    case WireArray(values) => (e == CollectionTooLarge && |values| > COLLECTION_LIMIT) || FaultIn(values, e)
    case WireFields(fields) => (e == CollectionTooLarge && |fields| > COLLECTION_LIMIT) || FieldFaultIn(fields, e)
  }

  predicate FaultIn(ws: seq<Wire>, e: DataError) {
    ws != [] && (FaultIn(ws[..|ws| - 1], e) || Fault(ws[|ws| - 1], e))
  }

  predicate FieldFaultIn(ws: seq<WireField>, e: DataError) {
    ws != [] && (FieldFaultIn(ws[..|ws| - 1], e) || FieldFault(ws[|ws| - 1], e) || (e == FieldDuplicate && LastRepeats(ws)))
  }

  predicate FieldFault(w: WireField, e: DataError) {
    ValueFault(w.key, e) || Fault(w.value, e)
  }

  predicate LastRepeats(ws: seq<WireField>)
    requires ws != []
  {
    exists i :: 0 <= i < |ws| - 1 && SameKey(ws[i].key, ws[|ws| - 1].key)
  }

  /** An error always names a fault that the wire value has. */
  lemma {:induction false} FaultFound(w: Wire)
    requires Decode(w).Failure?
    ensures Fault(w, Decode(w).error)
  {
    match w {
      case WireValue(value) => ValueFaultFound(value);
      case WireArray(values) =>
        if |values| <= COLLECTION_LIMIT {
          FaultFoundIn(values);
        }
      case WireFields(fields) =>
        if |fields| <= COLLECTION_LIMIT {
          FieldFaultFoundIn(fields);
        }
    }
  }

  lemma {:induction false} FaultFoundIn(ws: seq<Wire>)
    requires DecodeAll(ws).Failure?
    ensures FaultIn(ws, DecodeAll(ws).error)
  {
    var init, last := ws[..|ws| - 1], ws[|ws| - 1];
    if DecodeAll(init).Failure? {
      FaultFoundIn(init);
    } else {
      FaultFound(last);
    }
  }

  lemma {:induction false} DecodedKeys(ws: seq<WireField>)
    requires DecodeFields(ws).Success?
    ensures |DecodeFields(ws).value| == |ws|
    ensures forall i :: 0 <= i < |ws| ==> DecodeValue(ws[i].key) == Success(DecodeFields(ws).value[i].key)
  {
    if ws != [] {
      DecodedKeys(ws[..|ws| - 1]);
    }
  }

  lemma {:induction false} FieldFaultFoundIn(ws: seq<WireField>)
    requires DecodeFields(ws).Failure?
    ensures FieldFaultIn(ws, DecodeFields(ws).error)
  {
    var init, last := ws[..|ws| - 1], ws[|ws| - 1];
    if DecodeFields(init).Failure? {
      FieldFaultFoundIn(init);
    } else {
      DecodedKeys(init);
      FieldFaultFound(init, DecodeFields(init).value, last);
      if FieldFaultRepeats(init, last) {
        var i :| 0 <= i < |init| && SameKey(init[i].key, last.key);
        assert ws[i] == init[i];
      }
    }
  }

  predicate FieldFaultRepeats(init: seq<WireField>, w: WireField) {
    exists i :: 0 <= i < |init| && SameKey(init[i].key, w.key)
  }

  lemma {:induction false} FieldFaultFound(init: seq<WireField>, done: seq<Field>, w: WireField)
    requires DecodeField(done, w).Failure? && |done| == |init|
    requires forall i :: 0 <= i < |init| ==> DecodeValue(init[i].key) == Success(done[i].key)
    ensures var e := DecodeField(done, w).error; FieldFault(w, e) || (e == FieldDuplicate && FieldFaultRepeats(init, w))
    decreases w
  {
    if DecodeValue(w.key).Failure? {
      ValueFaultFound(w.key);
    } else if HasKey(done, DecodeValue(w.key).value) {
      var i :| 0 <= i < |done| && done[i].key == DecodeValue(w.key).value;
      assert SameKey(init[i].key, w.key);
    } else {
      FaultFound(w.value);
    }
  }

  // ----- The loop of the source -----

  /** `into_xelis`: elements in order, fields inserted into an ordered map, stopping at the first error. */
  method IntoXelis(w: Wire) returns (r: Result<Element, DataError>)
    ensures r == Decode(w)
    decreases w, 0
  {
    match w {
      case WireValue(value) =>
        return match DecodeValue(value) case Failure(e) => Failure(e) case Success(v) => Success(Value(v));
      case WireArray(values) =>
        if |values| > COLLECTION_LIMIT {
          return Failure(CollectionTooLarge);
        }
        r := ConvertElements(values);
      case WireFields(fields) =>
        if |fields| > COLLECTION_LIMIT {
          return Failure(CollectionTooLarge);
        }
        r := InsertFields(fields);
    }
  }

  method ConvertElements(values: seq<Wire>) returns (r: Result<Element, DataError>)
    ensures r == match DecodeAll(values) { case Failure(e) => Failure(e) case Success(es) => Success(Array(es)) }
    decreases values, 1
  {
    var converted: seq<Element> := [];
    var i := 0;
    while i < |values|
      invariant 0 <= i <= |values|
      invariant DecodeAll(values[..i]) == Success(converted)
    {
      assert values[..i + 1][..i] == values[..i];
      var element := IntoXelis(values[i]);
      if element.Failure? {
        ElementFailureStays(values, i + 1);
        return Failure(element.error);
      }
      converted := converted + [element.value];
      i := i + 1;
    }
    assert values[..i] == values;
    return Success(Array(converted));
  }

  lemma {:induction false} ElementFailureStays(values: seq<Wire>, i: nat)
    requires i <= |values| && DecodeAll(values[..i]).Failure?
    ensures DecodeAll(values) == DecodeAll(values[..i])
    decreases |values|
  {
    if i == |values| {
      assert values[..i] == values;
    } else {
      var n := |values| - 1;
      assert values[..n][..i] == values[..i];
      ElementFailureStays(values[..n], i);
    }
  }

  method ConvertFieldValue(field: WireField) returns (r: Result<Element, DataError>)
    ensures r == Decode(field.value)
    decreases field, 0
  {
    r := IntoXelis(field.value);
  }

  method InsertFields(fields: seq<WireField>) returns (r: Result<Element, DataError>)
    ensures r == match DecodeFields(fields) { case Failure(e) => Failure(e) case Success(fs) => Success(Fields(fs)) }
    decreases fields, 1
  {
    var converted: seq<Field> := [];
    var i := 0;
    while i < |fields|
      invariant 0 <= i <= |fields|
      invariant DecodeFields(fields[..i]) == Success(converted)
    {
      assert fields[..i + 1][..i] == fields[..i];
      var key := DecodeValue(fields[i].key);
      if key.Failure? {
        FailureStays(fields, i + 1);
        return Failure(key.error);
      }
      if HasKey(converted, key.value) {
        FailureStays(fields, i + 1);
        return Failure(FieldDuplicate);
      }
      var value := ConvertFieldValue(fields[i]);
      if value.Failure? {
        FailureStays(fields, i + 1);
        return Failure(value.error);
      }
      converted := converted + [Field(key.value, value.value)];
      i := i + 1;
    }
    assert fields[..i] == fields;
    return Success(Fields(converted));
  }

  lemma {:induction false} FailureStays(fields: seq<WireField>, i: nat)
    requires i <= |fields| && DecodeFields(fields[..i]).Failure?
    ensures DecodeFields(fields) == DecodeFields(fields[..i])
    decreases |fields|
  {
    if i == |fields| {
      assert fields[..i] == fields;
    } else {
      var n := |fields| - 1;
      assert fields[..n][..i] == fields[..i];
      FailureStays(fields[..n], i);
    }
  }
}
