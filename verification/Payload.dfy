/**
 The XSWD payload codec: native projection of a JSON tree to a flat token stream
 (rust/src/api/models/xswd_dtos.rs) and the reader on the other side of the bridge
 (lib/src/bridge/adapters/xelis_xswd_adapter.dart).
 */
module Payload {
  import opened Common
  import opened Decimal
  import opened Utf8

  datatype Number = Integer(int) | Float(real)

  /** `serde_json::Value`; object fields in iteration order. */
  datatype Json =
    | Null
    | Bool(bool)
    | Text(text: string)
    | Num(number: Number)
    | Array(values: seq<Json>)
    | Object(fields: seq<Field>)

  datatype Field = Field(key: string, value: Json)

  datatype Kind = NullKind | BoolKind | StringKind | IntegerKind | FloatKind | ArrayStart | ObjectStart | ObjectKey

  datatype Token = Token(kind: Kind, flag: Option<bool>, text: Option<string>, float: Option<real>, length: Option<nat>)

  datatype Limits = Limits(maxDepth: nat, maxTokens: nat, maxMembers: nat, maxText: nat, maxTotalText: nat)

  datatype ProjectionError =
    Serialization | RootNotObject | DepthLimit | TokenLimit | ContainerLimit | TextLimit | TotalTextLimit | UnsupportedNumber

  const U32: nat := 0x1_0000_0000
  const USIZE_MAX: nat := 0xFFFF_FFFF_FFFF_FFFF

  /** The limits are 32-bit fields. */
  predicate NativeLimits(l: Limits) {
    l.maxDepth < U32 && l.maxTokens < U32 && l.maxMembers < U32 && l.maxText < U32 && l.maxTotalText < U32
  }

  predicate FitsI64(n: int) {
    -0x8000_0000_0000_0000 <= n < 0x8000_0000_0000_0000
  }

  predicate FitsU64(n: int) {
    0 <= n <= 0xFFFF_FFFF_FFFF_FFFF
  }

  /** The ranges of the 64-bit integers, and the width of the limits. */
  lemma {:induction false} NumberRanges(n: int)
    ensures FitsI64(n) <==> 0 - PowerOfTwo(63) <= n < PowerOfTwo(63)
    ensures FitsU64(n) <==> 0 <= n < PowerOfTwo(64)
    ensures U32 == PowerOfTwo(32) && USIZE_MAX + 1 == PowerOfTwo(64)
  {
    MachinePowers();
  }

  function BareToken(kind: Kind): Token {
    Token(kind, None, None, None, None)
  }

  function TextToken(kind: Kind, text: string): Token {
    BareToken(kind).(text := Some(text))
  }

  function StartToken(kind: Kind, length: nat): Token {
    BareToken(kind).(length := Some(length))
  }

  function NumberToken(n: Number): Token {
    match n
    case Integer(i) => TextToken(IntegerKind, IntText(i))
    case Float(f) => BareToken(FloatKind).(float := Some(f))
  }

  function LeafToken(v: Json): Token
    requires !v.Array? && !v.Object?
  {
    match v
    case Null => BareToken(NullKind)
    case Bool(b) => BareToken(BoolKind).(flag := Some(b))
    case Text(s) => TextToken(StringKind, s)
    case Num(n) => NumberToken(n)
  }

  // ----- The limits as plain measures of the tree -----

  function Max(a: nat, b: nat): nat {
    if a < b then b else a
  }

  function Depth(v: Json): nat
    decreases v, 1
  {
    match v
    case Array(values) => 1 + DepthOfAll(values)
    case Object(fields) => 1 + DepthOfFields(fields)
    case _ => 1
  }

  function DepthOfAll(values: seq<Json>): nat
    decreases values, 0
  {
    if values == [] then 0 else Max(Depth(values[0]), DepthOfAll(values[1..]))
  }

  function DepthOfFields(fields: seq<Field>): nat
    decreases fields, 0
  {
    if fields == [] then 0 else Max(Depth(fields[0].value), DepthOfFields(fields[1..]))
  }

  function TokenCount(v: Json): (n: nat)
    decreases v, 1
  {
    match v
    case Array(values) => 1 + TokenCountOfAll(values)
    case Object(fields) => 1 + TokenCountOfFields(fields)
    case _ => 1
  }

  function TokenCountOfAll(values: seq<Json>): nat
    decreases values, 0
  {
    if values == [] then 0 else TokenCount(values[0]) + TokenCountOfAll(values[1..])
  }

  function TokenCountOfFields(fields: seq<Field>): nat
    decreases fields, 0
  {
    if fields == [] then 0 else 1 + TokenCount(fields[0].value) + TokenCountOfFields(fields[1..])
  }

  /** Bytes of all strings and keys. */
  function TotalText(v: Json): nat
    decreases v, 1
  {
    match v
    case Text(s) => Utf8Length(s)
    case Array(values) => TotalTextOfAll(values)
    case Object(fields) => TotalTextOfFields(fields)
    case _ => 0
  }

  function TotalTextOfAll(values: seq<Json>): nat
    decreases values, 0
  {
    if values == [] then 0 else TotalText(values[0]) + TotalTextOfAll(values[1..])
  }

  function TotalTextOfFields(fields: seq<Field>): nat
    decreases fields, 0
  {
    if fields == [] then 0
    else Utf8Length(fields[0].key) + TotalText(fields[0].value) + TotalTextOfFields(fields[1..])
  }

  /** Members of the largest container. */
  function Widest(v: Json): nat
    decreases v, 1
  {
    match v
    case Array(values) => Max(|values|, WidestOfAll(values))
    case Object(fields) => Max(|fields|, WidestOfFields(fields))
    case _ => 0
  }

  function WidestOfAll(values: seq<Json>): nat
    decreases values, 0
  {
    if values == [] then 0 else Max(Widest(values[0]), WidestOfAll(values[1..]))
  }

  function WidestOfFields(fields: seq<Field>): nat
    decreases fields, 0
  {
    if fields == [] then 0 else Max(Widest(fields[0].value), WidestOfFields(fields[1..]))
  }

  /** Bytes of the longest string or key. */
  function Longest(v: Json): nat
    decreases v, 1
  {
    match v
    case Text(s) => Utf8Length(s)
    case Array(values) => LongestOfAll(values)
    case Object(fields) => LongestOfFields(fields)
    case _ => 0
  }

  function LongestOfAll(values: seq<Json>): nat
    decreases values, 0
  {
    if values == [] then 0 else Max(Longest(values[0]), LongestOfAll(values[1..]))
  }

  function LongestOfFields(fields: seq<Field>): nat
    decreases fields, 0
  {
    if fields == [] then 0
    else Max(Max(Utf8Length(fields[0].key), Longest(fields[0].value)), LongestOfFields(fields[1..]))
  }

  /** Every integer is one `serde_json` can hold. */
  predicate Supported(v: Json)
    decreases v, 1
  {
    match v
    case Num(Integer(i)) => FitsI64(i) || FitsU64(i)
    case Array(values) => SupportedAll(values)
    case Object(fields) => SupportedFields(fields)
    case _ => true
  }

  predicate SupportedAll(values: seq<Json>)
    decreases values, 0
  {
    values == [] || (Supported(values[0]) && SupportedAll(values[1..]))
  }

  predicate SupportedFields(fields: seq<Field>)
    decreases fields, 0
  {
    fields == [] || (Supported(fields[0].value) && SupportedFields(fields[1..]))
  }

  /** What remains of the limits: tree depth above, tokens already emitted, text already counted. */
  datatype Budget = Budget(depth: nat, tokens: nat, text: nat)

  predicate Within(l: Limits, b: Budget, depth: nat, tokens: nat, text: nat, widest: nat, longest: nat, supported: bool) {
    && b.depth + depth <= l.maxDepth
    && b.tokens + tokens <= l.maxTokens
    && b.text + text <= l.maxTotalText
    && widest <= l.maxMembers
    && longest <= l.maxText
    && supported
  }

  predicate Fits(l: Limits, b: Budget, v: Json) {
    Within(l, b, Depth(v), TokenCount(v), TotalText(v), Widest(v), Longest(v), Supported(v))
  }

  predicate FitsAll(l: Limits, b: Budget, vs: seq<Json>) {
    Within(l, b, DepthOfAll(vs), TokenCountOfAll(vs), TotalTextOfAll(vs), WidestOfAll(vs), LongestOfAll(vs), SupportedAll(vs))
  }

  predicate FitsFields(l: Limits, b: Budget, fs: seq<Field>) {
    Within(l, b, DepthOfFields(fs), TokenCountOfFields(fs), TotalTextOfFields(fs), WidestOfFields(fs), LongestOfFields(fs),
           SupportedFields(fs))
  }

  /** The limit named by an error is one the measured tree really exceeds. */
  predicate Exceeded(
    e: ProjectionError, l: Limits, b: Budget, depth: nat, tokens: nat, text: nat, widest: nat, longest: nat,
    supported: bool) {
    match e
    case DepthLimit => b.depth + depth > l.maxDepth
    case TokenLimit => b.tokens + tokens > l.maxTokens
    case TotalTextLimit => b.text + text > l.maxTotalText
    case ContainerLimit => widest > l.maxMembers
    case TextLimit => longest > l.maxText
    case UnsupportedNumber => !supported
    case _ => false
  }

  predicate Blames(e: ProjectionError, l: Limits, b: Budget, v: Json) {
    Exceeded(e, l, b, Depth(v), TokenCount(v), TotalText(v), Widest(v), Longest(v), Supported(v))
  }

  predicate BlamesAll(e: ProjectionError, l: Limits, b: Budget, vs: seq<Json>) {
    Exceeded(e, l, b, DepthOfAll(vs), TokenCountOfAll(vs), TotalTextOfAll(vs), WidestOfAll(vs), LongestOfAll(vs),
             SupportedAll(vs))
  }

  predicate BlamesFields(e: ProjectionError, l: Limits, b: Budget, fs: seq<Field>) {
    Exceeded(e, l, b, DepthOfFields(fs), TokenCountOfFields(fs), TotalTextOfFields(fs), WidestOfFields(fs), LongestOfFields(fs),
             SupportedFields(fs))
  }

  // ----- The token stream of a tree -----

  function Flatten(v: Json): seq<Token>
    decreases v, 1
  {
    match v
    case Array(values) => [StartToken(ArrayStart, |values|)] + FlattenAll(values)
    case Object(fields) => [StartToken(ObjectStart, |fields|)] + FlattenFields(fields)
    case _ => [LeafToken(v)]
  }

  function FlattenAll(values: seq<Json>): seq<Token>
    decreases values, 0
  {
    if values == [] then [] else Flatten(values[0]) + FlattenAll(values[1..])
  }

  function FlattenFields(fields: seq<Field>): seq<Token>
    decreases fields, 0
  {
    if fields == [] then []
    else FlattenField(fields[0]) + FlattenFields(fields[1..])
  }

  function FlattenField(f: Field): seq<Token>
    decreases f, 2
  {
    [TextToken(ObjectKey, f.key)] + Flatten(f.value)
  }

  /** The measured token count is the length of the stream. */
  lemma {:induction false} FlattenLength(v: Json)
    ensures |Flatten(v)| == TokenCount(v)
    decreases v, 1
  {
    match v
    case Array(values) => FlattenAllLength(values);
    case Object(fields) => FlattenFieldsLength(fields);
    case _ =>
  }

  lemma {:induction false} FlattenAllLength(values: seq<Json>)
    ensures |FlattenAll(values)| == TokenCountOfAll(values)
    decreases values, 0
  {
    if values != [] {
      FlattenLength(values[0]);
      FlattenAllLength(values[1..]);
    }
  }

  lemma {:induction false} FlattenFieldsLength(fields: seq<Field>)
    ensures |FlattenFields(fields)| == TokenCountOfFields(fields)
    decreases fields, 0
  {
    if fields != [] {
      FlattenLength(fields[0].value);
      FlattenFieldsLength(fields[1..]);
    }
  }

  // ----- The projection -----

  /** `PayloadProjection`: appends tokens and counts text while it walks the tree. */
  class PayloadProjection {
    const limits: Limits
    var tokens: seq<Token>
    var totalText: nat

    constructor (limits: Limits)
      ensures this.limits == limits && tokens == [] && totalText == 0
    {
      this.limits := limits;
      tokens, totalText := [], 0;
    }

    predicate Valid()
      reads this
    {
      NativeLimits(limits) && |tokens| <= limits.maxTokens && totalText <= limits.maxTotalText
    }

    function Room(depth: nat): Budget
      reads this
    {
      Budget(depth, |tokens|, totalText)
    }

    method Push(token: Token) returns (r: Result<(), ProjectionError>)
      requires Valid()
      modifies this`tokens
      ensures r.Success? <==> |old(tokens)| < limits.maxTokens
      ensures r.Success? ==> tokens == old(tokens) + [token]
      ensures r.Failure? ==> r.error == TokenLimit && tokens == old(tokens)
    {
      if |tokens| >= limits.maxTokens {
        return Failure(TokenLimit);
      }
      tokens := tokens + [token];
      r := Success(());
    }

    method ValidateContainerLength(length: nat) returns (r: Result<(), ProjectionError>)
      ensures r == if length <= limits.maxMembers then Success(()) else Failure(ContainerLimit)
    {
      r := if length > limits.maxMembers then Failure(ContainerLimit) else Success(());
    }

    /** Counts one string; the checked addition cannot overflow before the limit is exceeded. */
    method AddText(text: string) returns (r: Result<(), ProjectionError>)
      requires Valid()
      modifies this`totalText
      ensures r.Success? <==> Utf8Length(text) <= limits.maxText && old(totalText) + Utf8Length(text) <= limits.maxTotalText
      ensures r.Success? ==> totalText == old(totalText) + Utf8Length(text)
      ensures r == Failure(TextLimit) ==> Utf8Length(text) > limits.maxText
      ensures r.Failure? && r.error != TextLimit ==>
                r.error == TotalTextLimit && old(totalText) + Utf8Length(text) > limits.maxTotalText
    {
      var length := Utf8Length(text);
      if length > limits.maxText {
        return Failure(TextLimit);
      }
      if totalText + length > USIZE_MAX {
        return Failure(TotalTextLimit);
      }
      totalText := totalText + length;
      if totalText > limits.maxTotalText {
        return Failure(TotalTextLimit);
      }
      r := Success(());
    }

    /** The accumulator-based walk accepts a tree exactly when its measures fit, and then emits its token stream. */
    method ProjectValue(v: Json, depth: nat) returns (r: Result<(), ProjectionError>)
      requires Valid() && depth >= 1
      modifies this
      ensures r.Success? <==> Fits(limits, old(Room(depth - 1)), v)
      ensures r.Success? ==> Valid() && tokens == old(tokens) + Flatten(v) && totalText == old(totalText) + TotalText(v)
      ensures r.Failure? ==> Blames(r.error, limits, old(Room(depth - 1)), v)
      decreases v, 1
    {
      if depth > limits.maxDepth {
        return Failure(DepthLimit);
      }
      match v
      case Null | Bool(_) | Text(_) | Num(_) => r := ProjectLeaf(v);
      case Array(values) => r := ProjectArray(values, depth);
      case Object(fields) => r := ProjectObject(fields, depth);
    }

    method ProjectArray(values: seq<Json>, depth: nat) returns (r: Result<(), ProjectionError>)
      requires Valid() && 1 <= depth <= limits.maxDepth
      modifies this
      ensures r.Success? <==> Fits(limits, old(Room(depth - 1)), Array(values))
      ensures r.Success? ==> Valid() && tokens == old(tokens) + Flatten(Array(values))
      ensures r.Success? ==> totalText == old(totalText) + TotalTextOfAll(values)
      ensures r.Failure? ==> Blames(r.error, limits, old(Room(depth - 1)), Array(values))
      decreases values, 2
    {
      r := ValidateContainerLength(|values|);
      if r.Success? {
        r := Push(StartToken(ArrayStart, |values| % U32));
        if r.Success? {
          r := ProjectElements(values, depth);
        }
      }
    }

    method ProjectObject(fields: seq<Field>, depth: nat) returns (r: Result<(), ProjectionError>)
      requires Valid() && 1 <= depth <= limits.maxDepth
      modifies this
      ensures r.Success? <==> Fits(limits, old(Room(depth - 1)), Object(fields))
      ensures r.Success? ==> Valid() && tokens == old(tokens) + Flatten(Object(fields))
      ensures r.Success? ==> totalText == old(totalText) + TotalTextOfFields(fields)
      ensures r.Failure? ==> Blames(r.error, limits, old(Room(depth - 1)), Object(fields))
      decreases fields, 2
    {
      r := ValidateContainerLength(|fields|);
      if r.Success? {
        r := Push(StartToken(ObjectStart, |fields| % U32));
        if r.Success? {
          r := ProjectMembers(fields, depth);
        }
      }
    }

    method ProjectLeaf(v: Json) returns (r: Result<(), ProjectionError>)
      requires Valid() && !v.Array? && !v.Object?
      modifies this
      ensures r.Success? <==>
              && |old(tokens)| < limits.maxTokens && old(totalText) + TotalText(v) <= limits.maxTotalText
              && Longest(v) <= limits.maxText && Supported(v)
      ensures r.Success? ==> Valid() && tokens == old(tokens) + [LeafToken(v)] && totalText == old(totalText) + TotalText(v)
      ensures r.Failure? ==> Exceeded(r.error, limits, old(Room(0)), 0, 1, TotalText(v), 0, Longest(v), Supported(v))
    {
      match v
      case Null => r := Push(BareToken(NullKind));
      case Bool(b) => r := Push(BareToken(BoolKind).(flag := Some(b)));
      case Text(s) =>
        r := AddText(s);
        if r.Success? {
          r := Push(TextToken(StringKind, s));
        }
      case Num(n) => r := ProjectNumber(n);
    }

    method ProjectNumber(n: Number) returns (r: Result<(), ProjectionError>)
      requires Valid()
      modifies this`tokens
      ensures r.Success? <==> Supported(Num(n)) && |old(tokens)| < limits.maxTokens
      ensures r.Success? ==> tokens == old(tokens) + [NumberToken(n)]
      ensures r.Failure? ==> if Supported(Num(n)) then r.error == TokenLimit else r.error == UnsupportedNumber
    {
      if n.Integer? {
        var Integer(i) := n;
        if FitsI64(i) || FitsU64(i) {
          r := Push(TextToken(IntegerKind, IntText(i)));
        } else {
          r := Failure(UnsupportedNumber);
        }
      } else {
        r := Push(NumberToken(n));
      }
    }

    /** The loop over array elements. */
    method ProjectElements(values: seq<Json>, depth: nat) returns (r: Result<(), ProjectionError>)
      requires Valid() && 1 <= depth <= limits.maxDepth
      modifies this
      ensures r.Success? <==> FitsAll(limits, old(Room(depth)), values)
      ensures r.Success? ==>
                Valid() && tokens == old(tokens) + FlattenAll(values) && totalText == old(totalText) + TotalTextOfAll(values)
      ensures r.Failure? ==> BlamesAll(r.error, limits, old(Room(depth)), values)
      decreases values, 0
    {
      ghost var b0 := Room(depth);
      ghost var start := tokens;
      for i := 0 to |values|
        invariant Valid()
        invariant FitsAll(limits, b0, values) <==> FitsAll(limits, Room(depth), values[i..])
        invariant forall e :: BlamesAll(e, limits, Room(depth), values[i..]) ==> BlamesAll(e, limits, b0, values)
        invariant tokens + FlattenAll(values[i..]) == start + FlattenAll(values)
        invariant totalText + TotalTextOfAll(values[i..]) == b0.text + TotalTextOfAll(values)
      {
        assert values[i..][0] == values[i] && values[i..][1..] == values[i + 1..];
        FlattenLength(values[i]);
        r := ProjectValue(values[i], depth + 1);
        if r.Failure? {
          return;
        }
      }
      assert values[|values|..] == [];
      r := Success(());
    }

    /** The loop over object members. */
    method ProjectMembers(fields: seq<Field>, depth: nat) returns (r: Result<(), ProjectionError>)
      requires Valid() && 1 <= depth <= limits.maxDepth
      modifies this
      ensures r.Success? <==> FitsFields(limits, old(Room(depth)), fields)
      ensures r.Success? ==> Valid() && tokens == old(tokens) + FlattenFields(fields)
      ensures r.Success? ==> totalText == old(totalText) + TotalTextOfFields(fields)
      ensures r.Failure? ==> BlamesFields(r.error, limits, old(Room(depth)), fields)
      decreases fields, 0
    {
      ghost var b0 := Room(depth);
      ghost var start := tokens;
      for i := 0 to |fields|
        invariant Valid()
        invariant FitsFields(limits, b0, fields) <==> FitsFields(limits, Room(depth), fields[i..])
        invariant forall e :: BlamesFields(e, limits, Room(depth), fields[i..]) ==> BlamesFields(e, limits, b0, fields)
        invariant tokens + FlattenFields(fields[i..]) == start + FlattenFields(fields)
        invariant totalText + TotalTextOfFields(fields[i..]) == b0.text + TotalTextOfFields(fields)
      {
        assert fields[i..][0] == fields[i] && fields[i..][1..] == fields[i + 1..];
        MemberFirst(limits, Room(depth), fields[i..]);
        r := ProjectMember(fields[i], depth);
        if r.Failure? {
          return;
        }
        FlattenLength(fields[i].value);
      }
      assert fields[|fields|..] == [];
      r := Success(());
    }

    /** One iteration of that loop: key text, key token, value. */
    method ProjectMember(field: Field, depth: nat) returns (r: Result<(), ProjectionError>)
      requires Valid() && 1 <= depth <= limits.maxDepth
      modifies this
      ensures r.Success? <==> MemberFits(limits, old(Room(depth)), field)
      ensures r.Success? ==>
                && Valid()
                && tokens == old(tokens) + [TextToken(ObjectKey, field.key)] + Flatten(field.value)
                && totalText == old(totalText) + Utf8Length(field.key) + TotalText(field.value)
      ensures r.Failure? ==> MemberBlamed(r.error, limits, old(Room(depth)), field)
      decreases field, 0
    {
      r := AddText(field.key);
      if r.Success? {
        r := Push(TextToken(ObjectKey, field.key));
        if r.Success? {
          r := ProjectValue(field.value, depth + 1);
        }
      }
    }
  }

  predicate MemberFits(l: Limits, b: Budget, f: Field) {
    Within(l, b, Depth(f.value), 1 + TokenCount(f.value), Utf8Length(f.key) + TotalText(f.value), Widest(f.value),
           Max(Utf8Length(f.key), Longest(f.value)), Supported(f.value))
  }

  predicate MemberBlamed(e: ProjectionError, l: Limits, b: Budget, f: Field) {
    Exceeded(e, l, b, Depth(f.value), 1 + TokenCount(f.value), Utf8Length(f.key) + TotalText(f.value), Widest(f.value),
             Max(Utf8Length(f.key), Longest(f.value)), Supported(f.value))
  }

  function Spend(b: Budget, f: Field): Budget {
    Budget(b.depth, b.tokens + 1 + TokenCount(f.value), b.text + Utf8Length(f.key) + TotalText(f.value))
  }

  /** A list of fields fits if its first field does and the rest fits in what that leaves. */
  lemma {:induction false} MemberFirst(l: Limits, b: Budget, fs: seq<Field>)
    requires fs != [] && b.depth <= l.maxDepth
    ensures FitsFields(l, b, fs) <==> MemberFits(l, b, fs[0]) && FitsFields(l, Spend(b, fs[0]), fs[1..])
    ensures forall e :: MemberBlamed(e, l, b, fs[0]) || BlamesFields(e, l, Spend(b, fs[0]), fs[1..]) ==> BlamesFields(e, l, b, fs)
  {
  }

  const FullBudget := Budget(0, 0, 0)

  /** The source serializes to an object whose measures are within all five limits. */
  predicate Projects(source: Option<Json>, l: Limits) {
    source.Some? && source.value.Object? && Fits(l, FullBudget, source.value)
  }

  /** `NativeXswdPayload::project`; `source` is the result of serialization, `None` when it failed. */
  method ProjectPayload(source: Option<Json>, limits: Limits) returns (r: Result<seq<Token>, ProjectionError>)
    requires NativeLimits(limits)
    ensures r.Success? <==> Projects(source, limits)
    ensures r.Success? ==> r.value == Flatten(source.value) && |r.value| == TokenCount(source.value)
    ensures r == Failure(Serialization) <==> source.None?
    ensures r == Failure(RootNotObject) <==> source.Some? && !source.value.Object?
    ensures r.Failure? && source.Some? && source.value.Object? ==> Blames(r.error, limits, FullBudget, source.value)
  {
    if source.None? {
      return Failure(Serialization);
    }
    if !source.value.Object? {
      return Failure(RootNotObject);
    }
    var projection := new PayloadProjection(limits);
    var walked := projection.ProjectValue(source.value, 1);
    FlattenLength(source.value);
    match walked {
      case Failure(e) => r := Failure(e);
      case Success(_) => r := Success(projection.tokens);
    }
  }

  // ----- The reader -----

  datatype Read<T> = Read(value: T, rest: seq<Token>, text: nat)

  /** `_validateTokenFields`: exactly the stated fields are present. */
  predicate Carries(t: Token, flag: bool, text: bool, float: bool, length: bool) {
    t.flag.Some? == flag && t.text.Some? == text && t.float.Some? == float && t.length.Some? == length
  }

  /** `_addText` on a running total. */
  function CountText(l: Limits, total: nat, text: string): Option<nat> {
    var length := Utf8Length(text);
    if length > l.maxText || total + length > l.maxTotalText then None else Some(total + length)
  }

  function ReadLeaf(l: Limits, t: Token, total: nat): Option<(Json, nat)> {
    match t.kind
    case NullKind => if Carries(t, false, false, false, false) then Some((Null, total)) else None
    case BoolKind => if Carries(t, true, false, false, false) then Some((Bool(t.flag.value), total)) else None
    case FloatKind => if Carries(t, false, false, true, false) then Some((Num(Float(t.float.value)), total)) else None
    case StringKind =>
      if !Carries(t, false, true, false, false) then None
      else (match CountText(l, total, t.text.value)
            case None => None
            case Some(after) => Some((Text(t.text.value), after)))
    case IntegerKind =>
      if !Carries(t, false, true, false, false) then None
      else (match CanonicalInt(t.text.value)
            case None => None
            case Some(n) => Some((Num(Integer(n)), total)))
    case _ => None
  }

  predicate OpensContainer(l: Limits, t: Token) {
    && (t.kind == ArrayStart || t.kind == ObjectStart)
    && Carries(t, false, false, false, true)
    && t.length.value <= l.maxMembers
  }

  /** `_readValue` at the head of `ts`, with `total` text bytes already counted. */
  function ReadValue(l: Limits, ts: seq<Token>, depth: nat, total: nat): (r: Option<Read<Json>>)
    ensures r.Some? ==> |r.value.rest| < |ts|
    decreases |ts|, 0
  {
    if depth > l.maxDepth || ts == [] then None
    else if !OpensContainer(l, ts[0]) then
      match ReadLeaf(l, ts[0], total)
      case None => None
      case Some((v, after)) => Some(Read(v, ts[1..], after))
    else if ts[0].kind == ArrayStart then
      match ReadElements(l, ts[1..], ts[0].length.value, depth + 1, total)
      case None => None
      case Some(Read(values, rest, after)) => Some(Read(Array(values), rest, after))
    else
      match ReadMembers(l, ts[1..], ts[0].length.value, depth + 1, total)
      case None => None
      case Some(Read(fields, rest, after)) =>
        if DistinctKeys(fields) then Some(Read(Object(fields), rest, after)) else None
  }

  function ReadElements(l: Limits, ts: seq<Token>, n: nat, depth: nat, total: nat): (r: Option<Read<seq<Json>>>)
    ensures r.Some? ==> |r.value.rest| <= |ts|
    decreases |ts|, 1
  {
    if n == 0 then Some(Read([], ts, total))
    else match ReadValue(l, ts, depth, total)
      case None => None
      case Some(Read(v, rest, after)) =>
        match ReadElements(l, rest, n - 1, depth, after)
        case None => None
        case Some(Read(vs, rest', after')) => Some(Read([v] + vs, rest', after'))
  }

  /** One iteration of `_readObject`: key token, then value. */
  function ReadMember(l: Limits, ts: seq<Token>, depth: nat, total: nat): (r: Option<Read<Field>>)
    ensures r.Some? ==> |r.value.rest| < |ts|
    decreases |ts|, 1
  {
    if ts == [] || ts[0].kind != ObjectKey || !Carries(ts[0], false, true, false, false) then None
    else match CountText(l, total, ts[0].text.value)
      case None => None
      case Some(counted) =>
        match ReadValue(l, ts[1..], depth, counted)
        case None => None
        case Some(Read(v, rest, after)) => Some(Read(Field(ts[0].text.value, v), rest, after))
  }

  function ReadMembers(l: Limits, ts: seq<Token>, n: nat, depth: nat, total: nat): (r: Option<Read<seq<Field>>>)
    ensures r.Some? ==> |r.value.rest| <= |ts|
    decreases |ts|, 2
  {
    if n == 0 then Some(Read([], ts, total))
    else match ReadMember(l, ts, depth, total)
      case None => None
      case Some(Read(f, rest, after)) =>
        match ReadMembers(l, rest, n - 1, depth, after)
        case None => None
        case Some(Read(fs, rest', after')) => Some(Read([f] + fs, rest', after'))
  }

  predicate DistinctKeys(fields: seq<Field>) {
    forall i, j :: 0 <= i < j < |fields| ==> fields[i].key != fields[j].key
  }

  /** Every object has pairwise different keys, as a JSON map does. */
  predicate WellKeyed(v: Json)
    decreases v, 1
  {
    match v
    case Array(values) => WellKeyedAll(values)
    case Object(fields) => DistinctKeys(fields) && WellKeyedFields(fields)
    case _ => true
  }

  predicate WellKeyedAll(values: seq<Json>)
    decreases values, 0
  {
    values == [] || (WellKeyed(values[0]) && WellKeyedAll(values[1..]))
  }

  predicate WellKeyedFields(fields: seq<Field>)
    decreases fields, 0
  {
    fields == [] || (WellKeyed(fields[0].value) && WellKeyedFields(fields[1..]))
  }

  /** `decode` and the root check of `_xswdPayloadFromGenerated`. */
  function DecodePayload(ts: seq<Token>, l: Limits): Option<Json> {
    if ts == [] || |ts| > l.maxTokens then None
    else match ReadValue(l, ts, 1, 0)
      case None => None
      case Some(Read(v, rest, _)) => if rest == [] && v.Object? then Some(v) else None
  }

  /** The tree is within every limit but the token count, which the reader checks once for the whole stream. */
  predicate Readable(l: Limits, depth: nat, total: nat, v: Json) {
    && depth + Depth(v) <= l.maxDepth && total + TotalText(v) <= l.maxTotalText
    && Widest(v) <= l.maxMembers && Longest(v) <= l.maxText && WellKeyed(v)
  }

  predicate ReadableAll(l: Limits, depth: nat, total: nat, vs: seq<Json>) {
    && depth + DepthOfAll(vs) <= l.maxDepth && total + TotalTextOfAll(vs) <= l.maxTotalText
    && WidestOfAll(vs) <= l.maxMembers && LongestOfAll(vs) <= l.maxText && WellKeyedAll(vs)
  }

  predicate ReadableFields(l: Limits, depth: nat, total: nat, fs: seq<Field>) {
    && depth + DepthOfFields(fs) <= l.maxDepth && total + TotalTextOfFields(fs) <= l.maxTotalText
    && WidestOfFields(fs) <= l.maxMembers && LongestOfFields(fs) <= l.maxText && WellKeyedFields(fs)
  }

  lemma {:induction false} LeafReadable(l: Limits, v: Json, depth: nat, total: nat)
    requires !v.Array? && !v.Object? && Readable(l, depth, total, v)
    ensures ReadLeaf(l, LeafToken(v), total) == Some((v, total + TotalText(v)))
    ensures !OpensContainer(l, LeafToken(v))
  {
    if v.Num? && v.number.Integer? {
      var Integer(i) := v.number;
      CanonicalIntExact(IntText(i), i);
    }
  }

  lemma {:induction false} ReadableAllSplits(l: Limits, depth: nat, total: nat, vs: seq<Json>)
    requires vs != [] && ReadableAll(l, depth, total, vs)
    ensures Readable(l, depth, total, vs[0])
    ensures ReadableAll(l, depth, total + TotalText(vs[0]), vs[1..])
    ensures TotalTextOfAll(vs) == TotalText(vs[0]) + TotalTextOfAll(vs[1..])
  {
  }

  lemma {:induction false} ReadableFieldsSplits(l: Limits, depth: nat, total: nat, fs: seq<Field>)
    requires fs != [] && ReadableFields(l, depth, total, fs)
    ensures CountText(l, total, fs[0].key) == Some(total + Utf8Length(fs[0].key))
    ensures Readable(l, depth, total + Utf8Length(fs[0].key), fs[0].value)
    ensures ReadableFields(l, depth, total + Utf8Length(fs[0].key) + TotalText(fs[0].value), fs[1..])
  {
  }

  lemma {:induction false} ReadMembersCons(
    l: Limits, ts: seq<Token>, n: nat, depth: nat, total: nat, head: Read<Field>, tail: Read<seq<Field>>)
    requires ReadMember(l, ts, depth, total) == Some(head)
    requires ReadMembers(l, head.rest, n, depth, head.text) == Some(tail)
    ensures ReadMembers(l, ts, n + 1, depth, total) == Some(Read([head.value] + tail.value, tail.rest, tail.text))
  {
  }

  /** The stream is self-delimiting: reading it before any suffix returns the tree and exactly that suffix. */
  lemma {:induction false} ReadInvertsFlatten(l: Limits, v: Json, suffix: seq<Token>, depth: nat, total: nat)
    requires Readable(l, depth, total, v)
    ensures ReadValue(l, Flatten(v) + suffix, depth + 1, total) == Some(Read(v, suffix, total + TotalText(v)))
    decreases v, 1
  {
    var ts := Flatten(v) + suffix;
    match v
    case Array(values) => ReadInvertsFlattenArray(l, values, suffix, depth, total);
    case Object(fields) => ReadInvertsFlattenObject(l, fields, suffix, depth, total);
    case _ =>
      LeafReadable(l, v, depth, total);
      assert ts[0] == LeafToken(v) && ts[1..] == suffix;
  }

  lemma {:induction false} ReadInvertsFlattenArray(l: Limits, values: seq<Json>, suffix: seq<Token>, depth: nat, total: nat)
    requires Readable(l, depth, total, Array(values))
    ensures ReadValue(l, Flatten(Array(values)) + suffix, depth + 1, total)
         == Some(Read(Array(values), suffix, total + TotalTextOfAll(values)))
    decreases values, 2
  {
    var ts := Flatten(Array(values)) + suffix;
    assert ts[0] == StartToken(ArrayStart, |values|);
    assert ts[1..] == FlattenAll(values) + suffix;
    ReadInvertsFlattenAll(l, values, suffix, depth + 1, total);
  }

  lemma {:induction false} ReadInvertsFlattenObject(l: Limits, fields: seq<Field>, suffix: seq<Token>, depth: nat, total: nat)
    requires Readable(l, depth, total, Object(fields))
    ensures ReadValue(l, Flatten(Object(fields)) + suffix, depth + 1, total)
         == Some(Read(Object(fields), suffix, total + TotalTextOfFields(fields)))
    decreases fields, 2
  {
    var ts := Flatten(Object(fields)) + suffix;
    assert ts[0] == StartToken(ObjectStart, |fields|);
    assert ts[1..] == FlattenFields(fields) + suffix;
    ObjectReadable(l, depth, total, fields);
    ReadInvertsFlattenFields(l, fields, suffix, depth + 1, total);
    ReadObjectStep(l, ts, depth + 1, total, Read(fields, suffix, total + TotalTextOfFields(fields)));
  }

  lemma {:induction false} ObjectReadable(l: Limits, depth: nat, total: nat, fields: seq<Field>)
    requires Readable(l, depth, total, Object(fields))
    ensures ReadableFields(l, depth + 1, total, fields)
    ensures depth + 1 <= l.maxDepth && |fields| <= l.maxMembers && DistinctKeys(fields)
  {
  }

  /** One step of the reader into an object. */
  lemma {:induction false} ReadObjectStep(l: Limits, ts: seq<Token>, depth: nat, total: nat, body: Read<seq<Field>>)
    requires depth <= l.maxDepth && ts != [] && OpensContainer(l, ts[0]) && ts[0].kind == ObjectStart
    requires ReadMembers(l, ts[1..], ts[0].length.value, depth + 1, total) == Some(body) && DistinctKeys(body.value)
    ensures ReadValue(l, ts, depth, total) == Some(Read(Object(body.value), body.rest, body.text))
  {
  }

  lemma {:induction false} ReadInvertsFlattenAll(l: Limits, values: seq<Json>, suffix: seq<Token>, depth: nat, total: nat)
    requires ReadableAll(l, depth, total, values)
    ensures ReadElements(l, FlattenAll(values) + suffix, |values|, depth + 1, total)
         == Some(Read(values, suffix, total + TotalTextOfAll(values)))
    decreases values, 0
  {
    if values == [] {
      assert FlattenAll(values) + suffix == suffix;
    } else {
      var tail := FlattenAll(values[1..]) + suffix;
      assert FlattenAll(values) + suffix == Flatten(values[0]) + tail;
      ReadableAllSplits(l, depth, total, values);
      ReadInvertsFlatten(l, values[0], tail, depth, total);
      ReadInvertsFlattenAll(l, values[1..], suffix, depth, total + TotalText(values[0]));
      assert values == [values[0]] + values[1..];
    }
  }

  lemma {:induction false} FlattenFieldsCons(fields: seq<Field>, suffix: seq<Token>)
    requires fields != []
    ensures FlattenFields(fields) + suffix == FlattenField(fields[0]) + (FlattenFields(fields[1..]) + suffix)
    ensures TotalTextOfFields(fields) == Utf8Length(fields[0].key) + TotalText(fields[0].value) + TotalTextOfFields(fields[1..])
  {
  }

  lemma {:induction false} ReadInvertsFlattenFields(l: Limits, fields: seq<Field>, suffix: seq<Token>, depth: nat, total: nat)
    requires ReadableFields(l, depth, total, fields)
    ensures ReadMembers(l, FlattenFields(fields) + suffix, |fields|, depth + 1, total)
         == Some(Read(fields, suffix, total + TotalTextOfFields(fields)))
    decreases fields, 0
  {
    if fields == [] {
      assert FlattenFields(fields) + suffix == suffix;
    } else {
      var tail := FlattenFields(fields[1..]) + suffix;
      var after := total + Utf8Length(fields[0].key) + TotalText(fields[0].value);
      FlattenFieldsCons(fields, suffix);
      ReadableFieldsSplits(l, depth, total, fields);
      ReadInvertsFlattenField(l, fields[0], tail, depth, total);
      ReadInvertsFlattenFields(l, fields[1..], suffix, depth, after);
      ReadMembersCons(l, FlattenFields(fields) + suffix, |fields| - 1, depth + 1, total, Read(fields[0], tail, after),
                      Read(fields[1..], suffix, after + TotalTextOfFields(fields[1..])));
      assert fields == [fields[0]] + fields[1..];
    }
  }

  lemma {:induction false} ReadInvertsFlattenField(l: Limits, f: Field, suffix: seq<Token>, depth: nat, total: nat)
    requires CountText(l, total, f.key) == Some(total + Utf8Length(f.key))
    requires Readable(l, depth, total + Utf8Length(f.key), f.value)
    ensures ReadMember(l, FlattenField(f) + suffix, depth + 1, total)
         == Some(Read(f, suffix, total + Utf8Length(f.key) + TotalText(f.value)))
    decreases f, 2
  {
    var ts := FlattenField(f) + suffix;
    assert ts[0] == TextToken(ObjectKey, f.key) && ts[1..] == Flatten(f.value) + suffix;
    ReadInvertsFlatten(l, f.value, suffix, depth, total + Utf8Length(f.key));
  }

  /** What was read is exactly what the tree flattens to, and is within the limits. */
  predicate CanonicalRead(l: Limits, ts: seq<Token>, depth: nat, total: nat, r: Read<Json>) {
    && ts == Flatten(r.value) + r.rest
    && r.text == total + TotalText(r.value)
    && (total <= l.maxTotalText ==> Readable(l, depth, total, r.value))
  }

  lemma {:induction false} ReadLeafIsCanonical(l: Limits, ts: seq<Token>, depth: nat, total: nat)
    requires ReadValue(l, ts, depth + 1, total).Some? && !OpensContainer(l, ts[0])
    ensures CanonicalRead(l, ts, depth, total, ReadValue(l, ts, depth + 1, total).value)
  {
    var r := ReadValue(l, ts, depth + 1, total).value;
    if ts[0].kind == IntegerKind {
      CanonicalIntExact(ts[0].text.value, CanonicalInt(ts[0].text.value).value);
    }
    assert LeafToken(r.value) == ts[0];
    assert ts == [ts[0]] + ts[1..];
  }

  lemma {:induction false} ReadArrayIsCanonical(l: Limits, ts: seq<Token>, depth: nat, total: nat)
    requires ReadValue(l, ts, depth + 1, total).Some? && OpensContainer(l, ts[0]) && ts[0].kind == ArrayStart
    ensures CanonicalRead(l, ts, depth, total, ReadValue(l, ts, depth + 1, total).value)
    decreases |ts|, 0
  {
    var r := ReadValue(l, ts, depth + 1, total).value;
    ReadElementsCanonical(l, ts[1..], ts[0].length.value, depth + 1, total);
    assert StartToken(ArrayStart, |r.value.values|) == ts[0];
    assert ts == [ts[0]] + (FlattenAll(r.value.values) + r.rest);
  }

  lemma {:induction false} ReadObjectIsCanonical(l: Limits, ts: seq<Token>, depth: nat, total: nat)
    requires ReadValue(l, ts, depth + 1, total).Some? && OpensContainer(l, ts[0]) && ts[0].kind != ArrayStart
    ensures CanonicalRead(l, ts, depth, total, ReadValue(l, ts, depth + 1, total).value)
    decreases |ts|, 0
  {
    ReadObjectBody(l, ts, depth + 1, total);
    ReadMembersCanonical(l, ts[1..], ts[0].length.value, depth + 1, total);
    ObjectIsCanonical(l, ts, depth, total, ReadMembers(l, ts[1..], ts[0].length.value, depth + 2, total).value);
  }

  /** What an accepted object consists of. */
  lemma {:induction false} ReadObjectBody(l: Limits, ts: seq<Token>, depth: nat, total: nat)
    requires ReadValue(l, ts, depth, total).Some? && OpensContainer(l, ts[0]) && ts[0].kind != ArrayStart
    ensures depth <= l.maxDepth && ts[0] == StartToken(ObjectStart, ts[0].length.value) && ts[0].length.value <= l.maxMembers
    ensures var body := ReadMembers(l, ts[1..], ts[0].length.value, depth + 1, total);
            && body.Some? && DistinctKeys(body.value.value)
            && ReadValue(l, ts, depth, total) == Some(Read(Object(body.value.value), body.value.rest, body.value.text))
  {
  }

  lemma {:induction false} ObjectIsCanonical(l: Limits, ts: seq<Token>, depth: nat, total: nat, body: Read<seq<Field>>)
    requires depth + 1 <= l.maxDepth && |body.value| <= l.maxMembers && DistinctKeys(body.value)
    requires ts != [] && ts[0] == StartToken(ObjectStart, |body.value|) && ts[1..] == FlattenFields(body.value) + body.rest
    requires body.text == total + TotalTextOfFields(body.value)
    requires total <= l.maxTotalText ==> ReadableFields(l, depth + 1, total, body.value)
    ensures CanonicalRead(l, ts, depth, total, Read(Object(body.value), body.rest, body.text))
  {
    assert ts == [ts[0]] + (FlattenFields(body.value) + body.rest);
  }

  /** The reader accepts nothing else: what it consumed is the stream of the tree it returned, within the limits. */
  lemma {:induction false} ReadIsCanonical(l: Limits, ts: seq<Token>, depth: nat, total: nat)
    requires ReadValue(l, ts, depth + 1, total).Some?
    ensures CanonicalRead(l, ts, depth, total, ReadValue(l, ts, depth + 1, total).value)
    decreases |ts|, 1
  {
    if !OpensContainer(l, ts[0]) {
      ReadLeafIsCanonical(l, ts, depth, total);
    } else if ts[0].kind == ArrayStart {
      ReadArrayIsCanonical(l, ts, depth, total);
    } else {
      ReadObjectIsCanonical(l, ts, depth, total);
    }
  }

  lemma {:induction false} ReadElementsCanonical(l: Limits, ts: seq<Token>, n: nat, depth: nat, total: nat)
    requires ReadElements(l, ts, n, depth + 1, total).Some?
    requires depth <= l.maxDepth
    ensures var r := ReadElements(l, ts, n, depth + 1, total).value;
            && |r.value| == n
            && ts == FlattenAll(r.value) + r.rest
            && r.text == total + TotalTextOfAll(r.value)
            && (total <= l.maxTotalText ==> ReadableAll(l, depth, total, r.value))
    decreases |ts|, 2
  {
    if n == 0 {
      assert ts == FlattenAll([]) + ts;
    } else {
      var head := ReadValue(l, ts, depth + 1, total).value;
      var r := ReadElements(l, ts, n, depth + 1, total).value;
      var tail := ReadElements(l, head.rest, n - 1, depth + 1, head.text).value;
      ReadIsCanonical(l, ts, depth, total);
      ReadElementsCanonical(l, head.rest, n - 1, depth, head.text);
      assert r.value[0] == head.value && r.value[1..] == tail.value;
      assert ts == Flatten(head.value) + (FlattenAll(tail.value) + r.rest);
    }
  }

  lemma {:induction false} ReadMembersCanonical(l: Limits, ts: seq<Token>, n: nat, depth: nat, total: nat)
    requires ReadMembers(l, ts, n, depth + 1, total).Some?
    requires depth <= l.maxDepth
    ensures var r := ReadMembers(l, ts, n, depth + 1, total).value;
            && |r.value| == n
            && ts == FlattenFields(r.value) + r.rest
            && r.text == total + TotalTextOfFields(r.value)
            && (total <= l.maxTotalText ==> ReadableFields(l, depth, total, r.value))
    decreases |ts|, 2
  {
    if n == 0 {
      assert ts == FlattenFields([]) + ts;
    } else {
      var head := ReadMember(l, ts, depth + 1, total).value;
      ReadMemberCanonical(l, ts, depth, total);
      var tail := ReadMembers(l, head.rest, n - 1, depth + 1, head.text).value;
      ReadMembersCanonical(l, head.rest, n - 1, depth, head.text);
      ReadMembersCons(l, ts, n - 1, depth + 1, total, head, tail);
      var fs := [head.value] + tail.value;
      assert fs[1..] == tail.value;
      ReadableFieldsJoin(l, depth, total, fs);
      assert ts == FlattenField(head.value) + (FlattenFields(tail.value) + tail.rest);
    }
  }

  lemma {:induction false} ReadableFieldsJoin(l: Limits, depth: nat, total: nat, fs: seq<Field>)
    requires fs != [] && Utf8Length(fs[0].key) <= l.maxText
    requires Readable(l, depth, total + Utf8Length(fs[0].key), fs[0].value)
    requires ReadableFields(l, depth, total + Utf8Length(fs[0].key) + TotalText(fs[0].value), fs[1..])
    ensures ReadableFields(l, depth, total, fs)
  {
  }

  predicate CanonicalMember(l: Limits, ts: seq<Token>, depth: nat, total: nat, r: Read<Field>) {
    && ts == FlattenField(r.value) + r.rest
    && r.text == total + Utf8Length(r.value.key) + TotalText(r.value.value)
    && Utf8Length(r.value.key) <= l.maxText
    && total + Utf8Length(r.value.key) <= l.maxTotalText
    && Readable(l, depth, total + Utf8Length(r.value.key), r.value.value)
  }

  lemma {:induction false} ReadMemberCanonical(l: Limits, ts: seq<Token>, depth: nat, total: nat)
    requires ReadMember(l, ts, depth + 1, total).Some?
    ensures CanonicalMember(l, ts, depth, total, ReadMember(l, ts, depth + 1, total).value)
    decreases |ts|, 1
  {
    var r := ReadMember(l, ts, depth + 1, total).value;
    ReadMemberStep(l, ts, depth + 1, total);
    ReadIsCanonical(l, ts[1..], depth, total + Utf8Length(r.value.key));
    MemberIsCanonical(l, ts, depth, total, r);
  }

  lemma {:induction false} MemberIsCanonical(l: Limits, ts: seq<Token>, depth: nat, total: nat, r: Read<Field>)
    requires ts != [] && ts[0] == TextToken(ObjectKey, r.value.key)
    requires Utf8Length(r.value.key) <= l.maxText && total + Utf8Length(r.value.key) <= l.maxTotalText
    requires CanonicalRead(l, ts[1..], depth, total + Utf8Length(r.value.key), Read(r.value.value, r.rest, r.text))
    ensures CanonicalMember(l, ts, depth, total, r)
  {
    assert ts == [ts[0]] + (Flatten(r.value.value) + r.rest);
  }

  /** What an accepted member consists of. */
  lemma {:induction false} ReadMemberStep(l: Limits, ts: seq<Token>, depth: nat, total: nat)
    requires ReadMember(l, ts, depth, total).Some?
    ensures var r := ReadMember(l, ts, depth, total).value;
            var counted := total + Utf8Length(r.value.key);
            && ts != [] && ts[0] == TextToken(ObjectKey, r.value.key)
            && Utf8Length(r.value.key) <= l.maxText && counted <= l.maxTotalText
            && ReadValue(l, ts[1..], depth, counted) == Some(Read(r.value.value, r.rest, r.text))
  {
  }

  /**
   The two sides of the bridge agree under the same limits: a stream is what the native side emits for a JSON
   object exactly when the reader decodes it to that object (whose integers are then 64-bit ones).
   */
  lemma {:induction false} BridgeAgrees(v: Json, ts: seq<Token>, l: Limits)
    requires WellKeyed(v)
    ensures Projects(Some(v), l) && ts == Flatten(v) <==> DecodePayload(ts, l) == Some(v) && Supported(v)
  {
    if Projects(Some(v), l) && ts == Flatten(v) {
      EmittedIsRead(v, l);
    }
    if DecodePayload(ts, l) == Some(v) && Supported(v) {
      ReadWasEmitted(v, ts, l);
    }
  }

  lemma {:induction false} EmittedIsRead(v: Json, l: Limits)
    requires WellKeyed(v) && Projects(Some(v), l)
    ensures DecodePayload(Flatten(v), l) == Some(v)
  {
    FlattenLength(v);
    ReadInvertsFlatten(l, v, [], 0, 0);
    assert Flatten(v) + [] == Flatten(v);
  }

  lemma {:induction false} ReadWasEmitted(v: Json, ts: seq<Token>, l: Limits)
    requires DecodePayload(ts, l) == Some(v) && Supported(v)
    ensures Projects(Some(v), l) && ts == Flatten(v)
  {
    FlattenLength(v);
    ReadIsCanonical(l, ts, 0, 0);
    assert Flatten(v) + [] == Flatten(v);
  }

  /** Different JSON objects have different token streams, even as prefixes of longer streams. */
  lemma {:induction false} FlattenInjective(v: Json, w: Json, more: seq<Token>, others: seq<Token>)
    requires WellKeyed(v) && WellKeyed(w)
    requires Flatten(v) + more == Flatten(w) + others
    ensures v == w && more == others
  {
    var m := Depth(v) + Depth(w) + TotalText(v) + TotalText(w) + Widest(v) + Widest(w) + Longest(v) + Longest(w);
    var l := Limits(m, m, m, m, m);
    ReadInvertsFlatten(l, v, more, 0, 0);
    ReadInvertsFlatten(l, w, others, 0, 0);
  }
}
