/** The untyped values of a model response, and the coercions the validators share. */
module RawValues {
  import opened Wrappers
  import opened PyText

  datatype Float = Finite(r: real) | NaN | Infinite

  /** A JSON value as Python holds it; `shown` is what str() makes of it. */
  datatype Value =
    | Null
    | Flag(b: bool)
    | Whole(n: int)
    | Decimal(f: Float, shown: string)
    | Text(text: string)
    | Listing(items: seq<Value>, shown: string)
    | Mapping(fields: Fields, shown: string)

  type Fields = map<string, Value>

  function Digits(n: nat): (s: string)
    ensures s != ""
  {
    if n < 10 then ["0123456789"[n]] else Digits(n / 10) + ["0123456789"[n % 10]]
  }

  function Str(v: Value): string {
    match v
    case Null => "None"
    case Flag(b) => if b then "True" else "False"
    case Whole(n) => if n < 0 then "-" + Digits(-n) else Digits(n)
    case Decimal(_, shown) => shown
    case Text(text) => text
    case Listing(_, shown) => shown
    case Mapping(_, shown) => shown
  }

  predicate Truthy(v: Value) {
    match v
    case Null => false
    case Flag(b) => b
    case Whole(n) => n != 0
    case Decimal(f, _) => f != Finite(0.0)
    case Text(text) => text != ""
    case Listing(items, _) => items != []
    case Mapping(fields, _) => fields != map[]
  }

  /** d.get(key, default) */
  function Get(fields: Fields, key: string, default: Value): Value {
    if key in fields then fields[key] else default
  }

  /** str(q.get(key, "")).strip() */
  function Trimmed(q: Fields, key: string): string {
    Strip(Str(Get(q, key, Text(""))))
  }

  lemma {:induction false} TrimmedStripped(q: Fields, key: string)
    ensures Stripped(Trimmed(q, key))
  {
    StripStripped(Str(Get(q, key, Text(""))));
  }

  function Truncate(r: real): int {
    if r >= 0.0 then r.Floor else -((-r).Floor)
  }

  function Clamp(n: int): int {
    if n < 1 then 1 else if n > 5 then 5 else n
  }

  /** The level given by a legacy difficulty word. */
  function LegacyLevel(text: string): Option<int> {
    if text == "easy" then Some(2)
    else if text == "medium" then Some(3)
    else if text == "hard" then Some(4)
    else None
  }

  /** _coerce_level; None is the OverflowError that int() raises on infinity, which no handler names. */
  function CoerceLevel(raw: Value, toInt: string -> Option<int>): (level: Option<int>)
    ensures level.Some? ==> 1 <= level.value <= 5
    ensures level.None? <==> raw.Decimal? && raw.f.Infinite?
  {
    match raw
    case Text(text) =>
      if LegacyLevel(text).Some? then LegacyLevel(text)
      else if toInt(text).Some? then Some(Clamp(toInt(text).value))
      else Some(3)
    case Whole(n) => Some(Clamp(n))
    case Flag(b) => Some(Clamp(if b then 1 else 0))
    case Decimal(Finite(r), _) => Some(Clamp(Truncate(r)))
    case Decimal(NaN, _) => Some(3)
    case Decimal(Infinite, _) => None
    case Null => Some(3)
    case Listing(_, _) => Some(3)
    case Mapping(_, _) => Some(3)
  }

  /** _coerce_question_type; None is the TypeError of looking an unhashable value up in a set. */
  function CoerceKind(raw: Value): (kind: Option<string>)
    ensures kind.Some? ==> kind.value == "concept" || kind.value == "application"
  {
    match raw
    case Text(text) => Some(if text == "application" then text else "concept")
    case Listing(_, _) => None
    case Mapping(_, _) => None
    case _ => Some("concept")
  }

  /** What str(uuid.uuid4()) yields. */
  type Uuid = s: string | s != "" witness "0"

  /** The choices a validator makes that its inputs do not determine, and the abstract text functions. */
  datatype Context = Context(
    concepts: set<string>,
    fallback: string, // what next(iter(valid_concept_ids), "") yields
    toInt: string -> Option<int>,
    tokens: string -> set<string>,
    uuid: nat -> Uuid) // a new id for the question at this position

  /** next(iter(valid_concept_ids), ""): any of the concepts, or the empty text when there are none. */
  predicate SoundFallback(ctx: Context) {
    if ctx.concepts == {} then ctx.fallback == "" else ctx.fallback in ctx.concepts
  }

  /** Two passes with equal concepts, whose iteration order, new ids and number parsing may differ. */
  ghost predicate SameConcepts(ctx: Context, other: Context) {
    && SoundFallback(ctx) && SoundFallback(other) && ctx.concepts == other.concepts
    && forall text :: ctx.tokens(text) == other.tokens(text)
  }

  function Level(fields: Fields, ctx: Context): Option<int> {
    CoerceLevel(Get(fields, "level", Get(fields, "difficulty", Whole(3))), ctx.toInt)
  }

  function Kind(fields: Fields): Option<string> {
    CoerceKind(Get(fields, "question_type", Null))
  }

  function Concept(fields: Fields, ctx: Context): string {
    var concept := Str(Get(fields, "concept_id", Text("")));
    if concept in ctx.concepts then concept else ctx.fallback
  }

  /** _ensure_id */
  function EnsuredId(fields: Fields, position: nat, ctx: Context): Value {
    var id := Get(fields, "id", Null);
    if Truthy(id) then id else Text(ctx.uuid(position))
  }

  /** Validated(items), the app's ValidationError, or an exception that escapes the validator. */
  datatype Verdict<T> = Validated(items: seq<T>) | Rejected | Crashed
}
