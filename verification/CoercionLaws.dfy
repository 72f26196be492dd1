/** What the shared coercions make of a raw question, field by field. */
module CoercionLaws {
  import opened Wrappers
  import opened PyText
  import opened RawValues

  function Distance(m: int, n: int): nat {
    if m < n then n - m else m - n
  }

  /** Of the levels 1 to 5, the one closest to n. */
  predicate Nearest(level: int, n: int) {
    1 <= level <= 5 && forall m | 1 <= m <= 5 :: Distance(level, n) <= Distance(m, n)
  }

  /** n is r without its fraction. */
  predicate WholePart(n: int, r: real) {
    if r >= 0.0 then 0 <= n && n as real <= r < n as real + 1.0
    else n <= 0 && n as real - 1.0 < r <= n as real
  }

  predicate NearestPart(level: int, r: real, n: int) {
    WholePart(n, r) && Nearest(level, n)
  }

  /** The level that a raw value stands for. */
  ghost predicate LevelSays(v: Value, level: int, toInt: string -> Option<int>) {
    match v
    case Text(text) =>
      if text == "easy" then level == 2
      else if text == "medium" then level == 3
      else if text == "hard" then level == 4
      else if toInt(text).Some? then Nearest(level, toInt(text).value)
      else level == 3
    case Whole(n) => Nearest(level, n)
    case Flag(_) => level == 1
    case Decimal(Finite(r), _) => exists n :: NearestPart(level, r, n)
    case _ => level == 3
  }

  lemma {:induction false} LevelIs(v: Value, toInt: string -> Option<int>)
    ensures match CoerceLevel(v, toInt)
            case Some(level) => LevelSays(v, level, toInt)
            case None => v.Decimal? && v.f.Infinite?
  {
    if v.Decimal? && v.f.Finite? {
      var level, n := Clamp(Truncate(v.f.r)), Truncate(v.f.r);
      assert NearestPart(level, v.f.r, n);
    }
  }

  /** A missing level is read from the difficulty, and is 3 if that is missing too. */
  ghost predicate LevelOf(q: Fields, level: int, toInt: string -> Option<int>) {
    if "level" in q then LevelSays(q["level"], level, toInt)
    else if "difficulty" in q then LevelSays(q["difficulty"], level, toInt)
    else level == 3
  }

  lemma {:induction false} LevelFrom(q: Fields, ctx: Context)
    ensures Level(q, ctx).Some? ==> LevelOf(q, Level(q, ctx).value, ctx.toInt)
  {
    LevelIs(if "level" in q then q["level"] else if "difficulty" in q then q["difficulty"] else Whole(3), ctx.toInt);
  }

  /** A question of a known concept keeps it; any other gets the fallback. */
  predicate ConceptSays(q: Fields, concept: string, ctx: Context) {
    var given := Str(Get(q, "concept_id", Text("")));
    (given in ctx.concepts && concept == given) || (given !in ctx.concepts && concept == ctx.fallback)
  }

  predicate KindSays(q: Fields, kind: string) {
    if "question_type" in q && q["question_type"] == Text("application") then kind == "application"
    else kind == "concept"
  }

  /** A text that is not empty is kept as the id; without one the question gets a new id. */
  predicate IdSays(q: Fields, id: string, position: nat, ctx: Context) {
    if "id" in q && q["id"].Text? && q["id"].text != "" then id == q["id"].text else id == ctx.uuid(position)
  }

  /** What makes building a question raise: an id that is no text, an infinite level, an unhashable type. */
  predicate Breaks(q: Fields) {
    || ("id" in q && Truthy(q["id"]) && !q["id"].Text?)
    || (var level := Get(q, "level", Get(q, "difficulty", Whole(3))); level.Decimal? && level.f.Infinite?)
    || ("question_type" in q && (q["question_type"].Listing? || q["question_type"].Mapping?))
  }

  lemma {:induction false} CoercionsSay(q: Fields, position: nat, ctx: Context)
    ensures ConceptSays(q, Concept(q, ctx), ctx)
    ensures Kind(q).Some? ==> KindSays(q, Kind(q).value)
    ensures EnsuredId(q, position, ctx).Text? ==> IdSays(q, EnsuredId(q, position, ctx).text, position, ctx)
    ensures Breaks(q) <==> !(EnsuredId(q, position, ctx).Text? && Level(q, ctx).Some? && Kind(q).Some?)
  {
  }
}
