/** What a validated multiple-choice question says of the raw question it was made from. */
module McqLaws {
  import opened Wrappers
  import opened PyText
  import opened RawValues
  import opened CoercionLaws
  import opened GreedyFilter
  import opened Filtering
  import opened McqValidator

  const SMALL := ["a", "b", "c", "d"]

  /** The given text names answer i, as a capital or a small letter. */
  predicate Names(given: string, i: nat) {
    i < 4 && (given == LETTERS[i] || given == SMALL[i])
  }

  lemma {:induction false} UpperOne(given: string, i: nat)
    requires i < 4
    ensures Upper(given) == LETTERS[i] <==> Names(given, i)
  {
    var upper := Upper(given);
    assert |upper| == |given|;
    if |given| == 1 {
      assert given == [given[0]] && upper == [upper[0]];
      assert LETTERS[i] == [LETTERS[i][0]] && SMALL[i] == [SMALL[i][0]];
    }
  }

  function Given(q: Fields, key: string): string {
    Str(Get(q, key, Text("")))
  }

  /** The four options of a question, stripped. */
  function GivenOptions(q: Fields): Choices
    requires "options" in q && q["options"].Mapping?
  {
    var o := q["options"].fields;
    Choices(Strip(Given(o, "A")), Strip(Given(o, "B")), Strip(Given(o, "C")), Strip(Given(o, "D")))
  }

  predicate FourDifferent(o: Choices) {
    && o.a != "" && o.b != "" && o.c != "" && o.d != ""
    && o.a != o.b && o.a != o.c && o.a != o.d && o.b != o.c && o.b != o.d && o.c != o.d
  }

  /** A question, four different options and one of them named as the answer. */
  predicate WellPosed(q: Fields) {
    && Strip(Given(q, "question")) != ""
    && "options" in q && q["options"].Mapping?
    && FourDifferent(GivenOptions(q))
    && (exists i | 0 <= i < 4 :: Names(Given(q, "correct_answer"), i))
  }

  /** m is the raw question q, read field by field. */
  ghost predicate Says(q: Fields, m: Mcq, position: nat, ctx: Context) {
    && m.question == Strip(Given(q, "question"))
    && "options" in q && q["options"].Mapping?
    && m.options == GivenOptions(q)
    && (exists i | 0 <= i < 4 :: Names(Given(q, "correct_answer"), i) && m.correct == LETTERS[i])
    && ExplanationSays(Strip(Given(q, "explanation")), m)
    && ConceptSays(q, m.concept, ctx) && LevelOf(q, m.level, ctx.toInt) && KindSays(q, m.kind)
    && IdSays(q, m.id, position, ctx)
  }

  /** An explanation of at least twenty characters is kept; a shorter one gives way to a sentence naming the answer. */
  predicate ExplanationSays(given: string, m: Mcq) {
    if |given| >= 20 then m.explanation == given else m.explanation == "The correct answer is " + m.correct + "."
  }

  lemma {:induction false} LetterNamed(q: Fields)
    ensures Letter(q) in LETTERS <==> exists i | 0 <= i < 4 :: Names(Given(q, "correct_answer"), i)
    ensures forall i | 0 <= i < 4 && Names(Given(q, "correct_answer"), i) :: Letter(q) == LETTERS[i]
    ensures Letter(q) in LETTERS ==>
              exists i | 0 <= i < 4 :: Names(Given(q, "correct_answer"), i) && Letter(q) == LETTERS[i]
  {
    forall i: nat | i < 4 ensures Letter(q) == LETTERS[i] <==> Names(Given(q, "correct_answer"), i) {
      UpperOne(Given(q, "correct_answer"), i);
    }
    if Letter(q) in LETTERS {
      var i :| 0 <= i < 4 && LETTERS[i] == Letter(q);
      assert Names(Given(q, "correct_answer"), i);
    }
  }

  lemma {:induction false} GoodIsDifferent(o: Choices)
    ensures GoodOptions(o) <==> FourDifferent(o)
  {
    var s := {o.a, o.b, o.c, o.d};
    if o.a == o.b || o.a == o.c || o.a == o.d {
      assert s == {o.b, o.c, o.d};
    } else if o.b == o.c || o.b == o.d {
      assert s == {o.a, o.c, o.d};
    } else if o.c == o.d {
      assert s == {o.a, o.b, o.d};
    }
  }

  lemma {:induction false} NoOptionsNoGood()
    ensures !GoodOptions(Options(map[]))
  {
    EmptyStrip("");
  }

  lemma {:induction false} EmptyStrip(s: string)
    requires s == ""
    ensures Strip(s) == ""
  {
  }

  lemma {:induction false} GoodIff(q: Fields)
    ensures OptionsOf(q).Some? && GoodOptions(OptionsOf(q).value)
            <==> "options" in q && q["options"].Mapping? && FourDifferent(GivenOptions(q))
    ensures "options" in q && q["options"].Mapping? ==> OptionsOf(q) == Some(GivenOptions(q))
  {
    NoOptionsNoGood();
    if OptionsOf(q).Some? {
      GoodIsDifferent(OptionsOf(q).value);
    }
  }

  /** Exactly the well-posed questions get past the checks, and exactly those that break are not built. */
  lemma {:induction false} ScreenIff(item: Value, position: nat, ctx: Context)
    ensures Screen(item, position, ctx).Some? <==> item.Mapping? && WellPosed(item.fields)
    ensures Screen(item, position, ctx).Some? ==>
              (Screen(item, position, ctx).value.built.None? <==> Breaks(item.fields))
  {
    if item.Mapping? {
      var q := item.fields;
      LetterNamed(q);
      CoercionsSay(q, position, ctx);
      GoodIff(q);
    }
  }

  lemma {:induction false} ScreenSays(item: Value, position: nat, ctx: Context)
    ensures match Screen(item, position, ctx)
            case Some(Entry(_, Some(m))) => Says(item.fields, m, position, ctx)
            case _ => true
  {
    if item.Mapping? && Screen(item, position, ctx).Some? {
      var q := item.fields;
      LetterNamed(q);
      GoodIff(q);
      CoercionsSay(q, position, ctx);
      LevelFrom(q, ctx);
    }
  }

  // -------------------------------------------------------------- the whole list

  function Screened(items: seq<Value>, ctx: Context): seq<Option<Entry>> {
    seq(|items|, i requires 0 <= i < |items| => Screen(items[i], i, ctx))
  }

  lemma {:induction false} ScreenedSnoc(items: seq<Value>, ctx: Context)
    requires items != []
    ensures var n := |items| - 1;
            |Screened(items, ctx)| == n + 1 && Screened(items, ctx)[..n] == Screened(items[..n], ctx)
            && Screened(items, ctx)[n] == Screen(items[n], n, ctx)
  {
  }

  lemma {:induction false} EntriesAreScreened(items: seq<Value>, ctx: Context)
    ensures Entries(items, ctx) == Somes(Screened(items, ctx))
  {
    if items != [] {
      EntriesAreScreened(items[..|items| - 1], ctx);
      ScreenedSnoc(items, ctx);
    }
  }

  lemma {:induction false} EntriesAt(items: seq<Value>, ctx: Context) returns (at: seq<nat>)
    ensures PickedAt(Screened(items, ctx), Entries(items, ctx), at)
  {
    EntriesAreScreened(items, ctx);
    at := SomesAt(Screened(items, ctx));
  }

  ghost predicate SaysItem(item: Value, m: Mcq, position: nat, ctx: Context) {
    item.Mapping? && WellPosed(item.fields) && Says(item.fields, m, position, ctx)
  }

  lemma {:induction false} ItemSays(item: Value, position: nat, ctx: Context)
    ensures match Screen(item, position, ctx)
            case Some(Entry(_, Some(m))) => SaysItem(item, m, position, ctx)
            case _ => true
  {
    ScreenIff(item, position, ctx);
    ScreenSays(item, position, ctx);
  }

  /** Each question of a validated list, and the position of the raw one that it says. */
  ghost predicate AllSay(items: seq<Value>, ms: seq<Mcq>, at: seq<nat>, ctx: Context) {
    && |at| == |ms| && Positions(at, |items|)
    && forall k | 0 <= k < |ms| :: SaysItem(items[at[k]], ms[k], at[k], ctx)
  }

  function Through(at: seq<nat>, ix: seq<nat>): seq<nat>
    requires Positions(ix, |at|)
  {
    seq(|ix|, k requires 0 <= k < |ix| => at[ix[k]])
  }

  /** Every validated question says what its raw question says, in the order of the response. */
  lemma {:induction false} ValidatedSaysRaw(raw: Fields, ctx: Context) returns (at: seq<nat>)
    ensures match Validate(raw, ctx)
            case Validated(ms) =>
              "questions" in raw && raw["questions"].Listing? && AllSay(raw["questions"].items, ms, at, ctx)
            case _ => true
  {
    at := [];
    match Validate(raw, ctx)
    case Validated(ms) =>
      var items := raw["questions"].items;
      var ix := ValidatedIsGreedy(raw, ctx);
      var places := EntriesAt(items, ctx);
      at := Through(places, ix);
      forall k | 0 <= k < |ms| ensures SaysItem(items[at[k]], ms[k], at[k], ctx) {
        assert Screened(items, ctx)[at[k]] == Some(Entries(items, ctx)[ix[k]]);
        ItemSays(items[at[k]], at[k], ctx);
      }
    case _ =>
  }

  ghost predicate SomeWellPosed(raw: Fields) {
    "questions" in raw && raw["questions"].Listing?
    && exists i | 0 <= i < |raw["questions"].items| ::
         raw["questions"].items[i].Mapping? && WellPosed(raw["questions"].items[i].fields)
  }

  lemma {:induction false} NoEntries(items: seq<Value>, ctx: Context)
    ensures Entries(items, ctx) == []
            <==> forall i | 0 <= i < |items| :: !(items[i].Mapping? && WellPosed(items[i].fields))
  {
    var at := EntriesAt(items, ctx);
    forall i: nat | i < |items| ensures Screened(items, ctx)[i].Some?
      <==> items[i].Mapping? && WellPosed(items[i].fields) {
      ScreenIff(items[i], i, ctx);
    }
    if at != [] {
      assert Screened(items, ctx)[at[0]].Some?;
    }
  }

  /** A response is rejected exactly when it has no well-posed question. */
  lemma {:induction false} RejectedIff(raw: Fields, ctx: Context)
    ensures Validate(raw, ctx).Rejected? <==> !SomeWellPosed(raw)
  {
    if "questions" in raw && raw["questions"].Listing? {
      NoEntries(raw["questions"].items, ctx);
      KeptNone(Entries(raw["questions"].items, ctx), Clashing(ctx));
    }
  }

  lemma {:induction false} KeptNone<T>(xs: seq<T>, clash: (T, T) -> bool)
    ensures Kept(xs, clash) == [] <==> xs == []
  {
    if xs != [] {
      KeptNone(xs[..|xs| - 1], clash);
    }
  }

  /** The validator raises only over a well-posed question that breaks. */
  lemma {:induction false} CrashNeedsBreak(raw: Fields, ctx: Context)
    requires Validate(raw, ctx).Crashed?
    ensures "questions" in raw && raw["questions"].Listing?
    ensures exists i | 0 <= i < |raw["questions"].items| :: BreaksAt(raw["questions"].items, i)
  {
    var items := raw["questions"].items;
    var entries := Entries(items, ctx);
    var kept := Kept(entries, Clashing(ctx));
    var k :| 0 <= k < |kept| && kept[k].built.None?;
    KeptPairwise(entries, Clashing(ctx));
    assert kept[k] in entries;
    var j :| 0 <= j < |entries| && entries[j] == kept[k];
    var at := EntriesAt(items, ctx);
    assert Screened(items, ctx)[at[j]] == Some(entries[j]);
    ScreenIff(items[at[j]], at[j], ctx);
    assert BreaksAt(items, at[j]);
  }

  predicate BreaksAt(items: seq<Value>, i: nat)
    requires i < |items|
  {
    items[i].Mapping? && WellPosed(items[i].fields) && Breaks(items[i].fields)
  }
}
