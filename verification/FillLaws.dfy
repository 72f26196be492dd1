/** What a validated fill-in question says of the raw question it was made from. */
module FillLaws {
  import opened Wrappers
  import opened PyText
  import opened RawValues
  import opened CoercionLaws
  import opened GreedyFilter
  import opened Filtering
  import opened Blanks
  import opened FillValidator

  function Given(q: Fields, key: string): string {
    Strip(Str(Get(q, key, Text(""))))
  }

  /** A blank in the sentence, and an answer for it. */
  predicate WellPosed(q: Fields) {
    HasBlank(Given(q, "sentence_with_blank")) && Given(q, "answer") != ""
  }

  /** The stripped text of a value, unless that is empty. */
  function NonBlank(v: Value): Option<string> {
    if Strip(Str(v)) == "" then None else Some(Strip(Str(v)))
  }

  function Stripped(items: seq<Value>): seq<Option<string>> {
    seq(|items|, i requires 0 <= i < |items| => NonBlank(items[i]))
  }

  lemma {:induction false} SomesCons<T>(x: Option<T>, xs: seq<Option<T>>)
    ensures Somes([x] + xs) == (if x.Some? then [x.value] else []) + Somes(xs)
  {
    if xs == [] {
      assert [x] + xs == [x] && [x][..0] == [];
    } else {
      var n := |xs| - 1;
      assert ([x] + xs)[..n + 1] == [x] + xs[..n];
      SomesCons(x, xs[..n]);
    }
  }

  lemma {:induction false} StrippedCons(items: seq<Value>)
    requires items != []
    ensures Stripped(items) == [Stripped(items)[0]] + Stripped(items[1..])
    ensures Stripped(items)[0] == NonBlank(items[0])
  {
  }

  lemma {:induction false} VariantsAreStripped(items: seq<Value>)
    ensures Variants(items) == Somes(Stripped(items))
  {
    if items != [] {
      VariantsAreStripped(items[1..]);
      StrippedCons(items);
      SomesCons(Stripped(items)[0], Stripped(items[1..]));
    }
  }

  /** The variants are the given ones, stripped and in order, without those that are blank. */
  ghost predicate VariantsSay(items: seq<Value>, variants: seq<string>, at: seq<nat>) {
    && |at| == |variants| && Positions(at, |items|)
    && (forall k | 0 <= k < |at| :: variants[k] == Strip(Str(items[at[k]])) && variants[k] != "")
    && (forall i | 0 <= i < |items| && i !in at :: Strip(Str(items[i])) == "")
  }

  lemma {:induction false} VariantsAre(items: seq<Value>) returns (at: seq<nat>)
    ensures VariantsSay(items, Variants(items), at)
  {
    VariantsAreStripped(items);
    at := SomesAt(Stripped(items));
    var stripped := Stripped(items);
    forall k | 0 <= k < |at|
      ensures Variants(items)[k] == Strip(Str(items[at[k]])) && Variants(items)[k] != ""
    {
      assert stripped[at[k]] == Some(Variants(items)[k]);
    }
    forall i | 0 <= i < |items| && i !in at ensures Strip(Str(items[i])) == "" {
      assert stripped[i] == None;
    }
  }

  ghost predicate GivenVariants(q: Fields, variants: seq<string>) {
    if "acceptable_variants" in q && q["acceptable_variants"].Listing? then
      exists at :: VariantsSay(q["acceptable_variants"].items, variants, at)
    else variants == []
  }

  /** f is the raw question q, read field by field; of its sentence the first blank is kept. */
  ghost predicate Says(q: Fields, f: Fill, position: nat, ctx: Context) {
    && SentenceSays(Given(q, "sentence_with_blank"), f.sentence)
    && f.answer == Given(q, "answer") && f.hint == Given(q, "hint")
    && GivenVariants(q, f.variants)
    && ConceptSays(q, f.concept, ctx) && LevelOf(q, f.level, ctx.toInt) && KindSays(q, f.kind)
    && IdSays(q, f.id, position, ctx)
  }

  /** One blank is left, where the first one was, and the text around the blanks is the same. */
  predicate SentenceSays(given: string, sentence: string) {
    && HasBlank(given) && Count(sentence, BLANK) == 1 && Delete(sentence) == Delete(given)
    && First(sentence) == First(given) && First(given) <= |sentence|
    && sentence[..First(given)] == given[..First(given)]
  }

  lemma {:induction false} KeepFirstSays(given: string)
    requires HasBlank(given)
    ensures SentenceSays(given, KeepFirst(given))
  {
    KeepFirstNormalises(given);
  }

  ghost predicate SaysItem(item: Value, f: Fill, position: nat, ctx: Context) {
    item.Mapping? && WellPosed(item.fields) && Says(item.fields, f, position, ctx)
  }

  lemma {:induction false} ScreenIff(item: Value, position: nat, ctx: Context)
    ensures Screen(item, position, ctx).Some? <==> item.Mapping? && WellPosed(item.fields)
    ensures Screen(item, position, ctx).Some? ==>
              (Screen(item, position, ctx).value.built.None? <==> Breaks(item.fields))
  {
    if item.Mapping? {
      CoercionsSay(item.fields, position, ctx);
    }
  }

  lemma {:induction false} VariantsGiven(q: Fields)
    ensures GivenVariants(q, VariantsOf(q))
  {
    if "acceptable_variants" in q && q["acceptable_variants"].Listing? {
      var at := VariantsAre(q["acceptable_variants"].items);
    }
  }

  lemma {:induction false} ItemSays(item: Value, position: nat, ctx: Context)
    ensures match Screen(item, position, ctx)
            case Some(Entry(_, Some(f))) => SaysItem(item, f, position, ctx)
            case _ => true
  {
    ScreenIff(item, position, ctx);
    if item.Mapping? && WellPosed(item.fields) {
      var q := item.fields;
      CoercionsSay(q, position, ctx);
      LevelFrom(q, ctx);
      VariantsGiven(q);
      KeepFirstSays(Given(q, "sentence_with_blank"));
    }
  }

  // -------------------------------------------------------------- the whole list

  function Screened(items: seq<Value>, ctx: Context): seq<Option<Entry>> {
    seq(|items|, i requires 0 <= i < |items| => Screen(items[i], i, ctx))
  }

  lemma {:induction false} ScreenedSnoc(items: seq<Value>, ctx: Context)
    requires items != []
    ensures var n := |items| - 1;
            |Screened(items, ctx)| == n + 1 && Screened(items, ctx)[..n] == Screened(items[..n], ctx)
            && Screened(items, ctx)[n] == Screen(items[n], n, ctx)
  {
  }

  lemma {:induction false} EntriesAreScreened(items: seq<Value>, ctx: Context)
    ensures Entries(items, ctx) == Somes(Screened(items, ctx))
  {
    if items != [] {
      EntriesAreScreened(items[..|items| - 1], ctx);
      ScreenedSnoc(items, ctx);
    }
  }

  lemma {:induction false} EntriesAt(items: seq<Value>, ctx: Context) returns (at: seq<nat>)
    ensures PickedAt(Screened(items, ctx), Entries(items, ctx), at)
  {
    EntriesAreScreened(items, ctx);
    at := SomesAt(Screened(items, ctx));
  }

  /** The validated questions, from the raw ones at these positions; no well-posed question is left out. */
  ghost predicate AllSay(items: seq<Value>, fs: seq<Fill>, at: seq<nat>, ctx: Context) {
    && |at| == |fs| && Positions(at, |items|)
    && (forall k | 0 <= k < |fs| :: SaysItem(items[at[k]], fs[k], at[k], ctx))
    && (forall i | 0 <= i < |items| && i !in at :: !(items[i].Mapping? && WellPosed(items[i].fields)))
  }

  /** Every well-posed question is validated, in the order of the response, and says what its raw question says. */
  lemma {:induction false} ValidatedSaysRaw(raw: Fields, ctx: Context) returns (at: seq<nat>)
    ensures match Validate(raw, ctx)
            case Validated(fs) =>
              "questions" in raw && raw["questions"].Listing? && AllSay(raw["questions"].items, fs, at, ctx)
            case _ => true
  {
    at := [];
    match Validate(raw, ctx)
    case Validated(fs) =>
      var items := raw["questions"].items;
      at := EntriesAt(items, ctx);
      forall k | 0 <= k < |fs| ensures SaysItem(items[at[k]], fs[k], at[k], ctx) {
        assert Screened(items, ctx)[at[k]] == Some(Entries(items, ctx)[k]);
        ItemSays(items[at[k]], at[k], ctx);
      }
      forall i | 0 <= i < |items| && i !in at ensures !(items[i].Mapping? && WellPosed(items[i].fields)) {
        assert Screened(items, ctx)[i] == None;
        ScreenIff(items[i], i, ctx);
      }
    case _ =>
  }

  predicate SomeWellPosed(raw: Fields) {
    "questions" in raw && raw["questions"].Listing?
    && exists i | 0 <= i < |raw["questions"].items| ::
         raw["questions"].items[i].Mapping? && WellPosed(raw["questions"].items[i].fields)
  }

  lemma {:induction false} NoEntries(items: seq<Value>, ctx: Context)
    ensures Entries(items, ctx) == []
            <==> forall i | 0 <= i < |items| :: !(items[i].Mapping? && WellPosed(items[i].fields))
  {
    var at := EntriesAt(items, ctx);
    forall i: nat | i < |items|
      ensures Screened(items, ctx)[i].Some? <==> items[i].Mapping? && WellPosed(items[i].fields)
    {
      ScreenIff(items[i], i, ctx);
    }
    if at != [] {
      assert Screened(items, ctx)[at[0]].Some?;
    }
  }

  /** A response is rejected exactly when it has no well-posed question. */
  lemma {:induction false} RejectedIff(raw: Fields, ctx: Context)
    ensures Validate(raw, ctx).Rejected? <==> !SomeWellPosed(raw)
  {
    if "questions" in raw && raw["questions"].Listing? {
      NoEntries(raw["questions"].items, ctx);
    }
  }

  predicate BreaksAt(items: seq<Value>, i: nat)
    requires i < |items|
  {
    items[i].Mapping? && WellPosed(items[i].fields) && Breaks(items[i].fields)
  }

  lemma {:induction false} BreakIsUnbuilt(items: seq<Value>, ctx: Context, at: seq<nat>, i: nat)
    requires PickedAt(Screened(items, ctx), Entries(items, ctx), at) && i < |items| && BreaksAt(items, i)
    ensures !AllBuilt(Entries(items, ctx))
  {
    ScreenIff(items[i], i, ctx);
    assert Screened(items, ctx)[i].Some?;
    var k :| 0 <= k < |at| && at[k] == i;
    assert Screened(items, ctx)[at[k]] == Some(Entries(items, ctx)[k]);
  }

  lemma {:induction false} UnbuiltBreaks(items: seq<Value>, ctx: Context, at: seq<nat>) returns (i: nat)
    requires PickedAt(Screened(items, ctx), Entries(items, ctx), at) && !AllBuilt(Entries(items, ctx))
    ensures i < |items| && BreaksAt(items, i)
  {
    var entries := Entries(items, ctx);
    var k :| 0 <= k < |entries| && entries[k].built.None?;
    i := at[k];
    assert Screened(items, ctx)[at[k]] == Some(entries[k]);
    ScreenIff(items[i], i, ctx);
  }

  /** The validator raises exactly over a well-posed question that breaks. */
  lemma {:induction false} CrashIff(raw: Fields, ctx: Context)
    ensures Validate(raw, ctx).Crashed?
            <==> "questions" in raw && raw["questions"].Listing?
                 && exists i | 0 <= i < |raw["questions"].items| :: BreaksAt(raw["questions"].items, i)
  {
    if "questions" in raw && raw["questions"].Listing? {
      var items := raw["questions"].items;
      var at := EntriesAt(items, ctx);
      if !AllBuilt(Entries(items, ctx)) {
        var i := UnbuiltBreaks(items, ctx, at);
      }
      forall i: nat | i < |items| && BreaksAt(items, i) ensures !AllBuilt(Entries(items, ctx)) {
        BreakIsUnbuilt(items, ctx, at, i);
      }
    }
  }
}
