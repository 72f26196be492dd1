/** validate_fill: fill-in-the-blank questions, whose sentences keep one blank. */
module FillValidator {
  import opened Wrappers
  import opened PyText
  import opened RawValues
  import opened Blanks

  datatype Fill = Fill(id: string, sentence: string, answer: string, variants: seq<string>,
                       hint: string, concept: string, level: int, kind: string)

  /** Stripped texts of the listed variants, without the empty ones. */
  function Variants(items: seq<Value>): seq<string> {
    if items == [] then []
    else
      var v := Strip(Str(items[0]));
      (if v == "" then [] else [v]) + Variants(items[1..])
  }

  function VariantsOf(q: Fields): seq<string> {
    var variants := Get(q, "acceptable_variants", Listing([], "[]"));
    if variants.Listing? then Variants(variants.items) else []
  }

  /**
   * A question that passed its checks, with its stripped sentence; `built` is None if a coercion or the model
   * raises.
   */
  datatype Entry = Entry(text: string, built: Option<Fill>)

  /** The checks of one question in their order, on its coerced fields. */
  function Check(id: Value, text: string, answer: string, variants: seq<string>, hint: string,
                 concept: string, level: Option<int>, kind: Option<string>): Option<Entry> {
    if !HasBlank(text) || answer == "" then None
    else if id.Text? && level.Some? && kind.Some? then
      Some(Entry(text, Some(Fill(id.text, KeepFirst(text), answer, variants, hint, concept, level.value, kind.value))))
    else Some(Entry(text, None))
  }

  function ScreenFields(q: Fields, position: nat, ctx: Context): Option<Entry> {
    Check(EnsuredId(q, position, ctx), Trimmed(q, "sentence_with_blank"), Trimmed(q, "answer"), VariantsOf(q),
          Trimmed(q, "hint"), Concept(q, ctx), Level(q, ctx), Kind(q))
  }

  function Screen(item: Value, position: nat, ctx: Context): Option<Entry> {
    if item.Mapping? then ScreenFields(item.fields, position, ctx) else None
  }

  function Entries(items: seq<Value>, ctx: Context): seq<Entry> {
    if items == [] then []
    else
      var n := |items| - 1;
      match Screen(items[n], n, ctx)
      case None => Entries(items[..n], ctx)
      case Some(e) => Entries(items[..n], ctx) + [e]
  }

  predicate AllBuilt(entries: seq<Entry>) {
    forall k | 0 <= k < |entries| :: entries[k].built.Some?
  }

  function Built(entries: seq<Entry>): seq<Fill>
    requires AllBuilt(entries)
  {
    seq(|entries|, k requires 0 <= k < |entries| => entries[k].built.value)
  }

  function Judge(entries: seq<Entry>): Verdict<Fill> {
    if !AllBuilt(entries) then Crashed
    else if entries == [] then Rejected
    else Validated(Built(entries))
  }

  function Validate(raw: Fields, ctx: Context): Verdict<Fill> {
    var questions := Get(raw, "questions", Listing([], "[]"));
    if questions.Listing? then Judge(Entries(questions.items, ctx)) else Rejected
  }

  // ---------------------------------------------------------------- the loop

  lemma {:induction false} EntriesStep(items: seq<Value>, i: nat, ctx: Context)
    requires i < |items|
    ensures Entries(items[..i + 1], ctx)
            == match Screen(items[i], i, ctx)
               case None => Entries(items[..i], ctx)
               case Some(e) => Entries(items[..i], ctx) + [e]
  {
    assert items[..i + 1][..i] == items[..i];
  }

  lemma {:induction false} EntriesGrow(items: seq<Value>, i: nat, ctx: Context)
    requires i < |items|
    ensures Entries(items[..i], ctx) <= Entries(items[..i + 1], ctx)
  {
    EntriesStep(items, i, ctx);
  }

  lemma {:induction false} CrashStays(items: seq<Value>, i: nat, ctx: Context)
    requires i <= |items| && !AllBuilt(Entries(items[..i], ctx))
    ensures !AllBuilt(Entries(items, ctx))
    decreases |items| - i
  {
    if i == |items| {
      assert items[..i] == items;
    } else {
      EntriesGrow(items, i, ctx);
      CrashCarried(Entries(items[..i], ctx), Entries(items[..i + 1], ctx));
      CrashStays(items, i + 1, ctx);
    }
  }

  lemma {:induction false} CrashCarried(entries: seq<Entry>, more: seq<Entry>)
    requires entries <= more && !AllBuilt(entries)
    ensures !AllBuilt(more)
  {
    var k :| 0 <= k < |entries| && entries[k].built.None?;
    assert more[k] == entries[k];
  }

  lemma {:induction false} BuiltAdd(entries: seq<Entry>, e: Entry)
    requires AllBuilt(entries)
    ensures e.built.Some? ==> AllBuilt(entries + [e]) && Built(entries + [e]) == Built(entries) + [e.built.value]
    ensures e.built.None? ==> !AllBuilt(entries + [e])
  {
    assert (entries + [e])[|entries|] == e;
  }

  method ValidateItems(items: seq<Value>, ctx: Context) returns (r: Verdict<Fill>)
    ensures r == Judge(Entries(items, ctx))
  {
    var validated: seq<Fill> := [];
    ghost var entries: seq<Entry> := [];
    for i := 0 to |items|
      invariant entries == Entries(items[..i], ctx) && AllBuilt(entries) && validated == Built(entries)
    {
      EntriesStep(items, i, ctx);
      var screened := Screen(items[i], i, ctx);
      if screened.None? {
        continue;
      }
      BuiltAdd(entries, screened.value);
      entries := entries + [screened.value];
      if screened.value.built.None? {
        CrashStays(items, i + 1, ctx);
        return Crashed;
      }
      validated := validated + [screened.value.built.value];
    }
    assert items[..|items|] == items;
    r := if validated == [] then Rejected else Validated(validated);
  }

  method ValidateFill(raw: Fields, ctx: Context) returns (r: Verdict<Fill>)
    ensures r == Validate(raw, ctx)
  {
    var questions := Get(raw, "questions", Listing([], "[]"));
    if !questions.Listing? {
      return Rejected;
    }
    r := ValidateItems(questions.items, ctx);
  }

  // ------------------------------------------------- what a validated list promises

  predicate StrippedAll(texts: seq<string>) {
    forall i | 0 <= i < |texts| :: texts[i] != "" && Stripped(texts[i])
  }

  /** The sentence that this stripped raw sentence is normalised to. */
  predicate NormalisedFrom(s: string, text: string) {
    Stripped(text) && HasBlank(text) && s == KeepFirst(text)
  }

  predicate SettledFields(f: Fill, ctx: Context) {
    && f.id != "" && f.answer != "" && Stripped(f.answer) && StrippedAll(f.variants) && Stripped(f.hint)
    && (f.concept in ctx.concepts || f.concept == ctx.fallback)
    && 1 <= f.level <= 5 && (f.kind == "concept" || f.kind == "application")
  }

  ghost predicate Settled(f: Fill, text: string, ctx: Context) {
    SettledFields(f, ctx) && NormalisedFrom(f.sentence, text)
  }

  lemma {:induction false} VariantsStripped(items: seq<Value>)
    ensures StrippedAll(Variants(items))
  {
    if items != [] {
      VariantsStripped(items[1..]);
      StripStripped(Str(items[0]));
    }
  }

  ghost predicate SettledEntry(e: Entry, ctx: Context) {
    e.built.Some? ==> Settled(e.built.value, e.text, ctx)
  }

  lemma {:induction false} CheckSettles(id: Value, text: string, answer: string, variants: seq<string>, hint: string,
                                        concept: string, level: Option<int>, kind: Option<string>, ctx: Context)
    requires id.Text? ==> id.text != ""
    requires Stripped(text) && Stripped(answer) && StrippedAll(variants) && Stripped(hint)
    requires concept in ctx.concepts || concept == ctx.fallback
    requires level.Some? ==> 1 <= level.value <= 5
    requires kind.Some? ==> kind.value == "concept" || kind.value == "application"
    ensures match Check(id, text, answer, variants, hint, concept, level, kind)
            case Some(e) => SettledEntry(e, ctx)
            case None => true
  {
  }

  lemma {:induction false} FieldsSettle(q: Fields)
    ensures Stripped(Trimmed(q, "sentence_with_blank")) && Stripped(Trimmed(q, "answer"))
            && Stripped(Trimmed(q, "hint"))
    ensures StrippedAll(VariantsOf(q))
  {
    TrimmedStripped(q, "sentence_with_blank");
    TrimmedStripped(q, "answer");
    TrimmedStripped(q, "hint");
    if Get(q, "acceptable_variants", Listing([], "[]")).Listing? {
      VariantsStripped(Get(q, "acceptable_variants", Listing([], "[]")).items);
    }
  }

  lemma {:induction false} ScreenSettles(item: Value, position: nat, ctx: Context)
    ensures match Screen(item, position, ctx)
            case Some(e) => SettledEntry(e, ctx)
            case None => true
  {
    if item.Mapping? {
      var q := item.fields;
      FieldsSettle(q);
      CheckSettles(EnsuredId(q, position, ctx), Trimmed(q, "sentence_with_blank"), Trimmed(q, "answer"), VariantsOf(q),
                   Trimmed(q, "hint"), Concept(q, ctx), Level(q, ctx), Kind(q), ctx);
    }
  }

  lemma {:induction false} EntriesSettle(items: seq<Value>, ctx: Context)
    ensures forall k | 0 <= k < |Entries(items, ctx)| :: SettledEntry(Entries(items, ctx)[k], ctx)
  {
    if items != [] {
      var n := |items| - 1;
      EntriesSettle(items[..n], ctx);
      ScreenSettles(items[n], n, ctx);
    }
  }

  ghost predicate AllSettled(fs: seq<Fill>, entries: seq<Entry>, ctx: Context) {
    |fs| == |entries| && forall i | 0 <= i < |fs| :: Settled(fs[i], entries[i].text, ctx)
  }

  lemma {:induction false} BuiltSettled(entries: seq<Entry>, ctx: Context)
    requires AllBuilt(entries) && forall k | 0 <= k < |entries| :: SettledEntry(entries[k], ctx)
    ensures AllSettled(Built(entries), entries, ctx)
  {
    forall i | 0 <= i < |entries| ensures Settled(Built(entries)[i], entries[i].text, ctx) {
      assert SettledEntry(entries[i], ctx);
    }
  }

  /** The questions of a response that pass the checks. */
  function Passing(raw: Fields, ctx: Context): seq<Entry> {
    var questions := Get(raw, "questions", Listing([], "[]"));
    if questions.Listing? then Entries(questions.items, ctx) else []
  }

  lemma {:induction false} ValidatedIsSettled(raw: Fields, ctx: Context)
    requires Validate(raw, ctx).Validated?
    ensures Validate(raw, ctx).items != [] && AllSettled(Validate(raw, ctx).items, Passing(raw, ctx), ctx)
  {
    EntriesSettle(Get(raw, "questions", Listing([], "[]")).items, ctx);
    BuiltSettled(Passing(raw, ctx), ctx);
  }

  predicate OneBlank(f: Fill, e: Entry) {
    Count(f.sentence, BLANK) == 1 && Delete(f.sentence) == Delete(e.text)
  }

  /** Every validated sentence holds exactly one blank, and around it the text of the raw sentence. */
  lemma {:induction false} OneBlankEach(raw: Fields, ctx: Context)
    ensures match Validate(raw, ctx)
            case Validated(fs) =>
              |fs| == |Passing(raw, ctx)| && forall i | 0 <= i < |fs| :: OneBlank(fs[i], Passing(raw, ctx)[i])
            case _ => true
  {
    match Validate(raw, ctx)
    case Validated(fs) =>
      ValidatedIsSettled(raw, ctx);
      forall i | 0 <= i < |fs| ensures OneBlank(fs[i], Passing(raw, ctx)[i]) {
        assert Settled(fs[i], Passing(raw, ctx)[i].text, ctx);
        KeepFirstNormalises(Passing(raw, ctx)[i].text);
      }
    case _ =>
  }

  // ---------------------------------------------------------- validating again

  predicate Holds(q: Fields, f: Fill) {
    && "id" in q && q["id"] == Text(f.id)
    && "sentence_with_blank" in q && q["sentence_with_blank"] == Text(f.sentence)
    && "answer" in q && q["answer"] == Text(f.answer)
    && "acceptable_variants" in q && q["acceptable_variants"].Listing?
    && q["acceptable_variants"].items == Texts(f.variants)
    && "hint" in q && q["hint"] == Text(f.hint)
    && "concept_id" in q && q["concept_id"] == Text(f.concept)
    && "level" in q && q["level"] == Whole(f.level)
    && "question_type" in q && q["question_type"] == Text(f.kind)
  }

  function Texts(texts: seq<string>): seq<Value> {
    seq(|texts|, i requires 0 <= i < |texts| => Text(texts[i]))
  }

  /** A response whose questions are the validated ones, as they are stored and served. */
  predicate Restates(items: seq<Value>, fs: seq<Fill>) {
    |items| == |fs| && forall i | 0 <= i < |fs| :: items[i].Mapping? && Holds(items[i].fields, fs[i])
  }

  /** The question with its sentence stripped, which is all that a second validation changes. */
  function Restripped(f: Fill): Fill {
    f.(sentence := Strip(f.sentence))
  }

  function RestrippedAll(fs: seq<Fill>): seq<Fill> {
    seq(|fs|, i requires 0 <= i < |fs| => Restripped(fs[i]))
  }

  lemma {:induction false} VariantsReread(texts: seq<string>)
    requires StrippedAll(texts)
    ensures Variants(Texts(texts)) == texts
  {
    if texts != [] {
      StripOfStripped(texts[0]);
      assert Texts(texts)[1..] == Texts(texts[1..]);
      VariantsReread(texts[1..]);
    }
  }

  lemma {:induction false} TrimmedReread(q: Fields, key: string, t: string)
    requires key in q && q[key] == Text(t)
    ensures Trimmed(q, key) == Strip(t) && (Stripped(t) ==> Trimmed(q, key) == t)
  {
    if Stripped(t) {
      StripOfStripped(t);
    }
  }

  lemma {:induction false} CoercionsReread(q: Fields, f: Fill, position: nat, ctx: Context)
    requires Holds(q, f) && SettledFields(f, ctx)
    ensures EnsuredId(q, position, ctx) == Text(f.id)
    ensures Concept(q, ctx) == f.concept && Level(q, ctx) == Some(f.level) && Kind(q) == Some(f.kind)
  {
  }

  lemma {:induction false} TextsReread(q: Fields, f: Fill, ctx: Context)
    requires Holds(q, f) && SettledFields(f, ctx)
    ensures Trimmed(q, "sentence_with_blank") == Strip(f.sentence)
    ensures Trimmed(q, "answer") == f.answer && Trimmed(q, "hint") == f.hint && VariantsOf(q) == f.variants
  {
    TrimmedReread(q, "sentence_with_blank", f.sentence);
    TrimmedReread(q, "answer", f.answer);
    TrimmedReread(q, "hint", f.hint);
    VariantsReread(f.variants);
  }

  /** The sentence already holds one blank: a second pass only strips it, and not even that as a rule. */
  lemma {:induction false} SentenceAgain(s: string, text: string)
    requires NormalisedFrom(s, text)
    ensures HasBlank(Strip(s)) && KeepFirst(Strip(s)) == Strip(s)
    ensures Strip(s) == s <==> !LeavesSpace(text)
  {
    StripOfStripped(text);
    NormalSingle(text);
    StripSingle(s);
    SingleFixed(Strip(s));
    NormalStripped(text);
    StripUnchanged(s);
  }

  lemma {:induction false} RescreenedFields(q: Fields, f: Fill, text: string, position: nat, ctx: Context)
    requires Settled(f, text, ctx) && Holds(q, f)
    ensures ScreenFields(q, position, ctx) == Some(Again(f))
  {
    TextsReread(q, f, ctx);
    CoercionsReread(q, f, position, ctx);
    SentenceAgain(f.sentence, text);
  }

  function Again(f: Fill): Entry {
    Entry(Strip(f.sentence), Some(Restripped(f)))
  }

  function Echo(fs: seq<Fill>): seq<Entry> {
    seq(|fs|, i requires 0 <= i < |fs| => Again(fs[i]))
  }

  lemma {:induction false} RestatesInit(items: seq<Value>, fs: seq<Fill>)
    requires Restates(items, fs) && fs != []
    ensures var n := |fs| - 1; Restates(items[..n], fs[..n]) && items[n].Mapping? && Holds(items[n].fields, fs[n])
  {
  }

  lemma {:induction false} SettledInit(fs: seq<Fill>, entries: seq<Entry>, ctx: Context)
    requires AllSettled(fs, entries, ctx) && fs != []
    ensures var n := |fs| - 1; AllSettled(fs[..n], entries[..n], ctx) && Settled(fs[n], entries[n].text, ctx)
  {
  }

  lemma {:induction false} EchoSnoc(fs: seq<Fill>)
    requires fs != []
    ensures var n := |fs| - 1; Echo(fs) == Echo(fs[..n]) + [Again(fs[n])]
  {
  }

  lemma {:induction false} RescreenedAll(items: seq<Value>, fs: seq<Fill>, entries: seq<Entry>, ctx: Context)
    requires AllSettled(fs, entries, ctx) && Restates(items, fs)
    ensures Entries(items, ctx) == Echo(fs)
  {
    if fs != [] {
      var n := |fs| - 1;
      RestatesInit(items, fs);
      SettledInit(fs, entries, ctx);
      EchoSnoc(fs);
      RescreenedAll(items[..n], fs[..n], entries[..n], ctx);
      RescreenedFields(items[n].fields, fs[n], entries[n].text, n, ctx);
    }
  }

  /** A response that restates what validating another one returned. */
  predicate Repeats(again: Fields, raw: Fields, ctx: Context) {
    && Validate(raw, ctx).Validated?
    && "questions" in again && again["questions"].Listing?
    && Restates(again["questions"].items, Validate(raw, ctx).items)
  }

  lemma {:induction false} SettledElsewhere(fs: seq<Fill>, entries: seq<Entry>, ctx: Context, other: Context)
    requires SameConcepts(ctx, other) && AllSettled(fs, entries, ctx)
    ensures AllSettled(fs, entries, other)
  {
    forall i | 0 <= i < |fs| ensures Settled(fs[i], entries[i].text, other) {
      assert Settled(fs[i], entries[i].text, ctx);
    }
  }

  /**
   * Validating a validated list again strips its sentences and changes nothing else, also in a pass that
   * would choose another of the same concepts for a question without one.
   */
  lemma {:induction false} SecondPassStrips(raw: Fields, ctx: Context, again: Fields, other: Context)
    requires SameConcepts(ctx, other) && Repeats(again, raw, ctx)
    ensures Validate(again, other) == Validated(RestrippedAll(Validate(raw, ctx).items))
    ensures Passing(again, other) == Echo(Validate(raw, ctx).items)
  {
    var fs := Validate(raw, ctx).items;
    ValidatedIsSettled(raw, ctx);
    SettledElsewhere(fs, Passing(raw, ctx), ctx, other);
    RescreenedAll(again["questions"].items, fs, Passing(raw, ctx), other);
    EchoJudged(fs);
  }

  lemma {:induction false} EchoJudged(fs: seq<Fill>)
    requires fs != []
    ensures Judge(Echo(fs)) == Validated(RestrippedAll(fs))
  {
    assert Built(Echo(fs)) == RestrippedAll(fs);
  }

  predicate NoneLeavesSpace(entries: seq<Entry>) {
    forall k | 0 <= k < |entries| :: !LeavesSpace(entries[k].text)
  }

  lemma {:induction false} RestrippedSame(fs: seq<Fill>, entries: seq<Entry>, ctx: Context)
    requires AllSettled(fs, entries, ctx)
    ensures RestrippedAll(fs) == fs <==> NoneLeavesSpace(entries)
  {
    var again := RestrippedAll(fs);
    forall i | 0 <= i < |fs| ensures again[i] == fs[i] <==> !LeavesSpace(entries[i].text) {
      assert Settled(fs[i], entries[i].text, ctx);
      SentenceAgain(fs[i].sentence, entries[i].text);
    }
  }

  /**
   * Unlike multiple choice, validating again is the identity exactly when no accepted raw sentence has
   * blanks at its end that follow whitespace after its first blank.
   */
  lemma {:induction false} FixpointIff(raw: Fields, ctx: Context, again: Fields, other: Context)
    requires SameConcepts(ctx, other) && Repeats(again, raw, ctx)
    ensures Validate(again, other) == Validate(raw, ctx) <==> NoneLeavesSpace(Passing(raw, ctx))
  {
    SecondPassStrips(raw, ctx, again, other);
    ValidatedIsSettled(raw, ctx);
    RestrippedSame(Validate(raw, ctx).items, Passing(raw, ctx), ctx);
  }

  /** Two passes always suffice. */
  lemma {:induction false} ThirdPassIsIdentity(raw: Fields, ctx: Context, again: Fields, second: Context,
                                               third: Fields, other: Context)
    requires SameConcepts(ctx, second) && Repeats(again, raw, ctx)
    requires SameConcepts(second, other) && Repeats(third, again, second)
    ensures Validate(third, other) == Validate(again, second)
  {
    SecondPassStrips(raw, ctx, again, second);
    SecondPassStrips(again, second, third, other);
    RestrippedTwice(Validate(raw, ctx).items);
  }

  lemma {:induction false} RestrippedTwice(fs: seq<Fill>)
    ensures RestrippedAll(RestrippedAll(fs)) == RestrippedAll(fs)
  {
    forall i | 0 <= i < |fs| ensures Restripped(Restripped(fs[i])) == Restripped(fs[i]) {
      StripStripped(fs[i].sentence);
    }
  }
}
