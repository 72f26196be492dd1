/** validate_mcq: coercion, screening and the greedy near-duplicate filter. */
module McqValidator {
  import opened Wrappers
  import opened PyText
  import opened RawValues
  import opened GreedyFilter

  datatype Choices = Choices(a: string, b: string, c: string, d: string)

  datatype Mcq = Mcq(id: string, question: string, options: Choices, correct: string,
                     explanation: string, concept: string, level: int, kind: string)

  const ANSWER_IS := "The correct answer is "

  const LETTERS := ["A", "B", "C", "D"]

  // -------------------------------------------------------------- screening

  function Upper(s: string): string {
    seq(|s|, i requires 0 <= i < |s| => if 'a' <= s[i] <= 'z' then ((s[i] as int - 32) as char) else s[i])
  }

  /** The four options, stripped; an absent one is the empty text. */
  function Options(fields: Fields): Choices {
    Choices(Trimmed(fields, "A"), Trimmed(fields, "B"), Trimmed(fields, "C"), Trimmed(fields, "D"))
  }

  predicate GoodOptions(o: Choices) {
    && o.a != "" && o.b != "" && o.c != "" && o.d != ""
    && |{o.a, o.b, o.c, o.d}| == 4
  }

  function Explanation(given: string, correct: string): string {
    if |given| < 20 then ANSWER_IS + correct + "." else given
  }

  /** A question that passed every check but the near-duplicate one; `built` is None if building it raises. */
  datatype Entry = Entry(text: string, built: Option<Mcq>)

  function QuestionText(q: Fields): string {
    Trimmed(q, "question")
  }

  /** None when the options are not an object. */
  function OptionsOf(q: Fields): Option<Choices> {
    var options := Get(q, "options", Mapping(map[], "{}"));
    if options.Mapping? then Some(Options(options.fields)) else None
  }

  function Letter(q: Fields): string {
    Upper(Str(Get(q, "correct_answer", Text(""))))
  }

  function ExplanationOf(q: Fields, letter: string): string {
    Explanation(Trimmed(q, "explanation"), letter)
  }

  /** The checks of one question in their order, on its coerced fields. */
  function Check(id: Value, text: string, options: Option<Choices>, letter: string, explanation: string,
                 concept: string, level: Option<int>, kind: Option<string>): Option<Entry> {
    if text == "" || options.None? || !GoodOptions(options.value) || letter !in LETTERS then None
    else if id.Text? && level.Some? && kind.Some? then
      Some(Entry(text, Some(Mcq(id.text, text, options.value, letter, explanation, concept, level.value, kind.value))))
    else Some(Entry(text, None))
  }

  function ScreenFields(q: Fields, position: nat, ctx: Context): Option<Entry> {
    Check(EnsuredId(q, position, ctx), QuestionText(q), OptionsOf(q), Letter(q), ExplanationOf(q, Letter(q)),
          Concept(q, ctx), Level(q, ctx), Kind(q))
  }

  function Screen(item: Value, position: nat, ctx: Context): Option<Entry> {
    if item.Mapping? then ScreenFields(item.fields, position, ctx) else None
  }

  function Entries(items: seq<Value>, ctx: Context): seq<Entry> {
    if items == [] then []
    else
      var n := |items| - 1;
      var entries := Entries(items[..n], ctx);
      match Screen(items[n], n, ctx)
      case None => entries
      case Some(e) => entries + [e]
  }

  // ------------------------------------------------------------- greedy filter

  /** More than 70% of all keywords of the two questions are shared. */
  predicate Similar(a: set<string>, b: set<string>): (similar: bool)
    ensures similar <==> 10 * |a * b| > 7 * |a + b|
  {
    a + b != {} && 10 * |a * b| > 7 * |a + b|
  }

  function Clashing(ctx: Context): (Entry, Entry) -> bool {
    (e: Entry, f: Entry) => Similar(ctx.tokens(e.text), ctx.tokens(f.text))
  }

  // --------------------------------------------------------------- the verdict

  function Built(entries: seq<Entry>): seq<Mcq>
    requires forall k | 0 <= k < |entries| :: entries[k].built.Some?
  {
    seq(|entries|, k requires 0 <= k < |entries| => entries[k].built.value)
  }

  predicate AllBuilt(entries: seq<Entry>) {
    forall k | 0 <= k < |entries| :: entries[k].built.Some?
  }

  function Judge(kept: seq<Entry>): Verdict<Mcq> {
    if !AllBuilt(kept) then Crashed
    else if kept == [] then Rejected
    else Validated(Built(kept))
  }

  /** validate_mcq on a response object, whose questions may be missing. */
  function Validate(raw: Fields, ctx: Context): Verdict<Mcq> {
    var questions := Get(raw, "questions", Listing([], "[]"));
    if !questions.Listing? then Rejected else Judge(Kept(Entries(questions.items, ctx), Clashing(ctx)))
  }

  predicate ClashesTexts(text: string, seen: seq<string>, ctx: Context) {
    exists k | 0 <= k < |seen| :: Similar(ctx.tokens(text), ctx.tokens(seen[k]))
  }

  method IsDuplicate(text: string, seen: seq<string>, ctx: Context) returns (dup: bool)
    ensures dup <==> ClashesTexts(text, seen, ctx)
  {
    var tokens := ctx.tokens(text);
    for k := 0 to |seen|
      invariant forall j | 0 <= j < k :: !Similar(tokens, ctx.tokens(seen[j]))
    {
      var prev := ctx.tokens(seen[k]);
      var union := tokens + prev;
      if union != {} && 10 * |tokens * prev| > 7 * |union| {
        return true;
      }
    }
    dup := false;
  }

  predicate Stored(kept: seq<Entry>, seen: seq<string>, validated: seq<Mcq>) {
    && |seen| == |kept| && (forall k | 0 <= k < |kept| :: seen[k] == kept[k].text)
    && AllBuilt(kept) && validated == Built(kept)
  }

  lemma {:induction false} StoredAdd(kept: seq<Entry>, seen: seq<string>, validated: seq<Mcq>, e: Entry)
    requires Stored(kept, seen, validated)
    ensures e.built.Some? ==> Stored(kept + [e], seen + [e.text], validated + [e.built.value])
    ensures e.built.None? ==> !AllBuilt(kept + [e])
  {
    assert (kept + [e])[|kept|] == e;
  }

  lemma {:induction false} StoredDuplicate(kept: seq<Entry>, seen: seq<string>, validated: seq<Mcq>, e: Entry,
                                           ctx: Context)
    requires Stored(kept, seen, validated)
    ensures Duplicate(e, kept, Clashing(ctx)) <==> ClashesTexts(e.text, seen, ctx)
  {
    var clash := Clashing(ctx);
    forall k | 0 <= k < |kept| ensures clash(e, kept[k]) == Similar(ctx.tokens(e.text), ctx.tokens(seen[k])) {
    }
  }

  method ValidateMcq(raw: Fields, ctx: Context) returns (r: Verdict<Mcq>)
    ensures r == Validate(raw, ctx)
  {
    var questions := Get(raw, "questions", Listing([], "[]"));
    if !questions.Listing? {
      return Rejected;
    }
    r := ValidateItems(questions.items, ctx);
  }

  method ValidateItems(items: seq<Value>, ctx: Context) returns (r: Verdict<Mcq>)
    ensures r == Judge(Kept(Entries(items, ctx), Clashing(ctx)))
  {
    var seen: seq<string> := [];
    var validated: seq<Mcq> := [];
    ghost var kept: seq<Entry> := [];
    for i := 0 to |items|
      invariant kept == Kept(Entries(items[..i], ctx), Clashing(ctx))
      invariant Stored(kept, seen, validated)
    {
      EntriesStep(items, i, ctx);
      var screened := Screen(items[i], i, ctx);
      if screened.None? {
        continue;
      }
      var entry := screened.value;
      StoredDuplicate(kept, seen, validated, entry, ctx);
      var dup := IsDuplicate(entry.text, seen, ctx);
      if dup {
        continue;
      }
      StoredAdd(kept, seen, validated, entry);
      kept := kept + [entry];
      seen := seen + [entry.text];
      if entry.built.None? {
        CrashStays(items, i + 1, ctx);
        return Crashed;
      }
      validated := validated + [entry.built.value];
    }
    assert items[..|items|] == items;
    r := if validated == [] then Rejected else Validated(validated);
  }

  /** One turn of the loop on the entries kept so far. */
  lemma {:induction false} EntriesStep(items: seq<Value>, i: nat, ctx: Context)
    requires i < |items|
    ensures var kept := Kept(Entries(items[..i], ctx), Clashing(ctx));
            Kept(Entries(items[..i + 1], ctx), Clashing(ctx))
            == match Screen(items[i], i, ctx)
               case None => kept
               case Some(e) => if Duplicate(e, kept, Clashing(ctx)) then kept else kept + [e]
  {
    assert items[..i + 1][..i] == items[..i];
    var entries := Entries(items[..i], ctx);
    if Screen(items[i], i, ctx).Some? {
      var longer := entries + [Screen(items[i], i, ctx).value];
      assert longer[..|longer| - 1] == entries;
    }
  }

  lemma {:induction false} CrashStays(items: seq<Value>, i: nat, ctx: Context)
    requires i <= |items| && !AllBuilt(Kept(Entries(items[..i], ctx), Clashing(ctx)))
    ensures !AllBuilt(Kept(Entries(items, ctx), Clashing(ctx)))
    decreases |items| - i
  {
    if i == |items| {
      assert items[..i] == items;
    } else {
      EntriesStep(items, i, ctx);
      var kept := Kept(Entries(items[..i], ctx), Clashing(ctx));
      var k :| 0 <= k < |kept| && kept[k].built.None?;
      assert Kept(Entries(items[..i + 1], ctx), Clashing(ctx))[k] == kept[k];
      CrashStays(items, i + 1, ctx);
    }
  }

  // ---------------------------------------------------------------- fixpoint

  /** A validated question as the raw object it is stored and served as. */
  function Dump(m: Mcq): Value {
    Mapping(map["id" := Text(m.id), "question" := Text(m.question), "options" := DumpOptions(m.options),
                "correct_answer" := Text(m.correct), "explanation" := Text(m.explanation),
                "concept_id" := Text(m.concept), "level" := Whole(m.level), "question_type" := Text(m.kind)], "")
  }

  function DumpOptions(o: Choices): Value {
    Mapping(map["A" := Text(o.a), "B" := Text(o.b), "C" := Text(o.c), "D" := Text(o.d)], "")
  }

  /** What every validated question satisfies. */
  predicate Settled(m: Mcq, ctx: Context) {
    && m.id != "" && m.question != "" && Stripped(m.question)
    && StrippedOptions(m.options) && GoodOptions(m.options)
    && m.correct in LETTERS
    && Stripped(m.explanation) && |m.explanation| >= 20
    && (m.concept in ctx.concepts || m.concept == ctx.fallback)
    && 1 <= m.level <= 5 && (m.kind == "concept" || m.kind == "application")
  }

  predicate StrippedOptions(o: Choices) {
    Stripped(o.a) && Stripped(o.b) && Stripped(o.c) && Stripped(o.d)
  }

  lemma {:induction false} OptionsStripped(fields: Fields)
    ensures StrippedOptions(Options(fields))
  {
    TrimmedStripped(fields, "A");
    TrimmedStripped(fields, "B");
    TrimmedStripped(fields, "C");
    TrimmedStripped(fields, "D");
  }

  lemma {:induction false} StandInSettled(correct: string)
    requires |correct| == 1
    ensures var s := ANSWER_IS + correct + "."; Stripped(s) && |s| == 24
  {
    var s := ANSWER_IS + correct + ".";
    assert s[0] == 'T' && s[23] == '.';
  }

  lemma {:induction false} ExplanationSettled(given: string, correct: string)
    requires |correct| == 1 && Stripped(given)
    ensures Stripped(Explanation(given, correct)) && |Explanation(given, correct)| >= 20
  {
    StandInSettled(correct);
  }

  lemma {:induction false} CheckSettles(id: Value, text: string, options: Option<Choices>, letter: string,
                                        explanation: string,
                                        concept: string, level: Option<int>, kind: Option<string>, ctx: Context)
    requires id.Text? ==> id.text != ""
    requires Stripped(text) && (options.Some? ==> StrippedOptions(options.value))
    requires letter in LETTERS ==> Stripped(explanation) && |explanation| >= 20
    requires concept in ctx.concepts || concept == ctx.fallback
    requires level.Some? ==> 1 <= level.value <= 5
    requires kind.Some? ==> kind.value == "concept" || kind.value == "application"
    ensures match Check(id, text, options, letter, explanation, concept, level, kind)
            case Some(e) => SettledEntry(e, ctx)
            case None => true
  {
  }

  lemma {:induction false} FieldsSettle(q: Fields)
    ensures Stripped(QuestionText(q))
    ensures OptionsOf(q).Some? ==> StrippedOptions(OptionsOf(q).value)
    ensures Letter(q) in LETTERS ==> Stripped(ExplanationOf(q, Letter(q))) && |ExplanationOf(q, Letter(q))| >= 20
  {
    TrimmedStripped(q, "question");
    TrimmedStripped(q, "explanation");
    if OptionsOf(q).Some? {
      OptionsStripped(Get(q, "options", Mapping(map[], "{}")).fields);
    }
    if Letter(q) in LETTERS {
      ExplanationSettled(Trimmed(q, "explanation"), Letter(q));
    }
  }

  lemma {:induction false} ScreenSettles(item: Value, position: nat, ctx: Context)
    ensures match Screen(item, position, ctx)
            case Some(e) => SettledEntry(e, ctx)
            case None => true
  {
    if item.Mapping? {
      var q := item.fields;
      FieldsSettle(q);
      CheckSettles(EnsuredId(q, position, ctx), QuestionText(q), OptionsOf(q), Letter(q), ExplanationOf(q, Letter(q)),
                   Concept(q, ctx), Level(q, ctx), Kind(q), ctx);
    }
  }

  predicate SettledEntry(e: Entry, ctx: Context) {
    e.built.Some? ==> e.built.value.question == e.text && Settled(e.built.value, ctx)
  }

  lemma {:induction false} EntriesSettle(items: seq<Value>, ctx: Context)
    ensures forall e | e in Entries(items, ctx) :: SettledEntry(e, ctx)
  {
    if items != [] {
      var n := |items| - 1;
      EntriesSettle(items[..n], ctx);
      ScreenSettles(items[n], n, ctx);
    }
  }

  /** Any two of the questions share at most 70% of their keywords. */
  predicate Distinct(ms: seq<Mcq>, ctx: Context) {
    forall i, j | 0 <= i < j < |ms| :: !Similar(ctx.tokens(ms[j].question), ctx.tokens(ms[i].question))
  }

  predicate AllSettled(ms: seq<Mcq>, ctx: Context) {
    forall i | 0 <= i < |ms| :: Settled(ms[i], ctx)
  }

  lemma {:induction false} BuiltSettled(kept: seq<Entry>, ctx: Context)
    requires AllBuilt(kept) && (forall e | e in kept :: SettledEntry(e, ctx)) && Pairwise(kept, Clashing(ctx))
    ensures AllSettled(Built(kept), ctx) && Distinct(Built(kept), ctx)
  {
    var ms := Built(kept);
    forall i | 0 <= i < |ms| ensures Settled(ms[i], ctx) && ms[i].question == kept[i].text {
      assert kept[i] in kept && SettledEntry(kept[i], ctx);
    }
    forall i, j | 0 <= i < j < |ms| ensures !Similar(ctx.tokens(ms[j].question), ctx.tokens(ms[i].question)) {
      assert !Clashing(ctx)(kept[j], kept[i]);
    }
  }

  lemma {:induction false} JudgedSettled(items: seq<Value>, ctx: Context)
    requires Judge(Kept(Entries(items, ctx), Clashing(ctx))).Validated?
    ensures var ms := Judge(Kept(Entries(items, ctx), Clashing(ctx))).items;
            ms != [] && AllSettled(ms, ctx) && Distinct(ms, ctx)
  {
    EntriesSettle(items, ctx);
    KeptPairwise(Entries(items, ctx), Clashing(ctx));
    BuiltSettled(Kept(Entries(items, ctx), Clashing(ctx)), ctx);
  }

  /** Everything a validated list promises, whatever the response was. */
  lemma {:induction false} ValidatedIsSettled(raw: Fields, ctx: Context)
    ensures match Validate(raw, ctx)
            case Validated(ms) => ms != [] && AllSettled(ms, ctx) && Distinct(ms, ctx)
            case _ => true
  {
    if Validate(raw, ctx).Validated? {
      JudgedSettled(Get(raw, "questions", Listing([], "[]")).items, ctx);
    }
  }

  function Dumps(ms: seq<Mcq>): seq<Value> {
    seq(|ms|, i requires 0 <= i < |ms| => Dump(ms[i]))
  }

  lemma {:induction false} TrimmedFixed(q: Fields, letter: string, t: string)
    requires letter in q && q[letter] == Text(t) && Stripped(t)
    ensures Trimmed(q, letter) == t
  {
    StripOfStripped(t);
  }

  lemma {:induction false} ChoicesFixed(o: Choices, q: Fields)
    requires StrippedOptions(o)
    requires "A" in q && q["A"] == Text(o.a) && "B" in q && q["B"] == Text(o.b)
    requires "C" in q && q["C"] == Text(o.c) && "D" in q && q["D"] == Text(o.d)
    ensures Options(q) == o
  {
    TrimmedFixed(q, "A", o.a);
    TrimmedFixed(q, "B", o.b);
    TrimmedFixed(q, "C", o.c);
    TrimmedFixed(q, "D", o.d);
  }

  /** The raw object q holds the fields of m. */
  predicate Holds(q: Fields, m: Mcq) {
    && "id" in q && q["id"] == Text(m.id)
    && "question" in q && q["question"] == Text(m.question)
    && "options" in q && q["options"] == DumpOptions(m.options)
    && "correct_answer" in q && q["correct_answer"] == Text(m.correct)
    && "explanation" in q && q["explanation"] == Text(m.explanation)
    && "concept_id" in q && q["concept_id"] == Text(m.concept)
    && "level" in q && q["level"] == Whole(m.level)
    && "question_type" in q && q["question_type"] == Text(m.kind)
  }

  lemma {:induction false} DumpHolds(m: Mcq)
    ensures Holds(Dump(m).fields, m)
  {
  }

  lemma {:induction false} QuestionReread(q: Fields, question: string)
    requires "question" in q && q["question"] == Text(question) && Stripped(question)
    ensures QuestionText(q) == question
  {
    TrimmedFixed(q, "question", question);
  }

  lemma {:induction false} LongEnough(given: string, letter: string)
    requires |given| >= 20
    ensures Explanation(given, letter) == given
  {
  }

  lemma {:induction false} ExplanationReread(q: Fields, explanation: string, letter: string)
    requires "explanation" in q && q["explanation"] == Text(explanation) && Stripped(explanation) && |explanation| >= 20
    ensures ExplanationOf(q, letter) == explanation
  {
    TrimmedFixed(q, "explanation", explanation);
    LongEnough(explanation, letter);
  }

  lemma {:induction false} OptionsReread(q: Fields, m: Mcq)
    requires Holds(q, m) && StrippedOptions(m.options)
    ensures OptionsOf(q) == Some(m.options)
  {
    ChoicesFixed(m.options, DumpOptions(m.options).fields);
  }

  lemma {:induction false} CoercionsReread(q: Fields, m: Mcq, position: nat, ctx: Context)
    requires Holds(q, m) && Settled(m, ctx)
    ensures EnsuredId(q, position, ctx) == Text(m.id) && Letter(q) == m.correct
    ensures Concept(q, ctx) == m.concept && Level(q, ctx) == Some(m.level) && Kind(q) == Some(m.kind)
  {
  }

  /** Screening a settled question again gives it back, in any position. */
  lemma {:induction false} RescreenedFields(q: Fields, m: Mcq, position: nat, ctx: Context)
    requires Settled(m, ctx) && Holds(q, m)
    ensures ScreenFields(q, position, ctx) == Some(Entry(m.question, Some(m)))
  {
    QuestionReread(q, m.question);
    ExplanationReread(q, m.explanation, m.correct);
    OptionsReread(q, m);
    CoercionsReread(q, m, position, ctx);
  }

  /** A response whose questions are the validated ones, as they are stored and served. */
  predicate Restates(items: seq<Value>, ms: seq<Mcq>) {
    |items| == |ms| && forall i | 0 <= i < |ms| :: items[i].Mapping? && Holds(items[i].fields, ms[i])
  }

  lemma {:induction false} DumpsRestate(ms: seq<Mcq>)
    ensures Restates(Dumps(ms), ms)
  {
    forall i | 0 <= i < |ms| ensures Holds(Dump(ms[i]).fields, ms[i]) {
      DumpHolds(ms[i]);
    }
  }

  function Echo(ms: seq<Mcq>): seq<Entry> {
    seq(|ms|, i requires 0 <= i < |ms| => Entry(ms[i].question, Some(ms[i])))
  }

  lemma {:induction false} RestatesInit(items: seq<Value>, ms: seq<Mcq>, ctx: Context)
    requires AllSettled(ms, ctx) && Restates(items, ms) && ms != []
    ensures var n := |ms| - 1; Restates(items[..n], ms[..n]) && AllSettled(ms[..n], ctx)
    ensures var n := |ms| - 1; items[n].Mapping? && Holds(items[n].fields, ms[n]) && Settled(ms[n], ctx)
  {
  }

  lemma {:induction false} EntriesSnoc(items: seq<Value>, e: Entry, ctx: Context)
    requires items != [] && Screen(items[|items| - 1], |items| - 1, ctx) == Some(e)
    ensures Entries(items, ctx) == Entries(items[..|items| - 1], ctx) + [e]
  {
  }

  lemma {:induction false} RescreenedAll(items: seq<Value>, ms: seq<Mcq>, ctx: Context)
    requires AllSettled(ms, ctx) && Restates(items, ms)
    ensures Entries(items, ctx) == Echo(ms)
  {
    if ms != [] {
      var n := |ms| - 1;
      RestatesInit(items, ms, ctx);
      RescreenedAll(items[..n], ms[..n], ctx);
      RescreenedFields(items[n].fields, ms[n], n, ctx);
      EntriesSnoc(items, Entry(ms[n].question, Some(ms[n])), ctx);
      EchoSnoc(ms);
    }
  }

  lemma {:induction false} EchoSnoc(ms: seq<Mcq>)
    requires ms != []
    ensures var n := |ms| - 1; Echo(ms) == Echo(ms[..n]) + [Entry(ms[n].question, Some(ms[n]))]
  {
  }

  lemma {:induction false} EchoJudged(ms: seq<Mcq>, ctx: Context)
    requires ms != [] && Distinct(ms, ctx)
    ensures Judge(Kept(Echo(ms), Clashing(ctx))) == Validated(ms)
  {
    var entries := Echo(ms);
    assert Pairwise(entries, Clashing(ctx));
    KeptAll(entries, Clashing(ctx));
    assert Built(entries) == ms;
  }

  /** A response that restates what validating another one returned. */
  predicate Repeats(again: Fields, ms: seq<Mcq>) {
    "questions" in again && again["questions"].Listing? && Restates(again["questions"].items, ms)
  }

  lemma {:induction false} SettledElsewhere(ms: seq<Mcq>, ctx: Context, other: Context)
    requires SameConcepts(ctx, other) && AllSettled(ms, ctx) && Distinct(ms, ctx)
    ensures AllSettled(ms, other) && Distinct(ms, other)
  {
    forall i | 0 <= i < |ms| ensures Settled(ms[i], other) {
      assert Settled(ms[i], ctx);
    }
  }

  /**
   * Feeding validated questions back in returns the same list, also in a pass that would choose another
   * of the same concepts for a question without one.
   */
  lemma {:induction false} ValidationIsFixpoint(raw: Fields, ctx: Context, again: Fields, other: Context)
    requires SameConcepts(ctx, other)
    ensures match Validate(raw, ctx)
            case Validated(ms) => Repeats(again, ms) ==> Validate(again, other) == Validated(ms)
            case _ => true
  {
    ValidatedIsSettled(raw, ctx);
    match Validate(raw, ctx)
    case Validated(ms) =>
      if Repeats(again, ms) {
        SettledElsewhere(ms, ctx, other);
        RescreenedAll(again["questions"].items, ms, other);
        EchoJudged(ms, other);
      }
    case _ =>
  }

  /**
   * The validated questions are an ordered subsequence of the well-formed ones: any two of them apart,
   * and every one left out too similar to an earlier one that was kept.
   */
  lemma {:induction false} ValidatedIsGreedy(raw: Fields, ctx: Context) returns (ix: seq<nat>)
    ensures match Validate(raw, ctx)
            case Validated(ms) => Selects(WellFormed(raw, ctx), ix, ms, ctx)
            case _ => true
  {
    var entries := WellFormed(raw, ctx);
    ix := KeptIsGreedy(entries, Clashing(ctx));
    if Validate(raw, ctx).Validated? {
      PickedBuilt(entries, ix);
    }
  }

  /** The questions of a response that pass every check but the near-duplicate one. */
  function WellFormed(raw: Fields, ctx: Context): seq<Entry> {
    var questions := Get(raw, "questions", Listing([], "[]"));
    if questions.Listing? then Entries(questions.items, ctx) else []
  }

  predicate Selects(entries: seq<Entry>, ix: seq<nat>, ms: seq<Mcq>, ctx: Context) {
    && Greedy(entries, ix, Clashing(ctx)) && |ix| == |ms|
    && forall k | 0 <= k < |ix| :: entries[ix[k]].built == Some(ms[k])
  }

  lemma {:induction false} PickedBuilt(entries: seq<Entry>, ix: seq<nat>)
    requires Positions(ix, |entries|) && AllBuilt(Pick(entries, ix))
    ensures |Built(Pick(entries, ix))| == |ix|
    ensures forall k | 0 <= k < |ix| :: entries[ix[k]].built == Some(Built(Pick(entries, ix))[k])
  {
    var picked := Pick(entries, ix);
    forall k | 0 <= k < |ix| ensures entries[ix[k]].built == Some(Built(picked)[k]) {
      assert picked[k] == entries[ix[k]];
    }
  }
}
