/** The brace-counting scanner of recover_partial_questions, and what it finds in any text. */
module JsonScan {
  import opened Wrappers
  import opened PyText

  const QUESTIONS_KEY := "\"questions\""

  // ------------------------------------------------------ the depth of a text

  function Delta(c: char): int {
    if c == '{' then 1 else if c == '}' then -1 else 0
  }

  /** Opening braces minus closing braces. */
  function Depth(t: string): int {
    if t == "" then 0 else Depth(t[..|t| - 1]) + Delta(t[|t| - 1])
  }

  predicate NoBrace(t: string) {
    forall i | 0 <= i < |t| :: t[i] != '{' && t[i] != '}'
  }

  lemma {:induction false} DepthAppend(t: string, u: string)
    ensures Depth(t + u) == Depth(t) + Depth(u)
  {
    if u == "" {
      assert t + u == t;
    } else {
      assert (t + u)[..|t + u| - 1] == t + u[..|u| - 1];
      DepthAppend(t, u[..|u| - 1]);
    }
  }

  lemma {:induction false} DepthNoBrace(t: string)
    requires NoBrace(t)
    ensures Depth(t) == 0
  {
    if t != "" {
      DepthNoBrace(t[..|t| - 1]);
    }
  }

  // ------------------------------------------------ which spans are questions

  datatype Span = Span(from: nat, to: nat)

  /** A span the depth walk closes: it opens at depth zero, stays above zero inside and returns to zero. */
  predicate Closed(t: string, s: Span) {
    && s.from < s.to <= |t|
    && t[s.from] == '{'
    && Depth(t[..s.from]) == 0
    && Depth(t[..s.to]) == 0
    && forall k | s.from < k < s.to :: Depth(t[..k]) > 0
  }

  predicate Increasing(spans: seq<Span>) {
    forall i, j | 0 <= i < j < |spans| :: spans[i].to <= spans[j].from
  }

  // ---------------------------------------------------------- the scanner

  datatype State = State(depth: int, start: Option<nat>, spans: seq<Span>)

  /** One turn of the source's loop, for the character at index i. */
  function Step(st: State, i: nat, c: char): State {
    if c == '{' then
      State(st.depth + 1, if st.depth == 0 then Some(i) else st.start, st.spans)
    else if c == '}' then
      if st.depth - 1 == 0 && st.start.Some? then
        State(0, None, st.spans + [Span(st.start.value, i + 1)])
      else
        st.(depth := st.depth - 1)
    else st
  }

  function Scan(t: string): State {
    if t == "" then State(0, None, [])
    else Step(Scan(t[..|t| - 1]), |t| - 1, t[|t| - 1])
  }

  /** What the walk knows: the current depth and, above zero, where it left zero. */
  predicate Tracks(t: string, st: State) {
    && st.depth == Depth(t)
    && (st.depth <= 0 ==> st.start.None?)
    && (st.depth > 0 ==>
          && st.start.Some?
          && st.start.value < |t|
          && t[st.start.value] == '{'
          && Depth(t[..st.start.value]) == 0
          && forall k | st.start.value < k <= |t| :: Depth(t[..k]) > 0)
  }

  lemma {:induction false} ScanTracks(t: string)
    ensures Tracks(t, Scan(t))
  {
    if t != "" {
      var n := |t| - 1;
      var u := t[..n];
      ScanTracks(u);
      var st := Scan(u);
      forall k | 0 <= k <= n ensures t[..k] == u[..k] { }
      assert t[..|t|] == t;
      if t[n] == '{' && st.depth < 0 {
        assert Scan(t).start.None?;
      }
    }
  }

  lemma {:induction false} ClosedPrefix(t: string, n: nat, s: Span)
    requires n <= |t| && s.to <= n
    ensures Closed(t, s) <==> Closed(t[..n], s)
  {
    forall k | 0 <= k <= n ensures t[..n][..k] == t[..k] { }
  }

  /** Closed spans never overlap. */
  lemma {:induction false} ClosedDisjoint(t: string, a: Span, b: Span)
    requires Closed(t, a) && Closed(t, b)
    ensures a == b || a.to <= b.from || b.to <= a.from
  {
    var lo, hi := if a.from <= b.from then a else b, if a.from <= b.from then b else a;
    assert !(lo.from < hi.from < lo.to);
    assert lo.from == hi.from ==> !(lo.from < hi.to < lo.to) && !(hi.from < lo.to < hi.to);
  }

  lemma {:induction false} OpenInside(t: string, s: Span)
    requires t != "" && s.to == |t|
    ensures Closed(t, s) ==> Depth(t[..|t| - 1]) == 1 && t[|t| - 1] == '}'
  {
    assert t[..|t|] == t;
    if Closed(t, s) {
      var m := |t| - 1;
      assert s.from < m ==> Depth(t[..m]) > 0;
    }
  }

  /** The only span that can close at the end of t is the one the walk has open there. */
  lemma {:induction false} ClosesAtEnd(t: string, s: Span)
    requires t != "" && s.to == |t|
    ensures var st := Scan(t[..|t| - 1]);
            Closed(t, s) <==> t[|t| - 1] == '}' && st.depth == 1 && st.start == Some(s.from)
  {
    var n := |t| - 1;
    var u := t[..n];
    var st := Scan(u);
    ScanTracks(u);
    assert t[..|t|] == t;
    forall k | 0 <= k <= n ensures t[..k] == u[..k] { }
    assert Depth(t) == st.depth + Delta(t[n]);
    if t[n] == '}' && st.depth == 1 {
      var w := Span(st.start.value, |t|);
      assert Closed(t, w);
      if Closed(t, s) {
        ClosedDisjoint(t, s, w);
      }
    } else {
      OpenInside(t, s);
    }
  }

  /**
   * Soundness and completeness on arbitrary text, also after the depth has gone negative:
   * the scanner records exactly the closed spans.
   */
  lemma {:induction false} ScanExact(t: string)
    ensures forall s: Span :: s in Scan(t).spans <==> Closed(t, s)
  {
    if t != "" {
      var n := |t| - 1;
      ScanExact(t[..n]);
      ScanTracks(t[..n]);
      forall s: Span ensures s in Scan(t).spans <==> Closed(t, s) {
        if s.to <= n {
          ClosedPrefix(t, n, s);
        } else if s.to == |t| {
          ClosesAtEnd(t, s);
        }
      }
    }
  }

  /** The spans are disjoint and recorded from left to right, and each ends in a closing brace. */
  lemma {:induction false} ScanIncreasing(t: string)
    ensures Increasing(Scan(t).spans)
    ensures forall s: Span | s in Scan(t).spans :: 0 < s.to <= |t| && t[s.to - 1] == '}'
  {
    if t != "" {
      var n := |t| - 1;
      var old_, new_ := Scan(t[..n]).spans, Scan(t).spans;
      ScanIncreasing(t[..n]);
      ScanExact(t);
      if new_ != old_ {
        var w := new_[|old_|];
        assert w in new_;
        forall s | s in old_ ensures s.to <= w.from {
          assert s in new_;
          ClosedDisjoint(t, s, w);
        }
      }
    }
  }

  /** A longer text only ever appends spans. */
  lemma {:induction false} ScanMonotone(t: string, n: nat)
    requires n <= |t|
    ensures Scan(t[..n]).spans <= Scan(t).spans
  {
    if n < |t| {
      assert t[..|t| - 1][..n] == t[..n];
      ScanMonotone(t[..|t| - 1], n);
    } else {
      assert t[..n] == t;
    }
  }

  lemma {:induction false} ScanNoBrace(t: string, u: string)
    requires NoBrace(u)
    ensures Scan(t + u) == Scan(t)
  {
    if u == "" {
      assert t + u == t;
    } else {
      assert (t + u)[..|t + u| - 1] == t + u[..|u| - 1];
      ScanNoBrace(t, u[..|u| - 1]);
    }
  }

  // ------------------------------------------------- parsing what was found

  function Text(t: string, s: Span): string {
    if s.from <= s.to <= |t| then t[s.from..s.to] else ""
  }

  function Texts(t: string, spans: seq<Span>): seq<string> {
    if spans == [] then [] else Texts(t, spans[..|spans| - 1]) + [Text(t, spans[|spans| - 1])]
  }

  function Decoded<J>(r: Option<J>): seq<J> {
    match r
    case Some(v) => [v]
    case None => []
  }

  /** json.loads on each slice; a slice that does not decode is dropped. */
  function ParseAll<J>(slices: seq<string>, loads: string -> Option<J>): seq<J> {
    if slices == [] then []
    else ParseAll(slices[..|slices| - 1], loads) + Decoded(loads(slices[|slices| - 1]))
  }

  /** A slice that fails to parse never disturbs its neighbours. */
  lemma {:induction false} ParseAllAppend<J>(xs: seq<string>, ys: seq<string>, loads: string -> Option<J>)
    ensures ParseAll(xs + ys, loads) == ParseAll(xs, loads) + ParseAll(ys, loads)
  {
    if ys == [] {
      assert xs + ys == xs;
    } else {
      assert (xs + ys)[..|xs + ys| - 1] == xs + ys[..|ys| - 1];
      ParseAllAppend(xs, ys[..|ys| - 1], loads);
    }
  }

  function Slices(t: string): seq<string> {
    Texts(t, Scan(t).spans)
  }

  /** Where the scan starts: the first bracket after the first "questions" key, or -1. */
  function ArrayStart(text: string): (a: int)
    ensures a == -1 || (0 <= a < |text| && text[a] == '[')
  {
    Find(text, "[", Find(text, QUESTIONS_KEY, 0))
  }

  function Recovered<J>(text: string, loads: string -> Option<J>): Option<seq<J>> {
    var a := ArrayStart(text);
    if a == -1 then None
    else
      var questions := ParseAll(Slices(text[a..]), loads);
      if questions == [] then None else Some(questions)
  }

  lemma {:induction false} TextsExtend(t: string, u: string, spans: seq<Span>)
    requires t <= u
    requires forall s | s in spans :: s.from <= s.to <= |t|
    ensures Texts(t, spans) == Texts(u, spans)
  {
    if spans != [] {
      var s := spans[|spans| - 1];
      TextsExtend(t, u, spans[..|spans| - 1]);
      assert t[s.from..s.to] == u[s.from..s.to];
    }
  }

  lemma {:induction false} TextsTake(t: string, spans: seq<Span>, n: nat)
    requires n <= |spans|
    ensures Texts(t, spans[..n]) <= Texts(t, spans)
  {
    if n == |spans| {
      assert spans[..n] == spans;
    } else {
      var m := |spans| - 1;
      assert spans[..m][..n] == spans[..n];
      TextsTake(t, spans[..m], n);
    }
  }

  predicate InBounds(t: string, st: State) {
    && (st.start.Some? ==> st.start.value < |t|)
    && forall s | s in st.spans :: s.from <= s.to <= |t|
  }

  lemma {:induction false} ScanInBounds(t: string)
    ensures InBounds(t, Scan(t))
  {
    ScanTracks(t);
    ScanExact(t);
  }

  /** A longer response never yields fewer slices, and keeps those it had. */
  lemma {:induction false} SlicesMonotone(t: string, n: nat)
    requires n <= |t|
    ensures Slices(t[..n]) <= Slices(t)
  {
    ScanMonotone(t, n);
    ScanInBounds(t[..n]);
    var xs, ys := Scan(t[..n]).spans, Scan(t).spans;
    TextsExtend(t[..n], t, xs);
    assert ys[..|xs|] == xs;
    TextsTake(t, ys, |xs|);
  }

  predicate Closes(st: State, c: char) {
    c == '}' && st.depth == 1 && st.start.Some?
  }

  lemma {:induction false} TextsSnoc(t: string, spans: seq<Span>, w: Span)
    ensures Texts(t, spans + [w]) == Texts(t, spans) + [Text(t, w)]
  {
    assert (spans + [w])[..|spans|] == spans;
  }

  lemma {:induction false} TextToEnd(t: string, a: nat)
    requires a <= |t|
    ensures Text(t, Span(a, |t|)) == t[a..]
  {
  }

  /** One more character adds a slice exactly when it closes the object opened last. */
  lemma {:induction false} TextsStep(t: string, u: string, c: char, st: State)
    requires InBounds(t, st) && u == t + [c]
    ensures Closes(st, c) ==> Texts(u, Step(st, |t|, c).spans) == Texts(t, st.spans) + [u[st.start.value..]]
    ensures !Closes(st, c) ==> Texts(u, Step(st, |t|, c).spans) == Texts(t, st.spans)
  {
    TextsExtend(t, u, st.spans);
    if Closes(st, c) {
      TextsSnoc(u, st.spans, Span(st.start.value, |u|));
      TextToEnd(u, st.start.value);
    } else {
      assert Step(st, |t|, c).spans == st.spans;
    }
  }

  lemma {:induction false} ScanStep(t: string, c: char)
    ensures Scan(t + [c]) == Step(Scan(t), |t|, c)
  {
    assert (t + [c])[..|t + [c]| - 1] == t;
  }

  /** What one more character does to the scan of a window that begins at index a. */
  lemma {:induction false} LoopTurn<J>(text: string, a: nat, i: nat, loads: string -> Option<J>)
    requires a <= i < |text|
    ensures var st := Scan(text[a..i]);
            && Scan(text[a..i + 1]) == Step(st, i - a, text[i])
            && (st.start.Some? ==> a + st.start.value < i)
    ensures !Closes(Scan(text[a..i]), text[i]) ==>
              ParseAll(Slices(text[a..i + 1]), loads) == ParseAll(Slices(text[a..i]), loads)
    ensures Closes(Scan(text[a..i]), text[i]) ==>
              ParseAll(Slices(text[a..i + 1]), loads) ==
              ParseAll(Slices(text[a..i]), loads) + Decoded(loads(text[a + Scan(text[a..i]).start.value..i + 1]))
  {
    var t, c := text[a..i], text[i];
    var st := Scan(t);
    assert text[a..i + 1] == t + [c];
    ScanStep(t, c);
    ScanInBounds(t);
    TextsStep(t, text[a..i + 1], c, st);
    if Closes(st, c) {
      var slice := text[a + st.start.value..i + 1];
      assert text[a..i + 1][st.start.value..] == slice;
      assert (Slices(t) + [slice])[..|Slices(t)|] == Slices(t);
    }
  }

  /** The three variables of the loop. */
  datatype Vars<J> = Vars(depth: int, objStart: Option<nat>, questions: seq<J>)

  function Turn<J>(v: Vars<J>, text: string, i: nat, loads: string -> Option<J>): (w: Vars<J>)
    requires i < |text| && (v.objStart.Some? ==> v.objStart.value <= i)
    ensures w.objStart.Some? ==> w.objStart.value <= i
  {
    if text[i] == '{' then
      Vars(v.depth + 1, if v.depth == 0 then Some(i) else v.objStart, v.questions)
    else if text[i] == '}' && v.depth - 1 == 0 && v.objStart.Some? then
      Vars(0, None, v.questions + Decoded(loads(text[v.objStart.value..i + 1])))
    else
      Vars(v.depth + Delta(text[i]), v.objStart, v.questions)
  }

  /** The loop variables when the scan that began at index a has reached index i. */
  function VarsAt<J>(text: string, a: nat, i: nat, loads: string -> Option<J>): (v: Vars<J>)
    requires a <= i <= |text|
    ensures v.objStart.Some? ==> v.objStart.value < i
  {
    if i == a then Vars(0, None, []) else Turn(VarsAt(text, a, i - 1, loads), text, i - 1, loads)
  }

  function Shift(start: Option<nat>, a: nat): Option<nat> {
    match start
    case None => None
    case Some(n) => Some(a + n)
  }

  /** One turn of the loop variables mirrors one step of the scan. */
  lemma {:induction false} TurnMirrorsStep<J>(v: Vars<J>, st: State, text: string, a: nat, i: nat,
                                              loads: string -> Option<J>)
    requires a <= i < |text| && (st.start.Some? ==> a + st.start.value < i)
    requires v.depth == st.depth && v.objStart == Shift(st.start, a)
    ensures var w, st' := Turn(v, text, i, loads), Step(st, i - a, text[i]);
            w.depth == st'.depth && w.objStart == Shift(st'.start, a)
    ensures !Closes(st, text[i]) ==> Turn(v, text, i, loads).questions == v.questions
    ensures Closes(st, text[i]) ==>
              Turn(v, text, i, loads).questions == v.questions + Decoded(loads(text[a + st.start.value..i + 1]))
  {
  }

  /** The loop computes what the specification scans: the same depth, start and parsed slices. */
  lemma {:induction false} VarsAtScan<J>(text: string, a: nat, i: nat, loads: string -> Option<J>)
    requires a <= i <= |text|
    ensures VarsAt(text, a, i, loads).depth == Scan(text[a..i]).depth
    ensures VarsAt(text, a, i, loads).objStart == Shift(Scan(text[a..i]).start, a)
    ensures VarsAt(text, a, i, loads).questions == ParseAll(Slices(text[a..i]), loads)
  {
    if i == a {
      assert text[a..i] == "";
    } else {
      var k := i - 1;
      var st := Scan(text[a..k]);
      VarsAtScan(text, a, k, loads);
      LoopTurn(text, a, k, loads);
      TurnMirrorsStep(VarsAt(text, a, k, loads), st, text, a, k, loads);
      assert VarsAt(text, a, i, loads) == Turn(VarsAt(text, a, k, loads), text, k, loads);
      assert Scan(text[a..i]) == Step(st, k - a, text[k]);
      if Closes(st, text[k]) {
        assert VarsAt(text, a, i, loads).questions == ParseAll(Slices(text[a..i]), loads);
      }
    }
  }

  lemma {:induction false} LoopResult<J>(text: string, a: nat, loads: string -> Option<J>)
    requires a == ArrayStart(text) && a <= |text|
    ensures var questions := VarsAt(text, a, |text|, loads).questions;
            Recovered(text, loads) == if questions == [] then None else Some(questions)
  {
    VarsAtScan(text, a, |text|, loads);
    assert text[a..|text|] == text[a..];
  }

  /** recover_partial_questions: the loop over the characters from the bracket on. */
  method RecoverPartialQuestions<J>(text: string, loads: string -> Option<J>) returns (r: Option<seq<J>>)
    ensures r == Recovered(text, loads)
  {
    var arrayStart := ArrayStart(text);
    if arrayStart == -1 {
      return None;
    }
    var questions: seq<J> := [];
    var depth := 0;
    var objStart: Option<nat> := None;
    for i := arrayStart to |text|
      invariant Vars(depth, objStart, questions) == VarsAt(text, arrayStart, i, loads)
    {
      var c := text[i];
      if c == '{' {
        if depth == 0 {
          objStart := Some(i);
        }
        depth := depth + 1;
      } else if c == '}' {
        depth := depth - 1;
        if depth == 0 && objStart.Some? {
          match loads(text[objStart.value..i + 1]) {
            case Some(v) => questions := questions + [v];
            case None =>
          }
          objStart := None;
        }
      }
    }
    LoopResult(text, arrayStart, loads);
    r := if questions != [] then Some(questions) else None;
  }
}
