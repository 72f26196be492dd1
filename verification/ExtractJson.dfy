/** extract_json: markdown fences, json.loads, and recovery when the response was cut short. */
module ExtractJson {
  import opened Wrappers
  import opened PyText
  import opened JsonScan
  import opened Truncation

  const FENCE := "```"

  datatype Extracted<J> =
    | Loaded(value: J)
    | Questions(items: seq<J>)
    | GenerationError

  predicate ClosesFence(line: string) {
    Strip(line) == FENCE
  }

  function WithoutClosing(lines: seq<string>): seq<string>
    requires lines != []
  {
    if ClosesFence(lines[|lines| - 1]) then lines[..|lines| - 1] else lines
  }

  /** lines[start:end] joined again: without the opening fence line and a closing one. */
  function Undress(lines: seq<string>): string
    requires lines != []
  {
    var start := if FENCE <= lines[0] then 1 else 0;
    var end := if ClosesFence(lines[|lines| - 1]) then |lines| - 1 else |lines|;
    if start <= end then Join(lines[start..end], "\n") else ""
  }

  /** The text handed to json.loads: stripped, without its fence lines. */
  function Unfence(raw: string): string {
    var text := Strip(raw);
    if FENCE <= text then Undress(Split(text, "\n")) else text
  }

  /** json.loads raises JSONDecodeError exactly when loads is None. */
  function Extract<J>(raw: string, loads: string -> Option<J>): Extracted<J> {
    var text := Unfence(raw);
    match loads(text)
    case Some(v) => Loaded(v)
    case None =>
      match Recovered(text, loads)
      case Some(questions) => Questions(questions)
      case None => GenerationError
  }

  method ExtractJson<J>(raw: string, loads: string -> Option<J>) returns (r: Extracted<J>)
    ensures r == Extract(raw, loads)
  {
    var text := Unfence(raw);
    match loads(text) {
      case Some(v) => r := Loaded(v);
      case None =>
        var recovered := RecoverPartialQuestions(text, loads);
        r := match recovered case Some(questions) => Questions(questions) case None => GenerationError;
    }
  }

  // --------------------------------------------------------------- fences

  /** Stripping a fenced text takes away only what surrounds it. */
  lemma {:induction false} StripFenced(before: string, tag: string, x: string, after: string)
    requires AllSpace(before) && AllSpace(after)
    requires x != "" && !IsSpace(x[|x| - 1])
    ensures Strip(before + (FENCE + tag + "\n" + x) + after) == FENCE + tag + "\n" + x
  {
    var text := FENCE + tag + "\n" + x;
    assert text[0] == '`' && text[|text| - 1] == x[|x| - 1];
    StripAround(before, text, after);
  }

  lemma {:induction false} OpeningLine(tag: string, x: string)
    requires Lacks(tag, '\n')
    ensures Split(FENCE + tag + "\n" + x, "\n") == [FENCE + tag] + Split(x, "\n")
  {
    SplitHead(FENCE + tag, '\n', x);
  }

  lemma {:induction false} UndressFenced(first: string, lines: seq<string>)
    requires FENCE <= first && lines != []
    ensures Undress([first] + lines) == Join(WithoutClosing(lines), "\n")
  {
    var all := [first] + lines;
    assert all[|all| - 1] == lines[|lines| - 1];
    assert all[1..|all| - 1] == lines[..|lines| - 1];
    assert all[1..|all|] == lines;
  }

  /** Unfencing a fenced text works on the lines after the opening one. */
  lemma {:induction false} UnfenceFenced(before: string, tag: string, x: string, after: string)
    requires AllSpace(before) && AllSpace(after) && Lacks(tag, '\n')
    requires x != "" && !IsSpace(x[|x| - 1])
    ensures Unfence(before + (FENCE + tag + "\n" + x) + after) == Join(WithoutClosing(Split(x, "\n")), "\n")
  {
    StripFenced(before, tag, x, after);
    OpeningLine(tag, x);
    UndressFenced(FENCE + tag, Split(x, "\n"));
  }

  lemma {:induction false} FenceCloses(inner: seq<string>, indent: string)
    requires AllSpace(indent)
    ensures WithoutClosing(inner + [indent + FENCE]) == inner
  {
    StripAround(indent, FENCE, "");
    assert indent + FENCE + "" == indent + FENCE;
    assert (inner + [indent + FENCE])[..|inner|] == inner;
  }

  lemma {:induction false} FencedPayload(payload: string, indent: string)
    requires Lacks(indent, '\n')
    ensures var x := payload + "\n" + (indent + FENCE);
            x != "" && !IsSpace(x[|x| - 1]) && Split(x, "\n") == Split(payload, "\n") + [indent + FENCE]
  {
    SplitLast(payload, '\n', indent + FENCE);
    var x := payload + "\n" + (indent + FENCE);
    assert x[|x| - 1] == '`';
  }

  /** A complete fence, whatever surrounds it and whatever it holds, gives back exactly its payload. */
  lemma {:induction false} FenceRoundTrip(before: string, tag: string, payload: string, indent: string, after: string)
    requires AllSpace(before) && AllSpace(after) && Lacks(tag, '\n') && AllSpace(indent) && Lacks(indent, '\n')
    ensures Unfence(before + (FENCE + tag + "\n" + (payload + "\n" + (indent + FENCE))) + after) == payload
  {
    FencedPayload(payload, indent);
    UnfenceFenced(before, tag, payload + "\n" + (indent + FENCE), after);
    FenceCloses(Split(payload, "\n"), indent);
    JoinSplit(payload, "\n");
  }

  /** A complete fenced reply gives what json.loads makes of its payload. */
  lemma {:induction false} FencedReplyLoads<J>(before: string, tag: string, payload: string, indent: string,
                                               after: string, loads: string -> Option<J>)
    requires AllSpace(before) && AllSpace(after) && Lacks(tag, '\n') && AllSpace(indent) && Lacks(indent, '\n')
    requires loads(payload).Some?
    ensures Extract(before + (FENCE + tag + "\n" + (payload + "\n" + (indent + FENCE))) + after, loads)
            == Loaded(loads(payload).value)
  {
    FenceRoundTrip(before, tag, payload, indent, after);
  }

  /** So does a complete reply without a fence, whatever whitespace is around it. */
  lemma {:induction false} PlainReplyLoads<J>(before: string, text: string, after: string, loads: string -> Option<J>)
    requires AllSpace(before) && AllSpace(after) && Stripped(text) && !(FENCE <= text) && loads(text).Some?
    ensures Extract(before + text + after, loads) == Loaded(loads(text).value)
  {
    StripAround(before, text, after);
  }

  /** A reply without a fence that is no JSON and names no questions raises. */
  lemma {:induction false} HopelessReplyRaises<J>(before: string, text: string, after: string,
                                                  loads: string -> Option<J>)
    requires AllSpace(before) && AllSpace(after) && Stripped(text) && !(FENCE <= text)
    requires loads(text).None? && !Contains(text, QUESTIONS_KEY)
    ensures Extract(before + text + after, loads) == GenerationError
  {
    StripAround(before, text, after);
    NoKeyNothing(text, loads);
  }

  // ----------------------------------------- a fenced response cut short

  /** Whitespace and backticks: all that stripping or a dangling fence line can take away. */
  predicate Inert(s: string) {
    forall i | 0 <= i < |s| :: IsSpace(s[i]) || s[i] == '`'
  }

  lemma {:induction false} InertStrip(s: string)
    requires Inert(Strip(s))
    ensures Inert(s)
  {
    var m := LStrip(s);
    var t := RStrip(m);
    forall i | 0 <= i < |s| ensures IsSpace(s[i]) || s[i] == '`' {
      var k := |s| - |m|;
      if i < k {
        assert IsSpace(s[..k][i]);
      } else if i - k >= |t| {
        assert IsSpace(m[|t|..][i - k - |t|]);
      } else {
        assert t[i - k] == s[i];
      }
    }
  }

  /** Dropping the last of the lines of x takes away that line and the newline before it. */
  lemma {:induction false} DropLastLine(x: string)
    ensures var lines := Split(x, "\n");
            var n := |lines| - 1;
            |lines| > 1 ==> x == Join(lines[..n], "\n") + "\n" + lines[n]
    ensures var lines := Split(x, "\n");
            |lines| == 1 ==> x == lines[0]
  {
    var lines := Split(x, "\n");
    JoinSplit(x, "\n");
    var n := |lines| - 1;
    if n > 0 {
      JoinAppend(lines[..n], lines[n], "\n");
      assert lines[..n] + [lines[n]] == lines;
    }
  }

  predicate CutOf(text: string, t: string) {
    text <= t && Inert(t[|text|..])
  }

  lemma {:induction false} InertAppend(a: string, b: string)
    requires Inert(a) && Inert(b)
    ensures Inert(a + b)
  {
  }

  lemma {:induction false} CutOfDropped(kept: string, last: string)
    requires Inert(last)
    ensures CutOf(kept + "\n" + last, kept + "\n" + last)
    ensures CutOf(kept, kept + "\n" + last)
  {
    var x := kept + "\n" + last;
    assert x[|x|..] == "";
    assert x[|kept|..] == "\n" + last;
    InertAppend("\n", last);
  }

  lemma {:induction false} ClosingLine(x: string)
    ensures CutOf(Join(WithoutClosing(Split(x, "\n")), "\n"), x)
  {
    var lines := Split(x, "\n");
    var n := |lines| - 1;
    JoinSplit(x, "\n");
    DropLastLine(x);
    if ClosesFence(lines[n]) {
      InertStrip(lines[n]);
      if n > 0 {
        CutOfDropped(Join(lines[..n], "\n"), lines[n]);
      } else {
        assert Join(lines[..n], "\n") == "";
        assert x[0..] == x;
      }
    } else {
      assert x[|x|..] == "";
    }
  }

  lemma {:induction false} CutOfCut(a: string, b: string, c: string)
    requires CutOf(a, b) && CutOf(b, c)
    ensures CutOf(a, c)
  {
    assert c[|a|..] == b[|a|..] + c[|b|..];
    InertAppend(b[|a|..], c[|b|..]);
  }

  /** A fence that opens but may never close loses at most whitespace and backticks at its end. */
  lemma {:induction false} OpenFence(before: string, tag: string, t: string)
    requires AllSpace(before) && Lacks(tag, '\n') && RStrip(t) != ""
    ensures CutOf(Unfence(before + (FENCE + tag + "\n" + t)), t)
  {
    var x := RStrip(t);
    var tail := t[|x|..];
    assert before + (FENCE + tag + "\n" + t) == before + (FENCE + tag + "\n" + x) + tail;
    UnfenceFenced(before, tag, x, tail);
    ClosingLine(x);
    CutOfCut(Unfence(before + (FENCE + tag + "\n" + t)), x, t);
  }

  lemma {:induction false} InertNoBrace(s: string)
    requires Inert(s)
    ensures NoBrace(s) && Lacks(s, '[')
  {
  }

  /** What stripping takes away changes nothing the scanner finds. */
  lemma {:induction false} InertTailIrrelevant<J>(head: string, rest: string, n: nat, loads: string -> Option<J>)
    requires ListHead(head) && n <= |rest| && Inert(rest[n..])
    ensures Recovered(head + "[" + rest[..n], loads) == Recovered(head + "[" + rest, loads)
  {
    HeadWindow(head, rest[..n]);
    HeadWindow(head, rest);
    InertNoBrace(rest[n..]);
    var t := "[" + rest[..n];
    ScanNoBrace(t, rest[n..]);
    assert "[" + rest == t + rest[n..];
    ScanInBounds(t);
    TextsExtend(t, t + rest[n..], Scan(t).spans);
  }

  lemma {:induction false} InertAt(t: string, from: nat, i: nat)
    requires from <= |t| && i < |t| && Inert(t[from..])
    ensures from <= i ==> IsSpace(t[i]) || t[i] == '`'
  {
    if from <= i {
      assert t[from..][i - from] == t[i];
    }
  }

  lemma {:induction false} KeptAfterBracket(head: string, rest: string, text: string)
    requires CutOf(text, head + "[" + rest)
    ensures |text| > |head|
    ensures var n := |text| - |head| - 1;
            n <= |rest| && text == head + "[" + rest[..n] && Inert(rest[n..])
  {
    var t := head + "[" + rest;
    InertAt(t, |text|, |head|);
    var n := |text| - |head| - 1;
    assert t[|text|..] == rest[n..];
  }

  /** A cut list, less some whitespace and backticks at its end, still gives its whole objects. */
  lemma {:induction false} CutTextRecovers<J>(head: string, items: seq<Item>, k: nat, text: string,
                                              loads: string -> Option<J>)
    requires ListHead(head) && PrintedList(items) && 0 < k <= |Body(items)|
    requires CutOf(text, head + Body(items)[..k])
    ensures var whole := ParseAll(Objects(items)[..WholeBefore(items, k)], loads);
            Recovered(text, loads) == if whole == [] then None else Some(whole)
  {
    BodyStarts(items);
    var rest := Body(items)[..k][1..];
    assert head + Body(items)[..k] == head + "[" + rest;
    KeptAfterBracket(head, rest, text);
    InertTailIrrelevant(head, rest, |text| - |head| - 1, loads);
    TruncationRoundTrip(head, items, k, loads);
  }

  /**
   * A fenced question list cut anywhere after its bracket, with the closing fence lost: unless the cut
   * text happens to be JSON, exactly the objects printed whole are recovered.
   */
  lemma {:induction false} FencedCutRecovers<J>(
      before: string, tag: string, head: string, items: seq<Item>, k: nat, loads: string -> Option<J>)
    requires AllSpace(before) && Lacks(tag, '\n')
    requires ListHead(head) && PrintedList(items) && 0 < k <= |Body(items)|
    ensures var raw := before + (FENCE + tag + "\n" + (head + Body(items)[..k]));
            var whole := ParseAll(Objects(items)[..WholeBefore(items, k)], loads);
            loads(Unfence(raw)).None? ==>
              Extract(raw, loads) == if whole == [] then GenerationError else Questions(whole)
  {
    BodyStarts(items);
    var t := head + Body(items)[..k];
    assert t[|head|] == '[';
    NotAllSpace(t, |head|);
    OpenFence(before, tag, t);
    CutTextRecovers(head, items, k, Unfence(before + (FENCE + tag + "\n" + t)), loads);
  }

  /** Without a fence only outer whitespace is taken away. */
  lemma {:induction false} PlainText(before: string, t: string)
    requires AllSpace(before) && t != "" && !IsSpace(t[0]) && !(FENCE <= t)
    ensures CutOf(Unfence(before + t), t)
  {
    LStripSpaces(before, t);
    assert LStrip(t) == t;
    var x := RStrip(t);
    assert Strip(before + t) == x;
    assert x <= t && AllSpace(t[|x|..]);
  }

  /** The same for a response that was never fenced, as in JSON mode. */
  lemma {:induction false} PlainCutRecovers<J>(
      before: string, head: string, items: seq<Item>, k: nat, loads: string -> Option<J>)
    requires PrintedList(items) && 0 < k <= |Body(items)|
    requires AllSpace(before) && ListHead(head) && !IsSpace(head[0]) && !(FENCE <= head + Body(items)[..k])
    ensures var raw := before + (head + Body(items)[..k]);
            var whole := ParseAll(Objects(items)[..WholeBefore(items, k)], loads);
            loads(Unfence(raw)).None? ==>
              Extract(raw, loads) == if whole == [] then GenerationError else Questions(whole)
  {
    var t := head + Body(items)[..k];
    assert t[0] == head[0];
    PlainText(before, t);
    CutTextRecovers(head, items, k, Unfence(before + t), loads);
  }

  lemma {:induction false} NotAllSpace(t: string, i: nat)
    requires i < |t| && !IsSpace(t[i])
    ensures RStrip(t) != ""
  {
    assert t[0..][i] == t[i];
  }
}
