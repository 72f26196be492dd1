/** What the scanner gives back of a question list cut short. */
module Truncation {
  import opened Wrappers
  import opened PyText
  import opened JsonScan
  import opened JsonPrint

  /** One element of the printed list, with the text (bracket, comma, whitespace) printed before it. */
  datatype Item = Item(gap: string, obj: string)

  function Body(items: seq<Item>): string {
    if items == [] then ""
    else Body(items[..|items| - 1]) + items[|items| - 1].gap + items[|items| - 1].obj
  }

  function Objects(items: seq<Item>): (objs: seq<string>)
    ensures |objs| == |items|
  {
    if items == [] then [] else Objects(items[..|items| - 1]) + [items[|items| - 1].obj]
  }

  /** How many objects lie wholly before position k of the printed list. */
  function WholeBefore(items: seq<Item>, k: nat): (n: nat)
    ensures n <= |items|
  {
    if items == [] then 0
    else if |Body(items)| <= k then |items|
    else WholeBefore(items[..|items| - 1], k)
  }

  function Spans(items: seq<Item>): (spans: seq<Span>)
    ensures |spans| == |items|
  {
    if items == [] then []
    else
      var n := |Body(items)|;
      Spans(items[..|items| - 1]) + [Span(n - |items[|items| - 1].obj|, n)]
  }

  predicate PlainGaps(items: seq<Item>) {
    forall x | x in items :: NoBrace(x.gap)
  }

  predicate BalancedObjects(items: seq<Item>) {
    forall x | x in items :: DepthBalanced(x.obj)
  }

  // ------------------------------------------------- scanning one whole object

  /** Inside an object the scanner waits; at its end it records the whole object. */
  lemma {:induction false} ScanInside(t: string, o: string, k: nat)
    requires Scan(t).depth == 0 && Scan(t).start.None?
    requires DepthBalanced(o) && 0 < k < |o|
    ensures Scan(t + o[..k]) == State(Depth(o[..k]), Some(|t|), Scan(t).spans)
  {
    var m := k - 1;
    assert t + o[..k] == (t + o[..m]) + [o[m]];
    assert o[..k][..m] == o[..m];
    ScanStep(t + o[..m], o[m]);
    if m == 0 {
      assert t + o[..0] == t;
      assert Depth(o[..1]) > 0;
    } else {
      ScanInside(t, o, m);
      assert Depth(o[..k]) > 0;
    }
  }

  lemma {:induction false} BalancedEnds(o: string)
    requires DepthBalanced(o)
    ensures |o| >= 2 && Depth(o[..|o| - 1]) == 1 && o[|o| - 1] == '}'
  {
    var m := |o| - 1;
    assert Depth(o[..m]) > 0;
  }

  lemma {:induction false} ScanObject(t: string, o: string)
    requires Scan(t).depth == 0 && Scan(t).start.None?
    requires DepthBalanced(o)
    ensures Scan(t + o) == State(0, None, Scan(t).spans + [Span(|t|, |t + o|)])
  {
    var m := |o| - 1;
    BalancedEnds(o);
    ScanInside(t, o, m);
    assert t + o == (t + o[..m]) + [o[m]];
    ScanStep(t + o[..m], o[m]);
  }

  // --------------------------------------------------- scanning the whole list

  lemma {:induction false} ScanBody(items: seq<Item>)
    requires PlainGaps(items) && BalancedObjects(items)
    ensures Scan(Body(items)) == State(0, None, Spans(items))
  {
    if items != [] {
      var init, x := items[..|items| - 1], items[|items| - 1];
      ScanBody(init);
      ScanNoBrace(Body(init), x.gap);
      ScanObject(Body(init) + x.gap, x.obj);
    }
  }

  lemma {:induction false} SpansCut(items: seq<Item>, k: nat)
    requires PlainGaps(items) && BalancedObjects(items) && k <= |Body(items)|
    ensures Scan(Body(items)[..k]).spans == Spans(items[..WholeBefore(items, k)])
  {
    if items == [] {
    } else if k == |Body(items)| {
      assert Body(items)[..k] == Body(items);
      assert items[..|items|] == items;
      ScanBody(items);
    } else {
      var init, x := items[..|items| - 1], items[|items| - 1];
      var t := Body(init);
      assert init[..WholeBefore(init, k)] == items[..WholeBefore(items, k)];
      if k < |t| {
        assert Body(items)[..k] == t[..k];
        SpansCut(init, k);
      } else {
        ScanBody(init);
        assert init == [] || WholeBefore(init, k) == |init|;
        assert init[..|init|] == init;
        if k <= |t + x.gap| {
          assert Body(items)[..k] == t + x.gap[..k - |t|];
          ScanNoBrace(t, x.gap[..k - |t|]);
        } else {
          assert Body(items)[..k] == (t + x.gap) + x.obj[..k - |t + x.gap|];
          ScanNoBrace(t, x.gap);
          ScanInside(t + x.gap, x.obj, k - |t + x.gap|);
        }
      }
    }
  }

  lemma {:induction false} SliceOut(front: string, o: string, more: string)
    ensures (front + o + more)[|front|..|front + o|] == o
  {
  }

  lemma {:induction false} LastObject(items: seq<Item>, t: string)
    requires items != [] && Body(items) <= t
    ensures Body(items[..|items| - 1]) <= t
    ensures Text(t, Spans(items)[|items| - 1]) == items[|items| - 1].obj
  {
    var x := items[|items| - 1];
    var n := |Body(items)|;
    SliceOut(Body(items[..|items| - 1]) + x.gap, x.obj, "");
    assert t[n - |x.obj|..n] == Body(items)[n - |x.obj|..n];
  }

  lemma {:induction false} TextsOfSpans(items: seq<Item>, t: string)
    requires Body(items) <= t
    ensures Texts(t, Spans(items)) == Objects(items)
  {
    if items != [] {
      var init := items[..|items| - 1];
      LastObject(items, t);
      TextsOfSpans(init, t);
      TextsSnoc(t, Spans(init), Spans(items)[|items| - 1]);
    }
  }

  lemma {:induction false} BodyTake(items: seq<Item>, n: nat)
    requires n <= |items|
    ensures Body(items[..n]) <= Body(items)
    ensures Objects(items[..n]) == Objects(items)[..n]
  {
    if n == |items| {
      assert items[..n] == items;
      if items != [] {
        BodyTake(items[..n - 1], n - 1);
      }
      assert Objects(items)[..n] == Objects(items);
    } else {
      var init := items[..|items| - 1];
      BodyTake(init, n);
      assert init[..n] == items[..n];
    }
  }

  lemma {:induction false} WholeFits(items: seq<Item>, k: nat)
    ensures |Body(items[..WholeBefore(items, k)])| <= k
  {
    if items != [] {
      var init := items[..|items| - 1];
      assert items[..|items|] == items;
      WholeFits(init, k);
      assert init[..WholeBefore(init, k)] == items[..WholeBefore(init, k)];
    }
  }

  /** Cut anywhere, the list gives back exactly the objects lying wholly before the cut, in order. */
  lemma {:induction false} CutRecovers(items: seq<Item>, k: nat)
    requires PlainGaps(items) && BalancedObjects(items) && k <= |Body(items)|
    ensures Slices(Body(items)[..k]) == Objects(items)[..WholeBefore(items, k)]
  {
    var n := WholeBefore(items, k);
    var cut := Body(items)[..k];
    SpansCut(items, k);
    BodyTake(items, n);
    WholeFits(items, k);
    assert Body(items[..n]) <= cut;
    TextsOfSpans(items[..n], cut);
  }

  predicate CutsExact(items: seq<Item>) {
    forall k | 0 <= k <= |Body(items)| :: Scan(Body(items)[..k]).spans == Spans(items[..WholeBefore(items, k)])
  }

  lemma {:induction false} SpansHas(items: seq<Item>, i: nat)
    requires i < |items|
    ensures var from := |Body(items[..i])| + |items[i].gap|;
            && Spans(items)[i] == Span(from, from + |items[i].obj|)
            && from + |items[i].obj| <= |Body(items)|
            && Body(items)[from..from + |items[i].obj|] == items[i].obj
  {
    var n := |items| - 1;
    var init := items[..n];
    if i == n {
      SliceOut(Body(init) + items[i].gap, items[i].obj, "");
    } else {
      SpansHas(init, i);
      assert init[..i] == items[..i];
      var from := |Body(items[..i])| + |items[i].gap|;
      assert Body(items)[from..from + |items[i].obj|] == Body(init)[from..from + |items[i].obj|];
    }
  }

  lemma {:induction false} DepthFirst(o: string)
    ensures |o| == 1 ==> Depth(o) == Delta(o[0])
  {
    assert Depth("") == 0;
    assert |o| == 1 ==> o[..|o| - 1] == "";
  }

  lemma {:induction false} ClosedBalanced(t: string, s: Span)
    requires Closed(t, s)
    ensures DepthBalanced(t[s.from..s.to])
  {
    var o := t[s.from..s.to];
    assert t[..s.to] == t[..s.from] + o;
    DepthAppend(t[..s.from], o);
    DepthFirst(o);
    forall k | 0 < k < |o| ensures Depth(o[..k]) > 0 {
      assert t[..s.from + k] == t[..s.from] + o[..k];
      DepthAppend(t[..s.from], o[..k]);
    }
  }

  /** If the scanner reports every object of the whole list, every object is balanced. */
  lemma {:induction false} ReportedBalanced(items: seq<Item>, i: nat)
    requires Scan(Body(items)).spans == Spans(items) && i < |items|
    ensures DepthBalanced(items[i].obj)
  {
    SpansHas(items, i);
    ScanExact(Body(items));
    assert Spans(items)[i] in Spans(items);
    ClosedBalanced(Body(items), Spans(items)[i]);
  }

  lemma {:induction false} CutsExactAtEnd(items: seq<Item>)
    requires CutsExact(items)
    ensures Scan(Body(items)).spans == Spans(items)
  {
    var n := |Body(items)|;
    assert Body(items)[..n] == Body(items);
    assert items[..|items|] == items;
    assert Scan(Body(items)[..n]).spans == Spans(items[..WholeBefore(items, n)]);
  }

  lemma {:induction false} BalancedCutsExact(items: seq<Item>)
    requires PlainGaps(items) && BalancedObjects(items)
    ensures CutsExact(items)
  {
    forall k | 0 <= k <= |Body(items)|
      ensures Scan(Body(items)[..k]).spans == Spans(items[..WholeBefore(items, k)])
    {
      SpansCut(items, k);
    }
  }

  /**
   * The exact condition: the scanner undoes truncation of this list at every cut if and only if each
   * object keeps its depth above zero until its last character.
   */
  lemma {:induction false} CutsExactIff(items: seq<Item>)
    requires PlainGaps(items)
    ensures CutsExact(items) <==> BalancedObjects(items)
  {
    if BalancedObjects(items) {
      BalancedCutsExact(items);
    }
    if CutsExact(items) {
      CutsExactAtEnd(items);
      forall x | x in items ensures DepthBalanced(x.obj) {
        var i :| 0 <= i < |items| && items[i] == x;
        ReportedBalanced(items, i);
      }
    }
  }

  /** A brace inside a string breaks the condition, and with it the recovery. */
  lemma {:induction false} BraceInStringNotRecovered()
    ensures !DepthBalanced("{\"q\":\"}\"}")
    ensures !CutsExact([Item("[", "{\"q\":\"}\"}")])
  {
    var o := "{\"q\":\"}\"}";
    var t := o[..7];
    assert t == "{\"q\":\"}";
    assert t[..6] == "{\"q\":\"" && t[6] == '}';
    assert t[..6][..1] == "{" && NoBrace(t[..6][1..]);
    assert t[..6] == t[..6][..1] + t[..6][1..];
    DepthAppend(t[..6][..1], t[..6][1..]);
    DepthNoBrace(t[..6][1..]);
    assert Depth("{") == Depth("{"[..0]) + 1;
    assert Depth(t) == 0;
    var items := [Item("[", o)];
    assert NoBrace("[");
    CutsExactIff(items);
    assert items[0] in items;
  }

  // -------------------------------------------------- finding the list in a text

  /** Everything printed before the bracket: it holds the "questions" key and no bracket after it. */
  predicate ListHead(head: string) {
    var key := FindAt(head, QUESTIONS_KEY, 0);
    key >= 0 && FindAt(head, "[", key) == -1
  }

  lemma {:induction false} HeadStart(head: string, rest: string)
    requires ListHead(head)
    ensures ArrayStart(head + "[" + rest) == |head|
  {
    var text := head + "[" + rest;
    var key := FindAt(head, QUESTIONS_KEY, 0);
    assert text == head + ("[" + rest);
    FindAtExtend(head, "[" + rest, QUESTIONS_KEY, 0);
    forall j: nat | key <= j <= |head| ensures MatchesAt(text, "[", j) <==> j == |head| {
      MatchesChar(text, '[', j);
      MatchesChar(head, '[', j);
      if j < |head| {
        assert !MatchesAt(head, "[", j);
        assert text[j] == head[j];
      }
    }
    FindAtIs(text, "[", key, |head|);
  }

  /** Without the key nothing is recovered, whatever brackets the text holds. */
  lemma {:induction false} NoKeyNothing<J>(text: string, loads: string -> Option<J>)
    requires !Contains(text, "\"questions\"")
    ensures Recovered(text, loads).None?
  {
    var a := ArrayStart(text);
    if a != -1 {
      assert text[a..] == "[";
      ScanNoBrace("", "[");
      assert "" + "[" == "[";
      assert Slices("[") == [];
    }
  }

  /** The list as the model's response prints it: head, then the bracket with the first gap, then the objects. */
  predicate PrintedList(items: seq<Item>) {
    && PlainGaps(items)
    && BalancedObjects(items)
    && items != [] && items[0].gap != "" && items[0].gap[0] == '['
  }

  lemma {:induction false} BodyStarts(items: seq<Item>)
    requires items != [] && items[0].gap != "" && items[0].gap[0] == '['
    ensures Body(items) != "" && Body(items)[0] == '['
  {
    var init := items[..|items| - 1];
    if |items| == 1 {
      assert Body(items) == items[0].gap + items[0].obj;
    } else {
      BodyStarts(init);
    }
  }

  /** After the head, recovery works on the text from the bracket on. */
  lemma {:induction false} RecoveredAfterHead<J>(head: string, cut: string, loads: string -> Option<J>)
    requires ListHead(head) && cut != "" && cut[0] == '['
    ensures var found := ParseAll(Slices(cut), loads);
            Recovered(head + cut, loads) == if found == [] then None else Some(found)
  {
    assert head + cut == head + "[" + cut[1..];
    HeadStart(head, cut[1..]);
    assert (head + cut)[|head|..] == cut;
  }

  /** recover_partial_questions on a response cut anywhere after the bracket. */
  lemma {:induction false} TruncationRoundTrip<J>(head: string, items: seq<Item>, k: nat, loads: string -> Option<J>)
    requires ListHead(head) && PrintedList(items)
    requires 0 < k <= |Body(items)|
    ensures var whole := ParseAll(Objects(items)[..WholeBefore(items, k)], loads);
            Recovered(head + Body(items)[..k], loads) == if whole == [] then None else Some(whole)
  {
    BodyStarts(items);
    RecoveredAfterHead(head, Body(items)[..k], loads);
    CutRecovers(items, k);
  }

  lemma {:induction false} HeadWindow(head: string, rest: string)
    requires ListHead(head)
    ensures ArrayStart(head + "[" + rest) == |head|
    ensures (head + "[" + rest)[|head|..] == "[" + rest
  {
    HeadStart(head, rest);
  }

  /** A longer response recovers everything a shorter one did. */
  lemma {:induction false} LongerRecoversMore<J>(head: string, rest: string, n: nat, loads: string -> Option<J>)
    requires ListHead(head) && n <= |rest|
    ensures var short, long := Recovered(head + "[" + rest[..n], loads), Recovered(head + "[" + rest, loads);
            short.Some? ==> long.Some? && short.value <= long.value
  {
    HeadWindow(head, rest[..n]);
    HeadWindow(head, rest);
    assert ("[" + rest)[..n + 1] == "[" + rest[..n];
    SlicesMonotone("[" + rest, n + 1);
    var xs, ys := Slices("[" + rest[..n]), Slices("[" + rest);
    assert ys == xs + ys[|xs|..];
    ParseAllAppend(xs, ys[|xs|..], loads);
  }

  // ----------------------------------------------- printed JSON, cut and read back

  lemma {:induction false} ObjectsAt(items: seq<Item>, i: nat)
    requires i < |items|
    ensures Objects(items)[i] == items[i].obj
  {
    if i < |items| - 1 {
      ObjectsAt(items[..|items| - 1], i);
    }
  }

  ghost predicate Decodes<J>(items: seq<Item>, values: seq<J>, loads: string -> Option<J>) {
    |values| == |items| && forall i | 0 <= i < |items| :: Decoded(loads(items[i].obj)) == [values[i]]
  }

  lemma {:induction false} ParsePrinted<J>(items: seq<Item>, values: seq<J>, n: nat, loads: string -> Option<J>)
    requires n <= |items| && Decodes(items, values, loads)
    ensures ParseAll(Objects(items)[..n], loads) == values[..n]
  {
    if n > 0 {
      ParsePrinted(items, values, n - 1, loads);
      ObjectsAt(items, n - 1);
      var objs := Objects(items)[..n];
      assert objs[..n - 1] == Objects(items)[..n - 1];
      assert objs[n - 1] == items[n - 1].obj;
      assert values[..n] == values[..n - 1] + [values[n - 1]];
    }
  }

  /** The questions printed one after the other, each behind its gap. */
  predicate Prints(items: seq<Item>, questions: seq<Json>) {
    && |items| == |questions|
    && forall i | 0 <= i < |items| ::
         questions[i].Obj? && BraceFreeStrings(questions[i]) && items[i].obj == Print(questions[i])
  }

  lemma {:induction false} PrintsBalanced(items: seq<Item>, questions: seq<Json>)
    requires Prints(items, questions)
    ensures BalancedObjects(items)
  {
    forall x | x in items ensures DepthBalanced(x.obj) {
      var i :| 0 <= i < |items| && items[i] == x;
      PrintedObjectBalanced(questions[i]);
    }
  }

  /**
   * Print questions whose strings hold no brace, cut the response anywhere after the bracket: with a parser
   * that reads printed objects back, exactly the questions printed whole come back, in order.
   */
  lemma {:induction false} PrintedQuestionsSurvive(head: string, items: seq<Item>, questions: seq<Json>, k: nat,
                                                   loads: string -> Option<Json>)
    requires ListHead(head) && Prints(items, questions) && PlainGaps(items)
    requires items != [] && items[0].gap != "" && items[0].gap[0] == '[' && 0 < k <= |Body(items)|
    requires Decodes(items, questions, loads)
    ensures var n := WholeBefore(items, k);
            Recovered(head + Body(items)[..k], loads) == if n == 0 then None else Some(questions[..n])
  {
    PrintsBalanced(items, questions);
    ParsePrinted(items, questions, WholeBefore(items, k), loads);
    TruncationRoundTrip(head, items, k, loads);
  }
}
