/** JSON values as they are printed, and the brace depth of the printed text. */
module JsonPrint {
  import opened JsonScan

  /**
   * A printed value, with the whitespace that section 2 of RFC 8259 allows around each structural
   * character, so every text of the grammar is covered, at any indentation. Literals and numbers carry their
   * text; strings carry the characters between the quotes, already escaped (section 7).
   */
  datatype Json =
    | Lit(text: string)
    | Str(body: string)
    | Arr(lead: string, items: seq<Element>)
    | Obj(lead: string, members: seq<Member>)

  datatype Element = Element(before: string, value: Json, after: string)

  datatype Member = Member(
    before: string, key: string, beforeColon: string, afterColon: string, value: Json, after: string)

  function Print(v: Json): string
    decreases v, 0
  {
    match v
    case Lit(text) => text
    case Str(body) => "\"" + body + "\""
    case Arr(lead, items) => "[" + lead + PrintItems(items) + "]"
    case Obj(lead, members) => "{" + (lead + PrintMembers(members)) + "}"
  }

  function Comma<T>(rest: seq<T>): string {
    if |rest| == 1 then "" else ","
  }

  function PrintItems(items: seq<Element>): string
    decreases items, 1
  {
    if items == [] then ""
    else items[0].before + Print(items[0].value) + (items[0].after + Comma(items)) + PrintItems(items[1..])
  }

  /** The name of a member, up to its value. */
  function Label(m: Member): string {
    m.before + "\"" + m.key + "\"" + m.beforeColon + ":" + m.afterColon
  }

  function PrintMembers(members: seq<Member>): string
    decreases members, 1
  {
    if members == [] then ""
    else
      Label(members[0]) + Print(members[0].value) + (members[0].after + Comma(members)) + PrintMembers(members[1..])
  }

  /** No literal, string, key or surrounding text contains a brace. */
  predicate BraceFreeStrings(v: Json) {
    match v
    case Lit(text) => NoBrace(text)
    case Str(body) => NoBrace(body)
    case Arr(lead, items) =>
      NoBrace(lead) && forall x | x in items :: NoBrace(x.before) && NoBrace(x.after) && BraceFreeStrings(x.value)
    case Obj(lead, members) =>
      NoBrace(lead) && forall m | m in members :: NoBrace(Label(m)) && NoBrace(m.after) && BraceFreeStrings(m.value)
  }

  // ------------------------------------------------------- depth conditions

  /** Depth zero at the end and never negative on the way: safe to print inside an object. */
  predicate Neutral(t: string) {
    Depth(t) == 0 && forall k | 0 <= k <= |t| :: Depth(t[..k]) >= 0
  }

  /** The condition the scanner needs of one object: depth above zero until its very last character. */
  predicate DepthBalanced(o: string) {
    |o| >= 2 && Depth(o) == 0 && forall k | 0 < k < |o| :: Depth(o[..k]) > 0
  }

  lemma {:induction false} NoBraceNeutral(t: string)
    requires NoBrace(t)
    ensures Neutral(t)
  {
    forall k | 0 <= k <= |t| ensures Depth(t[..k]) == 0 {
      DepthNoBrace(t[..k]);
    }
    assert t[..|t|] == t;
  }

  lemma {:induction false} NeutralAppend(t: string, u: string)
    requires Neutral(t) && Neutral(u)
    ensures Neutral(t + u)
  {
    DepthAppend(t, u);
    forall k | 0 <= k <= |t + u| ensures Depth((t + u)[..k]) >= 0 {
      if k <= |t| {
        assert (t + u)[..k] == t[..k];
      } else {
        assert (t + u)[..k] == t + u[..k - |t|];
        DepthAppend(t, u[..k - |t|]);
      }
    }
  }

  lemma {:induction false} NeutralConcat3(a: string, b: string, c: string)
    requires Neutral(a) && Neutral(b) && Neutral(c)
    ensures Neutral(a + b + c)
  {
    NeutralAppend(a, b);
    NeutralAppend(a + b, c);
  }

  /** Wrapping neutral text in braces gives an object the scanner can follow. */
  lemma {:induction false} BracedBalanced(t: string)
    requires Neutral(t)
    ensures DepthBalanced("{" + t + "}")
    ensures Neutral("{" + t + "}")
  {
    var o := "{" + t + "}";
    assert o[..|o| - 1] == "{" + t;
    assert Depth("{") == Depth("") + 1;
    DepthAppend("{", t);
    forall k | 0 < k < |o| ensures Depth(o[..k]) > 0 {
      assert o[..k] == "{" + t[..k - 1];
      DepthAppend("{", t[..k - 1]);
    }
    assert o[..|o|] == o;
  }

  /** The four parts that an element or member prints: label, value, separator, the rest. */
  lemma {:induction false} NeutralEntry<T>(head: string, value: string, after: string, entries: seq<T>, rest: string)
    requires NoBrace(head) && Neutral(value) && NoBrace(after) && Neutral(rest)
    ensures Neutral(head + value + (after + Comma(entries)) + rest)
  {
    NoBraceNeutral(head);
    NoBraceNeutral(after + Comma(entries));
    NeutralConcat3(head, value, after + Comma(entries));
    NeutralAppend(head + value + (after + Comma(entries)), rest);
  }

  lemma {:induction false} PrintNeutral(v: Json)
    requires BraceFreeStrings(v)
    ensures Neutral(Print(v))
    decreases v, 0
  {
    match v
    case Lit(text) => NoBraceNeutral(text);
    case Str(body) => NoBraceNeutral("\"" + body + "\"");
    case Arr(lead, items) =>
      PrintItemsNeutral(items);
      NoBraceNeutral("[" + lead);
      NoBraceNeutral("]");
      NeutralConcat3("[" + lead, PrintItems(items), "]");
    case Obj(lead, members) =>
      InsideNeutral(lead, members);
      BracedBalanced(lead + PrintMembers(members));
  }

  lemma {:induction false} PrintItemsNeutral(items: seq<Element>)
    requires forall x | x in items :: NoBrace(x.before) && NoBrace(x.after) && BraceFreeStrings(x.value)
    ensures Neutral(PrintItems(items))
    decreases items, 1
  {
    if items == [] {
      NoBraceNeutral("");
    } else {
      var x := items[0];
      PrintNeutral(x.value);
      PrintItemsNeutral(items[1..]);
      NeutralEntry(x.before, Print(x.value), x.after, items, PrintItems(items[1..]));
    }
  }

  lemma {:induction false} PrintMembersNeutral(members: seq<Member>)
    requires forall m | m in members :: NoBrace(Label(m)) && NoBrace(m.after) && BraceFreeStrings(m.value)
    ensures Neutral(PrintMembers(members))
    decreases members, 1
  {
    if members == [] {
      NoBraceNeutral("");
    } else {
      var m := members[0];
      PrintNeutral(m.value);
      PrintMembersNeutral(members[1..]);
      NeutralEntry(Label(m), Print(m.value), m.after, members, PrintMembers(members[1..]));
    }
  }

  lemma {:induction false} InsideNeutral(lead: string, members: seq<Member>)
    requires NoBrace(lead)
    requires forall m | m in members :: NoBrace(Label(m)) && NoBrace(m.after) && BraceFreeStrings(m.value)
    ensures Neutral(lead + PrintMembers(members))
    decreases members, 2
  {
    PrintMembersNeutral(members);
    NoBraceNeutral(lead);
    NeutralAppend(lead, PrintMembers(members));
  }

  /** Every printed object whose strings hold no brace meets the scanner's condition, however it is laid out. */
  lemma {:induction false} PrintedObjectBalanced(v: Json)
    requires v.Obj? && BraceFreeStrings(v)
    ensures DepthBalanced(Print(v))
  {
    InsideNeutral(v.lead, v.members);
    BracedBalanced(v.lead + PrintMembers(v.members));
  }
}
