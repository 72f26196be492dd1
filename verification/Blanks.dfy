/** The fill-in-the-blank normaliser: of several blanks in a sentence only the first is kept. */
module Blanks {
  import opened PyText

  const BLANK := "___"

  predicate HasBlank(s: string) {
    Contains(s, BLANK)
  }

  function Delete(s: string): string {
    Replace(s, BLANK, "")
  }

  /** The branch of validate_fill taken when count > 1. */
  function KeepFirst(s: string): string {
    if Count(s, BLANK) > 1 then
      var parts := Split(s, BLANK);
      parts[0] + BLANK + Replace(Join(parts[1..], BLANK), BLANK, "")
    else s
  }

  /** What validate_fill makes of a raw sentence that holds a blank. */
  function Normal(s: string): string {
    KeepFirst(Strip(s))
  }

  // -------------------------------------------------- the leftmost split

  function First(s: string): int {
    FindAt(s, BLANK, 0)
  }

  /** The text after the first blank. */
  function Rest(s: string): string {
    if HasBlank(s) then FindSplits(s, BLANK); s[First(s) + 3..] else ""
  }

  predicate EndsBare(s: string) {
    s != "" ==> s[|s| - 1] != '_'
  }

  lemma {:induction false} MatchIs(s: string, j: nat)
    ensures MatchesAt(s, BLANK, j) <==> j + 3 <= |s| && s[j] == '_' && s[j + 1] == '_' && s[j + 2] == '_'
  {
    if j + 3 <= |s| {
      assert s[j..j + 3] == [s[j], s[j + 1], s[j + 2]];
    }
  }

  /** The key fact: what precedes the leftmost blank does not end in an underscore. */
  lemma {:induction false} BareBeforeBlank(s: string)
    requires HasBlank(s)
    ensures EndsBare(s[..First(s)])
  {
    var i := First(s);
    MatchIs(s, i);
    if i > 0 {
      MatchIs(s, i - 1);
    }
  }

  lemma {:induction false} PartsBare(s: string)
    ensures forall i | 0 <= i < |Split(s, BLANK)| - 1 :: EndsBare(Split(s, BLANK)[i])
    decreases |s|
  {
    if HasBlank(s) {
      BareBeforeBlank(s);
      FindSplits(s, BLANK);
      PartsBare(Rest(s));
    }
  }

  lemma {:induction false} NoBlankUpTo(s: string, n: nat)
    requires n <= |s| && (HasBlank(s) ==> n < First(s) + 3)
    ensures !HasBlank(s[..n])
  {
    var t := s[..n];
    if HasBlank(t) {
      var j := First(t);
      MatchIs(t, j);
      MatchIs(s, j);
    }
  }

  /** A bare end keeps two blank-free texts from joining into a blank. */
  lemma {:induction false} NoStraddle(a: string, b: string)
    requires !HasBlank(a) && !HasBlank(b) && EndsBare(a)
    ensures !HasBlank(a + b)
  {
    var s := a + b;
    assert a != "" ==> s[|a| - 1] == a[|a| - 1];
    if HasBlank(s) {
      var j := First(s);
      MatchIs(s, j);
      if j + 3 <= |a| {
        MatchIs(a, j);
      } else if j >= |a| {
        MatchIs(b, j - |a|);
      }
    }
  }

  // ------------------------------------------------------------- deleting

  lemma {:induction false} JoinEmptyCons(first: string, parts: seq<string>)
    requires parts != []
    ensures Join([first] + parts, "") == first + Join(parts, "")
  {
    JoinCons(first, parts, "");
    assert first + "" == first;
  }

  /** Deletion, one blank at a time. */
  lemma {:induction false} DeleteStep(s: string)
    ensures Delete(s) == if HasBlank(s) then s[..First(s)] + Delete(Rest(s)) else s
  {
    if HasBlank(s) {
      JoinEmptyCons(s[..First(s)], Split(Rest(s), BLANK));
    }
  }

  lemma {:induction false} DeleteLeavesNone(s: string)
    ensures !HasBlank(Delete(s))
    decreases |s|
  {
    DeleteStep(s);
    if HasBlank(s) {
      FindSplits(s, BLANK);
      DeleteLeavesNone(Rest(s));
      BareBeforeBlank(s);
      NoBlankUpTo(s, First(s));
      NoStraddle(s[..First(s)], Delete(Rest(s)));
    }
  }

  // ----------------------------------------------------------- the branch

  lemma {:induction false} CountIs(s: string)
    ensures Count(s, BLANK) == if HasBlank(s) then 1 + Count(Rest(s), BLANK) else 0
  {
  }

  lemma {:induction false} AfterFirst(x: string, y: string)
    requires EndsBare(x) && !HasBlank(x)
    ensures HasBlank(x + BLANK + y) && First(x + BLANK + y) == |x| && Rest(x + BLANK + y) == y
  {
    var s := x + BLANK + y;
    MatchIs(s, |x|);
    forall j: nat | j < |x| ensures !MatchesAt(s, BLANK, j) {
      MatchIs(s, j);
      MatchIs(x, j);
      assert s[|x| - 1] == x[|x| - 1];
    }
    FindAtIs(s, BLANK, 0, |x|);
  }

  /** The branch keeps the text up to the first blank and deletes the others from what follows it. */
  lemma {:induction false} KeepFirstIs(s: string)
    ensures KeepFirst(s) == if HasBlank(s) then s[..First(s)] + BLANK + Delete(Rest(s)) else s
  {
    CountIs(s);
    if HasBlank(s) {
      FindSplits(s, BLANK);
      var rest := Rest(s);
      assert Split(s, BLANK)[1..] == Split(rest, BLANK);
      JoinSplit(rest, BLANK);
      CountIs(rest);
      DeleteStep(rest);
    }
  }

  lemma {:induction false} OneBlank(x: string, y: string, s: string)
    requires EndsBare(x) && !HasBlank(x) && !HasBlank(y) && s == x + BLANK + y
    ensures Count(s, BLANK) == 1 && KeepFirst(s) == s
    ensures First(s) == |x| && s[..First(s)] == x && Delete(s) == x + y
  {
    AfterFirst(x, y);
    CountIs(s);
    CountIs(y);
    DeleteStep(s);
    DeleteStep(y);
  }

  /**
   * For every sentence with a blank, whatever its runs of underscores: exactly one blank is left, the
   * text around the blanks is the same, and doing it again changes nothing.
   */
  lemma {:induction false} KeepFirstNormalises(s: string)
    requires HasBlank(s)
    ensures Count(KeepFirst(s), BLANK) == 1
    ensures First(KeepFirst(s)) == First(s) && KeepFirst(s)[..First(s)] == s[..First(s)]
    ensures Delete(KeepFirst(s)) == Delete(s)
    ensures KeepFirst(KeepFirst(s)) == KeepFirst(s)
  {
    KeepFirstIs(s);
    BareBeforeBlank(s);
    NoBlankUpTo(s, First(s));
    DeleteLeavesNone(Rest(s));
    DeleteStep(s);
    OneBlank(s[..First(s)], Delete(Rest(s)), KeepFirst(s));
  }

  // --------------------------------------------- validating the result again

  /** The text without the whole blanks at its very end. */
  function DropBlanks(s: string): (r: string)
    ensures |r| <= |s| && r == s[..|r|]
  {
    if |s| >= 3 && s[|s| - 3..] == BLANK then DropBlanks(s[..|s| - 3]) else s
  }

  predicate EndsInSpace(s: string) {
    s != "" && IsSpace(s[|s| - 1])
  }

  /** Blanks at the end of the sentence follow whitespace that follows the first blank. */
  predicate LeavesSpace(s: string) {
    EndsInSpace(DropBlanks(Rest(s)))
  }

  predicate Underscores(s: string) {
    forall i | 0 <= i < |s| :: s[i] == '_'
  }

  /** Where the run of underscores at the end of a text begins. */
  function Run(s: string): (n: nat)
    ensures n <= |s| && EndsBare(s[..n]) && Underscores(s[n..])
  {
    if s != "" && s[|s| - 1] == '_' then
      var n := Run(s[..|s| - 1]);
      assert s[..n] == s[..|s| - 1][..n];
      n
    else |s|
  }

  lemma {:induction false} DeleteAfterRun(x: string, u: string)
    requires EndsBare(x) && !HasBlank(x) && Underscores(u) && |u| < 3
    ensures Delete(x + u + BLANK) == x + u
  {
    assert u + BLANK == BLANK + u;
    assert x + u + BLANK == x + BLANK + u;
    AfterFirst(x, u);
    DeleteStep(x + BLANK + u);
    NoBlankIn(u);
    DeleteStep(u);
  }

  lemma {:induction false} ShortRun(s: string)
    requires !HasBlank(s)
    ensures |s| - Run(s) < 3
  {
    var n := Run(s);
    if |s| - n >= 3 {
      assert s[n] == s[n..][0] && s[n + 1] == s[n..][1] && s[n + 2] == s[n..][2];
      MatchIs(s, n);
    }
  }

  lemma {:induction false} RestExtend(s: string)
    requires HasBlank(s)
    ensures HasBlank(s + BLANK) && First(s + BLANK) == First(s) && Rest(s + BLANK) == Rest(s) + BLANK
    ensures (s + BLANK)[..First(s)] == s[..First(s)] && |Rest(s)| < |s|
  {
    FindSplits(s, BLANK);
    FindAtExtend(s, BLANK, BLANK, 0);
  }

  /** A blank added at the end is deleted again, however it joins a run of underscores. */
  lemma {:induction false} DeleteLast(s: string)
    ensures Delete(s + BLANK) == Delete(s)
    decreases |s|
  {
    DeleteStep(s);
    if HasBlank(s) {
      RestExtend(s);
      DeleteStep(s + BLANK);
      DeleteLast(Rest(s));
    } else {
      var n := Run(s);
      ShortRun(s);
      NoBlankUpTo(s, n);
      assert s == s[..n] + s[n..];
      DeleteAfterRun(s[..n], s[n..]);
    }
  }

  lemma {:induction false} DeleteDropped(s: string)
    ensures Delete(s) == Delete(DropBlanks(s))
  {
    if |s| >= 3 && s[|s| - 3..] == BLANK {
      assert s == s[..|s| - 3] + BLANK;
      DeleteLast(s[..|s| - 3]);
      DeleteDropped(s[..|s| - 3]);
    }
  }

  lemma {:induction false} DroppedHasNone(s: string)
    ensures var r := DropBlanks(s); |r| >= 3 ==> r[|r| - 3..] != BLANK
  {
    if |s| >= 3 && s[|s| - 3..] == BLANK {
      DroppedHasNone(s[..|s| - 3]);
    }
  }

  lemma {:induction false} RestEnd(s: string)
    requires HasBlank(s) && s[|s| - 3..] != BLANK
    ensures var r := Rest(s);
            r != "" && |r| < |s| && r[|r| - 1] == s[|s| - 1] && (|r| >= 3 ==> r[|r| - 3..] == s[|s| - 3..])
  {
    FindSplits(s, BLANK);
    assert s[First(s)..First(s) + 3] == BLANK;
  }

  /** A text that does not end in a blank keeps its last character when blanks are deleted. */
  lemma {:induction false} DeleteKeepsLast(s: string)
    requires |s| >= 3 ==> s[|s| - 3..] != BLANK
    ensures s == "" <==> Delete(s) == ""
    ensures s != "" ==> Delete(s)[|Delete(s)| - 1] == s[|s| - 1]
    decreases |s|
  {
    DeleteStep(s);
    if HasBlank(s) {
      RestEnd(s);
      DeleteKeepsLast(Rest(s));
    }
  }

  lemma {:induction false} DeletedEnd(s: string)
    ensures EndsInSpace(Delete(s)) <==> EndsInSpace(DropBlanks(s))
  {
    DeleteDropped(s);
    DroppedHasNone(s);
    DeleteKeepsLast(DropBlanks(s));
  }

  lemma {:induction false} StripUnchanged(s: string)
    ensures Strip(s) == s <==> Stripped(s)
  {
    StripStripped(s);
    if Stripped(s) {
      StripOfStripped(s);
    }
  }

  predicate Single(s: string) {
    HasBlank(s) && !HasBlank(Rest(s))
  }

  lemma {:induction false} SingleFixed(s: string)
    requires Single(s)
    ensures KeepFirst(s) == s
  {
    CountIs(s);
    CountIs(Rest(s));
  }

  lemma {:induction false} NormalSingle(s: string)
    requires HasBlank(Strip(s))
    ensures Single(Normal(s)) && (Normal(s)[0] == Strip(s)[0]) && !IsSpace(Normal(s)[0])
    ensures Rest(Normal(s)) == Delete(Rest(Strip(s)))
  {
    var t := Strip(s);
    StripStripped(s);
    FindSplits(t, BLANK);
    KeepFirstIs(t);
    BareBeforeBlank(t);
    NoBlankUpTo(t, First(t));
    AfterFirst(t[..First(t)], Delete(Rest(t)));
    DeleteLeavesNone(Rest(t));
    MatchIs(t, First(t));
  }

  lemma {:induction false} SingleEnd(x: string)
    requires HasBlank(x) && !IsSpace(x[0])
    ensures Stripped(x) <==> !EndsInSpace(Rest(x))
  {
    var i, y := First(x), Rest(x);
    FindSplits(x, BLANK);
    MatchIs(x, i);
    assert y == x[i + 3..];
    if y == "" {
      assert |x| == i + 3;
    }
  }

  lemma {:induction false} NormalStripped(s: string)
    requires HasBlank(Strip(s))
    ensures Stripped(Normal(s)) <==> !LeavesSpace(Strip(s))
  {
    NormalSingle(s);
    DeletedEnd(Rest(Strip(s)));
    SingleEnd(Normal(s));
  }

  /** Validating the stored sentence again changes nothing, unless blanks at its end followed whitespace. */
  lemma {:induction false} NormalFixedIff(s: string)
    requires HasBlank(Strip(s))
    ensures Normal(Normal(s)) == Normal(s) <==> !LeavesSpace(Strip(s))
  {
    var x := Normal(s);
    NormalSingle(s);
    NormalStripped(s);
    StripUnchanged(x);
    StripSingle(x);
    SingleFixed(Strip(x));
  }

  /** Stripping outer whitespace neither makes nor removes a blank. */
  lemma {:induction false} StripSingle(x: string)
    requires Single(x) && !IsSpace(x[0])
    ensures Single(Strip(x))
  {
    assert LStrip(x) == x;
    FindSplits(x, BLANK);
    PrefixSingle(x, |RStrip(x)|);
  }

  lemma {:induction false} PrefixSingle(x: string, n: nat)
    requires Single(x) && n <= |x| && AllSpace(x[n..])
    ensures Single(x[..n])
  {
    var i, t := First(x), x[..n];
    MatchIs(x, i);
    forall j | n <= j < |x| ensures IsSpace(x[j]) {
      assert x[n..][j - n] == x[j];
    }
    MatchIs(t, i);
    forall j: nat | j < i ensures !MatchesAt(t, BLANK, j) {
      MatchIs(t, j);
      MatchIs(x, j);
    }
    FindAtIs(t, BLANK, 0, i);
    assert Rest(t) == Rest(x)[..n - i - 3];
    NoBlankUpTo(Rest(x), n - i - 3);
  }

  /** A second pass always settles the sentence. */
  lemma {:induction false} TwoPassesSuffice(s: string)
    requires HasBlank(Strip(s))
    ensures HasBlank(Strip(Normal(s))) && Normal(Normal(Normal(s))) == Normal(Normal(s))
  {
    var x := Normal(s);
    NormalSingle(s);
    StripSingle(x);
    SingleFixed(Strip(x));
    StripStripped(x);
  }

  lemma {:induction false} DropLastBlank(space: string)
    requires EndsInSpace(space)
    ensures DropBlanks(space + BLANK) == space
  {
    var t := space + BLANK;
    assert t[|t| - 3..] == BLANK && t[..|t| - 3] == space;
    if |space| >= 3 {
      assert space[|space| - 3..][2] == space[|space| - 1];
    }
  }

  /** The other case occurs: "x___ ___" becomes "x___ ", for every such x, and then "x___". */
  lemma {:induction false} SpaceIsLeft(x: string, space: string)
    requires x != "" && !IsSpace(x[0]) && !HasBlank(x) && EndsBare(x) && EndsInSpace(space)
    ensures var s := x + BLANK + (space + BLANK); Normal(Normal(s)) != Normal(s)
  {
    var rest := space + BLANK;
    DropLastBlank(space);
    AfterFirst(x, rest);
    LeavesSpaceFails(x + BLANK + rest);
  }

  lemma {:induction false} LeavesSpaceFails(s: string)
    requires HasBlank(s) && Stripped(s) && LeavesSpace(s)
    ensures Normal(Normal(s)) != Normal(s)
  {
    StripOfStripped(s);
    NormalFixedIff(s);
  }

  lemma {:induction false} NoBlankIn(s: string)
    requires |s| < 3
    ensures !HasBlank(s)
  {
  }
}
