/** The Python string operations the services rely on, with the laws that relate them. */
module PyText {

  /** str.isspace for one character. */
  predicate IsSpace(c: char) {
    || '\t' <= c <= '\r'
    || '\U{1c}' <= c <= ' '
    || c == '\U{85}' || c == '\U{a0}' || c == '\U{1680}'
    || '\U{2000}' <= c <= '\U{200a}'
    || c == '\U{2028}' || c == '\U{2029}' || c == '\U{202f}' || c == '\U{205f}' || c == '\U{3000}'
  }

  predicate AllSpace(s: string) {
    forall i | 0 <= i < |s| :: IsSpace(s[i])
  }

  predicate SpaceFree(s: string) {
    forall i | 0 <= i < |s| :: !IsSpace(s[i])
  }

  // ---------------------------------------------------------------- strip

  /** The first position from i on that holds no whitespace. */
  function Lead(s: string, i: nat): (n: nat)
    requires i <= |s|
    ensures i <= n <= |s| && (n < |s| ==> !IsSpace(s[n]))
    ensures forall k | i <= k < n :: IsSpace(s[k])
    decreases |s| - i
  {
    if i < |s| && IsSpace(s[i]) then Lead(s, i + 1) else i
  }

  /** Just after the last position before i that holds no whitespace. */
  function Tail(s: string, i: nat): (n: nat)
    requires i <= |s|
    ensures n <= i && (n > 0 ==> !IsSpace(s[n - 1]))
    ensures forall k | n <= k < i :: IsSpace(s[k])
  {
    if i > 0 && IsSpace(s[i - 1]) then Tail(s, i - 1) else i
  }

  function LStrip(s: string): string {
    s[Lead(s, 0)..]
  }

  function RStrip(s: string): string {
    s[..Tail(s, |s|)]
  }

  function Strip(s: string): string {
    RStrip(LStrip(s))
  }

  predicate Stripped(s: string) {
    s == "" || (!IsSpace(s[0]) && !IsSpace(s[|s| - 1]))
  }

  lemma {:induction false} LStripSpaces(l: string, t: string)
    requires AllSpace(l)
    ensures LStrip(l + t) == LStrip(t)
  {
    var s, n, m := l + t, Lead(l + t, 0), Lead(t, 0);
    assert forall k | 0 <= k < |l| :: s[k] == l[k];
    assert forall k | 0 <= k < |t| :: s[|l| + k] == t[k];
    assert n == |l| + m;
  }

  lemma {:induction false} RStripSpaces(t: string, r: string)
    requires AllSpace(r)
    ensures RStrip(t + r) == RStrip(t)
  {
    var s, n, m := t + r, Tail(t + r, |t + r|), Tail(t, |t|);
    assert forall k | |t| <= k < |s| :: s[k] == r[k - |t|];
    assert forall k | 0 <= k < |t| :: s[k] == t[k];
    assert n == m;
  }

  lemma {:induction false} StrippedFixed(t: string)
    requires Stripped(t)
    ensures RStrip(t) == t && LStrip(t) == t
  {
  }

  lemma {:induction false} StripOfStripped(t: string)
    requires Stripped(t)
    ensures Strip(t) == t
  {
    StrippedFixed(t);
  }

  /** Stripping returns exactly the text between the outer whitespace. */
  lemma {:induction false} StripAround(l: string, t: string, r: string)
    requires AllSpace(l) && AllSpace(r) && Stripped(t)
    ensures Strip(l + t + r) == t
  {
    assert l + t + r == l + (t + r);
    LStripSpaces(l, t + r);
    if t == "" {
      assert t + r == r;
      assert LStrip(r) == "";
    } else {
      assert (t + r)[0] == t[0];
      assert LStrip(t + r) == t + r;
      RStripSpaces(t, r);
      StrippedFixed(t);
    }
  }

  /** A stripped text has no outer whitespace, and stripping it again changes nothing. */
  lemma {:induction false} StripStripped(s: string)
    ensures Stripped(Strip(s))
    ensures Strip(Strip(s)) == Strip(s)
  {
    var m := LStrip(s);
    var t := RStrip(m);
    assert t != "" ==> t[0] == m[0];
    StrippedFixed(t);
  }

  // ----------------------------------------------------------------- find

  predicate MatchesAt(s: string, pat: string, j: nat) {
    j + |pat| <= |s| && s[j..j + |pat|] == pat
  }

  /** s.find(pat, i) for a start index that is not negative. */
  function FindAt(s: string, pat: string, i: nat): (r: int)
    ensures r == -1 || (i <= r && MatchesAt(s, pat, r))
    ensures forall j: nat :: i <= j && (r == -1 || j < r) ==> !MatchesAt(s, pat, j)
    decreases |s| - i
  {
    if i + |pat| > |s| then -1
    else if MatchesAt(s, pat, i) then i
    else FindAt(s, pat, i + 1)
  }

  /** s.find(pat, start): a negative start counts from the end of s. */
  function Find(s: string, pat: string, start: int): int {
    FindAt(s, pat, if start >= 0 then start else if start + |s| >= 0 then start + |s| else 0)
  }

  /** Being the first occurrence pins the result of find. */
  lemma {:induction false} FindAtIs(s: string, pat: string, i: nat, r: nat)
    requires i <= r && MatchesAt(s, pat, r)
    requires forall j: nat :: i <= j < r ==> !MatchesAt(s, pat, j)
    ensures FindAt(s, pat, i) == r
  {
  }

  /** A text that goes on after the first occurrence keeps it as its first occurrence. */
  lemma {:induction false} FindAtExtend(s: string, more: string, pat: string, i: nat)
    requires FindAt(s, pat, i) >= 0
    ensures FindAt(s + more, pat, i) == FindAt(s, pat, i)
  {
    var r := FindAt(s, pat, i);
    forall j: nat | i <= j <= r ensures MatchesAt(s + more, pat, j) == MatchesAt(s, pat, j) {
      assert (s + more)[j..j + |pat|] == s[j..j + |pat|];
    }
    FindAtIs(s + more, pat, i, r);
  }

  predicate Contains(s: string, pat: string) {
    FindAt(s, pat, 0) >= 0
  }

  // -------------------------------------------------- split, join, replace

  /** s.split(sep): cut at the leftmost occurrence, then go on after it. */
  function Split(s: string, sep: string): (parts: seq<string>)
    requires sep != ""
    ensures |parts| >= 1
    decreases |s|
  {
    var i := FindAt(s, sep, 0);
    if i == -1 then [s] else [s[..i]] + Split(s[i + |sep|..], sep)
  }

  function Join(parts: seq<string>, sep: string): string {
    if parts == [] then ""
    else if |parts| == 1 then parts[0]
    else parts[0] + sep + Join(parts[1..], sep)
  }

  /** s.replace(old, new) substitutes the occurrences that split cuts at. */
  function Replace(s: string, old_: string, new_: string): string
    requires old_ != ""
  {
    Join(Split(s, old_), new_)
  }

  /** s.count(sep): occurrences found from the left without overlap. */
  function Count(s: string, sep: string): nat
    requires sep != ""
  {
    |Split(s, sep)| - 1
  }

  lemma {:induction false} JoinCons(first: string, parts: seq<string>, sep: string)
    requires parts != []
    ensures Join([first] + parts, sep) == first + sep + Join(parts, sep)
  {
    assert ([first] + parts)[1..] == parts;
  }

  /** What a successful find says about the text around the match. */
  lemma {:induction false} FindSplits(s: string, sep: string)
    requires FindAt(s, sep, 0) != -1
    ensures var i := FindAt(s, sep, 0);
            i + |sep| <= |s| && s == s[..i] + sep + s[i + |sep|..]
  {
    var i := FindAt(s, sep, 0);
    assert MatchesAt(s, sep, i);
  }

  /** Joining what split cut apart gives the text back. */
  lemma {:induction false} JoinSplit(s: string, sep: string)
    requires sep != ""
    ensures Join(Split(s, sep), sep) == s
    decreases |s|
  {
    var i := FindAt(s, sep, 0);
    if i != -1 {
      FindSplits(s, sep);
      var rest := s[i + |sep|..];
      JoinSplit(rest, sep);
      JoinCons(s[..i], Split(rest, sep), sep);
    }
  }

  lemma {:induction false} JoinAppend(parts: seq<string>, last: string, sep: string)
    requires parts != []
    ensures Join(parts + [last], sep) == Join(parts, sep) + sep + last
  {
    assert (parts + [last])[1..] == parts[1..] + [last];
    if |parts| > 1 {
      JoinAppend(parts[1..], last, sep);
    }
  }

  predicate Lacks(s: string, c: char) {
    forall i | 0 <= i < |s| :: s[i] != c
  }

  lemma {:induction false} MatchesChar(s: string, c: char, j: nat)
    ensures MatchesAt(s, [c], j) <==> j < |s| && s[j] == c
  {
    if j < |s| {
      assert s[j..j + 1] == [s[j]];
    }
  }

  /** Splitting at one character cuts at every occurrence of it. */
  lemma {:induction false} SplitHead(a: string, c: char, b: string)
    requires Lacks(a, c)
    ensures Split(a + [c] + b, [c]) == [a] + Split(b, [c])
  {
    var s := a + [c] + b;
    forall j: nat | j <= |a| ensures MatchesAt(s, [c], j) <==> j == |a| {
      MatchesChar(s, c, j);
    }
    FindAtIs(s, [c], 0, |a|);
    assert s[..|a|] == a && s[|a| + 1..] == b;
  }

  lemma {:induction false} SplitNone(a: string, c: char)
    requires Lacks(a, c)
    ensures Split(a, [c]) == [a]
  {
    var f := FindAt(a, [c], 0);
    if f >= 0 {
      MatchesChar(a, c, f);
    }
  }

  lemma {:induction false} SplitLast(a: string, c: char, b: string)
    requires Lacks(b, c)
    ensures Split(a + [c] + b, [c]) == Split(a, [c]) + [b]
    decreases |a|
  {
    var f := FindAt(a, [c], 0);
    forall i: nat | i < |a| ensures MatchesAt(a, [c], i) <==> a[i] == c {
      MatchesChar(a, c, i);
    }
    if f == -1 {
      SplitHead(a, c, b);
      SplitNone(b, c);
    } else {
      var h, t := a[..f], a[f + 1..];
      assert a == h + [c] + t;
      assert a + [c] + b == h + [c] + (t + [c] + b);
      SplitHead(h, c, t + [c] + b);
      SplitHead(h, c, t);
      SplitLast(t, c, b);
    }
  }

  // ---------------------------------------------------------------- words

  function WordLength(s: string): (n: nat)
    ensures n <= |s| && SpaceFree(s[..n])
    ensures n < |s| ==> IsSpace(s[n])
  {
    if s == "" || IsSpace(s[0]) then 0
    else
      var n := 1 + WordLength(s[1..]);
      assert s[..n] == [s[0]] + s[1..][..n - 1];
      n
  }

  /** s.split() with no argument. */
  function Words(s: string): (ws: seq<string>)
    ensures forall i | 0 <= i < |ws| :: ws[i] != "" && SpaceFree(ws[i])
    decreases |s|
  {
    if s == "" then []
    else if IsSpace(s[0]) then Words(s[1..])
    else [s[..WordLength(s)]] + Words(s[WordLength(s)..])
  }

  lemma {:induction false} WordLengthIs(w: string, rest: string)
    requires SpaceFree(w) && (rest == "" || IsSpace(rest[0]))
    ensures WordLength(w + rest) == |w|
  {
    if w == "" {
      assert w + rest == rest;
    } else {
      assert (w + rest)[1..] == w[1..] + rest;
      WordLengthIs(w[1..], rest);
    }
  }

  /** Splitting what " ".join built gives the same words back. */
  lemma {:induction false} WordsOfJoin(ws: seq<string>)
    requires forall i | 0 <= i < |ws| :: ws[i] != "" && SpaceFree(ws[i])
    ensures Words(Join(ws, " ")) == ws
  {
    if |ws| == 1 {
      WordLengthIs(ws[0], "");
      assert ws[0] + "" == ws[0];
    } else if |ws| > 1 {
      var tail := Join(ws[1..], " ");
      assert ws[0] + " " + tail == ws[0] + (" " + tail);
      WordLengthIs(ws[0], " " + tail);
      assert (ws[0] + (" " + tail))[..|ws[0]|] == ws[0];
      assert (ws[0] + (" " + tail))[|ws[0]|..] == " " + tail;
      assert (" " + tail)[1..] == tail;
      WordsOfJoin(ws[1..]);
    }
  }

  predicate Reads(s: string, w: string, p: nat) {
    p + |w| <= |s| && forall i | 0 <= i < |w| :: s[p + i] == w[i]
  }

  /** A word stands at this position of the text, and cannot be made longer on either side. */
  predicate WordAt(s: string, w: string, p: nat) {
    && w != "" && SpaceFree(w) && Reads(s, w, p)
    && (p == 0 || IsSpace(s[p - 1])) && (p + |w| == |s| || IsSpace(s[p + |w|]))
  }

  predicate AllWordsAt(s: string, ws: seq<string>, at: seq<nat>) {
    |at| == |ws| && forall k | 0 <= k < |ws| :: WordAt(s, ws[k], at[k])
  }

  predicate Spaced(ws: seq<string>, at: seq<nat>) {
    |at| == |ws| && forall k, l | 0 <= k < l < |ws| :: at[k] + |ws[k]| < at[l]
  }

  /** The words stand one after the other at these positions, and between them there is only whitespace. */
  predicate WordsAt(s: string, ws: seq<string>, at: seq<nat>) {
    && AllWordsAt(s, ws, at) && Spaced(ws, at)
    && (forall i | 0 <= i < |s| && !IsSpace(s[i]) :: Covered(ws, at, i))
  }

  predicate Covered(ws: seq<string>, at: seq<nat>, i: nat)
    requires |at| == |ws|
  {
    exists k | 0 <= k < |ws| :: at[k] <= i < at[k] + |ws[k]|
  }

  function ShiftAll(at: seq<nat>, n: nat): seq<nat> {
    seq(|at|, k requires 0 <= k < |at| => at[k] + n)
  }

  lemma {:induction false} ShiftWord(s: string, w: string, p: nat, n: nat)
    requires n <= |s| && WordAt(s[n..], w, p) && (p == 0 ==> n == 0 || IsSpace(s[n - 1]))
    ensures WordAt(s, w, p + n)
  {
    forall i | 0 <= i < |w| ensures s[p + n + i] == w[i] {
      assert s[n..][p + i] == s[p + n + i];
    }
    assert p > 0 ==> s[n..][p - 1] == s[p + n - 1];
    assert p + |w| < |s[n..]| ==> s[n..][p + |w|] == s[p + n + |w|];
  }

  lemma {:induction false} SpacePlaces(s: string, ws: seq<string>, at: seq<nat>)
    requires s != "" && IsSpace(s[0]) && AllWordsAt(s[1..], ws, at)
    ensures AllWordsAt(s, ws, ShiftAll(at, 1))
  {
    forall k | 0 <= k < |ws| ensures WordAt(s, ws[k], ShiftAll(at, 1)[k]) {
      ShiftWord(s, ws[k], at[k], 1);
    }
  }

  lemma {:induction false} ShiftSpaced(ws: seq<string>, at: seq<nat>, n: nat)
    requires Spaced(ws, at)
    ensures Spaced(ws, ShiftAll(at, n))
  {
  }

  lemma {:induction false} ShiftCovered(ws: seq<string>, at: seq<nat>, n: nat, i: nat)
    requires |at| == |ws| && n <= i && Covered(ws, at, i - n)
    ensures Covered(ws, ShiftAll(at, n), i)
  {
    var k :| 0 <= k < |ws| && at[k] <= i - n < at[k] + |ws[k]|;
    assert ShiftAll(at, n)[k] == at[k] + n;
  }

  lemma {:induction false} SkipSpace(s: string, ws: seq<string>, at: seq<nat>)
    requires s != "" && IsSpace(s[0]) && WordsAt(s[1..], ws, at)
    ensures WordsAt(s, ws, ShiftAll(at, 1))
  {
    SpacePlaces(s, ws, at);
    ShiftSpaced(ws, at, 1);
    forall i | 0 <= i < |s| && !IsSpace(s[i]) ensures Covered(ws, ShiftAll(at, 1), i) {
      assert s[1..][i - 1] == s[i];
      ShiftCovered(ws, at, 1, i);
    }
  }

  /** A word of the rest that follows a leading run does not begin where that run ends. */
  lemma {:induction false} AfterRun(s: string, n: nat, w: string, p: nat)
    requires 0 < n <= |s| && (n < |s| ==> IsSpace(s[n])) && WordAt(s[n..], w, p)
    ensures p > 0 && WordAt(s, w, p + n)
  {
    assert s[n..][p + 0] == w[0] && s[n..][p] == s[n + p];
    ShiftWord(s, w, p, n);
  }

  lemma {:induction false} CoveredAfter(first: string, ws: seq<string>, at: seq<nat>, n: nat, i: nat)
    requires |at| == |ws| && n <= i && Covered(ws, at, i - n)
    ensures Covered([first] + ws, [0] + ShiftAll(at, n), i)
  {
    var k :| 0 <= k < |ws| && at[k] <= i - n < at[k] + |ws[k]|;
    var places := [0] + ShiftAll(at, n);
    assert places[k + 1] == at[k] + n && ([first] + ws)[k + 1] == ws[k];
  }

  lemma {:induction false} CoveredFirst(first: string, ws: seq<string>, at: seq<nat>, n: nat, i: nat)
    requires |at| == |ws| && i < |first|
    ensures Covered([first] + ws, [0] + ShiftAll(at, n), i)
  {
    assert ([0] + ShiftAll(at, n))[0] == 0 && ([first] + ws)[0] == first;
  }

  lemma {:induction false} FirstWordAt(s: string, n: nat)
    requires 0 < n <= |s| && SpaceFree(s[..n]) && (n < |s| ==> IsSpace(s[n]))
    ensures WordAt(s, s[..n], 0)
  {
  }

  lemma {:induction false} TakeSpaced(first: string, ws: seq<string>, at: seq<nat>)
    requires Spaced(ws, at) && forall k | 0 <= k < |at| :: at[k] > 0
    ensures Spaced([first] + ws, [0] + ShiftAll(at, |first|))
  {
    var words, places := [first] + ws, [0] + ShiftAll(at, |first|);
    forall k, l | 0 <= k < l < |words| ensures places[k] + |words[k]| < places[l] {
      assert places[l] == at[l - 1] + |first|;
    }
  }

  lemma {:induction false} ConsPlaces(s: string, w: string, p: nat, ws: seq<string>, at: seq<nat>)
    requires WordAt(s, w, p) && AllWordsAt(s, ws, at)
    ensures AllWordsAt(s, [w] + ws, [p] + at)
  {
    forall k | 0 <= k < |ws| + 1 ensures WordAt(s, ([w] + ws)[k], ([p] + at)[k]) {
      if k > 0 {
        assert WordAt(s, ws[k - 1], at[k - 1]);
      }
    }
  }

  lemma {:induction false} TakePlaces(s: string, n: nat, ws: seq<string>, at: seq<nat>)
    requires 0 < n <= |s| && (n < |s| ==> IsSpace(s[n])) && AllWordsAt(s[n..], ws, at)
    ensures AllWordsAt(s, ws, ShiftAll(at, n)) && forall k | 0 <= k < |at| :: at[k] > 0
  {
    forall k | 0 <= k < |ws| ensures at[k] > 0 && WordAt(s, ws[k], ShiftAll(at, n)[k]) {
      AfterRun(s, n, ws[k], at[k]);
    }
  }

  lemma {:induction false} TakeCovered(s: string, n: nat, ws: seq<string>, at: seq<nat>, i: nat)
    requires n <= |s| && |at| == |ws| && i < |s|
    requires i >= n ==> Covered(ws, at, i - n)
    ensures Covered([s[..n]] + ws, [0] + ShiftAll(at, n), i)
  {
    if i < n {
      CoveredFirst(s[..n], ws, at, n, i);
    } else {
      CoveredAfter(s[..n], ws, at, n, i);
    }
  }

  lemma {:induction false} TakeWord(s: string, n: nat, ws: seq<string>, at: seq<nat>)
    requires 0 < n <= |s| && SpaceFree(s[..n]) && (n < |s| ==> IsSpace(s[n])) && WordsAt(s[n..], ws, at)
    ensures WordsAt(s, [s[..n]] + ws, [0] + ShiftAll(at, n))
  {
    FirstWordAt(s, n);
    TakePlaces(s, n, ws, at);
    ConsPlaces(s, s[..n], 0, ws, ShiftAll(at, n));
    TakeSpaced(s[..n], ws, at);
    forall i | 0 <= i < |s| && !IsSpace(s[i]) ensures Covered([s[..n]] + ws, [0] + ShiftAll(at, n), i) {
      assert i >= n ==> s[n..][i - n] == s[i];
      TakeCovered(s, n, ws, at, i);
    }
  }

  /** s.split() gives, in order, the maximal runs of the text without whitespace. */
  lemma {:induction false} WordsAreRuns(s: string) returns (at: seq<nat>)
    ensures WordsAt(s, Words(s), at)
    decreases |s|
  {
    if s == "" {
      at := [];
    } else if IsSpace(s[0]) {
      at := WordsAreRuns(s[1..]);
      SkipSpace(s, Words(s[1..]), at);
      at := ShiftAll(at, 1);
    } else {
      var n := WordLength(s);
      at := WordsAreRuns(s[n..]);
      TakeWord(s, n, Words(s[n..]), at);
      at := [0] + ShiftAll(at, n);
    }
  }
}
