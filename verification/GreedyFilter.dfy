/** The greedy filter of validate_mcq: keep an item unless it clashes with one already kept. */
module GreedyFilter {

  predicate Duplicate<T>(x: T, kept: seq<T>, clash: (T, T) -> bool) {
    exists k | 0 <= k < |kept| :: clash(x, kept[k])
  }

  function Kept<T>(xs: seq<T>, clash: (T, T) -> bool): seq<T> {
    if xs == [] then []
    else
      var n := |xs| - 1;
      var kept := Kept(xs[..n], clash);
      if Duplicate(xs[n], kept, clash) then kept else kept + [xs[n]]
  }

  /** Positions of a subsequence. */
  predicate Positions(ix: seq<nat>, n: nat) {
    && (forall k | 0 <= k < |ix| :: ix[k] < n)
    && (forall k, l | 0 <= k < l < |ix| :: ix[k] < ix[l])
  }

  function Pick<T>(xs: seq<T>, ix: seq<nat>): seq<T>
    requires Positions(ix, |xs|)
  {
    seq(|ix|, k requires 0 <= k < |ix| => xs[ix[k]])
  }

  predicate Apart<T>(xs: seq<T>, ix: seq<nat>, clash: (T, T) -> bool)
    requires Positions(ix, |xs|)
  {
    forall k, l | 0 <= k < l < |ix| :: !clash(xs[ix[l]], xs[ix[k]])
  }

  /** An earlier kept item that the one at i clashes with. */
  predicate Witness<T>(xs: seq<T>, ix: seq<nat>, clash: (T, T) -> bool, i: nat, k: nat)
    requires Positions(ix, |xs|) && i < |xs|
  {
    k < |ix| && ix[k] < i && clash(xs[i], xs[ix[k]])
  }

  predicate Excused<T>(xs: seq<T>, ix: seq<nat>, clash: (T, T) -> bool, i: nat)
    requires Positions(ix, |xs|) && i < |xs|
  {
    exists k | 0 <= k < |ix| :: Witness(xs, ix, clash, i, k)
  }

  /** The items at these positions are apart, and every other item has an earlier one among them as witness. */
  predicate Greedy<T>(xs: seq<T>, ix: seq<nat>, clash: (T, T) -> bool) {
    && Positions(ix, |xs|)
    && Apart(xs, ix, clash)
    && (forall i | 0 <= i < |xs| && i !in ix :: Excused(xs, ix, clash, i))
  }

  lemma {:induction false} ExcusedStill<T>(xs: seq<T>, x: T, ix: seq<nat>, more: seq<nat>, clash: (T, T) -> bool,
                                           i: nat)
    requires Positions(ix, |xs|) && Positions(ix + more, |xs| + 1) && i < |xs| && Excused(xs, ix, clash, i)
    ensures Excused(xs + [x], ix + more, clash, i)
  {
    var k: nat :| k < |ix| && Witness(xs, ix, clash, i, k);
    assert (ix + more)[k] == ix[k];
    assert Witness(xs + [x], ix + more, clash, i, k);
  }

  lemma {:induction false} SkipOne<T>(xs: seq<T>, x: T, ix: seq<nat>, clash: (T, T) -> bool)
    requires Greedy(xs, ix, clash) && Duplicate(x, Pick(xs, ix), clash)
    ensures Greedy(xs + [x], ix, clash) && Pick(xs + [x], ix) == Pick(xs, ix)
  {
    var d :| 0 <= d < |ix| && clash(x, Pick(xs, ix)[d]);
    assert Witness(xs + [x], ix, clash, |xs|, d);
    forall i | 0 <= i < |xs| && i !in ix ensures Excused(xs + [x], ix, clash, i) {
      assert ix + [] == ix;
      ExcusedStill(xs, x, ix, [], clash, i);
    }
  }

  lemma {:induction false} AddOne<T>(xs: seq<T>, x: T, ix: seq<nat>, clash: (T, T) -> bool)
    requires Greedy(xs, ix, clash) && !Duplicate(x, Pick(xs, ix), clash)
    ensures Greedy(xs + [x], ix + [|xs|], clash) && Pick(xs + [x], ix + [|xs|]) == Pick(xs, ix) + [x]
  {
    var all, jx := xs + [x], ix + [|xs|];
    forall k | 0 <= k < |ix| ensures !clash(x, xs[ix[k]]) {
      assert Pick(xs, ix)[k] == xs[ix[k]];
    }
    forall i | 0 <= i < |all| && i !in jx ensures Excused(all, jx, clash, i) {
      assert jx[|ix|] == |xs|;
      assert forall k | 0 <= k < |ix| :: jx[k] == ix[k];
      assert i !in ix;
      ExcusedStill(xs, x, ix, [|xs|], clash, i);
    }
  }

  /**
   * What is kept is an ordered subsequence, any two of its items are apart, and every item left out
   * has an earlier kept one that it clashes with.
   */
  lemma {:induction false} KeptIsGreedy<T>(xs: seq<T>, clash: (T, T) -> bool) returns (ix: seq<nat>)
    ensures Greedy(xs, ix, clash) && Kept(xs, clash) == Pick(xs, ix)
  {
    if xs == [] {
      ix := [];
    } else {
      var n := |xs| - 1;
      var init, x := xs[..n], xs[n];
      assert xs == init + [x];
      ix := KeptIsGreedy(init, clash);
      if Duplicate(x, Kept(init, clash), clash) {
        SkipOne(init, x, ix, clash);
      } else {
        AddOne(init, x, ix, clash);
        ix := ix + [n];
      }
    }
  }

  lemma {:induction false} BothKept<T>(xs: seq<T>, ix: seq<nat>, clash: (T, T) -> bool, i: nat, j: nat)
    requires Greedy(xs, ix, clash) && i in ix && j in ix && i < j
    ensures j < |xs| && !clash(xs[j], xs[i])
  {
    var k :| 0 <= k < |ix| && ix[k] == i;
    var l :| 0 <= l < |ix| && ix[l] == j;
  }

  /** That description leaves no choice: no other positions fit it. */
  lemma {:induction false} GreedyUnique<T>(xs: seq<T>, a: seq<nat>, b: seq<nat>, clash: (T, T) -> bool, i: nat)
    requires Greedy(xs, a, clash) && Greedy(xs, b, clash) && i < |xs|
    ensures i in a <==> i in b
    decreases i
  {
    if i in a && i !in b {
      OnlyOne(xs, a, b, clash, i);
    } else if i in b && i !in a {
      OnlyOne(xs, b, a, clash, i);
    }
  }

  lemma {:induction false} OnlyOne<T>(xs: seq<T>, a: seq<nat>, b: seq<nat>, clash: (T, T) -> bool, i: nat)
    requires Greedy(xs, a, clash) && Greedy(xs, b, clash) && i < |xs| && i in a
    ensures i in b
    decreases i, 0
  {
    if i !in b {
      var k: nat :| k < |b| && Witness(xs, b, clash, i, k);
      GreedyUnique(xs, b, a, clash, b[k]);
      BothKept(xs, a, clash, b[k], i);
    }
  }

  /** Items that do not clash are all kept. */
  lemma {:induction false} KeptAll<T>(xs: seq<T>, clash: (T, T) -> bool)
    requires Pairwise(xs, clash)
    ensures Kept(xs, clash) == xs
  {
    if xs != [] {
      KeptAll(xs[..|xs| - 1], clash);
    }
  }

  predicate Pairwise<T>(kept: seq<T>, clash: (T, T) -> bool) {
    forall i, j | 0 <= i < j < |kept| :: !clash(kept[j], kept[i])
  }

  lemma {:induction false} AppendPairwise<T>(kept: seq<T>, x: T, clash: (T, T) -> bool)
    requires !Duplicate(x, kept, clash) && Pairwise(kept, clash)
    ensures Pairwise(kept + [x], clash)
  {
  }

  lemma {:induction false} KeptPairwise<T>(xs: seq<T>, clash: (T, T) -> bool)
    ensures Pairwise(Kept(xs, clash), clash)
    ensures forall x | x in Kept(xs, clash) :: x in xs
  {
    if xs != [] {
      var n := |xs| - 1;
      KeptPairwise(xs[..n], clash);
      var was := Kept(xs[..n], clash);
      if !Duplicate(xs[n], was, clash) {
        AppendPairwise(was, xs[n], clash);
      }
    }
  }
}
