/** A loop that skips some items: what it collects, and from which positions. */
module Filtering {
  import opened Wrappers
  import opened GreedyFilter

  function Somes<T>(xs: seq<Option<T>>): seq<T> {
    if xs == [] then []
    else
      var n := |xs| - 1;
      match xs[n]
      case None => Somes(xs[..n])
      case Some(x) => Somes(xs[..n]) + [x]
  }

  /** The items at these positions, in order, and no item anywhere else. */
  ghost predicate PickedAt<T>(xs: seq<Option<T>>, ys: seq<T>, at: seq<nat>) {
    && |at| == |ys| && Positions(at, |xs|)
    && (forall k | 0 <= k < |at| :: xs[at[k]] == Some(ys[k]))
    && (forall i | 0 <= i < |xs| && i !in at :: xs[i] == None)
  }

  lemma {:induction false} SkipNone<T>(xs: seq<Option<T>>, ys: seq<T>, at: seq<nat>)
    requires xs != [] && xs[|xs| - 1].None? && PickedAt(xs[..|xs| - 1], ys, at)
    ensures PickedAt(xs, ys, at)
  {
    var init := xs[..|xs| - 1];
    assert forall i | 0 <= i < |init| :: init[i] == xs[i];
  }

  lemma {:induction false} TakeSome<T>(xs: seq<Option<T>>, ys: seq<T>, at: seq<nat>)
    requires xs != [] && xs[|xs| - 1].Some? && PickedAt(xs[..|xs| - 1], ys, at)
    ensures PickedAt(xs, ys + [xs[|xs| - 1].value], at + [|xs| - 1])
  {
    var init := xs[..|xs| - 1];
    assert forall i | 0 <= i < |init| :: init[i] == xs[i];
    assert (at + [|init|])[|at|] == |init|;
    assert forall i | i in at :: i in at + [|init|];
  }

  lemma {:induction false} SomesAt<T>(xs: seq<Option<T>>) returns (at: seq<nat>)
    ensures PickedAt(xs, Somes(xs), at)
  {
    if xs == [] {
      at := [];
    } else {
      var n := |xs| - 1;
      at := SomesAt(xs[..n]);
      if xs[n].Some? {
        TakeSome(xs, Somes(xs[..n]), at);
        at := at + [n];
      } else {
        SkipNone(xs, Somes(xs[..n]), at);
      }
    }
  }
}
