/** Small sequence utilities shared by the scanner and the row loop. */
module Collections {
  import opened Wrappers

  predicate Increasing(xs: seq<nat>) {
    forall i, j :: 0 <= i < j < |xs| ==> xs[i] < xs[j]
  }

  /** The positions of the `Some` entries of `xs`, in increasing order:
      exactly those positions. */
  function SomeIndices<T>(xs: seq<Option<T>>): (ps: seq<nat>)
    ensures Increasing(ps)
    ensures forall k :: 0 <= k < |ps| ==> ps[k] < |xs| && xs[ps[k]].Some?
    ensures forall i :: 0 <= i < |xs| && xs[i].Some? ==> i in ps
    decreases |xs|
  {
    if |xs| == 0 then []
    else
      var init := xs[..|xs| - 1];
      assert forall i :: 0 <= i < |init| ==> init[i] == xs[i];
      SomeIndices(init) + (if xs[|xs| - 1].Some? then [|xs| - 1] else [])
  }

  /** The values of the `Some` entries of `xs`, in order: the k-th value sits
      at the k-th `Some` position. */
  function Somes<T>(xs: seq<Option<T>>): (ys: seq<T>)
    ensures |ys| == |SomeIndices(xs)|
    ensures forall k :: 0 <= k < |ys| ==> xs[SomeIndices(xs)[k]] == Some(ys[k])
    decreases |xs|
  {
    if |xs| == 0 then []
    else
      var init := xs[..|xs| - 1];
      assert forall i :: 0 <= i < |init| ==> init[i] == xs[i];
      Somes(init) + (if xs[|xs| - 1].Some? then [xs[|xs| - 1].value] else [])
  }

  /** Strictly increasing naturals below `bound` number at most `bound`. */
  lemma {:induction false} IncreasingBelow(ns: seq<nat>, bound: nat)
    requires Increasing(ns)
    requires forall k :: 0 <= k < |ns| ==> ns[k] < bound
    ensures |ns| <= bound
    decreases |ns|
  {
    if |ns| > 0 {
      var init := ns[..|ns| - 1];
      assert forall k :: 0 <= k < |init| ==> init[k] < ns[|ns| - 1];
      IncreasingBelow(init, ns[|ns| - 1]);
    }
  }

}
