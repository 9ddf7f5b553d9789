/**
 * Group-by-leaf over a table whose rows have been routed to leaves.
 * `leaves[i]` is the leaf of row i; the boolean mask `leaves == leaf` of the
 * source is modelled by the ascending list of row positions it selects.
 */
module Grouping {

  /** Route every row to its leaf (the tree's `apply`, row by row). */
  function Apply<R, L>(route: R -> L, xs: seq<R>): (leaves: seq<L>)
    ensures |leaves| == |xs|
    ensures forall i :: 0 <= i < |xs| ==> leaves[i] == route(xs[i])
  {
    seq(|xs|, i requires 0 <= i < |xs| => route(xs[i]))
  }

  /** The distinct leaf ids, `set(leaves)`. */
  function LeafSet<L(==)>(leaves: seq<L>): set<L>
  {
    set l | l in leaves
  }

  /** The positions selected by the mask `leaves == leaf`, in ascending order. */
  function Mask<L(==)>(leaves: seq<L>, leaf: L): (ps: seq<nat>)
    ensures forall k :: 0 <= k < |ps| ==> ps[k] < |leaves| && leaves[ps[k]] == leaf
    ensures forall k, j :: 0 <= k < j < |ps| ==> ps[k] < ps[j]
    ensures forall i: nat :: i in ps <==> i < |leaves| && leaves[i] == leaf
  {
    if |leaves| == 0 then []
    else
      var last := |leaves| - 1;
      var rest := Mask(leaves[..last], leaf);
      if leaves[last] == leaf then rest + [last] else rest
  }

  /** The entries of `xs` at positions `ps`, in the order of `ps`. */
  function Pick<T>(xs: seq<T>, ps: seq<nat>): (r: seq<T>)
    requires forall k :: 0 <= k < |ps| ==> ps[k] < |xs|
    ensures |r| == |ps|
  {
    seq(|ps|, k requires 0 <= k < |ps| => xs[ps[k]])
  }

  /** `xs[leaves == leaf]`: the rows (or targets) of one leaf, in their original order. */
  function Select<T, L(==)>(xs: seq<T>, leaves: seq<L>, leaf: L): (r: seq<T>)
    requires |xs| == |leaves|
  {
    Pick(xs, Mask(leaves, leaf))
  }

  /** Reference definition of boolean-mask selection: keep each row whose leaf matches. */
  function Filter<T, L(==)>(xs: seq<T>, leaves: seq<L>, leaf: L): seq<T>
    requires |xs| == |leaves|
  {
    if |xs| == 0 then []
    else
      var last := |xs| - 1;
      Filter(xs[..last], leaves[..last], leaf) + (if leaves[last] == leaf then [xs[last]] else [])
  }

  /** Gathering by the mask positions is exactly the mask filter: the rows of a leaf, kept in order. */
  lemma {:induction false} SelectIsFilter<T, L>(xs: seq<T>, leaves: seq<L>, leaf: L)
    requires |xs| == |leaves|
    ensures Select(xs, leaves, leaf) == Filter(xs, leaves, leaf)
  {
    if |xs| > 0 {
      var last := |xs| - 1;
      var ps := Mask(leaves[..last], leaf);
      SelectIsFilter(xs[..last], leaves[..last], leaf);
      assert Pick(xs, ps) == Pick(xs[..last], ps);
      if leaves[last] == leaf {
        assert Pick(xs, ps + [last]) == Pick(xs, ps) + [xs[last]];
      }
    }
  }

  function Zip<A, B>(xs: seq<A>, ys: seq<B>): (z: seq<(A, B)>)
    requires |xs| == |ys|
    ensures |z| == |xs|
  {
    seq(|xs|, i requires 0 <= i < |xs| => (xs[i], ys[i]))
  }

  /**
   * Selecting the rows and the targets with the same mask, as two separate
   * selections, keeps every row paired with its own target.
   */
  lemma SelectKeepsPairs<A, B, L>(xs: seq<A>, ys: seq<B>, leaves: seq<L>, leaf: L)
    requires |xs| == |ys| == |leaves|
    ensures Select(Zip(xs, ys), leaves, leaf) == Zip(Select(xs, leaves, leaf), Select(ys, leaves, leaf))
  {
  }

  /** Row i belongs to the group of leaf l exactly when it was routed to l: the groups are
      pairwise disjoint and cover every row. */
  lemma GroupsPartitionRows<L>(leaves: seq<L>, i: nat)
    requires i < |leaves|
    ensures leaves[i] in LeafSet(leaves)
    ensures forall l :: i in Mask(leaves, l) <==> l == leaves[i]
  {
  }
}
