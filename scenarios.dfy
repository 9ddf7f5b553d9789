/**
 * Clients of the regressor that show what its contracts let a caller prove,
 * on small tables of integer rows routed by a stand-in tree.
 */
module Scenarios {
  import opened Results
  import opened Grouping
  import opened DecoratedDecisionTree

  /** A stand-in leaf regressor: fitting stores the first target, predicting returns it. */
  function FirstTarget(prototype: int, rows: seq<int>, targets: seq<int>): Option<int>
  {
    if |targets| == 0 then None else Some(targets[0])
  }

  function GrowIdentity(xs: seq<int>, ys: seq<int>): Option<int -> int> { Some(Identity) }
  function Identity(x: int): int { x }
  function GrowParity(xs: seq<int>, ys: seq<int>): Option<int -> int> { Some(Parity) }
  function Parity(x: int): int { x % 2 }
  function Same(p: int): int { p }
  function Stored(p: int, x: int): int { p }

  lemma ParityGroups(xs: seq<int>, leaves: seq<int>)
    requires xs == [1, 2, 3, 4] && leaves == Apply(Parity, xs)
    ensures leaves == [1, 0, 1, 0]
    ensures LeafSet(leaves) == {0, 1}
    ensures Mask(leaves, 1) == [0, 2] && Mask(leaves, 0) == [1, 3]
  {
    assert leaves == [1, 0, 1, 0];
    assert 0 in leaves && 1 in leaves;
    AlternatingMasks();
  }

  lemma AlternatingMasks()
    ensures Mask([1, 0, 1, 0], 1) == [0, 2] && Mask([1, 0, 1, 0], 0) == [1, 3]
  {
    assert [1, 0, 1, 0][..3] == [1, 0, 1];
    assert [1, 0, 1][..2] == [1, 0];
    assert [1, 0][..1] == [1];
    assert [1][..0] == [];
    assert Mask([1], 0) == [] && Mask([1], 1) == [0];
    assert Mask([1, 0], 0) == [1] && Mask([1, 0], 1) == [0];
    assert Mask([1, 0, 1], 0) == [1] && Mask([1, 0, 1], 1) == [0, 2];
  }

  /**
   * A second fit leaves the entry of a leaf it does not see in place. With a
   * routing that can send rows to a leaf no training row reached, predict
   * then uses that stale entry.
   */
  method RefitKeepsStaleLeaf()
  {
    var m := new DecoratedDecisionTreeRegressor<int, int, int, int>(GrowIdentity, 0, Same, FirstTarget, Stored);
    assert GrowIdentity([1], [10]) == Some(Identity);
    var r := m.Fit([1], [10]);
    var leaves := Apply(Identity, [1]);
    assert leaves == [1];
    assert LeafSet(leaves) == {1} by { assert 1 in leaves; }
    assert Mask(leaves, 1) == [0];
    assert m.LeafFit([1], [10], leaves, 1) == Some(10);
    assert r == Pass && m.leafModels[1] == 10;

    assert GrowIdentity([2], [20]) == Some(Identity);
    r := m.Fit([2], [20]);
    leaves := Apply(Identity, [2]);
    assert leaves == [2];
    assert LeafSet(leaves) == {2} by { assert 2 in leaves; }
    assert Mask(leaves, 2) == [0];
    assert m.LeafFit([2], [20], leaves, 2) == Some(20);
    assert r == Pass && m.leafModels[2] == 20;
    // leaf 1 was not reached by the second fit, yet its model from the first fit remains
    assert 1 in m.leafModels && m.leafModels[1] == 10;

    PredictUsesBothFits(m);
  }

  method PredictUsesBothFits(m: DecoratedDecisionTreeRegressor<int, int, int, int>)
    requires m.dtr == Fitted(Identity) && m.predictModel == Stored
    requires 1 in m.leafModels && m.leafModels[1] == 10
    requires 2 in m.leafModels && m.leafModels[2] == 20
  {
    var p := m.Predict([1, 2]);
    assert AllRouted(Identity, m.leafModels, [1, 2]);
    var e := RowPredictions(Identity, m.leafModels, Stored, [1, 2]);
    assert e[0] == 10 && e[1] == 20;
    assert e == [10, 20];
    assert p == Success([10, 20]);
  }

  /** A row routed to a leaf that no training row reached is reported, not predicted. */
  method UnseenLeafIsReported()
  {
    var m := new DecoratedDecisionTreeRegressor<int, int, int, int>(GrowIdentity, 0, Same, FirstTarget, Stored);
    var p := m.Predict([1]);
    assert p == Failure(NotFitted);

    assert GrowIdentity([1], [10]) == Some(Identity);
    var r := m.Fit([1], [10]);
    var leaves := Apply(Identity, [1]);
    assert leaves == [1];
    assert LeafSet(leaves) == {1} by { assert 1 in leaves; }
    assert 3 !in m.leafModels;

    p := m.Predict([3]);
    leaves := Apply(Identity, [3]);
    assert leaves == [3];
    assert LeafSet(leaves) == {3} by { assert 3 in leaves; }
    assert !AllRouted(Identity, m.leafModels, [3]);
    assert p == Failure(UnseenLeaf(3));
  }

  /** Four rows routed two and two; predicting on a reordered copy follows the new order. */
  method ReorderedInputFollowsRows()
  {
    var m := new DecoratedDecisionTreeRegressor<int, int, int, int>(GrowParity, 0, Same, FirstTarget, Stored);
    var xs, ys := [1, 2, 3, 4], [5, 6, 5, 6];
    assert GrowParity(xs, ys) == Some(Parity);
    var r := m.Fit(xs, ys);
    var leaves := Apply(Parity, xs);
    ParityGroups(xs, leaves);
    assert m.LeafFit(xs, ys, leaves, 1) == Some(5);
    assert m.LeafFit(xs, ys, leaves, 0) == Some(6);
    assert r == Pass && m.leafModels[1] == 5 && m.leafModels[0] == 6;

    PredictReversed(m);
  }

  method PredictReversed(m: DecoratedDecisionTreeRegressor<int, int, int, int>)
    requires m.dtr == Fitted(Parity) && m.predictModel == Stored
    requires 0 in m.leafModels && m.leafModels[0] == 6
    requires 1 in m.leafModels && m.leafModels[1] == 5
  {
    var p := m.Predict([4, 3, 2, 1]);
    assert AllRouted(Parity, m.leafModels, [4, 3, 2, 1]);
    var e := RowPredictions(Parity, m.leafModels, Stored, [4, 3, 2, 1]);
    assert e[0] == 6 && e[1] == 5 && e[2] == 6 && e[3] == 5;
    assert e == [6, 5, 6, 5];
    assert p == Success([6, 5, 6, 5]);
  }
}
