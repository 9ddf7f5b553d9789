/**
 * A decorated decision tree regressor ("model tree"). A decision tree routes
 * every row to a leaf id; a separate leaf regressor, a fresh clone of the
 * `decorator` prototype, is fit on the training rows of each leaf; predict
 * routes new rows to leaves, asks each leaf's model for its rows, and puts the
 * predictions back in input order.
 *
 * The learning components are parameters of the class:
 *   fitTree       the tree's `fit` followed by its `apply`: the routing the trained
 *                 tree gives (None when the tree rejects the data);
 *   cloneModel    `clone`: an unfit copy of a regressor with the same configuration;
 *   fitModel      the leaf regressor's `fit` on some rows and targets (None when it
 *                 raises, e.g. too few rows);
 *   predictModel  the leaf regressor's `predict`, row by row.
 */
module DecoratedDecisionTree {
  import opened Results
  import opened Grouping
  import opened Ordering

  /** The state of the wrapped decision tree. */
  datatype Tree<!R, L> = Unfitted | Fitted(apply: R -> L)

  datatype FitError<L> =
    | InvalidInput    // the tree's input check: no rows, or rows and targets differ in number
    | TreeFitFailed   // the tree's own fit rejected the data
    | LeafFitFailed(leaf: L)  // the regressor fit on this leaf's rows raised

  datatype PredictError<L> =
    | NotFitted       // the tree was never fit, so `apply` raises
    | NoRows          // an empty frame: `apply` rejects it and there is nothing to sort
    | UnseenLeaf(leaf: L)  // `leaf_models[leaf]` raises KeyError

  /** Every row is routed to a leaf that has a stored model. */
  ghost predicate AllRouted<R, L, M>(apply: R -> L, models: map<L, M>, xs: seq<R>)
  {
    forall i :: 0 <= i < |xs| ==> apply(xs[i]) in models
  }

  /** The prediction for one row: its leaf's model applied to it, or None when the leaf has no model. */
  ghost function RowPrediction<R, L, M, Y>(apply: R -> L, models: map<L, M>,
                                          predict: (M, R) -> Y, x: R): Option<Y>
  {
    if apply(x) in models then Some(predict(models[apply(x)], x)) else None
  }

  /** What predict should return: row i predicted by the model of row i's leaf. */
  ghost function RowPredictions<R, L, M, Y>(apply: R -> L, models: map<L, M>,
                                           predict: (M, R) -> Y, xs: seq<R>): seq<Y>
    requires AllRouted(apply, models, xs)
  {
    seq(|xs|, i requires 0 <= i < |xs| => RowPrediction(apply, models, predict, xs[i]).value)
  }

  /**
   * Predict is a row-wise map: predicting a reordering of the rows (any
   * selection of positions, duplicates allowed) gives the predictions
   * reordered the same way.
   */
  lemma PredictionsFollowRowOrder<R, L, M, Y>(apply: R -> L, models: map<L, M>, predict: (M, R) -> Y,
                                             xs: seq<R>, order: seq<nat>)
    requires AllRouted(apply, models, xs)
    requires forall k :: 0 <= k < |order| ==> order[k] < |xs|
    ensures AllRouted(apply, models, Pick(xs, order))
    ensures RowPredictions(apply, models, predict, Pick(xs, order))
            == Pick(RowPredictions(apply, models, predict, xs), order)
  {
  }

  /**
   * Leaf isolation: the prediction for row i depends only on row i and the
   * model of row i's leaf, whatever the other leaves' models are.
   */
  lemma PredictionDependsOnOwnLeaf<R, L, M, Y>(apply: R -> L, m1: map<L, M>, m2: map<L, M>,
                                              predict: (M, R) -> Y, xs: seq<R>, i: nat)
    requires AllRouted(apply, m1, xs) && AllRouted(apply, m2, xs)
    requires i < |xs| && m1[apply(xs[i])] == m2[apply(xs[i])]
    ensures RowPredictions(apply, m1, predict, xs)[i] == RowPredictions(apply, m2, predict, xs)[i]
  {
  }

  /** Both maps hold the same entry (or no entry) for key k. */
  ghost predicate SameEntry<K, V>(m1: map<K, V>, m2: map<K, V>, k: K)
  {
    (k in m1 <==> k in m2) && (k in m1 ==> m1[k] == m2[k])
  }

  /**
   * `RowPrediction` of every row, defined also when some leaf has no model;
   * the loop of `Predict` tracks its table against this before knowing that
   * every leaf is routed.
   */
  ghost function Expected<R, L, M, Y>(apply: R -> L, models: map<L, M>, predict: (M, R) -> Y,
                                     xs: seq<R>): (e: seq<Option<Y>>)
    ensures |e| == |xs|
  {
    seq(|xs|, i requires 0 <= i < |xs| => RowPrediction(apply, models, predict, xs[i]))
  }

  /** One leaf's predictions, each tagged with its row position (`__ordering`). */
  function LeafChunk<R, L(==), M, Y>(xs: seq<R>, leaves: seq<L>, leaf: L, model: M,
                                     predict: (M, R) -> Y): (chunk: seq<(nat, Y)>)
    requires |xs| == |leaves|
  {
    var rows := Mask(leaves, leaf);
    seq(|rows|, k requires 0 <= k < |rows| => (rows[k], predict(model, xs[rows[k]])))
  }

  /**
   * The concatenated table so far: it holds, once each, exactly the rows whose
   * leaf is in `done`, each with its expected prediction.
   */
  ghost predicate TableCovers<L, Y>(table: seq<(nat, Y)>, leaves: seq<L>, done: set<L>,
                                    expected: seq<Option<Y>>)
  {
    && |expected| == |leaves|
    && (forall k :: 0 <= k < |table| ==>
          table[k].0 < |leaves| && leaves[table[k].0] in done && expected[table[k].0] == Some(table[k].1))
    && DistinctTags(table)
    && (forall i :: 0 <= i < |leaves| && leaves[i] in done ==> HasTag(table, i))
  }

  lemma AppendChunk<R, L, M, Y>(table: seq<(nat, Y)>, leaves: seq<L>, done: set<L>,
                                expected: seq<Option<Y>>, xs: seq<R>, leaf: L, model: M,
                                predict: (M, R) -> Y)
    requires TableCovers(table, leaves, done, expected)
    requires |xs| == |leaves| && leaf !in done
    requires forall i :: 0 <= i < |xs| && leaves[i] == leaf ==> expected[i] == Some(predict(model, xs[i]))
    ensures TableCovers(table + LeafChunk(xs, leaves, leaf, model, predict), leaves, done + {leaf}, expected)
  {
    var chunk := LeafChunk(xs, leaves, leaf, model, predict);
    var rows := Mask(leaves, leaf);
    var t := table + chunk;
    forall a, b | 0 <= a < b < |t| ensures t[a].0 != t[b].0 {
      if b >= |table| && a < |table| {
        assert leaves[t[a].0] in done;
        assert leaves[t[b].0] == leaf;
      }
    }
    forall i | 0 <= i < |leaves| && leaves[i] in done + {leaf} ensures HasTag(t, i) {
      if leaves[i] in done {
        var k :| 0 <= k < |table| && table[k].0 == i;
        assert t[k] == table[k];
      } else {
        var j :| 0 <= j < |rows| && rows[j] == i;
        assert t[|table| + j].0 == i;
      }
    }
  }

  lemma CoveredTableIsPositions<L, Y>(table: seq<(nat, Y)>, leaves: seq<L>, done: set<L>,
                                      expected: seq<Option<Y>>)
    requires TableCovers(table, leaves, done, expected)
    requires done == LeafSet(leaves)
    ensures TagsArePositions(table, |leaves|)
  {
  }

  lemma ReorderedIsExpected<Y>(table: seq<(nat, Y)>, expected: seq<Option<Y>>, ys: seq<Y>)
    requires |ys| == |expected|
    requires forall k :: 0 <= k < |table| ==> table[k].0 < |expected| && expected[table[k].0] == Some(table[k].1)
    requires forall i :: 0 <= i < |ys| ==> (i, ys[i]) in table
    ensures forall i :: 0 <= i < |ys| ==> expected[i] == Some(ys[i])
  {
  }

  class DecoratedDecisionTreeRegressor<R, L(==), Y, M> {
    const fitTree: (seq<R>, seq<Y>) -> Option<R -> L>
    const decorator: M
    const cloneModel: M -> M
    const fitModel: (M, seq<R>, seq<Y>) -> Option<M>
    const predictModel: (M, R) -> Y

    var dtr: Tree<R, L>
    var leafModels: map<L, M>

    constructor (fitTree: (seq<R>, seq<Y>) -> Option<R -> L>, decorator: M, cloneModel: M -> M,
                 fitModel: (M, seq<R>, seq<Y>) -> Option<M>, predictModel: (M, R) -> Y)
      ensures this.fitTree == fitTree && this.decorator == decorator && this.cloneModel == cloneModel
      ensures this.fitModel == fitModel && this.predictModel == predictModel
      ensures dtr == Unfitted && leafModels == map[]
    {
      this.fitTree := fitTree;
      this.decorator := decorator;
      this.cloneModel := cloneModel;
      this.fitModel := fitModel;
      this.predictModel := predictModel;
      dtr := Unfitted;
      leafModels := map[];
    }

    /** The model fit for `leaf`: a clone of the prototype fit on that leaf's rows and targets. */
    ghost function LeafFit(xs: seq<R>, ys: seq<Y>, leaves: seq<L>, leaf: L): Option<M>
      requires |xs| == |ys| == |leaves|
    {
      fitModel(cloneModel(decorator), Select(xs, leaves, leaf), Select(ys, leaves, leaf))
    }

    /**
     * Fit the tree, then fit one clone of the prototype per distinct leaf and
     * store it under that leaf. The map is not cleared first: entries of
     * leaves absent from this fit stay, and a leaf fit that fails stops the
     * loop with the entries written so far in place.
     */
    method Fit(xs: seq<R>, ys: seq<Y>) returns (r: Outcome<FitError<L>>)
      modifies this
      ensures |xs| == 0 || |xs| != |ys| ==> r == Fail(InvalidInput) && unchanged(this)
      ensures |xs| > 0 && |xs| == |ys| && fitTree(xs, ys).None? ==>
                r == Fail(TreeFitFailed) && unchanged(this)
      ensures |xs| > 0 && |xs| == |ys| && fitTree(xs, ys).Some? ==>
                var leaves := Apply(fitTree(xs, ys).value, xs);
                && dtr == Fitted(fitTree(xs, ys).value)
                // keys outside set(leaves) are untouched
                && (forall l :: l !in LeafSet(leaves) ==> SameEntry(leafModels, old(leafModels), l))
                // each key of set(leaves) holds its new model or, after a failure, its old entry
                && (forall l :: l in LeafSet(leaves) ==>
                      (l in leafModels && LeafFit(xs, ys, leaves, l) == Some(leafModels[l]))
                      || (r.Fail? && SameEntry(leafModels, old(leafModels), l)))
                // fit passes exactly when every leaf's model fits
                && (r.Pass? <==> forall l :: l in LeafSet(leaves) ==> LeafFit(xs, ys, leaves, l).Some?)
                && (r.Fail? ==> r.error.LeafFitFailed? && r.error.leaf in LeafSet(leaves)
                                && LeafFit(xs, ys, leaves, r.error.leaf).None?
                                && SameEntry(leafModels, old(leafModels), r.error.leaf))
    {
      if |xs| == 0 || |xs| != |ys| {
        return Fail(InvalidInput);
      }
      var grown := fitTree(xs, ys);
      if grown.None? {
        return Fail(TreeFitFailed);
      }
      dtr := Fitted(grown.value);
      var leaves := Apply(grown.value, xs);
      var remaining := LeafSet(leaves);
      ghost var done: set<L> := {};
      while remaining != {}
        invariant remaining + done == LeafSet(leaves) && remaining !! done
        invariant dtr == Fitted(grown.value)
        invariant forall l :: l in done ==> l in leafModels && LeafFit(xs, ys, leaves, l) == Some(leafModels[l])
        invariant forall l :: l !in done ==> SameEntry(leafModels, old(leafModels), l)
        decreases remaining
      {
        var leaf :| leaf in remaining;
        var leafModel := cloneModel(decorator);
        var fitted := fitModel(leafModel, Select(xs, leaves, leaf), Select(ys, leaves, leaf));
        if fitted.None? {
          return Fail(LeafFitFailed(leaf));
        }
        leafModels := leafModels[leaf := fitted.value];
        remaining := remaining - {leaf};
        done := done + {leaf};
      }
      return Pass;
    }

    /**
     * Route the rows, predict each leaf's rows with that leaf's stored model,
     * concatenate the per-leaf results tagged with their row positions and
     * sort them by tag. Reads the stored state and changes nothing.
     */
    method Predict(xs: seq<R>) returns (r: Result<seq<Y>, PredictError<L>>)
      ensures dtr.Unfitted? ==> r == Failure(NotFitted)
      ensures dtr.Fitted? && |xs| == 0 ==> r == Failure(NoRows)
      ensures dtr.Fitted? && |xs| > 0 && !AllRouted(dtr.apply, leafModels, xs) ==>
                r.Failure? && r.error.UnseenLeaf? && r.error.leaf !in leafModels
                && r.error.leaf in LeafSet(Apply(dtr.apply, xs))
      ensures dtr.Fitted? && |xs| > 0 && AllRouted(dtr.apply, leafModels, xs) ==>
                r.Success? && |r.value| == |xs|
                && r.value == RowPredictions(dtr.apply, leafModels, predictModel, xs)
    {
      if dtr.Unfitted? {
        return Failure(NotFitted);
      }
      if |xs| == 0 {
        return Failure(NoRows);
      }
      var n := |xs|;
      var leaves := Apply(dtr.apply, xs);
      ghost var expected := Expected(dtr.apply, leafModels, predictModel, xs);
      var table: seq<(nat, Y)> := [];
      var remaining := LeafSet(leaves);
      ghost var done: set<L> := {};
      while remaining != {}
        invariant remaining + done == LeafSet(leaves) && remaining !! done
        invariant forall l :: l in done ==> l in leafModels
        invariant TableCovers(table, leaves, done, expected)
        decreases remaining
      {
        var leaf :| leaf in remaining;
        if leaf !in leafModels {
          return Failure(UnseenLeaf(leaf));
        }
        var model := leafModels[leaf];
        var chunk := LeafChunk(xs, leaves, leaf, model, predictModel);
        AppendChunk(table, leaves, done, expected, xs, leaf, model, predictModel);
        table := table + chunk;
        remaining := remaining - {leaf};
        done := done + {leaf};
      }
      CoveredTableIsPositions(table, leaves, done, expected);
      var ys := Reorder(table, n);
      ReorderedIsExpected(table, expected, ys);
      return Success(ys);
    }
  }
}
