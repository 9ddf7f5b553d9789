# Decorated decision tree regressor, modelled in Dafny

`DecoratedDecisionTreeRegressor` is a "model tree". A decision tree (the
partitioner, `dtr`) sends every row to a leaf id. `fit` groups the training
rows by leaf id, trains a fresh clone of the leaf regressor (`decorator`) on
each group and stores it in the `leaf_models` dictionary. `predict` sends new
rows to leaves, predicts each group with that leaf's stored model, and puts the
results back in input order: it tags every row with its position
(`__ordering`, 0..n-1), concatenates the per-leaf results and sorts them on
that tag.

The model keeps the source's shape:

- `decorated_tree.dfy`, module `DecoratedDecisionTree`: the class
  `DecoratedDecisionTreeRegressor<R, L, Y, M>` (rows `R`, leaf ids `L`, target
  and prediction values `Y`, leaf models `M`). Its mutable fields are the tree
  state `dtr` (`Unfitted` or `Fitted(apply)`) and `leafModels: map<L, M>`.
  `Fit` and `Predict` are methods whose loops run over `set(leaves)` in an
  arbitrary order (`:|`), as Python's set iteration does. The learning
  components are `const` function fields given to the constructor:
  - `fitTree` is the tree's `fit` followed by `apply`. It returns the trained
    routing, or `None` when the tree rejects the data.
  - `cloneModel` is `sklearn.base.clone`.
  - `fitModel` is the leaf regressor's `fit`. It returns `None` when it raises.
  - `predictModel` is the leaf regressor's `predict`, taken row by row.
- `grouping.dfy`, module `Grouping`: routing (`Apply`), `set(leaves)`
  (`LeafSet`), and the boolean mask `leaves == leaf` (`Mask`, `Select`).
- `ordering.dfy`, module `Ordering`: the (tag, value) table and the final
  `sort_values('__ordering')` (`Reorder`).
- `results.dfy`, module `Results`: `Option`, `Result` and `Outcome` for the
  error paths.
- `scenarios.dfy`, module `Scenarios`: client methods that use only the
  contracts. One shows a refit that keeps a stale leaf, one an unseen leaf at
  predict, and one a prediction on reordered rows.

Error paths are results, not preconditions:

- `Fit` returns `Fail(InvalidInput)` for an empty table or when rows and
  targets differ in number. This is the tree's own input check at line 40.
- `Fit` returns `Fail(TreeFitFailed)` when the tree rejects the data.
- `Fit` returns `Fail(LeafFitFailed(leaf))` when a leaf regressor's fit raises.
- `Predict` returns `Failure(NotFitted)` before any fit, because `apply`
  raises then.
- `Predict` returns `Failure(NoRows)` for an empty table, because `apply`
  rejects it (and the sort on the empty output frame would fail too).
- `Predict` returns `Failure(UnseenLeaf(leaf))` for the `KeyError` at line 63.

Two consequences of the code as written:

- A refit does not replace `leaf_models`: it is created only at line 20, so
  entries of leaves that the new fit does not reach survive. A prediction
  looks such an entry up in only two cases. The first is a refit that raised
  during a leaf fit: line 40 has already refit the tree, so rows in a leaf the
  loop had not reached get the model an earlier tree stored under the same
  leaf id. The second is a partitioner that can route rows to a leaf no
  training row reached. A `DecisionTreeRegressor` never does that, because
  its every leaf holds a training row. `Scenarios.RefitKeepsStaleLeaf` shows
  the second case with a routing that sends each value to its own leaf.
- Fit is not all-or-nothing: the loop at lines 44-49 stores models one at a
  time, so a leaf fit that raises leaves the entries written before it in
  place, and the tree already refit.

## Model

| member | source | states |
|---|---|---|
| DecoratedDecisionTree.DecoratedDecisionTreeRegressor.constructor | DecoratedDecisionTree.py:6-20 | Keeps the tree and the prototype regressor. The tree starts unfitted and `leaf_models` starts empty. |
| DecoratedDecisionTree.DecoratedDecisionTreeRegressor.Fit | DecoratedDecisionTree.py:39-49 | Empty or misaligned input, or a tree that rejects the data: failure, nothing changed. Otherwise the tree holds the new routing. Every leaf of `set(leaves)` maps to a clone of the prototype fit on exactly that leaf's rows and targets, unless a leaf fit fails. Keys outside `set(leaves)` are untouched. Fit passes exactly when every leaf's fit succeeds. On failure the error names a leaf whose fit failed, and that leaf keeps its old entry. With the deterministic learners of this model, the result on success does not depend on set iteration order. |
| DecoratedDecisionTree.DecoratedDecisionTreeRegressor.Predict | DecoratedDecisionTree.py:51-67 | Unfitted: `NotFitted`. Empty input: `NoRows`. Some row routed to a leaf without a model: `UnseenLeaf` naming such a leaf. Otherwise the output has the input's length, and position i is row i's leaf model applied to row i, whatever the set iteration order. It has no `modifies` clause, so it changes neither `leafModels` nor the tree. |
| DecoratedDecisionTree.AppendChunk | DecoratedDecisionTree.py:61-65 | Appending one new leaf's tagged predictions keeps the table holding each row of the handled leaves exactly once, with its own leaf model's prediction. |
| DecoratedDecisionTree.PredictionsFollowRowOrder | DecoratedDecisionTree.py:57-67 | Predicting a reordering of the rows gives the predictions reordered the same way. |
| DecoratedDecisionTree.PredictionDependsOnOwnLeaf | DecoratedDecisionTree.py:62-64 | A row's prediction depends only on that row and its own leaf's model. Other leaves' models do not affect it. |
| Grouping.Mask | DecoratedDecisionTree.py:45-46 | The mask `leaves == leaf` selects strictly ascending positions. A position is selected exactly when its row was routed to `leaf`. |
| Grouping.SelectIsFilter | DecoratedDecisionTree.py:45-46 | Gathering at the mask's positions equals filtering the rows with the mask. The group is exactly the leaf's rows, in their original relative order. |
| Grouping.SelectKeepsPairs | DecoratedDecisionTree.py:45-48 | Selecting rows and targets separately with the same mask keeps each row paired with its own target. |
| Grouping.GroupsPartitionRows | DecoratedDecisionTree.py:44-45 | Every row's leaf is in `set(leaves)`. A row is in a leaf's group exactly when it was routed to that leaf, so the groups are disjoint and cover all rows. |
| Ordering.Reorder | DecoratedDecisionTree.py:66-67 | Given a table whose tags are exactly 0..n-1, each once: the result has length n, position i holds the value tagged i, and the result tagged with its positions is a permutation of the table. So it is the table sorted by tag. |
| Ordering.ReorderIgnoresConcatOrder | DecoratedDecisionTree.py:61-66 | Two tables holding the same entries in any concatenation order restore to the same output. |

## Left out

- Decision-tree induction and routing (`dtr.fit`, `dtr.apply`, lines 40-41 and 53) are the parameter `fitTree`. Every way the tree's fit can fail becomes one `TreeFitFailed`, apart from the explicit empty or misaligned input check.
- The routing that `fitTree` returns is any function `R -> L`. A `DecisionTreeRegressor`'s routing is limited to leaves that training rows reached. So the model allows two things such a tree rules out: `UnseenLeaf` after a successful fit, and a stale entry used after a successful refit.
- `clone` and the leaf regressor's `fit` and `predict` (lines 47-48, 64) are uninterpreted function parameters over an opaque model type, because they are floating-point library code. Models are values, so the clone's independence from the prototype and from other leaves holds by construction rather than being proved.
- The learners (`fitTree`, `cloneModel`, `fitModel`, `predictModel`) are modelled as deterministic functions of their arguments. A learner that draws from a random generator with no fixed seed (the default `random_state=None` of the sklearn estimators) can give different fits on the same data. With such a learner, the leaf models fit in the loop at lines 44-49 also depend on the order in which `set(leaves)` is visited, because each fit uses up draws from the shared generator.
- The leaf regressor's `predict` is taken row by row. A regressor whose prediction for one row depends on the other rows of the same call is not captured.
- pandas mechanics are left out: `copy`, boolean indexing, `concat`, `sort_values`, the `'y'` column assignment and its warnings. Rows are `seq<R>` and targets `seq<Y>`, with index-based gather. A feature column named `__ordering` or `y` (overwritten by lines 57 and 64) and the index labels of the returned Series are not modelled.
- The tree is not aliased: `self.dtr = dtr` (line 18) shares the caller's tree object and `fit` retrains it in place (line 40); the model keeps the tree as a private value of the regressor, so a caller holding the same tree object does not see it change.
- Predict-time input errors are not modelled: `apply` (line 53) and the leaf model's `predict` (line 64) can raise when the columns differ from those seen at fit. `apply` and `predictModel` are total functions here, so `Predict` returns `Success` where the source would raise.
- The constructor's tree is taken to be unfitted. A tree that was already fitted when passed in is not modelled.
- The `__main__` demo (lines 70-79) is a script over an undefined `generation` table, not logic.
- Concurrency is not modelled. The class is single-threaded.
