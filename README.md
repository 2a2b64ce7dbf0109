# Decision-tree classifier of `AI-phase2/ai.py`, modelled in Dafny

This project models the hand-written decision-tree classifier in `AI-phase2/ai.py` and
proves properties of the model. The classifier has these parts:

- the tree node (`DecisionTreeNode`);
- the stable partition of rows around a threshold (`split`);
- the brute-force best-split search (`get_best_split`);
- the entropy and information gain it ranks candidates by;
- the majority-vote leaf (`calculate_leaf_value`);
- the recursive builder (`build_tree`) with its stopping rule;
- prediction (`predict`, `make_prediction`);
- the classifier object, which holds the trained root (`fit`).

Modules, one per file:

| module | file | models |
|---|---|---|
| `Wrappers` | wrappers.dfy | `Option` and `Result` |
| `Dataset` | dataset.dfy | rows `(features, target)`, label and feature columns, `np.unique` |
| `Impurity` | impurity.dfy | class listing, class probabilities, entropy (with its loop), information gain |
| `Partition` | partition.dfy | `split` |
| `SplitSearch` | search.dfy | `get_best_split`: the loop (`GetBestSplit`) proved equal to a fold (`BestSplit`) |
| `Tree` | tree.dfy | `DecisionTreeNode` as `Leaf(value) \| Internal(featureIndex, threshold, infoGain, left, right)` |
| `Vote` | vote.dfy | `max(Y, key=Y.count)` |
| `Builder` | builder.dfy | `build_tree`, and what a grown tree is (`Grown`) |
| `Prediction` | prediction.dfy | `make_prediction`, `predict`, and how predictions relate to the training rows |
| `Classifier` | classifier.dfy | the `DecisionTreeClassifier` object: constructor, `fit`, `predict` |
| `Scenarios` | scenarios.dfy | worked examples evaluated on the model, with symbolic values and labels |

Features are integers and labels are of any type with equality (see "## Left out" on ordering). The term `p * log2(p)`
is a parameter `plogp: real -> real`. The rest of the entropy computation is modelled
exactly, except the order in which the classes are visited, which
`Impurity.ClassOrderIrrelevant` shows makes no difference in real arithmetic (see
"## Left out"):

- which classes are summed;
- the counts and probabilities;
- the child weights `len(child) / len(parent)`.

The split search and the builder take the gain as a function of (parent labels, left
labels, right labels). The classifier passes them the entropy gain built from `plogp`.

Where the code fails, the model returns an explicit error:

- **`KeyError` on an empty best split.** A partition can reach the search with at least
  `min_samples_split` rows at depth `<= max_depth` and be constant on every feature.
  The search then returns an empty dict (ai.py:39, 56). Reading `best_split["info_gain"]`
  (ai.py:30) raises `KeyError`. The model returns `Failure(MissingInfoGain)`.
  - `SplitSearch.NoSplitIffConstant` proves the search is empty exactly when every
    feature is constant over the partition.
  - `Builder.ConstantPartitionFails` proves that such a partition, once it passes the
    stopping test, makes the build fail. A failure can also come from a subtree, so
    the converse is not claimed.
- **`ValueError` from `max([])`** (ai.py:79) becomes `Failure(EmptyLabels)`.
  - `Builder.EmptyDatasetFails` says which of the two errors training on no rows gives.
- **A row too short for a node's feature** raises `IndexError`, which becomes
  `FeatureIndexOutOfRange`.
- **Predicting before `fit`** fails on the `None` root, which becomes `UntrainedModel`.

Two behaviours of the builder deserve a note:

- **No leaf where no split exists.** When the partition passes the stopping test and no
  split is found, the code raises the `KeyError` above instead of falling through to
  the majority leaf. This is recorded under "## Findings", with a corrected builder
  `Builder.BuildOrLeaf` beside the one that follows the code.
- **`max_depth = 0` still splits the root.** The stopping test is
  `curr_depth <= max_depth` (ai.py:28), so a partition at depth 0 is searched, and its
  children, at depth 1, are leaves.
  - `Builder.DepthZeroChildrenAreLeaves`: the root's children are leaves.
  - `Scenarios.TwoBlocksDepthZeroSplits` and `Scenarios.TwoBlocksPredictions`: rows
    with values lo, lo, hi, hi and labels a, a, b, b, trained with
    `min_samples_split = 2` and `max_depth = 0`, give the root split at lo with leaves
    a and b, which classifies `[lo]` as a and `[hi]` as b.

## Model

| member | source | states |
|---|---|---|
| `Dataset.Labels` | AI-phase2/ai.py:26 | The label column `dataset[:, -1]`: one entry per row, row i's target at position i. |
| `Dataset.Unique` | AI-phase2/ai.py:43 | `np.unique`: strictly ascending, and holds exactly the values of its input. |
| `Impurity.Classes` | AI-phase2/ai.py:70 | The classes of a label list: no repetitions, every class occurs in the list, every label is a class. |
| `Impurity.Entropy` | AI-phase2/ai.py:69-75 | The entropy of an empty label list is zero, and so is that of a list with one class, given `plogp(1) == 0`. |
| `Impurity.ComputeEntropy` | AI-phase2/ai.py:69-75 | The accumulation loop over the classes returns exactly `Entropy`: minus the sum of `plogp(count/len)` over the classes. |
| `Impurity.ProbabilityInRange` | AI-phase2/ai.py:70-74 | Each class count is in `1..len(y)`, so each probability is in (0, 1] and `log2(0)` is never taken. |
| `Impurity.ClassCountsSumToLength` | AI-phase2/ai.py:70-74 | The class counts sum to `len(y)`: the summed probabilities form a distribution. |
| `Impurity.InformationGain` | AI-phase2/ai.py:63-67 | Children with zero entropy gain the whole entropy of the parent. Children that share out the parent's labels and keep its entropy gain nothing. The search and `Fit` rank splits by it through `EntropyGain`, on parents of at least two rows. |
| `Impurity.ClassOrderIrrelevant` | AI-phase2/ai.py:70-74 | Summing over any repetition-free listing of the classes, such as the sorted one of `np.unique`, gives the same entropy: the order the classes are visited in does not matter. |
| `Impurity.EntropyOfMultiset` | AI-phase2/ai.py:69-75 | The entropy depends only on the multiset of the labels. |
| `Impurity.GainOfMultisets` | AI-phase2/ai.py:63-67 | The information gain depends only on the multisets of the parent's and the children's labels. |
| `Impurity.PureGainIsZero` | AI-phase2/ai.py:63-67 | Splitting a pure parent into pure children gains exactly zero. |
| `Partition.LeftRows` | AI-phase2/ai.py:59 | The left comprehension: no longer than the input; every kept row has the feature and is `<= threshold`. |
| `Partition.RightRows` | AI-phase2/ai.py:60 | The right comprehension: no longer than the input; every kept row has the feature and is `> threshold`. |
| `Partition.Split` | AI-phase2/ai.py:58-61 | The sizes of the sides sum to the input size; together the sides are a rearrangement (same multiset) of the rows; each side satisfies its comparison. |
| `Partition.SplitSides` | AI-phase2/ai.py:58-61 | The sides hold only input rows; an input row is on the left iff its value is `<= threshold`, and on the right iff it is `> threshold`. |
| `Partition.SplitKeepsFeatures` | AI-phase2/ai.py:58-61 | Both sides keep the number of features of the input rows. |
| `Partition.SplitIsStable` | AI-phase2/ai.py:59-60 | Splitting a concatenation is the concatenation of the splits: each side keeps the rows' original relative order. |
| `Partition.SameColumnSameSplit` | AI-phase2/ai.py:59-60 | Two features with equal columns give equal splits at every threshold. |
| `Partition.AllLeft` | AI-phase2/ai.py:59-60 | Rows all `<= threshold` all go left and none goes right. |
| `Partition.AllRight` | AI-phase2/ai.py:59-60 | Rows all `> threshold` all go right and none goes left. |
| `SplitSearch.BestSplit` | AI-phase2/ai.py:38-56 | No split iff no candidate (feature index `< num_features`, threshold from that column) has two non-empty sides. Otherwise the result is the first best candidate with its sides and gain: no candidate's gain is higher, and every candidate earlier in (feature, threshold) order has a strictly lower gain. Both sides are non-empty and strictly smaller than the partition, and keep its features. |
| `SplitSearch.GetBestSplit` | AI-phase2/ai.py:38-56 | The nested loop over features and `np.unique` thresholds, with the strict `>` update, returns exactly `BestSplit`. |
| `SplitSearch.NoSplitIffConstant` | AI-phase2/ai.py:39-56 | The search comes back empty iff every feature is constant over the partition. |
| `SplitSearch.FirstBestIsUnique` | AI-phase2/ai.py:41-55 | At most one candidate is the first best: the strict `>` and the (feature, threshold) order break every tie. |
| `SplitSearch.DuplicateFeatureLoses` | AI-phase2/ai.py:41-55 | Ties between features go to the lower index: a feature whose column repeats an earlier one is never chosen. |
| `SplitSearch.Consider` | AI-phase2/ai.py:45-55 | One candidate either leaves the record as it was or replaces it with this candidate's split and gain. It replaces it iff the candidate is accepted and nothing is recorded or its gain is strictly higher; a rejected candidate, or one whose gain ties or is lower, leaves the record unchanged. The recorded gain never decreases. |
| `SplitSearch.ConsiderStep` | AI-phase2/ai.py:45-55 | One inner iteration keeps the loop invariant: the recorded split is the first best among the candidates visited. |
| `SplitSearch.ScanFeaturesSpec` | AI-phase2/ai.py:41-56 | Running the outer loop to the end yields the first best among all candidates. |
| `Tree.SplitsWithinHeight` | AI-phase2/ai.py:28-34 | If every decision node is at depth `<= max_depth`, a decision node at depth d roots a tree of height `<= max_depth + 1 - d`. |
| `Vote.MaxByCount` | AI-phase2/ai.py:77-79 | The scan of `max(Y, key=Y.count)` returns a position whose label has the largest count, and every earlier position has a strictly smaller count. |
| `Vote.IndexOf` | AI-phase2/ai.py:79 | The first position holding a label. |
| `Vote.LeafValue` | AI-phase2/ai.py:77-79 | `None` iff the list is empty; otherwise a most frequent label, with every label before its first occurrence strictly less frequent. |
| `Vote.FirstMostFrequentIsUnique` | AI-phase2/ai.py:77-79 | That description fixes the label: two labels meeting it are equal. |
| `Builder.LeafFor` | AI-phase2/ai.py:35-36 | A leaf is made iff the partition is non-empty, and holds its majority label; otherwise `EmptyLabels`. |
| `Builder.Build` | AI-phase2/ai.py:25-36 | A built tree is grown on its data: each decision node holds the first best split of the rows reaching it, with positive gain, and each leaf holds the majority label of the non-empty partition reaching it. Every decision node sits at depth `<= max_depth`. At every node the stopping rule holds (`Stops`). A decision node has at least `min_samples_split` rows at a depth `<= max_depth`. A leaf fails that test, or its best split gains nothing. |
| `Builder.GrownAndStoppedIsBuild` | AI-phase2/ai.py:25-36 | Conversely, a tree grown on the data that follows the stopping rule is exactly the tree the builder returns. |
| `Builder.PositiveGainSplits` | AI-phase2/ai.py:28-34 | A partition that passes the stopping test and whose best split gains a positive amount is built iff both sides build. The result is then a decision node on the first best split, with a positive gain. |
| `Builder.NonPositiveGainIsLeaf` | AI-phase2/ai.py:28-36 | A partition that passes the stopping test and whose best split gains nothing (or less) becomes its majority leaf. |
| `Builder.StoppedPartitionIsLeaf` | AI-phase2/ai.py:28-36 | A non-empty partition smaller than `min_samples_split`, or deeper than `max_depth`, becomes a single majority leaf. |
| `Builder.ConstantPartitionFails` | AI-phase2/ai.py:28-30 | An eligible partition that is constant on every feature fails with `MissingInfoGain` (the `KeyError`). |
| `Builder.EmptyDatasetFails` | AI-phase2/ai.py:25-36 | Training on no rows fails: `MissingInfoGain` if the empty partition passes the stopping test, `EmptyLabels` otherwise. |
| `Builder.BuiltTreeHeight` | AI-phase2/ai.py:28-34 | A trained tree has height `<= max_depth + 1`, and is a leaf when `max_depth < 0`. |
| `Builder.DepthZeroChildrenAreLeaves` | AI-phase2/ai.py:28-34 | With `max_depth = 0` the root may split, and then both children are leaves. |
| `Builder.PureNeverSplits` | AI-phase2/ai.py:28-36 | With the entropy gain, a successful build on rows that all have one label gives that label's leaf. |
| `Builder.BuildOrLeaf` | AI-phase2/ai.py:25-36 | The corrected builder: it fails iff the partition is empty, with `EmptyLabels`. A tree it builds is grown on its data and respects `max_depth`, like `Build`'s. It follows the same stopping rule, except that a leaf may also sit on an eligible partition with no split. |
| `Builder.GrownAndStoppedIsBuildOrLeaf` | AI-phase2/ai.py:25-36 | Conversely, a grown tree following that rule is exactly the tree the corrected builder returns. |
| `Builder.NoSplitIsLeaf` | AI-phase2/ai.py:28-36 | Corrected builder: a non-empty partition constant on every feature becomes its majority leaf. |
| `Builder.BuildOrLeafExtendsBuild` | AI-phase2/ai.py:25-36 | Wherever the code's builder succeeds, the corrected builder gives the same tree. |
| `Builder.PureSplitGainIsZero` | AI-phase2/ai.py:46-48 | Every split of a pure partition has zero entropy gain. |
| `Prediction.MakePrediction` | AI-phase2/ai.py:92-99 | The walk returns a label held by a leaf of the tree. Its only failure is a feature index beyond the row. It cannot fail when every tested feature is below the row's length. |
| `Prediction.PredictAll` | AI-phase2/ai.py:89-90 | Succeeds iff every row can be classified. Then there is one label per row, in row order, each the row's prediction. |
| `Prediction.GrownFeaturesBelow` | AI-phase2/ai.py:41-54 | A grown tree only tests features the training rows have. |
| `Prediction.LeafPartition` | AI-phase2/ai.py:58-61 | The training rows that follow a row's path are training rows. |
| `Prediction.GrownChildren` | AI-phase2/ai.py:31-34 | The children of a grown decision node are grown on the two sides of its split. |
| `Prediction.PredictionIsLeafMajority` | AI-phase2/ai.py:92-99 | A row with all training features is classified, and gets the majority label of the non-empty training partition at its leaf. |
| `Prediction.TrainingRowInLeafPartition` | AI-phase2/ai.py:92-99 | A training row reaches the leaf whose partition contains it: prediction uses the same `<=` as `split`. |
| `Prediction.PredictionIsTrainingLabel` | AI-phase2/ai.py:92-99 | Every label a trained tree predicts is the label of some training row. |
| `Classifier.Assemble` | AI-phase2/ai.py:82-84 | The assembled dataset has the label column `Y`, row i has features `X[i]`, and every row has `nf` features. |
| `Classifier.DecisionTreeClassifier.constructor` | AI-phase2/ai.py:19-23 | Stores the options, which default to `min_samples_split = 2` and `max_depth = 2`; no tree yet. |
| `Classifier.DecisionTreeClassifier.Fit` | AI-phase2/ai.py:81-86 | `ShapeMismatch` iff `X` and `Y` differ in length. On any error the root is unchanged. On success the root is the tree `Build` grows from the assembled rows with the entropy gain, which is grown on those rows and respects `max_depth`. A build error is reported as it is. |
| `Classifier.DecisionTreeClassifier.Predict` | AI-phase2/ai.py:89-90 | Before training: an empty input gives no labels and a non-empty one `UntrainedModel`. After training: exactly `PredictAll` over the root. One label per row on success. |
| `Classifier.TrainingPredictions` | AI-phase2/ai.py:86-99 | Predicting the training matrix with the tree grown from it never fails. Each row gets the majority label of a leaf partition that contains that row. |
| `Scenarios.TwoBlocksBestSplit` | AI-phase2/ai.py:38-56 | On values lo, lo, hi, hi the search picks feature 0 at threshold lo, with the two blocks as sides, for any gain. |
| `Scenarios.TwoClassEntropy` | AI-phase2/ai.py:69-75 | Two equally frequent classes have entropy `-2 * plogp(1/2)`. |
| `Scenarios.SeparationGain` | AI-phase2/ai.py:63-67 | Separating them into pure halves gains that whole entropy. |
| `Scenarios.TwoBlocksGain` | AI-phase2/ai.py:47-48 | The chosen split's recorded gain is `-2 * plogp(1/2)`, positive when `plogp(1/2) < 0`. |
| `Scenarios.TwoBlocksDepthOneFails` | AI-phase2/ai.py:28-32 | With `min_samples_split = 2` and `max_depth = 1` the build fails with `MissingInfoGain`. |
| `Scenarios.TwoBlocksDepthZeroSplits` | AI-phase2/ai.py:25-36 | With `max_depth = 0` the build gives a root split at feature 0, threshold lo, with leaves a and b. |
| `Scenarios.TwoBlocksPredictions` | AI-phase2/ai.py:89-99 | That tree classifies `[lo]` as a and `[hi]` as b. |
| `Scenarios.ConstantRowsFail` | AI-phase2/ai.py:28-30 | Three rows sharing one value fail with `MissingInfoGain`, for any gain. |
| `Scenarios.ConstantRowsLeaf` | AI-phase2/ai.py:35-36 | Under the corrected builder the same three rows, labelled a, b, b, give the leaf b. |
| `Scenarios.TwoBlocksDepthOneStump` | AI-phase2/ai.py:25-36 | Under the corrected builder the four rows with `max_depth = 1` give the root split at feature 0, threshold lo, with leaves a and b. |

## Left out

- `AI-phase2/tt.py` is not part of this model. It wraps a library random forest and library metrics, with CSV loading and printing.
- The script at ai.py:130-141 is not modelled: CSV loading, train/test split and the training run. It is I/O and library calls.
- `print_tree` and `_print_tree` (ai.py:104-121) are printing only, and so is `feature_names`, which only they read.
- `calculate_accuracy` (ai.py:124-127) is not modelled: it wraps a library metric.
- Floating point is not modelled.
  - Features are integers, so `<=` is exact.
  - Gains are reals, and `p * log2(p)` is the parameter `plogp`.
  - Nothing is proved that depends on the values of `log2`, such as gains never being negative.
  - The source's `-float("inf")` initial maximum is the "nothing recorded yet" state `None`.
- `Impurity.Classes` lists classes by first occurrence, where `np.unique` sorts them. The entropy sum adds the same terms, and `Impurity.ClassOrderIrrelevant` proves that in real arithmetic any order gives the same entropy. Floating-point rounding may depend on the order, and that is not modelled.
- `Impurity.EntropyGain` returns 0 for an empty parent, where the source would divide by zero. The search only evaluates the gain on accepted splits, whose parent has at least two rows, so that value is never used.
- The numpy `reshape`/`concatenate` of `fit` is modelled only by its result (`Classifier.Assemble`). A ragged `X` cannot occur, because a two-dimensional array is rectangular. The numeric-to-object dtype conversion when labels are strings is not modelled.
- Python's recursion limit on deep trees is not modelled.
- `np.unique(y)` (ai.py:70) sorts the labels, so labels that cannot be compared with each other make the source raise `TypeError`. The model needs only equality on labels, and has no such error path.
- A leaf is recognised by its tag (`Leaf`), not by `value is not None` (ai.py:93). A label equal to `None` makes the source treat its leaf as a decision node, and prediction then fails, because that leaf has no feature index or threshold to test. The model has no such label and does not capture that failure.

## Findings

| source | as written | input that shows it | evidently intended | confidence | as-written member | corrected member |
|---|---|---|---|---|---|---|
| AI-phase2/ai.py:28-30 | A partition that passes the stopping test but has no accepted split leaves `best_split` empty, and reading `best_split["info_gain"]` raises `KeyError` | three rows with one feature value and labels a, b, b, `min_samples_split = 2`, `max_depth = 2` | the partition falls through to the majority leaf of ai.py:35-36, here b | high (not executed) | `Scenarios.ConstantRowsFail` | `Builder.BuildOrLeaf` |
| AI-phase2/ai.py:28-32 | Both children of a separating root split are searched at depth 1, are constant, and make training fail | rows with values lo, lo, hi, hi and labels a, a, b, b, `min_samples_split = 2`, `max_depth = 1` | the root split at lo with the leaves a and b | high (not executed) | `Scenarios.TwoBlocksDepthOneFails` | `Scenarios.TwoBlocksDepthOneStump` |

The corrected builder `Builder.BuildOrLeaf` never fails on a non-empty partition. It
agrees with `Builder.Build` wherever that succeeds (`Builder.BuildOrLeafExtendsBuild`).
Its trees satisfy the same `Grown` description, so the prediction lemmas of
`Prediction` hold for them unchanged. The classifier's `Fit` keeps the code's builder,
because it models `fit` as written.
