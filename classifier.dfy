/**
 * `DecisionTreeClassifier` (AI-phase2/ai.py:18-23, 81-90): the object that holds the
 * options and, once `fit` has run, the root of the trained tree.
 */
module Classifier {
  import opened Wrappers
  import opened Dataset
  import opened Impurity
  import opened Vote
  import opened Tree
  import opened Builder
  import opened Prediction

  /**
   * Why `fit` stops: the feature matrix and the label vector have different numbers of
   * rows (`np.concatenate` refuses them, ai.py:84), or `build_tree` fails.
   */
  datatype FitError = ShapeMismatch | TreeError(cause: BuildError)

  /**
   * `np.concatenate((X, Y.reshape(-1, 1)), axis=1)` (ai.py:82-84): row i is `X[i]`
   * labelled `Y[i]`. `X` is a two-dimensional array, so all its rows have `nf` columns.
   */
  function Assemble<L>(xs: seq<seq<int>>, ys: seq<L>, nf: nat): (data: seq<Row<L>>)
    requires |xs| == |ys| && forall i :: 0 <= i < |xs| ==> |xs[i]| == nf
    ensures Labels(data) == ys
    ensures |data| == |xs| && forall i :: 0 <= i < |xs| ==> data[i].features == xs[i]
    ensures HasFeatures(data, nf)
  {
    var data := seq(|xs|, i requires 0 <= i < |xs| => Row(xs[i], ys[i]));
    assert forall row :: row in data ==> |row.features| == nf;
    data
  }

  class DecisionTreeClassifier<L(==)> {
    const minSamplesSplit: int
    const maxDepth: int
    var root: Option<Node<L>>

    /**
     * `__init__`, with the defaults `min_samples_split=2, max_depth=2`: no tree yet.
     * `feature_names` is used only for printing.
     */
    constructor (minSamplesSplit: int := 2, maxDepth: int := 2)
      ensures this.minSamplesSplit == minSamplesSplit && this.maxDepth == maxDepth
      ensures root == None
    {
      this.minSamplesSplit := minSamplesSplit;
      this.maxDepth := maxDepth;
      root := None;
    }

    function Options(): Config
    {
      Config(minSamplesSplit, maxDepth)
    }

    /**
     * `fit(X, Y)`: on success the root is the tree grown, with the entropy gain, on
     * the assembled rows; on failure the previous root is kept.
     */
    method Fit(xs: seq<seq<int>>, ys: seq<L>, nf: nat, plogp: real -> real) returns (err: Option<FitError>)
      requires forall i :: 0 <= i < |xs| ==> |xs[i]| == nf
      modifies this
      ensures err == Some(ShapeMismatch) <==> |xs| != |ys|
      ensures err.Some? ==> root == old(root)
      ensures err.None? ==> |xs| == |ys|
      ensures err.None? ==> Build(Assemble(xs, ys, nf), nf, Options(), EntropyGain(plogp), 0).Success?
      ensures err.None? ==> root == Some(Build(Assemble(xs, ys, nf), nf, Options(), EntropyGain(plogp), 0).value)
      ensures err.None? ==> Grown(root.value, Assemble(xs, ys, nf), nf, EntropyGain(plogp))
      ensures err.None? ==> SplitsWithin(root.value, 0, maxDepth)
      ensures err.Some? && err.value.TreeError? ==>
                Build(Assemble(xs, ys, nf), nf, Options(), EntropyGain(plogp), 0) == Failure(err.value.cause)
    {
      if |xs| != |ys| {
        return Some(ShapeMismatch);
      }
      var data := Assemble(xs, ys, nf);
      var built := Build(data, nf, Options(), EntropyGain(plogp), 0);
      if built.Failure? {
        return Some(TreeError(built.error));
      }
      root := Some(built.value);
      err := None;
    }

    /**
     * `predict(X)`: the labels `make_prediction` gives each row. Before `fit` the root
     * is `None`, and the first row fails on it; no rows give no labels.
     */
    method Predict(xs: seq<seq<int>>) returns (r: Result<seq<L>, PredictError>)
      ensures root.None? ==> r == if xs == [] then Success([]) else Failure(UntrainedModel)
      ensures root.Some? ==> r == PredictAll(xs, root.value)
      ensures r.Success? ==> |r.value| == |xs|
    {
      if root.None? {
        if xs == [] {
          return Success([]);
        }
        return Failure(UntrainedModel);
      }
      r := PredictAll(xs, root.value);
    }
  }

  /**
   * Predicting the training matrix with the tree `fit` grows from it never fails, and
   * each training row gets the majority label of a leaf partition that contains it.
   */
  lemma TrainingPredictions<L>(xs: seq<seq<int>>, ys: seq<L>, nf: nat, config: Config, plogp: real -> real)
    requires |xs| == |ys| && forall i :: 0 <= i < |xs| ==> |xs[i]| == nf
    requires Build(Assemble(xs, ys, nf), nf, config, EntropyGain(plogp), 0).Success?
    ensures var data := Assemble(xs, ys, nf);
            var t := Build(data, nf, config, EntropyGain(plogp), 0).value;
            && FeaturesBelow(t, nf)
            && PredictAll(xs, t).Success?
            && forall i :: 0 <= i < |xs| ==>
                 && data[i] in LeafPartition(t, data, nf, xs[i])
                 && IsFirstMostFrequent(Labels(LeafPartition(t, data, nf, xs[i])), PredictAll(xs, t).value[i])
  {
    var data := Assemble(xs, ys, nf);
    var gain := EntropyGain(plogp);
    var t := Build(data, nf, config, gain, 0).value;
    GrownFeaturesBelow(t, data, nf, gain);
    forall i | 0 <= i < |xs|
      ensures data[i] in LeafPartition(t, data, nf, xs[i])
      ensures MakePrediction(xs[i], t).Success?
      ensures IsFirstMostFrequent(Labels(LeafPartition(t, data, nf, xs[i])), MakePrediction(xs[i], t).value)
    {
      TrainingRowInLeafPartition(t, data, nf, gain, i);
      PredictionIsLeafMajority(t, data, nf, gain, xs[i]);
    }
  }
}
