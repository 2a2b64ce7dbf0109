/**
 * `predict` and `make_prediction` (AI-phase2/ai.py:89-99): a row walks from the root,
 * going left when its value of the node's feature is at most the node's threshold,
 * until it reaches a leaf. Indexing a row that is too short raises `IndexError` in the
 * source: `Failure(FeatureIndexOutOfRange)` here.
 *
 * The lemmas relate a prediction to the tree's training data: a row is given the
 * majority label of the training rows that followed the same path.
 */
module Prediction {
  import opened Wrappers
  import opened Dataset
  import opened Partition
  import opened SplitSearch
  import opened Vote
  import opened Tree
  import opened Builder

  datatype PredictError = FeatureIndexOutOfRange | UntrainedModel

  /** `make_prediction(x, tree)`. */
  function MakePrediction<L>(x: seq<int>, t: Node<L>): (r: Result<L, PredictError>)
    ensures r.Success? ==> r.value in LeafValues(t)
    ensures r.Failure? ==> r.error == FeatureIndexOutOfRange
    ensures FeaturesBelow(t, |x|) ==> r.Success?
  {
    match t
    case Leaf(v) => Success(v)
    case Internal(f, threshold, _, l, r) =>
      if f >= |x| then Failure(FeatureIndexOutOfRange)
      else if x[f] <= threshold then MakePrediction(x, l)
      else MakePrediction(x, r)
  }

  /**
   * `[make_prediction(x, root) for x in X]`: one label per row, in order, or the error
   * of the first row that cannot be classified.
   */
  function PredictAll<L>(xs: seq<seq<int>>, t: Node<L>): (r: Result<seq<L>, PredictError>)
    ensures r.Success? <==> forall i :: 0 <= i < |xs| ==> MakePrediction(xs[i], t).Success?
    ensures r.Success? ==> |r.value| == |xs|
    ensures r.Success? ==> forall i :: 0 <= i < |xs| ==> r.value[i] == MakePrediction(xs[i], t).value
    ensures r.Failure? ==> r.error == FeatureIndexOutOfRange
  {
    if xs == [] then Success([])
    else
      match MakePrediction(xs[0], t)
      case Failure(e) => Failure(e)
      case Success(y) =>
        match PredictAll(xs[1..], t)
        case Failure(e) => Failure(e)
        case Success(ys) => Success([y] + ys)
  }

  /** A grown tree tests only features the training rows have. */
  lemma {:induction false} GrownFeaturesBelow<L>(t: Node<L>, data: seq<Row<L>>, nf: nat,
                                                  gain: GainFunction<L>)
    requires HasFeatures(data, nf) && Grown(t, data, nf, gain)
    ensures FeaturesBelow(t, nf)
    decreases t
  {
    if t.Internal? {
      SplitKeepsFeatures(data, nf, t.featureIndex, t.threshold);
      var sides := Split(data, t.featureIndex, t.threshold);
      GrownFeaturesBelow(t.left, sides.0, nf, gain);
      GrownFeaturesBelow(t.right, sides.1, nf, gain);
    }
  }

  /**
   * The training rows that take the same path through `t` as `x`: the partition that
   * `build_tree` turned into the leaf `x` reaches.
   */
  ghost function LeafPartition<L>(t: Node<L>, data: seq<Row<L>>, nf: nat, x: seq<int>): (p: seq<Row<L>>)
    requires HasFeatures(data, nf) && FeaturesBelow(t, nf)
    ensures forall i :: 0 <= i < |p| ==> p[i] in data
    decreases t
  {
    match t
    case Leaf(_) => data
    case Internal(f, threshold, _, l, r) =>
      SplitKeepsFeatures(data, nf, f, threshold);
      SplitSides(data, f, threshold);
      var sides := Split(data, f, threshold);
      if f < |x| && x[f] <= threshold then LeafPartition(l, sides.0, nf, x)
      else LeafPartition(r, sides.1, nf, x)
  }

  /**
   * The decision-node case of `Grown`, unfolded once: the children are grown on the two
   * sides of the split. The recursive proofs below call it so as to unfold `Grown` one
   * level at a time.
   */
  lemma GrownChildren<L>(t: Node<L>, data: seq<Row<L>>, nf: nat, gain: GainFunction<L>)
    requires HasFeatures(data, nf) && Grown(t, data, nf, gain) && t.Internal?
    ensures t.featureIndex < nf
    ensures HasFeatures(Split(data, t.featureIndex, t.threshold).0, nf)
    ensures HasFeatures(Split(data, t.featureIndex, t.threshold).1, nf)
    ensures Grown(t.left, Split(data, t.featureIndex, t.threshold).0, nf, gain)
    ensures Grown(t.right, Split(data, t.featureIndex, t.threshold).1, nf, gain)
  {
    SplitKeepsFeatures(data, nf, t.featureIndex, t.threshold);
  }

  /**
   * A row with all the training features is always classified, and it is given the
   * majority label (first-occurring on ties) of the training rows in its leaf.
   */
  lemma {:induction false} PredictionIsLeafMajority<L>(t: Node<L>, data: seq<Row<L>>, nf: nat,
                                                        gain: GainFunction<L>, x: seq<int>)
    requires HasFeatures(data, nf) && Grown(t, data, nf, gain) && |x| >= nf
    ensures FeaturesBelow(t, nf)
    ensures MakePrediction(x, t).Success?
    ensures LeafPartition(t, data, nf, x) != []
    ensures IsFirstMostFrequent(Labels(LeafPartition(t, data, nf, x)), MakePrediction(x, t).value)
    decreases t
  {
    GrownFeaturesBelow(t, data, nf, gain);
    match t
    case Leaf(_) =>
    case Internal(f, threshold, _, l, r) =>
      GrownChildren(t, data, nf, gain);
      var sides := Split(data, f, threshold);
      if x[f] <= threshold {
        PredictionIsLeafMajority(l, sides.0, nf, gain, x);
      } else {
        PredictionIsLeafMajority(r, sides.1, nf, gain, x);
      }
  }

  /** A training row follows its own path: it is among the rows of the leaf it reaches. */
  lemma {:induction false} TrainingRowInLeafPartition<L>(t: Node<L>, data: seq<Row<L>>, nf: nat,
                                                          gain: GainFunction<L>, k: nat)
    requires HasFeatures(data, nf) && Grown(t, data, nf, gain) && k < |data|
    ensures FeaturesBelow(t, nf)
    ensures data[k] in LeafPartition(t, data, nf, data[k].features)
    decreases t
  {
    GrownFeaturesBelow(t, data, nf, gain);
    if t.Internal? {
      var f, threshold := t.featureIndex, t.threshold;
      SplitKeepsFeatures(data, nf, f, threshold);
      SplitSides(data, f, threshold);
      var sides := Split(data, f, threshold);
      var row := data[k];
      assert |row.features| == nf by { assert row in data; }
      if row.features[f] <= threshold {
        var j :| 0 <= j < |sides.0| && sides.0[j] == row;
        TrainingRowInLeafPartition(t.left, sides.0, nf, gain, j);
      } else {
        var j :| 0 <= j < |sides.1| && sides.1[j] == row;
        TrainingRowInLeafPartition(t.right, sides.1, nf, gain, j);
      }
    }
  }

  /** Every label a grown tree predicts is the label of some training row. */
  lemma PredictionIsTrainingLabel<L>(t: Node<L>, data: seq<Row<L>>, nf: nat,
                                     gain: GainFunction<L>, x: seq<int>)
    requires HasFeatures(data, nf) && Grown(t, data, nf, gain) && |x| >= nf
    ensures MakePrediction(x, t).Success?
    ensures MakePrediction(x, t).value in Labels(data)
  {
    PredictionIsLeafMajority(t, data, nf, gain, x);
    var p := LeafPartition(t, data, nf, x);
    var v := MakePrediction(x, t).value;
    assert v in Labels(p);
    var i :| 0 <= i < |p| && Labels(p)[i] == v;
    assert p[i] in data;
    var j :| 0 <= j < |data| && data[j] == p[i];
    assert Labels(data)[j] == v;
  }
}
