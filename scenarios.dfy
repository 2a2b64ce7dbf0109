/**
 * Worked examples proved of the model of the code, with the values and labels left
 * symbolic. With `p * log2(p)` only assumed to be zero at 1 and negative at 1/2:
 *
 *  - four rows with values lo, lo, hi, hi (lo < hi) and labels a, a, b, b: with
 *    `max_depth = 1` each child of the root split still has `min_samples_split` rows
 *    and is at depth 1, so `build_tree` searches it, finds no split and raises
 *    `KeyError` (ai.py:28-30); with `max_depth = 0` the root splits at threshold lo
 *    into the leaves a and b, and rows [lo] and [hi] are predicted a and b;
 *  - three rows with one value and mixed labels: `KeyError` at the root, not a
 *    majority leaf.
 *
 * Under the corrected builder (`BuildOrLeaf`), the four rows with `max_depth = 1` give
 * the stump at lo with leaves a and b, and the three rows give the majority leaf b.
 */
module Scenarios {
  import opened Wrappers
  import opened Dataset
  import opened Impurity
  import opened Partition
  import opened SplitSearch
  import opened Tree
  import opened Vote
  import opened Builder
  import opened Prediction

  /** Two rows with value `x` and label `y`. */
  function Block<L>(x: int, y: L): seq<Row<L>>
  {
    [Row([x], y), Row([x], y)]
  }

  function TwoBlocks<L>(lo: int, hi: int, a: L, b: L): seq<Row<L>>
  {
    Block(lo, a) + Block(hi, b)
  }

  lemma FiltersAtLo<L>(lo: int, hi: int, a: L, b: L)
    requires lo < hi
    ensures HasFeatures(TwoBlocks(lo, hi, a, b), 1)
    ensures LeftRows(TwoBlocks(lo, hi, a, b), 0, lo) == Block(lo, a)
    ensures RightRows(TwoBlocks(lo, hi, a, b), 0, lo) == Block(hi, b)
  {
    var left, right := Block(lo, a), Block(hi, b);
    assert HasFeatures(left, 1) && HasFeatures(right, 1);
    SplitIsStable(left, right, 0, lo);
    AllLeft(left, 0, lo);
    AllRight(right, 0, lo);
  }

  lemma FiltersAtHi<L>(lo: int, hi: int, a: L, b: L)
    requires lo < hi
    ensures HasFeatures(TwoBlocks(lo, hi, a, b), 1)
    ensures RightRows(TwoBlocks(lo, hi, a, b), 0, hi) == []
  {
    var data := TwoBlocks(lo, hi, a, b);
    assert data == [Row([lo], a), Row([lo], a), Row([hi], b), Row([hi], b)];
    assert HasFeatures(data, 1);
    assert forall i :: 0 <= i < |data| ==> data[i].features[0] <= hi;
    AllLeft(data, 0, hi);
  }

  /** Threshold lo separates the two blocks; threshold hi leaves the right side empty. */
  lemma TwoBlocksSplits<L>(lo: int, hi: int, a: L, b: L)
    requires lo < hi
    ensures HasFeatures(TwoBlocks(lo, hi, a, b), 1)
    ensures HasFeatures(Block(lo, a), 1) && HasFeatures(Block(hi, b), 1)
    ensures Split(TwoBlocks(lo, hi, a, b), 0, lo) == (Block(lo, a), Block(hi, b))
    ensures Split(TwoBlocks(lo, hi, a, b), 0, hi).1 == []
  {
    FiltersAtLo(lo, hi, a, b);
    FiltersAtHi(lo, hi, a, b);
  }

  lemma TwoBlocksColumn<L>(lo: int, hi: int, a: L, b: L)
    ensures HasFeatures(TwoBlocks(lo, hi, a, b), 1)
    ensures Column(TwoBlocks(lo, hi, a, b), 0) == [lo, lo, hi, hi]
  {
    assert TwoBlocks(lo, hi, a, b) == [Row([lo], a), Row([lo], a), Row([hi], b), Row([hi], b)];
  }

  /** The search picks feature 0 at threshold lo, whatever the gain function. */
  lemma TwoBlocksBestSplit<L>(lo: int, hi: int, a: L, b: L, gain: GainFunction<L>)
    requires lo < hi
    ensures HasFeatures(TwoBlocks(lo, hi, a, b), 1)
    ensures BestSplit(TwoBlocks(lo, hi, a, b), 1, gain).Some?
    ensures BestSplit(TwoBlocks(lo, hi, a, b), 1, gain).value.featureIndex == 0
    ensures BestSplit(TwoBlocks(lo, hi, a, b), 1, gain).value.threshold == lo
    ensures BestSplit(TwoBlocks(lo, hi, a, b), 1, gain).value.datasetLeft == Block(lo, a)
    ensures BestSplit(TwoBlocks(lo, hi, a, b), 1, gain).value.datasetRight == Block(hi, b)
  {
    var data := TwoBlocks(lo, hi, a, b);
    TwoBlocksSplits(lo, hi, a, b);
    TwoBlocksColumn(lo, hi, a, b);
    assert Accepted(data, 0, lo) && !Accepted(data, 0, hi);
    assert IsCandidate(data, 1, 0, lo) by {
      assert Column(data, 0)[0] == lo;
    }
    var best := BestSplit(data, 1, gain);
    assert best.Some?;
    assert IsCandidate(data, 1, best.value.featureIndex, best.value.threshold);
    assert best.value.threshold in [lo, lo, hi, hi];
  }

  lemma TwoBlocksLabels<L>(lo: int, hi: int, a: L, b: L)
    ensures Labels(TwoBlocks(lo, hi, a, b)) == [a, a, b, b]
    ensures Labels(Block(lo, a)) == [a, a] && Labels(Block(hi, b)) == [b, b]
  {
    assert TwoBlocks(lo, hi, a, b) == [Row([lo], a), Row([lo], a), Row([hi], b), Row([hi], b)];
  }

  lemma TwoBlocksSplitGain<L>(lo: int, hi: int, a: L, b: L, plogp: real -> real)
    requires lo < hi && a != b && plogp(1.0) == 0.0
    ensures HasFeatures(TwoBlocks(lo, hi, a, b), 1)
    ensures Accepted(TwoBlocks(lo, hi, a, b), 0, lo)
    ensures SplitGain(TwoBlocks(lo, hi, a, b), 0, lo, EntropyGain(plogp)) == -2.0 * plogp(0.5)
  {
    TwoBlocksSplits(lo, hi, a, b);
    TwoBlocksLabels(lo, hi, a, b);
    SeparationGain(a, b, plogp);
  }

  /** With the entropy gain the root split gains `-2 * plogp(1/2)`, a positive amount. */
  lemma TwoBlocksGain<L>(lo: int, hi: int, a: L, b: L, plogp: real -> real)
    requires lo < hi && a != b
    requires plogp(1.0) == 0.0 && plogp(0.5) < 0.0
    ensures HasFeatures(TwoBlocks(lo, hi, a, b), 1)
    ensures BestSplit(TwoBlocks(lo, hi, a, b), 1, EntropyGain(plogp)).Some?
    ensures BestSplit(TwoBlocks(lo, hi, a, b), 1, EntropyGain(plogp)).value.infoGain == -2.0 * plogp(0.5)
    ensures -2.0 * plogp(0.5) > 0.0
  {
    TwoBlocksBestSplit(lo, hi, a, b, EntropyGain(plogp));
    TwoBlocksSplitGain(lo, hi, a, b, plogp);
  }

  /** Separating two equally frequent classes gains their whole entropy. */
  lemma SeparationGain<L>(a: L, b: L, plogp: real -> real)
    requires a != b && plogp(1.0) == 0.0
    ensures InformationGain([a, a, b, b], [a, a], [b, b], plogp) == -2.0 * plogp(0.5)
  {
    assert Entropy([a, a], plogp) == 0.0 && Entropy([b, b], plogp) == 0.0;
    TwoClassEntropy(a, b, plogp);
  }

  lemma TwoClassClasses<L>(a: L, b: L)
    requires a != b
    ensures Classes([a, a, b, b]) == [a, b]
  {
    var ys := [a, a, b, b];
    PureClasses([a, a], a);
    assert ys[..3] == [a, a, b];
    assert ys[..3][..2] == [a, a];
  }

  lemma TwoClassProbabilities<L>(a: L, b: L)
    requires a != b
    ensures Probability([a, a, b, b], a) == 0.5 && Probability([a, a, b, b], b) == 0.5
  {
    assert Count([a, a, b, b], a) == 2 && Count([a, a, b, b], b) == 2;
  }

  /** Two equally frequent classes: the entropy is `-2 * plogp(1/2)` (one bit). */
  lemma TwoClassEntropy<L>(a: L, b: L, plogp: real -> real)
    requires a != b
    ensures Entropy([a, a, b, b], plogp) == -2.0 * plogp(0.5)
  {
    var ys := [a, a, b, b];
    TwoClassClasses(a, b);
    TwoClassProbabilities(a, b);
    assert [a, b][..1] == [a];
    assert [a][..0] == [];
    calc {
      Entropy(ys, plogp);
      Accumulated([a, b], ys, plogp);
      Accumulated([a], ys, plogp) - plogp(Probability(ys, b));
      Accumulated([], ys, plogp) - plogp(Probability(ys, a)) - plogp(Probability(ys, b));
      -2.0 * plogp(0.5);
    }
  }

  /** A block at depth 1 is searched under `max_depth = 1`: being constant, it fails. */
  lemma BlockFails<L>(x: int, y: L, gain: GainFunction<L>)
    ensures HasFeatures(Block(x, y), 1)
    ensures Build(Block(x, y), 1, Config(2, 1), gain, 1) == Failure(MissingInfoGain)
  {
    assert HasFeatures(Block(x, y), 1);
    assert ConstantFeature(Block(x, y), 0);
    ConstantPartitionFails(Block(x, y), 1, Config(2, 1), gain, 1);
  }

  /** A block at depth 1 is not searched under `max_depth = 0`: it becomes its label's leaf. */
  lemma BlockIsLeaf<L>(x: int, y: L, gain: GainFunction<L>)
    ensures HasFeatures(Block(x, y), 1)
    ensures Build(Block(x, y), 1, Config(2, 0), gain, 1) == Success(Leaf(y))
  {
    assert HasFeatures(Block(x, y), 1);
    assert Labels(Block(x, y)) == [y, y];
    var t := Build(Block(x, y), 1, Config(2, 0), gain, 1);
    assert t.value.value in [y, y];
  }

  /** `max_depth = 1`: the children are searched, have no split, and training fails. */
  lemma TwoBlocksDepthOneFails<L>(lo: int, hi: int, a: L, b: L, plogp: real -> real)
    requires lo < hi && a != b
    requires plogp(1.0) == 0.0 && plogp(0.5) < 0.0
    ensures HasFeatures(TwoBlocks(lo, hi, a, b), 1)
    ensures Build(TwoBlocks(lo, hi, a, b), 1, Config(2, 1), EntropyGain(plogp), 0) == Failure(MissingInfoGain)
  {
    TwoBlocksGain(lo, hi, a, b, plogp);
    TwoBlocksBestSplit(lo, hi, a, b, EntropyGain(plogp));
    SplitStep(TwoBlocks(lo, hi, a, b), 1, Config(2, 1), EntropyGain(plogp), 0);
    BlockFails(lo, a, EntropyGain(plogp));
  }

  /** `max_depth = 0`: the root still splits (depth 0 is allowed) into the leaves a and b. */
  lemma TwoBlocksDepthZeroSplits<L>(lo: int, hi: int, a: L, b: L, plogp: real -> real)
    requires lo < hi && a != b
    requires plogp(1.0) == 0.0 && plogp(0.5) < 0.0
    ensures HasFeatures(TwoBlocks(lo, hi, a, b), 1)
    ensures var r := Build(TwoBlocks(lo, hi, a, b), 1, Config(2, 0), EntropyGain(plogp), 0);
            && r.Success? && r.value.Internal?
            && r.value.featureIndex == 0 && r.value.threshold == lo && r.value.infoGain == -2.0 * plogp(0.5)
            && r.value.left == Leaf(a) && r.value.right == Leaf(b)
  {
    var gain := EntropyGain(plogp);
    var data := TwoBlocks(lo, hi, a, b);
    TwoBlocksGain(lo, hi, a, b, plogp);
    TwoBlocksBestSplit(lo, hi, a, b, gain);
    var s := BestSplit(data, 1, gain).value;
    BlockIsLeaf(lo, a, gain);
    BlockIsLeaf(hi, b, gain);
    var left := Build(s.datasetLeft, 1, Config(2, 0), gain, 1);
    var right := Build(s.datasetRight, 1, Config(2, 0), gain, 1);
    assert left == Success(Leaf(a)) && right == Success(Leaf(b));
    SplitStep(data, 1, Config(2, 0), gain, 0);
  }

  lemma SeparatingStump<L>(t: Node<L>, lo: int, hi: int, a: L, b: L)
    requires lo < hi && t.Internal? && t.featureIndex == 0 && t.threshold == lo
    requires t.left == Leaf(a) && t.right == Leaf(b)
    ensures PredictAll([[lo], [hi]], t) == Success([a, b])
  {
    assert MakePrediction([lo], t) == Success(a);
    assert MakePrediction([hi], t) == Success(b);
    var r := PredictAll([[lo], [hi]], t);
    assert r.Success? && |r.value| == 2;
    assert r.value == [a, b];
  }

  /** The tree trained with `max_depth = 0` classifies [lo] as a and [hi] as b. */
  lemma TwoBlocksPredictions<L>(lo: int, hi: int, a: L, b: L, plogp: real -> real)
    requires lo < hi && a != b
    requires plogp(1.0) == 0.0 && plogp(0.5) < 0.0
    ensures HasFeatures(TwoBlocks(lo, hi, a, b), 1)
    ensures Build(TwoBlocks(lo, hi, a, b), 1, Config(2, 0), EntropyGain(plogp), 0).Success?
    ensures PredictAll([[lo], [hi]], Build(TwoBlocks(lo, hi, a, b), 1, Config(2, 0), EntropyGain(plogp), 0).value)
            == Success([a, b])
  {
    TwoBlocksDepthZeroSplits(lo, hi, a, b, plogp);
    SeparatingStump(Build(TwoBlocks(lo, hi, a, b), 1, Config(2, 0), EntropyGain(plogp), 0).value, lo, hi, a, b);
  }

  /** Three rows sharing one value, with mixed labels. */
  function ConstantRows<L>(x: int, a: L, b: L): seq<Row<L>>
  {
    [Row([x], a), Row([x], b), Row([x], b)]
  }

  /** Rows that no threshold separates make training fail, not give the majority leaf. */
  lemma ConstantRowsFail<L>(x: int, a: L, b: L, gain: GainFunction<L>)
    ensures HasFeatures(ConstantRows(x, a, b), 1)
    ensures Build(ConstantRows(x, a, b), 1, Config(2, 2), gain, 0) == Failure(MissingInfoGain)
  {
    ConstantPartitionFails(ConstantRows(x, a, b), 1, Config(2, 2), gain, 0);
  }

  /** Under the corrected builder, a constant block searched at depth 1 is its label's leaf. */
  lemma BlockOrLeaf<L>(x: int, y: L, gain: GainFunction<L>)
    ensures HasFeatures(Block(x, y), 1)
    ensures BuildOrLeaf(Block(x, y), 1, Config(2, 1), gain, 1) == Success(Leaf(y))
  {
    assert HasFeatures(Block(x, y), 1);
    assert ConstantFeature(Block(x, y), 0);
    NoSplitIffConstant(Block(x, y), 1, gain);
    assert Labels(Block(x, y)) == [y, y];
    var t := BuildOrLeaf(Block(x, y), 1, Config(2, 1), gain, 1);
    assert t.value.value in [y, y];
  }

  /** Corrected builder, `max_depth = 1`: the root splits at lo into the leaves a and b. */
  lemma TwoBlocksDepthOneStump<L>(lo: int, hi: int, a: L, b: L, plogp: real -> real)
    requires lo < hi && a != b
    requires plogp(1.0) == 0.0 && plogp(0.5) < 0.0
    ensures HasFeatures(TwoBlocks(lo, hi, a, b), 1)
    ensures var r := BuildOrLeaf(TwoBlocks(lo, hi, a, b), 1, Config(2, 1), EntropyGain(plogp), 0);
            && r.Success? && r.value.Internal?
            && r.value.featureIndex == 0 && r.value.threshold == lo && r.value.infoGain == -2.0 * plogp(0.5)
            && r.value.left == Leaf(a) && r.value.right == Leaf(b)
  {
    var gain := EntropyGain(plogp);
    var data := TwoBlocks(lo, hi, a, b);
    TwoBlocksGain(lo, hi, a, b, plogp);
    TwoBlocksBestSplit(lo, hi, a, b, gain);
    var s := BestSplit(data, 1, gain).value;
    BlockOrLeaf(lo, a, gain);
    BlockOrLeaf(hi, b, gain);
    var left := BuildOrLeaf(s.datasetLeft, 1, Config(2, 1), gain, 1);
    var right := BuildOrLeaf(s.datasetRight, 1, Config(2, 1), gain, 1);
    assert left == Success(Leaf(a)) && right == Success(Leaf(b));
    OrLeafSplitStep(data, 1, Config(2, 1), gain, 0);
  }

  /** b is the majority of a, b, b (and the only label when a == b). */
  lemma ConstantRowsMajority<L>(x: int, a: L, b: L)
    ensures Labels(ConstantRows(x, a, b)) == [a, b, b]
    ensures IsFirstMostFrequent([a, b, b], b)
  {
    var ys := [a, b, b];
    if a == b {
      assert Count(ys, b) == 3;
    } else {
      assert Count(ys, a) == 1 && Count(ys, b) == 2;
      assert IndexOf(ys, b) == 1;
    }
  }

  /** Under the corrected builder, rows that no threshold separates give the majority leaf. */
  lemma ConstantRowsLeaf<L>(x: int, a: L, b: L, gain: GainFunction<L>)
    ensures HasFeatures(ConstantRows(x, a, b), 1)
    ensures BuildOrLeaf(ConstantRows(x, a, b), 1, Config(2, 2), gain, 0) == Success(Leaf(b))
  {
    var data := ConstantRows(x, a, b);
    assert HasFeatures(data, 1);
    assert ConstantFeature(data, 0);
    NoSplitIsLeaf(data, 1, Config(2, 2), gain, 0);
    ConstantRowsMajority(x, a, b);
    var t := BuildOrLeaf(data, 1, Config(2, 2), gain, 0);
    FirstMostFrequentIsUnique([a, b, b], t.value.value, b);
  }
}
