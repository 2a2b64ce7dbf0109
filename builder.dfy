/**
 * `build_tree` (AI-phase2/ai.py:25-36). A partition is split when it has at least
 * `min_samples_split` rows, its depth is at most `max_depth`, and the best split has a
 * positive gain; otherwise it becomes a majority-vote leaf.
 *
 * The source reads `best_split["info_gain"]` without checking that a split was found:
 * when no candidate is accepted the dict is empty and the lookup raises `KeyError`
 * (ai.py:29-30). That is `Failure(MissingInfoGain)` here, not a leaf. `max` of an
 * empty label list raises `ValueError` (ai.py:79): `Failure(EmptyLabels)`.
 */
module Builder {
  import opened Wrappers
  import opened Dataset
  import opened Impurity
  import opened Partition
  import opened SplitSearch
  import opened Vote
  import opened Tree

  datatype BuildError = MissingInfoGain | EmptyLabels

  /** The options of `DecisionTreeClassifier.__init__` (ai.py:19-23) that training reads. */
  datatype Config = Config(minSamplesSplit: int, maxDepth: int)

  /** The leaf of ai.py:35-36. */
  function LeafFor<L(==)>(data: seq<Row<L>>): (r: Result<Node<L>, BuildError>)
    ensures r.Success? <==> data != []
    ensures r.Failure? ==> r.error == EmptyLabels
    ensures r.Success? ==> r.value.Leaf? && IsFirstMostFrequent(Labels(data), r.value.value)
  {
    match LeafValue(Labels(data))
    case None => Failure(EmptyLabels)
    case Some(v) => Success(Leaf(v))
  }

  /**
   * `t` is a tree grown on `data`: each decision node holds the first best split of the
   * rows that reach it, with a positive gain, and its children are grown on the two
   * sides; each leaf holds the majority label of the rows that reach it.
   */
  ghost predicate Grown<L>(t: Node<L>, data: seq<Row<L>>, nf: nat, gain: GainFunction<L>)
    requires HasFeatures(data, nf)
    decreases t
  {
    match t
    case Leaf(v) =>
      data != [] && IsFirstMostFrequent(Labels(data), v)
    case Internal(f, threshold, g, l, r) =>
      && IsFirstBest(data, nf, gain, f, threshold)
      && g == SplitGain(data, f, threshold, gain)
      && g > 0.0
      && (SplitKeepsFeatures(data, nf, f, threshold);
          && Grown(l, Split(data, f, threshold).0, nf, gain)
          && Grown(r, Split(data, f, threshold).1, nf, gain))
  }

  /**
   * `t` follows the stopping rule of ai.py:28-36 on `data` at `depth`. A decision node
   * sits on a partition of at least `min_samples_split` rows at a depth `<= max_depth`,
   * and its children follow the rule on the two sides of its split, one level down. A
   * leaf sits on a partition that fails that test, or whose best split gains nothing.
   * With `leafOnNoSplit` a leaf may also sit on an eligible partition that has no
   * split at all (the corrected builder below).
   */
  ghost predicate Stops<L>(t: Node<L>, data: seq<Row<L>>, nf: nat, config: Config, gain: GainFunction<L>,
                           depth: nat, leafOnNoSplit: bool)
    requires HasFeatures(data, nf)
    decreases t
  {
    var eligible := |data| >= config.minSamplesSplit && depth <= config.maxDepth;
    match t
    case Leaf(_) =>
      || !eligible
      || (BestSplit(data, nf, gain).Some? && BestSplit(data, nf, gain).value.infoGain <= 0.0)
      || (leafOnNoSplit && BestSplit(data, nf, gain).None?)
    case Internal(f, threshold, _, l, r) =>
      && f < nf
      && eligible
      && (SplitKeepsFeatures(data, nf, f, threshold);
          && Stops(l, Split(data, f, threshold).0, nf, config, gain, depth + 1, leafOnNoSplit)
          && Stops(r, Split(data, f, threshold).1, nf, config, gain, depth + 1, leafOnNoSplit))
  }

  /** `build_tree(dataset, curr_depth)`. */
  function Build<L(==)>(data: seq<Row<L>>, nf: nat, config: Config, gain: GainFunction<L>,
                        depth: nat): (r: Result<Node<L>, BuildError>)
    requires HasFeatures(data, nf)
    ensures r.Success? ==> Grown(r.value, data, nf, gain)
    ensures r.Success? ==> SplitsWithin(r.value, depth, config.maxDepth)
    ensures r.Success? ==> Stops(r.value, data, nf, config, gain, depth, false)
    decreases |data|
  {
    if |data| >= config.minSamplesSplit && depth <= config.maxDepth then
      match BestSplit(data, nf, gain)
      case None => Failure(MissingInfoGain)
      case Some(s) =>
        if s.infoGain > 0.0 then
          var left := Build(s.datasetLeft, nf, config, gain, depth + 1);
          if left.Failure? then left
          else
            var right := Build(s.datasetRight, nf, config, gain, depth + 1);
            if right.Failure? then right
            else Success(Internal(s.featureIndex, s.threshold, s.infoGain, left.value, right.value))
        else LeafFor(data)
    else LeafFor(data)
  }

  /** One step of the recursion where the partition splits: left subtree first, then right. */
  lemma SplitStep<L>(data: seq<Row<L>>, nf: nat, config: Config, gain: GainFunction<L>, depth: nat)
    requires HasFeatures(data, nf)
    requires |data| >= config.minSamplesSplit && depth <= config.maxDepth
    requires BestSplit(data, nf, gain).Some? && BestSplit(data, nf, gain).value.infoGain > 0.0
    ensures var s := BestSplit(data, nf, gain).value;
            var left := Build(s.datasetLeft, nf, config, gain, depth + 1);
            var right := Build(s.datasetRight, nf, config, gain, depth + 1);
            Build(data, nf, config, gain, depth) ==
              if left.Failure? then left
              else if right.Failure? then right
              else Success(Internal(s.featureIndex, s.threshold, s.infoGain, left.value, right.value))
  {
  }

  /**
   * An eligible partition whose best split gains a positive amount is split there: the
   * build succeeds exactly when both sides build, and then the root is a decision node
   * on the first best split, with a positive gain.
   */
  lemma PositiveGainSplits<L>(data: seq<Row<L>>, nf: nat, config: Config,
                                  gain: GainFunction<L>, depth: nat)
    requires HasFeatures(data, nf)
    requires |data| >= config.minSamplesSplit && depth <= config.maxDepth
    requires BestSplit(data, nf, gain).Some? && BestSplit(data, nf, gain).value.infoGain > 0.0
    ensures var s := BestSplit(data, nf, gain).value;
            Build(data, nf, config, gain, depth).Success? <==>
              Build(s.datasetLeft, nf, config, gain, depth + 1).Success? &&
              Build(s.datasetRight, nf, config, gain, depth + 1).Success?
    ensures var r := Build(data, nf, config, gain, depth);
            r.Success? ==>
              && r.value.Internal?
              && IsFirstBest(data, nf, gain, r.value.featureIndex, r.value.threshold)
              && r.value.infoGain > 0.0
  {
    SplitStep(data, nf, config, gain, depth);
  }

  /**
   * An eligible partition whose best split gains nothing (or less) is not split: it
   * becomes its majority leaf.
   */
  lemma NonPositiveGainIsLeaf<L>(data: seq<Row<L>>, nf: nat, config: Config,
                                     gain: GainFunction<L>, depth: nat)
    requires HasFeatures(data, nf)
    requires |data| >= config.minSamplesSplit && depth <= config.maxDepth
    requires BestSplit(data, nf, gain).Some? && BestSplit(data, nf, gain).value.infoGain <= 0.0
    ensures Build(data, nf, config, gain, depth).Success?
    ensures Build(data, nf, config, gain, depth).value.Leaf?
    ensures IsFirstMostFrequent(Labels(data), Build(data, nf, config, gain, depth).value.value)
  {
  }

  /**
   * The converse of `Build`'s contract: a tree grown on `data` that follows the
   * stopping rule is the tree `build_tree` returns. Together with `Build`'s
   * postconditions, `Grown` and `Stops` describe the built tree exactly.
   */
  lemma {:induction false} GrownAndStoppedIsBuild<L>(t: Node<L>, data: seq<Row<L>>, nf: nat, config: Config,
                                                     gain: GainFunction<L>, depth: nat)
    requires HasFeatures(data, nf)
    requires Grown(t, data, nf, gain) && Stops(t, data, nf, config, gain, depth, false)
    ensures Build(data, nf, config, gain, depth) == Success(t)
    decreases t
  {
    match t
    case Leaf(v) =>
      assert Build(data, nf, config, gain, depth) == LeafFor(data);
      FirstMostFrequentIsUnique(Labels(data), v, LeafFor(data).value.value);
    case Internal(f, threshold, g, l, r) =>
      var best := BestSplit(data, nf, gain);
      assert best.Some?;
      FirstBestIsUnique(data, nf, gain, f, threshold, best.value.featureIndex, best.value.threshold);
      var sides := Split(data, f, threshold);
      SplitKeepsFeatures(data, nf, f, threshold);
      GrownAndStoppedIsBuild(l, sides.0, nf, config, gain, depth + 1);
      GrownAndStoppedIsBuild(r, sides.1, nf, config, gain, depth + 1);
      SplitStep(data, nf, config, gain, depth);
  }

  /**
   * A partition smaller than `min_samples_split`, or deeper than `max_depth`, becomes a
   * single majority leaf.
   */
  lemma StoppedPartitionIsLeaf<L>(data: seq<Row<L>>, nf: nat, config: Config,
                                      gain: GainFunction<L>, depth: nat)
    requires HasFeatures(data, nf) && data != []
    requires |data| < config.minSamplesSplit || depth > config.maxDepth
    ensures Build(data, nf, config, gain, depth).Success?
    ensures Build(data, nf, config, gain, depth).value.Leaf?
    ensures IsFirstMostFrequent(Labels(data), Build(data, nf, config, gain, depth).value.value)
  {
  }

  /**
   * A partition that is eligible for splitting but constant on every feature (a
   * single row, for one) makes the build fail with the `KeyError` of ai.py:30.
   */
  lemma ConstantPartitionFails<L>(data: seq<Row<L>>, nf: nat, config: Config,
                                      gain: GainFunction<L>, depth: nat)
    requires HasFeatures(data, nf)
    requires |data| >= config.minSamplesSplit && depth <= config.maxDepth
    requires forall f :: 0 <= f < nf ==> ConstantFeature(data, f)
    ensures Build(data, nf, config, gain, depth) == Failure(MissingInfoGain)
  {
    NoSplitIffConstant(data, nf, gain);
  }

  /** Training on no rows always fails, with one of the two errors. */
  lemma EmptyDatasetFails<L>(nf: nat, config: Config, gain: GainFunction<L>, depth: nat)
    ensures var r := Build([], nf, config, gain, depth);
            r == if 0 >= config.minSamplesSplit && depth <= config.maxDepth
                 then Failure(MissingInfoGain) else Failure(EmptyLabels)
  {
    NoSplitIffConstant([], nf, gain);
  }

  /**
   * A built tree is at most `max_depth + 1` levels deep: decision nodes sit at depths
   * `0..max_depth`, and with a negative `max_depth` the root is a leaf.
   */
  lemma BuiltTreeHeight<L>(data: seq<Row<L>>, nf: nat, config: Config,
                               gain: GainFunction<L>)
    requires HasFeatures(data, nf)
    requires Build(data, nf, config, gain, 0).Success?
    ensures var t := Build(data, nf, config, gain, 0).value;
            if config.maxDepth < 0 then t.Leaf? else Height(t) <= config.maxDepth + 1
  {
    SplitsWithinHeight(Build(data, nf, config, gain, 0).value, 0, config.maxDepth);
  }

  /**
   * With `max_depth = 0` the root may still split (`0 <= 0`), and then both children
   * are leaves.
   */
  lemma DepthZeroChildrenAreLeaves<L>(data: seq<Row<L>>, nf: nat, config: Config,
                                          gain: GainFunction<L>)
    requires HasFeatures(data, nf) && config.maxDepth == 0
    requires Build(data, nf, config, gain, 0).Success?
    requires Build(data, nf, config, gain, 0).value.Internal?
    ensures Build(data, nf, config, gain, 0).value.left.Leaf?
    ensures Build(data, nf, config, gain, 0).value.right.Leaf?
  {
    var t := Build(data, nf, config, gain, 0).value;
    assert SplitsWithin(t.left, 1, 0);
    assert SplitsWithin(t.right, 1, 0);
  }

  /**
   * With the entropy gain, a partition whose rows all carry the same label is never
   * split: every candidate gains exactly zero, so a successful build is that label's
   * leaf. Assumes only `1 * log2(1) == 0`.
   */
  lemma {:induction false} PureNeverSplits<L>(data: seq<Row<L>>, nf: nat, config: Config,
                                              plogp: real -> real, depth: nat, v: L)
    requires HasFeatures(data, nf)
    requires forall i :: 0 <= i < |data| ==> data[i].target == v
    requires plogp(1.0) == 0.0
    requires Build(data, nf, config, EntropyGain(plogp), depth).Success?
    ensures Build(data, nf, config, EntropyGain(plogp), depth) == Success(Leaf(v))
  {
    var gain := EntropyGain(plogp);
    var best := BestSplit(data, nf, gain);
    if |data| >= config.minSamplesSplit && depth <= config.maxDepth && best.Some? {
      PureSplitGainIsZero(data, best.value.featureIndex, best.value.threshold, plogp, v);
      assert best.value.infoGain == 0.0;
    }
    assert Build(data, nf, config, gain, depth) == LeafFor(data);
    var t := LeafFor(data).value;
    assert t.value in Labels(data);
  }

  /** Every split of a pure partition has zero entropy gain. */
  lemma PureSplitGainIsZero<L>(data: seq<Row<L>>, f: nat, threshold: int, plogp: real -> real, v: L)
    requires HasColumn(data, f) && Accepted(data, f, threshold)
    requires forall i :: 0 <= i < |data| ==> data[i].target == v
    requires plogp(1.0) == 0.0
    ensures SplitGain(data, f, threshold, EntropyGain(plogp)) == 0.0
  {
    var sides := Split(data, f, threshold);
    SplitSides(data, f, threshold);
    PureGainIsZero(Labels(data), Labels(sides.0), Labels(sides.1), v, plogp);
  }

  /**
   * `build_tree` with an empty search result taken as "no split": the partition becomes
   * its majority leaf, as it does when the best gain is not positive. This builder
   * fails only on an empty partition.
   */
  function BuildOrLeaf<L(==)>(data: seq<Row<L>>, nf: nat, config: Config, gain: GainFunction<L>,
                              depth: nat): (r: Result<Node<L>, BuildError>)
    requires HasFeatures(data, nf)
    ensures r.Success? <==> data != []
    ensures r.Failure? ==> r.error == EmptyLabels
    ensures r.Success? ==> Grown(r.value, data, nf, gain)
    ensures r.Success? ==> SplitsWithin(r.value, depth, config.maxDepth)
    ensures r.Success? ==> Stops(r.value, data, nf, config, gain, depth, true)
    decreases |data|
  {
    if |data| >= config.minSamplesSplit && depth <= config.maxDepth then
      match BestSplit(data, nf, gain)
      case None => LeafFor(data)
      case Some(s) =>
        if s.infoGain > 0.0 then
          var left := BuildOrLeaf(s.datasetLeft, nf, config, gain, depth + 1);
          var right := BuildOrLeaf(s.datasetRight, nf, config, gain, depth + 1);
          Success(Internal(s.featureIndex, s.threshold, s.infoGain, left.value, right.value))
        else LeafFor(data)
    else LeafFor(data)
  }

  /**
   * The intended behaviour of ai.py:29-30 on an empty search: an eligible partition
   * with no accepted split becomes its majority leaf instead of failing.
   */
  lemma NoSplitIsLeaf<L>(data: seq<Row<L>>, nf: nat, config: Config,
                             gain: GainFunction<L>, depth: nat)
    requires HasFeatures(data, nf) && data != []
    requires forall f :: 0 <= f < nf ==> ConstantFeature(data, f)
    ensures BuildOrLeaf(data, nf, config, gain, depth).Success?
    ensures BuildOrLeaf(data, nf, config, gain, depth).value.Leaf?
    ensures IsFirstMostFrequent(Labels(data), BuildOrLeaf(data, nf, config, gain, depth).value.value)
  {
    NoSplitIffConstant(data, nf, gain);
  }

  /** One step of the corrected builder where the partition splits. */
  lemma OrLeafSplitStep<L>(data: seq<Row<L>>, nf: nat, config: Config, gain: GainFunction<L>, depth: nat)
    requires HasFeatures(data, nf)
    requires |data| >= config.minSamplesSplit && depth <= config.maxDepth
    requires BestSplit(data, nf, gain).Some? && BestSplit(data, nf, gain).value.infoGain > 0.0
    ensures var s := BestSplit(data, nf, gain).value;
            var left := BuildOrLeaf(s.datasetLeft, nf, config, gain, depth + 1);
            var right := BuildOrLeaf(s.datasetRight, nf, config, gain, depth + 1);
            left.Success? && right.Success? &&
            BuildOrLeaf(data, nf, config, gain, depth) ==
              Success(Internal(s.featureIndex, s.threshold, s.infoGain, left.value, right.value))
  {
  }

  /**
   * Wherever `build_tree` as written succeeds, the corrected builder gives the same
   * tree: the two differ only where the code raises `KeyError`.
   */
  lemma {:induction false} BuildOrLeafExtendsBuild<L>(data: seq<Row<L>>, nf: nat, config: Config,
                                                      gain: GainFunction<L>, depth: nat)
    requires HasFeatures(data, nf)
    requires Build(data, nf, config, gain, depth).Success?
    ensures BuildOrLeaf(data, nf, config, gain, depth) == Build(data, nf, config, gain, depth)
    decreases |data|
  {
    var best := BestSplit(data, nf, gain);
    if |data| >= config.minSamplesSplit && depth <= config.maxDepth && best.Some? && best.value.infoGain > 0.0 {
      var s := best.value;
      SplitStep(data, nf, config, gain, depth);
      OrLeafSplitStep(data, nf, config, gain, depth);
      BuildOrLeafExtendsBuild(s.datasetLeft, nf, config, gain, depth + 1);
      BuildOrLeafExtendsBuild(s.datasetRight, nf, config, gain, depth + 1);
    } else {
      assert best.None? ==> !(|data| >= config.minSamplesSplit && depth <= config.maxDepth);
      assert Build(data, nf, config, gain, depth) == LeafFor(data);
      assert BuildOrLeaf(data, nf, config, gain, depth) == LeafFor(data);
    }
  }

  /** The converse of `BuildOrLeaf`'s contract, as `GrownAndStoppedIsBuild` is for `Build`. */
  lemma {:induction false} GrownAndStoppedIsBuildOrLeaf<L>(t: Node<L>, data: seq<Row<L>>, nf: nat, config: Config,
                                                           gain: GainFunction<L>, depth: nat)
    requires HasFeatures(data, nf)
    requires Grown(t, data, nf, gain) && Stops(t, data, nf, config, gain, depth, true)
    ensures BuildOrLeaf(data, nf, config, gain, depth) == Success(t)
    decreases t
  {
    match t
    case Leaf(v) =>
      assert BuildOrLeaf(data, nf, config, gain, depth) == LeafFor(data);
      FirstMostFrequentIsUnique(Labels(data), v, LeafFor(data).value.value);
    case Internal(f, threshold, g, l, r) =>
      var best := BestSplit(data, nf, gain);
      assert best.Some?;
      FirstBestIsUnique(data, nf, gain, f, threshold, best.value.featureIndex, best.value.threshold);
      var sides := Split(data, f, threshold);
      SplitKeepsFeatures(data, nf, f, threshold);
      GrownAndStoppedIsBuildOrLeaf(l, sides.0, nf, config, gain, depth + 1);
      GrownAndStoppedIsBuildOrLeaf(r, sides.1, nf, config, gain, depth + 1);
      OrLeafSplitStep(data, nf, config, gain, depth);
  }
}
