/**
 * `get_best_split` (AI-phase2/ai.py:38-56): a brute-force scan over the features in
 * ascending order and, for each, over the sorted distinct values of its column as
 * thresholds. A candidate is rejected when one side of its split is empty; otherwise
 * it replaces the best split so far only when its information gain is strictly
 * greater, so the first maximal candidate wins.
 *
 * `BestSplit` is the scan written as a fold, in the loop's own order, and carries
 * what the search guarantees; the method `GetBestSplit` is the loop itself.
 */
module SplitSearch {
  import opened Wrappers
  import opened Dataset
  import opened Partition

  /** The entries the source stores in the `best_split` dict (ai.py:50-54). */
  datatype SplitChoice<L> = SplitChoice(featureIndex: nat, threshold: int,
                                        datasetLeft: seq<Row<L>>, datasetRight: seq<Row<L>>,
                                        infoGain: real)

  /** Feature `f` of the partition, with one of the values of its column as threshold. */
  ghost predicate IsCandidate<L>(data: seq<Row<L>>, nf: nat, f: nat, t: int)
    requires HasFeatures(data, nf)
  {
    f < nf && t in Column(data, f)
  }

  /** The guard of ai.py:46: both sides of the split are non-empty. */
  predicate Accepted<L>(data: seq<Row<L>>, f: nat, t: int)
    requires HasColumn(data, f)
  {
    var sides := Split(data, f, t);
    |sides.0| > 0 && |sides.1| > 0
  }

  /** The information gain of an accepted candidate (ai.py:47-48). */
  function SplitGain<L(==)>(data: seq<Row<L>>, f: nat, t: int, gain: GainFunction<L>): real
    requires HasColumn(data, f) && Accepted(data, f, t)
  {
    var sides := Split(data, f, t);
    gain(Labels(data), Labels(sides.0), Labels(sides.1))
  }

  /** What the source records for an accepted candidate. */
  function Candidate<L(==)>(data: seq<Row<L>>, f: nat, t: int, gain: GainFunction<L>): SplitChoice<L>
    requires HasColumn(data, f) && Accepted(data, f, t)
  {
    var sides := Split(data, f, t);
    SplitChoice(f, t, sides.0, sides.1, SplitGain(data, f, t, gain))
  }

  /** Lexicographic order on (feature, threshold): the order the scan visits candidates. */
  predicate LexBefore(f1: nat, t1: int, f2: nat, t2: int)
  {
    f1 < f2 || (f1 == f2 && t1 < t2)
  }

  /**
   * `(f, t)` is the split the source intends: an accepted candidate whose gain no
   * other accepted candidate exceeds, and that every earlier candidate falls short of.
   */
  ghost predicate IsFirstBest<L>(data: seq<Row<L>>, nf: nat, gain: GainFunction<L>, f: nat, t: int)
    requires HasFeatures(data, nf)
  {
    && IsCandidate(data, nf, f, t)
    && Accepted(data, f, t)
    && (forall f': nat, t' ::
          IsCandidate(data, nf, f', t') && Accepted(data, f', t') ==>
            SplitGain(data, f', t', gain) <= SplitGain(data, f, t, gain))
    && (forall f': nat, t' ::
          IsCandidate(data, nf, f', t') && Accepted(data, f', t') && LexBefore(f', t', f, t) ==>
            SplitGain(data, f', t', gain) < SplitGain(data, f, t, gain))
  }

  /** At most one candidate is the first best: the (feature, threshold) order breaks every tie. */
  lemma FirstBestIsUnique<L>(data: seq<Row<L>>, nf: nat, gain: GainFunction<L>, f: nat, t: int, f': nat, t': int)
    requires HasFeatures(data, nf)
    requires IsFirstBest(data, nf, gain, f, t) && IsFirstBest(data, nf, gain, f', t')
    ensures f == f' && t == t'
  {
  }

  /** `possible_thresholds` (ai.py:42-43). */
  function Thresholds<L>(data: seq<Row<L>>, f: nat): seq<int>
    requires HasColumn(data, f)
  {
    Unique(Column(data, f))
  }

  /**
   * One pass of the inner loop body (ai.py:45-55). `max_info_gain` starts at minus
   * infinity and afterwards always equals the recorded gain, so "greater than the
   * maximum" is "nothing recorded yet, or greater than the recorded gain".
   */
  function Consider<L(==)>(data: seq<Row<L>>, f: nat, t: int, gain: GainFunction<L>,
                          best: Option<SplitChoice<L>>): (r: Option<SplitChoice<L>>)
    requires HasColumn(data, f)
    ensures r == best || (Accepted(data, f, t) && r == Some(Candidate(data, f, t, gain)))
    ensures Accepted(data, f, t) && (best.None? || SplitGain(data, f, t, gain) > best.value.infoGain) ==>
              r == Some(Candidate(data, f, t, gain))
    ensures !Accepted(data, f, t) || (best.Some? && SplitGain(data, f, t, gain) <= best.value.infoGain) ==> r == best
    ensures best.Some? ==> r.Some? && r.value.infoGain >= best.value.infoGain
  {
    var sides := Split(data, f, t);
    if |sides.0| > 0 && |sides.1| > 0 then
      var g := gain(Labels(data), Labels(sides.0), Labels(sides.1));
      if best.None? || g > best.value.infoGain then Some(SplitChoice(f, t, sides.0, sides.1, g))
      else best
    else best
  }

  /** The inner loop (ai.py:44-55) over the thresholds still to visit. */
  function ScanThresholds<L(==)>(data: seq<Row<L>>, f: nat, thresholds: seq<int>, gain: GainFunction<L>,
                                best: Option<SplitChoice<L>>): Option<SplitChoice<L>>
    requires HasColumn(data, f)
    decreases |thresholds|
  {
    if thresholds == [] then best
    else ScanThresholds(data, f, thresholds[1..], gain, Consider(data, f, thresholds[0], gain, best))
  }

  /** The outer loop (ai.py:41-55) over the features from `f` on. */
  function ScanFeatures<L(==)>(data: seq<Row<L>>, nf: nat, f: nat, gain: GainFunction<L>,
                              best: Option<SplitChoice<L>>): Option<SplitChoice<L>>
    requires HasFeatures(data, nf)
    decreases nf - f
  {
    if f >= nf then best
    else ScanFeatures(data, nf, f + 1, gain, ScanThresholds(data, f, Thresholds(data, f), gain, best))
  }

  /**
   * The result of `get_best_split`: `None` is the empty dict of ai.py:39, returned when
   * no candidate is accepted; otherwise the first maximal-gain candidate.
   */
  function BestSplit<L(==)>(data: seq<Row<L>>, nf: nat, gain: GainFunction<L>): (best: Option<SplitChoice<L>>)
    requires HasFeatures(data, nf)
    ensures best.None? <==> forall f: nat, t :: IsCandidate(data, nf, f, t) ==> !Accepted(data, f, t)
    ensures best.Some? ==>
              && IsFirstBest(data, nf, gain, best.value.featureIndex, best.value.threshold)
              && best.value == Candidate(data, best.value.featureIndex, best.value.threshold, gain)
    ensures best.Some? ==>
              && 0 < |best.value.datasetLeft| < |data|
              && 0 < |best.value.datasetRight| < |data|
              && HasFeatures(best.value.datasetLeft, nf)
              && HasFeatures(best.value.datasetRight, nf)
  {
    ScanFeaturesSpec(data, nf, gain, 0, None);
    var best := ScanFeatures(data, nf, 0, gain, None);
    ChoiceShape(data, nf, gain, best);
    best
  }

  lemma ChoiceShape<L>(data: seq<Row<L>>, nf: nat, gain: GainFunction<L>, best: Option<SplitChoice<L>>)
    requires HasFeatures(data, nf)
    requires BestAmong(data, nf, gain, nf, [], best)
    ensures best.None? <==> forall f: nat, t :: IsCandidate(data, nf, f, t) ==> !Accepted(data, f, t)
    ensures best.Some? ==>
              && IsFirstBest(data, nf, gain, best.value.featureIndex, best.value.threshold)
              && best.value == Candidate(data, best.value.featureIndex, best.value.threshold, gain)
    ensures best.Some? ==>
              && 0 < |best.value.datasetLeft| < |data|
              && 0 < |best.value.datasetRight| < |data|
              && HasFeatures(best.value.datasetLeft, nf)
              && HasFeatures(best.value.datasetRight, nf)
  {
    assert forall f: nat, t :: Visited(data, nf, nf, [], f, t) <==> IsCandidate(data, nf, f, t);
    if best.Some? {
      SplitKeepsFeatures(data, nf, best.value.featureIndex, best.value.threshold);
    }
  }

  /** The nested loop of ai.py:38-56, computing what `BestSplit` describes. */
  method GetBestSplit<L(==)>(data: seq<Row<L>>, nf: nat, gain: GainFunction<L>)
    returns (best: Option<SplitChoice<L>>)
    requires HasFeatures(data, nf)
    ensures best == BestSplit(data, nf, gain)
  {
    best := None;
    for f := 0 to nf
      invariant ScanFeatures(data, nf, f, gain, best) == ScanFeatures(data, nf, 0, gain, None)
    {
      var possibleThresholds := Unique(Column(data, f));
      ghost var atFeatureStart := best;
      for i := 0 to |possibleThresholds|
        invariant ScanThresholds(data, f, possibleThresholds[i..], gain, best)
                  == ScanThresholds(data, f, possibleThresholds, gain, atFeatureStart)
      {
        var threshold := possibleThresholds[i];
        var sides := Split(data, f, threshold);
        var datasetLeft, datasetRight := sides.0, sides.1;
        if |datasetLeft| > 0 && |datasetRight| > 0 {
          var currInfoGain := gain(Labels(data), Labels(datasetLeft), Labels(datasetRight));
          if best.None? || currInfoGain > best.value.infoGain {
            best := Some(SplitChoice(f, threshold, datasetLeft, datasetRight, currInfoGain));
          }
        }
        assert possibleThresholds[i..][1..] == possibleThresholds[i + 1..];
      }
      assert possibleThresholds[|possibleThresholds|..] == [];
    }
  }

  /** Every feature takes a single value over the partition. */
  ghost predicate ConstantFeature<L>(data: seq<Row<L>>, f: nat)
    requires HasColumn(data, f)
  {
    forall i, j :: 0 <= i < |data| && 0 <= j < |data| ==> data[i].features[f] == data[j].features[f]
  }

  /**
   * The search finds nothing exactly when every feature is constant over the
   * partition (in particular for a single row): then every threshold is the one
   * value of its column and the right side is empty (ai.py:39, 46, 56).
   */
  lemma {:induction false} NoSplitIffConstant<L>(data: seq<Row<L>>, nf: nat, gain: GainFunction<L>)
    requires HasFeatures(data, nf)
    ensures BestSplit(data, nf, gain).None? <==> forall f :: 0 <= f < nf ==> ConstantFeature(data, f)
  {
    if forall f :: 0 <= f < nf ==> ConstantFeature(data, f) {
      forall f: nat, t | IsCandidate(data, nf, f, t) ensures !Accepted(data, f, t) {
        var col := Column(data, f);
        var k :| 0 <= k < |col| && col[k] == t;
        assert ConstantFeature(data, f);
        assert forall i :: 0 <= i < |data| ==> data[i].features[f] == data[k].features[f];
        NothingAbove(data, f, t);
      }
    } else {
      var f :| 0 <= f < nf && !ConstantFeature(data, f);
      var i, j :| 0 <= i < |data| && 0 <= j < |data| && data[i].features[f] != data[j].features[f];
      if data[j].features[f] < data[i].features[f] {
        i, j := j, i;
      }
      var t := data[i].features[f];
      SplitSides(data, f, t);
      assert Column(data, f)[i] == t;
      assert IsCandidate(data, nf, f, t);
      assert data[i] in Split(data, f, t).0;
      assert data[j] in Split(data, f, t).1;
      assert Accepted(data, f, t);
    }
  }

  /** A threshold no row exceeds leaves the right side empty. */
  lemma {:induction false} NothingAbove<L>(data: seq<Row<L>>, f: nat, t: int)
    requires HasColumn(data, f)
    requires forall i :: 0 <= i < |data| ==> data[i].features[f] <= t
    ensures Split(data, f, t).1 == []
  {
    if data != [] {
      assert HasColumn(data[1..], f) by {
        forall row | row in data[1..] ensures f < |row.features| {
          assert row in data;
        }
      }
      NothingAbove(data[1..], f, t);
    }
  }

  /**
   * Ties between features go to the lower index: a feature whose column repeats an
   * earlier feature's column is never chosen, since the earlier one reaches the same
   * gain first.
   */
  lemma DuplicateFeatureLoses<L>(data: seq<Row<L>>, nf: nat, gain: GainFunction<L>, f: nat, g: nat)
    requires HasFeatures(data, nf) && f < g < nf
    requires forall i :: 0 <= i < |data| ==> data[i].features[f] == data[i].features[g]
    ensures BestSplit(data, nf, gain).Some? ==> BestSplit(data, nf, gain).value.featureIndex != g
  {
    var best := BestSplit(data, nf, gain);
    if best.Some? && best.value.featureIndex == g {
      var t := best.value.threshold;
      SameColumnSameSplit(data, f, g, t);
      assert Column(data, f) == Column(data, g);
      assert IsCandidate(data, nf, f, t) && Accepted(data, f, t);
      assert LexBefore(f, t, g, t);
      assert false;
    }
  }

  // The scan's invariant: after the features before F, and the thresholds `done`
  // of feature F, `best` is the first maximal candidate among those visited.

  ghost predicate Visited<L>(data: seq<Row<L>>, nf: nat, F: nat, done: seq<int>, f: nat, t: int)
    requires HasFeatures(data, nf)
  {
    f < nf && ((f < F && t in Column(data, f)) || (f == F && t in done))
  }

  ghost predicate BestAmong<L>(data: seq<Row<L>>, nf: nat, gain: GainFunction<L>, F: nat, done: seq<int>,
                                   best: Option<SplitChoice<L>>)
    requires HasFeatures(data, nf)
  {
    && (best.None? <==> forall f: nat, t :: Visited(data, nf, F, done, f, t) ==> !Accepted(data, f, t))
    && (best.Some? ==>
          var s := best.value;
          && Visited(data, nf, F, done, s.featureIndex, s.threshold)
          && Accepted(data, s.featureIndex, s.threshold)
          && s == Candidate(data, s.featureIndex, s.threshold, gain)
          && (forall f: nat, t ::
                Visited(data, nf, F, done, f, t) && Accepted(data, f, t) ==>
                  SplitGain(data, f, t, gain) <= s.infoGain)
          && (forall f: nat, t ::
                Visited(data, nf, F, done, f, t) && Accepted(data, f, t) &&
                LexBefore(f, t, s.featureIndex, s.threshold) ==>
                  SplitGain(data, f, t, gain) < s.infoGain))
  }

  /** One inner-loop iteration keeps the invariant, given that `t` exceeds the visited thresholds. */
  lemma {:induction false} ConsiderStep<L>(data: seq<Row<L>>, nf: nat, gain: GainFunction<L>, F: nat, done: seq<int>,
                                          t: int, best: Option<SplitChoice<L>>)
    requires HasFeatures(data, nf) && F < nf
    requires t in Column(data, F)
    requires forall u :: u in done ==> u < t
    requires BestAmong(data, nf, gain, F, done, best)
    ensures BestAmong(data, nf, gain, F, done + [t], Consider(data, F, t, gain, best))
  {
    if !Accepted(data, F, t) {
      ConsiderRejected(data, nf, gain, F, done, t, best);
    } else if best.None? || SplitGain(data, F, t, gain) > best.value.infoGain {
      ConsiderRecords(data, nf, gain, F, done, t, best);
    } else {
      ConsiderKeeps(data, nf, gain, F, done, t, best);
    }
  }

  lemma {:induction false} ConsiderRejected<L>(data: seq<Row<L>>, nf: nat, gain: GainFunction<L>, F: nat,
                                              done: seq<int>, t: int, best: Option<SplitChoice<L>>)
    requires HasFeatures(data, nf) && F < nf
    requires !Accepted(data, F, t)
    requires BestAmong(data, nf, gain, F, done, best)
    ensures Consider(data, F, t, gain, best) == best
    ensures BestAmong(data, nf, gain, F, done + [t], best)
  {
    var done' := done + [t];
    forall f: nat, u | Visited(data, nf, F, done', f, u) && Accepted(data, f, u)
      ensures Visited(data, nf, F, done, f, u)
    {
    }
  }

  lemma {:induction false} ConsiderKeeps<L>(data: seq<Row<L>>, nf: nat, gain: GainFunction<L>, F: nat,
                                           done: seq<int>, t: int, best: Option<SplitChoice<L>>)
    requires HasFeatures(data, nf) && F < nf
    requires t in Column(data, F)
    requires forall u :: u in done ==> u < t
    requires Accepted(data, F, t) && best.Some? && SplitGain(data, F, t, gain) <= best.value.infoGain
    requires BestAmong(data, nf, gain, F, done, best)
    ensures Consider(data, F, t, gain, best) == best
    ensures BestAmong(data, nf, gain, F, done + [t], best)
  {
    var done' := done + [t];
    var s := best.value;
    assert !LexBefore(F, t, s.featureIndex, s.threshold);
    forall f: nat, u | Visited(data, nf, F, done', f, u) && !Visited(data, nf, F, done, f, u)
      ensures f == F && u == t
    {
    }
  }

  lemma {:induction false} ConsiderRecords<L>(data: seq<Row<L>>, nf: nat, gain: GainFunction<L>, F: nat,
                                             done: seq<int>, t: int, best: Option<SplitChoice<L>>)
    requires HasFeatures(data, nf) && F < nf
    requires t in Column(data, F)
    requires forall u :: u in done ==> u < t
    requires Accepted(data, F, t) && (best.None? || SplitGain(data, F, t, gain) > best.value.infoGain)
    requires BestAmong(data, nf, gain, F, done, best)
    ensures Consider(data, F, t, gain, best) == Some(Candidate(data, F, t, gain))
    ensures BestAmong(data, nf, gain, F, done + [t], Some(Candidate(data, F, t, gain)))
  {
    var done' := done + [t];
    forall f: nat, u | Visited(data, nf, F, done', f, u) && !Visited(data, nf, F, done, f, u)
      ensures f == F && u == t
    {
    }
    forall f: nat, u | Visited(data, nf, F, done, f, u) && Accepted(data, f, u)
      ensures LexBefore(f, u, F, t) && SplitGain(data, f, u, gain) < SplitGain(data, F, t, gain)
    {
    }
  }

  lemma {:induction false} ScanThresholdsSpec<L>(data: seq<Row<L>>, nf: nat, gain: GainFunction<L>,
                                                     F: nat, done: seq<int>, rest: seq<int>,
                                                     best: Option<SplitChoice<L>>)
    requires HasFeatures(data, nf) && F < nf
    requires Ascending(done + rest)
    requires forall u :: u in rest ==> u in Column(data, F)
    requires BestAmong(data, nf, gain, F, done, best)
    ensures BestAmong(data, nf, gain, F, done + rest, ScanThresholds(data, F, rest, gain, best))
    decreases |rest|
  {
    if rest == [] {
      assert done + rest == done;
    } else {
      var t := rest[0];
      AscendingSplit(done, rest);
      ConsiderStep(data, nf, gain, F, done, t, best);
      ScanThresholdsSpec(data, nf, gain, F, done + [t], rest[1..], Consider(data, F, t, gain, best));
      assert ScanThresholds(data, F, rest, gain, best)
             == ScanThresholds(data, F, rest[1..], gain, Consider(data, F, t, gain, best));
    }
  }

  /** The next threshold of an ascending scan exceeds those already visited. */
  lemma AscendingSplit(done: seq<int>, rest: seq<int>)
    requires Ascending(done + rest) && rest != []
    ensures forall u :: u in done ==> u < rest[0]
    ensures (done + [rest[0]]) + rest[1..] == done + rest
  {
    var all := done + rest;
    forall u | u in done ensures u < rest[0] {
      var k :| 0 <= k < |done| && done[k] == u;
      assert all[k] == u && all[|done|] == rest[0];
    }
    assert (done + [rest[0]]) + rest[1..] == all;
  }

  /** Having visited every threshold of feature F is having visited the features before F + 1. */
  lemma NextFeature<L>(data: seq<Row<L>>, nf: nat, gain: GainFunction<L>, F: nat,
                       best: Option<SplitChoice<L>>)
    requires HasFeatures(data, nf) && F < nf
    requires BestAmong(data, nf, gain, F, Thresholds(data, F), best)
    ensures BestAmong(data, nf, gain, F + 1, [], best)
  {
    var thresholds := Thresholds(data, F);
    forall f: nat, u
      ensures Visited(data, nf, F, thresholds, f, u) <==> Visited(data, nf, F + 1, [], f, u)
    {
    }
  }

  /** One outer-loop iteration keeps the invariant. */
  lemma FeatureStep<L>(data: seq<Row<L>>, nf: nat, gain: GainFunction<L>,
                       F: nat, best: Option<SplitChoice<L>>)
    requires HasFeatures(data, nf) && F < nf
    requires BestAmong(data, nf, gain, F, [], best)
    ensures BestAmong(data, nf, gain, F + 1, [], ScanThresholds(data, F, Thresholds(data, F), gain, best))
  {
    var thresholds := Thresholds(data, F);
    assert [] + thresholds == thresholds;
    assert Ascending(thresholds);
    assert forall u :: u in thresholds ==> u in Column(data, F);
    ScanThresholdsSpec(data, nf, gain, F, [], thresholds, best);
    NextFeature(data, nf, gain, F, ScanThresholds(data, F, thresholds, gain, best));
  }

  lemma {:induction false} ScanFeaturesSpec<L>(data: seq<Row<L>>, nf: nat, gain: GainFunction<L>,
                                                   F: nat, best: Option<SplitChoice<L>>)
    requires HasFeatures(data, nf) && F <= nf
    requires BestAmong(data, nf, gain, F, [], best)
    ensures BestAmong(data, nf, gain, nf, [], ScanFeatures(data, nf, F, gain, best))
    decreases nf - F
  {
    if F < nf {
      var next := ScanThresholds(data, F, Thresholds(data, F), gain, best);
      assert ScanFeatures(data, nf, F, gain, best) == ScanFeatures(data, nf, F + 1, gain, next);
      FeatureStep(data, nf, gain, F, best);
      ScanFeaturesSpec(data, nf, gain, F + 1, next);
    }
  }
}
