/**
 * `calculate_leaf_value` (AI-phase2/ai.py:77-79): `max(Y, key=Y.count)`. Python's
 * `max` scans the list and replaces its candidate only on a strictly larger key, so it
 * returns the first element, in list order, whose count is maximal; on an empty list it
 * raises `ValueError`, modelled as `None`.
 */
module Vote {
  import opened Wrappers
  import opened Dataset

  /**
   * The scan of `max` from position `i` on, with `best` the position of the current
   * candidate.
   */
  function MaxByCount<L(==)>(ys: seq<L>, i: nat, best: nat): (k: nat)
    requires best < i <= |ys|
    requires forall j :: 0 <= j < i ==> Count(ys, ys[j]) <= Count(ys, ys[best])
    requires forall j :: 0 <= j < best ==> Count(ys, ys[j]) < Count(ys, ys[best])
    ensures k < |ys|
    ensures forall j :: 0 <= j < |ys| ==> Count(ys, ys[j]) <= Count(ys, ys[k])
    ensures forall j :: 0 <= j < k ==> Count(ys, ys[j]) < Count(ys, ys[k])
    decreases |ys| - i
  {
    if i == |ys| then best
    else if Count(ys, ys[i]) > Count(ys, ys[best]) then MaxByCount(ys, i + 1, i)
    else MaxByCount(ys, i + 1, best)
  }

  /** The position of the first occurrence of `v`. */
  function IndexOf<L(==)>(ys: seq<L>, v: L): (k: nat)
    requires v in ys
    ensures k < |ys| && ys[k] == v
    ensures forall i :: 0 <= i < k ==> ys[i] != v
  {
    if ys[0] == v then 0 else IndexOf(ys[1..], v) + 1
  }

  /**
   * `v` is what `max(ys, key=ys.count)` promises: a member of `ys` with the largest
   * count, such that every label met before the first `v` is strictly less frequent
   * (so no earlier label ties with it).
   */
  ghost predicate IsFirstMostFrequent<L>(ys: seq<L>, v: L)
  {
    && v in ys
    && (forall j :: 0 <= j < |ys| ==> Count(ys, ys[j]) <= Count(ys, v))
    && (forall j :: 0 <= j < IndexOf(ys, v) ==> Count(ys, ys[j]) < Count(ys, v))
  }

  function LeafValue<L(==)>(ys: seq<L>): (v: Option<L>)
    ensures v.None? <==> ys == []
    ensures v.Some? ==> IsFirstMostFrequent(ys, v.value)
  {
    if ys == [] then None
    else
      var k := MaxByCount(ys, 1, 0);
      assert IndexOf(ys, ys[k]) <= k;
      Some(ys[k])
  }

  /**
   * The majority rule with first-occurrence tie-break picks exactly one label: the
   * leaf value is determined by the list alone.
   */
  lemma {:induction false} FirstMostFrequentIsUnique<L>(ys: seq<L>, v: L, w: L)
    requires IsFirstMostFrequent(ys, v) && IsFirstMostFrequent(ys, w)
    ensures v == w
  {
    var i, j := IndexOf(ys, v), IndexOf(ys, w);
    assert Count(ys, ys[j]) <= Count(ys, v);
    assert Count(ys, ys[i]) <= Count(ys, w);
  }
}
