/**
 * Samples and datasets (AI-phase2/ai.py:26, 82-84). The source keeps a dataset as one
 * numpy matrix whose last column holds the label; here a row is its feature vector
 * paired with its label, and a dataset is a sequence of rows in input order.
 */
module Dataset {

  datatype Row<L> = Row(features: seq<int>, target: L)

  /**
   * A score for a split, from the labels of the partition and of its left and right
   * sides (`information_gain(y, left_y, right_y)`, ai.py:47-48).
   */
  type GainFunction<!L> = (seq<L>, seq<L>, seq<L>) -> real

  /** Every row has exactly `nf` features: the dataset is an n-by-nf matrix. */
  ghost predicate HasFeatures<L>(data: seq<Row<L>>, nf: nat)
  {
    forall row :: row in data ==> |row.features| == nf
  }

  /** Feature `f` exists in every row, so `row.features[f]` is defined. */
  ghost predicate HasColumn<L>(data: seq<Row<L>>, f: nat)
  {
    forall row :: row in data ==> f < |row.features|
  }

  /** The label column, `dataset[:, -1]`. */
  function Labels<L>(data: seq<Row<L>>): (ys: seq<L>)
    ensures |ys| == |data|
    ensures forall i :: 0 <= i < |data| ==> ys[i] == data[i].target
  {
    seq(|data|, i requires 0 <= i < |data| => data[i].target)
  }

  /** The feature column `dataset[:, f]`. */
  function Column<L>(data: seq<Row<L>>, f: nat): (col: seq<int>)
    requires HasColumn(data, f)
    ensures |col| == |data|
    ensures forall i :: 0 <= i < |data| ==> col[i] == data[i].features[f]
  {
    seq(|data|, i requires 0 <= i < |data| => data[i].features[f])
  }

  /** Number of occurrences of `c` in `ys` (`Y.count(c)`, `len(y[y == c])`). */
  function Count<L(==)>(ys: seq<L>, c: L): nat
  {
    multiset(ys)[c]
  }

  /** Strictly ascending: sorted and without repetitions. */
  ghost predicate Ascending(s: seq<int>)
  {
    forall i, j :: 0 <= i < j < |s| ==> s[i] < s[j]
  }

  /** Puts `x` into an ascending sequence, dropping it if it is already there. */
  function Insert(x: int, s: seq<int>): (r: seq<int>)
    requires Ascending(s)
    ensures Ascending(r)
    ensures forall y :: y in r <==> y == x || y in s
  {
    if s == [] then [x]
    else if x < s[0] then [x] + s
    else if x == s[0] then s
    else
      var tail := Insert(x, s[1..]);
      assert forall y :: y in tail ==> s[0] < y by {
        forall y | y in tail ensures s[0] < y {
          if y in s[1..] {
            var k :| 1 <= k < |s| && s[k] == y;
          }
        }
      }
      ConsAscending(s[0], tail);
      assert s == [s[0]] + s[1..];
      [s[0]] + tail
  }

  lemma ConsAscending(h: int, tail: seq<int>)
    requires Ascending(tail)
    requires forall y :: y in tail ==> h < y
    ensures Ascending([h] + tail)
  {
    var r := [h] + tail;
    forall i, j | 0 <= i < j < |r| ensures r[i] < r[j] {
      assert r[j] == tail[j - 1] && tail[j - 1] in tail;
      if i > 0 {
        assert r[i] == tail[i - 1];
      }
    }
  }

  /**
   * `np.unique` on a column (ai.py:43): the distinct values of `s` in ascending order.
   */
  function Unique(s: seq<int>): (r: seq<int>)
    ensures Ascending(r)
    ensures forall y :: y in r <==> y in s
  {
    if s == [] then [] else Insert(s[0], Unique(s[1..]))
  }
}
