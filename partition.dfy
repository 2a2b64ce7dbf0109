/**
 * `split` (AI-phase2/ai.py:58-61): two list comprehensions that keep, in input
 * order, the rows whose feature `f` is `<= threshold` and those whose feature is
 * `> threshold`.
 */
module Partition {
  import opened Dataset

  /** The first comprehension, ai.py:59. */
  function LeftRows<L>(data: seq<Row<L>>, f: nat, threshold: int): (left: seq<Row<L>>)
    requires HasColumn(data, f)
    ensures |left| <= |data|
    ensures forall i :: 0 <= i < |left| ==> f < |left[i].features| && left[i].features[f] <= threshold
    decreases |data|
  {
    if data == [] then []
    else
      var rest := LeftRows(data[1..], f, threshold);
      if data[0].features[f] <= threshold then [data[0]] + rest else rest
  }

  /** The second comprehension, ai.py:60. */
  function RightRows<L>(data: seq<Row<L>>, f: nat, threshold: int): (right: seq<Row<L>>)
    requires HasColumn(data, f)
    ensures |right| <= |data|
    ensures forall i :: 0 <= i < |right| ==> f < |right[i].features| && right[i].features[f] > threshold
    decreases |data|
  {
    if data == [] then []
    else
      var rest := RightRows(data[1..], f, threshold);
      if data[0].features[f] > threshold then [data[0]] + rest else rest
  }

  /**
   * `split(dataset, f, threshold)`: every row lands on exactly one side, so the two
   * sides together are a rearrangement of the dataset. Which side a given row lands
   * on is `SplitSides`.
   */
  function Split<L>(data: seq<Row<L>>, f: nat, threshold: int): (sides: (seq<Row<L>>, seq<Row<L>>))
    requires HasColumn(data, f)
    ensures |sides.0| + |sides.1| == |data|
    ensures multiset(sides.0) + multiset(sides.1) == multiset(data)
    ensures forall i :: 0 <= i < |sides.0| ==> f < |sides.0[i].features| && sides.0[i].features[f] <= threshold
    ensures forall i :: 0 <= i < |sides.1| ==> f < |sides.1[i].features| && sides.1[i].features[f] > threshold
  {
    SplitCovers(data, f, threshold);
    var left, right := LeftRows(data, f, threshold), RightRows(data, f, threshold);
    assert |multiset(left)| + |multiset(right)| == |multiset(data)|;
    (left, right)
  }

  lemma {:induction false} SplitCovers<L>(data: seq<Row<L>>, f: nat, threshold: int)
    requires HasColumn(data, f)
    ensures multiset(LeftRows(data, f, threshold)) + multiset(RightRows(data, f, threshold))
            == multiset(data)
  {
    if data != [] {
      var rest := data[1..];
      assert HasColumn(rest, f) by {
        forall row | row in rest ensures f < |row.features| {
          assert row in data;
        }
      }
      SplitCovers(rest, f, threshold);
      assert data == [data[0]] + rest;
      assert multiset(data) == multiset([data[0]]) + multiset(rest);
      if data[0].features[f] <= threshold {
        assert LeftRows(data, f, threshold) == [data[0]] + LeftRows(rest, f, threshold);
        assert RightRows(data, f, threshold) == RightRows(rest, f, threshold);
        assert multiset(LeftRows(data, f, threshold))
               == multiset([data[0]]) + multiset(LeftRows(rest, f, threshold));
      } else {
        assert LeftRows(data, f, threshold) == LeftRows(rest, f, threshold);
        assert RightRows(data, f, threshold) == [data[0]] + RightRows(rest, f, threshold);
        assert multiset(RightRows(data, f, threshold))
               == multiset([data[0]]) + multiset(RightRows(rest, f, threshold));
      }
    }
  }

  /**
   * Each side holds rows of the dataset only, and a row of the dataset is on the left
   * exactly when its feature is at most the threshold, on the right otherwise.
   */
  lemma SplitSides<L>(data: seq<Row<L>>, f: nat, threshold: int)
    requires HasColumn(data, f)
    ensures forall i :: 0 <= i < |Split(data, f, threshold).0| ==> Split(data, f, threshold).0[i] in data
    ensures forall i :: 0 <= i < |Split(data, f, threshold).1| ==> Split(data, f, threshold).1[i] in data
    ensures forall i :: 0 <= i < |data| ==>
              (data[i] in Split(data, f, threshold).0 <==> data[i].features[f] <= threshold)
    ensures forall i :: 0 <= i < |data| ==>
              (data[i] in Split(data, f, threshold).1 <==> data[i].features[f] > threshold)
  {
    var sides := Split(data, f, threshold);
    forall i | 0 <= i < |sides.0| ensures sides.0[i] in data {
      assert sides.0[i] in multiset(sides.0);
      assert sides.0[i] in multiset(data);
    }
    forall i | 0 <= i < |sides.1| ensures sides.1[i] in data {
      assert sides.1[i] in multiset(sides.1);
      assert sides.1[i] in multiset(data);
    }
    forall i | 0 <= i < |data|
      ensures data[i] in sides.0 <==> data[i].features[f] <= threshold
      ensures data[i] in sides.1 <==> data[i].features[f] > threshold
    {
      var row := data[i];
      assert row in multiset(data);
      if row in sides.0 {
        var k :| 0 <= k < |sides.0| && sides.0[k] == row;
      }
      if row in sides.1 {
        var k :| 0 <= k < |sides.1| && sides.1[k] == row;
      }
    }
  }

  /** The sides of a split keep the dataset's shape. */
  lemma SplitKeepsFeatures<L>(data: seq<Row<L>>, nf: nat, f: nat, threshold: int)
    requires HasFeatures(data, nf) && f < nf
    ensures HasFeatures(Split(data, f, threshold).0, nf)
    ensures HasFeatures(Split(data, f, threshold).1, nf)
  {
    var sides := Split(data, f, threshold);
    forall row | row in sides.0 ensures |row.features| == nf {
      assert row in multiset(sides.0);
      assert row in multiset(data);
    }
    forall row | row in sides.1 ensures |row.features| == nf {
      assert row in multiset(sides.1);
      assert row in multiset(data);
    }
  }

  /**
   * The filters are stable: splitting a concatenation splits each part and keeps the
   * parts in order, so each side lists its rows in their original relative order.
   */
  lemma {:induction false} SplitIsStable<L>(a: seq<Row<L>>, b: seq<Row<L>>, f: nat, threshold: int)
    requires HasColumn(a, f) && HasColumn(b, f)
    ensures HasColumn(a + b, f)
    ensures LeftRows(a + b, f, threshold) == LeftRows(a, f, threshold) + LeftRows(b, f, threshold)
    ensures RightRows(a + b, f, threshold) == RightRows(a, f, threshold) + RightRows(b, f, threshold)
  {
    assert HasColumn(a + b, f) by {
      forall row | row in a + b ensures f < |row.features| {
        assert row in a || row in b;
      }
    }
    if a == [] {
      assert a + b == b;
    } else {
      assert HasColumn(a[1..], f) by {
        forall row | row in a[1..] ensures f < |row.features| {
          assert row in a;
        }
      }
      var c := a + b;
      assert c[1..] == a[1..] + b && c[0] == a[0];
      SplitIsStable(a[1..], b, f, threshold);
      if a[0].features[f] <= threshold {
        assert LeftRows(c, f, threshold) == [a[0]] + LeftRows(c[1..], f, threshold);
        assert LeftRows(a, f, threshold) == [a[0]] + LeftRows(a[1..], f, threshold);
        assert RightRows(c, f, threshold) == RightRows(c[1..], f, threshold);
        assert RightRows(a, f, threshold) == RightRows(a[1..], f, threshold);
      } else {
        assert LeftRows(c, f, threshold) == LeftRows(c[1..], f, threshold);
        assert LeftRows(a, f, threshold) == LeftRows(a[1..], f, threshold);
        assert RightRows(c, f, threshold) == [a[0]] + RightRows(c[1..], f, threshold);
        assert RightRows(a, f, threshold) == [a[0]] + RightRows(a[1..], f, threshold);
      }
    }
  }

  /** Two features with the same column split the rows the same way at every threshold. */
  lemma {:induction false} SameColumnSameSplit<L>(data: seq<Row<L>>, f: nat, g: nat, threshold: int)
    requires HasColumn(data, f) && HasColumn(data, g)
    requires forall i :: 0 <= i < |data| ==> data[i].features[f] == data[i].features[g]
    ensures Split(data, f, threshold) == Split(data, g, threshold)
  {
    if data != [] {
      assert HasColumn(data[1..], f) && HasColumn(data[1..], g) by {
        forall row | row in data[1..] ensures f < |row.features| && g < |row.features| {
          assert row in data;
        }
      }
      SameColumnSameSplit(data[1..], f, g, threshold);
    }
  }

  /** Rows that all lie at or below the threshold all go left. */
  lemma {:induction false} AllLeft<L>(data: seq<Row<L>>, f: nat, threshold: int)
    requires HasColumn(data, f)
    requires forall i :: 0 <= i < |data| ==> data[i].features[f] <= threshold
    ensures LeftRows(data, f, threshold) == data && RightRows(data, f, threshold) == []
  {
    if data != [] {
      assert HasColumn(data[1..], f) by {
        forall row | row in data[1..] ensures f < |row.features| {
          assert row in data;
        }
      }
      AllLeft(data[1..], f, threshold);
    }
  }

  /** Rows that all lie above the threshold all go right. */
  lemma {:induction false} AllRight<L>(data: seq<Row<L>>, f: nat, threshold: int)
    requires HasColumn(data, f)
    requires forall i :: 0 <= i < |data| ==> data[i].features[f] > threshold
    ensures LeftRows(data, f, threshold) == [] && RightRows(data, f, threshold) == data
  {
    if data != [] {
      assert HasColumn(data[1..], f) by {
        forall row | row in data[1..] ensures f < |row.features| {
          assert row in data;
        }
      }
      AllRight(data[1..], f, threshold);
    }
  }
}
