/**
 * Shannon entropy and information gain (AI-phase2/ai.py:63-75).
 *
 * The floating-point term `p * log2(p)` is not modelled numerically: it is the
 * parameter `plogp`, applied to the same probability `count / len(y)` the source
 * computes. Everything around it (which classes are summed, their probabilities,
 * the accumulation and the weighting of the two children) is modelled exactly, except
 * that the classes are visited in order of first occurrence where `np.unique` sorts
 * them; `ClassOrderIrrelevant` shows the sum does not depend on that order.
 */
module Impurity {
  import opened Dataset

  ghost predicate NoDuplicates<L>(s: seq<L>)
  {
    forall i, j :: 0 <= i < j < |s| ==> s[i] != s[j]
  }

  /**
   * The class labels that occur in `ys`, each once (`np.unique(y)`, ai.py:70), listed
   * in order of first occurrence.
   */
  function Classes<L(==)>(ys: seq<L>): (cs: seq<L>)
    ensures NoDuplicates(cs)
    ensures forall i :: 0 <= i < |cs| ==> cs[i] in ys
    ensures forall i :: 0 <= i < |ys| ==> ys[i] in cs
    ensures |cs| <= |ys|
  {
    if ys == [] then []
    else
      var cs := Classes(ys[..|ys| - 1]);
      var y := ys[|ys| - 1];
      assert ys == ys[..|ys| - 1] + [y];
      if y in cs then cs else cs + [y]
  }

  /** `p_cls` at ai.py:73: the share of `ys` taken by `c`. */
  function Probability<L(==)>(ys: seq<L>, c: L): real
    requires c in ys
  {
    (Count(ys, c) as real) / (|ys| as real)
  }

  /**
   * The value of the accumulator of ai.py:71-74 after visiting the classes `cs`:
   * each visited class subtracts `plogp(p_cls)`.
   */
  function Accumulated<L(==)>(cs: seq<L>, ys: seq<L>, plogp: real -> real): real
    requires forall c :: c in cs ==> c in ys
  {
    if cs == [] then 0.0
    else Accumulated(cs[..|cs| - 1], ys, plogp) - plogp(Probability(ys, cs[|cs| - 1]))
  }

  /**
   * `entropy(y)` (ai.py:69-75): minus the sum of `plogp(p)` over the classes of `ys`.
   * An empty list sums nothing; a list of one class sums the single term `plogp(1)`,
   * which is zero since `1 * log2(1) == 0`.
   */
  function Entropy<L(==)>(ys: seq<L>, plogp: real -> real): (e: real)
    ensures ys == [] ==> e == 0.0
    ensures ys != [] && (forall i :: 0 <= i < |ys| ==> ys[i] == ys[0]) && plogp(1.0) == 0.0 ==> e == 0.0
  {
    PureAccumulated(ys, plogp);
    Accumulated(Classes(ys), ys, plogp)
  }

  /** A list of one class sums the single term `plogp(1)`. */
  lemma PureAccumulated<L>(ys: seq<L>, plogp: real -> real)
    ensures ys != [] && (forall i :: 0 <= i < |ys| ==> ys[i] == ys[0]) ==>
              Accumulated(Classes(ys), ys, plogp) == -plogp(1.0)
  {
    if ys != [] && forall i :: 0 <= i < |ys| ==> ys[i] == ys[0] {
      var v := ys[0];
      PureClasses(ys, v);
      PureProbability(ys, v);
      assert [v][..0] == [];
      assert Accumulated([v], ys, plogp) == Accumulated([], ys, plogp) - plogp(Probability(ys, v));
    }
  }

  /**
   * The loop of ai.py:71-75 itself: one subtraction per class, in class order.
   */
  method ComputeEntropy<L(==)>(ys: seq<L>, plogp: real -> real) returns (e: real)
    ensures e == Entropy(ys, plogp)
  {
    var classes := Classes(ys);
    e := 0.0;
    for i := 0 to |classes|
      invariant e == Accumulated(classes[..i], ys, plogp)
    {
      var p := (Count(ys, classes[i]) as real) / (|ys| as real);
      e := e - plogp(p);
      assert classes[..i + 1][..i] == classes[..i];
    }
    assert classes[..|classes|] == classes;
  }

  /**
   * The arithmetic of ai.py:64-66 on the parent's entropy `e`, the children's entropies
   * and the three sizes: `e` minus the children's entropies weighted by their shares
   * `len(child) / len(parent)`.
   */
  function Gain(e: real, eLeft: real, eRight: real, n: nat, nLeft: nat, nRight: nat): (g: real)
    requires n > 0
    ensures eLeft == 0.0 && eRight == 0.0 ==> g == e
    ensures nLeft + nRight == n && eLeft == e && eRight == e ==> g == 0.0
  {
    var weightLeft := (nLeft as real) / (n as real);
    var weightRight := (nRight as real) / (n as real);
    WeightsSumToOne(n, nLeft, nRight);
    WeightedRemainder(e, eLeft, eRight, weightLeft, weightRight);
    e - (weightLeft * eLeft + weightRight * eRight)
  }

  /**
   * `information_gain` (ai.py:63-67): the parent's entropy minus the size-weighted
   * entropies of the two children. The source divides by `len(parent)`, so the
   * parent must not be empty; its only caller passes a parent of at least two rows.
   */
  function InformationGain<L(==)>(parent: seq<L>, left: seq<L>, right: seq<L>,
                                  plogp: real -> real): (g: real)
    requires |parent| > 0
    ensures Entropy(left, plogp) == 0.0 && Entropy(right, plogp) == 0.0 ==> g == Entropy(parent, plogp)
    ensures |left| + |right| == |parent| &&
            Entropy(left, plogp) == Entropy(parent, plogp) && Entropy(right, plogp) == Entropy(parent, plogp)
            ==> g == 0.0
  {
    Gain(Entropy(parent, plogp), Entropy(left, plogp), Entropy(right, plogp), |parent|, |left|, |right|)
  }

  /**
   * `information_gain` as the function of (parent, left, right) labels that the split
   * search evaluates. The source divides by `len(parent)`; the search evaluates it only
   * for accepted splits, whose parent has at least two rows, so the value given for an
   * empty parent is never used.
   */
  function EntropyGain<L(==)>(plogp: real -> real): GainFunction<L>
  {
    (parent: seq<L>, left: seq<L>, right: seq<L>) =>
      if |parent| == 0 then 0.0 else InformationGain(parent, left, right, plogp)
  }

  /**
   * The entropy does not depend on the order the classes are visited in: summing over
   * any listing of the classes without repetitions (the sorted one of `np.unique`,
   * say) gives `Entropy`.
   */
  lemma ClassOrderIrrelevant<L>(ys: seq<L>, cs: seq<L>, plogp: real -> real)
    requires NoDuplicates(cs)
    requires forall c :: c in cs <==> c in ys
    ensures Accumulated(cs, ys, plogp) == Entropy(ys, plogp)
  {
    AccumulatedReorder(cs, Classes(ys), ys, plogp);
  }

  /**
   * The entropy depends only on the multiset of the labels, not on their order in the
   * list.
   */
  lemma EntropyOfMultiset<L>(ys: seq<L>, zs: seq<L>, plogp: real -> real)
    requires multiset(ys) == multiset(zs)
    ensures Entropy(ys, plogp) == Entropy(zs, plogp)
  {
    SameLength(ys, zs);
    forall c ensures c in ys <==> c in zs {
      assert c in ys <==> c in multiset(ys);
      assert c in zs <==> c in multiset(zs);
    }
    AccumulatedSameCounts(Classes(zs), ys, zs, plogp);
    AccumulatedReorder(Classes(ys), Classes(zs), ys, plogp);
  }

  /**
   * The information gain depends only on the multisets of the parent's and the
   * children's labels: reordering rows never changes the ranking of a split.
   */
  lemma GainOfMultisets<L>(parent: seq<L>, left: seq<L>, right: seq<L>,
                               parent': seq<L>, left': seq<L>, right': seq<L>, plogp: real -> real)
    requires |parent| > 0
    requires multiset(parent) == multiset(parent')
    requires multiset(left) == multiset(left') && multiset(right) == multiset(right')
    ensures |parent'| > 0
    ensures InformationGain(parent, left, right, plogp) == InformationGain(parent', left', right', plogp)
  {
    SameLength(parent, parent');
    SameLength(left, left');
    SameLength(right, right');
    EntropyOfMultiset(parent, parent', plogp);
    EntropyOfMultiset(left, left', plogp);
    EntropyOfMultiset(right, right', plogp);
    assert parent' != [];
    SameGain(parent, left, right, parent', left', right', plogp);
  }

  /** The gain formula of ai.py:64-66 sees the lists only through their sizes and entropies. */
  lemma SameGain<L>(parent: seq<L>, left: seq<L>, right: seq<L>,
                        parent': seq<L>, left': seq<L>, right': seq<L>, plogp: real -> real)
    requires |parent| > 0 && |parent| == |parent'| && |left| == |left'| && |right| == |right'|
    requires Entropy(parent, plogp) == Entropy(parent', plogp)
    requires Entropy(left, plogp) == Entropy(left', plogp) && Entropy(right, plogp) == Entropy(right', plogp)
    ensures InformationGain(parent, left, right, plogp) == InformationGain(parent', left', right', plogp)
  {
  }

  lemma SameLength<L>(ys: seq<L>, zs: seq<L>)
    requires multiset(ys) == multiset(zs)
    ensures |ys| == |zs|
  {
    assert |ys| == |multiset(ys)|;
    assert |zs| == |multiset(zs)|;
  }

  /** Two label lists with the same multiset give every class the same probability. */
  lemma {:induction false} AccumulatedSameCounts<L>(cs: seq<L>, ys: seq<L>, zs: seq<L>, plogp: real -> real)
    requires multiset(ys) == multiset(zs) && |ys| == |zs|
    requires forall c :: c in cs ==> c in ys && c in zs
    ensures Accumulated(cs, ys, plogp) == Accumulated(cs, zs, plogp)
  {
    if cs != [] {
      AccumulatedSameCounts(cs[..|cs| - 1], ys, zs, plogp);
    }
  }

  /** Taking one class out of the middle of the sum takes out its term. */
  lemma {:induction false} AccumulatedRemove<L>(a: seq<L>, c: L, b: seq<L>, ys: seq<L>, plogp: real -> real)
    requires forall x :: x in a + [c] + b ==> x in ys
    ensures forall x :: x in a + b ==> x in ys
    ensures Accumulated(a + [c] + b, ys, plogp) == Accumulated(a + b, ys, plogp) - plogp(Probability(ys, c))
    decreases |b|
  {
    assert forall x :: x in a + b ==> x in a + [c] + b;
    if b == [] {
      assert a + [c] + b == a + [c];
      assert (a + [c])[..|a|] == a;
      assert a + b == a;
    } else {
      var b', d := b[..|b| - 1], b[|b| - 1];
      assert b == b' + [d];
      assert forall x :: x in a + [c] + b' ==> x in a + [c] + b;
      AccumulatedRemove(a, c, b', ys, plogp);
      assert (a + [c] + b)[..|a + [c] + b| - 1] == a + [c] + b';
      assert (a + b)[..|a + b| - 1] == a + b';
    }
  }

  /** Two lists with the same members are both empty or both non-empty. */
  lemma SameMembersEmpty<L>(cs: seq<L>, ds: seq<L>)
    requires forall x :: x in cs <==> x in ds
    ensures cs == [] <==> ds == []
  {
    assert cs != [] ==> cs[0] in cs;
    assert ds != [] ==> ds[0] in ds;
  }

  /** Two repetition-free listings of the same classes sum to the same value. */
  lemma {:induction false} AccumulatedReorder<L>(cs: seq<L>, ds: seq<L>, ys: seq<L>, plogp: real -> real)
    requires NoDuplicates(cs) && NoDuplicates(ds)
    requires forall x :: x in cs <==> x in ds
    requires forall x :: x in cs ==> x in ys
    ensures Accumulated(cs, ys, plogp) == Accumulated(ds, ys, plogp)
    decreases |cs|
  {
    if cs == [] {
      SameMembersEmpty(cs, ds);
    } else {
      var cs', c := cs[..|cs| - 1], cs[|cs| - 1];
      assert cs == cs' + [c];
      assert c in ds;
      var k :| 0 <= k < |ds| && ds[k] == c;
      var a, b := ds[..k], ds[k + 1..];
      assert ds == a + [c] + b;
      var ds' := a + b;
      forall x ensures x in cs' <==> x in ds' {
        assert x in cs <==> x in ds;
        if x in cs' { assert x != c; }
        if x in ds' { assert x != c; }
      }
      assert NoDuplicates(ds') by {
        forall i, j | 0 <= i < j < |ds'| ensures ds'[i] != ds'[j] {
          var i' := if i < k then i else i + 1;
          var j' := if j < k then j else j + 1;
          assert ds'[i] == ds[i'] && ds'[j] == ds[j'];
        }
      }
      AccumulatedReorder(cs', ds', ys, plogp);
      AccumulatedRemove(a, c, b, ys, plogp);
    }
  }

  /** When the children share out the parent, their weights add up to one. */
  lemma WeightsSumToOne(n: nat, l: nat, r: nat)
    requires n > 0
    ensures l + r == n ==> (l as real) / (n as real) + (r as real) / (n as real) == 1.0
  {
    if l + r == n {
      assert (l as real) / (n as real) + (r as real) / (n as real) == ((l + r) as real) / (n as real);
    }
  }

  /** The parent's entropy less the weighted entropies of the children, in the two cases above. */
  lemma WeightedRemainder(p: real, l: real, r: real, wl: real, wr: real)
    ensures l == 0.0 && r == 0.0 ==> p - (wl * l + wr * r) == p
    ensures wl + wr == 1.0 && l == p && r == p ==> p - (wl * l + wr * r) == 0.0
  {
    assert wl * p + wr * p == (wl + wr) * p;
  }

  /** Sum of the counts of the classes `cs` in `ys`. */
  function CountSum<L(==)>(cs: seq<L>, ys: seq<L>): nat
  {
    if cs == [] then 0 else CountSum(cs[..|cs| - 1], ys) + Count(ys, cs[|cs| - 1])
  }

  /**
   * Each probability the entropy loop forms has a numerator in `1..len(y)`, so it lies
   * in (0, 1]: no `log2(0)` is ever taken (ai.py:70-73).
   */
  lemma ProbabilityInRange<L>(ys: seq<L>, c: L)
    requires c in Classes(ys)
    ensures 1 <= Count(ys, c) <= |ys|
    ensures 0.0 < Probability(ys, c) <= 1.0
  {
    var cs := Classes(ys);
    var i :| 0 <= i < |cs| && cs[i] == c;
    assert c in multiset(ys);
    MultisetCountBound(ys, c);
    RatioInUnit(Count(ys, c), |ys|);
  }

  lemma RatioInUnit(k: nat, n: nat)
    requires 1 <= k <= n
    ensures 0.0 < (k as real) / (n as real) <= 1.0
  {
  }

  lemma {:induction false} MultisetCountBound<L>(ys: seq<L>, c: L)
    ensures Count(ys, c) <= |ys|
  {
    if ys != [] {
      MultisetCountBound(ys[1..], c);
      assert ys == [ys[0]] + ys[1..];
      assert multiset(ys) == multiset([ys[0]]) + multiset(ys[1..]);
    }
  }

  lemma {:induction false} CountSumSnoc<L>(cs: seq<L>, ys: seq<L>, y: L)
    ensures CountSum(cs, ys + [y]) == CountSum(cs, ys) + Count(cs, y)
  {
    if cs != [] {
      var init := cs[..|cs| - 1];
      CountSumSnoc(init, ys, y);
      assert cs == init + [cs[|cs| - 1]];
      assert multiset(cs) == multiset(init) + multiset([cs[|cs| - 1]]);
      assert multiset(ys + [y]) == multiset(ys) + multiset([y]);
    }
  }

  /**
   * The class counts add up to the number of labels: the probabilities the entropy
   * loop sums over are a distribution.
   */
  lemma {:induction false} ClassCountsSumToLength<L>(ys: seq<L>)
    ensures CountSum(Classes(ys), ys) == |ys|
  {
    if ys != [] {
      var init := ys[..|ys| - 1];
      var y := ys[|ys| - 1];
      var cs := Classes(init);
      assert ys == init + [y];
      ClassCountsSumToLength(init);
      CountSumSnoc(cs, init, y);
      NoDuplicatesCount(cs, y);
      if y in cs {
        assert Classes(ys) == cs;
      } else {
        assert Classes(ys) == cs + [y];
        assert (cs + [y])[..|cs|] == cs;
        assert multiset(init)[y] == 0;
        assert multiset(ys) == multiset(init) + multiset([y]);
      }
    }
  }

  /** In a list without repetitions a member occurs once. */
  lemma {:induction false} NoDuplicatesCount<L>(cs: seq<L>, c: L)
    requires NoDuplicates(cs)
    ensures Count(cs, c) == if c in cs then 1 else 0
  {
    if cs != [] {
      var init := cs[..|cs| - 1];
      assert cs == init + [cs[|cs| - 1]];
      assert multiset(cs) == multiset(init) + multiset([cs[|cs| - 1]]);
      NoDuplicatesCount(init, c);
      if c == cs[|cs| - 1] {
        assert c !in init;
      }
    }
  }

  /** A label list made of one class has that class alone. */
  lemma PureClasses<L>(ys: seq<L>, v: L)
    requires |ys| > 0
    requires forall i :: 0 <= i < |ys| ==> ys[i] == v
    ensures Classes(ys) == [v]
  {
    var cs := Classes(ys);
    assert ys[0] in cs;
  }

  lemma PureProbability<L>(ys: seq<L>, v: L)
    requires |ys| > 0
    requires forall i :: 0 <= i < |ys| ==> ys[i] == v
    ensures v in ys && Probability(ys, v) == 1.0
  {
    PureCount(ys, v);
    assert ys[0] == v;
    var n := |ys| as real;
    assert n > 0.0 && n / n == 1.0;
  }

  lemma {:induction false} PureCount<L>(ys: seq<L>, v: L)
    requires forall i :: 0 <= i < |ys| ==> ys[i] == v
    ensures Count(ys, v) == |ys|
  {
    if ys != [] {
      PureCount(ys[1..], v);
      assert ys == [v] + ys[1..];
      assert multiset(ys) == multiset([v]) + multiset(ys[1..]);
    }
  }

  /**
   * A split of a pure parent gains nothing: both children are pure as well, and every
   * entropy is zero.
   */
  lemma PureGainIsZero<L>(parent: seq<L>, left: seq<L>, right: seq<L>, v: L,
                              plogp: real -> real)
    requires |parent| > 0
    requires forall i :: 0 <= i < |parent| ==> parent[i] == v
    requires forall i :: 0 <= i < |left| ==> left[i] == v
    requires forall i :: 0 <= i < |right| ==> right[i] == v
    requires plogp(1.0) == 0.0
    ensures InformationGain(parent, left, right, plogp) == 0.0
  {
    assert Entropy(parent, plogp) == 0.0 by { assert parent[0] == v; }
    assert Entropy(left, plogp) == 0.0 by { if left != [] { assert left[0] == v; } }
    assert Entropy(right, plogp) == 0.0 by { if right != [] { assert right[0] == v; } }
  }
}
