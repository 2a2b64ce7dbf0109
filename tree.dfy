/**
 * `DecisionTreeNode` (AI-phase2/ai.py:6-16). The source uses one class for both kinds
 * of node and tells them apart at run time: a leaf has a non-`None` value (ai.py:93)
 * and no children (ai.py:15-16). Here the kind is the constructor.
 */
module Tree {

  datatype Node<L> =
    | Leaf(value: L)
    | Internal(featureIndex: nat, threshold: int, infoGain: real, left: Node<L>, right: Node<L>)

  /** Number of edges on the longest path from the node down to a leaf. */
  function Height<L>(t: Node<L>): nat
  {
    match t
    case Leaf(_) => 0
    case Internal(_, _, _, l, r) => 1 + (if Height(l) < Height(r) then Height(r) else Height(l))
  }

  /** The labels held by the leaves of `t`. */
  function LeafValues<L>(t: Node<L>): set<L>
  {
    match t
    case Leaf(v) => {v}
    case Internal(_, _, _, l, r) => LeafValues(l) + LeafValues(r)
  }

  /** Every decision node of `t` tests a feature below `n`. */
  predicate FeaturesBelow<L>(t: Node<L>, n: nat)
  {
    match t
    case Leaf(_) => true
    case Internal(f, _, _, l, r) => f < n && FeaturesBelow(l, n) && FeaturesBelow(r, n)
  }

  /** Every decision node, with `t` at depth `depth`, sits at depth at most `maxDepth`. */
  ghost predicate SplitsWithin<L>(t: Node<L>, depth: nat, maxDepth: int)
  {
    match t
    case Leaf(_) => true
    case Internal(_, _, _, l, r) =>
      depth <= maxDepth && SplitsWithin(l, depth + 1, maxDepth) && SplitsWithin(r, depth + 1, maxDepth)
  }

  /**
   * A decision node at `depth` whose decision nodes respect the depth bound is at most
   * `maxDepth + 1 - depth` levels high: the last decision level is `maxDepth`, its
   * children are leaves. A leaf has height 0; the bound is not claimed for a leaf
   * deeper than `maxDepth + 1`.
   */
  lemma {:induction false} SplitsWithinHeight<L>(t: Node<L>, depth: nat, maxDepth: int)
    requires SplitsWithin(t, depth, maxDepth)
    ensures t.Internal? ==> depth + Height(t) <= maxDepth + 1
  {
    if t.Internal? {
      SplitsWithinHeight(t.left, depth + 1, maxDepth);
      SplitsWithinHeight(t.right, depth + 1, maxDepth);
    }
  }
}
