/**
 Every balanced tree is reached by insertions alone: taking away a deepest leaf leaves a balanced
 tree, and inserting its key again rotates nothing.
 */
module AvlReach {
  import opened AvlModel
  import opened AvlOrder
  import opened AvlCaches
  import opened AvlBalance

  predicate GoesLeft<K>(t: Tree<K>)
    requires t.Node?
  {
    t.left.Node? && HeightOf(t.left) >= HeightOf(t.right)
  }

  /** A deepest leaf: down the taller side, the left one if they are level. */
  function Deepest<K>(t: Tree<K>): (leaf: Tree<K>)
    requires t.Node?
    ensures leaf.Node?
  {
    if t.left.Empty? && t.right.Empty? then t
    else if GoesLeft(t) || t.right.Empty? then Deepest(t.left)
    else Deepest(t.right)
  }

  /** The tree without that leaf, caches brought up to date. */
  function Pruned<K>(t: Tree<K>): Tree<K>
    requires t.Node?
  {
    if t.left.Empty? && t.right.Empty? then Empty
    else if GoesLeft(t) || t.right.Empty? then Update(t.(left := Pruned(t.left)))
    else Update(t.(right := Pruned(t.right)))
  }

  lemma {:induction false} PrunedBalanced<K>(t: Tree<K>)
    requires t.Node? && HeightsOk(t) && Balanced(t)
    ensures HeightsOk(Pruned(t)) && Balanced(Pruned(t)) && Size(Pruned(t)) + 1 == Size(t)
    ensures HeightOf(Pruned(t)) <= t.height <= HeightOf(Pruned(t)) + 1
  {
    if t.left.Node? || t.right.Node? {
      if GoesLeft(t) || t.right.Empty? {
        PrunedBalanced(t.left);
      } else {
        PrunedBalanced(t.right);
      }
    }
  }

  lemma {:induction false} PrunedOrdered<K(!new)>(ko: KeyOps<K>, t: Tree<K>, lo: Option<K>, hi: Option<K>)
    requires TotalOrder(ko) && t.Node? && HashesOk(ko, t) && OrderedIn(ko, t, lo, hi)
    ensures HashesOk(ko, Pruned(t)) && OrderedIn(ko, Pruned(t), lo, hi)
    ensures Within(ko, Deepest(t).key, lo, hi)
  {
    if t.left.Node? || t.right.Node? {
      if GoesLeft(t) || t.right.Empty? {
        PrunedOrdered(ko, t.left, lo, Some(t.key));
      } else {
        PrunedOrdered(ko, t.right, Some(t.key), hi);
      }
    }
  }

  /** A balanced node with right caches is left alone. */
  lemma NothingToDo<K>(ko: KeyOps<K>, t: Tree<K>)
    requires t.Node? && HeightsOk(t) && HashesOk(ko, t) && Abs(BalanceFactor(t)) <= 1
    ensures Rebalance(t) == t
  {
    assert Update(t) == t;
  }

  /** Inserting the leaf again gives the tree back. */
  lemma {:induction false} InsertDeepest<K(!new)>(ko: KeyOps<K>, t: Tree<K>, lo: Option<K>, hi: Option<K>)
    requires TotalOrder(ko) && t.Node? && HeightsOk(t) && Balanced(t) && HashesOk(ko, t) && OrderedIn(ko, t, lo, hi)
    ensures HeightsOk(Pruned(t)) && Insert(ko, Pruned(t), Deepest(t).key, Deepest(t).value) == t
  {
    PrunedBalanced(t);
    if t.left.Node? || t.right.Node? {
      if GoesLeft(t) || t.right.Empty? {
        InsertDeepest(ko, t.left, lo, Some(t.key));
        DeepestOnLeft(ko, t, lo, hi);
      } else {
        InsertDeepest(ko, t.right, Some(t.key), hi);
        DeepestOnRight(ko, t, lo, hi);
      }
    } else {
      NothingToDo(ko, t);
    }
  }

  lemma DeepestOnLeft<K(!new)>(ko: KeyOps<K>, t: Tree<K>, lo: Option<K>, hi: Option<K>)
    requires TotalOrder(ko) && t.Node? && HeightsOk(t) && Balanced(t) && HashesOk(ko, t) && OrderedIn(ko, t, lo, hi)
    requires t.left.Node? && (GoesLeft(t) || t.right.Empty?) && HeightsOk(Pruned(t.left)) && HeightsOk(Pruned(t))
    requires Insert(ko, Pruned(t.left), Deepest(t.left).key, Deepest(t.left).value) == t.left
    ensures Insert(ko, Pruned(t), Deepest(t).key, Deepest(t).value) == t
  {
    var p, d := Pruned(t), Deepest(t.left);
    PrunedOrdered(ko, t.left, lo, Some(t.key));
    assert p == Update(t.(left := Pruned(t.left))) && ko.less(d.key, p.key);
    InsertBack(ko, t, p.(left := t.left));
  }

  lemma DeepestOnRight<K(!new)>(ko: KeyOps<K>, t: Tree<K>, lo: Option<K>, hi: Option<K>)
    requires TotalOrder(ko) && t.Node? && HeightsOk(t) && Balanced(t) && HashesOk(ko, t) && OrderedIn(ko, t, lo, hi)
    requires t.right.Node? && !GoesLeft(t) && HeightsOk(Pruned(t.right)) && HeightsOk(Pruned(t))
    requires Insert(ko, Pruned(t.right), Deepest(t.right).key, Deepest(t.right).value) == t.right
    ensures Insert(ko, Pruned(t), Deepest(t).key, Deepest(t).value) == t
  {
    var p, d := Pruned(t), Deepest(t.right);
    PrunedOrdered(ko, t.right, Some(t.key), hi);
    assert p == Update(t.(right := Pruned(t.right))) && ko.less(p.key, d.key) && !ko.less(d.key, p.key);
    InsertBack(ko, t, p.(right := t.right));
  }

  /** Stale caches at a node make no difference to rebalancing it. */
  lemma InsertBack<K>(ko: KeyOps<K>, t: Tree<K>, u: Tree<K>)
    requires t.Node? && HeightsOk(t) && HashesOk(ko, t) && Abs(BalanceFactor(t)) <= 1
    requires u.Node? && u == t.(height := u.height, merkleHash := u.merkleHash)
    ensures Rebalance(u) == t
  {
    assert Update(u) == Update(t) == t;
  }

  predicate OnlyInserts<K>(ops: seq<TreeOp<K>>) {
    forall i :: 0 <= i < |ops| ==> ops[i].InsertOp?
  }

  lemma RunTreeMore<K>(ko: KeyOps<K>, ops: seq<TreeOp<K>>, op: TreeOp<K>)
    ensures var t := RunTree(ko, ops).0;
      RunTree(ko, ops + [op]).0
        == if op.InsertOp? then Insert(ko, t, op.key, op.value) else Remove(ko, t, op.key).rest
  {
    assert (ops + [op])[..|ops + [op]| - 1] == ops;
  }

  /** Every ordered, coherent tree with all factors within 1 is what some insertions make. */
  lemma {:induction false} BalancedIsReached<K(!new)>(ko: KeyOps<K>, t: Tree<K>) returns (ops: seq<TreeOp<K>>)
    requires TotalOrder(ko) && WellFormed(ko, t) && Balanced(t)
    ensures OnlyInserts(ops) && RunTree(ko, ops).0 == t
    decreases Size(t)
  {
    if t.Empty? {
      ops := [];
    } else {
      PrunedBalanced(t);
      PrunedOrdered(ko, t, None, None);
      InsertDeepest(ko, t, None, None);
      var before := BalancedIsReached(ko, Pruned(t));
      var op := InsertOp(Deepest(t).key, Deepest(t).value);
      RunTreeMore(ko, before, op);
      ops := before + [op];
    }
  }

  /** And insertions make no other, so those trees are exactly the ones insertions reach. */
  lemma {:induction false} InsertsAreBalanced<K(!new)>(ko: KeyOps<K>, ops: seq<TreeOp<K>>, key: K)
    requires TotalOrder(ko) && OnlyInserts(ops)
    ensures WellFormed(ko, RunTree(ko, ops).0) && Balanced(RunTree(ko, ops).0)
  {
    RunIsMap(ko, ops, key);
    if ops != [] {
      var front, last := ops[..|ops| - 1], ops[|ops| - 1];
      InsertsAreBalanced(ko, front, key);
      InsertKeepsBalance(ko, RunTree(ko, front).0, last.key, last.value);
    }
  }
}
