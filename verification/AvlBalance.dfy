/**
 Balance and height. A missing child counts as height 0, the same as a leaf, so a chain of three
 nodes is balanced; this is the measure the tree itself uses.
 */
module AvlBalance {
  import opened Bytes
  import opened AvlModel

  function Abs(x: int): nat {
    if x < 0 then -x else x
  }

  ghost predicate Balanced<K>(t: Tree<K>) {
    t.Node? ==> Abs(BalanceFactor(t)) <= 1 && Balanced(t.left) && Balanced(t.right)
  }

  /** How far the balance factors exceed 1, summed over all nodes. At most 1 in all means that
      at most one node has factor 2 or -2 and every other node is within 1. */
  ghost function Excess<K>(t: Tree<K>): nat {
    if t.Empty? then 0
    else NodeExcess(t) + Excess(t.left) + Excess(t.right)
  }

  function NodeExcess<K>(t: Tree<K>): nat
    requires t.Node?
  {
    if Abs(BalanceFactor(t)) > 1 then Abs(BalanceFactor(t)) - 1 else 0
  }

  lemma {:induction false} BalancedIffNoExcess<K>(t: Tree<K>)
    ensures Balanced(t) <==> Excess(t) == 0
  {
    if t.Node? {
      BalancedIffNoExcess(t.left);
      BalancedIffNoExcess(t.right);
    }
  }

  // ---------- one rebalancing step ----------

  /** The tall child is itself level and its inner child leans outward: the case in which the
      double rotation of `balance_node` moves the fault one level down instead of mending it. */
  predicate Overrotates<K>(t: Tree<K>)
    requires t.Node?
  {
    || (BalanceFactor(t) >= 2 && t.left.Node? && BalanceFactor(t.left) == 0
        && t.left.right.Node? && BalanceFactor(t.left.right) == -1)
    || (BalanceFactor(t) <= -2 && t.right.Node? && BalanceFactor(t.right) == 0
        && t.right.left.Node? && BalanceFactor(t.right.left) == 1)
  }

  /** A node off by at most 2 over balanced subtrees, neither missing where it is too short. */
  ghost predicate Mendable<K>(t: Tree<K>) {
    && t.Node?
    && HeightsOk(t.left) && HeightsOk(t.right)
    && Balanced(t.left) && Balanced(t.right)
    && Abs(BalanceFactor(t)) <= 2
  }

  /** A single rotation over a left child leaning left. */
  lemma MendLeftOuter<K>(t: Tree<K>)
    requires Mendable(t) && BalanceFactor(t) == 2 && BalanceFactor(t.left) == 1
    ensures Balanced(Rebalance(t)) && HeightOf(Rebalance(t)) == HeightOf(t.left)
  {
    var l, r := t.left, Rebalance(t);
    assert r.left == l.left && r.right.left == l.right && r.right.right == t.right;
    assert Balanced(r.left) && Balanced(r.right);
  }

  /** A double rotation over a left child leaning right. */
  lemma MendLeftInner<K>(t: Tree<K>)
    requires Mendable(t) && BalanceFactor(t) == 2 && BalanceFactor(t.left) == -1
    ensures Balanced(Rebalance(t)) && HeightOf(Rebalance(t)) == HeightOf(t.left)
  {
    var l, m, r := t.left, t.left.right, Rebalance(t);
    assert HeightsOk(l.left) && Balanced(l.left) && HeightsOk(m);
    assert HeightsOk(m.left) && HeightsOk(m.right) && Balanced(m);
    assert r.left.left == l.left && r.left.right == m.left && r.right.left == m.right && r.right.right == t.right;
    assert Balanced(r.left) && Balanced(r.right);
  }

  lemma MendLeft<K>(t: Tree<K>)
    requires Mendable(t) && BalanceFactor(t) == 2 && BalanceFactor(t.left) != 0
    ensures Balanced(Rebalance(t)) && HeightOf(Rebalance(t)) == HeightOf(t.left)
  {
    if BalanceFactor(t.left) == 1 { MendLeftOuter(t); } else { MendLeftInner(t); }
  }

  /** A single rotation over a right child leaning right. */
  lemma MendRightOuter<K>(t: Tree<K>)
    requires Mendable(t) && BalanceFactor(t) == -2 && BalanceFactor(t.right) == -1
    ensures Balanced(Rebalance(t)) && HeightOf(Rebalance(t)) == HeightOf(t.right)
  {
    var r, u := t.right, Rebalance(t);
    assert u.right == r.right && u.left.right == r.left && u.left.left == t.left;
    assert Balanced(u.left) && Balanced(u.right);
  }

  /** A double rotation over a right child leaning left. */
  lemma MendRightInner<K>(t: Tree<K>)
    requires Mendable(t) && BalanceFactor(t) == -2 && BalanceFactor(t.right) == 1
    ensures Balanced(Rebalance(t)) && HeightOf(Rebalance(t)) == HeightOf(t.right)
  {
    var r, m, u := t.right, t.right.left, Rebalance(t);
    assert HeightsOk(r.right) && Balanced(r.right) && HeightsOk(m);
    assert HeightsOk(m.left) && HeightsOk(m.right) && Balanced(m);
    assert u.right.right == r.right && u.right.left == m.right && u.left.right == m.left && u.left.left == t.left;
    assert Balanced(u.left) && Balanced(u.right);
  }

  lemma MendRight<K>(t: Tree<K>)
    requires Mendable(t) && BalanceFactor(t) == -2 && BalanceFactor(t.right) != 0
    ensures Balanced(Rebalance(t)) && HeightOf(Rebalance(t)) == HeightOf(t.right)
  {
    if BalanceFactor(t.right) == -1 { MendRightOuter(t); } else { MendRightInner(t); }
  }

  /** The case insertion never meets: the double rotation over a level child. */
  lemma MendLeftLevel<K>(t: Tree<K>)
    requires Mendable(t) && BalanceFactor(t) == 2 && BalanceFactor(t.left) == 0 && t.right.Node?
    ensures HeightOf(Rebalance(t)) == HeightOf(t.left) + 1 && Abs(BalanceFactor(Rebalance(t))) <= 1
    ensures Excess(Rebalance(t)) == if Overrotates(t) then 1 else 0
  {
    var l, m, r := t.left, t.left.right, Rebalance(t);
    assert HeightsOk(l.left) && HeightsOk(m) && HeightsOk(m.left) && HeightsOk(m.right);
    assert Balanced(l.left) && Balanced(m) && Balanced(m.left) && Balanced(m.right);
    assert r.left.left == l.left && r.left.right == m.left && r.right.left == m.right && r.right.right == t.right;
    BalancedIffNoExcess(l.left);
    BalancedIffNoExcess(m.left);
    BalancedIffNoExcess(m.right);
    BalancedIffNoExcess(t.right);
    assert Excess(r.left) == NodeExcess(r.left) && Excess(r.right) == NodeExcess(r.right);
  }

  lemma MendRightLevel<K>(t: Tree<K>)
    requires Mendable(t) && BalanceFactor(t) == -2 && BalanceFactor(t.right) == 0 && t.left.Node?
    ensures HeightOf(Rebalance(t)) == HeightOf(t.right) + 1 && Abs(BalanceFactor(Rebalance(t))) <= 1
    ensures Excess(Rebalance(t)) == if Overrotates(t) then 1 else 0
  {
    var r, m, u := t.right, t.right.left, Rebalance(t);
    assert HeightsOk(r.right) && HeightsOk(m) && HeightsOk(m.left) && HeightsOk(m.right);
    assert Balanced(r.right) && Balanced(m) && Balanced(m.left) && Balanced(m.right);
    assert u.right.right == r.right && u.right.left == m.right && u.left.right == m.left && u.left.left == t.left;
    BalancedIffNoExcess(r.right);
    BalancedIffNoExcess(m.left);
    BalancedIffNoExcess(m.right);
    BalancedIffNoExcess(t.left);
    assert Excess(u.left) == NodeExcess(u.left) && Excess(u.right) == NodeExcess(u.right);
  }

  // ---------- insert ----------

  /** What `insert` does to a subtree: it may grow by one level, and a grown subtree of height 2
      or more leans to one side, so `balance_node` never meets its level case. */
  ghost predicate GrownFrom<K>(r: Tree<K>, h: nat) {
    && r.Node? && HeightsOk(r) && Balanced(r)
    && h <= HeightOf(r) <= h + 1
    && (HeightOf(r) == h + 1 && h >= 1 ==> BalanceFactor(r) != 0)
  }

  /** The left subtree of a balanced node becomes `l` by an insertion. */
  lemma GrowLeft<K>(t: Tree<K>, l: Tree<K>)
    requires t.Node? && HeightsOk(t) && Balanced(t) && GrownFrom(l, HeightOf(t.left))
    requires t.left.Empty? ==> Childless(l)
    ensures GrownFrom(Rebalance(t.(left := l)), t.height)
  {
    var u := t.(left := l);
    if BalanceFactor(u) == 2 { MendLeft(u); } else { assert Rebalance(u) == Update(u); }
  }

  lemma GrowRight<K>(t: Tree<K>, r: Tree<K>)
    requires t.Node? && HeightsOk(t) && Balanced(t) && GrownFrom(r, HeightOf(t.right))
    requires t.right.Empty? ==> Childless(r)
    ensures GrownFrom(Rebalance(t.(right := r)), t.height)
  {
    var u := t.(right := r);
    if BalanceFactor(u) == -2 { MendRight(u); } else { assert Rebalance(u) == Update(u); }
  }

  /** `insert` keeps every balance factor within 1 and adds at most one level. */
  lemma {:induction false} InsertKeepsBalance<K>(ko: KeyOps<K>, t: Tree<K>, key: K, value: Bytes)
    requires HeightsOk(t) && Balanced(t)
    ensures GrownFrom(Insert(ko, t, key, value), HeightOf(t))
  {
    if t.Node? {
      if ko.less(key, t.key) {
        InsertKeepsBalance(ko, t.left, key, value);
        GrowLeft(t, Insert(ko, t.left, key, value));
      } else if ko.less(t.key, key) {
        InsertKeepsBalance(ko, t.right, key, value);
        GrowRight(t, Insert(ko, t.right, key, value));
      }
    }
  }

  // ---------- remove ----------

  /** What one removal does to a subtree of height `h`: it loses at most one level; if it loses
      one it is balanced again, and if not at most one inner node is off, by one too many. */
  ghost predicate ShrunkFrom<K>(r: Tree<K>, h: nat) {
    && HeightsOk(r)
    && HeightOf(r) <= h <= HeightOf(r) + 1
    && Excess(r) <= 1
    && (HeightOf(r) < h ==> r.Node? && Excess(r) == 0)
    && (r.Node? ==> Abs(BalanceFactor(r)) <= 1)
  }

  /** Losing a level on the left unbalances the node for good: it leans right, its right child is
      level, and that child's inner child leans outward. */
  predicate BrittleOnLeft<K>(t: Tree<K>)
    requires t.Node?
  {
    && BalanceFactor(t) == -1 && t.right.Node? && BalanceFactor(t.right) == 0
    && t.right.left.Node? && BalanceFactor(t.right.left) == 1
  }

  predicate BrittleOnRight<K>(t: Tree<K>)
    requires t.Node?
  {
    && BalanceFactor(t) == 1 && t.left.Node? && BalanceFactor(t.left) == 0
    && t.left.right.Node? && BalanceFactor(t.left.right) == -1
  }

  /** A node loses a level with its left subtree: it leans that way, or the other way over a child
      that leans too, so that a rotation follows. */
  predicate FollowsLeft<K>(t: Tree<K>)
    requires t.Node?
  {
    BalanceFactor(t) == 1 || (BalanceFactor(t) == -1 && t.right.Node? && BalanceFactor(t.right) != 0)
  }

  predicate FollowsRight<K>(t: Tree<K>)
    requires t.Node?
  {
    BalanceFactor(t) == -1 || (BalanceFactor(t) == 1 && t.left.Node? && BalanceFactor(t.left) != 0)
  }

  /** The left subtree of a balanced node becomes `l` by a removal. */
  lemma ShrinkLeft<K>(t: Tree<K>, l: Tree<K>)
    requires t.Node? && HeightsOk(t) && Balanced(t) && t.left.Node? && ShrunkFrom(l, t.left.height)
    ensures var r := Rebalance(t.(left := l));
      && ShrunkFrom(r, t.height)
      && (Excess(r) == 0 <==> Excess(l) == 0 && !(BrittleOnLeft(t) && HeightOf(l) < t.left.height))
      && (r.height < t.height <==>
            if l.Empty? then t.right.Empty? else l.height < t.left.height && FollowsLeft(t))
  {
    var u := t.(left := l);
    BalancedIffNoExcess(l);
    BalancedIffNoExcess(t.right);
    if BalanceFactor(u) == -2 {
      assert l.Node?;
      if BalanceFactor(u.right) == 0 { MendRightLevel(u); } else { MendRight(u); }
      BalancedIffNoExcess(Rebalance(u));
    } else {
      assert Rebalance(u) == Update(u);
    }
  }

  /** The right subtree of a balanced node becomes `r` by a removal. */
  lemma ShrinkRight<K>(t: Tree<K>, r: Tree<K>)
    requires t.Node? && HeightsOk(t) && Balanced(t) && t.right.Node? && ShrunkFrom(r, t.right.height)
    ensures var u := Rebalance(t.(right := r));
      && ShrunkFrom(u, t.height)
      && (Excess(u) == 0 <==> Excess(r) == 0 && !(BrittleOnRight(t) && HeightOf(r) < t.right.height))
      && (u.height < t.height <==>
            if r.Empty? then t.left.Empty? else r.height < t.right.height && FollowsRight(t))
  {
    var u := t.(right := r);
    BalancedIffNoExcess(r);
    BalancedIffNoExcess(t.left);
    if BalanceFactor(u) == 2 {
      assert r.Node?;
      if BalanceFactor(u.left) == 0 { MendLeftLevel(u); } else { MendLeft(u); }
      BalancedIffNoExcess(Rebalance(u));
    } else {
      assert Rebalance(u) == Update(u);
    }
  }

  // ---------- what a removal will do, read off the tree before it ----------

  /** Removing the least key lowers the tree. */
  predicate LeftmostLowers<K>(t: Tree<K>)
    requires t.Node?
  {
    if t.left.Empty? then t.right.Node?
    else if Childless(t.left) then t.right.Empty?
    else LeftmostLowers(t.left) && FollowsLeft(t)
  }

  /** Removing the greatest key lowers the tree. */
  predicate RightmostLowers<K>(t: Tree<K>)
    requires t.Node?
  {
    if t.right.Empty? then t.left.Node?
    else if Childless(t.right) then t.left.Empty?
    else RightmostLowers(t.right) && FollowsRight(t)
  }

  /** Removing the least key unbalances the tree. */
  predicate LeftmostUnbalances<K>(t: Tree<K>)
    requires t.Node?
  {
    t.left.Node? && (LeftmostUnbalances(t.left) || (BrittleOnLeft(t) && LeftmostLowers(t.left)))
  }

  predicate RightmostUnbalances<K>(t: Tree<K>)
    requires t.Node?
  {
    t.right.Node? && (RightmostUnbalances(t.right) || (BrittleOnRight(t) && RightmostLowers(t.right)))
  }

  predicate Holds<K>(ko: KeyOps<K>, t: Tree<K>, key: K) {
    t.Node? && !ko.less(key, t.key) && !ko.less(t.key, key)
  }

  /** Removing the key lowers the tree. */
  predicate RemovalLowers<K>(ko: KeyOps<K>, t: Tree<K>, key: K) {
    t.Node? &&
    if ko.less(key, t.key) then
      if Childless(t.left) then Holds(ko, t.left, key) && t.right.Empty?
      else RemovalLowers(ko, t.left, key) && FollowsLeft(t)
    else if ko.less(t.key, key) then
      if Childless(t.right) then Holds(ko, t.right, key) && t.left.Empty?
      else RemovalLowers(ko, t.right, key) && FollowsRight(t)
    else if t.left.Empty? || t.right.Empty? then !Childless(t)
    else if BalanceFactor(t) <= 0 then BalanceFactor(t) == -1 && LeftmostLowers(t.right)
    else RightmostLowers(t.left)
  }

  /** Removing the key unbalances the tree: some ancestor on the path is brittle on the side of
      the removal, and its subtree on that side loses a level. */
  predicate RemovalUnbalances<K>(ko: KeyOps<K>, t: Tree<K>, key: K) {
    t.Node? &&
    if ko.less(key, t.key) then
      RemovalUnbalances(ko, t.left, key) || (BrittleOnLeft(t) && RemovalLowers(ko, t.left, key))
    else if ko.less(t.key, key) then
      RemovalUnbalances(ko, t.right, key) || (BrittleOnRight(t) && RemovalLowers(ko, t.right, key))
    else if t.left.Empty? || t.right.Empty? then false
    else if BalanceFactor(t) <= 0 then LeftmostUnbalances(t.right)
    else RightmostUnbalances(t.left)
  }

  /** `r` is what a removal makes of `t`, which it lowers and unbalances exactly as foretold. */
  ghost predicate AsForetold<K>(t: Tree<K>, r: Tree<K>, lowers: bool, unbalances: bool) {
    && ShrunkFrom(r, HeightOf(t))
    && (HeightOf(r) < HeightOf(t) <==> lowers)
    && (Excess(r) == 0 <==> !unbalances)
  }

  lemma {:induction false} RemoveLeftmostShrinks<K>(t: Tree<K>)
    requires t.Node? && HeightsOk(t) && Balanced(t)
    ensures AsForetold(t, RemoveLeftmost(t).rest, LeftmostLowers(t), LeftmostUnbalances(t))
    ensures RemoveLeftmost(t).rest.Empty? <==> Childless(t)
  {
    if t.left.Node? {
      RemoveLeftmostShrinks(t.left);
      ShrinkLeft(t, RemoveLeftmost(t.left).rest);
    } else {
      BalancedIffNoExcess(t.right);
    }
  }

  lemma {:induction false} RemoveRightmostShrinks<K>(t: Tree<K>)
    requires t.Node? && HeightsOk(t) && Balanced(t)
    ensures AsForetold(t, RemoveRightmost(t).rest, RightmostLowers(t), RightmostUnbalances(t))
    ensures RemoveRightmost(t).rest.Empty? <==> Childless(t)
  {
    if t.right.Node? {
      RemoveRightmostShrinks(t.right);
      ShrinkRight(t, RemoveRightmost(t.right).rest);
    } else {
      BalancedIffNoExcess(t.left);
    }
  }

  /** Rebalancing what is within 1 already changes no shape, height or balance. */
  lemma RebalanceAgain<K>(u: Tree<K>)
    requires u.Node? && HeightsOk(u) && Abs(BalanceFactor(u)) <= 1
    ensures HeightOf(Rebalance(u)) == HeightOf(u) && Excess(Rebalance(u)) == Excess(u)
    ensures BalanceFactor(Rebalance(u)) == BalanceFactor(u)
  {
  }

  /** A node put in the root's place over the same two subtrees is rebalanced as the root is. */
  lemma RebalanceSameShape<K>(t: Tree<K>, s: Tree<K>)
    requires t.Node? && s.Node? && s.left == t.left && s.right == t.right
    requires HeightsOk(t.left) && HeightsOk(t.right) && Abs(BalanceFactor(t)) <= 1
    ensures Rebalance(s).height == Rebalance(t).height && Excess(Rebalance(s)) == Excess(Rebalance(t))
    ensures BalanceFactor(Rebalance(s)) == BalanceFactor(Rebalance(t))
  {
  }

  lemma RemoveRootShrinks<K>(ko: KeyOps<K>, t: Tree<K>, key: K)
    requires t.Node? && HeightsOk(t) && Balanced(t)
    requires !ko.less(key, t.key) && !ko.less(t.key, key)
    ensures AsForetold(t, RemoveRoot(t).rest, RemovalLowers(ko, t, key), RemovalUnbalances(ko, t, key))
  {
    BalancedIffNoExcess(t.left);
    BalancedIffNoExcess(t.right);
    var s := Substitute(t);
    if t.right.Empty? || t.left.Empty? {
      if s.Node? { RebalanceAgain(s); }
    } else if BalanceFactor(t) <= 0 {
      RemoveLeftmostShrinks(t.right);
      var rest := RemoveLeftmost(t.right).rest;
      ShrinkRight(t, rest);
      RebalanceSameShape(t.(right := rest), s);
    } else {
      RemoveRightmostShrinks(t.left);
      var rest := RemoveRightmost(t.left).rest;
      ShrinkLeft(t, rest);
      RebalanceSameShape(t.(left := rest), s);
    }
  }

  /** Whether a removal takes away the whole of a subtree. */
  lemma RemoveLeaf<K>(ko: KeyOps<K>, t: Tree<K>, key: K)
    requires HeightsOk(t) && Remove(ko, t, key).removed.Node?
    ensures Remove(ko, t, key).rest.Empty? <==> Childless(t)
    ensures Childless(t) ==> Holds(ko, t, key)
  {
  }

  /** The exact effect of one `remove` on a balanced tree: at most one level is lost; a tree that
      lost a level is balanced; otherwise at most one inner node, never the root, has factor 2
      or -2. Whether a level is lost and whether the result is balanced can be read off the tree
      beforehand. */
  lemma {:induction false} RemoveEffectOnBalance<K>(ko: KeyOps<K>, t: Tree<K>, key: K)
    requires HeightsOk(t) && Balanced(t)
    ensures ShrunkFrom(Remove(ko, t, key).rest, HeightOf(t))
    ensures HeightOf(Remove(ko, t, key).rest) < HeightOf(t) <==> RemovalLowers(ko, t, key)
    ensures Balanced(Remove(ko, t, key).rest) <==> !RemovalUnbalances(ko, t, key)
  {
    var c := Remove(ko, t, key);
    BalancedIffNoExcess(t);
    BalancedIffNoExcess(c.rest);
    if t.Node? {
      if ko.less(key, t.key) {
        var l := Remove(ko, t.left, key);
        RemoveEffectOnBalance(ko, t.left, key);
        BalancedIffNoExcess(l.rest);
        if l.removed.Node? {
          RemoveLeaf(ko, t.left, key);
          ShrinkLeft(t, l.rest);
        }
      } else if ko.less(t.key, key) {
        var r := Remove(ko, t.right, key);
        RemoveEffectOnBalance(ko, t.right, key);
        BalancedIffNoExcess(r.rest);
        if r.removed.Node? {
          RemoveLeaf(ko, t.right, key);
          ShrinkRight(t, r.rest);
        }
      } else {
        RemoveRootShrinks(ko, t, key);
        var u := RemoveRoot(t).rest;
        if u.Node? { RebalanceAgain(u); }
      }
    }
  }

  // ---------- logarithmic height ----------

  ghost function Size<K>(t: Tree<K>): nat {
    if t.Empty? then 0 else Size(t.left) + 1 + Size(t.right)
  }

  function Pow2(n: nat): nat {
    if n == 0 then 1 else 2 * Pow2(n - 1)
  }

  lemma {:induction false} Pow2Monotone(m: nat, n: nat)
    requires m <= n
    ensures Pow2(m) <= Pow2(n)
  {
    if m < n { Pow2Monotone(m, n - 1); }
  }

  /** A balanced tree of height h has at least 2^(h/2) nodes. */
  lemma {:induction false} BalancedSize<K>(t: Tree<K>)
    requires t.Node? && HeightsOk(t) && Balanced(t)
    ensures Size(t) >= Pow2(t.height / 2)
  {
    if t.height >= 3 {
      BalancedSize(t.left);
      BalancedSize(t.right);
      Pow2Monotone((t.height - 2) / 2, t.left.height / 2);
      Pow2Monotone((t.height - 2) / 2, t.right.height / 2);
    } else if t.height == 2 {
      assert (t.left.Node? && t.left.height == 1) || (t.right.Node? && t.right.height == 1);
    }
  }

  /** How many nodes the search loop of `get` visits. */
  function GetSteps<K>(ko: KeyOps<K>, t: Tree<K>, key: K): nat {
    if t.Empty? then 0
    else if ko.less(key, t.key) then 1 + GetSteps(ko, t.left, key)
    else if ko.less(t.key, key) then 1 + GetSteps(ko, t.right, key)
    else 1
  }

  lemma {:induction false} GetStepsWithinHeight<K>(ko: KeyOps<K>, t: Tree<K>, key: K)
    requires HeightsOk(t)
    ensures t.Node? ==> GetSteps(ko, t, key) <= t.height + 1
  {
    if t.Node? {
      GetStepsWithinHeight(ko, t.left, key);
      GetStepsWithinHeight(ko, t.right, key);
    }
  }

  ghost function InsertAll<K>(ko: KeyOps<K>, items: seq<(K, Bytes)>): (t: Tree<K>)
    ensures HeightsOk(t)
  {
    if items == [] then Empty
    else
      var last := items[|items| - 1];
      Insert(ko, InsertAll(ko, items[..|items| - 1]), last.0, last.1)
  }

  /** Looking up in any tree built by insertions alone visits at most 2 log2(size) + 2 nodes. */
  lemma {:induction false} InsertOnlyLookupIsLogarithmic<K>(ko: KeyOps<K>, items: seq<(K, Bytes)>, key: K)
    ensures var t := InsertAll(ko, items);
      && Balanced(t)
      && (t.Node? ==> GetSteps(ko, t, key) <= t.height + 1 && Pow2(t.height / 2) <= Size(t))
  {
    var t := InsertAll(ko, items);
    if items != [] {
      var last, before := items[|items| - 1], items[..|items| - 1];
      InsertOnlyLookupIsLogarithmic(ko, before, key);
      InsertKeepsBalance(ko, InsertAll(ko, before), last.0, last.1);
      BalancedSize(t);
      GetStepsWithinHeight(ko, t, key);
    }
  }
}
