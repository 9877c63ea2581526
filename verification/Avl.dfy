/**
 The AVL Merkle tree in place: nodes linked by references, rewritten by insertion, removal and
 rotation. Every method is proved against the function of the same name in `AvlModel`.
 */
module Avl {
  import opened Bytes
  import opened AvlModel
  import opened AvlOrder
  import opened AvlCaches
  import opened AvlBalance
  import opened Ics23
  import AvlProofs

  class AvlNode<K> {
    const key: K
    var value: Bytes
    var hash: Digest
    var merkleHash: Digest
    var height: nat
    var left: AvlNode?<K>
    var right: AvlNode?<K>

    /** The node and everything below it. */
    ghost var repr: set<AvlNode<K>>
    /** The tree the node and everything below it stand for, stale caches included. */
    ghost var model: Tree<K>

    ghost predicate Valid()
      reads this, repr
    {
      && this in repr
      && (left != null ==> left in repr && left.repr <= repr && this !in left.repr && left.Valid())
      && (right != null ==> right in repr && right.repr <= repr && this !in right.repr && right.Valid())
      && ReprOf(left) !! ReprOf(right)
      && model == RawOver(ModelOf(left), ModelOf(right))
    }

    /** The subtrees are in order; the node's own bookkeeping may not be. */
    ghost predicate ChildrenValid()
      reads this, left, right, ReprOf(left), ReprOf(right)
    {
      && ValidRef(left) && ValidRef(right)
      && this !in ReprOf(left) && this !in ReprOf(right)
      && ReprOf(left) !! ReprOf(right)
    }

    /** The node's fields as they are, over the given subtrees. */
    ghost function RawOver(l: Tree<K>, r: Tree<K>): Tree<K>
      reads this
    {
      Node(key, value, hash, merkleHash, height, l, r)
    }

    constructor New(ko: KeyOps<K>, key: K, value: Bytes)
      ensures Valid() && fresh(repr)
      ensures model == NewNode(ko, key, value)
    {
      var local := LocalHash(ko, key, value);
      this.key, this.value, hash := key, value, local;
      merkleHash := MerkleHash(EMPTY_CHILD, local, EMPTY_CHILD);
      height, left, right := 0, null, null;
      repr, model := {this}, NewNode(ko, key, value);
    }

    /** The same node over other subtrees. */
    constructor Copy(node: AvlNode<K>, left: AvlNode?<K>, right: AvlNode?<K>)
      requires ValidRef(left) && ValidRef(right) && ReprOf(left) !! ReprOf(right)
      ensures Valid() && repr == {this} + ReprOf(left) + ReprOf(right)
      ensures model == node.RawOver(ModelOf(left), ModelOf(right))
    {
      key, value, hash, merkleHash, height := node.key, node.value, node.hash, node.merkleHash, node.height;
      this.left, this.right := left, right;
      repr := {this} + ReprOf(left) + ReprOf(right);
      model := node.RawOver(ModelOf(left), ModelOf(right));
    }

    /** Brings the ghost bookkeeping in line after the fields have been rewritten. */
    ghost method Relink()
      requires ChildrenValid()
      modifies this`repr, this`model
      ensures Valid() && repr == {this} + ReprOf(left) + ReprOf(right)
      ensures model == RawOver(ModelOf(left), ModelOf(right))
    {
      repr := {this} + ReprOf(left) + ReprOf(right);
      model := RawOver(ModelOf(left), ModelOf(right));
    }

    method SetValue(ko: KeyOps<K>, value: Bytes) returns (previous: Bytes)
      requires Valid()
      modifies this
      ensures Valid() && repr <= old(repr) && left == old(left) && right == old(right)
      ensures previous == old(this.value)
      ensures model == AvlModel.SetValue(ko, old(model), value)
    {
      hash := LocalHash(ko, key, value);
      previous := this.value;
      this.value := value;
      Relink();
    }

    function LeftHash(): Digest
      reads this, left
    {
      if left == null then EMPTY_CHILD else left.merkleHash
    }

    function RightHash(): Digest
      reads this, right
    {
      if right == null then EMPTY_CHILD else right.merkleHash
    }

    method UpdateHeight()
      requires ChildrenValid()
      modifies this`height
      ensures height == HeightAbove(ModelOf(left), ModelOf(right))
    {
      if right == null {
        if left == null {
          height := 0;
        } else {
          height := left.height + 1;
        }
      } else if left == null {
        height := right.height + 1;
      } else {
        height := Max(left.height, right.height) + 1;
      }
    }

    method UpdateHashes()
      requires ChildrenValid()
      modifies this`merkleHash
      ensures merkleHash == MerkleHash(ChildHash(ModelOf(left)), hash, ChildHash(ModelOf(right)))
    {
      merkleHash := MerkleHash(LeftHash(), hash, RightHash());
    }

    method Update()
      requires ChildrenValid()
      modifies this`height, this`merkleHash, this`repr, this`model
      ensures Valid() && repr == {this} + ReprOf(left) + ReprOf(right)
      ensures model == AvlModel.Update(old(RawOver(ModelOf(left), ModelOf(right))))
    {
      UpdateHashes();
      UpdateHeight();
      Relink();
    }

    /** Gives the node another left subtree and refreshes its caches. */
    method RelinkLeft(child: AvlNode?<K>)
      requires ValidRef(child) && ValidRef(right) && this !in ReprOf(child) && this !in ReprOf(right)
      requires ReprOf(child) !! ReprOf(right)
      modifies this
      ensures Valid() && repr == {this} + ReprOf(child) + ReprOf(right)
      ensures left == child && right == old(right)
      ensures model == AvlModel.Update(old(RawOver(ModelOf(child), ModelOf(right))))
    {
      left := child;
      Update();
    }

    method RelinkRight(child: AvlNode?<K>)
      requires ValidRef(left) && ValidRef(child) && this !in ReprOf(left) && this !in ReprOf(child)
      requires ReprOf(left) !! ReprOf(child)
      modifies this
      ensures Valid() && repr == {this} + ReprOf(left) + ReprOf(child)
      ensures left == old(left) && right == child
      ensures model == AvlModel.Update(old(RawOver(ModelOf(left), ModelOf(child))))
    {
      right := child;
      Update();
    }

    /** Takes the left subtree out of the node. */
    method TakeLeft() returns (child: AvlNode?<K>)
      requires Valid()
      modifies this`left, this`repr, this`model
      ensures Valid() && repr == {this} + ReprOf(right)
      ensures child == old(left) && left == null
      ensures model == RawOver(Empty, ModelOf(right))
    {
      child := left;
      left := null;
      Relink();
    }

    /** Takes the right subtree out of the node. */
    method TakeRight() returns (child: AvlNode?<K>)
      requires Valid()
      modifies this`right, this`repr, this`model
      ensures Valid() && repr == {this} + ReprOf(left)
      ensures child == old(right) && right == null
      ensures model == RawOver(ModelOf(left), Empty)
    {
      child := right;
      right := null;
      Relink();
    }

    function BalanceFactor(): int
      reads this, left, right
    {
      (if left == null then 0 else left.height) - (if right == null then 0 else right.height)
    }

    /** Reads a valid node through its model, one level down. */
    lemma Unfold()
      requires Valid()
      ensures model == RawOver(ModelOf(left), ModelOf(right))
      ensures ValidRef(left) && (left == null <==> model.left.Empty?)
      ensures ValidRef(right) && (right == null <==> model.right.Empty?)
      ensures BalanceFactor() == AvlModel.BalanceFactor(model)
    {
    }
  }

  ghost function ModelOf<K>(n: AvlNode?<K>): Tree<K>
    reads n
  {
    if n == null then Empty else n.model
  }

  ghost function ReprOf<K>(n: AvlNode?<K>): set<AvlNode<K>>
    reads n
  {
    if n == null then {} else n.repr
  }

  ghost predicate ValidRef<K>(n: AvlNode?<K>)
    reads n, ReprOf(n)
  {
    n != null ==> n.Valid()
  }

  // ---------- rotations ----------

  method RotateRight<K>(root: AvlNode<K>) returns (r: AvlNode<K>)
    requires root.Valid() && root.left != null
    modifies root.repr
    ensures r.Valid() && r.repr <= old(root.repr)
    ensures old(root.model.left.Node?) && r.model == AvlModel.RotateRight(old(root.model))
  {
    r := root.left;
    assert r.Valid();
    root.RelinkLeft(r.right);
    r.RelinkRight(root);
  }

  method RotateLeft<K>(root: AvlNode<K>) returns (r: AvlNode<K>)
    requires root.Valid() && root.right != null
    modifies root.repr
    ensures r.Valid() && r.repr <= old(root.repr)
    ensures old(root.model.right.Node?) && r.model == AvlModel.RotateLeft(old(root.model))
  {
    r := root.right;
    assert r.Valid();
    root.RelinkRight(r.left);
    r.RelinkLeft(root);
  }

  /** Rotates the node's left subtree leftwards, leaving the node's caches for later. */
  method RotateLeftBelow<K>(node: AvlNode<K>)
    requires node.Valid() && node.left != null && node.left.right != null
    modifies node.repr
    ensures node.Valid() && node.repr <= old(node.repr)
    ensures old(node.model.left.Node? && node.model.left.right.Node?)
    ensures node.model == old(node.model).(left := AvlModel.RotateLeft(old(node.model.left)))
  {
    var left := RotateLeft(node.left);
    node.left := left;
    node.Relink();
  }

  method RotateRightBelow<K>(node: AvlNode<K>)
    requires node.Valid() && node.right != null && node.right.left != null
    modifies node.repr
    ensures node.Valid() && node.repr <= old(node.repr)
    ensures old(node.model.right.Node? && node.model.right.left.Node?)
    ensures node.model == old(node.model).(right := AvlModel.RotateRight(old(node.model.right)))
  {
    var right := RotateRight(node.right);
    node.right := right;
    node.Relink();
  }

  method BalanceNode<K>(node: AvlNode<K>) returns (r: AvlNode<K>)
    requires node.Valid() && CanBalance(node.model)
    modifies node.repr
    ensures r.Valid() && r.repr <= old(node.repr)
    ensures r.model == AvlModel.BalanceNode(old(node.model))
  {
    var balanceFactor := node.BalanceFactor();
    node.Unfold();
    if balanceFactor >= 2 {
      node.left.Unfold();
      if node.left.BalanceFactor() < 1 {
        RotateLeftBelow(node);
      }
      r := RotateRight(node);
    } else if balanceFactor <= -2 {
      node.right.Unfold();
      if node.right.BalanceFactor() > -1 {
        RotateRightBelow(node);
      }
      r := RotateLeft(node);
    } else {
      r := node;
    }
  }

  /** Puts `child` in place on the left, then does the `update` and `balance_node` every
      mutation ends with. */
  method RebalanceLeft<K>(node: AvlNode<K>, child: AvlNode?<K>) returns (r: AvlNode<K>)
    requires ValidRef(child) && ValidRef(node.right) && node !in ReprOf(child) && node !in ReprOf(node.right)
    requires ReprOf(child) !! ReprOf(node.right)
    requires HeightsOk(ModelOf(child)) && HeightsOk(ModelOf(node.right))
    modifies node, ReprOf(child), ReprOf(node.right)
    ensures r.Valid() && r.repr <= {node} + old(ReprOf(child)) + old(ReprOf(node.right))
    ensures r.model == Rebalance(old(node.RawOver(ModelOf(child), ModelOf(node.right))))
  {
    node.RelinkLeft(child);
    r := BalanceNode(node);
  }

  method RebalanceRight<K>(node: AvlNode<K>, child: AvlNode?<K>) returns (r: AvlNode<K>)
    requires ValidRef(node.left) && ValidRef(child) && node !in ReprOf(node.left) && node !in ReprOf(child)
    requires ReprOf(node.left) !! ReprOf(child)
    requires HeightsOk(ModelOf(node.left)) && HeightsOk(ModelOf(child))
    modifies node, ReprOf(node.left), ReprOf(child)
    ensures r.Valid() && r.repr <= {node} + old(ReprOf(node.left)) + old(ReprOf(child))
    ensures r.model == Rebalance(old(node.RawOver(ModelOf(node.left), ModelOf(child))))
  {
    node.RelinkRight(child);
    r := BalanceNode(node);
  }

  /** `RebalanceLeft` does nothing to a node cut out before. */
  method RebalanceLeftBeside<K>(node: AvlNode<K>, child: AvlNode?<K>, ghost apart: AvlNode<K>) returns (r: AvlNode<K>)
    requires ValidRef(child) && ValidRef(node.right) && node !in ReprOf(child) && node !in ReprOf(node.right)
    requires ReprOf(child) !! ReprOf(node.right)
    requires HeightsOk(ModelOf(child)) && HeightsOk(ModelOf(node.right))
    requires apart.Valid() && node !in apart.repr && apart.repr !! ReprOf(child) && apart.repr !! ReprOf(node.right)
    modifies node, ReprOf(child), ReprOf(node.right)
    ensures r.Valid() && r.repr <= {node} + old(ReprOf(child)) + old(ReprOf(node.right))
    ensures r.model == Rebalance(old(node.RawOver(ModelOf(child), ModelOf(node.right))))
    ensures apart.Valid() && apart.repr == old(apart.repr) && apart.model == old(apart.model) && r.repr !! apart.repr
  {
    r := RebalanceLeft(node, child);
  }

  method RebalanceRightBeside<K>(node: AvlNode<K>, child: AvlNode?<K>, ghost apart: AvlNode<K>) returns (r: AvlNode<K>)
    requires ValidRef(node.left) && ValidRef(child) && node !in ReprOf(node.left) && node !in ReprOf(child)
    requires ReprOf(node.left) !! ReprOf(child)
    requires HeightsOk(ModelOf(node.left)) && HeightsOk(ModelOf(child))
    requires apart.Valid() && node !in apart.repr && apart.repr !! ReprOf(child) && apart.repr !! ReprOf(node.left)
    modifies node, ReprOf(node.left), ReprOf(child)
    ensures r.Valid() && r.repr <= {node} + old(ReprOf(node.left)) + old(ReprOf(child))
    ensures r.model == Rebalance(old(node.RawOver(ModelOf(node.left), ModelOf(child))))
    ensures apart.Valid() && apart.repr == old(apart.repr) && apart.model == old(apart.model) && r.repr !! apart.repr
  {
    r := RebalanceRight(node, child);
  }

  /** The same for a node whose children are already in place. */
  method RebalanceNode<K>(node: AvlNode<K>) returns (r: AvlNode<K>)
    requires node.Valid() && node.model.Node? && HeightsOk(node.model.left) && HeightsOk(node.model.right)
    modifies node.repr
    ensures r.Valid() && r.repr <= old(node.repr)
    ensures old(node.model.Node?) && r.model == Rebalance(old(node.model))
  {
    node.Unfold();
    node.Update();
    r := BalanceNode(node);
  }

  // ---------- insert ----------

  method InsertRec<K>(ko: KeyOps<K>, node: AvlNode?<K>, key: K, value: Bytes)
    returns (r: AvlNode<K>, previous: Option<Bytes>)
    requires ValidRef(node) && HeightsOk(ModelOf(node))
    modifies ReprOf(node)
    ensures r.Valid() && fresh(r.repr - old(ReprOf(node)))
    ensures r.model == Insert(ko, old(ModelOf(node)), key, value)
    ensures previous == Get(ko, old(ModelOf(node)), key)
    decreases ModelOf(node)
  {
    if node == null {
      r := new AvlNode.New(ko, key, value);
      previous := None;
    } else {
      node.Unfold();
      if ko.less(key, node.key) {
        var left;
        left, previous := InsertRec(ko, node.left, key, value);
        r := RebalanceLeft(node, left);
      } else if ko.less(node.key, key) {
        var right;
        right, previous := InsertRec(ko, node.right, key, value);
        r := RebalanceRight(node, right);
      } else {
        r, previous := Replace(ko, node, value);
      }
    }
  }

  /** The branch of `InsertRec` for the node's own key. */
  method Replace<K>(ko: KeyOps<K>, node: AvlNode<K>, value: Bytes) returns (r: AvlNode<K>, previous: Option<Bytes>)
    requires node.Valid() && HeightsOk(node.model)
    modifies node.repr
    ensures r.Valid() && r.repr <= old(node.repr)
    ensures old(node.model.Node?) && r.model == Rebalance(AvlModel.SetValue(ko, old(node.model), value))
    ensures previous == Some(old(node.model.value))
  {
    node.Unfold();
    var oldValue := node.SetValue(ko, value);
    previous := Some(oldValue);
    r := RebalanceLeft(node, node.left);
  }

  // ---------- remove ----------

  method RemoveLeftmost<K>(node: AvlNode<K>) returns (rest: AvlNode?<K>, removed: AvlNode<K>)
    requires node.Valid() && HeightsOk(node.model)
    modifies node.repr
    ensures ValidRef(rest) && removed.Valid() && ReprOf(rest) !! removed.repr
    ensures ReprOf(rest) + removed.repr <= old(node.repr)
    ensures Cut(ModelOf(rest), removed.model) == AvlModel.RemoveLeftmost(old(node.model))
    decreases node.model, 1
  {
    node.Unfold();
    if node.left == null {
      rest := node.TakeRight();
      removed := node;
    } else {
      rest, removed := RemoveLeftmostBelow(node);
    }
  }

  /** The branch of `RemoveLeftmost` for a node with a left subtree. */
  method RemoveLeftmostBelow<K>(node: AvlNode<K>) returns (rest: AvlNode<K>, removed: AvlNode<K>)
    requires node.Valid() && HeightsOk(node.model) && node.left != null
    modifies node.repr
    ensures rest.Valid() && removed.Valid() && rest.repr !! removed.repr
    ensures rest.repr + removed.repr <= old(node.repr)
    ensures Cut(rest.model, removed.model) == AvlModel.RemoveLeftmost(old(node.model))
    decreases node.model, 0
  {
    node.Unfold();
    var left;
    left, removed := RemoveLeftmost(node.left);
    rest := RebalanceLeftBeside(node, left, removed);
  }

  method RemoveRightmost<K>(node: AvlNode<K>) returns (rest: AvlNode?<K>, removed: AvlNode<K>)
    requires node.Valid() && HeightsOk(node.model)
    modifies node.repr
    ensures ValidRef(rest) && removed.Valid() && ReprOf(rest) !! removed.repr
    ensures ReprOf(rest) + removed.repr <= old(node.repr)
    ensures Cut(ModelOf(rest), removed.model) == AvlModel.RemoveRightmost(old(node.model))
    decreases node.model, 1
  {
    node.Unfold();
    if node.right == null {
      rest := node.TakeLeft();
      removed := node;
    } else {
      rest, removed := RemoveRightmostBelow(node);
    }
  }

  /** The branch of `RemoveRightmost` for a node with a right subtree. */
  method RemoveRightmostBelow<K>(node: AvlNode<K>) returns (rest: AvlNode<K>, removed: AvlNode<K>)
    requires node.Valid() && HeightsOk(node.model) && node.right != null
    modifies node.repr
    ensures rest.Valid() && removed.Valid() && rest.repr !! removed.repr
    ensures rest.repr + removed.repr <= old(node.repr)
    ensures Cut(rest.model, removed.model) == AvlModel.RemoveRightmost(old(node.model))
    decreases node.model, 0
  {
    node.Unfold();
    var right;
    right, removed := RemoveRightmost(node.right);
    rest := RebalanceRightBeside(node, right, removed);
  }

  /** Stands `top` over the two subtrees, as the replacement for a removed root. */
  method PutOver<K>(top: AvlNode<K>, left: AvlNode?<K>, right: AvlNode?<K>)
    requires ValidRef(left) && ValidRef(right) && ReprOf(left) !! ReprOf(right)
    requires top !in ReprOf(left) && top !in ReprOf(right)
    modifies top`left, top`right, top`repr, top`model
    ensures top.Valid() && top.repr == {top} + ReprOf(left) + ReprOf(right)
    ensures top.left == left && top.right == right
    ensures top.model == top.RawOver(ModelOf(left), ModelOf(right))
  {
    top.right := right;
    top.left := left;
    top.Relink();
  }

  /** The least node of the right subtree, stood over what is left of both. */
  method SuccessorOver<K>(left: AvlNode?<K>, right: AvlNode<K>) returns (leftmost: AvlNode<K>)
    requires ValidRef(left) && right.Valid() && ReprOf(left) !! right.repr && HeightsOk(right.model)
    modifies right.repr
    ensures leftmost.Valid() && leftmost.repr <= ReprOf(left) + old(right.repr)
    ensures old(right.model.Node?)
    ensures var c := AvlModel.RemoveLeftmost(old(right.model));
      leftmost.model == c.removed.(right := c.rest, left := ModelOf(left))
  {
    right.Unfold();
    var rest;
    rest, leftmost := RemoveLeftmost(right);
    leftmost.Unfold();
    PutOver(leftmost, left, rest);
  }

  /** The greatest node of the left subtree, stood over what is left of both. */
  method PredecessorOver<K>(left: AvlNode<K>, right: AvlNode?<K>) returns (rightmost: AvlNode<K>)
    requires left.Valid() && ValidRef(right) && left.repr !! ReprOf(right) && HeightsOk(left.model)
    modifies left.repr
    ensures rightmost.Valid() && rightmost.repr <= old(left.repr) + ReprOf(right)
    ensures old(left.model.Node?)
    ensures var c := AvlModel.RemoveRightmost(old(left.model));
      rightmost.model == c.removed.(right := ModelOf(right), left := c.rest)
  {
    left.Unfold();
    var rest;
    rest, rightmost := RemoveRightmost(left);
    rightmost.Unfold();
    PutOver(rightmost, rest, right);
  }

  /** Finds the node to stand in the removed root's place and empties the root of its children. */
  method TakeSubstitute<K>(node: AvlNode<K>) returns (substitute: AvlNode?<K>)
    requires node.Valid() && HeightsOk(node.model)
    modifies node.repr
    ensures ValidRef(substitute) && ModelOf(substitute) == Substitute(old(node.model))
    ensures node.Valid() && node.model == old(node.model).(left := Empty, right := Empty)
    ensures ReprOf(substitute) !! node.repr && ReprOf(substitute) + node.repr <= old(node.repr)
  {
    node.Unfold();
    if node.right == null {
      substitute := node.TakeLeft();
    } else if node.left == null {
      substitute := node.TakeRight();
    } else {
      substitute := TakeNeighbor(node);
    }
  }

  /** Takes both subtrees off the node. */
  method TakeBoth<K>(node: AvlNode<K>) returns (left: AvlNode?<K>, right: AvlNode?<K>)
    requires node.Valid()
    modifies node
    ensures node.Valid() && node.repr == {node}
    ensures old(node.model.Node?) && node.model == old(node.model).(left := Empty, right := Empty)
    ensures left == old(node.left) && right == old(node.right)
    ensures ValidRef(left) && ModelOf(left) == old(node.model).left
    ensures ValidRef(right) && ModelOf(right) == old(node.model).right
    ensures node !in ReprOf(left) + ReprOf(right) && ReprOf(left) !! ReprOf(right)
    ensures ReprOf(left) + ReprOf(right) <= old(node.repr)
  {
    node.Unfold();
    right := node.TakeRight();
    left := node.TakeLeft();
  }

  /** The branches of `TakeSubstitute` for a root with two children. */
  method TakeNeighbor<K>(node: AvlNode<K>) returns (substitute: AvlNode<K>)
    requires node.Valid() && HeightsOk(node.model) && node.left != null && node.right != null
    modifies node.repr
    ensures substitute.Valid() && substitute.model == Substitute(old(node.model))
    ensures node.Valid() && node.model == old(node.model).(left := Empty, right := Empty)
    ensures substitute.repr !! node.repr && substitute.repr + node.repr <= old(node.repr)
  {
    node.Unfold();
    var balanceFactor := node.BalanceFactor();
    var left, right := TakeBoth(node);
    if balanceFactor <= 0 {
      substitute := SuccessorOver(left, right);
    } else {
      substitute := PredecessorOver(left, right);
    }
  }

  method RemoveRoot<K>(node: AvlNode<K>) returns (rest: AvlNode?<K>, removed: AvlNode<K>)
    requires node.Valid() && HeightsOk(node.model)
    modifies node.repr
    ensures ValidRef(rest) && removed.Valid() && ReprOf(rest) !! removed.repr
    ensures ReprOf(rest) + removed.repr <= old(node.repr)
    ensures Cut(ModelOf(rest), removed.model) == AvlModel.RemoveRoot(old(node.model))
  {
    removed := node;
    rest := TakeSubstitute(node);
    if rest != null {
      rest := RebalanceNode(rest);
    }
  }

  method RemoveRec<K>(ko: KeyOps<K>, node: AvlNode?<K>, key: K)
    returns (rest: AvlNode?<K>, removed: AvlNode?<K>)
    requires ValidRef(node) && HeightsOk(ModelOf(node))
    modifies ReprOf(node)
    ensures ValidRef(rest) && ValidRef(removed) && ReprOf(rest) !! ReprOf(removed)
    ensures ReprOf(rest) + ReprOf(removed) <= old(ReprOf(node))
    ensures Cut(ModelOf(rest), ModelOf(removed)) == Remove(ko, old(ModelOf(node)), key)
    decreases ModelOf(node), 1
  {
    if node == null {
      return null, null;
    }
    node.Unfold();
    if ko.less(key, node.key) {
      rest, removed := RemoveOnLeft(ko, node, key);
    } else if ko.less(node.key, key) {
      rest, removed := RemoveOnRight(ko, node, key);
    } else {
      rest, removed := RemoveRoot(node);
      if rest != null {
        rest := RebalanceNode(rest);
      }
    }
  }

  /** Puts the left subtree back after a removal, and rebalances the node if that cut a node out,
      which stays as it is. */
  method SettleLeft<K>(node: AvlNode<K>, child: AvlNode?<K>, cut: AvlNode?<K>) returns (r: AvlNode<K>)
    requires ValidRef(cut) && node !in ReprOf(cut) && ReprOf(cut) !! ReprOf(child) && ReprOf(cut) !! ReprOf(node.right)
    requires ValidRef(child) && ValidRef(node.right) && node !in ReprOf(child) && node !in ReprOf(node.right)
    requires ReprOf(child) !! ReprOf(node.right)
    requires HeightsOk(ModelOf(child)) && HeightsOk(ModelOf(node.right))
    modifies node, ReprOf(child), ReprOf(node.right)
    ensures r.Valid() && r.repr <= {node} + old(ReprOf(child)) + old(ReprOf(node.right))
    ensures var raw := old(node.RawOver(ModelOf(child), ModelOf(node.right)));
      r.model == if cut != null then Rebalance(raw) else raw
    ensures ValidRef(cut) && ReprOf(cut) == old(ReprOf(cut)) && ModelOf(cut) == old(ModelOf(cut)) && r.repr !! ReprOf(cut)
  {
    if cut != null {
      r := RebalanceLeft(node, child);
    } else {
      PutOver(node, child, node.right);
      r := node;
    }
  }

  method SettleRight<K>(node: AvlNode<K>, child: AvlNode?<K>, cut: AvlNode?<K>) returns (r: AvlNode<K>)
    requires ValidRef(cut) && node !in ReprOf(cut) && ReprOf(cut) !! ReprOf(child) && ReprOf(cut) !! ReprOf(node.left)
    requires ValidRef(node.left) && ValidRef(child) && node !in ReprOf(node.left) && node !in ReprOf(child)
    requires ReprOf(node.left) !! ReprOf(child)
    requires HeightsOk(ModelOf(node.left)) && HeightsOk(ModelOf(child))
    modifies node, ReprOf(node.left), ReprOf(child)
    ensures r.Valid() && r.repr <= {node} + old(ReprOf(node.left)) + old(ReprOf(child))
    ensures var raw := old(node.RawOver(ModelOf(node.left), ModelOf(child)));
      r.model == if cut != null then Rebalance(raw) else raw
    ensures ValidRef(cut) && ReprOf(cut) == old(ReprOf(cut)) && ModelOf(cut) == old(ModelOf(cut)) && r.repr !! ReprOf(cut)
  {
    if cut != null {
      r := RebalanceRight(node, child);
    } else {
      PutOver(node, node.left, child);
      r := node;
    }
  }

  /** The branch of `RemoveRec` for a key below the node's. */
  method RemoveOnLeft<K>(ko: KeyOps<K>, node: AvlNode<K>, key: K)
    returns (rest: AvlNode<K>, removed: AvlNode?<K>)
    requires node.Valid() && HeightsOk(node.model) && ko.less(key, node.key)
    modifies node.repr
    ensures rest.Valid() && ValidRef(removed) && rest.repr !! ReprOf(removed)
    ensures rest.repr + ReprOf(removed) <= old(node.repr)
    ensures Cut(rest.model, ModelOf(removed)) == Remove(ko, old(node.model), key)
    decreases node.model, 0
  {
    node.Unfold();
    var left;
    left, removed := RemoveRec(ko, node.left, key);
    rest := SettleLeft(node, left, removed);
  }

  /** The branch of `RemoveRec` for a key above the node's. */
  method RemoveOnRight<K>(ko: KeyOps<K>, node: AvlNode<K>, key: K)
    returns (rest: AvlNode<K>, removed: AvlNode?<K>)
    requires node.Valid() && HeightsOk(node.model) && !ko.less(key, node.key) && ko.less(node.key, key)
    modifies node.repr
    ensures rest.Valid() && ValidRef(removed) && rest.repr !! ReprOf(removed)
    ensures rest.repr + ReprOf(removed) <= old(node.repr)
    ensures Cut(rest.model, ModelOf(removed)) == Remove(ko, old(node.model), key)
    decreases node.model, 0
  {
    node.Unfold();
    var right;
    right, removed := RemoveRec(ko, node.right, key);
    rest := SettleRight(node, right, removed);
  }

  // ---------- reading ----------

  /** Collects the keys in order at the end of `keys`. */
  method GetKeysRec<K>(node: AvlNode?<K>, keys: seq<K>) returns (r: seq<K>)
    requires ValidRef(node)
    ensures r == keys + Keys(ModelOf(node))
    decreases ModelOf(node)
  {
    r := keys;
    if node != null {
      node.Unfold();
      r := GetKeysRec(node.left, r);
      r := r + [node.key];
      r := GetKeysRec(node.right, r);
    }
  }

  method GetLocalExistenceProof<K>(ko: KeyOps<K>, node: AvlNode<K>) returns (p: ExistenceProof)
    requires node.Valid() && node.model.Node?
    ensures p == AvlProofs.LocalExistenceProof(ko, node.model)
  {
    node.Unfold();
    p := ExistenceProof(ko.bytes(node.key), node.value, AvlProofs.LEAF_OP,
                        [InnerOp(Sha256Op, node.LeftHash(), node.RightHash())]);
  }

  /** Builds the proof on the way back up from the search, pushing one step per node. */
  method GetProofRec<K>(ko: KeyOps<K>, node: AvlNode?<K>, key: K) returns (proof: Proof)
    requires ValidRef(node)
    ensures proof == AvlProofs.GetProof(ko, ModelOf(node), key)
    decreases ModelOf(node)
  {
    if node == null {
      return Nonexist(NonExistenceProof(ko.bytes(key), None, None));
    }
    node.Unfold();
    if ko.less(key, node.key) {
      var inner := InnerOp(Sha256Op, [], node.hash + node.RightHash());
      proof := GetProofRec(ko, node.left, key);
      match proof {
        case Exist(p) =>
          proof := Exist(p.(path := p.path + [inner]));
        case Nonexist(p) =>
          var left, right := p.left, p.right;
          if right.Some? {
            right := Some(right.value.(path := right.value.path + [inner]));
          }
          if left.Some? {
            left := Some(left.value.(path := left.value.path + [inner]));
          }
          if right.None? {
            var found := GetLocalExistenceProof(ko, node);
            right := Some(found);
          }
          proof := Nonexist(NonExistenceProof(p.key, left, right));
      }
    } else if ko.less(node.key, key) {
      var inner := InnerOp(Sha256Op, node.LeftHash() + node.hash, []);
      proof := GetProofRec(ko, node.right, key);
      match proof {
        case Exist(p) =>
          proof := Exist(p.(path := p.path + [inner]));
        case Nonexist(p) =>
          var left, right := p.left, p.right;
          if right.Some? {
            right := Some(right.value.(path := right.value.path + [inner]));
          }
          if left.Some? {
            left := Some(left.value.(path := left.value.path + [inner]));
          }
          if left.None? {
            var found := GetLocalExistenceProof(ko, node);
            left := Some(found);
          }
          proof := Nonexist(NonExistenceProof(p.key, left, right));
      }
    } else {
      var found := GetLocalExistenceProof(ko, node);
      proof := Exist(found);
    }
  }

  /** A copy that shares no node with the original. */
  method CloneRec<K>(node: AvlNode?<K>) returns (r: AvlNode?<K>)
    requires ValidRef(node)
    ensures ValidRef(r) && ModelOf(r) == ModelOf(node) && fresh(ReprOf(r))
    decreases ModelOf(node)
  {
    if node == null {
      return null;
    }
    node.Unfold();
    var left := CloneRec(node.left);
    var right := CloneRec(node.right);
    r := new AvlNode.Copy(node, left, right);
  }

  // ---------- the tree ----------

  class AvlTree<K(!new)> {
    const ko: KeyOps<K>
    var root: AvlNode?<K>

    ghost predicate Valid()
      reads this, root, ReprOf(root)
    {
      TotalOrder(ko) && ValidRef(root) && WellFormed(ko, ModelOf(root))
    }

    /** The tree as a value. */
    ghost function Model(): Tree<K>
      reads this, root
    {
      ModelOf(root)
    }

    constructor (ko: KeyOps<K>)
      requires TotalOrder(ko)
      ensures Valid() && Model() == Empty && this.ko == ko
    {
      this.ko, root := ko, null;
    }

    function RootHash(): (r: Option<Digest>)
      reads this, root, ReprOf(root)
      requires Valid()
      ensures r == if Model().Empty? then None else Some(Model().merkleHash)
    {
      if root == null then None else Some(root.merkleHash)
    }

    /** Also counts the nodes the search visits. */
    method Get(key: K) returns (r: Option<Bytes>, ghost steps: nat)
      requires Valid()
      ensures r == Lookup(Contents(Model()), key)
      ensures steps == GetSteps(ko, Model(), key)
    {
      GetIsLookup(ko, Model(), key, None, None);
      var node := root;
      steps := 0;
      while node != null
        invariant ValidRef(node) && AvlModel.Get(ko, ModelOf(node), key) == AvlModel.Get(ko, Model(), key)
        invariant steps + GetSteps(ko, ModelOf(node), key) == GetSteps(ko, Model(), key)
        decreases ModelOf(node)
      {
        node.Unfold();
        steps := steps + 1;
        if ko.less(key, node.key) {
          node := node.left;
        } else if ko.less(node.key, key) {
          node := node.right;
        } else {
          return Some(node.value), steps;
        }
      }
      r := None;
    }

    method Insert(key: K, value: Bytes) returns (previous: Option<Bytes>)
      requires Valid()
      modifies this, ReprOf(root)
      ensures Valid() && fresh(ReprOf(root) - old(ReprOf(root)))
      ensures Model() == AvlModel.Insert(ko, old(Model()), key, value)
      ensures Contents(Model()) == old(Contents(Model()))[key := value]
      ensures previous == old(Lookup(Contents(Model()), key))
    {
      InsertCorrect(ko, Model(), key, value);
      root, previous := InsertRec(ko, root, key, value);
    }

    method Remove(key: K) returns (previous: Option<Bytes>)
      requires Valid()
      modifies this, ReprOf(root)
      ensures Valid() && ReprOf(root) <= old(ReprOf(root))
      ensures Model() == AvlModel.Remove(ko, old(Model()), key).rest
      ensures Contents(Model()) == old(Contents(Model())) - {key}
      ensures previous == old(Lookup(Contents(Model()), key))
    {
      RemoveCorrect(ko, Model(), key);
      var rest, removed := RemoveRec(ko, root, key);
      root := rest;
      previous := None;
      if removed != null {
        removed.Unfold();
        previous := Some(removed.value);
      }
    }

    method GetKeys() returns (keys: seq<K>)
      requires Valid()
      ensures keys == Keys(Model()) && Increasing(ko, keys)
      ensures forall k :: k in keys <==> k in Contents(Model())
    {
      KeysAreSortedDomain(ko, Model(), None, None);
      keys := GetKeysRec(root, []);
    }

    method GetProof(key: K) returns (proof: Proof)
      requires Valid()
      ensures proof == AvlProofs.GetProof(ko, Model(), key)
    {
      proof := GetProofRec(ko, root, key);
    }

    method Clone() returns (t: AvlTree<K>)
      requires Valid()
      ensures t.Valid() && t.ko == ko && t.Model() == Model() && fresh(t) && fresh(ReprOf(t.root))
    {
      t := new AvlTree(ko);
      var copy := CloneRec(root);
      t.root := copy;
    }
  }
}
