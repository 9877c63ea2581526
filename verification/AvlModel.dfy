/**
 The AVL Merkle tree as a value. `Node` has the six fields of the source's node, caches
 included, so a `Tree` can be stale, unbalanced or unordered, exactly as the source's
 structure can be part-way through an operation.
 */
module AvlModel {
  import opened Bytes

  /** What the tree asks of its key type: a comparison and a byte rendering. */
  datatype KeyOps<!K> = KeyOps(less: (K, K) -> bool, bytes: K -> Bytes)

  ghost predicate TotalOrder<K(!new)>(ko: KeyOps<K>) {
    && (forall a :: !ko.less(a, a))
    && (forall a, b, c :: ko.less(a, b) && ko.less(b, c) ==> ko.less(a, c))
    && (forall a, b :: ko.less(a, b) || ko.less(b, a) || a == b)
  }

  datatype Option<+T> = None | Some(value: T)

  datatype Tree<K> =
    | Empty
    | Node(key: K, value: Bytes, hash: Digest, merkleHash: Digest, height: nat,
           left: Tree<K>, right: Tree<K>)

  // ---------- node metadata ----------

  /** The cached height of a child; a missing child counts as 0, like a leaf. */
  function HeightOf<K>(t: Tree<K>): nat {
    if t.Empty? then 0 else t.height
  }

  function ChildHash<K>(t: Tree<K>): Digest {
    if t.Empty? then EMPTY_CHILD else t.merkleHash
  }

  function LocalHash<K>(ko: KeyOps<K>, key: K, value: Bytes): Digest {
    Sha256(LEAF_PREFIX + ko.bytes(key) + value)
  }

  function MerkleHash(left: Digest, local: Digest, right: Digest): Digest {
    Sha256(left + local + right)
  }

  function Max(a: nat, b: nat): nat {
    if a < b then b else a
  }

  function HeightAbove<K>(left: Tree<K>, right: Tree<K>): nat {
    if left.Empty? && right.Empty? then 0 else Max(HeightOf(left), HeightOf(right)) + 1
  }

  predicate Childless<K>(t: Tree<K>) {
    t.Node? && t.left.Empty? && t.right.Empty?
  }

  function BalanceFactor<K>(t: Tree<K>): int
    requires t.Node?
  {
    HeightOf(t.left) - HeightOf(t.right)
  }

  function NewNode<K>(ko: KeyOps<K>, key: K, value: Bytes): Tree<K> {
    var hash := LocalHash(ko, key, value);
    Node(key, value, hash, MerkleHash(EMPTY_CHILD, hash, EMPTY_CHILD), 0, Empty, Empty)
  }

  function SetValue<K>(ko: KeyOps<K>, t: Tree<K>, value: Bytes): Tree<K>
    requires t.Node?
  {
    t.(value := value, hash := LocalHash(ko, t.key, value))
  }

  function Update<K>(t: Tree<K>): Tree<K>
    requires t.Node?
  {
    t.(merkleHash := MerkleHash(ChildHash(t.left), t.hash, ChildHash(t.right)),
       height := HeightAbove(t.left, t.right))
  }

  /** Every cached height is the one its subtrees call for. */
  ghost predicate HeightsOk<K>(t: Tree<K>) {
    t.Node? ==>
      t.height == HeightAbove(t.left, t.right) && HeightsOk(t.left) && HeightsOk(t.right)
  }

  // ---------- rotations ----------

  function RotateRight<K>(t: Tree<K>): (r: Tree<K>)
    requires t.Node? && t.left.Node?
    ensures r.Node? && (HeightsOk(t.left) && HeightsOk(t.right) ==> HeightsOk(r))
  {
    var node := Update(t.(left := t.left.right));
    Update(t.left.(right := node))
  }

  function RotateLeft<K>(t: Tree<K>): (r: Tree<K>)
    requires t.Node? && t.right.Node?
    ensures r.Node? && (HeightsOk(t.left) && HeightsOk(t.right) ==> HeightsOk(r))
  {
    var node := Update(t.(right := t.right.left));
    Update(t.right.(left := node))
  }

  /** The children the rotations in `BalanceNode` unwrap are there. */
  predicate CanBalance<K>(t: Tree<K>) {
    && t.Node?
    && (BalanceFactor(t) >= 2 ==>
          t.left.Node? && (BalanceFactor(t.left) < 1 ==> t.left.right.Node?))
    && (BalanceFactor(t) <= -2 ==>
          t.right.Node? && (BalanceFactor(t.right) > -1 ==> t.right.left.Node?))
  }

  function BalanceNode<K>(t: Tree<K>): (r: Tree<K>)
    requires CanBalance(t)
    ensures r.Node? && (HeightsOk(t) ==> HeightsOk(r))
  {
    if BalanceFactor(t) >= 2 then
      if BalanceFactor(t.left) < 1 then
        assert HeightsOk(t) ==> HeightsOk(t.left) && HeightsOk(RotateLeft(t.left));
        RotateRight(t.(left := RotateLeft(t.left)))
      else RotateRight(t)
    else if BalanceFactor(t) <= -2 then
      if BalanceFactor(t.right) > -1 then
        assert HeightsOk(t) ==> HeightsOk(t.right) && HeightsOk(RotateRight(t.right));
        RotateLeft(t.(right := RotateRight(t.right)))
      else RotateLeft(t)
    else t
  }

  /** `update` followed by `balance_node`, the step every mutation ends with. */
  function Rebalance<K>(t: Tree<K>): (r: Tree<K>)
    requires t.Node? && HeightsOk(t.left) && HeightsOk(t.right)
    ensures CanBalance(Update(t))
    ensures r.Node? && HeightsOk(r)
  {
    assert HeightsOk(Update(t));
    BalanceNode(Update(t))
  }

  // ---------- lookup and update ----------

  function Get<K>(ko: KeyOps<K>, t: Tree<K>, key: K): Option<Bytes> {
    if t.Empty? then None
    else if ko.less(key, t.key) then Get(ko, t.left, key)
    else if ko.less(t.key, key) then Get(ko, t.right, key)
    else Some(t.value)
  }

  function Insert<K>(ko: KeyOps<K>, t: Tree<K>, key: K, value: Bytes): (r: Tree<K>)
    requires HeightsOk(t)
    ensures r.Node? && HeightsOk(r)
  {
    if t.Empty? then NewNode(ko, key, value)
    else if ko.less(key, t.key) then Rebalance(t.(left := Insert(ko, t.left, key, value)))
    else if ko.less(t.key, key) then Rebalance(t.(right := Insert(ko, t.right, key, value)))
    else Rebalance(SetValue(ko, t, value))
  }

  /** What a removal leaves behind, and the node it cut out (`Empty` if there was none). */
  datatype Cut<K> = Cut(rest: Tree<K>, removed: Tree<K>)

  function RemoveLeftmost<K>(t: Tree<K>): (r: Cut<K>)
    requires t.Node? && HeightsOk(t)
    ensures HeightsOk(r.rest) && r.removed.Node?
  {
    if t.left.Empty? then Cut(t.right, t.(right := Empty))
    else
      var c := RemoveLeftmost(t.left);
      Cut(Rebalance(t.(left := c.rest)), c.removed)
  }

  function RemoveRightmost<K>(t: Tree<K>): (r: Cut<K>)
    requires t.Node? && HeightsOk(t)
    ensures HeightsOk(r.rest) && r.removed.Node?
  {
    if t.right.Empty? then Cut(t.left, t.(left := Empty))
    else
      var c := RemoveRightmost(t.right);
      Cut(Rebalance(t.(right := c.rest)), c.removed)
  }

  /** The tree that takes the root's place, before its caches are brought up to date. */
  function Substitute<K>(t: Tree<K>): (r: Tree<K>)
    requires t.Node? && HeightsOk(t)
    ensures r.Node? ==> HeightsOk(r.left) && HeightsOk(r.right)
  {
    if t.right.Empty? then assert HeightsOk(t.left); t.left
    else if t.left.Empty? then assert HeightsOk(t.right); t.right
    else if BalanceFactor(t) <= 0 then
      var c := RemoveLeftmost(t.right);
      c.removed.(left := t.left, right := c.rest)
    else
      var c := RemoveRightmost(t.left);
      c.removed.(left := c.rest, right := t.right)
  }

  function RemoveRoot<K>(t: Tree<K>): (r: Cut<K>)
    requires t.Node? && HeightsOk(t)
    ensures HeightsOk(r.rest) && r.removed.Node?
  {
    var s := Substitute(t);
    Cut(if s.Node? then Rebalance(s) else Empty, t.(left := Empty, right := Empty))
  }

  function Remove<K>(ko: KeyOps<K>, t: Tree<K>, key: K): (r: Cut<K>)
    requires HeightsOk(t)
    ensures HeightsOk(r.rest)
    ensures r.removed.Empty? ==> r.rest == t
  {
    if t.Empty? then Cut(Empty, Empty)
    else if ko.less(key, t.key) then
      var c := Remove(ko, t.left, key);
      Cut(if c.removed.Node? then Rebalance(t.(left := c.rest)) else t.(left := c.rest), c.removed)
    else if ko.less(t.key, key) then
      var c := Remove(ko, t.right, key);
      Cut(if c.removed.Node? then Rebalance(t.(right := c.rest)) else t.(right := c.rest), c.removed)
    else
      // `remove_root` has rebalanced already; `remove_rec` does it once more.
      var c := RemoveRoot(t);
      Cut(if c.rest.Node? then Rebalance(c.rest) else c.rest, c.removed)
  }

  function Keys<K>(t: Tree<K>): seq<K> {
    if t.Empty? then [] else Keys(t.left) + [t.key] + Keys(t.right)
  }
}
