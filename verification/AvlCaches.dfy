/**
 Cache coherence: the height, local hash and Merkle hash stored at every node are the ones its
 key, value and subtrees call for, after every operation, although nodes are stale part-way.
 */
module AvlCaches {
  import opened Bytes
  import opened AvlModel
  import opened AvlOrder

  /** The node's own key-value hash is fresh; its Merkle hash and height may be stale. */
  ghost predicate LocalHashOk<K>(ko: KeyOps<K>, t: Tree<K>) {
    t.Node? ==> t.hash == LocalHash(ko, t.key, t.value)
  }

  ghost predicate HashesOk<K>(ko: KeyOps<K>, t: Tree<K>) {
    t.Node? ==>
      && LocalHashOk(ko, t)
      && t.merkleHash == MerkleHash(ChildHash(t.left), t.hash, ChildHash(t.right))
      && HashesOk(ko, t.left)
      && HashesOk(ko, t.right)
  }

  /** The same keys, values and shape with every cache computed afresh, bottom-up. */
  ghost function Recomputed<K>(ko: KeyOps<K>, t: Tree<K>): Tree<K> {
    if t.Empty? then Empty
    else
      Update(Node(t.key, t.value, LocalHash(ko, t.key, t.value), t.merkleHash, t.height,
                  Recomputed(ko, t.left), Recomputed(ko, t.right)))
  }

  /** Coherent caches are exactly the recomputed ones. */
  lemma {:induction false} CoherentIffRecomputed<K>(ko: KeyOps<K>, t: Tree<K>)
    ensures HeightsOk(t) && HashesOk(ko, t) <==> t == Recomputed(ko, t)
  {
    if t.Node? {
      CoherentIffRecomputed(ko, t.left);
      CoherentIffRecomputed(ko, t.right);
    }
  }

  lemma RotateRightHashes<K>(ko: KeyOps<K>, t: Tree<K>)
    requires t.Node? && t.left.Node? && LocalHashOk(ko, t) && HashesOk(ko, t.left) && HashesOk(ko, t.right)
    ensures HashesOk(ko, RotateRight(t))
  {
    assert HashesOk(ko, RotateRight(t).right);
  }

  lemma RotateLeftHashes<K>(ko: KeyOps<K>, t: Tree<K>)
    requires t.Node? && t.right.Node? && LocalHashOk(ko, t) && HashesOk(ko, t.left) && HashesOk(ko, t.right)
    ensures HashesOk(ko, RotateLeft(t))
  {
    assert HashesOk(ko, RotateLeft(t).left);
  }

  /** One rebalancing step refreshes a stale node over fresh subtrees. */
  lemma RebalanceHashes<K>(ko: KeyOps<K>, t: Tree<K>)
    requires t.Node? && HeightsOk(t.left) && HeightsOk(t.right)
    requires LocalHashOk(ko, t) && HashesOk(ko, t.left) && HashesOk(ko, t.right)
    ensures HashesOk(ko, Rebalance(t))
  {
    var u := Update(t);
    if BalanceFactor(u) >= 2 {
      if BalanceFactor(u.left) < 1 {
        RotateLeftHashes(ko, u.left);
        RotateRightHashes(ko, u.(left := RotateLeft(u.left)));
      } else {
        RotateRightHashes(ko, u);
      }
    } else if BalanceFactor(u) <= -2 {
      if BalanceFactor(u.right) > -1 {
        RotateRightHashes(ko, u.right);
        RotateLeftHashes(ko, u.(right := RotateRight(u.right)));
      } else {
        RotateLeftHashes(ko, u);
      }
    }
  }

  lemma {:induction false} InsertHashes<K>(ko: KeyOps<K>, t: Tree<K>, key: K, value: Bytes)
    requires HeightsOk(t) && HashesOk(ko, t)
    ensures HashesOk(ko, Insert(ko, t, key, value))
  {
    if t.Node? {
      if ko.less(key, t.key) {
        InsertHashes(ko, t.left, key, value);
        RebalanceHashes(ko, t.(left := Insert(ko, t.left, key, value)));
      } else if ko.less(t.key, key) {
        InsertHashes(ko, t.right, key, value);
        RebalanceHashes(ko, t.(right := Insert(ko, t.right, key, value)));
      } else {
        RebalanceHashes(ko, SetValue(ko, t, value));
      }
    }
  }

  lemma {:induction false} RemoveLeftmostHashes<K>(ko: KeyOps<K>, t: Tree<K>)
    requires t.Node? && HeightsOk(t) && HashesOk(ko, t)
    ensures HashesOk(ko, RemoveLeftmost(t).rest) && LocalHashOk(ko, RemoveLeftmost(t).removed)
  {
    if t.left.Node? {
      RemoveLeftmostHashes(ko, t.left);
      RebalanceHashes(ko, t.(left := RemoveLeftmost(t.left).rest));
    }
  }

  lemma {:induction false} RemoveRightmostHashes<K>(ko: KeyOps<K>, t: Tree<K>)
    requires t.Node? && HeightsOk(t) && HashesOk(ko, t)
    ensures HashesOk(ko, RemoveRightmost(t).rest) && LocalHashOk(ko, RemoveRightmost(t).removed)
  {
    if t.right.Node? {
      RemoveRightmostHashes(ko, t.right);
      RebalanceHashes(ko, t.(right := RemoveRightmost(t.right).rest));
    }
  }

  lemma RemoveRootHashes<K>(ko: KeyOps<K>, t: Tree<K>)
    requires t.Node? && HeightsOk(t) && HashesOk(ko, t)
    ensures HashesOk(ko, RemoveRoot(t).rest)
  {
    if t.left.Node? && t.right.Node? {
      if BalanceFactor(t) <= 0 { RemoveLeftmostHashes(ko, t.right); } else { RemoveRightmostHashes(ko, t.left); }
    }
    var s := Substitute(t);
    if s.Node? { RebalanceHashes(ko, s); }
  }

  lemma {:induction false} RemoveHashes<K>(ko: KeyOps<K>, t: Tree<K>, key: K)
    requires HeightsOk(t) && HashesOk(ko, t)
    ensures HashesOk(ko, Remove(ko, t, key).rest)
  {
    if t.Node? {
      if ko.less(key, t.key) {
        RemoveHashes(ko, t.left, key);
        RebalanceHashes(ko, t.(left := Remove(ko, t.left, key).rest));
      } else if ko.less(t.key, key) {
        RemoveHashes(ko, t.right, key);
        RebalanceHashes(ko, t.(right := Remove(ko, t.right, key).rest));
      } else {
        RemoveRootHashes(ko, t);
        var u := RemoveRoot(t).rest;
        if u.Node? { RebalanceHashes(ko, u); }
      }
    }
  }

  // ---------- the invariant of every reachable tree ----------

  /** Coherent caches and search-tree order: what every tree reached from the empty one has. */
  ghost predicate WellFormed<K>(ko: KeyOps<K>, t: Tree<K>) {
    HeightsOk(t) && HashesOk(ko, t) && Ordered(ko, t)
  }

  lemma NewNodeWellFormed<K>(ko: KeyOps<K>, key: K, value: Bytes)
    ensures WellFormed(ko, NewNode(ko, key, value))
  {
    assert OrderedIn(ko, Empty, None, Some(key)) && OrderedIn(ko, Empty, Some(key), None);
  }

  /** `insert` on a reachable tree gives a reachable tree holding one more binding, with every
      cache as if computed afresh. */
  lemma InsertCorrect<K(!new)>(ko: KeyOps<K>, t: Tree<K>, key: K, value: Bytes)
    requires TotalOrder(ko) && WellFormed(ko, t)
    ensures var r := Insert(ko, t, key, value);
      WellFormed(ko, r) && r == Recomputed(ko, r) && Contents(r) == Contents(t)[key := value]
    ensures Get(ko, t, key) == Lookup(Contents(t), key)
  {
    InsertIsMapUpdate(ko, t, key, value, None, None);
    InsertHashes(ko, t, key, value);
    CoherentIffRecomputed(ko, Insert(ko, t, key, value));
    GetIsLookup(ko, t, key, None, None);
  }

  /** `remove` on a reachable tree gives a reachable tree without the key, with every cache as
      if computed afresh, and returns the value the map held. */
  lemma RemoveCorrect<K(!new)>(ko: KeyOps<K>, t: Tree<K>, key: K)
    requires TotalOrder(ko) && WellFormed(ko, t)
    ensures var c := Remove(ko, t, key);
      && WellFormed(ko, c.rest) && c.rest == Recomputed(ko, c.rest)
      && Contents(c.rest) == Contents(t) - {key}
      && (if c.removed.Node? then Some(c.removed.value) else None) == Lookup(Contents(t), key)
  {
    RemoveIsMapDelete(ko, t, key, None, None);
    RemoveHashes(ko, t, key);
    CoherentIffRecomputed(ko, Remove(ko, t, key).rest);
  }

  // ---------- every run ----------

  datatype TreeOp<K> = InsertOp(key: K, value: Bytes) | RemoveOp(key: K)

  /** The tree after the operations, from the empty one, and what the last of them returned. No
      step of it can fail to find a node its rotations need. */
  ghost function RunTree<K>(ko: KeyOps<K>, ops: seq<TreeOp<K>>): (r: (Tree<K>, Option<Bytes>))
    ensures HeightsOk(r.0)
  {
    if ops == [] then (Empty, None)
    else
      var t := RunTree(ko, ops[..|ops| - 1]).0;
      match ops[|ops| - 1]
      case InsertOp(key, value) => (Insert(ko, t, key, value), Get(ko, t, key))
      case RemoveOp(key) =>
        var c := Remove(ko, t, key);
        (c.rest, if c.removed.Node? then Some(c.removed.value) else None)
  }

  ghost function RunMap<K>(ops: seq<TreeOp<K>>): (r: (map<K, Bytes>, Option<Bytes>)) {
    if ops == [] then (map[], None)
    else
      var m := RunMap(ops[..|ops| - 1]).0;
      var key := ops[|ops| - 1].key;
      (if ops[|ops| - 1].InsertOp? then m[key := ops[|ops| - 1].value] else m - {key}, Lookup(m, key))
  }

  /** Over every run of insertions and removals the tree is a finite map: same contents, same
      values returned, same answers to lookups, with every cache as if computed afresh. */
  lemma {:induction false} RunIsMap<K(!new)>(ko: KeyOps<K>, ops: seq<TreeOp<K>>, key: K)
    requires TotalOrder(ko)
    ensures var t, m := RunTree(ko, ops), RunMap(ops);
      && WellFormed(ko, t.0) && t.0 == Recomputed(ko, t.0)
      && Contents(t.0) == m.0 && t.1 == m.1
      && Get(ko, t.0, key) == Lookup(m.0, key)
  {
    var t := RunTree(ko, ops).0;
    if ops != [] {
      var before, op := RunTree(ko, ops[..|ops| - 1]).0, ops[|ops| - 1];
      RunIsMap(ko, ops[..|ops| - 1], key);
      match op {
        case InsertOp(k, v) => InsertCorrect(ko, before, k, v);
        case RemoveOp(k) => RemoveCorrect(ko, before, k);
      }
    }
    GetIsLookup(ko, t, key, None, None);
  }
}
