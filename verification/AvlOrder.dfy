/**
 The tree as a map: search-tree order, and what `get`, `insert`, `remove` and `get_keys` mean
 in terms of the finite map the tree stores. Balance plays no part here.
 */
module AvlOrder {
  import opened Bytes
  import opened AvlModel

  /** The key-value pairs of the tree. */
  ghost function Contents<K>(t: Tree<K>): map<K, Bytes> {
    if t.Empty? then map[] else Contents(t.left) + map[t.key := t.value] + Contents(t.right)
  }

  ghost function Lookup<K>(m: map<K, Bytes>, key: K): Option<Bytes> {
    if key in m then Some(m[key]) else None
  }

  ghost predicate Within<K>(ko: KeyOps<K>, key: K, lo: Option<K>, hi: Option<K>) {
    && (lo.Some? ==> ko.less(lo.value, key))
    && (hi.Some? ==> ko.less(key, hi.value))
  }

  /** A search tree all of whose keys lie strictly between the bounds. */
  ghost predicate OrderedIn<K>(ko: KeyOps<K>, t: Tree<K>, lo: Option<K>, hi: Option<K>) {
    t.Node? ==>
      && Within(ko, t.key, lo, hi)
      && OrderedIn(ko, t.left, lo, Some(t.key))
      && OrderedIn(ko, t.right, Some(t.key), hi)
  }

  ghost predicate Ordered<K>(ko: KeyOps<K>, t: Tree<K>) {
    OrderedIn(ko, t, None, None)
  }

  lemma {:induction false} KeysWithin<K(!new)>(ko: KeyOps<K>, t: Tree<K>, lo: Option<K>, hi: Option<K>)
    requires TotalOrder(ko) && OrderedIn(ko, t, lo, hi)
    ensures forall k :: k in Contents(t) ==> Within(ko, k, lo, hi)
  {
    if t.Node? {
      KeysWithin(ko, t.left, lo, Some(t.key));
      KeysWithin(ko, t.right, Some(t.key), hi);
    }
  }

  lemma {:induction false} Widen<K(!new)>(ko: KeyOps<K>, t: Tree<K>, lo: Option<K>, hi: Option<K>, lo': Option<K>, hi': Option<K>)
    requires TotalOrder(ko) && OrderedIn(ko, t, lo, hi)
    requires lo'.Some? ==> lo.Some? && (lo' == lo || ko.less(lo'.value, lo.value))
    requires hi'.Some? ==> hi.Some? && (hi' == hi || ko.less(hi.value, hi'.value))
    ensures OrderedIn(ko, t, lo', hi')
  {
    if t.Node? {
      Widen(ko, t.left, lo, Some(t.key), lo', Some(t.key));
      Widen(ko, t.right, Some(t.key), hi, Some(t.key), hi');
    }
  }

  /** Searching finds exactly what the map holds. */
  lemma {:induction false} GetIsLookup<K(!new)>(ko: KeyOps<K>, t: Tree<K>, key: K, lo: Option<K>, hi: Option<K>)
    requires TotalOrder(ko) && OrderedIn(ko, t, lo, hi)
    ensures Get(ko, t, key) == Lookup(Contents(t), key)
  {
    if t.Node? {
      KeysWithin(ko, t.left, lo, Some(t.key));
      KeysWithin(ko, t.right, Some(t.key), hi);
      GetIsLookup(ko, t.left, key, lo, Some(t.key));
      GetIsLookup(ko, t.right, key, Some(t.key), hi);
    }
  }

  // ---------- rotations move no key ----------

  lemma MergeAssociates<K, V>(a: map<K, V>, x: map<K, V>, b: map<K, V>, y: map<K, V>, c: map<K, V>)
    ensures (a + x + b) + y + c == a + x + (b + y + c)
  {
    var l, r := (a + x + b) + y + c, a + x + (b + y + c);
    assert l.Keys == r.Keys;
  }

  lemma ConcatAssociates<T>(a: seq<T>, x: seq<T>, b: seq<T>, y: seq<T>, c: seq<T>)
    ensures (a + x + b) + y + c == a + x + (b + y + c)
  {
  }

  lemma RotateRightContents<K>(t: Tree<K>)
    requires t.Node? && t.left.Node?
    ensures Contents(RotateRight(t)) == Contents(t)
    ensures Keys(RotateRight(t)) == Keys(t)
  {
    var l := t.left;
    MergeAssociates(Contents(l.left), map[l.key := l.value], Contents(l.right), map[t.key := t.value], Contents(t.right));
    ConcatAssociates(Keys(l.left), [l.key], Keys(l.right), [t.key], Keys(t.right));
  }

  lemma RotateLeftContents<K>(t: Tree<K>)
    requires t.Node? && t.right.Node?
    ensures Contents(RotateLeft(t)) == Contents(t)
    ensures Keys(RotateLeft(t)) == Keys(t)
  {
    var r := t.right;
    MergeAssociates(Contents(t.left), map[t.key := t.value], Contents(r.left), map[r.key := r.value], Contents(r.right));
    ConcatAssociates(Keys(t.left), [t.key], Keys(r.left), [r.key], Keys(r.right));
  }

  lemma RotateRightOrder<K(!new)>(ko: KeyOps<K>, t: Tree<K>, lo: Option<K>, hi: Option<K>)
    requires TotalOrder(ko) && t.Node? && t.left.Node? && OrderedIn(ko, t, lo, hi)
    ensures OrderedIn(ko, RotateRight(t), lo, hi)
  {
    var l := t.left;
    assert OrderedIn(ko, l, lo, Some(t.key));
    assert OrderedIn(ko, RotateRight(t).right, Some(l.key), hi);
  }

  lemma RotateLeftOrder<K(!new)>(ko: KeyOps<K>, t: Tree<K>, lo: Option<K>, hi: Option<K>)
    requires TotalOrder(ko) && t.Node? && t.right.Node? && OrderedIn(ko, t, lo, hi)
    ensures OrderedIn(ko, RotateLeft(t), lo, hi)
  {
    var r := t.right;
    assert OrderedIn(ko, r, Some(t.key), hi);
    assert OrderedIn(ko, RotateLeft(t).left, lo, Some(r.key));
  }

  /** Rebalancing keeps the contents and the in-order key list, ordered or not. */
  lemma RebalanceContents<K>(t: Tree<K>)
    requires t.Node? && HeightsOk(t.left) && HeightsOk(t.right)
    ensures Contents(Rebalance(t)) == Contents(t)
    ensures Keys(Rebalance(t)) == Keys(t)
  {
    var u := Update(t);
    assert Contents(u) == Contents(t) && Keys(u) == Keys(t);
    if BalanceFactor(u) >= 2 {
      if BalanceFactor(u.left) < 1 {
        RotateLeftContents(u.left);
        RotateRightContents(u.(left := RotateLeft(u.left)));
      } else {
        RotateRightContents(u);
      }
    } else if BalanceFactor(u) <= -2 {
      if BalanceFactor(u.right) > -1 {
        RotateRightContents(u.right);
        RotateLeftContents(u.(right := RotateRight(u.right)));
      } else {
        RotateLeftContents(u);
      }
    }
  }

  lemma RebalanceOrder<K(!new)>(ko: KeyOps<K>, t: Tree<K>, lo: Option<K>, hi: Option<K>)
    requires TotalOrder(ko) && t.Node? && HeightsOk(t.left) && HeightsOk(t.right)
    requires OrderedIn(ko, t, lo, hi)
    ensures OrderedIn(ko, Rebalance(t), lo, hi)
  {
    var u := Update(t);
    if BalanceFactor(u) >= 2 {
      if BalanceFactor(u.left) < 1 {
        RotateLeftOrder(ko, u.left, lo, Some(u.key));
        RotateRightOrder(ko, u.(left := RotateLeft(u.left)), lo, hi);
      } else {
        RotateRightOrder(ko, u, lo, hi);
      }
    } else if BalanceFactor(u) <= -2 {
      if BalanceFactor(u.right) > -1 {
        RotateRightOrder(ko, u.right, Some(u.key), hi);
        RotateLeftOrder(ko, u.(right := RotateRight(u.right)), lo, hi);
      } else {
        RotateLeftOrder(ko, u, lo, hi);
      }
    }
  }

  // ---------- insert ----------

  lemma JoinUpdated<K(!new), V>(l: map<K, V>, k: K, v: V, r: map<K, V>, key: K, value: V)
    requires k !in l && k !in r && l.Keys !! r.Keys
    ensures key == k ==> l + map[k := value] + r == (l + map[k := v] + r)[key := value]
    ensures key != k && key !in r ==> l[key := value] + map[k := v] + r == (l + map[k := v] + r)[key := value]
    ensures key != k && key !in l ==> l + map[k := v] + r[key := value] == (l + map[k := v] + r)[key := value]
  {
  }

  /** The keys on the two sides of a node are different from it and from each other. */
  lemma SidesApart<K(!new)>(ko: KeyOps<K>, t: Tree<K>, key: K, lo: Option<K>, hi: Option<K>)
    requires TotalOrder(ko) && t.Node? && OrderedIn(ko, t, lo, hi)
    ensures t.key !in Contents(t.left) && t.key !in Contents(t.right)
    ensures Contents(t.left).Keys !! Contents(t.right).Keys
    ensures ko.less(key, t.key) ==> key !in Contents(t.right)
    ensures ko.less(t.key, key) ==> key !in Contents(t.left)
  {
    KeysWithin(ko, t.left, lo, Some(t.key));
    KeysWithin(ko, t.right, Some(t.key), hi);
  }

  /** `insert` is map update and keeps the order. */
  lemma {:induction false} InsertIsMapUpdate<K(!new)>(ko: KeyOps<K>, t: Tree<K>, key: K, value: Bytes, lo: Option<K>, hi: Option<K>)
    requires TotalOrder(ko) && HeightsOk(t) && OrderedIn(ko, t, lo, hi) && Within(ko, key, lo, hi)
    ensures OrderedIn(ko, Insert(ko, t, key, value), lo, hi)
    ensures Contents(Insert(ko, t, key, value)) == Contents(t)[key := value]
  {
    if t.Node? {
      SidesApart(ko, t, key, lo, hi);
      JoinUpdated(Contents(t.left), t.key, t.value, Contents(t.right), key, value);
      var u: Tree<K>;
      if ko.less(key, t.key) {
        InsertIsMapUpdate(ko, t.left, key, value, lo, Some(t.key));
        u := t.(left := Insert(ko, t.left, key, value));
      } else if ko.less(t.key, key) {
        InsertIsMapUpdate(ko, t.right, key, value, Some(t.key), hi);
        u := t.(right := Insert(ko, t.right, key, value));
      } else {
        u := SetValue(ko, t, value);
      }
      RebalanceContents(u);
      RebalanceOrder(ko, u, lo, hi);
    }
  }

  // ---------- remove ----------

  lemma JoinRemoved<K(!new), V>(l: map<K, V>, k: K, v: V, r: map<K, V>, key: K)
    requires k !in l && k !in r && l.Keys !! r.Keys
    ensures key == k ==> l + r == (l + map[k := v] + r) - {key}
    ensures key != k && key !in r ==> (l - {key}) + map[k := v] + r == (l + map[k := v] + r) - {key}
    ensures key != k && key !in l ==> l + map[k := v] + (r - {key}) == (l + map[k := v] + r) - {key}
    ensures key in l ==> (l - {key}) + map[key := l[key]] + r == l + r
    ensures key in r ==> l + map[key := r[key]] + (r - {key}) == l + r
  {
    if key in l {
      assert (l - {key}) + map[key := l[key]] == l;
    }
    if key in r {
      assert map[key := r[key]] + (r - {key}) == r;
      assert l + map[key := r[key]] + (r - {key}) == l + (map[key := r[key]] + (r - {key}));
    }
  }

  /** The node cut out by `remove_leftmost` is the least key, and comes out childless. */
  lemma {:induction false} RemoveLeftmostCutsLeast<K(!new)>(ko: KeyOps<K>, t: Tree<K>, lo: Option<K>, hi: Option<K>)
    requires TotalOrder(ko) && t.Node? && HeightsOk(t) && OrderedIn(ko, t, lo, hi)
    ensures var c := RemoveLeftmost(t);
      && Childless(c.removed) && Within(ko, c.removed.key, lo, hi)
      && OrderedIn(ko, c.rest, Some(c.removed.key), hi)
      && Lookup(Contents(t), c.removed.key) == Some(c.removed.value)
      && Contents(c.rest) == Contents(t) - {c.removed.key}
  {
    var m := RemoveLeftmost(t).removed;
    SidesApart(ko, t, m.key, lo, hi);
    JoinRemoved(Contents(t.left), t.key, t.value, Contents(t.right), m.key);
    if t.left.Node? {
      RemoveLeftmostCutsLeast(ko, t.left, lo, Some(t.key));
      var u := t.(left := RemoveLeftmost(t.left).rest);
      RebalanceContents(u);
      RebalanceOrder(ko, u, Some(m.key), hi);
    }
  }

  /** The node cut out by `remove_rightmost` is the greatest key, and comes out childless. */
  lemma {:induction false} RemoveRightmostCutsGreatest<K(!new)>(ko: KeyOps<K>, t: Tree<K>, lo: Option<K>, hi: Option<K>)
    requires TotalOrder(ko) && t.Node? && HeightsOk(t) && OrderedIn(ko, t, lo, hi)
    ensures var c := RemoveRightmost(t);
      && Childless(c.removed) && Within(ko, c.removed.key, lo, hi)
      && OrderedIn(ko, c.rest, lo, Some(c.removed.key))
      && Lookup(Contents(t), c.removed.key) == Some(c.removed.value)
      && Contents(c.rest) == Contents(t) - {c.removed.key}
  {
    var m := RemoveRightmost(t).removed;
    SidesApart(ko, t, m.key, lo, hi);
    JoinRemoved(Contents(t.left), t.key, t.value, Contents(t.right), m.key);
    if t.right.Node? {
      RemoveRightmostCutsGreatest(ko, t.right, Some(t.key), hi);
      var u := t.(right := RemoveRightmost(t.right).rest);
      RebalanceContents(u);
      RebalanceOrder(ko, u, lo, Some(m.key));
    }
  }

  lemma SubstituteOrder<K(!new)>(ko: KeyOps<K>, t: Tree<K>, lo: Option<K>, hi: Option<K>)
    requires TotalOrder(ko) && t.Node? && HeightsOk(t) && OrderedIn(ko, t, lo, hi)
    ensures OrderedIn(ko, Substitute(t), lo, hi)
    ensures Contents(Substitute(t)) == Contents(t) - {t.key}
  {
    SidesApart(ko, t, t.key, lo, hi);
    JoinRemoved(Contents(t.left), t.key, t.value, Contents(t.right), t.key);
    if t.right.Empty? {
      Widen(ko, t.left, lo, Some(t.key), lo, hi);
    } else if t.left.Empty? {
      Widen(ko, t.right, Some(t.key), hi, lo, hi);
    } else if BalanceFactor(t) <= 0 {
      RemoveLeftmostCutsLeast(ko, t.right, Some(t.key), hi);
      var m := RemoveLeftmost(t.right).removed;
      JoinRemoved(Contents(t.left), t.key, t.value, Contents(t.right), m.key);
      Widen(ko, t.left, lo, Some(t.key), lo, Some(m.key));
    } else {
      RemoveRightmostCutsGreatest(ko, t.left, lo, Some(t.key));
      var m := RemoveRightmost(t.left).removed;
      JoinRemoved(Contents(t.left), t.key, t.value, Contents(t.right), m.key);
      Widen(ko, t.right, Some(t.key), hi, Some(m.key), hi);
    }
  }

  /** `remove` deletes the key and nothing else, hands back the node that held it without its
      subtrees, and keeps the order. */
  lemma {:induction false} RemoveIsMapDelete<K(!new)>(ko: KeyOps<K>, t: Tree<K>, key: K, lo: Option<K>, hi: Option<K>)
    requires TotalOrder(ko) && HeightsOk(t) && OrderedIn(ko, t, lo, hi)
    ensures var c := Remove(ko, t, key);
      && OrderedIn(ko, c.rest, lo, hi)
      && Contents(c.rest) == Contents(t) - {key}
      && (c.removed.Node? <==> key in Contents(t))
      && (c.removed.Node? ==>
            Childless(c.removed) && c.removed.key == key && c.removed.value == Contents(t)[key])
  {
    if t.Node? {
      SidesApart(ko, t, key, lo, hi);
      JoinRemoved(Contents(t.left), t.key, t.value, Contents(t.right), key);
      var c := Remove(ko, t, key);
      var u: Tree<K>;
      if ko.less(key, t.key) {
        RemoveIsMapDelete(ko, t.left, key, lo, Some(t.key));
        u := t.(left := Remove(ko, t.left, key).rest);
      } else if ko.less(t.key, key) {
        RemoveIsMapDelete(ko, t.right, key, Some(t.key), hi);
        u := t.(right := Remove(ko, t.right, key).rest);
      } else {
        SubstituteOrder(ko, t, lo, hi);
        var s := Substitute(t);
        u := RemoveRoot(t).rest;
        if s.Node? {
          RebalanceContents(s);
          RebalanceOrder(ko, s, lo, hi);
        }
      }
      if c.removed.Node? && u.Node? {
        RebalanceContents(u);
        RebalanceOrder(ko, u, lo, hi);
      }
    }
  }

  // ---------- get_keys ----------

  ghost predicate Increasing<K>(ko: KeyOps<K>, ks: seq<K>) {
    forall i, j :: 0 <= i < j < |ks| ==> ko.less(ks[i], ks[j])
  }

  lemma IncreasingJoin<K(!new)>(ko: KeyOps<K>, l: seq<K>, k: K, r: seq<K>)
    requires TotalOrder(ko) && Increasing(ko, l) && Increasing(ko, r)
    requires forall x :: x in l ==> ko.less(x, k)
    requires forall x :: x in r ==> ko.less(k, x)
    ensures Increasing(ko, l + [k] + r)
  {
    var ks := l + [k] + r;
    forall i, j | 0 <= i < j < |ks| ensures ko.less(ks[i], ks[j]) {
      assert i < |l| ==> ks[i] == l[i] && l[i] in l;
      assert j < |l| ==> ks[j] == l[j];
      assert i > |l| ==> ks[i] == r[i - |l| - 1];
      assert j > |l| ==> ks[j] == r[j - |l| - 1] && r[j - |l| - 1] in r;
    }
  }

  /** The key list holds exactly the keys of the map, strictly increasing. */
  lemma {:induction false} KeysAreSortedDomain<K(!new)>(ko: KeyOps<K>, t: Tree<K>, lo: Option<K>, hi: Option<K>)
    requires TotalOrder(ko) && OrderedIn(ko, t, lo, hi)
    ensures forall k :: k in Keys(t) <==> k in Contents(t)
    ensures Increasing(ko, Keys(t))
  {
    if t.Node? {
      KeysAreSortedDomain(ko, t.left, lo, Some(t.key));
      KeysAreSortedDomain(ko, t.right, Some(t.key), hi);
      KeysWithin(ko, t.left, lo, Some(t.key));
      KeysWithin(ko, t.right, Some(t.key), hi);
      IncreasingJoin(ko, Keys(t.left), t.key, Keys(t.right));
    }
  }
}
