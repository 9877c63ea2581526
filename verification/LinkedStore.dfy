/**
 The versioned store over linked trees: the pending tree is rewritten in place, and every snapshot
 is a clone. It does what `Store` says of snapshots kept as values, so no later insertion or removal
 in the pending tree reaches one.
 */
module LinkedStore {
  import opened Bytes
  import opened AvlModel
  import opened AvlOrder
  import opened AvlCaches
  import opened Paths
  import opened Store
  import opened Ics23
  import opened Avl
  import AvlProofs

  type PathTree = AvlTree<Path>
  type PathNode = AvlNode<Path>

  // ---------- trees that share nothing ----------

  ghost function Roots(ts: set<PathTree>): set<PathNode>
    reads ts
  {
    set t | t in ts && t.root != null :: t.root
  }

  ghost function Nodes(ts: set<PathTree>): set<PathNode>
    reads ts, Roots(ts)
  {
    set t, o | t in ts && o in ReprOf(t.root) :: o
  }

  /** The links are a tree; what it holds is looked at as a value. */
  ghost predicate Fit(t: PathTree)
    reads t, t.root, ReprOf(t.root)
  {
    t.ko == PATH_KEYS && ValidRef(t.root)
  }

  ghost predicate Sound(ts: set<PathTree>)
    reads ts, Roots(ts), Nodes(ts)
  {
    forall t {:trigger Fit(t)} :: t in ts ==> Fit(t)
  }

  /** The tree shares nothing with any of the others. */
  ghost predicate Apart(t: PathTree, ts: set<PathTree>)
    reads t, t.root, ts, Roots(ts)
  {
    t !in ts && forall u {:trigger ReprOf(u.root)} :: u in ts ==> ReprOf(t.root) !! ReprOf(u.root)
  }

  /** A tree that shares nothing with `p`. */
  ghost predicate Beside(p: PathTree, t: PathTree)
    reads p, p.root, t, t.root, ReprOf(t.root)
  {
    Fit(t) && t != p && ReprOf(p.root) !! ReprOf(t.root)
  }

  /** An insertion in place leaves the others as they are. */
  method InsertApart(t: PathTree, ghost others: set<PathTree>, path: Path, value: Bytes) returns (previous: Option<Bytes>)
    requires Fit(t) && WellFormed(PATH_KEYS, t.Model()) && Sound(others) && Apart(t, others)
    modifies t, ReprOf(t.root)
    ensures fresh(ReprOf(t.root) - old(ReprOf(t.root)))
    ensures Fit(t) && Sound(others) && Apart(t, others)
    ensures forall u :: u in others ==> u.Model() == old(u.Model()) && ReprOf(u.root) == old(ReprOf(u.root))
    ensures HeightsOk(old(t.Model())) && t.Model() == Insert(PATH_KEYS, old(t.Model()), path, value)
    ensures previous == Lookup(Contents(old(t.Model())), path)
  {
    PathKeysOrdered();
    previous := t.Insert(path, value);
    forall u | u in others ensures Fit(u) && ReprOf(t.root) !! ReprOf(u.root) && u.Model() == old(u.Model()) && ReprOf(u.root) == old(ReprOf(u.root)) {
      assert old(Fit(u)) && old(ReprOf(t.root) !! ReprOf(u.root)) && ReprOf(u.root) == old(ReprOf(u.root));
    }
  }

  /** So does a removal. */
  method RemoveApart(t: PathTree, ghost others: set<PathTree>, path: Path)
    requires Fit(t) && WellFormed(PATH_KEYS, t.Model()) && Sound(others) && Apart(t, others)
    modifies t, ReprOf(t.root)
    ensures fresh(ReprOf(t.root) - old(ReprOf(t.root)))
    ensures Fit(t) && Sound(others) && Apart(t, others)
    ensures forall u :: u in others ==> u.Model() == old(u.Model()) && ReprOf(u.root) == old(ReprOf(u.root))
    ensures HeightsOk(old(t.Model())) && t.Model() == Remove(PATH_KEYS, old(t.Model()), path).rest
  {
    PathKeysOrdered();
    var _ := t.Remove(path);
    forall u | u in others ensures Fit(u) && ReprOf(t.root) !! ReprOf(u.root) && u.Model() == old(u.Model()) && ReprOf(u.root) == old(ReprOf(u.root)) {
      assert old(Fit(u)) && old(ReprOf(t.root) !! ReprOf(u.root)) && ReprOf(u.root) == old(ReprOf(u.root));
    }
  }

  /** A clone shares nothing with any tree that was there before. */
  method CloneApart(t: PathTree, ghost others: set<PathTree>) returns (c: PathTree)
    requires Fit(t) && WellFormed(PATH_KEYS, t.Model()) && Sound(others)
    ensures Fit(c) && c.Model() == t.Model() && fresh(c) && fresh(ReprOf(c.root))
    ensures Apart(c, others)
  {
    PathKeysOrdered();
    c := t.Clone();
  }

  /** The trees as values. */
  ghost function Models(ts: seq<PathTree>): (r: seq<State>)
    reads ts, Roots(set t | t in ts)
    ensures |r| == |ts| && forall i :: 0 <= i < |ts| ==> r[i] == ts[i].Model()
  {
    if ts == [] then [] else Models(ts[..|ts| - 1]) + [ts[|ts| - 1].Model()]
  }

  lemma ModelsMore(ts: seq<PathTree>, t: PathTree)
    ensures Models(ts + [t]) == Models(ts) + [t.Model()]
  {
    assert (ts + [t])[..|ts + [t]| - 1] == ts;
  }

  // ---------- the store ----------

  class LinkedStore {
    const store: PrunedVec<PathTree>
    var staged: PathTree
    var pending: PathTree

    /** All trees but the pending one, which alone is rewritten in place. */
    ghost function Snapshots(): set<PathTree>
      reads this, store
    {
      {staged} + set t | t in store.pushed
    }

    /** The pending tree shares nothing with the staged tree or with a snapshot. */
    ghost predicate TreesValid()
      reads this, store, pending, pending.root, ReprOf(pending.root), Snapshots(), Roots(Snapshots()), Nodes(Snapshots())
    {
      && Fit(pending) && store.Valid() && Beside(pending, staged)
      && forall i :: 0 <= i < |store.pushed| ==> Beside(pending, store.pushed[i])
    }

    ghost predicate Valid()
      reads this, store, pending, pending.root, ReprOf(pending.root), Snapshots(), Roots(Snapshots()), Nodes(Snapshots())
    {
      TreesValid() && WellFormedStore(View())
    }

    ghost function View(): StoreModel
      reads this, store, staged, staged.root, pending, pending.root, store.pushed, Roots(set t | t in store.pushed)
    {
      StoreModel(Models(store.pushed), store.pruned, staged.Model(), pending.Model())
    }

    constructor ()
      ensures Valid() && View() == FRESH
    {
      PathKeysOrdered();
      store := new PrunedVec();
      staged := new AvlTree(PATH_KEYS);
      pending := new AvlTree(PATH_KEYS);
    }

    // ----- on the trees -----

    method InsertPending(path: Path, value: Bytes) returns (previous: Option<Bytes>)
      requires TreesValid() && WellFormed(PATH_KEYS, pending.Model())
      modifies pending, ReprOf(pending.root)
      ensures TreesValid() && staged.Model() == old(staged.Model()) && Models(store.pushed) == old(Models(store.pushed))
      ensures HeightsOk(old(pending.Model())) && pending.Model() == Insert(PATH_KEYS, old(pending.Model()), path, value)
      ensures previous == Lookup(Contents(old(pending.Model())), path)
    {
      previous := InsertApart(pending, Snapshots(), path, value);
    }

    method RemovePending(path: Path)
      requires TreesValid() && WellFormed(PATH_KEYS, pending.Model())
      modifies pending, ReprOf(pending.root)
      ensures TreesValid() && staged.Model() == old(staged.Model()) && Models(store.pushed) == old(Models(store.pushed))
      ensures HeightsOk(old(pending.Model())) && pending.Model() == Remove(PATH_KEYS, old(pending.Model()), path).rest
    {
      RemoveApart(pending, Snapshots(), path);
    }

    method CloneToStaged()
      requires TreesValid() && WellFormed(PATH_KEYS, pending.Model())
      modifies this`staged
      ensures TreesValid() && pending.Model() == old(pending.Model()) == staged.Model() && Models(store.pushed) == old(Models(store.pushed))
    {
      var c := CloneBeside(pending);
      Stage(c);
    }

    method Stage(c: PathTree)
      requires TreesValid() && Beside(pending, c)
      modifies this`staged
      ensures TreesValid() && staged == c
    {
      staged := c;
    }

    method CloneToPending()
      requires TreesValid() && WellFormed(PATH_KEYS, staged.Model())
      modifies this`pending
      ensures TreesValid() && staged.Model() == old(staged.Model()) == pending.Model() && Models(store.pushed) == old(Models(store.pushed))
    {
      var c := CloneApart(staged, Snapshots());
      assert Beside(c, staged);
      forall i | 0 <= i < |store.pushed| ensures Beside(c, store.pushed[i]) {
        assert Beside(pending, store.pushed[i]) && store.pushed[i] in Snapshots();
      }
      Repend(c);
    }

    method Repend(c: PathTree)
      requires TreesValid() && Fit(c) && Beside(c, staged) && forall i :: 0 <= i < |store.pushed| ==> Beside(c, store.pushed[i])
      modifies this`pending
      ensures TreesValid() && pending == c
    {
      pending := c;
    }

    /** Keeps a clone of the staged tree as the newest snapshot. */
    method Push()
      requires TreesValid() && WellFormed(PATH_KEYS, staged.Model())
      modifies store
      ensures TreesValid() && pending.Model() == old(pending.Model()) && staged.Model() == old(staged.Model())
      ensures Models(store.pushed) == old(Models(store.pushed)) + [staged.Model()] && store.pruned == old(store.pruned)
    {
      var snapshot := CloneBeside(staged);
      Append(snapshot);
    }

    /** A clone of one of the store's trees, ready to be kept. */
    method CloneBeside(t: PathTree) returns (c: PathTree)
      requires TreesValid() && Fit(t) && WellFormed(PATH_KEYS, t.Model())
      ensures TreesValid() && View() == old(View()) && Beside(pending, c) && c.Model() == old(t.Model())
    {
      c := CloneApart(t, {pending});
      assert Apart(c, {pending}) && Beside(pending, c);
      forall i | 0 <= i < |store.pushed| ensures Beside(pending, store.pushed[i]) {
        assert old(Beside(pending, store.pushed[i]));
      }
    }

    method Append(snapshot: PathTree)
      requires TreesValid() && Beside(pending, snapshot)
      modifies store
      ensures TreesValid() && Models(store.pushed) == old(Models(store.pushed)) + [old(snapshot.Model())]
      ensures store.pruned == old(store.pruned) && pending.Model() == old(pending.Model()) && staged.Model() == old(staged.Model())
    {
      ghost var was := store.pushed;
      store.Push(snapshot);
      forall i | 0 <= i < |store.pushed| ensures Beside(pending, store.pushed[i]) {
        if i < |was| { assert old(Beside(pending, was[i])); }
      }
      ModelsMore(was, snapshot);
    }

    method Forget(height: nat)
      requires TreesValid() && height <= |store.pushed|
      modifies store
      ensures TreesValid() && View() == old(View()).(pruned := Max(old(View()).pruned, height))
    {
      store.Prune(height);
      forall i | 0 <= i < |store.pushed| ensures Beside(pending, store.pushed[i]) {
        assert old(Beside(pending, store.pushed[i]));
      }
    }

    // ----- the store's operations -----

    method SetPath(path: Path, value: Bytes) returns (previous: Option<Bytes>)
      requires Valid()
      modifies pending, ReprOf(pending.root)
      ensures Valid() && WellFormedStore(old(View()))
      ensures View() == StepStore(old(View()), Set(path, value))
      ensures previous == Lookup(Contents(old(View()).pending), path)
    {
      StepKeepsWellFormed(View(), Set(path, value));
      previous := InsertPending(path, value);
    }

    method DeletePath(path: Path)
      requires Valid()
      modifies pending, ReprOf(pending.root)
      ensures Valid() && WellFormedStore(old(View()))
      ensures View() == StepStore(old(View()), Delete(path))
    {
      StepKeepsWellFormed(View(), Delete(path));
      RemovePending(path);
    }

    method ApplyChanges()
      requires Valid()
      modifies this`staged
      ensures Valid() && WellFormedStore(old(View()))
      ensures View() == StepStore(old(View()), Apply)
    {
      StepKeepsWellFormed(View(), Apply);
      CloneToStaged();
    }

    method ResetChanges()
      requires Valid()
      modifies this`pending
      ensures Valid() && WellFormedStore(old(View()))
      ensures View() == StepStore(old(View()), Reset)
    {
      StepKeepsWellFormed(View(), Reset);
      CloneToPending();
    }

    method CommitBlock() returns (root: Digest)
      requires Valid()
      modifies this`staged, store
      ensures Valid() && WellFormedStore(old(View()))
      ensures View() == StepStore(old(View()), Commit)
      ensures root == ChildHash(old(View()).pending)
    {
      ghost var m := View();
      ApplyAndKeep();
      root := RootHash();
      RootOfCommit(m);
    }

    method ApplyAndKeep()
      requires Valid()
      modifies this`staged, store
      ensures Valid() && WellFormedStore(old(View())) && View() == StepStore(old(View()), Commit)
    {
      ApplyChanges();
      KeepStaged();
    }

    method KeepStaged()
      requires Valid()
      modifies store
      ensures Valid() && View() == old(View()).(history := old(View()).history + [old(View()).staged])
    {
      ghost var m := View();
      Push();
      assert View() == m.(history := m.history + [m.staged]);
    }

    lemma RootOfCommit(m: StoreModel)
      requires WellFormedStore(m)
      ensures RootHashOf(StateAt(StepStore(m, Commit), Latest)) == ChildHash(m.pending)
    {
    }

    method PruneTo(height: nat) returns (r: nat)
      requires Valid() && height <= |View().history|
      modifies store
      ensures Valid() && WellFormedStore(old(View())) && View() == StepStore(old(View()), Prune(height)) && r == height
    {
      StepKeepsWellFormed(View(), Prune(height));
      Forget(height);
      r := height;
    }

    /** The tree a height names. */
    function GetState(height: Height): (r: Option<PathTree>)
      reads this, store, pending, pending.root, ReprOf(pending.root), Snapshots(), Roots(Snapshots()), Nodes(Snapshots())
      requires Valid()
      ensures r.Some? ==> r.value.Valid() && r.value.ko == PATH_KEYS
      ensures (if r.None? then None else Some(r.value.Model())) == StateAt(View(), height)
    {
      PathKeysOrdered();
      match height
      case Pending => Some(pending)
      case Latest => store.Last()
      case Stable(h) => if h == 0 then None else store.Get(h - 1)
    }

    method Get(height: Height, path: Path) returns (r: Option<Bytes>)
      requires Valid()
      ensures var s := StateAt(old(View()), height); r == if s.None? then None else Lookup(Contents(s.value), path)
    {
      var t := GetState(height);
      if t.None? {
        return None;
      }
      ghost var steps;
      r, steps := t.value.Get(path);
    }

    method RootHash() returns (root: Digest)
      requires Valid()
      ensures Valid() && View() == old(View())
      ensures root == RootHashOf(StateAt(View(), Latest))
      ensures var m := View();
        root == if m.pruned == |m.history| then [0, 0, 0, 0, 0, 0, 0, 0, 0, 0, 0, 0, 0, 0, 0, 0, 0, 0, 0, 0, 0, 0, 0, 0, 0, 0, 0, 0, 0, 0, 0, 0]
                else ChildHash(m.history[|m.history| - 1])
    {
      var snapshot := store.Last();
      if snapshot.None? {
        return EMPTY_CHILD;
      }
      PathKeysOrdered();
      var t := snapshot.value;
      assert t == store.pushed[|store.pushed| - 1] && WellFormed(PATH_KEYS, View().history[|store.pushed| - 1]);
      var hash := t.RootHash();
      root := if hash.None? then EMPTY_CHILD else hash.value;
    }

    method GetProof(height: Height, key: Path) returns (proof: Option<Proof>)
      requires Valid()
      ensures var s := StateAt(old(View()), height);
        proof == if s.None? then None else Some(AvlProofs.GetProof(PATH_KEYS, s.value, key))
    {
      var t := GetState(height);
      if t.None? {
        return None;
      }
      var p := t.value.GetProof(key);
      proof := Some(p);
    }
  }
}
