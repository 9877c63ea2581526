/**
 The versioned store: a working tree, the tree of the last applied transaction, and one tree per
 committed height, the oldest of which may have been pruned. `StoreModel` is the store as a
 value; the classes are proved against it.
 */
module Store {
  import opened Bytes
  import opened AvlModel
  import opened AvlOrder
  import opened AvlCaches
  import opened Paths
  import opened Ics23
  import AvlProofs

  /** A snapshot. The source clones it whenever it keeps one, so it is a value here. */
  type State = Tree<Path>

  datatype Height = Pending | Latest | Stable(height: nat)

  // ---------- the store as a value ----------

  /** `history` holds every tree ever committed; the first `pruned` are no longer readable. */
  datatype StoreModel = StoreModel(history: seq<State>, pruned: nat, staged: State, pending: State)

  const FRESH: StoreModel := StoreModel([], 0, Empty, Empty)

  datatype StoreOp =
    | Set(path: Path, value: Bytes)
    | Delete(path: Path)
    | Apply
    | Reset
    | Commit
    | Prune(height: nat)

  ghost predicate WellFormedStore(m: StoreModel) {
    && m.pruned <= |m.history|
    && WellFormed(PATH_KEYS, m.staged)
    && WellFormed(PATH_KEYS, m.pending)
    && forall i :: 0 <= i < |m.history| ==> WellFormed(PATH_KEYS, m.history[i])
  }

  /** The source panics when asked to prune past the current height. */
  ghost predicate Legal(m: StoreModel, op: StoreOp) {
    op.Prune? ==> op.height <= |m.history|
  }

  ghost function StepStore(m: StoreModel, op: StoreOp): StoreModel
    requires WellFormedStore(m)
  {
    match op
    case Set(path, value) => m.(pending := Insert(PATH_KEYS, m.pending, path, value))
    case Delete(path) => m.(pending := Remove(PATH_KEYS, m.pending, path).rest)
    case Apply => m.(staged := m.pending)
    case Reset => m.(pending := m.staged)
    case Commit => m.(staged := m.pending, history := m.history + [m.pending])
    case Prune(height) => m.(pruned := Max(m.pruned, height))
  }

  function StateAt(m: StoreModel, height: Height): Option<State>
    requires m.pruned <= |m.history|
  {
    match height
    case Pending => Some(m.pending)
    case Latest => if m.pruned == |m.history| then None else Some(m.history[|m.history| - 1])
    case Stable(h) => if m.pruned < h <= |m.history| then Some(m.history[h - 1]) else None
  }

  function RootHashOf(s: Option<State>): Digest {
    if s.None? then EMPTY_CHILD else ChildHash(s.value)
  }

  lemma StepKeepsWellFormed(m: StoreModel, op: StoreOp)
    requires WellFormedStore(m) && Legal(m, op)
    ensures WellFormedStore(StepStore(m, op))
  {
    PathKeysOrdered();
    match op
    case Set(path, value) => InsertCorrect(PATH_KEYS, m.pending, path, value);
    case Delete(path) => RemoveCorrect(PATH_KEYS, m.pending, path);
    case Apply =>
    case Reset =>
    case Commit =>
    case Prune(_) =>
  }

  // ---------- the reference: plain maps ----------

  /** One working map, one checkpoint, and an append-only list of maps with a forgotten prefix. */
  datatype Archive = Archive(maps: seq<map<Path, Bytes>>, forgotten: nat, checkpoint: map<Path, Bytes>, working: map<Path, Bytes>)

  ghost function StepArchive(a: Archive, op: StoreOp): Archive {
    match op
    case Set(path, value) => a.(working := a.working[path := value])
    case Delete(path) => a.(working := a.working - {path})
    case Apply => a.(checkpoint := a.working)
    case Reset => a.(working := a.checkpoint)
    case Commit => a.(checkpoint := a.working, maps := a.maps + [a.working])
    case Prune(height) => a.(forgotten := if a.forgotten < height then height else a.forgotten)
  }

  ghost function RunArchive(ops: seq<StoreOp>): Archive {
    if ops == [] then Archive([], 0, map[], map[])
    else StepArchive(RunArchive(ops[..|ops| - 1]), ops[|ops| - 1])
  }

  ghost function ArchiveOf(m: StoreModel): Archive {
    Archive(seq(|m.history|, i requires 0 <= i < |m.history| => Contents(m.history[i])), m.pruned,
            Contents(m.staged), Contents(m.pending))
  }

  /** Prunes in the run never pass the height reached so far. */
  ghost predicate LegalRun(ops: seq<StoreOp>) {
    ops != [] ==>
      && LegalRun(ops[..|ops| - 1])
      && (ops[|ops| - 1].Prune? ==> ops[|ops| - 1].height <= Commits(ops[..|ops| - 1]))
  }

  function Commits(ops: seq<StoreOp>): nat {
    if ops == [] then 0 else Commits(ops[..|ops| - 1]) + if ops[|ops| - 1].Commit? then 1 else 0
  }

  /** A store reached from the fresh one by `ops`. */
  ghost function RunStore(ops: seq<StoreOp>): (m: StoreModel)
    requires LegalRun(ops)
    ensures WellFormedStore(m) && |m.history| == Commits(ops)
  {
    if ops == [] then FRESH
    else
      var before := RunStore(ops[..|ops| - 1]);
      StepKeepsWellFormed(before, ops[|ops| - 1]);
      StepStore(before, ops[|ops| - 1])
  }

  lemma StepRefines(m: StoreModel, op: StoreOp)
    requires WellFormedStore(m)
    ensures ArchiveOf(StepStore(m, op)) == StepArchive(ArchiveOf(m), op)
  {
    PathKeysOrdered();
    match op
    case Set(path, value) => InsertCorrect(PATH_KEYS, m.pending, path, value);
    case Delete(path) => RemoveCorrect(PATH_KEYS, m.pending, path);
    case Apply =>
    case Reset =>
    case Commit =>
      assert ArchiveOf(StepStore(m, op)).maps == ArchiveOf(m).maps + [Contents(m.pending)];
    case Prune(_) =>
  }

  /** Over every run the store is the archive of plain maps. */
  lemma {:induction false} RunRefines(ops: seq<StoreOp>)
    requires LegalRun(ops)
    ensures ArchiveOf(RunStore(ops)) == RunArchive(ops)
  {
    if ops == [] {
      assert ArchiveOf(FRESH).maps == [];
    } else {
      RunRefines(ops[..|ops| - 1]);
      StepRefines(RunStore(ops[..|ops| - 1]), ops[|ops| - 1]);
    }
  }

  lemma MapsAt(m: StoreModel, i: nat)
    requires WellFormedStore(m) && i < |m.history|
    ensures ArchiveOf(m).maps[i] == Contents(m.history[i]) && WellFormed(PATH_KEYS, m.history[i])
  {
  }

  lemma ReadsOneArchived(m: StoreModel, h: nat, path: Path)
    requires WellFormedStore(m)
    ensures var a := ArchiveOf(m);
      && (StateAt(m, Stable(h)).Some? <==> a.forgotten < h <= |a.maps|)
      && (StateAt(m, Stable(h)).Some? ==> Get(PATH_KEYS, StateAt(m, Stable(h)).value, path) == Lookup(a.maps[h - 1], path))
  {
    if m.pruned < h <= |m.history| {
      MapsAt(m, h - 1);
      PathKeysOrdered();
      GetIsLookup(PATH_KEYS, m.history[h - 1], path, None, None);
    }
  }

  lemma ReadsPending(m: StoreModel, path: Path)
    requires WellFormedStore(m)
    ensures Get(PATH_KEYS, m.pending, path) == Lookup(ArchiveOf(m).working, path)
  {
    PathKeysOrdered();
    GetIsLookup(PATH_KEYS, m.pending, path, None, None);
  }

  /** Reading a committed height gives the map committed there, for every height still kept and no
      other; reading the pending state gives the working map. */
  lemma ReadsAreArchived(ops: seq<StoreOp>, h: nat, path: Path)
    requires LegalRun(ops)
    ensures var m, a := RunStore(ops), RunArchive(ops);
      && |a.maps| == Commits(ops)
      && (StateAt(m, Stable(h)).Some? <==> a.forgotten < h <= |a.maps|)
      && (StateAt(m, Stable(h)).Some? ==> Get(PATH_KEYS, StateAt(m, Stable(h)).value, path) == Lookup(a.maps[h - 1], path))
      && Get(PATH_KEYS, m.pending, path) == Lookup(a.working, path)
  {
    RunRefines(ops);
    ReadsOneArchived(RunStore(ops), h, path);
    ReadsPending(RunStore(ops), path);
  }

  /** Nothing that happens later changes or brings back a committed tree. */
  lemma {:induction false} HistoryOnlyGrows(ops: seq<StoreOp>, later: seq<StoreOp>)
    requires LegalRun(ops + later)
    ensures LegalRun(ops)
    ensures RunStore(ops).history <= RunStore(ops + later).history
    ensures RunStore(ops).pruned <= RunStore(ops + later).pruned
  {
    if later == [] {
      assert ops + later == ops;
    } else {
      assert (ops + later)[..|ops + later| - 1] == ops + later[..|later| - 1];
      HistoryOnlyGrows(ops, later[..|later| - 1]);
    }
  }

  // ---------- the store in place ----------

  /** A vector that forgets a prefix but goes on numbering its elements from the first ever. */
  class PrunedVec<T> {
    var vec: seq<T>
    var pruned: nat

    /** Every element ever pushed. */
    ghost var pushed: seq<T>

    ghost predicate Valid()
      reads this
    {
      pruned <= |pushed| && vec == pushed[pruned..]
    }

    constructor ()
      ensures Valid() && pushed == [] && pruned == 0
    {
      vec, pruned, pushed := [], 0, [];
    }

    method Push(value: T)
      requires Valid()
      modifies this
      ensures Valid() && pushed == old(pushed) + [value] && pruned == old(pruned)
    {
      vec := vec + [value];
      pushed := pushed + [value];
    }

    function Get(index: nat): (r: Option<T>)
      reads this
      requires Valid()
      ensures r == if pruned <= index < |pushed| then Some(pushed[index]) else None
    {
      if index < pruned || index - pruned >= |vec| then None else Some(vec[index - pruned])
    }

    function Last(): (r: Option<T>)
      reads this
      requires Valid()
      ensures r == if pruned < |pushed| then Some(pushed[|pushed| - 1]) else None
    {
      if vec == [] then None else Some(vec[|vec| - 1])
    }

    function OriginalLength(): (n: nat)
      reads this
      requires Valid()
      ensures n == |pushed|
    {
      |vec| + pruned
    }

    method Prune(index: nat)
      requires Valid() && index <= |pushed|
      modifies this
      ensures Valid() && pushed == old(pushed) && pruned == Max(old(pruned), index)
    {
      if index > pruned {
        vec := vec[index - pruned..];
        pruned := index;
      }
    }
  }

  class InMemoryStore {
    const store: PrunedVec<State>
    var staged: State
    var pending: State

    ghost predicate Valid()
      reads this, store
    {
      store.Valid() && WellFormedStore(View())
    }

    ghost function View(): StoreModel
      reads this, store
    {
      StoreModel(store.pushed, store.pruned, staged, pending)
    }

    ghost function Repr(): set<object> {
      {this, store}
    }

    constructor ()
      ensures Valid() && View() == FRESH && fresh(Repr())
    {
      store := new PrunedVec();
      staged, pending := Empty, Empty;
    }

    method GetState(height: Height) returns (r: Option<State>)
      requires Valid()
      ensures r == StateAt(View(), height)
    {
      match height
      case Pending =>
        r := Some(pending);
      case Latest =>
        r := store.Last();
      case Stable(h) =>
        if h == 0 {
          r := None;
        } else {
          r := store.Get(h - 1);
        }
    }

    method SetPath(path: Path, value: Bytes) returns (previous: Option<Bytes>)
      requires Valid()
      modifies this`pending
      ensures Valid() && View() == StepStore(old(View()), Set(path, value))
      ensures previous == Lookup(Contents(old(pending)), path)
    {
      StepKeepsWellFormed(View(), Set(path, value));
      PathKeysOrdered();
      GetIsLookup(PATH_KEYS, pending, path, None, None);
      previous := AvlModel.Get(PATH_KEYS, pending, path);
      pending := Insert(PATH_KEYS, pending, path, value);
    }

    method Get(height: Height, path: Path) returns (r: Option<Bytes>)
      requires Valid()
      ensures var s := StateAt(View(), height); r == if s.None? then None else Lookup(Contents(s.value), path)
    {
      var state := GetState(height);
      if state.None? {
        return None;
      }
      PathKeysOrdered();
      GetIsLookup(PATH_KEYS, state.value, path, None, None);
      r := AvlModel.Get(PATH_KEYS, state.value, path);
    }

    method DeletePath(path: Path)
      requires Valid()
      modifies this`pending
      ensures Valid() && View() == StepStore(old(View()), Delete(path))
    {
      StepKeepsWellFormed(View(), Delete(path));
      pending := Remove(PATH_KEYS, pending, path).rest;
    }

    method CommitBlock() returns (root: Digest)
      requires Valid()
      modifies this, store
      ensures Valid() && View() == StepStore(old(View()), Commit)
      ensures root == ChildHash(old(pending))
    {
      StepKeepsWellFormed(View(), Commit);
      ApplyChanges();
      store.Push(staged);
      root := RootHash();
    }

    method ApplyChanges()
      requires Valid()
      modifies this`staged
      ensures Valid() && View() == StepStore(old(View()), Apply)
    {
      staged := pending;
    }

    method ResetChanges()
      requires Valid()
      modifies this`pending
      ensures Valid() && View() == StepStore(old(View()), Reset)
    {
      pending := staged;
    }

    method PruneTo(height: nat) returns (r: nat)
      requires Valid() && height <= |View().history|
      modifies store
      ensures Valid() && View() == StepStore(old(View()), Prune(height)) && r == height
    {
      store.Prune(height);
      r := height;
    }

    method CurrentHeight() returns (height: nat)
      requires Valid()
      ensures height == |View().history|
    {
      height := store.OriginalLength();
    }

    method RootHash() returns (root: Digest)
      requires Valid()
      ensures root == RootHashOf(StateAt(View(), Latest))
      ensures var m := View();
        root == if m.pruned == |m.history| then [0, 0, 0, 0, 0, 0, 0, 0, 0, 0, 0, 0, 0, 0, 0, 0, 0, 0, 0, 0, 0, 0, 0, 0, 0, 0, 0, 0, 0, 0, 0, 0]
                else ChildHash(m.history[|m.history| - 1])
    {
      var state := GetState(Latest);
      root := RootHashOf(state);
    }

    method GetProof(height: Height, key: Path) returns (proof: Option<Proof>)
      requires Valid()
      ensures var s := StateAt(View(), height);
        proof == if s.None? then None else Some(AvlProofs.GetProof(PATH_KEYS, s.value, key))
    {
      var state := GetState(height);
      proof := if state.None? then None else Some(AvlProofs.GetProof(PATH_KEYS, state.value, key));
    }

    /** The pending keys whose printed form starts with the printed prefix, in key order. */
    method GetKeys(prefix: Path) returns (keys: seq<Path>)
      requires Valid()
      ensures forall k :: k in keys <==> k in Contents(pending) && Join(prefix) <= Join(k)
      ensures Increasing(PATH_KEYS, keys)
    {
      var all := Keys(pending);
      PathKeysOrdered();
      KeysAreSortedDomain(PATH_KEYS, pending, None, None);
      keys := [];
      for i := 0 to |all|
        invariant forall k :: k in keys <==> k in all[..i] && Join(prefix) <= Join(k)
        invariant Increasing(PATH_KEYS, keys)
        invariant forall j, n :: 0 <= j < |keys| && i <= n < |all| ==> PathLess(keys[j], all[n])
      {
        if Join(prefix) <= Join(all[i]) {
          keys := keys + [all[i]];
        }
      }
      assert all[..|all|] == all;
    }
  }
}
