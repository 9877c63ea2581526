/**
 What holds of every transaction and of every run of the application: atomicity, lockstep of the
 module stores with the main store, and the two-level proof chain.
 */
module AppProofs {
  import opened Bytes
  import opened AvlModel
  import opened AvlOrder
  import opened AvlCaches
  import opened Paths
  import opened Store
  import opened AppModel
  import opened Ics23
  import opened AvlProofs

  // ---------- one transaction ----------

  /** No store holds changes that have been neither applied nor undone. */
  ghost predicate Settled(stores: seq<StoreModel>) {
    forall i :: 0 <= i < |stores| ==> stores[i].pending == stores[i].staged
  }

  /** A transaction takes effect in full or not at all: on success every store holds, pending and
      staged, what delivering all messages in order made of it; on failure every store is back at
      its last applied tree. Nothing committed is touched, and the response code tells which. What
      modules keep outside the stores stays as the messages left it either way. */
  lemma TxAtomic(c: Config, a: AppState, tx: Tx)
    requires WellFormedApp(c, a) && Reaches(tx)
    ensures var d, r := DeliverAll(c.modules, a.stores, a.memory, tx.messages, tx.signer), DeliverTx(c, a, tx).stores;
      && |r| == |a.stores|
      && (TxResponseOf(c, a, tx).code == 0 <==> d.response.Handled?)
      && DeliverTx(c, a, tx).memory == d.memory
      && forall i :: 0 <= i < |r| ==>
           r[i] == if d.response.Handled? then a.stores[i].(pending := d.stores[i].pending, staged := d.stores[i].pending)
                   else a.stores[i].(pending := a.stores[i].staged)
  {
    var d, r := DeliverAll(c.modules, a.stores, a.memory, tx.messages, tx.signer), DeliverTx(c, a, tx).stores;
    forall i | 0 <= i < |r|
      ensures r[i] == if d.response.Handled? then a.stores[i].(pending := d.stores[i].pending, staged := d.stores[i].pending)
                      else a.stores[i].(pending := a.stores[i].staged)
    {
      assert d.stores[i] == a.stores[i].(pending := d.stores[i].pending);
    }
  }

  /** A transaction that fails while being delivered changes no module store exactly when every
      store was settled before it: `reset` goes back to the last applied tree, not to the start
      of the transaction. */
  lemma FailedTxIsIdentityIffSettled(c: Config, a: AppState, tx: Tx)
    requires WellFormedApp(c, a) && Reaches(tx) && TxResponseOf(c, a, tx).code != 0
    ensures DeliverTx(c, a, tx).stores == a.stores <==> Settled(a.stores)
  {
    TxAtomic(c, a, tx);
    var r := DeliverTx(c, a, tx).stores;
    if Settled(a.stores) {
      forall i | 0 <= i < |r| ensures r[i] == a.stores[i] { }
    }
  }

  /** Going on with more messages from where `d` stands, unless it already failed. */
  ghost function Continue(modules: seq<Module>, d: Delivered, rest: seq<Message>, signer: Account): (r: Delivered)
    requires AllWellFormed(d.stores)
    ensures AllWellFormed(r.stores)
  {
    if !d.response.Handled? then d
    else
      var e := DeliverAll(modules, d.stores, d.memory, rest, signer);
      if e.response.Handled? then e.(response := Handled(d.response.events + e.response.events)) else e
  }

  lemma ContinueNothing(modules: seq<Module>, d: Delivered, signer: Account)
    requires AllWellFormed(d.stores)
    ensures Continue(modules, d, [], signer) == d
  {
    if d.response.Handled? { assert d.response.events + [] == d.response.events; }
  }

  lemma DeliverAllLast(modules: seq<Module>, stores: seq<StoreModel>, memory: Memory, front: seq<Message>, last: Message, signer: Account)
    requires AllWellFormed(stores)
    ensures DeliverAll(modules, stores, memory, front + [last], signer)
         == Continue(modules, DeliverAll(modules, stores, memory, front, signer), [last], signer)
  {
    var d := DeliverAll(modules, stores, memory, front, signer);
    assert (front + [last])[..|front + [last]| - 1] == front;
    if d.response.Handled? { DeliverOne(modules, d.stores, d.memory, last, signer); }
  }

  lemma DeliverOne(modules: seq<Module>, stores: seq<StoreModel>, memory: Memory, message: Message, signer: Account)
    requires AllWellFormed(stores)
    ensures DeliverAll(modules, stores, memory, [message], signer) == DeliverMsgFrom(modules, stores, memory, 0, message, signer)
  {
    assert DeliverAll(modules, stores, memory, [message][..0], signer) == Delivered(stores, memory, Handled([]));
    var d := DeliverMsgFrom(modules, stores, memory, 0, message, signer);
    if d.response.Handled? { assert [] + d.response.events == d.response.events; }
  }

  lemma ContinueLast(modules: seq<Module>, d: Delivered, front: seq<Message>, last: Message, signer: Account)
    requires AllWellFormed(d.stores)
    ensures Continue(modules, d, front + [last], signer)
         == Continue(modules, Continue(modules, d, front, signer), [last], signer)
  {
    if d.response.Handled? {
      DeliverAllLast(modules, d.stores, d.memory, front, last, signer);
      var e := DeliverAll(modules, d.stores, d.memory, front, signer);
      if e.response.Handled? {
        var f := DeliverAll(modules, e.stores, e.memory, [last], signer);
        if f.response.Handled? {
          assert (d.response.events + e.response.events) + f.response.events
              == d.response.events + (e.response.events + f.response.events);
        }
      }
    }
  }

  /** Delivering a longer list of messages is delivering its front and going on from there, unless
      the front already failed. */
  lemma {:induction false} DeliversInOrder(modules: seq<Module>, stores: seq<StoreModel>, memory: Memory, first: seq<Message>, rest: seq<Message>, signer: Account)
    requires AllWellFormed(stores)
    ensures DeliverAll(modules, stores, memory, first + rest, signer)
         == Continue(modules, DeliverAll(modules, stores, memory, first, signer), rest, signer)
  {
    var d := DeliverAll(modules, stores, memory, first, signer);
    if rest == [] {
      assert first + rest == first;
      ContinueNothing(modules, d, signer);
    } else {
      var front, last := rest[..|rest| - 1], rest[|rest| - 1];
      assert front + [last] == rest;
      assert first + rest == (first + front) + [last];
      DeliversInOrder(modules, stores, memory, first, front, signer);
      DeliverAllLast(modules, stores, memory, first + front, last, signer);
      ContinueLast(modules, d, front, last, signer);
    }
  }

  lemma FirstFailureStops(modules: seq<Module>, stores: seq<StoreModel>, memory: Memory, messages: seq<Message>, k: nat, signer: Account)
    requires AllWellFormed(stores) && k <= |messages|
    requires !DeliverAll(modules, stores, memory, messages[..k], signer).response.Handled?
    ensures DeliverAll(modules, stores, memory, messages, signer) == DeliverAll(modules, stores, memory, messages[..k], signer)
  {
    DeliversInOrder(modules, stores, memory, messages[..k], messages[k..], signer);
    assert messages[..k] + messages[k..] == messages;
  }

  /** A message that is not handled when its turn comes ends the list. */
  lemma FailsAt(modules: seq<Module>, stores: seq<StoreModel>, memory: Memory, messages: seq<Message>, k: nat, signer: Account)
    requires AllWellFormed(stores) && k < |messages|
    requires var d := DeliverAll(modules, stores, memory, messages[..k], signer);
      d.response.Handled? ==> !DeliverMsgFrom(modules, d.stores, d.memory, 0, messages[k], signer).response.Handled?
    ensures !DeliverAll(modules, stores, memory, messages, signer).response.Handled?
  {
    assert messages[..k + 1][..k] == messages[..k];
    FirstFailureStops(modules, stores, memory, messages, k + 1, signer);
  }

  // ---------- every run ----------

  function CommitCount(calls: seq<Call>): nat {
    if calls == [] then 0
    else CommitCount(calls[..|calls| - 1]) + if calls[|calls| - 1].CommitCall? then 1 else 0
  }

  /** A main-store key: the name of a registered module, as a path of one component. */
  predicate IsModulePath(c: Config, p: Path) {
    |p| == 1 && p[0] in c.ids
  }

  /** A main-store tree holding each module's name with the root hash of that module's store at
      history position `h`, and nothing else. */
  ghost predicate RecordsRoots(c: Config, main: State, stores: seq<StoreModel>, h: nat)
    requires |stores| == |c.ids| && forall i :: 0 <= i < |stores| ==> h < |stores[i].history|
  {
    && (forall p :: p in Contents(main) <==> IsModulePath(c, p))
    && forall i :: 0 <= i < |c.ids| ==>
         [c.ids[i]] in Contents(main) && Contents(main)[[c.ids[i]]] == ChildHash(stores[i].history[h])
  }

  ghost predicate HoldsModulePaths(c: Config, t: State) {
    forall p :: p in Contents(t) ==> IsModulePath(c, p)
  }

  /** All stores are at height `n`, nothing pruned, and the main store is settled. */
  ghost predicate AtHeight(c: Config, a: AppState, n: nat) {
    && WellFormedApp(c, a)
    && a.main.pruned == 0 && |a.main.history| == n && a.main.pending == a.main.staged
    && forall i :: 0 <= i < |a.stores| ==> a.stores[i].pruned == 0 && |a.stores[i].history| == n
  }

  ghost predicate RootsRecordedBelow(c: Config, a: AppState, n: nat)
    requires AtHeight(c, a, n)
  {
    forall h :: 0 <= h < n ==> RecordsRoots(c, a.main.history[h], a.stores, h)
  }

  /** After `n` commits all stores are at height n, the main store is settled, and every height of
      the main store records the modules' roots of that height. */
  ghost predicate Lockstep(c: Config, a: AppState, n: nat) {
    AtHeight(c, a, n) && HoldsModulePaths(c, a.main.pending) && RootsRecordedBelow(c, a, n)
  }

  /** The map `m` with the given roots recorded under the names of the first `n` modules. */
  ghost function WithRoots(c: Config, m: map<Path, Bytes>, roots: seq<Digest>, n: nat): map<Path, Bytes>
    requires n <= |roots| == |c.ids|
  {
    if n == 0 then m else WithRoots(c, m, roots, n - 1)[[c.ids[n - 1]] := roots[n - 1]]
  }

  lemma {:induction false} WithRootsHolds(c: Config, m: map<Path, Bytes>, roots: seq<Digest>, n: nat)
    requires ValidConfig(c) && n <= |roots| == |c.ids|
    ensures var r := WithRoots(c, m, roots, n);
      && (forall p :: p in r ==> p in m || IsModulePath(c, p))
      && forall i :: 0 <= i < n ==> [c.ids[i]] in r && r[[c.ids[i]]] == roots[i]
  {
    if n > 0 {
      WithRootsHolds(c, m, roots, n - 1);
      var before, last := WithRoots(c, m, roots, n - 1), [c.ids[n - 1]];
      forall i | 0 <= i < n
        ensures [c.ids[i]] in before[last := roots[n - 1]] && before[last := roots[n - 1]][[c.ids[i]]] == roots[i]
      {
        assert i < n - 1 ==> [c.ids[i]][0] != last[0];
      }
    }
  }

  ghost function LatestRoots(committed: seq<StoreModel>): seq<Digest>
    requires AllWellFormed(committed)
  {
    seq(|committed|, i requires 0 <= i < |committed| => RootHashOf(StateAt(committed[i], Latest)))
  }

  lemma SetContents(m: StoreModel, path: Path, value: Bytes)
    requires WellFormedStore(m)
    ensures Contents(StepStore(m, Set(path, value)).pending) == Contents(m.pending)[path := value]
  {
    PathKeysOrdered();
    InsertCorrect(PATH_KEYS, m.pending, path, value);
  }

  lemma {:induction false} RootsRecorded(c: Config, main: StoreModel, committed: seq<StoreModel>, n: nat)
    requires ValidConfig(c) && WellFormedStore(main) && AllWellFormed(committed) && n <= |committed| == |c.ids|
    ensures Contents(RecordRoots(c, main, committed, n).pending)
         == WithRoots(c, Contents(main.pending), LatestRoots(committed), n)
  {
    if n > 0 {
      var before, root := RecordRoots(c, main, committed, n - 1), RootHashOf(StateAt(committed[n - 1], Latest));
      RootsRecorded(c, main, committed, n - 1);
      RecordStep(c, main, committed, n - 1);
      SetContents(before, [c.ids[n - 1]], root);
      assert LatestRoots(committed)[n - 1] == root;
    }
  }

  /** With all roots recorded over module names alone, exactly the modules' names are there. */
  lemma WithRootsComplete(c: Config, m: map<Path, Bytes>, roots: seq<Digest>)
    requires ValidConfig(c) && |roots| == |c.ids| && forall p :: p in m ==> IsModulePath(c, p)
    ensures var r := WithRoots(c, m, roots, |c.ids|);
      && (forall p :: p in r <==> IsModulePath(c, p))
      && forall i :: 0 <= i < |c.ids| ==> [c.ids[i]] in r && r[[c.ids[i]]] == roots[i]
  {
    WithRootsHolds(c, m, roots, |c.ids|);
    var r := WithRoots(c, m, roots, |c.ids|);
    forall p | IsModulePath(c, p) ensures p in r {
      var i :| 0 <= i < |c.ids| && c.ids[i] == p[0];
      assert p == [c.ids[i]];
    }
  }

  /** The tree a commit puts in the main store records the roots of the module trees it commits. */
  lemma CommitRecordsRoots(c: Config, a: AppState, n: nat)
    requires Lockstep(c, a, n)
    ensures var committed := ForAllStores(a.stores, Commit);
      && (forall i :: 0 <= i < |committed| ==> n < |committed[i].history|)
      && RecordsRoots(c, RecordRoots(c, a.main, committed, |c.ids|).pending, committed, n)
  {
    var committed := ForAllStores(a.stores, Commit);
    var roots, m := LatestRoots(committed), Contents(a.main.pending);
    RootsRecorded(c, a.main, committed, |c.ids|);
    WithRootsComplete(c, m, roots);
    CommittedRoots(a.stores, n);
  }

  lemma CommittedRoots(stores: seq<StoreModel>, n: nat)
    requires AllWellFormed(stores) && forall i :: 0 <= i < |stores| ==> stores[i].pruned == 0 && |stores[i].history| == n
    ensures var committed := ForAllStores(stores, Commit);
      forall i :: 0 <= i < |stores| ==>
        n < |committed[i].history| && LatestRoots(committed)[i] == ChildHash(committed[i].history[n])
  {
  }

  /** Roots recorded at a height stay right as long as the module trees of that height stay. */
  lemma SameRoots(c: Config, main: State, stores: seq<StoreModel>, others: seq<StoreModel>, h: nat)
    requires |stores| == |others| == |c.ids|
    requires forall i :: 0 <= i < |stores| ==>
      h < |stores[i].history| && h < |others[i].history| && stores[i].history[h] == others[i].history[h]
    requires RecordsRoots(c, main, stores, h)
    ensures RecordsRoots(c, main, others, h)
  {
  }

  lemma CommitReachesNext(c: Config, a: AppState, n: nat)
    requires AtHeight(c, a, n)
    ensures var r := CommitApp(c, a);
      && AtHeight(c, r, n + 1)
      && r.main.pending == RecordRoots(c, a.main, r.stores, |c.ids|).pending
      && r.main.history == a.main.history + [r.main.pending]
      && forall i :: 0 <= i < |a.stores| ==> r.stores[i].history == a.stores[i].history + [a.stores[i].pending]
  {
    StepKeepsWellFormed(RecordRoots(c, a.main, ForAllStores(a.stores, Commit), |c.ids|), Commit);
  }

  /** One more height in every history, its roots recorded, leaves all recorded. */
  lemma OneMoreHeight(c: Config, a: AppState, r: AppState, n: nat)
    requires AtHeight(c, a, n) && RootsRecordedBelow(c, a, n) && AtHeight(c, r, n + 1)
    requires a.main.history <= r.main.history && RecordsRoots(c, r.main.history[n], r.stores, n)
    requires forall i :: 0 <= i < |r.stores| ==> a.stores[i].history <= r.stores[i].history
    ensures RootsRecordedBelow(c, r, n + 1)
  {
    forall h | 0 <= h < n ensures RecordsRoots(c, r.main.history[h], r.stores, h) {
      SameRoots(c, a.main.history[h], a.stores, r.stores, h);
    }
  }

  lemma CommitKeepsRoots(c: Config, a: AppState, n: nat)
    requires Lockstep(c, a, n) && AtHeight(c, CommitApp(c, a), n + 1)
    requires RecordsRoots(c, CommitApp(c, a).main.pending, CommitApp(c, a).stores, n)
    ensures RootsRecordedBelow(c, CommitApp(c, a), n + 1)
  {
    CommitReachesNext(c, a, n);
    OneMoreHeight(c, a, CommitApp(c, a), n);
  }

  lemma CommitKeepsLockstep(c: Config, a: AppState, n: nat)
    requires Lockstep(c, a, n)
    ensures Lockstep(c, CommitApp(c, a), n + 1)
  {
    CommitReachesNext(c, a, n);
    CommitRecordsRoots(c, a, n);
    CommitKeepsRoots(c, a, n);
  }

  /** In every run all stores stay in lockstep. */
  lemma {:induction false} RunsInLockstep(c: Config, calls: seq<Call>)
    requires ValidConfig(c)
    ensures Lockstep(c, RunApp(c, calls), CommitCount(calls))
  {
    if calls == [] {
    } else {
      var before, call := RunApp(c, calls[..|calls| - 1]), calls[|calls| - 1];
      var n := CommitCount(calls[..|calls| - 1]);
      RunsInLockstep(c, calls[..|calls| - 1]);
      match call {
        case CommitCall => CommitKeepsLockstep(c, before, n);
        case DeliverTxCall(tx) => TxKeepsLockstep(c, before, n, tx);
        case _ => OnlyPendingKeepsLockstep(c, before, StepApp(c, before, call).stores, StepApp(c, before, call).memory, n);
      }
    }
  }

  lemma OnlyPendingKeepsLockstep(c: Config, a: AppState, stores: seq<StoreModel>, memory: Memory, n: nat)
    requires Lockstep(c, a, n) && AllWellFormed(stores) && |stores| == |a.stores|
    requires forall i :: 0 <= i < |stores| ==> stores[i].history == a.stores[i].history && stores[i].pruned == a.stores[i].pruned
    ensures Lockstep(c, a.(stores := stores, memory := memory), n)
  {
    forall h | 0 <= h < n ensures RecordsRoots(c, a.main.history[h], stores, h) {
      SameRoots(c, a.main.history[h], a.stores, stores, h);
    }
  }

  /** The resets and applies of the main store in `deliver_tx` never change it. */
  lemma TxKeepsLockstep(c: Config, a: AppState, n: nat, tx: Tx)
    requires Lockstep(c, a, n)
    ensures DeliverTx(c, a, tx).main == a.main
    ensures Lockstep(c, DeliverTx(c, a, tx), n)
  {
    var r := DeliverTx(c, a, tx);
    if Reaches(tx) {
      TxAtomic(c, a, tx);
      OnlyPendingKeepsLockstep(c, a, r.stores, r.memory, n);
    }
  }

  lemma MainStoreOnlyCommits(c: Config, calls: seq<Call>, call: Call)
    requires ValidConfig(c) && !call.CommitCall?
    ensures RunApp(c, calls + [call]).main == RunApp(c, calls).main
    ensures RunApp(c, calls).main.pending == RunApp(c, calls).main.staged
  {
    RunsInLockstep(c, calls);
    assert (calls + [call])[..|calls + [call]| - 1] == calls;
    if call.DeliverTxCall? { TxKeepsLockstep(c, RunApp(c, calls), CommitCount(calls), call.tx); }
  }

  // ---------- before the first commit ----------

  /** Nothing in the run has committed a block or completed a transaction. */
  ghost predicate NothingApplied(c: Config, calls: seq<Call>)
    requires ValidConfig(c)
  {
    calls != [] ==>
      var front, last := calls[..|calls| - 1], calls[|calls| - 1];
      && NothingApplied(c, front)
      && !last.CommitCall?
      && (last.DeliverTxCall? ==> TxResponseOf(c, RunApp(c, front), last.tx).code != 0)
  }

  /** No store has a staged or a committed tree. */
  ghost predicate NothingStaged(stores: seq<StoreModel>) {
    forall i :: 0 <= i < |stores| ==> stores[i] == FRESH.(pending := stores[i].pending)
  }

  lemma {:induction false} NothingAppliedNothingStaged(c: Config, calls: seq<Call>)
    requires ValidConfig(c) && NothingApplied(c, calls)
    ensures NothingStaged(RunApp(c, calls).stores)
  {
    if calls != [] {
      var front, last := calls[..|calls| - 1], calls[|calls| - 1];
      NothingAppliedNothingStaged(c, front);
      if last.DeliverTxCall? && Reaches(last.tx) { TxAtomic(c, RunApp(c, front), last.tx); }
    }
  }

  /** What `init_chain` wrote is only pending until a transaction succeeds or a block is committed:
      a transaction that fails before that leaves every module store as it was before genesis. */
  lemma FailureForgetsGenesis(c: Config, calls: seq<Call>, tx: Tx)
    requires ValidConfig(c) && NothingApplied(c, calls) && Reaches(tx)
    requires TxResponseOf(c, RunApp(c, calls), tx).code != 0
    ensures RunApp(c, calls + [DeliverTxCall(tx)]).stores == FreshApp(c).stores
  {
    NothingAppliedNothingStaged(c, calls);
    TxAtomic(c, RunApp(c, calls), tx);
    assert (calls + [DeliverTxCall(tx)])[..|calls + [DeliverTxCall(tx)]| - 1] == calls;
    var r, fresh' := RunApp(c, calls + [DeliverTxCall(tx)]).stores, FreshApp(c).stores;
    forall i | 0 <= i < |r| ensures r[i] == fresh'[i] { }
  }

  // ---------- the two-level proof chain ----------

  lemma ProofOfStored(t: State, path: Path)
    requires WellFormed(PATH_KEYS, t) && path in Contents(t)
    ensures var p := GetProof(PATH_KEYS, t, path);
      && p.Exist? && p.exist.key == Join(path) && p.exist.value == Contents(t)[path]
      && CalculateRoot(p.exist) == ChildHash(t)
      && (VerifyExistence(PROOF_SPEC, ChildHash(t), p.exist, Join(path), Contents(t)[path]) <==> Provable(PATH_KEYS, t, path))
  {
    PathKeysOrdered();
    GetIsLookup(PATH_KEYS, t, path, None, None);
    ExistenceComplete(PATH_KEYS, t, path);
    MembershipVerifies(PATH_KEYS, t, path);
  }

  /** The proofs chain: the first is of the key and its value in the module's tree and evaluates to
      the value that the second, of the module's name in the main tree, carries; the second
      evaluates to the main root. A verifier who knows that root alone accepts the second, and then
      the first against the value it carries, exactly when the two keys can be proved at all. */
  ghost predicate Chained(main: State, name: Identifier, tree: State, path: Path) {
    var inner, outer := GetProof(PATH_KEYS, tree, path), GetProof(PATH_KEYS, main, [name]);
    && path in Contents(tree) && inner.Exist? && outer.Exist?
    && inner.exist.key == Join(path) && inner.exist.value == Contents(tree)[path]
    && outer.exist.key == name
    && outer.exist.value == CalculateRoot(inner.exist)
    && CalculateRoot(outer.exist) == ChildHash(main)
    && (Provable(PATH_KEYS, main, [name]) <==>
          VerifyExistence(PROOF_SPEC, ChildHash(main), outer.exist, name, outer.exist.value))
    && (Provable(PATH_KEYS, tree, path) <==>
          VerifyExistence(PROOF_SPEC, outer.exist.value, inner.exist, Join(path), Contents(tree)[path]))
  }

  lemma ChainsThroughRoot(main: State, name: Identifier, tree: State, path: Path)
    requires WellFormed(PATH_KEYS, main) && WellFormed(PATH_KEYS, tree)
    requires [name] in Contents(main) && Contents(main)[[name]] == ChildHash(tree)
    ensures path in Contents(tree) ==> Chained(main, name, tree, path)
  {
    if path in Contents(tree) {
      ProofOfStored(tree, path);
      ProofOfStored(main, [name]);
    }
  }

  /** The two trees kept for height `h`, the second under its root in the first. */
  ghost predicate RootedAt(main: StoreModel, name: Identifier, sub: StoreModel, h: nat) {
    && main.pruned == 0 && sub.pruned == 0 && 1 <= h <= |main.history| && h <= |sub.history|
    && WellFormed(PATH_KEYS, main.history[h - 1]) && WellFormed(PATH_KEYS, sub.history[h - 1])
    && [name] in Contents(main.history[h - 1])
    && Contents(main.history[h - 1])[[name]] == ChildHash(sub.history[h - 1])
  }

  lemma LockstepRooted(c: Config, a: AppState, n: nat, h: nat, i: nat)
    requires Lockstep(c, a, n) && i < |c.ids| && 1 <= h <= n
    ensures RootedAt(a.main, c.ids[i], a.stores[i], h)
  {
    assert RecordsRoots(c, a.main.history[h - 1], a.stores, h - 1);
  }

  lemma RootedChains(main: StoreModel, name: Identifier, sub: StoreModel, h: nat, path: Path)
    requires RootedAt(main, name, sub, h)
    ensures var m, t := StateAt(main, Stable(h)), StateAt(sub, Stable(h));
      m.Some? && t.Some? && (path in Contents(t.value) ==> Chained(m.value, name, t.value, path))
  {
    assert StateAt(main, Stable(h)) == Some(main.history[h - 1]) && StateAt(sub, Stable(h)) == Some(sub.history[h - 1]);
    if path in Contents(sub.history[h - 1]) { ChainsThroughRoot(main.history[h - 1], name, sub.history[h - 1], path); }
  }

  /** In every run, at every committed height and for every key a module's store held there, the
      module-level proof and the main-store proof of the module's name chain to the main root of
      that height. */
  lemma TwoLevelProof(c: Config, calls: seq<Call>, h: nat, i: nat, path: Path)
    requires ValidConfig(c) && i < |c.ids| && 1 <= h <= CommitCount(calls)
    ensures var main, tree := StateAt(RunApp(c, calls).main, Stable(h)), StateAt(RunApp(c, calls).stores[i], Stable(h));
      && main.Some? && tree.Some?
      && (path in Contents(tree.value) ==> Chained(main.value, c.ids[i], tree.value, path))
  {
    RunsInLockstep(c, calls);
    var a := RunApp(c, calls);
    LockstepRooted(c, a, CommitCount(calls), h, i);
    RootedChains(a.main, c.ids[i], a.stores[i], h, path);
  }

  // ---------- queries ----------

  /** A height asked for, 0 meaning the latest, as a position in a history of which nothing is
      pruned. */
  lemma HeightIsPosition(m: StoreModel, raw: nat)
    requires m.pruned == 0
    ensures var n := |m.history|;
      StateAt(m, HeightFrom(raw)) ==
        if raw == 0 then (if n == 0 then None else Some(m.history[n - 1]))
        else if raw <= n then Some(m.history[raw - 1])
        else None
  {
  }

  lemma RunLengths(c: Config, calls: seq<Call>, i: nat)
    requires ValidConfig(c) && i < |c.ids|
    ensures var a := RunApp(c, calls);
      |a.main.history| == |a.stores[i].history| == CommitCount(calls) && a.main.pruned == a.stores[i].pruned == 0
  {
    RunsInLockstep(c, calls);
  }

  /** The module whose answer a query ends with. */
  lemma {:induction false} AnsweringModule(c: Config, a: AppState, from: nat, data: Bytes, path: Path, height: Height, prove: bool) returns (i: nat)
    requires WellFormedApp(c, a) && QueryFrom(c, a, from, data, path, height, prove) != QueryError
    ensures i < |c.ids|
    ensures var plan := c.modules[i].query(ImagesOf(a.stores), a.memory, data, path, height, prove);
      var answer := ModuleAnswer(a.stores[i], plan, height, prove);
      answer.Some? && QueryFrom(c, a, from, data, path, height, prove) == AppAnswer(a.main, c.ids[i], answer.value, height, prove)
    decreases |c.ids| - from
  {
    assert from < |c.ids|;
    QueryStep(c, a, from, data, path, height, prove);
    if c.modules[from].query(ImagesOf(a.stores), a.memory, data, path, height, prove).NotAnswered? {
      i := AnsweringModule(c, a, from + 1, data, path, height, prove);
    } else {
      i := from;
    }
  }

  /** The response is the stored value with two proofs: of the key in the module's tree and of the
      module's name in the main tree, which chain to the main root. */
  ghost predicate AnsweredWithChain(main: State, id: Identifier, tree: State, path: Path, height: nat, response: QueryResponse) {
    && Chained(main, id, tree, path)
    && response == Answer(Contents(tree)[path],
         Some([ProofOp(Join(path), GetProof(PATH_KEYS, tree, path)), ProofOp(id, GetProof(PATH_KEYS, main, [id]))]), height)
  }

  /** At every height the two stores keep, the second is under its root in the first. */
  ghost predicate InStep(main: StoreModel, id: Identifier, sub: StoreModel, n: nat) {
    && main.pruned == 0 && sub.pruned == 0 && |main.history| == |sub.history| == n
    && forall h :: 1 <= h <= n ==> RootedAt(main, id, sub, h)
  }

  lemma LockstepInStep(c: Config, a: AppState, n: nat, i: nat)
    requires Lockstep(c, a, n) && i < |c.ids|
    ensures InStep(a.main, c.ids[i], a.stores[i], n)
  {
    forall h | 1 <= h <= n ensures RootedAt(a.main, c.ids[i], a.stores[i], h) {
      LockstepRooted(c, a, n, h, i);
    }
  }

  lemma RunInStep(c: Config, calls: seq<Call>, i: nat)
    requires ValidConfig(c) && i < |c.ids|
    ensures InStep(RunApp(c, calls).main, c.ids[i], RunApp(c, calls).stores[i], CommitCount(calls))
  {
    RunsInLockstep(c, calls);
    LockstepInStep(c, RunApp(c, calls), CommitCount(calls), i);
  }

  lemma ReadResponse(main: StoreModel, id: Identifier, sub: StoreModel, path: Path, height: Height)
    requires WellFormedStore(main) && WellFormedStore(sub)
    requires StateAt(main, height).Some? && StateAt(sub, height).Some? && path in Contents(StateAt(sub, height).value)
    ensures var m, t := StateAt(main, height).value, StateAt(sub, height).value;
      && ModuleAnswer(sub, Reads(path), height, true).Some?
      && AppAnswer(main, id, ModuleAnswer(sub, Reads(path), height, true).value, height, true)
         == Answer(Contents(t)[path],
              Some([ProofOp(Join(path), GetProof(PATH_KEYS, t, path)), ProofOp(id, GetProof(PATH_KEYS, m, [id]))]), |main.history|)
  {
    var m, t := StateAt(main, height).value, StateAt(sub, height).value;
    var p, q := ProofOp(Join(path), GetProof(PATH_KEYS, t, path)), ProofOp(id, GetProof(PATH_KEYS, m, [id]));
    assert [p] + [q] == [p, q];
  }

  lemma InStepRead(main: StoreModel, id: Identifier, sub: StoreModel, n: nat, path: Path, raw: nat)
    requires InStep(main, id, sub, n) && WellFormedStore(main) && WellFormedStore(sub)
    requires ModuleAnswer(sub, Reads(path), HeightFrom(raw), true).Some?
    ensures var m, t := StateAt(main, HeightFrom(raw)), StateAt(sub, HeightFrom(raw));
      && m.Some? && t.Some?
      && AnsweredWithChain(m.value, id, t.value, path, n,
           AppAnswer(main, id, ModuleAnswer(sub, Reads(path), HeightFrom(raw), true).value, HeightFrom(raw), true))
  {
    RootedChains(main, id, sub, if raw == 0 then n else raw, path);
    ReadResponse(main, id, sub, path, HeightFrom(raw));
  }

  /** The response to a read at a height, 0 meaning the last of the `n` commits: an error exactly when
      that height is not committed or its tree has nothing under the path; otherwise what is stored
      there, alone or with the two proofs that chain. */
  ghost predicate AnswersRead(main: seq<State>, id: Identifier, sub: seq<State>, n: nat, path: Path, raw: nat, prove: bool, response: QueryResponse) {
    var h := if raw == 0 then n else raw;
    && |main| == |sub| == n
    && if h < 1 || n < h || path !in Contents(sub[h - 1]) then response == QueryError
       else if prove then AnsweredWithChain(main[h - 1], id, sub[h - 1], path, n, response)
       else response == Answer(Contents(sub[h - 1])[path], None, n)
  }

  lemma ReadAtPosition(main: StoreModel, id: Identifier, sub: StoreModel, n: nat, path: Path, raw: nat, prove: bool)
    requires InStep(main, id, sub, n) && WellFormedStore(main) && WellFormedStore(sub)
    ensures var answer := ModuleAnswer(sub, Reads(path), HeightFrom(raw), prove);
      AnswersRead(main.history, id, sub.history, n, path, raw, prove,
                  if answer.None? then QueryError else AppAnswer(main, id, answer.value, HeightFrom(raw), prove))
  {
    HeightIsPosition(main, raw);
    HeightIsPosition(sub, raw);
    if prove && ModuleAnswer(sub, Reads(path), HeightFrom(raw), true).Some? { InStepRead(main, id, sub, n, path, raw); }
  }

  /** Whether a query for a proof panics, by the position of its height. */
  lemma PanicAtPosition(main: StoreModel, id: Identifier, sub: StoreModel, n: nat, plan: QueryPlan, raw: nat)
    requires InStep(main, id, sub, n) && WellFormedStore(main) && WellFormedStore(sub)
    requires ModuleAnswer(sub, plan, HeightFrom(raw), true).Some?
    ensures AppAnswer(main, id, ModuleAnswer(sub, plan, HeightFrom(raw), true).value, HeightFrom(raw), true) == Panic
       <==> plan.Computes? && (raw > n || n == 0)
  {
    HeightIsPosition(main, raw);
    HeightIsPosition(sub, raw);
  }

  /** In every run, the two proofs that answer a provable read are of the value returned and chain
      to the main root of the height asked for; and the only query that panics is one for a proof
      at a height not committed yet, or before any commit, taken on by a module that answers without
      reading that height. */
  lemma QueryProofsChain(c: Config, calls: seq<Call>, data: Bytes, path: Path, raw: nat) returns (i: nat)
    requires ValidConfig(c)
    ensures var a, n, height := RunApp(c, calls), CommitCount(calls), HeightFrom(raw);
      var response := QueryFrom(c, a, 0, data, path, height, true);
      response != QueryError ==>
        && i < |c.ids|
        && var plan := c.modules[i].query(ImagesOf(a.stores), a.memory, data, path, height, true);
           && (response == Panic <==> plan.Computes? && (raw > n || n == 0))
           && (plan.Reads? ==> AnswersRead(a.main.history, c.ids[i], a.stores[i].history, n, plan.path, raw, true, response))
  {
    var a, n := RunApp(c, calls), CommitCount(calls);
    i := 0;
    if QueryFrom(c, a, 0, data, path, HeightFrom(raw), true) != QueryError {
      i := AnsweringModule(c, a, 0, data, path, HeightFrom(raw), true);
      var plan := c.modules[i].query(ImagesOf(a.stores), a.memory, data, path, HeightFrom(raw), true);
      RunInStep(c, calls, i);
      PanicAtPosition(a.main, c.ids[i], a.stores[i], n, plan, raw);
      if plan.Reads? { ReadAtPosition(a.main, c.ids[i], a.stores[i], n, plan.path, raw, true); }
    }
  }
}
