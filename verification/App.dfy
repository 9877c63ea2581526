/**
 The application in place: the builder that registers modules, and the ABCI calls as loops over
 the registered modules. Every method is proved against the function of the same purpose in
 `AppModel`. The shared, locked stores of the source are plain objects here, each call atomic.
 */
module App {
  import opened Bytes
  import opened AvlModel
  import opened Paths
  import opened Store
  import opened AppModel
  import opened AppProofs

  datatype IdentifiedModule = IdentifiedModule(id: Identifier, code: Module, store: InMemoryStore)

  /** No two modules share a name or a store, and none shares the main store. */
  ghost predicate Unshared(main: InMemoryStore, modules: seq<IdentifiedModule>) {
    && (forall i :: 0 <= i < |modules| ==> modules[i].store != main && modules[i].store.store != main.store)
    && (forall i, j :: 0 <= i < j < |modules| ==>
          && modules[i].id != modules[j].id
          && modules[i].store != modules[j].store && modules[i].store.store != modules[j].store.store)
  }

  ghost function ModuleStores(modules: seq<IdentifiedModule>): set<InMemoryStore> {
    set m | m in modules :: m.store
  }

  ghost function ModuleVecs(modules: seq<IdentifiedModule>): set<PrunedVec<State>> {
    set m | m in modules :: m.store.store
  }

  function ConfigOf(modules: seq<IdentifiedModule>, memory: Memory): Config {
    Config(seq(|modules|, i requires 0 <= i < |modules| => modules[i].id),
           seq(|modules|, i requires 0 <= i < |modules| => modules[i].code), memory)
  }

  ghost function StoresOf(modules: seq<IdentifiedModule>): (r: seq<StoreModel>)
    reads ModuleStores(modules), ModuleVecs(modules)
    ensures |r| == |modules| && forall i :: 0 <= i < |modules| ==> r[i] == modules[i].store.View()
  {
    if modules == [] then [] else StoresOf(modules[..|modules| - 1]) + [modules[|modules| - 1].store.View()]
  }

  /** A loop over the module stores has turned the first `i` of them from `before` to `after`. */
  ghost predicate Halfway(before: seq<StoreModel>, after: seq<StoreModel>, now: seq<StoreModel>, i: nat) {
    && |before| == |after| == |now|
    && forall j :: 0 <= j < |now| ==> now[j] == if j < i then after[j] else before[j]
  }

  lemma HalfwayStep(before: seq<StoreModel>, after: seq<StoreModel>, now: seq<StoreModel>, i: nat)
    requires Halfway(before, after, now, i) && i < |now|
    ensures now[i] == before[i] && Halfway(before, after, now[i := after[i]], i + 1)
  {
  }

  lemma HalfwayDone(before: seq<StoreModel>, after: seq<StoreModel>, now: seq<StoreModel>)
    requires Halfway(before, after, now, |now|)
    ensures now == after
  {
  }

  lemma Associate(a: seq<Event>, b: seq<Event>, c: seq<Event>)
    ensures (a + b) + c == a + (b + c)
  {
  }

  class BaseCoinApp {
    const store: InMemoryStore
    const modules: seq<IdentifiedModule>

    /** What the modules keep outside the stores, at first and now. */
    const origin: Memory
    var memory: Memory

    ghost predicate Valid()
      reads store, store.store, ModuleStores(modules), ModuleVecs(modules)
    {
      && Unshared(store, modules)
      && store.Valid()
      && forall i :: 0 <= i < |modules| ==> modules[i].store.Valid()
    }

    ghost function View(): AppState
      reads this, store, store.store, ModuleStores(modules), ModuleVecs(modules)
    {
      AppState(store.View(), StoresOf(modules), memory)
    }

    function Configuration(): Config {
      ConfigOf(modules, origin)
    }

    constructor (store: InMemoryStore, modules: seq<IdentifiedModule>, memory: Memory)
      requires Unshared(store, modules) && store.Valid()
      requires forall i :: 0 <= i < |modules| ==> modules[i].store.Valid()
      ensures Valid() && this.store == store && this.modules == modules
      ensures origin == memory && this.memory == memory
    {
      this.store, this.modules, origin, this.memory := store, modules, memory, memory;
    }

    /** What the modules can read of all module stores. */
    method Images() returns (r: seq<Image>)
      requires Valid()
      ensures AllWellFormed(View().stores) && r == ImagesOf(View().stores)
    {
      r := [];
      for i := 0 to |modules|
        invariant |r| == i
        invariant forall j :: 0 <= j < i ==> r[j] == ImageOf(View().stores[j])
      {
        var s := modules[i].store;
        r := r + [Image(s.store.vec, s.store.pruned, s.pending)];
      }
    }

    lemma StoresWellFormed()
      requires Valid()
      ensures WellFormedApp(Configuration(), View())
    {
    }

    method PerformWrite(w: Write)
      requires Valid()
      modifies ModuleStores(modules)
      ensures Valid()
      ensures AllWellFormed(old(View().stores))
      ensures View() == old(View()).(stores := ApplyWrite(old(View().stores), w))
    {
      ghost var before := View();
      if w.at < |modules| {
        var s := modules[w.at].store;
        match w {
          case SetAt(_, path, value) =>
            var _ := s.SetPath(path, value);
          case DeleteAt(_, path) =>
            s.DeletePath(path);
        }
        assert s.View() == StepStore(before.stores[w.at], OpOf(w));
      }
      assert View().stores == ApplyWrite(before.stores, w);
    }

    /** Carries out a module's store accesses. */
    method PerformWrites(writes: seq<Write>)
      requires Valid()
      modifies ModuleStores(modules)
      ensures Valid()
      ensures AllWellFormed(old(View().stores))
      ensures View() == old(View()).(stores := ApplyWrites(old(View().stores), writes))
    {
      assert writes[..0] == [];
      for k := 0 to |writes|
        invariant Valid() && AllWellFormed(old(View().stores))
        invariant View() == old(View()).(stores := ApplyWrites(old(View().stores), writes[..k]))
      {
        assert writes[..k + 1][..k] == writes[..k];
        PerformWrite(writes[k]);
      }
      assert writes[..|writes|] == writes;
    }

    method Remember(next: Memory)
      requires Valid()
      modifies this`memory
      ensures Valid() && View() == old(View()).(memory := next)
    {
      memory := next;
    }

    /** Carries out what a module's code asks for, in the stores and outside them. */
    method CarryOut(writes: seq<Write>, next: Memory)
      requires Valid()
      modifies this`memory, ModuleStores(modules)
      ensures Valid() && AllWellFormed(old(View().stores))
      ensures View() == AppState(old(View().main), ApplyWrites(old(View().stores), writes), next)
    {
      PerformWrites(writes);
      Remember(next);
    }

    /** Runs one module's code on the message: its answer ends the search or the rest is still to come. */
    method DeliverTo(i: nat, message: Message, signer: Account) returns (response: Response)
      requires Valid() && i < |modules|
      modifies this`memory, ModuleStores(modules)
      ensures Valid() && AllWellFormed(old(View().stores)) && AllWellFormed(View().stores)
      ensures View().main == old(View().main)
      ensures response == modules[i].code.deliver(ImagesOf(old(View().stores)), old(memory), message, signer).response
      ensures DeliverMsgFrom(Configuration().modules, old(View().stores), old(memory), i, message, signer)
           == if response.NotHandled? then DeliverMsgFrom(Configuration().modules, View().stores, memory, i + 1, message, signer)
              else Delivered(View().stores, memory, response)
    {
      StoresWellFormed();
      ghost var before := View();
      var images := Images();
      assert View() == before;
      var effect := modules[i].code.deliver(images, memory, message, signer);
      DeliverStep(Configuration().modules, before.stores, before.memory, i, message, signer, effect);
      CarryOut(effect.writes, effect.memory);
      response := effect.response;
    }

    /** Offers the message to each module until one handles it or fails. */
    method DeliverMsg(message: Message, signer: Account) returns (response: Response)
      requires Valid()
      modifies this`memory, ModuleStores(modules)
      ensures Valid() && View().main == old(View().main)
      ensures AllWellFormed(old(View().stores))
      ensures Delivered(View().stores, memory, response)
           == DeliverMsgFrom(Configuration().modules, old(View().stores), old(memory), 0, message, signer)
    {
      StoresWellFormed();
      ghost var codes, before := Configuration().modules, View();
      ghost var target := DeliverMsgFrom(codes, before.stores, before.memory, 0, message, signer);
      for i := 0 to |modules|
        invariant Valid() && AllWellFormed(View().stores) && View().main == before.main
        invariant DeliverMsgFrom(codes, View().stores, memory, i, message, signer) == target
      {
        response := DeliverTo(i, message, signer);
        if !response.NotHandled? {
          return;
        }
      }
      DeliverNone(codes, View().stores, memory, message, signer);
      response := NotHandled;
    }

    method ResetAll()
      requires Valid()
      modifies ModuleStores(modules)
      ensures Valid() && View().main == old(View().main) && memory == old(memory)
      ensures AllWellFormed(old(View().stores)) && View().stores == ForAllStores(old(View().stores), Reset)
    {
      StoresWellFormed();
      ghost var before := View();
      ghost var after := ForAllStores(before.stores, Reset);
      for i := 0 to |modules|
        invariant Valid() && View().main == before.main && Halfway(before.stores, after, View().stores, i)
      {
        ghost var now := View().stores;
        HalfwayStep(before.stores, after, now, i);
        modules[i].store.ResetChanges();
        assert View().stores == now[i := after[i]];
      }
      HalfwayDone(before.stores, after, View().stores);
    }

    /** Undoes the transaction in every module store, and in the main store just in case. */
    method ResetEverywhere()
      requires Valid()
      modifies store, ModuleStores(modules)
      ensures Valid() && WellFormedApp(Configuration(), old(View()))
      ensures View() == AppState(StepStore(old(View().main), Reset), ForAllStores(old(View().stores), Reset), old(memory))
    {
      StoresWellFormed();
      ResetAll();
      ghost var stores := View().stores;
      store.ResetChanges();
      assert View().stores == stores;
    }

    method ApplyAll()
      requires Valid()
      modifies ModuleStores(modules)
      ensures Valid() && View().main == old(View().main) && memory == old(memory)
      ensures AllWellFormed(old(View().stores)) && View().stores == ForAllStores(old(View().stores), Apply)
    {
      StoresWellFormed();
      ghost var before := View();
      ghost var after := ForAllStores(before.stores, Apply);
      for i := 0 to |modules|
        invariant Valid() && View().main == before.main && Halfway(before.stores, after, View().stores, i)
      {
        ghost var now := View().stores;
        HalfwayStep(before.stores, after, now, i);
        modules[i].store.ApplyChanges();
        assert View().stores == now[i := after[i]];
      }
      HalfwayDone(before.stores, after, View().stores);
    }

    /** Keeps the transaction in every module store, and in the main store just in case. */
    method ApplyEverywhere()
      requires Valid()
      modifies store, ModuleStores(modules)
      ensures Valid() && WellFormedApp(Configuration(), old(View()))
      ensures View() == AppState(StepStore(old(View().main), Apply), ForAllStores(old(View().stores), Apply), old(memory))
    {
      StoresWellFormed();
      ApplyAll();
      ghost var stores := View().stores;
      store.ApplyChanges();
      assert View().stores == stores;
    }

    /** The message loop of `deliver_tx`, up to the first message that is not handled. */
    method DeliverMessages(messages: seq<Message>, signer: Account) returns (response: Response)
      requires Valid()
      modifies this`memory, ModuleStores(modules)
      ensures Valid() && View().main == old(View().main) && AllWellFormed(old(View().stores))
      ensures Delivered(View().stores, memory, response)
           == DeliverAll(Configuration().modules, old(View().stores), old(memory), messages, signer)
    {
      StoresWellFormed();
      ghost var codes, before, kept := Configuration().modules, View().stores, memory;
      var events: seq<Event> := [];
      for k := 0 to |messages|
        invariant Valid() && View().main == old(View().main) && AllWellFormed(View().stores)
        invariant DeliverAll(codes, before, kept, messages[..k], signer) == Delivered(View().stores, memory, Handled(events))
      {
        assert messages[..k + 1][..k] == messages[..k];
        var answer := DeliverMsg(messages[k], signer);
        if !answer.Handled? {
          FirstFailureStops(codes, before, kept, messages, k + 1, signer);
          return answer;
        }
        events := events + answer.events;
      }
      assert messages[..|messages|] == messages;
      response := Handled(events);
    }

    method DeliverTx(tx: Tx) returns (response: TxResponse)
      requires Valid()
      modifies this`memory, store, ModuleStores(modules)
      ensures Valid() && WellFormedApp(Configuration(), old(View()))
      ensures View() == AppModel.DeliverTx(Configuration(), old(View()), tx)
      ensures response == TxResponseOf(Configuration(), old(View()), tx)
    {
      StoresWellFormed();
      if tx.Undecodable? {
        return TxResponse(1, []);
      }
      if tx.BadSigner? || tx.messages == [] {
        return TxResponse(2, []);
      }
      var delivered := DeliverMessages(tx.messages, tx.signer);
      if delivered.Handled? {
        ApplyEverywhere();
        response := TxResponse(0, delivered.events);
      } else {
        ResetEverywhere();
        response := TxResponse(2, []);
      }
    }

    method CommitStore(i: nat) returns (root: Digest)
      requires Valid() && i < |modules|
      modifies ModuleStores(modules), ModuleVecs(modules)
      ensures Valid() && AllWellFormed(old(View().stores)) && AllWellFormed(View().stores)
      ensures View() == old(View()).(stores := old(View().stores)[i := StepStore(old(View().stores[i]), StoreOp.Commit)])
      ensures root == RootHashOf(StateAt(View().stores[i], Latest))
    {
      StoresWellFormed();
      ghost var before := View();
      var s := modules[i].store;
      var _ := s.CommitBlock();
      assert View().stores == before.stores[i := StepStore(before.stores[i], StoreOp.Commit)];
      assert View().main == before.main;
      ghost var after := View();
      root := s.RootHash();
      assert View() == after;
    }

    method RecordRoot(id: Identifier, root: Digest)
      requires Valid()
      modifies store
      ensures Valid() && WellFormedApp(Configuration(), old(View()))
      ensures View() == old(View()).(main := StepStore(old(View().main), Set([id], root)))
    {
      StoresWellFormed();
      ghost var stores := View().stores;
      var _ := store.SetPath([id], root);
      assert View().stores == stores;
    }

    /** Commits one module's store and records its root in the main store. */
    method CommitModule(i: nat)
      requires Valid() && i < |modules|
      modifies store, ModuleStores(modules), ModuleVecs(modules)
      ensures Valid() && WellFormedApp(Configuration(), old(View()))
      ensures AllWellFormed(View().stores)
      ensures View().stores == old(View().stores)[i := StepStore(old(View().stores[i]), StoreOp.Commit)]
      ensures View().main == StepStore(old(View().main), Set([modules[i].id], RootHashOf(StateAt(View().stores[i], Latest))))
      ensures memory == old(memory)
    {
      StoresWellFormed();
      var root := CommitStore(i);
      RecordRoot(modules[i].id, root);
    }

    method CommitModules()
      requires Valid()
      modifies store, ModuleStores(modules), ModuleVecs(modules)
      ensures Valid() && WellFormedApp(Configuration(), old(View()))
      ensures var committed := ForAllStores(old(View().stores), StoreOp.Commit);
        View() == AppState(RecordRoots(Configuration(), old(View().main), committed, |modules|), committed, old(memory))
    {
      StoresWellFormed();
      ghost var c, before := Configuration(), View();
      ghost var committed := ForAllStores(before.stores, StoreOp.Commit);
      for i := 0 to |modules|
        invariant Valid() && Halfway(before.stores, committed, View().stores, i)
        invariant View().main == RecordRoots(c, before.main, committed, i) && memory == before.memory
      {
        ghost var now := View();
        HalfwayStep(before.stores, committed, now.stores, i);
        RecordStep(c, before.main, committed, i);
        CommitModule(i);
        assert View().stores == now.stores[i := committed[i]];
        assert View().main == StepStore(now.main, Set([c.ids[i]], RootHashOf(StateAt(committed[i], Latest))));
      }
      HalfwayDone(before.stores, committed, View().stores);
    }

    method CommitMain() returns (root: Digest)
      requires Valid()
      modifies store, store.store
      ensures Valid() && WellFormedApp(Configuration(), old(View()))
      ensures View() == old(View()).(main := StepStore(old(View().main), StoreOp.Commit))
      ensures root == RootHashOf(StateAt(View().main, Latest))
    {
      StoresWellFormed();
      ghost var stores := View().stores;
      root := store.CommitBlock();
      assert View().stores == stores;
    }

    method Commit() returns (root: Digest)
      requires Valid()
      modifies store, store.store, ModuleStores(modules), ModuleVecs(modules)
      ensures Valid() && WellFormedApp(Configuration(), old(View()))
      ensures View() == CommitApp(Configuration(), old(View()))
      ensures root == RootHashOf(StateAt(View().main, Latest))
    {
      StoresWellFormed();
      CommitModules();
      root := CommitMain();
    }

    method InitModule(i: nat, genesis: Bytes)
      requires Valid() && i < |modules|
      modifies this`memory, ModuleStores(modules)
      ensures Valid() && AllWellFormed(old(View().stores)) && AllWellFormed(View().stores)
      ensures View().main == old(View().main)
      ensures InitFrom(Configuration().modules, old(View().stores), old(memory), i, genesis)
           == InitFrom(Configuration().modules, View().stores, memory, i + 1, genesis)
    {
      StoresWellFormed();
      ghost var before := View();
      var images := Images();
      assert View() == before;
      var done := modules[i].code.init(images, memory, genesis);
      InitStep(Configuration().modules, before.stores, before.memory, i, genesis);
      CarryOut(done.writes, done.memory);
    }

    /** The modules initialise in order. */
    method InitModules(genesis: Bytes)
      requires Valid()
      modifies this`memory, ModuleStores(modules)
      ensures Valid() && WellFormedApp(Configuration(), old(View()))
      ensures View() == StepApp(Configuration(), old(View()), Call.InitChain(genesis))
    {
      StoresWellFormed();
      ghost var codes, before := Configuration().modules, View();
      ghost var target := InitFrom(codes, before.stores, before.memory, 0, genesis);
      for i := 0 to |modules|
        invariant Valid() && AllWellFormed(View().stores) && View().main == before.main
        invariant InitFrom(codes, View().stores, memory, i, genesis) == target
      {
        InitModule(i, genesis);
      }
      InitNone(codes, View().stores, memory, genesis);
    }

    method InitChain(genesis: Bytes) returns (root: Digest)
      requires Valid()
      modifies this`memory, ModuleStores(modules)
      ensures Valid() && WellFormedApp(Configuration(), old(View()))
      ensures View() == StepApp(Configuration(), old(View()), Call.InitChain(genesis))
      ensures root == RootHashOf(StateAt(View().main, Latest))
      ensures var m := old(View()).main;
        root == if m.pruned == |m.history| then [0, 0, 0, 0, 0, 0, 0, 0, 0, 0, 0, 0, 0, 0, 0, 0, 0, 0, 0, 0, 0, 0, 0, 0, 0, 0, 0, 0, 0, 0, 0, 0]
                else ChildHash(m.history[|m.history| - 1])
    {
      InitModules(genesis);
      ghost var after := View();
      root := store.RootHash();
      assert View() == after;
    }

    /** One module begins the block; `r` are the events so far with its own after them. */
    method BeginModule(i: nat, header: Bytes, events: seq<Event>) returns (r: seq<Event>)
      requires Valid() && i < |modules|
      modifies this`memory, ModuleStores(modules)
      ensures Valid() && AllWellFormed(old(View().stores)) && AllWellFormed(View().stores)
      ensures View().main == old(View().main)
      ensures BeginFrom(Configuration().modules, old(View().stores), old(memory), i, header)
           == BeginFrom(Configuration().modules, View().stores, memory, i + 1, header)
      ensures events + BeginEventsFrom(Configuration().modules, old(View().stores), old(memory), i, header)
           == r + BeginEventsFrom(Configuration().modules, View().stores, memory, i + 1, header)
    {
      StoresWellFormed();
      ghost var before := View();
      var images := Images();
      assert View() == before;
      var begun := modules[i].code.beginBlock(images, memory, header);
      BeginStep(Configuration().modules, before.stores, before.memory, i, header);
      CarryOut(begun.writes, begun.memory);
      r := events + begun.events;
      Associate(events, begun.events, BeginEventsFrom(Configuration().modules, View().stores, memory, i + 1, header));
    }

    method BeginBlock(header: Bytes) returns (events: seq<Event>)
      requires Valid()
      modifies this`memory, ModuleStores(modules)
      ensures Valid() && WellFormedApp(Configuration(), old(View()))
      ensures View() == StepApp(Configuration(), old(View()), Call.BeginBlock(header))
      ensures events == BeginEventsFrom(Configuration().modules, old(View().stores), old(memory), 0, header)
    {
      events := [];
      StoresWellFormed();
      ghost var codes, before := Configuration().modules, View();
      ghost var target := BeginFrom(codes, before.stores, before.memory, 0, header);
      ghost var said := BeginEventsFrom(codes, before.stores, before.memory, 0, header);
      for i := 0 to |modules|
        invariant Valid() && AllWellFormed(View().stores) && View().main == before.main
        invariant BeginFrom(codes, View().stores, memory, i, header) == target
        invariant events + BeginEventsFrom(codes, View().stores, memory, i, header) == said
      {
        events := BeginModule(i, header, events);
      }
      BeginNone(codes, View().stores, memory, header);
    }

    method PlanOf(i: nat, data: Bytes, path: Path, height: Height, prove: bool) returns (plan: QueryPlan)
      requires Valid() && i < |modules|
      ensures AllWellFormed(View().stores)
      ensures plan == modules[i].code.query(ImagesOf(View().stores), memory, data, path, height, prove)
    {
      StoresWellFormed();
      ghost var before := View();
      var images := Images();
      assert View() == before;
      plan := modules[i].code.query(images, memory, data, path, height, prove);
    }

    /** The answer of one module to a query it takes on, read from its own store. */
    method AnswerFrom(i: nat, plan: QueryPlan, height: Height, prove: bool) returns (answer: Option<(Bytes, seq<ProofOp>)>)
      requires Valid() && i < |modules|
      ensures answer == ModuleAnswer(View().stores[i], plan, height, prove)
    {
      match plan
      case NotAnswered => return None;
      case Refuses => return None;
      case Computes(data) => return Some((data, []));
      case Reads(path) =>
        var ops: seq<ProofOp> := [];
        if prove {
          var proof := modules[i].store.GetProof(height, path);
          if proof.None? {
            return None;
          }
          ops := [ProofOp(Join(path), proof.value)];
        }
        var value := modules[i].store.Get(height, path);
        answer := if value.None? then None else Some((value.value, ops));
    }

    method Respond(id: Identifier, answer: (Bytes, seq<ProofOp>), height: Height, prove: bool) returns (response: QueryResponse)
      requires Valid()
      ensures response == AppAnswer(View().main, id, answer, height, prove)
    {
      var current := store.CurrentHeight();
      if !prove {
        return Answer(answer.0, None, current);
      }
      var proof := store.GetProof(height, [id]);
      response := if proof.None? then Panic else Answer(answer.0, Some(answer.1 + [ProofOp(id, proof.value)]), current);
    }

    /** One module's response to the query, if it takes the query on. */
    method Ask(i: nat, data: Bytes, path: Path, height: Height, prove: bool) returns (r: Option<QueryResponse>)
      requires Valid() && i < |modules|
      ensures AllWellFormed(View().stores)
      ensures var plan := modules[i].code.query(ImagesOf(View().stores), memory, data, path, height, prove);
        var answer := ModuleAnswer(View().stores[i], plan, height, prove);
        r == if plan.NotAnswered? then None
             else if answer.None? then Some(QueryError)
             else Some(AppAnswer(View().main, modules[i].id, answer.value, height, prove))
    {
      StoresWellFormed();
      ghost var a := View();
      var plan := PlanOf(i, data, path, height, prove);
      assert View() == a;
      if plan.NotAnswered? {
        return None;
      }
      var answer := AnswerFrom(i, plan, height, prove);
      assert View() == a;
      if answer.None? {
        return Some(QueryError);
      }
      var response := Respond(modules[i].id, answer.value, height, prove);
      assert View() == a;
      r := Some(response);
    }

    /** Asks each module until one takes the query on. */
    method Query(data: Bytes, path: Path, rawHeight: nat, prove: bool) returns (response: QueryResponse)
      requires Valid()
      ensures WellFormedApp(Configuration(), View())
      ensures response == QueryFrom(Configuration(), View(), 0, data, path, HeightFrom(rawHeight), prove)
    {
      var height := HeightFrom(rawHeight);
      StoresWellFormed();
      ghost var c, a := Configuration(), View();
      ghost var target := QueryFrom(c, a, 0, data, path, height, prove);
      for i := 0 to |modules|
        invariant Valid() && View() == a
        invariant QueryFrom(c, a, i, data, path, height, prove) == target
      {
        QueryStep(c, a, i, data, path, height, prove);
        var answered := Ask(i, data, path, height, prove);
        assert View() == a;
        if answered.Some? {
          return answered.value;
        }
      }
      response := QueryError;
    }
  }

  // ---------- building ----------

  class Builder {
    const store: InMemoryStore
    var modules: seq<IdentifiedModule>

    ghost predicate Valid()
      reads this, store, store.store, ModuleStores(modules), ModuleVecs(modules)
    {
      && Unshared(store, modules)
      && store.Valid()
      && forall i :: 0 <= i < |modules| ==> modules[i].store.Valid()
    }

    constructor (store: InMemoryStore)
      requires store.Valid()
      ensures Valid() && this.store == store && modules == []
    {
      this.store, modules := store, [];
    }

    /** The store of the module already registered under the name, or else a new one. */
    method ModuleStore(prefix: Identifier) returns (s: InMemoryStore)
      requires Valid()
      ensures s.Valid()
      ensures forall m :: m in modules && m.id == prefix ==> s == m.store
      ensures (forall m :: m in modules ==> m.id != prefix) ==> fresh(s) && fresh(s.store) && s.View() == FRESH
    {
      for i := 0 to |modules|
        invariant forall j :: 0 <= j < i ==> modules[j].id != prefix
      {
        if modules[i].id == prefix {
          return modules[i].store;
        }
      }
      s := new InMemoryStore();
    }

    /** Registers a module; its name must be new, and here its store must be its own. */
    method AddModule(m: IdentifiedModule)
      requires Valid() && m.store.Valid() && Unshared(store, modules + [m])
      modifies this`modules
      ensures Valid() && modules == old(modules) + [m]
    {
      modules := modules + [m];
    }

    /** `memory` is what the registered modules hold outside their stores by now. */
    method Build(memory: Memory) returns (app: BaseCoinApp)
      requires Valid()
      ensures app.Valid() && app.store == store && app.modules == modules && app.memory == memory
      ensures ValidConfig(app.Configuration()) && app.Configuration().memory == memory
    {
      app := new BaseCoinApp(store, modules, memory);
    }
  }
}
