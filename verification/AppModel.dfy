/**
 The application as a state machine over values: one main store, one store per module, and the
 ABCI calls that change them.
 */
module AppModel {
  import opened Bytes
  import opened AvlModel
  import opened AvlOrder
  import opened Paths
  import opened Store
  import opened Ics23
  import opened AvlProofs

  type Event = Bytes

  /** All that the modules keep outside the stores: counters, events not yet emitted, maps of
      their own. It can be anything; no call of the application saves or restores it. */
  type Memory(!new)

  /** A message as delivered: its type and its encoded content. */
  datatype Message = Message(typeUrl: Bytes, value: Bytes)

  /** What a module can read of a store: the committed trees still kept, and the pending tree. */
  datatype Image = Image(kept: seq<State>, pruned: nat, pending: State)

  /** One store access of a module, to the store of the module at position `at`. A position past
      the list is a store that no registered module owns. */
  datatype Write =
    | SetAt(at: nat, path: Path, value: Bytes)
    | DeleteAt(at: nat, path: Path)

  datatype Response =
    | Handled(events: seq<Event>)
    | NotHandled
    | Failed(reason: Bytes)

  datatype Effect = Effect(writes: seq<Write>, memory: Memory, response: Response)

  datatype Begun = Begun(writes: seq<Write>, memory: Memory, events: seq<Event>)

  datatype Initialised = Initialised(writes: seq<Write>, memory: Memory)

  /** A module's code: an arbitrary function of the stores it can read and of what modules keep
      outside them. Its writes may reach its own and, through keepers, other modules' stores. */
  datatype Module = Module(
    deliver: (seq<Image>, Memory, Message, Account) -> Effect,
    init: (seq<Image>, Memory, Bytes) -> Initialised,
    beginBlock: (seq<Image>, Memory, Bytes) -> Begun,
    query: (seq<Image>, Memory, Bytes, Path, Height, bool) -> QueryPlan)

  /** How a module answers a query: not at all, with an error, by reading its own store at the
      height asked for (with a proof if one is wanted), or with data of its own making. */
  datatype QueryPlan = NotAnswered | Refuses | Reads(path: Path) | Computes(data: Bytes)

  datatype Tx = Undecodable | BadSigner | Tx(signer: Account, messages: seq<Message>)

  datatype TxResponse = TxResponse(code: nat, events: seq<Event>)

  // ---------- reading and writing the module stores ----------

  ghost predicate AllWellFormed(stores: seq<StoreModel>) {
    forall i :: 0 <= i < |stores| ==> WellFormedStore(stores[i])
  }

  ghost function ImageOf(m: StoreModel): Image
    requires m.pruned <= |m.history|
  {
    Image(m.history[m.pruned..], m.pruned, m.pending)
  }

  ghost function ImagesOf(stores: seq<StoreModel>): seq<Image>
    requires AllWellFormed(stores)
  {
    seq(|stores|, i requires 0 <= i < |stores| => ImageOf(stores[i]))
  }

  function OpOf(w: Write): StoreOp {
    match w
    case SetAt(_, path, value) => Set(path, value)
    case DeleteAt(_, path) => Delete(path)
  }

  ghost function ApplyWrite(stores: seq<StoreModel>, w: Write): (r: seq<StoreModel>)
    requires AllWellFormed(stores)
    ensures AllWellFormed(r)
    ensures |r| == |stores| && forall i :: 0 <= i < |r| ==> r[i] == stores[i].(pending := r[i].pending)
    ensures forall i :: 0 <= i < |r| && i != w.at ==> r[i] == stores[i]
  {
    if w.at < |stores| then
      StepKeepsWellFormed(stores[w.at], OpOf(w));
      stores[w.at := StepStore(stores[w.at], OpOf(w))]
    else stores
  }

  /** Writes reach nothing but pending trees. */
  ghost function ApplyWrites(stores: seq<StoreModel>, writes: seq<Write>): (r: seq<StoreModel>)
    requires AllWellFormed(stores)
    ensures AllWellFormed(r)
    ensures |r| == |stores| && forall i :: 0 <= i < |r| ==> r[i] == stores[i].(pending := r[i].pending)
  {
    if writes == [] then stores
    else ApplyWrite(ApplyWrites(stores, writes[..|writes| - 1]), writes[|writes| - 1])
  }

  // ---------- delivering ----------

  datatype Delivered = Delivered(stores: seq<StoreModel>, memory: Memory, response: Response)

  /** Offers the message to the modules from position `from` on; a module that answers
      `NotHandled` may have written to the stores all the same. */
  ghost function DeliverMsgFrom(modules: seq<Module>, stores: seq<StoreModel>, memory: Memory, from: nat, message: Message, signer: Account): (r: Delivered)
    requires AllWellFormed(stores)
    ensures AllWellFormed(r.stores)
    ensures |r.stores| == |stores| && forall i :: 0 <= i < |stores| ==> r.stores[i] == stores[i].(pending := r.stores[i].pending)
    decreases |modules| - from
  {
    if from >= |modules| then Delivered(stores, memory, NotHandled)
    else
      var effect := modules[from].deliver(ImagesOf(stores), memory, message, signer);
      var after := ApplyWrites(stores, effect.writes);
      if effect.response.NotHandled? then DeliverMsgFrom(modules, after, effect.memory, from + 1, message, signer)
      else Delivered(after, effect.memory, effect.response)
  }

  lemma DeliverStep(modules: seq<Module>, stores: seq<StoreModel>, memory: Memory, from: nat, message: Message, signer: Account, effect: Effect)
    requires AllWellFormed(stores) && from < |modules|
    requires effect == modules[from].deliver(ImagesOf(stores), memory, message, signer)
    ensures DeliverMsgFrom(modules, stores, memory, from, message, signer)
         == if effect.response.NotHandled?
            then DeliverMsgFrom(modules, ApplyWrites(stores, effect.writes), effect.memory, from + 1, message, signer)
            else Delivered(ApplyWrites(stores, effect.writes), effect.memory, effect.response)
  {
  }

  lemma DeliverNone(modules: seq<Module>, stores: seq<StoreModel>, memory: Memory, message: Message, signer: Account)
    requires AllWellFormed(stores)
    ensures DeliverMsgFrom(modules, stores, memory, |modules|, message, signer) == Delivered(stores, memory, NotHandled)
  {
  }

  /** Delivers the messages in order, stopping at the first that is not handled. */
  ghost function DeliverAll(modules: seq<Module>, stores: seq<StoreModel>, memory: Memory, messages: seq<Message>, signer: Account): (r: Delivered)
    requires AllWellFormed(stores)
    ensures AllWellFormed(r.stores)
    ensures |r.stores| == |stores| && forall i :: 0 <= i < |stores| ==> r.stores[i] == stores[i].(pending := r.stores[i].pending)
  {
    if messages == [] then Delivered(stores, memory, Handled([]))
    else
      var before := DeliverAll(modules, stores, memory, messages[..|messages| - 1], signer);
      if !before.response.Handled? then before
      else
        var d := DeliverMsgFrom(modules, before.stores, before.memory, 0, messages[|messages| - 1], signer);
        if d.response.Handled? then d.(response := Handled(before.response.events + d.response.events)) else d
  }

  ghost function ForAllStores(stores: seq<StoreModel>, op: StoreOp): (r: seq<StoreModel>)
    requires AllWellFormed(stores) && !op.Prune?
    ensures |r| == |stores| && forall i :: 0 <= i < |r| ==> r[i] == StepStore(stores[i], op)
    ensures AllWellFormed(r)
  {
    var r := seq(|stores|, i requires 0 <= i < |stores| => StepStore(stores[i], op));
    assert AllWellFormed(r) by {
      forall i | 0 <= i < |stores| ensures WellFormedStore(r[i]) { StepKeepsWellFormed(stores[i], op); }
    }
    r
  }

  // ---------- the application ----------

  datatype ProofOp = ProofOp(key: Bytes, proof: Proof)

  /** `Panic` is the source's `unwrap` of a main-store proof that is not there. */
  datatype QueryResponse =
    | QueryError
    | Panic
    | Answer(value: Bytes, proofOps: Option<seq<ProofOp>>, height: nat)

  datatype AppState = AppState(main: StoreModel, stores: seq<StoreModel>, memory: Memory)

  /** The modules registered with an application, in order, and what they keep outside the stores
      to begin with. */
  datatype Config = Config(ids: seq<Identifier>, modules: seq<Module>, memory: Memory)

  ghost predicate ValidConfig(c: Config) {
    |c.ids| == |c.modules| && forall i, j :: 0 <= i < j < |c.ids| ==> c.ids[i] != c.ids[j]
  }

  ghost predicate WellFormedApp(c: Config, a: AppState) {
    ValidConfig(c) && |a.stores| == |c.ids| && WellFormedStore(a.main) && AllWellFormed(a.stores)
  }

  ghost function FreshApp(c: Config): AppState {
    AppState(FRESH, seq(|c.ids|, i => FRESH), c.memory)
  }

  /** A transaction reaches the modules only if it decodes, has a signer and has a message. */
  predicate Reaches(tx: Tx) {
    tx.Tx? && tx.messages != []
  }

  ghost function DeliverTx(c: Config, a: AppState, tx: Tx): AppState
    requires WellFormedApp(c, a)
  {
    if !Reaches(tx) then a
    else
      var d := DeliverAll(c.modules, a.stores, a.memory, tx.messages, tx.signer);
      var op := if d.response.Handled? then Apply else Reset;
      AppState(StepStore(a.main, op), ForAllStores(d.stores, op), d.memory)
  }

  ghost function TxResponseOf(c: Config, a: AppState, tx: Tx): TxResponse
    requires WellFormedApp(c, a)
  {
    if tx.Undecodable? then TxResponse(1, [])
    else if !Reaches(tx) then TxResponse(2, [])
    else
      var r := DeliverAll(c.modules, a.stores, a.memory, tx.messages, tx.signer).response;
      if r.Handled? then TxResponse(0, r.events) else TxResponse(2, [])
  }

  /** Records the root hashes of the first `n` module stores in the main store. */
  ghost function RecordRoots(c: Config, main: StoreModel, committed: seq<StoreModel>, n: nat): (r: StoreModel)
    requires WellFormedStore(main) && AllWellFormed(committed) && n <= |committed| == |c.ids|
    ensures WellFormedStore(r) && r == main.(pending := r.pending)
  {
    if n == 0 then main
    else
      var m := RecordRoots(c, main, committed, n - 1);
      var op := Set([c.ids[n - 1]], RootHashOf(StateAt(committed[n - 1], Latest)));
      StepKeepsWellFormed(m, op);
      StepStore(m, op)
  }

  lemma RecordStep(c: Config, main: StoreModel, committed: seq<StoreModel>, n: nat)
    requires WellFormedStore(main) && AllWellFormed(committed) && n < |committed| == |c.ids|
    ensures RecordRoots(c, main, committed, n + 1)
         == StepStore(RecordRoots(c, main, committed, n), Set([c.ids[n]], RootHashOf(StateAt(committed[n], Latest))))
  {
  }

  ghost function CommitApp(c: Config, a: AppState): AppState
    requires WellFormedApp(c, a)
  {
    var committed := ForAllStores(a.stores, Commit);
    AppState(StepStore(RecordRoots(c, a.main, committed, |c.ids|), Commit), committed, a.memory)
  }

  /** The stores after the modules have done their part, and what they keep outside them. */
  datatype Reached = Reached(stores: seq<StoreModel>, memory: Memory)

  ghost function InitFrom(modules: seq<Module>, stores: seq<StoreModel>, memory: Memory, from: nat, genesis: Bytes): (r: Reached)
    requires AllWellFormed(stores)
    ensures AllWellFormed(r.stores)
    ensures |r.stores| == |stores| && forall i :: 0 <= i < |stores| ==> r.stores[i] == stores[i].(pending := r.stores[i].pending)
    decreases |modules| - from
  {
    if from >= |modules| then Reached(stores, memory)
    else
      var done := modules[from].init(ImagesOf(stores), memory, genesis);
      InitFrom(modules, ApplyWrites(stores, done.writes), done.memory, from + 1, genesis)
  }

  lemma InitStep(modules: seq<Module>, stores: seq<StoreModel>, memory: Memory, from: nat, genesis: Bytes)
    requires AllWellFormed(stores) && from < |modules|
    ensures var done := modules[from].init(ImagesOf(stores), memory, genesis);
      InitFrom(modules, stores, memory, from, genesis)
        == InitFrom(modules, ApplyWrites(stores, done.writes), done.memory, from + 1, genesis)
  {
  }

  lemma InitNone(modules: seq<Module>, stores: seq<StoreModel>, memory: Memory, genesis: Bytes)
    requires AllWellFormed(stores)
    ensures InitFrom(modules, stores, memory, |modules|, genesis) == Reached(stores, memory)
  {
  }

  ghost function BeginFrom(modules: seq<Module>, stores: seq<StoreModel>, memory: Memory, from: nat, header: Bytes): (r: Reached)
    requires AllWellFormed(stores)
    ensures AllWellFormed(r.stores)
    ensures |r.stores| == |stores| && forall i :: 0 <= i < |stores| ==> r.stores[i] == stores[i].(pending := r.stores[i].pending)
    decreases |modules| - from
  {
    if from >= |modules| then Reached(stores, memory)
    else
      var begun := modules[from].beginBlock(ImagesOf(stores), memory, header);
      BeginFrom(modules, ApplyWrites(stores, begun.writes), begun.memory, from + 1, header)
  }

  /** The events of the block's beginning, in module order. */
  ghost function BeginEventsFrom(modules: seq<Module>, stores: seq<StoreModel>, memory: Memory, from: nat, header: Bytes): seq<Event>
    requires AllWellFormed(stores)
    decreases |modules| - from
  {
    if from >= |modules| then []
    else
      var begun := modules[from].beginBlock(ImagesOf(stores), memory, header);
      begun.events + BeginEventsFrom(modules, ApplyWrites(stores, begun.writes), begun.memory, from + 1, header)
  }

  lemma BeginStep(modules: seq<Module>, stores: seq<StoreModel>, memory: Memory, from: nat, header: Bytes)
    requires AllWellFormed(stores) && from < |modules|
    ensures var begun := modules[from].beginBlock(ImagesOf(stores), memory, header);
      var after := ApplyWrites(stores, begun.writes);
      && BeginFrom(modules, stores, memory, from, header) == BeginFrom(modules, after, begun.memory, from + 1, header)
      && BeginEventsFrom(modules, stores, memory, from, header)
         == begun.events + BeginEventsFrom(modules, after, begun.memory, from + 1, header)
  {
  }

  lemma BeginNone(modules: seq<Module>, stores: seq<StoreModel>, memory: Memory, header: Bytes)
    requires AllWellFormed(stores)
    ensures BeginFrom(modules, stores, memory, |modules|, header) == Reached(stores, memory)
    ensures BeginEventsFrom(modules, stores, memory, |modules|, header) == []
  {
  }

  function HeightFrom(raw: nat): Height {
    if raw == 0 then Latest else Stable(raw)
  }

  /** What module `i` makes of the query, with its own proof if one is wanted. */
  ghost function ModuleAnswer(m: StoreModel, plan: QueryPlan, height: Height, prove: bool): Option<(Bytes, seq<ProofOp>)>
    requires WellFormedStore(m)
  {
    match plan
    case NotAnswered => None
    case Refuses => None
    case Computes(data) => Some((data, []))
    case Reads(path) =>
      var s := StateAt(m, height);
      if s.None? || path !in Contents(s.value) then None
      else Some((Contents(s.value)[path], if prove then [ProofOp(Join(path), GetProof(PATH_KEYS, s.value, path))] else []))
  }

  ghost function QueryFrom(c: Config, a: AppState, from: nat, data: Bytes, path: Path, height: Height, prove: bool): QueryResponse
    requires WellFormedApp(c, a)
    decreases |c.ids| - from
  {
    if from >= |c.ids| then QueryError
    else
      var plan := c.modules[from].query(ImagesOf(a.stores), a.memory, data, path, height, prove);
      if plan.NotAnswered? then QueryFrom(c, a, from + 1, data, path, height, prove)
      else
        var answer := ModuleAnswer(a.stores[from], plan, height, prove);
        if answer.None? then QueryError
        else AppAnswer(a.main, c.ids[from], answer.value, height, prove)
  }

  lemma QueryStep(c: Config, a: AppState, from: nat, data: Bytes, path: Path, height: Height, prove: bool)
    requires WellFormedApp(c, a) && from < |c.ids|
    ensures var plan := c.modules[from].query(ImagesOf(a.stores), a.memory, data, path, height, prove);
      QueryFrom(c, a, from, data, path, height, prove) ==
        if plan.NotAnswered? then QueryFrom(c, a, from + 1, data, path, height, prove)
        else
          var answer := ModuleAnswer(a.stores[from], plan, height, prove);
          if answer.None? then QueryError else AppAnswer(a.main, c.ids[from], answer.value, height, prove)
  {
  }

  /** The module's answer with the main store's proof of the module's name put after it. */
  ghost function AppAnswer(main: StoreModel, id: Identifier, answer: (Bytes, seq<ProofOp>), height: Height, prove: bool): QueryResponse
    requires WellFormedStore(main)
  {
    var s := StateAt(main, height);
    if !prove then Answer(answer.0, None, |main.history|)
    else if s.None? then Panic
    else Answer(answer.0, Some(answer.1 + [ProofOp(id, GetProof(PATH_KEYS, s.value, [id]))]), |main.history|)
  }

  datatype Call =
    | InitChain(genesis: Bytes)
    | BeginBlock(header: Bytes)
    | DeliverTxCall(tx: Tx)
    | CommitCall

  ghost function StepApp(c: Config, a: AppState, call: Call): (r: AppState)
    requires WellFormedApp(c, a)
    ensures WellFormedApp(c, r)
  {
    match call
    case InitChain(genesis) =>
      var r := InitFrom(c.modules, a.stores, a.memory, 0, genesis);
      AppState(a.main, r.stores, r.memory)
    case BeginBlock(header) =>
      var r := BeginFrom(c.modules, a.stores, a.memory, 0, header);
      AppState(a.main, r.stores, r.memory)
    case DeliverTxCall(tx) =>
      StepKeepsWellFormed(a.main, Apply);
      StepKeepsWellFormed(a.main, Reset);
      DeliverTx(c, a, tx)
    case CommitCall =>
      StepKeepsWellFormed(RecordRoots(c, a.main, ForAllStores(a.stores, Commit), |c.ids|), Commit);
      CommitApp(c, a)
  }

  /** The application after the calls, from fresh stores. */
  ghost function RunApp(c: Config, calls: seq<Call>): (a: AppState)
    requires ValidConfig(c)
    ensures WellFormedApp(c, a)
  {
    if calls == [] then
      assert TotalOrder(PATH_KEYS) by { PathKeysOrdered(); }
      FreshApp(c)
    else StepApp(c, RunApp(c, calls[..|calls| - 1]), calls[|calls| - 1])
  }

  /** The application after the calls, from a given state. */
  ghost function RunFrom(c: Config, a: AppState, calls: seq<Call>): (r: AppState)
    requires WellFormedApp(c, a)
    ensures WellFormedApp(c, r)
  {
    if calls == [] then a else StepApp(c, RunFrom(c, a, calls[..|calls| - 1]), calls[|calls| - 1])
  }

  lemma {:induction false} RunGoesOn(c: Config, calls: seq<Call>, later: seq<Call>)
    requires ValidConfig(c)
    ensures RunApp(c, calls + later) == RunFrom(c, RunApp(c, calls), later)
  {
    if later == [] {
      assert calls + later == calls;
    } else {
      RunGoesOn(c, calls, later[..|later| - 1]);
      assert (calls + later)[..|calls + later| - 1] == calls + later[..|later| - 1];
    }
  }
}
