/**
 The supply over every run of an application whose modules, whatever else they do, reach the
 bank's store through its keeper alone.
 */
module ChainSupply {
  import opened Bytes
  import opened Store
  import opened AppModel
  import opened AppProofs
  import opened Balances
  import opened Bank
  import opened BankSupply
  import opened TokenChain

  // ---------- modules that use the keeper ----------

  /** The keeper operations that each module's code, by the module's position, performs on the
      bank's store. */
  datatype Ledger = Ledger(
    deliver: (nat, seq<Image>, Memory, Message, Account) -> seq<KeeperOp>,
    init: (nat, seq<Image>, Memory, Bytes) -> seq<KeeperOp>,
    beginBlock: (nat, seq<Image>, Memory, Bytes) -> seq<KeeperOp>)

  /** On the bank's store the writes do what the keeper operations do. */
  ghost predicate Performs(s: BankSetting, stores: seq<StoreModel>, writes: seq<Write>, ops: seq<KeeperOp>)
    requires AllWellFormed(stores) && s.at < |stores|
  {
    ApplyWrites(stores, writes)[s.at] == RunKeeper(s.balances, stores[s.at], ops)
  }

  /** The module at position `i` changes the bank's store by the keeper operations in the ledger
      alone; elsewhere it writes what it likes. */
  ghost predicate UsesKeeper(s: BankSetting, m: Module, i: nat, g: Ledger) {
    && (forall stores, memory, message, signer :: AllWellFormed(stores) && s.at < |stores| ==>
          Performs(s, stores, m.deliver(ImagesOf(stores), memory, message, signer).writes,
                   g.deliver(i, ImagesOf(stores), memory, message, signer)))
    && (forall stores, memory, genesis :: AllWellFormed(stores) && s.at < |stores| ==>
          Performs(s, stores, m.init(ImagesOf(stores), memory, genesis).writes, g.init(i, ImagesOf(stores), memory, genesis)))
    && (forall stores, memory, header :: AllWellFormed(stores) && s.at < |stores| ==>
          Performs(s, stores, m.beginBlock(ImagesOf(stores), memory, header).writes, g.beginBlock(i, ImagesOf(stores), memory, header)))
  }

  ghost predicate AllUseKeeper(c: Config, s: BankSetting, g: Ledger) {
    && ValidConfig(c) && s.at < |c.modules|
    && forall i {:trigger UsesKeeper(s, c.modules[i], i, g)} :: 0 <= i < |c.modules| ==> UsesKeeper(s, c.modules[i], i, g)
  }

  // ---------- what one call does through the keeper ----------

  lemma {:induction false} RunKeeperJoin(codec: BalanceCodec, start: StoreModel, first: seq<KeeperOp>, rest: seq<KeeperOp>)
    requires WellFormedStore(start)
    ensures RunKeeper(codec, start, first + rest) == RunKeeper(codec, RunKeeper(codec, start, first), rest)
  {
    if rest == [] {
      assert first + rest == first;
    } else {
      assert (first + rest)[..|first + rest| - 1] == first + rest[..|rest| - 1];
      RunKeeperJoin(codec, start, first, rest[..|rest| - 1]);
    }
  }

  /** The keeper operations of delivering the message to the modules from position `from` on,
      whether or not the message is handled in the end. */
  ghost function MessageOps(c: Config, g: Ledger, stores: seq<StoreModel>, memory: Memory, from: nat, message: Message, signer: Account): seq<KeeperOp>
    requires AllWellFormed(stores)
    decreases |c.modules| - from
  {
    if from >= |c.modules| then []
    else
      var images := ImagesOf(stores);
      var effect := c.modules[from].deliver(images, memory, message, signer);
      g.deliver(from, images, memory, message, signer) +
      if effect.response.NotHandled?
      then MessageOps(c, g, ApplyWrites(stores, effect.writes), effect.memory, from + 1, message, signer)
      else []
  }

  lemma MessageOpsStep(c: Config, g: Ledger, stores: seq<StoreModel>, memory: Memory, from: nat, message: Message, signer: Account, effect: Effect)
    requires AllWellFormed(stores) && from < |c.modules|
    requires effect == c.modules[from].deliver(ImagesOf(stores), memory, message, signer)
    ensures MessageOps(c, g, stores, memory, from, message, signer) ==
      g.deliver(from, ImagesOf(stores), memory, message, signer) +
      if effect.response.NotHandled?
      then MessageOps(c, g, ApplyWrites(stores, effect.writes), effect.memory, from + 1, message, signer)
      else []
  {
  }

  lemma DeliverPerforms(c: Config, s: BankSetting, g: Ledger, stores: seq<StoreModel>, memory: Memory, i: nat, message: Message, signer: Account)
    requires AllUseKeeper(c, s, g) && AllWellFormed(stores) && s.at < |stores| && i < |c.modules|
    ensures ApplyWrites(stores, c.modules[i].deliver(ImagesOf(stores), memory, message, signer).writes)[s.at]
         == RunKeeper(s.balances, stores[s.at], g.deliver(i, ImagesOf(stores), memory, message, signer))
  {
    assert UsesKeeper(s, c.modules[i], i, g);
    assert Performs(s, stores, c.modules[i].deliver(ImagesOf(stores), memory, message, signer).writes,
                    g.deliver(i, ImagesOf(stores), memory, message, signer));
  }

  /** Delivering one message, handled or not, does to the bank's store what its keeper operations
      do, one after the other. */
  lemma {:induction false} MessagePerforms(c: Config, s: BankSetting, g: Ledger, stores: seq<StoreModel>, memory: Memory, from: nat, message: Message, signer: Account)
    requires AllUseKeeper(c, s, g) && AllWellFormed(stores) && s.at < |stores|
    ensures DeliverMsgFrom(c.modules, stores, memory, from, message, signer).stores[s.at]
         == RunKeeper(s.balances, stores[s.at], MessageOps(c, g, stores, memory, from, message, signer))
    decreases |c.modules| - from
  {
    if from < |c.modules| {
      var effect := c.modules[from].deliver(ImagesOf(stores), memory, message, signer);
      var here := g.deliver(from, ImagesOf(stores), memory, message, signer);
      var after := ApplyWrites(stores, effect.writes);
      DeliverPerforms(c, s, g, stores, memory, from, message, signer);
      DeliverStep(c.modules, stores, memory, from, message, signer, effect);
      MessageOpsStep(c, g, stores, memory, from, message, signer, effect);
      if effect.response.NotHandled? {
        var rest := MessageOps(c, g, after, effect.memory, from + 1, message, signer);
        MessagePerforms(c, s, g, after, effect.memory, from + 1, message, signer);
        RunKeeperJoin(s.balances, stores[s.at], here, rest);
      } else {
        assert here + [] == here;
      }
    }
  }

  /** So it moves the supply by exactly what they mint, burn and send to their own sender. */
  lemma MessageSupply(c: Config, s: BankSetting, g: Ledger, stores: seq<StoreModel>, memory: Memory, message: Message, signer: Account, d: Denom)
    requires AllUseKeeper(c, s, g) && RoundTrips(s.balances) && AllWellFormed(stores) && s.at < |stores|
    ensures MovedBy(Supply(s.balances, stores[s.at].pending, d),
                    RunTally(s.balances, stores[s.at], MessageOps(c, g, stores, memory, 0, message, signer), d),
                    Supply(s.balances, DeliverMsgFrom(c.modules, stores, memory, 0, message, signer).stores[s.at].pending, d))
  {
    MessagePerforms(c, s, g, stores, memory, 0, message, signer);
    RunSupply(s.balances, stores[s.at], MessageOps(c, g, stores, memory, 0, message, signer), d);
  }

  ghost function MessagesOps(c: Config, g: Ledger, stores: seq<StoreModel>, memory: Memory, messages: seq<Message>, signer: Account): seq<KeeperOp>
    requires AllWellFormed(stores)
  {
    if messages == [] then []
    else
      var front := messages[..|messages| - 1];
      var before := DeliverAll(c.modules, stores, memory, front, signer);
      MessagesOps(c, g, stores, memory, front, signer) +
      if before.response.Handled?
      then MessageOps(c, g, before.stores, before.memory, 0, messages[|messages| - 1], signer)
      else []
  }

  lemma {:induction false} MessagesPerform(c: Config, s: BankSetting, g: Ledger, stores: seq<StoreModel>, memory: Memory, messages: seq<Message>, signer: Account)
    requires AllUseKeeper(c, s, g) && AllWellFormed(stores) && s.at < |stores|
    ensures DeliverAll(c.modules, stores, memory, messages, signer).stores[s.at]
         == RunKeeper(s.balances, stores[s.at], MessagesOps(c, g, stores, memory, messages, signer))
  {
    if messages != [] {
      var front, last := messages[..|messages| - 1], messages[|messages| - 1];
      var before, ops := DeliverAll(c.modules, stores, memory, front, signer), MessagesOps(c, g, stores, memory, front, signer);
      MessagesPerform(c, s, g, stores, memory, front, signer);
      if before.response.Handled? {
        MessagePerforms(c, s, g, before.stores, before.memory, 0, last, signer);
        RunKeeperJoin(s.balances, stores[s.at], ops, MessageOps(c, g, before.stores, before.memory, 0, last, signer));
      } else {
        assert ops + [] == ops;
      }
    }
  }

  ghost function InitOps(c: Config, g: Ledger, stores: seq<StoreModel>, memory: Memory, from: nat, genesis: Bytes): seq<KeeperOp>
    requires AllWellFormed(stores)
    decreases |c.modules| - from
  {
    if from >= |c.modules| then []
    else
      var done := c.modules[from].init(ImagesOf(stores), memory, genesis);
      g.init(from, ImagesOf(stores), memory, genesis)
        + InitOps(c, g, ApplyWrites(stores, done.writes), done.memory, from + 1, genesis)
  }

  lemma {:induction false} InitPerforms(c: Config, s: BankSetting, g: Ledger, stores: seq<StoreModel>, memory: Memory, from: nat, genesis: Bytes)
    requires AllUseKeeper(c, s, g) && AllWellFormed(stores) && s.at < |stores|
    ensures InitFrom(c.modules, stores, memory, from, genesis).stores[s.at]
         == RunKeeper(s.balances, stores[s.at], InitOps(c, g, stores, memory, from, genesis))
    decreases |c.modules| - from
  {
    if from < |c.modules| {
      var done, here := c.modules[from].init(ImagesOf(stores), memory, genesis), g.init(from, ImagesOf(stores), memory, genesis);
      var after := ApplyWrites(stores, done.writes);
      InitOnePerforms(c, s, g, stores, memory, from, genesis);
      InitStep(c.modules, stores, memory, from, genesis);
      InitPerforms(c, s, g, after, done.memory, from + 1, genesis);
      RunKeeperJoin(s.balances, stores[s.at], here, InitOps(c, g, after, done.memory, from + 1, genesis));
    }
  }

  lemma InitOnePerforms(c: Config, s: BankSetting, g: Ledger, stores: seq<StoreModel>, memory: Memory, i: nat, genesis: Bytes)
    requires AllUseKeeper(c, s, g) && AllWellFormed(stores) && s.at < |stores| && i < |c.modules|
    ensures ApplyWrites(stores, c.modules[i].init(ImagesOf(stores), memory, genesis).writes)[s.at]
         == RunKeeper(s.balances, stores[s.at], g.init(i, ImagesOf(stores), memory, genesis))
  {
    assert UsesKeeper(s, c.modules[i], i, g);
    assert Performs(s, stores, c.modules[i].init(ImagesOf(stores), memory, genesis).writes, g.init(i, ImagesOf(stores), memory, genesis));
  }

  ghost function BeginOps(c: Config, g: Ledger, stores: seq<StoreModel>, memory: Memory, from: nat, header: Bytes): seq<KeeperOp>
    requires AllWellFormed(stores)
    decreases |c.modules| - from
  {
    if from >= |c.modules| then []
    else
      var begun := c.modules[from].beginBlock(ImagesOf(stores), memory, header);
      g.beginBlock(from, ImagesOf(stores), memory, header)
        + BeginOps(c, g, ApplyWrites(stores, begun.writes), begun.memory, from + 1, header)
  }

  lemma {:induction false} BeginPerforms(c: Config, s: BankSetting, g: Ledger, stores: seq<StoreModel>, memory: Memory, from: nat, header: Bytes)
    requires AllUseKeeper(c, s, g) && AllWellFormed(stores) && s.at < |stores|
    ensures BeginFrom(c.modules, stores, memory, from, header).stores[s.at]
         == RunKeeper(s.balances, stores[s.at], BeginOps(c, g, stores, memory, from, header))
    decreases |c.modules| - from
  {
    if from < |c.modules| {
      var begun, here := c.modules[from].beginBlock(ImagesOf(stores), memory, header), g.beginBlock(from, ImagesOf(stores), memory, header);
      var after := ApplyWrites(stores, begun.writes);
      BeginOnePerforms(c, s, g, stores, memory, from, header);
      BeginStep(c.modules, stores, memory, from, header);
      BeginPerforms(c, s, g, after, begun.memory, from + 1, header);
      RunKeeperJoin(s.balances, stores[s.at], here, BeginOps(c, g, after, begun.memory, from + 1, header));
    }
  }

  lemma BeginOnePerforms(c: Config, s: BankSetting, g: Ledger, stores: seq<StoreModel>, memory: Memory, i: nat, header: Bytes)
    requires AllUseKeeper(c, s, g) && AllWellFormed(stores) && s.at < |stores| && i < |c.modules|
    ensures ApplyWrites(stores, c.modules[i].beginBlock(ImagesOf(stores), memory, header).writes)[s.at]
         == RunKeeper(s.balances, stores[s.at], g.beginBlock(i, ImagesOf(stores), memory, header))
  {
    assert UsesKeeper(s, c.modules[i], i, g);
    assert Performs(s, stores, c.modules[i].beginBlock(ImagesOf(stores), memory, header).writes,
                    g.beginBlock(i, ImagesOf(stores), memory, header));
  }

  // ---------- every run ----------

  /** The keeper operations since the chain began that still stand: those the pending tree reflects,
      and those that have been applied, which a failing transaction goes back to. */
  datatype Standing = Standing(pending: seq<KeeperOp>, applied: seq<KeeperOp>)

  ghost function StepStanding(c: Config, g: Ledger, a: AppState, w: Standing, call: Call): Standing
    requires WellFormedApp(c, a)
  {
    match call
    case InitChain(genesis) => w.(pending := w.pending + InitOps(c, g, a.stores, a.memory, 0, genesis))
    case BeginBlock(header) => w.(pending := w.pending + BeginOps(c, g, a.stores, a.memory, 0, header))
    case DeliverTxCall(tx) =>
      if !Reaches(tx) then w
      else if TxResponseOf(c, a, tx).code != 0 then Standing(w.applied, w.applied)
      else
        var ops := w.pending + MessagesOps(c, g, a.stores, a.memory, tx.messages, tx.signer);
        Standing(ops, ops)
    case CommitCall => Standing(w.pending, w.pending)
  }

  ghost function RunStanding(c: Config, g: Ledger, calls: seq<Call>): Standing
    requires ValidConfig(c)
  {
    if calls == [] then Standing([], [])
    else
      var front := calls[..|calls| - 1];
      StepStanding(c, g, RunApp(c, front), RunStanding(c, g, front), calls[|calls| - 1])
  }

  /** The tree is what the keeper operations make of the empty store. */
  ghost predicate MadeBy(codec: BalanceCodec, t: State, ops: seq<KeeperOp>) {
    t == RunKeeper(codec, FRESH, ops).pending
  }

  ghost predicate Reflects(codec: BalanceCodec, m: StoreModel, w: Standing) {
    MadeBy(codec, m.pending, w.pending) && MadeBy(codec, m.staged, w.applied)
  }

  /** What keeper operations make of the pending tree depends on nothing else in the store. */
  lemma {:induction false} RunKeeperPending(codec: BalanceCodec, m: StoreModel, n: StoreModel, ops: seq<KeeperOp>)
    requires WellFormedStore(m) && WellFormedStore(n) && m.pending == n.pending
    ensures RunKeeper(codec, m, ops).pending == RunKeeper(codec, n, ops).pending
  {
    if ops != [] {
      var front := ops[..|ops| - 1];
      RunKeeperPending(codec, m, n, front);
      StepKeeperPending(codec, RunKeeper(codec, m, front), RunKeeper(codec, n, front), ops[|ops| - 1]);
    }
  }

  lemma StepKeeperPending(codec: BalanceCodec, m: StoreModel, n: StoreModel, op: KeeperOp)
    requires WellFormedStore(m) && WellFormedStore(n) && m.pending == n.pending
    ensures StepKeeper(codec, m, op).pending == StepKeeper(codec, n, op).pending
  {
    var writes := WritesOf(codec, m.pending, op);
    if writes.Some? { PutPending(codec, m, n, writes.value); }
  }

  lemma {:induction false} PutPending(codec: BalanceCodec, m: StoreModel, n: StoreModel, writes: seq<(Account, seq<Coin>)>)
    requires WellFormedStore(m) && WellFormedStore(n) && m.pending == n.pending
    ensures PutBalances(codec, m, writes).pending == PutBalances(codec, n, writes).pending
  {
    if writes != [] { PutPending(codec, m, n, writes[..|writes| - 1]); }
  }

  lemma MadeByMore(codec: BalanceCodec, m: StoreModel, before: seq<KeeperOp>, more: seq<KeeperOp>)
    requires WellFormedStore(m) && WellFormedStore(FRESH) && MadeBy(codec, m.pending, before)
    ensures MadeBy(codec, RunKeeper(codec, m, more).pending, before + more)
  {
    RunKeeperJoin(codec, FRESH, before, more);
    RunKeeperPending(codec, m, RunKeeper(codec, FRESH, before), more);
  }

  lemma TxReflected(c: Config, s: BankSetting, g: Ledger, a: AppState, w: Standing, tx: Tx)
    requires AllUseKeeper(c, s, g) && WellFormedApp(c, a) && Reaches(tx) && Reflects(s.balances, a.stores[s.at], w)
    ensures Reflects(s.balances, DeliverTx(c, a, tx).stores[s.at], StepStanding(c, g, a, w, DeliverTxCall(tx)))
  {
    FreshSupply(s.balances, []);
    TxAtomic(c, a, tx);
    MessagesPerform(c, s, g, a.stores, a.memory, tx.messages, tx.signer);
    MadeByMore(s.balances, a.stores[s.at], w.pending, MessagesOps(c, g, a.stores, a.memory, tx.messages, tx.signer));
  }

  /** Operations nothing has applied yet stand in the pending tree alone. */
  lemma PendingReflected(s: BankSetting, m: StoreModel, w: Standing, ops: seq<KeeperOp>)
    requires WellFormedStore(m) && Reflects(s.balances, m, w)
    ensures Reflects(s.balances, RunKeeper(s.balances, m, ops), w.(pending := w.pending + ops))
  {
    FreshSupply(s.balances, []);
    MadeByMore(s.balances, m, w.pending, ops);
  }

  lemma StepReflected(c: Config, s: BankSetting, g: Ledger, a: AppState, w: Standing, call: Call)
    requires AllUseKeeper(c, s, g) && WellFormedApp(c, a) && Reflects(s.balances, a.stores[s.at], w)
    ensures Reflects(s.balances, StepApp(c, a, call).stores[s.at], StepStanding(c, g, a, w, call))
  {
    match call
    case InitChain(genesis) =>
      InitPerforms(c, s, g, a.stores, a.memory, 0, genesis);
      PendingReflected(s, a.stores[s.at], w, InitOps(c, g, a.stores, a.memory, 0, genesis));
    case BeginBlock(header) =>
      BeginPerforms(c, s, g, a.stores, a.memory, 0, header);
      PendingReflected(s, a.stores[s.at], w, BeginOps(c, g, a.stores, a.memory, 0, header));
    case DeliverTxCall(tx) => if Reaches(tx) { TxReflected(c, s, g, a, w, tx); }
    case CommitCall =>
  }

  /** Over every run from the start of the chain the bank's pending and applied trees are exactly what
      the keeper operations that still stand make of the empty store: those of genesis, of block
      beginnings and of successful transactions. What a failed transaction did does not stand, nor,
      after one, does anything not applied before it. */
  lemma {:induction false} RunsAreKeeperRuns(c: Config, s: BankSetting, g: Ledger, calls: seq<Call>)
    requires AllUseKeeper(c, s, g)
    ensures Reflects(s.balances, RunApp(c, calls).stores[s.at], RunStanding(c, g, calls))
  {
    if calls != [] {
      var front := calls[..|calls| - 1];
      RunsAreKeeperRuns(c, s, g, front);
      StepReflected(c, s, g, RunApp(c, front), RunStanding(c, g, front), calls[|calls| - 1]);
    }
  }

  /** So the supply is what the standing operations minted, less what they burned, with what they
      sent to oneself. */
  lemma RunsKeepBooks(c: Config, s: BankSetting, g: Ledger, calls: seq<Call>, d: Denom)
    requires AllUseKeeper(c, s, g) && RoundTrips(s.balances)
    ensures WellFormedStore(FRESH)
    ensures var m, w := RunApp(c, calls).stores[s.at], RunStanding(c, g, calls);
      && MovedBy(0, RunTally(s.balances, FRESH, w.pending, d), Supply(s.balances, m.pending, d))
      && MovedBy(0, RunTally(s.balances, FRESH, w.applied, d), Supply(s.balances, m.staged, d))
  {
    var w := RunStanding(c, g, calls);
    RunsAreKeeperRuns(c, s, g, calls);
    FreshSupply(s.balances, d);
    RunSupply(s.balances, FRESH, w.pending, d);
    RunSupply(s.balances, FRESH, w.applied, d);
  }

  /** And no account lists a denomination twice in either tree, in any run. */
  lemma RunsDistinct(c: Config, s: BankSetting, g: Ledger, calls: seq<Call>)
    requires AllUseKeeper(c, s, g) && RoundTrips(s.balances)
    ensures var m := RunApp(c, calls).stores[s.at];
      AllDistinct(s.balances, m.pending) && AllDistinct(s.balances, m.staged)
  {
    var w := RunStanding(c, g, calls);
    RunsAreKeeperRuns(c, s, g, calls);
    FreshSupply(s.balances, []);
    FreshDistinct(s.balances);
    RunDistinct(s.balances, FRESH, w.pending);
    RunDistinct(s.balances, FRESH, w.applied);
  }

  // ---------- runs that only move coins ----------

  /** Only sends, and none of them to its own sender. */
  predicate OnlyMoves(ops: seq<KeeperOp>) {
    forall k :: 0 <= k < |ops| ==> ops[k].Send? && ops[k].from != ops[k].to
  }

  lemma {:induction false} MovesConserve(codec: BalanceCodec, start: StoreModel, ops: seq<KeeperOp>, d: Denom)
    requires WellFormedStore(start) && RoundTrips(codec) && OnlyMoves(ops)
    ensures Supply(codec, RunKeeper(codec, start, ops).pending, d) == Supply(codec, start.pending, d)
  {
    if ops != [] {
      var front := ops[..|ops| - 1];
      MovesConserve(codec, start, front, d);
      StepSupply(codec, RunKeeper(codec, start, front), ops[|ops| - 1], d);
    }
  }

  /** The call makes the first `n` modules do nothing with the bank's keeper but move coins between
      accounts. */
  ghost predicate Conserving(g: Ledger, n: nat, call: Call) {
    match call
    case InitChain(_) => false
    case BeginBlock(header) => forall i, images, memory :: 0 <= i < n ==> OnlyMoves(g.beginBlock(i, images, memory, header))
    case DeliverTxCall(tx) => tx.Tx? ==> forall k :: 0 <= k < |tx.messages| ==> MessageMoves(g, n, tx.messages[k], tx.signer)
    case CommitCall => true
  }

  ghost predicate MessageMoves(g: Ledger, n: nat, message: Message, signer: Account) {
    forall i, images, memory :: 0 <= i < n ==> OnlyMoves(g.deliver(i, images, memory, message, signer))
  }

  lemma {:induction false} MessageOpsMove(c: Config, g: Ledger, stores: seq<StoreModel>, memory: Memory, from: nat, message: Message, signer: Account)
    requires AllWellFormed(stores) && MessageMoves(g, |c.modules|, message, signer)
    ensures OnlyMoves(MessageOps(c, g, stores, memory, from, message, signer))
    decreases |c.modules| - from
  {
    if from < |c.modules| {
      var effect := c.modules[from].deliver(ImagesOf(stores), memory, message, signer);
      MessageOpsStep(c, g, stores, memory, from, message, signer, effect);
      if effect.response.NotHandled? {
        MessageOpsMove(c, g, ApplyWrites(stores, effect.writes), effect.memory, from + 1, message, signer);
      }
    }
  }

  lemma {:induction false} MessagesOpsMove(c: Config, g: Ledger, stores: seq<StoreModel>, memory: Memory, messages: seq<Message>, signer: Account)
    requires AllWellFormed(stores) && forall k :: 0 <= k < |messages| ==> MessageMoves(g, |c.modules|, messages[k], signer)
    ensures OnlyMoves(MessagesOps(c, g, stores, memory, messages, signer))
  {
    if messages != [] {
      var front, last := messages[..|messages| - 1], messages[|messages| - 1];
      MessagesOpsMove(c, g, stores, memory, front, signer);
      var before := DeliverAll(c.modules, stores, memory, front, signer);
      if before.response.Handled? { MessageOpsMove(c, g, before.stores, before.memory, 0, last, signer); }
    }
  }

  lemma {:induction false} BeginOpsMove(c: Config, g: Ledger, stores: seq<StoreModel>, memory: Memory, from: nat, header: Bytes)
    requires AllWellFormed(stores)
    requires forall i, images, memory :: 0 <= i < |c.modules| ==> OnlyMoves(g.beginBlock(i, images, memory, header))
    ensures OnlyMoves(BeginOps(c, g, stores, memory, from, header))
    decreases |c.modules| - from
  {
    if from < |c.modules| {
      var begun := c.modules[from].beginBlock(ImagesOf(stores), memory, header);
      BeginOpsMove(c, g, ApplyWrites(stores, begun.writes), begun.memory, from + 1, header);
    }
  }

  /** The pending and the applied tree have the same supply. */
  ghost predicate Level(codec: BalanceCodec, m: StoreModel, d: Denom) {
    Supply(codec, m.staged, d) == Supply(codec, m.pending, d)
  }

  ghost function SupplyAt(s: BankSetting, stores: seq<StoreModel>, d: Denom): nat
    requires s.at < |stores|
  {
    Supply(s.balances, stores[s.at].pending, d)
  }

  lemma TxConserves(c: Config, s: BankSetting, g: Ledger, a: AppState, tx: Tx, d: Denom)
    requires AllUseKeeper(c, s, g) && RoundTrips(s.balances) && WellFormedApp(c, a) && Reaches(tx)
    requires forall k :: 0 <= k < |tx.messages| ==> MessageMoves(g, |c.modules|, tx.messages[k], tx.signer)
    requires Level(s.balances, a.stores[s.at], d)
    ensures Level(s.balances, DeliverTx(c, a, tx).stores[s.at], d)
    ensures SupplyAt(s, DeliverTx(c, a, tx).stores, d) == SupplyAt(s, a.stores, d)
  {
    TxAtomic(c, a, tx);
    MessagesPerform(c, s, g, a.stores, a.memory, tx.messages, tx.signer);
    MessagesOpsMove(c, g, a.stores, a.memory, tx.messages, tx.signer);
    MovesConserve(s.balances, a.stores[s.at], MessagesOps(c, g, a.stores, a.memory, tx.messages, tx.signer), d);
  }

  lemma BeginConserves(c: Config, s: BankSetting, g: Ledger, stores: seq<StoreModel>, memory: Memory, header: Bytes, d: Denom)
    requires AllUseKeeper(c, s, g) && RoundTrips(s.balances) && AllWellFormed(stores) && s.at < |stores|
    requires forall i, images, memory :: 0 <= i < |c.modules| ==> OnlyMoves(g.beginBlock(i, images, memory, header))
    ensures SupplyAt(s, BeginFrom(c.modules, stores, memory, 0, header).stores, d) == SupplyAt(s, stores, d)
  {
    BeginPerforms(c, s, g, stores, memory, 0, header);
    BeginOpsMove(c, g, stores, memory, 0, header);
    MovesConserve(s.balances, stores[s.at], BeginOps(c, g, stores, memory, 0, header), d);
  }

  lemma StepConserves(c: Config, s: BankSetting, g: Ledger, a: AppState, call: Call, d: Denom)
    requires AllUseKeeper(c, s, g) && RoundTrips(s.balances) && WellFormedApp(c, a) && Conserving(g, |c.modules|, call)
    requires Level(s.balances, a.stores[s.at], d)
    ensures Level(s.balances, StepApp(c, a, call).stores[s.at], d)
    ensures SupplyAt(s, StepApp(c, a, call).stores, d) == SupplyAt(s, a.stores, d)
  {
    match call
    case BeginBlock(header) =>
      BeginConserves(c, s, g, a.stores, a.memory, header, d);
      var m := BeginFrom(c.modules, a.stores, a.memory, 0, header).stores[s.at];
      assert m == a.stores[s.at].(pending := m.pending);
    case DeliverTxCall(tx) => if Reaches(tx) { TxConserves(c, s, g, a, tx, d); }
    case CommitCall => assert CommitApp(c, a).stores[s.at] == StepStore(a.stores[s.at], StoreOp.Commit);
  }

  lemma {:induction false} LevelRunsConserve(c: Config, s: BankSetting, g: Ledger, a: AppState, later: seq<Call>, d: Denom)
    requires AllUseKeeper(c, s, g) && RoundTrips(s.balances) && WellFormedApp(c, a) && Level(s.balances, a.stores[s.at], d)
    requires forall k :: 0 <= k < |later| ==> Conserving(g, |c.modules|, later[k])
    ensures Level(s.balances, RunFrom(c, a, later).stores[s.at], d)
    ensures SupplyAt(s, RunFrom(c, a, later).stores, d) == SupplyAt(s, a.stores, d)
  {
    if later != [] {
      var front, last := later[..|later| - 1], later[|later| - 1];
      LevelRunsConserve(c, s, g, a, front, d);
      StepConserves(c, s, g, RunFrom(c, a, front), last, d);
    }
  }

  /** From any point of a run at which nothing unapplied changes the supply, such as after a commit,
      blocks and transactions, failed ones included, keep the supply of every denomination as long
      as modules only move coins between different accounts. */
  lemma RunsConserveSupply(c: Config, s: BankSetting, g: Ledger, calls: seq<Call>, later: seq<Call>, d: Denom)
    requires AllUseKeeper(c, s, g) && RoundTrips(s.balances)
    requires Level(s.balances, RunApp(c, calls).stores[s.at], d)
    requires forall k :: 0 <= k < |later| ==> Conserving(g, |c.modules|, later[k])
    ensures SupplyAt(s, RunApp(c, calls + later).stores, d) == SupplyAt(s, RunApp(c, calls).stores, d)
  {
    RunGoesOn(c, calls, later);
    LevelRunsConserve(c, s, g, RunApp(c, calls), later, d);
  }
}
