/**
 The auth module: it takes every message first, adds one to the signer's sequence number, and
 lets the message through unhandled.
 */
module Auth {
  import opened Bytes
  import opened AvlModel
  import opened AvlOrder
  import opened AvlCaches
  import opened Paths
  import opened Store
  import opened AppModel
  import opened AppProofs
  import opened Bank

  const U64: nat := 0x1_0000_0000_0000_0000

  type Sequence = x: int | 0 <= x < U64

  datatype AuthAccount = AuthAccount(address: Account, number: nat, sequence: Sequence)

  type AccountCodec = Codec<AuthAccount>

  function DecodedAccount(codec: AccountCodec, stored: Option<Bytes>): Option<AuthAccount> {
    if stored.None? then None else codec.decode(stored.value)
  }

  /** The account stored in the tree under the address's path. */
  function AccountIn(codec: AccountCodec, t: State, address: Account): Option<AuthAccount> {
    DecodedAccount(codec, Get(PATH_KEYS, t, Split(address)))
  }

  /** One added to a 64-bit sequence number, wrapping around. */
  function Advanced(account: AuthAccount): AuthAccount {
    account.(sequence := (account.sequence + 1) % U64)
  }

  /** The module's code, for an auth store at position `at`. The account is stored under the
      address it carries, not under the one it was found by. */
  function AuthDeliver(codec: AccountCodec, at: nat, images: seq<Image>, memory: Memory, signer: Account): Effect {
    if at >= |images| then Effect([], memory, Failed([]))
    else
      match AccountIn(codec, images[at].pending, signer)
      case None => Effect([], memory, Failed([]))
      case Some(account) =>
        Effect([SetAt(at, Split(account.address), codec.encode(Advanced(account)))], memory, NotHandled)
  }

  /** Genesis: a new account for every address listed. */
  function AuthInit(codec: AccountCodec, at: nat, addresses: seq<Account>): seq<Write> {
    if addresses == [] then []
    else
      var last := addresses[|addresses| - 1];
      AuthInit(codec, at, addresses[..|addresses| - 1]) + [SetAt(at, Split(last), codec.encode(AuthAccount(last, 0, 0)))]
  }

  class AuthKeeper {
    const codec: AccountCodec
    const store: InMemoryStore

    constructor (codec: AccountCodec, store: InMemoryStore)
      ensures this.codec == codec && this.store == store
    {
      this.codec, this.store := codec, store;
    }

    method GetAccount(address: Account) returns (account: Option<AuthAccount>)
      requires store.Valid()
      ensures account == AccountIn(codec, store.View().pending, address)
    {
      PathKeysOrdered();
      GetIsLookup(PATH_KEYS, store.pending, Split(address), None, None);
      var path := FromString(address);
      var stored := store.Get(Pending, path);
      account := DecodedAccount(codec, stored);
    }

    method SetAccount(account: AuthAccount)
      requires store.Valid()
      modifies store`pending
      ensures store.Valid()
      ensures store.View() == StepStore(old(store.View()), Set(Split(account.address), codec.encode(account)))
    {
      var path := FromString(account.address);
      var _ := store.SetPath(path, codec.encode(account));
    }

    method Init(addresses: seq<Account>)
      requires store.Valid()
      modifies store`pending
      ensures store.Valid() && WellFormedStore(old(store.View()))
      ensures [store.View()] == ApplyWrites([old(store.View())], AuthInit(codec, 0, addresses))
    {
      ghost var before := [store.View()];
      for k := 0 to |addresses|
        invariant store.Valid() && AllWellFormed(before)
        invariant [store.View()] == ApplyWrites(before, AuthInit(codec, 0, addresses[..k]))
      {
        assert addresses[..k + 1][..k] == addresses[..k];
        ghost var writes := AuthInit(codec, 0, addresses[..k + 1]);
        assert writes[..|writes| - 1] == AuthInit(codec, 0, addresses[..k]);
        SetAccount(AuthAccount(addresses[k], 0, 0));
      }
      assert addresses[..|addresses|] == addresses;
    }

    /** Does to the store, and answers, what the module's code says; it keeps nothing outside. */
    method Deliver(signer: Account, ghost memory: Memory) returns (response: Response)
      requires store.Valid()
      modifies store`pending
      ensures store.Valid() && WellFormedStore(old(store.View()))
      ensures var before := [old(store.View())];
        var effect := AuthDeliver(codec, 0, ImagesOf(before), memory, signer);
        response == effect.response && [store.View()] == ApplyWrites(before, effect.writes)
    {
      ghost var m := store.View();
      var account := GetAccount(signer);
      assert store.View() == m;
      assert ImagesOf([m])[0].pending == m.pending;
      if account.None? {
        return Failed([]);
      }
      var advanced := account.value.(sequence := (account.value.sequence + 1) % U64);
      ApplyOne([m], SetAt(0, Split(advanced.address), codec.encode(advanced)));
      SetAccount(advanced);
      response := NotHandled;
    }
  }

  lemma ApplyAt(stores: seq<StoreModel>, w: Write)
    requires AllWellFormed(stores) && w.at < |stores|
    ensures WellFormedStore(StepStore(stores[w.at], OpOf(w)))
    ensures ApplyWrite(stores, w) == stores[w.at := StepStore(stores[w.at], OpOf(w))]
  {
    StepKeepsWellFormed(stores[w.at], OpOf(w));
  }

  lemma ApplyTwo(stores: seq<StoreModel>, v: Write, w: Write)
    requires AllWellFormed(stores)
    ensures ApplyWrites(stores, [v, w]) == ApplyWrite(ApplyWrite(stores, v), w)
  {
    assert [v, w][..1] == [v];
    ApplyOne(stores, v);
  }

  lemma ApplyOne(stores: seq<StoreModel>, w: Write)
    requires AllWellFormed(stores)
    ensures ApplyWrites(stores, [w]) == ApplyWrite(stores, w)
  {
    assert [w][..0] == [];
  }

  // ---------- modules that keep out of a store ----------

  ghost predicate WriteElsewhere(writes: seq<Write>, at: nat) {
    forall k :: 0 <= k < |writes| ==> writes[k].at != at
  }

  /** The module's code never writes to the store at position `at` when it begins a block. */
  ghost predicate BeginsElsewhere(m: Module, at: nat) {
    forall images, memory, header :: WriteElsewhere(m.beginBlock(images, memory, header).writes, at)
  }

  /** The module's code never writes to the store at position `at`. */
  ghost predicate Avoids(m: Module, at: nat) {
    && (forall images, memory, message, signer :: WriteElsewhere(m.deliver(images, memory, message, signer).writes, at))
    && (forall images, memory, genesis :: WriteElsewhere(m.init(images, memory, genesis).writes, at))
    && BeginsElsewhere(m, at)
  }

  lemma {:induction false} WritesElsewhere(stores: seq<StoreModel>, writes: seq<Write>, at: nat)
    requires AllWellFormed(stores) && at < |stores|
    requires WriteElsewhere(writes, at)
    ensures ApplyWrites(stores, writes)[at] == stores[at]
  {
    if writes != [] {
      WritesElsewhere(stores, writes[..|writes| - 1], at);
    }
  }

  lemma {:induction false} DeliverElsewhere(modules: seq<Module>, stores: seq<StoreModel>, memory: Memory, from: nat, message: Message, signer: Account, at: nat)
    requires AllWellFormed(stores) && at < |stores|
    requires forall i :: from <= i < |modules| ==> Avoids(modules[i], at)
    ensures DeliverMsgFrom(modules, stores, memory, from, message, signer).stores[at] == stores[at]
    decreases |modules| - from
  {
    if from < |modules| {
      var effect := modules[from].deliver(ImagesOf(stores), memory, message, signer);
      WritesElsewhere(stores, effect.writes, at);
      DeliverStep(modules, stores, memory, from, message, signer, effect);
      DeliverElsewhere(modules, ApplyWrites(stores, effect.writes), effect.memory, from + 1, message, signer, at);
    }
  }

  lemma {:induction false} InitElsewhere(modules: seq<Module>, stores: seq<StoreModel>, memory: Memory, from: nat, genesis: Bytes, at: nat)
    requires AllWellFormed(stores) && at < |stores|
    requires forall i :: from <= i < |modules| ==> Avoids(modules[i], at)
    ensures InitFrom(modules, stores, memory, from, genesis).stores[at] == stores[at]
    decreases |modules| - from
  {
    if from < |modules| {
      var done := modules[from].init(ImagesOf(stores), memory, genesis);
      WritesElsewhere(stores, done.writes, at);
      InitStep(modules, stores, memory, from, genesis);
      InitElsewhere(modules, ApplyWrites(stores, done.writes), done.memory, from + 1, genesis, at);
    }
  }

  lemma {:induction false} BeginElsewhere(modules: seq<Module>, stores: seq<StoreModel>, memory: Memory, from: nat, header: Bytes, at: nat)
    requires AllWellFormed(stores) && at < |stores|
    requires forall i :: from <= i < |modules| ==> BeginsElsewhere(modules[i], at)
    ensures BeginFrom(modules, stores, memory, from, header).stores[at] == stores[at]
    decreases |modules| - from
  {
    if from < |modules| {
      var begun := modules[from].beginBlock(ImagesOf(stores), memory, header);
      WritesElsewhere(stores, begun.writes, at);
      BeginStep(modules, stores, memory, from, header);
      BeginElsewhere(modules, ApplyWrites(stores, begun.writes), begun.memory, from + 1, header, at);
    }
  }

  // ---------- sequence accounting ----------

  /** Auth is registered first, and no other module writes to its store. `parse` reads the account
      addresses out of the genesis state. */
  ghost predicate AuthFirst(c: Config, codec: AccountCodec, parse: Bytes -> seq<Account>) {
    && ValidConfig(c) && c.modules != []
    && (forall images, memory, message, signer :: c.modules[0].deliver(images, memory, message, signer) == AuthDeliver(codec, 0, images, memory, signer))
    && (forall images, memory, genesis :: c.modules[0].init(images, memory, genesis) == Initialised(AuthInit(codec, 0, parse(genesis)), memory))
    && (forall images, memory, header :: c.modules[0].beginBlock(images, memory, header) == Begun([], memory, []))
    && (forall i :: 0 < i < |c.modules| ==> Avoids(c.modules[i], 0))
  }

  /** Every account is stored under its own address. */
  ghost predicate Keyed(codec: AccountCodec, t: State) {
    forall a :: AccountIn(codec, t, a).Some? ==> AccountIn(codec, t, a).value.address == a
  }

  /** The account that `n` messages of `signer` make of the one stored under `a`. */
  function AfterMessages(account: Option<AuthAccount>, a: Account, signer: Account, n: nat): Option<AuthAccount> {
    if a == signer && account.Some? then Some(account.value.(sequence := (account.value.sequence + n) % U64)) else account
  }

  lemma SetAccountEffect(codec: AccountCodec, m: StoreModel, account: AuthAccount, a: Account)
    requires WellFormedStore(m) && RoundTrips(codec)
    ensures var r := StepStore(m, Set(Split(account.address), codec.encode(account)));
      AccountIn(codec, r.pending, a) == if a == account.address then Some(account) else AccountIn(codec, m.pending, a)
  {
    PathKeysOrdered();
    var path, v := Split(account.address), codec.encode(account);
    var r := StepStore(m, Set(path, v));
    InsertCorrect(PATH_KEYS, m.pending, path, v);
    GetIsLookup(PATH_KEYS, m.pending, Split(a), None, None);
    GetIsLookup(PATH_KEYS, r.pending, Split(a), None, None);
    if Split(a) == path {
      JoinUndoesSplit(a);
      JoinUndoesSplit(account.address);
    }
  }

  /** What auth does with a message it lets through. */
  lemma AuthTakesFirst(c: Config, codec: AccountCodec, parse: Bytes -> seq<Account>, stores: seq<StoreModel>, memory: Memory, message: Message, signer: Account)
    requires AuthFirst(c, codec, parse) && AllWellFormed(stores) && stores != [] && Keyed(codec, stores[0].pending)
    requires DeliverMsgFrom(c.modules, stores, memory, 0, message, signer).response.Handled?
    ensures AccountIn(codec, stores[0].pending, signer).Some?
    ensures var account := Advanced(AccountIn(codec, stores[0].pending, signer).value);
      && account.address == signer
      && DeliverMsgFrom(c.modules, stores, memory, 0, message, signer).stores[0]
         == StepStore(stores[0], Set(Split(account.address), codec.encode(account)))
  {
    var effect := AuthDeliver(codec, 0, ImagesOf(stores), memory, signer);
    assert ImagesOf(stores)[0].pending == stores[0].pending;
    DeliverStep(c.modules, stores, memory, 0, message, signer, effect);
    ApplyOne(stores, effect.writes[0]);
    DeliverElsewhere(c.modules, ApplyWrites(stores, effect.writes), memory, 1, message, signer, 0);
  }

  /** One handled message adds one to the signer's sequence and leaves every other account. */
  lemma MessageAdvances(c: Config, codec: AccountCodec, parse: Bytes -> seq<Account>, stores: seq<StoreModel>, memory: Memory, message: Message, signer: Account)
    requires AuthFirst(c, codec, parse) && RoundTrips(codec) && AllWellFormed(stores) && stores != [] && Keyed(codec, stores[0].pending)
    requires DeliverMsgFrom(c.modules, stores, memory, 0, message, signer).response.Handled?
    ensures OneStep(codec, stores[0].pending, DeliverMsgFrom(c.modules, stores, memory, 0, message, signer).stores[0].pending, signer)
  {
    AuthTakesFirst(c, codec, parse, stores, memory, message, signer);
    AdvancedIsOneStep(codec, stores[0], signer);
  }

  lemma AdvancedIsOneStep(codec: AccountCodec, m: StoreModel, signer: Account)
    requires RoundTrips(codec) && WellFormedStore(m) && AccountIn(codec, m.pending, signer).Some?
    requires AccountIn(codec, m.pending, signer).value.address == signer
    ensures var account := Advanced(AccountIn(codec, m.pending, signer).value);
      OneStep(codec, m.pending, StepStore(m, Set(Split(account.address), codec.encode(account))).pending, signer)
  {
    var account := Advanced(AccountIn(codec, m.pending, signer).value);
    var r := StepStore(m, Set(Split(account.address), codec.encode(account))).pending;
    forall a ensures AccountIn(codec, r, a) == AfterMessages(AccountIn(codec, m.pending, a), a, signer, 1) {
      SetAccountEffect(codec, m, account, a);
    }
  }

  /** Every account of `r` is what one message of `signer` makes of it in `t`. */
  ghost predicate OneStep(codec: AccountCodec, t: State, r: State, signer: Account) {
    forall a :: AccountIn(codec, r, a) == AfterMessages(AccountIn(codec, t, a), a, signer, 1)
  }

  lemma OneStepMore(codec: AccountCodec, s: State, t: State, r: State, signer: Account, a: Account, n: nat)
    requires Keyed(codec, t) && OneStep(codec, t, r, signer)
    requires AccountIn(codec, t, a) == AfterMessages(AccountIn(codec, s, a), a, signer, n)
    ensures Keyed(codec, r) && AccountIn(codec, r, a) == AfterMessages(AccountIn(codec, s, a), a, signer, n + 1)
  {
    var x := AccountIn(codec, s, a);
    if x.Some? {
      assert ((x.value.sequence + n) % U64 + 1) % U64 == (x.value.sequence + (n + 1)) % U64;
    }
  }

  lemma LastDelivered(modules: seq<Module>, stores: seq<StoreModel>, memory: Memory, messages: seq<Message>, signer: Account)
    requires AllWellFormed(stores) && messages != [] && DeliverAll(modules, stores, memory, messages, signer).response.Handled?
    ensures var before := DeliverAll(modules, stores, memory, messages[..|messages| - 1], signer);
      && before.response.Handled?
      && DeliverMsgFrom(modules, before.stores, before.memory, 0, messages[|messages| - 1], signer).response.Handled?
      && DeliverAll(modules, stores, memory, messages, signer).stores
         == DeliverMsgFrom(modules, before.stores, before.memory, 0, messages[|messages| - 1], signer).stores
  {
  }

  lemma {:induction false} MessagesAdvance(c: Config, codec: AccountCodec, parse: Bytes -> seq<Account>, stores: seq<StoreModel>, memory: Memory, messages: seq<Message>, signer: Account, a: Account)
    requires AuthFirst(c, codec, parse) && RoundTrips(codec) && AllWellFormed(stores) && stores != [] && Keyed(codec, stores[0].pending)
    requires DeliverAll(c.modules, stores, memory, messages, signer).response.Handled?
    ensures var r := DeliverAll(c.modules, stores, memory, messages, signer).stores[0].pending;
      && AccountIn(codec, r, a) == AfterMessages(AccountIn(codec, stores[0].pending, a), a, signer, |messages|)
      && Keyed(codec, r)
  {
    if messages != [] {
      LastDelivered(c.modules, stores, memory, messages, signer);
      var front, last := messages[..|messages| - 1], messages[|messages| - 1];
      var d := DeliverAll(c.modules, stores, memory, front, signer);
      MessagesAdvance(c, codec, parse, stores, memory, front, signer, a);
      MessageAdvances(c, codec, parse, d.stores, d.memory, last, signer);
      OneStepMore(codec, stores[0].pending, d.stores[0].pending,
                  DeliverMsgFrom(c.modules, d.stores, d.memory, 0, last, signer).stores[0].pending, signer, a, |front|);
    }
  }

  // ---------- every run ----------

  lemma {:induction false} InitKeepsKeyed(codec: AccountCodec, stores: seq<StoreModel>, addresses: seq<Account>)
    requires RoundTrips(codec) && AllWellFormed(stores) && stores != [] && Keyed(codec, stores[0].pending)
    ensures Keyed(codec, ApplyWrites(stores, AuthInit(codec, 0, addresses))[0].pending)
  {
    if addresses != [] {
      var front, last := addresses[..|addresses| - 1], addresses[|addresses| - 1];
      InitKeepsKeyed(codec, stores, front);
      var writes := AuthInit(codec, 0, addresses);
      assert writes[..|writes| - 1] == AuthInit(codec, 0, front);
      var before := ApplyWrites(stores, AuthInit(codec, 0, front));
      forall a { SetAccountEffect(codec, before[0], AuthAccount(last, 0, 0), a); }
    }
  }

  lemma InitChainKeepsKeyed(c: Config, codec: AccountCodec, parse: Bytes -> seq<Account>, stores: seq<StoreModel>, memory: Memory, genesis: Bytes)
    requires AuthFirst(c, codec, parse) && RoundTrips(codec) && AllWellFormed(stores) && stores != [] && Keyed(codec, stores[0].pending)
    ensures Keyed(codec, InitFrom(c.modules, stores, memory, 0, genesis).stores[0].pending)
  {
    InitKeepsKeyed(codec, stores, parse(genesis));
    InitStep(c.modules, stores, memory, 0, genesis);
    InitElsewhere(c.modules, ApplyWrites(stores, AuthInit(codec, 0, parse(genesis))), memory, 1, genesis, 0);
  }

  lemma BeginBlockKeepsAuth(c: Config, codec: AccountCodec, parse: Bytes -> seq<Account>, stores: seq<StoreModel>, memory: Memory, header: Bytes)
    requires AuthFirst(c, codec, parse) && AllWellFormed(stores) && stores != []
    ensures BeginFrom(c.modules, stores, memory, 0, header).stores[0] == stores[0]
  {
    BeginStep(c.modules, stores, memory, 0, header);
    BeginElsewhere(c.modules, ApplyWrites(stores, []), memory, 1, header, 0);
  }

  /** The first store's applied and pending trees are both keyed. */
  ghost predicate AuthKeyed(codec: AccountCodec, stores: seq<StoreModel>) {
    stores != [] && Keyed(codec, stores[0].pending) && Keyed(codec, stores[0].staged)
  }

  lemma StepKeepsKeyed(c: Config, codec: AccountCodec, parse: Bytes -> seq<Account>, a: AppState, call: Call)
    requires AuthFirst(c, codec, parse) && RoundTrips(codec) && WellFormedApp(c, a) && AuthKeyed(codec, a.stores)
    ensures AuthKeyed(codec, StepApp(c, a, call).stores)
  {
    match call {
      case InitChain(genesis) => InitChainKeepsKeyed(c, codec, parse, a.stores, a.memory, genesis);
      case BeginBlock(header) => BeginBlockKeepsAuth(c, codec, parse, a.stores, a.memory, header);
      case DeliverTxCall(tx) => if Reaches(tx) { TxKeepsKeyed(c, codec, parse, a, tx); }
      case CommitCall => assert CommitApp(c, a).stores[0] == StepStore(a.stores[0], StoreOp.Commit);
    }
  }

  /** In every run each account is stored under its own address. */
  lemma {:induction false} RunsKeyed(c: Config, codec: AccountCodec, parse: Bytes -> seq<Account>, calls: seq<Call>)
    requires AuthFirst(c, codec, parse) && RoundTrips(codec)
    ensures AuthKeyed(codec, RunApp(c, calls).stores)
  {
    if calls != [] {
      RunsKeyed(c, codec, parse, calls[..|calls| - 1]);
      StepKeepsKeyed(c, codec, parse, RunApp(c, calls[..|calls| - 1]), calls[|calls| - 1]);
    }
  }

  lemma TxKeepsKeyed(c: Config, codec: AccountCodec, parse: Bytes -> seq<Account>, a: AppState, tx: Tx)
    requires AuthFirst(c, codec, parse) && RoundTrips(codec) && WellFormedApp(c, a) && Reaches(tx)
    requires Keyed(codec, a.stores[0].pending) && Keyed(codec, a.stores[0].staged)
    ensures var r := DeliverTx(c, a, tx).stores[0]; Keyed(codec, r.pending) && r.staged == r.pending
  {
    TxAtomic(c, a, tx);
    if TxResponseOf(c, a, tx).code == 0 {
      MessagesAdvance(c, codec, parse, a.stores, a.memory, tx.messages, tx.signer, tx.signer);
    }
  }

  /** The account is the one before but for its sequence number, which is `n` more, modulo 2^64. */
  predicate AdvancedBy(before: Option<AuthAccount>, after: Option<AuthAccount>, n: nat) {
    && (after.Some? <==> before.Some?)
    && (before.Some? ==>
          && after.value.address == before.value.address && after.value.number == before.value.number
          && after.value.sequence == (before.value.sequence + n) % 0x1_0000_0000_0000_0000)
  }

  /** In every run, a successful transaction of n messages raises its signer's stored sequence
      number by exactly n, modulo 2^64, and changes no other account; a failed one leaves every
      account as last applied. */
  lemma TxAdvancesSequence(c: Config, codec: AccountCodec, parse: Bytes -> seq<Account>, calls: seq<Call>, tx: Tx, address: Account)
    requires AuthFirst(c, codec, parse) && RoundTrips(codec) && Reaches(tx)
    ensures var a := RunApp(c, calls);
      var r := DeliverTx(c, a, tx).stores[0];
      var before, after := AccountIn(codec, a.stores[0].pending, address), AccountIn(codec, r.pending, address);
      && r.pending == r.staged
      && (if TxResponseOf(c, a, tx).code == 0
          then (if address == tx.signer then AdvancedBy(before, after, |tx.messages|) else after == before)
          else r.pending == a.stores[0].staged)
  {
    TxAdvances(c, codec, parse, calls, tx, address);
  }

  lemma TxAdvances(c: Config, codec: AccountCodec, parse: Bytes -> seq<Account>, calls: seq<Call>, tx: Tx, address: Account)
    requires AuthFirst(c, codec, parse) && RoundTrips(codec) && Reaches(tx)
    ensures var a := RunApp(c, calls);
      var r := DeliverTx(c, a, tx).stores[0];
      && r.pending == r.staged
      && (if TxResponseOf(c, a, tx).code == 0
          then AccountIn(codec, r.pending, address)
            == AfterMessages(AccountIn(codec, a.stores[0].pending, address), address, tx.signer, |tx.messages|)
          else r.pending == a.stores[0].staged)
  {
    RunsKeyed(c, codec, parse, calls);
    var a := RunApp(c, calls);
    TxAtomic(c, a, tx);
    if TxResponseOf(c, a, tx).code == 0 {
      MessagesAdvance(c, codec, parse, a.stores, a.memory, tx.messages, tx.signer, address);
    }
  }

  // ---------- genesis, and how it is lost ----------

  lemma {:induction false} InitAccounts(codec: AccountCodec, stores: seq<StoreModel>, addresses: seq<Account>, a: Account)
    requires RoundTrips(codec) && AllWellFormed(stores) && stores != []
    ensures AccountIn(codec, ApplyWrites(stores, AuthInit(codec, 0, addresses))[0].pending, a)
         == if a in addresses then Some(AuthAccount(a, 0, 0)) else AccountIn(codec, stores[0].pending, a)
  {
    if addresses != [] {
      var front, last := addresses[..|addresses| - 1], addresses[|addresses| - 1];
      InitAccounts(codec, stores, front, a);
      InitOneMore(codec, stores, addresses);
      SetAccountEffect(codec, ApplyWrites(stores, AuthInit(codec, 0, front))[0], AuthAccount(last, 0, 0), a);
      assert a in addresses <==> a in front || a == last;
    }
  }

  lemma InitOneMore(codec: AccountCodec, stores: seq<StoreModel>, addresses: seq<Account>)
    requires AllWellFormed(stores) && stores != [] && addresses != []
    ensures var front, last := addresses[..|addresses| - 1], addresses[|addresses| - 1];
      var m := ApplyWrites(stores, AuthInit(codec, 0, front))[0];
      ApplyWrites(stores, AuthInit(codec, 0, addresses))[0]
        == StepStore(m, Set(Split(last), codec.encode(AuthAccount(last, 0, 0))))
  {
    var writes := AuthInit(codec, 0, addresses);
    assert writes[..|writes| - 1] == AuthInit(codec, 0, addresses[..|addresses| - 1]);
  }

  lemma RunFirst(c: Config, call: Call)
    requires ValidConfig(c)
    ensures WellFormedApp(c, FreshApp(c)) && RunApp(c, [call]) == StepApp(c, FreshApp(c), call)
  {
    assert [call][..0] == [];
    assert RunApp(c, []) == FreshApp(c);
  }

  /** After genesis auth knows exactly the listed accounts, each at sequence 0. */
  lemma GenesisAccounts(c: Config, codec: AccountCodec, parse: Bytes -> seq<Account>, genesis: Bytes, a: Account)
    requires AuthFirst(c, codec, parse) && RoundTrips(codec)
    ensures AccountIn(codec, RunApp(c, [Call.InitChain(genesis)]).stores[0].pending, a)
         == if a in parse(genesis) then Some(AuthAccount(a, 0, 0)) else None
  {
    RunFirst(c, Call.InitChain(genesis));
    var stores, writes := FreshApp(c).stores, AuthInit(codec, 0, parse(genesis));
    InitAccounts(codec, stores, parse(genesis), a);
    InitStep(c.modules, stores, c.memory, 0, genesis);
    InitElsewhere(c.modules, ApplyWrites(stores, writes), c.memory, 1, genesis, 0);
  }

  /** A transaction whose signer auth does not know fails. */
  lemma UnknownSignerFails(c: Config, codec: AccountCodec, parse: Bytes -> seq<Account>, a: AppState, tx: Tx)
    requires AuthFirst(c, codec, parse) && WellFormedApp(c, a) && Reaches(tx)
    requires AccountIn(codec, a.stores[0].pending, tx.signer).None?
    ensures TxResponseOf(c, a, tx).code == 2
  {
    var first := tx.messages[0];
    var effect := AuthDeliver(codec, 0, ImagesOf(a.stores), a.memory, tx.signer);
    assert ImagesOf(a.stores)[0].pending == a.stores[0].pending;
    DeliverStep(c.modules, a.stores, a.memory, 0, first, tx.signer, effect);
    assert tx.messages[..1] == [first];
    DeliverOne(c.modules, a.stores, a.memory, first, tx.signer);
    FirstFailureStops(c.modules, a.stores, a.memory, tx.messages, 1, tx.signer);
  }

  /** Right after genesis, a transaction of a signer genesis does not list makes auth forget every
      account it does list. */
  lemma UnknownSignerForgetsGenesis(c: Config, codec: AccountCodec, parse: Bytes -> seq<Account>, genesis: Bytes, a: Account, tx: Tx)
    requires AuthFirst(c, codec, parse) && RoundTrips(codec)
    requires a in parse(genesis) && Reaches(tx) && tx.signer !in parse(genesis)
    ensures var init := Call.InitChain(genesis);
      && AccountIn(codec, RunApp(c, [init]).stores[0].pending, a) == Some(AuthAccount(a, 0, 0))
      && RunApp(c, [init] + [DeliverTxCall(tx)]).stores == FreshApp(c).stores
      && AccountIn(codec, RunApp(c, [init] + [DeliverTxCall(tx)]).stores[0].pending, a) == None
  {
    var init := Call.InitChain(genesis);
    GenesisAccounts(c, codec, parse, genesis, a);
    GenesisAccounts(c, codec, parse, genesis, tx.signer);
    UnknownSignerFails(c, codec, parse, RunApp(c, [init]), tx);
    assert [init][..0] == [];
    FailureForgetsGenesis(c, [init], tx);
  }
}
