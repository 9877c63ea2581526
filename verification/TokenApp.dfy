/**
 An application of auth, the bank and any further modules: that the results about sequence numbers
 and about the supply hold of it, how it answers balance queries, and three runs that show what
 the code does against expectation.
 */
module TokenApp {
  import opened Bytes
  import opened AvlModel
  import opened Paths
  import opened Store
  import opened AppModel
  import opened AppProofs
  import opened Balances
  import opened Bank
  import opened BankSupply
  import opened Auth
  import opened TokenChain
  import opened ChainSupply

  /** The bank's own entry in the ledger: a message to send, from a known account, is one send. */
  function BankOps(s: BankSetting, images: seq<Image>, message: Message): seq<KeeperOp> {
    if s.at >= |images| || s.authAt >= |images| then []
    else
      match s.parse(message)
      case MsgSend(from, to, coins) =>
        if AccountIn(s.accounts, images[s.authAt].pending, from).None? then [] else [Send(from, to, coins)]
      case _ => []
  }

  /** The auth module's code, its store being the first. */
  function AuthModule(codec: AccountCodec, parse: Bytes -> seq<Account>): Module {
    Module((images, memory, message, signer) => AuthDeliver(codec, 0, images, memory, signer),
           (images, memory, genesis) => Initialised(AuthInit(codec, 0, parse(genesis)), memory),
           (images, memory, header) => Begun([], memory, []),
           (images, memory, data, path, height, prove) => NotAnswered)
  }

  function BankModuleCode(s: BankSetting): Module {
    Module((images, memory, message, signer) => BankDeliver(s, images, memory, message),
           (images, memory, genesis) => BankInit(s, images, memory, genesis),
           (images, memory, header) => Begun([], memory, []),
           (images, memory, data, path, height, prove) => BankQuery(s, images, data, height))
  }

  /** The ledger of auth, the bank and further modules, given theirs. */
  function FullLedger(s: BankSetting, g: Ledger): Ledger {
    Ledger((i: nat, images, memory, message, signer) =>
             if i == 0 then [] else if i == 1 then BankOps(s, images, message) else g.deliver(i, images, memory, message, signer),
           (i: nat, images, memory, genesis) =>
             if i == 0 then [] else if i == 1 then GenesisMints(s.genesis(genesis)) else g.init(i, images, memory, genesis),
           (i: nat, images, memory, header) =>
             if i <= 1 then [] else g.beginBlock(i, images, memory, header))
  }

  /** Auth first, the bank second, then the others. */
  function TokenConfig(s: BankSetting, parse: Bytes -> seq<Account>, others: seq<Module>, ids: seq<Identifier>, memory: Memory): Config {
    Config(ids, [AuthModule(s.accounts, parse), BankModuleCode(s)] + others, memory)
  }

  /** The names are distinct, and the other modules leave auth's store alone and reach the bank's
      through its keeper. */
  ghost predicate ProperApp(s: BankSetting, others: seq<Module>, g: Ledger, ids: seq<Identifier>) {
    && s.at == 1 && s.authAt == 0 && RoundTrips(s.balances) && RoundTrips(s.accounts)
    && |ids| == |others| + 2 && (forall i, j :: 0 <= i < j < |ids| ==> ids[i] != ids[j])
    && (forall i :: 0 <= i < |others| ==> Avoids(others[i], 0) && UsesKeeper(s, others[i], i + 2, g))
  }

  // ---------- the modules use the keeper ----------

  lemma BankPerforms(s: BankSetting, stores: seq<StoreModel>, memory: Memory, message: Message)
    requires AllWellFormed(stores) && s.at < |stores|
    ensures Performs(s, stores, BankDeliver(s, ImagesOf(stores), memory, message).writes, BankOps(s, ImagesOf(stores), message))
  {
    if s.authAt < |stores| {
      DeliverIsEffect(s, stores, memory, message);
      assert ImagesOf(stores)[s.authAt].pending == stores[s.authAt].pending;
      match s.parse(message)
      case MsgSend(from, to, coins) =>
        SendEffectIsKeepers(s, stores, memory, from, to, coins);
        OneOp(s.balances, stores[s.at], Send(from, to, coins));
      case _ =>
    }
  }

  lemma OneOp(codec: BalanceCodec, m: StoreModel, op: KeeperOp)
    requires WellFormedStore(m)
    ensures RunKeeper(codec, m, [op]) == StepKeeper(codec, m, op)
  {
    assert [op][..0] == [];
  }

  lemma {:induction false} AuthInitStaysHome(codec: AccountCodec, at: nat, addresses: seq<Account>, other: nat)
    requires at != other
    ensures WriteElsewhere(AuthInit(codec, at, addresses), other)
  {
    if addresses != [] { AuthInitStaysHome(codec, at, addresses[..|addresses| - 1], other); }
  }

  /** A module that never writes to the bank's store uses its keeper for nothing. */
  lemma AvoidingUsesKeeper(s: BankSetting, m: Module, i: nat, g: Ledger)
    requires Avoids(m, s.at)
    requires forall images, memory, message, signer :: g.deliver(i, images, memory, message, signer) == []
    requires forall images, memory, genesis :: g.init(i, images, memory, genesis) == []
    requires forall images, memory, header :: g.beginBlock(i, images, memory, header) == []
    ensures UsesKeeper(s, m, i, g)
  {
    forall stores, memory, message, signer | AllWellFormed(stores) && s.at < |stores|
      ensures Performs(s, stores, m.deliver(ImagesOf(stores), memory, message, signer).writes, [])
    {
      WritesElsewhere(stores, m.deliver(ImagesOf(stores), memory, message, signer).writes, s.at);
    }
    forall stores, memory, genesis | AllWellFormed(stores) && s.at < |stores|
      ensures Performs(s, stores, m.init(ImagesOf(stores), memory, genesis).writes, [])
    {
      WritesElsewhere(stores, m.init(ImagesOf(stores), memory, genesis).writes, s.at);
    }
    forall stores, memory, header | AllWellFormed(stores) && s.at < |stores|
      ensures Performs(s, stores, m.beginBlock(ImagesOf(stores), memory, header).writes, [])
    {
      WritesElsewhere(stores, m.beginBlock(ImagesOf(stores), memory, header).writes, s.at);
    }
  }

  lemma {:induction false} MintWritesStayHome(codec: BalanceCodec, at: nat, t: State, entries: Entries, other: nat)
    requires at != other
    ensures WriteElsewhere(MintWrites(codec, at, t, entries), other)
  {
    if entries != [] { MintWritesStayHome(codec, at, t, entries[..|entries| - 1], other); }
  }

  lemma BankInitPerforms(s: BankSetting, stores: seq<StoreModel>, memory: Memory, genesis: Bytes)
    requires RoundTrips(s.balances) && AllWellFormed(stores) && s.at < |stores|
    ensures Performs(s, stores, BankInit(s, ImagesOf(stores), memory, genesis).writes, GenesisMints(s.genesis(genesis)))
  {
    assert ImagesOf(stores)[s.at].pending == stores[s.at].pending;
    MintWritesPerform(s.balances, stores, s.at, s.genesis(genesis), []);
  }

  lemma BankUsesKeeper(s: BankSetting, g: Ledger)
    requires s.at == 1 && RoundTrips(s.balances)
    ensures UsesKeeper(s, BankModuleCode(s), 1, FullLedger(s, g))
  {
    var bank, full := BankModuleCode(s), FullLedger(s, g);
    forall stores, memory, message, signer | AllWellFormed(stores) && s.at < |stores|
      ensures Performs(s, stores, bank.deliver(ImagesOf(stores), memory, message, signer).writes,
                       full.deliver(1, ImagesOf(stores), memory, message, signer))
    {
      BankPerforms(s, stores, memory, message);
    }
    forall stores, memory, genesis | AllWellFormed(stores) && s.at < |stores|
      ensures Performs(s, stores, bank.init(ImagesOf(stores), memory, genesis).writes, full.init(1, ImagesOf(stores), memory, genesis))
    {
      BankInitPerforms(s, stores, memory, genesis);
    }
  }

  lemma BankAvoidsAuth(s: BankSetting)
    requires s.at == 1
    ensures Avoids(BankModuleCode(s), 0)
  {
    var bank := BankModuleCode(s);
    forall images: seq<Image>, memory, genesis ensures WriteElsewhere(bank.init(images, memory, genesis).writes, 0) {
      if s.at < |images| { MintWritesStayHome(s.balances, s.at, images[s.at].pending, s.genesis(genesis), 0); }
    }
  }

  lemma AuthUsesKeeper(s: BankSetting, parse: Bytes -> seq<Account>, g: Ledger)
    requires s.at == 1
    ensures UsesKeeper(s, AuthModule(s.accounts, parse), 0, FullLedger(s, g))
  {
    var auth := AuthModule(s.accounts, parse);
    forall images, memory, genesis ensures WriteElsewhere(auth.init(images, memory, genesis).writes, 1) {
      AuthInitStaysHome(s.accounts, 0, parse(genesis), 1);
    }
    assert Avoids(auth, 1);
    AvoidingUsesKeeper(s, auth, 0, FullLedger(s, g));
  }

  lemma OtherUsesKeeper(s: BankSetting, m: Module, i: nat, g: Ledger)
    requires i >= 2 && UsesKeeper(s, m, i, g)
    ensures UsesKeeper(s, m, i, FullLedger(s, g))
  {
  }

  /** Auth first, the bank second, and any further modules that leave auth's store alone and reach
      the bank's through its keeper meet what the results about sequence numbers and about the
      supply ask of an application. */
  lemma AuthAndBankRegistered(s: BankSetting, parse: Bytes -> seq<Account>, others: seq<Module>, g: Ledger, ids: seq<Identifier>, memory: Memory)
    requires ProperApp(s, others, g, ids)
    ensures var c := TokenConfig(s, parse, others, ids, memory);
      AuthFirst(c, s.accounts, parse) && AllUseKeeper(c, s, FullLedger(s, g))
  {
    var modules := [AuthModule(s.accounts, parse), BankModuleCode(s)] + others;
    AuthUsesKeeper(s, parse, g);
    BankUsesKeeper(s, g);
    BankAvoidsAuth(s);
    forall i | 0 <= i < |modules|
      ensures UsesKeeper(s, modules[i], i, FullLedger(s, g)) && (i > 0 ==> Avoids(modules[i], 0))
    {
      if i >= 2 { OtherUsesKeeper(s, others[i - 2], i, g); }
    }
  }

  // ---------- balance queries ----------

  /** What the bank makes of a query in a running application. */
  lemma BankTakesQuery(s: BankSetting, c: Config, a: AppState, data: Bytes, path: Path, height: Height, prove: bool)
    requires s.at == 1 && s.authAt == 0 && WellFormedApp(c, a) && |c.modules| >= 2 && s.account(data).Some?
    requires c.modules[0].query(ImagesOf(a.stores), a.memory, data, path, height, prove) == NotAnswered
    requires c.modules[1].query(ImagesOf(a.stores), a.memory, data, path, height, prove) == BankQuery(s, ImagesOf(a.stores), data, height)
    ensures var known := AccountIn(s.accounts, a.stores[0].pending, s.account(data).value).Some?;
      var balances := BalancesAt(s.balances, StateAt(a.stores[1], height), s.account(data).value);
      QueryFrom(c, a, 0, data, path, height, prove)
        == if known then AppAnswer(a.main, c.ids[1], (s.render(balances), []), height, prove) else QueryError
  {
    assert ImagesOf(a.stores)[0].pending == a.stores[0].pending;
    ImageShows(a.stores[1], height);
    assert ImagesOf(a.stores)[1] == ImageOf(a.stores[1]);
    QueryStep(c, a, 0, data, path, height, prove);
    QueryStep(c, a, 1, data, path, height, prove);
  }

  lemma AppAnswers(main: StoreModel, id: Identifier, value: Bytes, height: Height, prove: bool)
    requires WellFormedStore(main)
    ensures AppAnswer(main, id, (value, []), height, prove) ==
      if !prove then Answer(value, None, |main.history|)
      else if StateAt(main, height).None? then Panic
      else Answer(value, Some([ProofOp(id, AvlProofs.GetProof(PATH_KEYS, StateAt(main, height).value, [id]))]), |main.history|)
  {
    if prove && StateAt(main, height).Some? {
      var op := ProofOp(id, AvlProofs.GetProof(PATH_KEYS, StateAt(main, height).value, [id]));
      assert [] + [op] == [op];
    }
  }

  /** The response to a query for an account's balances at a height, 0 meaning the last of the `n`
      commits: the balances there, and none at a height not committed; but if a proof is wanted
      then, a panic. The bank gives no proof, only the main store's proof of the bank's root. */
  ghost predicate AnswersBalances(s: BankSetting, main: seq<State>, id: Identifier, bank: seq<State>, n: nat, account: Account, raw: nat, prove: bool, response: QueryResponse) {
    var h := if raw == 0 then n else raw;
    && |main| == |bank| == n
    && response ==
         if 1 <= h <= n then
           Answer(s.render(BalancesIn(s.balances, bank[h - 1], account)),
                  if prove then Some([ProofOp(id, AvlProofs.GetProof(PATH_KEYS, main[h - 1], [id]))]) else None, n)
         else if prove then Panic
         else Answer(s.render([]), None, n)
  }

  lemma BalancesAtPosition(s: BankSetting, main: StoreModel, id: Identifier, bank: StoreModel, n: nat, account: Account, raw: nat, prove: bool)
    requires WellFormedStore(main) && |main.history| == |bank.history| == n && main.pruned == bank.pruned == 0
    ensures var value := s.render(BalancesAt(s.balances, StateAt(bank, HeightFrom(raw)), account));
      AnswersBalances(s, main.history, id, bank.history, n, account, raw, prove, AppAnswer(main, id, (value, []), HeightFrom(raw), prove))
  {
    HeightIsPosition(main, raw);
    HeightIsPosition(bank, raw);
    AppAnswers(main, id, s.render(BalancesAt(s.balances, StateAt(bank, HeightFrom(raw)), account)), HeightFrom(raw), prove);
  }

  /** In every run, a query naming an account is answered so if auth knows the account, and with an
      error if it does not. */
  lemma BalanceQueries(s: BankSetting, parse: Bytes -> seq<Account>, others: seq<Module>, g: Ledger, ids: seq<Identifier>, memory: Memory, calls: seq<Call>, data: Bytes, path: Path, raw: nat, prove: bool)
    requires ProperApp(s, others, g, ids) && s.account(data).Some?
    ensures ValidConfig(TokenConfig(s, parse, others, ids, memory))
    ensures var c := TokenConfig(s, parse, others, ids, memory);
      var a, n, account := RunApp(c, calls), CommitCount(calls), s.account(data).value;
      var response := QueryFrom(c, a, 0, data, path, HeightFrom(raw), prove);
      if AccountIn(s.accounts, a.stores[0].pending, account).None? then response == QueryError
      else AnswersBalances(s, a.main.history, ids[1], a.stores[1].history, n, account, raw, prove, response)
  {
    var c := TokenConfig(s, parse, others, ids, memory);
    AuthAndBankRegistered(s, parse, others, g, ids, memory);
    var a := RunApp(c, calls);
    RunLengths(c, calls, 1);
    BankTakesQuery(s, c, a, data, path, HeightFrom(raw), prove);
    BalancesAtPosition(s, a.main, ids[1], a.stores[1], CommitCount(calls), s.account(data).value, raw, prove);
  }

  /** Data that names no account passes auth and the bank by, to the modules after them. */
  lemma OtherQueriesPass(s: BankSetting, parse: Bytes -> seq<Account>, others: seq<Module>, ids: seq<Identifier>, memory: Memory, a: AppState, data: Bytes, path: Path, height: Height, prove: bool)
    requires WellFormedApp(TokenConfig(s, parse, others, ids, memory), a) && s.account(data).None?
    ensures var c := TokenConfig(s, parse, others, ids, memory);
      QueryFrom(c, a, 0, data, path, height, prove) == QueryFrom(c, a, 2, data, path, height, prove)
  {
    var c := TokenConfig(s, parse, others, ids, memory);
    QueryStep(c, a, 0, data, path, height, prove);
    QueryStep(c, a, 1, data, path, height, prove);
  }

  // ---------- sends in a running application ----------

  /** Auth lets a known signer's message through, keeps every account, and touches no other store. */
  lemma AuthPassesOn(codec: AccountCodec, stores: seq<StoreModel>, kept: Memory, signer: Account, who: Account) returns (after: seq<StoreModel>)
    requires RoundTrips(codec) && AllWellFormed(stores) && |stores| >= 2 && Keyed(codec, stores[0].pending)
    requires AccountIn(codec, stores[0].pending, signer).Some?
    ensures var effect := AuthDeliver(codec, 0, ImagesOf(stores), kept, signer);
      effect.response == NotHandled && effect.memory == kept && after == ApplyWrites(stores, effect.writes)
    ensures AllWellFormed(after) && |after| == |stores| && forall i :: 1 <= i < |stores| ==> after[i] == stores[i]
    ensures AccountIn(codec, after[0].pending, who).Some? <==> AccountIn(codec, stores[0].pending, who).Some?
  {
    assert ImagesOf(stores)[0].pending == stores[0].pending;
    var account := Advanced(AccountIn(codec, stores[0].pending, signer).value);
    var w := SetAt(0, Split(account.address), codec.encode(account));
    after := ApplyWrites(stores, [w]);
    ApplyOne(stores, w);
    SetAccountEffect(codec, stores[0], account, who);
  }

  /** The send can be done: auth knows the signer and the sender, the sender covers it, and the
      receiver has room. */
  ghost predicate CanSend(s: BankSetting, stores: seq<StoreModel>, signer: Account, from: Account, to: Account, coins: seq<Coin>)
    requires |stores| >= 2
  {
    && AccountIn(s.accounts, stores[0].pending, signer).Some? && AccountIn(s.accounts, stores[0].pending, from).Some?
    && Covers(BalancesIn(s.balances, stores[1].pending, from), coins)
    && HasRoom(BalancesIn(s.balances, stores[1].pending, to), coins)
  }

  /** A message to send is handled exactly if the send can be done, and then is that send; otherwise
      it fails. No module after the bank sees it. */
  lemma SendAnswered(s: BankSetting, parse: Bytes -> seq<Account>, others: seq<Module>, ids: seq<Identifier>, memory: Memory, stores: seq<StoreModel>, kept: Memory, message: Message, signer: Account)
    requires s.at == 1 && s.authAt == 0 && RoundTrips(s.accounts) && s.parse(message).MsgSend?
    requires AllWellFormed(stores) && |stores| >= 2 && Keyed(s.accounts, stores[0].pending)
    ensures var msg, d := s.parse(message), DeliverMsgFrom(TokenConfig(s, parse, others, ids, memory).modules, stores, kept, 0, message, signer);
      if CanSend(s, stores, signer, msg.from, msg.to, msg.coins)
      then d.response == Handled([]) && d.stores[1] == StepKeeper(s.balances, stores[1], Send(msg.from, msg.to, msg.coins))
      else d.response.Failed?
  {
    var modules := TokenConfig(s, parse, others, ids, memory).modules;
    var first := AuthDeliver(s.accounts, 0, ImagesOf(stores), kept, signer);
    assert ImagesOf(stores)[0].pending == stores[0].pending;
    DeliverStep(modules, stores, kept, 0, message, signer, first);
    if AccountIn(s.accounts, stores[0].pending, signer).Some? {
      var after := AuthPassesOn(s.accounts, stores, kept, signer, s.parse(message).from);
      BankAnswers(s, after, kept, message);
      DeliverStep(modules, after, kept, 1, message, signer, BankDeliver(s, ImagesOf(after), kept, message));
    }
  }

  /** A message that is not the bank's, from a known signer, passes auth and the bank by. */
  lemma OtherMessagesPass(s: BankSetting, parse: Bytes -> seq<Account>, others: seq<Module>, ids: seq<Identifier>, memory: Memory, stores: seq<StoreModel>, kept: Memory, message: Message, signer: Account) returns (after: seq<StoreModel>)
    requires s.at == 1 && s.authAt == 0 && RoundTrips(s.accounts) && s.parse(message).NotBank?
    requires AllWellFormed(stores) && |stores| >= 2 && Keyed(s.accounts, stores[0].pending)
    requires AccountIn(s.accounts, stores[0].pending, signer).Some?
    ensures AllWellFormed(after) && |after| == |stores| && forall i :: 1 <= i < |stores| ==> after[i] == stores[i]
    ensures var modules := TokenConfig(s, parse, others, ids, memory).modules;
      DeliverMsgFrom(modules, stores, kept, 0, message, signer) == DeliverMsgFrom(modules, after, kept, 2, message, signer)
  {
    var modules := TokenConfig(s, parse, others, ids, memory).modules;
    after := AuthPassesOn(s.accounts, stores, kept, signer, signer);
    BankAnswers(s, after, kept, message);
    DeliverStep(modules, stores, kept, 0, message, signer, AuthDeliver(s.accounts, 0, ImagesOf(stores), kept, signer));
    DeliverStep(modules, after, kept, 1, message, signer, BankDeliver(s, ImagesOf(after), kept, message));
    assert ApplyWrites(after, []) == after;
  }

  /** In every run, a transaction of one message to send has code 0, and does that send to the bank's
      store, exactly if it can be done; otherwise it has code 2 and the bank's store is as last
      applied. */
  lemma SendTransaction(s: BankSetting, parse: Bytes -> seq<Account>, others: seq<Module>, g: Ledger, ids: seq<Identifier>, memory: Memory, calls: seq<Call>, message: Message, signer: Account)
    requires ProperApp(s, others, g, ids) && s.parse(message).MsgSend?
    ensures ValidConfig(TokenConfig(s, parse, others, ids, memory))
    ensures var c := TokenConfig(s, parse, others, ids, memory);
      var a, tx, msg := RunApp(c, calls), Tx(signer, [message]), s.parse(message);
      var r := DeliverTx(c, a, tx).stores[1];
      if CanSend(s, a.stores, signer, msg.from, msg.to, msg.coins)
      then TxResponseOf(c, a, tx) == TxResponse(0, [])
        && r.staged == r.pending == StepKeeper(s.balances, a.stores[1], Send(msg.from, msg.to, msg.coins)).pending
      else TxResponseOf(c, a, tx) == TxResponse(2, []) && r.pending == a.stores[1].staged
  {
    var c := TokenConfig(s, parse, others, ids, memory);
    AuthAndBankRegistered(s, parse, others, g, ids, memory);
    RunsKeyed(c, s.accounts, parse, calls);
    var a := RunApp(c, calls);
    SendAnswered(s, parse, others, ids, memory, a.stores, a.memory, message, signer);
    DeliverOne(c.modules, a.stores, a.memory, message, signer);
    TxAtomic(c, a, Tx(signer, [message]));
  }

  /** And in every run a transaction with a send that cannot be done when its turn comes has code 2. */
  lemma UndoableSendFails(s: BankSetting, parse: Bytes -> seq<Account>, others: seq<Module>, g: Ledger, ids: seq<Identifier>, memory: Memory, calls: seq<Call>, tx: Tx, k: nat)
    requires ProperApp(s, others, g, ids) && tx.Tx? && k < |tx.messages| && s.parse(tx.messages[k]).MsgSend?
    ensures ValidConfig(TokenConfig(s, parse, others, ids, memory))
    ensures var c := TokenConfig(s, parse, others, ids, memory);
      var a, msg := RunApp(c, calls), s.parse(tx.messages[k]);
      var d := DeliverAll(c.modules, a.stores, a.memory, tx.messages[..k], tx.signer);
      !(d.response.Handled? && CanSend(s, d.stores, tx.signer, msg.from, msg.to, msg.coins)) ==> TxResponseOf(c, a, tx).code == 2
  {
    var c := TokenConfig(s, parse, others, ids, memory);
    AuthAndBankRegistered(s, parse, others, g, ids, memory);
    RunsKeyed(c, s.accounts, parse, calls);
    var a := RunApp(c, calls);
    var d := DeliverAll(c.modules, a.stores, a.memory, tx.messages[..k], tx.signer);
    if d.response.Handled? {
      MessagesAdvance(c, s.accounts, parse, a.stores, a.memory, tx.messages[..k], tx.signer, tx.signer);
      SendAnswered(s, parse, others, ids, memory, d.stores, d.memory, tx.messages[k], tx.signer);
    }
    var msg := s.parse(tx.messages[k]);
    if !(d.response.Handled? && CanSend(s, d.stores, tx.signer, msg.from, msg.to, msg.coins)) {
      FailsAt(c.modules, a.stores, a.memory, tx.messages, k, tx.signer);
    }
  }

  // ---------- three runs ----------

  /** The three runs are of auth and the bank alone, with one account in genesis. */
  function Pair(s: BankSetting, memory: Memory): Config {
    TokenConfig(s, genesis => [genesis], [], [[97], [98]], memory)
  }

  const NO_LEDGER: Ledger := Ledger((i, images, memory, message, signer) => [], (i, images, memory, genesis) => [], (i, images, memory, header) => [])

  lemma PairIsProper(s: BankSetting, memory: Memory)
    requires s.at == 1 && s.authAt == 0 && RoundTrips(s.balances) && RoundTrips(s.accounts)
    ensures ProperApp(s, [], NO_LEDGER, [[97], [98]])
    ensures AuthFirst(Pair(s, memory), s.accounts, genesis => [genesis])
    ensures AllUseKeeper(Pair(s, memory), s, FullLedger(s, NO_LEDGER))
  {
    AuthAndBankRegistered(s, genesis => [genesis], [], NO_LEDGER, [[97], [98]], memory);
  }

  /** Genesis for one account, then a transaction of another: the account is gone again. */
  lemma GenesisIsLost(s: BankSetting, memory: Memory, a: Account, b: Account, message: Message)
    requires s.at == 1 && s.authAt == 0 && RoundTrips(s.balances) && RoundTrips(s.accounts) && a != b
    ensures ValidConfig(Pair(s, memory))
    ensures var init, tx := [Call.InitChain(a)], [DeliverTxCall(Tx(b, [message]))];
      && AccountIn(s.accounts, RunApp(Pair(s, memory), init).stores[0].pending, a).Some?
      && RunApp(Pair(s, memory), init + tx).stores == FreshApp(Pair(s, memory)).stores
      && AccountIn(s.accounts, RunApp(Pair(s, memory), init + tx).stores[0].pending, a) == None
  {
    PairIsProper(s, memory);
    UnknownSignerForgetsGenesis(Pair(s, memory), s.accounts, genesis => [genesis], a, a, Tx(b, [message]));
  }

  /** Genesis for one account, then a query for its balances with a proof, before any commit: the
      application panics. */
  lemma EarlyProofPanics(s: BankSetting, memory: Memory, a: Account, data: Bytes, path: Path)
    requires s.at == 1 && s.authAt == 0 && RoundTrips(s.balances) && RoundTrips(s.accounts) && s.account(data) == Some(a)
    ensures ValidConfig(Pair(s, memory))
    ensures QueryFrom(Pair(s, memory), RunApp(Pair(s, memory), [Call.InitChain(a)]), 0, data, path, Latest, true) == Panic
  {
    PairIsProper(s, memory);
    GenesisAccounts(Pair(s, memory), s.accounts, genesis => [genesis], a, a);
    BalanceQueries(s, genesis => [genesis], [], NO_LEDGER, [[97], [98]], memory, [Call.InitChain(a)], data, path, 0, true);
    assert [Call.InitChain(a)][..0] == [];
    assert CommitCount([Call.InitChain(a)]) == 0;
  }

  /** Genesis with `n` coins for one account. */
  lemma PairFunded(s: BankSetting, memory: Memory, a: Account, d: Denom, n: U256)
    requires s.at == 1 && s.authAt == 0 && RoundTrips(s.balances) && RoundTrips(s.accounts) && 2 * n <= MAX_U256
    requires s.genesis(a) == [(a, [Coin(d, n)])]
    ensures ValidConfig(Pair(s, memory)) && WellFormedStore(FRESH)
    ensures RunApp(Pair(s, memory), [Call.InitChain(a)]).stores[1].pending
         == StepKeeper(s.balances, FRESH, Mint(a, [Coin(d, n)])).pending
    ensures AccountIn(s.accounts, RunApp(Pair(s, memory), [Call.InitChain(a)]).stores[0].pending, a) == Some(AuthAccount(a, 0, 0))
  {
    PairIsProper(s, memory);
    GenesisAccounts(Pair(s, memory), s.accounts, genesis => [genesis], a, a);
    PairGenesis(s, memory, a);
    var entries := s.genesis(a);
    assert GenesisMints(entries[..0]) == [];
    assert GenesisMints(entries) == [] + [Mint(a, [Coin(d, n)])] == [Mint(a, [Coin(d, n)])];
    OneOp(s.balances, FRESH, Mint(a, [Coin(d, n)]));
  }

  /** A bank in which one account was minted `n` coins: it can send them to itself, and doubles them. */
  lemma ReadyToDouble(s: BankSetting, m: StoreModel, a: Account, d: Denom, n: U256)
    requires RoundTrips(s.balances) && 2 * n <= MAX_U256 && WellFormedStore(m) && WellFormedStore(FRESH)
    requires m.pending == StepKeeper(s.balances, FRESH, Mint(a, [Coin(d, n)])).pending
    ensures var coins := [Coin(d, n)];
      && Covers(BalancesIn(s.balances, m.pending, a), coins) && HasRoom(BalancesIn(s.balances, m.pending, a), coins)
      && Supply(s.balances, m.pending, d) == n
      && Supply(s.balances, StepKeeper(s.balances, m, Send(a, a, coins)).pending, d) == 2 * n
  {
    var coins, fresh' := [Coin(d, n)], StepKeeper(s.balances, FRESH, Mint(a, [Coin(d, n)]));
    SelfSendCreates(s.balances, a, d, n);
    OneCoin(d, n);
    SendExact(coins, coins, coins);
    StepKeeperPending(s.balances, m, fresh', Send(a, a, coins));
  }

  /** Genesis with `n` coins for one account, then its transaction sending them to itself: there are
      twice as many. */
  lemma SelfSendDoubles(s: BankSetting, memory: Memory, a: Account, d: Denom, n: U256, message: Message)
    requires s.at == 1 && s.authAt == 0 && RoundTrips(s.balances) && RoundTrips(s.accounts) && 2 * n <= MAX_U256
    requires s.genesis(a) == [(a, [Coin(d, n)])] && s.parse(message) == MsgSend(a, a, [Coin(d, n)])
    ensures ValidConfig(Pair(s, memory))
    ensures var c, init, tx := Pair(s, memory), [Call.InitChain(a)], Tx(a, [message]);
      && Supply(s.balances, RunApp(c, init).stores[1].pending, d) == n
      && TxResponseOf(c, RunApp(c, init), tx).code == 0
      && Supply(s.balances, RunApp(c, init + [DeliverTxCall(tx)]).stores[1].pending, d) == 2 * n
  {
    var init := [Call.InitChain(a)];
    PairFunded(s, memory, a, d, n);
    PairIsProper(s, memory);
    ReadyToDouble(s, RunApp(Pair(s, memory), init).stores[1], a, d, n);
    assert CanSend(s, RunApp(Pair(s, memory), init).stores, a, a, a, [Coin(d, n)]);
    SendTransaction(s, genesis => [genesis], [], NO_LEDGER, [[97], [98]], memory, init, message, a);
    RunOne(Pair(s, memory), init, DeliverTxCall(Tx(a, [message])));
  }

  lemma RunOne(c: Config, calls: seq<Call>, call: Call)
    requires ValidConfig(c)
    ensures RunApp(c, calls + [call]) == StepApp(c, RunApp(c, calls), call)
  {
    assert (calls + [call])[..|calls + [call]| - 1] == calls;
  }

  /** What genesis makes of the bank's store when it lists one entry. */
  lemma PairGenesis(s: BankSetting, memory: Memory, genesis: Bytes)
    requires s.at == 1 && s.authAt == 0 && RoundTrips(s.balances) && RoundTrips(s.accounts)
    ensures ValidConfig(Pair(s, memory)) && WellFormedStore(FRESH)
    ensures RunApp(Pair(s, memory), [Call.InitChain(genesis)]).stores[1].pending
         == RunKeeper(s.balances, FRESH, GenesisMints(s.genesis(genesis))).pending
  {
    var c, g := Pair(s, memory), FullLedger(s, NO_LEDGER);
    PairIsProper(s, memory);
    RunFirst(c, Call.InitChain(genesis));
    FreshSupply(s.balances, []);
    var a := FreshApp(c);
    InitPerforms(c, s, g, a.stores, a.memory, 0, genesis);
    PairInitOps(s, memory, a.stores, a.memory, genesis);
  }

  lemma PairInitOps(s: BankSetting, memory: Memory, stores: seq<StoreModel>, kept: Memory, genesis: Bytes)
    requires AllWellFormed(stores)
    ensures InitOps(Pair(s, memory), FullLedger(s, NO_LEDGER), stores, kept, 0, genesis) == GenesisMints(s.genesis(genesis))
  {
    var c, g, ops := Pair(s, memory), FullLedger(s, NO_LEDGER), GenesisMints(s.genesis(genesis));
    var after := ApplyWrites(stores, c.modules[0].init(ImagesOf(stores), kept, genesis).writes);
    var last := ApplyWrites(after, c.modules[1].init(ImagesOf(after), kept, genesis).writes);
    assert InitOps(c, g, last, kept, 2, genesis) == [];
    assert InitOps(c, g, after, kept, 1, genesis) == ops + [] == ops;
    assert InitOps(c, g, stores, kept, 0, genesis) == [] + ops == ops;
  }
}
