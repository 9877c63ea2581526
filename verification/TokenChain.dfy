/**
 The bank as a module of the application: it checks the sender's account with auth and sends the
 coins.
 */
module TokenChain {
  import opened Bytes
  import opened AvlModel
  import opened Paths
  import opened Store
  import opened AppModel
  import opened Balances
  import opened Bank
  import opened BankSupply
  import opened Auth

  datatype BankMsg =
    | NotBank
    | Malformed
    | MsgSend(from: Account, to: Account, coins: seq<Coin>)

  type Entries = seq<(Account, seq<Coin>)>

  /** The bank's setting: its codecs, how it reads a message, a genesis state and a query, how it
      renders balances, and where its and auth's stores are. */
  datatype BankSetting = BankSetting(
    balances: BalanceCodec, accounts: AccountCodec, parse: Message -> BankMsg, genesis: Bytes -> Entries,
    account: Bytes -> Option<Account>, render: seq<Coin> -> Bytes, at: nat, authAt: nat)

  /** The effect of a send by a known account, from the sender's and the receiver's balances. */
  function SendEffect(s: BankSetting, memory: Memory, from: Account, to: Account, sent: Sent): Effect {
    match sent
    case Moved(src, dst) =>
      Effect([SetAt(s.at, Split(from), s.balances.encode(src)), SetAt(s.at, Split(to), s.balances.encode(dst))], memory, Handled([]))
    case _ => Effect([], memory, Failed([]))
  }

  /** What the bank makes of a message, given the pending trees of auth and of its own store. */
  function BankEffect(s: BankSetting, memory: Memory, auth: State, bank: State, message: Message): Effect {
    match s.parse(message)
    case NotBank => Effect([], memory, NotHandled)
    case Malformed => Effect([], memory, Failed([]))
    case MsgSend(from, to, coins) =>
      if AccountIn(s.accounts, auth, from).None? then Effect([], memory, Failed([]))
      else SendEffect(s, memory, from, to, SendAll(BalancesIn(s.balances, bank, from), BalancesIn(s.balances, bank, to), coins))
  }

  /** The module's code. */
  function BankDeliver(s: BankSetting, images: seq<Image>, memory: Memory, message: Message): Effect {
    if s.at >= |images| || s.authAt >= |images| then Effect([], memory, Failed([]))
    else BankEffect(s, memory, images[s.authAt].pending, images[s.at].pending, message)
  }

  lemma DeliverIsEffect(s: BankSetting, stores: seq<StoreModel>, memory: Memory, message: Message)
    requires AllWellFormed(stores) && s.at < |stores| && s.authAt < |stores|
    ensures BankDeliver(s, ImagesOf(stores), memory, message)
         == BankEffect(s, memory, stores[s.authAt].pending, stores[s.at].pending, message)
  {
    assert ImagesOf(stores)[s.at].pending == stores[s.at].pending;
    assert ImagesOf(stores)[s.authAt].pending == stores[s.authAt].pending;
  }

  // ---------- genesis ----------

  /** Genesis mints every listed account its coins. */
  function GenesisMints(entries: Entries): (ops: seq<KeeperOp>)
    ensures |ops| == |entries|
  {
    if entries == [] then []
    else
      var last := entries[|entries| - 1];
      GenesisMints(entries[..|entries| - 1]) + [Mint(last.0, last.1)]
  }

  lemma GenesisMintsMore(entries: Entries, k: nat)
    requires k < |entries|
    ensures GenesisMints(entries[..k + 1]) == GenesisMints(entries[..k]) + [Mint(entries[k].0, entries[k].1)]
  {
    assert entries[..k + 1][..k] == entries[..k];
  }

  lemma RunKeeperMore(codec: BalanceCodec, start: StoreModel, ops: seq<KeeperOp>, op: KeeperOp)
    requires WellFormedStore(start)
    ensures RunKeeper(codec, start, ops + [op]) == StepKeeper(codec, RunKeeper(codec, start, ops), op)
  {
    assert (ops + [op])[..|ops + [op]| - 1] == ops;
  }

  /** Every one of the operations succeeds on the store the ones before it leave. */
  ghost predicate AllSucceed(codec: BalanceCodec, start: StoreModel, ops: seq<KeeperOp>)
    requires WellFormedStore(start)
  {
    forall k :: 0 <= k < |ops| ==> Succeeds(codec, RunKeeper(codec, start, ops[..k]), ops[k])
  }

  lemma {:induction false} GenesisMintsAt(entries: Entries, k: nat)
    requires k < |entries|
    ensures GenesisMints(entries)[k] == Mint(entries[k].0, entries[k].1)
    ensures GenesisMints(entries)[..k] == GenesisMints(entries[..k])
  {
    var front := entries[..|entries| - 1];
    if k < |front| {
      GenesisMintsAt(front, k);
      assert front[..k] == entries[..k];
      assert GenesisMints(entries)[..k] == GenesisMints(front)[..k];
    }
  }

  /** The store after the first `k` mints. */
  ghost function MintedStore(codec: BalanceCodec, start: StoreModel, entries: Entries, k: nat): (m: StoreModel)
    requires WellFormedStore(start) && k <= |entries|
    ensures WellFormedStore(m)
  {
    if k == 0 then start else StepKeeper(codec, MintedStore(codec, start, entries, k - 1), Mint(entries[k - 1].0, entries[k - 1].1))
  }

  lemma {:induction false} MintedIsRun(codec: BalanceCodec, start: StoreModel, entries: Entries, k: nat)
    requires WellFormedStore(start) && k <= |entries|
    ensures MintedStore(codec, start, entries, k) == RunKeeper(codec, start, GenesisMints(entries[..k]))
  {
    if k > 0 {
      MintedIsRun(codec, start, entries, k - 1);
      GenesisMintsMore(entries, k - 1);
      RunKeeperMore(codec, start, GenesisMints(entries[..k - 1]), Mint(entries[k - 1].0, entries[k - 1].1));
    }
  }

  /** The mint number `k` succeeds after the ones before it. */
  ghost predicate MintSucceeds(codec: BalanceCodec, start: StoreModel, entries: Entries, k: nat)
    requires WellFormedStore(start) && k < |entries|
  {
    Succeeds(codec, MintedStore(codec, start, entries, k), Mint(entries[k].0, entries[k].1))
  }

  ghost predicate MintsSucceed(codec: BalanceCodec, start: StoreModel, entries: Entries, n: nat)
    requires WellFormedStore(start) && n <= |entries|
  {
    n > 0 ==> MintsSucceed(codec, start, entries, n - 1) && MintSucceeds(codec, start, entries, n - 1)
  }

  lemma {:induction false} EachSucceeds(codec: BalanceCodec, start: StoreModel, entries: Entries, n: nat, k: nat)
    requires WellFormedStore(start) && k < n <= |entries| && MintsSucceed(codec, start, entries, n)
    ensures MintSucceeds(codec, start, entries, k)
  {
    if k < n - 1 { EachSucceeds(codec, start, entries, n - 1, k); }
  }

  lemma AllMinted(codec: BalanceCodec, start: StoreModel, entries: Entries)
    requires WellFormedStore(start) && MintsSucceed(codec, start, entries, |entries|)
    ensures AllSucceed(codec, start, GenesisMints(entries))
  {
    var ops := GenesisMints(entries);
    forall k | 0 <= k < |ops| ensures Succeeds(codec, RunKeeper(codec, start, ops[..k]), ops[k]) {
      GenesisMintsAt(entries, k);
      MintedIsRun(codec, start, entries, k);
      EachSucceeds(codec, start, entries, |entries|, k);
    }
  }

  lemma MintFails(codec: BalanceCodec, start: StoreModel, entries: Entries, k: nat)
    requires WellFormedStore(start) && k < |entries| && !MintSucceeds(codec, start, entries, k)
    ensures !AllSucceed(codec, start, GenesisMints(entries))
  {
    GenesisMintsAt(entries, k);
    MintedIsRun(codec, start, entries, k);
    assert !Succeeds(codec, RunKeeper(codec, start, GenesisMints(entries)[..k]), GenesisMints(entries)[k]);
  }

  /** The account's balances after the mints, from those in the tree. */
  function BalancesAfter(codec: BalanceCodec, t: State, entries: Entries, a: Account): seq<Coin> {
    if entries == [] then BalancesIn(codec, t, a)
    else
      var last, b := entries[|entries| - 1], BalancesAfter(codec, t, entries[..|entries| - 1], a);
      if last.0 != a then b
      else
        match MintAll(b, last.1)
        case Some(r) => r
        case None => b
  }

  /** What the mints write to the store at position `at`, from the tree there. */
  function MintWrites(codec: BalanceCodec, at: nat, t: State, entries: Entries): seq<Write> {
    if entries == [] then []
    else
      var front, last := entries[..|entries| - 1], entries[|entries| - 1];
      MintWrites(codec, at, t, front) +
      match MintAll(BalancesAfter(codec, t, front, last.0), last.1) {
        case Some(b) => [SetAt(at, Split(last.0), codec.encode(b))]
        case None => []
      }
  }

  lemma MintStep(codec: BalanceCodec, m: StoreModel, account: Account, coins: seq<Coin>, a: Account)
    requires RoundTrips(codec) && WellFormedStore(m)
    ensures var b, r := MintAll(BalancesIn(codec, m.pending, account), coins), StepKeeper(codec, m, Mint(account, coins));
      match b
      case Some(v) =>
        && r == StepStore(m, Set(Split(account), codec.encode(v)))
        && BalancesIn(codec, r.pending, a) == if a == account then v else BalancesIn(codec, m.pending, a)
      case None => r == m
  {
    var b := MintAll(BalancesIn(codec, m.pending, account), coins);
    if b.Some? {
      PutOne(codec, m, account, b.value);
      PutEffect(codec, m, account, b.value, [], a);
    }
  }

  lemma ApplyHere(stores: seq<StoreModel>, at: nat, m: StoreModel, w: Write)
    requires AllWellFormed(stores) && at < |stores| && WellFormedStore(m) && w.at == at
    ensures ApplyWrite(stores[at := m], w) == stores[at := StepStore(m, OpOf(w))]
  {
    ApplyAt(stores[at := m], w);
  }

  /** The writes do to the store what the mints do, and leave the balances foreseen. */
  ghost predicate Foreseen(codec: BalanceCodec, stores: seq<StoreModel>, at: nat, entries: Entries, a: Account)
    requires AllWellFormed(stores) && at < |stores|
  {
    var m := RunKeeper(codec, stores[at], GenesisMints(entries));
    && ApplyWrites(stores, MintWrites(codec, at, stores[at].pending, entries)) == stores[at := m]
    && BalancesIn(codec, m.pending, a) == BalancesAfter(codec, stores[at].pending, entries, a)
  }

  lemma {:induction false} MintWritesPerform(codec: BalanceCodec, stores: seq<StoreModel>, at: nat, entries: Entries, a: Account)
    requires RoundTrips(codec) && AllWellFormed(stores) && at < |stores|
    ensures Foreseen(codec, stores, at, entries, a)
  {
    if entries == [] {
      NoMints(codec, stores, at, a);
    } else {
      MintWritesPerform(codec, stores, at, entries[..|entries| - 1], entries[|entries| - 1].0);
      MintWritesPerform(codec, stores, at, entries[..|entries| - 1], a);
      MintWritesMore(codec, stores, at, entries, a);
    }
  }

  lemma NoMints(codec: BalanceCodec, stores: seq<StoreModel>, at: nat, a: Account)
    requires AllWellFormed(stores) && at < |stores|
    ensures Foreseen(codec, stores, at, [], a)
  {
    assert stores[at := stores[at]] == stores;
  }

  lemma MintWritesMore(codec: BalanceCodec, stores: seq<StoreModel>, at: nat, entries: Entries, a: Account)
    requires RoundTrips(codec) && AllWellFormed(stores) && at < |stores| && entries != []
    requires Foreseen(codec, stores, at, entries[..|entries| - 1], entries[|entries| - 1].0)
    requires Foreseen(codec, stores, at, entries[..|entries| - 1], a)
    ensures Foreseen(codec, stores, at, entries, a)
  {
    var front, last := entries[..|entries| - 1], entries[|entries| - 1];
    var t, m := stores[at].pending, RunKeeper(codec, stores[at], GenesisMints(front));
    var writes, b := MintWrites(codec, at, t, front), MintAll(BalancesAfter(codec, t, front, last.0), last.1);
    RunKeeperMore(codec, stores[at], GenesisMints(front), Mint(last.0, last.1));
    MintStep(codec, m, last.0, last.1, a);
    if b.Some? {
      var w := SetAt(at, Split(last.0), codec.encode(b.value));
      ApplyMore(stores, writes, w);
      ApplyHere(stores, at, m, w);
      assert MintWrites(codec, at, t, entries) == writes + [w];
    } else {
      assert MintWrites(codec, at, t, entries) == writes + [] == writes;
    }
  }

  lemma ApplyMore(stores: seq<StoreModel>, writes: seq<Write>, w: Write)
    requires AllWellFormed(stores)
    ensures ApplyWrites(stores, writes + [w]) == ApplyWrite(ApplyWrites(stores, writes), w)
  {
    assert (writes + [w])[..|writes + [w]| - 1] == writes;
  }

  /** The module's genesis code. */
  function BankInit(s: BankSetting, images: seq<Image>, memory: Memory, genesis: Bytes): Initialised {
    Initialised(if s.at >= |images| then [] else MintWrites(s.balances, s.at, images[s.at].pending, s.genesis(genesis)), memory)
  }

  // ---------- queries ----------

  /** The tree a module sees at a height. */
  function ImageAt(image: Image, height: Height): Option<State> {
    match height
    case Pending => Some(image.pending)
    case Latest => if image.kept == [] then None else Some(image.kept[|image.kept| - 1])
    case Stable(h) =>
      if image.pruned < h <= image.pruned + |image.kept| then Some(image.kept[h - 1 - image.pruned]) else None
  }

  lemma ImageShows(m: StoreModel, height: Height)
    requires m.pruned <= |m.history|
    ensures ImageAt(ImageOf(m), height) == StateAt(m, height)
  {
  }

  /** An account's balances at a height, none if the height is not there. */
  function BalancesAt(codec: BalanceCodec, t: Option<State>, a: Account): seq<Coin> {
    if t.None? then [] else BalancesIn(codec, t.value, a)
  }

  /** The module's query code: balances of an account auth knows, without a proof. */
  function BankQuery(s: BankSetting, images: seq<Image>, data: Bytes, height: Height): QueryPlan {
    if s.at >= |images| || s.authAt >= |images| then NotAnswered
    else
      match s.account(data)
      case None => NotAnswered
      case Some(a) =>
        if AccountIn(s.accounts, images[s.authAt].pending, a).None? then Refuses
        else Computes(s.render(BalancesAt(s.balances, ImageAt(images[s.at], height), a)))
  }

  // ---------- the module in place ----------

  class BankModule {
    const setting: BankSetting
    const keeper: BankBalanceKeeper
    const auth: AuthKeeper

    constructor (setting: BankSetting, keeper: BankBalanceKeeper, auth: AuthKeeper)
      ensures this.setting == setting && this.keeper == keeper && this.auth == auth
    {
      this.setting, this.keeper, this.auth := setting, keeper, auth;
    }

    /** Does to the bank's store, and answers, what the module's code says, auth's store being the
        first of two and the bank's the second. */
    method Deliver(message: Message, ghost memory: Memory) returns (response: Response)
      requires keeper.store.Valid() && auth.store.Valid() && keeper.store != auth.store && keeper.store.store != auth.store.store
      requires setting.at == 1 && setting.authAt == 0 && keeper.codec == setting.balances && auth.codec == setting.accounts
      modifies keeper.store`pending
      ensures keeper.store.Valid() && auth.store.Valid()
      ensures WellFormedStore(old(auth.store.View())) && WellFormedStore(old(keeper.store.View()))
      ensures var before := [old(auth.store.View()), old(keeper.store.View())];
        var effect := BankDeliver(setting, ImagesOf(before), memory, message);
        response == effect.response && [auth.store.View(), keeper.store.View()] == ApplyWrites(before, effect.writes)
      ensures response.NotHandled? <==> setting.parse(message).NotBank?
      ensures var msg, bank := setting.parse(message), old(keeper.store.View().pending);
        response == Handled([]) <==>
          && msg.MsgSend? && AccountIn(setting.accounts, old(auth.store.View().pending), msg.from).Some?
          && Covers(BalancesIn(setting.balances, bank, msg.from), msg.coins)
          && HasRoom(BalancesIn(setting.balances, bank, msg.to), msg.coins)
    {
      ghost var before := [auth.store.View(), keeper.store.View()];
      DeliverIsEffect(setting, before, memory, message);
      BankAnswers(setting, before, memory, message);
      match setting.parse(message)
      case NotBank => response := NotHandled;
      case Malformed => response := Failed([]);
      case MsgSend(from, to, coins) =>
        response := DeliverSend(from, to, coins);
        SendEffectIsKeepers(setting, before, memory, from, to, coins);
        SendExact(BalancesIn(setting.balances, before[1].pending, from), BalancesIn(setting.balances, before[1].pending, to), coins);
    }

    /** The send of a message: the sender's account must be known to auth. */
    method DeliverSend(from: Account, to: Account, coins: seq<Coin>) returns (response: Response)
      requires keeper.store.Valid() && auth.store.Valid() && keeper.store != auth.store && keeper.store.store != auth.store.store
      requires keeper.codec == setting.balances && auth.codec == setting.accounts
      modifies keeper.store`pending
      ensures keeper.store.Valid() && auth.store.Valid() && auth.store.View() == old(auth.store.View())
      ensures WellFormedStore(old(keeper.store.View()))
      ensures var m, known := old(keeper.store.View()), AccountIn(setting.accounts, old(auth.store.View().pending), from).Some?;
        var goes := Covers(BalancesIn(setting.balances, m.pending, from), coins) && HasRoom(BalancesIn(setting.balances, m.pending, to), coins);
        && response == (if known && goes then Handled([]) else Failed([]))
        && keeper.store.View() == if known then StepKeeper(setting.balances, m, Send(from, to, coins)) else m
    {
      ghost var m := keeper.store.View();
      var account := auth.GetAccount(from);
      assert keeper.store.View() == m;
      if account.None? {
        return Failed([]);
      }
      var error := keeper.SendCoins(from, to, coins);
      response := if error.None? then Handled([]) else Failed([]);
    }

    /** Mints the genesis balances, up to the first mint that fails, where the source panics: `done`
        of them. */
    method Init(entries: Entries) returns (ok: bool, ghost done: nat)
      requires keeper.store.Valid()
      modifies keeper.store`pending
      ensures keeper.store.Valid() && WellFormedStore(old(keeper.store.View()))
      ensures ok <==> AllSucceed(keeper.codec, old(keeper.store.View()), GenesisMints(entries))
      ensures done <= |entries| && (ok <==> done == |entries|)
      ensures keeper.store.View() == RunKeeper(keeper.codec, old(keeper.store.View()), GenesisMints(entries[..done]))
      ensures done < |entries| ==> !MintSucceeds(keeper.codec, old(keeper.store.View()), entries, done)
    {
      ghost var start := keeper.store.View();
      var n := MintUntil(entries);
      ok, done := n == |entries|, n;
      MintedIsRun(keeper.codec, start, entries, n);
      if ok {
        AllMinted(keeper.codec, start, entries);
      } else {
        MintFails(keeper.codec, start, entries, n);
      }
    }

    /** The loop of the genesis mints; `n` of them succeed. */
    method MintUntil(entries: Entries) returns (n: nat)
      requires keeper.store.Valid()
      modifies keeper.store`pending
      ensures keeper.store.Valid() && WellFormedStore(old(keeper.store.View())) && n <= |entries|
      ensures keeper.store.View() == MintedStore(keeper.codec, old(keeper.store.View()), entries, n)
      ensures MintsSucceed(keeper.codec, old(keeper.store.View()), entries, n)
      ensures n < |entries| ==> !MintSucceeds(keeper.codec, old(keeper.store.View()), entries, n)
    {
      ghost var start := keeper.store.View();
      n := 0;
      while n < |entries|
        invariant keeper.store.Valid() && WellFormedStore(start) && n <= |entries|
        invariant keeper.store.View() == MintedStore(keeper.codec, start, entries, n)
        invariant MintsSucceed(keeper.codec, start, entries, n)
      {
        var ok := MintEntry(entries, n, start);
        if !ok {
          return;
        }
        n := n + 1;
      }
    }

    method MintEntry(entries: Entries, k: nat, ghost start: StoreModel) returns (ok: bool)
      requires keeper.store.Valid() && WellFormedStore(start) && k < |entries|
      requires keeper.store.View() == MintedStore(keeper.codec, start, entries, k)
      modifies keeper.store`pending
      ensures keeper.store.Valid() && (ok <==> MintSucceeds(keeper.codec, start, entries, k))
      ensures keeper.store.View() == MintedStore(keeper.codec, start, entries, if ok then k + 1 else k)
    {
      MintExact(BalancesIn(keeper.codec, keeper.store.View().pending, entries[k].0), entries[k].1);
      var error := keeper.MintCoins(entries[k].0, entries[k].1);
      ok := error.None?;
    }
  }

  /** What the bank answers to a message, and does with it: it passes on what is not its own; handles
      a send from an account auth knows that the sender covers and the receiver has room for, by
      that send; and fails, writing nothing, in every other case. */
  lemma BankAnswers(s: BankSetting, stores: seq<StoreModel>, memory: Memory, message: Message)
    requires AllWellFormed(stores) && s.at < |stores| && s.authAt < |stores|
    ensures var effect, msg := BankDeliver(s, ImagesOf(stores), memory, message), s.parse(message);
      var auth, bank := stores[s.authAt].pending, stores[s.at].pending;
      && effect.memory == memory
      && (effect.response.NotHandled? <==> msg.NotBank?)
      && (effect.response.Handled? <==>
            && msg.MsgSend? && AccountIn(s.accounts, auth, msg.from).Some?
            && Covers(BalancesIn(s.balances, bank, msg.from), msg.coins)
            && HasRoom(BalancesIn(s.balances, bank, msg.to), msg.coins))
      && (if effect.response.Handled?
          then effect.response == Handled([])
            && ApplyWrites(stores, effect.writes)
               == stores[s.at := StepKeeper(s.balances, stores[s.at], Send(msg.from, msg.to, msg.coins))]
          else effect.writes == [])
  {
    DeliverIsEffect(s, stores, memory, message);
    match s.parse(message)
    case NotBank =>
    case Malformed =>
    case MsgSend(from, to, coins) =>
      SendExact(BalancesIn(s.balances, stores[s.at].pending, from), BalancesIn(s.balances, stores[s.at].pending, to), coins);
      SendEffectIsKeepers(s, stores, memory, from, to, coins);
  }

  lemma TwoWrites(stores: seq<StoreModel>, at: nat, p: Path, v: Bytes, p': Path, v': Bytes)
    requires AllWellFormed(stores) && at < |stores|
    ensures WellFormedStore(StepStore(stores[at], Set(p, v)))
    ensures ApplyWrites(stores, [SetAt(at, p, v), SetAt(at, p', v')])
         == stores[at := StepStore(StepStore(stores[at], Set(p, v)), Set(p', v'))]
  {
    var first, second := SetAt(at, p, v), SetAt(at, p', v');
    ApplyAt(stores, first);
    var one := ApplyWrite(stores, first);
    assert one[at] == StepStore(stores[at], Set(p, v));
    ApplyAt(one, second);
    assert ApplyWrites(stores, [first, second]) == ApplyWrite(one, second) by { ApplyTwo(stores, first, second); }
  }

  lemma SendEffectIsKeepers(s: BankSetting, stores: seq<StoreModel>, memory: Memory, from: Account, to: Account, coins: seq<Coin>)
    requires AllWellFormed(stores) && s.at < |stores|
    ensures var m := stores[s.at];
      var sent := SendAll(BalancesIn(s.balances, m.pending, from), BalancesIn(s.balances, m.pending, to), coins);
      && ApplyWrites(stores, SendEffect(s, memory, from, to, sent).writes) == stores[s.at := StepKeeper(s.balances, m, Send(from, to, coins))]
      && (sent.Moved? <==> Succeeds(s.balances, m, Send(from, to, coins)))
  {
    var m := stores[s.at];
    var sent := SendAll(BalancesIn(s.balances, m.pending, from), BalancesIn(s.balances, m.pending, to), coins);
    if sent.Moved? {
      PutTwo(s.balances, m, from, sent.src, to, sent.dst);
      TwoWrites(stores, s.at, Split(from), s.balances.encode(sent.src), Split(to), s.balances.encode(sent.dst));
    } else {
      assert stores[s.at := m] == stores;
    }
  }
}
