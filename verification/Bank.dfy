/**
 The bank keeper over the bank's store: loading an account's balances, changing them, storing
 them back. And what that does to the total supply.
 */
module Bank {
  import opened Bytes
  import opened AvlModel
  import opened AvlOrder
  import opened Paths
  import opened Store
  import opened Balances

  /** How values of a type are stored: whatever is stored can be read back. */
  datatype Codec<!T> = Codec(encode: T -> Bytes, decode: Bytes -> Option<T>)

  ghost predicate RoundTrips<T(!new)>(c: Codec<T>) {
    forall v :: c.decode(c.encode(v)) == Some(v)
  }

  type BalanceCodec = Codec<seq<Coin>>

  /** The stored bytes as balances; what does not decode counts as none. */
  function Decoded(codec: BalanceCodec, stored: Option<Bytes>): seq<Coin> {
    if stored.None? then [] else
    match codec.decode(stored.value)
    case None => []
    case Some(b) => b
  }

  /** An account's balances in a tree, under the path its printed name parses to. */
  function BalancesIn(codec: BalanceCodec, t: State, account: Account): seq<Coin> {
    Decoded(codec, Get(PATH_KEYS, t, Split(account)))
  }

  datatype KeeperOp =
    | Send(from: Account, to: Account, coins: seq<Coin>)
    | Mint(account: Account, coins: seq<Coin>)
    | Burn(account: Account, coins: seq<Coin>)

  /** The accounts an operation writes and what it writes there, in order; `None` if it fails. */
  function WritesOf(codec: BalanceCodec, t: State, op: KeeperOp): Option<seq<(Account, seq<Coin>)>> {
    match op
    case Send(from, to, coins) => (
      match SendAll(BalancesIn(codec, t, from), BalancesIn(codec, t, to), coins)
      case Moved(src, dst) => Some([(from, src), (to, dst)])
      case _ => None)
    case Mint(account, coins) => (
      match MintAll(BalancesIn(codec, t, account), coins)
      case Some(b) => Some([(account, b)])
      case None => None)
    case Burn(account, coins) => (
      match BurnAll(BalancesIn(codec, t, account), coins)
      case Some(b) => Some([(account, b)])
      case None => None)
  }

  ghost function PutBalances(codec: BalanceCodec, m: StoreModel, writes: seq<(Account, seq<Coin>)>): (r: StoreModel)
    requires WellFormedStore(m)
    ensures WellFormedStore(r) && r == m.(pending := r.pending)
  {
    if writes == [] then m
    else
      var before := PutBalances(codec, m, writes[..|writes| - 1]);
      var w := writes[|writes| - 1];
      StepKeepsWellFormed(before, Set(Split(w.0), codec.encode(w.1)));
      StepStore(before, Set(Split(w.0), codec.encode(w.1)))
  }

  /** The keeper's operation on a store: all of its writes, or none on failure. */
  ghost function StepKeeper(codec: BalanceCodec, m: StoreModel, op: KeeperOp): (r: StoreModel)
    requires WellFormedStore(m)
    ensures WellFormedStore(r) && r == m.(pending := r.pending)
  {
    var writes := WritesOf(codec, m.pending, op);
    if writes.None? then m else PutBalances(codec, m, writes.value)
  }

  // ---------- the keeper in place ----------

  datatype BankError = Insufficient | Overflow

  lemma MintStops(b: seq<Coin>, coins: seq<Coin>, k: nat)
    requires k <= |coins| && MintAll(b, coins[..k]).None?
    ensures MintAll(b, coins).None?
  {
    if k < |coins| {
      assert coins[..|coins| - 1][..k] == coins[..k];
      MintStops(b, coins[..|coins| - 1], k);
    } else {
      assert coins[..k] == coins;
    }
  }

  lemma BurnStops(b: seq<Coin>, coins: seq<Coin>, k: nat)
    requires k <= |coins| && BurnAll(b, coins[..k]).None?
    ensures BurnAll(b, coins).None?
  {
    if k < |coins| {
      assert coins[..|coins| - 1][..k] == coins[..k];
      BurnStops(b, coins[..|coins| - 1], k);
    } else {
      assert coins[..k] == coins;
    }
  }

  // The loops of the three operations, over the balances already loaded.

  method MoveCoins(src: seq<Coin>, dst: seq<Coin>, coins: seq<Coin>) returns (r: Sent)
    ensures r == SendAll(src, dst, coins)
  {
    var srcBalances, dstBalances := src, dst;
    for k := 0 to |coins|
      invariant SendAll(src, dst, coins[..k]) == Moved(srcBalances, dstBalances)
    {
      assert coins[..k + 1][..k] == coins[..k];
      var coin := coins[k];
      var i := Find(srcBalances, coin.denom);
      if i == |srcBalances| || srcBalances[i].amount < coin.amount {
        SendStops(src, dst, coins, k + 1);
        return InsufficientSourceFunds;
      }
      var j := Find(dstBalances, coin.denom);
      if j == |dstBalances| {
        dstBalances := dstBalances + [Coin(coin.denom, 0)];
      }
      if dstBalances[j].amount > MAX_U256 - coin.amount {
        SendStops(src, dst, coins, k + 1);
        return DestFundOverflow;
      }
      srcBalances := srcBalances[i := Coin(coin.denom, srcBalances[i].amount - coin.amount)];
      dstBalances := dstBalances[j := Coin(coin.denom, dstBalances[j].amount + coin.amount)];
    }
    assert coins[..|coins|] == coins;
    r := Moved(srcBalances, dstBalances);
  }

  method AddCoins(b: seq<Coin>, coins: seq<Coin>) returns (r: Option<seq<Coin>>)
    ensures r == MintAll(b, coins)
  {
    var balances := b;
    for k := 0 to |coins|
      invariant MintAll(b, coins[..k]) == Some(balances)
    {
      assert coins[..k + 1][..k] == coins[..k];
      var coin := coins[k];
      var i := Find(balances, coin.denom);
      if i == |balances| {
        balances := balances + [Coin(coin.denom, 0)];
      }
      if balances[i].amount > MAX_U256 - coin.amount {
        MintStops(b, coins, k + 1);
        return None;
      }
      balances := balances[i := Coin(coin.denom, balances[i].amount + coin.amount)];
    }
    assert coins[..|coins|] == coins;
    r := Some(balances);
  }

  method TakeCoins(b: seq<Coin>, coins: seq<Coin>) returns (r: Option<seq<Coin>>)
    ensures r == BurnAll(b, coins)
  {
    var balances := b;
    for k := 0 to |coins|
      invariant BurnAll(b, coins[..k]) == Some(balances)
    {
      assert coins[..k + 1][..k] == coins[..k];
      var coin := coins[k];
      var i := Find(balances, coin.denom);
      if i == |balances| || balances[i].amount < coin.amount {
        BurnStops(b, coins, k + 1);
        return None;
      }
      balances := balances[i := Coin(coin.denom, balances[i].amount - coin.amount)];
    }
    assert coins[..|coins|] == coins;
    r := Some(balances);
  }

  lemma PutOne(codec: BalanceCodec, m: StoreModel, a: Account, b: seq<Coin>)
    requires WellFormedStore(m)
    ensures PutBalances(codec, m, [(a, b)]) == StepStore(m, Set(Split(a), codec.encode(b)))
  {
    assert [(a, b)][..0] == [];
  }

  lemma PutTwo(codec: BalanceCodec, m: StoreModel, a: Account, b: seq<Coin>, a': Account, b': seq<Coin>)
    requires WellFormedStore(m)
    ensures WellFormedStore(StepStore(m, Set(Split(a), codec.encode(b))))
    ensures PutBalances(codec, m, [(a, b), (a', b')])
         == StepStore(StepStore(m, Set(Split(a), codec.encode(b))), Set(Split(a'), codec.encode(b')))
  {
    assert [(a, b), (a', b')][..1] == [(a, b)];
    PutOne(codec, m, a, b);
  }

  class BankBalanceKeeper {
    const codec: BalanceCodec
    const store: InMemoryStore

    constructor (codec: BalanceCodec, store: InMemoryStore)
      ensures this.codec == codec && this.store == store
    {
      this.codec, this.store := codec, store;
    }

    method Load(account: Account) returns (b: seq<Coin>)
      requires store.Valid()
      ensures b == BalancesIn(codec, store.View().pending, account)
    {
      PathKeysOrdered();
      GetIsLookup(PATH_KEYS, store.pending, Split(account), None, None);
      var path := FromString(account);
      var stored := store.Get(Pending, path);
      b := Decoded(codec, stored);
    }

    method Save(account: Account, b: seq<Coin>)
      requires store.Valid()
      modifies store`pending
      ensures store.Valid()
      ensures store.View() == StepStore(old(store.View()), Set(Split(account), codec.encode(b)))
    {
      var path := FromString(account);
      var _ := store.SetPath(path, codec.encode(b));
    }

    method SendCoins(from: Account, to: Account, coins: seq<Coin>) returns (error: Option<BankError>)
      requires store.Valid()
      modifies store`pending
      ensures store.Valid() && WellFormedStore(old(store.View()))
      ensures store.View() == StepKeeper(codec, old(store.View()), Send(from, to, coins))
      ensures var t := old(store.View().pending);
        var src, dst := BalancesIn(codec, t, from), BalancesIn(codec, t, to);
        && (error == None <==> Covers(src, coins) && HasRoom(dst, coins))
        && (error == Some(Insufficient) <==> RunsShort(src, dst, coins))
        && (error == Some(Overflow) <==> RunsOver(src, dst, coins))
    {
      ghost var m := store.View();
      var src := Load(from);
      var dst := Load(to);
      assert store.View() == m;
      var sent := MoveCoins(src, dst, coins);
      SendErrors(src, dst, coins);
      match sent
      case InsufficientSourceFunds => error := Some(Insufficient);
      case DestFundOverflow => error := Some(Overflow);
      case Moved(srcBalances, dstBalances) =>
        PutTwo(codec, m, from, srcBalances, to, dstBalances);
        Save(from, srcBalances);
        Save(to, dstBalances);
        error := None;
    }

    method MintCoins(account: Account, coins: seq<Coin>) returns (error: Option<BankError>)
      requires store.Valid()
      modifies store`pending
      ensures store.Valid() && WellFormedStore(old(store.View()))
      ensures store.View() == StepKeeper(codec, old(store.View()), Mint(account, coins))
      ensures error == if HasRoom(BalancesIn(codec, old(store.View().pending), account), coins) then None else Some(Overflow)
    {
      ghost var m := store.View();
      var start := Load(account);
      assert store.View() == m;
      var balances := AddCoins(start, coins);
      MintExact(start, coins);
      if balances.None? {
        return Some(Overflow);
      }
      PutOne(codec, m, account, balances.value);
      Save(account, balances.value);
      error := None;
    }

    method BurnCoins(account: Account, coins: seq<Coin>) returns (error: Option<BankError>)
      requires store.Valid()
      modifies store`pending
      ensures store.Valid() && WellFormedStore(old(store.View()))
      ensures store.View() == StepKeeper(codec, old(store.View()), Burn(account, coins))
      ensures error == if Covers(BalancesIn(codec, old(store.View().pending), account), coins) then None else Some(Insufficient)
    {
      ghost var m := store.View();
      var start := Load(account);
      assert store.View() == m;
      var balances := TakeCoins(start, coins);
      BurnExact(start, coins);
      if balances.None? {
        return Some(Insufficient);
      }
      PutOne(codec, m, account, balances.value);
      Save(account, balances.value);
      error := None;
    }
  }
}
