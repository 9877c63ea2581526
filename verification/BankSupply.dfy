/**
 The total supply of a denomination, summed over every account in the bank's store, and how each
 keeper operation and each run of them changes it.
 */
module BankSupply {
  import opened Bytes
  import opened AvlModel
  import opened AvlOrder
  import opened AvlCaches
  import opened Paths
  import opened Store
  import opened Balances
  import opened Bank

  function AmountStored(codec: BalanceCodec, v: Bytes, d: Denom): nat {
    Amount(Decoded(codec, Some(v)), d)
  }

  ghost function SumOver(codec: BalanceCodec, m: map<Path, Bytes>, d: Denom): nat {
    if m == map[] then 0
    else
      var k :| k in m;
      AmountStored(codec, m[k], d) + SumOver(codec, m - {k}, d)
  }

  /** The denomination's amount over all accounts in the tree. */
  ghost function Supply(codec: BalanceCodec, t: State, d: Denom): nat {
    SumOver(codec, Contents(t), d)
  }

  lemma {:induction false} SumWithout(codec: BalanceCodec, m: map<Path, Bytes>, d: Denom, k: Path)
    requires k in m
    ensures SumOver(codec, m, d) == AmountStored(codec, m[k], d) + SumOver(codec, m - {k}, d)
    decreases |m|
  {
    var j :| j in m && SumOver(codec, m, d) == AmountStored(codec, m[j], d) + SumOver(codec, m - {j}, d);
    if j != k {
      SumWithout(codec, m - {j}, d, k);
      SumWithout(codec, m - {k}, d, j);
      assert m - {j} - {k} == m - {k} - {j};
    }
  }

  lemma SumUpdated(codec: BalanceCodec, m: map<Path, Bytes>, d: Denom, k: Path, v: Bytes)
    ensures SumOver(codec, m[k := v], d) + (if k in m then AmountStored(codec, m[k], d) else 0)
         == SumOver(codec, m, d) + AmountStored(codec, v, d)
  {
    SumWithout(codec, m[k := v], d, k);
    assert m[k := v] - {k} == m - {k};
    if k in m { SumWithout(codec, m, d, k); } else { assert m - {k} == m; }
  }

  // ---------- one write ----------

  lemma SplitInjective(a: Account, b: Account)
    requires Split(a) == Split(b)
    ensures a == b
  {
    JoinUndoesSplit(a);
    JoinUndoesSplit(b);
  }

  /** Storing an account's balances changes that account alone, and the supply by the difference. */
  lemma PutEffect(codec: BalanceCodec, m: StoreModel, a: Account, b: seq<Coin>, d: Denom, other: Account)
    requires WellFormedStore(m) && RoundTrips(codec)
    ensures var r := StepStore(m, Set(Split(a), codec.encode(b)));
      && WellFormedStore(r)
      && Supply(codec, r.pending, d) + Amount(BalancesIn(codec, m.pending, a), d) == Supply(codec, m.pending, d) + Amount(b, d)
      && BalancesIn(codec, r.pending, other) == if other == a then b else BalancesIn(codec, m.pending, other)
  {
    PathKeysOrdered();
    var path, v := Split(a), codec.encode(b);
    var r := StepStore(m, Set(path, v));
    StepKeepsWellFormed(m, Set(path, v));
    InsertCorrect(PATH_KEYS, m.pending, path, v);
    GetIsLookup(PATH_KEYS, m.pending, path, None, None);
    GetIsLookup(PATH_KEYS, m.pending, Split(other), None, None);
    GetIsLookup(PATH_KEYS, r.pending, Split(other), None, None);
    SumUpdated(codec, Contents(m.pending), d, path, v);
    if Split(other) == path { SplitInjective(other, a); }
  }

  // ---------- one operation ----------

  ghost predicate Succeeds(codec: BalanceCodec, m: StoreModel, op: KeeperOp) {
    WritesOf(codec, m.pending, op).Some?
  }

  /** What a send from an account to itself adds: the debited list is overwritten by the credited
      one, which was read before the debit. */
  ghost function SelfSent(codec: BalanceCodec, m: StoreModel, op: KeeperOp, d: Denom): nat {
    if op.Send? && op.from == op.to && Succeeds(codec, m, op) then Requested(op.coins, d) else 0
  }

  ghost function Minted(codec: BalanceCodec, m: StoreModel, op: KeeperOp, d: Denom): nat {
    if op.Mint? && Succeeds(codec, m, op) then Requested(op.coins, d) else 0
  }

  ghost function Burned(codec: BalanceCodec, m: StoreModel, op: KeeperOp, d: Denom): nat {
    if op.Burn? && Succeeds(codec, m, op) then Requested(op.coins, d) else 0
  }

  lemma SendSupply(codec: BalanceCodec, m: StoreModel, from: Account, to: Account, coins: seq<Coin>, d: Denom)
    requires WellFormedStore(m) && RoundTrips(codec) && Succeeds(codec, m, Send(from, to, coins))
    ensures Supply(codec, StepKeeper(codec, m, Send(from, to, coins)).pending, d)
         == Supply(codec, m.pending, d) + if from == to then Requested(coins, d) else 0
  {
    var src, dst := BalancesIn(codec, m.pending, from), BalancesIn(codec, m.pending, to);
    SendExact(src, dst, coins);
    var sent := SendAll(src, dst, coins);
    PutTwo(codec, m, from, sent.src, to, sent.dst);
    PutEffect(codec, m, from, sent.src, d, to);
    PutEffect(codec, StepStore(m, Set(Split(from), codec.encode(sent.src))), to, sent.dst, d, to);
  }

  /** Every operation changes the supply by exactly what it mints, burns or sends to itself; a
      failed one changes nothing. So a send keeps the supply exactly when its two accounts differ
      or it moves nothing of the denomination. */
  lemma StepSupply(codec: BalanceCodec, m: StoreModel, op: KeeperOp, d: Denom)
    requires WellFormedStore(m) && RoundTrips(codec)
    ensures var r := StepKeeper(codec, m, op);
      && (!Succeeds(codec, m, op) ==> r == m)
      && Supply(codec, r.pending, d) + Burned(codec, m, op, d)
         == Supply(codec, m.pending, d) + Minted(codec, m, op, d) + SelfSent(codec, m, op, d)
  {
    if Succeeds(codec, m, op) {
      match op
      case Send(from, to, coins) =>
        SendSupply(codec, m, from, to, coins, d);
      case Mint(a, coins) =>
        MintExact(BalancesIn(codec, m.pending, a), coins);
        PutOne(codec, m, a, MintAll(BalancesIn(codec, m.pending, a), coins).value);
        PutEffect(codec, m, a, MintAll(BalancesIn(codec, m.pending, a), coins).value, d, a);
      case Burn(a, coins) =>
        BurnExact(BalancesIn(codec, m.pending, a), coins);
        PutOne(codec, m, a, BurnAll(BalancesIn(codec, m.pending, a), coins).value);
        PutEffect(codec, m, a, BurnAll(BalancesIn(codec, m.pending, a), coins).value, d, a);
    }
  }

  /** A send that succeeds conserves the supply of a denomination if and only if it is not to the
      sender itself or asks for nothing of it. */
  lemma SendConservesIff(codec: BalanceCodec, m: StoreModel, from: Account, to: Account, coins: seq<Coin>, d: Denom)
    requires WellFormedStore(m) && RoundTrips(codec) && Succeeds(codec, m, Send(from, to, coins))
    ensures Supply(codec, StepKeeper(codec, m, Send(from, to, coins)).pending, d) == Supply(codec, m.pending, d)
       <==> from != to || Requested(coins, d) == 0
  {
    SendSupply(codec, m, from, to, coins, d);
  }

  /** What a send does to each account: all asked for leaves the sender and reaches the receiver, or,
      if either cannot be, nothing changes. Between one and the same account it is only added. */
  lemma SendAccounts(codec: BalanceCodec, m: StoreModel, from: Account, to: Account, coins: seq<Coin>, other: Account, d: Denom)
    requires WellFormedStore(m) && RoundTrips(codec)
    ensures var src, dst := BalancesIn(codec, m.pending, from), BalancesIn(codec, m.pending, to);
      var r := StepKeeper(codec, m, Send(from, to, coins));
      if !(Covers(src, coins) && HasRoom(dst, coins)) then r == m
      else
        && (from != to ==> Amount(BalancesIn(codec, r.pending, from), d) == Amount(src, d) - Requested(coins, d))
        && Amount(BalancesIn(codec, r.pending, to), d) == Amount(dst, d) + Requested(coins, d)
        && (other != from && other != to ==> BalancesIn(codec, r.pending, other) == BalancesIn(codec, m.pending, other))
  {
    var src, dst := BalancesIn(codec, m.pending, from), BalancesIn(codec, m.pending, to);
    SendExact(src, dst, coins);
    var sent := SendAll(src, dst, coins);
    if sent.Moved? {
      PutTwo(codec, m, from, sent.src, to, sent.dst);
      var mid := StepStore(m, Set(Split(from), codec.encode(sent.src)));
      PutEffect(codec, m, from, sent.src, d, other);
      PutEffect(codec, m, from, sent.src, d, from);
      PutEffect(codec, mid, to, sent.dst, d, other);
      PutEffect(codec, mid, to, sent.dst, d, from);
      PutEffect(codec, mid, to, sent.dst, d, to);
    }
  }

  /** What a mint does to each account. */
  lemma MintAccounts(codec: BalanceCodec, m: StoreModel, a: Account, coins: seq<Coin>, other: Account, d: Denom)
    requires WellFormedStore(m) && RoundTrips(codec)
    ensures var b, r := BalancesIn(codec, m.pending, a), StepKeeper(codec, m, Mint(a, coins));
      if !HasRoom(b, coins) then r == m
      else
        && Amount(BalancesIn(codec, r.pending, a), d) == Amount(b, d) + Requested(coins, d)
        && (other != a ==> BalancesIn(codec, r.pending, other) == BalancesIn(codec, m.pending, other))
  {
    var b := BalancesIn(codec, m.pending, a);
    MintExact(b, coins);
    var r := MintAll(b, coins);
    if r.Some? {
      PutOne(codec, m, a, r.value);
      PutEffect(codec, m, a, r.value, d, other);
      PutEffect(codec, m, a, r.value, d, a);
    }
  }

  /** What a burn does to each account. */
  lemma BurnAccounts(codec: BalanceCodec, m: StoreModel, a: Account, coins: seq<Coin>, other: Account, d: Denom)
    requires WellFormedStore(m) && RoundTrips(codec)
    ensures var b, r := BalancesIn(codec, m.pending, a), StepKeeper(codec, m, Burn(a, coins));
      if !Covers(b, coins) then r == m
      else
        && Amount(BalancesIn(codec, r.pending, a), d) == Amount(b, d) - Requested(coins, d)
        && (other != a ==> BalancesIn(codec, r.pending, other) == BalancesIn(codec, m.pending, other))
  {
    var b := BalancesIn(codec, m.pending, a);
    BurnExact(b, coins);
    var r := BurnAll(b, coins);
    if r.Some? {
      PutOne(codec, m, a, r.value);
      PutEffect(codec, m, a, r.value, d, other);
      PutEffect(codec, m, a, r.value, d, a);
    }
  }

  /** An account with nothing is minted `n`, then sends it to itself: it has twice that, and so has
      the supply. */
  lemma SelfSendCreates(codec: BalanceCodec, a: Account, d: Denom, n: U256)
    requires RoundTrips(codec) && 2 * n <= MAX_U256
    ensures WellFormedStore(FRESH)
    ensures var m := StepKeeper(codec, FRESH, Mint(a, [Coin(d, n)]));
      && Succeeds(codec, FRESH, Mint(a, [Coin(d, n)])) && Succeeds(codec, m, Send(a, a, [Coin(d, n)]))
      && BalancesIn(codec, m.pending, a) == [Coin(d, n)] && Supply(codec, m.pending, d) == n
      && Supply(codec, StepKeeper(codec, m, Send(a, a, [Coin(d, n)])).pending, d) == 2 * n
  {
    var coins, m := [Coin(d, n)], StepKeeper(codec, FRESH, Mint(a, [Coin(d, n)]));
    OneCoin(d, n);
    PutOne(codec, FRESH, a, coins);
    PutEffect(codec, FRESH, a, coins, d, a);
    SendSupply(codec, m, a, a, coins, d);
  }

  lemma OneCoin(d: Denom, n: U256)
    requires 2 * n <= MAX_U256
    ensures MintAll([], [Coin(d, n)]) == Some([Coin(d, n)])
    ensures SendAll([Coin(d, n)], [Coin(d, n)], [Coin(d, n)]).Moved?
    ensures Requested([Coin(d, n)], d) == n && Amount([Coin(d, n)], d) == n
  {
    var coin := Coin(d, n);
    assert [coin][..0] == [] && Find([], d) == 0 && Find([coin], d) == 0;
    var padded := [] + [Coin(d, 0)];
    assert padded == [Coin(d, 0)] && padded[0 := coin] == [coin];
    assert Credit([], coin) == Some([coin]);
  }

  // ---------- every run ----------

  /** What of a denomination has been minted, burned and sent by an account to itself. */
  datatype Tally = Tally(minted: nat, burned: nat, selfSent: nat)

  const NOTHING: Tally := Tally(0, 0, 0)

  function Plus(a: Tally, b: Tally): Tally {
    Tally(a.minted + b.minted, a.burned + b.burned, a.selfSent + b.selfSent)
  }

  /** A supply has moved by exactly the tally. */
  predicate MovedBy(before: nat, t: Tally, after: nat) {
    after + t.burned == before + t.minted + t.selfSent
  }

  /** The store after the keeper operations, in order. */
  ghost function RunKeeper(codec: BalanceCodec, start: StoreModel, ops: seq<KeeperOp>): (m: StoreModel)
    requires WellFormedStore(start)
    ensures WellFormedStore(m) && m == start.(pending := m.pending)
  {
    if ops == [] then start else StepKeeper(codec, RunKeeper(codec, start, ops[..|ops| - 1]), ops[|ops| - 1])
  }

  ghost function OpTally(codec: BalanceCodec, m: StoreModel, op: KeeperOp, d: Denom): Tally {
    Tally(Minted(codec, m, op, d), Burned(codec, m, op, d), SelfSent(codec, m, op, d))
  }

  ghost function RunTally(codec: BalanceCodec, start: StoreModel, ops: seq<KeeperOp>, d: Denom): Tally
    requires WellFormedStore(start)
  {
    if ops == [] then NOTHING
    else
      var front := ops[..|ops| - 1];
      Plus(RunTally(codec, start, front, d), OpTally(codec, RunKeeper(codec, start, front), ops[|ops| - 1], d))
  }

  /** Over every run from any store, the supply rises by what is minted and what is sent to oneself
      and falls by what is burned. */
  lemma {:induction false} RunSupply(codec: BalanceCodec, start: StoreModel, ops: seq<KeeperOp>, d: Denom)
    requires RoundTrips(codec) && WellFormedStore(start)
    ensures MovedBy(Supply(codec, start.pending, d), RunTally(codec, start, ops, d), Supply(codec, RunKeeper(codec, start, ops).pending, d))
  {
    if ops != [] {
      RunSupply(codec, start, ops[..|ops| - 1], d);
      StepSupply(codec, RunKeeper(codec, start, ops[..|ops| - 1]), ops[|ops| - 1], d);
    }
  }

  lemma FreshSupply(codec: BalanceCodec, d: Denom)
    ensures WellFormedStore(FRESH) && Supply(codec, FRESH.pending, d) == 0
  {
  }

  /** No account lists a denomination twice. */
  ghost predicate AllDistinct(codec: BalanceCodec, t: State) {
    forall a :: Distinct(BalancesIn(codec, t, a))
  }

  lemma StepDistinct(codec: BalanceCodec, m: StoreModel, op: KeeperOp, a: Account)
    requires RoundTrips(codec) && WellFormedStore(m) && AllDistinct(codec, m.pending)
    ensures Distinct(BalancesIn(codec, StepKeeper(codec, m, op).pending, a))
  {
    if Succeeds(codec, m, op) {
      match op
      case Send(from, to, coins) =>
        var src, dst := BalancesIn(codec, m.pending, from), BalancesIn(codec, m.pending, to);
        SendExact(src, dst, coins);
        var sent := SendAll(src, dst, coins);
        PutTwo(codec, m, from, sent.src, to, sent.dst);
        PutEffect(codec, m, from, sent.src, [], a);
        PutEffect(codec, StepStore(m, Set(Split(from), codec.encode(sent.src))), to, sent.dst, [], a);
      case Mint(b, coins) =>
        MintExact(BalancesIn(codec, m.pending, b), coins);
        PutOne(codec, m, b, MintAll(BalancesIn(codec, m.pending, b), coins).value);
        PutEffect(codec, m, b, MintAll(BalancesIn(codec, m.pending, b), coins).value, [], a);
      case Burn(b, coins) =>
        BurnExact(BalancesIn(codec, m.pending, b), coins);
        PutOne(codec, m, b, BurnAll(BalancesIn(codec, m.pending, b), coins).value);
        PutEffect(codec, m, b, BurnAll(BalancesIn(codec, m.pending, b), coins).value, [], a);
    }
  }

  /** Nor does any ever come to, over every run from such a store, the empty one among them. */
  lemma {:induction false} RunDistinct(codec: BalanceCodec, start: StoreModel, ops: seq<KeeperOp>)
    requires RoundTrips(codec) && WellFormedStore(start) && AllDistinct(codec, start.pending)
    ensures AllDistinct(codec, RunKeeper(codec, start, ops).pending)
  {
    if ops != [] {
      var m, op := RunKeeper(codec, start, ops[..|ops| - 1]), ops[|ops| - 1];
      RunDistinct(codec, start, ops[..|ops| - 1]);
      forall a ensures Distinct(BalancesIn(codec, StepKeeper(codec, m, op).pending, a)) {
        StepDistinct(codec, m, op, a);
      }
    }
  }

  lemma FreshDistinct(codec: BalanceCodec)
    ensures AllDistinct(codec, FRESH.pending)
  {
  }
}
