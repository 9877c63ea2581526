/**
 Account balances as the bank keeps them: a list of denominations with 256-bit amounts, searched
 from the front. `send`, `mint` and `burn` on such lists, and exactly when each succeeds.
 */
module Balances {
  import opened Bytes
  import opened AvlModel

  type Denom = Bytes

  const MAX_U256: int := 0xFFFF_FFFF_FFFF_FFFF_FFFF_FFFF_FFFF_FFFF_FFFF_FFFF_FFFF_FFFF_FFFF_FFFF_FFFF_FFFF

  /** A 256-bit amount. That no sum or difference below leaves the range is checked wherever one
      is formed. */
  type U256 = x: int | 0 <= x <= MAX_U256

  datatype Coin = Coin(denom: Denom, amount: U256)

  /** The first entry for the denomination, or the length of the list if there is none. */
  function Find(b: seq<Coin>, d: Denom): (i: nat)
    ensures i <= |b|
    ensures i < |b| ==> b[i].denom == d
    ensures forall j :: 0 <= j < i ==> b[j].denom != d
  {
    if b == [] || b[0].denom == d then 0 else 1 + Find(b[1..], d)
  }

  predicate Has(b: seq<Coin>, d: Denom) {
    Find(b, d) < |b|
  }

  /** The balance in the denomination; no entry is a balance of 0. */
  function Amount(b: seq<Coin>, d: Denom): U256 {
    if Has(b, d) then b[Find(b, d)].amount else 0
  }

  /** No denomination is listed twice. */
  predicate Distinct(b: seq<Coin>) {
    forall i, j :: 0 <= i < j < |b| ==> b[i].denom != b[j].denom
  }

  // ---------- one coin ----------

  /** Takes the coin out, or fails if there is no entry or too little in it. */
  function Debit(b: seq<Coin>, coin: Coin): Option<seq<Coin>> {
    var i := Find(b, coin.denom);
    if i < |b| && b[i].amount >= coin.amount then Some(b[i := Coin(coin.denom, b[i].amount - coin.amount)]) else None
  }

  /** Puts the coin in, at the end if there is no entry yet, or fails on overflow. */
  function Credit(b: seq<Coin>, coin: Coin): Option<seq<Coin>> {
    var padded := if Has(b, coin.denom) then b else b + [Coin(coin.denom, 0)];
    var i := Find(b, coin.denom);
    if padded[i].amount > MAX_U256 - coin.amount then None
    else Some(padded[i := Coin(coin.denom, padded[i].amount + coin.amount)])
  }

  /** `Find` is the only position with its two properties. */
  lemma {:induction false} FindIs(b: seq<Coin>, d: Denom, i: nat)
    requires i <= |b| && (i < |b| ==> b[i].denom == d)
    requires forall j :: 0 <= j < i ==> b[j].denom != d
    ensures Find(b, d) == i
  {
    if b != [] && b[0].denom != d {
      FindIs(b[1..], d, i - 1);
    }
  }

  lemma FindAfter(b: seq<Coin>, i: nat, c: Coin, d: Denom)
    requires i <= |b| && Find(b, c.denom) == i
    ensures var r := if i < |b| then b[i := c] else b + [c];
      && (Has(r, d) <==> Has(b, d) || d == c.denom)
      && Amount(r, d) == (if d == c.denom then c.amount else Amount(b, d))
      && (Distinct(b) ==> Distinct(r))
  {
    var r := if i < |b| then b[i := c] else b + [c];
    assert forall n :: 0 <= n < |b| ==> r[n].denom == b[n].denom;
    if d == c.denom {
      FindIs(r, d, i);
    } else {
      var k := Find(b, d);
      FindIs(r, d, if k < |b| then k else |r|);
    }
  }

  lemma DebitEffect(b: seq<Coin>, coin: Coin, d: Denom)
    ensures Debit(b, coin).Some? <==> Has(b, coin.denom) && coin.amount <= Amount(b, coin.denom)
    ensures Debit(b, coin).Some? ==>
      var r := Debit(b, coin).value;
      && (Has(r, d) <==> Has(b, d))
      && Amount(r, d) == Amount(b, d) - (if d == coin.denom then coin.amount else 0)
      && (Distinct(b) ==> Distinct(r))
  {
    if Debit(b, coin).Some? {
      var i := Find(b, coin.denom);
      FindAfter(b, i, Coin(coin.denom, b[i].amount - coin.amount), d);
    }
  }

  lemma CreditEffect(b: seq<Coin>, coin: Coin, d: Denom)
    ensures Credit(b, coin).Some? <==> Amount(b, coin.denom) + coin.amount <= MAX_U256
    ensures Credit(b, coin).Some? ==>
      var r := Credit(b, coin).value;
      && (Has(r, d) <==> Has(b, d) || d == coin.denom)
      && Amount(r, d) == Amount(b, d) + (if d == coin.denom then coin.amount else 0)
      && (Distinct(b) ==> Distinct(r))
  {
    var i := Find(b, coin.denom);
    if Credit(b, coin).Some? {
      var c := Coin(coin.denom, Amount(b, coin.denom) + coin.amount);
      if i == |b| { assert (b + [Coin(coin.denom, 0)])[i := c] == b + [c]; }
      assert Credit(b, coin).value == if i < |b| then b[i := c] else b + [c];
      FindAfter(b, i, c, d);
    }
  }

  // ---------- lists of coins ----------

  /** The total asked for in a denomination. */
  function Requested(coins: seq<Coin>, d: Denom): nat {
    if coins == [] then 0
    else Requested(coins[..|coins| - 1], d) + if coins[|coins| - 1].denom == d then coins[|coins| - 1].amount else 0
  }

  predicate Mentions(coins: seq<Coin>, d: Denom) {
    exists i :: 0 <= i < |coins| && coins[i].denom == d
  }

  /** `burn_coins` on one account's list. */
  function BurnAll(b: seq<Coin>, coins: seq<Coin>): Option<seq<Coin>> {
    if coins == [] then Some(b)
    else
      var r := BurnAll(b, coins[..|coins| - 1]);
      if r.None? then None else Debit(r.value, coins[|coins| - 1])
  }

  /** `mint_coins` on one account's list. */
  function MintAll(b: seq<Coin>, coins: seq<Coin>): Option<seq<Coin>> {
    if coins == [] then Some(b)
    else
      var r := MintAll(b, coins[..|coins| - 1]);
      if r.None? then None else Credit(r.value, coins[|coins| - 1])
  }

  datatype Sent = Moved(src: seq<Coin>, dst: seq<Coin>) | InsufficientSourceFunds | DestFundOverflow

  /** `send_coins` on the source's and the destination's lists, coin by coin. */
  function SendAll(src: seq<Coin>, dst: seq<Coin>, coins: seq<Coin>): Sent {
    if coins == [] then Moved(src, dst)
    else
      var before := SendAll(src, dst, coins[..|coins| - 1]);
      if !before.Moved? then before
      else
        var s := Debit(before.src, coins[|coins| - 1]);
        if s.None? then InsufficientSourceFunds
        else
          var t := Credit(before.dst, coins[|coins| - 1]);
          if t.None? then DestFundOverflow else Moved(s.value, t.value)
  }

  /** The source can cover the list: it has an entry for every denomination in it, with no less
      than the total asked for. */
  ghost predicate Covers(b: seq<Coin>, coins: seq<Coin>) {
    forall d :: Mentions(coins, d) ==> Has(b, d) && Requested(coins, d) <= Amount(b, d)
  }

  /** The destination has room for the list: no amount comes to exceed 256 bits. */
  ghost predicate HasRoom(b: seq<Coin>, coins: seq<Coin>) {
    forall d :: Mentions(coins, d) ==>
      Amount(b, d) + Requested(coins, d) <= 0xFFFF_FFFF_FFFF_FFFF_FFFF_FFFF_FFFF_FFFF_FFFF_FFFF_FFFF_FFFF_FFFF_FFFF_FFFF_FFFF
  }

  lemma MentionsFront(coins: seq<Coin>, d: Denom)
    requires coins != []
    ensures Mentions(coins, d) <==> Mentions(coins[..|coins| - 1], d) || d == coins[|coins| - 1].denom
  {
    var front := coins[..|coins| - 1];
    if Mentions(front, d) {
      var i :| 0 <= i < |front| && front[i].denom == d;
      assert coins[i].denom == d;
    }
    if Mentions(coins, d) && d != coins[|coins| - 1].denom {
      var i :| 0 <= i < |coins| && coins[i].denom == d;
      assert front[i].denom == d;
    }
  }

  lemma {:induction false} RequestedIfMentioned(coins: seq<Coin>, d: Denom)
    ensures !Mentions(coins, d) ==> Requested(coins, d) == 0
  {
    if coins != [] {
      MentionsFront(coins, d);
      RequestedIfMentioned(coins[..|coins| - 1], d);
    }
  }

  /** Burning succeeds exactly when the account covers the list, and then takes off each
      denomination the total asked for. */
  lemma {:induction false} BurnExact(b: seq<Coin>, coins: seq<Coin>)
    ensures BurnAll(b, coins).Some? <==> Covers(b, coins)
    ensures BurnAll(b, coins).Some? ==>
      var r := BurnAll(b, coins).value;
      && (forall d :: (Has(r, d) <==> Has(b, d)) && Amount(r, d) == Amount(b, d) - Requested(coins, d))
      && (Distinct(b) ==> Distinct(r))
  {
    if coins != [] {
      var front, last := coins[..|coins| - 1], coins[|coins| - 1];
      BurnExact(b, front);
      forall d ensures Mentions(coins, d) <==> Mentions(front, d) || d == last.denom { MentionsFront(coins, d); }
      RequestedIfMentioned(front, last.denom);
      if BurnAll(b, front).Some? {
        forall d { DebitEffect(BurnAll(b, front).value, last, d); }
        DebitEffect(BurnAll(b, front).value, last, last.denom);
      }
    }
  }

  /** Minting succeeds exactly when the account has room, and then adds to each denomination the
      total asked for. */
  lemma {:induction false} MintExact(b: seq<Coin>, coins: seq<Coin>)
    ensures MintAll(b, coins).Some? <==> HasRoom(b, coins)
    ensures MintAll(b, coins).Some? ==>
      var r := MintAll(b, coins).value;
      && (forall d :: (Has(r, d) <==> Has(b, d) || Mentions(coins, d)) && Amount(r, d) == Amount(b, d) + Requested(coins, d))
      && (Distinct(b) ==> Distinct(r))
  {
    if coins != [] {
      var front, last := coins[..|coins| - 1], coins[|coins| - 1];
      MintExact(b, front);
      forall d ensures Mentions(coins, d) <==> Mentions(front, d) || d == last.denom { MentionsFront(coins, d); }
      RequestedIfMentioned(front, last.denom);
      if MintAll(b, front).Some? {
        forall d { CreditEffect(MintAll(b, front).value, last, d); }
        CreditEffect(MintAll(b, front).value, last, last.denom);
      }
    }
  }

  /** A send is a burn at the source and a mint at the destination, and fails when either does. */
  lemma {:induction false} SendIsBurnAndMint(src: seq<Coin>, dst: seq<Coin>, coins: seq<Coin>)
    ensures SendAll(src, dst, coins).Moved? <==> BurnAll(src, coins).Some? && MintAll(dst, coins).Some?
    ensures SendAll(src, dst, coins).Moved? ==>
      SendAll(src, dst, coins) == Moved(BurnAll(src, coins).value, MintAll(dst, coins).value)
  {
    if coins != [] {
      SendIsBurnAndMint(src, dst, coins[..|coins| - 1]);
    }
  }

  /** A send succeeds exactly when the source covers the list and the destination has room, and
      then moves in each denomination exactly the total asked for. */
  lemma SendExact(src: seq<Coin>, dst: seq<Coin>, coins: seq<Coin>)
    ensures SendAll(src, dst, coins).Moved? <==> Covers(src, coins) && HasRoom(dst, coins)
    ensures SendAll(src, dst, coins).Moved? ==>
      var r := SendAll(src, dst, coins);
      && (forall d ::
            && (Has(r.src, d) <==> Has(src, d)) && Amount(r.src, d) == Amount(src, d) - Requested(coins, d)
            && (Has(r.dst, d) <==> Has(dst, d) || Mentions(coins, d)) && Amount(r.dst, d) == Amount(dst, d) + Requested(coins, d))
      && (Distinct(src) ==> Distinct(r.src)) && (Distinct(dst) ==> Distinct(r.dst))
  {
    SendIsBurnAndMint(src, dst, coins);
    BurnExact(src, coins);
    MintExact(dst, coins);
  }

  // ---------- which error ----------

  /** Some prefix of the list goes through, and with the next coin the source does not cover it. */
  ghost predicate RunsShort(src: seq<Coin>, dst: seq<Coin>, coins: seq<Coin>) {
    exists k :: 0 <= k < |coins| && Covers(src, coins[..k]) && HasRoom(dst, coins[..k]) && !Covers(src, coins[..k + 1])
  }

  /** Some prefix goes through, and with the next coin the source covers it but the destination has
      no room. */
  ghost predicate RunsOver(src: seq<Coin>, dst: seq<Coin>, coins: seq<Coin>) {
    exists k :: 0 <= k < |coins| && Covers(src, coins[..k]) && HasRoom(dst, coins[..k])
      && Covers(src, coins[..k + 1]) && !HasRoom(dst, coins[..k + 1])
  }

  lemma SendStops(src: seq<Coin>, dst: seq<Coin>, coins: seq<Coin>, k: nat)
    requires k <= |coins| && !SendAll(src, dst, coins[..k]).Moved?
    ensures SendAll(src, dst, coins) == SendAll(src, dst, coins[..k])
  {
    if k < |coins| {
      assert coins[..|coins| - 1][..k] == coins[..k];
      SendStops(src, dst, coins[..|coins| - 1], k);
    } else {
      assert coins[..k] == coins;
    }
  }

  /** What the coin after a prefix that goes through makes of the send. */
  lemma NextCoin(src: seq<Coin>, dst: seq<Coin>, coins: seq<Coin>, k: nat)
    requires k < |coins| && Covers(src, coins[..k]) && HasRoom(dst, coins[..k])
    ensures !Covers(src, coins[..k + 1]) ==> SendAll(src, dst, coins[..k + 1]) == InsufficientSourceFunds
    ensures Covers(src, coins[..k + 1]) && !HasRoom(dst, coins[..k + 1]) ==> SendAll(src, dst, coins[..k + 1]) == DestFundOverflow
  {
    assert coins[..k + 1][..k] == coins[..k];
    SendIsBurnAndMint(src, dst, coins[..k]);
    BurnExact(src, coins[..k]);
    MintExact(dst, coins[..k]);
    BurnExact(src, coins[..k + 1]);
    MintExact(dst, coins[..k + 1]);
  }

  /** The first coin a failing send of `n` coins fails at. */
  lemma {:induction false} FirstFailure(src: seq<Coin>, dst: seq<Coin>, coins: seq<Coin>, n: nat) returns (k: nat)
    requires n <= |coins| && !SendAll(src, dst, coins[..n]).Moved?
    ensures k < n && Covers(src, coins[..k]) && HasRoom(dst, coins[..k])
    ensures !(Covers(src, coins[..k + 1]) && HasRoom(dst, coins[..k + 1]))
  {
    if SendAll(src, dst, coins[..n - 1]).Moved? {
      k := n - 1;
      SendExact(src, dst, coins[..k]);
      SendExact(src, dst, coins[..k + 1]);
    } else {
      k := FirstFailure(src, dst, coins, n - 1);
    }
  }

  /** A send fails for lack of funds exactly if the source runs short first, for overflow exactly if
      the destination runs over first, and not at all exactly if it covers and has room for all. */
  lemma SendErrors(src: seq<Coin>, dst: seq<Coin>, coins: seq<Coin>)
    ensures SendAll(src, dst, coins).Moved? <==> Covers(src, coins) && HasRoom(dst, coins)
    ensures SendAll(src, dst, coins) == InsufficientSourceFunds <==> RunsShort(src, dst, coins)
    ensures SendAll(src, dst, coins) == DestFundOverflow <==> RunsOver(src, dst, coins)
  {
    SendExact(src, dst, coins);
    if !SendAll(src, dst, coins).Moved? {
      assert coins[..|coins|] == coins;
      var k := FirstFailure(src, dst, coins, |coins|);
      FailsWith(src, dst, coins, k);
    }
    if RunsShort(src, dst, coins) {
      var k :| 0 <= k < |coins| && Covers(src, coins[..k]) && HasRoom(dst, coins[..k]) && !Covers(src, coins[..k + 1]);
      FailsWith(src, dst, coins, k);
    }
    if RunsOver(src, dst, coins) {
      var k :| 0 <= k < |coins| && Covers(src, coins[..k]) && HasRoom(dst, coins[..k])
        && Covers(src, coins[..k + 1]) && !HasRoom(dst, coins[..k + 1]);
      FailsWith(src, dst, coins, k);
    }
  }

  lemma FailsWith(src: seq<Coin>, dst: seq<Coin>, coins: seq<Coin>, k: nat)
    requires k < |coins| && Covers(src, coins[..k]) && HasRoom(dst, coins[..k])
    requires !(Covers(src, coins[..k + 1]) && HasRoom(dst, coins[..k + 1]))
    ensures SendAll(src, dst, coins) == if Covers(src, coins[..k + 1]) then DestFundOverflow else InsufficientSourceFunds
  {
    NextCoin(src, dst, coins, k);
    SendStops(src, dst, coins, k + 1);
  }

  // ---------- the order of the list does not matter ----------

  lemma {:induction false} RequestedSplit(a: seq<Coin>, b: seq<Coin>, d: Denom)
    ensures Requested(a + b, d) == Requested(a, d) + Requested(b, d)
  {
    if b == [] {
      assert a + b == a;
    } else {
      assert (a + b)[..|a + b| - 1] == a + b[..|b| - 1];
      RequestedSplit(a, b[..|b| - 1], d);
    }
  }

  /** Takes one occurrence of a coin out of a list. */
  lemma TakeOut(coins: seq<Coin>, c: Coin) returns (x: seq<Coin>, y: seq<Coin>)
    requires c in multiset(coins)
    ensures coins == x + [c] + y
    ensures multiset(x + y) == multiset(coins) - multiset{c}
  {
    var i :| 0 <= i < |coins| && coins[i] == c;
    x, y := coins[..i], coins[i + 1..];
    assert coins == x + [c] + y;
  }

  lemma {:induction false} SameRequests(coins: seq<Coin>, other: seq<Coin>, d: Denom)
    requires multiset(coins) == multiset(other)
    ensures Requested(coins, d) == Requested(other, d)
  {
    if coins == [] {
      assert |multiset(other)| == 0;
    } else {
      var front, last := coins[..|coins| - 1], coins[|coins| - 1];
      assert coins == front + [last];
      var x, y := TakeOut(other, last);
      SameRequests(front, x + y, d);
      RequestedSplit(x + [last], y, d);
      RequestedSplit(x, [last], d);
      RequestedSplit(x, y, d);
      RequestedSplit(front, [last], d);
    }
  }

  lemma MentionsInMultiset(coins: seq<Coin>, d: Denom)
    ensures Mentions(coins, d) <==> exists c :: c in multiset(coins) && c.denom == d
  {
    if Mentions(coins, d) {
      var i :| 0 <= i < |coins| && coins[i].denom == d;
      assert coins[i] in multiset(coins);
    }
  }

  /** Rearranging the list changes neither whether a send succeeds nor any resulting balance. */
  lemma SendOrderIrrelevant(src: seq<Coin>, dst: seq<Coin>, coins: seq<Coin>, other: seq<Coin>)
    requires multiset(coins) == multiset(other)
    ensures var r, q := SendAll(src, dst, coins), SendAll(src, dst, other);
      && (r.Moved? <==> q.Moved?)
      && (r.Moved? ==> forall d ::
            && (Has(r.src, d) <==> Has(q.src, d)) && Amount(r.src, d) == Amount(q.src, d)
            && (Has(r.dst, d) <==> Has(q.dst, d)) && Amount(r.dst, d) == Amount(q.dst, d))
  {
    SendExact(src, dst, coins);
    SendExact(src, dst, other);
    forall d ensures Requested(coins, d) == Requested(other, d) && (Mentions(coins, d) <==> Mentions(other, d)) {
      SameRequests(coins, other, d);
      MentionsInMultiset(coins, d);
      MentionsInMultiset(other, d);
    }
  }
}
