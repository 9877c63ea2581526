/** Choosing the transactions of a block proposal within the consensus engine's size limit. */
module Proposal {
  import opened Bytes

  const USIZE_MAX: nat := 0xFFFF_FFFF_FFFF_FFFF

  function TotalSize(txs: seq<Bytes>): nat {
    if txs == [] then 0 else TotalSize(txs[..|txs| - 1]) + |txs[|txs| - 1]|
  }

  function SaturatingAdd(a: nat, b: nat): nat {
    if a + b > USIZE_MAX then USIZE_MAX else a + b
  }

  function SaturatingSub(a: nat, b: nat): nat {
    if a < b then 0 else a - b
  }

  lemma {:induction false} PrefixSmaller(txs: seq<Bytes>, n: nat)
    requires n <= |txs|
    ensures TotalSize(txs[..n]) <= TotalSize(txs)
  {
    if n < |txs| {
      PrefixSmaller(txs[..|txs| - 1], n);
      assert txs[..|txs| - 1][..n] == txs[..n];
    } else {
      assert txs[..n] == txs;
    }
  }

  /** What the loop takes the first `n` transactions to weigh: the saturated total less the sizes
      of the transactions dropped after them. */
  function Estimate(txs: seq<Bytes>, n: nat): nat
    requires n <= |txs|
  {
    var total := if TotalSize(txs) > USIZE_MAX then USIZE_MAX else TotalSize(txs);
    PrefixSmaller(txs, n);
    SaturatingSub(total, TotalSize(txs) - TotalSize(txs[..n]))
  }

  /** The proposal is the longest prefix of the transactions that is estimated to fit. When the
      true total fits a machine word, that is the longest prefix that does fit. */
  method PrepareProposal(txs: seq<Bytes>, maxTxBytes: int) returns (r: seq<Bytes>)
    ensures |r| <= |txs| && r == txs[..|r|]
    ensures Estimate(txs, |r|) <= if maxTxBytes < 0 then 0 else maxTxBytes
    ensures forall n :: |r| < n <= |txs| ==> Estimate(txs, n) > if maxTxBytes < 0 then 0 else maxTxBytes
    ensures TotalSize(txs) <= 0xFFFF_FFFF_FFFF_FFFF && maxTxBytes >= 0 ==>
      && TotalSize(r) <= maxTxBytes
      && forall n :: |r| < n <= |txs| ==> maxTxBytes < TotalSize(txs[..n])
    ensures TotalSize(txs) <= 0xFFFF_FFFF_FFFF_FFFF && maxTxBytes < 0 ==>
      && TotalSize(r) == 0
      && forall n :: |r| < n <= |txs| ==> 0 < TotalSize(txs[..n])
  {
    var limit := if maxTxBytes < 0 then 0 else maxTxBytes;
    var total := 0;
    for i := 0 to |txs|
      invariant total == if TotalSize(txs[..i]) > USIZE_MAX then USIZE_MAX else TotalSize(txs[..i])
    {
      assert txs[..i + 1][..i] == txs[..i];
      total := SaturatingAdd(total, |txs[i]|);
    }
    assert txs[..|txs|] == txs;
    forall n | 0 <= n <= |txs| ensures TotalSize(txs[..n]) <= TotalSize(txs) {
      PrefixSmaller(txs, n);
    }
    r := txs;
    while total > limit
      invariant |r| <= |txs| && r == txs[..|r|]
      invariant total == Estimate(txs, |r|)
      invariant forall n :: |r| < n <= |txs| ==> Estimate(txs, n) > limit
      decreases |r|
    {
      if r == [] {
        break;
      }
      var tx := r[|r| - 1];
      assert r[..|r| - 1] == txs[..|r| - 1];
      r := r[..|r| - 1];
      total := SaturatingSub(total, |tx|);
    }
    forall n | 0 <= n <= |txs| && TotalSize(txs) <= USIZE_MAX ensures Estimate(txs, n) == TotalSize(txs[..n]) {
      EstimateFallsShort(txs, n);
    }
  }

  /** The estimate of a prefix is its true size exactly when the transactions all together fit a
      machine word, or the prefix is weightless. */
  lemma EstimateFallsShort(txs: seq<Bytes>, n: nat)
    requires n <= |txs|
    ensures Estimate(txs, n) == TotalSize(txs[..n]) <==> TotalSize(txs) <= 0xFFFF_FFFF_FFFF_FFFF || TotalSize(txs[..n]) == 0
  {
    PrefixSmaller(txs, n);
  }
}
