/**
 ICS 23 proofs from the tree: the proofs it builds for keys it has and keys it has not, and that
 they convince a verifier working to the tree's own proof specification.
 */
module AvlProofs {
  import opened Bytes
  import opened AvlModel
  import opened AvlOrder
  import opened AvlCaches
  import opened AvlBalance
  import opened Ics23

  const LEAF_OP: LeafOp := LeafOp(Sha256Op, NoHash, NoHash, NoPrefix, LEAF_PREFIX)

  /** Three branches of 32 bytes per step: left subtree, the node's own hash, right subtree. */
  const PROOF_SPEC: ProofSpec := ProofSpec(LEAF_OP, InnerSpec(3, 32, 0, 64, EMPTY_CHILD, Sha256Op))

  function LocalExistenceProof<K>(ko: KeyOps<K>, t: Tree<K>): ExistenceProof
    requires t.Node?
  {
    ExistenceProof(ko.bytes(t.key), t.value, LEAF_OP,
                   [InnerOp(Sha256Op, ChildHash(t.left), ChildHash(t.right))])
  }

  /** The step from the left subtree up to the node. */
  function FromLeft<K>(t: Tree<K>): InnerOp
    requires t.Node?
  {
    InnerOp(Sha256Op, [], t.hash + ChildHash(t.right))
  }

  /** The step from the right subtree up to the node. */
  function FromRight<K>(t: Tree<K>): InnerOp
    requires t.Node?
  {
    InnerOp(Sha256Op, ChildHash(t.left) + t.hash, [])
  }

  function Push(p: Option<ExistenceProof>, op: InnerOp): Option<ExistenceProof> {
    if p.None? then None else Some(p.value.(path := p.value.path + [op]))
  }

  function GetProof<K>(ko: KeyOps<K>, t: Tree<K>, key: K): Proof {
    if t.Empty? then Nonexist(NonExistenceProof(ko.bytes(key), None, None))
    else if ko.less(key, t.key) then
      match GetProof(ko, t.left, key) {
        case Exist(p) => Exist(p.(path := p.path + [FromLeft(t)]))
        case Nonexist(p) =>
          Nonexist(p.(
            left := Push(p.left, FromLeft(t)),
            right := if p.right.None? then Some(LocalExistenceProof(ko, t)) else Push(p.right, FromLeft(t))))
      }
    else if ko.less(t.key, key) then
      match GetProof(ko, t.right, key) {
        case Exist(p) => Exist(p.(path := p.path + [FromRight(t)]))
        case Nonexist(p) =>
          Nonexist(p.(
            left := if p.left.None? then Some(LocalExistenceProof(ko, t)) else Push(p.left, FromRight(t)),
            right := Push(p.right, FromRight(t))))
      }
    else Exist(LocalExistenceProof(ko, t))
  }

  // ---------- existence ----------

  lemma ApplyPathPush(child: Bytes, path: seq<InnerOp>, op: InnerOp)
    ensures ApplyPath(child, path + [op]) == ApplyInner(op, ApplyPath(child, path))
  {
    assert (path + [op])[..|path + [op]| - 1] == path;
  }

  lemma LocalProofEvaluates<K>(ko: KeyOps<K>, t: Tree<K>)
    requires t.Node? && HashesOk(ko, t)
    ensures CalculateRoot(LocalExistenceProof(ko, t)) == t.merkleHash
  {
    var p := LocalExistenceProof(ko, t);
    var leaf := ApplyLeaf(p.leaf, p.key, p.value);
    ApplyPathPush(leaf, [], p.path[0]);
    assert [] + [p.path[0]] == p.path;
  }

  /** A step up from a subtree's root hash gives the node's. */
  lemma StepsUp<K>(ko: KeyOps<K>, t: Tree<K>)
    requires t.Node? && HashesOk(ko, t)
    ensures t.left.Node? ==> ApplyInner(FromLeft(t), t.left.merkleHash) == t.merkleHash
    ensures t.right.Node? ==> ApplyInner(FromRight(t), t.right.merkleHash) == t.merkleHash
  {
    var l, r := ChildHash(t.left), ChildHash(t.right);
    assert [] + l + (t.hash + r) == l + t.hash + r;
    assert (l + t.hash) + r + [] == l + t.hash + r;
  }

  /** For a stored key, and only then, the proof is one of existence; it carries that key and
      its stored value, has one step per node visited, and evaluates to the root hash. */
  lemma {:induction false} ExistenceComplete<K(!new)>(ko: KeyOps<K>, t: Tree<K>, key: K)
    requires HashesOk(ko, t)
    ensures GetProof(ko, t, key).Exist? <==> Get(ko, t, key).Some?
    ensures Get(ko, t, key).Some? ==>
      var p := GetProof(ko, t, key).exist;
      && t.Node? && CalculateRoot(p) == t.merkleHash
      && (TotalOrder(ko) ==> p.key == ko.bytes(key))
      && p.value == Get(ko, t, key).value && p.leaf == PROOF_SPEC.leafSpec
      && |p.path| == GetSteps(ko, t, key)
  {
    if t.Node? {
      if ko.less(key, t.key) {
        ExistenceComplete(ko, t.left, key);
        StepsUp(ko, t);
        var q := GetProof(ko, t.left, key);
        if q.Exist? { ApplyPathPush(ApplyLeaf(LEAF_OP, q.exist.key, q.exist.value), q.exist.path, FromLeft(t)); }
      } else if ko.less(t.key, key) {
        ExistenceComplete(ko, t.right, key);
        StepsUp(ko, t);
        var q := GetProof(ko, t.right, key);
        if q.Exist? { ApplyPathPush(ApplyLeaf(LEAF_OP, q.exist.key, q.exist.value), q.exist.path, FromRight(t)); }
      } else {
        LocalProofEvaluates(ko, t);
      }
    }
  }

  // ---------- non-existence: the neighbours ----------

  /** The key before `key` in the order, if any; `key` itself is absent. */
  ghost function Before<K>(ko: KeyOps<K>, t: Tree<K>, key: K): Option<K> {
    if t.Empty? then None
    else if ko.less(t.key, key) then
      var b := Before(ko, t.right, key);
      if b.None? then Some(t.key) else b
    else Before(ko, t.left, key)
  }

  /** The key after `key` in the order, if any. */
  ghost function After<K>(ko: KeyOps<K>, t: Tree<K>, key: K): Option<K> {
    if t.Empty? then None
    else if ko.less(key, t.key) then
      var a := After(ko, t.left, key);
      if a.None? then Some(t.key) else a
    else After(ko, t.right, key)
  }

  ghost predicate IsPredecessor<K(!new)>(ko: KeyOps<K>, m: map<K, Bytes>, key: K, p: Option<K>) {
    if p.None? then forall k :: k in m ==> !ko.less(k, key)
    else p.value in m && ko.less(p.value, key) && forall k :: k in m && ko.less(k, key) ==> k == p.value || ko.less(k, p.value)
  }

  ghost predicate IsSuccessor<K(!new)>(ko: KeyOps<K>, m: map<K, Bytes>, key: K, s: Option<K>) {
    if s.None? then forall k :: k in m ==> !ko.less(key, k)
    else s.value in m && ko.less(key, s.value) && forall k :: k in m && ko.less(key, k) ==> k == s.value || ko.less(s.value, k)
  }

  lemma {:induction false} BeforeIsPredecessor<K(!new)>(ko: KeyOps<K>, t: Tree<K>, key: K, lo: Option<K>, hi: Option<K>)
    requires TotalOrder(ko) && OrderedIn(ko, t, lo, hi)
    ensures IsPredecessor(ko, Contents(t), key, Before(ko, t, key))
  {
    if t.Node? {
      KeysWithin(ko, t.left, lo, Some(t.key));
      KeysWithin(ko, t.right, Some(t.key), hi);
      BeforeIsPredecessor(ko, t.left, key, lo, Some(t.key));
      BeforeIsPredecessor(ko, t.right, key, Some(t.key), hi);
    }
  }

  lemma {:induction false} AfterIsSuccessor<K(!new)>(ko: KeyOps<K>, t: Tree<K>, key: K, lo: Option<K>, hi: Option<K>)
    requires TotalOrder(ko) && OrderedIn(ko, t, lo, hi)
    ensures IsSuccessor(ko, Contents(t), key, After(ko, t, key))
  {
    if t.Node? {
      KeysWithin(ko, t.left, lo, Some(t.key));
      KeysWithin(ko, t.right, Some(t.key), hi);
      AfterIsSuccessor(ko, t.left, key, lo, Some(t.key));
      AfterIsSuccessor(ko, t.right, key, Some(t.key), hi);
    }
  }

  /** The existence proof the tree gives for a key, if there is a key. */
  ghost function ExistenceOf<K>(ko: KeyOps<K>, t: Tree<K>, key: Option<K>): Option<ExistenceProof> {
    if key.Some? && GetProof(ko, t, key.value).Exist? then Some(GetProof(ko, t, key.value).exist) else None
  }

  /** A key on the left has its existence proof from the left subtree, one step longer; the same
      on the right, and the node's own key has the local proof. */
  lemma ExistenceLifts<K(!new)>(ko: KeyOps<K>, t: Tree<K>, key: Option<K>)
    requires TotalOrder(ko) && t.Node? && key.Some?
    ensures ko.less(key.value, t.key) ==> ExistenceOf(ko, t, key) == Push(ExistenceOf(ko, t.left, key), FromLeft(t))
    ensures ko.less(t.key, key.value) ==> ExistenceOf(ko, t, key) == Push(ExistenceOf(ko, t.right, key), FromRight(t))
    ensures key.value == t.key ==> ExistenceOf(ko, t, key) == Some(LocalExistenceProof(ko, t))
  {
  }

  /** For an absent key the proof's two members are exactly the existence proofs of the keys just
      before and just after it. */
  lemma {:induction false} NonExistenceMembers<K(!new)>(ko: KeyOps<K>, t: Tree<K>, key: K, lo: Option<K>, hi: Option<K>)
    requires TotalOrder(ko) && OrderedIn(ko, t, lo, hi) && key !in Contents(t)
    ensures var b, a := Before(ko, t, key), After(ko, t, key);
      GetProof(ko, t, key) == Nonexist(NonExistenceProof(ko.bytes(key), ExistenceOf(ko, t, b), ExistenceOf(ko, t, a)))
    ensures ExistenceOf(ko, t, Before(ko, t, key)).None? <==> Before(ko, t, key).None?
    ensures ExistenceOf(ko, t, After(ko, t, key)).None? <==> After(ko, t, key).None?
  {
    if t.Node? {
      var b, a := Before(ko, t, key), After(ko, t, key);
      KeysWithin(ko, t.left, lo, Some(t.key));
      KeysWithin(ko, t.right, Some(t.key), hi);
      if b.Some? { ExistenceLifts(ko, t, b); }
      if a.Some? { ExistenceLifts(ko, t, a); }
      if ko.less(key, t.key) {
        BeforeIsPredecessor(ko, t.left, key, lo, Some(t.key));
        AfterIsSuccessor(ko, t.left, key, lo, Some(t.key));
        NonExistenceMembers(ko, t.left, key, lo, Some(t.key));
      } else {
        BeforeIsPredecessor(ko, t.right, key, Some(t.key), hi);
        AfterIsSuccessor(ko, t.right, key, Some(t.key), hi);
        NonExistenceMembers(ko, t.right, key, Some(t.key), hi);
      }
    }
  }

  // ---------- non-existence: adjacency ----------

  lemma StepPositions<K>(ko: KeyOps<K>, t: Tree<K>)
    requires t.Node?
    ensures var spec, local := PROOF_SPEC.innerSpec, LocalExistenceProof(ko, t).path[0];
      && OrderFromPadding(spec, FromLeft(t), 0) == Some(0)
      && OrderFromPadding(spec, local, 0) == Some(1)
      && OrderFromPadding(spec, FromRight(t), 0) == Some(2)
      && HasPadding(spec, FromLeft(t), 0) && HasPadding(spec, FromRight(t), 2)
      && (t.left.Empty? ==> LeftBranchesAreEmpty(spec, local))
      && (t.right.Empty? ==> RightBranchesAreEmpty(spec, local))
  {
    var spec, local := PROOF_SPEC.innerSpec, LocalExistenceProof(ko, t).path[0];
    assert !HasPadding(spec, local, 0) && HasPadding(spec, local, 1);
    assert !HasPadding(spec, FromRight(t), 0) && !HasPadding(spec, FromRight(t), 1);
    assert OrderFromPadding(spec, local, 1) == Some(1);
    assert OrderFromPadding(spec, FromRight(t), 2) == Some(2);
    assert OrderFromPadding(spec, FromRight(t), 1) == Some(2);
  }

  /** The two members of a non-existence proof pass the neighbour check. */
  lemma {:induction false} NonExistenceAdjacent<K(!new)>(ko: KeyOps<K>, t: Tree<K>, key: K)
    ensures GetProof(ko, t, key).Nonexist? ==>
      var p := GetProof(ko, t, key).nonexist;
      if t.Empty? then p.left.None? && p.right.None? else Adjacent(PROOF_SPEC.innerSpec, p.left, p.right)
  {
    if t.Node? {
      StepPositions(ko, t);
      var spec := PROOF_SPEC.innerSpec;
      if ko.less(key, t.key) {
        NonExistenceAdjacent(ko, t.left, key);
        var q := GetProof(ko, t.left, key);
        if q.Nonexist? {
          PushOnBoth(q.nonexist.left, q.nonexist.right, FromLeft(t));
        }
      } else if ko.less(t.key, key) {
        NonExistenceAdjacent(ko, t.right, key);
        var q := GetProof(ko, t.right, key);
        if q.Nonexist? {
          PushOnBoth(q.nonexist.left, q.nonexist.right, FromRight(t));
        }
      }
    }
  }

  lemma PushOnBoth(left: Option<ExistenceProof>, right: Option<ExistenceProof>, op: InnerOp)
    ensures left.Some? && right.Some? && Adjacent(PROOF_SPEC.innerSpec, left, right) ==>
      Adjacent(PROOF_SPEC.innerSpec, Push(left, op), Push(right, op))
  {
    if left.Some? && right.Some? {
      var l, r := left.value.path, right.value.path;
      assert (l + [op])[..|l + [op]| - 1] == l;
      assert (r + [op])[..|r + [op]| - 1] == r;
    }
  }

  // ---------- conformance of the steps ----------

  /** No node with a right subtree has, as left-child hash and own hash together, the 64 zero
      bytes that mark a leaf. */
  ghost predicate RightTurnsClear<K>(t: Tree<K>) {
    t.Node? ==>
      && (t.right.Node? ==> ChildHash(t.left) + t.hash != LEAF_PREFIX)
      && RightTurnsClear(t.left)
      && RightTurnsClear(t.right)
  }

  /** The same along the way to one key. */
  predicate ClearTo<K>(ko: KeyOps<K>, t: Tree<K>, key: K) {
    t.Node? ==>
      if ko.less(key, t.key) then ClearTo(ko, t.left, key)
      else if ko.less(t.key, key) then ChildHash(t.left) + t.hash != LEAF_PREFIX && ClearTo(ko, t.right, key)
      else true
  }

  lemma StepsAllowed<K>(ko: KeyOps<K>, t: Tree<K>)
    requires t.Node?
    ensures InnerOpAllowed(PROOF_SPEC, LocalExistenceProof(ko, t).path[0])
    ensures InnerOpAllowed(PROOF_SPEC, FromLeft(t))
    ensures InnerOpAllowed(PROOF_SPEC, FromRight(t)) <==> ChildHash(t.left) + t.hash != LEAF_PREFIX
  {
    assert LEAF_PREFIX[..|LEAF_PREFIX|] == LEAF_PREFIX;
    var prefix := FromRight(t).prefix;
    assert |prefix| == |LEAF_PREFIX| && prefix[..|LEAF_PREFIX|] == prefix;
  }

  /** An existence proof has only steps the verifier allows exactly when the way to its key is
      clear. */
  lemma {:induction false} ProofAllowed<K>(ko: KeyOps<K>, t: Tree<K>, key: K)
    requires GetProof(ko, t, key).Exist?
    ensures PathAllowed(PROOF_SPEC, GetProof(ko, t, key).exist.path) <==> ClearTo(ko, t, key)
  {
    StepsAllowed(ko, t);
    if ko.less(key, t.key) {
      ProofAllowed(ko, t.left, key);
      PushAllowed(GetProof(ko, t.left, key).exist.path, FromLeft(t));
    } else if ko.less(t.key, key) {
      ProofAllowed(ko, t.right, key);
      PushAllowed(GetProof(ko, t.right, key).exist.path, FromRight(t));
    }
  }

  lemma PushAllowed(path: seq<InnerOp>, op: InnerOp)
    ensures PathAllowed(PROOF_SPEC, path + [op]) <==> PathAllowed(PROOF_SPEC, path) && InnerOpAllowed(PROOF_SPEC, op)
  {
    assert op in path + [op];
    assert forall o :: o in path ==> o in path + [op];
  }

  /** All right turns are clear exactly when the way to every stored key is. */
  lemma {:induction false} ClearIffClearToAll<K(!new)>(ko: KeyOps<K>, t: Tree<K>, lo: Option<K>, hi: Option<K>)
    requires TotalOrder(ko) && OrderedIn(ko, t, lo, hi)
    ensures RightTurnsClear(t) <==> forall key :: key in Contents(t) ==> ClearTo(ko, t, key)
  {
    if RightTurnsClear(t) {
      forall key | key in Contents(t) ensures ClearTo(ko, t, key) {
        ClearToStored(ko, t, key, lo, hi);
      }
    } else {
      var key := ClashRefused(ko, t, lo, hi);
    }
  }

  lemma {:induction false} ClearToStored<K(!new)>(ko: KeyOps<K>, t: Tree<K>, key: K, lo: Option<K>, hi: Option<K>)
    requires TotalOrder(ko) && OrderedIn(ko, t, lo, hi) && RightTurnsClear(t) && key in Contents(t)
    ensures ClearTo(ko, t, key)
  {
    KeysWithin(ko, t.left, lo, Some(t.key));
    KeysWithin(ko, t.right, Some(t.key), hi);
    if ko.less(key, t.key) {
      ClearToStored(ko, t.left, key, lo, Some(t.key));
    } else if ko.less(t.key, key) {
      ClearToStored(ko, t.right, key, Some(t.key), hi);
    }
  }

  /** Where a right turn is not clear, it is on the way to some stored key, whose proof contains a
      step the verifier refuses. */
  lemma {:induction false} ClashRefused<K(!new)>(ko: KeyOps<K>, t: Tree<K>, lo: Option<K>, hi: Option<K>) returns (key: K)
    requires TotalOrder(ko) && OrderedIn(ko, t, lo, hi) && !RightTurnsClear(t)
    ensures key in Contents(t) && !ClearTo(ko, t, key)
    ensures GetProof(ko, t, key).Exist? && !PathAllowed(PROOF_SPEC, GetProof(ko, t, key).exist.path)
  {
    KeysWithin(ko, t.left, lo, Some(t.key));
    KeysWithin(ko, t.right, Some(t.key), hi);
    if t.right.Node? && ChildHash(t.left) + t.hash == LEAF_PREFIX {
      key := t.right.key;
      assert ko.less(t.key, key) && !ko.less(key, t.key);
    } else if !RightTurnsClear(t.left) {
      key := ClashRefused(ko, t.left, lo, Some(t.key));
    } else {
      key := ClashRefused(ko, t.right, Some(t.key), hi);
    }
    ProofAllowed(ko, t, key);
  }

  // ---------- what the verifier accepts ----------

  /** The verifier can accept a proof of the key: its bytes and its value are not empty and the way
      to it is clear. */
  ghost predicate Provable<K>(ko: KeyOps<K>, t: Tree<K>, key: K) {
    && key in Contents(t)
    && ko.bytes(key) != [] && Contents(t)[key] != []
    && ClearTo(ko, t, key)
  }

  /** The verifier accepts the proof of a stored key exactly when it can. */
  lemma MembershipVerifies<K(!new)>(ko: KeyOps<K>, t: Tree<K>, key: K)
    requires TotalOrder(ko) && WellFormed(ko, t) && key in Contents(t)
    ensures GetProof(ko, t, key).Exist?
    ensures VerifyExistence(PROOF_SPEC, ChildHash(t), GetProof(ko, t, key).exist, ko.bytes(key), Contents(t)[key])
       <==> Provable(ko, t, key)
  {
    GetIsLookup(ko, t, key, None, None);
    ExistenceComplete(ko, t, key);
    ProofAllowed(ko, t, key);
  }

  /** The verifier accepts the proofs of all stored keys exactly when every right turn is clear and
      no key or value is empty. */
  lemma AllMembershipsVerify<K(!new)>(ko: KeyOps<K>, t: Tree<K>)
    requires TotalOrder(ko) && WellFormed(ko, t)
    ensures RightTurnsClear(t) && (forall key :: key in Contents(t) ==> ko.bytes(key) != [] && Contents(t)[key] != [])
       <==> forall key :: key in Contents(t) ==>
              && GetProof(ko, t, key).Exist?
              && VerifyExistence(PROOF_SPEC, ChildHash(t), GetProof(ko, t, key).exist, ko.bytes(key), Contents(t)[key])
  {
    ClearIffClearToAll(ko, t, None, None);
    forall key | key in Contents(t)
      ensures GetProof(ko, t, key).Exist?
      ensures VerifyExistence(PROOF_SPEC, ChildHash(t), GetProof(ko, t, key).exist, ko.bytes(key), Contents(t)[key])
         <==> Provable(ko, t, key)
    {
      MembershipVerifies(ko, t, key);
    }
  }

  /** The verifier accepts the proof that an absent key is absent exactly when the tree has a key
      at all, the neighbouring keys can be proved, and they are also on either side of the absent
      one as byte strings. */
  lemma NonMembershipVerifies<K(!new)>(ko: KeyOps<K>, t: Tree<K>, key: K)
    requires TotalOrder(ko) && WellFormed(ko, t) && key !in Contents(t)
    ensures GetProof(ko, t, key).Nonexist?
    ensures var b, a := Before(ko, t, key), After(ko, t, key);
      VerifyNonExistence(PROOF_SPEC, ChildHash(t), GetProof(ko, t, key).nonexist, ko.bytes(key)) <==>
        && t.Node?
        && (b.Some? ==> Provable(ko, t, b.value) && BytesLess(ko.bytes(b.value), ko.bytes(key)))
        && (a.Some? ==> Provable(ko, t, a.value) && BytesLess(ko.bytes(key), ko.bytes(a.value)))
  {
    var b, a := Before(ko, t, key), After(ko, t, key);
    NonExistenceMembers(ko, t, key, None, None);
    NonExistenceAdjacent(ko, t, key);
    BeforeIsPredecessor(ko, t, key, None, None);
    AfterIsSuccessor(ko, t, key, None, None);
    if b.Some? { MemberOf(ko, t, b.value); }
    if a.Some? { MemberOf(ko, t, a.value); }
  }

  /** The existence proof of a stored key as a member of a proof of absence. */
  lemma MemberOf<K(!new)>(ko: KeyOps<K>, t: Tree<K>, key: K)
    requires TotalOrder(ko) && WellFormed(ko, t) && key in Contents(t)
    ensures var p := ExistenceOf(ko, t, Some(key));
      && p.Some? && p.value.key == ko.bytes(key)
      && (VerifyExistence(PROOF_SPEC, ChildHash(t), p.value, p.value.key, p.value.value) <==> Provable(ko, t, key))
  {
    GetIsLookup(ko, t, key, None, None);
    ExistenceComplete(ko, t, key);
    MembershipVerifies(ko, t, key);
  }

  /** The key order and the byte order of the rendered keys are the same. */
  ghost predicate OrdersAgree<K(!new)>(ko: KeyOps<K>, keys: set<K>) {
    forall a, b :: a in keys && b in keys && ko.less(a, b) ==> BytesLess(ko.bytes(a), ko.bytes(b))
  }

  /** So when the two orders agree, the proof of absence stands or falls with the neighbours'. */
  lemma NonMembershipVerifiesInByteOrder<K(!new)>(ko: KeyOps<K>, t: Tree<K>, key: K)
    requires TotalOrder(ko) && WellFormed(ko, t) && key !in Contents(t) && t.Node?
    requires OrdersAgree(ko, Contents(t).Keys + {key})
    ensures GetProof(ko, t, key).Nonexist?
    ensures var b, a := Before(ko, t, key), After(ko, t, key);
      VerifyNonExistence(PROOF_SPEC, ChildHash(t), GetProof(ko, t, key).nonexist, ko.bytes(key)) <==>
        (b.Some? ==> Provable(ko, t, b.value)) && (a.Some? ==> Provable(ko, t, a.value))
  {
    NonMembershipVerifies(ko, t, key);
    BeforeIsPredecessor(ko, t, key, None, None);
    AfterIsSuccessor(ko, t, key, None, None);
  }
}
