/**
 The part of an ICS 23 verifier that the tree's proof specification drives: evaluating an
 existence proof to a root, checking its steps against the specification, and checking that two
 existence proofs are of neighbouring leaves.
 */
module Ics23 {
  import opened Bytes
  import opened AvlModel

  datatype HashOp = NoHash | Sha256Op
  datatype LengthOp = NoPrefix

  datatype LeafOp = LeafOp(hash: HashOp, prehashKey: HashOp, prehashValue: HashOp, length: LengthOp, prefix: Bytes)
  datatype InnerOp = InnerOp(hash: HashOp, prefix: Bytes, suffix: Bytes)

  datatype ExistenceProof = ExistenceProof(key: Bytes, value: Bytes, leaf: LeafOp, path: seq<InnerOp>)
  datatype NonExistenceProof =
    NonExistenceProof(key: Bytes, left: Option<ExistenceProof>, right: Option<ExistenceProof>)
  datatype Proof = Exist(exist: ExistenceProof) | Nonexist(nonexist: NonExistenceProof)

  datatype InnerSpec =
    InnerSpec(branches: nat, childSize: nat, minPrefixLength: nat, maxPrefixLength: nat, emptyChild: Bytes, hash: HashOp)
  datatype ProofSpec = ProofSpec(leafSpec: LeafOp, innerSpec: InnerSpec)

  // ---------- evaluation ----------

  function DoHash(op: HashOp, data: Bytes): Bytes {
    match op
    case NoHash => data
    case Sha256Op => Sha256(data)
  }

  function ApplyLeaf(leaf: LeafOp, key: Bytes, value: Bytes): Bytes {
    DoHash(leaf.hash, leaf.prefix + DoHash(leaf.prehashKey, key) + DoHash(leaf.prehashValue, value))
  }

  function ApplyInner(op: InnerOp, child: Bytes): Bytes {
    DoHash(op.hash, op.prefix + child + op.suffix)
  }

  /** Applies the steps in order, the first one to `child`. */
  function ApplyPath(child: Bytes, path: seq<InnerOp>): Bytes {
    if path == [] then child
    else ApplyInner(path[|path| - 1], ApplyPath(child, path[..|path| - 1]))
  }

  function CalculateRoot(proof: ExistenceProof): Bytes {
    ApplyPath(ApplyLeaf(proof.leaf, proof.key, proof.value), proof.path)
  }

  // ---------- conformance to the specification ----------

  predicate InnerOpAllowed(spec: ProofSpec, op: InnerOp) {
    && op.hash == spec.innerSpec.hash
    && spec.innerSpec.minPrefixLength <= |op.prefix|
    && |op.prefix| <= spec.innerSpec.maxPrefixLength + (spec.innerSpec.branches - 1) * spec.innerSpec.childSize
    && !(spec.leafSpec.prefix <= op.prefix)
  }

  predicate PathAllowed(spec: ProofSpec, path: seq<InnerOp>) {
    forall op :: op in path ==> InnerOpAllowed(spec, op)
  }

  /** An empty key or value is refused whatever the proof says. */
  predicate VerifyExistence(spec: ProofSpec, root: Bytes, proof: ExistenceProof, key: Bytes, value: Bytes) {
    && proof.key == key && proof.value == value
    && key != [] && value != []
    && proof.leaf == spec.leafSpec
    && PathAllowed(spec, proof.path)
    && CalculateRoot(proof) == root
  }

  // ---------- branch positions ----------

  /** The step's prefix and suffix lengths are those of branch number `branch`. */
  predicate HasPadding(spec: InnerSpec, op: InnerOp, branch: nat) {
    && branch < spec.branches
    && branch * spec.childSize + spec.minPrefixLength <= |op.prefix|
    && |op.prefix| <= branch * spec.childSize + spec.maxPrefixLength
    && |op.suffix| == (spec.branches - 1 - branch) * spec.childSize
  }

  /** The first branch, from `from` up, whose padding the step has. */
  function OrderFromPadding(spec: InnerSpec, op: InnerOp, from: nat): Option<nat>
    decreases spec.branches - from
  {
    if from >= spec.branches then None
    else if HasPadding(spec, op, from) then Some(from)
    else OrderFromPadding(spec, op, from + 1)
  }

  predicate LeftBranchesAreEmpty(spec: InnerSpec, op: InnerOp) {
    var idx := OrderFromPadding(spec, op, 0);
    && idx.Some? && idx.value > 0
    && idx.value * spec.childSize <= |op.prefix|
    && forall i :: 0 <= i < idx.value ==> EmptyAt(spec, op.prefix, |op.prefix| - idx.value * spec.childSize + i * spec.childSize)
  }

  predicate RightBranchesAreEmpty(spec: InnerSpec, op: InnerOp) {
    var idx := OrderFromPadding(spec, op, 0);
    && idx.Some? && idx.value + 1 < spec.branches
    && |op.suffix| == (spec.branches - 1 - idx.value) * spec.childSize
    && forall i :: 0 <= i < spec.branches - 1 - idx.value ==> EmptyAt(spec, op.suffix, i * spec.childSize)
  }

  predicate EmptyAt(spec: InnerSpec, s: Bytes, at: int) {
    0 <= at && at + spec.childSize <= |s| && s[at..at + spec.childSize] == spec.emptyChild
  }

  // ---------- neighbours ----------

  predicate EnsureLeftMost(spec: InnerSpec, path: seq<InnerOp>) {
    forall op :: op in path ==> HasPadding(spec, op, 0) || LeftBranchesAreEmpty(spec, op)
  }

  predicate EnsureRightMost(spec: InnerSpec, path: seq<InnerOp>) {
    forall op :: op in path ==>
      (spec.branches > 0 && HasPadding(spec, op, spec.branches - 1)) || RightBranchesAreEmpty(spec, op)
  }

  predicate IsLeftStep(spec: InnerSpec, left: InnerOp, right: InnerOp) {
    var l, r := OrderFromPadding(spec, left, 0), OrderFromPadding(spec, right, 0);
    l.Some? && r.Some? && l.value + 1 == r.value
  }

  /** Strips the steps the two paths share at the top, then asks that they part at consecutive
      branches, the left one keeping right below and the right one keeping left. */
  predicate EnsureLeftNeighbor(spec: InnerSpec, left: seq<InnerOp>, right: seq<InnerOp>) {
    && left != [] && right != []
    && var topLeft, topRight := left[|left| - 1], right[|right| - 1];
       var restLeft, restRight := left[..|left| - 1], right[..|right| - 1];
       if topLeft.prefix == topRight.prefix && topLeft.suffix == topRight.suffix then
         EnsureLeftNeighbor(spec, restLeft, restRight)
       else
         && IsLeftStep(spec, topLeft, topRight)
         && EnsureRightMost(spec, restLeft)
         && EnsureLeftMost(spec, restRight)
  }

  predicate Adjacent(spec: InnerSpec, left: Option<ExistenceProof>, right: Option<ExistenceProof>) {
    match (left, right)
    case (Some(l), Some(r)) => EnsureLeftNeighbor(spec, l.path, r.path)
    case (Some(l), None) => EnsureRightMost(spec, l.path)
    case (None, Some(r)) => EnsureLeftMost(spec, r.path)
    case (None, None) => false
  }

  /** Byte-string order: the first difference decides, and a proper prefix comes first. */
  predicate BytesLess(a: Bytes, b: Bytes) {
    b != [] && (a == [] || a[0] < b[0] || (a[0] == b[0] && BytesLess(a[1..], b[1..])))
  }

  predicate VerifyNonExistence(spec: ProofSpec, root: Bytes, proof: NonExistenceProof, key: Bytes) {
    && (proof.left.Some? ==>
          var l := proof.left.value;
          VerifyExistence(spec, root, l, l.key, l.value) && BytesLess(l.key, key))
    && (proof.right.Some? ==>
          var r := proof.right.value;
          VerifyExistence(spec, root, r, r.key, r.value) && BytesLess(key, r.key))
    && Adjacent(spec.innerSpec, proof.left, proof.right)
  }
}
