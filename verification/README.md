# What the chain stores and proves

A model of the state machine underneath the basecoin chain, in four layers:

- **The AVL Merkle tree** (`AvlModel`, `AvlOrder`, `AvlCaches`, `AvlBalance`, `AvlProofs`, `Ics23`,
  `Avl`, `AvlReach`, `AvlFault`, `Paths`). `AvlModel` and `AvlProofs` say on values what each operation makes
  of a tree with its cached heights and hashes; `Avl` has the same operations in place on linked
  nodes and proves that they do that. The rest is about the values: order, map refinement, caches,
  balance, and ICS 23 proofs, which `Ics23` checks the way a verifier does.
- **The versioned store** (`Store`, `LinkedStore`). Pending, staged and committed trees, and
  pruning: once with trees as values, which the application builds on, and once with linked trees,
  rewritten in place and cloned, which does the same.
- **The application** (`AppModel`, `AppProofs`, `AppTraces`, `App`, `StoreQuery`, `Proposal`). Modules are
  arbitrary code over the stores and over `Memory`, all that they keep outside the stores, which
  no call saves or restores; `App` has the loops of the ABCI calls in place.
- **Bank and auth** (`Balances`, `Bank`, `BankSupply`, `Auth`, `TokenChain`, `ChainSupply`,
  `TokenApp`). The two concrete modules, alone and within a running application beside any others.

`KeyOps` stands for what the source asks of a key type: an order and a byte form. `Sha256` is an
arbitrary fixed function from byte strings to 32 bytes, so nothing proved here rests on what it
returns.

## Where the code and what is said of it differ

- `balance_node` (basecoin/store/src/avl/tree.rs:340, 349) rotates twice also over a level child.
  After a removal this can leave one inner node with factor 2 or -2. `RemoveEffectOnBalance` says
  exactly when, from the tree before the removal; `RemoveCanUnbalance` gives a run of eleven
  insertions and one removal, `FactorOfThree` one that ends with a factor of 3.
- Path order is by components (basecoin/store/src/types/path.rs:18), while ICS 23 compares bytes.
  Where the neighbours themselves can be proved, a proof of absence is refused exactly for keys
  that clash with one of them (`AbsenceVerifiesIffNoClash`); "a-b" beside a stored "a/b" is one
  (`HyphenRefused`).
- `reset` goes back to the last applied tree, not to the start of the transaction, and
  `init_chain` and `begin_block` do not apply what they write. So a failed transaction is the
  identity exactly when the stores were settled (`FailedTxIsIdentityIffSettled`). One that fails
  before any commit or successful transaction takes the whole genesis state with it
  (`FailureForgetsGenesis`); `GenesisIsLost` is such a run.
- `query` unwraps the main store's proof (basecoin/app/src/abci/v0_37/impls.rs:106). A module that
  answers without reading the height asked for, as the bank does, lets a query for a proof at a
  height not committed yet, or before any commit, panic (`QueryProofsChain`, `BalanceQueries`,
  `EarlyProofPanics`).
- `send_coins` to the sender's own account creates coins (basecoin/modules/src/bank/impls.rs:101);
  `RunSupply` and `RunsKeepBooks` count them, `SendConservesIff` says when a send conserves, and
  `SelfSendDoubles` is a run in which the supply doubles.
- Balances and accounts are stored under the bare account identifier, because that is what
  `BalancesPath` and `AccountsPath` print; their conversions to a longer path are not used there.
- A verifier refuses empty keys and values, which the store accepts. And a tree node whose left
  subtree hash and own hash are 64 zero bytes would make a proof step start with the leaf prefix,
  which a verifier refuses as well (`MembershipVerifies`). No input of SHA-256 with such a hash is
  known.

## Model

| member | source | states |
|---|---|---|
| `Avl.AvlNode.New` | basecoin/store/src/avl/node.rs:38-63 | a new node is a leaf with height 0, its local hash over key and value, and its Merkle hash over two empty children |
| `Avl.AvlNode.SetValue` | basecoin/store/src/avl/node.rs:66-70 | value and local hash change together and the old value comes back; height and Merkle hash stay as they were |
| `Avl.AvlNode.UpdateHeight` | basecoin/store/src/avl/node.rs:105-116 | the height becomes 0 for a childless node and otherwise one more than its taller child, nothing else changes |
| `Avl.AvlNode.UpdateHashes` | basecoin/store/src/avl/node.rs:119-125 | the Merkle hash becomes the hash over left child, own hash and right child, a missing child counting as 32 zero bytes |
| `Avl.AvlNode.Update` | basecoin/store/src/avl/node.rs:129-132 | both caches of the node are recomputed from its children |
| `Avl.RotateRight` | basecoin/store/src/avl/tree.rs:357-366 | rotating nodes in place yields the right rotation of the tree they held, within the same nodes, the two moved nodes' caches recomputed |
| `Avl.RotateLeft` | basecoin/store/src/avl/tree.rs:369-378 | the same for the left rotation |
| `Avl.BalanceNode` | basecoin/store/src/avl/tree.rs:330-354 | the four rotation cases carried out on links; with correct heights no child that a rotation unwraps is missing |
| `Avl.InsertRec` | basecoin/store/src/avl/tree.rs:55-71 | recursive insertion on links produces the tree of the specification and hands back the replaced value; new nodes are fresh |
| `Avl.RemoveLeftmost` | basecoin/store/src/avl/tree.rs:179-197 | cuts the leftmost node out of the links and rebalances every node above it; the cut node shares nothing with the rest |
| `Avl.RemoveRightmost` | basecoin/store/src/avl/tree.rs:200-218 | the mirror image on the right |
| `Avl.RemoveRoot` | basecoin/store/src/avl/tree.rs:116-176 | replaces the root by its only child, its successor or its predecessor, depending on the balance factor, and returns the old root without subtrees |
| `Avl.RemoveRec` | basecoin/store/src/avl/tree.rs:82-102 | recursive removal on links produces the specified rest and the removed node, disjoint from one another |
| `Avl.GetKeysRec` | basecoin/store/src/avl/tree.rs:387-393 | appends the keys of the subtree in order |
| `Avl.GetLocalExistenceProof` | basecoin/store/src/avl/tree.rs:231-242 | the proof of a node's own key: its leaf and one step between its two subtree hashes |
| `Avl.GetProofRec` | basecoin/store/src/avl/tree.rs:245-327 | the recursion that builds either kind of proof while it returns, on links, against the specification of proofs |
| `Avl.AvlTree.RootHash` | basecoin/store/src/avl/tree.rs:27-29 | the root node's Merkle hash, if there is a root |
| `Avl.AvlTree.Get` | basecoin/store/src/avl/tree.rs:32-46 | the search loop finds exactly what the tree's map holds under the key, in as many turns as the logarithmic bound counts |
| `Avl.AvlTree.Insert` | basecoin/store/src/avl/tree.rs:49-52 | the tree's map gets the key updated and nothing else; the old value is returned; order and all cached heights and hashes are right afterwards |
| `Avl.AvlTree.Remove` | basecoin/store/src/avl/tree.rs:74-77 | the tree's map loses the key and nothing else; the removed value is returned; order and all caches are right afterwards |
| `Avl.AvlTree.GetKeys` | basecoin/store/src/avl/tree.rs:381-385 | the keys of the map, all of them, strictly increasing |
| `Avl.AvlTree.GetProof` | basecoin/store/src/avl/tree.rs:222-229 | the proof that the theorems of `AvlProofs` are about |
| `Avl.AvlTree.Clone` | basecoin/store/src/avl/tree.rs:15-18 | a copy equal to the tree whose nodes are all new, so later changes to one do not reach the other |
| `AvlModel.Rebalance` | basecoin/store/src/avl/tree.rs:330-378 | after `update`, no `expect` of `balance_node` or of a rotation can fail, even on an unbalanced node, and heights are right again |
| `AvlOrder.RotateRightContents` | basecoin/store/src/avl/tree.rs:357-366 | a right rotation keeps the map and the in-order key list |
| `AvlOrder.RotateLeftContents` | basecoin/store/src/avl/tree.rs:369-378 | a left rotation keeps the map and the in-order key list |
| `AvlOrder.RebalanceContents` | basecoin/store/src/avl/tree.rs:330-354 | rebalancing keeps the map and the in-order key list in all of its cases |
| `AvlOrder.RebalanceOrder` | basecoin/store/src/avl/tree.rs:330-354 | rebalancing keeps the search order between any bounds |
| `AvlOrder.GetIsLookup` | basecoin/store/src/avl/tree.rs:32-46 | in an ordered tree the search is a map lookup |
| `AvlOrder.InsertIsMapUpdate` | basecoin/store/src/avl/tree.rs:55-71 | insertion is a map update and keeps the order, whatever the balance; that the old value is returned is in `InsertCorrect` and `InsertRec` |
| `AvlOrder.RemoveLeftmostCutsLeast` | basecoin/store/src/avl/tree.rs:179-197 | the node cut out is the least key, childless, with its stored value; the rest is the map without it |
| `AvlOrder.RemoveRightmostCutsGreatest` | basecoin/store/src/avl/tree.rs:200-218 | the node cut out is the greatest key, childless, with its stored value; the rest is the map without it |
| `AvlOrder.SubstituteOrder` | basecoin/store/src/avl/tree.rs:116-176 | both ways of filling a removed root's place keep the order and lose exactly the root's key |
| `AvlOrder.RemoveIsMapDelete` | basecoin/store/src/avl/tree.rs:82-102 | removal deletes exactly the key, returns a childless node with its value if and only if it was there, and keeps the order |
| `AvlOrder.KeysAreSortedDomain` | basecoin/store/src/avl/tree.rs:381-393 | `get_keys` lists exactly the domain, strictly increasing |
| `AvlCaches.CoherentIffRecomputed` | basecoin/store/src/avl/node.rs:38-132 | a tree's cached heights and hashes are right if and only if recomputing all of them from keys, values and shape changes nothing |
| `AvlCaches.InsertHashes` | basecoin/store/src/avl/tree.rs:55-71 | after an insertion every cached hash equals the recomputed one, although values are replaced before hashes are updated |
| `AvlCaches.RemoveHashes` | basecoin/store/src/avl/tree.rs:82-218 | the same after a removal, through node substitution and rebalancing |
| `AvlCaches.InsertCorrect` | basecoin/store/src/avl/tree.rs:49-71 | one insertion keeps order and all caches, equals its own recomputation, and updates the map |
| `AvlCaches.RemoveCorrect` | basecoin/store/src/avl/tree.rs:74-218 | one removal keeps order and all caches, equals its own recomputation, and deletes from the map |
| `AvlCaches.RunIsMap` | basecoin/store/src/avl/tree.rs:32-218 | after any sequence of insertions and removals from the empty tree, contents and the last returned value are those of a finite map, lookups agree for every key, and order and caches are right |
| `AvlBalance.MendLeft` | basecoin/store/src/avl/tree.rs:330-354 | a node leaning left by 2 over a child that leans is balanced again throughout and one level lower |
| `AvlBalance.MendRight` | basecoin/store/src/avl/tree.rs:330-354 | the mirror image |
| `AvlBalance.MendLeftLevel` | basecoin/store/src/avl/tree.rs:336-343 | the double rotation over a level child: the node is mended, the height stays, and one inner node is left off by one exactly when the inner grandchild leans outward |
| `AvlBalance.MendRightLevel` | basecoin/store/src/avl/tree.rs:345-352 | the mirror image |
| `AvlBalance.InsertKeepsBalance` | basecoin/store/src/avl/tree.rs:55-71 | insertion keeps every factor within 1, adds at most one level, and never meets the level case |
| `AvlBalance.RemoveEffectOnBalance` | basecoin/store/src/avl/tree.rs:82-218 | one removal from a balanced tree loses at most one level; if it loses one all factors are within 1; otherwise at most one node, never the root, is at 2 or -2. Both are told by predicates on the tree before the call: whether a level is lost, and that some factor leaves 1 if and only if an ancestor on the path leans by 1 away from the removal, its tall child is level, that child's inner child leans outward, and the subtree removed from loses a level |
| `AvlFault.RemoveCanUnbalance` | basecoin/store/src/avl/tests.rs:79-81 | eleven single-byte keys, whichever they are, inserted in a given order make a well-formed tree with every factor within 1; removing the least then leaves a well-formed tree with one factor beyond 1, though the root's is not |
| `AvlFault.FactorOfThree` | basecoin/store/src/avl/tests.rs:66-83 | any eighteen single-byte keys, some insertions, then a removal, an insertion and a removal leave a well-formed tree with a factor of 3 below the root |
| `AvlReach.BalancedIsReached` | basecoin/store/src/avl/tree.rs:49-71 | every ordered tree with right caches and all factors within 1 is what some sequence of insertions makes |
| `AvlReach.InsertsAreBalanced` | basecoin/store/src/avl/tree.rs:49-71 | and insertions make no other tree, so these are exactly the trees insertions reach |
| `AvlBalance.BalancedSize` | basecoin/store/src/avl/node.rs:105-142 | a tree of height h with all factors within 1, a missing child counting as height 0, has at least 2^(h/2) nodes |
| `AvlBalance.GetStepsWithinHeight` | basecoin/store/src/avl/tree.rs:32-46 | a search visits at most height + 1 nodes |
| `AvlBalance.InsertOnlyLookupIsLogarithmic` | basecoin/store/src/avl/tree.rs:32-71 | in every tree built by insertions alone all factors are within 1 and a search visits a number of nodes logarithmic in the size |
| `AvlProofs.ExistenceComplete` | basecoin/store/src/avl/tree.rs:222-327 | the proof is one of existence if and only if the key is stored; it then carries the key and its value, has one step per node visited, and its ICS 23 evaluation is the root hash |
| `AvlProofs.BeforeIsPredecessor` | basecoin/store/src/avl/tree.rs:245-327 | the key whose proof becomes the left member is the greatest stored key below the absent one, and missing if there is none |
| `AvlProofs.AfterIsSuccessor` | basecoin/store/src/avl/tree.rs:245-327 | the key whose proof becomes the right member is the least stored key above the absent one, and missing if there is none |
| `AvlProofs.NonExistenceMembers` | basecoin/store/src/avl/tree.rs:245-327 | for every absent key the proof is one of non-existence whose members are exactly the existence proofs of predecessor and successor, each missing if and only if there is none |
| `AvlProofs.NonExistenceAdjacent` | basecoin/store/src/avl/tree.rs:245-327 | the two members always pass the ICS 23 neighbour check, or the left-most or right-most check when one is missing |
| `AvlProofs.MembershipVerifies` | basecoin/store/src/avl/proof.rs:22-37 | a verifier working to the proof spec accepts a stored key's proof if and only if its bytes and value are not empty and no right turn on the way to it has 64 zero bytes as left subtree hash and own hash, which is the leaf prefix |
| `AvlProofs.AllMembershipsVerify` | basecoin/store/src/avl/proof.rs:22-37 | it accepts the proofs of all stored keys if and only if no key or value is empty and every right turn of the tree is clear in that sense |
| `AvlProofs.ClashRefused` | basecoin/store/src/avl/proof.rs:11-37 | where a right turn is not clear, some stored key's way passes it and that key's proof has a step the verifier refuses |
| `AvlProofs.NonMembershipVerifies` | basecoin/store/src/avl/proof.rs:22-37 | a verifier accepts the proof for an absent key if and only if the tree is not empty and each neighbour there is has an acceptable proof of its own and lies on its side of the key as a byte string |
| `AvlProofs.NonMembershipVerifiesInByteOrder` | basecoin/store/src/avl/tree.rs:222-327 | so when key order is byte order, a non-empty tree's proof for an absent key is accepted if and only if the neighbours' own proofs are |
| `Paths.FromString` | basecoin/store/src/types/path.rs:34-43 | the loop over '/'-separated parts yields '/'-free components whose printed form is the string |
| `Paths.JoinUndoesSplit` | basecoin/store/src/types/path.rs:34-72 | printing a parsed path gives the string back, for every string |
| `Paths.SplitUndoesJoin` | basecoin/store/src/types/path.rs:34-72 | parsing a printed path gives the path back, for every non-empty list of '/'-free components |
| `Paths.JoinInjective` | basecoin/store/src/types/path.rs:60-78 | two such paths printed alike are the same path, so keys never collide |
| `Paths.PathKeysOrdered` | basecoin/store/src/types/path.rs:18-19 | the component-wise order is a total order, as the tree needs of its keys |
| `Paths.OrdersAgreeUnlessClash` | basecoin/store/src/types/path.rs:18-78 | component order and byte order of the printed form agree on two paths if and only if they do not clash: where they first differ, one component is a proper prefix of the other, is followed by more, and the other goes on below '/' |
| `Paths.NoClashAboveSlash` | basecoin/store/src/types/path.rs:18-78 | paths whose bytes all lie above '/' never clash |
| `Paths.AbsenceVerifiesIffNoClash` | basecoin/store/src/avl/tree.rs:222-327 | over paths, a verifier accepts the proof of an absent key if and only if the tree is not empty and each neighbour there is has an acceptable proof of its own and does not clash with the key |
| `Paths.HyphenRefused` | basecoin/store/src/types/path.rs:18-78 | a concrete store and absent key whose proof a verifier refuses: "a/b" stored under a non-empty value with an acceptable proof of its own, "a-b" absent |
| `Store.PrunedVec.Push` | basecoin/store/src/impls/in_memory.rs:26-28 | appends to everything ever pushed; nothing is forgotten |
| `Store.PrunedVec.Get` | basecoin/store/src/impls/in_memory.rs:30-32 | the element pushed at that index, unless it was pruned or never pushed |
| `Store.PrunedVec.Last` | basecoin/store/src/impls/in_memory.rs:34-36 | the last element pushed, unless all are pruned |
| `Store.PrunedVec.OriginalLength` | basecoin/store/src/impls/in_memory.rs:53-55 | the number of elements ever pushed |
| `Store.PrunedVec.Prune` | basecoin/store/src/impls/in_memory.rs:61-67 | forgets the elements before the index, and never brings any back |
| `Store.InMemoryStore.constructor` | basecoin/store/src/impls/in_memory.rs:111-126 | a new store is empty at height 0 |
| `Store.InMemoryStore.GetState` | basecoin/store/src/impls/in_memory.rs:95-108 | which tree each kind of height names, and that height 0, pruned and future heights name none |
| `Store.InMemoryStore.SetPath` | basecoin/store/src/impls/in_memory.rs:131-134 | only the pending tree changes, by the one key, and the old pending value is returned |
| `Store.InMemoryStore.Get` | basecoin/store/src/impls/in_memory.rs:136-143 | the value in the map of the height asked for, if that height is there |
| `Store.InMemoryStore.DeletePath` | basecoin/store/src/impls/in_memory.rs:145-147 | only the pending tree changes, by the one key |
| `Store.InMemoryStore.CommitBlock` | basecoin/store/src/impls/in_memory.rs:149-154 | the pending tree becomes staged and is appended to the history; its root hash is returned |
| `Store.InMemoryStore.ApplyChanges` | basecoin/store/src/impls/in_memory.rs:156-160 | staged becomes the pending tree |
| `Store.InMemoryStore.ResetChanges` | basecoin/store/src/impls/in_memory.rs:162-165 | pending becomes exactly the staged tree, so also its root hash |
| `Store.InMemoryStore.PruneTo` | basecoin/store/src/impls/in_memory.rs:167-171 | heights up to the one given become unreadable, nothing else changes |
| `Store.InMemoryStore.CurrentHeight` | basecoin/store/src/impls/in_memory.rs:173-175 | the number of commits, pruned or not |
| `Store.InMemoryStore.GetKeys` | basecoin/store/src/impls/in_memory.rs:177-185 | exactly the pending keys whose printed form starts with the printed prefix, in order |
| `Store.InMemoryStore.RootHash` | basecoin/store/src/impls/in_memory.rs:189-195 | 32 zero bytes when nothing is committed or all of it is pruned, otherwise the root hash of the last committed tree |
| `Store.InMemoryStore.GetProof` | basecoin/store/src/impls/in_memory.rs:197-204 | the tree's own proof at the height asked for, if that height is there |
| `Store.RunRefines` | basecoin/store/src/impls/in_memory.rs:95-204 | over every run of set, delete, apply, reset, commit and prune the store is a working map, a checkpoint map and an append-only list of maps with a forgotten prefix |
| `Store.ReadsAreArchived` | basecoin/store/src/impls/in_memory.rs:95-143 | in every run a height is readable if and only if it is above the pruned ones and at most the number of commits, and reads as the map committed there; pending reads as the working map |
| `Store.HistoryOnlyGrows` | basecoin/store/src/impls/in_memory.rs:149-171 | nothing later in a run changes, reorders or restores a committed tree |
| `Store.StepKeepsWellFormed` | basecoin/store/src/impls/in_memory.rs:131-171 | every operation keeps order and caches of all the store's trees |
| `LinkedStore.InsertApart` | basecoin/store/src/avl/tree.rs:49-52 | an insertion in place leaves every tree that shares no node with it as it was, and still apart |
| `LinkedStore.RemoveApart` | basecoin/store/src/avl/tree.rs:74-77 | so does a removal in place |
| `LinkedStore.CloneApart` | basecoin/store/src/avl/tree.rs:15-18 | a clone shares nothing with any tree that was there before |
| `LinkedStore.LinkedStore.SetPath` | basecoin/store/src/impls/in_memory.rs:131-134 | over linked trees: inserting in the pending tree in place changes neither the staged tree nor a committed snapshot, and is the specified step |
| `LinkedStore.LinkedStore.DeletePath` | basecoin/store/src/impls/in_memory.rs:145-147 | the same for a removal in the pending tree in place |
| `LinkedStore.LinkedStore.ApplyChanges` | basecoin/store/src/impls/in_memory.rs:156-160 | staging a clone of the pending tree is the specified step, and the two stay apart |
| `LinkedStore.LinkedStore.ResetChanges` | basecoin/store/src/impls/in_memory.rs:162-165 | the pending tree becomes a clone of the staged one, apart from it and from all snapshots |
| `LinkedStore.LinkedStore.CommitBlock` | basecoin/store/src/impls/in_memory.rs:149-154 | two clones later the history has one more tree, which nothing in place will reach, and its root is returned |
| `LinkedStore.LinkedStore.PruneTo` | basecoin/store/src/impls/in_memory.rs:167-171 | old snapshots are dropped, nothing else changes |
| `LinkedStore.LinkedStore.GetState` | basecoin/store/src/impls/in_memory.rs:95-108 | the linked tree each kind of height names stands for the specified one |
| `LinkedStore.LinkedStore.Get` | basecoin/store/src/impls/in_memory.rs:136-143 | the search in the linked tree of the height asked for gives the specified value |
| `LinkedStore.LinkedStore.RootHash` | basecoin/store/src/impls/in_memory.rs:189-195 | the root hash of the newest snapshot, and 32 zero bytes when there is none |
| `LinkedStore.LinkedStore.GetProof` | basecoin/store/src/impls/in_memory.rs:197-204 | the specified proof, from the linked tree of the height asked for |
| `App.BaseCoinApp.DeliverMsg` | basecoin/app/src/builder.rs:84-108 | the loop over modules stops at the first that handles the message or fails, keeps what earlier ones wrote, and says not handled if none took it |
| `App.BaseCoinApp.DeliverTo` | basecoin/app/src/builder.rs:89-101 | one module's turn, on the stores and on what modules keep outside them: its writes reach its stores and either its answer is the outcome or the rest of the modules decide it |
| `App.Builder.ModuleStore` | basecoin/app/src/builder.rs:32-39 | the store of the module registered under the name, otherwise a fresh one |
| `App.Builder.AddModule` | basecoin/app/src/builder.rs:47-58 | appends the module and keeps names and stores distinct |
| `App.Builder.Build` | basecoin/app/src/builder.rs:60-65 | the application has the builder's main store and modules, under distinct names, and starts from what the modules hold outside the stores |
| `App.BaseCoinApp.DeliverMessages` | basecoin/app/src/abci/v0_37/impls.rs:187-220 | messages delivered in order up to the first that is not handled, with their events concatenated |
| `App.BaseCoinApp.ResetEverywhere` | basecoin/app/src/abci/v0_37/impls.rs:206-217 | every module store and the main store go back to their staged trees |
| `App.BaseCoinApp.ApplyEverywhere` | basecoin/app/src/abci/v0_37/impls.rs:222-237 | every module store and the main store stage their pending trees |
| `App.BaseCoinApp.DeliverTx` | basecoin/app/src/abci/v0_37/impls.rs:151-244 | response code, events and all stores as the transaction specification says, for undecodable, unsigned, empty, failing and successful transactions; what that comes to is in `TxResponses` |
| `App.BaseCoinApp.CommitModule` | basecoin/app/src/abci/v0_37/impls.rs:248-257 | one module's store commits and its new root is set in the main store under the module's name |
| `App.BaseCoinApp.CommitModules` | basecoin/app/src/abci/v0_37/impls.rs:247-258 | all module stores commit once and all roots are recorded in the main store's pending tree |
| `App.BaseCoinApp.Commit` | basecoin/app/src/abci/v0_37/impls.rs:246-274 | modules commit, then the main store with their roots, and its new root is returned |
| `App.BaseCoinApp.InitChain` | basecoin/app/src/abci/v0_37/impls.rs:66-89 | modules initialise in order, into pending trees alone; the answer is the main root of the last commit, 32 zero bytes before the first |
| `App.BaseCoinApp.BeginBlock` | basecoin/app/src/abci/v0_37/impls.rs:276-295 | modules begin the block in order, into pending trees alone, each seeing what earlier ones wrote, and their events are concatenated |
| `App.BaseCoinApp.AnswerFrom` | basecoin/modules/src/ibc/impls.rs:302-324 | a read returns the value at the height asked for, with the tree's proof if one is wanted, and an error when the height or the value is missing; by position in the run in `ReadIsProven` |
| `App.BaseCoinApp.Respond` | basecoin/app/src/abci/v0_37/impls.rs:105-142 | the main store's proof of the module's name is put after the module's own, and is unwrapped whether or not it is there |
| `App.BaseCoinApp.Query` | basecoin/app/src/abci/v0_37/impls.rs:91-142 | the first module that takes the query on decides the response, knowing whether a proof is wanted; what height 0 means in a run is in `QueryProofsChain` |
| `AppProofs.TxAtomic` | basecoin/app/src/abci/v0_37/impls.rs:187-237 | a delivered transaction leaves every store with pending = staged = the fold of all its messages on success, and with pending = staged = the last applied tree on failure; nothing committed is touched, the code tells which, and what modules keep outside the stores stays as the messages left it |
| `AppTraces.TxResponses` | basecoin/app/src/abci/v0_37/impls.rs:151-244 | every transaction has code 1 if and only if it does not decode, code 0 if and only if it decodes, has a signer and at least one message and every message is handled, and code 2 otherwise; with code 0 come the events with which its messages were handled, joined in order, with any other code none; each message starts from the state the one before left, and delivering ends at the first not handled; a transaction with no messages or signer, or undecodable, changes nothing |
| `AppTraces.MessageIsTaken` | basecoin/app/src/builder.rs:84-108 | a message goes through the modules in order, each starting where the one before left stores and memory; all but the last asked say it is not theirs; the last one's answer is the outcome, which is not handled if and only if all were asked and said so |
| `AppTraces.WritesAreMapUpdates` | basecoin/store/src/impls/in_memory.rs:131-147 | each write of a module, after the ones before it, sets or deletes its one key in the pending map of its one store and does nothing else |
| `AppTraces.GenesisInOrder` | basecoin/app/src/abci/v0_37/impls.rs:66-89 | genesis goes through the modules in order, each starting from the stores and memory the one before left; the main store is untouched |
| `AppTraces.BlockBeginsInOrder` | basecoin/app/src/abci/v0_37/impls.rs:276-295 | the beginning of a block does likewise, and its events are the modules' events joined in order |
| `AppProofs.FailedTxIsIdentityIffSettled` | basecoin/app/src/abci/v0_37/impls.rs:206-217 | a failing transaction changes no store if and only if every store was settled before it |
| `AppProofs.FailureForgetsGenesis` | basecoin/app/src/abci/v0_37/impls.rs:66-89 | in every run in which nothing was committed and no transaction succeeded, a failing transaction leaves every module store as it was before genesis |
| `AppProofs.DeliversInOrder` | basecoin/app/src/abci/v0_37/impls.rs:187-220 | delivering two lists of messages one after the other is delivering them joined, and a failure in the first ends it |
| `AppProofs.RunsInLockstep` | basecoin/app/src/abci/v0_37/impls.rs:213-274 | in every run all module stores and the main store are at the height of the number of commits, the main store is settled between calls, and every one of its heights holds exactly the modules' names with their roots of that height |
| `AppProofs.CommitKeepsLockstep` | basecoin/app/src/abci/v0_37/impls.rs:246-274 | a commit takes lockstep at n to lockstep at n + 1 |
| `AppProofs.TxKeepsLockstep` | basecoin/app/src/abci/v0_37/impls.rs:213-237 | the main store's reset and apply in a transaction never change it |
| `AppProofs.MainStoreOnlyCommits` | basecoin/app/src/abci/v0_37/impls.rs:230-237 | in every run no call but commit changes the main store |
| `AppProofs.TwoLevelProof` | basecoin/app/src/abci/v0_37/impls.rs:246-274 | in every run, at every committed height and for every key a module held there, the module-level proof evaluates to the value the main-store proof carries under the module's name, which evaluates to the main root; a verifier with that root accepts each of the two if and only if its key and value are not empty and the way to the key is clear |
| `AppProofs.QueryProofsChain` | basecoin/app/src/abci/v0_37/impls.rs:91-142 | in every run of n commits, a read for a proof at raw height h, 0 meaning n, is an error if and only if h is not from 1 to n or the tree of the h-th commit has nothing under the path; otherwise it is the value there with two proofs, of it and of the module's name, that chain, verifiably, to the main root of the h-th commit; a query for a proof panics if and only if a module answers without reading and h is above n or nothing is committed |
| `StoreQuery.ReadIsProven` | basecoin/modules/src/ibc/impls.rs:274-325 | in every run of n commits, a query, with or without a proof, that reaches a module reading its store by path is an error if and only if the data is refused, the height, 0 meaning n, is not from 1 to n, or the tree of that commit has nothing there; otherwise it is the value stored there and the height n, alone if no proof is wanted and else with proofs under exactly the bytes asked for that chain to that commit's main root |
| `Proposal.PrepareProposal` | basecoin/app/src/abci/v0_37/impls.rs:329-351 | the longest prefix whose size by the loop's count fits `max_tx_bytes`, a negative one counting as 0; when the total fits a machine word it weighs at most `max_tx_bytes` and every longer prefix more, or, for a negative one, nothing and every longer prefix something |
| `Proposal.EstimateFallsShort` | basecoin/app/src/abci/v0_37/impls.rs:333-348 | the loop's count of a prefix is its true size if and only if the total of all transactions fits a machine word or the prefix weighs nothing |
| `Bank.BankBalanceKeeper.Load` | basecoin/modules/src/bank/impls.rs:64-68 | the account's balances in the pending tree, none if absent or unreadable |
| `Bank.BankBalanceKeeper.Save` | basecoin/modules/src/bank/impls.rs:101-106 | the account's path is set to the encoded balances |
| `Bank.BankBalanceKeeper.SendCoins` | basecoin/modules/src/bank/impls.rs:57-115 | the error is of insufficient funds if and only if some prefix of the coins goes through and the source does not cover one coin more, of overflow if and only if it does but the destination has no room for that coin, and there is none if and only if the source covers and the destination has room for all; the exact new store: both accounts written on success, the credited list last, nothing on failure |
| `Bank.BankBalanceKeeper.MintCoins` | basecoin/modules/src/bank/impls.rs:117-156 | all coins added to the account or, on overflow, nothing written |
| `Bank.BankBalanceKeeper.BurnCoins` | basecoin/modules/src/bank/impls.rs:158-189 | all coins taken from the account or, when it lacks any, nothing written |
| `Bank.MoveCoins` | basecoin/modules/src/bank/impls.rs:77-98 | the send loop as a fold of debits and credits; `SendExact` and `SendErrors` say what comes of it |
| `Bank.AddCoins` | basecoin/modules/src/bank/impls.rs:129-145 | the mint loop as a fold of credits |
| `Bank.TakeCoins` | basecoin/modules/src/bank/impls.rs:170-178 | the burn loop as a fold of debits |
| `Balances.BurnExact` | basecoin/modules/src/bank/impls.rs:170-178 | taking coins succeeds if and only if each requested denomination has an entry of at least its requested total; each amount then falls by exactly that total and no denomination appears twice |
| `Balances.MintExact` | basecoin/modules/src/bank/impls.rs:129-145 | adding coins succeeds if and only if each resulting amount is at most 2^256 - 1; each amount then rises by exactly the requested total |
| `Balances.SendIsBurnAndMint` | basecoin/modules/src/bank/impls.rs:77-98 | the interleaved send loop succeeds if and only if the burn of the source and the mint of the destination do, with their results |
| `Balances.SendExact` | basecoin/modules/src/bank/impls.rs:77-98 | a send succeeds if and only if the source covers and the destination has room for every requested total; all amounts of both lists afterwards |
| `Balances.SendErrors` | basecoin/modules/src/bank/impls.rs:77-98 | which error a send returns, told by the first prefix of the coins that fails: insufficient funds where the source does not cover it, overflow where the source does but the destination has no room for it |
| `Balances.SendOrderIrrelevant` | basecoin/modules/src/bank/impls.rs:77-98 | success and the resulting amounts do not depend on the order of the coins |
| `BankSupply.PutEffect` | basecoin/modules/src/bank/impls.rs:101-112 | storing one account's balances changes no other account and the supply by the difference |
| `BankSupply.StepSupply` | basecoin/modules/src/bank/impls.rs:57-189 | each keeper operation changes the supply by exactly what it mints, burns or sends to its own sender, and nothing at all on failure |
| `BankSupply.SendAccounts` | basecoin/modules/src/bank/impls.rs:57-115 | a send raises the receiver's amount of every denomination by exactly the requested total, lowers the sender's by as much unless they are the same, and touches no other account; without cover or room it changes nothing |
| `BankSupply.MintAccounts` | basecoin/modules/src/bank/impls.rs:117-156 | minting raises the account's amounts by exactly the requested totals and touches no other account; without room it changes nothing |
| `BankSupply.BurnAccounts` | basecoin/modules/src/bank/impls.rs:158-189 | burning lowers the account's amounts by exactly the requested totals and touches no other account; without cover it changes nothing |
| `BankSupply.SendSupply` | basecoin/modules/src/bank/impls.rs:101-112 | a successful send keeps the supply between two accounts and raises it by the requested total when they are the same |
| `BankSupply.SendConservesIff` | basecoin/modules/src/bank/impls.rs:57-115 | a successful send conserves a denomination's supply if and only if sender and receiver differ or nothing of it is requested |
| `BankSupply.SelfSendCreates` | basecoin/modules/src/bank/impls.rs:101-112 | an account with n coins of a denomination and nothing else in the store that sends them to itself has, and the supply is, 2n |
| `BankSupply.RunSupply` | basecoin/modules/src/bank/impls.rs:57-189 | over every run from any store the supply rises by what is minted or sent to oneself and falls by what is burned |
| `BankSupply.StepDistinct` | basecoin/modules/src/bank/impls.rs:84-138 | no keeper operation makes an account list a denomination twice |
| `BankSupply.RunDistinct` | basecoin/modules/src/bank/impls.rs:84-138 | over every run from a store in which no account lists a denomination twice, the empty one among them, none ever does |
| `TokenChain.BankModule.Deliver` | basecoin/modules/src/bank/impls.rs:246-283 | the answer is not handled if and only if the message is not the bank's, handled without events if and only if it is a well-formed send, auth knows the sender, the sender covers it and the receiver has room, and a failure otherwise; the store changes as the bank's code on values says |
| `TokenChain.BankAnswers` | basecoin/modules/src/bank/impls.rs:246-283 | the bank's code passes on exactly the messages that are not its own, handles exactly the sends from accounts auth knows that the sender covers and the receiver has room for, by just that send, and fails otherwise without a write |
| `TokenChain.BankModule.Init` | basecoin/modules/src/bank/impls.rs:285-299 | genesis mints every listed account its coins, in order; it says it succeeded if and only if every mint succeeds on the store the ones before leave, and otherwise has done exactly those before the first that fails, where the source panics |
| `TokenChain.MintWritesPerform` | basecoin/modules/src/bank/impls.rs:285-299 | the writes of the bank's genesis code do to its store what the mints do through the keeper, and each account's balances afterwards are those foreseen |
| `ChainSupply.MessageSupply` | basecoin/app/src/builder.rs:84-108 | a message delivered through all modules, handled or not, moves every denomination's supply by exactly what the keeper operations performed for it mint, burn and send to their own sender |
| `ChainSupply.MessagePerforms` | basecoin/app/src/builder.rs:84-108 | a message delivered through all modules does to the bank's store exactly what its keeper operations do, in order, also those of modules that then say not handled |
| `ChainSupply.RunsAreKeeperRuns` | basecoin/app/src/abci/v0_37/impls.rs:66-295 | over every run from the start of the chain the bank's pending and applied trees are exactly what the keeper operations that still stand make of the empty store: those of genesis, block beginnings and successful transactions, less what a failed transaction takes back |
| `ChainSupply.RunsKeepBooks` | basecoin/app/src/abci/v0_37/impls.rs:66-295 | over every such run supply = minted - burned + sent to oneself, summed over the operations that stand, for the pending and for the applied tree |
| `ChainSupply.RunsDistinct` | basecoin/modules/src/bank/impls.rs:84-138 | over every such run no account lists a denomination twice, in the pending or in the applied tree |
| `ChainSupply.RunsConserveSupply` | basecoin/app/src/abci/v0_37/impls.rs:151-295 | from any point of a run at which nothing unapplied changes the supply, blocks, commits and transactions, failed ones included, conserve every denomination's supply as long as modules only move coins between different accounts |
| `TokenApp.AuthAndBankRegistered` | basecoin/src/runner.rs:50-56 | auth first, the bank with its genesis, sends and balance queries second, and any further modules that leave auth's store alone and reach the bank's through its keeper satisfy what the sequence and supply results ask of an application |
| `TokenApp.BalanceQueries` | basecoin/modules/src/bank/impls.rs:301-332 | in every run of n commits of such an application a query naming an unknown account is an error; one naming a known account is answered with its balances after the commit asked for, 0 meaning n, and none at a height not from 1 to n, where it panics if a proof is wanted; the proof given is the main store's of the bank's root |
| `TokenApp.OtherQueriesPass` | basecoin/modules/src/bank/impls.rs:301-312 | a query whose data names no account is left to the modules after auth and the bank |
| `TokenApp.SendAnswered` | basecoin/modules/src/bank/impls.rs:264-283 | in such an application a message to send is handled, by exactly that send in the bank's store, if and only if auth knows signer and sender, the sender covers it and the receiver has room; otherwise it fails |
| `TokenApp.OtherMessagesPass` | basecoin/modules/src/bank/impls.rs:246-249 | a message that is not the bank's, from a known signer, is left to the modules after auth and the bank, with only auth's store changed |
| `TokenApp.SendTransaction` | basecoin/app/src/abci/v0_37/impls.rs:187-237 | in every run of such an application a transaction of one send has code 0 and applies that send if and only if it can be done; otherwise it has code 2 and the bank's store is as last applied |
| `TokenApp.UndoableSendFails` | basecoin/app/src/abci/v0_37/impls.rs:187-220 | in every run a transaction with a send somewhere that its sender does not cover, its receiver has no room for, or whose signer or sender auth does not know when its turn comes has code 2 |
| `TokenApp.EarlyProofPanics` | basecoin/app/src/abci/v0_37/impls.rs:91-142 | a run and a query for a proof that panics: genesis with one account, then its balances, before any commit |
| `TokenApp.GenesisIsLost` | basecoin/app/src/abci/v0_37/impls.rs:206-217 | a run in which genesis lists one account and another's transaction then leaves every module store fresh |
| `TokenApp.SelfSendDoubles` | basecoin/modules/src/bank/impls.rs:264-283 | a run in which genesis mints one account n coins and its transaction sending them to itself succeeds and leaves 2n |
| `Auth.AuthKeeper.GetAccount` | basecoin/modules/src/auth/impls.rs:115-119 | the account stored under the address in the pending tree |
| `Auth.AuthKeeper.SetAccount` | basecoin/modules/src/auth/impls.rs:131-136 | the account is stored under the address it carries |
| `Auth.AuthKeeper.Init` | basecoin/modules/src/auth/impls.rs:60-75 | every listed address gets a new account with sequence 0 |
| `Auth.AuthKeeper.Deliver` | basecoin/modules/src/auth/impls.rs:77-94 | an unknown signer fails; otherwise the sequence advances, modulo 2^64, and the message is let through unhandled |
| `Auth.GenesisAccounts` | basecoin/modules/src/auth/impls.rs:60-75 | after genesis auth knows exactly the accounts listed, each at sequence 0 |
| `Auth.UnknownSignerFails` | basecoin/modules/src/auth/impls.rs:77-83 | a transaction whose signer auth does not know fails with code 2, whatever the other modules |
| `Auth.UnknownSignerForgetsGenesis` | basecoin/app/src/abci/v0_37/impls.rs:206-217 | right after genesis, a transaction of a signer it does not list leaves every module store fresh, so that auth forgets each account listed |
| `Auth.RunsKeyed` | basecoin/modules/src/auth/impls.rs:60-94 | in every run each account is stored under its own address |
| `Auth.MessagesAdvance` | basecoin/modules/src/auth/impls.rs:77-94 | n handled messages raise the signer's sequence by n, modulo 2^64, and no other account's |
| `Auth.TxAdvancesSequence` | basecoin/app/src/abci/v0_37/impls.rs:187-237 | in every run a successful transaction of n messages raises its signer's stored sequence by n, modulo 2^64, and no other account's; a failed one leaves all accounts as last applied |

## Left out

- Node heights are unbounded here; the 32-bit width of the source and its casts are not modelled. Height grows with the logarithm of the size for insertions, and never faster than the size.
- Store.InMemoryStore.SetPath: the store the application is built on holds trees as values; `LinkedStore` has the linked trees and does the same steps, but the application's own classes are not built on it.
- Avl.AvlTree.Insert: that the links are a tree without sharing is part of `Valid`; that Rust's ownership guarantees it is not modelled.
- Balance after several removals: one removal from a tree insertions reach is characterised exactly, and `FactorOfThree` shows that factors can grow further; neither a bound on them over all runs nor a bound on the root's own factor is proved.
- ICS 23 verification: the checks that the tree's proof spec drives. Soundness of proofs, which the unlengthed leaf encoding and collisions bear on, is not claimed.
- Paths from raw bytes: UTF-8 validation, and the character rules of ICS 24 identifiers.
- Locks and sharing: each ABCI call is one atomic step, and a shared store is the object itself. `SharedStore` does not forward `prune`, so application runs here do not prune.
- App.Builder.AddModule: asks that the module's store be its own, as the builder's `module_store` arranges for distinct names, and that the name be new, where the source panics; modules that share a store are not covered. Modules reach other modules' stores through what their code writes.
- Code of a module that panics, genesis parsing and its iteration order over a hash map, and signature checks; decoding and the choice of a transaction's signer are outcomes given from outside.
- JSON and protobuf: a codec is any pair of functions for which decoding undoes encoding.
- ChainSupply.RunsKeepBooks: covers modules whose writes to the bank's store are keeper operations, as token transfer over IBC does; a module that wrote balances by itself is not covered.
- StoreQuery.ReadIsProven: which data is text and which path a module knows are given from outside, since the IBC path grammar and `IBC_QUERY_PATH` are in another crate, which is not part of this model.
- Auth.TxAdvancesSequence: sequence numbers wrap at 2^64 as in a release build; with overflow checks on, the source would panic there instead.
- Proposal.PrepareProposal: when the true total exceeds a machine word the saturated count can keep transactions that do not fit; what is returned is then stated by the count alone.
- Info, echo, check_tx, end_block and the snapshot calls, which return constants or counters; the v0_38 variants, which repeat v0_37.
- gRPC services, servers, the command line and configuration.
- The IBC handlers, token transfer, governance and upgrade: their logic lies in other crates or is single store calls.
- `RevertibleStore` and `GrowingStore`, both deprecated.
- Parsing a coin from text (basecoin/modules/src/bank/util.rs:36), which drops the first letter of the denomination.
- `remove_account`, which is unimplemented in the source.
