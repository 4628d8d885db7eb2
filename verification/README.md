# ngcore state and fork choice, modelled in Dafny

ngcore is an account-based proof-of-work node. This project models the parts of it that carry its
consensus: the state history a reorg rolls back, the sparse Merkle commitment of the state, the block
store with fork choice, and the ledger transition. `dafny verify dfyconfig.toml` checks everything.

## What is modelled

**State history and reorg unwind.** `Domains` is one bucket with its changeset and history index,
against a plain stack of per-height snapshots; `KeyOrder` is the byte order, the cursors and the two
height encodings; `ArchiveBucket` is the mutable bucket; `CommitReveal` the pending commitments with
their consumption journal, `CommitEffects` what a block makes of them and `CommitRuns` their runs with
reorgs; `Beacon` the accumulation hash. `Contents` says what a block with its state root does to the whole
state as a value, `BlockEffects` reads that off the lists of the block, `StateRuns` says what one
reorg restores and when it changes the node's verdicts, `NodeRuns` what holds after any run of blocks and
reorgs, `CommitReplays` and `ReplayRuns` when such a run ends with what a rebuild from the block store
computes, and `History` what can be read back. `StateDb` is the mutable state with its commitment,
`LeafScope` the leaves an operation can write, `Upgrade` applies blocks to the state, compares their roots
and switches branches, and `NodeDriver` runs it through any list of events.

**State commitment.** `SparseMerkle` is the recursive tree over the live leaves, `TreeStore` the
canonical node store by position, `NodeKeys` the byte keys, `NodeStore` the store with its loops and
proofs, `StateTrie` and `Committed` the mirroring of the five buckets, `LightClient` the proof check.

**Fork choice.** `BlockTree` is the tree of blocks with work and ancestors, `BlockStore` the buckets
inside a write transaction, `Uncles` the uncle rules, `ChainState` the invariant of the store,
`ForkChoice` the steps of an import, `Chain` the node's chain, and `ChainRuns` any list of calls on it.
`UnclesGap` is the concrete case where two uncle functions disagree. `FullNode` joins the two halves: the
fork choice with the verdicts the state computes.

**Ledger.** `VmJournal` is one contract run over its overlay, `VmFlows` what the run moves, read off the
list of its host calls, `Context` the stored context with its reserved keys; `DepLedger` is the
dependency counts and `DepGraph` the graph behind them, `Deposits` the storage deposits across deploys,
`Generates` the reward txs of a block, `Ledger` the application of a block and `LedgerEffects` what it
leaves, tx by tx and for whole blocks. `FeeMarket`, `Difficulty` and `Rewards` are the arithmetic cores;
`Basics`, `Sums` and `Arith` are shared.

An invariant that callers only carry around is sealed: it is a quantifier over `Basics.Opened`, which is
always true, and asserting that opens it.

## Where the code does not do what one would hope

- A reorg does not restore the pending commitments exactly. `CommitReveal.UnwindExactIff` gives the
  exact condition on the store at the fork and the blocks, `CommitReveal.UnwindLosesRevealable` a two-block
  reorg after which a commitment that is still inside its reveal window is gone. Balances, slots, keys,
  beacon and history are exact (`NodeRuns.RunReplays`).
- So the unwind and the full rebuild that `switchToBranchTxn` chooses between do not always agree. The
  unwound node judges branches like a node that stayed at the fork if and only if that condition holds
  (`StateRuns.VerdictsIff`). Over many reorgs the node holds what a rebuild computes until the first one
  that loses a commitment (`ReplayRuns.RunAgreesWithRebuild`, `ReplayRuns.FirstLossParts`), and afterwards
  it can extend a chain that a rebuild refuses (`ReplayRuns.NodeOutrunsRebuild`).
- An upgrade writes back the slot that was loaded before its hook ran, with the deposit it had then.
  `Deposits.UpgradeSolventIff` and `Deposits.DestroySolventIff` say exactly when the escrow stays solvent,
  `Deposits.UpgradeDrains` shows an upgrade after which it is short. Blocks without deploys keep it solvent.
- `ngstate/deps.go` says activation order makes the dependency graph acyclic. A later upgrade can close a
  cycle (`DepGraph.UpgradeCloses`); `DepGraph.SwapAcyclicIff` says exactly when it does not.
- The reference counts of the code bucket are exact block by block (`BlockEffects.BlockCounts`). An unwind
  does not touch them, and they are exact afterwards if and only if every code has as many slots as before
  (`BlockEffects.UnwindCountsIff`). No code that a slot or its history needs is lost
  (`StateRuns.ResolvesUnwound`).
- `CollectUncles` and `validateUncles` look at windows that differ by one block. On a node that starts
  from a checkpoint the collected set is refused exactly when the origin is the block above the low end
  of the window (`Uncles.CollectedPass`, `UnclesGap`). From the genesis it always passes.
- `VerifyProof` does not compare the path of the response with the key that was asked for
  (`LightClient.TrustedQuery`, `LightClient.OtherKeyPasses`).
- `firstChangeHeightAfter` adds one to a 64-bit height and wraps at the largest one, where it is right
  exactly for addresses that never changed (`KeyOrder.FirstChangeHeightAfter`).
- The retarget subtracts 64-bit times as int64. `Difficulty.FactorExactIff` says when that is exact,
  `Difficulty.LateRaises` gives a time for which it is not, as `validateUncles` lets an uncle carry.
- `ngtypes/staterent.go` says no running total of the deposit is persisted; `ngstate/rent.go` persists
  one under `_rent`. The model follows the code.
- `RebuildTrie` is documented for four buckets and inserts five. The model follows the code.

## Hypotheses

- Hash256 is an arbitrary function with 32-byte results. Proof soundness does not assume that it has no
  collisions: it names the two inputs this proof and this tree would have to hash to the same value. What
  the root comparison decides about the buckets assumes that no two leaf keys in play have the same path;
  the keys in play are those written, those an undo could write and those the blocks name, a finite set.
- `ReplayRuns` and `FullNode` hold for every function from the committed buckets to roots.
- A block hash names one block (`Tree`), an uncle hash one header, and a tx id fixes the height the tx
  carries, which is the height of its block (`stamp`).
- The origin refers to uncles below itself and its parent is not above it.
- Commitment hashes and effect txs are distinct within a block, as `FullBlock.CheckError` demands, and
  every tx carries the height of its block.
- Side blocks that CollectUncles offers passed the target check against their parent. A direct child of
  the origin that came in on the fast path did not.
- A block with difficulty zero makes the original divide by zero; it is treated as rejected.
- No contract lives at the escrow address and no tx is sent from it.
- Verdicts that depend on code outside the model enter as inputs: the standalone block check, proof of
  work and base fee, tx checks, signatures, what contract code does. The verdict on the state is an input of
  `Chain` and computed in `FullNode`.

## Model

| member | source | states |
|---|---|---|
| Domains.BlockUndone | ngstate/changeset.go:224-262 | reverting a height right after its block, whatever it wrote, gives back values, changeset and index |
| Domains.UnwindUndoes | ngstate/state.go:332-334 | for every run of blocks f+1..T with arbitrary writes, walking the heights down to f is an exact undo of values, pre-images and index rows |
| Domains.ApplyTracks | ngstate/changeset.go:76-107 | recording first-write pre-images while a block applies extends the stack of per-height snapshots by the state the block ends in |
| Domains.RevertTracks | ngstate/changeset.go:224-262 | reverting the tip pops exactly its snapshot |
| Domains.UnwoundTracks | ngstate/state.go:316-344 | a reorg unwind leaves the snapshots up to the fork height |
| Domains.RunTracks | ngstate/changeset.go:76-107 | in every archive run of applies and unwinds the changesets and the index stand for the stack of per-height snapshots |
| Domains.HistoricalRead | ngstate/changeset.go:163-203 | the pre-image at the first change above a height, else the live value, is what held at the end of that height |
| Domains.RunHistoricalRead | ngstate/changeset.go:163-203 | the same in every run with reorgs, for every height up to the tip |
| KeyOrder.Seek | ngstate/changeset.go:149-150 | the cursor seek returns the least key at or above the target in byte order |
| KeyOrder.ScanPrefix | ngstate/changeset.go:226-243 | the cursor loop over a prefix yields exactly the keys with that prefix, each once |
| KeyOrder.CsKeyPrefix | ngstate/changeset.go:57-64 | the little-endian height prefix selects exactly the rows of that height and the rest of the key is the address |
| KeyOrder.HistKeyOrder | ngstate/changeset.go:66-74 | history keys of one address are ordered as their heights |
| KeyOrder.FirstChangeHeightAfter | ngstate/changeset.go:147-161 | one seek finds the least indexed change strictly above the target; at the largest height, where the sum wraps and the scan starts at zero, the answer is right if and only if the address never changed |
| KeyOrder.WrapExample | ngstate/changeset.go:149 | a concrete index for which the wrapped seek answers wrongly |
| History.ValueAtHeight | ngstate/changeset.go:147-203 | seek plus pre-image lookup on the bucket returns the value of the per-height snapshot |
| History.BalanceAtHeight | ngstate/changeset.go:165-176 | the balance that held at the end of the height, zero when there was none |
| History.ContractAtHeight | ngstate/changeset.go:181-203 | the slot that held, if any, and code bytes that hash to its code hash |
| History.BalanceOnRun | ngstate/changeset.go:165-176 | after any run of accepted blocks, refused blocks and reorgs, the balance read at a height is the one the blocks of the chain up to that height make of the start |
| History.ContractOnRun | ngstate/changeset.go:181-203 | after any such run the slot read at a height is the one those blocks make, with code bytes that hash to its code hash |
| ArchiveBucket.Bucket.Record | ngstate/changeset.go:79-107 | first write wins: the pre-image and the index row are kept once per key and height |
| ArchiveBucket.Bucket.Set | ngstate/state_helper.go:195-208 | record, then write or delete: the new bucket is the recorded write of the old one |
| ArchiveBucket.Bucket.RevertKey | ngstate/changeset.go:245-258 | one row: the value is restored from its tag, the index row and the changeset row go |
| ArchiveBucket.ScanHeight | ngstate/changeset.go:224-243 | the cursor scan over the byte keys from the eight bytes of the height finds exactly the addresses with a row at that height, each once |
| ArchiveBucket.Bucket.Revert | ngstate/changeset.go:245-262 | reverting the rows the scan found restores exactly the pre-images of the height and reports every restored key with its value |
| CommitReveal.ApplySound | ngstate/commit.go:67-126 | every block keeps pending entries within the window, at most one pending entry per committer and hash, and the journal disjoint from the pending store |
| CommitReveal.UndoIsPrune | ngstate/commit.go:158-215 | undoing the block just applied gives the store before it, pruned at the height of that block |
| CommitReveal.UnwoundRestores | ngstate/commit.go:158-200 | unwinding brings an entry back from its one journal row above the target |
| CommitReveal.UnwoundKeeps | ngstate/commit.go:158-200 | an entry without such a row stays as it is pending |
| CommitReveal.RunAt | ngstate/commit.go:67-126 | what the blocks f+1..T leave of an entry pending at f: consumed and journaled at the first of them that reveals it in its window, dropped once it is out of the window, or still there |
| CommitReveal.UnwoundSpent | ngstate/commit.go:158-176 | the unwind removes exactly the journal rows of the unwound heights |
| CommitReveal.UnwindCommits | ngstate/commit.go:147-215 | after f+1..T and back to f an entry pending at f is there exactly when T is within the window of its recording, or of the block that revealed it; said of the store at f and the blocks alone |
| CommitReveal.UnwindExactIff | ngstate/commit.go:206-215 | the pending store of f is restored exactly if and only if every entry pending at f survives in that sense |
| CommitReveal.UnwindLosesRevealable | ngstate/commit.go:206-215 | a concrete commitment that is revealable at height 4, and no longer after two empty blocks 4 and 5 are unwound |
| CommitReveal.RunAlike | ngstate/commit.go:67-126 | which later blocks are accepted, and the pending store they leave, depends on the pending entries alone, not on the journal |
| CommitEffects.ApplyIff | ngstate/commit.go:67-126 | the commitments and reveals of a block are taken exactly when no commitment of the same sender and hash is pending up to one block past the window and every reveal has a pending commitment of its sender within the window |
| CommitEffects.ApplyRecords | ngstate/commit.go:53-64 | afterwards exactly the commitments of the block are pending at its height, under their committers |
| CommitEffects.ApplyKeeps | ngstate/commit.go:86-215 | and at every other height exactly what was pending, is in the window and was not revealed |
| CommitRuns.ApplyLasting | ngstate/commit.go:67-126 | every accepted block keeps the store invariant a later reorg relies on |
| CommitRuns.UndoneLasting | ngstate/commit.go:158-200 | so does undoing the tip of any store that satisfies it, however it was reached |
| CommitRuns.UnwoundLasting | ngstate/commit.go:158-200 | and so does a whole unwind: the store then stands at the fork height |
| CommitRuns.RunSafety | ngstate/state_handle.go:67-96 | over every run of accepted blocks, refused blocks and reorgs: on the chain held in the end each effect spends a commitment of its own sender and hash from a strictly earlier block within the window, no commitment is spent twice, and no two pending entries share sender and hash |
| CommitRuns.RevealUses | ngstate/state_handle.go:67-96 | one consumed commitment per effect, of the same sender and hash |
| StateDb.State.SetBalance | ngstate/state_helper.go:195-208 | the recorded write of the balance bucket, its leaf mirrored |
| StateDb.State.RegisterKey | ngstate/state_helper.go:224-243 | the registry is append-only: a registered address keeps its entry and its history |
| StateDb.State.SetBeacon | ngstate/beacon.go:40-44 | the recorded write of the seed, its leaf mirrored |
| StateDb.State.UpdateBeacon | ngstate/beacon.go:61-88 | nothing before the fork or at height 0; otherwise the new seed is the accumulation hash of old seed, parent hash, salts and height |
| StateDb.State.SetContract | ngstate/state_helper.go:72-107 | slot stored under the hash of its code and its leaf mirrored; a replaced module is released and the new one retained |
| StateDb.State.DelContract | ngstate/state_helper.go:109-125 | slot and leaf deleted and its module released |
| StateDb.State.RetainCode | ngstate/state_helper.go:138-154 | a module is stored once with its bytes, then counted |
| StateDb.State.ReleaseCode | ngstate/state_helper.go:159-178 | counted down; only the last reference without history removes the bytes |
| StateDb.State.HandleCommit | ngstate/state.go:404-437 | accepted exactly when the committer has not the same hash pending and affords the fee; then charged, recorded and mirrored |
| StateDb.State.ConsumeReveal | ngstate/state_handle.go:67-96 | accepted exactly when an entry of the sender is in the window; then journaled, deleted and unmirrored |
| StateDb.State.PruneCommits | ngstate/commit.go:206-243 | both height buckets lose exactly the rows below the window, leaves included |
| StateDb.State.RevertBalances | ngstate/changeset.go:289-298 | the balance bucket reverts and the commitment follows |
| StateDb.State.RevertContracts | ngstate/changeset.go:299-306 | the contract bucket reverts and the commitment follows |
| StateDb.State.RevertKeys | ngstate/changeset.go:307-316 | the key registry reverts and the commitment follows |
| StateDb.State.RevertBeacon | ngstate/changeset.go:266-283 | the seed reverts and the commitment follows |
| StateDb.State.UndoCommits | ngstate/commit.go:158-200 | commitments recorded at the height go, commitments consumed at it come back, and the commitment stays in step |
| StateDb.State.UnwindHeight | ngstate/changeset.go:288-325 | one height of all five buckets is undone and the commitment stays in step |
| StateDb.State.UnwindTo | ngstate/state.go:332-334 | the loop from tip to target undoes every height in between |
| StateRuns.UnwindIsUndo | ngstate/state.go:316-344 | after any blocks f+1..T and back: balances, slots, keys, beacon, changesets and indexes equal those at f, the code bucket is kept, and of the commitments exactly the survivors are left |
| StateRuns.ReorgReplays | blockchain/fork.go:383-406 | unwind and branch give the archived buckets that the branch makes of the content at the fork; if every commitment pending there survived, the same branches pass with their roots, and buckets and pending commitments agree |
| StateRuns.RunAgrees | ngstate/state.go:348-366 | two states with the same archived buckets and pending commitments accept the same blocks, roots included, and go on agreeing, whatever their journals and code buckets |
| StateRuns.VerdictsIff | blockchain/fork.go:383-406 | after the unwind the node accepts exactly the branches a node that stayed at the fork accepts, if and only if every commitment pending at the fork survives: still in the window of the old tip, or revealed by an unwound block whose journal row the old tip keeps |
| StateRuns.LostRecommits | ngstate/state.go:404-437 | otherwise the lost commitment, committed again in the next block, passes on one and is a pending duplicate on the other |
| CommitReplays.ExtendMatches | ngstate/commit.go:67-126 | over any number of reorgs: a block the node accepts is one a replay of its chain accepts, the pending commitments stay equal, and the journal holds the rows of the replay that no tip pruned |
| CommitReplays.RewindMatches | ngstate/commit.go:147-215 | a reorg keeps that if and only if every commitment pending at its target is revealed above by a block whose row no tip ever pruned, or not revealed and in the window of the tip |
| CommitReplays.KeptByTipLoses | ngstate/commit.go:206-215 | the tip at the time of a reorg is not enough: two reorgs that each keep every commitment by that measure lose one together, because a higher tip in between pruned its journal row |
| CommitReplays.FirstRewind | ngstate/commit.go:206-215 | for a first reorg this is the condition of a single unwind |
| StateRuns.ResolvesUnwound | ngstate/state_helper.go:156-178 | an unwind never loses the code of a slot that is live or kept for history |
| StateRuns.BlockResolves | ngstate/state_helper.go:72-125 | nor does a block |
| StateRuns.SwitchResolves | blockchain/fork.go:383-406 | nor does a switch of branches |
| NodeRuns.RunReplays | ngstate/state.go:195-366 | after every run of accepted blocks, refused blocks and reorgs the archived buckets, changesets and indexes are those the blocks of the chain make of the start content (the buckets only: neither the commitment store nor the roots of a replay are compared), nothing is recorded above the tip, the commitment store is in order and every slot, live or historical, finds its code |
| NodeRuns.RunRecalls | ngstate/changeset.go:76-107 | after every such run changesets and indexes of balances and slots stand for the snapshots of those blocks |
| NodeRuns.RevealsSpendOnce | ngstate/state_handle.go:67-96 | after every such run from the genesis each reveal of the chain spends its own sender's earlier commitment within the window, none twice |
| ReplayRuns.RunAgreesWithRebuild | ngstate/state.go:195-260 | after every run whose reorgs each kept every pending commitment, replaying the chain block by block with its roots passes and gives the buckets and pending commitments the node holds |
| ReplayRuns.FirstLossParts | ngstate/state.go:195-260 | and at the first reorg that does not, exactly then, the node and the replay differ |
| ReplayRuns.NodeOutrunsRebuild | ngstate/state.go:195-260 | a concrete run, whatever the roots are: a commitment at height 1, four quiet blocks, a reorg to height 3, the same commitment at height 4; the node accepts it and a replay of its chain refuses it |
| Contents.CheckedIsGrown | ngstate/state.go:348-366 | a run of blocks that passes with its roots is the run of the blocks |
| Contents.CheckedIff | ngstate/state.go:348-366 | a run passes exactly when every block applies and carries the root of what the blocks up to it leave |
| Contents.CheckedFails | ngstate/state.go:348-366 | a refused block fails every longer run |
| StateDb.State.StateRoot | ngstate/statetrie.go:114-116 | the root of the mirrored leaf map |
| StateDb.State.RebuildTrie | ngstate/statetrie.go:122-197 | rebuilding from the five buckets gives the same root as the incremental commitment unless written leaf paths collide |
| StateTrie.Trie.SetLeaf | ngstate/statetrie.go:64-72 | one leaf written or, for an empty value, deleted |
| StateTrie.SameRoot | ngstate/statetrie.go:122-197 | two tries that mirror the same live entries have the same root when no written keys collide |
| StateTrie.FaithfulLeaves | ngstate/statetrie.go:64-72 | unless written keys collide, the leaf map after any writes is the one the live entries alone determine |
| StateTrie.SameRootSameEntry | ngstate/statetrie.go:64-72 | equal roots over two tries mean equal entries under every key, or the two trees clash on its path, the two values collide, or a value hashes to zero |
| StateDb.RootIs | ngstate/statetrie.go:114-116 | unless written keys collide, the state root is a function of the five buckets |
| StateDb.SameRootSameState | ngstate/statetrie.go:114-116 | two states with the same root hold the same balances, keys, slots, beacon and pending commitments, unless written leaf keys collide or the hash function is broken at a leaf of theirs: the clash is named |
| LeafScope.WroteKeys | ngstate/changeset.go:76-107 | what a write leaves to undo concerns leaves named by the write or to be undone before |
| LeafScope.CommittedKeys | ngstate/state.go:404-437 | the same for a commitment and its fee |
| LeafScope.UndoneKeys | ngstate/changeset.go:288-325 | undoing a height leaves no new leaf to undo |
| Committed.InSyncFunctional | ngstate/statetrie.go:77-111 | the committed view is a function of the five buckets |
| Committed.BalanceRoundTrip | ngstate/statetrie.go:77-86 | the big-endian bytes of a balance leaf give the balance back, without a leading zero |
| Committed.InSyncInjective | ngstate/statetrie.go:77-111 | and the five buckets are a function of the committed view: one view, one set of balances, keys, slots, beacon and commitments |
| Committed.RootBinds | ngstate/statetrie.go:203-214 | so the root binds them: equal roots of two contents mean equal contents, or a named clash |
| Committed.InsertBalances | ngstate/statetrie.go:132-148 | every non-zero balance is inserted, nothing else |
| Committed.InsertKeys | ngstate/statetrie.go:150-161 | every registry entry is inserted |
| Committed.InsertContracts | ngstate/statetrie.go:163-174 | every slot is inserted |
| Committed.InsertCommits | ngstate/statetrie.go:176-185 | every pending commitment is inserted |
| Committed.InsertBeacon | ngstate/statetrie.go:187-195 | the seed is inserted when there is one |
| Committed.Rebuild | ngstate/statetrie.go:122-197 | after clearing, the trie mirrors exactly the five buckets |
| Committed.CommitKeyInjective | ngstate/commit.go:45-51 | height and hash of a commit key are recovered from its bytes |
| Beacon.Fold | ngstate/beacon.go:72-77 | the salts of the block concatenated in tx order |
| Beacon.FoldedAt | ngstate/beacon.go:72-77 | every salt stands in the fold at the sum of the lengths before it, and nothing else does |
| Beacon.SeedBinds | ngstate/beacon.go:78-87 | equal seeds come from equal previous seed, parent, salt string and height, or the two preimages collide, or the two salt strings do |
| Upgrade.HandleCommits | ngstate/state.go:404-437 | fails exactly when some commitment is a pending duplicate or cannot be paid in turn; otherwise the balances are those after all fees (`BlockEffects.FeesPaid`) and the store holds all commitments |
| Upgrade.HandleTxs | ngstate/state_handle.go:21-59 | fails exactly when some reveal finds no commitment; otherwise every write is recorded in its bucket in order, the code bucket follows and the reveals are consumed |
| BlockEffects.FeesPaid | ngstate/state.go:404-437 | the commitments of a block can be paid exactly when no address owes more in sum than its balance, and then every balance is the old one minus the fees of its own commitments; nothing else changes |
| BlockEffects.BlockBalances | ngstate/state.go:369-399 | after an accepted block every balance is the last one its txs set, or, where they set none, the old one minus the fees of its own commitments; every slot is the last one set or deleted; every registry entry the first one ever |
| BlockEffects.BlockAccepted | ngstate/state.go:369-399 | a block is accepted exactly when everybody affords their commitment fees in sum, none of its commitments is pending already and each of its reveals finds one in the window |
| BlockEffects.BlockRecords | ngstate/state.go:369-399 | what is pending after an accepted block, height by height, and the beacon seed: the hash over the seed before, the parent hash, the salts and the height, or the seed before |
| BlockEffects.BlockCounts | ngstate/state_helper.go:72-178 | every block keeps the reference counts of the code bucket equal to the number of slots with that code |
| BlockEffects.UnwindCountsIff | ngstate/changeset.go:299-306 | an unwind restores slots and not counts: they are exact afterwards if and only if every code has as many slots as before |
| Upgrade.PayAndCommit | ngstate/state.go:404-437 | the loop over the commitments passes exactly when all are taken and everybody affords their own in sum, and debits exactly that |
| Upgrade.ApplyBlock | ngstate/state.go:369-399 | commitments, txs, beacon, prune: accepted exactly when the block function is defined, and then buckets with history, code and commitments are its value (`BlockEffects.BlockAccepted`, `BlockBalances`, `BlockRecords`); state root in step |
| Upgrade.ApplyBlocks | ngstate/state.go:348-366 | a forward run of blocks, each followed by the root comparison: what passes is the blocks one after the other; it passes exactly when every block applies and carries the root of its outcome, for any set of leaf keys that holds those written, to be undone and named by the blocks and in which no two share a path |
| Upgrade.Unwind | ngstate/state.go:316-344 | the heights above the fork are undone in all buckets, state root in step |
| Upgrade.CheckRoot | ngstate/statetrie.go:199-210 | the comparison of the incremental root decides about the five buckets, for any set of leaf keys that holds those written and in which no two share a path |
| Upgrade.ApplyChecked | ngstate/state.go:355-362 | Upgrade and the root comparison: accepted exactly when the block applies and carries the root of its outcome, under that condition |
| Upgrade.UpgradeTxn | blockchain/pow_chain.go:39-64 | a block and its root comparison in their write transaction: applied, or refused without a trace; accepted exactly when it applies with its root, under the same condition on the keys |
| Upgrade.Switch | blockchain/fork.go:383-406 | unwind and branch in one write transaction: exactly what the branch, roots compared, makes of the unwound state, or nothing, under the same condition on the keys |
| NodeDriver.Drive | ngstate/state.go:316-399 | one state object driven by any list of blocks and reorgs holds the run of the specification, root comparisons included, for any set of leaf keys that holds those in play and in which no two share a path |
| NodeDriver.Reorg | blockchain/fork.go:383-406 | the reorg of a state object against a node that only saw the branch: same archived buckets, all code found, and, when every commitment pending at the fork survived and no leaf keys in play share a path, same verdict, roots included, and same pending commitments |
| NodeDriver.AgreeingRoots | ngstate/statetrie.go:114-116 | nodes that agree on archived buckets and pending commitments have the same state root unless written leaf paths collide |
| Contents.GrownLast | ngstate/state.go:348-366 | the value of a run is that of its blocks one after the other |
| SparseMerkle.EmptyTree | statetrie/statetrie.go:75-84 | every subtree of the empty map has the default hash of its height |
| SparseMerkle.BitsPack | statetrie/statetrie.go:176-178 | a path is its bits |
| SparseMerkle.BranchClimbs | statetrie/statetrie.go:274-294 | climbing a leaf along its true siblings gives the subtree hash at every height |
| SparseMerkle.ClimbEvidence | statetrie/statetrie.go:274-294 | a climb that reaches the true subtree hash starts at the true leaf, or this proof and this tree hash two different inputs to the same value at one of the climbed heights, or the leaf input hashes to zero |
| SparseMerkle.SameRootSameLeaf | statetrie/statetrie.go:224-254 | two leaf maps with the same root agree on every path, or their trees hash two different inputs of this path to one value, or a leaf input hashes to zero |
| NodeKeys.NodeKeyIsPosition | statetrie/statetrie.go:182-194 | the byte key of a node stands for depth and the first bits of the path |
| NodeKeys.SiblingKeyIsPosition | statetrie/statetrie.go:196-203 | flipping the last bit of the masked path gives the key of the sibling |
| NodeKeys.KeyOfInjective | statetrie/statetrie.go:182-194 | different tree positions have different byte keys |
| NodeKeys.MasksAreShifts | statetrie/statetrie.go:176-194 | bit masks and byte masks are the shifts of the source |
| TreeStore.UpdateRefines | statetrie/statetrie.go:224-247 | rewriting one branch turns a store of the leaf map into a store of the updated leaf map |
| TreeStore.RunRefines | statetrie/statetrie.go:224-247 | after any sequence of updates from empty every node read is the recursive tree hash of the live leaves |
| TreeStore.Canonical | statetrie/statetrie.go:205-222 | the store holds exactly the non-default nodes, so it is determined by the leaf map |
| TreeStore.OrderIndependent | statetrie/statetrie.go:224-247 | updates that end in the same leaves end in the same store, in any order |
| TreeStore.DeleteUndoesInsert | statetrie/statetrie.go:224-247 | deleting a leaf gives the store in which it was never inserted, whatever was written in between |
| NodeStore.Store.GetNode | statetrie/statetrie.go:205-213 | the byte-keyed read is the node of that position, default when absent |
| NodeStore.Store.SetNode | statetrie/statetrie.go:215-222 | the byte-keyed write stores non-default nodes and deletes default ones |
| NodeStore.Store.Update | statetrie/statetrie.go:224-247 | the loop over byte keys leaves a store that commits the updated leaf map |
| NodeStore.Store.Root | statetrie/statetrie.go:250-254 | the root of the recursive tree over the live leaves |
| NodeStore.Store.Prove | statetrie/statetrie.go:260-270 | the siblings of the path, bottom up |
| NodeStore.Verify | statetrie/statetrie.go:274-294 | accepts exactly well-sized proofs that climb to the root |
| NodeStore.ProvenVerifies | statetrie/statetrie.go:260-294 | what Prove returns always verifies with the value hash the map holds, zero when absent |
| NodeStore.AcceptedMeansLeaf | statetrie/statetrie.go:274-294 | an accepted proof means the map holds exactly that leaf, or none for the zero hash, unless this proof clashes with the tree at one of its 256 heights or the leaf input hashes to zero |
| NodeStore.CommitsFunctional | statetrie/statetrie.go:205-254 | the stored bytes are a function of the leaf map alone |
| LightClient.VerifyProof | lightclient/verify.go:34-75 | proves a value exactly when root, block, presence flag, value hash and branch all agree |
| LightClient.TrustedQuery | lightclient/verify.go:34-75 | a proven answer is the committed value of the path the response names, unless the hash function is broken on this response: its proof clashes with the tree, its leaf input hashes to zero, or the answer and the committed value collide; it is the asked key's when that path is its leaf path and, for a value no other path holds, only then |
| LightClient.OtherKeyPasses | lightclient/verify.go:34-75 | an honest proof of one key is accepted whichever key was asked for |
| BlockTree.AncestorLinked | ngblocks/branch.go:32-37 | canonical heights are linked by prev hashes |
| BlockTree.BetterTransitive | blockchain/pow_chain.go:129-130 | the order by work, then smaller hash, is transitive |
| BlockTree.BetterTotal | blockchain/pow_chain.go:129-130 | two different blocks are never tied |
| BlockTree.WorkIsSum | blockchain/fork.go:165-217 | the work of a block is the sum of the header difficulties of its ancestors above the origin, itself included |
| BlockStore.Txn.PutNewBlock | ngblocks/put.go:19-50 | accepted exactly on a free height above a stored parent; body, index, tags and txs are put, a stale side mark cleared |
| BlockStore.Txn.PutBlock | ngblocks/put.go:83-109 | body and height put, side mark cleared |
| BlockStore.Txn.PutTxs | ngblocks/put.go:52-81 | the txs of the block point to it, others are untouched |
| BlockStore.Txn.DelTxs | ngblocks/put_force.go:57-77 | the txs of the block are unindexed, others are untouched |
| BlockStore.Txn.PutSideBlock | ngblocks/work.go:51-66 | body and mark only |
| BlockStore.Txn.CumulativeWork | blockchain/fork.go:180-217 | terminates; the sum of difficulties down to the origin unless a body is missing before a memo; every memo it leaves is right |
| BlockStore.Txn.CollectBranch | blockchain/fork.go:225-259 | the ascending side branch that ends in the block and builds on a canonical block; the only failure is a missing body |
| BlockStore.Txn.SwitchToBranch | ngblocks/branch.go:26-91 | the three refusals, otherwise the exact new bodies, index, side marks, tx index and tags |
| BlockStore.Txn.PruneSideBlocks | ngblocks/work.go:97-136 | removes body, work and mark of exactly the marked, non-canonical blocks below the line |
| ChainState.CanonicalChain | ngblocks/branch.go:26-91 | each canonical height from origin to tip resolves to a stored body of that height linked to the one below; tags match |
| ChainState.PutNewSound | ngblocks/put.go:19-122 | PutNewBlock keeps the store well formed |
| ChainState.PutSideSound | ngblocks/work.go:51-66 | PutSideBlock keeps the store well formed, also for a block that is already canonical |
| ChainState.PruneSound | ngblocks/work.go:97-136 | pruning keeps the store well formed |
| ChainState.PruneMarked | ngblocks/work.go:111-117 | pruning never removes a canonical body |
| ChainState.PruneLeaves | ngblocks/work.go:97-136 | a prune leaves exactly the bodies at or above the line and those on the canonical chain, and nothing of the others |
| ChainState.SwitchSound | ngblocks/branch.go:26-91 | the branch switch keeps the store well formed: index, marks, memos and a tx index that covers exactly the canonical blocks above the origin |
| ForkChoice.FinalityHeight | blockchain/fork.go:142-148 | the last checkpoint strictly below the tip |
| ForkChoice.SideBlockPruneHeight | blockchain/fork.go:154-163 | never above the finality line and never within uncle depth of the tip |
| ForkChoice.PruneLineHighest | blockchain/fork.go:150-163 | it is the highest such line |
| ForkChoice.FinalityMonotone | blockchain/fork.go:142-148 | a tip above the old finality line cannot move the line back, even when the chain got shorter |
| ForkChoice.CanonicalGrounded | blockchain/fork.go:180-217 | the canonical chain can always be weighed |
| ForkChoice.CheckBranchBlock | blockchain/fork.go:346-361 | accepts exactly a block that passes header, link, target and uncle rules against its own parent; the target rules are later timestamp, retargeted difficulty and the work verdict |
| ForkChoice.CheckOnTip | blockchain/check_block.go:27-65 | accepts exactly a block that passes the fast-path rules; a direct child of the origin skips the target |
| ForkChoice.Extend | blockchain/pow_chain.go:40-92 | the fast path: when it succeeds, and the well-formed store it leaves |
| ForkChoice.Fork | blockchain/pow_chain.go:94-152 | the side path: accepted exactly when the checks pass and a better branch goes through the finality line; tip best, line kept, nothing above it lost |
| ForkChoice.FindBranch | blockchain/pow_chain.go:136-146 | finds the branch, and refuses exactly those that leave the canonical chain below the finality line |
| ForkChoice.SwitchTxn | blockchain/fork.go:366-443 | switch, replay verdict and reclaim: a well-formed store with the branch tip, unchanged below the fork |
| ForkChoice.PruneKept | blockchain/fork.go:150-163 | no accepted block at or above the finality line is ever pruned |
| ForkChoice.OffChain | blockchain/pow_chain.go:141-146 | what left the canonical chain at or below the finality line does not go through it |
| Chain.Chain.constructor | ngblocks/init.go:20-63 | the initial store is well formed, with the origin as tip |
| Chain.Chain.ApplyBlock | blockchain/pow_chain.go:21-166 | rejected means nothing changed; accepted blocks join the known set, all of them timed, on target and with related uncles; the tip is the best known block; finality holds; in runs of ApplyBlock alone a block is taken exactly when the rules say so |
| Chain.Chain.SwitchToBranch | blockchain/fork.go:447-516 | takes a branch exactly when every block passes, it is strictly better than the tip, attaches to the canonical chain and replays; its last block is then the tip and the best known block |
| Chain.CheckBranch | blockchain/fork.go:466-473 | accepts exactly when every branch block passes against its parent |
| Chain.Heavier | blockchain/fork.go:480-502 | compares the true works and breaks ties by hash; a branch on a canonical parent can always be weighed |
| Chain.ChainOfKnown | blockchain/pow_chain.go:123-134 | the accepted blocks alone decide tip, height index and tx index |
| ChainRuns.Replay | blockchain/pow_chain.go:21-166 | any list of ApplyBlock and SwitchToBranch calls on a fresh node: in every world on the way the store is well formed, the tip is the best known block, and known and canonical blocks are later than their parents, on target and with related uncles; known in the end are the first block and the accepted ones; with ApplyBlock alone nothing final moves between any two points and each block is taken exactly by the rule; no uncle recurs |
| ChainRuns.Converged | blockchain/pow_chain.go:39-152 | two nodes offered different calls in different orders agree on tip, height index and tx index as soon as they accepted the same blocks |
| ChainRuns.Make | blockchain/pow_chain.go:21-166 | a rejected call changes nothing; an accepted one adds its blocks; a single block never moves what is final; a branch is taken exactly when it converges |
| ChainRuns.AllTimed | blockchain/check_block.go:69-89 | in every reachable world each known block off the origin, each canonical block and each uncle has a later timestamp than its parent and exactly the difficulty the retarget gives |
| ChainRuns.TimesIncrease | blockchain/check_block.go:69-78 | canonical timestamps increase strictly with the height |
| ChainRuns.AllRelated | blockchain/fork.go:104-134 | in every reachable world each uncle of a known block is at most 30 below it, child of an ancestor and not an ancestor itself |
| ChainRuns.StepChecked | blockchain/check_block.go:27-65 | no block gets in whose own check, target check or, on the tip, tx and state check fails |
| FullNode.ForkIsShared | blockchain/fork.go:225-259 | up to the highest height at which they have a common ancestor two chains are one |
| FullNode.BranchIsShared | blockchain/fork.go:447-516 | a connected branch that attaches to the canonical chain shares it up to there, even if it starts with canonical blocks |
| FullNode.TipMoves | blockchain/pow_chain.go:39-152 | a tip only moves to where the call leads and only with the consent of the state |
| FullNode.MovedLeads | blockchain/fork.go:383-406 | the unwind to the fork and the branch, with their roots, are a piece of a node run |
| FullNode.StateIsCanonical | blockchain/pow_chain.go:39-152 | in every world of every list of calls, each decided by the verdict the state computes, the state went through exactly the blocks of the height index, its archived buckets are what they make of the start, it is reached by a node run, and it is what a replay of the canonical chain computes unless a reorg of that run lost a commitment |
| FullNode.Operate | blockchain/pow_chain.go:21-166 | the calls on a fresh chain object, with the state in the end |
| Chain.NoUncleTwice | blockchain/fork.go:79-137 | no uncle is referenced twice along any chain of accepted blocks, at any distance |
| Uncles.ValidateUncles | blockchain/fork.go:79-137 | accepts exactly blocks without uncles and blocks whose whole window is stored and whose uncles satisfy every rule on their own ancestor chain |
| Uncles.WalkAncestors | blockchain/fork.go:86-102 | gathers the ancestors down to the low end and all they refer to, or finds a missing body |
| Uncles.CheckUncles | blockchain/fork.go:104-134 | the loop over the uncles accepts exactly when each satisfies the rules |
| Uncles.NeverTwice | blockchain/fork.go:84-124 | what an ancestor referenced is out of reach of a validated descendant |
| Uncles.NotTwiceInOne | blockchain/fork.go:121-124 | nor does one block reference an uncle twice |
| Uncles.CollectUncles | blockchain/fork.go:266-341 | eligible side blocks, at most two, none missed when there is room; an error exactly when the dedup window reaches below the origin |
| Uncles.CollectedPass | blockchain/fork.go:266-341 | the collected set passes validateUncles for a block on the tip if and only if the ancestor window does not reach below the origin |
| UnclesGap.GapRooted | blockchain/fork.go:92-96 | a concrete well-formed store on a checkpoint origin |
| UnclesGap.GapIndexed | blockchain/fork.go:92-96 | its index and marks are in order |
| UnclesGap.GapCollected | blockchain/fork.go:310-332 | the set CollectUncles finds in it |
| UnclesGap.GapRefused | blockchain/fork.go:92-96 | the next block carrying that set is refused |
| Generates.CheckBlockGenerates | ngstate/state_check.go:85-139 | accepts exactly one valid miner reward to the coinbase plus uncle rewards that match the uncles as a multiset |
| Generates.CountDown | ngstate/state_check.go:118-136 | the count-down over the expected claims accepts exactly equal multisets |
| Generates.BalancedMints | ngstate/state_check.go:78-84 | an accepted set mints the block reward and the uncle rewards |
| Generates.BalancedPays | ngstate/state_check.go:78-139 | and pays them to whom they belong: to any address the block reward if it is the coinbase, and the rewards of the uncles it mined |
| Ledger.State.Charge | ngstate/state_handle.go:161-185 | refused exactly when the balance is short; what is taken is burned |
| Ledger.State.Credit | ngstate/state_handle.go:149-154 | a mint grows the supply by its value |
| Ledger.State.HandleTransaction | ngstate/state_handle.go:187-202 | accepted exactly when value and fee are covered; then value to the recipient, fee burned and the recipient's run applied; the escrow keeps its slack and stays solvent |
| Ledger.State.HandleCommits | ngstate/state.go:404-437 | accepted exactly when every committer passes and can pay in turn; each pays its own fee, which leaves the supply |
| Ledger.State.HandleDeploy | ngstate/state_handle.go:215-313 | when a deploy, upgrade or destroy is valid, and exactly the book it leaves; the fee is burned and the dependency ledger stays exact |
| Ledger.State.Destroy | ngstate/state_handle.go:237-263 | valid exactly for a live contract nobody lists; removed exactly when its hook agrees, with the deposit of the slot loaded before the hook paid back, capped by the escrow; a refusal changes nothing |
| Ledger.State.Swap | ngstate/state_handle.go:277-306 | the slot stored is the one loaded before the hook with new code and dependencies; references released and pinned with overlap; a refusing hook changes nothing |
| Ledger.State.Replace | ngstate/state_handle.go:277-312 | then the init hook; the escrow has at least the slack of the stored book, and is solvent if that is |
| Ledger.State.ValidateDeps | ngstate/state_handle.go:317-337 | accepts exactly live dependencies other than the deployer |
| Ledger.State.PinDeps | ngstate/state_handle.go:341-355 | every named count goes up by one |
| Ledger.State.ReleaseDeps | ngstate/state_handle.go:359-378 | every named count goes down by one |
| Ledger.State.RefundAll | ngstate/rent.go:150-171 | the locked total, capped by the escrow, moves to the owner; the supply is unchanged |
| Ledger.State.RunValidate | ngstate/state_handle.go:111-133 | vetoes exactly when the live policy traps, and leaves exactly the book of its run; keeps supply, slots, slack and solvency |
| Ledger.State.HandleGenerate | ngstate/state_handle.go:135-158 | refused exactly when a signature is there and does not verify; otherwise credits its recipient alone |
| Ledger.State.HandleTx | ngstate/state_handle.go:21-59 | accepted exactly when the tx function is defined, and then the book is its value (`LedgerEffects.TransactStages`, `LedgerEffects.DeployStages`); a generate credits its recipient, any other tx burns its fee; all but deploys keep slack and solvency of the escrow |
| Ledger.State.HandleTxs | ngstate/state_handle.go:21-59 | accepted exactly when every tx is in the book it finds, and then the book is the one after all of them; fees leave the supply, generates enter it; without deploys the escrow keeps slack and solvency |
| Ledger.State.ApplyBlock | ngstate/state.go:369-399 | accepted exactly when rewards, commitments and txs are, and then the book is the one after them; the supply changes by exactly block reward plus uncle rewards minus all tx and commit fees; a block without deploys keeps slack and solvency of the escrow |
| LedgerEffects.PlainTransact | ngstate/state_handle.go:187-202 | without contracts on either side: accepted exactly when value and fee are covered; then the sender is down by both, the recipient up by the value, and nothing else changed |
| LedgerEffects.TransactStages | ngstate/state_handle.go:21-59 | any payment: accepted exactly when its checks pass, no call of the sender's policy traps and what the policy left covers value and fee; then value and fee move and the recipient's run is that of its calls |
| LedgerEffects.Vetoed | ngstate/state_handle.go:111-133 | a policy that traps refuses the tx |
| LedgerEffects.TxFailsBlock | ngstate/state_handle.go:21-59 | a tx refused in the book it finds fails the whole block |
| LedgerEffects.DeployAccepted | ngstate/state_handle.go:215-313 | without a policy: accepted exactly when its checks pass, the fee is covered, and it destroys a live contract nobody lists or brings code that imports only other live contracts |
| LedgerEffects.DeployStages | ngstate/state_handle.go:215-313 | what a deploy leaves, in stages: the policy, the fee, the hook of a live contract, which may refuse; then the slot is gone with its deposit back, or the new source is live in it with the new dependencies and the counts of old and new ones follow, and the init hook runs |
| LedgerEffects.CommitsBilled | ngstate/state.go:404-437 | commitments pass exactly when everybody affords their own fees in sum, and take exactly that |
| LedgerEffects.PlainBlock | ngstate/state.go:369-399 | after a block of rewards and payments between addresses without contracts everybody has what they had, plus what they were paid, the block reward for the coinbase and the uncle rewards for the miners of the uncles, minus their payments, fees and commitment fees |
| Ledger.Resolve | ngstate/deps.go:116-130 | the imported addresses, each once, in order of first occurrence |
| Deposits.UpgradeSlack | ngstate/state_handle.go:277-306 | an upgrade leaves the slack after the hook plus what the hook left locked minus what was locked before it |
| Deposits.UpgradeSolventIff | ngstate/state_handle.go:277-306 | an upgrade keeps every bond exact, and the escrow solvent if and only if the bytes by which the hook shrank the stored slot, at the deposit per byte, fit the slack it left |
| Deposits.DeploySolvent | ngstate/state_handle.go:287-306 | a deploy onto an empty slot keeps the slack and solvency |
| Deposits.DestroySlack | ngstate/state_handle.go:247-263 | a destroy pays out the total locked before the hook, capped by the escrow |
| Deposits.DestroySolventIff | ngstate/state_handle.go:247-263 | a destroy keeps the remaining bonds exact, and the escrow solvent if and only if the bytes by which the hook shrank the stored slot fit the slack in that sense, or no other contract has a deposit |
| Deposits.UpgradeDrains | ngstate/state_handle.go:277-306 | a concrete solvent book in which an upgrade whose hook deletes an entry leaves the escrow short by the whole deposit |
| DepLedger.ReplaceExact | ngstate/state_handle.go:285-306 | after deploy or upgrade every count is again the number of listers and every listed contract is live |
| DepLedger.RemoveExact | ngstate/state_handle.go:244-263 | after a destroy as well |
| DepLedger.RunKeepsExact | ngstate/imports_kv.go:12-19 | and after an arbitrary contract run |
| DepGraph.AcyclicIff | ngstate/deps.go:23-27 | changing one slot keeps an acyclic dependency graph acyclic if and only if none of its new dependencies reaches it without its own edges |
| DepGraph.SwapAcyclicIff | ngstate/state_handle.go:277-306 | the same of a whole deploy or upgrade, hook included, said of the book before it |
| DepGraph.DeployAcyclic | ngstate/state_handle.go:287-306 | a deploy onto an empty slot, or an upgrade of a contract nobody lists, always keeps it acyclic |
| DepGraph.RemoveAcyclic | ngstate/state_handle.go:244-263 | so does a destroy |
| DepGraph.RunAcyclic | ngstate/imports_kv.go:12-19 | and a contract run |
| DepGraph.UpgradeCloses | ngstate/deps.go:23-27 | a concrete upgrade whose hook makes no calls meets every rule, keeps the counts exact and makes two contracts depend on each other |
| VmJournal.Vm.TransferFrom | ngstate/journal.go:75-89 | refused exactly when the payer is short; otherwise the two balances move, also between an address and itself |
| VmJournal.Vm.BalanceOf | ngstate/journal.go:66-72 | reads through the overlay |
| VmJournal.Vm.ContractOf | ngstate/journal.go:38-53 | loads a slot on first touch |
| VmJournal.Vm.Flush | ngstate/journal.go:93-107 | the state becomes what the run saw |
| VmJournal.Vm.LockDeposit | ngstate/rent.go:76-92 | balance to escrow and onto the running total, refused when short |
| VmJournal.Vm.RefundDeposit | ngstate/rent.go:107-139 | escrow to balance and off the running total, bounded by amount, total and escrow |
| VmJournal.Vm.Set | ngstate/imports_kv.go:85-137 | a reserved key or an unaffordable deposit traps; otherwise the value and the exact deposit delta |
| VmJournal.Vm.Del | ngstate/imports_kv.go:227-257 | a reserved key traps; otherwise the entry goes and its deposit comes back |
| VmJournal.FullRefund | ngstate/rent.go:107-130 | for an exactly bonded contract under a solvent escrow neither cap binds |
| VmJournal.WrittenKeeps | ngstate/imports_kv.go:111-134 | a write keeps supply, slots and escrow slack, and every bond exact |
| VmJournal.DeletedBonded | ngstate/imports_kv.go:242-254 | a delete keeps every bond exact |
| VmJournal.LockedKeeps | ngstate/rent.go:76-92 | a lock changes neither supply nor slack |
| VmJournal.RefundedKeeps | ngstate/rent.go:107-139 | a refund changes neither supply nor slack |
| VmJournal.Vm.Step | ngstate/service.go:223-253 | a host call over the overlay does what it would do on the book itself (`VmFlows.StepFlows`), and traps exactly when that does; a call to an address without a live contract just returns, re-entry and too deep a chain trap |
| VmJournal.StepKeeps | ngstate/rent.go:12-21 | every host call keeps supply, slots and escrow slack, and under the fork every bond exact |
| VmJournal.RunKeeps | ngstate/rent.go:12-21 | so does any interleaving of transfers, storage writes and nested calls: the escrow cap never binds for a contract that started exactly bonded |
| VmJournal.RunContract | ngstate/state_handle.go:386-450 | overlay and flush refine the run on the book itself (`VmFlows.Execute` says what that amounts to); a run that traps or has no live contract changes nothing; supply and slots unchanged, slack never smaller, bonds exact if they started so |
| VmFlows.StepFlows | ngstate/journal.go:75-89 | one host call: a covered transfer takes the amount from the innermost frame and brings it to the recipient, a write or delete costs the innermost frame the deposit of the bytes its own storage grew by, and no other balance or storage changes |
| VmFlows.VerdictsShift | ngstate/imports_coin.go:82-124 | a transfer inside a run is covered exactly by what the calls before it left its payer, the innermost frame |
| VmFlows.RunLeaves | ngstate/state_handle.go:386-450 | read off the list of calls: everybody ends with what they had, plus the covered transfers to them, minus the covered transfers they made as the innermost frame, minus the deposit for the growth of their storage; each storage is what the writes made of it; the slack grows by what was paid to the escrow |
| VmFlows.CompletesIff | ngstate/state_handle.go:386-450 | a run goes through exactly when no call it gets to traps: no reserved key, no deposit beyond the balance, no re-entry, no chain too deep |
| VmFlows.Execute | ngstate/state_handle.go:386-450 | both of runContract itself; nothing changes when it does not go through |
| VmFlows.OneTransfer | ngstate/journal.go:75-89 | a run of one transfer: the contract pays the recipient if it can, and nobody else has a different balance or storage |
| Context.NamesReserved | ngstate/imports_kv.go:12-19 | the protocol's own keys are reserved and differ |
| Context.AddressUsable | ngstate/imports_kv.go:12-19 | an address is never reserved |
| Context.SetsOwn | ngstate/imports_kv.go:85-137 | kv.set on the stored context, where the protocol's entries lie in the same map, is the write to the contract's own entries |
| Context.DeletesOwn | ngstate/imports_kv.go:227-257 | kv.del likewise |
| Context.SetsDeps | ngstate/deps.go:155-173 | setContractDeps on the stored context is the write to the dependency list alone |
| Context.SetsRefs | ngstate/deps.go:185-194 | setRefCount is the write to the count alone |
| Context.SetsRent | ngstate/rent.go:53-62 | setLockedDeposit is the write to the locked total alone |
| Context.OwnPart | ngstate/imports_kv.go:12-19 | the entries under keys that are not reserved are exactly the contract's own, those the deposit is owed for |
| Context.RawInjective | ngtypes/contract.go:30-56 | the stored context determines flag, dependencies, count, locked total and own entries |
| Context.RunSparesReserved | ngstate/imports_kv.go:12-19 | whatever keys a run names, under a reserved key only the locked total can differ, in any contract |
| Context.BlockUnreserved | ngstate/imports_kv.go:12-19 | no block puts an entry of a contract under a reserved key |
| FeeMarket.NextBaseFee | ngtypes/feemarket.go:45-96 | never below the floor |
| FeeMarket.BaseFeeBounds | ngtypes/feemarket.go:64-86 | for any legal block size the fee moves by at most an eighth of the parent, up above target, down below it |
| FeeMarket.FeeMoves | ngtypes/feemarket.go:64-86 | a full block raises the fee by exactly an eighth, an empty one lowers it by as much down to the floor, one on target keeps it, and any other moves it by the rounded share of an eighth, at least one upwards |
| FeeMarket.MonotoneInUse | ngtypes/feemarket.go:64-86 | monotone in the used bytes |
| FeeMarket.MonotoneInParent | ngtypes/feemarket.go:64-86 | monotone in the parent fee |
| FeeMarket.FeeRun | ngtypes/feemarket.go:45-96 | over n blocks between (7/8)^n and (9/8)^n of the start, and above the floor |
| FeeMarket.BlockUsedBytes | ngtypes/feemarket.go:102-117 | the encoded lengths of the non-generate txs, at most those of all txs |
| Difficulty.FactorExactIff | ngtypes/difficulty.go:64-81 | the int64 factor is the intended one if and only if target minus the time difference fits in an int64 |
| Difficulty.RetargetBounds | ngtypes/difficulty.go:64-84 | before bump and floor within -99/2048 and +1/2048 of the parent for all 64-bit times, unchanged on target |
| Difficulty.RetargetExact | ngtypes/difficulty.go:64-84 | the step is the parent times the factor over 2048 * 4000, rounded toward zero |
| Difficulty.BumpDoubles | ngtypes/difficulty.go:86-94 | nothing below height 200000, one up to 300000, and twice as much every 100000 blocks |
| Difficulty.Antitone | ngtypes/difficulty.go:46-104 | while nothing wraps, a later block time never raises the difficulty, through bump and floor |
| Difficulty.LateRaises | ngtypes/difficulty.go:64-81 | on a parent of the genesis time, a block stamped more than 2^63 later gets a higher difficulty than one stamped a minute later; an uncle time reaches the retarget with a lower bound only |
| Difficulty.GetNextDiff | ngtypes/difficulty.go:46-104 | panics exactly for a parent before the genesis time; otherwise never below the minimum |
| Rewards.GetBlockReward | ngtypes/reward_curve.go:28-47 | the loop computes the era recurrence |
| Rewards.RewardCurve | ngtypes/reward_curve.go:26-47 | within [2, 10] NG and never growing |
| Rewards.DocumentedCurve | ngtypes/reward_curve.go:26-47 | integer rounding stays within nine units above 8 NG * 0.9^era |
| Rewards.RewardOnCurve | ngtypes/reward_curve.go:26-47 | the reward at a height is 2 NG plus 8 NG * 0.9^era for the era of the height, within nine units above |
| Rewards.UncleRewardDecays | ngtypes/reward_curve.go:49-70 | positive exactly within the uncle depth, below the block reward, and shrinking with distance |
| Rewards.UncleShare | ngtypes/reward_curve.go:55-70 | the reward at the height of the uncle times (31 - distance) over 31, rounded down |

## Left out

- Snapshot sheets, `ReconstructAt` and `ApplySnapshot`: the state is trusted there, not derived, and they do not weigh work.
- The cursor probe `changesetCovers`: a run refuses to unwind below the height its history starts at.
- The remote fallback of the state buckets: the hook is taken to be nil.
- Signature schemes, key recovery, proof of work, BLAKE3 and RLP: functions or verdicts passed in.
- The wasm engine, linking and gas: a run is any finite sequence of host calls that completes or traps.
- Receipts, logs, traces, subscriptions, the address index and the tx pool: bookkeeping with only easy properties.
- Mutexes and goroutines: the steps are already serialized by the chain lock and the write transaction.
- Peer-to-peer synchronisation, JSON-RPC, wallet and command line.
- The dynamic fee floor of a single tx (`checkTxBaseFee`): one comparison.
- Ledger.State.ApplyBlock: works on plain buckets; the recording of pre-images, the mirroring of leaves and the commitments are modelled in `StateDb` and `Upgrade`.
- Upgrade.ApplyBlock: takes the writes that handling the txs makes as an input sequence; what they amount to is the subject of `Ledger`.
- Upgrade.ApplyBlocks: leaves out `CheckBlockTxs`, which ApplyBlocksTxn and the rebuild call before each block; the blocks are taken to pass it.
- FullNode.StateIsCanonical: takes what a block does to the state as given by its hash; that these are the writes `Ledger` makes is not stated.
- NodeRuns.RevealsSpendOnce: speaks of runs from the genesis; a node started from a sheet has commitments whose recording blocks it does not hold.
- Ledger.State.HandleDeploy: does not model the source-size cap and the immutability check, which only refuse more.
- Context.SetsRefs: takes the encodings of the protocol's entries as parameters; the wrap of the 8-byte count at 2^64 references is not modelled.
- Chain.CheckBranch: resolves ancestors in the store and the branch below the block, where the original looks in the whole branch; a later branch block is nobody's ancestor.
- Uncles.SelectUncles: picks candidates by least height, any order among equal heights, which is all the original's sort fixes.
- StateDb.State.UnwindTo: the caller passes the tip height, and clearing receipts is left out.
