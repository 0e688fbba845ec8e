# DNAS core: a Dafny model and its proofs

DNAS is an account-based proof-of-work chain.  This project models the logic of its `core` package
in Dafny and proves what that logic is for: commitments that cannot drift from the ledger, a ledger
that never gains or loses a coin, a node that is always where a fresh replay would put it, a block
template that the ledger always accepts, a pool without gaps, light-client proofs that cannot lie
without exhibiting a hash collision.

`dafny verify dfyconfig.toml` checks everything.

## How the model is laid out

| part | files | main results |
|---|---|---|
| state trie and committer | `Bytes`, `Seqs`, `ByteOrder`, `TrieSpec`, `TrieLaws`, `TrieProofs`, `NodeStores`, `TrieStore`, `StateCommit`, `StateVisited`, `StateChanged`, `LedgerCommit` | insert, split, delete and collapse keep the canonical trie of a finite map; updating only the touched keys over a cache that may forget anything gives the root of a full rebuild; membership and absence proofs are complete and sound |
| history accumulator | `Levels`, `Mmr`, `Ancestry`, `AncestryLaws`, `AncestrySound` | the merged peaks are the perfect subtrees of the leaf count; ancestry proofs are complete and sound |
| ledger | `Transactions`, `Ledger`, `LedgerSums`, `LedgerLaws`, `AssetLaws`, `Supply`, `BlockLedger`, `LedgerStore`, `LedgerApply`, `NameRecords`, `Leases`, `NameCoins`, `NameCoinWitness`, `Conservation`, `BlockApply`, `LedgerEffects`, `BlockFees` | in-place application refines the rules and rolls back exactly; exactly when a transaction is applied and what it does to every account; coins, assets and maturity are kept; the conservation rule compares whole ledgers; a name stays with its owner until the owner acts or the lease runs out |
| chain and node | `Chain`, `Nonces`, `AccountHistory`, `ForkChoice`, `ChainChoice`, `Indexes`, `IndexStore`, `IndexLaws`, `ChainDerived`, `ChainStore`, `Blockchain`, `NodeRuns`, `Convergence`, `BlockLog`, `LogWitness`, `StoreRecords`, `StoreBlocks`, `StoreRoots`, `Merkle` | after any run of calls, with every state root committed incrementally over one cache that may forget anything, the ledger is a replay and every derived structure is its from-scratch form; no transaction is applied twice, every balance is what its history says, and no reward is spent early; nodes that hear of the same chains end on the same one, the heavier or at equal work the one with the smaller tip hash; the log survives torn writes, and exactly which blocks survive the log |
| block building | `Selection`, `SelectionSteps`, `Greedy`, `BlockSelect`, `SelectionApplies`, `SelectionOrder`, `BlockTemplate`, `PoolSelect` | the best-paying of what is open goes first; whatever is selected, with the matching coinbase, is a block the ledger applies; the choice depends on the pool alone |
| pool | `PoolIndexes`, `Mempool`, `Admission`, `PoolAdd`, `PoolTrim`, `PoolReconcile`, `PoolSettle`, `PoolMines`, `PoolLaws`, `PoolWitness`, `RescueWitness`, `Graphs`, `Packages`, `PackageClimb`, `PackageLimits`, `PackageRates`, `PackageWitness` | indexes stay exact and nonce runs gap-free through admission, replacement, eviction and clean-up; exactly who has to go for a newcomer and exactly what a clean-up keeps; what it keeps can be mined; the bounded walks through what depends on what decide the package limits as whole walks would |
| filters | `BitStreams`, `Golomb`, `BlockFilters`, `FilterLaws` | no false negatives, through the bit-level Golomb-Rice round trip; what a filter leaves out, measured by the ledger |
| scripts | `Script`, `ScriptMeaning`, `ScriptVm`, `ScriptBuild`, `ScriptPredicates`, `ScriptMultisig`, `ScriptLaws`, `ScriptWitness` | flat branch skipping is structured execution; what every operation does, byte by byte, and which cancel; exactly which witnesses spend an HTLC, a vault and a multisig |
| encodings and arithmetic | `Codec`, `CodecBuffer`, `Target`, `Retarget`, `RetargetLaws`, `RetargetedChains`, `VersionBits`, `VersionBitsLaws` | signing bytes decode uniquely; retargeting stays in bounds and answers the clock; activation heights never change their mind |

Conventions that run through all of it:

- A hash function is a parameter, never assumed injective.  Results that need collision resistance
  end in "or these two preimages collide", or list the preimages that must not: for a state commitment
  those of the trees it passes through, a number bounded by the ledgers' sizes (`VisitedBounded`), and
  for a run of a node's calls those of every block it checks (`RunWatched`).
- 64-bit arithmetic wraps explicitly (`% U64_LIMIT`); sums that the claims are about are unbounded.
- Code that changes fields is a class or a method on one; each such method is proved against a
  function, and the lemmas are about that function.
- Signatures, address derivations, transaction sizes and ids, and block-shape checks are function
  values, so the results hold for every choice of them.

## What the code does that its comments do not say

- A script's height item is clamped to 2^31 (`core/script.go:588-600`), so an HTLC or vault whose
  timeout is above 2^31 becomes refundable at 2^31, not at its timeout.  `HtlcSpends` and
  `VaultSpends` state the clamped height; `RefundedEarly` is an instance.
- A multisig script costs threshold times keys signature checks and at most 20 are allowed
  (`core/script.go:503-562`): a 3-of-7 script can be assembled and funded, and never spent
  (`ThreeOfSevenIsLost`).  `MultisigSpends` has the exact condition.
- `CumulativeSubsidy` never returns for the last 64-bit height: its loop bound wraps to zero, and from
  the second round on nothing moves (`NeverEnds`).
- A coinbase may pay the reserved key of a name.  A later operation on that name then overwrites the
  coin, and the block carrying it fails the conservation rule although every transaction in it is
  valid (`FourthRejected`).  `CoinRuleBefore` shows that this is the only way the coin rule can fail,
  by a condition on the ledger before the block.
- The store's records carry no name operation, no script authorization and no issue metadata, although
  the consensus encoding does: a block with one of those comes back from disk without it
  (`SurvivesExactly` is the exact condition), and no longer matches its own merkle root unless hashes
  collide (`RootAfterStore`).
- A merkle root does not fix the number of its leaves: an odd list and the one with its last leaf once
  more have the same root (`DoubledLast`).  Among lists of one length it binds them all (`RootBinds`).
- A failed append leaves its bytes behind the log.  A later, shorter append does not clear them all,
  and recovery gives back the log's own blocks exactly when what is left does not read as a record
  (`RecoversExactly`); `StaleBytesRevived` builds a case where it does out of any two blocks of an
  ordinary form, with a memo the rules allow.
- Admission lends a sender the coin the pool is already paying it; the clean-up after each block does
  not, so it drops such a transaction again until its parent confirms (`LentThenDropped`).  `Affords`
  and `SenderFits` state the two different bounds.
- Admission's running total can overflow, although a comment says it cannot
  (`core/mempool.go:279-281`): the newcomer's own cost is not compared with the funds before the first
  queued cost is added to it.  A payment of nearly 2^64 gets in
  behind a small one, and the clean-up, which counts in 64 bits too, leaves it there (`VastStays`).
  `StepsFitExactly` has the exact condition: of a sender that could pay for its queue, a newcomer is let
  in exactly if the sender can pay for it as well or the running total leaps past 64 bits in one step.
- A transaction that cannot be mined yet does outrank one that can, although a comment says it cannot
  (`core/mempool.go:487-491`): a rescue takes the slot of a parked payment whatever it pays, but the
  parked payment, sent again, takes it back by its higher fee (`RescueUndone`).  Two transactions can go
  on taking one slot from each other exactly when one is fit for the next block and the other, which is
  not, pays more (`TakenBack`).
- The walk up from a newcomer counts the cost of a sender's earlier transactions only the first time it
  meets them (`core/package.go:180-192`), so it can miss what the newcomer relies on (`ClimbMisses`).
  It never counts too much (`RefusedRightly`), and where no sender's total passes what it has confirmed
  without one transaction doing so alone, its verdict is the right one (`PlainDecides`).
- A block's filter codes senders and recipients and no fee sponsors (`core/cfilter.go:69-93`), although
  the address index does (`core/addrindex.go:36-50`) and a non-match is said to prove that a block does
  not concern an address (`core/cfilter.go:12-20`).  An address that is not coded keeps its nonce, and its
  balance falls by exactly the fees it sponsored (`UncodedKeeps`, `SponsorUncoded`).
- `Add` may evict several transactions and then refuse the newcomer all the same (`EvictsThenRefuses`).
  That happens only to a newcomer that nothing but the lack of room keeps out, only in a full pool, and
  only if a cheapest run end has to give way to it; and it does happen whenever every cheapest run end
  has to (`Add`, `MovedExactly`).  The two conditions differ only where the newcomer's own predecessor
  ties with another sender's last transaction, when the order of a map's iteration decides.

## Model

| member | source | states |
|---|---|---|
| `TrieLaws.InsertCanon` | core/trie.go:293-360 | inserting into the canonical trie of a map, at any depth and through any chain of splits, gives the canonical trie of the updated map |
| `TrieLaws.DeleteCanon` | core/trie.go:366-419 | deleting, with collapse of lone leaves, gives the canonical trie of the map without the key |
| `TrieLaws.LookupCanon` | core/trie.go:250-273 | descending the canonical trie finds exactly the map's entry, or that there is none |
| `TrieStore.Trie.Insert` | core/trie.go:293-325 | over any honest store, a result is the root of the inserted tree; a store that kept the tree never fails and keeps the new one |
| `TrieStore.Trie.Split` | core/trie.go:329-360 | two diverging leaves end under their longest common prefix |
| `TrieStore.Trie.Delete` | core/trie.go:366-392 | as Insert, for deletion |
| `TrieStore.Trie.Collapse` | core/trie.go:396-419 | two children become the canonical node over them: nothing, a lifted leaf, or an inner node |
| `TrieStore.Trie.Update` | core/trie.go:276-289 | the root moves to the updated tree's, or stays where it was on a missing node |
| `TrieStore.Trie.Get` | core/trie.go:250-273 | what is returned is the tree's entry for the key |
| `TrieStore.Trie.Prove` | core/trie.go:456-489 | the proof built is accepted against the root, for a present and for an absent key |
| `TrieStore.UpdateRefinesMap` | core/trie.go:250-289 | one update of the trie is one update of the map, and lookups agree |
| `TrieStore.RunRefinesMap` | core/trie.go:276-419 | any run of updates and deletes on the trie is that run on the map |
| `TrieStore.RootIsCanonical` | core/trie.go:276-419 | any two runs that end in the same map give the same root |
| `TrieProofs.VerifyTrieProof` | core/trie.go:496-555 | the verifier's loop accepts exactly the shaped proofs whose fold is the root |
| `TrieProofs.SharesPrefix` | core/trie.go:560-567 | compares exactly the first n bits |
| `TrieProofs.ProofReflectsTree` | core/trie.go:496-555 | an accepted proof of at most 256 siblings says what a lookup in the tree says, or a preimage of the tree and one of the proof collide |
| `TrieProofs.ProofSound` | core/trie.go:496-555 | against the root of a map, an accepted proof shows the entry or its absence, or a collision is exhibited |
| `NodeStores.BoundedStore.PutNode` | core/statetrie.go:251-267 | the least recently used nodes go, the new one stays, no node ever changes its content |
| `NodeStores.BoundedStore.GetNode` | core/statetrie.go:240-249 | returns exactly what is retained and marks it as just used |
| `StateCommit.TouchedAddrs` | core/statetrie.go:145-157 | the sorted list of the distinct addresses a log names |
| `StateCommit.UpdatesCommit` | core/statetrie.go:51-62 | every prefix of the updates commits the ledger with just those accounts moved |
| `StateCommit.StateRootInto` | core/state.go:74-132 | the rebuild in address order gives the ledger's root whatever the cache forgets meanwhile |
| `StateCommit.StateCommitter.RootAfter` | core/statetrie.go:51-78 | for every log naming all changed accounts, and every honest cache that may forget any node before any operation, the root is that of a rebuild and the cursor stands there, on the fast path and on the fallback; the preimages that must not collide are those of the trees passed, listed by `Visited`, and the cache's |
| `StateCommit.CommitSuffix` | core/statetrie.go:51-101 | so every root of an arbitrarily long suffix is that of a rebuild |
| `NodeStores.LossyStore.GetNode` | core/statetrie.go:30-37 | a store that forgets by an arbitrary function of time and address returns a node or nothing, never a wrong one |
| `StateVisited.VisitedBounded` | core/statetrie.go:51-78 | what one commitment can hash is polynomially bounded in the two ledgers and the log |
| `StateVisited.BudgetIs` | core/statetrie.go:51-78 | the bound in closed form: the number of trees times 513 nodes per account |
| `StateVisited.TreeBounded` | core/trie.go:293-360 | a canonical trie has at most 513 nodes per key |
| `StateChanged.VisitedChanged` | core/statetrie.go:145-157 | a log that names more accounts than changed leads through the same trees, so what a commitment can hash depends on the two ledgers alone |
| `ByteOrder.AscendingUnique` | core/state.go:119-132 | a set of addresses has one sorted list, so the order of a build is determined |
| `LedgerCommit.LogNamesChanges` | core/blockchain.go:1486-1495 | a block's undo log names every account on which the ledgers before and after differ |
| `LedgerCommit.CommitBlock` | core/statetrie.go:96-101 | committing a block through its own undo log gives the rebuild's root |
| `LedgerCommit.StoredRoot` | core/blockchain.go:914-931 | every block of a valid chain stores the root of the ledger it leaves, genesis that of the empty one |
| `LedgerCommit.CommitterAt` | core/statetrie.go:169-174 | naming a block's stored root positions a committer there, over a cache shared with other forks |
| `LedgerCommit.RootMatches` | core/blockchain.go:924-929 | the state-root check through the undo log has the rulebook's verdict and leaves the cache fit for the next |
| `LedgerCommit.LogPathCovered` | core/statetrie.go:51-78 | whatever else its log names, the check of a block's root hashes nothing outside the trees between the ledger before it and the ledger after it |
| `Levels.FoldLevel` | core/mmr.go:228-241 | folding level by level computes the perfect subtree's root |
| `Levels.PathToRoot` | core/mmr.go:245-262 | the siblings and sides collected are the leaf's path, and the root is the subtree's |
| `Mmr.AppendSettles` | core/mmr.go:81-95 | merging equal heights after an append, a binary increment, gives the peaks of one more leaf |
| `Mmr.Range.Append` | core/mmr.go:81-95 | the maintained peaks and heights stay those of all leaves appended so far |
| `Mmr.Range.Root` | core/mmr.go:105-126 | the root equals the one recomputed from all leaves |
| `Mmr.FoldPeaks` | core/mmr.go:114-126 | bags the peaks right to left and binds the leaf count |
| `Ancestry.PeakSizes` | core/mmr.go:217-225 | the set bits of the leaf count, largest first |
| `Ancestry.VerifyAncestryProof` | core/mmr.go:272-319 | the verifier's loops accept exactly the proofs that climb to their peak, in their place, under the root |
| `AncestryLaws.BuildAncestryProof` | core/mmr.go:174-213 | a proof is built for every position in range and no other, and is accepted against the range's root |
| `AncestrySound.ProofForcesLeaf` | core/mmr.go:272-319 | an accepted proof forces leaf count, position and block hash to be the range's own, or a collision is exhibited |
| `NodeRuns.ProveAncestry` | core/blockchain.go:1584-1629 | on every reachable node, a proof is given exactly for covered heights below a committing header, and passes against the root stored in that header |
| `Transactions.TotalOut` | core/transaction.go:119-131 | the sum of the outputs, or none exactly when it leaves 64 bits |
| `LedgerApply.CreditOutputs` | core/blockchain.go:1300-1309 | recipients are credited in turn, or an overflow is reported |
| `LedgerApply.Charge` | core/blockchain.go:1466-1482 | a sponsor pays the fee out of what it may spend |
| `LedgerApply.DoIssue` | core/blockchain.go:1316-1348 | issuance in place is the issuance rule |
| `LedgerApply.DoAssetOp` | core/blockchain.go:1357-1406 | mint and burn in place are the management rule |
| `LedgerApply.DoAssetTransfer` | core/blockchain.go:1412-1443 | an asset transfer in place is the transfer rule |
| `Leases.TxMovesLease` | core/name.go:184-264 | every transaction the ledger takes moves every name's lease in one of four ways, or not at all |
| `Leases.RulesLease` | core/blockchain.go:1255-1311 | so do the code's rules as a chain is checked by them |
| `Leases.StrangerKeeps` | core/name.go:207-248 | a held name keeps owner and expiry through every applied transaction its owner did not send |
| `Leases.NameOpTaken` | core/name.go:184-264 | a name operation is applied if and only if it is signed, paid for, and either registers a name nobody holds or comes from the holder |
| `Leases.RegisteredHolds` | core/name.go:208-221 | an applied registration holds the name exactly when the expiry fits 64 bits and there is an owner |
| `Leases.RenewExtends` | core/name.go:222-231 | an applied renewal keeps the owner and lengthens the lease exactly when the new expiry fits 64 bits |
| `Leases.OwnerDecides` | core/name.go:232-248 | an applied transaction changes a held name's owner only as the owner's own transfer or release |
| `Leases.BlockKeepsLease` | core/blockchain.go:1138-1231 | so through whole blocks, coinbases to the name's key included |
| `Leases.HeldStays` | core/name.go:184-264 | on every valid chain a held name stays on the same terms until its owner acts or the lease runs out |
| `LedgerApply.DoName` | core/name.go:184-264 | a name operation in place is the name rule |
| `LedgerApply.ApplyTxTo` | core/blockchain.go:1255-1311 | any transaction in place is its rule, under an undo log that leads back; when that rule takes it and what it does to each account: `TxTaken`, `TxMoves` |
| `LedgerEffects.TxTaken` | core/blockchain.go:1255-1482 | a sane transaction is applied if and only if it is signed, carries its sender's next nonce, is paid for by sender and sponsor above what they may not spend yet, overflows no balance, and meets what its kind asks |
| `LedgerEffects.TxMoves` | core/blockchain.go:1255-1482 | account by account: what an applied transaction takes and pays in coin and in every asset; the sender's nonce moves by one and nobody else's |
| `LedgerEffects.OnlyIssuerManages` | core/asset.go:206-211 | mint and burn change one holding, that of the sender in the asset whose id is derived from the sender |
| `Nonces.RulesCount` | core/blockchain.go:1283-1284 | the code's rules apply a transaction only with its sender's nonce, which moves by one, and leave every other ordinary account's alone |
| `Nonces.NonceCounts` | core/blockchain.go:1138-1311 | on every valid chain an ordinary account's nonce is the number of transactions it sent, modulo 2^64 |
| `Nonces.NonceIsPlace` | core/blockchain.go:1283-1284 | and every transaction carries the number of its sender's transactions before it |
| `Nonces.NoReplay` | core/blockchain.go:1283-1284 | so no two places of a valid chain hold the same sender and nonce, until a sender has sent 2^64 |
| `LedgerStore.Accounts.Write` | core/blockchain.go:1142-1164 | every write keeps the log a way back to the ledger before the block |
| `LedgerStore.Accounts.Revert` | core/blockchain.go:1486-1495 | replaying the log backwards restores that ledger exactly |
| `LedgerStore.UndoneAgrees` | core/blockchain.go:1486-1495 | outside the accounts a log names nothing differs |
| `LedgerStore.FirstEntry` | core/conservation.go:41-52 | the first entry for an account holds its value before the block |
| `LedgerLaws.TxKeeps` | core/blockchain.go:1255-1482 | a transaction removes exactly its fee from the sum of coins, and what a name operation overwrites; no account ends below the reward it may not spend, sender or sponsor |
| `LedgerLaws.TxKeepsBare` | core/name.go:184-264 | name records never hold assets, nor coin once none did |
| `AssetLaws.TxUnits` | core/asset.go:132-146 | each asset's total moves by what the transaction issues, mints or burns, modulo 2^64 |
| `Supply.MintedBound` | core/params.go:159-165 | the subsidy ever minted stays below a cap that fits 64 bits |
| `Supply.RewardIs` | core/params.go:159-165 | the reward of height h is 5000000000 divided by two to the h / 210000 |
| `Supply.CumulativeSubsidy` | core/supply.go:22-37 | the epoch loop computes the sum of all block rewards |
| `Supply.NeverEnds` | core/supply.go:22-37 | at the last 64-bit height the loop's guard holds after every number of rounds, and from the second on its state is one fixed point |
| `BlockLedger.ImmatureCoinbase` | core/blockchain.go:863-879 | the rewards of the window the code looks at; which those are: `ImmatureIsLocked` |
| `AccountHistory.ImmatureIsLocked` | core/blockchain.go:859-879 | what counts as immature at height h is the sum of the rewards of exactly the heights c with 1 <= c < h < c + 3 |
| `AccountHistory.LockedAtTip` | core/blockchain.go:863-879 | at every tip of a valid chain each account holds at least those rewards |
| `AccountHistory.LockedStays` | core/blockchain.go:1190-1200 | and after every transaction of every next block, so the reward of height c is there until height c + 3 |
| `AccountHistory.TurnTaken` | core/blockchain.go:1172-1203 | a transaction's turn in a block succeeds if and only if it is sane, in time, new to the block, pays the base fee and is due above the locked rewards of its sender and its sponsor |
| `AccountHistory.RulesFlow` | core/blockchain.go:1255-1482 | the code's rules move every ordinary account's coin by what the transaction pays and takes |
| `AccountHistory.BalanceIsHistory` | core/blockchain.go:1138-1231 | on every valid chain an ordinary account's balance is what it mined and was paid, less what it paid out and the fees it paid or sponsored |
| `BlockFees.FeesSplit` | core/blockchain.go:1203-1205 | a block burns the base fee times its bytes and leaves the miner the rest of the fees |
| `BlockFees.RulesByBytes` | core/params.go:170-176 | the code's rules price a transaction at the base fee times its bytes, in 64 bits |
| `BlockFees.CoinbasePays` | core/blockchain.go:1208-1214 | the coinbase of an applied block pays the reward and the fees less the base fee of every byte |
| `BlockFees.IdsApart` | core/blockchain.go:1186-1190 | no transaction id stands twice in an applied block |
| `BlockLedger.RulesLawful` | core/blockchain.go:1138-1311 | the code's per-transaction rules obey the coin law and the asset law |
| `BlockLedger.TxsKeep` | core/blockchain.go:1169-1206 | across a block's transactions coins, tips and burned fees add up, and maturity floors hold |
| `BlockLedger.BodyKeeps` | core/blockchain.go:1138-1231 | across the whole block: subsidy in, base fees and overwritten coin out |
| `BlockLedger.CoinRuleExact` | core/conservation.go:96-103 | the coin rule holds if and only if no name operation of the block overwrote coin, and then as numbers |
| `NameCoins.OverwritesNothing` | core/name.go:250-262 | what a block's name operations overwrite is nothing exactly when the names they act on held no coin before the block |
| `NameCoins.CoinRuleBefore` | core/conservation.go:96-103 | the coin rule holds if and only if the names the block acts on held no coin before it |
| `NameCoins.BlockVerdict` | core/conservation.go:96-141 | and that decides the whole conservation rule |
| `NameCoinWitness.FirstApply` | core/blockchain.go:1208-1219 | three blocks with nothing but rewards are valid one after the other, one of them paying a name's key |
| `NameCoinWitness.FourthRejected` | core/blockchain.go:1208-1229 | under all rules that accept it (`SomeAccept`: there are some, with names as the code wants them), the registration of that name, paid for with a matured reward at a positive base fee, makes a fourth block of valid transactions with the right coinbase that is rejected |
| `BlockLedger.AssetRuleHolds` | core/conservation.go:105-141 | the asset rule never fails on its own |
| `BlockLedger.RulesImplyConservation` | core/conservation.go:96-141 | where no name record holds coin, the transaction rules alone imply the whole conservation rule |
| `Conservation.TouchedBefore` | core/conservation.go:41-52 | maps every named account to its value before the block |
| `Conservation.CoinDelta` | core/conservation.go:61-68 | the change over the touched accounts is the change of the whole ledger |
| `Conservation.AssetDeltas` | core/conservation.go:72-88 | the same for every asset at once, listing exactly the nonzero ones |
| `Conservation.WantedDeltas` | core/conservation.go:105-128 | what the block's transactions mint, per asset |
| `Conservation.CheckConservation` | core/conservation.go:96-141 | the check over touched accounts holds if and only if the rule over whole ledgers does |
| `BlockApply.ApplyTxsAndCoinbase` | core/blockchain.go:1138-1231 | succeeds exactly when the block obeys every rule, with the rules' ledger and burn total; otherwise the ledger is as before |
| `Chain.ChainKeeps` | core/blockchain.go:914-931 | on every valid chain coins plus burned equal minted, no account is below its immature rewards, and name records hold no assets |
| `Chain.NoOverflow` | core/supply.go:53-60 | no balance comes near 64 bits |
| `Chain.OrdinaryChainConserves` | core/conservation.go:96-141 | on a chain whose rewards went to ordinary addresses a block that passes the transaction rules passes the conservation rule |
| `Chain.HeightIsPosition` | core/blockchain.go:937-944 | a block's height is its position |
| `NodeRuns.SupplyConsistent` | core/supply.go:83-105 | at every tip the node's burn total and minted subsidy give exactly the coins held |
| `ForkChoice.BetterOrder` | core/blockchain.go:460-471 | better is a strict total order on work and tip hash |
| `ByteOrder.BeforeIsFirst` | core/blockchain.go:462-468 | one hash is before another exactly when at the first byte where they differ its byte is smaller, or it is a proper prefix |
| `ChainChoice.WorkIsTotal` | core/work.go:22-28 | the work a chain is ranked by is the sum of the work of all its blocks |
| `ChainChoice.BetterIsOutweighs` | core/blockchain.go:455-471 | a chain is preferred exactly when it has more total work, or as much and the smaller tip hash |
| `ChainChoice.OfferTaken` | core/blockchain.go:436-471 | a node offered another valid chain moves to it if and only if the two part at or above the checkpoint, at most a hundred blocks below its tip, and the other has more work, or as much and the smaller tip hash |
| `ChainChoice.AddTaken` | core/blockchain.go:313-339 | a node appends a block if and only if the longer chain replays |
| `ChainChoice.SuffixTaken` | core/blockchain.go:376-386 | a node takes a suffix at a height if and only if the guards let it, the result replays, and it has more work, or as much and the smaller tip hash |
| `ChainChoice.CallKeeps` | core/blockchain.go:436-454 | no call takes back the checkpointed block or one below it, or more than a hundred blocks |
| `ChainChoice.RunKeepsCheckpoint` | core/blockchain.go:436-454 | no run of calls ever changes the blocks up to the checkpoint |
| `ChainChoice.Linked` | core/blockchain.go:914-931 | each block of a valid chain names the hash of the one before it, stands at its height, passes the structure rules and begins with a coinbase |
| `Convergence.OfferDecides` | core/blockchain.go:436-471 | a valid chain that is offered is refused exactly by the finality guards; otherwise the better of the two wins |
| `Convergence.EndsOnBest` | core/blockchain.go:354-365 | wherever no guard interferes a node ends on the best of the chains it started on and was offered |
| `Convergence.Converges` | core/blockchain.go:354-365 | two nodes that between them start on and are offered the same valid chains, each in its own order, end on the same chain |
| `Convergence.UnguardedConverges` | core/blockchain.go:436-453 | in particular when no two of the chains part below the checkpoint or deeper than the limit |
| `Convergence.OfferAll` | core/blockchain.go:354-365 | offering a node chains leaves it exactly there, and reports exactly whether a guard refused one |
| `Indexes.UnindexUndoes` | core/txindex.go:26-50 | removing a block from the transaction index undoes adding it |
| `IndexStore.IndexTxs` | core/txindex.go:26-36 | adds the block's ids at their first place |
| `IndexStore.UnindexTxs` | core/txindex.go:41-50 | removes the entries that point at the block |
| `IndexLaws.IndexFinds` | core/txindex.go:54-66 | the index of a chain finds an id exactly when a transaction of the chain has it, and then the first place where one does |
| `IndexLaws.HistoryFinds` | core/addrindex.go:81-91 | the list of an address holds exactly the places of the transactions that touch it, in order and once each |
| `IndexStore.IndexAddresses` | core/addrindex.go:81-91 | the address index of a chain becomes that of the longer chain |
| `IndexStore.UnindexAddresses` | core/addrindex.go:95-115 | and back |
| `ChainDerived.ChainWork` | core/work.go:22-28 | the sum of the blocks' work |
| `ChainDerived.CandidateWork` | core/blockchain.go:455-459 | the candidate's work from the kept prefix and the suffix |
| `ChainDerived.Disconnect` | core/blockchain.go:514-521 | taking the tip off leaves exactly what the shorter chain derives |
| `ChainDerived.Switch` | core/blockchain.go:514-533 | indexes, with the address index or without, and burn total of the switched chain are its from-scratch ones |
| `ChainDerived.SwitchHeaders` | core/cfilter.go:475-503 | the filter-header cache of the switched chain is its from-scratch fold |
| `ChainDerived.DerivedUnique` | core/txindex.go:54-66 | a chain determines its derived structures, so incremental and rebuilt ones coincide |
| `ChainStore.RebuildHistory` | core/statetrie.go:198-206 | the rebuilt accumulator covers exactly the blocks the incremental one does |
| `ChainStore.ApplyNext` | core/blockchain.go:914-931 | a block is applied exactly when the rulebook takes it, its state root checked incrementally; otherwise ledger and accumulator are untouched; in either case the cache stays honest |
| `ChainStore.LedgerAt` | core/blockchain.go:473-476 | undo logs lead back to the replayed ledger of any kept prefix |
| `ChainStore.ApplySuffix` | core/blockchain.go:477-490 | a suffix applies exactly when the spliced chain replays, with logs that lead back along it, each root committed from the one before over the node's cache |
| `ChainStore.CheckRoot` | core/blockchain.go:924-929 | the root committed from the accounts the block's own undo log names has the rulebook's verdict |
| `Blockchain.Node.AddBlock` | core/blockchain.go:313-339 | accepts exactly what extends the replayed chain; a refused block leaves every field unchanged |
| `Blockchain.Node.Reorg` | core/blockchain.go:436-539 | decides by the finality guards, then fork choice, then validity; anything but adoption leaves every field unchanged; what that comes to: `SuffixTaken`, `OfferTaken` |
| `Blockchain.Node.ReorgFrom` | core/blockchain.go:376-386 | the exact verdict on a suffix; adopted it becomes the chain, otherwise nothing changes |
| `Blockchain.Node.ReplaceChain` | core/blockchain.go:354-365 | the exact verdict on a whole chain, taken as a suffix of what the two share; adopted it is spliced in, otherwise nothing changes |
| `Blockchain.Node.EnableAddressIndex` | core/addrindex.go:63-70 | builds the optional address index of the chain as it stands |
| `Blockchain.CommonPrefix` | core/blockchain.go:578-588 | the number of leading blocks two chains share by hash |
| `NodeRuns.Perform` | core/blockchain.go:313-539 | one call moves the node to exactly the chain the rules decide, every field equal to its from-scratch form |
| `NodeRuns.PerformAll` | core/blockchain.go:313-539 | after any run of calls, all state roots checked incrementally over one cache that may forget any node at any time, the node stands on the chain the calls decide, its ledger a fresh replay, every index its from-scratch form |
| `NodeRuns.RunImproves` | core/blockchain.go:455-471 | no run of calls ever leaves a node on a chain ranked lower |
| `RetargetedChains.WorkIsPositive` | core/work.go:8-16 | where blocks carry the retargeted bits every accepted block adds work |
| `BlockLog.TornAppend` | core/store.go:114-168 | a crash anywhere inside an append loses that append and nothing else |
| `BlockLog.RecoversExactly` | core/store.go:114-168 | recovery returns the log's own blocks if and only if what follows them is no record |
| `BlockLog.AppendReads` | core/store.go:181-227 | after an append of any block the log reads on as what its record decodes to; an unreadable one hides everything after it |
| `BlockLog.Recover` | core/store.go:114-158 | reads every intact record of any file, with its offset |
| `BlockLog.OpenStore` | core/store.go:114-168 | takes over any file up to its torn tail; leaves alone one that holds bytes but no record |
| `BlockLog.Store.Append` | core/store.go:206-227 | for any block: a full write extends the log by its frame; a short one leaves exactly the bytes that were written behind it |
| `LogWitness.StaleBytesRevived` | core/store.go:206-227 | in the store's own format, for every block with a bare coinbase and every block of the first block's form: a failed write of the former with a memo the rules allow, then its append without the memo, and recovery reads the latter, which nobody appended |
| `BlockLog.Store.TruncateAfter` | core/store.go:230-247 | cuts the log back to the blocks up to the height |
| `StoreRecords.HexBack` | core/storecodec.go:496-530 | lower-case hex of even length reads back from its raw bytes |
| `StoreRecords.StrBack` | core/storecodec.go:77-88 | any string reads back, compacted or not |
| `StoreBlocks.TxBack` | core/storecodec.go:272-333 | a transaction's record reads back as the transaction without name operation, script authorization and issue metadata |
| `StoreBlocks.DecodesStripped` | core/storecodec.go:237-270 | a block's record reads back as the block with its transactions so stripped |
| `StoreBlocks.SurvivesExactly` | core/storecodec.go:237-333 | a block survives the store if and only if none of its transactions carries one of those |
| `StoreBlocks.LogKeepsStripped` | core/store.go:206-227 | after an append the log reads as before, then as the block stripped |
| `Merkle.MerkleRootOf` | core/merkle.go:14-31 | folding layer by layer, an odd last node paired with itself, gives the root |
| `Merkle.RootBinds` | core/merkle.go:14-31 | two lists of one length with one root are one list, or a collision is exhibited |
| `Merkle.DoubledLast` | core/merkle.go:22-27 | an odd list of several leaves has the root of the list with its last leaf repeated |
| `Merkle.MerkleProofOf` | core/merkle.go:37-66 | a proof for every position in range and no other, and it folds to the root |
| `Merkle.VerifyMerkleProof` | core/merkle.go:84-94 | accepts exactly the proofs that fold to the root |
| `StoreRoots.RootAfterStore` | core/storecodec.go:237-333 | a block that matched its merkle root matches it when read back if and only if none of its transactions carried an omitted part, or a collision is exhibited |
| `Selection.CreditsForReal` | core/mempool.go:1043-1053 | simulated credits track real ones, repeated recipients included |
| `SelectionSteps.PickApplies` | core/mempool.go:918-1054 | every pick, of any kind, applies to the real ledger, which the simulation goes on tracking |
| `SelectionApplies.PickedNonce` | core/mempool.go:1010-1054 | a pick moves its sender's simulated nonce by one and no other |
| `NameRecords.TxKeepsNames` | core/name.go:184-264 | a transaction reaches no name record but its own |
| `Greedy.Prepare` | core/mempool.go:840-886 | the queues hold exactly the admissible transactions of each sender, in nonce order, and the senders are sorted |
| `BlockSelect.Scan` | core/mempool.go:968-1000 | one round finds the best eligible transaction of the whole pool, or that there is none |
| `BlockSelect.Select` | core/mempool.go:828-1061 | every choice was the best one open at its turn, and choosing stops only at the limit or when nothing more fits; what open and best mean: `EligibleIsOpen`, `SelectsBest` |
| `SelectionOrder.EligibleIsOpen` | core/mempool.go:907-990 | a transaction is open at a turn exactly when it can go in, its nonce is its sender's next after those chosen, its name is not taken by one chosen, and bytes and checks fit with those chosen |
| `SelectionOrder.SelectsBest` | core/mempool.go:968-1000 | at every turn no open transaction has a higher rate than the one chosen, nor the same rate and a smaller hash, and none is open at the end unless the limit is reached |
| `Greedy.SameTemplate` | core/mempool.go:807-809 | two nodes with the same pool and tip choose the same list |
| `BlockTemplate.WithinBudgets` | core/mempool.go:984-990 | the list stays within the byte and verification budgets |
| `BlockTemplate.TipsAgree` | core/params.go:178-193 | the tips a miner adds up are those application counts |
| `BlockTemplate.TemplateApplies` | core/mempool.go:828-1061 | every list selection returns, with the coinbase that is due, is a block the ledger applies, conservation included |
| `BlockTemplate.ChainTemplateApplies` | core/blockchain.go:1138-1231 | in particular on every valid chain with ordinary rewards |
| `PoolSelect.SelectFromPool` | core/mempool.go:828-886 | a pool with exact indexes meets all that selection asks of it, and is chosen from best first |
| `PoolSelect.PoolCostAgrees` | core/mempool.go:228-238 | what admission counts for a transaction is what selection charges for it |
| `PoolMines.RunPays` | core/mempool.go:907-950 | every transaction of a queue in order, when its turn comes on the simulated ledger, has the next nonce and is covered by its sender's balance |
| `PoolMines.ReconcileAtTip` | core/mempool.go:526-573 | so a clean-up at the tip leaves every sender a queue the miner can take to its last transaction, as long as its total fits 64 bits |
| `PoolIndexes.IndexCredits` | core/package.go:95-105 | the transaction goes on the list of everyone it pays but its sender, once each |
| `PoolIndexes.UnindexCredits` | core/package.go:108-124 | and comes off again; emptied lists are dropped |
| `PoolIndexes.SlotDeleted` | core/mempool.go:215-222 | clearing a slot keeps the sender index exact, and the slot did hold that transaction |
| `PoolIndexes.PromiseDeleted` | core/mempool.go:210-214 | releasing a sponsored fee keeps the sponsor totals exact |
| `Mempool.Pool.Insert` | core/mempool.go:184-197 | inserting into a free slot keeps all five indexes exact |
| `Mempool.Pool.Delete` | core/mempool.go:200-223 | deleting keeps all five exact, and the byte counter never needs its clamp |
| `Admission.PendingCredit` | core/package.go:69-91 | the coin the whole pool pays an address, saturated at 64 bits |
| `Admission.NextFree` | core/mempool.go:269-277 | the first free nonce of the run |
| `Admission.QueueFits` | core/mempool.go:279-307 | whether every step of the running total, in 64 bits and in the order the queue is visited, stays within the funds |
| `Admission.QueueDecided` | core/mempool.go:279-307 | in any order that is whether the sender can pay for its queue, as long as the total fits 64 bits |
| `Admission.StepsFitExactly` | core/mempool.go:294-307 | a sender that could pay for its queue gets one more in exactly when it can pay for that too or the total leaps past 64 bits |
| `Admission.QueueDecidedExactly` | core/mempool.go:279-307 | the same for the whole queue in any order it is visited in, its costs summed up |
| `Admission.Admissible` | core/mempool.go:256-336 | admits exactly a replacement or the next nonce of a run, whose queue's running total and whose sponsor's promises stay within the funds |
| `PoolAdd.EvictionCandidate` | core/mempool.go:613-631 | the cheapest of all run ends, none only in an empty pool |
| `PoolAdd.MakeRoom` | core/mempool.go:421-436 | evicts one cheapest run end after the other, each while the pool is over budget and has to give way, and stops only with room or when nobody has to; runs stay gap-free |
| `PoolAdd.SameVictims` | core/mempool.go:421-436 | without ties in rate, who is evicted does not depend on the order senders are visited in |
| `PoolAdd.MovedExactly` | core/mempool.go:421-436 | a newcomer refused for want of room has changed the pool only if a cheapest run end had to give way, and has if all of them did |
| `PoolAdd.Replace` | core/mempool.go:397-412 | takes a slot over exactly by paying more or by being mineable where the other is not |
| `PoolAdd.Add` | core/mempool.go:348-439 | the pool afterwards is exactly the old one without the evicted, or with the newcomer in its slot; it gets in exactly if it is welcome and finds room; nobody is evicted for one that is not, or that takes over a slot; indexes stay exact, runs gap-free, budgets kept, and its sender and sponsor can pay |
| `PoolLaws.RoomIsUsed` | core/mempool.go:419-439 | a newcomer that fits both budgets and is not kept out otherwise gets in, and nobody is evicted for it |
| `PoolLaws.FundsAre` | core/mempool.go:279-300 | what admission lets a sender spend is what it has confirmed and all the pool pays it, up to the last word |
| `PoolLaws.StaysCapped` | core/mempool.go:256-278 | no sender ever has more than 64 queued, whatever becomes of a newcomer |
| `PoolLaws.TakenBack` | core/mempool.go:397-408 | two transactions can take one slot from each other again and again exactly when one is fit for the next block and the other, which is not, pays more |
| `RescueWitness.RescueUndone` | core/mempool.go:397-411 | a parked payment displaced by a mineable one takes its slot back when it is sent again |
| `Packages.Descendants` | core/package.go:236-281 | the walk down finds exactly what depends on a transaction, or at least as many as it has steps |
| `Packages.DependentsLeast` | core/package.go:247-281 | what depends on a transaction is the least set that holds what relies on it, and on any member, directly |
| `Packages.PaysWithout` | core/package.go:259-275 | what an account has queued depends on a transaction that pays it unless the account can pay for its whole queue without, and directly only where it cannot |
| `Packages.LimitDecided` | core/package.go:317-326 | stopping the walk at its depth bound never changes what the descendant limit decides |
| `PackageClimb.Climb` | core/package.go:167-217 | the recursive walk up is its function |
| `PackageClimb.ReliesOn` | core/package.go:144-156 | a transaction relies on every earlier one of its sender, and on everyone who pays the sender unless the sender can pay for all up to it without them |
| `PackageLimits.ClimbBounds` | core/package.go:167-217 | the walk up finds nothing but what is relied on, and all that surely is, unless it found as many as it has steps |
| `PackageLimits.PackageFits` | core/package.go:288-328 | the limits on foreign ancestors, package bytes and each ancestor's dependents, over what the walk found and whole dependents |
| `PackageLimits.LetInWeighed` | core/package.go:167-175 | whatever the limits let in was weighed with all it surely relies on: the depth guard never decides |
| `PackageLimits.RefusedRightly` | core/package.go:288-328 | a newcomer refused for its package does rely on too much |
| `PackageLimits.PlainDecides` | core/package.go:288-328 | where no sender's total passes its confirmed coin without one transaction doing so alone, the verdict is the one on all the newcomer relies on |
| `PackageWitness.ClimbMisses` | core/package.go:180-192 | a pool with exact indexes in which the walk up misses a transaction the newcomer relies on |
| `PackageRates.PackageRate` | core/package.go:371-421 | a transaction is judged by the better of its own rate and that of it with all that was found to depend on it and its sender's later ones |
| `PackageRates.RaisedByBetter` | core/package.go:356-361 | a package never lowers a rate and raises it exactly when what rides on the transaction pays more per byte than it does |
| `PackageRates.RateDetermined` | core/package.go:371-421 | where fewer depend on a transaction than the walk has steps, its rate does not depend on the order maps are visited in |
| `PoolWitness.EvictsThenRefuses` | core/mempool.go:421-436 | a pool at a tip, with rates that are fee over size, that drops a transaction for a newcomer and then refuses the newcomer |
| `PoolWitness.LentThenDropped` | core/mempool.go:282-293 | a transaction admitted on coin another is about to pay its sender, and dropped by the next clean-up |
| `PoolWitness.VastStays` | core/mempool.go:294-303 | a transaction that costs nearly 2^64 admitted behind a small one, and kept by the clean-up |
| `PoolTrim.TrimSender` | core/mempool.go:546-571 | a sender keeps exactly the slots from the confirmed nonce up to the first that is missing or, in 64 bits, one too many |
| `PoolReconcile.PruneExpired` | core/mempool.go:513-524 | drops exactly the expired transactions |
| `PoolReconcile.ReleaseSponsor` | core/mempool.go:589-602 | lets go of a payer's cheapest sponsorships one by one, each while the rest is too much, until the rest fits |
| `PoolSettle.ReconcileSponsors` | core/mempool.go:578-604 | exactly what the payers let go of is gone, a payer that fits lets go of nothing, and every payer ends within what it can spend |
| `PoolSettle.SameGone` | core/mempool.go:589-602 | without ties in rate, what a payer lets go of is determined |
| `PoolSettle.TrimSenders` | core/mempool.go:546-572 | of every sender exactly its affordable run stays |
| `PoolSettle.Reconcile` | core/mempool.go:526-573 | from any pool with exact indexes: what stays is exactly, without the expired and what payers let go of, every sender's affordable run from the confirmed nonce; a sender in order, with nothing expired and sponsors that can pay, loses nothing whatever others lose; runs are gap-free, promises kept, the count exact |
| `PoolSettle.SettlesOnce` | core/mempool.go:526-604 | without ties in rate, what stays does not depend on the order payers and senders are visited in |
| `BitStreams.BitWriter.WriteBits` | core/cfilter.go:400-414 | appends the binary digits of the value |
| `BitStreams.BitReader.ReadBits` | core/cfilter.go:421-441 | reads them back, or fails exactly at the end of the buffer |
| `Golomb.ReadsDelta` | core/cfilter.go:445-462 | a coded delta reads back as itself, wherever it stands |
| `Golomb.WalkFinds` | core/cfilter.go:145-159 | walking the coded deltas finds exactly the values coded |
| `BlockFilters.BlockAddresses` | core/cfilter.go:69-93 | every address the block touches, once |
| `BlockFilters.BuildBlockFilter` | core/cfilter.go:96-129 | matches every address the block touches, and any other exactly when the two share a place |
| `FilterLaws.UncodedKeeps` | core/cfilter.go:69-93 | an ordinary account whose address is not coded keeps its nonce through the block, and its balance falls by exactly the fees it sponsored |
| `FilterLaws.SponsorUncoded` | core/cfilter.go:69-93 | a sponsor that is neither sender nor recipient of a transaction is not coded for it, and pays its fee |
| `BlockFilters.NextDelta` | core/cfilter.go:445-462 | the reader's loop is the delta decoder |
| `BlockFilters.Match` | core/cfilter.go:134-160 | the query's loop is the match relation |
| `ScriptMeaning.RunIsStructured` | core/script.go:290-397 | for every byte string, flat branch-skipping execution is structured execution of the parsed program, and ill-nested or overlong programs fail |
| `ScriptVm.Vm.RunScript` | core/script.go:290-397 | the interpreter's loop is the flat semantics |
| `ScriptVm.Vm.DoCheckMultiSig` | core/script.go:503-562 | the greedy matching loop is its semantics, costs included |
| `ScriptVm.Vm.ReadSmallInt` | core/script.go:588-600 | reads a big-endian number, clamped at 2^31 |
| `ScriptVm.EvalScript` | core/script.go:187-237 | evaluation succeeds exactly when its meaning does, with its height and cost; what the operations mean: the rows from `InTurn` on |
| `ScriptLaws.InTurn` | core/script.go:290-397 | a script followed by another runs as the first and then, from where that ends, the second |
| `ScriptLaws.VerifyDoes` | core/script.go:438-446 | VERIFY drops a top item with a nonzero byte and fails on any other and on an empty stack |
| `ScriptLaws.DupDoes` | core/script.go:405-410 | DUP puts the top item on once more, and fails on an empty or full stack or an oversized item |
| `ScriptLaws.DropDoes` | core/script.go:411-413 | DROP takes the top item off, or fails on an empty stack |
| `ScriptLaws.SwapDoes` | core/script.go:414-420 | SWAP exchanges the two top items, or fails on fewer |
| `ScriptLaws.EqualDoes` | core/script.go:421-437 | EQUAL answers whether the two top items are the same bytes; its verifying form fails where they are not |
| `ScriptLaws.HashDoes` | core/script.go:447-453 | SHA256 replaces the top item by its hash |
| `ScriptLaws.CheckSigDoes` | core/script.go:475-500 | CHECKSIG answers whether the signature below the key on top fits it, at the cost of one check of twenty |
| `ScriptLaws.HeightDoes` | core/script.go:571-600 | CHECKHEIGHTVERIFY takes a number of at most eight bytes off and raises the least height to it, capped at 2^31 |
| `ScriptLaws.PushRuns` | core/script.go:290-397 | the bytes of a push put its data on the stack |
| `ScriptLaws.PushDrop` | core/script.go:411-413 | a push and a DROP are nothing |
| `ScriptLaws.SwapSwap` | core/script.go:414-420 | SWAP SWAP is nothing |
| `ScriptLaws.PushPushSwap` | core/script.go:414-420 | pushing a, then b, then SWAP is pushing b, then a |
| `ScriptLaws.PushPushEqual` | core/script.go:421-437 | pushing a, then b, then EQUAL is true exactly for a == b |
| `ScriptLaws.DupEqual` | core/script.go:405-437 | DUP EQUAL replaces the top item by true |
| `ScriptLaws.FalseVerify` | core/script.go:438-446 | FALSE VERIFY fails on every stack |
| `ScriptLaws.TrueVerify` | core/script.go:438-446 | TRUE VERIFY is nothing |
| `ScriptLaws.VerifyAfter` | core/script.go:438-446 | any script that runs, followed by VERIFY, leaves its machine less the top exactly when that top has a nonzero byte, and fails otherwise |
| `ScriptLaws.KeyDemandedSpends` | core/script.go:187-237 | `<pub> CHECKSIG VERIFY TRUE` is spent exactly by one signature, of at most 520 bytes, that fits the key |
| `ScriptLaws.EitherRuns` | core/script.go:290-397 | IF x ELSE y ENDIF runs x where the top item has a nonzero byte and y where it has none |
| `ScriptLaws.OneOfOne` | core/script.go:503-562 | a one-of-one CHECKMULTISIG is a CHECKSIG |
| `ScriptLaws.EvalBounded` | core/script.go:187-237 | an evaluation that succeeds scanned at most 256 instructions of a script of at most 1024 bytes and made at most twenty signature checks |
| `ScriptBuild.AssembledRuns` | core/scriptbuild.go:26-98 | an assembled program runs as the structured program it was written from |
| `ScriptBuild.SmallIntOfUint` | core/scriptbuild.go:73-84 | a pushed number reads back as itself up to the clamp |
| `ScriptBuild.Builder.Push` | core/scriptbuild.go:39-57 | appends the shortest push of the data, or fails for good when it is too long |
| `ScriptPredicates.ScriptHtlc` | core/scriptbuild.go:150-160 | assembles the two-armed program, failing exactly on oversized parts |
| `ScriptPredicates.HtlcSpends` | core/scriptbuild.go:150-160 | an HTLC is spent exactly by a claim or a refund witness, with minimum height 0 or the timeout up to 2^31 |
| `ScriptWitness.RefundedEarly` | core/script.go:588-600 | a contract with timeout 2^31 + 1 is refunded at 2^31 |
| `ScriptPredicates.VaultSpends` | core/scriptbuild.go:167-176 | a vault is spent exactly by the cold key at once or the hot key from the unlock height |
| `ScriptPredicates.ScriptVault` | core/scriptbuild.go:167-176 | assembles the two-armed program, failing exactly on oversized parts |
| `ScriptMultisig.ScriptMultisig` | core/scriptbuild.go:112-121 | assembles the threshold program, failing exactly on a bad threshold or oversized parts |
| `ScriptMultisig.MatchedDistinct` | core/script.go:540-554 | matched signatures were made by distinct keys |
| `ScriptMultisig.MatchedComplete` | core/script.go:540-554 | where no signature fits two keys, greedy matching finds an assignment whenever there is one |
| `ScriptMultisig.MultisigSpends` | core/scriptbuild.go:112-121 | a multisig is spent exactly by threshold matching signatures, and only if threshold times keys is within the check limit |
| `ScriptWitness.ThreeOfSevenIsLost` | core/script.go:536-538 | a 3-of-7 script that was assembled is spent by no witness |
| `Codec.SigningBytesUnique` | core/codec.go:70-153 | equal signing bytes, on any networks, mean equal network ids and equal signed fields, optional blocks included |
| `CodecBuffer.CanonicalSigningBytes` | core/codec.go:148-153 | the buffer's writes produce exactly that encoding |
| `Target.RoundsDown` | core/target.go:95-126 | encoding a target only lowers it, by less than one part in 2^15, and never to zero |
| `Target.Canonical` | core/target.go:95-126 | a decoded target encodes to the same bits again |
| `Retarget.ExpectedBits` | core/blockchain.go:779-813 | the window loop computes the weighted retarget |
| `Retarget.RetargetBounds` | core/blockchain.go:779-813 | for every history the new target is between one and the limit, at most six times the window's average, and within rounding of a value at least a sixtieth of it |
| `Retarget.SteadyTarget` | core/blockchain.go:797-804 | blocks exactly on time leave the average target as it is |
| `RetargetLaws.SolveTimeIs` | core/blockchain.go:786-796 | a solve time is the difference of two timestamps, at least one second and at most 360 |
| `RetargetLaws.LaterWeighsMore` | core/blockchain.go:786-804 | of two windows that differ in two exchanged solve times, the one with the longer of them later weighs more, by their difference for each block between them |
| `RetargetLaws.SlowerIsEasier` | core/blockchain.go:779-813 | of two windows with the same average target, the one no solve time of which is shorter asks for no smaller a target |
| `Retarget.ChainTargets` | core/target.go:61-67 | every target of a chain lies in the range the proof-of-work check accepts |
| `Retarget.ChainEasesAtMostSixfold` | core/blockchain.go:779-813 | on a chain the sixfold bound has no exception |
| `Retarget.LimitEncoded` | core/target.go:33-37 | the limit is what the compact form leaves of 2^244 - 1 |
| `Retarget.GenesisEncoded` | core/target.go:33-39 | the genesis target is what it leaves of 2^240 - 1 |
| `Retarget.HarderIsMoreWork` | core/work.go:8-16 | a smaller target never counts for less work |
| `Retarget.ChainWorkPositive` | core/work.go:8-28 | every block of a chain adds work |
| `VersionBits.Evaluate` | core/versionbits.go:196-242 | the window loop gives the stage, its beginning, the activation height and the vote so far |
| `VersionBitsLaws.SignalsIs` | core/versionbits.go:111-116 | a version votes for a bit exactly when the bit is at most 28, the version's top three bits are 001 and the bit's binary digit is one |
| `VersionBitsLaws.VotesAreVoters` | core/versionbits.go:196-242 | the votes of a window are the number of its heights whose versions vote |
| `VersionBitsLaws.WonStages` | core/versionbits.go:213-236 | the rule activates at the start of the second window after the first one that reached the threshold in time |
| `VersionBitsLaws.LostStages` | core/versionbits.go:213-236 | without such a window the vote stays open until the timeout and then fails |
| `VersionBitsLaws.Extension` | core/versionbits.go:189-242 | on every extension the stage has only moved forward and a fixed activation height is the same |
| `VersionBitsLaws.InstalledRight` | core/upgrade.go:219-224 | the installed height puts the rule in force for the next block exactly when the chain with any next block evaluates to active |
| `VersionBitsLaws.Refresh` | core/versionbits.go:276-285 | installs or withdraws each deployed rule's height and leaves operator-scheduled ones alone |

## Left out

- Supply.CumulativeSubsidy: the last 64-bit height is excluded, because the code's loop does not end there.
- VersionBits.Evaluate: window starts and activation heights are unbounded integers; the code's agree with them as long as the tip plus two windows fits 64 bits.
- PoolAdd.Add: the relay fee floor, the size cap, sanity and signature checks and the package limits are function values, and the check made before the lock is taken is not repeated; the package limits themselves are in `PackageLimits`.
- Admission.Admissible: the package limits are checked beside it, in `PoolAdd.Add`, as a function value.
- BlockLog.Recover: only the current record version is modelled (`StoreBlocks`); older versions and JSON records are other function values.
- StoreBlocks.DecodesStripped: the reader works on the bytes that are left rather than on an offset and a sticky error.
- NodeRuns.PerformAll: the upgrade schedule is fixed for the run, and blocks are complete; pruned and snapshot-bootstrapped chains are not covered.
- PoolMines.RunPays: a queue is followed on its own, with nobody else's transactions picked in between; a sponsor's coin and asset holdings are not followed.
- Selection.Picked: fee rates for ranking are a function value on real numbers; package rates are in `PackageRates`, as real numbers too.
- PackageLimits.PlainDecides: one direction only; a sender outside the condition may still be judged right, depending on the order in which the walk meets its transactions.
- The text forms of nodes, leaves and digests; digests are 64-byte strings.
- Authorization of transactions (signature, multisig, HTLC, vault and script checks inside `VerifySignature`) is a predicate; scripts are modelled on their own.
- Block-shape checks (timestamps, checkpoints, base fee, merkle root, size limits) are one predicate of the rulebook.
- The asset registry, statistics, fee estimation, the HTTP interface, peers and the wallet.
- Compaction, snapshots and file handling of the store; the wall clock; locks and concurrency.
- Soundness of merkle inclusion proofs, which untagged nodes do not give; compact filter downloads and header-range queries.
