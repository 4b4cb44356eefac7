# A verified model of the Nevel node

A Dafny 4.11 model of the core of the Nevel node, a proof-of-work coin, with
proofs about whole runs of it: the block store and its undo log, chain
selection, rollback and reorganisation, transaction and block validation, the
reward schedule, the memory pool, the binary codec, Merkle commitments, compact
targets and retargeting, Bech32 addresses, payment building, and curve
arithmetic. Check it with `dafny verify dfyconfig.toml`.

## How it is built

State that the node changes in place is a class whose methods are proved against
a function on values: `Storage.DB` (the store), `Mempools.Mempool` and
`Managers.Manager`. Their `View()` is such a value, and each method says what
`View()` is afterwards in terms of what it was before. Loops stay loops. The
results about whole runs are then lemmas about those functions, over every
sequence of events. Automatic induction is off everywhere, so each proof is what
its body says.

The main results, from the ground up:

1. **Undo.** Taking a block back restores the coins exactly if and only if the
   block wrote over no coin it did not spend (`Ledger.UndoIsExact`).
2. **Supply.** On every valid chain all coins together are worth at most the
   rewards of its heights, which stay below the cap; so `reward+fees`, which the
   code adds without a check, never wraps for any block, and no balance overflows
   (`Chains.SupplyCap`, `Balances.BalanceIsSafe`).
3. **No reuse.** With distinct coinbases no outpoint is created or spent twice
   along a chain (`Chains.OutpointsAreUnique`).
4. **Replay.** After every history of blocks, rollbacks and reorganisations the
   store (coins, height index, undo logs, tip, work) is that of a replay of one
   valid chain from genesis (`History.HistoryIsReplay`).
5. **Fork choice.** Recorded work is the sum over the branch, and after a
   submission the tip has the most of it if and only if no other record exceeds
   the larger of the old tip's work and the block's (`ForkChoice.SubmitMovesTip`);
   without rollbacks it always has (`FirstSeen.RunIsSafe`).
6. **First seen.** Over every run of `InitGenesis` and `ValidateAndApplyBlock` in
   which no block of height 0 becomes active, the active chain is only ever
   extended, no reorganisation happens, and every stored block is active
   (`FirstSeen.RunIsSafe`).
7. **Commitment.** A header hash determines a valid block
   (`Merkle.HeaderHashDeterminesBlock`).
8. **Round trips.** Codec, Bech32, bit regrouping and addresses are inverted in
   both directions, with the exact condition where a reader has limits.
9. **Spends.** A transaction or block is accepted if and only if it meets a
   definition without the order of the checks (`Spending.AcceptedMeans`,
   `Spending.AcceptedBlockMeans`); on a valid chain every spent coin was released
   by the key its script names (`Signatures.ChainIsSigned`), whose signature
   commits to the payment (`Signatures.SignatureHashCommits`), and coinbase coins
   mature for 100 blocks (`Spending.CoinbaseMatures`).
10. **Proof of work.** Over every history, every stored block but genesis has a
    hash at most its target and a target at most the limit
    (`History.HistoryIsReplay`); targets follow time (`Targets.RetargetScales`,
    `Targets.BoundaryFollowsTime`) and work is 2^256 over target + 1
    (`Targets.WorkIsQuotient`).
11. **Payments.** A built transaction pays exactly the requested fee and is valid
    exactly if that fee reaches the minimum (`Payment.BuiltIsValid`).
12. **Curve.** `ScalarMult` never leaves the curve (`Curves.ScalarMult`), and if
    addition associates it computes repeated sums (`Curves.MultiplesAdd`).

## What turned out false of the code

- The walk of `reorg` trusts the height index, which a rollback leaves in place
  above the new tip. It finds the fork point if and only if no such stale entry
  names a block of the new branch and none is missing (`Reorganise.NoStaleEntry`,
  `Reorganise.ForkPointIsActive`); the condition is empty when the new tip is at
  most one above the old one. Otherwise blocks are applied to the wrong coins
  (`Reorganise.StaleReorg`): rolling one block back and submitting a child of it
  loses the coins of that block (`StaleIndex.StaleSubmitLosesCoin`).
- A block that triggers a reorganisation is checked at the coins of the old tip
  only. Its branch becomes active in any case, and is a valid chain if and only if
  every coin the block spends is on its own branch and mature there
  (`History.ReorgIsUnchecked`); `History.BadSpendIsAccepted` shows both ways to
  fail.
- A block of height 0 is checked against no parent: on the tip it is accepted, and
  such blocks break the supply cap (`FirstSeen.ZeroHeightMints`,
  `FirstSeen.ZeroHeightBreaksCap`). The results on runs hold as long as no block
  of height 0 becomes active.
- After a rollback the tip does not have the most recorded work
  (`StaleIndex.RollbackIsNotHeaviest`). `ForkChoice.SubmitMovesTip` says exactly
  when it has after a submission.
- Undo is not exact for a block that writes over an unspent coin
  (`Ledger.UndoResult` says what is lost), which a repeated coinbase does
  (`Refinement.RepeatedCoinbaseIsLost`).
- The fee-rate comparison of the memory pool multiplies in 64 bits, and with fees
  that can occur the better payer is evicted (`Mempools.WrapMisleads`).
  `Mempools.WrapIsRightWhen` gives the exact condition for one comparison,
  `Eviction.AlwaysEvictedWhen` and `Eviction.LeastIsEvictedWhen` for eviction;
  sorting is proved for pools in which no product reaches 2^64.
- An address made under a prefix with capital letters does not decode: the round
  trip holds if and only if the prefix is in lower case
  (`Addresses.AddressRoundTrip`).
- Repeating the last of an odd number of transactions, from three up, keeps the
  Merkle root (`Merkle.DuplicateKeepsRoot`); only validation excludes such a block.

Where the repository's text and code differ, the model follows the code:
`docs/CHANGES.md` calls batches atomic, but `Commit` applies the operations one
after the other; a comment in `chain/chain.go` says that a lighter side block is
stored, but only its total work is written.

## Assumptions

- Double SHA-256 is an arbitrary function. Where a result needs that it does not
  collide, that is a hypothesis over the finite set of byte strings at hand
  (`Base.CollisionFree`, `Chains.IdsDistinguish`, `FirstSeen.HeadersDistinguish`);
  `Injective.IdsFromHash` and `Injective.HeadersFromHash` derive the latter two
  from the former.
- RIPEMD-160 of SHA-256 and ECDSA are arbitrary functions; the one law used of
  ECDSA is that a signature made with a key verifies under it.
- The clock, the mined genesis block, the signatures of one build and the coins a
  provider lists are parameters.
- The results on histories with rollbacks ask that a block that becomes active
  repeats no coinbase of its own ancestors (competing blocks may share one) and
  that all blocks are within the limits of the reader.
- The results on payments ask that no coin sits at the null outpoint, which holds
  on every chain of readable blocks (`Payment.NullIsNoCoin`).
- The field of the curve is given by its modulus and inverse, with the law that
  inverses invert.

## Model

| member | source | states |
|---|---|---|
| `Validation.CheckInput` | consensus/consensus.go:184-203 | the checks on one input find the first fault an input can have at the coins, given what is spent already; without a fault the coin is there, unspent, mature, and released by the verifier |
| `Validation.ValidateTransactionAt` | consensus/consensus.go:179-222 | accepts if and only if every input and output is sound and the minimum fee is paid; then every coin is there, mature and released by the verifier, the fee is inputs minus outputs and the outpoints are marked spent; an error is the first fault in the order the code looks |
| `Validation.ValidateSpenders` | consensus/consensus.go:149-163 | the transactions after the coinbase are accepted one after the other, none spending what another spends, with the exact sum of fees |
| `Validation.SumOutputs` | consensus/consensus.go:164-170 | the coinbase sum, or an error exactly if it exceeds 64 bits |
| `Validation.ValidateBlockTransactionsAt` | consensus/consensus.go:144-175 | accepts if and only if `BlockAccepted`; otherwise the error is one that `BlockRejected` explains |
| `Spending.InputPasses` | consensus/consensus.go:184-203 | an input passes if and only if its coin is not yet spent in the block or the transaction, is there, has 100 confirmations if it is a coinbase coin, is released by the verifier, and the sum so far fits in 64 bits |
| `Spending.AcceptedMeans` | consensus/consensus.go:179-225 | without the order of the checks: a transaction is accepted if and only if it is not of the coinbase form, spends no coin twice and none already spent, may spend each, has no empty output, and leaves one unit of fee per serialized byte |
| `Spending.RejectionMeans` | consensus/consensus.go:179-222 | the reported error names something that is wrong with the transaction |
| `Spending.AcceptedBlockMeans` | consensus/consensus.go:144-175 | a block is accepted if and only if its first transaction has the coinbase form, the others are sound spends of disjoint coins, and the coinbase pays at most reward and fees |
| `Spending.ChainSpendsSoundly` | consensus/consensus.go:144-222 | every later transaction of every block of a valid chain is a sound spend of the coins before its block |
| `Spending.CoinbaseMatures` | consensus/consensus.go:193-195 | on a valid chain no output of a block's first transaction is spent by a block fewer than 100 heights above it |
| `Blocks.NextLevel` | blockchain/block.go:56-67 | the loop over pairs computes the parents of the level with its odd last node repeated |
| `Blocks.NextLevelAt` | blockchain/block.go:56-67 | node i of the next level hashes nodes 2i and 2i + 1 in this order, or the last node twice |
| `Blocks.BuildMerkleRoot` | blockchain/block.go:48-69 | the level-by-level loop computes the recursive Merkle root, zero for an empty list |
| `Ledger.ApplyTxsFrame` | storage/storage.go:340-362 | outside the outpoints it creates, a block only removes what it spends, and every coin stays under its own key |
| `Ledger.UndoResult` | storage/storage.go:225-272 | disconnecting right after applying gives the old coins, except those written over and not spent |
| `Ledger.UndoIsExact` | storage/storage.go:225-272 | undo restores every coin with all its fields if and only if the block writes over no coin that it does not spend |
| `Conservation.SpendersLeave` | consensus/consensus.go:149-163 | what the accepted transactions spend is what they pay plus their fees |
| `Conservation.BlockBalance` | consensus/consensus.go:144-175 | an accepted block changes the total by its coinbase outputs less its fees, exactly if its outputs are new and at most that otherwise |
| `Conservation.BlockAddsAtMostReward` | consensus/consensus.go:144-175 | an accepted block adds at most its reward as long as total plus reward fits 64 bits |
| `Supply.RewardHalves` | consensus/consensus.go:49-55 | the first interval pays the initial reward, and every later height half, rounded down, of what was paid one interval before; this determines the schedule |
| `Supply.RewardSumBound` | consensus/consensus.go:49-55 | the rewards of any number of heights add up to at most twice the first interval's, below the maximum supply |
| `Supply.NoMoreRewards` | consensus/consensus.go:49-55 | once a reward is zero the sum of rewards never changes again |
| `Supply.AuditSupplySchedule` | params/economics.go:15-35 | terminates and passes for every height, the largest 64-bit one included, and reports the rewards of all heights up to it |
| `Chains.GenesisIsGenesisLike` | blockchain/genesis.go:10-15 | the genesis block is one coinbase at height 0 that pays no more than the first reward |
| `Chains.ChainSupply` | consensus/consensus.go:144-222 | the coins of a valid chain are worth at most the rewards of its heights |
| `Chains.SupplyCap` | consensus/consensus.go:144-222 | that total is below the maximum supply, and the unchecked sum of reward and fees does not wrap for any block that reaches it, accepted afterwards or not |
| `Chains.ReplayWellKeyed` | storage/storage.go:353-362 | every coin of a replay sits under its own outpoint |
| `Chains.AcceptedDistinct` | consensus/consensus.go:149-163 | an accepted block holds no transaction twice |
| `Chains.AcceptedNew` | consensus/consensus.go:179-225 | no transaction of the chain can be accepted again, because its inputs stay spent and it has at least one |
| `Chains.OutpointsAreUnique` | storage/storage.go:340-362 | along a valid chain with distinct coinbases no outpoint is created twice or spent twice, in two blocks, in one block or by one transaction, and the coins are what was created and not spent |
| `Origins.CoinOrigin` | storage/storage.go:340-362 | every coin of a replay is an output of a block of the chain, with its amount, its script, that block's height, and the coinbase mark if and only if it is of the block's first transaction |
| `Chains.ExactConservation` | consensus/consensus.go:144-175 | on such a chain each block changes the total to the unit by its coinbase outputs less its fees |
| `Storage.DB.constructor` | storage/storage.go:23-30 | an empty store |
| `Storage.DB.Commit` | internal/pebble/pebble.go:70-83 | a batch takes effect operation by operation, in order |
| `Storage.DB.SetTotalWork` | storage/storage.go:33-35 | only the work record of the hash changes |
| `Storage.DB.CollectUndo` | storage/storage.go:296-307 | the log holds the coins that the inputs find before the block, in order |
| `Storage.DB.SpendOps` | storage/storage.go:342-351 | committing the added operations removes exactly the coins the transaction spends |
| `Storage.DB.CreateOps` | storage/storage.go:352-361 | committing the added operations writes exactly the coins the transaction creates |
| `Ledger.CreateAt` | storage/storage.go:352-361 | each output becomes a coin under its own outpoint, with amount, script, height and coinbase mark |
| `Storage.DB.TransactionOps` | storage/storage.go:340-362 | the operations of one transaction spend first and create afterwards, a coinbase spending nothing |
| `Storage.DB.ApplyBatch` | storage/storage.go:309-371 | committing the batch gives undo log, block, index entry, coins and tip of the applied block |
| `Storage.DB.Apply` | storage/storage.go:295-372 | the whole new state of the store |
| `Storage.DB.RemovalOps` | storage/storage.go:243-250 | committing the added operations removes what the transaction created |
| `Storage.DB.DisconnectBatch` | storage/storage.go:239-271 | committing the batch removes the tip's outputs, restores its log in order and moves the tip back, or deletes it at height 0 |
| `Storage.DB.Disconnect` | storage/storage.go:225-272 | fails without a change if tip, block or log is missing, and otherwise leaves the disconnected state |
| `Refinement.ExtendRefines` | storage/storage.go:295-372 | applying a child of the tip makes the store represent the chain extended by it |
| `Refinement.DisconnectRefines` | storage/storage.go:225-272 | disconnecting makes the store represent the chain without its last block; only coins and tip change |
| `Refinement.InnerReadable` | storage/storage.go:85-95 | every active block below the tip can be read back |
| `Refinement.RepeatedCoinbaseIsLost` | storage/storage.go:225-272 | after applying and disconnecting an accepted block that repeats a coinbase with an unspent output, that coin is there if and only if the block itself spent it |
| `Refinement.RollbackRefines` | chain/chain.go:345-358 | a rollback succeeds and leaves the replay of the chain up to the height, for every height |
| `Reorganise.BranchAt` | chain/chain.go:284-308 | parent links lead from any linked block through stored blocks of falling height to height 0 |
| `Reorganise.SharedPrefix` | chain/chain.go:291-300 | branches that share a block share everything below it |
| `Reorganise.WalkFinds` | chain/chain.go:282-308 | the walk stops at a block shared with the active chain, and at no height it passed do branch and chain agree |
| `Reorganise.ForkPointIsActive` | chain/chain.go:282-308 | the walk ends at an active block if and only if no stale index entry misleads it |
| `Reorganise.ApplySideRefines` | chain/chain.go:319-335 | applying a stretch of a branch on its lower part represents the longer part |
| `Reorganise.ReorgRefines` | chain/chain.go:281-343 | a reorganisation succeeds and the store represents the whole new branch: coins, index, undo logs, blocks and tip of its replay |
| `Reorganise.StaleReorg` | chain/chain.go:281-343 | when misled, nothing is rolled back and the blocks above the stale entry are applied to the coins of the old chain |
| `StaleIndex.StaleSubmitLosesCoin` | chain/chain.go:200-358 | from a consistent store, after rolling one block back, every admissible child of it triggers a reorganisation that succeeds and leaves out the coins that block created, although the now active branch has them |
| `ForkChoice.WorkIsSum` | chain/chain.go:226-232 | the recorded work of a stored block is the sum of the work along its branch |
| `ForkChoice.ReorgAdds` | chain/chain.go:319-335 | a successful reorganisation adds the new block and its total work to the records and nothing else |
| `ForkChoice.SubmitKeepsStore` | chain/chain.go:200-277 | whatever is submitted, the stored blocks stay linked down to height 0 |
| `ForkChoice.ReorgTip` | chain/chain.go:281-343 | every successful reorganisation ends with the new block as tip |
| `ForkChoice.SubmitMovesTip` | chain/chain.go:226-277 | for every successful submission, whatever was rolled back before: recorded work stays exact, the tip moves exactly if the block becomes active, and the tip has the maximum of all recorded work if and only if no other record exceeds its work, which above height 0 is the larger of the old tip's and the block's |
| `ForkChoice.SubmitChoosesHeaviest` | chain/chain.go:226-277 | so a tip with the most recorded work keeps that property through every submission of which no block of height 0 becomes active |
| `StaleIndex.RollbackIsNotHeaviest` | chain/chain.go:345-358 | after a rollback that takes any block off, the tip does not have the most recorded work |
| `FirstSeen.StoreRequires` | consensus/consensus.go:88-105 | the bits the store asks of a child of an active block are those its chain alone determines |
| `FirstSeen.SiblingBits` | consensus/consensus.go:126-140 | children of one active parent need the same bits, at a retarget boundary too |
| `FirstSeen.SiblingTies` | chain/chain.go:226-274 | so a sibling of an active block has exactly its work and never outweighs the tip |
| `FirstSeen.SubmitKeepsInv` | chain/chain.go:200-277 | in a run a block is refused, extends the active chain, or only gets a work record, and never triggers a reorganisation, unless a block of height 0 becomes active |
| `FirstSeen.RunKeepsInv` | chain/chain.go:200-277 | over any run the old active chain is a prefix of the new one |
| `FirstSeen.GenesisInv` | chain/chain.go:50-64 | the state that `InitGenesis` leaves meets the invariant |
| `FirstSeen.RunIsSafe` | chain/chain.go:50-277 | after `InitGenesis` and any submissions of which no block of height 0 becomes active, the store represents a valid chain from genesis, each block has the required bits, all stored blocks are on it and but for genesis mined under the limit, its tip has the most work, and the supply bound holds |
| `FirstSeen.RunKeepsMined` | chain/chain.go:200-277 | whatever is submitted, in any order and at any clock, everything stored is mined |
| `FirstSeen.ZeroHeightMints` | chain/chain.go:208-266 | a block of height 0 on the tip passes without a check of height or difficulty and changes the total by its coinbase outputs less its fees |
| `FirstSeen.ZeroHeightBreaksCap` | chain/chain.go:208-266 | repeated, each such block can add the first reward, so that after 42 million of them the total exceeds the maximum supply |
| `History.ActiveChain` | storage/storage.go:225-272 | in every state of a history each active block can be disconnected without loss |
| `History.RollBackStep` | chain/chain.go:345-358 | a rollback keeps the invariant with the chain cut at the height |
| `History.BranchesAgree` | storage/storage.go:353-362 | the coins of the active chain and of any stored branch agree on amount and script wherever both hold an outpoint |
| `OwnCoins.BlockElsewhere` | consensus/consensus.go:144-222 | a block accepted at one set of coins is accepted at another that agrees with it if and only if every coin it spends is there and mature |
| `History.ReorgStep` | chain/chain.go:281-343 | a reorganisation keeps the invariant with the new branch as active chain |
| `History.ReorgIsUnchecked` | chain/chain.go:281-343 | the new branch becomes active in any case, and is a valid chain if and only if every coin the new block spends is on its own branch and mature there |
| `History.BadSpendIsAccepted` | chain/chain.go:222-277 | a submitted block that spends a coin its own branch does not have, or one that is not mature there, makes the active chain invalid |
| `History.ExtendStep` | chain/chain.go:250-263 | a child of the tip keeps the invariant with the chain extended |
| `History.RecordStep` | chain/chain.go:265-273 | recording a lighter side block keeps the invariant with the chain unchanged |
| `History.EventKeepsInv` | chain/chain.go:200-358 | every event keeps the invariant and moves the active chain as it should |
| `History.HistoryIsReplay` | chain/chain.go:200-358 | after every history the store is the replay of a valid chain from genesis, the tip's work is the sum of the chain's, every stored block but genesis is mined under the limit, and the coins stay below the cap |
| `History.EventsKeepMined` | chain/chain.go:200-358 | the same for every history of blocks, rollbacks and reorganisations |
| `Mempools.EntriesAreDisjoint` | mempool/mempool.go:36-53 | no two entries of a consistent pool spend the same outpoint |
| `Mempools.RateLeTransitive` | mempool/mempool.go:64 | comparing fee rates by cross products is transitive for entries of positive size |
| `Mempools.WrapMisleads` | mempool/mempool.go:112-120 | in a consistent pool of two ordinary 219-byte payments whose fees together are below all that can be minted, the scan evicts the one that pays five times as much, in either order |
| `Mempools.WrapIsRightWhen` | mempool/mempool.go:116 | the comparison of two entries is right if and only if the parts beyond 64 bits are equal or ordered as the rest |
| `Eviction.AlwaysEvictedWhen` | mempool/mempool.go:112-120 | an entry is evicted in every order in which the map may yield the pool if and only if it compares below every other entry |
| `Eviction.LeastIsEvictedWhen` | mempool/mempool.go:112-120 | the entry that pays least is evicted in every order if and only if, against every other entry, the parts of the two products beyond 64 bits are equal or ordered as the rest |
| `Mempools.ScanIsLowest` | mempool/mempool.go:112-120 | with several entries of minimum rate, one of them is evicted in every order if they compare below all others |
| `Mempools.NoWrapShows` | mempool/mempool.go:116 | which holds if no product reaches 2^64 |
| `Mempools.WithoutMinedKeeps` | mempool/mempool.go:79-95 | exactly the mined transactions leave, whatever is repeated in the block, and the pool stays consistent and bounded |
| `Mempools.Mempool.constructor` | mempool/mempool.go:29-31 | an empty consistent pool |
| `Mempools.Mempool.Delete` | mempool/mempool.go:88-93 | entry, size and index entries of one transaction go |
| `Mempools.Mempool.Remove` | mempool/mempool.go:98-110 | keeps the pool consistent and bounded; without the entry nothing changes |
| `Mempools.Mempool.FindLowest` | mempool/mempool.go:112-120 | what the scan settles on in some order of the entries; of minimum fee rate if the minima compare below all others |
| `Mempools.Mempool.EvictLowest` | mempool/mempool.go:112-131 | fails exactly on an empty pool, and otherwise drops exactly the entry the scan settles on in some order, of minimum rate if the minima compare below all others |
| `Mempools.Mempool.MakeRoom` | mempool/mempool.go:45-49 | terminates with room or an empty pool; one entry fewer evicted would have left too little room; if no product wraps, nothing evicted pays a higher rate than anything kept |
| `Mempools.Mempool.Register` | mempool/mempool.go:50-54 | the new entry is in the pool, its size counted and its outpoints indexed |
| `Mempools.Mempool.Add` | mempool/mempool.go:32-56 | admits exactly what validation accepts against the pool's own spends; on success the pool is the old one less the evicted plus the new entry with its fee, within the limit unless that entry alone exceeds it, and with the last evicted entry it would not be; on an error nothing changes |
| `Mempools.Mempool.RemoveMinedBlock` | mempool/mempool.go:79-95 | drops the block's transactions and keeps the pool consistent and bounded |
| `Mempools.Mempool.EntriesByFeeRate` | mempool/mempool.go:57-66 | lists every entry once, by falling fee rate if no product wraps |
| `Mempools.Mempool.Snapshot` | mempool/mempool.go:67-74 | every transaction of the pool once, by falling fee rate if no product wraps |
| `Managers.Manager.constructor` | chain/chain.go:46-48 | keeps the given parts |
| `Managers.Manager.InitGenesis` | chain/chain.go:50-64 | leaves an initialised store alone, and otherwise applies the mined block and records its work |
| `Managers.Manager.RollbackToHeight` | chain/chain.go:345-358 | terminates by tip height and computes the specified rollback, blocks and work untouched |
| `Managers.Manager.CollectSide` | chain/chain.go:282-308 | the loop computes the specified walk, and fails exactly where an index entry is missing |
| `Managers.Manager.ApplyAndRecord` | chain/chain.go:321-334 | a block is applied and its total work recorded |
| `Managers.Manager.ApplySideChain` | chain/chain.go:319-335 | a newest-first list is applied oldest first |
| `Managers.Manager.ForgetMined` | chain/chain.go:337-342 | the transactions of all applied blocks leave the pool |
| `Managers.Manager.SwitchTo` | chain/chain.go:281-343 | the store becomes that of the specified reorganisation; the pool loses the side blocks' transactions on success and nothing on failure |
| `Managers.WithoutBlocksKeeps` | chain/chain.go:335-340 | the transactions of all the blocks are gone from the pool, every other entry stays, and the pool stays consistent and bounded |
| `Managers.ReorgForgetsMined` | chain/chain.go:275-343 | after a successful reorganisation the pool holds what it held less the transactions of the applied blocks |
| `Managers.Manager.ValidateHeader` | consensus/consensus.go:106-140 | finds the first fault of a header in the order of the code; without one the root is that of the transactions, the hash at most the target, the target at most the limit, and the time at most two hours ahead |
| `Headers.AdmissionMeans` | chain/chain.go:200-221 | the checks before the transactions pass if and only if the block is new, commits to its transactions, has a hash at most its target and a target at most the limit, is at most two hours ahead, and above height 0 continues a stored block with the bits required there |
| `Headers.AdmissionErrorMeans` | chain/chain.go:200-221 | the reported error names something that is wrong with the block |
| `Headers.SubmitKeepsMined` | chain/chain.go:200-343 | whatever a submission stores has a hash that, read with byte 0 most significant, is at most its target, a target at most the limit, and the root of its transactions |
| `Headers.MinedHashesStartWithZeros` | consensus/consensus.go:77-87 | under a limit below 2^(8(32 - k)) the hash of every stored block but genesis starts with k zero bytes |
| `Managers.Manager.Check` | chain/chain.go:203-224 | passes exactly the admissible blocks and says why the others are refused |
| `Managers.Manager.ValidateAndApplyBlock` | chain/chain.go:200-277 | the store becomes that of the specified submission; the pool loses exactly the transactions of the blocks that became active; an error is a failed reorganisation exactly if the block was admissible |
| `Balances.ListUTXOs` | storage/storage.go:162-173 | lists every coin once, in whatever order |
| `Balances.ListUTXOsByScript` | storage/storage.go:175-187 | lists exactly the coins the script locks, each once |
| `Balances.SumIsTotal` | storage/storage.go:194-200 | the sum over such a listing does not depend on its order |
| `Balances.BalanceByScript` | storage/storage.go:189-202 | the value of the script's coins, or an inflation error exactly if it exceeds 64 bits |
| `Balances.BalanceIsSafe` | storage/storage.go:189-202 | on a store that represents a valid chain that error never happens |
| `Codec.LastByteLeads` | tx/transaction.go:66-101 | numbers are little-endian: the last byte is the most significant |
| `Codec.TransactionRoundTrip` | tx/transaction.go:61-179 | reading a written transaction before any suffix gives it back and leaves the suffix, exactly if it is within the limits, and fails otherwise |
| `Codec.TransactionReadBack` | tx/transaction.go:103-147 | what a successful read consumed is the serialization of its result, which is within the limits |
| `Codec.HeaderRoundTrip` | blockchain/block.go:94-118 | reading a written header before any suffix gives it back and leaves the suffix |
| `Codec.HeaderReadBack` | blockchain/block.go:104-118 | what reading a header consumed is its bytes |
| `Codec.HeaderBytesInjective` | blockchain/block.go:29-46 | different headers are hashed from different bytes |
| `Codec.BlockRoundTrip` | blockchain/block.go:75-143 | a block comes back from its bytes exactly if count and transactions are within the limits |
| `Codec.BlockReadBack` | blockchain/block.go:104-143 | what a successful read of a block consumed is the serialization of its result |
| `Injective.SerializationIsInjective` | tx/transaction.go:61-99 | no serialization is a prefix of another, limits or not |
| `Injective.IdsFromHash` | tx/transaction.go:35-39 | without collisions on the serializations, identifiers tell transactions apart |
| `Injective.HeadersFromHash` | blockchain/block.go:29-46 | without collisions on the header bytes, hashes tell headers apart |
| `Streams.WriteInputs` | tx/transaction.go:73-84 | the loop appends the wire form of the inputs |
| `Streams.WriteOutputs` | tx/transaction.go:88-95 | the loop appends the wire form of the outputs |
| `Streams.WriteTransaction` | tx/transaction.go:66-99 | appends exactly the serialization |
| `Streams.WriteBlock` | blockchain/block.go:80-102 | appends header, count and transactions |
| `Streams.ReadInputs` | tx/transaction.go:115-128 | the loop reads what the recursive parser reads, or fails where it fails |
| `Streams.ReadOutputs` | tx/transaction.go:136-143 | the loop reads what the recursive parser reads, or fails where it fails |
| `Streams.ReadTransaction` | tx/transaction.go:103-147 | reads what the parser of the round trip reads |
| `Streams.ReadBlock` | blockchain/block.go:104-143 | reads what the parser of the round trip reads |
| `Merkle.NodeHeight` | blockchain/block.go:56-67 | a hash cannot stand for tree nodes of two heights |
| `Merkle.RootInjective` | blockchain/block.go:48-69 | lists without duplicates, of whatever lengths, with one root are equal |
| `Merkle.HeaderHashDeterminesBlock` | blockchain/block.go:29-69 | two blocks that pass validation, each at any coins, height and verifier, and share a header hash are the same block |
| `Merkle.DuplicateKeepsRoot` | blockchain/block.go:56-67 | repeating the last of any odd number of transactions from three up keeps the root |
| `Merkle.SingleIsApart` | blockchain/block.go:56-67 | a single transaction is the exception: the pair of it has another root, unless the hash collides |
| `Compact.EncodeIsWord` | params/params.go:103-121 | encoding packs the unique exponent and the mantissa rounded down |
| `Compact.CompactPrecision` | params/params.go:88-121 | decode of encode rounds down by less than one part in 2^15, and not at all below 2^23 |
| `Compact.CompactIdempotent` | params/params.go:88-121 | encoding a decoded target gives the same word |
| `Compact.CompactMonotone` | params/params.go:103-121 | encoding keeps order |
| `Compact.DecodedMonotone` | params/params.go:88-121 | decoded targets keep the order of what was encoded |
| `Compact.RetargetBounds` | consensus/consensus.go:88-105 | after every block, for any timestamps, the required target is at most the limit and four times the old one, at least a quarter less one part in 2^15, and positive from four up; the bits change at a window boundary only, and an error means a boundary whose first header is missing |
| `Compact.NegativeWord` | params/params.go:88-101 | a set sign bit negates |
| `Targets.RetargetScales` | consensus/consensus.go:56-68 | the new target is the old one times actual over expected time, rounded down, with the actual time raised to a quarter and cut to four times the expected time |
| `Targets.RetargetRises` | consensus/consensus.go:56-68 | more time never gives a harder target |
| `Targets.BoundaryFollowsTime` | consensus/consensus.go:88-105 | at a boundary the required target is the limit, or within one part in 2^15 of the old one scaled by the time from the header 719 below the tip to the tip |
| `Targets.WorkIsQuotient` | consensus/consensus.go:69-76 | the work of a positive target is the largest w with w(target + 1) at most 2^256, and of any other target 0 |
| `Targets.HalfTargetDoublesWork` | consensus/consensus.go:69-76 | halving target + 1 at least doubles the work |
| `Difficulty.HarderIsMoreWork` | consensus/consensus.go:69-76 | a harder target never stands for less work |
| `Targets.FirstByteLeads` | consensus/consensus.go:82-86 | a digest is read with its first byte most significant |
| `Targets.LeadingZeros` | consensus/consensus.go:82-86 | a digest of n bytes is below 2^(8(n - k)) if and only if its first k bytes are zero |
| `Networks.TargetInRange` | params/params.go:88-102 | a positive mantissa at an exponent from 4 to 32 is a positive target below 2^256 |
| `Networks.ShippedTargets` | params/params.go:23-24 | the easiest targets of the shipped networks are positive, encodable and below 2^256, as the results above ask |
| `Bech32.Round` | wallet/bech32.go:80-88 | the inner loop computes one step of the register |
| `Bech32.Polymod` | wallet/bech32.go:77-91 | the nested loops fold the step over the values |
| `Bech32.StepXor` | wallet/bech32.go:80-88 | one step is linear over the field of two elements |
| `Bech32.StepKernel` | wallet/bech32.go:80-88 | a step with a zero value takes only the zero register to zero |
| `Bech32.FoldXor` | wallet/bech32.go:77-91 | registers of two lists differ by what the difference of the lists alone produces |
| `Bech32.ExpandHrp` | wallet/bech32.go:66-76 | the loops compute high bits, a zero and low bits of the prefix |
| `Bech32.HrpExpandAt` | wallet/bech32.go:66-76 | position by position: three high bits of each character, a zero, five low bits of each |
| `Bech32.KnownString` | wallet/bech32.go:63-91 | the first valid string that BIP 173 lists, A12UEL5L, has a correct checksum |
| `Bech32.CreateChecksum` | wallet/bech32.go:52-62 | the loop computes the six digits of the checksum |
| `Bech32.ChecksumVerifies` | wallet/bech32.go:52-65 | the created checksum verifies, for any prefix and data |
| `Bech32.BurstDetected` | wallet/bech32.go:63-91 | two lists that verify under one prefix and differ only within six consecutive symbols are equal |
| `Bech32Text.Encode` | wallet/bech32.go:10-27 | the specified string, or an error for an empty prefix or a value above 31 |
| `Bech32Text.Decode` | wallet/bech32.go:28-51 | the specified prefix and data, or the error of the first check that fails |
| `Bech32Text.DecodeInvertsEncode` | wallet/bech32.go:10-51 | decoding inverts encoding for every non-empty lower-case prefix and five-bit data |
| `Bech32Text.EncodeInvertsDecode` | wallet/bech32.go:10-51 | an accepted string is the encoding of what it decodes to, up to the case of its letters |
| `Bech32Text.AcceptedStrings` | wallet/bech32.go:28-51 | a string is accepted if and only if it is an encoding under a lower-case prefix, all in lower or all in upper case |
| `Bech32Text.BurstInText` | wallet/bech32.go:28-51 | two accepted strings of one length and prefix that differ only within six consecutive characters are the same up to case |
| `ConvertBits.ConvertBits` | wallet/bech32.go:92-118 | the nested loops compute the specified regrouping for widths 1 to 8, or the error of an oversized value or of bad padding |
| `ConvertBits.PaddedValue` | wallet/bech32.go:92-113 | with padding the result is the same number followed by fewer than one group of zero bits |
| `ConvertBits.ExactValue` | wallet/bech32.go:92-118 | without padding it succeeds if and only if fewer than one input group of bits is left over and all are zero, and the result is the number without them |
| `ConvertBits.RegroupAndBack` | wallet/bech32.go:92-118 | regrouping with padding and back without gives the same values, for every sequence |
| `ConvertBits.BackAndRegroup` | wallet/bech32.go:92-118 | whatever regroups without padding comes back from regrouping with padding |
| `Addresses.AddressFromPublicKey` | wallet/wallet.go:58-64 | the address of the key's hash under the prefix |
| `Addresses.DecodeAddress` | wallet/wallet.go:66-75 | the hash the address stands for, or the error of the first check that fails |
| `Addresses.AddressRoundTrip` | wallet/wallet.go:58-75 | every hash has an address under every non-empty prefix, and it decodes to that hash if and only if the prefix is in lower case |
| `Addresses.AddressIsCanonical` | wallet/wallet.go:58-75 | an accepted address is the one address of its hash, up to case |
| `Addresses.ScriptRoundTrip` | consensus/consensus.go:227-234 | a script yields a hash if and only if it is that hash's script |
| `Addresses.LockingScriptForAddress` | wallet/wallet.go:77-83 | the script of the decoded hash, or the decoding error |
| `Builder.ComputeSignatureHash` | wallet/wallet.go:85-97 | the double hash of the serialized transaction with the script as signature of the one input, if the index is in range, and no other signature or key |
| `Builder.SignatureHashIgnoresSignatures` | wallet/wallet.go:85-97 | transactions equal but for signatures and keys have the same signature hashes |
| `Signatures.SignatureHashCommits` | wallet/wallet.go:85-97 | conversely, two inputs with one hash are of the same payment, spend the same script, and are the same input unless that script is empty |
| `Signatures.AcceptedIsVerified` | consensus/consensus.go:196-198 | with a verifier, every input after the coinbase of an accepted block was verified against its coin's script |
| `Signatures.ChainIsSigned` | wallet/wallet.go:116-139 | on a chain valid under the wallet's verifier every spent coin's script names the hash of the spending input's key, and that key verifies its 64-byte signature over the payment |
| `Builder.SignInput` | wallet/wallet.go:99-112 | sets signature and key of the one input, or fails without a result if the index is out of range or signing fails |
| `Builder.SelectCoins` | wallet/builder.go:36-53 | the shortest prefix of the coins that reaches the need, or overflow, or insufficient funds if all of them fall short |
| `Builder.SignAll` | wallet/builder.go:60-64 | although each hash is taken over a partly signed transaction, every signature is over the unsigned draft |
| `Builder.BuildTransaction` | wallet/builder.go:16-66 | the signed draft, or the error of the first step that fails |
| `Payment.OwnScript` | wallet/wallet.go:77-83 | a wallet's script, once its address decodes, is that of its key |
| `Payment.SignedVerifies` | wallet/wallet.go:99-139 | a signed input verifies, whatever is signed after it |
| `Payment.NullIsNoCoin` | tx/transaction.go:40-42 | on a chain of readable blocks no coin sits at the outpoint that marks a coinbase, so a payment is never mistaken for one |
| `Payment.BuiltIsValid` | wallet/builder.go:16-66 | a built transaction spends only the wallet's coins, pays the recipient the amount and the rest to the wallet, exceeds its outputs by exactly the fee, and is valid at a height if and only if the fee reaches the minimum and its coins are mature |
| `Payment.BuiltIsAccepted` | consensus/consensus.go:176-222 | `ValidateTransaction` accepts it if and only if the fee reaches the minimum, and computes that fee |
| `Curves.ThirdIsOnCurve` | wallet/secp256k1.go:58-70 | where the line meets the curve in two points, counted with multiplicity, the computed third point is on the curve |
| `Curves.DoubleOnCurve` | wallet/secp256k1.go:72-91 | doubling stays on the curve or gives infinity |
| `Curves.AddOnCurve` | wallet/secp256k1.go:40-71 | adding stays on the curve or gives infinity |
| `Curves.SumIsInfinity` | wallet/secp256k1.go:48-55 | a sum is infinity if and only if the points are each other's reflection |
| `Curves.AddCommutes` | wallet/secp256k1.go:40-71 | addition commutes |
| `Curves.SumIs` | wallet/secp256k1.go:56-71 | without inverses: a sum is the one point whose reflection lies on the line through the points and whose abscissa makes the three add up to the square of the slope |
| `Curves.DoubleIsOnTangent` | wallet/secp256k1.go:72-91 | the reflection of a double lies on the tangent, and twice the abscissa plus the new one is the square of its slope |
| `Curves.MultipleOnCurve` | wallet/secp256k1.go:92-105 | multiples of a point of the curve stay on the curve |
| `Curves.DoubleIsSum` | wallet/secp256k1.go:72-91 | doubling is adding a point to itself |
| `Curves.NextMultiple` | wallet/secp256k1.go:92-105 | if addition associates, the next multiple adds the point once more |
| `Curves.MultiplesAdd` | wallet/secp256k1.go:92-105 | the multiples by 0 and 1 are infinity and the point, and if addition associates, multiples add up |
| `Curves.ScalarMult` | wallet/secp256k1.go:92-105 | the bit loops compute the multiple by the big-endian number, so leading zero bytes do not matter, and never leave the curve |

## Left out

- Files, sockets and crashes: the store is a set of maps, a batch a list of operations, and every operation of the storage layer succeeds.
- JSON, hexadecimal and decimal encodings of coins, undo logs, work and keys are taken as lossless, nil and empty byte slices as equal.
- The `spent:` markers and the transaction index are written but never read by validation.
- Inside of SHA-256, RIPEMD-160, ECDSA, AES-GCM and PBKDF2, and the compressed form of public keys.
- `miner.Mine`: the nonce search is a parameter, the mined block.
- `BuildTemplate`, `MineBlocks`, `TotalBlockRewards` and `chain/protection.go`: they would only add easy members.
- `rpc`, `explorer`, `cmd`, `pay`, `security`, `p2p` and `sync`; seed phrases, wallet files and the hardware signer.
- Locks: methods run one at a time.
- Associativity of curve addition, which `Curves.NextMultiple` and `Curves.MultiplesAdd` take as a hypothesis, and the primality of the modulus.
- Streams are byte sequences, and a reader returns what is left; short reads of a live connection are not modelled.
- `Encode` and `Decode` of `Bech32Text` map the case of ASCII letters only.
- BigToCompact: negative numbers are not modelled; no caller passes one.
- Add: asks that no different transaction with the same identifier is in the pool; the byte counter is an unbounded integer.
- EntriesByFeeRate: the library sort is an insertion sort with the same comparison, and order is stated only for pools in which no product wraps.
- EvictLowest: with several entries of minimum rate, that the minima compare below all others is sufficient and not necessary; for one such entry the condition is exact.
- MakeRoom: the order of eviction is stated only for pools in which no product wraps.
- ReorgRefines: asks that the blocks to be disconnected wrote over no coin; `History.ActiveChain` shows it for every state of a history.
- HistoryIsReplay: asks of each block that triggers a reorganisation that it spends only coins of its own branch that are mature there, since the code checks it against the old tip's coins, and that no stale index entry misleads the walk; of each block that becomes active that it is above height 0 and its coinbase is none of its ancestors'; and that all blocks can be read back from the store. `History.ReorgIsUnchecked` and `Reorganise.ForkPointIsActive` say exactly what the first two decide.
- RunIsSafe: asks that no block of height 0 becomes active, as the code checks such a block against no parent.
- CoinbaseMatures: heights within 100 of the largest 64-bit number are left out, as the code's sum wraps there.
- SignatureHashCommits: asks that no field of the two transactions has 2^63 bytes or more.
- SignInput: returns the signed transaction instead of changing it in place.
