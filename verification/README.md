# Verified model of the Lithe core

Lithe is a CryptoNote node. This project models, in Dafny, the parts of it whose
correctness rests on more than one function at a time, and proves what those parts are for.

**The ledger and its reorganizations.** A node keeps a stack of blocks and, beside it, an
index of block ids, a transaction map, the spent key images, the outputs of each amount,
the multisignature outputs with their used flags, and the deposit index. It keeps
alternative blocks and shares transactions with a pool. `LedgerTypes`, `TxCaches`,
`Validation` and `Ledger` say what each step does; `InputChecks` says what passing the checks
means; `ChainFacts` and `Deposits` say what the caches mean, and `Rebuilding` what a rebuild
makes of them; `Forks` and `BranchTimes` say what an alternative block is judged by; `Reorg`,
`NestedSwitch` and `Runs` prove what every switch, every rollback and every run keeps, `Anchoring`
what the stored alternatives hang on, `Tips` when the tip gets worse, and `Losses` where a run can
end. Three modules restate the outcome without the functions that compute it: `BlockLaws` says
which blocks are accepted and what the main chain of every reachable state obeys, `Maturity` when
an output is spent, and `Adoption` which blocks are stored beside the main chain and exactly when
the chain they lead becomes the main chain. `Blockchain` is the object itself: its methods update fields
in place, with the loops of the source, and each is proved to make exactly the step of the
model. `Exits` settles which exits of `pushBlock` break the agreement of caches and blocks.

**Synchronization.** `BlockIndex` is the list of ids, the thinned-out list a node sends,
and the bound on how far back a peer is sent.

**Concurrency.** `BlockingQueue`, `GroupClose` and `PoolUpdateGuard` are state machines.
A step of the queue is a stretch of code under its mutex, a step of the other two a single
atomic operation; threads interleave freely, the thread woken by a notification is
arbitrary, and waits and weak compare-and-swaps fail spuriously.

**Codecs and arithmetic.** `Varint`, `Base58`, `Json`, `JsonGrammar` (which texts are read, as
tokens and white space), `IntUtil` and `ShuffleGenerator`, with `Powers`, `Radix`, `Words` and
`Wrappers` beneath them. Loops over buffers and streams are methods; the functions they are
proved against carry the round-trip theorems.

## Assumptions

- Hashes identify what they hash, and no block hashes to the null hash. Signature, ring,
  proof-of-work and currency formulas are arbitrary deterministic functions. The clock is
  an arbitrary monotone function of a step counter, read once per `pushBlock`. All of these
  are fields of `Validation.Rules`; `Validation.Lawful` is the whole assumption.
- A block offered to `pushBlock` comes with the transactions it names, each of which passed
  the checks for relay (`src/CryptoNoteCore/Core.cpp:255-304`): that is how the pool got it.
- Upgrades happen at fixed heights.
- Integers are unbounded except where a width matters: the two halves of a product, the
  counter of `GroupClose`, the countdown of the pop loops, the depth limit of reorganizations,
  the positions of ring members, the widths of variable-length integers, the block values of
  Base58 and the integers of JSON are modelled with their wrap-around, overflow or clamping.

## Where the code falls short

- Two exits of `pushBlock` leave the block's transactions in the caches: the size test
  (`src/CryptoNoteCore/Blockchain.cpp:2271-2274`), and the exception thrown when a transaction
  names an output of its own block. `Exits.CachesAgreeIff` shows that these are the only two,
  `Exits.ThrowsIff` says exactly which blocks throw, and `Exits.SizeExitHappens`,
  `Exits.SpendingOwnCoinbaseThrows` and `Exits.ThrowExitHappens` give blocks that do. After the
  exception the transactions are also gone from the pool (`Losses.LostPool`). The runs of `Runs`
  end there, with only the caches wrong (`Losses.RunEndsWith`). When the size exit happens inside a switch, the
  rollback pushes the disconnected blocks onto the leftovers, and one that shares a transaction
  with the refused block is refused as well (`Losses.SharedTransactionIsRefused`).
- The deposit index records no entry, and so no interest, for a block whose deposits and
  withdrawals cancel out (`BlockLaws.RecordedInterestIs`, `DepositIndex.InterestCanBeLost`).
- The deposit index is not cleared before a rebuild pushes every block onto it, so it is right
  afterwards exactly when it was empty (`DepositIndex.RebuiltIff`).
- Formula and window of an alternative block's difficulty go by the main chain's size, not by
  the block's own height. `Forks.AltAsksTheSameIff` says exactly when that makes no difference;
  with the configured heights it does for blocks at height one and no others
  (`Forks.ConfiguredRegimes`, `Forks.FirstBlockDiffers`, `Reorg.FirstForkBlockIsInaccurate`).
- The timestamps collected for an alternative block leave out the first block and are not cut to
  the window, so it is not always judged by what it would be judged by at the tip
  (`BranchTimes.JudgedAlikeIff`, `BranchTimes.FullWindowIsNotJudged`).
- Below a size of fifteen the subtraction that limits the depth of a reorganization wraps, and
  every alternative block is refused (`Reorg.AltAllowedIff`, `Reorg.ShallowForkRefused`).
- The pop loops count an unsigned number down to the split height and would never end at height
  zero (`Words.CountdownEndsIff`); every switch passes at least one.
- A switch that starts inside a switch, while the disconnected blocks are stored back, can never
  complete, and undoes the outer one (`NestedSwitch.NestedSwitchFails`). It starts when a stored
  block is given more than the new tip has (`Tips.StoredBackIsBetter`). Only this consequence is
  claimed: no particular chain on which one starts is given.
- A switch that meets a refusal erases the refused block and those above it but not other stored
  blocks that name them, so the walk that `doBuildSparseChain` asserts to end on the main chain may
  not (`Anchoring.RefusedSwitchAnchoredIff`, `Anchoring.AncestryIff`).
- A pool change reported while the explorer is not synchronized or not observed is dropped, and
  that is the only way one is (`PoolUpdateGuard.EarlyReportIsDropped`,
  `PoolUpdateGuard.QuietMeansUpToDate`).
- `read_varint` does not tell the end of input from the end of the number, so `decode_addr`
  accepts an unterminated tag (`Base58.AcceptedAddrIff`, `Base58.UnterminatedTagAccepted`).
- `GroupClose::close` tests and decrements in two steps, so a caller beyond the group can make
  the counter wrap (`GroupClose.ExtraCallerCanWrap`, `GroupClose.ClosedOnceIff`).
- The JSON printer does not escape, so a string with a bare quote does not come back
  (`Json.RoundTripIff`, `Json.BareQuoteIsLost`).

## Model

| member | source | states |
|---|---|---|
| TxCaches.RemoveOutputsUndoesAddOutputs | src/CryptoNoteCore/Blockchain.cpp:2445-2544 | removing a transaction's outputs from the back of their lists restores every list, also the absence of a list that was created |
| TxCaches.SetUsedUndone | src/CryptoNoteCore/Blockchain.cpp:2437-2563 | clearing the used flags a transaction set restores the multisignature lists |
| TxCaches.RemoveTxUndoesAddTx | src/CryptoNoteCore/Blockchain.cpp:2401-2572 | popTransaction after pushTransaction is the identity on all four caches, for every transaction that fits |
| TxCaches.RemoveAllUndoesAddAll | src/CryptoNoteCore/Blockchain.cpp:2574-2580 | popping the transactions of a block, last first, is the identity after pushing them all |
| TxCaches.FitsAllDistinct | src/CryptoNoteCore/Blockchain.cpp:2401-2408 | transactions pushed one after the other have different hashes, all in the map afterwards and none before |
| BlockchainObject.Blockchain.MultisigInputsDiffer | src/CryptoNoteCore/Blockchain.cpp:2412-2418 | says exactly whether no two multisignature inputs of the transaction name the same output |
| BlockchainObject.Blockchain.SpendKeyImages | src/CryptoNoteCore/Blockchain.cpp:2420-2435 | succeeds exactly when no key image is already spent or repeated; a refusal leaves the set as it was; it throws only when an input that is not a key input stands before the repeated image |
| BlockchainObject.Blockchain.UnspendKeyImages | src/CryptoNoteCore/Blockchain.cpp:2427-2429 | taking the images back restores the set unless an input of another kind is met, which throws |
| BlockchainObject.Blockchain.PushTransaction | src/CryptoNoteCore/Blockchain.cpp:2401-2462 | either the caches become those with the transaction added and the indexes returned are the positions of its outputs, or nothing changed; a refusal has exactly the three stated causes |
| BlockchainObject.Blockchain.MarkOutputs | src/CryptoNoteCore/Blockchain.cpp:2437-2443 | exactly the outputs named by the inputs get the flag |
| BlockchainObject.Blockchain.AppendOutputs | src/CryptoNoteCore/Blockchain.cpp:2445-2457 | each output goes to the end of the list of its amount and its index is its place there |
| BlockchainObject.Blockchain.TakeBackOutputs | src/CryptoNoteCore/Blockchain.cpp:2466-2544 | outputs leave their lists last first, each only when it is the last entry and, for a multisignature output, unused |
| BlockchainObject.Blockchain.PopTransaction | src/CryptoNoteCore/Blockchain.cpp:2464-2572 | the caches become those with the transaction removed |
| BlockchainObject.Blockchain.PopTransactions | src/CryptoNoteCore/Blockchain.cpp:2574-2580 | the caches become those before the block's transactions were pushed |
| BlockchainObject.Blockchain.RebuildTransaction | src/CryptoNoteCore/Blockchain.cpp:580-608 | a hash already in the map keeps its place, and inputs and outputs are entered regardless |
| BlockchainObject.Blockchain.RebuildCache | src/CryptoNoteCore/Blockchain.cpp:558-617 | for any stored blocks, caches and index become functions of the blocks alone; the deposit index, which is not cleared, has every block's change pushed onto what it held |
| Rebuilding.RebuildIsExact | src/CryptoNoteCore/Blockchain.cpp:558-617 | on a valid chain a rebuild meets no missing list entry and gives exactly the caches, the index and the deposit changes that connecting the blocks gave |
| BlockchainObject.Blockchain.RebuildBlock | src/CryptoNoteCore/Blockchain.cpp:578-608 | one block's transactions are entered after those of the blocks below it, and the interest is the sum over them |
| Rebuilding.CoinbaseEarnsNothing | src/CryptoNoteCore/Blockchain.cpp:607 | counting the coinbase's interest as well, as a rebuild does and pushBlock does not, changes nothing |
| BlockchainObject.Blockchain.TotalTransactionInterest | src/CryptoNoteCore/Currency.cpp:268-280 | the loop sums the interest of the deposits among the inputs |
| DepositIndex.RebuiltIff | src/CryptoNoteCore/Blockchain.cpp:558-610 | pushing every block again gives the index of the blocks if and only if the index was empty before |
| Multisig.GreedyFindsAssignment | src/CryptoNoteCore/Blockchain.cpp:2635-2652 | when the greedy loop accepts there is a strictly increasing assignment of signatures to keys that all verify |
| Multisig.AssignmentMakesGreedySucceed | src/CryptoNoteCore/Blockchain.cpp:2635-2652 | when such an assignment exists the greedy loop accepts |
| Multisig.GreedyIsComplete | src/CryptoNoteCore/Blockchain.cpp:2635-2652 | the greedy loop accepts if and only if such an assignment exists |
| Multisig.MatchSignatures | src/CryptoNoteCore/Blockchain.cpp:2635-2652 | the two-index loop returns true if and only if such an assignment exists |
| Validation.AcceptedStaysAccepted | src/CryptoNoteCore/Blockchain.cpp:2115-2315 | a block accepted on given blocks is accepted with the same entry at every later time |
| Validation.ChainOkLater | src/CryptoNoteCore/Blockchain.cpp:816-841 | a chain that validates stays valid as time goes on, which is what a rollback relies on |
| InputChecks.AbsoluteIsPrefixSum | src/CryptoNoteCore/CryptoNoteFormatUtils.cpp:505-510 | the positions an input refers to are the running sums of its stored differences, modulo 2^32 |
| InputChecks.ToAbsolute | src/CryptoNoteCore/CryptoNoteFormatUtils.cpp:505-510 | the loop computes those positions |
| InputChecks.ScanKeysIff | src/CryptoNoteCore/Blockchain.h:345-386 | the scan yields keys if and only if every position names an existing, unlocked key output, and then yields their keys in order |
| InputChecks.ScanOutputKeys | src/CryptoNoteCore/Blockchain.h:345-386 | the loop stops at the first position that cannot be used, and throws exactly when that one's block is missing |
| InputChecks.KeyInputPassesIff | src/CryptoNoteCore/Blockchain.cpp:1837-1912 | a key input passes if and only if its image is unspent and a ring signature over exactly the keys it refers to verifies |
| InputChecks.MsigInputPassesIff | src/CryptoNoteCore/Blockchain.cpp:2582-2653 | a multisignature input passes if and only if its output exists, is unused, unlocked and past its term, agrees in count and term, and the signatures match its keys in order |
| InputChecks.CheckTxInput | src/CryptoNoteCore/Blockchain.cpp:1837-1912 | the verdict on a key input |
| InputChecks.ValidateInput | src/CryptoNoteCore/Blockchain.cpp:2582-2653 | the verdict on a multisignature input, with the greedy signature loop |
| InputChecks.InputsPassIff | src/CryptoNoteCore/Blockchain.cpp:1769-1816 | the inputs pass if and only if each one does |
| InputChecks.CheckTransactionInputs | src/CryptoNoteCore/Blockchain.cpp:1769-1816 | the loop returns the verdict of the first input that does not pass |
| InputChecks.CheckTxOutputs | src/CryptoNoteCore/Blockchain.cpp:1919-1947 | says exactly whether every multisignature output is allowed by version, term and amount |
| InputChecks.CheckTransaction | src/CryptoNoteCore/Blockchain.cpp:2230-2261 | the verdict on a transaction of a block, where a lookup beyond the chain throws even when another check fails |
| ChainFacts.RebuildIsFlat | src/CryptoNoteCore/Blockchain.cpp:558-617 | rebuilding block by block equals adding all transactions of the chain in order |
| ChainFacts.TxKeysExact | src/CryptoNoteCore/Blockchain.cpp:2402-2408 | the transaction map holds exactly the hashes of the chain's transactions |
| ChainFacts.SpentKeysExact | src/CryptoNoteCore/Blockchain.cpp:2420-2435 | a key image is in the spent set if and only if some chain input carries it |
| ChainFacts.NoImageSpentTwice | src/CryptoNoteCore/Blockchain.cpp:1769-1816 | no key image occurs in two inputs of an admissible chain |
| ChainFacts.UsedExact | src/CryptoNoteCore/Blockchain.cpp:2437-2443 | an output is marked used if and only if some chain input refers to it |
| ChainFacts.NoOutputSpentTwice | src/CryptoNoteCore/Blockchain.cpp:2599-2605 | no multisignature output is spent by two inputs of an admissible chain |
| ChainFacts.OutputListExact | src/CryptoNoteCore/Blockchain.cpp:2445-2457 | every list of an amount, of key outputs or of multisignature outputs, is strictly ascending by block, transaction and output, and holds exactly the outputs of that kind and amount |
| ChainFacts.GlobalIndexFindsOutput | src/CryptoNoteCore/Blockchain.cpp:2449-2455 | the index given to an output of either kind is its position in its list |
| ChainFacts.StoredIndexPointsBack | src/CryptoNoteCore/Blockchain.cpp:2445-2457 | in a valid chain the stored global index of every output, key or multisignature, leads back to it, however many blocks follow |
| ChainFacts.CheckedTxSpendsUnspent | src/CryptoNoteCore/Blockchain.cpp:1769-1816 | a transaction that passes the input checks spends only unspent images and existing unused outputs, each once |
| ChainFacts.BlockAdmissible | src/CryptoNoteCore/Blockchain.cpp:2205-2269 | the transactions of a block that passes the checks can all be pushed, in order, without a refusal |
| ChainFacts.ChainAdmissible | src/CryptoNoteCore/Blockchain.cpp:2115-2315 | the transactions of a valid chain are admissible one after the other and stand in chain order |
| Deposits.DepositsConserved | src/CryptoNoteCore/Blockchain.cpp:2332-2353 | the sum of the deposit changes over an admissible list of transactions equals the total of the unspent term outputs |
| Deposits.CheckedInputTerm | src/CryptoNoteCore/Blockchain.cpp:2582-2633 | an input that passes validation carries the term of the output it spends |
| Deposits.ChainDepositsConserved | src/CryptoNoteCore/Blockchain.cpp:2332-2353 | over every valid chain the recorded deposit changes sum to the unspent term outputs |
| DepositIndex.PopUndoesPush | src/CryptoNoteCore/DepositIndex.cpp:59-86 | popping undoes pushing a block's deposit change, also when the block left no entry |
| DepositIndex.FullAmountIsSum | src/CryptoNoteCore/DepositIndex.cpp:31-33 | the full deposit amount is the sum of all changes |
| DepositIndex.RecordedInterest | src/CryptoNoteCore/DepositIndex.cpp:59-78 | the recorded interest is the sum of all interest if and only if every block with a zero net change paid none |
| DepositIndex.InterestCanBeLost | src/CryptoNoteCore/DepositIndex.cpp:59-78 | a block with zero net change and interest loses that interest: a concrete pair of blocks |
| DepositIndex.AmountAtIsPrefixSum | src/CryptoNoteCore/DepositIndex.cpp:118-125 | the amount at a height is the sum of the changes up to that height |
| DepositIndex.Index.PushBlock | src/CryptoNoteCore/DepositIndex.cpp:59-78 | the index becomes the one with the change pushed |
| DepositIndex.Index.PopBlock | src/CryptoNoteCore/DepositIndex.cpp:80-86 | the index becomes the one with the last change popped |
| DepositIndex.Index.PopBlocks | src/CryptoNoteCore/DepositIndex.cpp:98-116 | leaves the index of exactly the blocks below the given height and returns how many were dropped |
| BlockchainObject.Blockchain.PushToDepositIndex | src/CryptoNoteCore/Blockchain.cpp:2332-2353 | the net deposit change of the block's transactions is pushed |
| Ledger.TakeUndoesReturn | src/CryptoNoteCore/Blockchain.cpp:2856-2883 | taking back the transactions just returned leaves the pool as it was |
| Ledger.ReturnUndoesTake | src/CryptoNoteCore/Blockchain.cpp:2856-2883 | returning the transactions just taken leaves the pool as it was |
| Ledger.PushKeepsMain | src/CryptoNoteCore/Blockchain.cpp:2100-2315 | an accepted push keeps index, caches, deposits and pool in agreement with the blocks; so does a refused one |
| Ledger.PopKeepsMain | src/CryptoNoteCore/Blockchain.cpp:2370-2399 | a pop keeps them in agreement |
| Ledger.PopRestoresCaches | src/CryptoNoteCore/Blockchain.cpp:2370-2399 | taking the transactions of the last block out of the caches, last first, leaves the caches of the chain below it |
| Ledger.PopUndoesPushStep | src/CryptoNoteCore/Blockchain.cpp:2370-2399 | popBlock, which takes the transactions out one by one, exactly undoes an accepted pushBlock: blocks, index, caches, deposits and pool |
| Ledger.PushUndoesPopStep | src/CryptoNoteCore/Blockchain.cpp:2100-2315 | pushing a popped block again is accepted and restores the state exactly |
| Ledger.FullDepositIsUnspent | src/CryptoNoteCore/Blockchain.cpp:2317-2320 | the full deposit amount equals the unspent term outputs and is never negative |
| Ledger.PushKeepsHoldings | src/CryptoNoteCore/Blockchain.cpp:2100-2113 | the bag of pool and confirmed transactions is unchanged by every accepted or refused push |
| Ledger.PopKeepsHoldings | src/CryptoNoteCore/Blockchain.cpp:2370-2399 | the bag of pool and confirmed transactions is unchanged by a pop |
| Exits.CachesAgreeIff | src/CryptoNoteCore/Blockchain.cpp:2115-2315 | for every verdict of pushBlock the caches it leaves are those of the chain it leaves if and only if the block is neither too big nor makes a check throw |
| Exits.LeftoverIsVisible | src/CryptoNoteCore/Blockchain.cpp:2271-2274 | when any of the block's transactions stay behind, its coinbase is in the transaction map, where it was not before |
| Exits.SizeExitHappens | src/CryptoNoteCore/Blockchain.cpp:2271-2274 | for every size limit a block just above it takes the size exit, and the caches differ from those of the chain |
| Exits.ThrowExitHappens | src/CryptoNoteCore/Blockchain.cpp:2205-2269 | for every size limit there is a block whose transaction names an output of its own coinbase: a check throws, and the caches differ from those of the chain |
| Exits.ThrowsIff | src/CryptoNoteCore/Blockchain.cpp:2205-2269 | pushBlock throws if and only if the header passes and some transaction, all before it having passed, has an input that names an output of this very block, all inputs before it having passed |
| Exits.InputsThrowIff | src/CryptoNoteCore/Blockchain.cpp:1769-1816 | the inputs of a transaction throw if and only if the first one that does not pass names an output of the block being connected |
| Exits.InputThrowsIff | src/CryptoNoteCore/Blockchain.cpp:1837-1912 | a single input throws if and only if the first position it cannot use is an output of the block being connected |
| Exits.ScanThrowsIff | src/CryptoNoteCore/Blockchain.h:345-386 | the scan of positions meets a missing block if and only if all earlier positions are usable and the next is an output of the block being connected |
| Exits.CachesAreGrounded | src/CryptoNoteCore/Blockchain.cpp:2445-2457 | while a block is connected every listed output is in the chain or in that block, so nothing else can be missing |
| Exits.SpendingOwnCoinbaseThrows | src/CryptoNoteCore/Blockchain.cpp:2205-2269 | on every chain, a block whose first transaction spends an output of its own coinbase makes pushBlock throw and leaves exactly the coinbase in the caches |
| BlockchainObject.Blockchain.CheckHeader | src/CryptoNoteCore/Blockchain.cpp:2122-2203 | says exactly whether the checks before the transactions pass, and gives the difficulty |
| BlockchainObject.Blockchain.ConnectTransactions | src/CryptoNoteCore/Blockchain.cpp:2205-2269 | a refusal leaves the caches as before the block, an exception leaves exactly the transactions pushed before it, and a pass leaves them all, with the sums of sizes, fees and interest |
| BlockchainObject.Blockchain.PushBlock | src/CryptoNoteCore/Blockchain.cpp:2115-2315 | the verdict of the rules; accepted: the state grown by the entry; rejected: the state as before; too big or an exception: only the caches changed, and exactly how |
| BlockchainObject.Blockchain.LoadTransactions | src/CryptoNoteCore/Blockchain.cpp:2856-2874 | takes all named transactions, or none when one is missing |
| BlockchainObject.Blockchain.SaveTransactions | src/CryptoNoteCore/Blockchain.cpp:2876-2883 | puts the transactions back, last first; throws if and only if one of them is already in the pool or comes twice, and then exactly those after it are back |
| BlockchainObject.Blockchain.PushBlockFromPool | src/CryptoNoteCore/Blockchain.cpp:2100-2113 | the whole state after pushBlock with pool transactions, for each verdict: after a size exit they are in the pool again, after an exception they are gone from it |
| BlockchainObject.Blockchain.PopBlock | src/CryptoNoteCore/Blockchain.cpp:2370-2399 | the whole state after popBlock, which is consistent again |
| Forks.WindowsAgree | src/CryptoNoteCore/Blockchain.cpp:966-1020 | the window assembled from main-chain and alternative blocks equals the window of the joined chain |
| Forks.WindowsEqualIff | src/CryptoNoteCore/Blockchain.cpp:748-773 | two window sizes give the same window of a chain if and only if they are equal or both cover everything above the genesis block |
| Forks.AltDifficultyAgrees | src/CryptoNoteCore/Blockchain.cpp:966-1020 | an alternative block gets the difficulty it would get on the main chain wherever the formula is asked the same |
| Forks.AltAsksTheSameIff | src/CryptoNoteCore/Blockchain.cpp:966-1020 | the formula is given the same arguments for an alternative block as on the main chain if and only if both sizes call for the same formula and the two window lengths are equal or both reach past the whole branch |
| Forks.ConfiguredRegimes | src/CryptoNoteCore/Blockchain.cpp:966-1020 | with the configured upgrade heights this holds exactly for the blocks above height one |
| Forks.FirstBlockDiffers | src/CryptoNoteCore/Blockchain.cpp:966-1020 | with the configured upgrade heights an alternative block at height one is given difficulty 100 where the main chain gives 1 |
| Forks.AncestryIsUnique | src/CryptoNoteCore/Blockchain.cpp:2146-2155 | with injective hashes two chains that end in the same block are the same |
| Forks.DifficultyIsUnique | src/CryptoNoteCore/Blockchain.cpp:2289-2293 | two chains of the same blocks carry the same cumulative difficulties |
| Forks.MainDifficultyRises | src/CryptoNoteCore/Blockchain.cpp:2289-2293 | cumulative difficulty strictly rises along the main chain |
| BlockchainObject.Blockchain.GetDifficultyForNextBlock | src/CryptoNoteCore/Blockchain.cpp:748-773 | returns the formula applied to the last blocks, never the genesis block |
| BlockchainObject.Blockchain.GetNextDifficultyForAlternativeChain | src/CryptoNoteCore/Blockchain.cpp:966-1020 | returns the formula applied to the window that spans fork and main chain |
| BranchTimes.JudgedAlikeIff | src/CryptoNoteCore/Blockchain.cpp:1154-1179 | an alternative block is judged by the timestamps it would be judged by at the tip of its branch if and only if the branch is no longer than the window and does not fill it exactly, unless it starts right above the first block |
| BranchTimes.FullWindowIsNotJudged | src/CryptoNoteCore/Blockchain.cpp:1154-1179 | on a branch that fills the window exactly a timestamp that the tip would refuse as too early passes |
| BlockchainObject.Blockchain.CompleteTimestampsVector | src/CryptoNoteCore/Blockchain.cpp:1154-1179 | the timestamps of the main chain from the fork down, as many as the loop takes |
| BlockchainObject.Blockchain.JudgeAlternative | src/CryptoNoteCore/Blockchain.cpp:1256-1318 | says exactly whether timestamp, merge-mining tag, difficulty, proof of work and coinbase of an alternative block pass, and gives the difficulty |
| Reorg.PoppingUndoesConnecting | src/CryptoNoteCore/Blockchain.cpp:816-841 | popping down to the split after connecting any part of an alternative chain restores the state there |
| Reorg.ReconnectingRestores | src/CryptoNoteCore/Blockchain.cpp:823-835 | the disconnected blocks are all accepted again in order, and the state is exactly what it was |
| Reorg.RollbackRestores | src/CryptoNoteCore/Blockchain.cpp:816-841 | a rollback from anywhere above the split ends in the original state: its failure branch is unreachable |
| Reorg.SwitchIsAtomic | src/CryptoNoteCore/Blockchain.cpp:843-953 | a switch never panics, and one that does not complete leaves blocks, index, caches, deposits and pool exactly as before, also when another switch starts inside it |
| Reorg.SwitchedState | src/CryptoNoteCore/Blockchain.cpp:843-953 | a completed switch leaves the main chain up to the split followed by exactly the alternative blocks, with the same transactions held |
| Reorg.SwitchKeepsConfirmed | src/CryptoNoteCore/Blockchain.cpp:858-879 | a completed switch leaves every previously confirmed transaction confirmed |
| Reorg.SwitchKeepsInv | src/CryptoNoteCore/Blockchain.cpp:843-953 | a switch, completed or not, keeps the invariant of the main chain and of the alternatives, and loses no transaction |
| NestedSwitch.NestedSwitchFails | src/CryptoNoteCore/Blockchain.cpp:922-931 | a switch that starts while the disconnected blocks are stored back never completes, so the outer one is undone |
| NestedSwitch.NeverNestsDeeper | src/CryptoNoteCore/Blockchain.cpp:843-953 | no switch starts inside a switch that started inside another: following one level gives the result of following any number |
| NestedSwitch.StoredAgainIsRefused | src/CryptoNoteCore/Blockchain.cpp:1339-1343 | storing the disconnected blocks back fails at once when the first of them is still stored |
| Reorg.AltAllowedIff | src/CryptoNoteCore/Checkpoints.cpp:76-84 | an alternative block is allowed if and only if its height is not zero, the chain has at least fifteen blocks, and it is at most fifteen below its size: the subtraction wraps below that |
| Reorg.ShallowForkRefused | src/CryptoNoteCore/Checkpoints.cpp:76-84 | on a chain of fourteen blocks a block that competes with the tip alone is refused |
| Reorg.AddAlternativeKeepsInv | src/CryptoNoteCore/Blockchain.cpp:1181-1413 | storing an alternative block keeps the invariant |
| Reorg.DifficultyDependsOnAncestry | src/CryptoNoteCore/Blockchain.cpp:1329-1330 | stored cumulative difficulty depends only on a block's ancestors |
| Reorg.StoredIsAccurate | src/CryptoNoteCore/Blockchain.cpp:1300-1330 | an alternative block for which the formula is asked the same carries the difficulty its ancestors give |
| Reorg.FirstForkBlockIsInaccurate | src/CryptoNoteCore/Blockchain.cpp:1300-1330 | with the configured upgrade heights every block stored at height one carries a difficulty its ancestors do not give |
| Reorg.ReAddDoesNotReenter | src/CryptoNoteCore/Blockchain.cpp:922-933 | storing the disconnected blocks after a switch to a chain of higher difficulty starts no other switch, wherever the formula is asked the same for them |
| Reorg.BetterSwitch | src/CryptoNoteCore/Blockchain.cpp:1366-1385 | a completed switch to a better chain strictly raises the tip's cumulative difficulty, and no other switch starts inside it |
| BlockchainObject.Blockchain.PopDownTo | src/CryptoNoteCore/Blockchain.cpp:818-821 | pops to the given height, with the unsigned counter of the source, which ends because the height is at least one |
| Words.CountdownEndsIff | src/CryptoNoteCore/Blockchain.cpp:819-821 | a 64-bit countdown with the test `i >= bound` ends if and only if the bound is not zero |
| BlockchainObject.Blockchain.ConnectBlocks | src/CryptoNoteCore/Blockchain.cpp:894-920 | connects as many blocks as are accepted and says where it stopped |
| BlockchainObject.Blockchain.RollbackSwitching | src/CryptoNoteCore/Blockchain.cpp:816-841 | the whole state after a rollback, or exactly the failure of the model, which `Reorg.RollbackRestores` shows unreachable from a switch |
| BlockchainObject.Blockchain.CoversTransactions | src/CryptoNoteCore/Blockchain.cpp:858-879 | says exactly whether every transaction to be disconnected is in the alternative chain |
| BlockchainObject.Blockchain.BuildAltChain | src/CryptoNoteCore/Blockchain.cpp:1226-1237 | collects the stored alternative blocks down to the main chain, oldest first, and their timestamps, newest first |
| BlockchainObject.Blockchain.StoreAlternative | src/CryptoNoteCore/Blockchain.cpp:1181-1345 | the fate of an alternative block: orphaned, refused, or stored with its chain and the decision to reorganize; only the alternatives change |
| BlockchainObject.Blockchain.KeepAsAlternative | src/CryptoNoteCore/Blockchain.cpp:922-933 | stores the disconnected blocks, or says why it stopped: one was refused, or one makes its chain the better one |
| BlockchainObject.Blockchain.SwitchToAlternative | src/CryptoNoteCore/Blockchain.cpp:843-953 | the whole state after a switch, the switches inside it included, up to a block that is too big or makes a check throw; when it does not complete only alternatives and clock differ, and the object is valid again |
| BlockchainObject.Blockchain.FinishSwitch | src/CryptoNoteCore/Blockchain.cpp:922-947 | the whole state after the disconnected blocks were stored back: completed, or undone when one is refused or starts another switch |
| BlockchainObject.Blockchain.HandleAlternativeBlock | src/CryptoNoteCore/Blockchain.cpp:1181-1413 | the whole state after an alternative block, switched or not, and after a block of the switch that is too big or makes a check throw |
| BlockchainObject.Blockchain.AddBlock | src/CryptoNoteCore/Blockchain.cpp:2049-2094 | the whole state after a new block, on the tip or on a fork, and after one that is too big or makes a check throw |
| BlockchainObject.Blockchain.AddTransaction | src/CryptoNoteCore/TransactionPool.cpp:110-243 | a sound transaction new to the chain and the pool joins the pool, any other changes nothing, and the object stays valid |
| Runs.RunKeepsInv | src/CryptoNoteCore/Blockchain.cpp:2049-2094 | after any run of arriving blocks and transactions the invariant holds; a run ends early only at a block that is too big or makes a check throw |
| Losses.RunEndsWith | src/CryptoNoteCore/Blockchain.cpp:2115-2315 | a run that ends early ends in exactly what pushBlock left of some consistent state: blocks, index, deposits and alternatives agree, and the caches are not those of the blocks |
| Losses.LostPool | src/CryptoNoteCore/Blockchain.cpp:2100-2113 | a block that is too big leaves the pool as it was, one that makes a check throw takes exactly its transactions out of it |
| Losses.SharedTransactionIsRefused | src/CryptoNoteCore/Blockchain.cpp:816-841 | after a block of a switch was too big, the rollback pushes the disconnected blocks onto caches that still hold its key images: a block that shares such a transaction with it fails its checks, whatever was popped and entered before |
| Losses.ForeignImageStays | src/CryptoNoteCore/Blockchain.cpp:818-821 | popping blocks takes no key image out of the spent set that they did not put there |
| Runs.RunLosesNothing | src/CryptoNoteCore/Blockchain.cpp:858-953 | over any run no held transaction is lost and a confirmed one stays confirmed |
| Runs.RunRaisesTip | src/CryptoNoteCore/Blockchain.cpp:1366-1385 | over any run the tip's cumulative difficulty rises whenever the chain changes, as long as the formula is asked the same on both sides of every fork |
| Runs.ConfiguredForksAreSteady | src/CryptoNoteCore/Blockchain.cpp:966-1020 | with the configured upgrade heights that holds for every fork that leaves the main chain above the first block after genesis |
| Tips.StepLowersOnlyIf | src/CryptoNoteCore/Blockchain.cpp:843-953 | with nothing assumed about forks, a step lowers the tip's cumulative difficulty only by storing the replaced tip back with less than it had |
| Tips.SwitchLowersOnlyIf | src/CryptoNoteCore/Blockchain.cpp:843-953 | the same for a completed switch |
| Tips.StoredBackIsNoBetter | src/CryptoNoteCore/Blockchain.cpp:922-933 | when no switch starts, no disconnected block is stored back with more than the new tip has |
| Tips.StoredBackIsBetter | src/CryptoNoteCore/Blockchain.cpp:922-933 | when another switch starts, the block that starts it is a disconnected one that was given more than the new tip has |
| Runs.ReachableStates | src/CryptoNoteCore/Blockchain.cpp:558-617 | in every reachable state index and caches equal a rebuild from the blocks, the chain validates, and the recorded deposits are the unspent ones |
| Runs.ReachableStatesSpendOnce | src/CryptoNoteCore/Blockchain.cpp:1769-1816 | in every reachable state spent images and used flags are exactly those of the chain's inputs, and no image or output is spent twice |
| BlockchainObject.Blockchain.FindEndOfAllowedIndex | src/CryptoNoteCore/Blockchain.cpp:1512-1527 | every entry from the returned place on is too new, and the one just before it is old enough |
| BlockchainObject.AllowedComeFirst | src/CryptoNoteCore/Blockchain.cpp:1512-1527 | in an ascending list the sufficiently old outputs come first, so the scan from the back finds their exact count |
| BlockchainObject.OutputsPointToKeys | src/CryptoNoteCore/Blockchain.cpp:1493-1510 | every entry of a list leads to a key output in the chain |
| BlockchainObject.Blockchain.GetRandomOuts | src/CryptoNoteCore/Blockchain.cpp:1529-1556 | offers distinct outputs, all old enough and unlocked, whatever the random choices; fewer than asked for only when every such output is offered |
| ShuffleGenerator.FullDrawIsPermutation | src/Common/ShuffleGenerator.h:19-45 | N draws return a permutation of 0..N-1 for every sequence of choices |
| ShuffleGenerator.SparseStep | src/Common/ShuffleGenerator.h:30-44 | one step on the sparse map is one step of the in-place array shuffle it stands for |
| ShuffleGenerator.DrawStep | src/Common/ShuffleGenerator.h:30-44 | a draw moves a value never drawn before from what is left to what is drawn, and the last draw completes the range |
| ShuffleGenerator.Generator.Next | src/Common/ShuffleGenerator.h:19-45 | returns the chosen element of the remaining array, new and in range; throws exactly when all are drawn |
| ShuffleGenerator.Generator.Reset | src/Common/ShuffleGenerator.h:47-50 | all values are available again |
| BlockIndex.SparseShape | src/CryptoNoteCore/BlockIndex.cpp:46-63 | the list starts at the given block, ends at genesis, falls strictly, and its length is logarithmic |
| BlockIndex.SparseReaches | src/CryptoNoteCore/BlockIndex.cpp:46-63 | for every height c the list reaches at or below c no more than twice as far from the top |
| BlockIndex.ForkedReaches | src/CryptoNoteCore/Blockchain.cpp:685-714 | the same bound for a list that starts on an alternative chain |
| BlockIndex.ForkedShape | src/CryptoNoteCore/Blockchain.cpp:685-714 | the list of a block on a fork starts at it, falls strictly, ends at genesis, and its length is logarithmic |
| Anchoring.StoredHasAncestry | src/CryptoNoteCore/Blockchain.cpp:685-714 | a stored block whose stored ancestors end on the main chain has the ancestry the list is built from |
| Anchoring.AncestryIff | src/CryptoNoteCore/Blockchain.cpp:694-706 | a stored block has such an ancestry if and only if the walk over its stored ancestors ends on the main chain, which the source asserts |
| Anchoring.AnchoredIff | src/CryptoNoteCore/Blockchain.cpp:694-706 | that holds for every stored block if and only if each one names a stored block or one on the main chain |
| Anchoring.SwitchKeepsAnchored | src/CryptoNoteCore/Blockchain.cpp:843-953 | a switch in which no block is refused keeps it, completed or undone |
| Anchoring.RefusedSwitchAnchoredIff | src/CryptoNoteCore/Blockchain.cpp:899-919 | a switch that meets a refusal erases the refused block and those above it, and keeps it if and only if no other stored block names one of these |
| Anchoring.RunKeepsAncestries | src/CryptoNoteCore/Blockchain.cpp:685-714 | after any run in which no switch meets a refusal every stored block that is not on the main chain has an ancestry |
| BlockIndex.SupplementIsNear | src/CryptoNoteCore/Blockchain.cpp:1558-1567 | a peer that agrees up to height c answers with a common block at most twice as far below the tip as c, and always finds one |
| BlockIndex.Index.Push | src/CryptoNoteCore/BlockIndex.h:30-33 | inserts a new id and says so; a known id changes nothing |
| BlockIndex.Index.Pop | src/CryptoNoteCore/BlockIndex.h:25-27 | drops the last id |
| BlockIndex.Index.GetBlockHeight | src/CryptoNoteCore/BlockIndex.h:39-46 | finds an id exactly when it is there, with its place |
| BlockIndex.Index.GetBlockIds | src/CryptoNoteCore/BlockIndex.cpp:21-34 | returns the stretch of ids asked for, cut at the end |
| BlockIndex.Index.FindSupplement | src/CryptoNoteCore/BlockIndex.cpp:36-44 | returns the place of the first listed id that is known, and fails exactly when none is |
| BlockIndex.Index.BuildSparseChain | src/CryptoNoteCore/BlockIndex.cpp:46-63 | returns the ids at the thinned-out heights from the given block down to genesis |
| BlockIndex.Index.DoBuildSparseChain | src/CryptoNoteCore/Blockchain.cpp:685-714 | for a block on the main chain or on a fork, returns ids of its ancestry at heights for which the bounds hold |
| BlockIndex.Index.FindBlockchainSupplement | src/CryptoNoteCore/Blockchain.cpp:1669-1680 | returns the first known listed block and the ids from there on, as many as asked for |
| BlockingQueue.StepKeepsPlaces | src/Common/BlockingQueue.h:25-75 | a thread is asleep or woken in one place only, and closers exist only once the queue is closed |
| BlockingQueue.StepConserves | src/Common/BlockingQueue.h:25-62 | every step keeps: taken values followed by the queue are the accepted values, within the bound |
| BlockingQueue.PushCovers | src/Common/BlockingQueue.h:25-39 | a push wakes a popping thread for the element it adds and uses up at most one woken pushing thread |
| BlockingQueue.PopCovers | src/Common/BlockingQueue.h:41-62 | a pop wakes a pushing thread for the place it frees and uses up at most one woken popping thread |
| BlockingQueue.StepLosesNoWakeup | src/Common/BlockingQueue.h:25-75 | no step loses a wake-up, whoever is picked and whoever wakes spuriously |
| BlockingQueue.WhatReturnsMean | src/Common/BlockingQueue.h:25-75 | pop fails only on a closed drained queue, push only on a closed one, a waiting close returns only when drained, and a popped value is the oldest one left |
| BlockingQueue.ClosedStaysClosed | src/Common/BlockingQueue.h:64-75 | closing is for good, and after draining nothing is handed out and nobody waits |
| BlockingQueue.FirstInFirstOut | src/Common/BlockingQueue.h:25-62 | for all interleavings values come out in the order they went in, none lost or doubled, never more than the bound queued |
| BlockingQueue.NobodySleepsInVain | src/Common/BlockingQueue.h:25-75 | for all interleavings, when no thread is on its way nobody sleeps on a condition that holds |
| GroupClose.ClosesWithTheLastMember | src/Common/BlockingQueue.h:104-109 | with at most groupSize calls the queue is closed exactly once, exactly when the last of groupSize calls has finished |
| GroupClose.ClosedOnceIff | src/Common/BlockingQueue.h:104-109 | with any number of calls the queue is never closed early, and has been closed exactly once if and only if the decrements reached groupSize and did not go round the counter |
| GroupClose.ZeroIff | src/Common/BlockingQueue.h:104-109 | the counter is zero if and only if the decrements differ from groupSize by a multiple of 2^64 |
| GroupClose.ExtraCallerCanWrap | src/Common/BlockingQueue.h:104-109 | a caller between test and decrement makes the counter wrap: a concrete run |
| PoolUpdateGuard.StepKeepsExclusive | src/BlockchainExplorer/BlockchainExplorer.cpp:74-109 | the guard is taken exactly while one thread holds it |
| PoolUpdateGuard.StaysAnswered | src/BlockchainExplorer/BlockchainExplorer.cpp:74-109 | a reported change stays answered by an update begun later, a demand for one, a thread still trying, or a call turned away |
| PoolUpdateGuard.OneUpdateAtATime | src/BlockchainExplorer/BlockchainExplorer.cpp:74-109 | for all interleavings and spurious failures no two updates run at once, and endUpdate never finds the guard free |
| PoolUpdateGuard.QuietMeansUpToDate | src/BlockchainExplorer/BlockchainExplorer.cpp:500-511 | for all interleavings, once every thread has left, a report that no later update answers has a call that came at or after it and was turned away, and none was since the explorer was last found synchronized and observed |
| PoolUpdateGuard.EarlyReportIsDropped | src/BlockchainExplorer/BlockchainExplorer.cpp:500-505 | a report that comes before the explorer is synchronized is answered by no update: a concrete run |
| Varint.ReadInvertsWrite | src/Common/Varint.h:19-58 | every number that fits is read back from its writing, whatever follows |
| Varint.AcceptedIsWritten | src/Common/Varint.h:37-58 | every accepted terminated input is the writer's own output of a number that fits |
| Varint.AcceptsExactly | src/Common/Varint.h:37-58 | the reader accepts with a value if and only if the value fits and the input begins with its writing |
| Varint.WritingsArePrefixFree | src/Common/Varint.h:19-25 | no writing is a prefix of another |
| Varint.LengthIff | src/Common/Varint.h:19-25 | n bytes suffice if and only if the number is below 2^(7n) |
| Varint.FitsInLongest | src/Common/Varint.h:19-25 | a number of so many bits takes at most ceil(bits/7) bytes |
| Varint.OverflowIff | src/Common/Varint.h:46-48 | overflow is reported exactly when the last possible byte has a bit too many |
| Varint.OverflowMeansTooBig | src/Common/Varint.h:46-48 | every number whose writing shares the bytes of an overflow is too big |
| Varint.UnterminatedIff | src/Common/Varint.h:41-43 | the input runs out within the number exactly when every byte asks for more and fewer than ceil(bits/7) came |
| Varint.WriteVarint | src/Common/Varint.h:19-25 | writes seven bits a byte, low bits first, in minimal form |
| Varint.WriteVarintStream | src/Common/StreamTools.cpp:221-237 | the second writer, which sets the top bit on the whole number and then cuts it to a byte, writes exactly the same bytes |
| Varint.ReadVarint | src/Common/Varint.h:37-58 | the returned code and value for each outcome; the end of input looks like success |
| Varint.ReadVarintStream | src/Common/StreamTools.cpp:75-161 | the same verdicts as the other reader at every width, except that the end of the stream throws |
| IntUtil.Mul128 | src/Common/int-util.h:49-73 | the two halves are the exact product, in wrapping 64-bit operations |
| IntUtil.DivWithReminder | src/Common/int-util.h:75-79 | quotient and remainder are exact and the quotient fits in 32 bits |
| IntUtil.Div128By32 | src/Common/int-util.h:82-97 | the exact 128-bit quotient and the remainder, for every nonzero divisor |
| Base58.BlockDataOfText | src/Common/Base58.cpp:111-157 | a block decodes from its own letters |
| Base58.BlockTextOfData | src/Common/Base58.cpp:111-157 | letters that decode are the letters of what they decode to |
| Base58.EncodeBlock | src/Common/Base58.cpp:111-124 | writes exactly the letters of the block over its stretch and nothing else |
| Base58.SumOfLetters | src/Common/Base58.cpp:134-149 | returns the value of the letters exactly when all are letters and the value is below 2^64: the overflow test is exact |
| Base58.DecodeBlock | src/Common/Base58.cpp:126-157 | succeeds exactly when size, letters and value are right, and then writes exactly the block; a failure writes nothing |
| Base58.DecodeInvertsEncode | src/Common/Base58.cpp:160-213 | decoding undoes encoding, for all data |
| Base58.EncodeInvertsDecode | src/Common/Base58.cpp:160-213 | whatever decodes is the encoding of what it decodes to |
| Base58.EncodeText | src/Common/Base58.cpp:160-181 | the block-wise loop computes the encoding |
| Base58.DecodeText | src/Common/Base58.cpp:183-213 | the block-wise loop decodes, or fails exactly when a block or the length is wrong |
| Base58.DecodeAddrInverts | src/Common/Base58.cpp:215-245 | an address gives back its 64-bit tag and its data, for every checksum function |
| Base58.AcceptedAddrIff | src/Common/Base58.cpp:225-245 | an accepted address is the address of what it decodes to if and only if some payload byte has its top bit clear |
| Base58.UnterminatedTagAccepted | src/Common/Base58.cpp:240-244 | a payload that is a single byte 0x80 is accepted as tag 0 without data, though no encoding gives it |
| Json.TokenIsRead | src/Common/JsonValue.cpp:673-693 | a token followed by a quote is read back exactly |
| Json.ReadIsToken | src/Common/JsonValue.cpp:673-693 | whatever is read between quotes is a token |
| Json.PutSets | src/Common/JsonValue.cpp:904 | assigning a key sets it and leaves the other keys as they were |
| Json.PutKeepsOrder | src/Common/JsonValue.cpp:904 | assigning a key keeps the members in key order |
| Json.IntOfPrint | src/Common/JsonValue.cpp:869-882 | a printed 64-bit integer is parsed back |
| Json.ReadGivesWellFormed | src/Common/JsonValue.cpp:698-720 | whatever the text, a value that is read has token strings and keys, ascending keys and 64-bit integers, at every depth |
| Json.ReadInvertsPrint | src/Common/JsonValue.cpp:593-649 | reading the printed text of a well-formed value gives it back and consumes exactly that text, at any depth |
| Json.RoundTripIff | src/Common/JsonValue.cpp:593-649 | a value without reals comes back from its own text if and only if it is well formed |
| Json.BareQuoteIsLost | src/Common/JsonValue.cpp:643-645 | a string with a bare quote does not come back |
| Json.ReadPrintRead | src/Common/JsonValue.cpp:565-574 | what was read, printed and read again is the same value |
| Json.InputStream.ReadNonWsChar | src/Common/JsonValue.cpp:663-671 | takes the next character that is not white space, or throws at the end |
| Json.InputStream.ReadStringToken | src/Common/JsonValue.cpp:673-693 | takes the token and its closing quote, or throws at the end |
| Json.InputStream.ReadNumber | src/Common/JsonValue.cpp:812-883 | takes the longest run of digits and dots, then decides: integer, real with an optional exponent, or exception |
| Json.InputStream.ReadValue | src/Common/JsonValue.cpp:698-720 | the stream reader yields exactly what the grammar says and leaves the stream at the rest |
| Json.InputStream.ReadArray | src/Common/JsonValue.cpp:738-767 | the same for arrays |
| Json.InputStream.ReadObject | src/Common/JsonValue.cpp:885-927 | the same for objects, a repeated key replacing the earlier value |
| Json.OutputStream.Write | src/Common/JsonValue.cpp:593-649 | appends exactly the text of the value |
| BlockLaws.NextDifficultyIs | src/CryptoNoteCore/Blockchain.cpp:748-773 | the next difficulty is the formula on the timestamps and cumulative difficulties of the last blocks, at most the count and never the first block, entry by entry; the newer formula exactly when size + 1 is above the upgrade |
| BlockLaws.ForkDifficultyIs | src/CryptoNoteCore/Blockchain.cpp:966-1020 | the same for a block on a fork, over the main chain up to the fork joined with the branch |
| BlockLaws.HeaderOkIff | src/CryptoNoteCore/Blockchain.cpp:2122-2203 | the header tests pass if and only if the block is new, names the tip, has the work, a timestamp in its bounds, the version of its height and the coinbase of its height |
| BlockLaws.FeesAre | src/CryptoNoteCore/Blockchain.cpp:2227-2229 | the fees are what the inputs bring over the outputs, or the minimum fee where the outputs exceed them, transaction by transaction |
| BlockLaws.EarnedIs | src/CryptoNoteCore/Currency.cpp:268-280 | the interest of a transaction is that of its inputs with a term, one by one |
| BlockLaws.TxPassesIff | src/CryptoNoteCore/Blockchain.cpp:2230-2261 | a transaction of a block passes if and only if every input obeys its law, and version and outputs are allowed |
| BlockLaws.EmissionIs | src/CryptoNoteCore/Blockchain.cpp:1083-1121 | the reward is asked for with the median of the last sizes, the block's size, the coins so far, its fees and its height, and must be paid exactly from height 290700 on |
| BlockLaws.AcceptedIff | src/CryptoNoteCore/Blockchain.cpp:2115-2315 | a block is accepted if and only if it obeys the law of blocks, stated without the checking functions, and then the recorded size, difficulty and coins are those of the law; the size exit is taken exactly when only the size is wrong |
| BlockLaws.HeadersObey | src/CryptoNoteCore/Blockchain.cpp:2122-2203 | every block of a valid chain carries the work that the cumulative difficulties record for it, which is the formula's answer on the blocks below, and obeys the header law of its height |
| BlockLaws.CoinsAreSum | src/CryptoNoteCore/Blockchain.cpp:2276-2293 | the coins recorded at the tip are the sum of all emissions and all interest paid |
| BlockLaws.RecordedInterestIs | src/CryptoNoteCore/Blockchain.cpp:2289-2315 | the interest in the deposit index of a chain is all interest its blocks paid if and only if no block of zero net deposits paid any |
| BlockLaws.ReachableBlocksObey | src/CryptoNoteCore/Blockchain.cpp:2049-2315 | in every state a run can reach, every block of the main chain obeys the law of blocks on the blocks below it |
| BlockLaws.TipGrowsIff | src/CryptoNoteCore/Blockchain.cpp:2049-2113 | a block that names the tip is connected if and only if the pool has its transactions and it obeys the law; otherwise nothing but the clock changes, short of a size exit or an exception |
| BlockLaws.BadHeaderChangesNothing | src/CryptoNoteCore/Blockchain.cpp:2122-2203 | a block on the tip whose header breaks the law leaves blocks, caches, index, deposits, pool and alternatives as they were |
| Maturity.UsableIff | src/CryptoNoteCore/Blockchain.cpp:1818-1835 | whether a key output can be referred to depends on the size alone, or on the clock alone, with the exact bound |
| Maturity.KeyInputsAreMature | src/CryptoNoteCore/Blockchain.cpp:1837-1912 | every ring member of every key input in block h of a valid chain is a key output of an earlier block whose unlock height is at most h - 1 plus the allowance |
| Maturity.MsigInputsAreMature | src/CryptoNoteCore/Blockchain.cpp:2582-2653 | the same for multisignature inputs, whose deposit term is over as well |
| Maturity.CoinbaseIsSpentLate | src/CryptoNoteCore/Blockchain.cpp:1818-1912 | the coinbase of height m is spent in block h only when m plus the unlock window is at most h - 1 plus the allowance |
| BranchTimes.BranchTimestampsAre | src/CryptoNoteCore/Blockchain.cpp:1154-1179 | the timestamps a branch is judged by are, index by index, its own, newest first, then the main chain's from the fork down, as many as the source collects |
| Adoption.KnownSizeIs | src/CryptoNoteCore/Blockchain.cpp:2022-2034 | the size counted for the named transactions is the sum over those in the main chain or the pool |
| BlockchainObject.Blockchain.GetBlockCumulativeSize | src/CryptoNoteCore/Blockchain.cpp:2022-2034 | the loop adds the sizes of coinbase and known transactions |
| Adoption.StoredIff | src/CryptoNoteCore/Blockchain.cpp:1181-1365 | a block is stored as an alternative of a height if and only if it obeys the law of alternatives there, and then with the branch, height and cumulative difficulty of that law |
| Adoption.OrphanedIff | src/CryptoNoteCore/Blockchain.cpp:1181-1408 | a block is left aside as an orphan if and only if its claimed height, version and size pass and neither chain nor store has its parent |
| Adoption.SwitchedIff | src/CryptoNoteCore/Blockchain.cpp:843-953 | a switch completes if and only if the branch holds every transaction of the replaced blocks, its blocks connect one after the other, and each replaced block is stored back without a refusal or a new switch |
| Adoption.AdoptedIff | src/CryptoNoteCore/Blockchain.cpp:1366-1385 | after a block off the tip was stored, the main chain is the part below the fork followed by the block's branch if and only if the branch has more cumulative difficulty than the tip and can replace the blocks above the fork; otherwise, short of a size exit or an exception, blocks, caches, deposits and pool are as before |
| Adoption.UnlawfulChangesNothing | src/CryptoNoteCore/Blockchain.cpp:1181-1365 | a block off the tip that obeys the law of alternatives at no height changes nothing |
| Adoption.SwitchRestocks | src/CryptoNoteCore/Blockchain.cpp:922-947 | after a completed switch no block of the new chain is an alternative, every replaced block that is not itself of the new chain is, and no other alternative was lost or changed |
| Adoption.ReceivedIff | src/CryptoNoteCore/TransactionPool.cpp:110-243 | a transaction joins the pool if and only if it is sound and neither chain nor pool has its hash, and nothing else changes |
| BlockchainObject.Blockchain.AddOutToGetRandomOuts | src/CryptoNoteCore/Blockchain.cpp:1493-1510 | an entry is added exactly when the position holds an unlocked key output, with its position and key |
| BlockchainObject.Blockchain.DrawOuts | src/CryptoNoteCore/Blockchain.cpp:1529-1556 | the drawing loop over the old enough positions |
| JsonGrammar.SpaceIsBlank | src/Common/JsonValue.cpp:663-671 | white space is blank, tab, newline, vertical tab, form feed and carriage return, and nothing else |
| JsonGrammar.DigitIs | src/Common/JsonValue.cpp:706-708 | digits are the ten characters 0 to 9, each worth its place among them, and a number holds these and dots |
| JsonGrammar.SpreadIsRead | src/Common/JsonValue.cpp:698-927 | the tokens of a value, with any white space in front of each, at every depth, are read as the value, and the rest is left |
| JsonGrammar.Unread | src/Common/JsonValue.cpp:698-927 | whatever is read is the tokens of its value with only white space in front of each, then the rest |
| JsonGrammar.ReadIff | src/Common/JsonValue.cpp:698-927 | a text is read as a value with a rest if and only if it is the value's tokens, white space before each, and the rest |
| JsonGrammar.PrintJoins | src/Common/JsonValue.cpp:593-649 | the printed text is the value's tokens with nothing between them |
| JsonGrammar.SpacedPrintIsRead | src/Common/JsonValue.cpp:663-927 | a printed value with white space put in front of any of its tokens reads back as the value |
| JsonGrammar.TokenIff | src/Common/JsonValue.cpp:673-693 | a string token is one where every quote stands behind an odd number of backslashes and an even number stands at the end |
| JsonGrammar.IntTextMeans | src/Common/JsonValue.cpp:869-882 | an integer's text means its decimal value, at most the bounds of 64 bits |
| JsonGrammar.LessIff | src/Common/JsonValue.cpp:904 | keys are in the order of their first difference |
| Base58.LettersAre | src/Common/Base58.cpp:23-24 | the 58 letters in order |
| Varint.WriteMeans | src/Common/Varint.h:19-25 | every byte but the last has its top bit set, and the low seven bits of the bytes, lowest first, make up the number |
| BlockIndex.SparseHeightsAre | src/CryptoNoteCore/BlockIndex.cpp:46-63 | the heights are the given block's and those 1, 3, 7, 15, ... below it, then genesis |

## Left out

- Checkpoints and the checkpoint zone, and with them the switch that discards the disconnected chain: every height is validated in full.
- What happens after a size exit or an exception inside `pushBlock`: the state they leave is given everywhere, and the runs end there.
- The payment, timestamp, generated-transaction and orphan indices, observers and messages; the merge-mining tag is an arbitrary predicate of the coinbase.
- `removeLastBlock`, `rollbackBlockchainTo`, loading and storing.
- Upgrade voting: versions change at fixed heights.
- `m_current_block_cumul_sz_limit`, the 32-bit and 64-bit widths of amounts and difficulties, and the 16-bit output counter: amounts and counters are unbounded.
- Pool internals: the pool is a map that a sound new transaction always enters, and that takes back every transaction it does not have.
- BlockchainObject.Blockchain.SwitchToAlternative: stops at a block of the chain that is too big, with the state pushBlock left, where the source goes on to roll back onto the leftover caches; the discarding form is used only with checkpoints.
- BlockchainObject.Blockchain.FinishSwitch: the same for a block of a switch inside the switch.
- BlockchainObject.Blockchain.HandleAlternativeBlock: the same.
- BlockchainObject.Blockchain.AddBlock: the same, for a block on a fork.
- Runs.RunKeepsInv: nothing is claimed about events after such a block.
- Runs.RunRaisesTip: assumes forks where the difficulty formula is asked the same; without that `Tips.StepLowersOnlyIf` says how the tip could get worse.
- BlockchainObject.Blockchain.RebuildTransaction: a multisignature input must name an existing list entry, since the source indexes the list without a test.
- BlockchainObject.Blockchain.RebuildBlock: the same, for every transaction of the block.
- BlockchainObject.Blockchain.RebuildCache: the same, for every stored block; `Rebuilding.RebuildIsExact` shows it of valid chains.
- BlockIndex.Index.DoBuildSparseChain: takes the ancestry of the start block as given; `Anchoring.AncestryIff` says exactly when there is one.
- Anchoring.StoredHasAncestry: needs the walk to end on the main chain, which `Anchoring.AncestryIff` shows necessary.
- BlockingQueue.FirstInFirstOut: values are compared as given; moving them out of the queue and exceptions of their copy operations are not modelled.
- PoolUpdateGuard.QuietMeansUpToDate: every started update ends; node requests and notifications are not modelled.
- ShuffleGenerator.Generator.Next: the random source is any choice in range.
- Json.RoundTripIff: values with real numbers are excluded, since printing rounds to eleven decimals; the reader keeps a real's literal.
- Json.OutputStream.Write: values with real numbers are excluded for the same reason.
- JsonGrammar.SpacedPrintIsRead: the same; `JsonGrammar.ReadIff` covers texts with real numbers too.
- Json.InputStream.ReadValue: a truncated `true`, `false` or `null` is an exception, where the source compares characters that were never read.
- Base58.DecodeText: the output buffer after a failure is not described.
- DNS and console tools, wallets, RPC, the transfers container, Base64, hex helpers and the views over arrays and strings would only add easy members.
