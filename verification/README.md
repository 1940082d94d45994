# op-geth core: chain index, state transition, indexer and event feed

A Dafny model of the parts of `op-geth/core` and `op-geth/event` that keep several tables, counters or
lists in step with one another, and proofs of what they keep. `dafny verify dfyconfig.toml` checks
everything.

Four families of code are modelled:

* **The canonical chain.** Blocks form a tree keyed by hash. A number-to-hash map, a transaction lookup
  table, a difficulty table and several head markers must all describe one path through it. The
  reference definition is `ChainStore.Ancestry`: the map from each number to the ancestor of the head
  there. Extending, switching forks and rewinding are proved to leave exactly that map (`BlockChain`,
  `HeaderChain`), with `ForkChoice`, `HeadRewind` (the head block during a rewind), `HashLookup` (the
  cached `BLOCKHASH` walk) and `TrieGc` (trie references) around them.
* **The state transition.** `StateTransition` follows ordinary, deposit and system messages from the
  checks to the fee split; `TransitionLaws` proves where money and gas go on every exit, `TransitionRules`
  when and why a message is rejected, what the EVM is given, what is refunded and what becomes of nonces, and
  `StateProcessor` and `Replay` follow that over a block (`Balances`, `Gas`, and `RollupCost` for the L1 cost).
* **The chain indexer.** `IndexerSteps` gives each lock region as a step and proves an invariant over
  every run, with the chain looking different at every step; `ChainIndexer` and `BloomIndexer` are the
  objects that take those steps.
* **The event feed.** `Feed` works in place on one array of select cases while subscribers come and go,
  and counts subscriptions, since one channel may have several.

## How the source is read

* Hashes are opaque numbers, zero standing for "none". A block carries its hash; the store maps hashes to
  blocks. Block numbers are naturals, and the number below zero (2^64 - 1 in the source) has no block.
* A database batch is kept as the table the way it will be once written; reads use the table as it is.
* Objects whose fields change in place are classes, and each method is proved against a simple
  specification function or the reference definition. Big integers are unbounded; 64-bit gas, nonces and
  gas counters are explicit (`Balances.U64`, `Gas.Wrap`).
* Parameters stand for what the source gets from elsewhere: the EVM, the L1 prices in the L1 block contract,
  the random draw and the miner's preference in fork choice, the interrupt flag, whether a state could be
  committed or recovered, the view of the chain at each read of the indexer, and the subscriptions and
  unsubscriptions other goroutines ask for during a `Send`, any number of which arrive at each point where
  they may. Which channel takes a value when is left open.
* `ghost u` parameters name one well-formed tree that holds the stored blocks and the batch: the batch has
  passed header validation.

## Where the code does not do what one would expect

Each of these is stated with the exact condition under which the expected property holds.

* `GetAncestor` on the zero hash: above the head the map also reads as zero, so the walk believes to be on
  the canonical chain and answers with a canonical hash although the zero hash has no ancestors. The
  contract of `HeaderChain.GetAncestor` says exactly when; `HeaderChain.AncestorOfZero` is such a call.
* The comment on `InsertHeaderChain` (headerchain.go, line 365) promises that an error means nothing was
  written. `HeaderChain.WritesThenFails` is the exact condition, on the state before the call, under which
  headers are written and an error is returned: in essence, the batch is preferred and its parent has a gap
  below it. `HeaderChain.WrittenThenFailed` is such an input, and on a store with exact difficulties there is
  none (`HeaderChain.ExactNeverFails`). Pruning by a light client leaves such stores: it deletes old canonical
  headers and keeps those of side chains (op-geth/light/postprocess.go, line 268), and a rewind then jumps to
  the genesis at the gap.
* When the block of the target header is missing, the head-block rewind goes to the genesis without
  recommitting its state; the state of the new head is available just when the block was there or the
  genesis state was (`HeadRewind.HeadMarkers.UpdateHead`, with a rewind that loses it in
  `HeadRewind.StatelessGenesis`).
* A system deposit that Regolith records as using its gas although the pool was never charged breaks the
  gas balance of its block, and nothing else does (`TransitionLaws.GasLaw`, `TransitionLaws.UnmeteredDeposit`,
  `StateProcessor.BlockGasConserved`).
* A simulated (fake) message is never charged the L1 cost. Before Regolith the cost of a signature is paid out
  for it all the same, although the comment in rollup_l1_cost.go, line 68, takes the data gas of such messages
  to be zero; from Regolith on it is, and nothing is paid. `TransitionLaws.SimulatedConserves` is the exact
  condition and `TransitionLaws.SimulationMakesMoney` an input. Before Bedrock an Optimism chain charges real
  messages the L1 cost and pays it to nobody (`TransitionLaws.LondonBurnsBaseFee`).
* A deposit has no nonce check, and the nonce of its sender is a 64-bit word that it can make wrap around. With
  that exception no nonce falls and no transaction of a block is applied twice (`TransitionRules.NoncesRise`,
  `Replay.NoReplay`); `Replay.ReplayAfterWrap` is a block where one is. It takes a sender that has used up all
  2^64 nonces.
* The access-list part of the intrinsic gas is added without the overflow test the data part gets
  (`Gas.IntrinsicGasExact`). It takes more than 7 * 10^15 entries or keys to make it wrap, which no caller
  can hold.
* `Sections` compares only the last recorded head. The other heads down to the checkpoint are canonical just
  when the canonical hashes at the ends of those sections are chained by parents
  (`IndexerSteps.HeadsCanonical`), which a chain linked from the checkpoint up is. In the middle of a block
  reorganisation, which rewrites the number-to-hash map number by number, they are not, and a section with a
  non-canonical head passes: `IndexerSteps.HalfReorganised` is a run that gets there.

## Model

| member | source | states |
|---|---|---|
| ChainStore.AncestryCut | op-geth/core/headerchain.go:401-433 | Cutting the ancestry of a block at a number gives the ancestry of its ancestor there |
| ChainStore.LookupExactIff | op-geth/core/blockchain.go:2149-2155 | A lookup table that is exact for a chain (an entry for exactly its transactions, each naming its block) exists just when no transaction lies in two of its blocks, and is then unique |
| ChainStore.TdWrite | op-geth/core/blockchain.go:1322-1337 | Writing a block with its parent's total difficulty plus its own keeps every stored difficulty exact and rewrites none |
| ForkChoice.ReorgNeeded | op-geth/core/forkchoice.go:77-113 | The chosen head has the greater total difficulty of the two, capped at the terminal difficulty; a refused header lies below it; ties go to the shorter chain, then by the miner's preference, then by the coin; an error just when a difficulty is missing |
| ForkChoice.HeadDifficultyMonotone | op-geth/core/forkchoice.go:85-97 | Steps that do not lower the capped difficulty of the head compose: along every run it never falls, so a head at the terminal difficulty stays there. That each insertion is such a step is the content of `ReorgNeeded`, `WriteBlockAndSetHead` and `WriteHeadersAndSetHead` |
| BlockChain.DropTo | op-geth/core/blockchain.go:2068-2075 | Walks the longer old chain down to the given number, gathering exactly the blocks and transactions passed |
| BlockChain.StashTo | op-geth/core/blockchain.go:2076-2081 | Walks the new chain down to the given number, or fails only for a chain with a gap |
| BlockChain.MeetDown | op-geth/core/blockchain.go:2088-2112 | From equal numbers finds the highest block both chains share, and fails just when they are not in one tree |
| BlockChain.FindFork | op-geth/core/blockchain.go:2058-2112 | The dropped and the added stretch between both heads and their fork; fails just when the new chain has a gap or another genesis; nothing is added just when the new head already was canonical |
| BlockChain.HashDifference | op-geth/core/types/transaction.go:521-536 | The set difference of two lists of hashes |
| BlockChain.LookupAfterDrop | op-geth/core/blockchain.go:2137-2155 | Rewriting the new stretch and deleting the dropped transactions that were not rewritten turns the exact lookup table of the old chain into that of the new one |
| BlockChain.BlockChain.WriteHeadBlock | op-geth/core/blockchain.go:874-895 | The whole new state: number assignment, lookup entries and all six markers name the block, nothing else changes |
| BlockChain.BlockChain.RewriteHistory | op-geth/core/blockchain.go:2137-2147 | Overlays the old map with the ancestry of the block below the new head, and the lookup table likewise; collects the transactions rewritten |
| BlockChain.BlockChain.DropStale | op-geth/core/blockchain.go:2149-2172 | Removes exactly the assignments above a number and the given lookup entries |
| BlockChain.BlockChain.Reorg | op-geth/core/blockchain.go:2058-2172 | Succeeds just when both heads are in one tree; then the map is exactly the ancestry of the parent of the new head (or of the new head, if it was canonical) and the lookup table is that chain's; on failure nothing changes |
| BlockChain.BlockChain.WriteKnownBlock | op-geth/core/blockchain.go:1309-1318 | The map is again exactly the ancestry of the new head, whichever chain was longer; the lookup table is exact again; a refused block changes nothing |
| BlockChain.BlockChain.SetCanonical | op-geth/core/blockchain.go:2232-2253 | The same for the engine's choice of head, refused also when its state cannot be made available |
| BlockChain.BlockChain.WriteBlockWithState | op-geth/core/blockchain.go:1322-1345 | Adds the block and its exact difficulty and leaves the canonical chain alone; without a parent difficulty nothing is written |
| BlockChain.BlockChain.WriteBlockAndSetHead | op-geth/core/blockchain.go:1416-1439 | Map, difficulties and lookup stay exact; the block becomes the head just when it is written, fork choice prefers it and it shares the tree, and otherwise the head stays; the capped difficulty of the head never falls, and a side block has no more than the head |
| BlockChain.BlockChain.DecideHead | op-geth/core/blockchain.go:1420-1439 | A stored block becomes the head just when fork choice prefers it and it shares the tree; otherwise nothing changes |
| BlockChain.BlockChain.WriteBlockWithoutState | op-geth/core/blockchain.go:1293-1305 | Adds a side block with a summed difficulty that is exact |
| BlockChain.BlockChain.ImportSideBlock | op-geth/core/blockchain.go:1877-1922 | The running difficulty is the stored difficulty of the block whether it was canonical, known or new; refused just when it has the state root of another canonical block |
| BlockChain.BlockChain.InsertSideChain | op-geth/core/blockchain.go:1866-1922 | After the loop every block of the side chain is stored, all difficulties are exact and the last one is returned; fails just on a block with a canonical state root |
| HeaderChain.DeleteAbove | op-geth/core/headerchain.go:149-156 | The pending deletions leave exactly the assignments up to the new head |
| HeaderChain.OverwriteDown | op-geth/core/headerchain.go:160-175 | The pending map agrees with the ancestry of the first header up to it, or a parent is missing just when its chain has a gap |
| HeaderChain.ExtendWith | op-geth/core/headerchain.go:177-188 | The pending map becomes exactly the ancestry of the last header of the batch |
| HeaderChain.HeaderChain.Reorg | op-geth/core/headerchain.go:134-198 | The map becomes exactly the ancestry of the last header and the markers name it; fails just when its chain has a gap, and then nothing changes |
| HeaderChain.UnknownStays | op-geth/core/headerchain.go:231-244 | Behind an unknown header every header is unknown, so skipping the lookup misses nothing |
| HeaderChain.StoreAllExact | op-geth/core/headerchain.go:204-256 | Storing a batch header by header, each with its parent's difficulty plus its own, stores all of it, keeps old entries and keeps difficulties exact |
| HeaderChain.CollectHeaders | op-geth/core/headerchain.go:212-245 | On any store the loop with the known-parent shortcut writes exactly the headers from the first unknown one on, with summed difficulties, and counts them |
| HeaderChain.WriteFromExact | op-geth/core/headerchain.go:212-245 | On a store with exact difficulties that is what storing header by header gives, and the headers written are the new ones, a suffix |
| HeaderChain.WrittenKnown | op-geth/core/headerchain.go:204-256 | On any store the whole batch is known afterwards, and something changed just when a header was unknown |
| HeaderChain.HeaderChain.WriteHeaders | op-geth/core/headerchain.go:204-256 | Stores the batch from the first unknown header on and returns how many were written; fails just without a parent difficulty or when interrupted, writing nothing; exact difficulties stay exact |
| HeaderChain.HeaderChain.ChooseHead | op-geth/core/headerchain.go:281-300 | An error just when a difficulty is missing or the preferred batch has a gap below it, and then nothing changes. Otherwise the head is the last header just when fork choice prefers it and it was not canonical, or it was the head already; the status tells a new head, a side chain with new headers, and a batch that changed nothing |
| HeaderChain.HeaviestChosen | op-geth/core/headerchain.go:281-300 | On exact difficulties that decision makes the head the heavier of the two, even when a preferred batch is already canonical |
| HeaderChain.AncestorTd | op-geth/core/headerchain.go:204-256 | On exact difficulties no ancestor is heavier than its descendant |
| HeaderChain.HeaderChain.WriteHeadersAndSetHead | op-geth/core/headerchain.go:265-301 | The map stays exact over every insertion; an insertion without success has changed the store just when it writes and then fails; on success head, status and counts are decided as above; on exact difficulties it never fails after writing, they stay exact, and the head is as heavy, as fork choice counts, as the heavier of the old head and the batch |
| HeaderChain.ExactNeverFails | op-geth/core/headerchain.go:281-298 | With exact difficulties choosing the head cannot fail |
| HeaderChain.FailsAfterWriting | op-geth/core/headerchain.go:281-298 | After a batch with a new header was written, choosing the head fails just when the head has no difficulty, or the summed difficulty of the batch is preferred and its parent has no complete chain |
| HeaderChain.WrittenThenFailed | op-geth/core/headerchain.go:365-366 | A store without the ancestors of a header, a batch on that header: the batch is written and an error returned |
| HeaderChain.CanonicalWalk | op-geth/core/headerchain.go:412-419 | From a canonical block the naive walk stays canonical, which is what the jump relies on |
| HeaderChain.ZeroHashHasNoAncestor | op-geth/core/headerchain.go:412-419 | The naive walk from the zero hash finds nothing |
| HeaderChain.HeaderChain.GetAncestor | op-geth/core/headerchain.go:401-433 | For a real hash: the naive walk's answer and number, the allowance falls by the steps off the canonical chain, and failure just for depth beyond genesis, a missing header or a spent allowance; for the zero hash: exactly when a wrong answer is given |
| HeaderChain.AncestorOfZero | op-geth/core/headerchain.go:412-419 | A call with the zero hash that answers with the genesis |
| HeaderChain.ScheduleDeletions | op-geth/core/headerchain.go:639-666 | After each step everything stored at or above that number, on all forks, is scheduled |
| HeaderChain.RewoundTables | op-geth/core/headerchain.go:650-671 | Deleting what was scheduled leaves a well-formed store with exact difficulties, one genesis, and a map that is the ancestry of the new head |
| HeaderChain.HeaderChain.RewindMarkers | op-geth/core/headerchain.go:605-667 | Stops at the highest ancestor that meets the target; the states persisted on the way are one for each number passed, each the old database with the marker on the canonical header one lower; everything above the stop is scheduled |
| HeaderChain.HeaderChain.FlushDeletions | op-geth/core/headerchain.go:650-671 | The scheduled deletions leave exactly what lies at or below the new head, and a map that is its ancestry |
| HeaderChain.StopExact | op-geth/core/headerchain.go:599-605 | The highest ancestor that meets the target is the one at the number asked for, or the head when that is not above it; for a time target every higher header is later |
| HeaderChain.HeaderChain.SetHead | op-geth/core/headerchain.go:580-676 | On any store that has every parent: ends at the highest ancestor of the old head that meets the number or time target; nothing above it is left on any fork, the map is exactly its ancestry, the difficulties are the old ones of what is kept and exact if they were; the persisted states are the marker steps and then the result, and in each the head marker names a stored header |
| HeadRewind.FindStateful | op-geth/core/blockchain.go:622-667 | Ends at the highest ancestor that has its state and lies at or below a block with the requested root, just when no stateless block at or below the pivot comes first, and at the genesis otherwise; the root number is that of the first block with the root above the genesis just when the search got there, wherever it ends |
| HeadRewind.HeadMarkers.UpdateHead | op-geth/core/blockchain.go:612-704 | Head block and fast block move down with the header, are never above it, and stay, in memory and on disk, when they are below; the head block is the one that search chooses, and its state is available just when the block of the header was there or the genesis state was |
| HeadRewind.HeadMarkers.Follow | op-geth/core/headerchain.go:605-637 | Through all the calls of a header rewind neither block is ever above the header about to become the head header |
| HeadRewind.StatelessGenesis | op-geth/core/blockchain.go:616-621 | A rewind after which the head is a genesis without its state |
| HashLookup.CacheGrow | op-geth/core/evm.go:83-87 | Cached hashes stay right while the chain grows |
| HashLookup.HashFn.GetHash | op-geth/core/evm.go:83-119 | Whatever is cached, the answer is that of the uncached walk along parents, zero at or above the reference or beyond a missing header; cached hashes are kept |
| TrieGc.PopOldest | op-geth/core/blockchain.go:1392-1393 | Takes one item with the smallest number out of the queue and loses no other |
| TrieGc.TrieCache.ReleaseUpTo | op-geth/core/blockchain.go:1391-1399 | Releases every item up to a number and no other, keeping references equal to queue occurrences |
| TrieGc.TrieCache.WriteBlock | op-geth/core/blockchain.go:1347-1399 | References per root equal occurrences in the queue; an item is released once, and only while writing a block at least 128 later |
| TrieGc.TrieCache.Drain | op-geth/core/blockchain.go:963-965 | All references are dropped, and every pushed item has been released as often as pushed |
| Balances.TotalSet | op-geth/core/state_transition.go:250-250 | Changing one balance changes the sum of all balances by as much |
| Balances.TransferConserves | op-geth/core/evm.go:121-131 | A transfer moves the amount and keeps the sum of all balances, also to oneself; the balance check passes just when the sender is not left below zero |
| Gas.GasPool.SubGas | op-geth/core/gaspool.go:39-45 | Takes the amount just when the pool has it, otherwise nothing |
| Gas.GasPool.AddGas | op-geth/core/gaspool.go:29-35 | Adds the amount; every call is proved to fit 64 bits |
| Gas.DivisionGuard | op-geth/core/state_transition.go:152-160 | The test by division fails just when the product would exceed 64 bits |
| Gas.ToWordSize | op-geth/core/state_transition.go:179-185 | The size in 32-byte words, rounded up, without overflow |
| Gas.PriceData | op-geth/core/state_transition.go:130-170 | The data part is the exact sum, or an overflow just when that exceeds 64 bits; `PriceOfByte` says what the sum is |
| Gas.IntrinsicGas | op-geth/core/state_transition.go:129-176 | The price that `PriceOfNothing`, `PriceOfByte` and `PriceOfEntry` build up |
| Gas.PriceOfNothing | op-geth/core/state_transition.go:130-136 | 21000, or 53000 for a creation from Homestead on |
| Gas.PriceOfByte | op-geth/core/state_transition.go:137-170 | One more byte adds 4 if it is zero, otherwise 16 under EIP-2028 and 68 before, and in a creation under EIP-3860 2 more when it begins a word; the result overflows just when that exceeds 64 bits |
| Gas.PriceOfEntry | op-geth/core/state_transition.go:171-174 | An access-list entry with k keys adds 2400 + 1900 k, wrapping around at 64 bits |
| Gas.IntrinsicGasExact | op-geth/core/state_transition.go:171-175 | The price is the exact sum just when the sum fits 64 bits |
| StateTransition.CappedRefund | op-geth/core/state_transition.go:489-495 | As much as possible of the refund counter is refunded, up to one fifth of the gas spent from London on and one half before |
| StateTransition.StateTransition.BuyGas | op-geth/core/state_transition.go:222-252 | Charges price and L1 cost and takes the gas, or refuses for lack of funds or block gas and changes nothing |
| StateTransition.StateTransition.PreCheck | op-geth/core/state_transition.go:254-315 | Every check of nonce, sender and fees in order, and what deposits and system deposits take from the pool |
| StateTransition.StateTransition.RefundGas | op-geth/core/state_transition.go:489-504 | Capped refund, money for unspent gas, gas back to the pool without overflow |
| StateTransition.StateTransition.PayRecipients | op-geth/core/state_transition.go:458-480 | Tip, base fee and L1 cost reach their recipients |
| StateTransition.StateTransition.SettleUp | op-geth/core/state_transition.go:425-487 | The gas recorded as used and the payments on each exit after execution |
| StateTransition.StateTransition.InnerTransitionDb | op-geth/core/state_transition.go:358-487 | World, pool and result are those of the specification on every exit |
| StateTransition.StateTransition.TransitionDb | op-geth/core/state_transition.go:327-356 | Mint, inner transition and the treatment of failed deposits, as specified |
| TransitionRules.SenderErrors | op-geth/core/state_transition.go:270-289 | A real message is rejected for its sender just when the nonce is too high, too low or the last, or the sender holds code, each with its error |
| TransitionRules.CapErrors | op-geth/core/state_transition.go:290-313 | Then, when the caps matter, for caps of more than 256 bits, a tip above the fee cap, or a fee cap below the base fee, in this order |
| TransitionRules.FundErrors | op-geth/core/state_transition.go:222-252 | Then just when the sender owns less than all gas at the fee cap, the value and the L1 cost, or the block has too little gas |
| TransitionRules.IntrinsicErrors | op-geth/core/state_transition.go:388-406 | Then, with the gas bought, for intrinsic gas that overflows or exceeds the gas, a value the sender no longer owns, or too long init code |
| TransitionRules.AppliedIff | op-geth/core/state_transition.go:358-406 | An ordinary message is applied just when it obeys every rule |
| TransitionRules.EvmGets | op-geth/core/state_transition.go:396-423 | The EVM gets the gas beyond the intrinsic gas, and a world with the mint credited, the up-front payment taken and, for a call, the nonce used |
| TransitionRules.RefundLaw | op-geth/core/state_transition.go:440-495 | The gas recorded is the gas spent minus the largest refund EIP-3529 allows: a fifth from London on, half before, never more than the counter |
| TransitionRules.TipLaw | op-geth/core/state_transition.go:458-461 | The tip is the price before London, and from then on as much of the tip cap as the fee cap leaves above the base fee |
| TransitionRules.LedgerTerms | op-geth/core/state_transition.go:463-480 | The L1 cost charged and paid, when the coinbase is skipped, and the two recipients, in the terms of the rules |
| TransitionRules.NoncesRise | op-geth/core/state_transition.go:417-423 | No nonce falls, except that a deposit or simulation can wrap around its sender's, and a real message uses up its own |
| TransitionRules.OneNonce | op-geth/core/state_transition.go:336-339 | A call uses exactly one nonce when the EVM leaves nonces alone, and so does a deposit that cannot run |
| TransitionLaws.PayFeesTotal | op-geth/core/state_transition.go:458-480 | Fees add to the sum of all balances the gas used times what the recipients earn, plus the L1 cost paid |
| TransitionLaws.AccountLedger | op-geth/core/state_transition.go:222-504 | For every account: what an ordinary message takes from it or pays to it before and after the EVM, as sender, coinbase, base-fee or L1-fee recipient, on the gas the result records; nobody else is touched |
| TransitionLaws.BalanceLaw | op-geth/core/state_transition.go:358-504 | The ledger of an ordinary message: mint, the EVM's own change, and a fee surplus given exactly |
| TransitionLaws.RejectedLeaves | op-geth/core/state_transition.go:358-406 | A message is rejected just when it does not reach the EVM: untouched, its mint aside, when a check refuses it, and charged for all its gas when it is blocked after buying |
| TransitionLaws.BedrockConserves | op-geth/core/state_transition.go:440-487 | Under Bedrock, at base fee plus tip, the sum of all balances changes by mint and EVM alone just when the L1 cost charged is the one paid |
| TransitionLaws.RealConserves | op-geth/core/state_transition.go:222-252 | A real message is charged what is paid, whatever L1 prices the contract has before and after it, so it conserves |
| TransitionLaws.SimulatedConserves | op-geth/core/state_transition.go:473-480 | A simulated one conserves just when Regolith is active or the L1 cost of a signature is zero |
| TransitionLaws.SimulationMakesMoney | op-geth/core/state_transition.go:473-480 | A simulated call before Regolith that makes money |
| RollupCost.NoDataCost | op-geth/core/types/rollup_l1_cost.go:30-38 | Without rollup data there is a cost just before Regolith, that of a signature |
| RollupCost.DataGasCounts | op-geth/core/types/rollup_l1_cost.go:30-38 | 4 for a zero byte, 16 for another, and 68 of those more before Regolith, on 64 bits |
| RollupCost.CostRounds | op-geth/core/types/rollup_l1_cost.go:82-88 | Data gas plus overhead at the L1 base fee, in millionths of the scalar, rounded down; overhead counts like data gas |
| RollupCost.SameCostTwice | op-geth/core/types/rollup_l1_cost.go:64-80 | Asked twice in one block the cost function gives the same cost, even if the prices in the contract changed in between |
| RollupCost.CostFunc.Cost | op-geth/core/types/rollup_l1_cost.go:64-88 | No cost without the Optimism configuration, for deposits and without data gas; otherwise the cost at the prices first read in the block, which are remembered |
| TransitionLaws.LondonBurnsBaseFee | op-geth/core/state_transition.go:440-487 | Without Bedrock it changes by mint and EVM minus gas used times base fee and minus the L1 cost, which is zero without Optimism |
| TransitionLaws.EffectivePrice | op-geth/core/types/transaction.go:726-729 | The price made from the caps is base fee plus effective tip and at most the fee cap |
| TransitionLaws.BuyingLeavesValue | op-geth/core/state_transition.go:232-250 | Once gas is bought at no more than the fee cap the sender still owns the value, so the later value check cannot fail |
| TransitionLaws.StaysSolvent | op-geth/core/state_transition.go:358-504 | No balance is below zero after an ordinary message, whether it was refused, blocked or ran |
| TransitionLaws.GasLaw | op-geth/core/state_transition.go:244-268 | Recorded gas is what the pool lost, plus the gas of an unmetered system deposit; the pool never grows |
| TransitionLaws.UnmeteredDeposit | op-geth/core/state_transition.go:261-265 | A system deposit that records 21000 gas and takes none from the pool |
| TransitionLaws.DepositIncluded | op-geth/core/state_transition.go:327-356 | A deposit is rejected just when the block lacks gas; one that cannot run leaves its mint and one nonce increment and nothing else |
| TransitionLaws.DepositBalances | op-geth/core/state_transition.go:425-457 | On every exit a deposit with zero gas price changes the sum of all balances by mint and EVM |
| TransitionRules.DepositRuns | op-geth/core/state_transition.go:254-269 | A deposit runs unless the block lacks gas, it is a system deposit after Regolith, or it breaks a rule about intrinsic gas, value or init code |
| TransitionRules.DepositRan | op-geth/core/state_transition.go:425-457 | Then it leaves balances and nonces as the EVM did, and before Regolith records all its gas, a system deposit none |
| TransitionRules.DepositFailed | op-geth/core/state_transition.go:336-354 | Otherwise it is recorded as failed with all its gas, a system deposit only from Regolith on, and leaves its mint and one nonce used |
| StateProcessor.ApplyTransaction | op-geth/core/state_processor.go:100-140 | Applies the transition and records gas, failure, cumulative gas and the deposit nonce |
| StateProcessor.Process | op-geth/core/state_processor.go:59-88 | The outcomes form a chain of transitions up to the first that fails, the receipts record them and their cumulative gas is the prefix sum |
| StateProcessor.BlockGas | op-geth/core/state_processor.go:67-88 | After every transaction pool plus recorded gas is the block gas limit plus what unmetered deposits recorded |
| StateProcessor.BlockGasConserved | op-geth/core/state_processor.go:67-88 | Pool plus recorded gas is the limit just when there was no unmetered deposit, on an Optimism chain just when Regolith is not active or no system deposit with gas is among the transactions; then no counter wraps |
| StateProcessor.NoExcess | op-geth/core/state_transition.go:261-265 | Before Regolith, or without system deposits with gas, nothing is unmetered, and on an Optimism chain only then |
| StateProcessor.BlockMoney | op-geth/core/state_processor.go:67-88 | After every transaction of a block the sum of all balances has changed by the mints, what the EVM did and the fee surpluses |
| StateProcessor.BlockConserves | op-geth/core/state_processor.go:67-88 | In a Bedrock block of deposits and real messages at base fee plus tip the fees make and burn nothing |
| Replay.NoReplay | op-geth/core/state_processor.go:76-88 | In a block the messages of one sender are applied in the order of their nonces, each nonce once, as long as no deposit wraps its nonce around |
| Replay.NonceMonotone | op-geth/core/state_processor.go:76-88 | As long as nothing wraps it around, the nonce of an account does not fall over a block |
| Replay.ReplayAfterWrap | op-geth/core/state_transition.go:336-339 | A block in which a deposit wraps a nonce around and a transaction is applied twice |
| Replay.DepositNonceUsed | op-geth/core/state_processor.go:105-140 | From Regolith on the receipt of a deposit, and of no other transaction, carries the nonce the deposit used |
| IndexerSteps.VerifyKeeps | op-geth/core/chain_indexer.go:422-429 | Dropping sections, with the chain read anew each time, ends at the checkpoint or with a last head that was canonical at the last read, and keeps the invariant |
| IndexerSteps.VerifyExact | op-geth/core/chain_indexer.go:422-429 | Exactly the most sections are kept that end in one whose head the chain confirms when read for it, down to the checkpoint; every dropped one was contradicted, and lower heads stay |
| IndexerSteps.BegunStarts | op-geth/core/chain_indexer.go:319-337 | An update starts just when more is known than stored, on the section above those verifying keeps, on top of the head recorded there |
| IndexerSteps.FinishedCounts | op-geth/core/chain_indexer.go:348-369 | A result counts just when the section below is unchanged, and then adds that section and changes nothing else; otherwise only what verifying keeps stays known, so nothing is retried |
| IndexerSteps.CheckpointRaises | op-geth/core/chain_indexer.go:130-143 | A checkpoint takes effect just when it is above the last one and all stored sections, and never loses a section |
| IndexerSteps.AcceptKeeps | op-geth/core/chain_indexer.go:350-353 | A result that counts was built for the next section on the recorded head, and extends the linked sections |
| IndexerSteps.ExtendedKnowsConfirmed | op-geth/core/chain_indexer.go:276-299 | Known sections grow to exactly those complete and confirmed, just when these are more than before, reach the checkpoint and the chain agrees with it |
| IndexerSteps.ReorganisedForgets | op-geth/core/chain_indexer.go:248-264 | No section beyond the point of a reorganisation stays known or, above the checkpoint, stored; no more are forgotten than that, except that a point below the checkpoint forgets all known ones; lower heads are kept |
| IndexerSteps.StepKeeps | op-geth/core/chain_indexer.go:243-440 | Every step keeps the invariant on any view of the chain |
| IndexerSteps.RunKeeps | op-geth/core/chain_indexer.go:243-440 | So does every interleaving of steps and changes of the chain |
| IndexerSteps.HeadsCanonical | op-geth/core/chain_indexer.go:384-429 | If the last recorded head is canonical, all recorded heads down to the checkpoint are just when the canonical hashes at the ends of the sections are chained by parents |
| IndexerSteps.LinkedChained | op-geth/core/chain_indexer.go:124-126 | A chain that is linked from the checkpoint up, with nothing needed below, is chained |
| IndexerSteps.SectionsCanonical | op-geth/core/chain_indexer.go:431-440 | In every run the sections exposed beyond the checkpoint have the canonical hashes of their last blocks as heads just when those are chained as the last read saw the chain, and each such section was committed under its head |
| IndexerSteps.HalfReorganised | op-geth/core/chain_indexer.go:422-429 | A run from the empty indexer with sections of eight blocks, and a reorganisation that has rewritten blocks 1 to 7 only: both sections pass although the first head is not canonical |
| BloomIndexer.BloomIndexer.Reset | op-geth/core/bloom_indexer.go:61-65 | Starts an empty section, refused for sizes that are not a multiple of eight |
| BloomIndexer.BloomIndexer.Process | op-geth/core/bloom_indexer.go:69-73 | Adds the bloom of exactly the next header of the section; any other is ignored |
| BloomIndexer.BloomIndexer.Commit | op-geth/core/bloom_indexer.go:77-87 | Stores one column for each of the 2048 bits under the section head, or nothing when the section is incomplete |
| BloomIndexer.CanonicalBlooms | op-geth/core/chain_indexer.go:397-412 | As far down as the chain is linked, the headers that end in a canonical hash are the canonical ones |
| ChainIndexer.StoredColumn | op-geth/eth/bloombits.go:57-59 | The column stored under the canonical head is the bit in the blooms of the canonical headers, in order, when the chain is linked from the first block of the section up |
| ChainIndexer.ReadableSections | op-geth/eth/bloombits.go:57-59 | On a chain linked from the checkpoint up, every bit of every section that passed is stored under the key a filter builds, and is the canonical column |
| ChainIndexer.ChainIndexer.SetValidSections | op-geth/core/chain_indexer.go:479-491 | The count is set, exactly the heads of dropped sections are removed, and the others stay as they were |
| ChainIndexer.ChainIndexer.VerifyLastHead | op-geth/core/chain_indexer.go:422-429 | The loop, reading the chain anew for each section, keeps exactly what `VerifyExact` says |
| ChainIndexer.ChainIndexer.NewHead | op-geth/core/chain_indexer.go:243-300 | Takes the step for a new head or a reorganisation and keeps the invariant |
| ChainIndexer.ChainIndexer.BeginUpdate | op-geth/core/chain_indexer.go:319-337 | Takes the locked start of an update and keeps the invariant |
| ChainIndexer.ChainIndexer.FinishUpdate | op-geth/core/chain_indexer.go:348-369 | Takes the locked end of an update and keeps the invariant |
| ChainIndexer.ChainIndexer.AddCheckpoint | op-geth/core/chain_indexer.go:130-143 | Takes the checkpoint step and keeps the invariant |
| ChainIndexer.ChainIndexer.FeedSection | op-geth/core/chain_indexer.go:397-412 | Whatever each read sees, success means a full, hash-linked, consecutively numbered section on the given head was fed, each position once; on a chain that stays as it is and holds the section, it is the canonical section |
| ChainIndexer.ChainIndexer.ProcessSection | op-geth/core/chain_indexer.go:388-417 | A result is such a section and committed; a failure leaves the index as it was, except that a refused reset drops all sections |
| ChainIndexer.ChainIndexer.Sections | op-geth/core/chain_indexer.go:434-440 | Exposes exactly the sections `VerifyExact` keeps; their heads beyond the checkpoint are canonical just when the canonical hashes are chained; on a chain linked from the checkpoint up a filter can read every bit of those sections, and reads the bits of the canonical headers |
| Feed.Find | op-geth/event/feed.go:213-220 | The first index of the channel, or -1 just when it is not there |
| Feed.Delete | op-geth/event/feed.go:223-225 | In place, the list without that element |
| Feed.Deactivate | op-geth/event/feed.go:228-232 | In place, the element swapped with the last active one and out of the prefix |
| Feed.DeliverStep | op-geth/event/feed.go:159-165 | A delivery keeps the account: each case of the start is still listed, was removed before it took the value or after, and inactive and served cases are exactly the deliveries |
| Feed.RemoveActive | op-geth/event/feed.go:171-177 | So does the removal of a case that is still active, which shrinks the active prefix |
| Feed.RemoveServed | op-geth/event/feed.go:171-177 | So does the removal of one that has taken the value, which leaves the prefix alone |
| Feed.RemoveBoth | op-geth/event/feed.go:171-177 | Either removal keeps both accounts of a send: what became of the cases at the start, and what unsubscriptions asked for |
| Feed.Feed.Subscribe | op-geth/event/feed.go:72-92 | One more open subscription of the channel, which may have others, in the inbox |
| Feed.Feed.RemoveFromInbox | op-geth/event/feed.go:103-114 | The first entry of the channel leaves the inbox; a channel that is not there has a case nobody waits for, and waits |
| Feed.Feed.DropCase | op-geth/event/feed.go:116-124 | A waiting channel is always found, and removed from the list and from those waiting |
| Feed.Feed.MergeInbox | op-geth/event/feed.go:134-144 | The case list becomes list plus inbox |
| Feed.Feed.TryActive | op-geth/event/feed.go:156-165 | Any of the active cases may take the value without blocking, each once, while requests arrive |
| Feed.Feed.Remove | op-geth/event/feed.go:171-177 | A removal in the middle of a send takes out one that waits, and keeps the account whether its case was active or served |
| Feed.Feed.Select | op-geth/event/feed.go:169-181 | Exactly one active case takes the value, or exactly one waiting channel is removed |
| Feed.Feed.Interfere | op-geth/event/feed.go:72-114 | The requests that arrive have on inbox and waiting channels the effect of handling them in order |
| Feed.Feed.SendLoop | op-geth/event/feed.go:151-182 | Ends with no active case, the account kept, the count of deliveries right, and removals and waiting channels together those that waited before or were asked for |
| Feed.SendEnds | op-geth/event/feed.go:166-168 | With no active case left, deliveries plus the removals that came first make up the start |
| Feed.SendOutcome | op-geth/event/feed.go:128-190 | So nothing is sent twice or elsewhere, and only what an unsubscription asked for is missed or removed |
| Feed.Undisturbed | op-geth/event/feed.go:126-128 | A channel nobody unsubscribes takes the value once for each subscription and keeps all its cases |
| Feed.WaitsRequested | op-geth/event/feed.go:103-114 | Only a channel whose unsubscription was asked for waits for removal |
| Feed.Feed.Send | op-geth/event/feed.go:128-190 | For every sequence of requests, every timing and every order of takers, also with one channel subscribed several times: the channels that took the value are subscriptions at the merge, each once; the number of them missing, and the cases gone, are covered by unsubscriptions that waited or arrived; a channel without any gets all its values and keeps its cases; the count is right and the removal case stays first |

## Left out

- The EVM interpreter, state tries, the raw database encoding and the LRU caches: the EVM is a parameter, the rest are maps, and a cache read is a read of the store.
- Header, seal, uncle and signature verification: blocks and batches arrive validated.
- Freezer writes, `InsertReceiptChain`, snapshots and the forced rewind below the ancient limit.
- Events and logs sent by a reorganisation, metrics and logging.
- `setHeadBeyondRoot` as one loop: the header rewind and the sequence of head-block updates it makes are modelled one by one.
- The block number 2^64 - 1, which the L1 cost function takes for "nothing remembered yet".
- `insertChain`, `recoverAncestors` and the re-import at the end of `insertSideChain`: they need block execution on a real state.
- Flushing tries to disk (`Cap`, `Commit`): it takes and drops no references of the queue.
- Child indexers, `cascadedHead`, the event loop that finds the common ancestor, concurrent `AddCheckpoint`, and a crash in the middle of a section write. The unlocked write after a failed reset is one step.
- The bit layout and compression of bloom columns: a column is a sequence of booleans.
- The value slot of the feed's select cases, its reflective type check and `feedof.go`, which is the same algorithm with a type parameter.
- Block rewards, withdrawals and the state root at the end of `Process`.
- HeaderChain.HeaderChain.SetHead: on stores where every header has its parent; the jump to the genesis at a gap is in the body of `RewindMarkers` but not taken.
- BlockChain.BlockChain.Reorg: in full-block operation, where all head markers name one block; headers running ahead of blocks (snap sync) are a separate phase that the source keeps apart, and an old chain with a gap is excluded by the invariant.
- IndexerSteps.StepKeeps: a checkpoint comes with a real head and while no section is being processed.
- Feed.Feed.MergeInbox: always takes a new array; append may reuse spare capacity of the old one.
- Feed.Feed.Send: Select is taken to return; a send to a channel that is never read blocks in the source.
- TrieGc.PopOldest: among items with the same number it takes the first; the heap may take any, and nothing depends on which.
