# Proofs about mev-scout

A Dafny model of the parts of mev-scout that carry state over a run, and proofs
of what they keep. `dafny verify dfyconfig.toml` checks everything.

| files | part of the program |
|---|---|
| `RustInts`, `Sequences`, `Division` | fixed-width integers with their saturating, wrapping and casting operators; stock operations and facts |
| `PaperTypes`, `StableSort`, `OrderedGroups`, `Multisets`, `LedgerOrder` | data of the paper ledger, its stable sort by key and its grouping by block |
| `Ledger`, `FillSums`, `LedgerRuns`, `LedgerInvariants`, `LedgerVerdicts`, `DisjointChoice`, `LedgerGreedy` | the greedy per-block paper ledger: runs, invariants, the reason of every outcome and the approximation guarantee |
| `LedgerExecuted`, `ExecutedCalls` | the ledger booked from an adversarial execution backend, and what calls it makes |
| `Cycle`, `Deltas` | the closed-cycle search and the balance-delta ledger of a transaction |
| `ExplorerStore`, `Reorg`, `LiveIndexer`, `LiveSafety`, `LiveHealth` | the live indexer: store, fork search, polls, safety over any run of polls and what a healthy one achieves |
| `Permits`, `RangeRuns`, `RangePipeline`, `RangeAccounting`, `JitPositions` | the concurrent backfill pipeline and the open liquidity positions |
| `LiveSession` | the live detection loop over successive tip ranges |
| `FetchRuns`, `Fetcher`, `FetchLaws` | the bounded-concurrency block fetcher and its write buffer |
| `GasPrices` | the gas price distribution |
| `Calldata` | the calldata writer and the ABI word readers |

Code that works by changing things step by step is a method or a class here,
proved against a function of its inputs; the theorems are about that function
and hold for every input, every run or every choice of the runtime. What the
outside answers (network, store writes, prices, progress) is a parameter. Only
which open request completes next is left to the runtime: the backfill pipeline
is proved to end the same for every choice, and the fetcher to end as its
requests finishing one after another in the chosen order. Casts and negations
wrap modulo 2^128 and signed 256-bit differences modulo 2^256, as in a build
without overflow checks.

## What the proofs found

- **A lost fork cursor leaves a hole.** When a poll of the live indexer finds a
  fork and unwinds the store, and then gives up because the sweep's probe or the
  native price failed, the cursor moved back to the fork is dropped. The next
  poll goes on above it and the checkpoint covers the deleted blocks
  (`LostForkLeavesHole`). A poll keeps its range covered exactly when this does
  not happen (`PollKeepsCoveredExactlyUnlessForkLost`). Only a later fork moves
  the cursor back (`HolesStayUnlessForked`); it closes the hole exactly when it
  lies at the hole or below and its poll reaches the index loop
  (`HoleStaysExactlyUnlessReached`), and a session in which none does ends with
  the hole (`SessionEndsWithHole`).
- **A dead provider does not end a live run.** The comment at
  `core/src/explorer/ingest.rs:1047-1049` says it must end loudly. Failed head
  requests are invisible (`HeadFailuresAreInvisible`): a session ends exactly when
  ten polls in a row fail after their head was answered
  (`SessionAbortsExactlyWhen`), so with every head request failing it never does
  (`DeadProviderNeverAborts`).
- **A deep reorg is not healed.** A reorganised tip is unwound and indexed again
  exactly when its fork lies above block 0 and less than `confirmations` + 32 blocks
  below it (`ReorgHealsExactlyWhenShallow`); else every poll fails, however well the
  provider answers, and the tenth ends the session (`DeepReorgAborts`).
- **Block 0 may be indexed unconfirmed.** The lag is subtracted saturating, so with
  a lag longer than the chain a backfill from block 0 stores block 0
  (`LagLongerThanChain`); every other row is confirmed
  (`RowsAreConfirmedUnlessAtZero`).
- **A revert that burned more than 2^127 wei is credited.** The cast of its gas is
  negative, so the executed ledger's wallet grows (`WalletNext` in
  `ExecutionIsJudged`); `AttemptConservesExactlyWhenFair` asks that this does
  not happen.
- **The backfill checkpoint covers skipped blocks.** `run_range` moves it to the
  end of the range either way (`CheckpointOverMissingBlock`). The range is complete
  exactly when every missing block's request was answered and, on the serial path,
  no write failed before its commit (`RangeIsCompleteExactlyWhen`); else only a
  re-run over the same range fills the gaps (`RerunTakesUpTheSkipped`).
- **Pending opportunities revise the past.** They carry the next block's number,
  so the next pass may take back a fill already reported (`PendingFillIsRevised`);
  what lies below that pass's first block stays (`PassKeepsEarlierBlocks`).
- **Gas prices are the largest, not the latest.** The comments say "recent"; a
  trim keeps the largest prices ever added (`TrimLeavesLargestEver`).
- **A re-opened liquidity position is lost.** Deletes run after inserts, so a
  position burned and minted again within a block, in another transaction, is
  not kept. The comment says mints closed in the same block are dropped; the
  code compares within one transaction.
- **Ties follow the input order**, so the ledger is independent of it only
  without equal keys (`TieGoesToTheFirst`).
- **A residual of 2^255 or more counts as an inventory spend**
  (`HasInventorySpend`).
- **A session's failure count is not reset by quiet polls** (`QuietPollsDoNotReset`,
  `QuietPollsAreInvisible`). It gives up exactly when a ledger cannot be made or
  five failures come without a completed pass between them
  (`SessionGivesUpExactlyWhen`), so they need not be adjacent
  (`SpreadFailuresEndTheSession`).
- **Chunked scheduling near the largest u64.** The sum that finds a request's end
  wraps and the cursor after the largest u64 stays put; the requests partition the
  range exactly when neither happens (`ScheduleCoversExactlyWhen`), which
  `FetchChunked` asks of its caller.
- **A plan's fee is a u32, the signature says uint24**
  (`FeesFitUint24ExactlyWhen`).
- `NotNativeUnit` is never produced: all four strategies are native-eligible.

## Model

| member | source | states |
|---|---|---|
| `PaperTypes.NetWei` | core/src/paper/ledger.rs:59-63 | profit minus gas through the two casts is the true difference when that fits in i128, and else off by 2^128 |
| `PaperTypes.IsNativeEligible` | core/src/paper/ledger.rs:43-48 | every strategy is native-eligible, so the first gate never refuses anyone |
| `PaperTypes.CollectPools` | core/src/paper/ledger.rs:93-110 | the loop over pools and path collects the list the ledger stores with a fill |
| `PaperTypes.PoolsOfIsPoolSet` | core/src/paper/ledger.rs:93-110 | that list holds exactly the non-zero pools named by the opportunity |
| `StableSort.SortIsStableSort` | core/src/paper/ledger.rs:145-153 | the sort yields an ordered permutation that keeps ties in input order, for any total preorder |
| `LedgerOrder.KeyLeqTotal` | core/src/paper/ledger.rs:112-119 | the four-part key orders any two candidates, and only equal keys tie |
| `LedgerOrder.KeyLeqTransitive` | core/src/paper/ledger.rs:112-119 | the four-part order is transitive |
| `LedgerOrder.StringLeqIsByteOrder` | core/src/paper/ledger.rs:112-119 | ids are ordered by the first byte in which they differ, a prefix first |
| `Ledger.ApplyBlock` | core/src/paper/ledger.rs:155-281 | the loop over one sorted block, with its gates in order and all running totals, refines the candidate-by-candidate specification |
| `Ledger.Apply` | core/src/paper/ledger.rs:122-312 | grouping, sorting, the block loop and the result refine the specification that the theorems below are about |
| `LedgerVerdicts.LedgerIsJudged` | core/src/paper/ledger.rs:155-281 | every fill and skip is what judging its candidate by the fills reported before it gives, with no wallet, conflict set or count kept: net not positive, cap fills of its block, gas above what the wallet those fills leave has over the reserve, a pool of its block taken, in this order; and each fill holds the candidate, its net, gross, gas and pools, and the wallet before and after |
| `LedgerVerdicts.TurnsAreTheCandidates` | core/src/paper/ledger.rs:136-153 | candidates are judged block after block, each exactly once |
| `LedgerVerdicts.GasRefusalsAreDear` | core/src/paper/ledger.rs:199-211 | a candidate refused for gas costs more than what lies above the reserve in the wallet that the blocks before its own leave, everything earned there included |
| `LedgerGreedy.GreedyIsKApproximationOfPaid` | core/src/paper/ledger.rs:144-281 | over any number of blocks and for any wallet, k times the booked net covers the net of every pool-disjoint choice among the candidates not refused for gas, when candidates touch at most k pools; only in blocks where the fill cap refused someone must the choice keep to the cap |
| `LedgerGreedy.GreedyIsKApproximation` | core/src/paper/ledger.rs:144-281 | where the gas gate refused nobody, the same against every pool-disjoint choice |
| `LedgerGreedy.GasNeverRefusesTheAffordable` | core/src/paper/ledger.rs:199-211 | the gas gate refuses nobody when every candidate could be paid from the starting wallet |
| `LedgerGreedy.GreedyIsKApproximationOfAffordable` | core/src/paper/ledger.rs:144-281 | the guarantee with conditions on the input alone, against every pool-disjoint choice of candidates that could be paid from the starting wallet, at most the cap per block, whatever the others cost |
| `LedgerGreedy.GreedyIsKApproximationOfPayable` | core/src/paper/ledger.rs:144-281 | the guarantee against every pool-disjoint choice of candidates that could be paid from the wallet the blocks before their own leave |
| `LedgerGreedy.UnaffordableBreaksTheBound` | core/src/paper/ledger.rs:199-211 | one profitable candidate that cannot be paid at the start leaves the ledger with nothing, so a choice may not hold such candidates |
| `DisjointChoice.Charge` | core/src/paper/ledger.rs:144-281 | the charging argument for one block in descending order of net, from any set of taken pools and any number of slots left |
| `LedgerRuns.RecomputingIsContinuing` | core/src/paper/ledger.rs:122-312 | when every block of A precedes every block of B, applying A and B together is running B from the state A left, and the fills and skips of A are prefixes |
| `LedgerRuns.LedgerIsCausal` | core/src/paper/ledger.rs:122-312 | for any input in any order and any block, what is filled and skipped below the block is what the opportunities below it alone give, and comes first |
| `LedgerRuns.AddingLaterKeepsThePast` | core/src/paper/ledger.rs:122-312 | opportunities added at or above a block leave every outcome below it as it was |
| `LedgerRuns.SharedBlockRevisesFills` | core/src/paper/ledger.rs:136-153 | with a shared block a later, better rival takes back a fill that was already reported |
| `LedgerRuns.ApplyIgnoresInputOrder` | core/src/paper/ledger.rs:136-153 | any permutation of the input gives the same result, field by field, when no two candidates of a block share a key |
| `LedgerRuns.TieGoesToTheFirst` | core/src/paper/ledger.rs:145-153 | with equal keys the input order decides which of two rivals is filled |
| `LedgerRuns.RivalsAreDecidedByKey` | core/src/paper/ledger.rs:145-153 | of two rivals the higher net wins in either input order, then the one anchored to a transaction, then the lower index, then the smaller id byte by byte, a missing id counting as the empty one |
| `LedgerRuns.BoundsMeaning` | core/src/paper/ledger.rs:139-142 | the reported first and last block are the least and greatest block of the input, and absent exactly for no input |
| `LedgerRuns.ReportSpansInput` | core/src/paper/ledger.rs:283-312 | the result names the starting wallet, the reserve, and exactly the span of the input |
| `LedgerInvariants.ApplyKeepsInvariants` | core/src/paper/ledger.rs:122-312 | fills chain from the starting to the ending wallet, each fits above the reserve, pools are disjoint within a block, no block exceeds the clamped cap, drawdown is 0, totals are the capped sums, the best net is that of the best fill, and every opportunity is one fill or one skip |
| `LedgerInvariants.GrossMinusGasIsNet` | core/src/paper/ledger.rs:274-279 | gross minus gas is the reported net when profits and gas lie below 2^127 and totals do not saturate |
| `LedgerExecuted.ApplyWalletDelta` | core/src/paper/ledger.rs:81-91 | moving the wallet raises the peak or deepens the drawdown, never both |
| `LedgerExecuted.SettleAttempt` | core/src/paper/ledger.rs:634-727 | each answer of the backend (failed, reverted, lossy, profitable) has its own bookkeeping |
| `LedgerExecuted.ExecuteBlock` | core/src/paper/ledger.rs:563-728 | the gates before the call, and one call for each candidate that passes them |
| `LedgerExecuted.ApplyExecuted` | core/src/paper/ledger.rs:518-760 | the executed ledger refines the specification that the theorems below are about |
| `LedgerExecuted.DrawdownIsTheMaximumDrop` | core/src/paper/ledger.rs:81-91 | for every backend the reported drawdown is the largest drop between two points of the wallet trace, saturating steps included |
| `LedgerExecuted.AttemptConservesExactlyWhenFair` | core/src/paper/ledger.rs:634-693 | one attempt conserves money exactly when its debit fits the wallet, its credit fits u128 and its gas fits i128 |
| `LedgerExecuted.ExecutionConservesMoney` | core/src/paper/ledger.rs:518-760 | when every call the run makes is answered fairly, ending wallet plus revert gas plus execution loss is starting wallet plus booked net, and the success count is the number of fills |
| `LedgerExecuted.EveryOpportunityHasOneOutcome` | core/src/paper/ledger.rs:563-728 | whatever the backend answers, every opportunity ends as exactly one fill or one skip |
| `ExecutedCalls.ExecutionIsJudged` | core/src/paper/ledger.rs:518-760 | for every backend: each candidate, judged by the calls made and fills reported before it, is skipped with the reason that bars it or is the next call, with the wallet those calls leave; each answer gives its fill or skip; and wallet, success and revert counts, revert gas, losses, gas, gross and best net are those of the calls and fills, each capped |
| `ExecutedCalls.CallsAreAdmitted` | core/src/paper/ledger.rs:563-632 | every call is for a strategy that can be executed, with a positive claimed net and gas that fits above the reserve in the wallet shown, and no block has more fills than the cap |
| `ExecutedCalls.ExecutedRunIsAdmitted` | core/src/paper/ledger.rs:602-611 | so no block of any executed run has more fills than the cap |
| `Cycle.DfsCycle` | core/src/explorer/profit.rs:259-302 | a found walk comes from a closable trail that continues the current one, a refusal means there is none, and the mark array is restored |
| `Cycle.PruningIsHarmless` | core/src/explorer/profit.rs:269-297 | every closed trail over two pools can be rotated and cut to one that the first-return pruning does not lose |
| `Cycle.CutAtFirstReturn` | core/src/explorer/profit.rs:269-297 | a closed trail whose first two edges lie in different pools, cut at its first return, still counts |
| `Cycle.FindClosedCycle` | core/src/explorer/profit.rs:219-233 | a walk is returned exactly when a closed trail of at least two distinct edges over two pools exists, and it is the anchor and tokens of one |
| `Cycle.HasClosedCycle` | core/src/explorer/profit.rs:211-213 | true exactly when such a trail exists |
| `Deltas.DeltaLedger.FromTransfers` | core/src/explorer/profit.rs:74-98 | each entry exists exactly where a kept transfer touches it and holds the exact sum capped at the largest u256; native value sent is a debit |
| `Deltas.EntriesSumTheTransfers` | core/src/explorer/profit.rs:38-98 | without native value every entry is the capped sum over all its transfers; with it the same for every token but the wrapped one, of which exactly the mints and burns are left out |
| `Deltas.EntriesAreOfTheParties` | core/src/explorer/profit.rs:74-111 | entries exist exactly for the receivers and senders of the transfers that count, and for the sender of native value |
| `Deltas.WrapThenSpendLeavesNothing` | core/src/explorer/profit.rs:38-49 | wrapping in a transaction without native value and spending what was wrapped leaves no residual |
| `Deltas.DeltaLedger.Apply` | core/src/explorer/profit.rs:100-111 | one saturating addition to one entry, none for the zero address |
| `Deltas.NetSignedExactWhen` | core/src/explorer/profit.rs:114-125 | the signed net is the true residual, and net and deficit its positive and negative parts, exactly when the residual fits in i256, and else off by 2^256 |
| `Deltas.DeltaLedger.PositiveTokens` | core/src/explorer/profit.rs:128-138 | ascending, and exactly the tokens with a positive net |
| `Deltas.DeltaLedger.TouchedTokens` | core/src/explorer/profit.rs:141-152 | ascending, and exactly the tokens on either side |
| `Deltas.DeltaLedger.HasInventorySpend` | core/src/explorer/profit.rs:161-166 | true exactly when some residual is negative, or too large for i256 |
| `Deltas.DeltaLedger.SelectProfitToken` | core/src/explorer/profit.rs:178-203 | none exactly when no net is positive; else the first priority token with a positive net, else the largest net with the lowest address |
| `Deltas.DeltaLedger.NetFlashLoan` | core/src/explorer/profit.rs:307-317 | the loan and its fee join what was spent, and nothing else moves |
| `Deltas.LedgersIgnoreOrder` | core/src/explorer/profit.rs:74-111 | permuting the transfers leaves both maps unchanged, even where sums saturate |
| `Deltas.ResidualIsMintedMinusBurned` | core/src/explorer/profit.rs:74-98 | the residuals of a token over all accounts sum to minted minus burned over the kept transfers, less native value sent |
| `Deltas.LedgerConserves` | core/src/explorer/profit.rs:74-125 | the same for the maps themselves, absent saturation |
| `Deltas.SupplyIsConserved` | core/src/explorer/profit.rs:74-98 | absent saturation the residuals of a token sum to all that was minted minus all that was burned, those of the wrapped token beside native value to nothing |
| `ExplorerStore.UnclassifiedMeaning` | core/src/explorer/store/sync.rs:51-80 | the gap list is ascending and holds exactly the unclassified blocks of the range |
| `ExplorerStore.Store.UnwindFrom` | core/src/explorer/store/sync.rs:88-135 | exactly the blocks from the fork on are deleted |
| `Reorg.ForkBlockFromChecks` | core/src/explorer/ingest.rs:710-721 | the lowest block of the leading run of mismatches, and none when every check mismatched |
| `Reorg.WalkToFork` | core/src/explorer/ingest.rs:727-772 | the walk refines its specification and the store is unwound from the reported fork, else untouched |
| `Reorg.CheckReorg` | core/src/explorer/ingest.rs:776-794 | the sweep probes one block and walks only from a mismatch |
| `Reorg.VerifyIndexedTip` | core/src/explorer/ingest.rs:801-826 | the tip check decides as the sweep does |
| `Reorg.ProbeIsCleanExactlyWhen` | core/src/explorer/ingest.rs:776-823 | the check is clean exactly when nothing is stored at the block or its hash agrees, and fails for a stored block whose request fails |
| `Reorg.WalkFindsBottom` | core/src/explorer/ingest.rs:727-772 | a fork is reported exactly at the bottom of the run of mismatches, when it lies above the lookback bound and over a block that agrees or is not stored |
| `Reorg.WalkGivesUpWhen` | core/src/explorer/ingest.rs:727-772 | the walk gives up exactly when the whole window is stored and mismatches, or the provider fails under an unbroken run of mismatches |
| `Reorg.ForkIsExact` | core/src/explorer/ingest.rs:727-772 | where agreement is downward closed the fork is the lowest mismatching block of the run, found exactly when above the bound, and unwinding deletes no agreeing block and leaves no mismatching one |
| `Reorg.LowestMismatch` | core/src/explorer/ingest.rs:727-772 | such a block exists |
| `LiveIndexer.TipJumpCheckpoint` | core/src/explorer/ingest.rs:249-254 | the checkpoint after a start at the tip is the smaller of the stored one, if any, and the block below the tip |
| `LiveIndexer.AfterBlockAttempt` | core/src/explorer/ingest.rs:1073-1087 | success advances and resets the count; a failure pins its block, forbids the checkpoint and adds one |
| `LiveIndexer.CheckpointTarget` | core/src/explorer/ingest.rs:1096-1102 | exactly a completed range gives a resume point, the block after it |
| `LiveIndexer.IndexBlock` | core/src/explorer/ingest.rs:273-304 | a classified block is skipped as a success; a failure may come before or after the rows are committed |
| `LiveIndexer.IndexRange` | core/src/explorer/ingest.rs:1247-1324 | price, index loop and checkpoint of one poll refine their specification |
| `LiveIndexer.PollStore` | core/src/explorer/ingest.rs:1155-1331 | one turn of the loop, with both reorg probes, refines its specification |
| `LiveIndexer.RunLive` | core/src/explorer/ingest.rs:1117-1339 | the loop over any sequence of polls refines its specification |
| `LiveSafety.PollKeepsCoveredExactlyUnlessForkLost` | core/src/explorer/ingest.rs:1155-1331 | a poll keeps every block from the lowest cursor to the next block classified exactly unless it drops a fork cursor it has unwound for |
| `LiveSafety.CheckpointOnlyOverCompleteRange` | core/src/explorer/ingest.rs:1271-1324 | a completed range writes its end, with the whole session range up to it classified, and no other poll of a started session moves the checkpoint |
| `LiveSafety.SessionKeepsCovered` | core/src/explorer/ingest.rs:1117-1339 | a whole session that loses no fork cursor keeps its range classified |
| `LiveSafety.SessionCheckpointsAreSound` | core/src/explorer/ingest.rs:1117-1339 | every checkpoint a session writes, up to the first lost fork cursor, has the whole session range below it |
| `LiveSafety.SessionEndsWithHole` | core/src/explorer/ingest.rs:1117-1339 | a session that loses a fork cursor over a non-empty range has a hole just below its next block, and ends with it if no later poll indexes from there or below, and, without a further lost cursor, only then |
| `LiveSafety.NoForkNeverReachesBack` | core/src/explorer/ingest.rs:1155-1331 | a run that finds no fork never goes back to a hole |
| `LiveSafety.LostForkLeavesHole` | core/src/explorer/ingest.rs:1219-1265 | a fresh session of three polls that indexes a block, unwinds it, misses the price, and ends with a hole below the checkpoint |
| `LiveSafety.HoleStaysExactlyUnlessReached` | core/src/explorer/ingest.rs:1155-1331 | a poll closes a hole exactly when a fork moves its cursor to the hole or below and it reaches the index loop |
| `LiveSafety.HoleLastsExactlyUnlessReached` | core/src/explorer/ingest.rs:1117-1339 | over a run that loses no fork cursor a hole is there at the end exactly when no poll went back to it |
| `LiveSafety.HolesStayUnlessForked` | core/src/explorer/ingest.rs:1155-1331 | a missing block below the next block stays missing until a poll finds a fork |
| `LiveSafety.PollShape` | core/src/explorer/ingest.rs:1155-1331 | a poll reaches the index loop on the rows and cursor both probes left, or leaves the next block alone |
| `LiveSafety.IndexFromMeaning` | core/src/explorer/ingest.rs:1272-1315 | the index loop only adds rows, up to the failed block if one fails |
| `LiveSafety.PollCounts` | core/src/explorer/ingest.rs:1189-1315 | what a poll does to the failure count, read off the answers to its head, probe, price and index requests; it aborts exactly when that makes ten |
| `LiveSafety.SessionAbortsExactlyWhen` | core/src/explorer/ingest.rs:1117-1339 | a session aborts exactly when ten polls in a row fail, polls without a head or without a block to index aside |
| `LiveSafety.HeadFailuresAreInvisible` | core/src/explorer/ingest.rs:1159-1166 | a run ends as it would without the polls whose head request failed |
| `LiveSafety.DeadProviderNeverAborts` | core/src/explorer/ingest.rs:1159-1166 | polls whose head request fails change nothing and count nothing, however many there are |
| `LiveHealth.HealthyPoll` | core/src/explorer/ingest.rs:1155-1331 | a poll whose requests succeed, on a store that agrees with the chain, resets the failure count and leaves everything from its cursor to the safe head indexed |
| `LiveHealth.HealthySessionIndexesEverything` | core/src/explorer/ingest.rs:1117-1339 | a session whose heads do not fall and whose requests succeed never fails, indexes every block from the first safe head to the last once, with the hash of the chain, and ends with its checkpoint at the safe head |
| `LiveHealth.ReorgHealsExactlyWhenShallow` | core/src/explorer/ingest.rs:1190-1265 | a poll whose requests succeed heals a reorganised tip exactly when the fork is above block 0 and less than confirmations + 32 blocks below the tip; else it fails and changes nothing but the failure count |
| `LiveHealth.DeepReorgAborts` | core/src/explorer/ingest.rs:1190-1216 | over polls whose requests all succeed, a reorg that reaches block 0 or at least confirmations + 32 blocks below the tip is never healed: the tenth failure aborts, and the database is as before |
| `LiveHealth.SweepWaitsForThirtyTwoPolls` | core/src/explorer/ingest.rs:1221-1248 | until the thirty-second poll that gets as far, the answers to the sweep do not matter |
| `LiveHealth.SweepHealsWhatTheTipHides` | core/src/explorer/ingest.rs:1221-1248 | then a mismatch just below the cursor that the tip check did not see is unwound and indexed again |
| `LiveHealth.IndexLoopStopsAt` | core/src/explorer/ingest.rs:1272-1315 | the index loop stops at the first block that is not stored and whose call failed, and counts the blocks before it |
| `LiveHealth.IndexLoopStores` | core/src/explorer/ingest.rs:273-304 | it stores the blocks before that one, with the hash each call told, and that one exactly when its rows were committed before the failure |
| `LiveHealth.StoredBlocksAreNotAskedFor` | core/src/explorer/ingest.rs:286-292 | what the call for a stored block would answer does not matter |
| `LiveHealth.FailedPollGoesOnAtTheBlock` | core/src/explorer/ingest.rs:1272-1324 | a poll that fails in its index loop goes on at the block that failed, which the next attempt passes without asking when its rows were committed |
| `LiveHealth.CheckpointWritten` | core/src/explorer/ingest.rs:1168-1324 | what a poll writes as head and checkpoint: the end of a range it completed, else at a start the jump to just below the safe head, never up, else nothing |
| `RangeRuns.PipelinedMeaning` | core/src/explorer/ingest.rs:1529-1601 | a pipelined run succeeds exactly when no fetched block meets a failed price or write; then exactly the blocks whose fetch failed are skipped and each other block is committed, ascending |
| `RangeRuns.PipelinedRows` | core/src/explorer/ingest.rs:1529-1569 | every committed row is a missing block with the hash its request answered, in ascending order, also when the run fails |
| `RangeRuns.SerialMeaning` | core/src/explorer/ingest.rs:1439-1476 | a serial run succeeds exactly when no price fails; then exactly the blocks whose fetch or write failed are skipped |
| `RangeRuns.SerialRows` | core/src/explorer/ingest.rs:1439-1476 | the same about the rows of the serial path |
| `RangeRuns.PipelinedIsSerial` | core/src/explorer/ingest.rs:1439-1601 | with one block a request and no failed write the two paths agree |
| `RangeRuns.SerialEndsExactlyAtFailedPrices` | core/src/explorer/ingest.rs:1439-1443 | a serial run ends early exactly when the price fails at a missing block a multiple of 256 above the first block of the range |
| `RangeRuns.PipelinedEndsExactlyWhen` | core/src/explorer/ingest.rs:1529-1569 | a pipelined run ends early exactly when that price, or the write, fails at a missing block whose request was answered |
| `RangePipeline.Refill` | core/src/explorer/ingest.rs:1525-1527 | requests are opened until the permits or the blocks run out, each of the plan |
| `RangePipeline.Complete` | core/src/explorer/ingest.rs:1571-1593 | an answered request makes its blocks ready with their rows, a failed one skips them |
| `RangePipeline.Arrived` | core/src/explorer/ingest.rs:1571-1577 | an answered request leaves every block in exactly one place, its own ready with their rows |
| `RangePipeline.Dropped` | core/src/explorer/ingest.rs:1578-1593 | a failed request leaves every block in exactly one place, its own skipped |
| `RangePipeline.NeverStalls` | core/src/explorer/ingest.rs:1594-1599 | when the needed block is neither ready nor skipped, its own fetch is in flight |
| `RangePipeline.FetchingWithinCap` | core/src/explorer/ingest.rs:1433-1479 | blocks in flight stay within the cap |
| `RangePipeline.PersistOne` | core/src/explorer/ingest.rs:1535-1569 | the price when it is due, then the write, of one fetched block |
| `RangePipeline.RunPipelined` | core/src/explorer/ingest.rs:1478-1601 | whichever fetch completes first, the pipeline terminates and leaves the store, its history of writes and the report as going through the missing blocks one by one does |
| `RangePipeline.IndexOne` | core/src/explorer/ingest.rs:1440-1475 | one block of the serial loop: the price when it is due, its own request, the write; any failure but that of the price only skips |
| `RangePipeline.RunSerial` | core/src/explorer/ingest.rs:1439-1476 | the serial loop refines its specification |
| `RangeAccounting.RunRange` | core/src/explorer/ingest.rs:1358-1616 | the whole call: outcome, rows written in order, and checkpoint |
| `RangeAccounting.RangeIsAccounted` | core/src/explorer/ingest.rs:1358-1616 | after a successful call each missing block is processed or skipped, never both, the rows added are those of the processed blocks and of skipped ones committed before their failure, and the checkpoint is at the end of the range |
| `RangeAccounting.RangeIsCompleteExactlyWhen` | core/src/explorer/ingest.rs:1358-1616 | a successful call, which writes its checkpoint at the end of the range, leaves the range complete exactly when every missing block was answered and, on the serial path, no write failed before its commit |
| `RangeAccounting.RangeStaysConfirmed` | core/src/explorer/ingest.rs:1376-1390 | rows and checkpoint stay within the range and the confirmation lag below the tip, also when the call fails in the middle, block 0 aside; the checkpoint stops short of the range only at that lag; and nothing is written when the whole range, block 0 aside, lies inside the lag |
| `RangeAccounting.RowsAreConfirmedUnlessAtZero` | core/src/explorer/ingest.rs:1376-1390 | every row is confirmed unless the range starts at block 0 and the lag is longer than the chain; then block 0 is all that is written |
| `RangeAccounting.LagLongerThanChain` | core/src/explorer/ingest.rs:1376-1390 | such a call: six confirmations on a chain of height five, and block 0 is stored |
| `RangeAccounting.RangeReachesEveryConfirmed` | core/src/explorer/ingest.rs:1376-1616 | after a successful call every confirmed block of the range is classified or reported as skipped |
| `RangeAccounting.RangeFailsExactlyWhen` | core/src/explorer/ingest.rs:1371-1616 | a call fails exactly when the range is reversed, the tip is not known, the first price fails or the run over the missing blocks is ended by an answer; it then writes no checkpoint |
| `RangeAccounting.RangeStoresWhatWasAnswered` | core/src/explorer/ingest.rs:1439-1601 | blocks stored before keep their hash, and each new row has the hash its request answered |
| `RangeAccounting.CheckpointOverMissingBlock` | core/src/explorer/ingest.rs:1439-1616 | one missing block whose request is not answered: the call succeeds and the checkpoint covers it |
| `RangeAccounting.RerunTakesUpTheSkipped` | core/src/explorer/ingest.rs:1461-1468 | a re-run starts from exactly the blocks that were skipped with nothing committed |
| `JitPositions.PersistJitPositions` | core/src/explorer/ingest.rs:635-676 | a position is gone if any transaction burned it, else as the block opened it last, else as before; after a block that opened or closed anything, nothing older than the window is left |
| `JitPositions.JitStore.RecordJitOpen` | core/src/explorer/store/jit_positions.rs:199-222 | the last row for a position decides |
| `JitPositions.BatchedIsReplayExactlyUnlessReopened` | core/src/explorer/ingest.rs:635-676 | a stored position, its block and liquidity included, is what replaying the facts in order gives, exactly unless some transaction burns it and the last fact about it is a mint |
| `LiveSession.LiveContext.UpdateLedger` | core/src/jobs/live.rs:541-548 | the ledger is recomputed from scratch over everything found so far |
| `LiveSession.LiveContext.ExtendSession` | core/src/jobs/live.rs:250-255 | the span becomes the least one that holds the range and the span so far |
| `LiveSession.LiveContext.ProcessPass` | core/src/jobs/live.rs:1063-1192 | a pass moves the session only when fetch, backtest and ledger all succeed |
| `LiveSession.LiveContext.RunLoop` | core/src/jobs/live.rs:1194-1249 | the loop over any sequence of turns refines its specification |
| `LiveSession.ScansWithoutGapOrOverlap` | core/src/jobs/live.rs:1063-1249 | completed ranges partition the blocks above the first tip, the count is their total and the span exactly their range |
| `LiveSession.SessionScansWithoutGapOrOverlap` | core/src/jobs/live.rs:1063-1249 | the same for a session from its opening |
| `LiveSession.FailuresChangeNothingElse` | core/src/jobs/live.rs:1036-1143 | over any run that does not give up, leaving out the turns whose poll, fetch or backtest failed changes only the failure count |
| `LiveSession.RunGivesUpExactlyWhen` | core/src/jobs/live.rs:1036-1249 | a run gives up exactly when a ledger cannot be made or five failures come without a completed pass between them, those before the run counted in |
| `LiveSession.SessionGivesUpExactlyWhen` | core/src/jobs/live.rs:1036-1249 | the same for a session from its opening, read off the answers of its turns |
| `LiveSession.QuietPollsDoNotReset` | core/src/jobs/live.rs:1222-1249 | without a completed pass the failure count is the number of failed turns, quiet polls between them or not |
| `LiveSession.QuietPollsAreInvisible` | core/src/jobs/live.rs:1222-1249 | a run ends as it would without its quiet polls, giving up or not |
| `LiveSession.SpreadFailuresEndTheSession` | core/src/jobs/live.rs:1222-1249 | five failures with a quiet poll between any two end a session |
| `LiveSession.SessionLedgerIsContinued` | core/src/jobs/live.rs:535-548 | recomputing after every pass equals continuing pass by pass, and reported fills stay, when passes find only their own blocks |
| `LiveSession.PassKeepsEarlierBlocks` | core/src/jobs/live.rs:535-548 | a pass can revise outcomes of its own and later blocks only; everything reported below its first block stays |
| `LiveSession.PendingFillIsRevised` | core/src/jobs/live.rs:535-548 | a pending opportunity with the next block number can have its reported fill taken back by the next pass |
| `LiveSession.DyingLeavesTheScanBehind` | core/src/jobs/live.rs:1171-1183 | a ledger that cannot be made ends the session after the scan: span and opportunities hold the new range, last block and passes do not |
| `FetchRuns.PlanPartitions` | core/src/fetch/fetcher.rs:409-421 | the planned requests follow each other, cover the range exactly and have at most the chunk size |
| `FetchRuns.ScheduleCoversExactlyWhen` | core/src/fetch/fetcher.rs:416-421 | the wrapping scheduling ends with requests that partition the range exactly when the range does not end at the largest u64 and the sum for its last request does not pass it |
| `FetchRuns.LastStartIs` | core/src/fetch/fetcher.rs:416-421 | where that last request starts, in closed form |
| `Fetcher.Fetcher.WriteBlockData` | core/src/fetch/fetcher.rs:731-748 | a row is buffered, and at ten the batch is handed over |
| `Fetcher.Fetcher.FlushWriteBuf` | core/src/fetch/fetcher.rs:278-287 | what is left is handed over |
| `Fetcher.Fetcher.RunRequest` | core/src/fetch/fetcher.rs:427-450 | a request whose rows arrive pushes them in order until a write fails |
| `Fetcher.Fetcher.FetchChunked` | core/src/fetch/fetcher.rs:401-479 | the loop ends with every planned request finished, in an order the permits allow, and with buffer, store and count as those requests finishing one after another give |
| `Fetcher.Fetcher.FetchOneByOne` | core/src/fetch/fetcher.rs:320-398 | the same for one block a request |
| `Fetcher.Fetcher.FetchSequential` | core/src/fetch/fetcher.rs:481-545 | one block at a time; a failed write ends the fetch |
| `Fetcher.SpawnRequests` | core/src/fetch/fetcher.rs:417-460 | each open request is the next of the plan, a permit is free whenever one is taken, and blocks in flight never exceed the cap |
| `Fetcher.InFlightWithinCap` | core/src/fetch/fetcher.rs:409-417 | the permits times the chunk never exceed the cap |
| `Fetcher.Fetcher.FetchAndFlush` | core/src/fetch/fetcher.rs:294-319 | the choice of path, and the final flush of a completed fetch |
| `Fetcher.SequentialExactlyWhen` | core/src/fetch/fetcher.rs:302-312 | the sequential path is taken exactly for a concurrency of at most one or a single block |
| `FetchLaws.FetchAccounts` | core/src/fetch/fetcher.rs:401-479 | for any answers and any order each block is pushed at most once, the count is the blocks of the requests that succeeded, every pushed row is stored, lost or buffered, and rows are lost exactly when a batch was not written |
| `FetchLaws.OnlyArrivalsCount` | core/src/fetch/fetcher.rs:427-470 | when every batch is written, exactly the requests whose rows arrive succeed, and nothing else is pushed |
| `FetchLaws.FaultFreeFetchIsComplete` | core/src/fetch/fetcher.rs:401-479 | without failures and cancellation every block of the range is pushed exactly once and counted, in whatever order requests finish |
| `FetchLaws.FlushedIsStoredExactlyWhen` | core/src/fetch/fetcher.rs:278-287 | after the flush everything pushed is in the store exactly when every batch since was written |
| `FetchLaws.SequentialIsInOrder` | core/src/fetch/fetcher.rs:481-545 | unless a write fails, the sequential path is the concurrent one finishing in the order of the plan |
| `FetchLaws.BatchesAreTen` | core/src/fetch/fetcher.rs:731-748 | rows are handed over ten at a time, fewer than ten staying buffered |
| `FetchLaws.RowsAreQueuedInOrder` | core/src/fetch/fetcher.rs:427-450 | when every batch is written, rows are stored request by request as these finished, ascending within each |
| `FetchLaws.CancelledExactlyWhen` | core/src/fetch/fetcher.rs:461-470 | a fetch is cancelled exactly when progress is refused for a block of a request that succeeded, one tick a block |
| `GasPrices.GasPriceDistribution.constructor` | core/src/pipeline/gas.rs:26-32 | at least ten blocks are tracked |
| `GasPrices.GasPriceDistribution.AddTxGasPrice` | core/src/pipeline/gas.rs:35-37 | a price joins the history |
| `GasPrices.GasPriceDistribution.RecordBlock` | core/src/pipeline/gas.rs:40-50 | exactly the latest base fees are kept |
| `GasPrices.GasPriceDistribution.FinalizeBlock` | core/src/pipeline/gas.rs:53-59 | the stored prices stay what the history of calls leaves |
| `GasPrices.GasPriceDistribution.PercentileOf` | core/src/pipeline/gas.rs:63-76 | the percentile is read from the stored prices |
| `GasPrices.TrimLeavesLargestEver` | core/src/pipeline/gas.rs:53-59 | after any history, a finalize that trims leaves exactly the 100 times max_blocks largest prices ever added |
| `GasPrices.PercentilesAfterFinalize` | core/src/pipeline/gas.rs:53-76 | after any finalize the length is bounded, the top percentile is the largest price ever added, and percentiles are monotone |
| `GasPrices.PercentileRank` | core/src/pipeline/gas.rs:63-76 | of the other stored prices, sorted, at most p percent lie below percentile p and, it counted in, more than p percent at or below it |
| `GasPrices.FinalizeTrimsToAHundredABlock` | core/src/pipeline/gas.rs:53-59 | up to two hundred prices a block are kept as they are; beyond, the hundred a block that are the largest ever added |
| `GasPrices.HistoryDominates` | core/src/pipeline/gas.rs:53-59 | at any time what was dropped lies below as many stored prices as a trim keeps |
| `Calldata.NumberSurvivesBytes` | core/src/exec/calldata.rs:51-59 | a number that fits is recovered from its big-endian bytes |
| `Calldata.BytesSurviveNumber` | core/src/exec/calldata.rs:51-59 | bytes are recovered from the number they denote |
| `Calldata.U128FromBeBytes` | core/src/utils.rs:16-21 | the copy loop reads the specified value for any input length |
| `Calldata.U128OfIsLowPart` | core/src/utils.rs:16-21 | that value is the number modulo 2^128, shorter inputs being padded with zeros |
| `Calldata.AbiDecodeU128` | core/src/utils.rs:24-29 | none exactly when the word is not all there; else the word modulo 2^128 |
| `Calldata.AbiDecodeAddress` | core/src/utils.rs:79-84 | none exactly when the word is not all there; else the word modulo 2^160 |
| `Calldata.AbiDecodeU256` | core/src/utils.rs:120-125 | none exactly when the word is not all there; else the number whose encoding the word is |
| `Calldata.WordAddr` | core/src/exec/calldata.rs:45-49 | an address in a fresh 32-byte word is its right-aligned big-endian encoding |
| `Calldata.WordU256` | core/src/exec/calldata.rs:51-53 | the same for a 256-bit number |
| `Calldata.WordU64` | core/src/exec/calldata.rs:55-59 | the same for a 64-bit number |
| `Calldata.EncodeExecute` | core/src/exec/calldata.rs:21-43 | selector, head and leg loop write exactly the words of the plan |
| `Calldata.PlanIsRecovered` | core/src/exec/calldata.rs:21-43 | the readers recover every field and every leg, for any number of legs, following the offset words |
| `Calldata.EncodingIsInjectiveUpToProvider` | core/src/exec/calldata.rs:21-43 | two encodings are equal exactly when selector and plan are, the provider aside |
| `Calldata.FeesFitUint24ExactlyWhen` | core/src/exec/calldata.rs:35-41 | the written fees lie in the declared uint24 range exactly when the plan's do |

## Left out

- Connections that only pass data on: RPC, HTTP, SQLite statements, Anvil, revm, the CLI, progress reporting and logging. Only their success, failure or answer is modelled.
- `apply_simulated`: its deciding step is the candidate simulation, which is not part of this model; the loop around it is that of `apply`.
- The classifier, decoders, pool mathematics and price sources; USD pricing, which is floating point. The price of a poll is present only as a request that may fail.
- Fields of opportunities, fills and results that the accounting neither reads nor decides: display strings, simulation and execution labels, transaction hashes. Strategy strings are the strategy itself.
- The store keeps a block's hash and its classified mark as one row, since one transaction writes both and one deletes both. Other tables are not part of this model. Store reads and the checkpoint write do not fail here; in the program such a failure ends the run.
- Waiting: sleeps, deadlines, the stop flag and the limit on processed blocks appear as the end of the sequence of polls or turns.
- `poll_tip_with_retry` counts failures as the loop does and is folded into the turn. Only the ledger mode without simulation or execution is recomputed in `LiveSession`.
- Sharding a range over providers: one range is fetched at a time. A request writes its rows without being interrupted, since it does not wait between its answer and its last row.
- `fetch_range`, `fetch_relevant` and `auto_refetch_gaps`, which select ranges and call the modelled fetch.
- The base-fee ratio is a real number, not a float; nothing proved depends on rounding.
- The function selector is a parameter; keccak is not part of this model.
- `is_dust_deficit`, config merging, chain tables, canonical ids and verdict formatting: single-branch or data-only claims.
- GreedyIsKApproximationOfPaid: the choice is among the candidates not refused for gas; with a candidate that could not be paid there is no bound, as UnaffordableBreaksTheBound shows.
- RecomputingIsContinuing: one direction only, from disjoint blocks to equality; the converse fails, since two passes that share a block may still agree by chance.
- FetchChunked: asks that the plan fits u64, exactly the condition under which the program's scheduling covers the range; what it would fetch otherwise is not modelled further.
- InFlightWithinCap: concerns open requests; the order in which requests finish is constrained only by how many may be open, not by timing.
- AbiDecodeU128: assumes that the offset plus 32 fits usize, as the addition in the program does; so do AbiDecodeAddress and AbiDecodeU256.
