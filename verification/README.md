# Livepeer indexer: a verified model of its hard core

The Livepeer explorer's back end reads protocol events from Arbitrum into Postgres, prices
them, rolls them up per day, and derives stake. Almost every worker is incremental: it keeps
a checkpoint, consumes what is new, and promises to end up with the tables a rebuild from
scratch would give. This project models those workers and proves what their promises come
to, over every input, run, schedule or interleaving, and says exactly when a promise fails.

- `TickMath`, `Twap` — Uniswap V3's fixed-point exponentiation over all 1.77 million ticks,
  and the time-weighted price computed from it.
- `Tickets`, `TicketsMeaning`, `TicketsSchedules`, `TicketsChanges`, `TicketsRollup`,
  `TicketsCrash` — the daily ticket rollup: additive batches with two distinct counts, the
  one-shot rebuild and what it holds in the columns of the raw events, the repair of keys
  queued by a reorg, tables that change below the checkpoint, and interrupted runs.
- `OrchPayouts`, `OrchPayoutsMeaning`, `OrchPayoutsPasses`, `OrchPayoutsSchedules`,
  `OrchPayoutsChanges`, `OrchPayoutsRollup`, `OrchPayoutsCrash` — the payout rollup: one row
  per valuation of an event, the fee share in force at a ticket's position, the split of the
  face value, its own reorg repair, and the same questions as for tickets.
- `ReorgImpact`, `ReorgImpactPayouts` — what the finality and reorg watchers' updates do to
  the two rollups.
- `Checkpoints`, `ReorgQueue` — the checkpoints and the mutation queue the workers share.
- `Watermark`, `Bulk`, `PassLoop` — the valuator: the scan-floor and watermark protocol run
  against concurrent finality stamping, the buffered outcome writes, and the pass loop.
- `StakeFlow`, `StakeFlowMeaning`, `StakeFlowRuns`, `StakeFlowBystanders`,
  `StakeFlowSchedules`, `StakeFlowExamples`, `StakeFlowWorker` — per-delegator replay of stake
  events, the history query and what it omits for bystanders, and late events over a whole
  schedule of runs.
- `Indexer` — the adaptive chunked log backfill with atomic commits, and the loop driving it.
- `Finality` — finality stamping, replay of its persisted inputs, and reorg marking.
- `Receipts`, `RetryLoops` — the receipt drain and the bounded retry of batched reads.
- `Wrappers`, `OnConflict`, `Sets`, `SortedRows` — Option and Result, first-wins inserts, set
  sizes, rows compared as sets.

A Postgres table is a map or a sequence owned by a class; `ON CONFLICT DO NOTHING` is
first-wins insertion, `ON CONFLICT DO UPDATE` adds or overwrites, `GREATEST` is max. RPC
answers are inputs: a function from the attempt, the request or the event to a reply. Where
the source loops over mutable state there is a class or a loop with invariants, proved equal
to a specification function; the lemmas are about that function.

Where a promise of the source is false as stated, the model keeps the code, a lemma gives a
concrete input, and another says exactly when the promise holds:

- a run or a repair of the ticket rollup equals the rebuild: `RunExactly`, `RepairExactly` and
  `PassExactly`, false on `TentativeTicketSuppresses` and `RepairCountsTwice`;
- its table stays right when tickets become visible late or a reorg orphans them:
  `ChangeExactly` and `ChangedPassExactly`, false on `LateTicketIsLost`, `OrphanedTicketStays`
  and `FinalizedTicketStays`;
- an interrupted run is harmless: `CrashExactly`, false on `CrashExample`;
- the payout rollup does the same: `RunExactly`, `PassExactly` and `ChangedPassExactly`, false
  on `SplitExample`, `LateValuationExample` and `OrphanedPayoutStays`;
- the valuator's scan floor skips no work: `NeverSkipsExactly`, false on `LateStampRun` and
  `OtherVersionRun`;
- a stake replay leaves the complete replay: `AffectedExactly` and `BystanderExactly`, false
  on `StaleRowExample`, `StaleRegistryExample` and `BystanderExample`;
- a chunk commit leaves no log behind: `CommitExactly`, false on `SkippedLogExample`;
- a finality replay gives the live finality: `ReplayExactly`, false on `TimesGoBackExample`;
- a receipt iteration leaves nothing behind: `IterationExactly`, false on
  `NullReceiptExample`.

Where code and comments disagree the model follows the code:

- The documents say every reorg mutation is logged in `reorg_mutations`, and all rollups repair
  from that queue; the reorg-watcher (main.rs:25-27) only marks rows non-canonical and nothing
  in the repository fills the queue. The theorems about queued mutations name that
  hypothesis; `ReorgImpact` and `ReorgImpactPayouts` prove what happens with an empty queue.
- tick_math.rs:85-86 says the initial `ratio` is below 2^128; for an even tick it equals
  2^128. The invariant carried is `0 < ratio <= 2^128`.
- backfill.rs:15-16 says the batch doubles up to 10000 blocks; the constant is 9000.
- cursor.rs:9-11 says a cursor bug never skips work; that holds exactly when the pass span
  plus the stamping skew is at most the lookback and TWAP rows land under the run's version.

## Model

| member | source | states |
|---|---|---|
| TickMath.GetSqrtRatioAtTick | crates/livepeer-valuator/src/tick_math.rs:16-77 | an error exactly outside [MIN_TICK, MAX_TICK]; otherwise the specified square-root ratio, with no overflow, no division by zero and no failing unwrap on the way |
| TickMath.RatioOfBits | crates/livepeer-valuator/src/tick_math.rs:29-60 | the nineteen masked multiplications after the initial choice compute the bit-by-bit product of the table constants |
| TickMath.MulShr128 | crates/livepeer-valuator/src/tick_math.rs:80-90 | the result is the floor of a*b / 2^128 |
| TickMath.ProductFits | crates/livepeer-valuator/src/tick_math.rs:80-90 | every product of a reachable ratio and a table constant fits 256 bits, so the checked multiplication never fails |
| TickMath.RatioPositive | crates/livepeer-valuator/src/tick_math.rs:29-65 | for every 20-bit magnitude the ratio stays in (0, 2^128], so the inversion never divides by zero |
| TickMath.StrictlyIncreasing | crates/livepeer-valuator/src/tick_math.rs:16-77 | a lower tick always has a strictly lower output, over the whole range |
| TickMath.TickIsOneBasisPoint | crates/livepeer-valuator/src/tick_math.rs:16-77 | one tick multiplies the price by 1.0001 with relative error below 10^-8, everywhere |
| TickMath.ZeroTickInverse | crates/livepeer-valuator/src/tick_math.rs:62-76 | tick 0 gives exactly 2^96, and inverting its ratio would give the same |
| TickMath.ExtremeOutputs | crates/livepeer-valuator/src/tick_math.rs:10-77 | the outputs at the extreme ticks are Uniswap's MIN_SQRT_RATIO and MAX_SQRT_RATIO |
| TickMath.Fits160Bits | crates/livepeer-valuator/src/tick_math.rs:13-77 | every output lies between those two and below 2^160 |
| TickMath.Reciprocity | crates/livepeer-valuator/src/tick_math.rs:62-76 | opposite ticks multiply to 2^192 within -2^64 and the sum of the two outputs |
| TickMath.RatioAccuracy | crates/livepeer-valuator/src/tick_math.rs:29-60 | the ratio is at most the exact product of the selected constants and short of it by less than 19 |
| Twap.ArithmeticMeanTick | crates/livepeer-valuator/src/onchain.rs:1370-1377 | truncating division with the adjustment is the one floor there is, cast to 64 bits, and the cast keeps it whenever it is a 64-bit value |
| Twap.MeanBetweenExtremes | crates/livepeer-valuator/src/onchain.rs:1247-1250 | the mean of 1800 per-second ticks lies between their extremes |
| Twap.TwapSqrtPrice | crates/livepeer-valuator/src/onchain.rs:1247-1252 | succeeds exactly when the floor mean is a valid tick, with that tick's ratio; fails the i32 check exactly when it does not fit; for a pool that stayed within two valid ticks over the window it succeeds, with a price between theirs |
| Twap.TwapBetweenExtremes | crates/livepeer-valuator/src/onchain.rs:1247-1252 | for ticks within range neither check fails and the price lies between the prices of the lowest and highest tick |
| Tickets.ViewRows | crates/livepeer-rollups/src/tickets.rs:172-222 | the ticket query returns exactly the visible, classified rows, in id order |
| TicketsMeaning.KeyMeans | crates/livepeer-rollups/src/tickets.rs:172-222 | an event's key is a day and kind if and only if its timestamp lies in that day of 86400 seconds and the kind is its gateway's classification, "transcoding" when it has none |
| TicketsMeaning.ShownMeans | crates/livepeer-rollups/src/tickets.rs:172-222 | a row is shown under a key if and only if its event is a canonical ticket, finalized unless tentative ones count, with both parties, of that day and kind |
| TicketsMeaning.BuildMeans | crates/livepeer-rollups/src/tickets.rs:224-248 | the rebuild has a row for a key if and only if such an event exists, and holds their number, how many gateways and orchestrators they name and the last id |
| TicketsMeaning.TableMeans | crates/livepeer-rollups/src/tickets.rs:54-123 | a right table holds the same of the events at or below its checkpoint |
| TicketsMeaning.KindsDecide | crates/livepeer-rollups/src/tickets.rs:187-193 | two configurations that classify the gateways of the shown tickets alike build the same table |
| TicketsMeaning.PriorMeans | crates/livepeer-rollups/src/tickets.rs:250-302 | the anti-joins look for an earlier canonical ticket, shown or not, of the same gateway or orchestrator, day and kind |
| TicketsMeaning.FetchMeans | crates/livepeer-rollups/src/tickets.rs:172-222 | the batch is the first shown rows above the checkpoint, up to the limit |
| TicketsMeaning.RepairKeysMean | crates/livepeer-rollups/src/tickets.rs:133-152 | a key is rebuilt if and only if its row's largest event id is at or above a mutated ticket's, or a mutated ticket is shown under it |
| TicketsMeaning.RepairedMeans | crates/livepeer-rollups/src/tickets.rs:125-170 | a pass repairs exactly the mutations of tickets, canonical or not, above its mutation checkpoint |
| TicketsMeaning.QueuedPassExactly | crates/livepeer-rollups/src/tickets.rs:54-170 | when each changed event is a ticket whose mutation is in the worker's own queue, a pass is right if and only if its repaired keys were fully consumed and no fetched row is suppressed |
| Tickets.CountedExactly | crates/livepeer-rollups/src/tickets.rs:78-103 | a batch counts only parties new to the key, and all of them if and only if no row is hidden by a ticket the view does not show |
| Tickets.KeyExactly | crates/livepeer-rollups/src/tickets.rs:78-112 | adding a batch to a key's true aggregate is exact in counts and ids, never overcounts distinct parties, and is exact in them if and only if no row of the key is suppressed |
| Tickets.BatchExactly | crates/livepeer-rollups/src/tickets.rs:73-113 | applying a batch to the rebuild of a prefix gives the rebuild of the longer prefix if and only if no batch row is suppressed |
| Tickets.PositionAfterRun | crates/livepeer-rollups/src/tickets.rs:56-113 | the checkpoint after a run covers exactly the rows through the end of its batch |
| Tickets.RunExactly | crates/livepeer-rollups/src/tickets.rs:54-123 | a run keeps the table equal to the rebuild of the covered rows if and only if no fetched row is suppressed |
| Tickets.ScheduleExact | crates/livepeer-rollups/src/tickets.rs:54-123 | over any schedule, limits and growth above the checkpoint, the table is the rebuild of the rows consumed, distinct counts included, as long as no fetched row is suppressed |
| Tickets.TickConsumes | crates/livepeer-rollups/src/tickets.rs:54-123 | every scheduled run consumes the next rows it finds, as many as its limit allows |
| TicketsSchedules.InOrderNoneSuppressed | crates/livepeer-rollups/src/tickets.rs:250-302 | no row is ever suppressed when below a visible ticket every canonical one is visible |
| TicketsSchedules.AnyCutting | crates/livepeer-rollups/src/tickets.rs:54-123 | any way of cutting a stream visible in id order into batches accumulates the rebuild of the rows consumed |
| Tickets.CutsAgree | crates/livepeer-rollups/src/tickets.rs:54-123 | any two ways of cutting the stream that drain it end with the same table |
| Tickets.RepairKeysSuffice | crates/livepeer-rollups/src/tickets.rs:133-152 | a key outside the repair set has the same aggregate before and after the mutations |
| Tickets.RepairExactly | crates/livepeer-rollups/src/tickets.rs:125-170 | the repair restores the rebuild of the covered rows if and only if no rebuilt key has a visible row above the checkpoint |
| TicketsSchedules.PassExactly | crates/livepeer-rollups/src/tickets.rs:54-170 | when every mutated event is queued, a whole pass, repair and batch, keeps the table equal to the rebuild of the covered rows if and only if every repaired key was fully consumed and no fetched row is suppressed |
| TicketsChanges.RepairAfterExactly | crates/livepeer-rollups/src/tickets.rs:125-170 | whatever happened to the raw table and whatever is queued, a repair restores the rebuild of the covered rows if and only if every key it rebuilds was fully consumed and every other key was right already |
| TicketsChanges.ChangeExactly | crates/livepeer-rollups/src/tickets.rs:172-222 | a right table is still right after tickets came or went if and only if none did at or below the checkpoint |
| TicketsChanges.ChangedPassExactly | crates/livepeer-rollups/src/tickets.rs:54-170 | after tickets came or went anywhere, with any queue, a pass leaves the table right if and only if its repaired keys were fully consumed, no other key gained or lost a covered ticket, and no fetched row is suppressed |
| TicketsChanges.UnqueuedExactly | crates/livepeer-rollups/src/tickets.rs:54-170 | with an empty queue, exactly when no covered ticket came or went and no fetched row is suppressed |
| TicketsChanges.GapOver | crates/livepeer-rollups/src/tickets.rs:54-170 | over any schedule of changes and passes, the tickets a key misses or counts in excess are exactly those that came and went below the checkpoint, until a repair rebuilds it |
| TicketsChanges.WrongForGood | crates/livepeer-rollups/src/tickets.rs:54-170 | so a late or an orphaned ticket keeps the table wrong over every later pass, unless as many come as went |
| TicketsChanges.QueuedIsUnchanged | crates/livepeer-rollups/src/tickets.rs:125-170 | a queue that names every mutated event leaves no changed key unrepaired |
| TicketsChanges.TurnsExact | crates/livepeer-rollups/src/tickets.rs:54-170 | over any schedule of whole passes whose queue covers what changed below the checkpoint, with growth, mutations and orphans between them, the table is the rebuild of the rows consumed |
| TicketsChanges.TurnConsumes | crates/livepeer-rollups/src/tickets.rs:54-170 | every pass of such a schedule consumes the next rows it finds, as many as its limit allows |
| TicketsChanges.OrphansExactly | crates/livepeer-reorg-watcher/src/runner.rs:65-79 | orphaned events and an empty queue leave the next pass right if and only if none was a consumed visible ticket and no fetched row is suppressed |
| TicketsChanges.OrphanedTicketStays | crates/livepeer-reorg-watcher/src/runner.rs:65-79 | a consumed ticket is orphaned: no pass changes the table, which counts a ticket the rebuild does not |
| ReorgImpact.ShownMeans | crates/livepeer-rollups/src/tickets.rs:172-222 | over the table the watchers update, a ticket is shown if and only if it was ingested, is canonical, names both parties, and is finalized unless tentative ones count |
| ReorgImpact.StepExactly | crates/livepeer-rollups/src/tickets.rs:54-170 | any single update of the raw table, ingest, stamp or orphan, leaves the next pass right if and only if it shows and hides no ticket at or below the checkpoint and none fetched is suppressed |
| ReorgImpact.WalkExactly | crates/livepeer-reorg-watcher/src/runner.rs:18-101 | a reorg walk, stopped early or not, leaves the ticket table right if and only if no block it orphans holds a consumed visible ticket, finalized or not, and none fetched is suppressed |
| ReorgImpact.FinalizedTicketStays | crates/livepeer-reorg-watcher/src/runner.rs:65-79 | a consumed finalized ticket is orphaned with its block by a late tentative row and stays in the table |
| Tickets.TentativeTicketSuppresses | crates/livepeer-rollups/src/tickets.rs:250-302 | two tickets of one party, the first tentative: the finalized one is counted with no distinct party |
| Tickets.RepairCountsTwice | crates/livepeer-rollups/src/tickets.rs:125-170 | a repair that rebuilds a key with an unconsumed row makes the next run count that row again |
| Tickets.LateTicketIsLost | crates/livepeer-rollups/src/tickets.rs:172-222 | one input of that kind: a ticket that becomes visible below the checkpoint changes nothing on the next run while the rebuild counts it |
| ReorgQueue.NothingPendingAfter | crates/livepeer-rollups/src/tickets.rs:125-170 | after a pass no mutation is pending: each is repaired once |
| TicketsCrash.CrashExactly | crates/livepeer-rollups/src/tickets.rs:54-123 | after a crash between the upserts and the checkpoint, the next whole pass, over whatever the raw table and the queue have become, leaves what it would have without the crash if and only if its repair makes up for every key upserted |
| TicketsCrash.UnqueuedCrashExactly | crates/livepeer-rollups/src/tickets.rs:54-123 | with an empty queue, if and only if no key had been upserted |
| TicketsCrash.CrashExample | crates/livepeer-rollups/src/tickets.rs:107-113 | from the empty tables a crash after the first upsert makes one ticket count as two |
| TicketsRollup.Worker.RunOnce | crates/livepeer-rollups/src/tickets.rs:54-123 | the whole pass, repair included, leaves exactly the specified table and both checkpoints, and its summary counts the rows fetched, the keys they touch, the rows written and the checkpoint reached |
| TicketsRollup.Worker.FoldBatch | crates/livepeer-rollups/src/tickets.rs:73-105 | the loop with its two seen-sets computes each key's batch aggregate and the next checkpoint |
| TicketsRollup.Worker.UpsertAll | crates/livepeer-rollups/src/tickets.rs:107-112 | upserting in whatever order the hash map yields adds each aggregate once |
| TicketsRollup.Worker.ProcessReorgMutations | crates/livepeer-rollups/src/tickets.rs:125-170 | the table becomes the repair of the pending mutations' keys and the mutation checkpoint advances past them |
| TicketsRollup.Worker.CollectKeys | crates/livepeer-rollups/src/tickets.rs:133-152 | the keys found by largest event id and by current classification are exactly the repair set |
| TicketsRollup.Worker.RepairAll | crates/livepeer-rollups/src/tickets.rs:154-166 | each key is replaced by its rebuild or deleted when it has no rows, the others stay |
| TicketsRollup.Worker.RebuildAggregateForKey | crates/livepeer-rollups/src/tickets.rs:224-248 | no aggregate exactly when the key has no visible row, otherwise its true aggregate with true set sizes |
| OrchPayouts.FeeShareRawAtBlock | crates/livepeer-rollups/src/orch_payouts.rs:354-364 | the forward scan with its break finds the last update at or before the position, zero before the first |
| OrchPayouts.CommissionBounds | crates/livepeer-rollups/src/orch_payouts.rs:425-429 | a share in range leaves a commission between zero and the amount, and delegators the share's fraction |
| OrchPayouts.SumConserves | crates/livepeer-rollups/src/orch_payouts.rs:133-160 | commission and delegators' share add up to the face value in both currencies, and the priced rows are exactly those with a USD value |
| OrchPayoutsMeaning.ShareMeans | crates/livepeer-rollups/src/orch_payouts.rs:354-364 | the share at a position is that of the last update at an earlier block, or at the same block with a log index not after |
| OrchPayoutsMeaning.NoShareYet | crates/livepeer-rollups/src/orch_payouts.rs:354-364 | before the first update it is zero |
| OrchPayoutsMeaning.ShareOfMeans | crates/livepeer-rollups/src/orch_payouts.rs:127-135 | a ticket is split by its own orchestrator's updates at its own block and log index, and not at all when there are none |
| OrchPayoutsMeaning.SumMeans | crates/livepeer-rollups/src/orch_payouts.rs:133-160 | commission is the sum of face value * (1000000 - share) / 1000000 and the delegators' part that of face value * share / 1000000, at each row's own share, in USD over the priced rows |
| OrchPayoutsMeaning.BuildMeans | crates/livepeer-rollups/src/orch_payouts.rs:367-412 | the rebuild has a row for a key if and only if a canonical, visible row with a gateway has it, and holds the money and the number of gateways of those rows |
| OrchPayoutsMeaning.NoUpdatesNoShare | crates/livepeer-rollups/src/orch_payouts.rs:133-160 | with no fee-share update every row of the table, after any runs, gives all of the face value to the orchestrator and nothing to its delegators |
| OrchPayoutsMeaning.PriorMeans | crates/livepeer-rollups/src/orch_payouts.rs:431-458 | the anti-join looks for an earlier canonical row, visible or not, of the gateway, day, orchestrator and version |
| OrchPayoutsMeaning.BatchMeans | crates/livepeer-rollups/src/orch_payouts.rs:248-311 | the batch is the first visible rows above the checkpoint, up to the limit |
| OrchPayoutsMeaning.RepairKeysMean | crates/livepeer-rollups/src/orch_payouts.rs:218-231 | a key is rebuilt if and only if its orchestrator is a mutated event's and its row's largest id is not below it, or a mutated event has a visible row under it |
| OrchPayouts.CountedExactly | crates/livepeer-rollups/src/orch_payouts.rs:137-145 | a batch counts new gateways only, all of them if and only if none is suppressed by the unfiltered anti-join |
| OrchPayouts.PositionAfterRun | crates/livepeer-rollups/src/orch_payouts.rs:96-188 | the checkpoint covers exactly the fetched rows if and only if the limit does not fall inside one event |
| OrchPayouts.BatchExactly | crates/livepeer-rollups/src/orch_payouts.rs:115-176 | money is exact for every key; the whole batch is exact if and only if no row is suppressed |
| OrchPayouts.RunExactly | crates/livepeer-rollups/src/orch_payouts.rs:104-188 | the batch half of a run keeps the table equal to the rebuild of the covered rows if and only if its batch splits no event and holds no suppressed row |
| OrchPayouts.SplitRowsAreLost | crates/livepeer-rollups/src/orch_payouts.rs:248-311 | the rows a split leaves behind are below the start of every later fetch, whatever the limits |
| OrchPayouts.WholeEventBatchesExact | crates/livepeer-rollups/src/orch_payouts.rs:96-188 | any sequence of unsplit batches over one ledger accumulates the rebuild of the rows consumed, distinct gateways included, and consumes as many rows as the limits allow |
| OrchPayoutsPasses.RepairKeysSuffice | crates/livepeer-rollups/src/orch_payouts.rs:190-246 | when a mutation leaves the event's orchestrator alone, the candidates of that orchestrator and the event's current keys cover every key whose covered rows changed |
| OrchPayoutsPasses.PassAfterExactly | crates/livepeer-rollups/src/orch_payouts.rs:96-246 | when the queue covers every key whose covered rows changed, a whole pass keeps the table equal to the rebuild of the covered rows if and only if every rebuilt key has no row this or a later batch adds again, and every other key loses none to a split and has none suppressed |
| OrchPayoutsPasses.PassExactly | crates/livepeer-rollups/src/orch_payouts.rs:96-246 | in particular when every mutated event is queued |
| OrchPayoutsPasses.UnsplitComesRight | crates/livepeer-rollups/src/orch_payouts.rs:96-246 | when the batch splits no event that is the ticket rollup's condition: repaired keys fully consumed, no fetched row of the rest suppressed |
| OrchPayoutsSchedules.PassesExact | crates/livepeer-rollups/src/orch_payouts.rs:96-311 | over any schedule of passes right in that sense, whose queue covers what changed below the checkpoint, with valuations, fee-share updates, mutations and orphans between them, the table is the rebuild of the rows consumed |
| OrchPayoutsSchedules.TickConsumes | crates/livepeer-rollups/src/orch_payouts.rs:96-311 | every pass of a schedule consumes the next rows it finds, as many as its limit allows, and passes over more if and only if the limit falls inside an event |
| OrchPayoutsSchedules.QuietComesRight | crates/livepeer-rollups/src/orch_payouts.rs:96-188 | without mutations a pass comes right exactly when its batch splits no event and holds no suppressed row |
| OrchPayoutsSchedules.InOrderNoneSuppressed | crates/livepeer-rollups/src/orch_payouts.rs:431-458 | whatever order valuations arrive in, no row is suppressed when below a visible row every canonical one is visible |
| OrchPayoutsChanges.RepairAfterExactly | crates/livepeer-rollups/src/orch_payouts.rs:190-246 | whatever happened to the ledger, a repair of any keys restores the rebuild of the covered rows if and only if they were fully consumed and every other key was right already |
| OrchPayoutsChanges.GapOver | crates/livepeer-rollups/src/orch_payouts.rs:96-311 | over any schedule of changes and passes, the rows a key misses or counts in excess are exactly those that came and went below the checkpoint and those the limits split off |
| OrchPayoutsChanges.ChangedPassExactly | crates/livepeer-rollups/src/orch_payouts.rs:96-246 | after rows came or went anywhere, with any queue, an unsplit pass leaves the table right if and only if its repaired keys were fully consumed, no other key gained or lost a covered row, and none is suppressed |
| OrchPayoutsChanges.OrphansExactly | crates/livepeer-reorg-watcher/src/runner.rs:65-79 | orphaned events and an empty queue leave the next unsplit pass right if and only if none was consumed and no fetched row is suppressed |
| OrchPayoutsChanges.OrphanedPayoutStays | crates/livepeer-reorg-watcher/src/runner.rs:65-79 | a consumed event is orphaned: no later run takes its payout out of the table |
| ReorgImpactPayouts.PaidMeans | crates/livepeer-rollups/src/orch_payouts.rs:248-311 | over that table a valued row is paid if and only if its event was ingested and is canonical, it names a gateway, and it is finalized unless tentative ones count |
| ReorgImpactPayouts.StepExactly | crates/livepeer-rollups/src/orch_payouts.rs:96-311 | any single update of the raw table leaves the next unsplit pass right if and only if it shows and hides no row at or below the checkpoint and none fetched is suppressed |
| ReorgImpactPayouts.WalkExactly | crates/livepeer-reorg-watcher/src/runner.rs:18-101 | a reorg walk leaves the payout table right over the next unsplit pass if and only if it orphans no consumed row and none fetched is suppressed |
| OrchPayoutsCrash.CrashExactly | crates/livepeer-rollups/src/orch_payouts.rs:96-188 | after a crash between the upserts and the checkpoint, the next whole pass leaves what it would have without the crash if and only if its repair makes up for every key upserted |
| OrchPayoutsCrash.UnqueuedCrashExactly | crates/livepeer-rollups/src/orch_payouts.rs:96-188 | with an empty queue, if and only if no key had been upserted |
| OrchPayoutsChanges.LateRowIsMissed | crates/livepeer-rollups/src/orch_payouts.rs:248-311 | the table misses rows of a key exactly when some arrived at or below the checkpoint since it was right |
| OrchPayoutsChanges.LateValuationLost | crates/livepeer-rollups/src/orch_payouts.rs:248-311 | a valuation that arrives below the checkpoint stays uncounted over every later pass, however the ledger grows and whatever the limits, and the table is never right again until a repair rebuilds its key |
| OrchPayoutsChanges.LateValuationExample | crates/livepeer-rollups/src/orch_payouts.rs:248-311 | two events, the second valued and consumed first: the key of the first never reaches the table |
| OrchPayouts.RunsConserve | crates/livepeer-rollups/src/orch_payouts.rs:601-662 | every table row conserves the face value after any runs, even split or suppressed ones |
| OrchPayouts.SplitExample | crates/livepeer-rollups/src/orch_payouts.rs:248-311 | one event under two versions and a limit of one: the second version's row never reaches the table |
| OrchPayoutsRollup.Worker.Split | crates/livepeer-rollups/src/orch_payouts.rs:133-159 | one row's native and USD sides are added, split by the share in force, the USD side only when priced |
| OrchPayoutsRollup.Worker.FoldBatch | crates/livepeer-rollups/src/orch_payouts.rs:115-168 | the loop computes each key's batch aggregate and the next checkpoint |
| OrchPayoutsRollup.Worker.RunOnce | crates/livepeer-rollups/src/orch_payouts.rs:96-188 | the whole pass, reorg repair included, leaves exactly the specified table and both checkpoints |
| OrchPayoutsRollup.Worker.ProcessReorgMutations | crates/livepeer-rollups/src/orch_payouts.rs:190-246 | the table becomes the repair of the pending mutations' keys and the mutation checkpoint advances past them |
| OrchPayoutsRollup.Worker.CollectKeys | crates/livepeer-rollups/src/orch_payouts.rs:218-231 | the keys found by orchestrator and largest event id and by the event's current rows are exactly the repair set |
| OrchPayoutsRollup.Worker.RepairAll | crates/livepeer-rollups/src/orch_payouts.rs:233-243 | each key is replaced by its rebuild or deleted when it has no rows, the others stay |
| OrchPayoutsRollup.Worker.RebuildAggregateForKey | crates/livepeer-rollups/src/orch_payouts.rs:367-412 | no aggregate exactly when the key has no visible row, otherwise its true aggregate |
| Watermark.WriteSettles | crates/livepeer-valuator/src/multi_asset.rs:379-435 | pricing without a retryable failure settles every possible outcome if and only if the run's version is the hard-coded TWAP one, or the pass is ETH |
| Watermark.ResolvedMeans | crates/livepeer-valuator/src/multi_asset.rs:367-453 | an event is skipped if and only if each half its pass prices has a row, in either table, under the pass's version or the degraded one: both halves for a multi-asset pass, one for the others |
| Watermark.CandidatesMean | crates/livepeer-valuator/src/onchain.rs:574-634 | a canonical row at or above the floor is a candidate of a multi-asset pass if and only if some half has no such row, and likewise for the single-asset passes |
| Watermark.WriteMeans | crates/livepeer-valuator/src/multi_asset.rs:379-435 | which slot of which table each outcome of each half is written to |
| Watermark.EventMeans | crates/livepeer-valuator/src/multi_asset.rs:57-361 | an event is written half by half, only for the halves its pass prices, and is stuck exactly when one of those met a retryable failure |
| Watermark.StepKeepsHandledWell | crates/livepeer-valuator/src/onchain.rs:136-230 | every interleaved step keeps each handled candidate settled, buffered or pinning the watermark |
| Watermark.StepKeepsNothingLost | crates/livepeer-valuator/src/cursor.rs:34-96 | under the time bound every step keeps all unpriced events at or above what the watermark allows |
| Watermark.NeverSkipsExactly | crates/livepeer-valuator/src/cursor.rs:9-96 | no finalized priceable event without an outcome lies below the next scan floor, over every run, if and only if fetch-to-frontier span plus stamping skew is at most the lookback and TWAP rows land under an accepted version |
| Watermark.FetchFindsAll | crates/livepeer-valuator/src/onchain.rs:574-634 | a fetch returns every event that still needs pricing |
| Watermark.WorkInReach | crates/livepeer-valuator/src/cursor.rs:34-61 | over every run neither a scan from the epoch nor one from the stored floor starts above an event that needs pricing |
| Watermark.PassSettles | crates/livepeer-valuator/src/multi_asset.rs:57-361 | after a pass every priceable candidate has, for each half its pass prices, a row under an accepted version in one of the two tables, or is at or above the new watermark, whatever the timing |
| Watermark.LateStampRun | crates/livepeer-valuator/src/onchain.rs:122-230 | a run that skips an event for every span and skew over the lookback |
| Watermark.OtherVersionRun | crates/livepeer-valuator/src/onchain.rs:1291-1291 | a run that skips an event for every other version name of an LPT or multi-asset pass |
| Watermark.StaleWatermarkTrusted | crates/livepeer-orchestrator/src/reset.rs:33-40 | emptying the outcomes but not the cursor is safe only until another pass writes one valuation of the version |
| PassLoop.OldestStuckIs | crates/livepeer-valuator/src/onchain.rs:214-221 | the pin is the oldest finalization time among the candidates that met a retryable failure |
| PassLoop.LoopIsHandling | crates/livepeer-valuator/src/onchain.rs:790-935 | handling candidates in any order of completion is a run of the protocol ending with nothing left |
| PassLoop.LoopRowsMean | crates/livepeer-valuator/src/multi_asset.rs:107-357 | a valuation row or an attempt is written if and only if some candidate's answer for a half the pass prices asks for it: the answer's own row, unpriced after a permanent failure, under the fixed, degraded or own version, and an attempt with the failure's detail; nothing after a retryable one |
| PassLoop.IsFailedMeans | crates/livepeer-valuator/src/onchain.rs:611-611 | an attempt counts as failed if and only if its status is "failed" and at least one more character |
| PassLoop.RunLoop | crates/livepeer-valuator/src/multi_asset.rs:91-357 | the loop leaves exactly the specified slots; its valuation and price rows are first-wins over what was stored, each key's attempts are logged after its earlier ones; everything is flushed and the oldest pin returned |
| PassLoop.PushAnswer | crates/livepeer-valuator/src/multi_asset.rs:107-242 | one half's answer adds its valuation slot, a failed attempt exactly when it failed for good, and exactly its rows, attempt and oracle prices to the buffers |
| PassLoop.Valuator.FloorOfScan | crates/livepeer-valuator/src/cursor.rs:34-61 | the floor is the protocol's; in any reachable state with these tables and this watermark, no event that still needs pricing lies below it, under the bounds of NeverSkipsExactly; tentative mode scans everything |
| PassLoop.Valuator.AdvanceWatermark | crates/livepeer-valuator/src/cursor.rs:71-126 | the new watermark passes neither the newest stamp nor the oldest stuck one and stops at one of them; a tentative pass or one without canonical rows leaves it alone |
| PassLoop.Valuator.Frontier | crates/livepeer-valuator/src/cursor.rs:100-114 | the newest finalization time among canonical rows, none when there are none |
| PassLoop.Valuator.RunPass | crates/livepeer-valuator/src/onchain.rs:106-233 | a pass fetches exactly the candidates, writes exactly their slots, advances by the rule, and for every priceable candidate leaves a row for each half its pass prices or keeps it in reach |
| OnConflict.FirstWinsIs | crates/livepeer-valuator/src/bulk.rs:224-224 | a stored row never changes and a new key gets the first row offered for it |
| OnConflict.FirstWinsConcat | crates/livepeer-valuator/src/bulk.rs:202-228 | inserting in pieces is inserting at once |
| Bulk.RankedKeeps | crates/livepeer-valuator/src/bulk.rs:292-301 | ranking a chunk reorders a key's attempts and loses none |
| Bulk.RankedInOrder | crates/livepeer-valuator/src/bulk.rs:292-301 | the ranks follow status, then detail with NULL first |
| Bulk.AtMostMeans | crates/livepeer-valuator/src/bulk.rs:260-300 | attempts are ranked by status first and, within a status, by detail, none before some |
| Bulk.ChunkedMeans | crates/livepeer-valuator/src/bulk.rs:256-300 | a flush ranks every five hundred attempts, as buffered, on their own |
| Bulk.Database.InsertAttempts | crates/livepeer-valuator/src/bulk.rs:259-320 | a chunk extends each key's gapless numbering 1..n by its ranked attempts, and the conflict clause has nothing to do |
| Bulk.Database.InsertAttempt | crates/livepeer-valuator/src/persist.rs:287-317 | the next number of the key, keeping the numbering gapless |
| Bulk.Database.InsertValuationChecked | crates/livepeer-valuator/src/persist.rs:114-202 | the stored row always survives; inserted, idempotent or violation exactly by absence, equality or difference, with one attempt for the first and last |
| Bulk.BulkBuffers.Flush | crates/livepeer-valuator/src/bulk.rs:186-199 | the tables become what one-by-one commits would give, attempts keep their earlier numbers, and all buffers are empty |
| Bulk.BulkBuffers.MaybeFlush | crates/livepeer-valuator/src/bulk.rs:175-183 | nothing changes while each buffer is below five hundred; otherwise all are flushed, and each is below the threshold afterwards; the eventual tables are unchanged |
| Bulk.FlushAttempts | crates/livepeer-valuator/src/bulk.rs:259-320 | each key's history grows by exactly the attempts pushed for it, numbered chunk by chunk in rank order |
| StakeFlow.StepMeans | crates/livepeer-staker/src/flow.rs:212-290 | each event of a delegator is either skipped, counting only the skip, or replayed with its movement, delegate, registration and row |
| StakeFlow.ReplayMeans | crates/livepeer-staker/src/flow.rs:178-311 | the balance is the sum of the counted events' movements, one row per touched block, first bond, last seen and skips as the stream says |
| StakeFlow.RowMeans | crates/livepeer-staker/src/flow.rs:188-290 | each row holds the prefix sum through its block with that prefix's delegate, source and last counted event |
| StakeFlow.RegistryMeans | crates/livepeer-staker/src/flow.rs:294-304 | a registry entry exists exactly when some event registers, and is active exactly when the total is positive |
| StakeFlowRuns.AffectedStreamComplete | crates/livepeer-staker/src/flow.rs:389-419 | for an affected delegator the grouped stream is its complete stream |
| StakeFlowRuns.MoreEventsCover | crates/livepeer-staker/src/flow.rs:178-311 | adding events never removes a row's block or a registration |
| StakeFlowRuns.AffectedExactly | crates/livepeer-staker/src/flow.rs:144-158 | replaying an affected delegator over any table leaves exactly its complete replay, rows and registry entry, if and only if no stored row is at a block its stream does not touch and no entry is stored without a registration in it |
| StakeFlowRuns.IncrementalIsScratch | crates/livepeer-staker/src/flow.rs:105-172 | over tables holding the replay of fewer events, a run leaves exactly the replay and registry entry of all of them |
| StakeFlowRuns.FirstIdsAre | crates/livepeer-staker/src/flow.rs:355-385 | the batch is the smallest ids above the checkpoint, up to the limit |
| StakeFlowMeaning.StreamMeans | crates/livepeer-staker/src/flow.rs:136-142 | an event is in a delegator's stream if and only if it is its sender's, or a lock transfer to it, in order; a delegator is grouped exactly when it has one |
| StakeFlowMeaning.GroupsMean | crates/livepeer-staker/src/flow.rs:136-142 | the groups the loop builds are each delegator's events, one group for exactly the delegators that have some |
| StakeFlowMeaning.AffectedMeans | crates/livepeer-staker/src/flow.rs:323-341 | a delegator is affected if and only if one of those events is in the batch |
| StakeFlowMeaning.HistoryMeans | crates/livepeer-staker/src/flow.rs:389-419 | the history query returns exactly the events that name an affected address on either side |
| StakeFlowMeaning.BatchMeans | crates/livepeer-staker/src/flow.rs:355-385 | the batch is the first ids above the checkpoint, up to the limit |
| StakeFlowMeaning.TickConsumes | crates/livepeer-staker/src/flow.rs:105-172 | over any schedule an event is covered by the new checkpoint if and only if it was covered before or is in the batch |
| StakeFlowMeaning.KindsMean | crates/livepeer-staker/src/flow.rs:178-311 | what each kind of event does to the balance, the delegate, the registration and the skip count |
| StakeFlowMeaning.RowWritten | crates/livepeer-staker/src/flow.rs:188-290 | an event that is not skipped leaves the row of its block, with the balance and delegate after it, and no other |
| StakeFlowMeaning.TransferReceived | crates/livepeer-staker/src/flow.rs:136-158 | a run whose batch holds a lock transfer to a delegator leaves a row of it at that block and a registry entry |
| StakeFlowSchedules.StoredIs | crates/livepeer-staker/src/flow.rs:144-158 | over any schedule the stored blocks and the registry entry of a delegator are exactly those some run wrote, whatever became of the events |
| StakeFlowSchedules.OwnEventHealsExactly | crates/livepeer-staker/src/flow.rs:105-172 | over any schedule, orphaned events and bystander runs included, a run whose batch holds one of a delegator's events leaves exactly its complete replay if and only if nothing an earlier run wrote for it was orphaned away |
| StakeFlowSchedules.OwnEventHeals | crates/livepeer-staker/src/flow.rs:105-172 | so, while no event is orphaned, every corruption is healed by the delegator's next own event |
| StakeFlowSchedules.HealingRestarts | crates/livepeer-staker/src/flow.rs:105-172 | whatever harmed a delegator before, a run that heals it over clean tables starts anew |
| StakeFlowSchedules.ScheduleSettles | crates/livepeer-staker/src/flow.rs:105-172 | over any schedule, late and orphaned events included, unless a run harmed the delegator or a reorg took one of its events since the last run that healed it over clean tables, the tables hold exactly its complete replay once none of its events is pending, and nothing stale ever |
| StakeFlowSchedules.HarmShows | crates/livepeer-staker/src/flow.rs:105-172 | a run that harms such a delegator does leave its rows or registry entry wrong |
| StakeFlowSchedules.ScheduleKeeps | crates/livepeer-staker/src/flow.rs:105-172 | after every run, even with events pending, an undisturbed delegator has the replay of at least every event at or below the checkpoint |
| StakeFlowSchedules.DrainedIsScratch | crates/livepeer-staker/src/flow.rs:105-172 | once the checkpoint covers such a delegator's events, incremental replay equals one replay from scratch |
| StakeFlowSchedules.OrderlyIsClean | crates/livepeer-staker/src/flow.rs:105-172 | while events only become visible, tables are always clean and a delegator's events only grow, so only bystander runs can harm |
| StakeFlowBystanders.OmissionMeans | crates/livepeer-staker/src/flow.rs:389-419 | what the history query omits for a bystander changes its balance, last event, delegate, blocks and first bond as the lost events say |
| StakeFlowBystanders.GuardCompletes | crates/livepeer-staker/src/flow.rs:389-419 | if every event of a delegator names an affected address, the query returns its complete stream |
| StakeFlowBystanders.BystanderExactly | crates/livepeer-staker/src/flow.rs:136-158 | a bystander keeps its rows and registry entry if and only if, at every surviving block, the omitted events move nothing on balance and are neither the last counted, the delegate in force nor the only registration, and over the stream they hide neither the first bond, the last event nor the sign of the total |
| StakeFlowExamples.BystanderExample | crates/livepeer-staker/src/flow.rs:389-419 | from the empty tables, two runs and three bonds take b's principal from 150 to 50 with no event of b's own |
| StakeFlowExamples.StaleRowExample | crates/livepeer-staker/src/flow.rs:144-158 | after an orphan, the next run rebuilds the delegator and its row at the orphaned block stays |
| StakeFlowExamples.StaleRegistryExample | crates/livepeer-staker/src/flow.rs:144-158 | a bond is orphaned and a claim falls in its block: no stored row is at an untouched block, and the registration stays |
| StakeFlowWorker.ReplayDelegator | crates/livepeer-staker/src/flow.rs:178-311 | the loop returns exactly the replay's rows in strictly increasing block order, its registry entry and its skip count |
| StakeFlowWorker.GroupByDelegator | crates/livepeer-staker/src/flow.rs:136-142 | the groups are exactly the delegators of the history with their streams in order |
| StakeFlowWorker.Worker.ReplayAndUpsert | crates/livepeer-staker/src/flow.rs:144-157 | upserting row by row overlays the replay's rows and writes the registry only when there is an entry |
| StakeFlowWorker.Worker.RunFlowBackfill | crates/livepeer-staker/src/flow.rs:105-172 | the whole run leaves exactly the specified tables and checkpoint |
| Indexer.CommitExactly | crates/livepeer-indexer/src/backfill.rs:336-341 | committing a chunk keeps every log up to the checkpoint stored exactly once and nothing above it if and only if no log lies between the checkpoint and the chunk |
| Indexer.SkippedLogExample | crates/livepeer-indexer/src/backfill.rs:336-341 | from the empty store, a chunk started past the checkpoint leaves the log between them out while the checkpoint covers it |
| Indexer.ChunkKeeps | crates/livepeer-indexer/src/backfill.rs:251-362 | any reply, even a commit whose acknowledgement is lost, keeps the store sound and the checkpoint from going back |
| Indexer.AttemptsBounded | crates/livepeer-indexer/src/backfill.rs:157-242 | n blocks take at most 50 times ceil(n / 100) attempts |
| Indexer.BatchShrinks | crates/livepeer-indexer/src/backfill.rs:193-210 | the batch stays between 100 and 9000 blocks and is at its minimum after seven failures in a row, so the budget check before halving is never reached |
| Indexer.Driver.BackfillChunk | crates/livepeer-indexer/src/backfill.rs:251-362 | everything is committed with the checkpoint or nothing is; strict decode failures abort; the summary counts what was inserted |
| Indexer.Driver.DriveBackfill | crates/livepeer-indexer/src/backfill.rs:157-242 | committed chunks tile a prefix of the range, all of it on success; each request spans 5000 blocks at first, twice as many after a success up to 9000, half as many after a failure down to 100; it halts on exactly the fiftieth transient failure in a row or any other failure; the store is the attempts applied in turn, stays sound and grows only inside the range; a success has seen every log of the range and counts what the tables gained |
| Indexer.Driver.ResumeFrom | crates/livepeer-indexer/src/backfill.rs:124-140 | the scan starts past everything stored; every requested log before it is stored; it leaves a log behind if and only if the request itself starts past one, and continues right after the checkpoint when the request does not |
| Indexer.Driver.Tick | crates/livepeer-daemon/src/supervisor.rs:399-433 | whatever the replies no log is skipped, the checkpoint never goes back, moves at most a thousand blocks and never past ten behind the head, and nothing outside those blocks is stored; a successful tick with blocks to scan moves it exactly that far |
| Finality.RunGrows | crates/livepeer-finality-watcher/src/runner.rs:44-72 | over any interleaving levels never regress, the time is stamped once and only on finalized rows, and a non-canonical row never changes |
| Finality.LevelIs | crates/livepeer-finality-watcher/src/runner.rs:41-72 | a canonical row's level depends only on its timestamp and the furthest cutoffs since it was ingested |
| Finality.PassMeans | crates/livepeer-finality-watcher/src/runner.rs:41-72 | a pass finalizes a canonical row sixty seconds behind the finalized L1 block and stamps it with the pass's own instant, posts a tentative one six hundred seconds behind the latest, and changes nothing else |
| Finality.StampIsAPass | crates/livepeer-finality-watcher/src/runner.rs:57-72 | over any run a row's finalization time is the instant of the pass that first finalized it |
| Finality.LiveMeans | crates/livepeer-finality-watcher/src/runner.rs:23-34 | what may come next in a run of live passes: inputs no earlier than the last, a write that uses the last, an ingest or an orphan |
| Finality.OtherStepsMean | crates/livepeer-reorg-watcher/src/runner.rs:65-79 | an event is stored once, tentative, unstamped and canonical; a divergence orphans every row of its block and changes nothing else |
| Finality.ReplayExactly | crates/livepeer-finality-watcher/src/runner.rs:30-72 | one replay pass agrees with the live run at every timestamp if and only if its inputs are as far as the live cutoffs got |
| Finality.PassIsLive | crates/livepeer-finality-watcher/src/runner.rs:23-94 | appending a whole pass with inputs no earlier than the last keeps a run of live passes and persists those inputs |
| Finality.LastIsLatest | crates/livepeer-finality-watcher/src/runner.rs:23-34 | when L1 times never go back, the last persisted inputs are as late as those of every pass |
| Finality.ReplayMatchesLive | crates/livepeer-finality-watcher/src/runner.rs:23-34 | for non-decreasing L1 times, one replay with the last persisted inputs gives each row that stayed canonical the level of the whole live run, once a pass with those inputs ran after it was ingested |
| Finality.ReplayRebuilds | crates/livepeer-finality-watcher/src/runner.rs:23-94 | after any live run ending in a whole pass, a rebuild that ingests the canonical rows again and replays once restores every level |
| Finality.TimesGoBackExample | crates/livepeer-finality-watcher/src/runner.rs:23-34 | L1 times go back: a row finalized live is tentative after the replay |
| Finality.Watchers.RunOnce | crates/livepeer-finality-watcher/src/runner.rs:23-94 | a live pass persists its inputs and applies both updates with their margins |
| Finality.Watchers.RunReplay | crates/livepeer-finality-watcher/src/runner.rs:30-34 | fails and changes nothing without persisted inputs, otherwise gives fresh rows the replay level |
| Finality.Watchers.RunReorg | crates/livepeer-reorg-watcher/src/runner.rs:18-101 | completes exactly when every header can be read and then orphans exactly the diverging blocks and counts them; a stop leaves only diverging blocks orphaned |
| Finality.KeptExactly | crates/livepeer-reorg-watcher/src/runner.rs:18-79 | a row stays canonical if and only if no tentative canonical row of its block, at most 7500 blocks behind the head, has a hash the chain does not have; no other column changes |
| Finality.FinalizedRowOrphaned | crates/livepeer-reorg-watcher/src/runner.rs:65-79 | a finalized row with the right hash is orphaned by a late tentative row of its block |
| Receipts.CandidatesAre | crates/livepeer-staker/src/tx_receipts.rs:164-218 | the candidates are the first missing transactions at or above the checkpoint |
| Receipts.IterationExactly | crates/livepeer-staker/src/tx_receipts.rs:71-162 | an iteration leaves every missing transaction at or above the checkpoint if and only if no candidate below its last block has a null receipt |
| Receipts.NullReceiptExample | crates/livepeer-staker/src/tx_receipts.rs:71-162 | from the empty table, a null receipt below the last block of its batch is passed over and never stored, however often the drain runs and whatever it is answered later |
| Receipts.IterationShrinks | crates/livepeer-staker/src/tx_receipts.rs:71-162 | with receipts for all, every non-empty iteration strictly shrinks the missing set |
| Receipts.DrainCompletes | crates/livepeer-staker/src/tx_receipts.rs:71-162 | for any limit of at least one, as many iterations as transactions store exactly one right row for each |
| Receipts.LateTransactionLost | crates/livepeer-staker/src/tx_receipts.rs:164-218 | a transaction that appears below the checkpoint is never fetched, however often the drain runs |
| Receipts.Worker.RunIteration | crates/livepeer-staker/src/tx_receipts.rs:71-162 | the iteration leaves exactly the specified rows and checkpoint, counts rows and null receipts, and changes nothing when a receipt cannot be read |
| RetryLoops.ReadIs | crates/livepeer-staker/src/current.rs:250-292 | reading alone gives the first answer that is not stale, if one comes within the rounds |
| RetryLoops.BatchWithRetries | crates/livepeer-staker/src/current.rs:250-292 | slot i holds the response to request i; success exactly when every request alone would succeed; no slot is unset; as many rounds as the slowest request needs, at most four, cut short only by a request that fails for good |
| RetryLoops.ResolveExactMisses | crates/livepeer-staker/src/pending.rs:550-617 | each miss is resolved exactly once with its own answer, failing exactly when some miss cannot be read within the retries |
| RetryLoops.ReconcileExact | crates/livepeer-staker/src/pending.rs:375-405 | prefetching and resolving only the misses gives exactly the updates of reading every row through the cache |

## Left out

- HTTP, JSON-RPC, SQL text, metrics, tracing, configuration and CLI: replies, tables and clocks are parameters.
- ABI decoding and topic constants: a log carries its verdict (decoded, failed strictly, failed leniently, unknown topic).
- BigDecimal's rounded division: stake is in integer wei, payout money in exact reals.
- JSON provenance, Chainlink field checks and price rows' contents: a pass gets each half's outcome and row as an answer.
- The chain id is fixed, session time is UTC for `DATE(...)`, and addresses and hashes are already lower case.
- The 64-bit width of ids, blocks, timestamps and counters; only the mean tick's casts are modelled.
- Async scheduling and sleeping: completion order and timing are choices of the run.
- Most counters of the run summaries.
- Collation of the attempt ranking is by character code.
- Watermark.NeverSkipsExactly: tentative mode, where the cursor is disabled, is only in FloorOfScan and AdvanceWatermark.
- PassLoop.Valuator.RunPass: candidates are taken in set order, and interference between fetch and frontier is the pair of row snapshots it is given; the protocol in Watermark has the full interleaving.
- Tickets.ScheduleExact: no reorg mutations between its runs; TicketsChanges.TurnsExact has them.
- OrchPayouts.WholeEventBatchesExact: one ledger throughout; OrchPayoutsSchedules.PassesExact lets it change.
- TicketsSchedules.PassExactly: every mutated event is queued in `reorg_mutations`, which no code in the repository does; TicketsChanges.ChangedPassExactly and ReorgImpact have any queue.
- TicketsChanges.TurnsExact: relies on what the code does not enforce: what changes below the checkpoint is queued, rows become visible in id order, and no crash falls between the upserts and the checkpoint (TicketsCrash.CrashExactly says what one does).
- OrchPayoutsSchedules.PassesExact: relies on the queue the same way; a fee share already applied does not change afterwards, since no mutation of a fee-share event triggers a repair; and no crash falls between the upserts and the checkpoint.
- OrchPayoutsPasses.PassExactly: every mutated event is queued, as for tickets.
- OrchPayoutsChanges.ChangedPassExactly: a pass that splits an event can lose a row of a key just as an orphaned one is counted in excess; OrchPayoutsChanges.GapOver has that case.
- OrchPayoutsPasses.RepairKeysSuffice: a mutated event keeps its orchestrator, which is all the candidate query looks for.
- Indexer.Driver.Tick: one contract under one checkpoint; the chain's logs in a range are fixed once they are ten blocks deep; a patch run sharing the events table is not modelled.
- RetryLoops.BatchWithRetries: a failure of a whole batch is one of its requests failing.
- Orchestrator reward and event-metric rollups, which repeat the ticket and payout schemes.
- The seed pass, profiles, gateways, enricher, API and frontend.
