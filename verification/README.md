# A model of the event-sourced portfolio engine

An append-only log of trade and price events is folded into projections in `(event_time, event_id)` order by
one worker per partition. A worker fetches pages behind a durable cursor, cuts them at a watermark, applies
them, dead-letters what cannot be applied, writes snapshots, and after a crash starts again from the latest
aligned snapshot or from the projection. The repository states the law this is for at
`internal/events/trade_portfolio_apply.go:168`: restart = latest snapshot + replay of the tail, equivalent to
never stopping. This project models that engine and the arithmetic on its read side, and proves the law, its
hypotheses, and where the code departs from it.

`dafny verify dfyconfig.toml` checks the whole project.

## How the model is built

- **Numbers.** Decimals are `real`: sums, differences and products are exact, division rounds to 16 places,
  stored columns and snapshot strings to 8, the return column to 10, all to nearest with ties away from zero
  (`Decimals`). Event ids are the UUID read as a big-endian number; `Uuids` proves that bytes, text and number
  sort alike.
- **Accounting.** `Positions` holds the lots, `PositionBook.ApplyTrade` and its specification `Execute`;
  `History` folds events and restarts; `Accounting` proves drift, conservation and range results about the fold.
- **The partition machine.** `Partition` is a state machine over the store (log, cursor, rows, dead letters,
  snapshots) and the worker. Each transaction is one action and may commit, fail, or commit while the worker is
  told that it failed; appends and crashes happen between any two actions. `Refinement` proves an invariant of
  every run, `Runs` the theorems that follow from it, `Arrival` and `Losses` when an appended event is lost, `Pump`
  how far a pump gets, `Pages` what handling a page does whatever the worker's memory, `Hazards`, `KeptWorker` and
  `KeptLetters` where the law fails and exactly when it does not.
- **The objects.** `TradeWorker` holds the store, the worker and the pool's slot as classes with loops. Every
  method returns the trace of actions it took and leaves the state the machine reaches by that trace, so the
  theorems about runs hold of the methods. How the n-th operation on the database ends and what the n-th reading of
  the clock says are arbitrary sequences (`Clock.Surroundings`): the theorems hold for any placement of failures, and
  where none is placed the methods must succeed.
- **Prices.** `Returns` is the 60-date window of one symbol against its computation from scratch, `Windows` what its
  rows say of the ticks, `Prices` the
  two price tables and the independence of partitions, `PriceLog` the store class and what ties its tables to its
  log, `PriceWorker` the worker class, `FullTables` and `Retries` a batch applied twice, `PriceHazards` concrete failing
  runs.
  `Routing` is the hash that assigns symbols to partitions and partitions to shards; `Portfolios` the interleaving
  of workers.
- **Around them.** `Ingest` (retries and arrival order), `Scheduler` (the debounced recompute scheduler as a
  small concurrent machine and as a class), `SnapshotCodec` (snapshot bodies), `View`, `Scenario`, `Risk` and
  `Exposures` (read side), `Sanitizer` (ticker tokens in generated text).

## Main results

- `Runs.ReplayRefinement`, `Arrival.LogRefinement`: whatever the arrival order, paging, crashes and restarts,
  stored quantities and dead letters are those of one sorted fold, and cost and profit are within explicit drift
  bounds; `Runs.UninterruptedRefinement`: without a restart they are equal.
- `Runs.ExactlyOnce`, `Runs.ThreeWayAgreement`, `Runs.CursorMovesForward`: invariants of every run.
- `Accounting.RestartDrift`, `Accounting.ProfitIsConserved`, `Accounting.AverageCostWithinPaidPrices`.
- `Losses.NothingMissedIff`, `Losses.MissedIsLost`: over whole runs, exactly when an event is lost and which.
- `KeptWorker.KeptWorkerRightIff`: exactly when keeping a worker after a failed flush does no harm, for any page it
  fetches next; `KeptLetters.UnacknowledgedLetterIff`: exactly when an event is handled twice.
- `Pump.DrainIff`, `Rounds.TwoPumpsDrainIff`: two pumps drain a partition exactly when fewer than 200 pending events
  are newer than the watermark's cutoff.
- `TradeWorker.TwoTicks`, `PriceWorker.TwoTicks`: two ticks without a failure handle the whole log.
- `Returns.WindowIsFromScratch`, `Windows.WindowExplained`, `PriceLog.TablesAreFromScratch`, `PriceLog.PricesExactlyOnce`,
  `Retries.RetriedPageIff`, `Prices.InterleavingsAgree`.
- `Scheduler.NoLostRecompute`, `Ingest.RetriesDoNotMatter`, `SnapshotCodec.SnapshotRoundTrip`,
  `Uuids.OrdersAgree`, `View.LineageRead`, `Scenario.ScenarioChange`, `Exposures.TotalIsMarketValue`,
  `Risk.SnapshotInequalities`, `Sanitizer.NoUnknownLeft`.

## Where the code departs from what it promises

Each item names a lemma at a concrete input and the lemma that states the exact condition for all inputs.

1. **A worker kept after a failed transaction handles its events again.** Lots are changed before the transaction
   (`internal/events/trade_portfolio_apply.go:290`) and an incremental failure keeps the worker
   (`internal/events/trade_worker_pool.go:164`), whether the transaction failed or had committed unacknowledged.
   - In both cases one buy of ten shares ends as twenty (`Hazards.KeptWorkerCountsTwice`), also when the lost batch
     comes back behind an event that has arrived since: three shares for two (`KeptWorker.ArrivalCountsTwice`).
   - `KeptWorker.KeptWorkerRightIff` is the exact condition, for any page that is fetched next: handling the page on top
     of the worker's memory must reject the same trades as on top of the lots in front of the batch, and leave the same
     stored fields for the symbols it writes, or for all symbols when the batch had committed. When the page starts with
     the batch this says that applying the batch once more makes no difference (`KeptWorker.SameBatchRightIff`); then the
     batch nets to zero (`KeptWorker.InertIsNeutral`), which is not enough: buying ten at five and selling them at six
     realizes ten each time (`KeptWorker.NeutralIsNotInert`).
   - A dead letter whose commit was not acknowledged is handled again exactly when its event is in the page that is
     fetched with the worker's old cursor, wherever in it (`KeptLetters.UnacknowledgedLetterIff`). One sell without a
     holding leaves two dead letters (`KeptLetters.UnacknowledgedLetterTwice`), also behind an arrival
     (`KeptLetters.LetterBehindArrival`).
   - In that last run the stored cursor goes back, which no statement prevents
     (`internal/events/postgres.go:1098-1111`): `KeptLetters.CursorGoesBackIff` says when, in any run.
   - Dropping the worker instead is always right (`KeptWorker.RestartIsRight`). Runs in which such a worker fetches
     again are marked `torn`; the refinement theorems are about the others.
2. **An event can be lost although it arrives above the cursor.** A page that has been fetched is applied without
   looking at the table again, so an event that lands below a page in flight is passed over
   (`Hazards.ArrivalBelowPageIsLost`). `Losses.NothingMissedIff` is the exact condition over whole runs: every stored
   event lands behind the cursor of its moment, and no transaction moves the cursor past it before the worker has
   looked at the table again; `Losses.ArrivalDuringBatchIff` the same for one arrival during one batch. Late events
   are not dead-lettered, contrary to `docs/design/LLD.md:277`; `missed` records them.
3. **Quantities finer than 1e-8 change at a restart**, although validation only asks for a positive quantity
   (`internal/domain/validation.go:20`): `Hazards.FineQuantityIsLost`, and `History.RestartKeepsQuantityIff` for the
   exact condition.
4. **A day's close below half a unit of the eighth decimal blocks its price partition.** It is stored as zero, and
   the batch with the next day's price fails, however it is extended at its end: `PriceHazards.TinyCloseBlocks` for
   0.000000001 followed by 1.0, `Returns.WindowIsFromScratch` for the exact condition, `Returns.RecordingStaysFailed`
   and `PriceLog.StuckBatch` for every extension. A later tick of the first day that is stored above the cursor and in
   front of the next day's frees the partition (`PriceHazards.LateTickUnblocks`).
5. **A price batch that is committed twice can drop a return.** When the first commit was not acknowledged the batch
   is applied again, with whatever has arrived behind the old cursor since. `Retries.RetriedPageIff` is the exact
   condition: the tables are those of the log unless some symbol's window has trimmed a date and a tick of the retried
   page falls on its oldest date after another tick of that date, with no later date new; such a symbol's oldest row
   loses the return that the log gives it. Without arrivals the batch must have a tick on that date
   (`Retries.RetriedBatchIff`), as in the 61 daily prices of `PriceHazards.RetriedBackfill`; with an arrival it need
   not (`PriceHazards.ArrivalDropsReturn`). An event that is set aside can be recorded as dead twice in the same way
   (`PriceHazards.RetriedLetter`).
6. **`Stop` misses a timer whose map entry was deleted late** by the callback of an older timer:
   `Scheduler.StopMissesOrphan`, with `Scheduler.RegisteredUnlessLateDelete` and `Scheduler.StopIsQuietIff` for the
   exact conditions.
7. **A scenario shock of exactly minus one** makes the mark zero, which counts as no mark, so unrealized profit
   changes by the lost position's cost on top of the market value's change: `Scenario.WipedExample` for ten shares
   bought at five, `Scenario.ScenarioChange` and `Scenario.WipedCostZeroIff` for all.

Two states that the interface does not let arise, because requests are checked before they are stored:

- A price pump stands still on a full page without price events and asks for another round
  (`PriceWorker.PricePartitionWorker.PumpRound`); `internal/api/handlers.go:48-52` refuses trades for price partitions.
- A lot with an empty symbol makes its own snapshot unreadable (`SnapshotCodec.SnapshotRoundTrip`);
  `internal/domain/types.go:19` refuses empty symbols.

## Model

| member | source | states |
|---|---|---|
| `Decimals.Round8ExactIff` | internal/events/postgres.go:939-947 | storing a value in a NUMERIC(20,8) column loses nothing exactly when it has at most eight decimals |
| `Decimals.Round8ZeroIff` | internal/events/postgres.go:1041-1042 | a stored value is zero exactly when it is below half a unit of the eighth decimal |
| `Decimals.Div16Between` | internal/domain/positions.go:72 | a rounded quotient stays between two eight-decimal bounds of the exact quotient |
| `Positions.PositionBook.ApplyTrade` | internal/domain/positions.go:59-104 | a trade brings the book to what Execute says; a rejected trade changes nothing |
| `Positions.BoughtCost` | internal/domain/positions.go:61-75 | after a buy the lot at cost is worth its old cost plus the cash paid, up to half a unit of the sixteenth decimal per share |
| `Positions.BoughtBetween` | internal/domain/positions.go:61-75 | a buy at a price between two eight-decimal bounds keeps the average cost between them, rounding included |
| `Positions.BoughtContracts` | internal/domain/positions.go:61-75 | weighted averaging never amplifies a difference between two average costs |
| `Accounting.RestartDrift` | internal/events/trade_portfolio_apply.go:225-229 | with r restarts and n buys: quantities equal, average cost within r half units of 1e-8 plus n units of 1e-16, realized profit within r half units plus that bound times the quantity sold |
| `Accounting.ProfitIsConserved` | internal/domain/positions.go:61-100 | after any history realized profit equals net cash flow plus inventory at average cost, up to the accumulated rounding slack |
| `Accounting.TotalProfitAtMark` | internal/portfolio/view.go:116-128 | realized plus unrealized profit at any mark equals cash flow plus the holding at the mark, within the same slack |
| `Accounting.AverageCostWithinPaidPrices` | internal/domain/positions.go:61-75 | with eight-decimal prices, restarts included, average cost stays between the least and greatest buy price since the lot was last flat |
| `Accounting.SymbolsAreIndependent` | internal/domain/positions.go:59-104 | a symbol's lot depends only on its own trades |
| `History.ReplayIsFold` | internal/events/trade_portfolio_apply.go:266-322 | a history without restarts and stale events replays to the plain fold of its events |
| `History.RestartsKeepQuantities` | internal/events/trade_portfolio_apply.go:225-229 | for eight-decimal quantities restarts change neither quantities nor what is applied or dead-lettered |
| `History.RestartKeepsQuantityIff` | internal/events/postgres.go:939-947 | a restart keeps a quantity exactly when it has at most eight decimals |
| `EventTable.InsertKeepsOrder` | internal/events/postgres.go:431-463 | listing a new event in apply order keeps the log sorted and adds just that event |
| `EventTable.BehindFacts` | internal/events/postgres.go:442-463 | a fetch returns exactly the rows strictly behind the cursor, in order |
| `EventTable.PageFacts` | internal/events/postgres.go:442-463 | a page is in order and within its limit, and a row behind the cursor that is not in it lies behind its last row, which then is the limit-th |
| `Watermark.EligiblePrefix` | internal/events/trade_portfolio_apply.go:135-141 | the longest prefix whose event times do not exceed the cutoff |
| `Watermark.EligibleRead` | internal/events/trade_portfolio_apply.go:150-156 | eligible are the events in front of the first that is newer than the cutoff; a page that is not full and begins with a newer one is eligible as a whole unless the watermark is off |
| `Refinement.FlushedRows` | internal/events/postgres.go:889-961 | writing the touched symbols brings the rows from the rounded old lots to the rounded new lots |
| `Refinement.LoadedIsRows` | internal/events/trade_portfolio_apply.go:170-230 | whichever source start-up picks, it gets the projection rows at the cursor |
| `Refinement.NextKeeps` | internal/events/trade_portfolio_apply.go:170-322 | every action keeps the invariant that ties store, memory, snapshots and history together, unless a worker that is behind fetches |
| `Refinement.RunKeeps` | internal/events/trade_portfolio_apply.go:170-322 | the invariant holds in every state of every run that is not torn |
| `Runs.HandledIsCovered` | internal/events/postgres.go:442-463 | the handled events are exactly the logged events up to the cursor that were not missed, in order |
| `Runs.ReplayRefinement` | internal/events/trade_portfolio_apply.go:166-230 | in every run stored quantities and dead letters are those of one fold over the sorted log cut at the cursor; cost and profit are within the drift bounds |
| `Runs.UninterruptedRefinement` | internal/events/trade_portfolio_apply.go:166-230 | without a restart the rows are the rounded lots of that fold, exactly |
| `Runs.ExactlyOnce` | internal/events/trade_portfolio_apply.go:266-322 | under any crash placement and any stale test each logged event at or below the cursor is applied once or dead-lettered once, every other event neither |
| `Runs.CursorMovesForward` | internal/events/postgres.go:1098-1111 | no action from a state of the invariant moves the cursor backwards |
| `Runs.ThreeWayAgreement` | internal/events/trade_portfolio_apply.go:63-115 | rows equal the rounded lots of an idle worker, snapshots hold the rounded lots of their cursor and are never ahead, and start-up loads the same from snapshot or rows |
| `Arrival.NothingIsMissed` | internal/events/postgres.go:442-463 | if every append lands behind the cursor and behind the page in flight, nothing is ever missed |
| `Arrival.LogRefinement` | internal/events/trade_portfolio_apply.go:166-168 | under that hypothesis the refinement is to the whole log up to the cursor |
| `Losses.NothingMissedIff` | internal/events/postgres.go:442-463 | nothing is missed exactly when every stored append lands behind the cursor of its moment and no later step moves the cursor past it before the worker looks at the table again |
| `Losses.MissedIsLost` | internal/events/postgres.go:442-463 | a run misses exactly the events that one of its steps loses |
| `Losses.UnseenMeans` | internal/events/trade_portfolio_apply.go:239-258 | an event is unseen exactly when it was stored behind the cursor and nobody has fetched since |
| `Losses.ArrivalDuringBatchIff` | internal/events/trade_portfolio_apply.go:245-264 | an arrival while a batch is pending is lost by the batch's commit exactly when it lands in front of the batch's last event |
| `Arrival.MissedForeverInRuns` | internal/events/postgres.go:455-461 | once missed, an event stays missed, in every continuation of every run |
| `Hazards.KeptWorkerAgreesIff` | internal/events/trade_worker_pool.go:164-166 | right after a failed flush the memory of a kept worker has the committed quantities exactly when the batch nets to zero in every symbol |
| `Hazards.KeptWorkerCountsTwice` | internal/events/trade_worker_pool.go:164-166 | one buy of ten shares whose first flush is reported as failed is stored as twenty, whether that flush had failed or committed |
| `Pages.FinishRest` | internal/events/trade_portfolio_apply.go:266-322 | finishing a page without failures writes the rows of what was pending and of what is applied from the lots after the page, and records exactly what handling the events in order rejects, whatever the lots were |
| `Pages.FinishHandlesAll` | internal/events/trade_portfolio_apply.go:266-322 | finishing a page handles exactly what was pending and the page, in order |
| `Pages.SameRejections` | internal/events/trade_portfolio_apply.go:269-315 | on two sets of lots a page that rejects the same trades applies the same events |
| `KeptWorker.KeptWorkerRightIff` | internal/events/trade_worker_pool.go:164-166 | after the next page of a kept worker, whatever it holds, rows and dead letters are those of the log exactly when the page rejects the same trades on top of the worker's memory as on top of the lots in front of the lost batch and leaves the same stored fields for the symbols it writes, or for all symbols when the batch had committed |
| `KeptWorker.SameBatchRightIff` | internal/events/trade_worker_pool.go:164-166 | for a page that starts with the lost batch this is so exactly when applying the batch once more in front of the rest succeeds and changes no stored field and no rejection |
| `KeptWorker.ArrivalCountsTwice` | internal/events/trade_worker_pool.go:164-166 | a lost buy that comes back behind an arrival is counted twice: three shares for two |
| `KeptWorker.BatchComesBack` | internal/events/trade_portfolio_apply.go:239-258 | where nothing was missed and nothing arrives the next page of a kept worker starts with the batch it gave up |
| `KeptWorker.InertIsNeutral` | internal/domain/positions.go:59-104 | for trades of eight decimals a batch that makes no difference in front of any rest nets to zero in every symbol |
| `KeptWorker.NeutralIsNotInert` | internal/domain/positions.go:77-100 | a round trip of ten shares from five to six nets to zero and yet realizes ten more when applied again |
| `KeptWorker.RestartIsRight` | internal/events/trade_portfolio_apply.go:166-230 | a worker that is dropped after a reported failure and started again is in the invariant, with the stored rows as its lots |
| `KeptLetters.DeadLetterTwice` | internal/events/trade_portfolio_apply.go:276-287 | an underflow whose dead letter was not acknowledged and that is fetched again first is recorded twice |
| `KeptLetters.UnacknowledgedLetterIff` | internal/events/trade_portfolio_apply.go:269-315 | such an event is handled twice exactly when it is in the page that is fetched with the worker's old cursor, wherever in it, and once otherwise; the dead letters are its own and those of handling the page |
| `KeptLetters.UnacknowledgedLetterTwice` | internal/events/postgres.go:1078-1096 | one sell without a holding leaves two dead letters |
| `KeptLetters.LetterBehindArrival` | internal/events/postgres.go:1078-1111 | a run in which a letter that is not acknowledged comes back behind an arrival: its event is recorded as dead twice, and the stored cursor goes back on the way |
| `KeptLetters.CursorGoesBackIff` | internal/events/postgres.go:1098-1111 | in any run the stored cursor goes back exactly when a step commits on an event in front of it; then a kept worker has fetched again and its own cursor lies in front of the stored one |
| `Hazards.ArrivalBelowPageIsLost` | internal/events/trade_portfolio_apply.go:245-264 | an event that lands behind the cursor but below a page in flight is lost |
| `Hazards.FineQuantityIsLost` | internal/domain/validation.go:20-25 | a buy of 0.000000004 shares, which validation accepts, is gone after a restart |
| `Pump.OnePump` | internal/events/trade_portfolio_apply.go:239-264 | what one pump leaves, by the number of events older than the cutoff |
| `Pump.DrainIff` | internal/events/trade_portfolio_apply.go:143-156 | two pumps, or more, drain the partition exactly when fewer than 200 pending events are newer than the cutoff; otherwise precisely these stay |
| `Rounds.RoundByRound` | internal/events/trade_portfolio_apply.go:239-264 | one round leaves to the rest of the pump what the whole pump would have left, and a round that asks for another makes progress |
| `Rounds.TwoPumpsDrainIff` | internal/events/trade_portfolio_apply.go:143-156 | two successful pumps on a fixed log leave nothing behind the cursor exactly when fewer than 200 pending events were newer than the cutoff |
| `TradeWorker.PartitionStore.Append` | internal/events/postgres.go:332-385 | a known idempotency key inserts nothing and is answered with the stored id; an id clash under a new key is an error |
| `TradeWorker.PartitionStore.FetchAfter` | internal/events/postgres.go:442-463 | in order and within the limit, rows strictly behind the cursor; a row behind the cursor that is not returned lies behind the last one, and then the page is full |
| `TradeWorker.PartitionStore.MaxEventTime` | internal/events/postgres.go:486-500 | the greatest event time of the log |
| `TradeWorker.PartitionStore.ApplyBatch` | internal/events/postgres.go:889-961 | rows of the touched symbols and cursor change together or not at all |
| `TradeWorker.PartitionStore.PersistApplyDLQ` | internal/events/postgres.go:1078-1096 | dead letter and cursor change together or not at all |
| `TradeWorker.PartitionStore.InsertPortfolioSnapshot` | internal/events/postgres.go:683-705 | snapshots stay in strict cursor order, so at most one per cursor; after a success there is one for this cursor; a failure changes nothing |
| `TradeWorker.WriteTouched` | internal/events/postgres.go:906-950 | the loop over touched symbols writes the rows that the specification says |
| `TradeWorker.PartitionWorker.MaybeSnapshotAfterApply` | internal/events/trade_portfolio_apply.go:53-115 | when the policy asks for a checkpoint, no operation fails and the stored cursor is the batch's last event, exactly one is written and the counting starts anew; otherwise none is and the events count |
| `TradeWorker.PartitionWorker.FlushApplyBatch` | internal/events/trade_portfolio_apply.go:117-132 | takes a flush, and a checkpoint just when one is due; it fails only after a failed operation, and then the page is given up and memory out of step |
| `TradeWorker.PartitionWorker.ApplyInMemory` | internal/portfolio/aggregate.go:58-71 | applies one event to the lots as the specification says, or reports why not |
| `TradeWorker.PartitionWorker.DeadLetterOne` | internal/events/trade_portfolio_apply.go:276-287 | takes the dead-letter action for the next event |
| `TradeWorker.PartitionWorker.HandleOne` | internal/events/trade_portfolio_apply.go:269-315 | the next event joins the batch when the clock finds it fresh and it applies, else it is set aside behind a flush of the batch; it fails only after a failed operation or at a refused side |
| `TradeWorker.PartitionWorker.ApplyEligible` | internal/events/trade_portfolio_apply.go:266-322 | takes a run of the machine; it fails only after a failed operation or at a refused side, and when it succeeds exactly the page was handled, each event as the clock judged it, and the cursor is its last event |
| `TradeWorker.PartitionWorker.ReadEligible` | internal/events/trade_portfolio_apply.go:239-258 | the next page cut at the watermark, and what applying it leaves |
| `TradeWorker.PartitionWorker.PumpAfterCursor` | internal/events/trade_portfolio_apply.go:236-264 | takes a run of the machine and ends; it fails only after a failed operation or at a refused side, and when it succeeds it leaves behind the cursor what module Pump says |
| `TradeWorker.PartitionWorker.PumpPage` | internal/events/trade_portfolio_apply.go:239-264 | one round reads, cuts and applies a page; it fails only after a failed operation or at a refused side, and else leaves what module Rounds says |
| `TradeWorker.PartitionWorker.Rebuild` | internal/events/trade_portfolio_apply.go:166-230 | a start-up either fails before it loads anything and changes nothing, or is a run of the machine whose first step is the rebuild action; it fails only after a failed operation or at a refused side, and when it succeeds nothing of a log that was replayed in full lies behind the cursor, or what a pump leaves |
| `TradeWorker.PartitionWorker.Load` | internal/events/trade_portfolio_apply.go:183-230 | lots and cursor come from the latest snapshot that can be read and is aligned with the cursor, else the rows, else nothing, as in the machine's start-up |
| `TradeWorker.PartitionSlot.Tick` | internal/events/trade_worker_pool.go:139-168 | one pool tick is a run of the machine and keeps the invariant unless a kept worker fetched again after a failure; unless an operation fails or a side is refused a worker is running afterwards and has pumped from its cursor or from where its start-up left it |
| `TradeWorker.TwoTicks` | internal/events/trade_worker_pool.go:139-168 | two ticks without a failure, with fewer than 200 pending events newer than the cutoff, leave nothing behind the stored cursor, and every logged event is handled or missed |
| `TradeWorker.PartitionSlot.Crash` | internal/events/trade_portfolio_apply.go:166-168 | a stop of the process is the crash action |
| `TradeWorker.PartitionSlot.Append` | internal/events/postgres.go:332-385 | an arrival is the append action; a retry is answered with the stored id |
| `Clock.TooStale` | internal/events/trade_portfolio_apply.go:158-163 | an event is too stale exactly when its age at the given time exceeds the maximum; a maximum age of zero switches the test off |
| `Returns.DateSpansDay` | internal/events/symbol_returns.go:12-15 | a return date is the day from one UTC midnight to the next |
| `Returns.ReturnExplainsClose` | internal/events/symbol_returns.go:17-25 | previous close and stored return give the close back, within half a unit of the tenth plus half a unit of the sixteenth decimal per unit of the previous close |
| `Returns.DayCloseIsLast` | internal/events/postgres.go:1041-1050 | each day close is the last tick of its date |
| `Returns.DayCloseOf` | internal/events/postgres.go:1041-1050 | every date with a tick has a close |
| `Returns.WindowIsFromScratch` | internal/events/postgres.go:1014-1075 | the incrementally kept window is exactly the last 60 dates of the full history, each with its last close and its return against the stored close of the date before, trimmed or not; recording fails just when a close that is not the latest is stored as zero |
| `Returns.RecordingStaysFailed` | internal/events/symbol_returns.go:17-25 | once recording has failed every longer history fails |
| `Windows.WindowExplained` | internal/events/postgres.go:1014-1075 | the window holds the latest 60 dates of the ticks, or all of them, in order and without a gap; each row has its date's last price, and its return leads from the stored last price of the date before to that price, up to rounding; a row has no return exactly when its date is the first of the history |
| `Windows.NeighboursExplained` | internal/events/symbol_returns.go:17-25 | of two neighbouring rows the later one's return leads from the earlier one's stored close to the last price of its date |
| `Prices.PriceTablesFromScratch` | internal/events/postgres.go:964-1075 | for events in cursor order the batches succeed exactly when every symbol's closes are storable; then each window and mark is that of the symbol's own events |
| `Prices.MarkIsLatest` | internal/events/postgres.go:983-993 | a mark is the rounded price of the applied event of greatest (time, id) for its symbol |
| `FullTables.FullFromScratch` | internal/events/postgres.go:1014-1057 | recording without the trim gives the full table of the day closes, and fails just when a close that is not the latest is stored as zero |
| `FullTables.RecordedTwice` | internal/events/postgres.go:1014-1057 | without the trim, a batch and then a page with all its dates leave the table of the page alone |
| `Retries.RecordTrimmed` | internal/events/postgres.go:1014-1075 | recording in the trimmed table does what recording in the full table does to its latest 60 rows, but for the return of the oldest one, which a tick on its date drops and a new date behind it trims |
| `Retries.RecordedAgain` | internal/events/postgres.go:1014-1075 | a batch and then a page with all its dates and whatever else has arrived leave the window of the page alone, except that its oldest row has lost its return when a tick of the page falls on it after another one and no later date is new |
| `Retries.RetriedPageIff` | internal/events/price_worker_pool.go:162-257 | a batch that was applied, and then every page until it is covered again, with whatever has arrived: the pages succeed where the log can be applied, and the tables are those of the log exactly when no symbol loses the return of its oldest row so |
| `Retries.RetriedBatchIff` | internal/events/postgres.go:964-1075 | the same batch alone applied twice: the tables are still those from scratch exactly when no symbol of it has a tick on its window's oldest date with a trimmed date before it; such a symbol loses the return of its oldest row |
| `Retries.RetriedPageIsRight` | internal/events/price_worker_pool.go:189-257 | a retried batch that loses nothing is as if it had come once, whatever follows it in its page |
| `Prices.InterleavingsAgree` | internal/events/price_worker_pool.go:91-115 | any two interleavings of the same per-partition transactions leave the same tables |
| `Routing.WorkerShardFor` | internal/events/trade_worker_pool.go:113-121 | a partition is driven by the one shard its id hashes to |
| `Portfolios.EachRunsOnItsOwn` | internal/events/trade_worker_pool.go:139-168 | with one world per portfolio, a portfolio ends where its own actions take it under any interleaving |
| `Portfolios.InterleavingsAgree` | internal/events/trade_worker_pool.go:139-168 | two interleavings with the same actions of a portfolio leave it in the same state |
| `Routing.PricePartitionForSymbol` | internal/config/config.go:413-424 | a symbol goes to one configured partition, by FNV-1a of its bytes; no partitions is an error |
| `Routing.FnvVectors` | internal/config/config.go:413-424 | the hash takes the published values of 32-bit FNV-1a |
| `PriceLog.PriceStore.ApplyPriceBatch` | internal/events/postgres.go:964-1012 | marks, windows and cursor change together to the fold of the batch, or not at all; a batch that cannot be applied always fails; what the cursor passes without applying is missed |
| `PriceLog.PriceStore.PersistApplyDLQ` | internal/events/postgres.go:1078-1096 | dead letter and cursor change together or not at all, and the event counts as settled |
| `PriceLog.WriteAll` | internal/events/postgres.go:976-1002 | the loop over a batch computes the fold and stops at the first event that cannot be applied |
| `PriceLog.TablesAreFromScratch` | internal/events/price_worker_pool.go:141-160 | while no batch was committed twice and nothing set aside, every window and mark is that computed from scratch from the log's price events up to the cursor, without the missed ones, whatever the batches and restarts were |
| `PriceLog.SettledIsCovered` | internal/events/price_worker_pool.go:189-257 | the settled price events are exactly those of the log up to the cursor, without the missed ones |
| `PriceLog.PricesExactlyOnce` | internal/events/price_worker_pool.go:189-257 | a logged price event at or below the cursor that was not missed was applied once or set aside once, any other neither |
| `PriceLog.AppliedIsCovered` | internal/events/price_worker_pool.go:189-257 | with nothing set aside what was applied is the log's price events up to the cursor, in order |
| `PriceHazards.TinyCloseBlocks` | internal/events/symbol_returns.go:17-25 | a day of price 0.000000001 fails the batch that brings 1.0 on the next day |
| `PriceHazards.LateTickUnblocks` | internal/events/postgres.go:1014-1057 | a later tick of the first day, stored between the two, lets the batch through |
| `PriceHazards.BackfillTwice` | internal/events/postgres.go:1059-1075 | a backfill of 61 daily prices applied twice leaves the oldest row of the window without its return |
| `PriceHazards.RetriedBackfill` | internal/events/price_worker_pool.go:189-257 | such a store is reached by one unacknowledged commit and one retry, with nothing missed and nothing set aside |
| `PriceHazards.ArrivalDropsReturn` | internal/events/postgres.go:1014-1075 | a batch of days 2 to 60 that is retried behind a late tick of day 1 drops the return of day 1, though it has no tick on that day |
| `PriceHazards.RetriedLetter` | internal/events/postgres.go:1078-1096 | a price event whose dead letter was not acknowledged is recorded as dead twice |
| `PriceLog.SettledOnce` | internal/events/price_worker_pool.go:189-257 | each settled event of a page is applied or dead-lettered, once |
| `PriceLog.StuckBatch` | internal/events/postgres.go:998-1000 | a batch that cannot be applied fails however it is extended |
| `PriceWorker.PricePartitionWorker.HandleOne` | internal/events/price_worker_pool.go:192-246 | a price event that the clock finds fresh joins the batch, a stale event is set aside behind a flush, any other event is skipped; it fails only after a failed operation or at a batch that cannot be applied |
| `PriceWorker.PricePartitionWorker.ApplyPriceEligible` | internal/events/price_worker_pool.go:189-257 | when it succeeds exactly the price events and stale events of the page were settled; a batch that cannot be applied leaves the partition where it was |
| `PriceWorker.PricePartitionWorker.PumpRound` | internal/events/price_worker_pool.go:164-186 | one round misses nothing and settles the log up to the cursor; it fails only after a failed operation or at a batch that cannot be applied; it asks for another exactly when a full page was eligible, and then stands still exactly when that page holds no price event |
| `PriceWorker.PricePartitionWorker.PumpAfterCursor` | internal/events/price_worker_pool.go:162-187 | on a log of price events the pump ends, misses nothing, has settled the log up to its cursor and leaves what module Pump says; it fails only after a failed operation or at a batch that cannot be applied |
| `PriceWorker.PricePartitionWorker.Rebuild` | internal/events/price_worker_pool.go:141-160 | without a cursor the whole log is settled, else a pump goes on from it; nothing is missed, no batch is committed twice, and what was settled is the log up to the cursor |
| `PriceWorker.PriceSlot.Tick` | internal/events/price_worker_pool.go:91-115 | unless an operation fails or a batch cannot be applied a worker is running after a tick and has pumped from its cursor or from where its start-up left it |
| `PriceWorker.TwoTicks` | internal/events/price_worker_pool.go:91-115 | two such ticks with fewer than 200 pending events newer than the cutoff settle the whole log but for missed events |
| `Ingest.OneRowPerKey` | internal/events/postgres.go:351-356 | at most one row per portfolio and idempotency key, whatever is sent; logs stay sorted |
| `Ingest.FirstAnswerSticks` | internal/events/postgres.go:368-376 | once a request was answered with an id, every later request of the same key gets that id |
| `Ingest.RetriesDoNotMatter` | internal/events/postgres.go:332-385 | a sequence of requests with fresh event ids leaves the logs of the sequence without its retries |
| `Ingest.ArrivalOrderIsIrrelevant` | internal/events/postgres.go:431-441 | two orders of the same requests leave the same logs |
| `Ingest.AppendIsPartitionAppend` | internal/events/postgres.go:332-385 | for one portfolio an append is the append of the partition machine |
| `Uuids.NumberFollowsBytes` | internal/events/cursor.go:47 | byte order of ids is the order of their big-endian numbers |
| `Uuids.TextFollowsBytes` | internal/portfolio/view.go:281-286 | lower-case hexadecimal text of ids sorts as the bytes do |
| `Uuids.OrdersAgree` | internal/events/cursor.go:38-48 | cursor order, lineage order and the model's order agree on every pair, and equal means the same mark |
| `Uuids.CursorsTransitive` | internal/events/cursor.go:38-48 | cursor order is transitive |
| `Uuids.ZeroCursorIsNil` | internal/events/cursor.go:32-39 | the cursor for nothing applied yet is the zero time with the nil id, and no other mark reads as it |
| `Lexicographic.CompareRead` | internal/portfolio/view.go:174 | less means a proper prefix, or less at the first place where the two differ |
| `Scheduler.NoLostRecompute` | internal/events/risk_trigger.go:36-53 | over any interleaving, once no timer of a portfolio is live every request not followed by Stop was followed by the start of a recompute |
| `Scheduler.WaitingIsArmed` | internal/events/risk_trigger.go:36-53 | a portfolio with an unserved request has a live timer |
| `Scheduler.OneTimerEach` | internal/events/risk_trigger.go:36-43 | bursts coalesce: one live timer per portfolio while all timers are in the map |
| `Scheduler.RegisteredUnlessLateDelete` | internal/events/risk_trigger.go:44-52 | a step takes a live timer out of the map exactly when it is a late deletion |
| `Scheduler.StopIsQuietIff` | internal/events/risk_trigger.go:54-62 | Stop cancels every outstanding recompute exactly when all live timers are in the map |
| `Scheduler.StopIsQuiet` | internal/events/risk_trigger.go:54-62 | after Stop no timer is live, in every run without a late deletion |
| `Scheduler.StopMissesOrphan` | internal/events/risk_trigger.go:44-62 | five steps after which a recompute still starts behind Stop |
| `Scheduler.DebouncedRiskScheduler.Schedule` | internal/events/risk_trigger.go:36-53 | the map and the timers change as the machine's Schedule |
| `Scheduler.DebouncedRiskScheduler.TimerFires` | internal/events/risk_trigger.go:43-47 | a timer that fires serves its portfolio; one that was stopped does nothing |
| `Scheduler.DebouncedRiskScheduler.CallbackEnds` | internal/events/risk_trigger.go:48-51 | the callback deletes its portfolio's entry, whichever timer is in it |
| `Scheduler.DebouncedRiskScheduler.Stop` | internal/events/risk_trigger.go:54-62 | stops the timers in the map and forgets them |
| `SnapshotCodec.TextRoundTrip` | internal/portfolio/snapshot.go:40-81 | eight-decimal text of any value is read back as that value by the reader of decimal text |
| `SnapshotCodec.ReadSigned` | internal/portfolio/snapshot.go:69-81 | digits may have a sign in front, and only minus negates |
| `SnapshotCodec.ExponentScales` | internal/portfolio/snapshot.go:69-81 | digits with an exponent are scaled by that power of ten, as long as the exponent has 32 bits |
| `SnapshotCodec.SortedSymbols` | internal/domain/positions_iterate.go:11-26 | all symbols once, in ascending order |
| `SnapshotCodec.MarshalTradePositionsSnapshot` | internal/portfolio/snapshot.go:30-52 | one row per symbol in order, with eight decimals |
| `SnapshotCodec.ParseTradePositionsSnapshot` | internal/portfolio/snapshot.go:54-90 | reads rows in order, any decimal notation, with the source's error cases |
| `SnapshotCodec.SnapshotRoundTrip` | internal/portfolio/snapshot.go:30-90 | what was written is read back as the rounded lots exactly when no symbol is empty |
| `SnapshotCodec.BodyIsUnique` | internal/portfolio/snapshot.go:30-52 | the body does not depend on the order in which the map is visited |
| `View.ValueIsCostPlusProfit` | internal/portfolio/view.go:114-128 | an open priced position is worth its cost plus its unrealized profit, any other has neither |
| `View.RowsRead` | internal/portfolio/view.go:114-203 | every position has its row, with a price exactly when its mark is not zero, worth quantity times price exactly when it is also open; the unpriced symbols are the open ones without such a mark |
| `View.TotalsRead` | internal/portfolio/view.go:137-149 | one more position adds its realized profit, and its value and unrealized profit exactly when it is open and priced |
| `View.LineageRead` | internal/portfolio/view.go:207-259 | the price lineage lists exactly the marks with a non-nil event id, with that event and its processing time; the driving ids are exactly those of the marks and of the trade cursor; the fused lineage is the trade cursor alone or the greatest such mark alone |
| `View.SumTotals` | internal/portfolio/view.go:137-149 | the loop computes the sums over the rows |
| `View.SumInAnyOrder` | internal/portfolio/view.go:137-149 | totals do not depend on the order of the rows |
| `View.AssemblePortfolioView` | internal/portfolio/view.go:157-279 | errors for a nil portfolio and for duplicate symbols, else rows, unpriced symbols, totals, driving ids, lineage of both reads and the fused lineage when a single one has any |
| `View.ViewIsOrderFree` | internal/portfolio/view.go:151-279 | the view is the same for every order of the positions and of the price map |
| `View.TotalsOfPositions` | internal/portfolio/view.go:205 | the totals of a view are the sums over the positions as they came |
| `View.OpenSymbolsSplit` | internal/portfolio/view.go:177-203 | an open position is unpriced exactly when it has no mark, and is in the view either way |
| `View.MergeAsOfCursor` | internal/portfolio/view.go:288-312 | the merged as-of is the greatest mark that an event set, whatever the map order |
| `View.MergeLatestProcessingTime` | internal/portfolio/view.go:332-351 | the latest processing time over all marks, those without an event included, whatever the map order |
| `View.CollectDrivingEventIDs` | internal/portfolio/view.go:314-330 | the ids of both reads once each, in order |
| `Scenario.ValidateShocks` | internal/scenario/core.go:44-63 | accepts exactly the non-empty lists of named percentage shocks with one shock per symbol, and says what is wrong otherwise |
| `Scenario.ShockedPortfolioInput` | internal/scenario/core.go:65-99 | Missing exactly when some shocked symbol has no mark or a zero one, with just these symbols in shock order; else each shocked mark is its base price times one plus the value and everything else is the base's |
| `Scenario.ShockOrderIsIrrelevant` | internal/scenario/core.go:85-93 | the order of valid shocks does not matter |
| `Scenario.ShocksCompose` | internal/scenario/core.go:91 | successive shocks a and b are one shock by (1 + a)(1 + b) - 1; the second finds a mark exactly when a is not minus one |
| `Scenario.ScenarioChange` | internal/scenario/core.go:101-116 | market value changes by quantity times price times value over shocked open positions, realized profit not at all, unrealized profit by the same plus the cost of positions that lose their mark |
| `Scenario.WipedCostZeroIff` | internal/scenario/core.go:88 | both changes agree exactly when every open position shocked by minus one has cost nothing |
| `Scenario.WipedExample` | internal/scenario/core.go:85-93 | ten shares bought at five and marked at six: a shock of minus one takes sixty from the market value and ten from unrealized profit |
| `Scenario.ScenarioOnViews` | internal/scenario/core.go:101-116 | the same for the totals of the base view and the scenario view |
| `Risk.BuildExposures` | internal/risk/engine.go:90-107 | exposures of the priced positions, unpriced symbols listed, a priced symbol without volatility fails |
| `Risk.ExposeFacts` | internal/risk/engine.go:90-109 | exposures are never negative and add up to the total |
| `Exposures.ExposuresRead` | internal/risk/engine.go:90-107 | one line per priced holding in order, with its symbol's volatility and quantity times price or its negative, whichever is not negative; it fails exactly when a priced symbol has no volatility |
| `Exposures.TotalIsMarketValue` | internal/api/risk_build.go:44-57 | for stored positions the total exposure is the market value that the view totals for the same rows and marks |
| `Risk.AssignWeights` | internal/risk/engine.go:116-120 | weights are assigned in place, when the total is positive |
| `Risk.WeightsSumToOne` | internal/risk/engine.go:116-120 | the weights of n holdings sum to one within n half units of the sixteenth decimal |
| `Risk.Hhi` | internal/risk/engine.go:176-182 | the loop computes the sum of squared weights |
| `Risk.HhiBounds` | internal/risk/engine.go:176-182 | with weight sum S the index lies between S squared over n and S squared |
| `Risk.SigmaBound` | internal/risk/engine.go:157-174 | the portfolio's standard deviation is at most the weighted sum of the volatilities |
| `Risk.VaRBound` | internal/risk/engine.go:126 | value at risk is at most 1.645 times total times that sum |
| `Risk.SnapshotInequalities` | internal/risk/engine.go:84-145 | all of these for any snapshot with a positive total and volatilities that are not negative |
| `Risk.TopByWeight` | internal/risk/engine.go:184-200 | the n largest weights, ranked; what is left out ranks behind |
| `Risk.BuildSnapshot` | internal/risk/engine.go:84-145 | the holdings by symbol with their shares, the unpriced symbols in order, index, deviation and value at risk of exactly these, and the n largest, n being 5 by default and at most 50 |
| `Exposures.SnapshotRead` | internal/risk/engine.go:109-200 | lines in symbol order, each weight the exposure's share of the total to half a unit of the sixteenth decimal, value at risk 1.645 times total times deviation, and the top list in front of all others by weight, then symbol |
| `Exposures.TermsRead` | internal/risk/engine.go:157-182 | a holding contributes its weight to the index and weight times volatility to the variance |
| `Exposures.SumsRead` | internal/risk/engine.go:157-182 | both are sums of squares, taken one by one |
| `Sanitizer.MatchIsChunk` | internal/ai/validator.go:31 | a match of the token pattern is a whole word of the text |
| `Sanitizer.ChunkIsMatch` | internal/ai/validator.go:31 | every word of one to five capitals is a match |
| `Sanitizer.SanitizeUnknownTickerTokens` | internal/ai/validator.go:126-133 | scanning for matches and rewriting the unknown ones rewrites exactly the unknown words |
| `Sanitizer.NoUnknownLeft` | internal/ai/validator.go:124-133 | no unknown ticker-like token is left |
| `Sanitizer.ChunksOfClean` | internal/ai/validator.go:124-133 | every other word and character is unchanged |
| `Sanitizer.CleanRead` | internal/ai/validator.go:113-133 | a word of at most five capitals that is in neither word list and not allowed becomes asset, every other word and character stays |
| `Sanitizer.WordRead` | internal/ai/validator.go:31 | word characters are the ASCII digits and letters and the underscore |
| `Sanitizer.CleanTwice` | internal/ai/validator.go:124-133 | a second pass is the identity |
| `Sanitizer.CleanIsIdentityIff` | internal/ai/validator.go:105-133 | the text is unchanged exactly when the validator's ticker check accepts it |
| `Sanitizer.FirstUnknownToken` | internal/ai/validator.go:105-109 | finds an unknown token exactly when there is one |

## Left out

- HTTP handlers, authentication, sessions, rate limits, configuration loading, price feeds, logging, metrics and the web front end.
- SQL text, JSON and UUID parsing: rows, payloads and ids are already decoded, so undecodable payloads (BAD_PRICE_PAYLOAD, malformed snapshot JSON) do not occur.
- Column overflow of NUMERIC(20,8): an overflowing write is one of the transactions that fail.
- Real time: tickers and delays are arbitrary, the stale-age test and the snapshot interval read an arbitrary clock.
- The pool's loop over a map of many portfolios: the class models one slot, and module Portfolios their interleaving; portfolios share no row of the trade tables.
- The schedule call inside a flush: the scheduler is modelled on its own.
- TradeWorker.PartitionStore.InsertPortfolioSnapshot: an insert that is stored but reported as failed is modelled as one that is not stored.
- Deleting a cursor row by hand while a snapshot exists: no step of the code does so.
- PriceWorker.PricePartitionWorker.PumpAfterCursor: arrivals happen between calls of the price worker's methods, not inside one; what is known of a fetched page (PageOk) survives an append, and the loss of an event below a page in flight is shown for trade partitions, which fetch in the same way.
- PriceLog.TablesAreFromScratch: with dead letters the tables are those of the applied events only; a batch committed twice is the subject of Retries.RetriedPageIff.
- PriceLog.PricesExactlyOnce: a store in which a commit was repeated is left out, and so is an event recorded as dead twice (PriceHazards.RetriedLetter).
- Retries.RetriedPageIff: compares with the tables of the log where these exist; a retry that passes although the log with the arrivals cannot be applied is left out.
- KeptWorker.KeptWorkerRightIff: the page is finished without a further failure and with the stale test off, and holds no trade of an unknown side, which internal/domain/validation.go:36-41 refuses.
- KeptLetters.UnacknowledgedLetterIff: the same.
- Portfolios.EachRunsOnItsOwn: that portfolios share no state is how the model is built, as their rows have disjoint keys.
- Routing.PricePartitionForSymbol: symbols are ASCII, so a character is one byte.
- Ingest.RetriesDoNotMatter: event ids are fresh, as handlers.go:84 and handlers.go:171 create them; with a repeated id the first request of a key may fail and its retry succeed.
- Risk.BuildSnapshot: the square root is a parameter, any function that gives non-negative exact roots, and conversions to float64 are exact.
- Banned phrases, SQL probes and metric paths of the output validator; the OpenAI client and prompts.
- Payload-hash conflicts, described in the design but not implemented.
