# Verification of the market-data core

A Dafny model of the market-data layer of the trading bot, with proofs about it.
It has four parts.

**The Binance order book and its recovery.** `OrderbookState` keeps price maps
with sorted indexes, takes snapshots and id-ranged deltas, and fails closed.
`OrderbookPhase41Processor` wraps it; a bounded queue is purged after each
snapshot; the capture interleaves a dropping reader, a consumer and snapshot
reloads. The exchange is a history of books, one for each update id. The main
result holds for every interleaving and every loss: an emitted side is the
exchange's best n levels at the sample's id whenever the sample and the last
accepted snapshot vouch for it (`DepthCutoff.VouchedSamplesShowTheExchange`), and
no weaker test would do (`CutoffIsTight.SampleIsExactIffVouched`).

**The batch writer.** `JsonlBatchWriter` as an object, and as a protocol of
producers, a draining thread and a closer. Records are conserved, batching is
invisible in the files, and what a close may lose is said by the calls under way.

**Market selection and the market universe.** Two selectors written apart are
both tied to one description by counting, which says exactly when they agree.
The manager's universe is the last one discovery found, over every run.

**The prediction market's local books.** Message effects on one book, quotes,
readiness counts, and what holds of them over every run of messages.

Classes and loops of the program are classes, methods and loops here. A method
is proved against a function of the old state; the lemmas are about those
functions and about runs of them.

## What turned out not to hold as written

- Snapshots are requested with at most 1000 levels a side
  (`bot/app/marketdata/orderbook_phase41.py:1952`), so a price below that depth
  can rise into the best n unseen. `ShortSnapshot.EveryLimitCanMislead` gives,
  for every limit, a capture that emits wrong bids. The exact condition is a test
  on the sample and the accepted snapshot: the snapshot was shorter than its
  limit, or all n places are filled and the last one is no worse than some
  snapshot level.
- Purging keeps a queue's meaning only if it does not jump over an event to a
  later bridge. Events in exchange order never do that; even then the gap boundary
  may differ, as `QueuePurge.PurgeChangesOnlyTheBoundary` says.
- A stale or reconnect reset sets no boundary, so the id may step back. It does
  so exactly when a clean older snapshot of the right generation arrives and no
  boundary is set (`BookRuns.IdStepsBackIff`).
- With no level kept on a side (n < 1) every sample fails the schema, and the
  validator reports missing best prices of a book that has them.
- A writer call begun before `close` may put its record after the final look at
  the queue; the flush still counts as completed. If no call begins after it, a
  close can lose nothing exactly when no call is under way at its start.
- The two selectors differ where start texts and start times order a group's
  future markets differently.
- `select_runtime_markets` looks its markets up by key, so a later untradable
  copy of a selected key is returned in its place. It returns what it selected
  exactly when each selected key's last market and role are the selected ones;
  deduplication, which the discovery code runs first, ensures that.
- A price change whose size is not a number is stored as a level; a snapshot
  row like that is dropped.
- A snapshot of the prediction market whose asks do not parse raises after its
  bids were stored, so new bids stand beside old asks.
- The list of closed markets in a universe difference is always empty: a removed
  market is classified by the copy that was tradable when it was taken.
- A reported best price within tolerance can complete a quote that still shows
  an older override.

## Model

| member | source | states |
|---|---|---|
| `PriceIndex.BisectLeft` | bot/app/marketdata/orderbook_state.py:594-596 | every price before the returned place is smaller, every price from it on is not |
| `PriceIndex.Insort` | bot/app/marketdata/orderbook_state.py:599-601 | the longer list is strictly ascending and has the old prices and the new one |
| `PriceIndex.ApplyLevel` | bot/app/marketdata/orderbook_state.py:587-602 | the map changes at one price and the sorted list still holds exactly the map's keys |
| `PriceIndex.SortedPrices` | bot/app/marketdata/orderbook_state.py:452-454 | a rebuilt list is strictly ascending and has exactly the keys |
| `TopLevels.CopyTopBids` | bot/app/marketdata/orderbook_state.py:379-391 | the min(n, count) highest bids, best first |
| `TopLevels.CopyTopAsks` | bot/app/marketdata/orderbook_state.py:393-405 | the min(n, count) lowest asks, best first |
| `TopLevels.BestNUnique` | bot/app/marketdata/orderbook_state.py:379-405 | only one list can be the best n levels of a side |
| `TopLevels.BestOfKnownIsBest` | bot/app/marketdata/orderbook_phase41.py:1926-1986 | the best n of the known prices are the best n of the whole side if and only if no hidden price beats one of them or would fill an empty place |
| `BookModel.ParseLevels` | bot/app/marketdata/orderbook_state.py:519-549 | the parsed levels in order, and an error code exactly for each fault of some row; no error if and only if every row is clean |
| `OrderbookState.StructureErrors` | bot/app/marketdata/orderbook_state.py:407-422 | exactly the structural codes of a side count and a pair of best prices |
| `OrderbookState.LevelsStayPositive` | bot/app/marketdata/orderbook_state.py:552-574 | rows that parse leave a map of positive prices and sizes positive |
| `OrderbookState.OrderbookState.ApplySnapshot` | bot/app/marketdata/orderbook_state.py:99-162 | the whole state and the result after a snapshot, for each refusal and for acceptance |
| `OrderbookState.OrderbookState.ApplyDelta` | bot/app/marketdata/orderbook_state.py:164-283 | the whole state and the result after a delta, for each of its six outcomes |
| `OrderbookState.OrderbookState.MarkNotReady` | bot/app/marketdata/orderbook_state.py:285-305 | the book closes, a boundary given replaces the one held, the generation advances on request, and nothing else changes |
| `OrderbookState.OrderbookState.MarkReady` | bot/app/marketdata/orderbook_state.py:307-310 | asking again sets the gate to the formula's value and reports it |
| `OrderbookState.OrderbookState.EnsurePriceIndexes` | bot/app/marketdata/orderbook_state.py:456-458 | on a valid object the sorted lists are not rebuilt: they already index the maps |
| `OrderbookState.OrderbookState.Validate` | bot/app/marketdata/orderbook_state.py:407-422 | exactly the book errors of both maps, level faults and structure |
| `OrderbookState.ActiveLevelErrors` | bot/app/marketdata/orderbook_state.py:605-616 | exactly the codes that some price or size of the map earns |
| `OrderbookState.OrderbookState.BestBid` | bot/app/marketdata/orderbook_state.py:324-326 | the greatest bid price, if there is one |
| `OrderbookState.OrderbookState.BestAsk` | bot/app/marketdata/orderbook_state.py:328-330 | the least ask price, if there is one |
| `OrderbookState.OrderbookState.CopySnapshot` | bot/app/marketdata/orderbook_state.py:345-377 | a copy with the best levels, the full counts, the ids and the versions of the state |
| `OrderbookState.OrderbookState.Cleanup` | bot/app/marketdata/orderbook_state.py:424-433 | both maps are emptied and the book is closed |
| `BookRuns.InvKept` | bot/app/marketdata/orderbook_state.py:99-310 | each operation keeps: positive levels; the cached gate equal to its formula; ready if and only if exactly one of awaiting and continuous; awaiting means standing at the snapshot's id; a boundary lies above the id of a closed book |
| `BookRuns.InvAlways` | bot/app/marketdata/orderbook_state.py:67-450 | the invariant over every sequence of operations from a new book |
| `BookRuns.MarkReadyChangesNothing` | bot/app/marketdata/orderbook_state.py:307-310 | in every reachable state `mark_ready` changes nothing |
| `BookRuns.DeltaAcceptedIff` | bot/app/marketdata/orderbook_state.py:186-263 | a delta is applied if and only if the book is ready, the range reaches the next id (exactly at it once live), the previous id fits and the levels are clean |
| `BookRuns.DeltaMovesForwardOrNotAtAll` | bot/app/marketdata/orderbook_state.py:164-283 | an applied delta raises the id to its last; any other leaves levels, id and version untouched |
| `BookRuns.RejectionSetsBoundary` | bot/app/marketdata/orderbook_state.py:199-263 | gap, bridge, previous-id and level rejections are exactly what sets the boundary to the delta's last id, above the book's |
| `BookRuns.BoundaryHoldsUntilNewerSnapshot` | bot/app/marketdata/orderbook_state.py:118-127 | over every run the boundary, the closed gate, the id and the version hold until a snapshot above the boundary is accepted |
| `BookRuns.IdStepsBackIff` | bot/app/marketdata/orderbook_state.py:118-162 | in a reachable state the id falls if and only if a clean older snapshot of the generation asked for arrives and no gap boundary is set |
| `BookRuns.RunNeverFallsIff` | bot/app/marketdata/orderbook_state.py:118-162 | over a whole run the id falls somewhere if and only if such a snapshot is taken somewhere |
| `BookRuns.ResetAllowsOlderSnapshot` | bot/app/marketdata/orderbook_state.py:285-305 | a run in which it does: a reset sets no boundary, so an older snapshot is accepted |
| `BookMeaning.SnapshotTakenIff` | bot/app/marketdata/orderbook_state.py:99-162 | on the fields: a snapshot is taken if and only if both sides are clean, the generation fits and no gap boundary reaches its id; then the book waits at its id holding the last row of each price, else levels, id, version, generation and boundary stay |
| `BookMeaning.RefusalMeans` | bot/app/marketdata/orderbook_state.py:110-146 | which refusal is reported, with which code, and that only bad levels close the book |
| `BookMeaning.NewerSnapshotReopens` | bot/app/marketdata/orderbook_state.py:118-162 | over every run after a delta refused for a gap, a clean snapshot above its last id reopens the book as long as none was taken before |
| `BookMeaning.DeltaStatusMeans` | bot/app/marketdata/orderbook_state.py:164-263 | each outcome of a delta, on the ids |
| `BookMeaning.DeltaResultMeans` | bot/app/marketdata/orderbook_state.py:164-283 | the ids and the error code that the result of a delta reports |
| `BookMeaning.AppliedDeltaMeans` | bot/app/marketdata/orderbook_state.py:240-283 | an applied delta writes the last row of each price, deletes at size 0, keeps the others and stands at its last id and receive time |
| `BookMeaning.CleanRowIff` | bot/app/marketdata/orderbook_state.py:519-574 | a row passes every check if and only if price and size are finite numbers of the right signs |
| `BookMeaning.RowErrorsMean` | bot/app/marketdata/orderbook_state.py:519-574 | what each error code of a row tells of it |
| `BookMeaning.CleanupMeans` | bot/app/marketdata/orderbook_state.py:424-433 | cleaning up empties and closes the book and leaves ids, version, generation and boundary |
| `ExchangeTruth.DeltaBringsTruth` | bot/app/marketdata/orderbook_state.py:186-283 | an honest range that reaches or overlaps the local id brings a side to the exchange's side at its last id |
| `ExchangeTruth.TrueAfterSnapshot` | bot/app/marketdata/orderbook_state.py:99-162 | after any snapshot of honest depth a ready book is the exchange's at its id, on the prices it can speak for |
| `ExchangeTruth.TrueAfterDelta` | bot/app/marketdata/orderbook_state.py:164-283 | after any honest delta, whatever its status, a ready book is the exchange's at its id on those prices |
| `ExchangeTruth.ReadyBookShowsTruth` | bot/app/marketdata/orderbook_state.py:345-405 | the levels copied from a ready book are the best n of the exchange's known prices |
| `ShortSnapshot.EveryLimitCanMislead` | bot/app/marketdata/orderbook_phase41.py:1926-1986 | for every depth limit, 1000 included, every number of levels n >= 1 and any thresholds that are not negative, an honest capture emits a sample whose bids are not the exchange's best n |
| `ShortSnapshot.GoodDeltaIsEmitted` | bot/app/marketdata/orderbook_phase41.py:1213-1309 | an applied delta that leaves a sound book is emitted at once |
| `QueuePurge.PurgeQueuedDepthUpdates` | bot/app/marketdata/orderbook_phase41.py:1629-1681 | what is preserved, how many events were old, the three counts that add up to the size before, the bridge found and whether one is missing |
| `QueuePurge.OthersSurvive` | bot/app/marketdata/orderbook_phase41.py:1640-1644 | envelopes of other symbols and types all survive, in order |
| `QueuePurge.OtherSymbolsStay` | bot/app/marketdata/orderbook_phase41.py:1640-1644 | every other symbol's events stay as they were, in order |
| `QueuePurge.EventsOfAppend` | bot/app/marketdata/orderbook_phase41.py:1640-1644 | a symbol's events are those of its depth envelopes, in queue order |
| `QueuePurge.PreservedEvents` | bot/app/marketdata/orderbook_phase41.py:1645-1665 | the symbol's events preserved are those the event-level rule keeps |
| `QueuePurge.PurgeIdempotent` | bot/app/marketdata/orderbook_phase41.py:1629-1681 | purging again for the same snapshot id changes nothing |
| `QueuePurge.Drain` | bot/app/marketdata/orderbook_phase41.py:1691-1696 | the whole queue, in order, leaving it empty |
| `QueuePurge.Refill` | bot/app/marketdata/orderbook_phase41.py:1703-1711 | what fits is put back in order and the overflow is counted; for a drained queue's preserved envelopes the overflow is nothing |
| `QueuePurge.DrainAndRefill` | bot/app/marketdata/orderbook_phase41.py:1684-1744 | the queue holds exactly what the purge preserves, and size before is old dropped plus future dropped plus size after |
| `QueuePurge.PurgeKeepsMeaningIff` | bot/app/marketdata/orderbook_phase41.py:1629-1744 | replaying the purged queue gives the same book as the unpurged one if and only if the purge does not jump an event past the snapshot to reach an acceptable bridge |
| `QueuePurge.PurgeChangesOnlyTheBoundary` | bot/app/marketdata/orderbook_phase41.py:1629-1744 | without such a jump the two books differ in the gap boundary at most, and it says which one each has |
| `QueuePurge.OutOfOrderQueueChangesMeaning` | bot/app/marketdata/orderbook_phase41.py:1645-1665 | a queue of two events out of order, for every just loaded book, whose purge changes the book |
| `QueuePurge.OrderedPurgeKeepsMeaning` | bot/app/marketdata/orderbook_phase41.py:1629-1744 | for events in exchange order, gaps allowed, both replays give the same levels, id and gates |
| `QueuePurge.RecoveryCompletes` | bot/app/marketdata/orderbook_phase41.py:1645-1665 | with a bridge and a contiguous clean suffix every kept event is applied and the book ends live at the last one's id |
| `OrderbookQuality.TopLevelErrors` | bot/app/marketdata/orderbook_quality.py:180-191 | exactly the codes some copied level earns |
| `OrderbookQuality.ValidateWithState` | bot/app/marketdata/orderbook_quality.py:46-109 | valid if and only if no error, and each error code if and only if its condition holds of copy, state, age and lag |
| `OrderbookQuality.ValidateAlone` | bot/app/marketdata/orderbook_quality.py:46-109 | the same without a state to compare with |
| `OrderbookQuality.SnapshotSeesBookErrors` | bot/app/marketdata/orderbook_quality.py:161-177 | for a copy of at least one level the structural errors of the copy are those of the whole book |
| `OrderbookQuality.EmptyCopyHidesBook` | bot/app/marketdata/orderbook_quality.py:161-177 | copy and book agree on every structural code if and only if n >= 1 or both sides are empty |
| `OrderbookQuality.ValidateCleanSampleSchema` | bot/app/marketdata/orderbook_phase41.py:1547-1626 | each schema violation if and only if its condition holds of the sample |
| `OrderbookQuality.SchemaAcceptsIff` | bot/app/marketdata/orderbook_phase41.py:1400-1434 | a sample built from a live, sound book passes the schema if and only if at least one level a side is kept |
| `QualityMeaning.BookErrorsMean` | bot/app/marketdata/orderbook_state.py:407-422 | each structural code of a book with positive levels, on its two maps |
| `QualityMeaning.QualityCodesMean` | bot/app/marketdata/orderbook_quality.py:46-158 | each error code of a judged copy: book, gates, age, lag, and reported prices against the book's best |
| `QualityMeaning.SchemaPassesIff` | bot/app/marketdata/orderbook_phase41.py:1547-1626 | a sample passes the schema if and only if it is sound, field by field |
| `Processor.OrderbookPhase41Processor.RecordFeedReceiveStale` | bot/app/marketdata/orderbook_phase41.py:932-985 | a stale feed opens one period and closes the book with it; later calls only extend the period |
| `Processor.OrderbookPhase41Processor.CheckStalePeriods` | bot/app/marketdata/orderbook_phase41.py:843-924 | the whole state after a check of the feed's age |
| `Processor.OrderbookPhase41Processor.LoadSnapshot` | bot/app/marketdata/orderbook_phase41.py:470-526 | the whole state after a snapshot; acceptance closes the open stale period |
| `Processor.OrderbookPhase41Processor.MaybeEmitOrBlockSample` | bot/app/marketdata/orderbook_phase41.py:1213-1309 | emit, or block with the counters of the reason |
| `Processor.OrderbookPhase41Processor.ProcessDepthUpdate` | bot/app/marketdata/orderbook_phase41.py:528-677 | the whole state after a message: staleness, application, counting and emission, in that order |
| `Processor.OrderbookPhase41Processor.PurgeQueueAfterSnapshot` | bot/app/marketdata/orderbook_phase41.py:1684-1744 | the queue is trimmed; a missing bridge is counted and closes the book |
| `CaptureMeaning.StaleCheckMeans` | bot/app/marketdata/orderbook_phase41.py:843-985 | a check of an active feed with no recovery running leaves a period open if and only if a message was received, the threshold since it has passed and the queue is empty; then both gates are closed, and a new period is one more generation |
| `CaptureMeaning.NoCheckDuringRecovery` | bot/app/marketdata/orderbook_phase41.py:854-873 | a check during a recovery or of an inactive feed changes nothing |
| `CaptureMeaning.SilenceClosesTheBook` | bot/app/marketdata/orderbook_phase41.py:1819-1827 | in every capture a timeout past the threshold on an empty queue closes the book, and nothing is emitted until a snapshot is accepted |
| `CaptureMeaning.MessageIsHeard` | bot/app/marketdata/orderbook_phase41.py:539-543 | a message of the symbol is counted and restarts the silence at its receive time |
| `CaptureMeaning.ReconnectMeans` | bot/app/marketdata/ws_lifecycle.py:47-51 | a reconnect closes the book in a new generation and keeps levels, id and boundary |
| `CaptureMeaning.ReceiveMeans` | bot/app/marketdata/orderbook_phase41.py:1781-1803 | a received envelope is queued last if there is room and else only counted |
| `CaptureMeaning.QueueMeans` | bot/app/marketdata/orderbook_phase41.py:1819-1870 | consuming takes the oldest envelope, a snapshot trims the queue, no other step touches it |
| `CaptureMeaning.RecoveryMeans` | bot/app/marketdata/orderbook_phase41.py:744-757 | a recovery runs from the request for a snapshot until one arrives, and the request changes nothing else |
| `CaptureMeaning.BridgeMissingMeans` | bot/app/marketdata/orderbook_phase41.py:1735-1744 | events past a snapshot without a bridge among them close the book again |
| `CaptureMeaning.LoadMeans` | bot/app/marketdata/orderbook_phase41.py:470-526 | a snapshot counts as loaded if and only if it could be taken, and only then ends a stale period |
| `CaptureMeaning.RefusedDeltaCounts` | bot/app/marketdata/orderbook_phase41.py:600-660 | which counters a refused delta moves, on the ids, each by one |
| `CaptureMeaning.EmittedIff` | bot/app/marketdata/orderbook_phase41.py:573-598 | a delta is emitted if and only if it is applied, leaves both sides filled and uncrossed, is judged in time and n >= 1; an applied one that is not is counted as blocked |
| `CaptureMeaning.EmittedSamplePictures` | bot/app/marketdata/orderbook_phase41.py:1400-1434 | every emitted sample holds the book's best levels, spread and mid of its own best prices, the map sizes, the generation, versions and id after the delta, and the age at judging |
| `CounterRuns.CountersAlwaysBalance` | bot/app/marketdata/orderbook_phase41.py:539-628 | over every capture: received = accepted + rejected, accepted = emitted + blocked, rejections by reason, version and generation by cause |
| `CounterRuns.AcceptedDeltaPassesSchema` | bot/app/marketdata/orderbook_phase41.py:1257-1284 | after an applied delta a good quality result leads to emission if and only if n >= 1, otherwise to a schema block |
| `CounterRuns.SchemaNeverViolated` | bot/app/marketdata/orderbook_phase41.py:1268-1284 | with n >= 1 the schema violation counter stays 0 in every capture |
| `DepthCutoff.VouchedSamplesShowTheExchange` | bot/app/marketdata/orderbook_phase41.py:1781-1870 | over every interleaving of receives, drops, losses, stale checks, reconnects, snapshots and consumer steps, an emitted side is the exchange's best n levels at the sample's id if the last snapshot was shorter than its limit or uncut, or all n places are filled and the last is no worse than some snapshot level |
| `CutoffIsTight.SampleIsExactIffVouched` | bot/app/marketdata/orderbook_phase41.py:1781-1870 | and that test is exact: where no snapshot of the run reached deeper than the last, the side is right for every exchange that could have sent the messages if and only if the test holds |
| `DepthCutoff.SampleHasItsStep` | bot/app/marketdata/orderbook_phase41.py:1268-1309 | every sample of a run was emitted by one step of it, so the two results reach them all |
| `DepthCutoff.FullSnapshotsNeverEmitAWrongLevel` | bot/app/marketdata/orderbook_phase41.py:1781-1870 | for whole-book snapshots, every sample of every run shows the exchange's best n levels at its id |
| `Capture.NoSampleWhileClosed` | bot/app/marketdata/orderbook_phase41.py:1213-1257 | from a closed book nothing is emitted until a snapshot is accepted |
| `Capture.GapBlocksSamples` | bot/app/marketdata/orderbook_state.py:118-127 | after a gap nothing is emitted until a snapshot above its boundary arrives |
| `Capture.SampleNeedsDelta` | bot/app/marketdata/orderbook_phase41.py:573-598 | a step emits at most one sample, and only by applying a delta that reaches the next id, the bridge if one is awaited |
| `Capture.StaleAlwaysClosesGate` | bot/app/marketdata/orderbook_phase41.py:843-985 | in every capture an open stale period means both gates are closed |
| `Capture.StaleFeedBlocksSamples` | bot/app/marketdata/orderbook_phase41.py:843-985 | from an open stale period on, nothing is emitted until a snapshot is accepted |
| `Capture.StaleFeedRecovers` | bot/app/marketdata/orderbook_phase41.py:843-985 | from an open stale period to any later sample the run holds an accepted snapshot and, after it, the applied delta that bridges it |
| `Capture.QueueStaysBounded` | bot/app/marketdata/orderbook_phase41.py:1781-1803 | the queue never exceeds its maximum |
| `BatchWriter.JsonlBatchWriter.EnqueueJsonl` | bot/app/marketdata/batch_writer.py:67-99 | stored if and only if there is room; a refusal counts one drop |
| `BatchWriter.JsonlBatchWriter.NextBatch` | bot/app/marketdata/batch_writer.py:147-159 | the oldest records up to the batch size, in order, are taken off the queue |
| `BatchWriter.JsonlBatchWriter.FlushBatch` | bot/app/marketdata/batch_writer.py:161-197 | the files are what one synchronous write for each record before the failure leaves |
| `BatchWriter.WriteAllAt` | bot/app/marketdata/batch_writer.py:206-225 | synchronous writes append to each path its own lines, in order, and touch no other path |
| `WriterProtocol.RecordsConserved` | bot/app/marketdata/batch_writer.py:67-111 | over every interleaving: accepted = handled, in-flight and queued, in order; handled = written unless a write failed; attempts = accepted + dropped + under way; the queue keeps its bound |
| `WriterProtocol.BatchingIsTransparent` | bot/app/marketdata/batch_writer.py:140-197 | without write errors the files are what one synchronous write for each finished record leaves, and each path holds its accepted lines in enqueue order |
| `WriterProtocol.CompletedCloseWroteAll` | bot/app/marketdata/batch_writer.py:101-111 | a completed close without write errors has written everything accepted when it was decided |
| `WriterProtocol.FailureWritesPrefix` | bot/app/marketdata/batch_writer.py:161-197 | a write that fails leaves exactly the batch's records before it in the files |
| `WriterProtocol.ErrorsLoseABatchAtMost` | bot/app/marketdata/batch_writer.py:161-197 | over every run the handled records that did not reach the files are at most one batch for each write error |
| `WriterProtocol.CloseLosesNothingIff` | bot/app/marketdata/batch_writer.py:101-111 | for an open, started writer without a write error and no call begun from there on: a close that ends well loses nothing, then or later, if and only if no call is about to put |
| `WriterProtocol.NothingLostLaterIff` | bot/app/marketdata/batch_writer.py:67-111 | after a close that ended well and lost nothing, later loss is ruled out if and only if no call is about to put |
| `WriterProtocol.ThreadEnds` | bot/app/marketdata/batch_writer.py:140-159 | a stopped thread comes to its end by itself with the queue empty |
| `WriterProtocol.NothingWrittenAfterExit` | bot/app/marketdata/batch_writer.py:140-145 | once the thread has left, the files stay as they are |
| `WriterProtocol.CallBegunBeforeCloseCanLose` | bot/app/marketdata/batch_writer.py:67-111 | a call begun before the close that puts after it loses its record although the flush counts as completed |
| `MarketSelection.SelectRuntimeMarketRoleOrder` | bot/app/marketdata/polymarket_discovery.py:1339-1377 | the markets and roles in order, equal to the specification of the selector by start time |
| `MarketSelection.SelectRuntimeMarketUniverse` | bot/app/marketdata/market_universe.py:396-435 | the markets and roles in order, equal to the specification of the selector by start text |
| `MarketSelection.TradableWindows` | bot/app/marketdata/polymarket_discovery.py:1173-1229 | a tradable market is current if and only if it has started, and warmed up or tracked if and only if it starts later |
| `StartTimes.EventStartDecides` | bot/app/marketdata/polymarket_discovery.py:1838-1844 | a tradable market is current in both selectors, and classified so, if and only if its event start has come; without it the listing's start decides, without both the slug's, and 0 last; to warm up or tracked if and only if it is later, by the duration |
| `StartTimes.TradableMeans` | bot/app/marketdata/polymarket_discovery.py:1173-1229 | tradability on the fields, and its agreement with the classes |
| `StartTimes.EarliestIsWarmedUp` | bot/app/marketdata/polymarket_discovery.py:1364-1375 | the market warmed up starts no later than any other future market of its group |
| `StartTimes.FirstTextIsWarmedUp` | bot/app/marketdata/market_universe.py:614-615 | the one the universe warms up comes first by event start text, else listing text, else slug, and then by id |
| `StartTimes.StringLeqMeans` | bot/app/marketdata/market_universe.py:614-615 | the order of texts is decided at the first difference |
| `StartTimes.RolesOfGroup` | bot/app/marketdata/polymarket_discovery.py:1359-1375 | how many markets a group gives and which role each place has |
| `StartTimes.KeyMeans` | bot/app/marketdata/polymarket_discovery.py:1393-1394 | two markets share a key if and only if ids and token ids are the same |
| `MarketSelection.SelectionMeaning` | bot/app/marketdata/polymarket_discovery.py:1339-1377 | both selections hold exactly what each market's own group gives it |
| `MarketSelection.GroupRolesMeaning` | bot/app/marketdata/polymarket_discovery.py:1359-1375 | in a group: every tradable started market as current, and a future market in the role its rank among the futures gives |
| `StableSort.RankPlaces` | bot/app/marketdata/polymarket_discovery.py:1361-1370 | a stable sort puts each element where the count of the elements that must precede it says |
| `StableSort.RankReaches` | bot/app/marketdata/polymarket_discovery.py:1361-1370 | every place of the sorted list is some element's rank |
| `MarketSelection.SelectorsAgreeIff` | bot/app/marketdata/market_universe.py:396-435 | with lookahead >= 1 and distinct markets the selectors choose the same markets in the same roles if and only if ranks by time and by text give each future the same role |
| `MarketSelection.SelectorsAgreeWhenTextFollows` | bot/app/marketdata/market_universe.py:614-615 | they agree whenever start texts order a group's futures as start times do |
| `MarketSelection.TextOrderCanDiffer` | bot/app/marketdata/market_universe.py:614-615 | two markets whose start texts carry different offsets, so that texts and times order them differently, and the selectors disagree |
| `MarketSelection.NoEarlierFutureLeftOut` | bot/app/marketdata/polymarket_discovery.py:1364-1375 | no tradable future market that is not selected starts before a selected one of its group |
| `Reselection.RuntimeSelectionIdempotent` | bot/app/marketdata/polymarket_discovery.py:1339-1377 | selecting among the selected markets gives the same markets, roles and order |
| `RuntimeMarkets.DedupePreferRuntime` | bot/app/marketdata/polymarket_discovery.py:971-989 | each key once, in first-met order, with its first tradable copy, or its first copy if none is tradable |
| `RuntimeMarkets.KeyOrderIsFirstSeen` | bot/app/marketdata/polymarket_discovery.py:971-989 | the keys kept before a key are exactly those met before its first copy |
| `RuntimeMarkets.DedupedKeys` | bot/app/marketdata/polymarket_discovery.py:971-989 | no key and no tradable key is lost, and no key is kept twice |
| `RuntimeMarkets.SelectRuntimeMarketKeyRoles` | bot/app/marketdata/polymarket_discovery.py:1307-1320 | the role dictionary holds under each key the last role listed for it |
| `RuntimeMarkets.AnnotateRuntimeMarketRoles` | bot/app/marketdata/polymarket_discovery.py:1257-1289 | every market in its place, marked with its class, role, signal flag and reason |
| `RuntimeMarkets.SelectRuntimeMarkets` | bot/app/marketdata/polymarket_discovery.py:1232-1254 | the annotated markets looked up by key in role order, duplicate keys included |
| `RuntimeMarkets.SelectionHasDistinctKeys` | bot/app/marketdata/polymarket_discovery.py:1339-1377 | among distinct keys no key is selected twice and only listed markets are selected |
| `RuntimeMarkets.RuntimeMarketsInRoleIff` | bot/app/marketdata/polymarket_discovery.py:1232-1254 | duplicate keys included: the selected markets are returned, each in its role, if and only if each selected key's last market and last role are the selected ones |
| `RuntimeMarkets.RuntimeMarketsInRole` | bot/app/marketdata/polymarket_discovery.py:1232-1254 | among distinct keys the look-ups by key return the selected markets in their roles |
| `StartTimes.SignalIsCurrent` | bot/app/marketdata/polymarket_discovery.py:1257-1289 | where look-ups are right, each returned market carries its role as reason, and its signal is enabled if and only if it has started |
| `StartTimes.UnselectedIsMarkedSo` | bot/app/marketdata/polymarket_discovery.py:1257-1289 | a market whose key is not selected is marked with its class only |
| `RuntimeMarkets.SelectingAgainChangesNothing` | bot/app/marketdata/polymarket_discovery.py:1232-1254 | where those look-ups are right, and so among distinct keys, `select_runtime_markets` is idempotent |
| `RuntimeMarkets.UntradableCopyIsReturned` | bot/app/marketdata/polymarket_discovery.py:1246-1254 | with a tradable copy followed by an untradable one of its key the untradable one is returned, and selecting again drops it |
| `MarketUniverse.DiffConserves` | bot/app/marketdata/market_universe.py:506-553 | previous keys less removed plus added are the current keys, tokens alike; removed and added are proper; expired and closed are disjoint parts of the removed |
| `MarketUniverse.RuntimeMarketUniverseManager.constructor` | bot/app/marketdata/market_universe.py:77-115 | the first universe, its difference from nothing, and zero counts |
| `MarketUniverse.RuntimeMarketUniverseManager.Refresh` | bot/app/marketdata/market_universe.py:150-265 | the whole state after an exception, an empty selection or a success |
| `MarketUniverse.SelectsIffTradable` | bot/app/marketdata/market_universe.py:396-435 | a selection is non-empty if and only if some market is tradable |
| `MarketUniverse.RunHoldsLastFound` | bot/app/marketdata/market_universe.py:150-265 | over every run: successes plus errors are the refreshes, a success is exactly a discovery with a tradable market, and the markets held are those of the last one |
| `MarketUniverse.UniverseIsEmptyOnlyUntilFound` | bot/app/marketdata/market_universe.py:150-265 | after a run the universe is non-empty if and only if it was before or some refresh succeeded |
| `MarketUniverse.FollowersStayInStep` | bot/app/marketdata/market_universe.py:506-553 | a reader that applies every reported difference always holds the universe's keys and token ids |
| `MarketUniverse.KeepingReportsNothing` | bot/app/marketdata/market_universe.py:190-250 | a refresh that fails reports no market and no token in or out |
| `UniverseMeaning.RefreshOutcomeMeans` | bot/app/marketdata/market_universe.py:150-265 | a refresh has no failure reason, and is the last success, if and only if it discovered a tradable market that has started; else the reason says what was missing |
| `UniverseMeaning.StartMeans` | bot/app/marketdata/market_universe.py:77-115 | the start counts as a success if and only if some market was tradable, with nothing counted or due |
| `UniverseMeaning.KeptRolesMean` | bot/app/marketdata/market_universe.py:194-203 | a kept market of distinct key is current if and only if it is tradable and has started |
| `UniverseMeaning.DueAgain` | bot/app/marketdata/market_universe.py:267-269 | after every run a refresh is due if and only if there was none or the interval since the last has passed |
| `UniverseMeaning.IntervalMeans` | bot/app/marketdata/market_universe.py:267-269 | the interval in whole seconds, one at least |
| `UniverseMeaning.ClosedListStaysEmpty` | bot/app/marketdata/market_universe.py:506-553 | over every run a removed market is listed as expired if and only if its end has passed, and none is ever listed as closed |
| `UniverseMeaning.TokensMean` | bot/app/marketdata/polymarket_discovery.py:927-928 | the token ids of a universe are those of its markets |
| `PolymarketLevels.SetLevelMeans` | bot/app/marketdata/polymarket_orderbook.py:1034-1038 | one dictionary entry is written or deleted, the others stay |
| `PolymarketLevels.SetLevelPositiveIff` | bot/app/marketdata/polymarket_orderbook.py:1034-1038 | a side of positive sizes stays so if and only if the new size is a number |
| `PolymarketLevels.LevelsToDict` | bot/app/marketdata/polymarket_orderbook.py:1020-1031 | equal to the fold of the rows into a dictionary |
| `PolymarketLevels.FromRowsPositive` | bot/app/marketdata/polymarket_orderbook.py:1020-1031 | a snapshot side holds each price once, with a positive size |
| `PolymarketLevels.LastPositiveRowWins` | bot/app/marketdata/polymarket_orderbook.py:1020-1031 | at each price the last positive row's size, whatever non-positive rows follow it |
| `PolymarketLevels.BestIsBest` | bot/app/marketdata/polymarket_orderbook.py:1041-1052 | the best level is a level of the side and none beats it |
| `PolymarketBook.SizesStayPositiveIff` | bot/app/marketdata/polymarket_orderbook.py:163-310 | any message leaves a book of positive sizes positive if and only if it is not a price change to a size that is no number |
| `PolymarketMeaning.RunStaysDistinct` | bot/app/marketdata/polymarket_orderbook.py:163-318 | over every run each side of each book holds each price once |
| `PolymarketMeaning.PriceChangeMeans` | bot/app/marketdata/polymarket_orderbook.py:214-224 | a price change writes or deletes one entry of the bids if it buys, of the asks if it sells, and touches nothing else of either side |
| `PolymarketMeaning.SnapshotMeans` | bot/app/marketdata/polymarket_orderbook.py:175-185 | after a whole snapshot each side holds at each price the last positive row of its own rows, and nothing is held against the book |
| `PolymarketMeaning.HalfSnapshotReplacesBids` | bot/app/marketdata/polymarket_orderbook.py:175-178 | a snapshot whose asks do not parse replaces the bids, keeps the asks and flags and gives no quote |
| `PolymarketMeaning.OthersWriteNothing` | bot/app/marketdata/polymarket_orderbook.py:258-310 | other messages write no level |
| `PolymarketMeaning.OtherTokensUntouched` | bot/app/marketdata/polymarket_orderbook.py:591-604 | a message touches the book of its token only |
| `PolymarketMeaning.FirstMessageMakesBook` | bot/app/marketdata/polymarket_orderbook.py:591-604 | a first message makes the book with the subscribed metadata or the market it names |
| `PolymarketMeaning.ChangeFlagsMean` | bot/app/marketdata/polymarket_orderbook.py:214-231 | the flags, the error and the overrides that a price change without reported prices leaves |
| `PolymarketMeaning.BestFlagsMean` | bot/app/marketdata/polymarket_orderbook.py:258-310 | the flags, the error and the overrides that a best-price message leaves before its prices count |
| `PolymarketMeaning.ReportMeans` | bot/app/marketdata/polymarket_orderbook.py:849-907 | what one reported price does to error, flags and override, by its distance from the local best |
| `PolymarketMeaning.BothErrorsMean` | bot/app/marketdata/polymarket_orderbook.py:794-847 | of two reports the ask's error is kept if it has one, else the bid's, else the error before |
| `PolymarketMeaning.QuoteMeans` | bot/app/marketdata/polymarket_orderbook.py:620-699 | a quote shows the best bid and the best ask with their sizes, or an override without size, and is complete if and only if nothing is held against a filled, uncrossed book |
| `PolymarketMeaning.QuoteErrorMeans` | bot/app/marketdata/polymarket_orderbook.py:1149-1170 | the error a quote carries, on the book's levels |
| `PolymarketMeaning.InvalidateMeans` | bot/app/marketdata/polymarket_orderbook.py:312-318 | exactly the books of the market are closed, every level stays |
| `PolymarketMeaning.SubscribeMeans` | bot/app/marketdata/polymarket_orderbook.py:142-161 | the last item of an active token gives its metadata, in its book too, and no count moves |
| `PolymarketMeaning.RetickMeans` | bot/app/marketdata/polymarket_orderbook.py:320-346 | exactly the token named or the tokens of the market get the tick size |
| `PolymarketBook.ChangesNeverComplete` | bot/app/marketdata/polymarket_orderbook.py:199-256 | a price change never ends a book's incompleteness |
| `PolymarketBook.SnapshotComesFirst` | bot/app/marketdata/polymarket_orderbook.py:163-310 | a book without a snapshot stays incomplete until a whole one arrives |
| `PolymarketBook.BothReportedShow` | bot/app/marketdata/polymarket_orderbook.py:794-898 | which override a side is left with after both reported prices |
| `PolymarketBook.BestMessageShowsLocalIff` | bot/app/marketdata/polymarket_orderbook.py:258-310 | after a best-price message the local best is shown if and only if the report equals it, or is let stand or missing while nothing else was shown |
| `PolymarketBook.CompleteQuoteCanShowOldOverride` | bot/app/marketdata/polymarket_orderbook.py:889-892 | a report let stand makes the quote complete while an older override stays in view |
| `PolymarketVenue.CountedTotals` | bot/app/marketdata/polymarket_orderbook.py:701-763 | each quote adds one to the totals and at most one mismatch, exactly when its own error is one |
| `PolymarketVenue.ReadinessCountsQuotes` | bot/app/marketdata/polymarket_orderbook.py:701-763 | over every run a token's counts are the complete, incomplete and mismatched quotes given for it |
| `PolymarketMeaning.QuoteIsCounted` | bot/app/marketdata/polymarket_orderbook.py:185-197 | a quote reads its rates from the counts before it and is then counted, as early if no snapshot came before |
| `PolymarketMeaning.RecordedErrorsMean` | bot/app/marketdata/polymarket_orderbook.py:701-763 | counting a quote adds one to the count of each reason it gives, and to the one for coming early |
| `PolymarketMeaning.TokenRatesMean` | bot/app/marketdata/polymarket_orderbook.py:992-996 | over every run a quote's token rates are the shares of mismatched and of complete quotes among those given before for its token |
| `PolymarketMeaning.MarketRatesMean` | bot/app/marketdata/polymarket_orderbook.py:998-1017 | and the market rates it publishes are the shares among the quotes given before that are counted under its market |
| `PolymarketMeaning.FirstQuotedUnder` | bot/app/marketdata/polymarket_orderbook.py:765-771 | a token first met in a quote is counted under the quote's market |
| `PolymarketMeaning.FirstListedUnder` | bot/app/marketdata/polymarket_orderbook.py:142-161 | a token first met in a subscription is counted under the market it is listed with |
| `PolymarketMeaning.StepKeepsMarket` | bot/app/marketdata/polymarket_orderbook.py:765-771 | no event moves a counted token to another market |
| `PolymarketRuns.QuotedRatesArePast` | bot/app/marketdata/polymarket_orderbook.py:992-996 | a quote publishes the rates of the quotes given before it for its token |
| `PolymarketRuns.PublishedRatesAreFractions` | bot/app/marketdata/polymarket_orderbook.py:992-1017 | over every run each published token and market rate lies between 0 and 1 |
| `PolymarketRuns.InvalidIff` | bot/app/marketdata/polymarket_orderbook.py:312-318 | over every run a market is invalid if and only if it was or has been marked so |
| `PolymarketRuns.InvalidMarketNeverComplete` | bot/app/marketdata/polymarket_orderbook.py:662-671 | once a market is marked invalid no later quote with its id is complete |
| `PolymarketRuns.CompleteNeedsSnapshot` | bot/app/marketdata/polymarket_orderbook.py:662-671 | no complete quote is given for a token before a whole snapshot of it has arrived |
| `PolymarketRuns.IncompleteUntilRefreshed` | bot/app/marketdata/polymarket_orderbook.py:199-256 | from an incomplete book on every quote of the token is incomplete until its next snapshot or best-price message |
| `PolymarketRuns.StepPositiveIff` | bot/app/marketdata/polymarket_orderbook.py:163-318 | one step of all the books leaves only positive sizes if and only if it is not a price change to a size that is no number |
| `PolymarketRuns.RunStaysPositive` | bot/app/marketdata/polymarket_orderbook.py:163-318 | so over every run without such a change |
| `PolymarketLocalOrderBook.LocalOrderBook.ApplyBook` | bot/app/marketdata/polymarket_orderbook.py:163-197 | the whole state and the quote after a snapshot, malformed rows included |
| `PolymarketLocalOrderBook.LocalOrderBook.ApplyPriceChange` | bot/app/marketdata/polymarket_orderbook.py:199-256 | the whole state and the quote after a price change, malformed numbers included |
| `PolymarketLocalOrderBook.LocalOrderBook.ApplyBestBidAsk` | bot/app/marketdata/polymarket_orderbook.py:258-310 | the whole state and the quote after a best-price message, malformed numbers included |
| `PolymarketLocalOrderBook.LocalOrderBook.ApplyOneReportedBest` | bot/app/marketdata/polymarket_orderbook.py:849-898 | the statements on one reported price give the book that the case analysis states |
| `PolymarketLocalOrderBook.LocalOrderBook.QualityRatesForMarket` | bot/app/marketdata/polymarket_orderbook.py:998-1017 | the loop over the rows sums exactly the rows of the market |
| `PolymarketLocalOrderBook.LocalOrderBook.RecordReadiness` | bot/app/marketdata/polymarket_orderbook.py:701-763 | the increments of one quote, in their order, are the record that the counts are proved of |
| `PolymarketLocalOrderBook.LocalOrderBook.MarkMarketInvalid` | bot/app/marketdata/polymarket_orderbook.py:312-318 | exactly the market's books are closed and the market joins the invalid ones |
| `PolymarketLocalOrderBook.LocalOrderBook.UpdateTokenMetadata` | bot/app/marketdata/polymarket_orderbook.py:142-161 | the active tokens' metadata, in the books too; readiness is added and never reset |
| `PolymarketLocalOrderBook.LocalOrderBook.UpdateTickSize` | bot/app/marketdata/polymarket_orderbook.py:320-346 | the tick size of exactly the tokens meant, in the books too |

## Left out

- Several symbols in one processor: one book and one symbol are modelled; envelopes of other symbols pass by, and symbols are compared as they are, without upper-casing.
- Parsing of decimals and floats: a level arrives as exact numbers, as a non-finite one, or as something that does not parse; prices of the prediction market are reals, its sizes may also be NaN.
- Floats of the rates, tick sizes and thresholds are reals; ages and thresholds of the order book are integers in nanoseconds instead of float milliseconds.
- Clocks are parameters, so the fallback to the system clock on a zero or missing time is not modelled.
- Readiness durations, warning times, `observe_ready_false` and the reasons kept for reports; wall-clock strings; latency, trace and debug rows; percentile reports.
- The before and after fields that an apply result repeats from the state.
- Processor.OrderbookPhase41Processor.CheckStalePeriods: processor-apply staleness and warnings after the capture are not modelled, because they count and log but change no book.
- Processor.OrderbookPhase41Processor.MaybeEmitOrBlockSample: the block counters by single error (mismatch, crossed, stale and the like) are not modelled, because nothing depends on them.
- Processor.OrderbookPhase41Processor.ProcessDepthUpdate: trace rows are not modelled.
- OrderbookQuality.ValidateWithState: the mismatch details beside the error codes are not modelled, because they only go into a report.
- OrderbookQuality.ValidateAlone: likewise without the mismatch details.
- OrderbookQuality.ValidateCleanSampleSchema: missing keys, ill-typed values and the wall-clock timestamp are not modelled, because the sample is typed here.
- The processor's and the lifecycle tracker's counter dictionaries are one record here.
- CutoffIsTight.SampleIsExactIffVouched: for a run in which an earlier snapshot reached deeper than the last one only the half of `DepthCutoff.VouchedSamplesShowTheExchange` is proved, because older messages may then tell more than the test uses.
- The queue backpressure monitor and `GapDetector`, which are not part of this model.
- HTTP, websockets and discovery requests: they appear as messages, snapshots and discovery outcomes that arrive at any time with any content.
- Liveness of recovery: retries are bounded in the program and only safety is proved.
- Write failures other than an exception at a record: a failing flush or close of a file handle, and the empty file an exception may leave. Two threads starting the writer at once, and changes to a row after it was handed over, are left out too.
- Stamped stage times and write metrics in a written row.
- MarketSelection.SelectRuntimeMarketUniverse: a negative lookahead, which would cut a list from its end, is not modelled; the manager never passes one.
- Parsing of start and end times: each market carries its texts and the seconds they parse to.
- The order of the lists in a universe difference, and its lists of current, next and future markets.
- MarketUniverse.RuntimeMarketUniverseManager.Refresh: the current markets' slugs, the attempt summary, the finer failure reasons and exceptions that the program does not catch are not modelled.
- MarketUniverse.RuntimeMarketUniverseManager.constructor: the current markets' slugs and the empty attempt summary are not modelled.
- Books of the prediction market are values in a map: no two tokens share a book there, and the objects' identity plays no part.
- Mismatch sample files, tick-difference statistics, first-seen times, staleness of quotes, mid price and spread, and the readiness report of the prediction market's books.
