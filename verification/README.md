# On-chain radar: a verified model

The repository watches swap and transfer logs on one chain, aggregates them into per-pool buckets, scores them, attests
the resulting signals on chain and streams them to browsers. This project models its stateful protocols and its
numeric core in Dafny and proves what each is for. `dafny verify dfyconfig.toml` checks everything.

| file | models |
|---|---|
| `Hub.dfy`, `IdChains.dfy`, `LiveFeed.dfy`, `LiveReplay.dfy`, `LiveHandlers.dfy` | the live feed: the broadcast hub, the tail, replay and streaming, reconnects with Last-Event-ID (sections 9.2.4 and 9.2.6 of the WHATWG HTML standard) |
| `TimeGrid.dfy`, `Aggregate.dfy`, `AggregateRuns.dfy`, `AggregateExact.dfy`, `AggregateDrain.dfy` | incremental aggregation against batch aggregation, under concurrent inserts and prunes and under the row cap |
| `SwapCodec.dfy` | the three swap payload formats |
| `Collector.dfy` | the crash-safe cursor loop, backfills, block-time interpolation |
| `MarketData.dfy` | price derivation over the pool graph |
| `Nonces.dfy` | the nonce manager under concurrent senders and a lagging node |
| `Attestation.dfy`, `RecoveryPass.dfy` | hot path, recovery and outcome attestation over one signals table |
| `Canonical.dfy` | the canonical string that is hashed and a decoder for it (string escapes as in section 7 of RFC 8259) |
| `RobustStats.dfy`, `Detector.dfy`, `Outcome.dfy` | median/MAD, bucket scoring, greedy replay selection, outcome grading |
| `LstFlow.dfy`, `SmartMoney.dfy` | per-actor LST aggregates; net-versus-gross directionality |
| `RateLimit.dfy`, `RateDue.dfy`, `RateSkew.dfy` | the token bucket and its janitor, also with clock readings out of order |
| `Common.dfy`, `Text.dfy` | shared helpers on options, sets, sequences and strings |

How things are modelled. A protocol is a state machine whose actions are the source's own effects (a read, a broadcast,
a write, a crash), and a run is any sequence of actions; disabled actions are skipped, so a theorem over every action
sequence is a theorem over every interleaving. What the node, the database and the network answer is part of the
action. Loops and objects are methods and classes proved equal to the functions the theorems are about. Amounts and
scores are reals, block and nonce numbers unbounded, times integers (nanoseconds where the source truncates them).

## Assumptions

- Live feed: signal ids become visible in increasing order; a connection on which a write failed fails every later write.
- Aggregation: no swap arrives before the newest window that is materialised or that a pass under way has read, and a
  prune deletes no swap at or after the last bucket's start. Each is shown to be exactly what every later complete pass
  needs (`AggregateExact.InsertIsSafeIff`, `AggregateExact.PruneIsSafeIff`). One aggregator runs at a time, beside any
  number of inserts. A key of raw_logs always names the same log. The window map is any grid; the aggregator's is one
  (`TimeGrid.TruncateIsGrid`).
- Collector: a block's tracked logs are fixed once it is deep enough to be final, and no log is of two blocks.
- Nonces: a pending view may lag but never runs ahead of the transactions on the wire.
- LST flow: a log's decoding and its actor do not change during a run, and one scanner runs at a time.
- Rate limiter: the exact conditions are for operations that take effect in the order of their clock readings. The code
  reads the clock before it takes the lock (internal/api/ratelimit.go:75, :119); with readings out of order by a bounded
  amount eviction stays invisible all the same (`RateSkew.SkewedEvictionInvisible`).
- Attestation: a stored signal has the timestamp and z-score it had in memory; signals are created in id order.

## Where the code and its comments differ

The model follows the code.

- internal/api/sse.go:91-93 says a failed MAX(id) read starts live with no replay; the code replays the oldest 20
  signals (`LiveFeed.FailedMaxReplaysOldest`).
- internal/api/server.go:275-317 runs concurrently with the listener, so a client can replay before the tail is seeded.
  It then loses a signal exactly when one it has not been sent is no newer than the id the tail is seeded at
  (`LiveFeed.LateSeedLosesIff`, with the run in `LiveFeed.SeedRaceLosesASignal`).
- internal/aggregate/aggregate.go:209-210 says the grid is anchored at the Unix epoch; `Truncate` anchors at the zero
  time, which is the same grid only for some widths (`TimeGrid.GridAnchor`).
- internal/store/queries.go:61-64 says the next pass drains what the row cap left. Repeated passes can drain it exactly when
  no window where the watermark may come to stand has, from it on, more rows than the cap and at least the cap's worth
  before every swap of a later window (`AggregateDrain.DrainsIff`; a stuck table for every cap in
  `AggregateDrain.FullWindowBlocks`).
- internal/chain/collector.go:220-221 says a backfill resumes at its first block; when that is block 0 it is skipped
  (`Collector.BackfillResumes`). `ocr backfill` is a process of its own beside the supervisor, and both set the one
  cursor: everything from the backfill's start to the cursor is and stays covered exactly when each scan in flight at
  the seed already has all of it behind it, so always when none is (`Collector.BackfillCoversIff`).
- internal/config/config.go:313-316 says only a baseline below 1 never fires; replay can fire exactly from 12 on
  (`Detector.ReplayCanFireIff`). internal/detect/detector.go:259-261 says replay fires what the live loop would;
  live asks for `warmup` buckets counting the candidate, replay without it (`Detector.LiveAgreesIff`).
- internal/detect/lstflow.go:111-112 calls first_at and last_at the earliest and latest transfer. They are, exactly when
  the opening transfer is the earliest and the one folded last the latest of those held (`LstFlow.SpanIsExactIff`); a
  fold keeps it so exactly when it adds no transfer earlier than the last (`LstFlow.FoldKeepsSpanIff`); a log stored
  late breaks it (`LstFlow.LateLogSwapsTheSpan`).
- Attestation is neither exactly-once nor, in the long run, at-least-once (cmd/ocr/main.go:1312-1322 calls the recovery
  loop self-healing). Recovery looks at the newest 500 rows, the one-shot command at the newest 10000. A signal is never
  sent again exactly when nobody holds its row as unattested and it is recorded or that many rows are newer
  (`Attestation.NeverSentAgainIff`); an unrecorded one can still be recorded exactly when fewer are newer, or some
  process holds it or has its hash to write (`Attestation.CanBeRecordedIff`).
- The canonical string is injective for every pool, also one that contains quotes (`Canonical.CanonicalIsInjective`).

## Model

| member | source | states |
|---|---|---|
| LiveHub.HubSafety | internal/api/hub.go:65-146 | over every run of subscribe, unsubscribe, broadcast, close and receive: registered iff open, at most 256 clients and 64 queued events each, every channel's history a prefix of the broadcasts since its subscribe (all of them while open) |
| LiveHub.ClosedForGood | internal/api/hub.go:85-146 | a closed channel stays closed and is never sent to again, over every continuation |
| LiveHub.BroadcastReach | internal/api/hub.go:101-121 | a broadcast queues the event on exactly the clients with room and closes exactly the full ones, reading nothing |
| LiveHub.Hub.SubscribeClient | internal/api/hub.go:65-80 | the object refuses exactly an open hub at 256 clients; on a closed hub it hands out an already closed channel; else a new open empty channel is registered beside the others |
| LiveHub.Hub.UnsubscribeClient | internal/api/hub.go:85-95 | a registered client is removed and its channel closed; for one dropped earlier nothing changes |
| LiveHub.Hub.BroadcastEvent | internal/api/hub.go:101-121 | whatever order the map is walked in, each client with fewer than 64 queued events gets the event and stays, each other one is dropped with its channel closed and its queue kept; the count is the clients that took the event |
| LiveHub.Hub.CloseHub | internal/api/hub.go:134-146 | closes every registered channel, queues kept, leaves those closed before alone, empties the hub; a second call changes nothing |
| LiveFeed.FeedIncreases | internal/api/sse.go:57-150 | in every interleaving the ids a browser was sent, over all its sessions, strictly increase and are committed |
| LiveFeed.CarefulFeedHasNoGaps | internal/api/sse.go:57-150 | in every interleaving in which a browser's replay reads succeed, the first after a good MAX(id) read against a seeded tail and the others with at most the replay limit (500 on a reconnect) of rows to the hand-over, what it was sent over all its Last-Event-ID sessions is a contiguous run of the deliverable signals |
| LiveReplay.FeedStartsTwentyBack | internal/api/sse.go:57-150 | in those interleavings what a browser holds is exactly the deliverable signals with id + 20 above the MAX(id) its last first connection read (all of them after a failed read), up to the newest it holds |
| LiveReplay.FirstReplayIff | internal/api/sse.go:80-117 | a row that was in the table at the MAX(id) read is in a first connection's replay iff its id + 20 exceeds every id there; rows committed in between follow while there is room in 20 |
| LiveReplay.ReconnectReplays | internal/api/sse.go:80-113 | a reconnect replays the 500 oldest rows after the last id the client holds |
| LiveReplay.QueryIsOldestAfter | internal/store/api_queries.go:385-402 | the bounded query returns the n oldest rows past an id, in order: it leaves one out only when full, and then a newer one |
| LiveReplay.PollTakesOldest | internal/api/server.go:294-303 | in every reachable state a poll of the tail takes the 200 oldest rows past its cursor |
| LiveReplay.DeliverMeans | internal/api/sse.go:119-142 | one turn of the streaming loop: an id behind the writer is passed over, a newer one written; the session ends iff the write fails or the channel is closed and drained |
| LiveFeed.FeedHasNoGapsIff | internal/api/sse.go:57-150 | in every interleaving at all, what a browser holds is such a run iff no id it holds was taken off its channel while a signal remained that only a replay could have sent |
| LiveFeed.DeliverySkipsIff | internal/api/sse.go:119-139 | in every reachable state, taking the next event skips a deliverable signal iff one lies between the last write and the later of the subscription and the tail's seed |
| LiveFeed.LateSeedLosesIff | internal/api/server.go:275-288 | a client that replayed before the tail was seeded loses a signal iff one it was not sent is no newer than the seed |
| LiveFeed.CoveredNeverLeaps | internal/api/sse.go:112-139 | a session whose replay read reached the hand-over, with the tail seeded, never skips while it can write |
| LiveFeed.CoveredIffReplayReaches | internal/api/sse.go:80-117 | a replay covers its session iff the read succeeded with the tail seeded and returned every signal up to the hand-over |
| LiveFeed.ReplayReaches | internal/store/api_queries.go:385-402 | the bounded catch-up query returns every signal up to the hand-over point iff at most `limit` (500 on a reconnect) signals lie between |
| LiveFeed.FirstConnectionIsCovered | internal/api/sse.go:80-110 | a first connection whose MAX(id) read succeeded against a seeded tail is covered once its replay read succeeds |
| LiveFeed.RecentWindow | internal/api/sse.go:90-98 | at most 20 signals have an id above MAX(id) - 20, so the first replay's limit never cuts them |
| LiveFeed.FailedMaxReplaysOldest | internal/api/sse.go:88-98 | after a failed MAX(id) read the replay is the oldest 20 signals |
| LiveFeed.SeedRaceLosesASignal | internal/api/server.go:275-317 | a run in which every read succeeds and a signal is lost, because the tail is seeded after the replay |
| LiveHandlers.ReplaySignals | internal/api/sse.go:156-183 | the replay loop equals the protocol's replay steps: the rows that render are written in order up to the first failed write, and the cursor is past everything got through |
| LiveHandlers.StreamLive | internal/api/sse.go:119-150 | the streaming loop equals the protocol's deliveries: what is written increases strictly past lastWritten, and without a write failure every newer event of an ordered channel is written |
| LiveHandlers.PublishRows | internal/api/server.go:290-315 | one poll's loop broadcasts the rows that marshal in order and leaves the cursor on the last row |
| AggregateRuns.IncrementalIsBatch | internal/aggregate/aggregate.go:118-207 | after any interleaving of keyed inserts, prunes and the single effects of passes (read the last bucket's time, read the rows, each upsert, end), every bucket before the last is exact, and whenever a pass that the cap did not truncate is through, the table is the batch computation over every log there was when it read; the history holds each key once |
| AggregateRuns.StepKeepsGood | internal/aggregate/aggregate.go:118-163 | each single effect, with a pass at any point and logs arriving meanwhile, keeps the invariant the theorem rests on |
| AggregateExact.InsertIsSafeIff | internal/store/queries.go:18-59 | every later complete pass is batch-exact after an insert iff the log's key is known (its row is there, or was and has been pruned), or it is no swap, or no earlier than the newest window materialised or read by a pass under way |
| AggregateExact.PruneIsSafeIff | internal/aggregate/aggregate.go:401-420 | every later complete pass is batch-exact after a prune iff it deleted no swap at or after the last bucket's start; a new log of a deleted swap's window brings the loss to light |
| AggregateDrain.NextMarkIsTheWatermark | internal/aggregate/aggregate.go:118-157 | the newest bucket after a finished pass is the newest window that pass read, or the old watermark where it read none or only older ones |
| AggregateDrain.PassMayAdvanceIff | internal/store/queries.go:70-120 | a finished pass can move the watermark iff fewer rows than the cap, from it on, are strictly earlier than some swap of a later window |
| AggregateDrain.PassMustAdvance | internal/store/queries.go:70-120 | whatever the order of ties, it moves when at most `cap` rows are no later than such a swap |
| AggregateDrain.DrainsIff | internal/store/queries.go:61-120 | repeated finished passes can reach one the cap does not truncate iff no window where the watermark may come to stand blocks |
| AggregateDrain.AlwaysDrains | internal/store/queries.go:61-120 | and any passes do when every such window is free counting ties |
| AggregateDrain.FullWindowBlocks | internal/store/queries.go:61-64 | for every cap, a table that no number of passes gets through |
| TimeGrid.GridAnchor | internal/aggregate/aggregate.go:209-214 | windows lie on the Unix-epoch grid iff the width divides the epoch's offset: 5 minutes does, 7 does not |
| TimeGrid.TruncateIsGrid | internal/aggregate/aggregate.go:209-214 | for every width the aggregator's windows are the stretches of that width from the zero time; they tile the time line, so the theorems about grids apply |
| Aggregate.SumAnyOrder | internal/aggregate/aggregate.go:167-207 | a bucket does not depend on the order of its logs |
| Aggregate.SumAddsUp | internal/aggregate/aggregate.go:167-207 | a bucket counts every swap log of its window, decodable or not; each amount is the total of that field over the logs that decode |
| Aggregate.BatchAddsUp | internal/aggregate/aggregate.go:118-207 | the same of any table that equals the batch computation: a bucket for exactly the windows with a swap |
| Aggregate.BucketOfSwaps | internal/aggregate/aggregate.go:167-302 | over logs that carry swaps in any of the layouts, volumes are the totals of in + out and net flows of out - in, per token |
| Aggregate.Bucketize | internal/aggregate/aggregate.go:167-207 | the loop yields one bucket per window with a swap; it counts the window's swap logs and totals each decoded amount, and equals the batch computation's |
| Aggregate.Table.ProcessPool | internal/aggregate/aggregate.go:118-163 | upserts the recomputed windows oldest first; a failed upsert leaves exactly a lower part of them written |
| SwapCodec.V2Decodes | internal/aggregate/aggregate.go:239-302 | a payload under the V2 topic decodes to the abstract swap, whatever words follow |
| SwapCodec.V3DecodesIff | internal/aggregate/aggregate.go:239-302 | a payload under the V3 or Agni topic decodes to the net amounts, and to the same swap iff each token moves one way |
| SwapCodec.LBDecodes | internal/aggregate/aggregate.go:330-347 | a payload of packed uint128 pairs under the Liquidity Book topic decodes to the same amounts |
| SwapCodec.LayoutOfTopic | internal/aggregate/aggregate.go:34-58 | which of the four topics selects which layout, and that nothing else is a swap |
| SwapCodec.CarriedDecodes | internal/aggregate/aggregate.go:239-347 | whichever of the layouts carries a swap, it decodes to that swap |
| SwapCodec.NetWithinGross | internal/aggregate/aggregate.go:239-302 | for any topic and any data that decodes, the absolute net flow is at most the volume |
| SwapCodec.TrailingWordsIgnored | internal/aggregate/aggregate.go:304-328 | appending words to a payload that decodes changes nothing |
| SwapCodec.PayloadRoundTrip | internal/aggregate/aggregate.go:304-328 | splitting a hex payload into words inverts writing it |
| SwapCodec.HexCaseIsIgnored | internal/aggregate/aggregate.go:304-328 | upper-case hex digits read as lower-case ones |
| SwapCodec.Int256RoundTrip | internal/aggregate/aggregate.go:350-358 | the two's-complement reader inverts the writer on the whole signed range |
| Collector.CollectorIsCrashSafe | internal/chain/collector.go:102-243 | over scans and backfills of any number of processes with a crash between any two steps: no log inserted twice, the cursor never past head minus confirmations or a backfill's seed, and, if each start block was set when the scans in flight had everything from it on behind them, every log from the start block to the cursor inserted |
| Collector.SoloIsCrashSafe | internal/chain/collector.go:102-202 | the supervisor alone meets that condition on every run, and its cursor never goes back |
| Collector.BackfillCoversIff | internal/chain/collector.go:209-243 | after a backfill's seed every continuation keeps everything from its start block to the cursor inserted iff each other scan in flight has it behind it; always when none is in flight |
| Collector.ChunksTile | internal/chain/collector.go:152-159 | the chunks of a scan partition its range in order, none empty or over 2000 blocks, all but the last of 2000 |
| Collector.InsertOnce | internal/store/queries.go:18-59 | inserting rows keeps keys distinct, keeps what is there and adds exactly the missing keys |
| Collector.Ingest.RunOnce | internal/chain/collector.go:102-202 | the loop, stopped after any number of chunks and rows: which chunks are done, where the cursor is, which rows are in |
| Collector.ScanIsARun | internal/chain/collector.go:102-202 | whatever that loop leaves is a state a process reaches by the single effects the theorems are about |
| Collector.BeginMeans | internal/chain/collector.go:102-146 | where a scan begins (one past the cursor, or 100 blocks behind the confirmed head) and ends, and when there is none |
| Collector.BackfillResumes | internal/chain/collector.go:209-243 | the scan resumes at the backfill's first block iff the head is above the lookback |
| Collector.BlockTimesAreOrdered | internal/chain/collector.go:276-288 | interpolated times lie between the two headers and keep the block order |
| Collector.BlockTimeIsLinear | internal/chain/collector.go:276-288 | between the headers the time is the straight line's, cut to a nanosecond toward the first header's; elsewhere the nearer header's |
| MarketData.DerivePrices | internal/marketdata/reader.go:150-192 | stops at a fixpoint within one pass more than there are pools; the priced tokens are exactly those a route from a stable reaches; every price is the product of spots along a route; stables stay 1, and every other priced token has a pool over which token0's price is token1's times the spot; no pool is read twice |
| MarketData.VisitPool | internal/marketdata/reader.go:165-188 | one pool's turn keeps every price, explains a new one by a route and leaves token0 priced at token1's price times the spot, makes progress when it reports a change, and reports none only when nothing is left to price across this pool |
| MarketData.PoolSpot | internal/marketdata/reader.go:198-213 | the cache, negative answers included, returns what the chain would and asks each pool at most once |
| MarketData.FixpointHoldsRoutes | internal/marketdata/reader.go:150-192 | every fixpoint that holds the stables holds every token a route reaches: the result is the least one |
| MarketData.PricedTokensAnyOrder | internal/marketdata/reader.go:150-192 | which tokens are priced does not depend on the pool order |
| MarketData.PricesAnyOrder | internal/marketdata/reader.go:150-192 | nor do the prices, when all routes to a token have the same product |
| MarketData.RoutePriceIsPositive | internal/marketdata/reader.go:165-188 | prices stay positive along any route |
| Nonces.NoncesUnique | internal/attest/nonce.go:61-90 | over every run of concurrent sends, lag, failures and restarts: no nonce is used twice iff the pending view was caught up at each send made while not known, and then they are contiguous |
| Nonces.NoncesIncreaseBetweenResyncs | internal/attest/nonce.go:61-90 | for any node at all, nonces strictly increase between resyncs |
| Nonces.PickIsLarger | internal/attest/nonce.go:68-73 | a send uses the larger of the node's view and the local nonce, when that is known |
| Nonces.SendIsOneStep | internal/attest/nonce.go:61-90 | the four steps under the mutex are the atomic send |
| Nonces.LaggingResyncReuses | internal/attest/nonce.go:76-84 | a lagging view after a failed broadcast reuses a nonce |
| Nonces.NonceManager.Send | internal/attest/nonce.go:61-90 | the object: which nonce is handed out and what is remembered after each outcome |
| Attestation.AttestationsAgree | cmd/ocr/main.go:889-985 | over all interleavings of hot path, recovery, grading, folds, note and status writes, retries and crashes: all broadcasts for a signal carry the same call, a recorded hash is one an accepted send for that signal returned, recovery never sends for a row it read as attested, no type outside [1, 255] is sent, and outcomes use the hash the signal is attested with |
| Attestation.BroadcastsCarryTheirRow | cmd/ocr/main.go:889-985 | over all interleavings each broadcast carries its row's type, lower-cased pool and score, and the hashed string reads back as the row's pool, type, reference (or metric, without one), score and time; so does the string an outcome is committed under |
| Attestation.HashNamesTheSignal | internal/store/queries.go:511-572 | two broadcasts share a hashed string iff they are of one row, or of two bucket signals without a bucket time with equal pool, type, metric and score |
| Attestation.StoredCallIsTheSame | cmd/ocr/main.go:980-985 | the call built from the signal in memory and from its stored row are the same |
| Attestation.NeverSentAgainIff | cmd/ocr/main.go:1235-1310 | in every reachable state, with recovery passes over the newest `scan` rows (500 for the loop, at most 10000), an attestable signal is never broadcast again iff neither a hot path before its send nor a recovery snapshot entry still ahead holds it unattested, and it is recorded or has at least `scan` newer rows |
| Attestation.CanBeRecordedIff | cmd/ocr/main.go:1323-1366 | and an attestable row can still come to be recorded iff it is, or fewer than `scan` rows are newer, or some process holds it or has its hash to write |
| Attestation.HandoverSendsTwice | cmd/ocr/main.go:1255-1310 | so exactly-once fails: a run in which hot path and recovery both send |
| Attestation.StepKeepsInv | cmd/ocr/main.go:889-966 | every single effect keeps the invariant the theorems rest on |
| RecoveryPass.Ledger.AttestPendingOnce | cmd/ocr/main.go:1255-1310 | the loop equals the pass function, and attested + skipped + failed is the total |
| RecoveryPass.Ledger.PersistAttestTx | cmd/ocr/main.go:831-849 | three tries at most: reports success iff a try did, and records iff some try was applied |
| RecoveryPass.PassRecords | cmd/ocr/main.go:1255-1310 | a pass changes attest_tx of exactly the rows it delivered, to the hash of their own send, and no other row |
| RecoveryPass.PassSends | cmd/ocr/main.go:1255-1310 | a pass broadcasts the calls of the attestable rows it read as unattested, in the order it read them, and nothing else |
| RecoveryPass.PassCounts | cmd/ocr/main.go:1255-1310 | attested counts the rows whose send was accepted, skipped those read as attested, failed all others |
| RecoveryPass.PassMarks | cmd/ocr/main.go:1295-1300 | a pass marks as submitted exactly the rows whose send was accepted and whose status write went through, recorded or not, and changes no other column |
| RecoveryPass.CleanPassAttestsAll | cmd/ocr/main.go:1235-1254 | at least once within the window: an attestable row with fewer than `limit` newer ones whose send and write go through is recorded |
| RecoveryPass.SecondPassIsSilent | cmd/ocr/main.go:1235-1254 | a second pass after a clean one sends nothing |
| RecoveryPass.PassIsARun | cmd/ocr/main.go:1255-1310 | a whole pass, whatever is answered, is a run of the interleaving model's single effects |
| Canonical.DecodeInvertsEncode | internal/attest/attestor.go:61-101 | a decoder recovers every field from the canonical string, the pool up to case |
| Canonical.CanonicalIsInjective | internal/attest/attestor.go:61-101 | equal strings mean equal fields, and a metric-keyed string never equals a ref-keyed one |
| Canonical.PoolCaseIsIgnored | internal/attest/attestor.go:61-101 | strings differing only in the pool agree iff the pools agree up to case |
| Canonical.TextIsRead | internal/attest/attestor.go:64-70 | unescaping inverts JSON string escaping |
| Canonical.ScoreOrder | internal/attest/attestor.go:105-117 | the score keeps the order of magnitudes, ignores the sign and saturates exactly from 655.345 on |
| Canonical.ScoreIsNearest | internal/attest/attestor.go:105-117 | the score is within one half of 100 times the magnitude, or the largest one |
| Canonical.CanonicalForm | internal/attest/attestor.go:61-101 | the documented compact form, key by key |
| Canonical.EscapeIsSafe | internal/attest/attestor.go:64-70 | escaped text holds no control character, angle bracket, ampersand or line separator as it is |
| Canonical.PlainTextIsKept | internal/attest/attestor.go:64-70 | text without such a character, a quote or a backslash stands as it is |
| Canonical.NumbersArePlain | internal/attest/attestor.go:72-76 | a minus sign for negative numbers only, no leading zero |
| RobustStats.MedianAndMAD | internal/detect/zscore.go:29-46 | the loop returns the median and the median distance from it of the samples as given |
| RobustStats.MedianMeans | internal/detect/zscore.go:48-59 | the median is the middle of any ascending arrangement, or halfway between the two middle samples |
| RobustStats.MadMeans | internal/detect/zscore.go:29-46 | the MAD is the median of the samples' distances, either way, from the median |
| RobustStats.Breakdown | internal/detect/zscore.go:29-59 | replacing fewer than half of the samples by anything keeps the median in the untouched samples' range and the MAD within its width |
| RobustStats.StatsAnyOrder | internal/detect/zscore.go:29-59 | neither statistic depends on the order of the samples |
| RobustStats.StatsScale | internal/detect/zscore.go:29-59 | both scale with the samples |
| RobustStats.ZScales | internal/detect/zscore.go:67-72 | the modified z-score does not change with the unit |
| Detector.ScoreBucket | internal/detect/detector.go:416-472 | the loop returns the first metric with the largest absolute z; none iff each metric is below its floor or within the threshold of its median on either side; a result holds the named metric's value, median, MAD and signed z |
| Detector.ScoreMeans | internal/detect/detector.go:416-472 | the same of the scoring function: when nothing fires, and what a result reports, in terms of the bucket's own fields |
| Detector.ScoreIsUnitFree | internal/detect/detector.go:416-472 | rescaling token0 and token1 amounts independently changes neither the metric that fires nor its z |
| Detector.SelectReplay | internal/detect/detector.go:356-400 | the loop over the history fires exactly the greedy selection |
| Detector.ReplayIsOptimal | internal/detect/detector.go:343-400 | fired buckets are admissible and pairwise a cooldown apart, every other admissible one lies within the cooldown after a fired one, and no such selection is larger |
| Detector.ReplayMeans | internal/detect/detector.go:343-400 | said of the history: every fired bucket stands out of its window, fired ones start at least the cooldown apart, and one that stands out but is not fired starts less than the cooldown after one that is |
| Detector.WindowMeans | internal/detect/detector.go:356-372 | a candidate's window is the up to baseline buckets just before it |
| Detector.WarmupMeans | internal/detect/detector.go:235-238 | the warmup is a quarter of the baseline, and at least 12 |
| Detector.StaysAhead | internal/detect/detector.go:375-397 | the k-th fired bucket is no later than the k-th of any other selection |
| Detector.SignalTable.ReplayPool | internal/detect/detector.go:260-335 | re-scoring never disagrees with the selection, and the rows and the reported keys are those of the selection, existing keys skipped |
| Detector.RowReports | internal/detect/detector.go:285-322 | a stored row is the fired bucket's: its start, the metric that fired, that metric's value, median, MAD and signed z, and the window's size |
| Detector.ReplayIsIdempotent | internal/detect/detector.go:309-322 | replaying again writes and reports nothing |
| Detector.ReplayIsUnitFree | internal/detect/detector.go:260-289 | a whole replay fires the same buckets in any units |
| Detector.LiveAgreesIff | internal/detect/detector.go:132-165 | live and replay admit the same bucket iff it is not a scoring bucket whose window is one short of the warmup |
| Detector.ReplayCanFireIff | internal/detect/detector.go:235-289 | for every threshold and cooldown some history in time order makes replay fire iff the baseline is at least 12 |
| Detector.ShortBaselineNeverFires | internal/detect/detector.go:235-238 | below 12 replay is silent on every history |
| Outcome.Score | internal/outcome/outcome.go:189-317 | the loops compute the card function, and nothing on too little data |
| Outcome.GradedIff | internal/outcome/outcome.go:189-213 | a card is drawn up iff the metric is known, there are three windows before and one after, and the median of the graded size before is positive |
| Outcome.CardMeans | internal/outcome/outcome.go:100-110 | mean, peak and share of the graded size (own count or volume; the flow's own token's volume; token0's for a whale swap) against that median, and for a net flow the mean signed flow of that token over what it fired on |
| Outcome.SubsMean | internal/outcome/outcome.go:228-262 | the sub-scores as percentages of their targets, clamped |
| Outcome.OutcomeIsUnitFree | internal/outcome/outcome.go:189-317 | rescaling the measured history and the payload's latest changes neither gradability nor facets, sub-scores, grade, letter or status |
| Outcome.FacetsAgree | internal/outcome/outcome.go:215-262 | peak at least mean; persistence positive iff the peak reaches the baseline; full persistence puts the mean at or above it |
| Outcome.GradeIsNearTheMean | internal/outcome/outcome.go:322-357 | the grade is the (renormalised) weighted mean to the nearest integer, in 0..100 without the clamp; the letter's ranges; confirmed iff the letter is A, B or C |
| Outcome.GradeIsMonotone | internal/outcome/outcome.go:236-341 | raising any facet never lowers grade or status |
| LstFlow.AggregatesAreSound | internal/detect/lstflow.go:185-233 | over any run of overlapping scans: at most one open aggregate per actor at the latest scan or later; refs distinct and the actor's own; count their number, total their sum; first_at and last_at the times of the opener and of the last fold; the opener stays the identity |
| LstFlow.SpanIsExactIff | internal/detect/lstflow.go:108-113 | over any run, first_at and last_at bound every transfer held iff the opener is the earliest and the last folded the latest |
| LstFlow.FoldKeepsSpanIff | internal/detect/lstflow.go:386-389 | a fold keeps the span exact iff its transfer is no earlier than last_at |
| LstFlow.LateLogSwapsTheSpan | internal/detect/lstflow.go:386-389 | a run that leaves first_at after last_at |
| LstFlow.NothingIsLost | internal/detect/lstflow.go:176-233 | every qualifying log a run scanned is held by some aggregate at its end |
| LstFlow.OpensOrFolds | internal/detect/lstflow.go:185-233 | a qualifying log is added to the one aggregate of its actor stored within the window, unless that holds it; where there is none it opens one of its own, unless it once did; nothing else changes |
| LstFlow.RescanChangesNothing | internal/detect/lstflow.go:362-399 | re-scanning logs that still-open aggregates hold changes nothing |
| LstFlow.ProcessIsNoOpIff | internal/detect/lstflow.go:185-233 | exactly when scanning a log again changes the table, expiry included |
| LstFlow.ExpiryCountsTwice | internal/detect/lstflow.go:185-233 | a run in which a folded log is counted again after its aggregate expired |
| LstFlow.LSTFlowDetector.ScanOnce | internal/detect/lstflow.go:147-249 | the loop equals the scan function and returns exactly the ids it opened |
| LstFlow.LSTFlowDetector.FoldIntoAggregate | internal/detect/lstflow.go:362-399 | adds the transfer iff its ref is not there, and says whether it did |
| SmartMoney.DirectionalityMeans | internal/detect/smartmoney.go:690-724 | in [0, 1] without the clamp; 1 iff some traded token's legs all have one sign; 0 iff every token's legs cancel, across pools and slots |
| SmartMoney.DirectionalityAnyOrder | internal/store/queries.go:1031-1077 | neither the order of the swaps nor of the query's rows shows |
| SmartMoney.ActorDirectionality | internal/detect/smartmoney.go:703-724 | the loop computes the largest share that does not cancel |
| SmartMoney.NetIsGrossIff | internal/store/queries.go:1031-1050 | net lies within gross, and meets either end iff no leg has the other sign |
| SmartMoney.SwapMoves | internal/store/queries.go:1022-1077 | one more swap moves its pool's token0 by net0 and token1 by net1 and no other token; one out of the actor, window or registry moves nothing |
| SmartMoney.RoundTripCancels | internal/store/queries.go:1022-1050 | a whole two-leg swap and its reverse, through any registered pools and slots, restore every token's net and lower no gross |
| SmartMoney.RoundTripNeverRaises | internal/detect/smartmoney.go:690-724 | so a round trip never raises the directionality |
| RateLimit.EvictionInvisibleIff | internal/api/ratelimit.go:71-135 | the janitor never changes an answer, over every clocked run, iff waiting out the idle TTL refills a burst |
| RateLimit.WindowBoundIff | internal/api/ratelimit.go:71-103 | burst + rate * T bounds the requests granted to one IP in every window of length T iff the same condition holds |
| RateDue.GrantedIff | internal/api/ratelimit.go:71-103 | under that condition a request is granted iff no window that ends with it has already used up burst + rate * T |
| RateDue.RefusalIsDue | internal/api/ratelimit.go:71-103 | for any limits a refused request finds some window used up |
| RateLimit.ServerBurstRefills | internal/api/server.go:136-138 | the server's burst of twice the rate meets the condition |
| RateSkew.SkewedEvictionInvisible | internal/api/ratelimit.go:71-135 | with readings out of order by at most d the janitor still changes no answer, if the idle TTL less twice d refills a burst |
| RateSkew.ServerToleratesSkew | internal/api/server.go:136-138 | the server's sizing tolerates 299 seconds of it |
| RateLimit.RateLimiter.AllowRequest | internal/api/ratelimit.go:71-103 | the object refills, caps and spends as the bucket function says |
| RateLimit.RateLimiter.Evict | internal/api/ratelimit.go:126-135 | drops exactly the buckets idle for longer than the TTL |
| RateLimit.NewRateLimiter | internal/api/ratelimit.go:53-66 | no limiter for a non-positive rate; a burst below the rate is raised to it |

## Left out

- Contexts, timeouts, backoff and cancellation: a cancelled loop is a run that stops there.
- Transports: Postgres, the RPC node, HTTP, headers, flushing and heartbeats; their success or failure is an input.
- Keccak, signing and ABI packing: statements are about the string that is hashed and the call's arguments; a subject address is taken up to the case of its hex digits.
- Floating point: rounding, NaN and infinities; so the finite-value guards and decimal-to-float conversions never act.
- The uint64 width of nonces and block numbers, and the error for a negative stored cursor.
- Case mapping and white space outside ASCII.
- Loops over all pools around one pool's pass, scan or replay: pools do not share rows.
- A restart of the API server in the middle of a run: hub and tail are those of one process.
- Cursor coverage from before a backfill's start, which may move the cursor forward past blocks never scanned.
- LstFlow.AggregatesAreSound: does not claim that a transfer is counted once across expiry, because the code does not give it (`LstFlow.ExpiryCountsTwice`).
- Attestation.AttestationsAgree: does not claim exactly-once, because the code does not give it; `Attestation.NeverSentAgainIff` says when a signal is not sent again.
- RateLimit.EvictionInvisibleIff: is about readings in order; for readings out of order `RateSkew.SkewedEvictionInvisible` gives a sufficient condition only, and `RateLimit.WindowBoundIff` is not stated for them.
- MarketData.PricesAnyOrder: gives one direction only, because a stable keeps its price of 1 whatever the spots of its pools say, so prices can be free of the order although some routes disagree.
- AggregateDrain.DrainsIff: takes the raw logs as they are, because new arrivals can both fill and unblock a window.
- Nonces.NoncesUnique: nothing is claimed for a view that runs ahead of the wire, because another process using the key could skip nonces.
- The outcome row's own attest_tx and its retry: the same shape as the signal's.
- The decoding, floor and pool filter of LST transfers, and display sizes in USD: the scan takes the decoded transfer.
- Live pool cooldown by wall clock, and the warmup loop over pools around the live score.
- The card's explanation text and its hash; score ramps, spot-price formulas and the smart-money weighting.
- Lending and depeg detectors, whale thresholds, clamps of query parameters, Telegram, enrichment, cards, discovery and configuration: easy members or presentation.
