# Umberrelay: verified model

Umberrelay is a DNS forwarder that logs every query, files it under a device or a source address, and shows the log
as charts and as a live stream. This project models the parts of it that hold state and proves, for every input, run or
interleaving, what those parts keep:

- **The store** (`QueryLog`, `Tallies`, `Rollups`, `Activity`, `Charts`, `Store`): the `queries` table and the hourly
  rollup table that three different mechanisms keep in step with it. The rollups are shown to equal the group-by of the
  log after every sequence of committed or failed transactions, and the charts read from them to equal direct counts.
- **The live stream** (`HubProtocol`, `HubInvariants`, `HubTheorems`, `HubLaws`, `HubObject`, `StreamHandler`,
  `Splice`): the fan-out hub as a step machine over an append-only log, one step for each short critical section,
  channel operation or unlocked read, with publishing a batch split into taking the mutex, offering each row and
  releasing it, so that readers take rows meanwhile; and the handler that splices a database snapshot onto a channel.
- **The writers** (`PipelineWriter`, `DeviceTracker`, `TrackerTheorems`, `WriteOrder`, `TrackerObject`): the batching
  query writer and the queued device writer, with the device merge rule and the order in which writes reach it.
- **The rate limiter** (`RateLimiter`), **the classifier** (`Classifier`), **the DHCP option walk** (`Dhcp`) and
  **the trend windows** (`Trends`). `Categories` follows category names from the callers that normalise them, through
  classifier, writer and store, to the panel that counts them.
- `EndToEnd` composes writer, store and hub: what a record's sender is owed at a subscriber's channel.

`Seqs` holds selection over sequences. Operations that change state in the program are methods of classes
(`Store.Database`, `HubObject.QueryStreamHub`, `RateLimiter.Limiter`, `PipelineWriter.Writer`,
`TrackerObject.Tracker`, `Classifier.Manager`), each proved equal to a function or step of the model; the properties
are lemmas about those functions and steps. Concurrency is modelled by the step machines: a run is any sequence of
steps, and a step that is not enabled does nothing. A database statement is its meaning on sequences and maps; a
transaction is atomic, and whether it commits is an input. Clock readings are inputs. Timestamps are integers of
nanoseconds, negative before 1970.

## Results that are not what one would expect

Each of these has a lemma at a failing input and a lemma with the exact condition.

- The backfill at open divides with SQL's truncation while the writer floors: it produces the right rollups exactly
  when no row lies strictly inside an hour before 1970 (`Store.BackfilledIff`; failing input
  `Store.BackfillCounterexample`). From then on no run disturbs them, whatever the timestamps.
- A daily chart is right for a log exactly when none of the actor's queries in its window lies in an hour before 1970
  other than a day's first (`Charts.DailyChartExactIff`; failing input `Activity.NegativeDayMiscounts`), and so for
  every log exactly when its window starts at or after 1970 (`Activity.DailyChartDirectIff`).
- A client that streams from a cursor is never sent a row at or below it, which is what the repository's README.md:257
  says of `after`. That it is sent every matching row above the cursor holds iff those between the cursor and the hub's
  number at most `limit`, or nothing has come over the channel yet (`Splice.ClientStreamExactIff`; failing input
  `Splice.LongBacklogLeavesGap`). Without a cursor it always holds (`Splice.FreshClientStreamExact`).
- No wakeup is lost, but a hub with nothing pending has published everything iff its last poll did not end in a failed
  fetch with rows still to read, or nobody listens (`HubTheorems.QuiescentHasPublished`; failing input
  `HubTheorems.FetchErrorStrandsRows`). The next commit recovers the rows (`HubTheorems.NextCommitRecovers`).
- A discovery sent after the device writer's drain has ended stays in the queue for good, and only such a one does
  (`TrackerTheorems.AllStoredIff`; failing input `TrackerTheorems.StrandedSave`).
- The direct write taken when the device queue is full or the writer not yet active can overtake queued ones of the
  same MAC. A MAC's discoveries are applied in the order accepted iff none of its direct writes was made while one of
  its own rows was buffered or queued (`WriteOrder.MacInOrderIff`), and its last_seen ends up that of the last accepted
  iff that one was not such a write (`WriteOrder.LastSeenIff`; failing input `WriteOrder.DirectWriteOvertakes`).
- After a restart whose override listing fails, memory holds exactly the stored overrides edited since, and equals the
  store iff that is all of them (`Classifier.MemoryIsKnownPart`, `Classifier.MemoryEqualsTableIff`; failing input
  `Classifier.FailedRestartForgets`).
- A refusal extends its source's record iff the previous refusal is less than an hour before the *current second's
  first call*, not before the refusal itself (`RateLimiter.RefusalExtendsIff`; an extension after more than an hour is
  `RateLimiter.HourPassedStillExtends`).

The list-match panel would leave out a row with a category outside the known six (`Trends.PanelConservesIff`,
`Trends.ForeignRowMissing`), but only foreign data can hold one: nothing the program writes does, so on its own data the
panel always accounts for every current query (`Categories.PanelAlwaysConserves`).

## Model

| member | source | states |
|---|---|---|
| QueryLog.BetweenIsExact | internal/store/db.go:421-460 | The interval of an id-ordered log above one cursor and up to another holds exactly the rows with such ids, each once and in order. |
| QueryLog.FiltersAgree | internal/web/api.go:703-724 | For every row and filter, the SQL conditions of the snapshot accept the row exactly when its id is past the cursor and the in-memory stream test accepts it. |
| QueryLog.FilterSelects | internal/store/db.go:428-448 | Both tests select the rows of the filter's source without a MAC, or of its device when no source is given, of its domain and of its category, where uncategorized takes the empty one along and an empty field selects all. |
| QueryLog.LatestIsMax | internal/store/db.go:415-419 | The latest id is the largest one in the log, and zero for an empty log. |
| QueryLog.TrackingTestsAgree | internal/store/db.go:26-33 | The Go switch and the SQL set accept the same categories, so incremental counts and group-bys agree. |
| Tallies.TrackersAreThree | internal/store/db.go:17 | A tracker count is the sum of the counts of tracking, advertising and malware, and of nothing else. |
| Rollups.FloorHour | internal/store/db.go:316 | The hour an instant is filed under starts at most one hour before it and is a whole hour, also before 1970. |
| Rollups.RolledRowExistsIffPositive | internal/store/db.go:590-608 | A rollup row exists exactly when its group has a query, and then holds the group's total and tracker counts. |
| Rollups.CountRowsIsMerge | internal/store/db.go:310-349 | Aggregating a batch on its own and adding the result equals counting the rows into the table one by one. |
| Rollups.CountRowsKeepsView | internal/store/db.go:312-332 | Counting rows into the rollups of a log gives the rollups of the longer log. |
| Rollups.HourSlice | internal/store/db.go:590-608 | The group-by of one hour's rows is that hour's slice of the rollups of the whole log. |
| Rollups.PurgeKeepsView | internal/store/db.go:569-582 | Deleting any set of rows and rebuilding only the hours they were in gives the rollups of the rows that remain. |
| Rollups.BackfillIsViewIff | internal/store/db.go:52-63 | The backfill's group-by equals the rollups exactly when no row lies strictly inside an hour before 1970. |
| Rollups.BackfillMiscounts | internal/store/db.go:52-63 | Any log with such a row is misfiled by the backfill. |
| Store.Aggregate | internal/store/db.go:310-332 | The batch loop's map is the row-by-row count of the batch. |
| Store.UpsertAll | internal/store/db.go:334-349 | Upserting the map's entries in any order adds every entry to its row. |
| Store.Database.constructor | internal/store/db.go:35-65 | Opening fills the rollups by the SQL group-by only when they are empty beside a non-empty log, and otherwise changes nothing. |
| Store.Database.WriteQueries | internal/store/db.go:285-351 | A committed batch leaves the old rows as they are and appends its own, each equal in every field but the id, with consecutive fresh ids; it counts each once, so exact rollups stay exact; a failure or an empty batch changes nothing. |
| Store.SelectOldestStale | internal/store/db.go:533-560 | A chunk is at most 900 stale rows, as many as there are up to that, with no older stale row left out. |
| Store.Database.PurgeChunk | internal/store/db.go:526-588 | A committed chunk deletes exactly the oldest stale rows, at most 900 and all of them if fewer, reports their number and rebuilds only their hours; a failed one changes nothing. |
| Store.Database.PurgeQueriesOlderThan | internal/store/db.go:515-524 | The loop ends; without an error exactly the rows at or after the cutoff remain, unchanged, and the returned total is the number removed; in step rollups stay in step, also after a failure part-way. |
| Store.PurgeRemovesStale | internal/store/db.go:533-575 | A chunk lowers the number of stale rows by its size and leaves every other row. |
| Store.WriteKeeps | internal/store/db.go:285-351 | A write keeps ids ordered and unique and keeps exact rollups exact. |
| Store.PurgeKeeps | internal/store/db.go:526-588 | So does a purge chunk, also one that splits an hour. |
| Store.OpenKeeps | internal/store/db.go:35-65 | Reopening leaves tables that are in step exactly as they are, whatever their timestamps. |
| Store.RunKeepsRollups | internal/store/db.go:285-608 | Every sequence of writes, purge chunks and reopens, each committing or not, keeps the rollups equal to the group-by of the log. |
| Store.BackfilledIff | internal/store/db.go:35-65 | Opening a file without rollups brings them in step exactly when no row lies strictly inside an hour before 1970. |
| Store.BackfillCounterexample | internal/store/db.go:55 | One row half an hour before 1970 puts the backfilled rollups out of step. |
| Store.RollupInvariant | internal/store/db.go:35-65 | From such a file, after any run, a rollup row exists iff its group is non-empty and holds the group's direct counts. |
| Activity.SumByGroup | internal/store/db.go:475-499 | The chart query's result has a row for each group with a matching rollup row, holding the sums of the matching rows and nothing else. |
| Activity.HourBarIsDirect | internal/store/db.go:462-510 | For every log, actor and hour, the rollup rows the chart sums give the direct counts of the actor's queries in that hour. |
| Activity.OneDay | internal/store/db.go:1335-1366 | For a window from 1970 on, SQL's day key and lower bound select exactly the hours of one UTC day. |
| Activity.DayBarIsDirect | internal/store/db.go:1323-1371 | So each day's bar is the direct count over that day. |
| Activity.DailyChartDirectIff | internal/store/db.go:1323-1371 | The daily chart is right for every log exactly when its window starts at or after 1970. |
| Charts.DailyChartExactIff | internal/store/db.go:1335-1366 | For each log, the daily chart is right exactly when no matching query in its window lies in an hour before 1970 other than a day's first. |
| Charts.FiledIff | internal/store/db.go:1336 | A day's bar gets its own hours but the misplaced ones, and the misplaced ones of the day before that the window still selects. |
| Charts.ModernChartDirect | internal/store/db.go:1323-1371 | A chart read off in-step rollups whose window starts from 1970 on is direct. |
| Activity.NegativeDayMiscounts | internal/store/db.go:1336 | For every earlier window, a single query one hour into its first day is missing from the chart. |
| Store.Database.HourlyActivity | internal/store/db.go:462-510 | 24 whole hours, each starting an hour after the one before, the last containing the present instant; each bar is the sum of its rollup rows, and the direct count when the rollups are in step. |
| Store.Database.DailyActivity | internal/store/db.go:1323-1371 | n whole UTC days, each starting a day after the one before, the last containing the present instant; each bar is the sum of its rollup rows, and when the rollups are in step all bars are direct counts exactly when no query of the actor in the window is misfiled. |
| Store.Database.RangedActivity | internal/store/db.go:1310-1321 | The ranges "" and 24h give 24 hours, 7d and 30d so many days, each up to and including the current one, with its own widths, sums and exactness condition; any other range is an error. |
| Activity.AttributionConserves | internal/store/db.go:146-158 | Over any set of device and source actors that covers a span, the actors' direct totals and tracker counts add up to the whole network's. |
| Activity.SharesRowIff | internal/store/db.go:316-328 | Two queries are counted in the same rollup row exactly when they have the same actor, a device by its MAC whatever its address, and the same hour. |
| Charts.BarsConserve | internal/store/db.go:146-158 | In any rollup table, in step or not, the bars of actors that cover its rows add up to the whole network's bar, total and tracker, because each row belongs to exactly one actor. |
| Charts.HourlyChartsConserve | internal/store/db.go:462-510 | So the hourly charts of covering actors add up to the network's, hour by hour. |
| Charts.DailyChartsConserve | internal/store/db.go:1323-1371 | And the daily charts, day by day. |
| HubInvariants.StepKeeps | internal/web/query_stream_hub.go:90-188 | Every step of the hub, its loop, its subscribers and its writers keeps the protocol's invariant, in any interleaving. |
| HubInvariants.ReachableInv | internal/web/query_stream_hub.go:54-188 | So every reachable state satisfies it. |
| HubInvariants.PublishRowsKeeps | internal/web/query_stream_hub.go:160-177 | Publishing rows fetched earlier, though the cursor may have moved since, extends every open channel without a gap or a repeat. |
| HubInvariants.FetchIsNext | internal/web/query_stream_hub.go:151 | An unlocked fetch returns the next rows after its cursor, without a gap. |
| HubTheorems.ChannelSafety | internal/web/query_stream_hub.go:66-73 | Over every run, a channel is closed at most once, never sent to after closing, and is in the subscriber map exactly while open. |
| HubTheorems.FanOutExact | internal/web/query_stream_hub.go:140-185 | A registered subscriber has been sent exactly the rows with id above its start and up to the hub's cursor, in order and once each. |
| HubTheorems.ClosedGotPrefix | internal/web/query_stream_hub.go:117-173 | A subscriber that left or was evicted got a prefix of the rows after its start. |
| HubTheorems.QuiescentHasPublished | internal/web/query_stream_hub.go:54-64 | With a running loop and no wake token, poll or notifier outstanding, every row has been published if and only if nobody listens or the last poll did not end in a failed fetch with rows still to read; also after polls that stopped at the batch cap. |
| HubTheorems.QuiescentDelivered | internal/web/query_stream_hub.go:140-188 | Then a registered subscriber has been sent every row of the log after its start if and only if no row was so stranded. |
| HubTheorems.FetchErrorStrandsRows | internal/web/query_stream_hub.go:151-155 | A run in which one failed fetch leaves an announced row unpublished with nothing pending. |
| HubTheorems.LoopStepProgress | internal/web/query_stream_hub.go:54-64 | Each step of a running loop that is not quiescent lowers the work ahead of it. |
| HubTheorems.Drains | internal/web/query_stream_hub.go:140-188 | From every good running state the loop's own steps, with fetches that succeed, lead to a quiescent state, so renotification never spins. |
| HubTheorems.LoopDelivers | internal/web/query_stream_hub.go:140-188 | From every reachable running state, unless rows are stranded with nothing pending, those steps lead to one where every still registered subscriber has been sent the whole log after its start. |
| HubTheorems.NextCommitRecovers | internal/web/query_stream_hub.go:128-138 | From every reachable running state, stranded or not, one more commit is enough for that. |
| HubTheorems.ZeroBatchNeverDelivers | internal/web/query_stream_hub.go:31-41 | With a batch size of zero no subscriber is ever sent anything, which is why the other results ask for a positive one. |
| HubLaws.SendIsExact | internal/web/query_stream_hub.go:160-173 | Over every run, a row past the cursor reaches a subscriber exactly when fewer than 256 rows are unread in its channel; one with 256 unread is closed and removed, and nothing else changes any channel. |
| HubLaws.PublishFansOut | internal/web/query_stream_hub.go:160-177 | With no reads in between, a batch leaves a subscriber registered exactly when its unread rows and the batch's rows past the cursor fit in 256 together; then it has got all of them, and otherwise those that filled its channel, which is closed once. |
| HubLaws.BatchFansOut | internal/web/query_stream_hub.go:160-177 | So it does in every reachable state that is about to publish a fetched batch. |
| HubLaws.ClosedOnlyBy | internal/web/query_stream_hub.go:117-173 | Over every run, a subscriber is removed only by leaving, by shutdown, or by a row that finds exactly 256 unread. |
| HubLaws.UnlockDecides | internal/web/query_stream_hub.go:147-187 | After a batch the poll fetches on, from the hub's cursor, exactly when the batch was full, someone listens and it was the first or second; after a third such batch it wakes itself, and otherwise it ends. |
| HubLaws.MutexExcludes | internal/web/query_stream_hub.go:160-177 | While the loop holds the mutex no other step changes the map, the cursor or what a channel has been sent. |
| HubLaws.ConsumeTakesOne | internal/web/api.go:311-337 | A reader takes one sent row at a time from its own channel, also while the loop publishes. |
| HubLaws.SubscribeStarts | internal/web/query_stream_hub.go:90-107 | A new channel is registered, open and empty; the first subscriber's starts at the latest id of the log, any other's where the hub stands; no other channel changes. |
| HubLaws.SubscribeFails | internal/web/query_stream_hub.go:93-99 | A failed id read changes nothing, and does not matter when someone is already subscribed. |
| HubLaws.LeaveCloses | internal/web/query_stream_hub.go:117-126 | Leaving takes exactly that subscriber out of the map and closes its channel, once and with nothing further sent. |
| HubLaws.ShutdownClosesAll | internal/web/query_stream_hub.go:66-73 | After shutdown the map is empty and every channel ever opened has been closed exactly once. |
| HubObject.QueryStreamHub.SubscribeLocked | internal/web/query_stream_hub.go:90-107 | Subscribing is the protocol's step: a new open channel joins the map, only the first subscriber moves the cursor, and it fails exactly when that one's id read fails. |
| HubObject.QueryStreamHub.Unsubscribe | internal/web/query_stream_hub.go:117-126 | Leaving takes exactly that id out of the map and closes its channel if it is still registered, and is a no-op otherwise. |
| HubObject.QueryStreamHub.NotifyNewQueries | internal/web/query_stream_hub.go:128-138 | Notifying fills the one-slot wake channel unless the hub is stopping. |
| HubObject.QueryStreamHub.CloseAllSubscribers | internal/web/query_stream_hub.go:66-73 | Shutdown empties the map and closes exactly the registered channels, each once. |
| HubObject.QueryStreamHub.FanOut | internal/web/query_stream_hub.go:165-173 | A subscriber stays registered and is sent the row exactly when fewer than 256 rows wait in its channel; otherwise it is closed and removed, and no other channel changes, in any map order. |
| HubObject.QueryStreamHub.PublishBatch | internal/web/query_stream_hub.go:160-177 | The locked loop publishes the batch's rows past the cursor, in order. |
| HubObject.QueryStreamHub.PollOnce | internal/web/query_stream_hub.go:140-188 | A whole poll is a run of the protocol's loop steps, ending parked, with at most three fetches; it wakes itself only after three, and strands rows only if a fetch failed and rows are left to read. |
| StreamHandler.WriteQueryStreamBatch | internal/web/api.go:663-694 | Rows are written in order until the connection fails; the returned id is the last one written, or zero, and the error says whether a row was left. |
| StreamHandler.HandleQueryStream | internal/web/api.go:299-338 | The handler's writes are the snapshot followed by the received rows past its moving cursor that match, cut off where the connection fails. |
| Splice.StreamedIsFilter | internal/web/api.go:311-337 | On rows in id order, the moving cursor drops nothing but rows at or below the starting one. |
| Splice.SnapshotExact | internal/store/db.go:421-460 | A snapshot of at most `limit` rows holds every owed row up to its last one, or, when short, up to the end of the log. |
| Splice.EventsIncrease | internal/web/api.go:320-335 | Whatever the backlog, a client's events have strictly increasing ids. |
| Splice.SpliceExactIff | internal/web/api.go:267-338 | For any log, cursor, subscription point and filter, the events are exactly the owed rows iff the backlog fits in the snapshot or nothing has arrived on the channel. |
| Splice.ClientStreamExactIff | internal/web/api.go:267-338 | The same over every run of the hub around a subscription, made whenever the mutex is free, a snapshot and any later reads. |
| Splice.LongBacklogLeavesGap | internal/web/api.go:282-306 | A run in which a client with an old cursor and limit 1 gets a stream with a gap. |
| Splice.FreshClientStreamExact | internal/web/api.go:274-280 | A client without a cursor gets exactly the matching rows from its start on, in every run. |
| RateLimiter.Limiter.Allow | internal/dns/ratelimit.go:34-58 | Each call answers and updates the counters and records as a function of the call history alone, whatever the order of times; in time order, it allows exactly when fewer than 100 earlier calls of the source were allowed in the same whole second. |
| RateLimiter.Limiter.Refusals | internal/dns/ratelimit.go:60-71 | Exactly the records less than an hour old, each source once, most refused first. |
| RateLimiter.AllowsIffUnderLimit | internal/dns/ratelimit.go:37-49 | With times in order, a call in the whole second from k to k + 1 is allowed iff fewer than 100 earlier calls of its source were allowed in that half-open second. |
| RateLimiter.WindowBound | internal/dns/ratelimit.go:11 | No whole second, from k up to k + 1, sees more than 100 allowed calls of a source. |
| RateLimiter.SlidingBound | internal/dns/ratelimit.go:37-49 | No half-open interval of one second sees more than 200. |
| RateLimiter.SourcesIsolated | internal/dns/ratelimit.go:46-49 | A source's calls get the answers they would get if no other source called. |
| RateLimiter.RecordKeptIff | internal/dns/ratelimit.go:37-45 | A record exists exactly when the source's last refusal was less than an hour before the current window's first call, and carries that refusal's time. |
| RateLimiter.RefusalExtendsIff | internal/dns/ratelimit.go:50-57 | A refusal adds one to the record and keeps its first time exactly in that case, and starts a fresh record otherwise. |
| RateLimiter.EpisodeBounds | internal/dns/ratelimit.go:37-57 | Refusals less than an hour apart always share a record; a gap of an hour and a second less a nanosecond, or more, never does. |
| RateLimiter.StretchedEpisode | internal/dns/ratelimit.go:37-57 | Whenever a second opens within an hour of a refusal, a refusal later in it extends the record, though more than an hour has passed. |
| RateLimiter.HourPassedStillExtends | internal/dns/ratelimit.go:37-57 | A history in which a refusal 3600.3 seconds after the source's previous one extends its record. |
| RateLimiter.CountsRefusalsSinceFirst | internal/dns/ratelimit.go:50-57 | A record's count is the number of refusals of its source since its first. |
| RateLimiter.ListedIffRefusedRecently | internal/dns/ratelimit.go:60-71 | Asked after the last call, a source is listed exactly when it was refused less than an hour ago. |
| PipelineWriter.EnrichedForActor | internal/pipeline/writer.go:71-82 | An enriched record keeps its own source, domain, type and time, has the MAC cached for its address or none, and the category looked up for its domain; it counts for its device when there is one and for its source address otherwise. |
| PipelineWriter.WriterConserves | internal/pipeline/writer.go:32-69 | For every run, the batches handed to the store followed by the buffer are the received records, enriched, in order and once each. |
| PipelineWriter.BatchesBounded | internal/pipeline/writer.go:53-66 | Before a shutdown drain, every batch is non-empty and within BatchSize (one record for a size of zero), and the buffer is always below it. |
| PipelineWriter.DrainHandsOneBatch | internal/pipeline/writer.go:39-51 | A cancellation hands over the buffer and everything queued as one batch, if there is any, and ends the run. |
| PipelineWriter.ReceiveHandsFullBatch | internal/pipeline/writer.go:53-60 | A received record waits in the buffer until that has BatchSize rows, and then the whole buffer is handed over at once. |
| PipelineWriter.OnlyFullBatches | internal/pipeline/writer.go:53-60 | While only records arrive, every batch handed over has exactly BatchSize rows, or one for a size of zero. |
| PipelineWriter.NothingWaits | internal/pipeline/writer.go:61-65 | After a tick and after the end of the run the buffer is empty. |
| PipelineWriter.StoredIsCommitted | internal/pipeline/writer.go:84-93 | However rows were batched and whichever writes failed, the tables are those of one transaction over the committed batches; a failed batch is lost whole and nothing else is. |
| PipelineWriter.FinishedRunStoresAll | internal/pipeline/writer.go:32-69 | A finished run whose writes commit leaves the old rows and appends one row for each received record, in order, with that record's fields, cached MAC, looked-up category and the next id, and keeps the rollups exact. |
| PipelineWriter.NoticesFollowCommits | internal/pipeline/writer.go:91-97 | OnFlush fires once for each committed batch and for no other, when exactly the committed batches so far are in the log. |
| PipelineWriter.Writer.Run | internal/pipeline/writer.go:32-69 | The select loop hands over the batches, leaves the tables and fires OnFlush as the run's functions say, for all events and commit outcomes. |
| PipelineWriter.Writer.Flush | internal/pipeline/writer.go:84-98 | A flush writes a non-empty batch and announces it exactly when the write commits. |
| DeviceTracker.BatchingIsIrrelevant | internal/store/db.go:194-219 | Two splits of the same writes into batches leave the same table. |
| DeviceTracker.HasRowIff | internal/store/db.go:221-228 | A MAC has a row exactly when it had one or was written. |
| DeviceTracker.RowAfterWrites | internal/store/db.go:221-228 | After any writes the label is untouched, first_seen is the first write's, ip, hostname and vendor are the last non-empty values given, and last_seen is the last write's; other MACs' writes do not matter. |
| DeviceTracker.StepKeeps | internal/device/tracker.go:60-120 | Every step of savers and writer, in any interleaving, keeps the queue path first in, first out, every save accounted for once, the limits of 1024 queued and 64 buffered, and batches of 1 to 64. |
| DeviceTracker.ReachableInv | internal/device/tracker.go:60-120 | So every reachable state satisfies it. |
| TrackerTheorems.NothingLost | internal/device/tracker.go:60-72 | While saves succeed, every discovery is stored, buffered, queued or in flight, once, also when a full queue falls back to a direct write. |
| TrackerTheorems.SavedHasRow | internal/device/tracker.go:60-72 | A saved device that is no longer pending has a row. |
| TrackerTheorems.TickStores | internal/device/tracker.go:116-117 | A tick of a running writer empties the buffer into the table in one transaction, or, if that fails, loses exactly the buffer. |
| TrackerTheorems.ReceiveStoresAt64 | internal/device/tracker.go:111-115 | Over every run, a received discovery joins the buffer, and the buffer is stored exactly when it has reached 64. |
| TrackerTheorems.OfferQueuesBelow1024 | internal/device/tracker.go:60-67 | Over every run, a save that found the writer active is queued exactly when fewer than 1024 are, and falls through to a direct write otherwise. |
| TrackerTheorems.TickLeavesNothing | internal/device/tracker.go:94-117 | Over every run whose writes succeed, after a tick every discovery saved is in the table, queued or in flight: nothing taken from the queue is unstored. |
| WriteOrder.InOrderIff | internal/device/tracker.go:60-72 | While writes succeed, the store sees any selection of the discoveries in the order they were accepted unless a selected direct write was made ahead of a selected row, and for distinct discoveries exactly then. |
| WriteOrder.MacInOrderIff | internal/device/tracker.go:60-72 | So a MAC's distinct discoveries are applied in the order accepted iff none of its direct writes was made ahead of its own buffered or queued rows. |
| WriteOrder.QueuedInOrder | internal/device/tracker.go:94-119 | All discoveries are, iff no direct write was made ahead of anything; with no direct write at all, in the order sent. |
| WriteOrder.RowFollowsAcceptance | internal/store/db.go:221-228 | A MAC with nothing pending and no overtaking has the row its discoveries give in the order accepted. |
| WriteOrder.LastSeenIff | internal/device/tracker.go:61-71 | Once nothing of a MAC is pending, its last_seen is that of its last accepted discovery iff that one was not written directly ahead of one of the same MAC. |
| TrackerTheorems.AllStoredIff | internal/device/tracker.go:74-112 | After the writer has finished with nothing in flight, everything saved is stored exactly when nothing was sent after the drain ended. |
| TrackerTheorems.StrandedSave | internal/device/tracker.go:60-76 | A run, over any table, in which such a send leaves a discovery in the queue for good. |
| WriteOrder.DirectWriteOvertakes | internal/device/tracker.go:61-71 | A run, with everything stored at its end, in which a newer discovery is written ahead of an older queued one and the older last_seen stays. |
| TrackerObject.DeviceTable.UpsertDevices | internal/store/db.go:194-219 | A transaction applies every row in order, or none. |
| TrackerObject.SaveEffect | internal/device/tracker.go:60-72 | A save queues the device when the writer is active and fewer than 1024 are queued, and writes it directly otherwise. |
| TrackerObject.Tracker.SaveDiscoveredDevice | internal/device/tracker.go:60-72 | The method takes exactly those steps of the machine, with that effect on queue and table. |
| TrackerObject.Tracker.RunDeviceWriter | internal/device/tracker.go:74-120 | The writer's loops take the machine's steps round by round; rounds that end in a tick leave the buffer empty, and, when the writes succeed, every device saved in them stored or still queued; after a cancellation the loops empty queue and buffer, among saves that keep arriving, and reset the active flag. |
| TrackerObject.TickedRoundsStoreAll | internal/device/tracker.go:94-117 | Rounds that end in a tick, with writes that succeed, leave every device saved in them stored or still queued, each once. |
| Classifier.SameKeyIff | internal/classify/manager.go:50 | Two names share a key exactly when they are letter for letter the same up to ASCII case and one trailing dot. |
| Classifier.FoundUnderOwnNameIff | internal/classify/manager.go:50-56 | A name is its own key, and so found as listed, exactly when it has no capital letter and no trailing dot. |
| Classifier.ListedIff | internal/classify/manager.go:134-164 | A refresh lists a domain exactly when some fetched source does. |
| Classifier.LastSourceWins | internal/classify/manager.go:145-152 | The last fetched source listing a domain decides its category: its own, or uncategorized when that is empty. |
| Classifier.Manager.Refresh | internal/classify/manager.go:125-169 | With at least one source and none fetched the map is unchanged and an error returned; otherwise the map is exactly the last listings, empty for no sources. |
| Classifier.Manager.Classify | internal/classify/manager.go:49-58 | The override if there is one, else the active map's category, else the empty one. |
| Classifier.Manager.SetOverride | internal/classify/manager.go:60-67 | Store and memory change together, or, when the store fails, not at all. |
| Classifier.Manager.RemoveOverride | internal/classify/manager.go:69-76 | Likewise for a removal. |
| Classifier.Manager.LoadOverrides | internal/classify/manager.go:78-87 | Every stored override is added to memory, or none when the listing fails. |
| Classifier.Restart | cmd/umberrelay/main.go:97-106 | A new process starts with the stored overrides if their listing succeeds and with none otherwise. |
| Classifier.MemoryIsKnownPart | internal/classify/manager.go:49-87 | Over any run with failing stores and restarts, memory holds exactly the stored overrides that were loaded or edited since the last restart. |
| Classifier.MemoryEqualsTableIff | internal/classify/manager.go:60-87 | Memory equals the store exactly when every stored override is one of those. |
| Classifier.FailedRestartForgets | internal/classify/manager.go:78-87 | A restart over one stored override whose listing fails forgets it, and the lookup changes. |
| Classifier.TableIsLastEdit | internal/classify/manager.go:60-76 | A stored override is the last one the store accepted for its key, through failures, refreshes and restarts. |
| Classifier.ListedIsActive | internal/classify/manager.go:125-169 | The active map is that of the last refresh that fetched something or had nothing to fetch, or of the last restart's cache. |
| Classifier.ClassifyAfterRun | internal/classify/manager.go:49-87 | When every restart's load succeeds, memory equals the store and a lookup gives the last accepted override, else the last listing. |
| Dhcp.ParseHostname | internal/device/dhcp.go:81-104 | On all bytes the walk ends, stays in range and returns the first host name of the bytes' division into options. |
| Dhcp.WalkFindsFirst | internal/device/dhcp.go:81-104 | However bytes divide into pads, options and a stop, the result is the data of the first option 12 before the stop, or empty. |
| Dhcp.LayoutExists | internal/device/dhcp.go:82-98 | Every byte string divides so: the stop is nothing, End and anything, or an option cut short. |
| Dhcp.LayoutUnique | internal/device/dhcp.go:82-98 | And in only one way. |
| Dhcp.RoundTrip | internal/device/dhcp.go:81-104 | Encoding any options, pads included, with or without End and trailing bytes, and walking them gives their first host name. |
| Dhcp.OptionBytes | internal/device/dhcp.go:82-101 | Byte 0 is skipped, 255 ends the options, 12 holds the name, and an option of any other code is passed over whole. |
| Dhcp.NameFoundIff | internal/device/dhcp.go:99-101 | A non-empty name is returned exactly when the bytes hold 12, its length and it as a complete option preceded by complete options of other codes. |
| Trends.TrendsPartition | internal/store/db.go:1072-1107 | The four scanned counts are the direct counts of two disjoint windows, the last 24 hours and the seven days before them, that together cover eight days. |
| Trends.CategoryCountsAt | internal/store/db.go:1266-1296 | One row for each category with a query in the eight days, with its direct count in the last 24 hours and in the seven days before. |
| Trends.CategoriesSumToTrends | internal/store/db.go:1266-1296 | The rows' counts add up to LoadTrendsAt's totals, and those of the tracking categories to its tracker counts, in both windows. |
| Trends.MakeListMatches | internal/web/activity_view.go:32-56 | The panel has the unmatched count, one row in the fixed order for each known category with a current count, and the totals. |
| Trends.PanelRows | internal/web/activity_view.go:41-55 | The panel's rows are, of tracking, advertising, malware, analytics and telemetry in this order, those with a query in the last 24 hours, each with that count and the count of the seven days before; unmatched counts are those of the empty category and of uncategorized. |
| Trends.PanelRowsCount | internal/web/activity_view.go:42-55 | The rows' counts add up to the last 24 hours' queries of the categories asked for. |
| Trends.PanelShortfall | internal/web/activity_view.go:41-55 | Unmatched plus the rows falls short of the current total by exactly the queries of unknown categories. |
| Trends.PanelConservesIff | internal/web/activity_view.go:18-56 | On any log, so it equals the total exactly when there are none. |
| Trends.ForeignRowMissing | internal/web/activity_view.go:41-55 | A log, which the program itself cannot write, whose one current query the panel leaves out. |
| Categories.Normalize | internal/category/categories.go:32-43 | Only the six known names come out, whatever goes in. |
| Categories.NormalizeIff | internal/category/categories.go:32-43 | A value is accepted as a category exactly when it spells that category's name in any ASCII case between white space, or `unclassified` for uncategorized. |
| Categories.NormalizeIsStable | internal/category/categories.go:32-43 | A stored name normalises to itself. |
| Categories.SetDomainOverride | internal/app/overrides.go:12-18 | An override is set only for a category that normalises, and only to the normalised one. |
| Categories.RunKeepsStandard | internal/classify/manager.go:49-169 | Over every run of edits, refreshes and restarts with any failures, whose categories have passed the guard, memory, store and active map hold only known categories. |
| Categories.LookupStandard | internal/classify/manager.go:49-58 | So a lookup never gives any other. |
| Categories.HandedStandard | internal/pipeline/writer.go:71-82 | Nor does a batch that any writer run hands to the store hold any other. |
| Categories.LogStandard | internal/store/db.go:285-608 | Nor, over every run of writes, purges and reopens, does the log. |
| Categories.PanelAlwaysConserves | internal/web/activity_view.go:18-56 | So on the program's own data the panel's unmatched count plus its rows always equals the current total. |
| EndToEnd.HubLogIsStored | internal/pipeline/writer.go:91-97 | However a hub run interleaves with the writer's commits, its log is the store's. |
| EndToEnd.SubscribersGetStoredRows | cmd/umberrelay/main.go:143-147 | Any writer run with any commit outcomes, and any hub run over its commits: once quiescent, a registered subscriber has been sent exactly the stored rows after its start if and only if the last poll stranded none. |
| EndToEnd.RecordsReachSubscribers | cmd/umberrelay/main.go:143-147 | With a finished run whose writes commit, those are the received records, one row each with its own fields, MAC, category and the next id, whatever state the rollups are in. |

## Left out

- The SQL engine, drivers, pragmas, schema migration and prepared statements; a failing transaction is assumed to roll back whole.
- Network I/O: DNS forwarding, the DHCP, mDNS and SSDP sockets, ARP polling, HTTP serving, list fetching, dialing and URL validation. A fetched list is its outcome: failed, or its domains.
- Templates, JavaScript, pagination, roster sorting, flag wording, configuration, demo data, vendor lookup and log redaction: presentation or single-branch code.
- Floating point: percentages, anomaly deltas and the panel's share columns. The integer counts they are drawn from are modelled.
- Stored category strings are a datatype of the empty string, the six known names and all others, numbered; device and domain strings are plain strings.
- Categories.RunKeepsStandard: takes the categories of lists, of cached list domains and of edits as having passed the guard of internal/app/lists.go:29 and internal/app/overrides.go:13 or being among the seeded ones of cmd/umberrelay/main.go:253-270; the lists table itself is not modelled.
- Unicode lower-casing and white space: only ASCII letters change case and only ASCII space is trimmed.
- 64-bit overflow of ids, counters and nanosecond timestamps: integers are unbounded.
- Log purging while the hub runs: the hub's log is append-only with increasing ids.
- The two channel tests inside NotifyNewQueries are one step, and Close's wait for the loop is not modelled; subscribing after Close is left out.
- HubObject.QueryStreamHub.PollOnce: the method form runs without interference; interference between its sections is covered by the step machine, not by this method.
- TrackerObject.Tracker.SaveDiscoveredDevice: the method form takes its steps without interleaving; interleavings are covered by the step machine.
- TrackerObject.Tracker.RunDeviceWriter: other goroutines' saves come whole, between two of its rounds or before one of its looks at the queue; finer interleavings are covered by the step machine.
- WriteOrder.InOrderIff: assumes writes that succeed, as do the other results on order; a failed write loses its rows whole, which DeviceTracker.ReachableInv accounts for.
- RateLimiter.AllowsIffUnderLimit: assumes calls in time order, as do the other corollaries of that module except the contract of Allow.
- Records sent to the query writer after its final drain, and the listener that drops records when its channel is full.
- The ticker: a tick is an event that may come at any point, at any rate.
- Concurrent override edits: edits are sequential, as are refreshes.
- The list cache that a refresh writes, and which category LoadFromCache picks when cached lists disagree: its query has no order. A restart's cached map is an input.
- The order of category rows in Trends.CategoryCountsAt, which the query sorts by name and nothing here depends on.
- Packet parsing around the DHCP options, and the map from DHCP, mDNS and SSDP messages to devices.
- Label edits by the user, device listing, anomaly and bypass detection, domain statistics and settings.
