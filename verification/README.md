# Metrics pipeline: a verified model

This project models an at-least-once metrics pipeline that aims at an exactly-once effect, and proves
what it keeps over whole runs. HTTP requests become broker messages; workers cut the messages' points
into batches and flush them into PostgreSQL; each flush writes per-task numbered events and outbox rows;
relays copy the outbox into a broadcast exchange; bridges and hubs hand the events to SSE streams.

Everything is written for Dafny 4.11; `dafny verify dfyconfig.toml` checks the whole project.

| file | what it models |
|---|---|
| `Domain.dfy`, `Order.dfy`, `Backoff.dfy` | shared values, sorting and ORDER BY ... LIMIT, capped doubling |
| `Ingest.dfy` | request validation, the message, the worker's checks, expansion into points |
| `Publisher.dfy` | the confirming publisher: sessions, confirms, returns, retries |
| `Consumer.dfy`, `Worker.dfy` | the consume session: on values, and as shared objects that refine it |
| `Store.dfy`, `Payload.dfy`, `Database.dfy` | the flush statement, event payloads, the flush transaction |
| `Delivery.dfy`, `Settling.dfy`, `Draining.dfy` | broker, any number of worker sessions and the store, in any interleaving; what the broker owes, and that it can all be settled |
| `Outbox.dfy`, `Relay.dfy`, `Lease.dfy`, `Leader.dfy` | claims and transitions, any number of relays, what a lease is worth, the leader loop |
| `Bridge.dfy`, `Hub.dfy`, `Cursor.dfy`, `Stream.dfy` | broadcast filter, hub, cursor, one connection's bytes |
| `Live.dfy`, `Arrival.dfy`, `Resume.dfy`, `Outage.dfy` | the end-to-end stream over outages and reconnects, exactly what it shows, when a request is accepted and that it can catch up, and one run with a gap |
| `History.dfy` | the downsampling query |
| `Simulator.dfy`, `Audit.dfy` | generated load, the expected summary, the audit comparison; exactly what it notices |
| `Retention.dfy` | partition drops, batch deletes, the repeat-until-drained loop |

How it is built: pure logic is functions and lemmas; protocols are a `Step` datatype with `Enabled` and
`Apply`, an invariant kept by every step, and theorems about every run; code that changes objects is
classes whose methods are proved against the functions. A statement that the network may cut short is
modelled with every outcome: done and reported, done and not reported, not done. What the environment
does is an input of each method (whether a commit is reported, a confirm arrives, a write breaks off), so
that a method's result is determined by its contract. Values are reals, timestamps are integer
milliseconds, the clock does not go back.

## What the code does that its documentation does not say

* A metric named `step` or `ts` is stored, but the event payload overwrites it with the group's own
  member (`Payloads.StepMetricIsShadowed`); all other metrics survive (`Payloads.LogIsLossless`).
* The relay's wait after a batch with a failure is always the initial backoff; the doubled value only
  reaches the retry times of later events of the same batch (`Leader.OutboxRelay.RunLeader`).
* A flush does not always find a partition. With `d` the day of a timestamp, `f` the day of the flush's
  own clock reading and `m` that of the last maintenance, it does if and only if `d` is outside `f-8..f+2`
  (then the flush creates it), or another flush created it, or `d >= m-7` and it was prebuilt, which
  maintenance does for `m-8..m+2` (`Retention.FlushFindsPartition`). So it fails on the eighth day back,
  which retention has dropped (`Retention.EighthDayBackIsMissing`), and shortly after midnight on the
  last day of the new window, which no maintenance has built (`Retention.MidnightIsMissing`); without
  other flushes one day of the window is missing at every moment (`Retention.SomeDayIsAlwaysMissing`).
* Closing a subscription twice panics if and only if its task still has another open subscription; the
  mutex then stays locked, and every later call on the hub blocks (`Hubs.Hub.Close`).
* The bridge passes an event on if and only if an accepted copy of it comes before every accepted copy
  of a later one (`Bridge.HandedExactly`); so a sink that refuses a copy can lose the event
  (`Bridge.RefusedCopyCanBeLost`).
* A relay that stalls past its lease may send an old event after newer ones
  (`Leader.StalledRelaySendsAgain`). In every run the raw order of the exchange is monotone if and only if
  no event is copied after the next one of its task has been (`Relay.RawOrderIsExact`); it is when every
  copy is sent while its row is still unpublished, which a relay could check before it publishes
  (`Relay.CheckedRunsAreMonotone`). First copies are always in order (`Relay.LogIsOrdered`), and that is
  what the bridge needs (`Bridge.NothingNewIsDropped`).
* A bridge that loses its session loses its queue too, and a client that is streaming then may never see
  what was published before the bridge is back (`Outages.GappedRun`). Its stream misses nothing if every
  return of the bridge was seamless: every event copied so far is in the stream's replay or had been
  received before the session was lost (`Live.StreamIsComplete`). When no relay sends an event twice that
  is also necessary; in general a stream is complete if and only if of each event after its replay the
  bridge has received some copy before every copy of a later one (`Arrivals.CompleteExactly`). A stream that starts later is not affected, and whatever happens the numbers written
  increase (`Live.StreamIncreases`).
* The simulator's verdict is wrong exactly when a task's steps span more than 100000 and have a gap, or
  when nothing was posted (`Simulator.AuditVerdict`); its own ticks can produce both
  (`Simulator.WideGapFailsTheAudit`, `Simulator.NothingPostedFailsTheAudit`).
* The audit compares numbers of points, steps and key names only: it notices every lost and every foreign
  point, but not a value, nor a timestamp, nor a point that stands in for another under the same steps and
  names (`Audits.AuditIsExact`, `Audits.LossIsNoticed`).
* Heartbeats carry no id. A client whose parser starts with an empty id buffer and that receives only
  heartbeats reconnects without a cursor (`Streams.HeartbeatsCarryNoId`).
* `query_metric_history.sql` uses `//` for comments, which SQL does not have; those lines are read as
  comments here.

## Model

| member | source | states |
|---|---|---|
| Delivery.NothingIsLost | internal/messaging/consumer.go:200-297 | at every moment of every run (any deliveries, flush outcomes, unreported commits, nacks, crashes, acknowledgements lost on the way although reported, redeliveries, any number of sessions) each published message is still owed by the broker, or all its points are stored, or it was malformed and dead-lettered |
| Delivery.ExactlyOnce | internal/storage/postgres/sql/persist_metric_flush.sql:1-74 | when the broker owes nothing, the stored keys are exactly the keys of the valid messages, every stored value is one that a valid message carries for that key, and each task's events report each of its stored points exactly once, metrics named step and ts aside |
| Delivery.StepKeepsInv | internal/messaging/consumer.go:200-297 | every step of broker, workers and store keeps: store soundness, session conservation, every message accounted for, every stored value carried by some message |
| Delivery.RunKeepsInv | internal/messaging/consumer.go:104-131 | the same for every run, across session loss and reconnection |
| Delivery.CommitAccounts | internal/messaging/consumer.go:278-289 | a committed flush leaves every message owed or settled: an ack only ever follows the commit of all rows |
| Delivery.FailAccounts | internal/messaging/consumer.go:256-276 | a failed flush, committed or not, gives back every message it touched |
| Delivery.BreakAccounts | internal/messaging/consumer.go:111-130 | a session that ends anywhere, even in the middle of its acks and with any of its earlier ones lost on the way, leaves every message owed or settled |
| Delivery.BreakLosesNothing | internal/messaging/consumer.go:111-130 | for each delivery of a session that ends: acknowledged on the way means stored, and open and unacknowledged, or with its acknowledgement lost, means back in the queue |
| Delivery.AckedIsStored | internal/messaging/consumer.go:278-289 | in every reachable state an acknowledged delivery is stored whole, and every other one up to its committed count |
| Settling.StepKeepsUnique | internal/messaging/consumer.go:200-297 | in every step: a message waits in the queue or has been delivered and not given back, never both and at most once; what is dead-lettered is malformed and does not wait |
| Settling.OwedExactly | internal/messaging/consumer.go:256-289 | exactly what the broker owes after each step: a commit settles the messages it acknowledges, a rejection its own, an ending session those it acknowledged, a lost verdict brings its message back, and nothing else changes |
| Settling.VerdictSettles | internal/messaging/consumer.go:283-287 | in every run the message of an acknowledged or rejected delivery is not owed, and that of an open one does not wait |
| Settling.StepFrame | internal/messaging/consumer.go:200-297 | each step touches only its own: a session no other, only a flush the store, only a rejection and its loss the dead letters |
| Draining.EverythingSettles | internal/messaging/consumer.go:200-297 | every run can be continued without another message to a state in which nothing is owed |
| Draining.ExactlyOnceIsReached | internal/messaging/consumer.go:104-131 | so every run can be continued to one after which the stored keys are exactly the keys of the valid messages |
| Consumer.SessionConserves | internal/messaging/consumer.go:200-247 | at every return to the select the buffer holds, for each open delivery and in order, exactly its points from the first uncommitted one on, nothing of a settled delivery, less than a full batch; each delivery is settled at most once; the timer runs iff the buffer is non-empty; the backoff after k straight failures is min(F*2^k, Max) |
| Consumer.BufferedIsOpen | internal/messaging/consumer.go:278-281 | no buffered point belongs to a terminal delivery, so the terminal test of the success path never fires |
| Consumer.CommittedSettles | internal/messaging/consumer.go:278-289 | a committed flush commits every fed point, and acks a delivery iff that was its last |
| Consumer.FeedKeeps | internal/messaging/consumer.go:216-231 | feeding one delivery through any number of mid-delivery flushes keeps the invariant |
| Consumer.FlushKeeps | internal/messaging/consumer.go:184-198 | either outcome of a flush empties the buffer and keeps the invariant |
| Worker.UniqueDeliveryStates | internal/messaging/consumer.go:343-354 | the distinct delivery objects of a batch, each once, in order of first appearance |
| Worker.CommittedRowsByDelivery | internal/messaging/consumer.go:356-362 | how many rows of a batch each delivery object owns |
| Worker.SettleAll | internal/messaging/consumer.go:278-289 | settles each delivery by its share, in any map order; it succeeds iff every ack that falls due is reported, and on an error each delivery is untouched, settled, or at its ack |
| Worker.RequeueAll | internal/messaging/consumer.go:260-266 | every touched delivery is made terminal and nacked once; it succeeds iff every nack is reported, and on an error nothing else has happened to any delivery |
| Worker.ConsumeSession.FlushBatch | internal/messaging/consumer.go:249-297 | the batch reaches the store before any ack; the outcome is a commit or a failure of the system in Delivery, or the break that ends the session there |
| Worker.ConsumeSession.Flush | internal/messaging/consumer.go:184-198 | one flush refines the value model, timer and backoff included, and is a run of this session in the system |
| Worker.ConsumeSession.Discard | internal/messaging/consumer.go:206-213 | an invalid delivery is nacked without requeue and buffers nothing; the session ends iff that call reports an error, as a break of the system |
| Worker.ConsumeSession.PushAll | internal/messaging/consumer.go:220-231 | feeds a delivery with the flushes that fill the buffer, stops as soon as one gave it back; alive or not it is a run of this session in the system |
| Worker.ConsumeSession.HandleDelivery | internal/messaging/consumer.go:202-231 | the delivery case: exactly when the session survives it and in which state; on every path, aborts included, it is a run of the system, everything acknowledged is stored and so is every committed part |
| Worker.ConsumeSession.HandleTimer | internal/messaging/consumer.go:232-236 | the timer case: one flush, with the same guarantee on every path |
| Worker.ConsumeSession.HandleShutdown | internal/messaging/consumer.go:237-244 | one last flush, after which the session ends by a break of the system with everything acknowledged stored |
| Worker.EndedIsSafe | internal/messaging/consumer.go:111-130 | however a session object ends, its acknowledged and committed parts are stored and its unacknowledged messages are back in the queue |
| Worker.EndedWithLosses | internal/messaging/consumer.go:283-287 | however a session object ended, any of the acknowledgements and rejections it reported may be lost besides |
| Worker.FeedWithIsFeed | internal/messaging/consumer.go:220-231 | a feeding that the session survives is one of the value model, with its flush outcomes as the script |
| Store.FirstWins | internal/storage/postgres/sql/persist_metric_flush.sql:11-17 | stored values win over the input; within the input the first occurrence of a key wins |
| Store.InsertConcat | internal/storage/postgres/sql/persist_metric_flush.sql:11-17 | inserting in two statements is inserting the concatenation |
| Store.RunsFoldTheInput | internal/storage/postgres/metric_point_store.go:208-269 | however the input is cut into flushes, the point table is one first-wins fold of it |
| Store.CountersAdvance | internal/storage/postgres/sql/persist_metric_flush.sql:40-59 | a task's number advances by one iff the flush really inserted a row of it |
| Store.FlushKeepsSound | internal/storage/postgres/sql/persist_metric_flush.sql:11-71 | every flush keeps: numbers are 1..last without gap, outbox rows mirror events, events are non-empty, and the rows the events report partition the stored points; written events never change |
| Store.RunsKeepSound | internal/storage/postgres/sql/persist_metric_flush.sql:1-74 | the same for every run of flushes |
| Store.ReflushIsIdentity | internal/storage/postgres/sql/persist_metric_flush.sql:11-71 | re-flushing stored keys changes no point, counter, event or outbox row |
| Store.FlushIsSeedThenPersist | internal/storage/postgres/metric_point_store.go:229-262 | the transaction's two statements together are one flush |
| Payloads.PayloadRoundTrip | internal/storage/postgres/sql/persist_metric_flush.sql:18-39 | a payload decodes to exactly the encoded points whose key is neither step nor ts |
| Payloads.PayloadOrder | internal/storage/postgres/sql/persist_metric_flush.sql:30-39 | each (step, ts) group appears once, in (step, ts) order |
| Payloads.LogIsLossless | internal/storage/postgres/sql/persist_metric_flush.sql:18-65 | reading all events of a task recovers its stored points with their values, except keys step and ts |
| Payloads.EventsDisjoint | internal/storage/postgres/sql/persist_metric_flush.sql:11-65 | no two events report the same point |
| Payloads.StepMetricIsShadowed | internal/storage/postgres/sql/persist_metric_flush.sql:23-26 | a metric named step is lost from its payload |
| Databases.Database.EncodeMetricPoints | internal/storage/postgres/metric_point_store.go:303-331 | refuses exactly the batches with a step outside int32; otherwise columns in input order and the task set |
| Databases.Database.SeedTaskEventCounters | internal/storage/postgres/sql/seed_task_event_counters.sql:1-4 | adds missing counters at 0 and changes no other |
| Databases.Database.PersistMetricFlush | internal/storage/postgres/sql/persist_metric_flush.sql:1-74 | the statement's effect on all tables, or its refusal of a non-finite value or of a row without a partition, changing nothing |
| Databases.Database.Flush | internal/storage/postgres/metric_point_store.go:208-269 | success means committed; exactly when it takes effect and when it says so; nothing in between |
| Outbox.ClaimKeepsSafe | internal/storage/postgres/sql/claim_metric_outbox.sql:1-27 | a claim keeps prefix safety and claims at the head |
| Outbox.MarkPublishedKeepsSafe | internal/storage/postgres/sql/mark_metric_outbox_published.sql:1-7 | so does a guarded publish; publication advances |
| Outbox.MarkFailedKeepsSafe | internal/storage/postgres/sql/mark_metric_outbox_failed.sql:1-8 | so does a guarded failure |
| Outbox.ReleaseKeepsSafe | internal/storage/postgres/sql/release_metric_outbox_claim.sql:1-6 | so does a guarded release |
| Outbox.InsertKeepsSafe | internal/storage/postgres/sql/persist_metric_flush.sql:66-71 | so do new rows behind the existing ones of their task |
| Outbox.PurgeKeepsSafe | migrations/000002_retention_maintenance.sql:90-103 | so does purging published rows, which changes no row's eligibility |
| Outbox.OneClaimPerTask | internal/storage/postgres/sql/claim_metric_outbox.sql:7-13 | at most one row of a task carries a claim token |
| Outbox.PublishedIsPrefix | internal/storage/postgres/sql/claim_metric_outbox.sql:7-13 | the published rows of a task are a prefix of its event order |
| Outbox.HeadIsClaimable | internal/storage/postgres/sql/claim_metric_outbox.sql:4-13 | no task gets stuck: its first unpublished row is claimable once its retry time and lease have passed |
| Outbox.ClaimLeases | internal/storage/postgres/sql/claim_metric_outbox.sql:4-23 | a claim takes its rows off the market exactly until the lease ends, and changes no other row's eligibility |
| Outbox.FailureDelays | internal/storage/postgres/sql/mark_metric_outbox_failed.sql:1-8 | a recorded failure frees its row and makes it eligible exactly when the backoff has passed |
| Outbox.ReleaseFrees | internal/storage/postgres/sql/release_metric_outbox_claim.sql:1-6 | a release makes its row eligible as soon as its retry time has come |
| Outbox.PublishUnblocks | internal/storage/postgres/sql/mark_metric_outbox_published.sql:1-7 | a published row is never eligible again and no longer blocks the later ones of its task |
| Relay.StepKeeps | internal/messaging/outbox_relay.go:105-159 | every step of any relay, flush, crash or clock keeps the invariant; publication never reverts |
| Relay.RunKeeps | internal/storage/postgres/sql/mark_metric_outbox_published.sql:1-7 | in every run what is published stays published |
| Relay.PrefixSafety | internal/storage/postgres/sql/claim_metric_outbox.sql:4-23 | in every run with any number of relays and expired leases: published rows are a prefix, at most one claim per task, and what is published was confirmed in the exchange |
| Relay.LogIsOrdered | internal/messaging/outbox_relay.go:118-140 | in the broadcast log every copy of event k+1 follows a confirmed copy of event k, and only issued events appear |
| Relay.RawOrderIsExact | internal/messaging/outbox_relay.go:118-140 | in every run of any number of relays the raw order is monotone iff no event is copied after the next one of its task has been |
| Relay.CheckedRunsAreMonotone | internal/messaging/outbox_relay.go:118-140 | it is monotone when every copy is sent while its row is unpublished, as it is while the relay's own claim stands |
| Relay.StandingClaimIsChecked | internal/storage/postgres/sql/mark_metric_outbox_published.sql:1-7 | while a relay's own claim on the head of its batch stands, that row is unpublished |
| Relay.CopyKeepsOrder | internal/messaging/outbox_relay.go:121-121 | one more copy keeps a log in first-copy order monotone iff the next event of its task has no copy yet |
| Relay.StepFrame | internal/messaging/outbox_relay.go:105-159 | a relay's step touches no other relay; only sends reach the exchange, only flushes the events, only claims the tokens |
| Leases.LeaseHolds | internal/storage/postgres/sql/claim_metric_outbox.sql:17-23 | in every run, from the claim of an event to the end of its lease, and unless that claim is marked or released, the row stays as claimed and no relay can claim the event |
| Leases.StaleClaimIsHarmless | internal/storage/postgres/outbox_store.go:55-86 | a relay whose claim no longer stands changes nothing by marking or releasing, and is not told that it succeeded |
| Leases.OutboxDrains | internal/messaging/outbox_relay.go:105-149 | from every reachable state the relays and the clock alone can bring every event into the exchange and have it recorded |
| Leader.StalledRelaySendsAgain | internal/messaging/outbox_relay.go:118-140 | the raw order is not monotone: whenever two consecutive events of a task wait, there is a run in which a relay that stalled past its lease sends the first again after the second |
| Order.SelectLowest | internal/storage/postgres/sql/claim_metric_outbox.sql:14-15 | ORDER BY with LIMIT: at most n, in order, nothing smaller left out |
| Leader.OutboxRelay.Claim | internal/storage/postgres/sql/claim_metric_outbox.sql:1-27 | claims the eligible unlocked rows with the lowest ids, up to the batch size, under a new token |
| Leader.OnePerTask | internal/storage/postgres/sql/claim_metric_outbox.sql:7-13 | a claimed batch has at most one event of each task |
| Leader.ClaimedExactly | internal/storage/postgres/sql/claim_metric_outbox.sql:4-16 | a claim takes eligible unlocked rows by ascending id, as many as fit, none passed over for one with a higher id |
| Leader.ClaimedIsGuarded | internal/storage/postgres/sql/claim_metric_outbox.sql:17-22 | a claimed batch meets the guard of the later transitions |
| Leader.OutboxRelay.Mark | internal/storage/postgres/outbox_store.go:55-75 | success is reported only when the claim still stood; an error leaves the row changed or not |
| Leader.OutboxRelay.Deliver | internal/messaging/outbox_relay.go:121-138 | one event's publish and mark are two steps of the relay machine |
| Leader.OutboxRelay.ReleaseClaims | internal/messaging/outbox_relay.go:151-159 | after an error each event of the rest of the batch is released, further errors ignored, by steps of the machine; the table is exactly what those releases leave |
| Leader.ReleaseEffect | internal/messaging/outbox_relay.go:151-159 | releasing gives up exactly the claims whose statement worked and changes no other row |
| Leader.OutboxRelay.DeliverBatch | internal/messaging/outbox_relay.go:118-146 | a batch is a run of the machine; its table effect; it reports success iff every event was confirmed |
| Leader.BatchEffect | internal/messaging/outbox_relay.go:119-140 | a completed batch publishes exactly the confirmed events, delays the k-th straight failure by min(I*2^k, Max), keeps no claim and touches no other row |
| Leader.OutboxRelay.RunLeader | internal/messaging/outbox_relay.go:105-149 | the batches it claims, in order: every batch but the last is sent whole; the last one, or the failed claim after it, decides between stopping, backing off and failing, and without such a reason it goes on to the last poll; table, log and tokens are the composition of the batches' effects and of a failed claim that took effect; and all of it is a run of the machine |
| Bridge.HandedExactly | internal/messaging/event_bridge.go:143-165 | an event reaches the sink iff it is above the mark and some accepted copy precedes every accepted copy of the same or a later event |
| Bridge.RefusedCopyCanBeLost | internal/messaging/event_bridge.go:151-160 | a concrete case: event 1 refused, event 2 accepted, event 1 redelivered and dropped |
| Bridge.HandedIncreases | internal/messaging/event_bridge.go:202-214 | per task the sink accepts strictly increasing numbers, whatever duplicates and stale copies arrive |
| Bridge.MarkIsHighest | internal/messaging/event_bridge.go:208-214 | a task's mark never goes back, and no other task's moves |
| Bridge.NothingNewIsDropped | internal/messaging/event_bridge.go:143-165 | without sink failures, an event whose first copy arrives after the bridge joined is always passed on |
| Bridge.DecodedExactly | internal/messaging/event_bridge.go:172-185 | a delivery makes an event iff it names a task, carries a positive number and has a JSON body, and then exactly that event |
| Bridge.MetricEventBridge.Receive | internal/messaging/event_bridge.go:131-165 | undecodable deliveries are acked and dropped, seen ones acked, refused ones requeued with the mark unmoved and the wait doubled to its cap; when the session survives it |
| Bridge.MetricEventBridge.ConsumeSession | internal/messaging/event_bridge.go:127-170 | handles the deliveries in order, every one, up to the first it does not survive; what it hands on, its mark and its wait are the filter's answer for exactly the decodable ones among them |
| Hubs.Hub.Subscribe | internal/sse/hub.go:32-42 | a fresh id and channel, registered; every other subscription untouched; blocks iff a panic left the mutex locked |
| Hubs.Hub.Close | internal/sse/hub.go:42-52 | removes the channel, never leaves an empty inner map; panics iff already closed while its task has an open subscription, and the mutex then stays locked |
| Hubs.Hub.Publish | internal/sse/hub.go:59-70 | sends once to each open channel of the task and to no other, never to a closed one; when the context ends after k sends, exactly k of them have it |
| Hubs.GotExactlyTheSuccesses | internal/sse/hub.go:59-70 | without failed publishes a subscriber got exactly its task's events since it subscribed, in order |
| Hubs.NoSuccessIsMissing | internal/sse/hub.go:59-70 | with failed ones, every successfully published event is there, in order |
| Cursors.AcceptedHeaders | internal/transport/http/stream.go:125-138 | a Last-Event-ID is accepted iff it is the task, one colon and a number from 0 to int64's largest; only the empty one means no cursor |
| Cursors.CursorRoundTrip | internal/transport/http/stream.go:125-138 | the id of an event, sent back, resumes at that event, and is refused for another task |
| Cursors.ParsedExactly | internal/transport/http/stream.go:134-137 | a number is an optional sign and decimal digits within int64, and has their value |
| Cursors.RetainedIsSuffix | internal/storage/postgres/sql/query_metric_event_bounds.sql:1-16 | the retained events are a contiguous suffix and the bounds are its ends |
| Cursors.BoundsAre | internal/storage/postgres/sql/query_metric_event_bounds.sql:1-16 | for any tables: the least retained number or 0, and the greatest number retained or issued |
| Cursors.CursorIsExact | internal/transport/http/stream.go:46-55 | a cursor is refused iff some event issued after it is no longer retained |
| Cursors.ReplayIsComplete | internal/storage/postgres/sql/query_metric_events.sql:1-6 | the replay is every number above the cursor, in order, iff none of them has expired |
| Live.StreamIsGapFree | internal/transport/http/stream.go:42-110 | in every interleaving of flushes, relays, broadcasts, outages, subscribe, bounds and query: as long as every join of the bridge since the query was seamless, what is written is the gap-free run of numbers right after the start |
| Live.StreamIsComplete | internal/transport/http/stream.go:42-110 | once drained an unbroken stream has sent exactly the task's events above its start, each once, across the replay/live switch; and when no event is sent twice, a drained stream is complete iff it is unbroken |
| Live.StreamIncreases | internal/transport/http/stream.go:56-94 | in every run, outages or not: a stream starts at the accepted cursor or, without one, at the latest event, and writes issued events above it, strictly increasing |
| Live.BrokenStreamHasAGap | internal/messaging/event_bridge.go:80-125 | after a join that was not seamless some issued event above the start is neither written nor on its way, at every later moment, unless a relay sends it again |
| Live.ClientMissesNothing | internal/transport/http/stream.go:34-110 | over any number of connections and restarts, each resumed from the last event received: what the client has been shown is one gap-free run without repetitions, right after the first cursor, and once drained up to the newest event, when every join was seamless |
| Arrivals.StreamIsExact | internal/transport/http/stream.go:78-110 | in every run, with any outages, restarts and re-sent copies: what is written, still to be replayed and in the channel is exactly the replay followed by those received copies that were above all before them |
| Arrivals.CompleteExactly | internal/messaging/event_bridge.go:143-165 | in every run, a stream with nothing left to write is complete iff of each event after its replay the bridge has received some copy before every copy of a later event |
| Resumptions.BoundsAreExact | internal/transport/http/stream.go:46-55 | in every run a request is refused iff it has a cursor and some event issued above it has left the window; otherwise it goes on with its channel and the newest number |
| Resumptions.ReplayIsExact | internal/transport/http/stream.go:57-66 | an accepted request gets in its replay every event issued above its start, in order |
| Resumptions.BreaksExactly | internal/transport/http/stream.go:97-122 | what a broken connection or a restarted instance leaves: the client has received just the part that got through and resumes from its last event |
| Resumptions.AnythingMayBreak | internal/messaging/event_bridge.go:80-99 | the bridge's session, the request and the instance may end at any moment, after any part of what was written has been received |
| Resumptions.StepFrame | internal/transport/http/stream.go:42-122 | each step of the end-to-end system touches only its own part of it |
| Resumptions.ClientCanCatchUp | internal/transport/http/stream.go:34-122 | from every reachable world, unless its request was refused or its gap has expired, a client can without another flush be connected from its cursor and be sent every event above it |
| Outages.GappedRun | internal/messaging/event_bridge.go:101-125 | a run from the empty system in which the bridge is away while event 1 is published: everything drains and the client has been sent event 2 alone |
| Live.StepKeeps | internal/transport/http/stream.go:42-110 | every step keeps the invariant that channel, replay and log leave no gap above what was written, a join if it is seamless; and right after its query a stream is unbroken, whatever happened before |
| Streams.StreamRoundTrip | internal/transport/http/stream.go:84-90 | a client that reads the bytes, broken off anywhere, has dispatched exactly the whole frames, and would reconnect with the id of the last metrics frame |
| Streams.ReconnectResumes | internal/transport/http/stream.go:34-40 | that id is parsed by the server as the number of the last event received |
| Streams.HeartbeatsCarryNoId | internal/transport/http/stream.go:111-118 | a client that received only heartbeats has the id its buffer started with |
| Streams.PassingIncreases | internal/transport/http/stream.go:78-94 | whatever comes in, what is written increases strictly and lies above the cursor |
| Streams.LiveWritesAlike | internal/transport/http/stream.go:78-94 | the end-to-end model and the connection object write by the same rule |
| Streams.PayloadIsTrimmed | internal/transport/http/stream.go:83-84 | a payload is sent without the white space around it and otherwise as it is |
| Streams.SpacesAre | internal/transport/http/stream.go:83-83 | white space is what Unicode calls White_Space |
| Streams.Connection.WriteEvent | internal/transport/http/stream.go:78-94 | drops at or below the cursor, else writes one frame and moves the cursor; a write that breaks off leaves its prefix and does not move it |
| Streams.Connection.Serve | internal/transport/http/stream.go:95-122 | replay, live events and heartbeats: the output is exactly the planned frames up to the first write that breaks off, and that one's prefix |
| Streams.PlannedNumbers | internal/transport/http/stream.go:95-122 | the metrics frames of the plan are exactly the events above the moving cursor, in order |
| Streams.BrokenPlanIsRead | internal/transport/http/stream.go:84-122 | a client whose connection broke off in the middle has dispatched exactly the frames written whole, and would send the id of the last of them |
| History.QueryContract | internal/storage/postgres/sql/query_metric_history.sql:1-64 | a key is answered iff a selected row carries it, no series exceeds max_points, the answer says downsampled iff some key was oversize, and other keys come back unchanged |
| History.WidthIsLeast | internal/storage/postgres/sql/query_metric_history.sql:17-22 | the answer's width is 0 without an oversize key and otherwise the least width that brings every oversize key down to max_points buckets |
| History.TimesTile | internal/storage/postgres/sql/query_metric_history.sql:1-11 | time windows are half-open: split at any moment, a request selects the rows of exactly one half |
| History.StepsTile | internal/storage/postgres/sql/query_metric_history.sql:1-11 | step ranges include both ends: they split without loss or overlap |
| History.KeysTile | internal/storage/postgres/sql/query_metric_history.sql:1-11 | key lists add up, and no list stands for all keys |
| History.UnrestrictedSelects | internal/storage/postgres/sql/query_metric_history.sql:1-11 | a request without restrictions selects its task's rows from the cutoff on |
| History.OversizeIsSampled | internal/storage/postgres/sql/query_metric_history.sql:28-42 | an oversize key is answered by the aggregates of its buckets, which hold each of its points once |
| History.SeriesIsBounded | internal/storage/postgres/sql/query_metric_history.sql:17-46 | at most max_points entries, although all oversize keys share one width and each bins from its own first timestamp |
| History.DownsampledWhenOversize | internal/storage/postgres/sql/query_metric_history.sql:17-22 | the shared width is positive iff some key has more than max_points points |
| History.SmallKeysUnchanged | internal/storage/postgres/sql/query_metric_history.sql:22-28 | a key within the limit comes back whole, in (ts, step) order |
| History.BucketsPartition | internal/storage/postgres/sql/query_metric_history.sql:38-42 | each point of a key is in exactly one bucket |
| History.BucketsAreWindows | internal/storage/postgres/sql/query_metric_history.sql:38-42 | two points of a key share a bucket iff they lie in the same window, counted in widths from the key's first timestamp |
| History.TimestampsIncrease | internal/storage/postgres/sql/query_metric_history.sql:30-42 | output timestamps strictly increase |
| History.AggregateIsFair | internal/storage/postgres/sql/query_metric_history.sql:30-37 | an entry carries its bucket's least (ts, step), its exact extremes and its mean, and min <= v <= max |
| History.ExtremesPreserved | internal/storage/postgres/sql/query_metric_history.sql:36-37 | the least min and the greatest max of a series are the raw extremes |
| History.MeanPreserved | internal/storage/postgres/sql/query_metric_history.sql:35-42 | count-weighted averages add up to the raw sum, over exactly the raw count |
| Ingest.Validate | internal/transport/http/ingest.go:83-108 | accepts exactly the requests with a legal task, 1 to 500 samples and legal samples |
| Ingest.ValidateSample | internal/transport/http/ingest.go:131-171 | accepts exactly the samples with a legal step, timestamp, and non-empty legal finite metrics |
| Ingest.TaskNames | internal/transport/http/ingest.go:31-31 | a task name is a letter or digit and at most 63 name characters |
| Ingest.MetricKeys | internal/transport/http/ingest.go:32-32 | a metric key is one to 32 name characters |
| Ingest.ToMetricBatch | internal/transport/http/ingest.go:110-129 | loses and adds nothing |
| Ingest.NewIngestMessage | internal/messaging/message.go:65-95 | the batch under a generated id, used as correlation id too |
| Ingest.DecodeIngestMessage | internal/messaging/message.go:129-195 | accepts exactly the bodies that pass the message checks, and loses nothing |
| Ingest.ValidateDelivery | internal/messaging/consumer.go:299-324 | accepts exactly the deliveries whose properties and headers agree with a valid body |
| Ingest.JsonTypes | internal/messaging/consumer.go:300-302 | the content type is application/json in any case, as Unicode folds it |
| Ingest.ValidationsAgree | internal/messaging/consumer.go:299-324 | a published batch passes all worker checks iff it would pass HTTP validation: no accepted request is dead-lettered |
| Ingest.ExpandMetricPoints | internal/messaging/message.go:198-222 | the loops compute the expansion function |
| Ingest.ExpansionIsOrdered | internal/messaging/message.go:203-219 | the expansion is exactly the key-value pairs, each once, in sample-then-key order |
| Ingest.OrderIsUnique | internal/messaging/message.go:209-219 | that listing is unique, so the expansion is stable |
| Ingest.AcceptedIsStorable | internal/messaging/consumer.go:215-219 | an accepted message expands to at least one row, all within what the encoding takes: no delivery waits for zero rows |
| Ingest.AcceptedTaskMakesCursors | internal/transport/http/stream.go:125-138 | ids of an accepted task's events round-trip as cursors |
| Publishers.Session.Arrive | internal/messaging/publisher.go:238-270 | the answer to the last publish: its return before its confirm and not repeated, the confirm ends it; nothing else changes |
| Publishers.PublishOnce | internal/messaging/publisher.go:222-271 | confirmed iff the broker confirmed this very message positively, did not return it, the confirm was picked and the connection held; then nothing is outstanding. The broker may have taken a message that was not confirmed |
| Publishers.Backoff | internal/messaging/publisher.go:377-387 | min(Initial*2^(attempt-1), Max) |
| Publishers.Worker.OpenSession | internal/messaging/publisher.go:327-357 | a session iff dialling and declaring work; one that fails half-way is closed once |
| Publishers.Worker.Attempt | internal/messaging/publisher.go:183-205 | a failed attempt leaves no session behind, so no stale confirm can be credited later |
| Publishers.Worker.PublishWithRetry | internal/messaging/publisher.go:166-220 | delivers iff some attempt within MaxAttempts succeeds, all before it having failed and been waited out; the sends, all under one id, and the capped waits are exact; success means the broker took the message |
| Publishers.Worker.RunWorker | internal/messaging/publisher.go:149-164 | each job's result says exactly whether it was delivered, a delivered message was confirmed by the broker and not returned, and every session ever opened ends up closed exactly once |
| Backoffs.CappedDoubles | internal/messaging/consumer.go:192-196 | doubling under a cap step by step is min(I*2^k, Max) |
| Simulator.Generator.NextBatch | internal/simulator/simulator.go:138-169 | consecutive steps, evenly spaced timestamps, the key set of each step |
| Simulator.KeysAre | internal/simulator/simulator.go:138-169 | which metrics a step has, by configuration and step |
| Simulator.ExpectedState.AddExpected | internal/simulator/simulator.go:344-365 | keeps the counters those of the batches added so far; steps and keys are counted once, points again each time |
| Simulator.ExpectedState.Record | internal/simulator/simulator.go:239-244 | a known fingerprint adds nothing, a new one its batch |
| Simulator.ExpectedState.Finish | internal/simulator/simulator.go:334-343 | the summary of the points, missing steps included |
| Simulator.FingerprintIsInjective | internal/simulator/simulator.go:366-371 | generated batches with equal fingerprints carry the same points |
| Simulator.RunTask | internal/simulator/simulator.go:201-254 | posts exactly the batches its ticks call for (new, replayed or dropped, up to the first failing post), and the incremental expectation is the summary of the posted points |
| Simulator.AuditVerdict | internal/storage/postgres/sql/query_metric_audit.sql:1-22 | over a first-wins store fed the posted points in any order, split or repetition, the comparison passes iff something was posted and the span is at most 100000 or has no gap |
| Audits.AuditIsExact | internal/simulator/simulator.go:393-437 | for any store: the comparison passes iff it holds as many points of the task as expected, at exactly the expected steps and under exactly the expected names, some point was expected, and the gaps can be seen |
| Audits.LossIsNoticed | internal/simulator/simulator.go:413-437 | a missing or a foreign point fails the comparison; over a store of expected points only, it passes iff none is missing, there are some, and the gaps can be seen |
| Audits.PostedArePlain | internal/simulator/simulator.go:142-164 | the generated names meet the premise of the audit theorems |
| Simulator.WideGapFailsTheAudit | internal/storage/postgres/sql/query_metric_audit.sql:1-22 | the ticks post, n drops, post make the comparison fail, for one sample a batch and although nothing was lost, exactly when the two steps are more than 100000 apart |
| Simulator.NothingPostedFailsTheAudit | internal/simulator/simulator.go:393-437 | a task that posts nothing fails the comparison on an untouched database |
| Simulator.PostedIsOwn | internal/simulator/simulator.go:142-164 | generated batches carry points of their own task, at least one each |
| Retention.Maintainer.DropPointPartitions | migrations/000002_retention_maintenance.sql:30-43 | drops exactly the point days before the cutoff day, only expired rows with them, and returns their number |
| Retention.Maintainer.DropEventPartitions | migrations/000002_retention_maintenance.sql:45-58 | the same for events |
| Retention.Maintainer.DeletePoints | migrations/000002_retention_maintenance.sql:60-73 | so many rows are gone, at most a batch, only expired points, the oldest first; fewer than a batch only when no expired point is left |
| Retention.Maintainer.DeleteEvents | migrations/000002_retention_maintenance.sql:75-88 | the same for events |
| Retention.Maintainer.DeleteOutbox | migrations/000002_retention_maintenance.sql:90-103 | the same for published outbox rows, lowest ids first; unpublished ones stay |
| Retention.Maintainer.MaintainRetention | internal/storage/postgres/partition_maintainer.go:141-169 | one call removes only expired rows, fails exactly when refused, not committed or not reported, reports the partitions dropped and the rows deleted, and has drained the tables unless some count reached the batch size |
| Retention.Maintainer.Maintain | internal/storage/postgres/partition_maintainer.go:101-119 | call after call, each deleting a full batch of something, up to the first that does not or that fails; no more calls than the rows make full batches, plus one; success means the tables are exactly the retained part of what they were |
| Retention.RetainTwice | internal/storage/postgres/partition_maintainer.go:101-119 | repeated maintenance depends only on the latest cutoff |
| Retention.RetainedExactly | migrations/000002_retention_maintenance.sql:60-103 | row by row what retention keeps: points and events from the cutoff on, outbox rows also while unpublished |
| Retention.DroppedDaysAreExpired | migrations/000002_retention_maintenance.sql:36-39 | every timestamp of a dropped day is before the cutoff |
| Retention.StreamsDoNotNotice | internal/storage/postgres/sql/query_metric_event_bounds.sql:1-16 | bounds and replay are the same before, during and after maintenance |
| Retention.ChronicleSurvives | internal/storage/postgres/sql/query_metric_events.sql:1-6 | the premise of the cursor theorems survives maintenance |
| Retention.RelaysDoNotNotice | internal/storage/postgres/sql/claim_metric_outbox.sql:4-13 | relay safety and every row's eligibility survive, no unpublished row is lost |
| Retention.FlushFindsPartition | internal/storage/postgres/metric_point_store.go:271-301 | for any clock readings of maintenance and flush, exactly when a flush finds a partition for a timestamp |
| Retention.EighthDayBackIsMissing | internal/storage/postgres/metric_point_store.go:277-287 | right after maintenance the eighth day back is missing, although the flush takes it as prebuilt |
| Retention.MidnightIsMissing | internal/storage/postgres/partition_maintainer.go:14-17 | a flush just after midnight, 31 minutes after maintenance, misses the last day of its own window |
| Retention.SomeDayIsAlwaysMissing | internal/storage/postgres/metric_point_store.go:271-301 | at every moment some day of the flush's window is missing, unless flushes created it |
| Retention.SparedAndDrained | internal/storage/postgres/partition_maintainer.go:101-119 | tables from which only expired rows were removed are the retained part iff no expired row is left |

## Left out

- Databases.Database.Flush: one flush is one atomic step with one clock reading; row locks, their order and deadlocks are not modelled; whether every row has a partition is an input here and computed in Retention.FlushFindsPartition.
- Delivery.ExactlyOnce: runs without retention, which may delete a point that a late redelivery would store again.
- Worker.ConsumeSession.HandleDelivery: other sessions of the system move between two calls of these methods; in Delivery they move between any two steps. Delivery tags count from zero.
- Delivery.NothingIsLost: a published body is an accepted message's expansion (Ingest.AcceptedIsStorable says what that guarantees) or malformed; prefetch limits are not modelled.
- Live.StreamIsComplete: no sink failure (Bridge.RefusedCopyCanBeLost says what one can cost), no event expiring between a request's bounds and its query, and no retention; its converse is for logs without repeated copies, because a copy that is sent again after the bridge is back can still fill the gap (Arrivals.CompleteExactly is the condition without that restriction).
- Relay.PrefixSafety: runs without retention; Outbox.PurgeKeepsSafe and Retention.RelaysDoNotNotice say what purging does to the table.
- Relay.LogIsOrdered: is about first copies, because the raw order is not monotone (Leader.StalledRelaySendsAgain).
- Leader.OutboxRelay.RunLeader: nothing else moves during the loop; interleavings with other relays are runs of the same steps in Relay. Leader election by advisory lock is left out: safety does not rest on it.
- Hubs.Hub.Publish: a full channel is modelled by the context that ends first; that the call blocks while holding the read lock (so the hub may stand still) is not.
- Publishers.Worker.RunWorker: concurrent workers share nothing but the job queue, which is left out with the submit/wait races of the caller; ids come from outside and may be missing.
- Ingest.DecodeIngestMessage: JSON is taken to round-trip; a body is the value it decodes to. HTTP framing, content types of requests and size limits are left out.
- History.QueryContract: averages are over reals, so float rounding is not modelled; parsing of the query string is left out.
- Simulator.RunTask: metric values are arbitrary, only steps, timestamps and keys matter; a failed post ends the task, and whether the service stored that batch after all is not modelled.
- Streams.StreamRoundTrip: payloads are one line, as jsonb text is; a payload with a raw line break would break its frame.
- Retention.Maintainer.Maintain: without concurrent writers; the partition table is a set of day numbers.
- AMQP dialing, topology declaration, pgx, gin, net/http, configuration, logging, health probes, the migrations runner and `cmd/*`.
- The summary query: for each key of a task it gives the latest value and the minimum, maximum and mean over the retained points, and the task's last step and time; it reads one table, writes nothing, and no other component reads its result. So with the log of duplicate steps that goes with the audit.
- Jitter, latency targets, performance reports, and time limits other than as choices of the environment.

Sections 9.2.5 and 9.2.6 of the WHATWG HTML Living Standard fix the stream format that `Stream.dfy`
reads back. Manual acknowledgement is section 1.8 of the AMQP 0-9-1 reference; negative
acknowledgements and publisher confirms are RabbitMQ extensions.
