# Verified models of oden's protocols

oden runs WebAssembly applications: a resident service with one guest instance, a host daemon that
routes requests to deployments, a control plane, host telemetry, durable objects with alarms, and a
development supervisor. Its guarantees come from a set of small protocols rather than from one
algorithm. Each module here models one of them and proves what it keeps over every run.

| module | what it models |
|---|---|
| `ResidentService` | mailbox, worker, hooks, deadlines, watchdog and drain of a resident service |
| `Telemetry`, `TelemetryBody`, `TelemetryExport` | span life cycle and counters, tracked response bodies, the batching exporter |
| `TraceContext` | W3C Trace Context headers (sections 3.2 and 3.3) |
| `PreparedCache` | the cache of prepared components |
| `DevLoop` | watch, debounce, rebuild and swap of the development command |
| `Admission`, `RouteTable` | admission limiter and routing of the host daemon |
| `WireBody`, `Encodings` | bodies on the wire, UTF-8 (RFC 3629, section 4) and Base64 (RFC 4648, section 4) |
| `AlarmDelivery` | alarms of durable objects and their dispatcher |
| `DurableCounter` | the example counter object and the load driver that checks it |
| `Routes`, `Invoicing`, `BillingWebhook`, `UsageEvents`, `Billing` | control plane: routes, canaries, previews, snapshots; invoices and their webhooks; usage, statements, budgets and quotas |
| `Wrappers`, `Text` | shared results, subsequences, splitting and joining |

## Form

Where tasks interleave, the protocol is a state machine. An event is the code between two awaits (or
one atomic operation) of one task, chosen with its outcome by the environment; an event that is not
enabled changes nothing; `Run` applies any finite list of events. So a lemma about `Run` speaks of
every interleaving, every crash point and every choice of the network, the clock and the guest.
History fields (logs, sent batches, taken indexes) record what the properties are about and influence
no step.

Where code updates an object or a local variable in place and nothing interleaves, it is a class or a
method with a loop, and its `ensures` equate the new state with a function of the old one; the lemmas
are then about that function.

Contracts assumed of what is outside: a closed tokio channel still yields what it holds or has
reserved and then ends; a transaction is atomic; a unique key rejects a second row; deployments and
artifacts are never deleted; periods partition time, so a summary adds the events whose time falls in
its period. Clocks, ids, replies of guests and targets, file contents and digests are arbitrary inputs.
Money and quantities are exact rationals.

## Where the code is weaker than one would like

- The watchdog can kill a guest that returned in time, and a call that is in time, while its timer still
  holds the deadline of an earlier call. Both are witnessed, and `WatchdogFires` gives the exact condition
  at every position of the worker. A worker whose call failed can end without an error, also witnessed.
- A preview creation with an id in use can fail after it has moved the route; `FailedCreation` gives the
  exact condition and `ReusedIdMovesRoute` an input. `NestingRestores` therefore asks for fresh preview
  ids: `ReusedIdIsNotRestored` is a nesting that uses one twice.
- Quotas and budgets are checked before the insert, so overlapping submissions of one project can exceed
  them together, as `OverlapCanExceedQuota` shows; without such overlap they hold, `LimitsHoldWithoutOverlap`.
- An invoice call whose fresh invoice id is already another organization's fails, as does one that looks
  for a delivery the last time and does not find it; `InFlightCallEnds` gives the exact condition.
- A prefix of two or more slashes normalizes to the empty prefix, and only one port is cut off a host;
  `NormalizedPrefix` and `PortIgnored` say exactly when the results are canonical.
- Gateway decoding accepts Base64 whose unused bits are not zero, unlike the node (`LenientAcceptsMore`);
  `LenientAgrees` says which texts.

## Model

| member | source | states |
|---|---|---|
| `ResidentService.GuestDiscipline` | crates/oden-core/src/service.rs:137-268 | In every interleaving of clients, worker, watchdog and clock the guest sees start first and once, one call at a time, none at or after its deadline, nothing after a failure, overrun or kill, stop once and last; calls enter in mailbox order, each at most once; stop begins only when the mailbox is closed and empty, every call ever enqueued is popped and no slot is reserved, and that stays so. |
| `ResidentService.StopInvStep` | crates/oden-core/src/service.rs:161-168 | Once stop has begun the mailbox stays closed and empty with no reserved slot, and the worker only stops or has ended. |
| `ResidentService.DisciplineGrows` | crates/oden-core/src/service.rs:146-250 | Anything the worker lets the guest observe next, from any position of its loop, extends a disciplined history to a disciplined one. |
| `ResidentService.WorkerFollowsLog` | crates/oden-core/src/service.rs:160-250 | The worker position always determines how the guest history ends, and only permitted guest events follow from it. |
| `ResidentService.FifoInvStep` | crates/oden-core/src/service.rs:161-182 | First in, first out: what was popped followed by what waits is what was enqueued; entered calls form a subsequence of it. |
| `ResidentService.BoundedLoad` | crates/oden-core/src/service.rs:296-305 | Held permits are exactly the unfinished handlers and never exceed the configured maximum, and neither does the mailbox. |
| `ResidentService.CapacityInvStep` | crates/oden-core/src/service.rs:392-428 | Each step moves a permit exactly with its handler and never overfills the mailbox, counting reserved slots. |
| `ResidentService.OneResponsePerRequest` | crates/oden-core/src/service.rs:376-433 | A request that ran to completion has exactly one HTTP response, any other none; a guest response is the outcome of its own returned call, and `ReplyReachesClient` says when it is given. |
| `ResidentService.ResponseInvStep` | crates/oden-core/src/service.rs:389-432 | No step produces a second response or one without its handler finishing. |
| `ResidentService.HonestInvStep` | crates/oden-core/src/service.rs:215-231 | A response channel reports success only after the guest returned from exactly that call. |
| `ResidentService.ReplyReachesClient` | crates/oden-core/src/service.rs:429-432 | In every run a handler that takes its reply answers with the guest's response exactly if its call returned, and with 500 otherwise. |
| `ResidentService.NobodyIsForgotten` | crates/oden-core/src/service.rs:161-231 | In every run a request that waits for its reply is in the mailbox, held by the worker, or has its reply, unless the worker has ended; only then can a reply be lost. |
| `ResidentService.EveryEnding` | crates/oden-core/src/service.rs:389-432 | Which response each ending gives: 503 when draining, at capacity or stopped, 413 and 408 for the body, 500 for a lost or late reply; and which steps give none. |
| `ResidentService.ReplyInvStep` | crates/oden-core/src/service.rs:171-231 | No step forgets a popped call before its reply is written or its handler is gone, and a returned call has reported success. |
| `ResidentService.RequestDeadline` | crates/oden-core/src/service.rs:399-429 | From its arrival on, in every run, a request has the request timeout: its call enters the guest only before that deadline, and it is answered as late only, and always possibly, from it on. |
| `ResidentService.ServeLoop` | crates/oden-core/src/service.rs:292-350 | In every run connections stay within max(2 * capacity, 32) and are accepted below it until the drain; the drain can begin at any time, stop is requested exactly when the last connection is gone, and the grace period can end either wait. |
| `ResidentService.StopCompletes` | crates/oden-core/src/service.rs:161-250 | In every reachable state in which stop is requested of a worker that has not failed, the worker alone, its calls and hook returning, ends without an error after the stop hook returned, within as many steps as work is left. |
| `ResidentService.GraceEndsTheWorker` | crates/oden-core/src/service.rs:343-350 | When the grace period is over the worker has ended with an error and nothing runs in the guest. |
| `ResidentService.DrainInvStep` | crates/oden-core/src/service.rs:325-333 | Stop is requested only after every connection task has joined, and the mailbox closes only after that. |
| `ResidentService.NoQueuedCallAfterStop` | crates/oden-core/src/service.rs:164-173 | From the stop request on, whatever happens, no queued call enters the guest; at most the one whose open channel the worker had already seen. |
| `ResidentService.DrainProgress` | crates/oden-core/src/service.rs:328-333 | A draining worker is never stuck: it has an enabled step that reduces the work left. |
| `ResidentService.DrainMonotone` | crates/oden-core/src/service.rs:161-174 | While draining no event of any task adds work, and each move of the worker removes some. |
| `ResidentService.WatchInvStep` | crates/oden-core/src/service.rs:141-182 | At each position of the worker the published deadline is the startup deadline, none, the running call's, or the shutdown one. |
| `ResidentService.DeadlineInvStep` | crates/oden-core/src/service.rs:141-266 | The published deadline and the armed timer only ever hold the startup deadline, that of a call that entered the guest, or that of the stop hook. |
| `ResidentService.WatchdogFires` | crates/oden-core/src/service.rs:252-268 | In every reachable state before the worker fails or ends the watchdog can fire exactly when its timer holds a published deadline that has passed: an overdue worker can be killed once the timer holds the published deadline; one in time can be killed exactly when the timer still holds a passed deadline that no longer applies (startup, or a returned call), so never with the published one. |
| `ResidentService.WatchdogBetweenCalls` | crates/oden-core/src/service.rs:252-268 | Between calls, in every reachable state, the watchdog can fire exactly when its timer holds a passed deadline of startup or of a returned call, and not once it holds the published one. |
| `ResidentService.WatchdogStopsOverrun` | crates/oden-core/src/service.rs:254-264 | With its timer at the published deadline the watchdog can stop a running call exactly from that call's deadline on, and then ends the worker with an error. |
| `ResidentService.WatchdogCanKillIdleGuest` | crates/oden-core/src/service.rs:253-266 | Witness: the timer is polled before the deadline change, so a guest that returned in time and is idle can still be killed. |
| `ResidentService.WatchdogCanKillNextCall` | crates/oden-core/src/service.rs:252-266 | Witness: a call that entered and is in time can be killed, because the timer still holds the deadline of the call that returned before it. |
| `ResidentService.FailureCanEndQuietly` | crates/oden-core/src/service.rs:221-232 | Witness: a worker whose call failed can end without an error. |
| `ResidentService.OutcomeInvStep` | crates/oden-core/src/service.rs:261-269 | Apart from a failed call, the worker ends without an error only if the stop hook returned, and it ends with one only if the stop hook did not. |
| `ResidentService.RunInv` | crates/oden-core/src/service.rs:137-433 | All invariants together hold after every finite run. |
| `TelemetryExport.ExporterThread.Handle` | crates/oden-core/src/telemetry/export.rs:51-80 | One turn of the exporter loop, in place, is the function Turn of message and clock, which `TurnMeans` and `TurnKeeps` describe. |
| `TelemetryExport.TurnKeeps` | crates/oden-core/src/telemetry/export.rs:52-79 | A turn takes in exactly the record received, keeps the buffer below a batch, sends no oversized batch, only appends to what was sent, and leaves nothing buffered at a flush or hang-up. |
| `TelemetryExport.TurnMeans` | crates/oden-core/src/telemetry/export.rs:62-79 | A turn acknowledges exactly the flush it received, ends exactly on the hang-up, exports metrics and restarts the interval exactly when it is over, on a flush or on the hang-up, sends spans before logs before metrics, and keeps records buffered exactly when none of these happens and they are fewer than a batch. |
| `TelemetryExport.RecordsAreConserved` | crates/oden-core/src/telemetry/export.rs:49-80 | In every run, per signal and in emit order: accepted records are those sent (each in one batch), then those buffered, then those queued; accepted plus dropped is emitted; buffers and batches are bounded. |
| `TelemetryExport.FlushIsABarrier` | crates/oden-core/src/telemetry/mod.rs:296-310 | A flush acknowledgement implies that everything accepted before that flush was handed to send; `AckedWhenReceived` says when it comes. |
| `TelemetryExport.AckedWhenReceived` | crates/oden-core/src/telemetry/export.rs:56-78 | In every run a requested flush is acknowledged exactly when it has left the channel, and no other ticket ever is. |
| `TelemetryExport.FlushIsAnswered` | crates/oden-core/src/telemetry/mod.rs:296-310 | After any run, an accepted flush is acknowledged once the thread has received as many messages as were queued up to and including it, whatever else happens meanwhile, and everything accepted before it was then handed to send. |
| `TelemetryExport.AcceptedWereEmitted` | crates/oden-core/src/telemetry/mod.rs:288-294 | Accepted records are a subsequence of the emitted ones, and all of them, with none dropped, when no more records and flushes were enqueued than the channel holds. |
| `TelemetryExport.NothingLostAtTheEnd` | crates/oden-core/src/telemetry/export.rs:62-79 | When the thread has ended, all accepted records were handed to send and the rest was counted as dropped. |
| `TelemetryExport.HangupDrains` | crates/oden-core/src/telemetry/export.rs:52-79 | After the last sender is gone the thread ends within one turn per queued message and one more. |
| `TelemetryExport.InvStep` | crates/oden-core/src/telemetry/mod.rs:288-294 | Conservation, bounds and flush marks survive every step of producers and exporter. |
| `Telemetry.DataStaysSmall` | crates/oden-core/src/telemetry/mod.rs:353-379 | However a guest adds attributes, events and links, a span keeps at most 32, 32 and 8 of them, with keys of at most 128 and texts of at most 1024 characters. |
| `Telemetry.AttributeMeans` | crates/oden-core/src/telemetry/mod.rs:353-365 | An attribute is stored, bounded, under the first 128 characters of its key, exactly while there are fewer than 32 or its key is there already; nothing else changes. |
| `Telemetry.FirstEventsAreKept` | crates/oden-core/src/telemetry/mod.rs:366-372 | Of the events added to a span exactly the first 32 are kept, in order, with bounded names. |
| `Telemetry.FirstLinksAreKept` | crates/oden-core/src/telemetry/mod.rs:373-379 | Of the links added to a span exactly the first 8 are kept, in order. |
| `Telemetry.KeyMeans` | crates/oden-core/src/telemetry/mod.rs:414-447 | A histogram key has the method and status attributes of an HTTP operation, and of any other only the status. |
| `Telemetry.GroupsByName` | crates/oden-core/src/telemetry/mod.rs:419-431 | Every fixed group is that of its name, and any other name belongs to the guest. |
| `Telemetry.VerbsByName` | crates/oden-core/src/telemetry/mod.rs:432-443 | Every known method has a series of its own and anything else counts as another method. |
| `Telemetry.SeriesAreBounded` | crates/oden-core/src/telemetry/mod.rs:414-447 | Any set of histogram keys that can occur has at most 14028 elements. |
| `Telemetry.ObserveAddsOne` | crates/oden-core/src/telemetry/mod.rs:447-450 | An observation adds one to the sum of all counts and keeps every count equal to the sum of its buckets. |
| `Telemetry.ObservationIsLocal` | crates/oden-core/src/telemetry/mod.rs:447-451 | An observation counts in its own bucket of its own series and nowhere else. |
| `Telemetry.CountersMoveWithSpan` | crates/oden-core/src/telemetry/mod.rs:383-404 | Each shared update moves each counter by exactly what the one span concerned changes. |
| `Telemetry.HistogramsMoveWithSpan` | crates/oden-core/src/telemetry/mod.rs:419-451 | The histograms change only when a finishing span reaches its observation, under the key of its own group and data. |
| `Telemetry.EmittedStep` | crates/oden-core/src/telemetry/mod.rs:405-461 | A span's record and its error log are emitted once each, exactly when its finish got that far and the span is sampled or erred. |
| `Telemetry.Accounting` | crates/oden-core/src/telemetry/mod.rs:383-451 | At quiescence of any run: active is the unfinished spans, completed the finished ones and the sum of all histogram counts, cancelled and errors the spans so ended, each count the sum of its buckets. |
| `Telemetry.AtMostOneRecord` | crates/oden-core/src/telemetry/mod.rs:383-467 | In every state of every run no record is emitted twice, and a span record belongs to a finished, sampled span. |
| `Telemetry.AlwaysBounded` | crates/oden-core/src/telemetry/mod.rs:213-215 | In every state active is non-negative, the series stay bounded and every span stays small. |
| `Telemetry.TraceIsInherited` | crates/oden-core/src/telemetry/mod.rs:194-212 | All descendants of a span, at any depth, carry its trace id and sampling decision. |
| `Telemetry.StartMeans` | crates/oden-core/src/telemetry/mod.rs:194-212 | A started span has an id of its own and the trace and sampling decision of its header, its parent or its new trace, and no data. |
| `Telemetry.FinishTakesOutcome` | crates/oden-core/src/telemetry/mod.rs:383-390 | The first finish takes the outcome it is given and the data as it is. |
| `Telemetry.FirstFinishDecides` | crates/oden-core/src/telemetry/mod.rs:383-390 | A span keeps its context, parent and group for ever, and its data and outcome from its first finish on, whatever is called later. |
| `Telemetry.FinishCompletes` | crates/oden-core/src/telemetry/mod.rs:383-467 | A finish that has begun is complete after its remaining updates, however other spans interleave. |
| `Telemetry.RunInv` | crates/oden-core/src/telemetry/mod.rs:194-467 | Counters, histograms, emissions, data bounds and families agree after every finite run of interleaved spans. |
| `TelemetryBody.TrackedBody.PollFrame` | crates/oden-core/src/telemetry/body.rs:41-60 | Polling a frame in place counts its bytes (saturating) and finishes the span at the last frame, an error or the end. |
| `TelemetryBody.TrackedBody.Drop` | crates/oden-core/src/telemetry/body.rs:68-75 | Dropping the body finishes a span it still holds as cancelled. |
| `TelemetryBody.BodyEndsOnce` | crates/oden-core/src/telemetry/body.rs:16-75 | Whatever the polls and whenever it is dropped, the span is finished exactly once, with the outcome of the first ending frame (or cancelled) and the bytes seen until then. |
| `PreparedCache.PreparedCache.Get` | crates/oden-core/src/node.rs:134-140 | The first entry with the key is returned and moved to the back; a miss changes nothing. |
| `PreparedCache.PreparedCache.Insert` | crates/oden-core/src/node.rs:141-149 | Older entries of the key are removed, the front is evicted down to the maximum, and the entry is appended; with a maximum of zero nothing is kept. |
| `PreparedCache.PreparedCache.Prepare` | crates/oden-core/src/node.rs:175-190 | Alone, prepare returns the cached component on a hit and moves it to the back; on a miss it returns and inserts the compiled one, or fails without a change. |
| `PreparedCache.RecentMeaning` | crates/oden-core/src/node.rs:129-150 | The abstract LRU list holds every requested key once, ordered by its last request. |
| `PreparedCache.CacheIsLru` | crates/oden-core/src/node.rs:129-190 | After any sequence of successful prepares the cached keys in order are exactly the max most recently requested distinct keys. |
| `PreparedCache.CacheContents` | crates/oden-core/src/node.rs:129-190 | So the whole cache is known: each of those keys with what compiling it gave. |
| `PreparedCache.SmallerCacheIsSuffix` | crates/oden-core/src/node.rs:141-149 | Stack inclusion: a cache of size m is the suffix of length m of a cache of any size n that is at least m. |
| `PreparedCache.HitsAreMonotone` | crates/oden-core/src/node.rs:134-149 | A request that hits a cache hits every larger one. |
| `PreparedCache.InterleavedPrepares` | crates/oden-core/src/node.rs:175-190 | With lookups, compilations and insertions of many tasks interleaved, keys stay distinct, the size bounded, and every value was prepared from its own key. |
| `PreparedCache.TasksAreAnswered` | crates/oden-core/src/node.rs:175-190 | A lookup that finds its source returns the cached component and makes it the most recent; a successful compilation returns its component and caches it as the most recent; a failure changes nothing. |
| `AlarmDelivery.DurableObject.Schedule` | crates/odenctl/src/control-plane/alarm-demo.ts:47-76 | Scheduling in place stores plan and counter and arms the alarm, or, for an invalid date, fails without a change. |
| `AlarmDelivery.DurableObject.HandleWebhook` | crates/odenctl/src/control-plane/alarm-demo.ts:88-134 | A delivery counts a new time, records its key, uses a repeat and re-arms; a known time or a failure changes nothing. |
| `AlarmDelivery.DurableObject.ClearHandledAlarm` | crates/odenctl/src/control-plane/durable-object-alarm-dispatcher.ts:152-157 | Clears the alarm slot exactly if it still holds the handled time; `SucceededIsCleared` says what that is for. |
| `AlarmDelivery.DispatchDurableObjectAlarms` | crates/odenctl/src/control-plane/durable-object-alarm-dispatcher.ts:50-90 | The loop delivers every due alarm in order, and what each object is left with is in `CallLeaves` and `SucceededIsCleared`; its report lists exactly those whose handler or cleanup failed, dispatched plus failed is due, and it is ok exactly without failures. |
| `AlarmDelivery.CountIsDistinctTimes` | crates/odenctl/src/control-plane/alarm-demo.ts:106-128 | Under any mix of schedules, deliveries, redeliveries and cleanups alarmCount of a fresh object is the number of distinct accepted times. |
| `AlarmDelivery.SchedulingMeans` | crates/odenctl/src/control-plane/alarm-demo.ts:47-76 | Scheduling arms the alarm delayMs from now with plan and repeats, and is refused, without a change, exactly for times beyond what a date can hold. |
| `AlarmDelivery.DeliveryMeans` | crates/odenctl/src/control-plane/alarm-demo.ts:88-134 | A new delivery counts, records its time, and uses a repeat and re-arms one period later exactly if a repeat was left, else leaves the alarm slot alone; it is refused, without a change, exactly if the next time is beyond what a date can hold. |
| `AlarmDelivery.RedeliveryIsHarmless` | crates/odenctl/src/control-plane/alarm-demo.ts:108-111 | Delivering a time again changes nothing once it was accepted. |
| `AlarmDelivery.RepeatsAreConserved` | crates/odenctl/src/control-plane/alarm-demo.ts:88-134 | For an object scheduled once with a period: count plus remaining repeats plus one for an undelivered armed alarm is always limit + 1, and with no alarm armed all limit + 1 effects have happened. |
| `AlarmDelivery.ChainCompletes` | crates/odenctl/src/control-plane/alarm-demo.ts:88-134 | An alarm scheduled with a period and a limit, each dispatch succeeding, fires exactly limit + 1 times, at the first time and one period later each, and then no alarm is armed. |
| `AlarmDelivery.CleanupSparesRearmedAlarm` | crates/odenctl/src/control-plane/durable-object-alarm-dispatcher.ts:65-69 | In any storage, when a new time with a repeat left is delivered, the cleanup of that time leaves the alarm the delivery armed. |
| `AlarmDelivery.FailuresAreExact` | crates/odenctl/src/control-plane/durable-object-alarm-dispatcher.ts:62-80 | A pass has no failure exactly when every handler call and every cleanup succeeded, and its failures are exactly the alarms that did not succeed. |
| `AlarmDelivery.SuccessMeans` | crates/odenctl/src/control-plane/durable-object-alarm-dispatcher.ts:62-80 | An alarm succeeds exactly if its object accepted it and both the response and the cleanup came through. |
| `AlarmDelivery.CallLeaves` | crates/odenctl/src/control-plane/durable-object-alarm-dispatcher.ts:62-76 | What a call leaves of an object: nothing changed if it was not reached, only delivered if the handler failed or its response was lost, and delivered and cleared otherwise. |
| `AlarmDelivery.SucceededIsCleared` | crates/odenctl/src/control-plane/durable-object-alarm-dispatcher.ts:65-69 | After a pass an alarm that succeeded has taken effect and is not armed, whatever else was dispatched; an object whose last alarm succeeded has had all limit + 1 effects and has no alarm, so it is not listed again. |
| `AlarmDelivery.HealthyPassSucceeds` | crates/odenctl/src/control-plane/durable-object-alarm-dispatcher.ts:62-90 | A pass over objects with representable dates reports no failure when no handler and no cleanup fails. |
| `AlarmDelivery.PassTouchesOnlyDue` | crates/odenctl/src/control-plane/durable-object-alarm-dispatcher.ts:62-76 | A pass leaves every object that was not due as it was. |
| `AlarmDelivery.PassKeepsChains` | crates/odenctl/src/control-plane/durable-object-alarm-dispatcher.ts:62-90 | A whole pass over many objects, with failing handlers, lost responses and failing cleanups, keeps every object's chain of alarms, and what was listed stays deliverable. |
| `AlarmDelivery.ArmedIsListed` | crates/odenctl/src/control-plane/durable-object-alarm-dispatcher.ts:55-58 | An alarm found armed belongs to its object's chain. |
| `AlarmDelivery.PassesNeverOverlap` | crates/odenctl/src/control-plane/durable-object-alarm-dispatcher.ts:104-126 | However long passes take, at most one is in flight per job, and a tick returns true only for its own successful pass. |
| `AlarmDelivery.TicksAnswer` | crates/odenctl/src/control-plane/durable-object-alarm-dispatcher.ts:104-126 | A new tick starts a pass exactly if none is in flight and else returns false at once; the end of a pass is reported by its own tick and lets the next one start. |
| `DurableCounter.CounterObject.Fetch` | examples/celld-gateway/index.js:131-149 | GET shows the counter and changes nothing, other requests but the increment are not found, the increment is one transaction over counter and request id; an empty id counts as none. |
| `DurableCounter.CounterIsDistinctRequests` | examples/celld-gateway/index.js:138-147 | From a fresh object the counter is the number of requests without an id plus the number of distinct ids. |
| `DurableCounter.ResultsNumberRequests` | examples/celld-gateway/index.js:138-147 | A new request returns one more than the requests counted before it, which is the new counter and is stored for its id; a known one changes nothing. |
| `DurableCounter.RepeatsReturnFirstResult` | examples/celld-gateway/index.js:139-146 | A repeated id returns the first result and changes nothing, whatever ran in between. |
| `DurableCounter.EachIndexOnce` | crates/odenctl/src/bench.ts:253-271 | Whatever the interleaving of workers, indexes are drawn once each and in order, and a batch that completes without an error drew and succeeded on every one. |
| `DurableCounter.ErrorsAreTheRest` | crates/odenctl/src/bench.ts:253-271 | In a complete batch the errors are exactly the operations that did not succeed, and there is an error exactly if the first one was recorded. |
| `DurableCounter.AssignedCountsIndexes` | crates/odenctl/src/celld-bench.ts:129-130 | The closed form (floor plus remainder test) is the number of indexes that map to the object. |
| `DurableCounter.ClosedFormsAddUp` | crates/odenctl/src/celld-bench.ts:128-135 | The closed forms of all objects add up to the number of requests. |
| `DurableCounter.BatchAddsItsShare` | crates/odenctl/src/celld-bench.ts:107-123 | A completed batch without errors, with requests delivered late or repeatedly, adds exactly its closed form to each counter. |
| `DurableCounter.CountersMatchClosedForm` | crates/odenctl/src/celld-bench.ts:104-136 | A whole case on fresh objects: after both batches every counter shows its two shares and the counters sum to warmup + iterations. |
| `DurableCounter.BatchCanComplete` | crates/odenctl/src/bench.ts:253-271 | From any state of a batch it can go on to complete; if no operation had failed it can do so without one, and then every counter has its share. |
| `DurableCounter.RunInv` | crates/odenctl/src/bench.ts:253-271 | Index and object invariants hold in every state of a batch. |
| `Invoicing.SuccessMeans` | crates/odenctl/src/control-plane/async-service.ts:1307-1359 | In any interleaving with crashes and retries a call that returns gives the stored invoice of its organization and period, every other success gives the same one, and with a target its delivery is stored and carries it. |
| `Invoicing.InvoicedOnce` | crates/odenctl/src/control-plane/async-service.ts:1307-1359 | At most one invoice per organization and period and at most one delivery per invoice; deliveries never outnumber invoices. |
| `Invoicing.IssuedIsFinal` | crates/odenctl/src/control-plane/async-service.ts:1316-1319 | An issued invoice never changes afterwards, and later successes return it. |
| `Invoicing.RetrySucceeds` | crates/odenctl/src/control-plane/async-service.ts:1349-1357 | After any run, wherever calls crashed, a new call that then runs undisturbed with fresh ids succeeds within seven awaited operations, audit conflict or not; it returns the invoice that was there or else the one it composed, and leaves the delivery present. |
| `Invoicing.InFlightCallEnds` | crates/odenctl/src/control-plane/async-service.ts:1307-1438 | Any call, wherever it stands after any run, ends within seven steps of its own with a fresh delivery id, and succeeds exactly under a condition on what is stored (its invoice id free or its invoice there, its delivery there at the last look); which invoice it then returns. |
| `Invoicing.RaceLoserSucceeds` | crates/odenctl/src/control-plane/async-service.ts:1346-1357 | A call whose insert meets an invoice of its organization and period returns that one. |
| `Invoicing.NoTargetNoDelivery` | crates/odenctl/src/control-plane/async-service.ts:1410-1414 | Without a webhook target nothing is ever enqueued. |
| `Invoicing.OnlyAttemptsRewrite` | crates/odenctl/src/control-plane/repository.ts:723-805 | A delivery is new until an attempt is made, and only attempts change it. |
| `Invoicing.KeysAreDistinct` | crates/odenctl/src/control-plane/billing-webhook.ts:135-137 | Idempotency keys of invoices with different ids differ. |
| `Invoicing.InvoiceInserted` | crates/odenctl/src/control-plane/repository.ts:635-670 | An insert that violates no unique key keeps ids and (organization, period) unique. |
| `Invoicing.DeliveryInserted` | crates/odenctl/src/control-plane/repository.ts:723-764 | An insert that violates no unique key keeps idempotency keys unique and deliveries tied to stored invoices. |
| `Invoicing.ProgressKeepsTables` | crates/odenctl/src/control-plane/async-service.ts:1410-1438 | Every awaited operation of issue and enqueue keeps all rows and the uniqueness of their keys. |
| `Invoicing.RunInv` | crates/odenctl/src/control-plane/async-service.ts:1307-1438 | Table and call invariants hold after every finite run. |
| `BillingWebhook.DeliveryOutcome` | crates/odenctl/src/control-plane/billing-webhook.ts:80-170 | The result of any number of attempts in closed form: they stop at the first accepting or final answer or at the maximum, and the last one made decides status, times, last status and next attempt, with the retryable statuses and the defaults written out. |
| `BillingWebhook.OptionsMatter` | crates/odenctl/src/control-plane/billing-webhook.ts:85-100 | An attempt throws exactly for a pending delivery under a maximum below one or a negative delay. |
| `BillingWebhook.SendsWhenDue` | crates/odenctl/src/control-plane/async-service.ts:1393-1408 | A visit sends a request exactly if the delivery is still pending and the retry delay has passed since the last request, or there was none. |
| `BillingWebhook.GivesUpLast` | crates/odenctl/src/control-plane/billing-webhook.ts:140-170 | A delivery whose target only asks for retries stays pending until the maximum number of requests was sent, and then has failed. |
| `BillingWebhook.CountsDue` | crates/odenctl/src/control-plane/async-service.ts:1393-1408 | What a pass reports is the number of due deliveries among those listed. |
| `BillingWebhook.RequestsAreBoundedAndSpaced` | crates/odenctl/src/control-plane/async-service.ts:1393-1408 | However often passes run, the target sees as many requests as recorded, at most the maximum, and consecutive ones at least the retry delay apart. |
| `BillingWebhook.FinalIsFinal` | crates/odenctl/src/control-plane/billing-webhook.ts:85-87 | A delivered or failed delivery is never sent or changed again. |
| `BillingWebhook.Repository.DeliverPending` | crates/odenctl/src/control-plane/async-service.ts:1393-1408 | A pass attempts exactly the due pending deliveries and leaves the others alone; invalid options make it fail without a change exactly when something is due. |
| `UsageEvents.StoredOnce` | crates/odenctl/src/control-plane/async-service.ts:1173-1205 | In any interleaving ids are unique; a success returns the one stored event with its id, whose payload is the caller's; two successes with an id had equal payloads; a payload rejection means the stored one differs. |
| `UsageEvents.RaceLoserIsAnswered` | crates/odenctl/src/control-plane/async-service.ts:1194-1204 | A submission whose insert meets an event with its id is given that event if the payload is the same, and is rejected for the payload otherwise, after two operations of its own, however others interleave. |
| `UsageEvents.SummaryIsSum` | crates/odenctl/src/control-plane/repository.ts:520-545 | A project's total of a metric is the sum of the quantities of its events of that metric in the period. |
| `UsageEvents.StepAppendsAtMostOne` | crates/odenctl/src/control-plane/async-service.ts:1194-1204 | A step changes no row or appends the event of the call it completes, whose id was free. |
| `UsageEvents.ReplaysChangeNothing` | crates/odenctl/src/control-plane/async-service.ts:1188-1191 | Any run whose submissions all use stored ids, with any payloads, changes no row. |
| `UsageEvents.AloneOutcome` | crates/odenctl/src/control-plane/async-service.ts:1188-1204 | The outcome of an undisturbed submission: replay, quota rejection, budget rejection, or stored, in that order of precedence. |
| `UsageEvents.StoredExactlyWhenItFits` | crates/odenctl/src/control-plane/async-service.ts:1188-1204 | A new event of a project within its limits is stored exactly if the project is within its limits with it; else nothing changes, and the quota is the reason if it would be broken. |
| `UsageEvents.LimitsHold` | crates/odenctl/src/control-plane/async-service.ts:2455-2486 | In every serial run from no usage with fixed rates and limits, every project is within quotas and budget in every period, its report never says exceeded, and used plus remaining is the limit. |
| `UsageEvents.LimitsHoldWithoutOverlap` | crates/odenctl/src/control-plane/async-service.ts:1188-1204 | In every interleaving, crashes included, in which no two submissions of one project are between lookup and insert, every project is within quotas and budget in every period and its report never says exceeded. |
| `UsageEvents.SerialIsRun` | crates/odenctl/src/control-plane/async-service.ts:1173-1205 | Serial submissions are a run of the interleaved machine without overlap. |
| `UsageEvents.OverlapCanExceedQuota` | crates/odenctl/src/control-plane/async-service.ts:1192-1195 | Witness: overlapping submissions can exceed a quota, because the checks read before the insert. |
| `Billing.AddUsage` | crates/odenctl/src/control-plane/billing-budget.ts:106-117 | Adds the quantity to one metric's total and to no other. |
| `Billing.ItemsAreBilled` | crates/odenctl/src/control-plane/billing-statement.ts:123-141 | For any list of metrics there is exactly one line item per priced one, in order, with the price given, its own total over its own unit to the nearest millionth, and quantity times price to the nearest cent. |
| `Billing.StatementIsItemized` | crates/odenctl/src/control-plane/billing-statement.ts:58-80 | A statement lists the priced metrics, each once and in its fixed order, each billed for its own total per million, per GiB or one by one. |
| `Billing.OnlyItsOwnItem` | crates/odenctl/src/control-plane/billing-statement.ts:58-69 | Usage of one metric changes no other metric's line item. |
| `Billing.MoreUsageCostsMore` | crates/odenctl/src/control-plane/billing-statement.ts:52-80 | More usage never costs less, in spite of rounding quantities, amounts and totals. |
| `Billing.ProjectTotalIsExact` | crates/odenctl/src/control-plane/billing-statement.ts:52-80 | A project's total is exactly the sum of its line items, a whole number of cents, within half a cent per line item of the sum of rounded quantity times price. |
| `Billing.OrganizationTotalIsExact` | crates/odenctl/src/control-plane/billing-statement.ts:82-106 | An organization's total is exactly the sum of its projects' totals, with the same error bound over all line items. |
| `Billing.RoundUsd` | crates/odenctl/src/control-plane/billing-statement.ts:162-164 | Rounds to whole cents, at most half a cent away. |
| `Billing.CentsAreFixed` | crates/odenctl/src/control-plane/billing-statement.ts:162-164 | Whole cents are not changed by rounding. |
| `Billing.NoUsageIsFree` | crates/odenctl/src/control-plane/billing-statement.ts:58-79 | Without usage a statement totals zero under any rates. |
| `Billing.StartsWithinLimits` | crates/odenctl/src/control-plane/billing-budget.ts:66-69 | Without usage every budget and every quota is kept. |
| `Billing.AllowedExactly` | crates/odenctl/src/control-plane/billing-budget.ts:58-88 | An event is allowed exactly if the budget is kept with it, and, quotas being kept so far, exactly if they are kept with it. |
| `Billing.ReportTellsKept` | crates/odenctl/src/control-plane/billing-budget.ts:29-55 | The report says exceeded exactly when the budget is not kept; otherwise used plus remaining is the limit, and remaining is zero when exceeded; there is a limit exactly for a budget that is not negative, rounded to cents. |
| `Routes.RoutesResolve` | crates/odenctl/src/control-plane/async-service.ts:2219-2247 | In every reachable state each route has distinct, positively weighted targets, its deployment is the first target's, all targets resolve to a deployment of its project and an artifact, and a snapshot succeeds and shows exactly them. |
| `Routes.CanaryAndBack` | crates/odenctl/src/control-plane/async-service.ts:2137-2178 | A started canary gives the candidate the requested weight, from 1 to 99, and the stable deployment, which stays first, the rest of 100; rolling back, by request or by analysis, leaves the stable one alone, so a single-target route is restored. |
| `Routes.CanaryMeans` | crates/odenctl/src/control-plane/async-service.ts:2137-2160 | A canary starts exactly on an existing route, for a usable candidate other than the stable deployment and a weight from 1 to 99; the candidate gets that weight, the stable deployment the rest, the route keeps its id; which error else. |
| `Routes.PointMeans` | crates/odenctl/src/control-plane/async-service.ts:2098-2135 | Pointing succeeds exactly for named, distinct, positive and usable targets, an admitted host and, for a new route, an unused id; then the route has the requested targets, or the fallback deployment with weight 100. |
| `Routes.PointErrors` | crates/odenctl/src/control-plane/async-service.ts:2098-2135 | Which error a failing point reports: the first unusable target decides, then admission, then the id. |
| `Routes.PointNeedsTargets` | crates/odenctl/src/control-plane/contracts.ts:1163-1170 | Without targets and without a deployment there is nothing to point to. |
| `Routes.RollbackMeans` | crates/odenctl/src/control-plane/async-service.ts:2162-2178 | A rollback succeeds exactly on an existing route for a usable named deployment or none, and points the route at it, or at the stable one. |
| `Routes.AnalysisMeans` | crates/odenctl/src/control-plane/async-service.ts:2180-2217 | An analysis needs a usable candidate among the targets; it changes nothing unless it decides to roll back, and then leaves the stable deployment alone. |
| `Routes.PreviewMeans` | crates/odenctl/src/control-plane/async-service.ts:1632-1669 | A preview is created exactly for a usable deployment, an admitted host, an unused preview id and, where there was no route, an unused route id; the route then points at the deployment and the preview remembers the route. |
| `Routes.PreviewRollbackMeans` | crates/odenctl/src/control-plane/async-service.ts:1678-1702 | A rolled-back preview puts its remembered route back or takes its route away, once, and fails exactly if it is unknown or its route is gone and the id was given away. |
| `Routes.NestingRestores` | crates/odenctl/src/control-plane/async-service.ts:1632-1702 | Any well-nested run of preview creations and rollbacks with fresh preview ids, on any keys and whether or not creations succeed, restores every route: presence, id, deployment and targets. |
| `Routes.FailedCreation` | crates/odenctl/src/control-plane/async-service.ts:1659-1668 | A preview creation fails with the tables changed exactly when its id is in use and it would move the route, both of which can be checked before; any other failure, and so every one with a fresh id, changes nothing. |
| `Routes.ReusedIdMovesRoute` | crates/odenctl/src/control-plane/async-service.ts:1659-1668 | Witness, from an empty repository: creating a preview with an id in use fails with a conflict and the route points to the new deployment. |
| `Routes.SettledIdRestores` | crates/odenctl/src/control-plane/async-service.ts:1659-1702 | A creation and a rollback with an id whose preview was rolled back before restore the routes exactly when the creation would not move any. |
| `Routes.ReusedIdIsNotRestored` | crates/odenctl/src/control-plane/async-service.ts:1632-1702 | Witness: a well-nested run that uses an id twice leaves a route where there was none. |
| `Routes.RollbackIsIdempotent` | crates/odenctl/src/control-plane/async-service.ts:1678-1702 | Rolling a preview back twice is rolling it back once. |
| `Routes.InvStep` | crates/odenctl/src/control-plane/async-service.ts:1827-2216 | Every operation keeps all routes, and the routes that previews remember, sound. |
| `Routes.SnapshotSucceeds` | crates/odenctl/src/control-plane/async-service.ts:2422-2435 | From a sound state a snapshot of any listed routes succeeds, with their targets, weights and artifacts in order. |
| `Routes.SnapshotIsExact` | crates/odenctl/src/control-plane/async-service.ts:2422-2435 | On any tables a snapshot fails exactly on a listed route without targets or with one that does not resolve. |
| `Routes.CreationMeans` | crates/odenctl/src/control-plane/async-service.ts:1827-1875 | Artifacts and deployments are only added, under unused ids, and a deployment only for an artifact of its project. |
| `Routes.NormalizeRouteTargets` | crates/odenctl/src/control-plane/contracts.ts:1163-1186 | Accepts exactly non-empty lists of distinct deployments with positive weights, unchanged, or one deployment with weight 100. |
| `Routes.ControlPlane.UpsertRoute` | crates/odenctl/src/control-plane/repository.ts:1529-1563 | Writes in place: an existing key keeps its id, a new key needs a free id. |
| `Routes.ControlPlane.PointRoute` | crates/odenctl/src/control-plane/async-service.ts:2098-2135 | Points a route in place after checking targets, deployments in order, domain and quota. |
| `Routes.ControlPlane.StartRouteCanary` | crates/odenctl/src/control-plane/async-service.ts:2137-2160 | Starts a canary in place as Canary does, which `CanaryMeans` describes. |
| `Routes.ControlPlane.RollbackRoute` | crates/odenctl/src/control-plane/async-service.ts:2162-2178 | Points the route at one deployment, by default the stable one. |
| `Routes.ControlPlane.AnalyzeRouteCanary` | crates/odenctl/src/control-plane/async-service.ts:2180-2217 | Rolls back to the stable deployment if the analysis says so, for a candidate that is a target. |
| `Routes.ControlPlane.CreateDeployPreview` | crates/odenctl/src/control-plane/async-service.ts:1632-1669 | Remembers the route, writes the preview's, then stores the preview, which fails on an id in use. |
| `Routes.ControlPlane.RollbackDeployPreview` | crates/odenctl/src/control-plane/async-service.ts:1678-1702 | Restores the remembered route or deletes it, once. |
| `Admission.NeverOverAdmits` | crates/odenctl/src/main.rs:261-304 | In every interleaving, spurious failures included, active is the number of live permits, between zero and max(1, max), and whoever was refused had read since its arrival that the limit was reached. |
| `Admission.FreePermitIsTaken` | crates/odenctl/src/main.rs:269-290 | While a permit is free and nobody interferes, an arrival gets one after any number of spurious failures. |
| `Admission.ArrivalIsAnswered` | crates/odenctl/src/main.rs:269-290 | After any run an undisturbed arrival is given a permit exactly if one is free, whatever fails spuriously first, and otherwise is refused and changes nothing. |
| `Admission.LoserReloads` | crates/odenctl/src/main.rs:285-290 | A caller that lost a race goes on with the value it then read. |
| `Admission.DropFrees` | crates/odenctl/src/main.rs:300-304 | Dropping a permit frees it. |
| `Admission.CountStep` | crates/odenctl/src/main.rs:252-304 | Every load, compare-and-swap round and drop keeps the count equal to the live permits and within the limit. |
| `RouteTable.MatchIsSegmentPrefix` | crates/odenctl/src/main.rs:1410-1420 | For every prefix but the root, matching a path is having one's segments begin the path's segments. |
| `RouteTable.RootMatchesAbsolutePaths` | crates/odenctl/src/main.rs:1410-1413 | The root prefix, and the empty one, match every path that starts with a slash. |
| `RouteTable.LongestPrefixWins` | crates/odenctl/src/main.rs:242-249 | A route is found exactly when one has the host and a matching prefix, and then it is the one with the longest prefix, the last of repetitions. |
| `RouteTable.EquallyLongPrefixesAreEqual` | crates/odenctl/src/main.rs:245-248 | Two matching prefixes of equal length are equal. |
| `RouteTable.NormalizedPrefix` | crates/odenctl/src/main.rs:1390-1404 | A normalized prefix is the path without the slashes it ends with, a single slash staying; it is the root or starts and does not end with a slash, exactly unless it was two or more slashes, which become empty. |
| `RouteTable.PrefixErrors` | crates/odenctl/src/main.rs:1390-1397 | Blank text is the root prefix, and anything else must start with a slash. |
| `RouteTable.SelectTarget` | crates/odenctl/src/main.rs:211-233 | The loops choose the target that owns the slot of the hash of normalized host and path modulo the capped total, and fall back to the primary exactly when all weights are zero. |
| `RouteTable.Pick` | crates/odenctl/src/main.rs:225-231 | The cursor over saturating partial sums finds the owner of any slot below the saturated total. |
| `RouteTable.TotalWeight` | crates/odenctl/src/main.rs:212-215 | The fold computes the sum capped at the largest 32-bit value. |
| `RouteTable.HashOf` | crates/odenctl/src/main.rs:1422-1426 | The wrapping fold is the sum of the UTF-8 octets modulo 2^32. |
| `RouteTable.HashOfAscii` | crates/odenctl/src/main.rs:1422-1426 | The hash of ASCII text is the sum of its codes modulo 2^32. |
| `RouteTable.HashOfParts` | crates/odenctl/src/main.rs:1422-1426 | The hash of a text is the sum of the hashes of its parts, so it does not depend on their order. |
| `RouteTable.WeightIsShare` | crates/odenctl/src/main.rs:212-232 | Target i owns exactly as many slots as its weight when the weights sum within 32 bits, never more otherwise. |
| `RouteTable.EverySlotIsOwned` | crates/odenctl/src/main.rs:225-232 | Every slot below the total has exactly one owner, which has a positive weight. |
| `RouteTable.ChoiceIgnoresQueryAndPort` | crates/odenctl/src/main.rs:219-224 | Requests that differ only in query and port choose the same slot, for any weights. |
| `RouteTable.PortIgnored` | crates/odenctl/src/main.rs:1381-1388 | One port is cut off; adding a port changes nothing exactly when the host carried none. |
| `RouteTable.QueryIgnored` | crates/odenctl/src/main.rs:1406-1408 | Adding a query to a path does not change the path. |
| `RouteTable.PathOnlyMeans` | crates/odenctl/src/main.rs:1406-1408 | The path ends at the first question mark, or is the whole text without one. |
| `RouteTable.WithoutPortMeans` | crates/odenctl/src/main.rs:1381-1388 | What is cut off a host is a colon and only digits after it, and it is cut off whenever the host ends so. |
| `RouteTable.LowerMeans` | crates/odenctl/src/main.rs:1382-1382 | Capital ASCII letters are folded, and nothing else. |
| `RouteTable.SpaceAndCaseIgnored` | crates/odenctl/src/main.rs:1381-1388 | White space around a host and the case of its letters are ignored. |
| `TraceContext.ParseOfPrinted` | crates/oden-core/src/telemetry/context.rs:12-47 | Parsing the printed form of anything that was parsed gives the same context; any accepted version reprints as version 00 with its ids and sampled bit, and a plain version 00 text reprints as itself. |
| `TraceContext.Version00IsExact` | crates/oden-core/src/telemetry/context.rs:12-39 | A text that begins as version 00 is accepted exactly if it has 55 characters with two non-zero hexadecimal ids and flags at their places, and these are what is taken from it. |
| `TraceContext.LaterVersions` | crates/oden-core/src/telemetry/context.rs:20-31 | A later version other than ff may have more fields, none of them empty. |
| `TraceContext.NormalizationIsStable` | crates/oden-core/src/telemetry/context.rs:69-111 | Tracestate normalization is idempotent, never lengthens, and keeps the members in order with their keys and values. |
| `TraceContext.StateIsAccepted` | crates/oden-core/src/telemetry/context.rs:69-111 | A state is kept exactly if it is empty or has at most 512 characters and 32 members, all valid, with distinct keys. |
| `TraceContext.MemberIsAccepted` | crates/oden-core/src/telemetry/context.rs:78-108 | A valid key and value with an equals sign between and blanks around are that member. |
| `TraceContext.SimpleKeys` | crates/oden-core/src/telemetry/context.rs:80-100 | The keys without a tenant, exactly. |
| `TraceContext.TenantKeys` | crates/oden-core/src/telemetry/context.rs:80-100 | The keys with a tenant, exactly. |
| `TraceContext.StateNeverDiscardsParent` | crates/oden-core/src/telemetry/context.rs:33-38 | Whether there is a parent, its ids and flag never depend on the tracestate; an invalid one is dropped. |
| `TraceContext.HeadersRoundTrip` | crates/oden-core/src/telemetry/context.rs:48-66 | A context taken from any request arrives unchanged when injected into any other. |
| `TraceContext.HeadersMean` | crates/oden-core/src/telemetry/context.rs:48-60 | A request with exactly one readable parent has its context, with all its states joined; any other has none. |
| `TraceContext.ValidState` | crates/oden-core/src/telemetry/context.rs:69-111 | The member loop computes the normalized state: none for more than 512 characters, 32 members, an invalid member or a repeated key. |
| `TraceContext.NormalizeMembers` | crates/oden-core/src/telemetry/context.rs:76-110 | The loop with its key set and output vector accepts exactly at most 32 valid members with distinct keys and reprints them in order. |
| `TraceContext.TrimmedMember` | crates/oden-core/src/telemetry/context.rs:78-108 | A valid member parses to the same key and value after trimming, contains no comma and is not longer. |
| `WireBody.BodiesArrive` | crates/odenctl/src/wire_body.rs:12-32 | Every byte string arrives unchanged in exactly one field, as text exactly when it is UTF-8 without zeros. |
| `WireBody.AcceptedIsCanonical` | crates/odenctl/src/wire_body.rs:6-25 | Decoding accepts exactly at most one string field with canonical Base64 where Base64 is used, and re-encoding gives the accepted text back; without a field the body is empty. |
| `WireBody.GatewayEncode` | examples/celld-gateway/index.js:39-45 | The chunked encoder agrees with the unchunked one. |
| `WireBody.GatewayInverts` | examples/celld-gateway/index.js:47-54 | Gateway decoding inverts encoding up to the limit and is too large beyond; of what it accepts the strict decoder accepts exactly the canonical texts; bodies within the limit fit the envelope. |
| `WireBody.ReadLimited` | examples/celld-gateway/index.js:14-37 | Reading collects all chunks, or fails at the first broken read or the first chunk that passes the limit, and cancels exactly then. |
| `WireBody.ReadsWithinLimit` | examples/celld-gateway/index.js:20-27 | A stream that does not break is returned whole exactly when it fits. |
| `WireBody.FirstProblemDecides` | examples/celld-gateway/index.js:14-37 | The first read that breaks or passes the limit decides the error. |
| `Encodings.Base64RoundTrip` | crates/odenctl/src/wire_body.rs:6-10 | The strict and the lenient Base64 decoder both invert the encoder on every byte string. |
| `Encodings.QuadIsNumber` | crates/odenctl/src/wire_body.rs:6-10 | Four digits spell, base 64, the same number as their three octets, base 256. |
| `Encodings.Base64Vectors` | crates/odenctl/src/wire_body.rs:6-10 | Test vectors of RFC 4648, section 10, and one with the last digits of the alphabet. |
| `Encodings.Utf8Vectors` | crates/odenctl/src/wire_body.rs:15-19 | One character of each length of UTF-8 encoding, octet by octet. |
| `Encodings.StrictIsCanonical` | crates/odenctl/src/wire_body.rs:6-10 | The strict decoder accepts only what the encoder produces. |
| `Encodings.LenientAgrees` | examples/celld-gateway/index.js:47-51 | The lenient decoder agrees where the strict one accepts, which is exactly on canonical texts. |
| `Encodings.LenientAcceptsMore` | examples/celld-gateway/index.js:47-51 | Witness: a text with non-zero unused bits that the gateway accepts and the node rejects. |
| `Encodings.Utf8RoundTrip` | crates/odenctl/src/wire_body.rs:15-19 | Decoding UTF-8 inverts encoding on every text. |
| `Encodings.FromUtf8IsExact` | crates/odenctl/src/wire_body.rs:27-31 | Whatever decodes as UTF-8 is the encoding of the result, so nothing else is accepted. |
| `DevLoop.OneGeneration` | crates/oden/src/app.rs:303-415 | Two generations are never alive together, and none is after the end. |
| `DevLoop.OnlyASwapReplaces` | crates/oden/src/app.rs:337-381 | No step but an exit, a swap, the final stop or the error that ends the supervisor ends a running generation. |
| `DevLoop.KeptUntilReplaced` | crates/oden/src/app.rs:337-413 | A generation that runs after some events and not after some more was ended at one point in between by its own exit, the swap to a build whose load, build and validation succeeded, the end after a cancellation, or a failing fingerprint that ends the supervisor; failing manifests, builds and validations keep it running. |
| `DevLoop.SwapFollowsSuccess` | crates/oden/src/app.rs:346-376 | Whenever a generation is swapped, the last load, build and validation before it all succeeded. |
| `DevLoop.RebuildReplaces` | crates/oden/src/app.rs:341-376 | A rebuild whose load, build and validation succeed stops the old generation, if it still ran, runs a new one, and watches the files it was built from. |
| `DevLoop.FailureWaits` | crates/oden/src/app.rs:350-386 | A load, build or validation that fails leaves every generation alone and waits for the next change. |
| `DevLoop.FingerprintFailureEnds` | crates/oden/src/app.rs:345-345 | A fingerprint that cannot be taken ends the supervisor with an error and no generation running. |
| `DevLoop.CancelEnds` | crates/oden/src/app.rs:385-413 | After a cancellation the supervisor ends within four steps of its own, with no generation running, and without an error unless a load under way fails its fingerprint. |
| `DevLoop.NoEditIsAbsorbed` | crates/oden/src/app.rs:341-345 | With no change pending and no rebuild requested, the stored fingerprint is the one taken before the last build or the one that led to the last failed load. |
| `DevLoop.EditIsRebuilt` | crates/oden/src/app.rs:395-409 | After any run, when files then look the same for the debounce time, with failed looks and exits in between, a rebuild is requested exactly if a change was pending or they differ from what the last attempt acted on. |
| `DevLoop.RebuildIsDebounced` | crates/oden/src/app.rs:395-409 | No rebuild is requested before the files, having changed, looked the same at all wakes of the debounce time. |

## Left out

- Wasmtime, WASI linking, hyper, reqwest, sockets, processes and file access: their results are arbitrary outcomes of steps.
- Command lines, environment parsing, report formats, templates, scaffolding, cost estimates and smoke scripts: only easy statements there.
- Cryptography: digests are opaque texts; only the fixed length of a content digest is used.
- Custom-domain and edge-worker-release life cycles.
- ResidentService: compilation and instantiation happen before the model starts; dropping the `serve` future or the service half way, which aborts the worker, is not an event; the deadline check and the entry into the guest are one step, and so are an abort and its effect.
- Telemetry: metric values of durations, wall-clock times and random ids; log records other than the error log of a span; the gauges for stores and queue.
- TelemetryExport: what the collector answers, and the time limit of a flush on the caller's side.
- PreparedCache: compiled components are values that remember their source.
- AlarmDelivery: a transaction and the setAlarm after it are one step, and so are the get and delete of a cleanup, because a crash between the former does lose the chain; listing and its limit, and the timer itself.
- DurableCounter: latencies and the read-only workload; the HTTP gateway between driver and object is a delivery that may come late or repeatedly.
- Invoicing: pruning of invoices, adjustments and retention; the statement inside an invoice is opaque here; the audit event is only a step that may conflict.
- BillingWebhook: overlapping passes; headers, URL normalization and error texts; times are integers.
- UsageEvents: a submission that omits id or time gets generated ones, so its replay is a different submission; periods are an arbitrary function of time instead of calendar months.
- Billing: floating point; not-a-number and infinite rates or limits, which the code treats as absent.
- Routes: concurrent operations on routes; normalization of hosts, prefixes and ids; when both the key and another row's id are taken, the upsert updates the key's row as PostgreSQL does; the metrics analysis of a canary is a given decision; `admitted` stands for project existence, custom domains and quota together; timestamps.
- Routes.RoutesResolve: the order in which routes are listed is not modelled, any list of stored keys is.
- Admission: memory orderings; every atomic operation takes effect at one point.
- RouteTable: the prepared target behind an index, and parsing of the route table.
- TraceContext: lengths are counted in characters, which differs from bytes only for texts that are rejected either way.
- DevLoop: what is hashed into a fingerprint; a fingerprint stands for the watched files, as if hashes never collide.
