# Next-Sec: verified models of its state machines and algorithms

Next-Sec is a video-surveillance system. Around its HTTP, video and UI plumbing it contains a number of small state
machines and algorithms whose guarantees matter: events must not disappear while the network is down, a message quota
must hold in every minute, a region test must mean what the operator drew. This project models those parts in Dafny and
proves their guarantees, over whole runs where the guarantee is about runs.

| file | models |
|---|---|
| `outbox.dfy` | the durable event queue: its SQL statements, the class with its methods, the age and size caps, the backoff |
| `retry_loop.dfy` | the background retry loop as a state machine broken at every `await`: no silent loss, conservation |
| `retry_pass.dfy` | one uninterrupted pass, as a loop and as steps of the machine |
| `delivery.dfy` | how often an event is delivered |
| `deferral.dfy` | how long a deferral asked for by the server lasts |
| `drain.dfy` | how soon the queue drains |
| `vms_client.dfy` | what ingestion and replay do with every answer of the server |
| `client_runs.dfy` | calls, queue, retry loop and replay as one system: the whole path of an event |
| `rate_limiter.dfy` | the sliding-window limiter, its exactness and its optimality |
| `polygon.dfy` | ray casting on polygons with real coordinates |
| `batch_inference.dfy` | the frame queue, batching by engine, futures, and sharing one engine between plugins |
| `model_cache.dfy` | the LRU cache of loaded models |
| `stream_manager.dfy` | the ffmpeg supervisor: reconciliation, process ownership, relaunch schedule |
| `detection_cache.dfy` | the per-camera skip decision |
| `reconnect.dfy` | WhatsApp connection status, QR code and reconnect timers |
| `sse.dfy` | the shared server-sent-events connection of a browser tab |
| `options.dfy`, `powers.dfy` | optional values, powers of two |

Code that changes things step by step is a class whose methods are proved equal, in their effect on the state, to a
function of the old state; the theorems are about that function over arbitrary runs. Clocks, the network, the operating
system, neural networks and loaders are parameters: a time, an answer, an oracle function.

Where a natural statement is false of the code, the model keeps the code and says exactly when it holds:

- `ingest_event` can return `False` or raise for an event that is on its way, because the server has stored it or a row
  is queued: `VmsClients.TrueExactlyWhen` lists exactly when, answers lost or replaced on their way included.
  `VmsClients.RaisesAndQueuesExactlyWhen` says when it raises and when it queues: a 429 answer whose `Retry-After` is
  infinite, which the conversion at `vms_client.py:41` turns into an uncaught error, is one of the raising cases. The
  documentation of `ingest_event` (`vms_client.py:274-282`) mentions none of this.
- The row just queued survives its own prune if and only if the size cap admits anything and the age cap reaches back to
  its creation (`Outboxes.NewcomerSurvives`), although the comment at `outbox.py:115-118` promises it always.
- Delivery is at-least-once, for two reasons. A confirmed row is sent again if and only if the loop stopped, or the
  removal raised, before the row was removed (`Deliveries.ExposedExactlyByInterruption`,
  `Deliveries.OfferedAgainExactlyWhen`); otherwise the edge counts exactly one confirmation. And the server may have
  stored an event whose answer is lost, replaced by a server error or cannot be decoded: the replay then stores it again
  (`ClientRuns.LostAnswerIsTakenTwice`). `ClientRuns.ServerTakesAtMost` bounds how often the server stores an event in
  terms of both, and `ClientRuns.TakenAgainExactlyWhen` says from which states it can come to store it once more.
- A deferral asked for by the server lasts if and only if nothing is queued and no plain failure with a short backoff is
  settled before its end (`Deferrals.DeferralLastsExactlyWhen`).
- The queue is certain to be drained 900 s after a moment T if and only if the loop does not hold, at T, a failure that
  can still put a pending row off (`Draining.DrainsExactlyWhen`).
- The limiter's bound depends on the clock: it holds if and only if the clock never finds a call expired and then comes
  back to within a window of it (`RateLimiting.BoundHoldsExactlyOnSuchClocks`).
- The model cache holds min(K, n) models throughout if and only if no load failed while all slots were taken
  (`ModelCaches.FullThroughoutExactlyWhen`).
- A plugin with an empty class set would not get the same from the shared engine (`BatchInference.SharingIsInvisible`);
  no sharing plugin has one.
- "Never gives up" is false for a camera whose first launch failed, and only for it
  (`StreamManagers.NeverLaunchedIsNeverRetried`), and the backoff separates two relaunch attempts if and only if the
  first one yielded a process (`StreamManagers.AttemptsAreSpacedExactlyWhen`), against the comment at
  `stream_manager.py:150-154`.
- Two reconnect timers of the browser connection can be pending at once, exactly when a refresh finishes while one is
  pending (`SharedSse.OneTimerExactlyWhen`), and the last unmount is final exactly when nothing in flight is left
  (`SharedSse.LastUnmountIsFinalExactlyWhen`).

## Model

| member | source | states |
|---|---|---|
| RateLimiting.RateLimiter.Allow | arcanum/internal/antiban/ratelimiter.go:30-43 | answers and updates the list as the specification of one call does |
| RateLimiting.RateLimiter.Usage | arcanum/internal/antiban/ratelimiter.go:46-52 | reports the trimmed list's length and the limit, and leaves the trimmed list |
| RateLimiting.RateLimiter.Prune | arcanum/internal/antiban/ratelimiter.go:55-62 | the loop removes exactly the leading entries older than the window |
| RateLimiting.StoredIsRecentHistory | arcanum/internal/antiban/ratelimiter.go:10-17 | after any run of calls the stored list is the admitted history of the last 60 s |
| RateLimiting.TrimmedIsRecentHistory | arcanum/internal/antiban/ratelimiter.go:34-35 | trimming at any later moment leaves exactly the history recent at that moment |
| RateLimiting.RefusedExactlyWhenWindowFull | arcanum/internal/antiban/ratelimiter.go:27-42 | a call is refused if and only if the closed window ending with it already holds the limit |
| RateLimiting.EveryWindowBounded | arcanum/internal/antiban/ratelimiter.go:27-29 | no closed 60 s window anywhere in a run holds more than the limit |
| RateLimiting.BoundHoldsExactlyOnSuchClocks | arcanum/internal/antiban/ratelimiter.go:30-62 | for any sequence of clock readings, all runs under all limits keep every window within the limit if and only if the clock never finds a call expired and then comes back to within a window of it |
| RateLimiting.UsageNeverChangesADecision | arcanum/internal/antiban/ratelimiter.go:45-52 | deleting all Usage calls from a run leaves its admissions unchanged |
| RateLimiting.GreedyAdmitsMost | arcanum/internal/antiban/ratelimiter.go:30-43 | no policy that keeps every window within the limit admits more messages on the same calls |
| RateLimiting.GreedyLeadsThroughout | arcanum/internal/antiban/ratelimiter.go:30-43 | the same after every prefix of the run |
| RateLimiting.GreedyAdmitsEarliest | arcanum/internal/antiban/ratelimiter.go:30-43 | the k-th admission is never later than the other policy's k-th |
| Polygons.PointInPolygon | analytics/src/analytics/core/shared_inference.py:226-241 | the loop computes the parity of the edges crossed by the ray |
| Polygons.CrossesBySide | analytics/src/analytics/core/shared_inference.py:238 | the crossing formula with its division decides on which side of the edge the point lies |
| Polygons.CrossesSymmetric | analytics/src/analytics/core/yolo_base.py:97-99 | the crossing test does not depend on the direction of the edge |
| Polygons.RotationInvariant | analytics/src/analytics/core/shared_inference.py:232-240 | any vertex may come first |
| Polygons.ReversalInvariant | analytics/src/analytics/core/shared_inference.py:232-240 | the orientation of the polygon makes no difference |
| Polygons.ChordSplit | analytics/src/analytics/core/shared_inference.py:226-241 | the answers for the two pieces cut off by any chord XOR to the answer for the whole |
| Polygons.EdgeSubdivided | analytics/src/analytics/core/shared_inference.py:236-239 | the two parts of an edge are crossed, together, as often modulo two as the edge |
| Polygons.VertexOnEdge | analytics/src/analytics/core/shared_inference.py:226-241 | a vertex added anywhere on an edge changes no answer |
| Polygons.OutsideBoundingBox | analytics/src/analytics/core/yolo_base.py:83-102 | every point outside the half-open bounding box is outside |
| Polygons.RectangleExact | analytics/src/analytics/core/yolo_base.py:83-102 | for an upright rectangle the answer is the half-open box, boundary included |
| Polygons.TriangleExact | analytics/src/analytics/core/shared_inference.py:226-241 | for every triangle, either orientation and flat ones included, and every point, the answer is the half-plane definition |
| Polygons.FanDecomposition | analytics/src/analytics/core/shared_inference.py:226-241 | any polygon's answer is the parity of its fan triangles' answers |
| Polygons.EvenOddRule | analytics/src/analytics/core/shared_inference.py:226-241 | any point is inside any polygon if and only if an odd number of fan triangles contain it by half-planes, boundaries included |
| Polygons.ConvexExact | analytics/src/analytics/core/shared_inference.py:226-241 | for every convex polygon and every point, boundary included, inside means left of every edge, where an edge going down or level to the right owns its points |
| Outboxes.EventOutbox.Open | analytics/src/analytics/core/outbox.py:74-109 | opening a file brings its rows and id counter and a drop counter of zero |
| Outboxes.EventOutbox.Enqueue | analytics/src/analytics/core/outbox.py:111-129 | appends a row with a new id, applies the caps and counts exactly the rows they removed |
| Outboxes.EventOutbox.Insert | analytics/src/analytics/core/outbox.py:120-127 | the committed first half of an enqueue |
| Outboxes.DueListExact | analytics/src/analytics/core/outbox.py:131-144 | the due list is in id order, holds nothing that is not due, and misses a due row only when the limit is used up by older ones |
| Outboxes.EventOutbox.Remove | analytics/src/analytics/core/outbox.py:146-149 | removes the row with that id and no other |
| Outboxes.EventOutbox.Reschedule | analytics/src/analytics/core/outbox.py:151-154 | the row has one attempt more and is put off by 5, 10, 20, 40, 80, 160 or 300 s, all others are unchanged |
| Outboxes.EventOutbox.DeferAll | analytics/src/analytics/core/outbox.py:156-170 | every row due before now plus the seconds asked for (at least one) is put off to that time, all else is unchanged |
| Outboxes.EventOutbox.CountPending | analytics/src/analytics/core/outbox.py:172-176 | the number of rows |
| Outboxes.EventOutbox.DrainDroppedCount | analytics/src/analytics/core/outbox.py:178-186 | returns the drop counter and zeroes it |
| Outboxes.EventOutbox.Prune | analytics/src/analytics/core/outbox.py:188-213 | applies the age cap, then the size cap, and counts both |
| Outboxes.PruneKeepsTheNewest | analytics/src/analytics/core/outbox.py:188-204 | a row survives if and only if it is young enough and fewer than max_rows young rows are newer; at most max_rows survive |
| Outboxes.NewcomerSurvives | analytics/src/analytics/core/outbox.py:115-118 | the row just queued survives if and only if max_rows is at least 1 and the age cap reaches back to it |
| Outboxes.BackoffBounds | analytics/src/analytics/core/outbox.py:33-37 | the backoff starts at 5 s, never shrinks, and is 300 s exactly from the seventh attempt on |
| Outboxes.BackoffTable | analytics/src/analytics/core/outbox.py:33-37 | the waits after zero to five attempts are 5, 10, 20, 40, 80, 160 s, and 300 s from then on |
| Outboxes.DeferralIsCollective | analytics/src/analytics/core/outbox.py:156-164 | after a deferral nothing is due before its end, no row moves forward, no attempt is counted |
| RetryLoop.RunKeepsInv | analytics/src/analytics/core/outbox.py:223-267 | in every reachable state ids increase and are below the counter, held items are genuine, every event is accounted for and the counts balance |
| RetryLoop.NoSilentLoss | analytics/src/analytics/core/outbox.py:111-149 | every event ever queued is still in the table intact, or was pruned, or the sender confirmed that very payload, in every run with failing outbox calls and restarts |
| RetryLoop.RowsLeaveOnlyAsTold | analytics/src/analytics/core/outbox.py:240-247 | a row leaves only through a prune or after a confirmed delivery of its own id and payload |
| RetryLoop.IdsNeverReturn | analytics/src/analytics/core/outbox.py:98-109 | an id that has left the table never comes back |
| RetryLoop.Conservation | analytics/src/analytics/core/outbox.py:178-213 | found plus queued equals pending plus settled deliveries of pending rows plus reported drops plus the drop counter, in every reachable state |
| RetryLoop.WaitIsHonoured | analytics/src/analytics/core/outbox.py:249-258 | settling a wait of w seconds the sender asked for ends the pass and puts every row off to now + w without counting an attempt |
| RetryLoop.FailureIsItsRowsOwn | analytics/src/analytics/core/outbox.py:260-263 | settling a plain failure touches the offered row alone, by the table of waits, and the pass goes on |
| RetryLoop.DeliveryRemovesItsRow | analytics/src/analytics/core/outbox.py:244-247 | settling a delivery removes the offered row alone, and the pass goes on |
| RetryLoop.AnswersAreKept | analytics/src/analytics/core/outbox.py:270-274 | old booleans and outcomes reach the settling as they are, an exception ends the pass |
| Deliveries.ExposedExactlyByInterruption | analytics/src/analytics/core/outbox.py:242-246 | a confirmed row comes to be sent again if and only if the loop stops, or the removal raises, between confirmation and removal |
| Deliveries.ConfirmedOncePlusInterruptions | analytics/src/analytics/core/outbox.py:242-246 | in every run an event is confirmed at most once plus once per lost removal, and one less while it is to be sent again |
| Deliveries.ExactlyOnceWithoutInterruption | analytics/src/analytics/core/outbox.py:242-246 | without a lost removal, an event neither pending nor pruned has been confirmed exactly once |
| Deliveries.OfferedAgainWasInterrupted | analytics/src/analytics/core/outbox.py:242-266 | in every run a confirmed event is offered again only after lost removals |
| Deliveries.OfferedExactlyWhen | analytics/src/analytics/core/outbox.py:240-266 | from any reachable state a queued event can be offered without an interruption if and only if it is ahead of the loop or pending and not about to be removed |
| Deliveries.OfferedAgainExactlyWhen | analytics/src/analytics/core/outbox.py:240-266 | from any reachable state a confirmed event can be offered again without a further interruption if and only if it is exposed |
| Deliveries.InterruptionResends | analytics/src/analytics/core/outbox.py:242-266 | both causes are reachable: a crash and a removal that raises |
| Deferrals.DeferralHoldsExactlyWhen | analytics/src/analytics/core/outbox.py:151-170 | for every step: silence until a time survives it if and only if it queues nothing earlier and settles no plain failure of a pending row with an earlier backoff |
| Deferrals.DeferralLastsExactlyWhen | analytics/src/analytics/core/outbox.py:156-170 | over runs: nothing is due before the end of a deferral if and only if every later step respects it |
| Deferrals.LateFailureUndercuts | analytics/src/analytics/core/outbox.py:151-170 | a run in which an answer on its way brings its row forward |
| Deferrals.NewcomerUndercuts | analytics/src/analytics/core/outbox.py:111-127 | a run in which a new event is due during the silence |
| RetryPasses.SendAll | analytics/src/analytics/core/outbox.py:241-262 | the loop offers the items in order until an exception or a wait the sender asks for; after a wait no later item is offered and nothing is due before its end |
| RetryPasses.PassIsARun | analytics/src/analytics/core/outbox.py:240-262 | what an uninterrupted pass leaves in the table is what the state machine reaches by the pass's steps |
| RetryPasses.DeliveringPassEmpties | analytics/src/analytics/core/outbox.py:240-247 | with every row due and a delivering sender one pass empties the queue |
| Draining.AlwaysDueWithin900 | analytics/src/analytics/core/outbox.py:151-170 | in every run every pending row is due within 900 s of the latest step |
| Draining.DrainsExactlyWhen | analytics/src/analytics/core/outbox.py:238-267 | at any moment T of any run: a completed pass started at T+900 or later is certain to leave the queue empty, with a delivering sender, if and only if no held failure can still put a pending row off |
| VmsClients.RetryAfterIsClamped | analytics/src/analytics/core/vms_client.py:32-44 | the wait is within 1 and 900 s, follows the header where that is in range, and exists if and only if the header is not infinite |
| VmsClients.VmsClient.IngestEvent | analytics/src/analytics/core/vms_client.py:255-350 | verdict, requests, clip jobs and outbox rows for every answer and local fault |
| VmsClients.BodyReadsBack | analytics/src/analytics/core/vms_client.py:286-300 | the server reads back each of the event's fields from the body; what is absent has no key, the edge flag is there exactly on an edge |
| VmsClients.IngestSendsItsEvent | analytics/src/analytics/core/vms_client.py:286-350 | exactly which request and which clip job a call sends, spelled out from the event and the answer |
| VmsClients.ThrottledCallSilences | analytics/src/analytics/core/vms_client.py:316-332 | a call answered 429 with a wait of r seconds leaves nothing due before the end of it |
| VmsClients.VmsClient.PostEventPayload | analytics/src/analytics/core/vms_client.py:388-414 | outcome, requests and clip jobs of a replay; it never raises |
| VmsClients.ReplayReports | analytics/src/analytics/core/vms_client.py:397-414 | a replay reports a delivery for a decoded success, the server's own wait for a 429, and a plain failure otherwise |
| VmsClients.VmsClient.EnqueueLocalClipTask | analytics/src/analytics/core/vms_client.py:416-445 | one clip job with the event's own context, only if the pool takes it |
| VmsClients.TrueExactlyWhen | analytics/src/analytics/core/vms_client.py:274-350 | True means stored by the server or queued, and exactly when the converse fails, lost and replaced answers included |
| VmsClients.RaisesAndQueuesExactlyWhen | analytics/src/analytics/core/vms_client.py:310-342 | exactly when the call raises, and exactly which answers are queued |
| ClientRuns.ClientRunIsALoopRun | analytics/src/analytics/core/vms_client.py:310-414 | what the outbox and loop go through in the whole system is a run of the retry loop, with every answer from the client itself |
| ClientRuns.RequestsCarryTheirOwnEvent | analytics/src/analytics/core/vms_client.py:352-414 | in every run the server reads the event itself off every request sent for it, immediate or replayed, and the only file with it is its own snapshot |
| ClientRuns.EveryStepSendsExactly | analytics/src/analytics/core/vms_client.py:310-414 | in every reachable state, exactly what each step puts on the wire and into the clip queue |
| ClientRuns.ThrottledReplaySilences | analytics/src/analytics/core/vms_client.py:401-402 | a replay answered 429 ends the pass and puts every row off to the end of the wait |
| ClientRuns.RestartEndsEveryCall | analytics/src/analytics/core/vms_client.py:310-342 | a restart ends every call under way and leaves the finished ones as they are |
| ClientRuns.ThrottledCallDefers | analytics/src/analytics/core/vms_client.py:316-332 | a throttled call carries the server's wait to its deferral, which puts every row off to the end of it |
| ClientRuns.ClipsFollowConfirmation | analytics/src/analytics/core/vms_client.py:344-414 | in every run every clip job carries its own event's snapshot and context and an event id under which the server confirmed that event |
| ClientRuns.ClipsNeverOutnumberConfirmations | analytics/src/analytics/core/vms_client.py:388-445 | at most as many clip jobs as confirmations, and at most one confirmation more than lost removals of its row |
| ClientRuns.ServerTakesAtMost | analytics/src/analytics/core/vms_client.py:352-414 | the server stores an event at most once plus once per lost removal plus once per time the edge did not learn of it, and once less while it is yet to be sent |
| ClientRuns.TakenAgainExactlyWhen | analytics/src/analytics/core/vms_client.py:352-414 | from any reachable state the server can come to store an event once more, without a lost removal, if and only if its row is or is about to be written, ahead of the loop or not about to be removed |
| ClientRuns.LostAnswerIsTakenTwice | analytics/src/analytics/core/vms_client.py:382-386 | a run with a lost answer and a replay in which the server stores the event twice |
| ClientRuns.EventsArrive | analytics/src/analytics/core/vms_client.py:274-282 | in every run an event whose call returned True was confirmed, or is pending with its own payload, or was pruned |
| ClientRuns.TheServerCannotStallTheQueue | analytics/src/analytics/core/vms_client.py:28-44 | with a clock that does not run backwards the 900 s bound and the drain bound hold whatever the server answers |
| ClientRuns.IngestIsARun | analytics/src/analytics/core/vms_client.py:310-342 | the method IngestEvent does what its own steps do in the system, for every answer and fault |
| BatchInference.PredictBatch | analytics/src/analytics/core/shared_inference.py:169-210 | detection k of frame i is box k: class, class name, confidence, and corners that scale back to the box's own; from a network that treats frames independently each frame gets its single prediction |
| BatchInference.PredictShows | analytics/src/analytics/core/shared_inference.py:117-167 | the same for a single prediction |
| BatchInference.CoordinatesAreFractions | analytics/src/analytics/core/shared_inference.py:197-206 | a box within the frame has coordinates between 0 and 1, corners in the order they had |
| BatchInference.FilterExact | analytics/src/analytics/core/shared_inference.py:212-218 | the class filter keeps exactly the detections of the classes given |
| BatchInference.PluginTable | analytics/src/analytics/core/shared_inference.py:69-82 | which plugin looks for which classes |
| BatchInference.InferenceFuture.SetResult | analytics/src/analytics/core/orchestrator.py:512-514 | a future is set only while pending, so at most once |
| BatchInference.ResolveGroup | analytics/src/analytics/core/orchestrator.py:495-521 | each future of an engine that is pending at its turn gets its own frame's result or the engine's failure, withdrawn and done ones are untouched |
| BatchInference.GroupByEngine | analytics/src/analytics/core/orchestrator.py:490-493 | groups the batch by engine name, in order, losing and inventing nothing |
| BatchInference.ResolveBatch | analytics/src/analytics/core/orchestrator.py:490-521 | the same for the whole batch: grouping is invisible to every future |
| BatchInference.CollectBatch | analytics/src/analytics/core/orchestrator.py:459-473 | takes a prefix of what is queued or arrives meanwhile, one to eight items, and stops early only when the window closes or a wait runs out |
| BatchInference.Round | analytics/src/analytics/core/orchestrator.py:456-521 | a completed round settles exactly the futures of the prefix it took, those given up while it waited for the GPU included |
| BatchInference.CancelRound | analytics/src/analytics/core/orchestrator.py:475-485 | cancellation while collecting resolves every pending future as empty and empties the queue |
| BatchInference.BuildUnion | analytics/src/analytics/core/orchestrator.py:162-194 | the engine's classes are exactly the union over the loaded plugins that share it |
| BatchInference.SharingIsInvisible | analytics/src/analytics/core/shared_inference.py:212-218 | filtering the union's result equals a private prediction if and only if the plugin has classes or the frame shows nothing |
| BatchInference.SharedRound | analytics/src/analytics/core/orchestrator.py:612-652 | a whole round: every served future holds a result from which each loaded sharing plugin filters exactly its private prediction on that frame, or says failed or cancelled |
| ModelCaches.CacheSizes | edge_agent/src/agent/optimizer.py:61-77 | exactly which memory gives which size |
| ModelCaches.ResourceOptimizer.GetOrLoadModel | edge_agent/src/agent/optimizer.py:105-143 | returns what the loader gives for the path and moves, evicts and adds as the recency list does |
| ModelCaches.ResourceOptimizer.EvictLru | edge_agent/src/agent/optimizer.py:145-155 | removes the one entry with the oldest use |
| ModelCaches.ResourceOptimizer.ClearCache | edge_agent/src/agent/optimizer.py:196-199 | leaves nothing |
| ModelCaches.CachedIsMostRecent | edge_agent/src/agent/optimizer.py:105-143 | on every trace the keys are the most recently requested distinct paths, a prefix of the reference list, and at most K |
| ModelCaches.StaysFullExactlyWhen | edge_agent/src/agent/optimizer.py:120-135 | a request keeps the cache at min(K, n) if and only if the load succeeds or there was a slot to spare |
| ModelCaches.FullThroughoutExactlyWhen | edge_agent/src/agent/optimizer.py:105-143 | over traces: min(K, n) keys at every moment if and only if no load failed while all slots were taken |
| ModelCaches.CachedIsFull | edge_agent/src/agent/optimizer.py:105-143 | while loads succeed there are exactly min(K, n) keys |
| ModelCaches.FailedLoadCostsASlot | edge_agent/src/agent/optimizer.py:120-126 | a failed load on a full cache leaves a slot empty |
| ModelCaches.LargerCacheHoldsMore | edge_agent/src/agent/optimizer.py:145-155 | what a cache of size K holds on a trace, one of size K+1 holds too |
| StreamManagers.StreamManager.StartStream | edge_agent/src/agent/stream_manager.py:83-102 | ignores a running camera, otherwise replaces its record by a new one and launches it |
| StreamManagers.StreamManager.StopStream | edge_agent/src/agent/stream_manager.py:104-114 | removes the camera and ends its process |
| StreamManagers.StreamManager.StopAll | edge_agent/src/agent/stream_manager.py:116-121 | no record and no process is left |
| StreamManagers.StreamManager.Reconcile | edge_agent/src/agent/stream_manager.py:123-145 | the ids become the desired ones, kept cameras and their processes are untouched, removed ones have no process, and a repeat changes nothing |
| StreamManagers.StreamManager.RestartDeadStreams | edge_agent/src/agent/stream_manager.py:147-203 | every camera takes its own step on its own record; no process already issued is affected |
| StreamManagers.StreamManager.LaunchRecord | edge_agent/src/agent/stream_manager.py:205-238 | the record and the processes alive after a launch that fails or succeeds |
| StreamManagers.ExactlyOneOwner | edge_agent/src/agent/stream_manager.py:61-72 | in every valid state, which all methods keep, a process alive belongs to exactly one camera's record |
| StreamManagers.DelaysNeverShrink | edge_agent/src/agent/stream_manager.py:183-193 | the waits set at successive observed deaths are within 5 and 300 s and never shrink |
| StreamManagers.CheckInNumbers | edge_agent/src/agent/stream_manager.py:161-203 | exactly what a check does to a record, in numbers |
| StreamManagers.RestartsAreCounted | edge_agent/src/agent/stream_manager.py:202 | over every history the restart count is the number of relaunch attempts, failed ones included |
| StreamManagers.WaitsGrowWithAttempts | edge_agent/src/agent/stream_manager.py:189-193 | over every history of a new record the wait after n attempts is 5, 10, 20, 40, 80, 160 s and then 300 s |
| StreamManagers.StripSlashExact | edge_agent/src/agent/stream_manager.py:70 | the base address loses its trailing slashes and nothing else |
| StreamManagers.DelayGrows | edge_agent/src/agent/stream_manager.py:189-192 | the wait grows with the restarts and is 300 s exactly from the sixth on |
| StreamManagers.NoEarlyRelaunch | edge_agent/src/agent/stream_manager.py:197-203 | until the next relaunch, a check relaunches if and only if the wait since the death is over |
| StreamManagers.RelaunchIsTimely | edge_agent/src/agent/stream_manager.py:147-161 | with checks at most P apart an observed death leads to a relaunch attempt within the wait plus P |
| StreamManagers.FailedRelaunchHasNoBackoff | edge_agent/src/agent/stream_manager.py:197-203 | after a relaunch attempt any later check relaunches again if and only if it yielded no process |
| StreamManagers.AttemptsAreSpacedExactlyWhen | edge_agent/src/agent/stream_manager.py:150-203 | over histories: between two successive attempts lie an observed death and its backoff if and only if the first yielded a process; otherwise the next check is the next attempt |
| StreamManagers.NeverLaunchedIsNeverRetried | edge_agent/src/agent/stream_manager.py:163-165 | no check ever does anything for a stopped camera if and only if it has no process |
| DetectionCaches.DetectionCache.ShouldProcess | analytics/src/analytics/core/detection_cache.py:73-127 | decision and new cache for every frame, forgetting included |
| DetectionCaches.ProcessedExactlyWhen | analytics/src/analytics/core/detection_cache.py:8-11 | a frame is processed if and only if it or the same camera's previous frame shows something |
| DetectionCaches.WorkDone | analytics/src/analytics/core/detection_cache.py:94-112 | the frames processed in a run are its non-empty ones plus its transitions to empty |
| DetectionCaches.StatisticsNeverOverstate | analytics/src/analytics/core/detection_cache.py:129-147 | the counters behind the hit rate never exceed what was seen, processed and skipped |
| DetectionCaches.CountersAreExact | analytics/src/analytics/core/detection_cache.py:91-115 | while a camera is remembered every field of its state is exact |
| DetectionCaches.ForgottenExactlyWhen | analytics/src/analytics/core/detection_cache.py:114-125 | a remembered camera is forgotten exactly by the skipped frame that completes max_empty_frames empty ones in a row |
| Reconnection.WhatsmeowProvider.EventHandler | arcanum/internal/provider/whatsmeow.go:142-165 | the state after each library event |
| Reconnection.WhatsmeowProvider.QrChannelEvent | arcanum/internal/provider/whatsmeow.go:120-137 | the state after each QR channel event |
| Reconnection.WhatsmeowProvider.Reconnect | arcanum/internal/provider/whatsmeow.go:242-265 | counts the attempt and arms one timer or gives up |
| Reconnection.WhatsmeowProvider.Connect | arcanum/internal/provider/whatsmeow.go:104-109 | the status after a connection attempt, paired or not |
| Reconnection.ArmedIsTheLadder | arcanum/internal/provider/whatsmeow.go:242-264 | the timers armed since the last connection are the first min(10, n) delays of the ladder |
| Reconnection.WaitBetweenConnections | arcanum/internal/provider/whatsmeow.go:250-257 | between two connections the delays total at most 225 s, and exactly that once ten are armed |
| Reconnection.ReconnectsAreBounded | arcanum/internal/provider/whatsmeow.go:242-248 | over any run at most ten timers are armed per connection, the start counting as one |
| Reconnection.ConnectedHidesQrCode | arcanum/internal/provider/whatsmeow.go:144-148 | after every event, connected implies an empty QR code |
| Reconnection.GivesUpAfterTen | arcanum/internal/provider/whatsmeow.go:243-248 | it arms and reports Connecting before the eleventh trigger, and gives up from it on |
| Reconnection.StatusTellsTheLatestEvent | arcanum/internal/provider/whatsmeow.go:104-165 | over every run the status is told by the latest event that has a say in it |
| Reconnection.CodeIsTheLatest | arcanum/internal/provider/whatsmeow.go:120-156 | over every run the code shown is that of the latest QR event, and none after a scan, timeout, connection or logout |
| Reconnection.LadderInSeconds | arcanum/internal/provider/whatsmeow.go:250-253 | the delays are 5, 10, 15, 20, 25 s and then 30 s |
| SharedSse.SharedConnection.DoConnect | frontend/src/hooks/useSSE.ts:60-64 | tears the old connection down and opens the new one |
| SharedSse.SharedConnection.OnError | frontend/src/hooks/useSSE.ts:80-89 | closes the connection, ignores it if stale, starts a refresh if none is in flight |
| SharedSse.SharedConnection.OnRefreshed | frontend/src/hooks/useSSE.ts:88-96 | doubles the backoff and arms a timer |
| SharedSse.SharedConnection.OnTimer | frontend/src/hooks/useSSE.ts:92-95 | reconnects with the fresh or the stored token |
| SharedSse.SharedConnection.OnMount | frontend/src/hooks/useSSE.ts:105-113 | connects if there is no connection or the token differs |
| SharedSse.SharedConnection.OnUnmount | frontend/src/hooks/useSSE.ts:115-120 | tears down with the last listener |
| SharedSse.OneConnectionOneRefresh | frontend/src/hooks/useSSE.ts:12-24 | in every interleaving one EventSource at most is open and it is the one in es, one refresh at most is in flight, the backoff stays within 1 and 30 s |
| SharedSse.RefreshesAreBounded | frontend/src/hooks/useSSE.ts:12-18 | refreshes never outnumber the connections opened, nor timers the refreshes |
| SharedSse.ConnectsExactlyWhen | frontend/src/hooks/useSSE.ts:60-64 | which actions open a connection, and for which token |
| SharedSse.RefreshesExactlyWhen | frontend/src/hooks/useSSE.ts:80-88 | which action starts a refresh, and that a stale callback does nothing |
| SharedSse.TimersExactlyWhen | frontend/src/hooks/useSSE.ts:50-97 | which timers are pending, and which one the module remembers, after every action |
| SharedSse.BackoffIsTheLadder | frontend/src/hooks/useSSE.ts:88-97 | over runs the backoff and the delays armed are 1, 2, 4, 8, 16 and then 30 s by the refreshes since a connection opened |
| SharedSse.ListenersAreTheMounted | frontend/src/hooks/useSSE.ts:105-120 | over runs the listeners are the mounted components, and an unmount that leaves some changes nothing else |
| SharedSse.LastUnmountCloses | frontend/src/hooks/useSSE.ts:115-120 | the last unmount leaves nothing open |
| SharedSse.TwoTimersExactlyWhen | frontend/src/hooks/useSSE.ts:86-97 | an action leads from at most one pending timer to two if and only if a refresh finishes while one is pending |
| SharedSse.OneTimerExactlyWhen | frontend/src/hooks/useSSE.ts:86-97 | over runs: never two pending timers if and only if no refresh finishes while one is pending |
| SharedSse.ReopensExactlyWhen | frontend/src/hooks/useSSE.ts:80-97 | from any reachable state a connection can be opened without a mount if and only if one is open, a refresh is in flight or a timer is pending |
| SharedSse.LastUnmountIsFinalExactlyWhen | frontend/src/hooks/useSSE.ts:50-58 | the last unmount is final if and only if no refresh is in flight and the only timer left is the one it clears |
| SharedSse.TwoTimersCanCoexist | frontend/src/hooks/useSSE.ts:86-97 | a run with two pending timers |
| SharedSse.ReconnectsWithoutListeners | frontend/src/hooks/useSSE.ts:88-95 | a run in which a refresh in flight reopens the connection after the last unmount |

## Left out

- HTTP, SQLite, Redis, ffmpeg, OpenCV, YOLO, whatsmeow and the browser themselves: they appear as parameters, oracles or abstract state.
- Floating point: times, coordinates and delays are reals; rounding and overflow of coordinates are not modelled.
- Integer widths: the limiter's 64-bit milliseconds and SQLite's 64-bit ids and attempt counts are unbounded here.
- JSON serialisation of queued payloads: a payload comes back from the table as it went in; a body that cannot be serialised is an insert that fails.
- Draining.DrainsExactlyWhen: assumes a wall clock that does not step back.
- RetryLoop.NoSilentLoss: the two deletes of a prune are one transaction, as in the source; a thread that outlives the cancellation of the task awaiting it is not modelled.
- RateLimiting.StoredIsRecentHistory: like the optimality theorems of the limiter, assumes a nondecreasing clock; the bound on every window is stated for any clock.
- ClientRuns.EventsArrive: a call and its clip job are one step up to the answer, and the deployment mode does not change between restarts; calls before `start()` only appear in the method.
- ModelCaches.ResourceOptimizer.GetOrLoadModel: assumes strictly increasing use times and a loader that answers the same for the same path; ties between equal times are broken arbitrarily rather than by insertion order.
- BatchInference.ResolveBatch: assumes that an engine name identifies the engine and that every camera waits on a future of its own, as the orchestrator arranges; that the network treats the frames of a batch independently and answers for each is a hypothesis (`BatchInference.Independent`), and so is that asking it for classes filters what it finds (`BatchInference.FiltersClasses`).
- BatchInference.CancelRound: only a cancellation while collecting is modelled; one during inference leaves futures unresolved.
- StreamManagers.StreamManager.Reconcile: overlapping calls are not modelled, since they can orphan a process; a process handle is an identity that is never reused, unlike a process id.
- StreamManagers.StreamProcess: the record is a value in the dictionary, replaced when it changes, so references to it held elsewhere (the stderr reader's) and the stderr tail are not modelled.
- DetectionCaches.DetectionCache.ShouldProcess: `clear_expired` and `reset_all`, which can drop a transition, are not part of the runs.
- Reconnection.WhatsmeowProvider.EventHandler: events and QR channel messages are handled one at a time; the interleaving of their two goroutines inside a handler is not modelled, nor are messages and media.
- SharedSse.SharedConnection.OnTimer: notifications to listeners, message parsing and the login redirect have no effect on the state modelled.
- Path joining in `local_snapshot_path` is plain concatenation with a slash.
- The caches of camera, ROI and watchlist lists, and the plugin filter of a camera: single-branch fallbacks.
- `filter_in_roi` and `centroid`: list filters on top of the polygon test that add nothing to its theorems.
- Load-based frame rates, batch sizes and device selection of the optimizer: tables without state.
- `file_frame_source.py`, activation, credentials, ONVIF, migrations, the API server and the React pages.
