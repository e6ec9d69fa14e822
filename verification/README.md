# Voxels: verified models of the protocol, queueing and lifecycle code

This project models the parts of the Voxels repository whose correctness rests on ordering, chunking and
interleaving, and proves what they are for. `dafny verify dfyconfig.toml` checks all of it.

Code that changes objects in place is a class whose methods are proved equal to a specification function of
the old state; asynchronous code is a machine over its events, cut at the awaits; the properties are lemmas
about the specification functions over every input, every run or every interleaving.

| module | what it models |
|---|---|
| `WebSocketFrames`, `HttpUpgrades`, `LinkInspectors`, `LinkRecounts` | the traffic inspector of the shaped link: upgrade detection, the incremental RFC 6455 parser, the accounting, and an independent recount of it |
| `SerializationClocks`, `ShapedDirections` | the shared serialization clock and one shaped direction with its drain loop |
| `LatencyHistograms` | the bucketed latency percentile |
| `PixelGrids`, `ConnectedComponents`, `ImageAnalysis` | flood-fill analysis of diagnostic sky and of rendered differences |
| `BotIdentities`, `ChunkCaches`, `ChunkWindows` | a bot's identities, its chunk cache and its request window |
| `NativeRebuilds`, `WorkerLifecycles`, `ScenarioCleanups`, `ArtifactPublications` | four lifecycles: rebuild queue, engine worker, scenario resources, publication of the browser build |
| `Checksums`, `PngMetadata` | the PNG checksum and the attachments in screenshots |
| `Base64Url`, `SessionIdentifiers`, `SessionCredentials` | signed player credentials and the client that accepts them |
| `Basics`, `Folds`, `Bits`, `Texts` | shared vocabulary |

## Where the code promises less than one would expect

- A paused source always has a drain loop that will resume it if and only if the queue bound is positive
  (`ShapedDirections.FlowControlNeedsRoom`): with a bound of zero or less one delivered chunk pauses the
  source for good (`ShapedDirections.PausesForeverWithoutRoom`).
- A drain of the rebuild queue that answers true says that the latest rebuild, if any, has not failed if and only
  if work was pending when the drain was called or the latest rebuild had not failed by then
  (`NativeRebuilds.TrueAnswers`): called with nothing pending after a failed rebuild it answers true
  (`NativeRebuilds.TrueAnswerAfterFailedRebuild`). Pending work is left with nobody to do it exactly when the
  initial rebuild throws while work is pending, no timer is armed, no failing drain is about to reschedule, and
  the server is not stopping (`NativeRebuilds.StepKeepsAttended`).
- The scenario's cleanup promise is stored only when the call that starts the cleanup returns. Once everything
  has settled, every resource has been released exactly once if and only if, until then, no callback registered
  a cleanup and none called `cleanup` itself (`ScenarioCleanups.AllReleasedOnce`): such a registration is
  accepted and dropped, and such a call runs every callback a second time
  (`ScenarioCleanups.NestedCleanupReleasesTwice`).
- Two bot ids of different kinds are equal exactly when the exclusive or of their indices is 0x60000
  (`BotIdentities.IdsCollide`), which no population of at most 1024 reaches.
- Decoding the base64url of nothing is an error (`Base64Url.DecodeUndoesEncode`), and re-encoding gives the
  same text exactly when the bits that decoding drops are zero (`Base64Url.EncodeUndoesDecode`).
- The session token has 124 characters exactly when the expiry is at most -36^10, and at most 123 otherwise
  (`SessionCredentials.TokenLength`); the limit of 128 never fires.
- Request ids are fresh for 2^64 - 2 allocations, after which the counter stays at its largest value;
  runs are that short (`ChunkWindows.AnswersAreMatched`).

## Model

| member | source | states |
|---|---|---|
| `WebSocketFrames.MaskInvolution` | automation/lib/network.ts:272-282 | masking a payload twice with one key gives it back |
| `WebSocketFrames.BigEndianRoundTrip` | automation/lib/network.ts:249-263 | a length written in 2 or 8 bytes reads back as itself |
| `WebSocketFrames.DecodeFramePrefixStable` | automation/lib/network.ts:238-285 | a frame or an error found in a buffer does not change when more bytes arrive |
| `WebSocketFrames.HeaderOnTheWire` | automation/lib/network.ts:238-285 | the raw header alone decides: when a frame is incomplete, too large, refused for a reserved bit or complete, and its flag, code and length |
| `WebSocketFrames.PayloadOnTheWire` | automation/lib/network.ts:264-282 | each octet of a decoded payload is the one on the wire, or that one xored with the key's octet at its index modulo four |
| `WebSocketFrames.MaskIsTransformation` | automation/lib/network.ts:272-282 | the parser undoes the masking that section 5.3 of RFC 6455 prescribes to a sender, octet by octet |
| `WebSocketFrames.RefusedExactly` | automation/lib/network.ts:287-330 | exactly which frames are refused, with which error, and that a refused frame changes nothing |
| `WebSocketFrames.FeedSplits` | automation/lib/network.ts:238-330 | one push of two pieces and two pushes agree on messages, first error and residual state |
| `WebSocketFrames.ChunkInvariance` | automation/lib/network.ts:238-330 | any sequence of pushes behaves as one push of the concatenation, from every state between pushes |
| `WebSocketFrames.SplitsAgree` | automation/lib/network.ts:226-330 | any two ways to split one stream give the same messages, error and residual state |
| `WebSocketFrames.StreamBytesConserved` | automation/lib/network.ts:238-330 | without an error, reported frame bytes, pending fragment bytes and buffered bytes add up to the bytes pushed |
| `WebSocketFrames.DecodeUndoesEncode` | automation/lib/network.ts:240-285 | an RFC 6455 frame, masked or not, with any wide enough length field, decodes to its fields and its length |
| `WebSocketFrames.ParseUndoesSerialize` | automation/lib/network.ts:240-330 | every well-formed stream, with fragments and interleaved control frames, yields exactly its messages and no residue |
| `WebSocketFrames.ParseUndoesSerializeInChunks` | automation/lib/network.ts:238-330 | the same under every chunking of the stream |
| `WebSocketFrames.WebSocketFrameParser.FrontFrame` | automation/lib/network.ts:240-277 | decoding the front of the buffer in place agrees with the frame decoder |
| `WebSocketFrames.WebSocketFrameParser.AcceptFrame` | automation/lib/network.ts:287-330 | a frame moves the fragments and the callback's messages as the acceptance function says, errors included |
| `WebSocketFrames.WebSocketFrameParser.Push` | automation/lib/network.ts:238-285 | a push leaves state, messages and error of the specification's feed |
| `SerializationClocks.FinishIsLargestCandidate` | automation/lib/network.ts:538-559 | for every history the finish time is the largest of the initial busy time plus all transmissions and of each reservation's ready time plus the transmissions from it on |
| `SerializationClocks.ReservationWaits` | automation/lib/network.ts:538-559 | finish times never decrease, and each covers the latency and the reservation's own transmission |
| `SerializationClocks.RateIsNeverExceeded` | automation/lib/network.ts:520-559 | bytes finishing between two reservations never exceed the rate times the time between them, whoever shares the clock |
| `SerializationClocks.SerializationClock.Reserve` | automation/lib/network.ts:541-558 | a reservation answers and stores the next finish time |
| `ShapedDirections.StepIsSafe` | automation/lib/network.ts:602-674 | every event keeps byte conservation, the byte count, the single drain loop and the single ordered end of file |
| `ShapedDirections.EveryRunIsSafe` | automation/lib/network.ts:594-675 | all of that over every interleaving of data, end, timer, drain and close events, with backpressure for a positive bound |
| `ShapedDirections.EveryRunIsTimely` | automation/lib/network.ts:607-633 | over every run a chunk is written only when it is due or right after the loop has slept over it, the loop sleeps only over a chunk not yet due, and after a refused write it waits for the destination |
| `ShapedDirections.RunIsNeverEarly` | automation/lib/network.ts:607-633 | if no timer fires before its chunk is due, nothing is ever written before it is due |
| `ShapedDirections.EveryRunIsRegulated` | automation/lib/network.ts:602-667 | over every run all the source emits is received; the source is paused only at the bound, resumed only below half of it, and paused now if and only if it was paused last |
| `ShapedDirections.NothingPassesUninspected` | automation/lib/network.ts:617-620 | a chunk that the inspector throws on is not written and fails the connection |
| `ShapedDirections.NothingAfterFailure` | automation/lib/network.ts:607-674 | after a failure nothing is read, written or ended, and a suspended loop clears the queue and lets the source flow |
| `ShapedDirections.FlowControlNeedsRoom` | automation/lib/network.ts:602-667 | paused means at least half the bound queued with a drain running, and flowing means room, over all runs if and only if the bound is positive |
| `ShapedDirections.PausesForeverWithoutRoom` | automation/lib/network.ts:607-667 | with a bound of at most zero one delivered chunk leaves the source paused with no drain loop, through every later event but new data or a close |
| `ShapedDirections.WakeProgress` | automation/lib/network.ts:607-633 | every wake-up of a live direction strictly shrinks the work left while it drains |
| `ShapedDirections.DrainsToTheEnd` | automation/lib/network.ts:607-674 | after as many wake-ups as there is work, every byte is written, the source flows, and a pending end has been passed on |
| `ShapedDirections.ShapeKeepsBytes` | automation/lib/network.ts:639-660 | cutting into quanta keeps the bytes in order, each quantum non-empty and no longer than the quantum |
| `ShapedDirections.ShapeDeliversInOrder` | automation/lib/network.ts:639-660 | each quantum is due after the one ahead and after its own latency and transmission |
| `ShapedDirections.QuantaFinishTogether` | automation/lib/network.ts:639-660 | reserving a block in quanta at one instant ends when reserving it whole would |
| `ShapedDirections.ShapedDirection.RunLoop` | automation/lib/network.ts:607-633 | the drain loop runs to its next await, failure or end as specified |
| `SerializationClocks.DelayIsWaiting` | automation/lib/network.ts:653-660 | the queue delay that is reported is exactly how long the shared link keeps the quantum waiting |
| `ShapedDirections.ShapedDirection.OnData` | automation/lib/network.ts:639-667 | the data handler cuts, stamps, queues, reports each quantum and a pause, pauses, and starts a drain as specified |
| `ShapedDirections.ShapedDirection.OnEnd` | automation/lib/network.ts:670-673 | the end handler records the end and starts a drain as specified |
| `ShapedDirections.ShapedDirection.OnWake` | automation/lib/network.ts:607-633 | a suspended drain resumes where it was suspended |
| `LatencyHistograms.PercentileIsNearestRank` | automation/lib/network.ts:677-690 | the bucketed percentile is the nearest-rank percentile of the sorted samples for every fraction in [0, 1], and none only without samples |
| `LatencyHistograms.NearestRankIsLeast` | automation/lib/metrics.ts:24-32 | the rank is the least that reaches the fraction of the list |
| `LatencyHistograms.CeilIsLeastAbove` | automation/lib/network.ts:486-492 | samples are rounded up, by less than one |
| `LatencyHistograms.PercentilesAreMonotone` | automation/lib/network.ts:677-690 | a larger fraction never gives a smaller percentile |
| `LatencyHistograms.RecordedSamples` | automation/lib/network.ts:486-492 | buckets hold exactly the multiset of rounded-up samples and their counts add up to the sample count |
| `LatencyHistograms.ReportedPercentile` | automation/lib/metrics.ts:24-32 | what the statistics report is the sorted-list percentile of the rounded-up samples |
| `LatencyHistograms.LatencyPercentile` | automation/lib/network.ts:677-690 | the loop over sorted buckets computes that percentile |
| `HttpUpgrades.ClassifyIsPattern` | automation/lib/network.ts:364-394 | a request line is classified with a path if and only if it matches the upgrade pattern with that path |
| `HttpUpgrades.IndexOfIsFirst` | automation/lib/network.ts:364-394 | the terminator is found where it occurs first, and nowhere only if it does not occur |
| `HttpUpgrades.RequestIsAccepted` | automation/lib/network.ts:364-394 | a matching line, any header lines and the terminator within 64 KiB give the path, and what follows goes to the frame parser |
| `HttpUpgrades.RequestAndStream` | automation/lib/network.ts:333-394 | such a request and a well-formed stream, however cut, give the path and exactly the stream's messages |
| `HttpUpgrades.TooLargeExactly` | automation/lib/network.ts:364-394 | a stream is too large exactly if its first 64 KiB hold no terminator and there is more |
| `HttpUpgrades.ObserveSplits` | automation/lib/network.ts:364-394 | two pieces and their concatenation give the same path, messages, error and state |
| `HttpUpgrades.ObservationIsChunkInvariant` | automation/lib/network.ts:364-394 | the verdict and the bytes handed to the parser do not depend on chunking, even inside the terminator or around 64 KiB |
| `HttpUpgrades.ConnectionSplitsAgree` | automation/lib/network.ts:333-394 | any two splittings of one connection's stream agree |
| `LinkInspectors.CountKeepsBalanced` | automation/lib/network.ts:185-200 | an increment keeps totals equal to sums, and peaks to maxima, over paths |
| `LinkInspectors.MessageKeepsBalanced` | automation/lib/network.ts:396-503 | a message keeps every total equal to each of its breakdowns |
| `LinkInspectors.EveryRunIsBalanced` | automation/lib/network.ts:333-517 | so does every run of connections, queue and backpressure observations and resets |
| `LinkInspectors.LinkIsBalanced` | automation/lib/network.ts:333-517 | a fresh link's totals always agree: sums and peaks over paths, payload over kinds, cancels over their targets, errors over what they said, round trips over buckets |
| `LinkInspectors.CountMovesOnePath` | automation/lib/network.ts:185-200 | an increment goes to its own path, "upgrade" while there is none, in its direction, and to no other |
| `LinkRecounts.LinkIsRecounted` | automation/lib/network.ts:333-517 | over every run each direction's seven totals, each kind's frames, sizes, priorities, cancelled targets and errors, and every round trip are what a recount of the observations since the last reset gives |
| `LinkRecounts.MessageAgrees` | automation/lib/network.ts:396-503 | one more message keeps statistics and memory equal to the recount of the longer log |
| `LinkInspectors.StatisticsRef.Increment` | automation/lib/network.ts:185-200 | an increment changes the totals and one path, and nothing else |
| `LinkInspectors.ConnectionInspector.OnMessage` | automation/lib/network.ts:396-503 | a message moves statistics and memory as specified |
| `LinkInspectors.ConnectionInspector.Observe` | automation/lib/network.ts:364-394 | observed bytes move the connection and the shared statistics as specified, errors included |
| `PixelGrids.ShiftedIsAdjacent` | automation/lib/image.ts:148-170 | a neighbour offset inside the grid is the adjacent pixel: no wrap across a row |
| `PixelGrids.PerimeterIsEdge` | automation/lib/image.ts:149 | a pixel is on the perimeter if and only if one of its eight neighbours would be off the grid |
| `PixelGrids.NeighborTable` | automation/lib/image.ts:388-403 | the guarded table of eight offsets lists exactly the adjacent pixels |
| `PixelGrids.NeighborsByOffset` | automation/lib/image.ts:154-168 | the scan over row and column offsets lists exactly the adjacent pixels |
| `ConnectedComponents.SameComponent` | automation/lib/image.ts:130-188 | components are reachability classes |
| `ConnectedComponents.FloodEnds` | automation/lib/image.ts:130-188 | an exhausted stack has popped exactly the component of the start, and exactly the popped pixels are newly visited |
| `ConnectedComponents.Flood` | automation/lib/image.ts:134-177 | one flood counts its component once, and says whether it touches the perimeter |
| `ConnectedComponents.TallyComponent` | automation/lib/image.ts:177-187 | adding a whole component keeps all four reported numbers right |
| `ConnectedComponents.CensusIsComplete` | automation/lib/image.ts:130-200 | boundary-connected and enclosed pixels add up to the set pixels |
| `ConnectedComponents.EnclosedIsSurrounded` | automation/lib/image.ts:130-188 | a pixel is enclosed if and only if every pixel of its component has all eight neighbours on the grid, and boundary-connected otherwise |
| `ConnectedComponents.LargestIsMonotone` | automation/lib/image.ts:374-432 | a larger mask never has a smaller largest component |
| `ConnectedComponents.AnalyzeMask` | automation/lib/image.ts:130-188 | the analysis reports exactly the components of the mask, with samples from the enclosed ones |
| `ConnectedComponents.LargestComponent` | automation/lib/image.ts:374-407 | the result is the size of the largest component, zero for none |
| `ImageAnalysis.RoiIsInside` | automation/lib/image.ts:66-109 | a valid region covers at least one pixel and none outside the image |
| `ImageAnalysis.RoiOverlaps` | automation/lib/image.ts:102-107 | a column or row is in the region exactly when it overlaps the fractions' interval |
| `ImageAnalysis.DiagnosticByBytes` | automation/lib/image.ts:115-123 | whether a pixel is diagnostic, by its own three bytes in the buffer |
| `ImageAnalysis.BuildMask` | automation/lib/image.ts:110-128 | the mask marks exactly the diagnostic pixels of the region, the count is theirs, and the samples are the first of them |
| `ImageAnalysis.FirstSetIsFirst` | automation/lib/image.ts:125-126 | the samples are diagnostic pixels, all of them up to 32, and any other comes after them all |
| `ImageAnalysis.AnalyzeDiagnosticSky` | automation/lib/image.ts:97-205 | succeeds exactly on valid regions, with counts, components, first samples and enclosed samples of the region's mask |
| `ImageAnalysis.CountsPartition` | automation/lib/image.ts:341-373 | left, right, union, intersection and disagreement counts are one consistent partition |
| `ImageAnalysis.CompareMasks` | automation/lib/image.ts:341-373 | the three masks and seven counts are those of the two occupancies |
| `ImageAnalysis.CompareGeometry` | automation/lib/image.ts:341-432 | counts agree, and the one-sided largest components never exceed the disagreement's |
| `BotIdentities.UnmixUndoesMix` | bots/src/run.rs:1278-1283 | the mixer has a left inverse on 64-bit words |
| `BotIdentities.MixUndoesUnmix` | bots/src/run.rs:1278-1283 | and the same right inverse, so it is a bijection |
| `BotIdentities.MixerByExample` | bots/src/run.rs:1278-1283 | the first output from zero, and a word's bytes in little-endian order |
| `BotIdentities.IdIsTwoWords` | bots/src/run.rs:1027-1037 | an id is two mixed words, its nil patch never fires, and it is never nil |
| `BotIdentities.IdsCollide` | bots/src/run.rs:1027-1037 | two ids are equal exactly for equal indices in one domain, or indices 0x60000 apart across domains |
| `BotIdentities.PopulationIsDistinct` | bots/src/run.rs:1017-1037 | for every seed and up to 1024 bots all ids are pairwise distinct and non-nil |
| `ChunkCaches.InsertKeepsValid` | bots/src/cache.rs:20-31 | the order lists the keys once, within capacity; an insertion drops at most the oldest entry |
| `ChunkCaches.RunKeepsLatest` | bots/src/cache.rs:20-43 | over every run the cache holds exactly its latest admissions, in order |
| `ChunkCaches.ReadAfterApply` | bots/src/cache.rs:33-54 | a changed voxel reads back if its chunk is cached, and every other voxel reads as before |
| `ChunkCaches.ReadIsLastWrite` | bots/src/cache.rs:20-54 | over every run and whatever was evicted, a voxel of a cached chunk reads as the later of its last edit and its chunk's last insertion |
| `ChunkCaches.ChunkCache.Insert` | bots/src/cache.rs:20-31 | the eviction loop ends, with the specified cache |
| `ChunkCaches.ChunkCache.Apply` | bots/src/cache.rs:33-38 | a voxel changes in its cached chunk only |
| `ChunkWindows.AcceptedIsPermutation` | bots/src/run.rs:1106-1128 | an envelope is accepted if and only if its source is right and it is a permutation of the request |
| `ChunkWindows.RepetitionIsRejected` | bots/src/run.rs:1106-1128 | a batch with a repetition is never accepted |
| `ChunkWindows.WantedIsFresh` | bots/src/run.rs:630-667 | a new batch has no repetition, nothing in flight, and exactly the representable neighbours that are neither cached nor in flight |
| `ChunkWindows.StepKeepsConsistent` | bots/src/run.rs:630-838 | the in-flight set stays the disjoint union of the pending batches, within the window, with the cache valid |
| `ChunkWindows.Run` | bots/src/run.rs:243-838 | over every run with fresh ids that holds |
| `ChunkWindows.AnswersAreMatched` | bots/src/run.rs:719-838 | an answer to a batch that a resync retired changes nothing; one that reaches the cache is a permutation of its request |
| `ChunkWindows.AnswerReadsBack` | bots/src/run.rs:719-760 | after any run, each current chunk of an accepted answer within capacity is in the cache as it came; what is asked for is never cached already |
| `ChunkWindows.StoreBringsNothingElse` | bots/src/run.rs:744-760 | what is cached after an answer was cached before or is a current chunk the answer brought for that coordinate |
| `ChunkWindows.MutationsReadBack` | bots/src/run.rs:1143-1160 | after a commit each cached voxel reads as its last mutation made it, and every other as before |
| `ChunkWindows.RequestAsks` | bots/src/run.rs:630-667 | a bot with room asks for everything it wants under the next id, and a full or satisfied one does nothing |
| `ChunkWindows.NeighborsAreTheCube` | bots/src/run.rs:636-648 | the neighbourhood is exactly the coordinates at most one step away in each direction |
| `ChunkWindows.AnswerFinishes` | bots/src/run.rs:719-829 | an answer or error takes its batch out of table and in-flight set, accepted or not, and no other |
| `ChunkWindows.ResyncForgets` | bots/src/run.rs:830-838 | after a resync nothing is cached, pending or in flight |
| `ChunkWindows.ChunkRequests.Begin` | bots/src/run.rs:259-264 | a batch enters the table and the in-flight set |
| `ChunkWindows.ChunkRequests.Finish` | bots/src/run.rs:266-272 | a batch leaves both, and only it |
| `ChunkWindows.BotRuntime.AllocateRequestId` | bots/src/run.rs:937-941 | ids count up from one and stick at the largest word |
| `ChunkWindows.BotRuntime.RequestLocalChunks` | bots/src/run.rs:630-667 | a request takes the wanted neighbourhood under the next id, or nothing |
| `ChunkWindows.BotRuntime.HandleResult` | bots/src/run.rs:719-760 | a result finishes its batch and stores accepted chunks as specified |
| `ChunkWindows.BotRuntime.HandleResync` | bots/src/run.rs:830-838 | a resync empties cache and window and retires every pending batch |
| `NativeRebuilds.StepKeepsAccounted` | vite.config.ts:208-241 | one rebuild at most, each request pending or covered by a later start, each reload flag the OR of its requests, and when a drain answers true |
| `NativeRebuilds.StepKeepsAttended` | vite.config.ts:572-598 | pending work keeps a drain, a timer or a failing drain, except by the one step that strands it |
| `NativeRebuilds.EveryRunIsSafe` | vite.config.ts:208-241 | all of it over every interleaving of requests, timer, completions, failures and stop |
| `NativeRebuilds.TrueAnswers` | vite.config.ts:222-241 | over every run, a drain that answers true leaves nothing pending; the latest rebuild has then not failed if and only if work was pending at the call or it had not failed by then |
| `NativeRebuilds.RequestIsServed` | vite.config.ts:213-241 | every request is pending or covered by a later rebuild start |
| `NativeRebuilds.ScheduleIsRequest` | vite.config.ts:590-598 | unless stopping, scheduling requests with its flag and arms the timer |
| `NativeRebuilds.TimerRebuilds` | vite.config.ts:594-597 | a timer over pending work starts a rebuild that covers every request so far |
| `NativeRebuilds.CompletionRebuilds` | vite.config.ts:226-240 | a rebuild that ends over newer work is followed by one that covers it, success or not |
| `NativeRebuilds.FailureReschedules` | vite.config.ts:572-582 | a failed drain over pending work schedules another |
| `NativeRebuilds.NothingStartsAfterStop` | vite.config.ts:418-420 | after a stop no run of events requests or starts a rebuild or arms the timer |
| `NativeRebuilds.ThrowingInitialBuildStrandsWork` | vite.config.ts:638-653 | a run in which the initial rebuild throws and later work waits for nothing |
| `NativeRebuilds.TrueAnswerAfterFailedRebuild` | vite.config.ts:222-241 | the other case happens: a run in which a drain, called with nothing pending, answers true after the latest rebuild failed |
| `NativeRebuilds.NativeRebuildQueue.Drain` | vite.config.ts:222-241 | a drain's first segment refuses, awaits a rebuild or returns as specified |
| `NativeRebuilds.NativeRebuildQueue.Continue` | vite.config.ts:226-240 | so does the loop after a rebuild has answered |
| `WorkerLifecycles.EnqueueKeepsLast` | web/worker-queue.ts:6-16 | the queue is the log of messages with only the last resize and last reduced-motion setting kept, in place |
| `WorkerLifecycles.KeepLastMeans` | web/worker-queue.ts:6-16 | of each kind of display state the queue keeps the last message and of everything else all, in order |
| `WorkerLifecycles.MessageQueue.EnqueueBeforeWorkerBoot` | web/worker-queue.ts:6-16 | the backward splice and push compute that queue |
| `WorkerLifecycles.StepKeepsSafe` | web/worker.ts:349-373 | an engine that boots is destroyed once, by the end of disposal and never before; "destroyed" is posted once |
| `WorkerLifecycles.StepKeepsInOrder` | web/worker.ts:638-669 | what is dispatched is the coalesced pre-boot log, then later messages in arrival order; a prefix of the log if a dispatch threw |
| `WorkerLifecycles.EveryRunIsSafe` | web/worker.ts:349-669 | both over every ordering of messages, boot, failures and disposal |
| `WorkerLifecycles.StepHears` | web/worker.ts:349-669 | disposal begins exactly on a destroy message, a second start, a failed boot, a throwing dispatch or an uncaught error, each but the first posting one error; a first start boots |
| `WorkerLifecycles.EveryMessageIsHeard` | web/worker.ts:349-669 | over every run what calls for the end disposes for good, a start boots unless disposed, and a live worker has heard every message and its engine been given them, coalesced, in order |
| `WorkerLifecycles.DisposalIsFinal` | web/worker.ts:349-373 | after disposal begins nothing is dispatched and no second error is posted |
| `WorkerLifecycles.DisposalFinishes` | web/worker-lifecycle.ts:6-24 | once the boot has settled, disposal closes the worker, with the engine destroyed if there was one |
| `WorkerLifecycles.EngineWorker.StartDisposal` | web/worker.ts:349-367 | disposal takes over engine and boot, and empties the queue in place |
| `WorkerLifecycles.EngineWorker.OnMessage` | web/worker.ts:638-669 | a message boots, fails, queues, disposes or dispatches as specified |
| `WorkerLifecycles.EngineWorker.OnBooted` | web/worker.ts:649-659 | a booted engine takes over the queue, unless disposal owns it |
| `WorkerLifecycles.EngineWorker.OnBootFailed` | web/worker.ts:660-664 | a failed boot fails the worker, unless disposal has begun |
| `WorkerLifecycles.EngineWorker.ResumeDisposal` | web/worker-lifecycle.ts:6-24 | disposal's next segment destroys the engine or closes the worker |
| `ScenarioCleanups.StepKeepsSafe` | automation/lib/scenario.ts:124-217 | each loop, re-entrant ones included, calls what was registered at its start singly in reverse order; a failing callback stops none and gives one error, in that order |
| `ScenarioCleanups.LoopIsAccountable` | automation/lib/scenario.ts:201-217 | wherever the invariant holds, a loop's k-th call is the snapshot's k-th from the end, numbers descend, and the errors are exactly the failed calls, in order |
| `ScenarioCleanups.EveryRunIsSafe` | automation/lib/scenario.ts:124-217 | over every interleaving, re-entrant cleanups included, each loop calls its snapshot from the last index down, so a later registration is always released before an earlier one, and its errors are exactly the failing callbacks in that order |
| `ScenarioCleanups.AcquisitionLosesRace` | automation/lib/scenario.ts:131-153 | an acquisition after an abort or the stored promise is released at once and registered nowhere; otherwise it is registered last |
| `ScenarioCleanups.ReleaseCount` | automation/lib/scenario.ts:131-217 | once settled, a resource has been released once by each loop that started over it and once by an acquisition that came too late; never more before |
| `ScenarioCleanups.CalmReleasesOnce` | automation/lib/scenario.ts:131-217 | with one loop and no late registration nothing is ever released twice, and everything is once it has settled |
| `ScenarioCleanups.AllReleasedOnce` | automation/lib/scenario.ts:124-217 | once settled, every resource has been released exactly once if and only if no callback registered a cleanup or called `cleanup` before the promise was stored |
| `ScenarioCleanups.LateRegistrationIsDropped` | automation/lib/scenario.ts:124-217 | a run that never releases a resource so registered |
| `ScenarioCleanups.NestedCleanupReleasesTwice` | automation/lib/scenario.ts:196-217 | a run that releases a resource twice after such a call |
| `ScenarioCleanups.CleanupFinishes` | automation/lib/scenario.ts:201-217 | whatever the callbacks answer, a suspended loop ends once each has settled, and no other loop changes |
| `ScenarioCleanups.ScenarioContext.Defer` | automation/lib/scenario.ts:124-129 | registers, or refuses once the cleanup promise is stored |
| `ScenarioCleanups.ScenarioContext.Acquire` | automation/lib/scenario.ts:131-153 | keeps the resource, or releases it at once after abort or cleanup |
| `ScenarioCleanups.ScenarioContext.Cleanup` | automation/lib/scenario.ts:196-199 | starts a loop over the registered cleanups unless the promise is stored, inside a running callback too |
| `ScenarioCleanups.ScenarioContext.CallbackEnds` | automation/lib/scenario.ts:201-217 | a callback's end records a failure and goes on to its loop's next callback or end |
| `ArtifactPublications.PublishIsAtomic` | scripts/build-wasm.ts:212-239 | stopped anywhere, a marked output is the untouched one or exactly the staged set; completed, exactly the staged set; a missing marker leaves it untouched |
| `ArtifactPublications.JavaScriptImpliesCompanions` | scripts/build-wasm.ts:226-233 | a newly placed JavaScript file implies that every staged other artifact is in place |
| `ArtifactPublications.GlueBringsItsModule` | scripts/build-wasm.ts:226-233 | once the glue has been moved, the module beside it is the staged one |
| `ArtifactPublications.RunIsNeverMixed` | scripts/build-wasm.ts:212-239 | over any sequence of interrupted publications a marked output is one whole staged set |
| `ArtifactPublications.ReusedIsWhole` | scripts/build-wasm.ts:285-330 | a build that is accepted as current is one whole staged set, of the requested profile and identity |
| `ArtifactPublications.CompletedBuildIsReused` | scripts/build-wasm.ts:285-330 | a completed build is reused exactly when its module is as new as the inputs and its glue is there |
| `ArtifactPublications.PublishWasmArtifacts` | scripts/build-wasm.ts:212-239 | the steps on the two directories, stopped anywhere, have the specified effect |
| `Checksums.ShiftIsLinear` | web/png-metadata.ts:4-12 | the shift register is linear under exclusive or |
| `Checksums.UpdateIsEightBits` | web/png-metadata.ts:43-49 | one table look-up does what eight data bits do |
| `Checksums.BuildTable` | web/png-metadata.ts:4-12 | the table holds each byte shifted eight times |
| `Checksums.PolynomialIsReflected` | web/png-metadata.ts:4-12 | the constant is the standard's polynomial, reflected |
| `Checksums.ChecksumIsComplement` | web/png-metadata.ts:43-49 | the checksum is the complement of the register, which starts with all ones |
| `Checksums.Crc32` | web/png-metadata.ts:43-49 | the table-driven loop computes the bit-serial CRC-32 of section 3.4 of RFC 2083 on every byte string |
| `PngMetadata.U32RoundTrip` | web/png-metadata.ts:18-32 | a number written in four bytes reads back modulo 2^32 |
| `PngMetadata.ChunkCarriesItsChecksum` | web/png-metadata.ts:120-125 | every embedded chunk carries the checksum of its type and payload |
| `PngMetadata.ChunksSurvive` | web/png-metadata.ts:114-132 | all original chunks survive byte for byte in order, IHDR first and the new chunk second |
| `PngMetadata.HeaderIsAccepted` | web/png-metadata.ts:114-119 | every file that begins with the signature and a whole IHDR takes an attachment right after it |
| `PngMetadata.EmbedsExactly` | web/png-metadata.ts:77-132 | exactly when an embedding succeeds |
| `PngMetadata.KeysByExample` | web/png-metadata.ts:77-112 | accepted and refused keywords and private types |
| `PngMetadata.LatinByExample` | web/png-metadata.ts:135-153 | bytes read as characters, but for the windows-1252 range |
| `PngMetadata.PrivateTypeIsNoneOfThese` | web/png-metadata.ts:101-112 | a validated private type is never IEND, tEXt or IHDR |
| `PngMetadata.TextRoundTrip` | web/png-metadata.ts:77-169 | the keyword just embedded reads back exactly, older chunk or not; other keywords and types read as before, errors included |
| `PngMetadata.BinaryRoundTrip` | web/png-metadata.ts:101-169 | the same for a private attachment |
| `PngMetadata.EmbedPngChunkBytes` | web/png-metadata.ts:114-132 | filling the chunk and the file in place gives the specified file or error |
| `PngMetadata.EmbedPngText` | web/png-metadata.ts:77-91 | the validated embedding of a text, with its errors |
| `PngMetadata.EmbedPngBinary` | web/png-metadata.ts:101-112 | the validated embedding of an attachment, with its errors |
| `PngMetadata.ReadPngText` | web/png-metadata.ts:135-153 | the loop gives the first matching text among the chunks; a broken file is an error only if nothing matched before |
| `PngMetadata.ReadPngBinary` | web/png-metadata.ts:156-169 | the same for attachments |
| `Base64Url.DecodeUndoesEncode` | cloudflare/session.ts:162-176 | decoding undoes encoding, except of nothing |
| `Base64Url.EncodeUndoesDecode` | cloudflare/session.ts:162-176 | encoding undoes decoding exactly on canonical text |
| `Base64Url.EncoderIsUnpadded` | cloudflare/session.ts:162-166 | by way of padded base64 and character replacement the program computes the unpadded encoding |
| `Base64Url.DecoderIsUnpadded` | cloudflare/session.ts:168-176 | so does its decoder, a lone last digit failing |
| `Base64Url.VectorsOfTheStandard` | cloudflare/session.ts:162-166 | the encoder on the vectors of section 10 of RFC 4648 and on the last two digits of the URL alphabet |
| `Base64Url.GroupIsNumber` | cloudflare/session.ts:162-166 | three bytes and their four digits are one number, most significant first |
| `SessionIdentifiers.UuidRoundTrip` | cloudflare/session.ts:135-152 | a lower-case, hyphenated, non-nil identifier comes back unchanged |
| `SessionIdentifiers.HighHalfFirst` | cloudflare/session.ts:147-152 | each byte is written high half first in lower-case hexadecimal |
| `SessionIdentifiers.ConversionRoundTrip` | cloudflare/session.ts:135-152 | any accepted identifier comes back in standard form, carried by 22 characters |
| `SessionIdentifiers.ReadUuidIsWritten` | cloudflare/session.ts:147-152 | whatever is read as an identifier passes the client, and writes back to its text exactly if that was canonical |
| `Texts.ParseUndoesPrint` | cloudflare/session.ts:46-90 | a base-36 expiry parses back, negative or not, and has no dot |
| `Texts.DotsSeparate` | cloudflare/session.ts:81-90 | splitting cuts at every dot and nowhere else, and joining undoes it |
| `SessionCredentials.VerifyAcceptsSigned` | cloudflare/session.ts:115-133 | verification accepts a signature, and among canonical texts only that one |
| `SessionCredentials.VerifyUndoesIssue` | cloudflare/session.ts:44-103 | an issued credential verifies to its claims exactly under its name and before its expiry |
| `SessionCredentials.VerifiedIsWellformed` | cloudflare/session.ts:81-103 | verified claims always have client-acceptable identifiers and the requested name |
| `SessionCredentials.VerifiedIsSigned` | cloudflare/session.ts:81-103 | only six parts under the identity version with the keyed hash of the first five and a future safe expiry verify, and the claims are what the parts spell |
| `SessionCredentials.TokenReadsBack` | cloudflare/session.ts:53-67 | a session token splits into version, expiry, both identifiers and nonce, which read back, and a signature that verifies under the session key |
| `SessionCredentials.IssuedTokenSays` | cloudflare/session.ts:53-79 | the token of every response says what the response says, for 43200 seconds |
| `SessionCredentials.NewPlayerIsFresh` | cloudflare/session.ts:23-79 | without a credential the response and its token carry the fresh identifiers |
| `SessionCredentials.NamesByExample` | cloudflare/session.ts:5-9 | accepted and refused player names |
| `SessionCredentials.RefreshKeepsIdentity` | cloudflare/session.ts:23-79 | a refresh gives the same identity before expiry under the name, and is denied otherwise |
| `SessionCredentials.ChainKeepsIdentity` | cloudflare/session.ts:23-103 | any chain of unexpired refreshes under one name keeps both identifiers, even when the session key rotates |
| `SessionCredentials.TokenLength` | cloudflare/session.ts:53-67 | a session token has 124 characters if and only if the expiry is at most -36^10, and fewer otherwise |
| `SessionCredentials.LongestToken` | cloudflare/session.ts:53-67 | the earliest safe expiry reaches 124 |
| `SessionCredentials.IssuedIsAccepted` | web/client-authorization.ts:111-144 | with long enough keys issuing never fails, and the client accepts exactly when its clock is off by [-3600, 42900) seconds |

## Left out

- Real time: link times are reals, timers are events that carry their clock readings, and JavaScript rounding is not modelled.
- A quantum or a bandwidth that is not positive: the shaper's callers never pass one, and a quantum of zero would never end.
- The link profile's defaults, the sockets themselves, and the path back from a throwing inspector to them: a throw is one outcome of a turn and destroys the connection.
- `LinkInspectors.LinkIsBalanced`: speaks of the sum over paths and not of each path, because bytes seen before the upgrade path is known depend on chunking.
- Control errors are kept apart by their bytes, so two that decode to one text, or a malformed frame and a text that says so, are two entries; their sum is the same.
- The last and largest observed round trip, the outbound rate and total and largest queue delay of the statistics; snapshots of them; message kinds as names.
- Path names that collide with members that every JavaScript object inherits.
- The two ways a flood lists neighbours are one method with a flag; SSIM, luma, colour differences, fractions and image decoding are not modelled.
- `ChunkWindows.AnswerReadsBack`: for an answer with at most as many current chunks as the cache holds; a larger one evicts its own first chunks.
- `ChunkWindows.Run`: chunk decoding, revision currency and edit volumes are inputs of the events; only batches of chunks are modelled, not terrain requests of other kinds.
- `TrafficCounters` and the report of bots/src/run.rs: saturating sums without a property across operations.
- Server-side behaviour of timers and processes around the rebuild queue: a rebuild is an event that completes, fails or throws.
- Readiness posting and screenshot polling of the worker, and what the engine does with a message.
- `temporaryDirectory` of the scenario context, which registers a memoized removal in the same list; callbacks that call `cleanup` without end, whose stack overflow is one more callback that throws.
- The normalisation of the TypeScript declaration before publication, sub-directories in the output, and file-system errors other than stopping.
- `PngMetadata.TextRoundTrip`: for payloads below 2^32 bytes, as a chunk's length field demands.
- HMAC-SHA256, randomness and JSON: the keyed hash is an arbitrary function, identifiers and nonces are arbitrary valid inputs, and a response is a record with every field present.
- UTF-8 beyond ASCII in a credential's name: any such name is refused, whatever the decoder makes of it.
- `SessionCredentials.IssuedIsAccepted`: for times whose expiries are safe integers.
