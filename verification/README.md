# Verified model of the distributed runtime and of the sort and attention kernels

The repository runs a large language model on one machine or on several. This project
models the two parts whose correctness is hardest to see by reading, and proves what they
are for.

**The distributed runtime (`ds4_distributed.c`).** A coordinator owns the first layers and
plans a chain of workers for the rest. A long prompt is pipelined through the chain: a
producer fills a ring of send slots, a sender thread drains it, every worker has a bounded
job queue, an evaluator and a relay with a FIFO of pending requests, and a reader thread
checks ids and hashes under a flow window. `PrefillMachine.dfy` is that protocol as a state
machine whose actions are the lock-held blocks, socket reads and socket writes, with
failures as actions of their own. Layers, embedding, output head and wire codec are
arbitrary functions. The main theorem, `PrefillOutcome.ZeroMeansPlainLoop`, says that for
every interleaving and every pattern of modelled failures a call that returns 0 leaves all
caches and the logits exactly as the plain chunk-by-chunk loop does, and
`PrefillOutcome.ZeroMeansEveryLayerRan` says the same in terms of layer calls alone;
`SingleMachine.LogitsAreTheSame` carries this on to one machine holding all layers.
`PrefillLiveness.dfy` shows that runs without failures never deadlock and always end.
Around the protocol: the token hash and the KV guard it implements, the route search, the
route blob, the snapshot format with its checked size arithmetic, and the 16-bit codec.

**The kernels (`metal/*.metal`).** Each is a fast form of a simple function: the bitonic
network (argsort, router, row sort), the merge-path merge, the Walsh-Hadamard butterfly, the
online softmax, the blocked attention kernel, and the small-float rounding. Phases between
two barriers run their threads in an arbitrary order. Scores and values are reals, so rows
contain no NaN and rounding of float additions is not modelled.

## How the files fit together

| files | subject |
|---|---|
| `Bits`, `Blocks`, `Threads`, `Permutations`, `Results`, `Words` | bit and index arithmetic, thread ids, rearrangements, outcomes, words as bytes |
| `TokenHash`, `TokenCollisions`, `WorkerSession` | rolling hash, what it tells apart, and the guard on a worker's cache |
| `Inference`, `PlainLoop`, `SingleMachine` | the engine as functions, the plain loop layer by layer, independence of the split |
| `PrefillFrames`, `LinkedFifo`, `Monitors`, `PrefillReader`, `PrefillMachine`, `PrefillMonitors` | frames, linked lists, locked queues, the reader loop, the pipelined protocol, and the queues carrying it out |
| `PrefillCore`, `PrefillAligned`, `PrefillRefinement`, `PrefillLoss`, `PrefillOutcome`, `PrefillLiveness`, `PrefillWire` | its invariants, the theorem, deadlock freedom and termination, what is on the wire |
| `RoutePlan`, `RouteBlob` | route search and the route's byte format |
| `KvSizes`, `KvFormat`, `KvRestore`, `KvSnapshot`, `KvGather` | snapshot sizes, formats, restoring a shard, load, save |
| `Rounding`, `HalfFloat`, `Float8` | nearest-even rounding, binary16 codec, E4M3FN and E2M1FN |
| `BitonicSort`, `SortKernels`, `MergePath`, `TopK`, `Hadamard` | in-place kernels and the top-k passes built from them |
| `OnlineSoftmax`, `IndexedAttention`, `AttentionFormula` | attention |

Assumptions, all explicit in the contracts: where equal hashes must mean equal prefixes,
`NoCollision` says so; the exponential is any positive function that turns sums into
products. The engine's own rules are modelled, not assumed: a span is evaluated only at the
end of a session's tokens, or at position 0 of a session without a valid checkpoint, and is
then appended (ds4.c:26276-26312); a reset drops the tokens before it can fail
(ds4.c:26198-26220); a restore compares a shard with the session's caches
(ds4.c:23798-24030).

Four properties hold only under a condition, and the condition is proved exactly.

- A worker's KV guard (a valid stored hash is the hash of the session's tokens) is kept by
  every event, whatever a frame claims and whether hashes collide or not, except exactly one:
  a RESET that fails on a session whose hash is valid and not that of the empty timeline
  (`WorkerSession.StepKeepsGuardsExactly`, over runs `RunIsGuardedExactly`, an instance
  `FailedResetBreaksGuard`). The engine has then dropped the tokens and the worker keeps the
  old hash. With an honest coordinator and no collision that does no harm:
  `EveryEvaluationContinuesThePrompt` includes runs with failed resets.
- The prefill can return 0 if and only if the span fits the workers' contexts, only the last
  worker is asked for logits, and the workers' sessions take the span where it starts
  (`PrefillLiveness.ZeroIsPossibleExactly`).
- A saved payload loads along a new route if and only if it fits the coordinator's session
  and the caches of every machine of that route (`KvGather.SaveThenLoad`). For sessions as the
  engine creates them that means: the new contexts are as large, have room for one more
  token, and give the same sliding window (`KvGather.MovesExactly`). So a full session is
  refused by one of its own size (`KvGather.FullSessionIsRefused`), and a session shorter than
  the model's sliding window is refused by every longer one.
- The ascending row sort sorts every row if and only if `top_k` is zero or a power of two
  (`SortKernels.SortRowWorksExactlyForPowersOfTwo`). The comment on that kernel
  (metal/dsv4_misc.metal:322-325) does not say so; it is a precondition that the dispatch
  keeps, since it returns early for any other `top_k` (ds4_metal.m:19165).

## Model

| member | source | states |
|---|---|---|
| TokenHash.UpdateToken | ds4_distributed.c:1495-1502 | the byte loop over one token computes the modular hash step on its four bytes, which TokenBytesSum and TokensToldApart fix |
| TokenHash.TokenBytesSum | ds4_distributed.c:1496-1500 | the four bytes are the token as a 32-bit word, least significant first |
| TokenHash.UpdateSpan | ds4_distributed.c:1504-1507 | the loop over a span continues a hash exactly as hashing the span's bytes |
| TokenHash.ContinueConcat | ds4_distributed.c:1504-1511 | hashing in chunks equals hashing the whole prefix |
| TokenHash.MismatchPersists | ds4_distributed.c:1495-1507 | for any fixed suffix the update is injective in the starting state, so a prefix mismatch is never repaired |
| TokenHash.SingleByteChangeDetected | ds4_distributed.c:1495-1502 | changing any one byte of a sequence changes its hash |
| TokenHash.HashOfOneToken | ds4_distributed.c:1492-1511 | the hash of the timeline [1] is 10473572386864919714, which is not the hash of the empty timeline |
| TokenCollisions.FourBytesDistinct | ds4_distributed.c:1495-1502 | from any state, different four-byte words lead to different states |
| TokenCollisions.TokensToldApart | ds4_distributed.c:1495-1511 | exchanging one token anywhere in a prompt changes the hash if and only if the two tokens differ as 32-bit words |
| TokenCollisions.OneTokenPrompts | ds4_distributed.c:1509-1511 | prompts of one token hash alike exactly when the tokens are the same 32-bit word |
| WorkerSession.Worker.HandleWork | ds4_distributed.c:7433-7497 | the locked WORK section, case by case: what the session holds, and whether its hash is valid, after a refused frame, a failed reset, a hash mismatch, a refused position, a failed and a successful evaluation; other sessions are untouched |
| WorkerSession.OutcomeOfSpan | ds4_distributed.c:7433-7497 | the same for the step function of the session table |
| WorkerSession.Worker.HandleLoad | ds4_distributed.c:7109-7130 | a successful restore leaves exactly the restored cache and tokens, a valid checkpoint and their valid hash, a failed one an invalid hash over the old tokens, and a refused one nothing; other sessions are untouched |
| WorkerSession.RestoredSessionContinues | ds4.c:24009-24022 | after a restore the span that continues the restored tokens is evaluated, and the session then holds both with their hash |
| WorkerSession.StepKeepsGuardsExactly | ds4_distributed.c:7444-7497 | every event keeps the guard of all sessions unless, and only unless, a RESET fails on a session whose hash is valid and not the empty timeline's; nothing is assumed of the frame or of collisions |
| WorkerSession.RunIsGuardedExactly | ds4_distributed.c:6972-7497 | a run is guarded throughout if and only if no RESET in it leaves a stale hash |
| WorkerSession.FailedResetBreaksGuard | ds4_distributed.c:7444-7454 | a RESET that fails over the timeline [1] leaves the hash of [1], still marked valid, over an empty timeline |
| WorkerSession.EvaluatedSpanExtendsExactPrefix | ds4.c:26276-26312 | without collisions an evaluated span of an honest coordinator starts at the timeline's end and the timeline is the coordinator's prefix, even where a failed reset has left a stale hash |
| WorkerSession.GuardHoldsOnEveryRun | ds4_distributed.c:6972-7497 | over every run of resets, spans and loads, honest or not, a valid hash is the prefix hash of the session's tokens as long as no RESET has left a stale hash |
| WorkerSession.EveryEvaluationContinuesThePrompt | ds4_distributed.c:7433-7497 | every evaluation in a run, failed resets included, continues exactly the prompt the coordinator had |
| Inference.ChunkShape | ds4_distributed.c:3811-3824 | chunks are non-empty, contiguous, at most the cap long, and the last one ends the span |
| PlainLoop.RunFollowsTrace | ds4.c:26512-26525 | any account of a run of layers in which each layer takes the previous one's output gives the caches and the hidden state of the run |
| PlainLoop.EvalSpan | ds4_distributed.c:2670-2784 | one span through all machines, layer by layer: each layer gets the hidden state of the one before, each machine what came over the wire, with its own layer index, cache and position |
| PlainLoop.PrefillSequential | ds4_distributed.c:3811-3826 | the plain loop comes with an account of every layer call on every chunk of the prompt, ending in its caches and logits |
| PlainLoop.TraceIsPlainLoop | ds4_distributed.c:3811-3826 | every such account ends in the same caches and logits |
| Inference.LocalStep | ds4_distributed.c:2670-2784 | a machine's new cache and output depend only on its own cache and incoming hidden state |
| SingleMachine.LayersSplit | ds4_distributed.c:2670-2784 | a run of layers can be cut between any two layers |
| SingleMachine.CachesAreTheSame | ds4_distributed.c:3811-3826 | with exact transport the chain's caches, end to end, are those of one machine holding all layers |
| SingleMachine.LogitsAreTheSame | ds4_distributed.c:3811-3826 | and so are the logits, wherever the output head runs |
| PrefillFrames.HashChain | ds4_distributed.c:3689-3700 | each chunk's prefix hash is the previous chunk's result hash and both are hashes of the prompt itself |
| PrefillFrames.ExpectedHashes | ds4_distributed.c:3593-3602 | the table filled before the reader starts holds the prompt's hash at every chunk end |
| Monitors.FillTouchesNoQueuedSlot | ds4_distributed.c:3152-3169 | the slot being filled is none of the queued ones, so filling changes nothing the sender may read |
| Monitors.PublishAppends | ds4_distributed.c:3171-3187 | publishing makes the filled slot the newest queued one |
| Monitors.ReleaseDropsOldest | ds4_distributed.c:3260-3263 | releasing removes exactly the oldest slot, so slots leave in acquisition order |
| Monitors.PrefillSender.AcquireSlot | ds4_distributed.c:3152-3169 | a slot handed out is the tail, lies in the array and is none of those the sender may be reading; none is handed out after a stop or failure |
| Monitors.PrefillSender.EnqueueSlot | ds4_distributed.c:3171-3187 | appends the filled slot to the queue unless stopped |
| Monitors.PrefillSender.ReleaseSlot | ds4_distributed.c:3260-3263 | drops the oldest queued slot |
| LinkedFifo.Fifo.Append | ds4_distributed.c:6327-6333 | linking a node behind the tail, or as head of an empty list, appends to the contents and keeps head, tail, links and count consistent |
| LinkedFifo.Fifo.TakeHead | ds4_distributed.c:7702-7706 | unlinking the head removes the oldest value, and the tail is reset when the list becomes empty |
| LinkedFifo.Fifo.UnlinkAfter | ds4_distributed.c:6371-6373 | rewriting the link behind `prev` removes exactly that node, and the tail moves back if it was the last |
| LinkedFifo.Fifo.RemoveFirst | ds4_distributed.c:6362-6384 | the link walk removes the first matching node and nothing else, or reports that there is none |
| Monitors.JobQueue.Enqueue | ds4_distributed.c:7673-7691 | appends to the linked list within the bound, refuses once closed or canceled |
| Monitors.JobQueue.Pop | ds4_distributed.c:7693-7710 | takes the oldest job off the linked list; none exactly when canceled or drained |
| Monitors.Forwarder.EnqueueRequest | ds4_distributed.c:6307-6336 | appends to the linked list unless closing, and a bounded list stays within its window |
| Monitors.Forwarder.PopRequest | ds4_distributed.c:6338-6360 | takes the oldest pending request off the linked list, none exactly when it is empty |
| Monitors.Forwarder.RemoveRequest | ds4_distributed.c:6362-6384 | unlinks the first request with the id, wherever it stands, and nothing else |
| PrefillMonitors.Acquire | ds4_distributed.c:3152-3169 | when the protocol can acquire a slot, the ring object hands one out that the sender may not read |
| PrefillMonitors.Fill | ds4_distributed.c:3643-3693 | writing the acquired slot turns the ring object into the protocol's next ring |
| PrefillMonitors.Publish | ds4_distributed.c:3171-3187 | when the protocol publishes, the ring object accepts the slot and becomes the protocol's next ring |
| PrefillMonitors.Release | ds4_distributed.c:3260-3263 | releasing turns the ring object into the protocol's next ring |
| PrefillMonitors.Enqueue | ds4_distributed.c:7673-7691 | when the protocol enqueues, the linked queue neither waits nor refuses and becomes the protocol's next queue |
| PrefillMonitors.PopNextJob | ds4_distributed.c:7693-7710 | popping the linked queue yields the job the protocol evaluates next |
| PrefillMonitors.Track | ds4_distributed.c:6307-6336 | when the protocol tracks a request, the linked FIFO accepts it and becomes the protocol's next FIFO |
| PrefillMonitors.Relay | ds4_distributed.c:6512-6541 | the popped request is the one the answer is for, and appending its telemetry gives the answer the protocol relays |
| PrefillMonitors.Untrack | ds4_distributed.c:6765-6776 | a request that could not be sent leaves the linked FIFO as it does in the protocol |
| PrefillMonitors.StopListening | ds4_distributed.c:6440-6456 | when the protocol's relay stops, taking the oldest request and closing the FIFO gives the protocol's next FIFO and the request to answer with an error |
| PrefillMonitors.Refuse | ds4_distributed.c:6307-6336 | behind a stopped relay the closed FIFO refuses a request and stays as it is |
| PrefillMachine.ShapeKept | ds4_distributed.c:3513-3778 | every enabled action leads to a well-formed state |
| PrefillReader.ReadResults | ds4_distributed.c:3343-3419 | the reader completes exactly when the first N frames are, in order, acceptable answers to consecutive request ids with the expected hashes and chunk lengths, and otherwise stops at the first that is not |
| PrefillWire.AcceptableExactly | ds4_distributed.c:3366-3405 | an answer is accepted exactly with its id, the hash of the prompt up to the chunk's end, and a payload that fits the chunk |
| PrefillWire.EvaluatesExactly | ds4_distributed.c:7148-7497 | a frame is evaluated exactly when it is for this hop and its layers, fits the context, asks for logits on the last hop only, has consistent hashes and continues the session from its end |
| PrefillCore.CoreStep | ds4_distributed.c:3152-3266 | control, ring contents, local cache and all queue bounds are kept by every action, failures included |
| PrefillCore.SentFrameIsIdeal | ds4_distributed.c:3217-3263 | whatever the sender writes is the frame the plain loop would send for that chunk |
| PrefillAligned.LayersAreIdeal | ds4_distributed.c:7433-7497 | a worker that starts from the plain loop's cache and frame produces the plain loop's next cache and output |
| PrefillAligned.RelayReadLocal | ds4_distributed.c:6512-6605 | the next worker's oldest answer belongs to the oldest pending request, and extending it gives the answer to relay |
| PrefillRefinement.InitialAligned | ds4_distributed.c:3513-3600 | the initial state matches the plain loop with all counters at zero |
| PrefillRefinement.CoordinatorStep | ds4_distributed.c:3152-3416 | producer, sender and reader steps keep every queue equal to a slice of the plain loop's frames |
| PrefillRefinement.WorkerStep | ds4_distributed.c:6425-6780 | so do receive, enqueue, pop, evaluate, track, forward, reply and relay steps of every worker |
| PrefillLoss.LostStep | ds4_distributed.c:6765-6776 | once a chunk's request or answer is lost, no step brings a valid answer for it back |
| PrefillOutcome.RequestIsUnique | ds4_distributed.c:6742-6764 | a chunk waiting at one worker has no other copy anywhere |
| PrefillOutcome.AnswerIsUnique | ds4_distributed.c:6512-6605 | an answer on its way up has no other copy anywhere |
| PrefillOutcome.SoundOnEveryRun | ds4_distributed.c:3513-3778 | every reachable state either matches the plain loop or has irrevocably lost a chunk that was not accepted |
| PrefillOutcome.ZeroMeansPlainLoop | ds4_distributed.c:3513-3778 | for every interleaving and every failure pattern, a call that returns 0 left all caches and logits as the plain loop does |
| PrefillOutcome.ZeroMeansEveryLayerRan | ds4_distributed.c:3513-3778 | a call that returned 0 holds the caches and the logits of every layer-by-layer account of the prompt |
| PrefillOutcome.ZeroMeansSingleMachine | ds4_distributed.c:3513-3778 | with exact transport and a contiguous route those logits are the single machine's |
| PrefillOutcome.RingAndWindowSafety | ds4_distributed.c:3166-3335 | on every run the slot being written is not readable by the sender, slots go out in order, and at most `window` chunks are unanswered |
| PrefillOutcome.AnswersMatchPending | ds4_distributed.c:6512-6560 | while nothing is lost no answer ever meets a pending request with another id |
| PrefillOutcome.PendingIsOutstanding | ds4_distributed.c:6742-6764 | the pending FIFO is exactly what is on the wire below and unanswered, in order, plus the request about to be sent |
| PrefillOutcome.TelemetryIsComplete | ds4_distributed.c:7553-7562 | an answer that reaches the coordinator carries one telemetry record per worker, last hop first |
| PrefillOutcome.FlagsReachEveryWorker | ds4_distributed.c:7388-7398 | RESET reaches every worker with the first chunk only, and ACK_ONLY suppresses only the last hop's output |
| PrefillLiveness.ResetReadies | ds4_distributed.c:7444-7460 | a RESET run needs nothing of the workers' sessions |
| PrefillLiveness.SomeStepEnabled | ds4_distributed.c:3320-3341 | in every unfinished state that matches the plain loop some non-failing action is enabled |
| PrefillLiveness.UnfinishedRunsContinue | ds4_distributed.c:3513-3778 | a fault-free run that has not succeeded can always be continued without a failure |
| PrefillLiveness.FaultFreeRunsEnd | ds4_distributed.c:3513-3778 | every fault-free run is at most as long as a fixed budget |
| PrefillLiveness.ZeroIsPossibleExactly | ds4_distributed.c:3513-3778 | some run of the call returns 0 if and only if the span fits the workers and their sessions take it where it starts, and then a fault-free one does |
| PrefillLiveness.FaultFreeRelaysPair | ds4_distributed.c:6512-6605 | on every fault-free run requests and answers pair up at every hop |
| PrefillLiveness.FaultFreeTelemetryInOrder | ds4_distributed.c:6583-6589 | on every fault-free run what waits for the reader carries one telemetry record per worker, last hop first |
| PrefillLiveness.FaultFreeFlags | ds4_distributed.c:7388-7398 | on every fault-free run RESET and ACK_ONLY reach every worker with the chunks they belong to, and only the last hop suppresses its output |
| PrefillWire.FaultFreeWire | ds4_distributed.c:3643-3700 | on every fault-free run the sockets hold the requests and answers of consecutive chunks, every field in terms of the prompt, the route and the layer outputs |
| RoutePlan.CompareIsAnOrder | ds4_distributed.c:1933-1942 | the qsort comparison is antisymmetric, transitive, and zero only for equal ranges and output flags |
| RoutePlan.ComparePrefers | ds4_distributed.c:1933-1942 | the lower first layer ranks first, then a worker with the output head, then the longer range |
| RoutePlan.CandidateMeans | ds4_distributed.c:1944-1952 | a worker that stops short must return hidden states; one that reaches the end must have the head, or return hidden states to a coordinator that has it |
| RoutePlan.Search | ds4_distributed.c:1954-1989 | succeeds exactly when some chain of acceptable workers covers the layers, returns within the path array the chain that ranks first at every hop, and otherwise reports the furthest layer reached |
| RoutePlan.CoverIsContiguous | ds4_distributed.c:1963-1984 | a covering chain consists of registered acceptable workers with consecutive ranges, only the last reaching the end |
| RoutePlan.Build | ds4_distributed.c:2225-2259 | the plan is empty, the covering chain that ranks first at every hop, or the furthest missing layer, as the registry allows |
| Words.BigEndianRoundTrip | ds4_distributed.c:1583-1611 | network order and back is the identity both ways |
| Words.LittleEndianRoundTrip | ds4_distributed.c:591-609 | little-endian order and back is the identity both ways |
| Words.WordValue | ds4_distributed.c:591-609 | the bytes are the base-256 digits of the word, most or least significant first |
| RouteBlob.Append | ds4_distributed.c:2135-2171 | appends the record of a hop, or refuses an empty or overlong host or a blob over 32 bits |
| RouteBlob.AppendReturn | ds4_distributed.c:2173-2199 | appends the UPSTREAM return record within 32 bits |
| RouteBlob.FieldsOfEntry | ds4_distributed.c:114-120 | a record is host length, port, first layer, last layer, flags and host, in this order |
| RouteBlob.ReturnRecord | ds4_distributed.c:122-126 | the return record byte by byte |
| RouteBlob.TakeInvertsWrite | ds4_distributed.c:6014-6044 | reading a written record gives the record and leaves the rest |
| RouteBlob.WriteInvertsTake | ds4_distributed.c:6138-6158 | whatever reads as a record is that record's encoding |
| RouteBlob.ValidateReturn | ds4_distributed.c:6185-6215 | the return checks accept exactly the UPSTREAM record |
| RouteBlob.Validate | ds4_distributed.c:6119-6217 | the pointer loop computes the recursive validator |
| RouteBlob.AcceptsWritten | ds4_distributed.c:6119-6217 | every acceptable route is accepted when written out |
| RouteBlob.AcceptedIsWritten | ds4_distributed.c:6119-6217 | every accepted blob is an acceptable route written out |
| RouteBlob.ValidatorIsExact | ds4_distributed.c:6119-6217 | the validator accepts exactly the encodings of acceptable routes |
| RouteBlob.RouteIsContiguous | ds4_distributed.c:6167-6179 | accepted hops are contiguous and only the last can carry the logits flag |
| RouteBlob.AcceptableRoute | ds4_distributed.c:6119-6217 | what an accepted route is: host names of 1 to 1024 bytes without NUL, ports from 1 to 65535, adjacent layer ranges inside the model, no logits flag but on a last hop that ends with the last layer |
| RouteBlob.GetEntry | ds4_distributed.c:5999-6050 | the lookup loop returns the record at the index or fails |
| RouteBlob.LookupFindsHop | ds4_distributed.c:5999-6050 | looking up hop i of a written route gives hop i |
| RouteBlob.GetReturn | ds4_distributed.c:6052-6117 | the return lookup steps over all records and reads the return record |
| RouteBlob.ReturnIsUpstream | ds4_distributed.c:6052-6117 | the return target of a written route is UPSTREAM |
| RouteBlob.PlanIsAccepted | ds4_distributed.c:2261-2311 | every chain found among admitted workers becomes a blob every worker accepts |
| RouteBlob.PlanIsFound | ds4_distributed.c:2261-2311 | hop i of the blob written for a plan has the i-th worker's host, port, layers and output flag |
| RouteBlob.WritePlan | ds4_distributed.c:2261-2311 | the blob loop writes the whole route or reports that it exceeds 32 bits |
| KvSizes.Add64 | ds4_distributed.c:693-697 | the exact sum, or overflow exactly when 64 bits cannot hold it |
| KvSizes.Mul64 | ds4_distributed.c:699-704 | the exact product, or overflow exactly when 64 bits cannot hold it |
| KvSizes.StateBytes64 | ds4_distributed.c:4597-4609 | 64 bytes per dimension for ratio 4, 4 bytes per dimension and ratio step otherwise, or overflow exactly when that does not fit |
| KvSizes.TensorBytes64 | ds4_distributed.c:4611-4654 | a layer's tensor size in numbers for ratio 0, 4 and other, or overflow exactly when it does not fit |
| KvSizes.LayerSize | ds4_distributed.c:4611-4654 | the same numbers for the size that cutting and gathering use |
| KvSizes.RawLiveIsWindow | ds4_distributed.c:4671-4677 | a layout must hold exactly the rows of the positions still inside the window |
| KvFormat.WordsRoundTrip | ds4_distributed.c:591-609 | words written and read back are the same words |
| KvFormat.ParseInvertsWire | ds4_distributed.c:5226-5303 | parsing a written snapshot gives the snapshot |
| KvFormat.WireInvertsParse | ds4_distributed.c:5226-5303 | what parses is a loadable snapshot written out |
| KvFormat.LoadableExactly | ds4_distributed.c:5226-5303 | the coordinator's own checks pass exactly for a loadable snapshot written out, which the payload then determines; the route plays no part |
| KvFormat.PayloadFormat | ds4_distributed.c:4793-4817 | where every field, token, logit, row count and tensor stands in a payload |
| KvFormat.ShardFormat | ds4_distributed.c:4819-4845 | and in a shard |
| KvFormat.TokenInBound | ds4_distributed.c:5278-5287 | a token must be a vocabulary id and fit a 32-bit int |
| KvRestore.ReadCounts | ds4.c:23871-23901 | the count loop reads exactly the counts that neither the shard's limit nor the machine's layer caches refuse |
| KvRestore.ReadTensors | ds4.c:23914-24005 | reading the tensors layer by layer uses up the shard exactly when the layers' sizes add up to it |
| KvRestore.Restore | ds4.c:23798-24030 | the engine's header, layout, count and length checks accept exactly the shards of the acceptance predicate |
| KvRestore.AcceptsExactlyWhatFits | ds4.c:23843-23900 | a machine accepts its shard of a sound snapshot if and only if the snapshot's layout and row counts fit its caches |
| KvRestore.WindowIs | ds4.c:10970-10972 | the session's window is the model's, or the context if that is shorter, and at least one |
| KvRestore.CapCountsGroups | ds4.c:10984-10997 | a layer's cache holds every full group of the context and two rows more |
| KvRestore.MinRatioIsLeast | ds4.c:10979-10984 | the ratio that sizes the common cache is the least one in use |
| KvRestore.RestoredExactly | ds4.c:10970-10998 | between two sessions as the engine creates them a shard is restored if and only if the new context is as large, has room for one more token and gives the same sliding window |
| KvSnapshot.ValidateRoute | ds4_distributed.c:4878-4905 | accepts exactly the routes that start at layer 0, have no gap or overlap and cover all layers |
| KvSnapshot.CopyLayers | ds4_distributed.c:5006-5017 | copies exactly the bytes of the slice's layers, or fails exactly when they are not there |
| KvSnapshot.PrepareShard | ds4_distributed.c:4985-5029 | the shard of a slice, and what is left of the payload |
| KvSnapshot.Split | ds4_distributed.c:5305-5361 | the loop over shards succeeds exactly when the bytes suffice for every layer and every machine accepts its shard |
| KvSnapshot.Load | ds4_distributed.c:5212-5378 | accepts exactly the loadable payloads whose shards all machines of the route accept, and hands each machine the shard of its own layers |
| KvGather.TotalBytes64 | ds4_distributed.c:4768-4779 | the running sum of a slice's tensor bytes reports overflow exactly when the total does not fit in 64 bits |
| KvGather.ReadShard | ds4_distributed.c:4679-4791 | the read loops, checks and byte comparison compute the shard parser |
| KvGather.ShardParses | ds4_distributed.c:4679-4791 | the parser reads from a snapshot's shard exactly its layers |
| KvGather.ShardParsed | ds4_distributed.c:4679-4791 | what parses as a shard is a written shard with consistent sizes |
| KvGather.SavedIsUnique | ds4_distributed.c:5128-5172 | the shards of a route determine the snapshot |
| KvGather.Save | ds4_distributed.c:5079-5210 | saving succeeds exactly when the shards are those of one snapshot, and writes that snapshot |
| KvGather.SavingALoadRestoresThePayload | ds4_distributed.c:5079-5378 | for every accepted payload and every route, the shards handed out save back to the payload byte for byte |
| KvGather.LayersDoNotDependOnTheRoute | ds4_distributed.c:5305-5358 | along any route the owner of a layer gets exactly that layer's tensors and row counts |
| KvGather.SaveThenLoad | ds4_distributed.c:5079-5378 | a snapshot saved along one route loads along any other if and only if it fits the coordinator's session and every machine of the new route, and each machine then gets its shard of the very snapshot saved |
| KvGather.MovesExactly | ds4_distributed.c:5079-5378 | for sessions as the engine creates them the load succeeds if and only if the coordinator's and all machines' contexts are as large, have room for one more token and give the same sliding window |
| KvGather.FullSessionIsRefused | ds4_distributed.c:5248-5255 | every saved session that fills its context is refused, along any route, by a session of the same size or smaller |
| HalfFloat.UnitsStep | ds4_distributed.c:850-877 | neighbouring binary16 codes differ by one unit in the last place, also across exponents |
| Rounding.NearestIsUnique | ds4_distributed.c:818-848 | in any increasing table at most one entry is nearest with ties to the even index |
| Rounding.Bracketed | metal/dsv4_kv.metal:74-81 | between two neighbouring entries the distances decide, at a tie the even index; above the table the last entry is nearest |
| HalfFloat.EncodeRoundsToNearestEven | ds4_distributed.c:818-848 | every non-NaN input keeps its sign and becomes the nearest binary16 code, ties to even, subnormals, carries and overflow included; NaN becomes a quiet NaN |
| HalfFloat.KnownCodes | ds4_distributed.c:818-848 | the codes of 1, -2, the largest finite number and the first that overflows |
| HalfFloat.KnownTinyCodes | ds4_distributed.c:818-848 | the smallest subnormal, and the tie below it that rounds to zero |
| HalfFloat.EncodeIsMonotone | ds4_distributed.c:818-848 | encoding never reverses the order of two numbers, infinities included |
| HalfFloat.Normalise | ds4_distributed.c:860-867 | the shift loop turns a subnormal fraction into an equal normal number |
| HalfFloat.Decode | ds4_distributed.c:850-877 | decoding is exact for every code |
| HalfFloat.EncodeInvertsDecode | ds4_distributed.c:818-877 | encoding a decoded non-NaN code gives the code |
| HalfFloat.Transport | ds4_distributed.c:818-877 | a second trip over a 16-bit wire changes nothing |
| Float8.TableIncreases | metal/dsv4_kv.metal:51-57 | the E4M3FN code values strictly increase from 0 to 448 |
| Float8.ValueInUnits | metal/dsv4_kv.metal:51-57 | each E4M3FN code in units of 2^-9: three mantissa bits, hidden bit from code 8 on, one doubling per exponent |
| Float8.SmallInUnits | metal/dsv4_kv.metal:86-98 | each E2M1FN code in halves: one mantissa bit, hidden bit from code 2 on, one doubling per exponent |
| Float8.DequantE4M3 | metal/dsv4_kv.metal:59-84 | binary search and neighbour test round to the nearest code of the clamped input, ties to the even code |
| Float8.DequantE2M1 | metal/dsv4_kv.metal:86-98 | the scan rounds to the nearest of the eight values, ties to the even code |
| Float8.RoundsIsUnique | metal/dsv4_kv.metal:59-98 | rounding is a function of its input |
| Float8.RoundsIsNearest | metal/dsv4_kv.metal:59-98 | no representable value of either sign is closer to the clamped input |
| Float8.RoundsIsIdempotent | metal/dsv4_kv.metal:59-98 | rounding a rounded value changes nothing |
| Bits.XorPow2 | metal/argsort.metal:72-73 | the partner index col ^ j adds or subtracts j |
| Bits.AndPow2 | metal/argsort.metal:74 | (col & k) == 0 reads one bit |
| Bits.XorDigit | metal/argsort.metal:72-73 | each binary digit of a ^ b is the sum of the digits without a carry |
| Bits.AndDigit | metal/argsort.metal:74 | each binary digit of a & b is one where both are |
| Bits.AndMask | metal/dsv4_kv.metal:175 | masking with 2^p - 1 is the remainder modulo 2^p |
| BitonicSort.ThreadStep | metal/argsort.metal:72-91 | threads of one phase do not disturb each other, in whatever order they run |
| BitonicSort.RunPhase | metal/argsort.metal:71-94 | one barrier-to-barrier phase computes the phase function for every thread order |
| BitonicSort.RunNetwork | metal/argsort.metal:70-95 | the doubly nested loop computes the network |
| BitonicSort.HalfCleaner | metal/argsort.metal:71-94 | one compare-exchange across a bitonic sequence leaves two bitonic halves in order |
| BitonicSort.PhaseRefinesBlocks | metal/argsort.metal:71-94 | what the inner loop of a stage keeps: blocks stay bitonic and become ordered |
| BitonicSort.NetworkSorts | metal/argsort.metal:70-95 | for every power-of-two width and every total preorder the network sorts |
| BitonicSort.NetworkPermutes | metal/argsort.metal:70-95 | for every width and every comparison the network only rearranges |
| SortKernels.Argsort | metal/argsort.metal:51-105 | writes the first top_k sorted indices of the block as far as the output row reaches, and nothing else |
| SortKernels.ArgsortIsDescending | metal/argsort.metal:66-105 | the block's indices come out permuted, in descending score order, all padding indices last |
| SortKernels.RouterFinalize | metal/dsv4_misc.metal:226-279 | in score mode six different experts by probability plus bias, best first, none outside better; in hash mode the token's table row, clamped |
| SortKernels.SortRow | metal/dsv4_misc.metal:326-358 | the row sort computes the network on its row, with out-of-range partners skipped |
| SortKernels.SortRowWorksExactlyForPowersOfTwo | metal/dsv4_misc.metal:338-357 | it sorts every row if and only if top_k is zero or a power of two, and always only rearranges |
| MergePath.TakenIsBalanced | metal/argsort.metal:180-205 | the sequential left-preferring merge always stands at a balanced split |
| MergePath.BalancedIsUnique | metal/argsort.metal:180-205 | there is only one balanced split after k outputs |
| MergePath.Partition | metal/argsort.metal:177-205 | the binary search stays in bounds and ends on the sequential merge's state after k0 outputs |
| MergePath.MergeThread | metal/argsort.metal:136-262 | one thread writes exactly its chunk of the merge |
| MergePath.ChunksTile | metal/argsort.metal:164-175 | every output position belongs to exactly one thread |
| MergePath.MergeKernel | metal/argsort.metal:136-262 | for any number of threads in any order the first min(total, top_k) places hold the prefix of the merge |
| MergePath.MergeIsDescending | metal/argsort.metal:222-262 | the merge is the two runs rearranged into one descending run |
| MergePath.SortedBlockIsRun | metal/argsort.metal:119-120 | the in-row part of an argsorted block is a descending run of valid indices, as the merge needs |
| MergePath.EqualScoresLeftFirst | metal/argsort.metal:235-258 | among equal scores the left run comes first |
| TopK.SurvivorsAreBest | ds4_metal.m:12545-12551 | what the cut of one argsorted block drops loses to top_k entries that stay |
| TopK.SortBlocks | metal/argsort.metal:95-105 | the argsort pass, groups in any order, lays the survivors of all blocks side by side without a gap |
| TopK.OutputLeads | metal/argsort.metal:222-262 | the k-th output of a merge is no worse than the k-th entry of either run |
| TopK.MergeBest | metal/argsort.metal:136-262 | merging the runs of two neighbouring ranges keeps what can be among the best of both |
| TopK.MergePass | ds4_metal.m:12598-12640 | one merge pass, groups in any order, turns runs of one length into runs of twice the length |
| TopK.SelectTopK | ds4_metal.m:12519-12646 | for any device limits the passes yield the row's top_k best indices in descending order, and fail exactly when top_k is zero or exceeds the row |
| Hadamard.BaseIsThread | metal/dsv4_kv.metal:175 | the base index of a working thread is its own id |
| Hadamard.ThreadStep | metal/dsv4_kv.metal:173-182 | pairs of one phase are disjoint |
| Hadamard.TransformIsSignedSum | metal/dsv4_kv.metal:173-182 | output i is the sum over j of input j signed by the parity of i AND j |
| Hadamard.TwiceScales | metal/dsv4_kv.metal:173-182 | applying the transform twice multiplies by the width |
| Hadamard.Rotate | metal/dsv4_kv.metal:173-182 | the stride loop computes the transform in place for every power-of-two width |
| Hadamard.Rotate128 | metal/dsv4_kv.metal:173-182 | at width 128, the one the indexer uses, entry i becomes the signed sum |
| OnlineSoftmax.Registers.AttendRow | metal/dsv4_misc.metal:497-512 | the register update is one step of the online form |
| OnlineSoftmax.Registers.AttendSink | metal/dsv4_misc.metal:551-570 | the sink is a step with a row of zeros |
| OnlineSoftmax.RunningSums | metal/dsv4_misc.metal:388-403 | after any rows M is the running maximum and S and o are the weighted sums relative to it |
| OnlineSoftmax.OutputIsAverage | metal/dsv4_misc.metal:667-676 | the output is the softmax average and the zero test never fires |
| OnlineSoftmax.OrderDoesNotMatter | metal/dsv4_misc.metal:388-403 | the same rows in another order give the same output |
| IndexedAttention.RowAtATime | metal/dsv4_misc.metal:577-676 | the row-at-a-time kernel computes the reference over ring rows, selected rows and sink, which OutputFormula spells out |
| IndexedAttention.SixteenAtATime | metal/dsv4_misc.metal:685-807 | the blocked kernel attends the same rows in the same order, hence the same output |
| AttentionFormula.OutputFormula | metal/dsv4_misc.metal:577-676 | the output of both is the average over the ring rows in the window and the visible selected rows, weighted by the exponential of their scaled scores, the sink adding weight alone |
| AttentionFormula.ScoreOfRow | metal/dsv4_misc.metal:491-495 | the score of a row changes with each query component by that component of the row times the scale, and is zero for a query of zeros |
| AttentionFormula.DotOfUpdate | metal/dsv4_misc.metal:491-495 | every component counts in the product with its own factor |
| AttentionFormula.DotOfZeros | metal/dsv4_misc.metal:491-495 | a query of zeros gives zero |
| AttentionFormula.VisibleRows | metal/dsv4_misc.metal:638-639 | a compressed row is visible exactly when its last position is not after the query |
| AttentionFormula.RingRowsFollow | metal/dsv4_misc.metal:620-623 | the oldest live position is in row raw_start, each later one in the next row of the ring |
| IndexedAttention.GatherBlock | metal/dsv4_misc.metal:759-772 | one block gathers exactly the next selected rows and says whether the scan is over |
| IndexedAttention.EarlyStopDropsNothing | metal/dsv4_misc.metal:642-649 | the early stop drops no visible id if and only if none stands behind an invisible one |
| IndexedAttention.SortedSelectionIsComplete | metal/dsv4_misc.metal:326-358 | after the row sort with a power-of-two top_k exactly the visible ids of the selection are attended |
| IndexedAttention.ReferenceIsAverage | metal/dsv4_misc.metal:667-676 | that output is the softmax average over the attended rows and the sink |
| IndexedAttention.RingCoversWindow | metal/dsv4_misc.metal:611-623 | the ring part attends exactly the positions in the window, not after the query, among the last n_raw |
| IndexedAttention.RingRowsDistinct | metal/dsv4_misc.metal:621-623 | different positions read different ring rows while the ring holds them all |

## Left out

- Payload bytes of WORK and RESULT frames: activations, tokens and logits travel as values; frame headers, sizes and malformed frames are not part of the machine (a frame that cannot be parsed counts as lost).
- Request ids: unbounded here, 64-bit with wrap-around in the source.
- Telemetry: only the fields that identify a hop and a span; timing, byte counts and the send-done note are not modelled.
- Condition-variable waits: a wait appears as the precondition under which it ends; progress callbacks are not modelled.
- Replies under transport failure: the send-failure path and the relay can both answer a request, so exactly-once is stated for fault-free runs only.
- Recovery: rebuilding a session after an error keeps the same plan and is not modelled; nothing is claimed about its success.
- PrefillLiveness.ZeroIsPossibleExactly: the coordinator's own engine session is taken to hold exactly the tokens before the span.
- The 8-bit wire codec: it is not nearest-rounding just below its smallest normal number and relies on float addition.
- KvSnapshot.Load: a failing load is not atomic in the source: machines before the refusing one have restored their shards; the model says which payloads fail, not what a failing load leaves on each machine. Device, file and socket failures during a restore are not part of it.
- Snapshot transfer: request and chunk frames between coordinator and workers carry the shard bytes unchanged here.
- qsort: the search starts from a registry already sorted by the comparison function.
- Worker registry: adding, replacing and forgetting workers under the lock.
- MergePath.MergeKernel: index arithmetic is unbounded, so launch sizes that overflow 32 bits are not modelled; the same holds for the other kernels except IndexedAttention.
- Host-side kernel dispatch, except the top-k passes: every kernel is proved for all launch sizes its contract allows. TopK.SelectTopK is one row; the rows of a batch do not touch each other's buffers.
- IndexedAttention.RowAtATime: staging of a row by 128 threads is one copy, the half-precision cast happens when the caches are given, and positions stay below 2^32 - 16.
- Hadamard.Rotate: the scaling by 1/sqrt(128), the block maximum and the FP4 step behind the butterfly.
- Float8.DequantE4M3: the power-of-two block scale around the rounding.
- Mask kernels, dense attention, matrix multiplication, RoPE, SwiGLU and copies: little provable structure beyond indexing.
- Sockets, name resolution, options, logging, temporary files, JSON and command line.
