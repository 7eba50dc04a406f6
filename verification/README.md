# A verified model of devbox's scheduling, locking, storage and bundle cores

devbox runs shell and program work for an MCP server. This project models the parts of it
whose correctness spans many steps, and proves what they promise over every input, every
interleaving and every run.

| component | files | original |
|---|---|---|
| Execution scheduler shared by processes | `SlotPlan`, `TicketNames`, `Scheduler`, `SchedulerFiles`, `SchedulerSlots`, `SchedulerQueue`, `SchedulerHead`, `SchedulerProgress`, `SchedulerExample` | `src/execution-slots.js` |
| In-process locks | `ReadWriteLock`, `KeyedLock`, `MutexLock` | `src/async-locks.js` |
| Capture worker queue | `CaptureQueue` | `src/capture-queue.js` |
| Rotating job logs and their tail reader | `RotatingLog` | `src/job-logs.js`, `src/async-jobs.js` |
| Bounded capture of process output | `CaptureText`, `CaptureOracle` | `src/process-utils.js`, `cpp-mcp/src/process.cpp`, `cpp-mcp/benchmarks/capture.cpp` |
| Job store quota | `JobQuota` | `src/async-jobs.js` |
| Offline bundle | `BundleLimits`, `BundleTrailer`, `BundleStream`, `BundleManifest`, `BundlePackage` | `cpp-bootstrap/src/bundle.cpp` |
| Native input and observations | `NativeInput`, `NativeObservations` | `chrome-bridge/src/native.rs` |
| Process tree search | `ProcessTree` | `src/screen-capture-utils.js` |
| Configuration editing | `EnvText`, `EnvLines`, `EnvFile` | `cpp-bootstrap/src/setup.cpp` |

`Common` holds the few definitions that several of them share. `dafny verify dfyconfig.toml`
checks everything.

## How the model is built

Code that computes is a function. Code that changes fields is a class whose methods are proved
equal to a function on the value of those fields; the invariants and the results over whole runs
are lemmas about that function. Code that loops is a method with a loop, proved against its
specification.

The scheduler is a step system. A step is one file operation of one request together with that
request's own progress; the steps of all requests and processes interleave freely, and processes
may die between any two steps.

Assumptions of the scheduler model:

- Exclusive create (with the record written into a new lock or slot file), atomic replace,
  listing and remove are single steps.
- The liveness check and the removal in `removeStaleSlot` are one step. The code makes two calls
  there. Exclusivity of locks and slots rests on taking them together.
- A live owner is never reported dead, and a process instance is never reused.
- All processes pass one configuration, weights are whole numbers, and sequence numbers stay
  below 10^32, the width of the padded ticket names. The clock is arbitrary and may run
  backwards.

The environment is an input elsewhere: what the desktop answers, which file operation of a log
sink fails, what a job directory holds and which of its operations succeed, the decompressor's
answers, and the digest. Random ids are taken never to repeat.

## Findings

- Light work whose weight is above one can be planned under disk pressure so that its range is
  narrower than its weight. Such a request never holds a lease in any run
  (`NarrowPlanNeverLeases`). `RangeHoldsWeightIff` gives the exact condition and
  `LightWeightCanBeUnsatisfiable` an instance.
- The scan for aged background waiters can answer no although a waiter planned slots that the
  caller wants: a ticket does not store the pressure it was planned under, and a light caller
  under pressure that has risen since sees too narrow a range. `SeenOverlapIff` gives the exact
  condition, `RisenPressureIsMissed` an instance at the default settings, and `NoIsSoundIff` says
  when a no can be trusted.
- A quota pass that byte pressure alone has started also works to the job mark, so it may remove
  jobs although their number was within its limit. `BytePassAlsoCutsJobs` says exactly when, and
  `BytePassRemovesExtraJob` is an instance.
- The tail reader returns one character for a limit of zero (`ReadTailAcrossRotations`).
- The age of an observation is checked once, before the remaining checks and the input. If input
  always follows its age check within some delay, then over all runs every action starts within a
  bound if and only if that bound is at least thirty seconds plus the delay (`StartBoundIff`). So
  the thirty seconds hold for the start of input only with no delay at all; `LateStart` is the run
  for any other.
- If closing the current log file fails during a rotation, the sink is stranded: it has no file,
  but it is neither closed nor marked as failed, so a later write of an empty text raises nothing.
  `RotatingFileSink.WriteTurn` says exactly when this happens and `RotatingFileSink.Write` what
  follows.
- Rewriting a configuration file removes a second carriage return from a line that ended in two;
  nothing that is read changes (`LinesAfterSet`, `ReturnIsIgnored`).
- A configuration key that starts with `#` or `export `, has blanks at its ends, or holds `=` or
  a newline is accepted by the setter, but the line written is not read under it. `IllFormedIsLost`
  says what it reads in every text, `ReadsBackIff` that exactly the well-formed keys read back,
  and `ExportSetsTheShortKey` that setting `export X` changes what `X` reads. A key of two lines
  sets two keys (`TwoLineKeySetsTwo`).

## Model

| member | source | states |
|---|---|---|
| SlotPlan.PlanBounds | src/execution-slots.js:540-569 | every plan has a non-empty range inside its pool and a weight its range bound allows, and background plans stay out of the last `reserved` slots |
| SlotPlan.RangeHoldsWeightIff | src/execution-slots.js:548-569 | the exact condition under which the planned range has room for the planned weight; only light work under pressure can fail it |
| SlotPlan.LightWeightCanBeUnsatisfiable | src/execution-slots.js:548-569 | an instance where the range is narrower than the weight |
| SlotPlan.PressuredWeightedTakesAll | src/execution-slots.js:548-563 | under pressure a heavy or I/O-heavy plan needs every slot from 0 to its width |
| SlotPlan.CorridorDisjointIff | src/execution-slots.js:548-569 | light and weighted ranges under pressure are disjoint if and only if the weighted range is narrower than the light one and fits the configured corridor, for every weight; a configured weight always fits |
| SlotPlan.RecomputedRangeIsPlannedRange | src/execution-slots.js:495-513 | the range recomputed from a ticket's clamped weight is the range its owner planned, for every configuration, weight and pressure |
| SlotPlan.RecomputedRangeAcrossPressure | src/execution-slots.js:495-513 | if the pressure differs between planning and check, the exact condition under which the two ranges still agree, and in which direction they differ |
| SlotPlan.OverlapIsSharedSlot | src/execution-slots.js:462-463 | the overlap test holds if and only if the ranges share a slot |
| SlotPlan.SeenOverlapIff | src/execution-slots.js:495-516 | the overlap seen with the recomputed range is the overlap with the planned one, except in exactly one case, where a shared slot is not seen |
| SlotPlan.RisenPressureIsMissed | src/execution-slots.js:495-516 | that case at the default settings: slots 2 and 3 are shared and not seen |
| SlotPlan.SeenIsCompetes | src/execution-slots.js:495-516 | what the scan sees of one waiter, in terms of the range that waiter planned |
| SlotPlan.AgedBackgroundWaiterCompetes | src/execution-slots.js:465-522 | the scan answers yes if and only if some live, aged background waiter that is not missed planned, under its own pressure, a range that shares a slot with the caller's |
| SlotPlan.NoIsSoundIff | src/execution-slots.js:465-522 | after a no, some aged waiter competes if and only if one is missed; none is while the pressure has not risen or the caller is not light work |
| TicketNames.PaddedIsFixedWidth | src/execution-slots.js:262-262 | below 10^32 the padded number has exactly 32 digits |
| TicketNames.ListedLanes | src/execution-slots.js:92-103 | a lane's prefix matches the tickets of that lane only, except that the plain interactive prefix also matches light and weighted tickets |
| TicketNames.ListedOrder | src/execution-slots.js:216-234 | among all names a listing keeps, the lane's own come first in text order, by number |
| TicketNames.HeadIsLeastOfLane | src/execution-slots.js:216-234 | the first name in text order is a ticket of the lane with the least number, although other lanes' tickets are in the list |
| TicketNames.ListHeadExists | src/execution-slots.js:216-234 | every listing has a first name or is empty |
| TicketNames.TextDistinct | src/execution-slots.js:262-262 | names of different lane or number have different texts |
| SchedulerFiles.LocalDisciplined | src/execution-slots.js:395-408 | a request creates only files it then holds, and removes only files it has checked to be its own |
| SchedulerFiles.FilesInvStep | src/execution-slots.js:371-460 | every step of every request or process keeps the ownership of lock and slot files |
| SchedulerSlots.RunKeepsFiles | src/execution-slots.js:652-741 | ownership of lock and slot files holds in every state of every run |
| SchedulerSlots.LeaseIsExact | src/execution-slots.js:652-741 | a live lease holds exactly its weight in distinct slots of its planned range, each with its own record on disk, and background leases never hold the last `reserved` slots |
| SchedulerSlots.SlotsExclusive | src/execution-slots.js:652-741 | in every reachable state no slot is held by two live requests |
| SchedulerSlots.FilesExclusive | src/execution-slots.js:162-198 | no two live requests hold one lane's head lock, one pool's claim lock or one slot |
| SchedulerSlots.LocksNeverNest | src/execution-slots.js:524-779 | in every reachable state no request holds a head lock and a claim lock together, and one that waits for a lock holds none |
| SchedulerSlots.PressuredLeaseOccupiesCorridor | src/execution-slots.js:548-563 | a live weighted lease planned under pressure occupies every slot from 0 to its width |
| SchedulerSlots.PressuredWeightedLeasesAlone | src/execution-slots.js:548-563 | two live heavy or I/O-heavy leases planned under pressure are the same lease |
| SchedulerSlots.LightLeaseLeavesCorridor | src/execution-slots.js:564-569 | a live light lease planned under pressure uses none of the slots of weighted work that is narrower than its range and fits the corridor, as work of a configured weight does |
| SchedulerSlots.CapacityRespected | src/execution-slots.js:652-741 | the weights of all live leases of a pool add up to at most the pool, and of its background leases to at most the pool less the reserve |
| SchedulerSlots.NarrowPlanNeverLeases | src/execution-slots.js:655-655 | a request whose planned range is narrower than its weight never holds a lease in any run |
| SchedulerQueue.StepIsQueueStep | src/execution-slots.js:200-352 | every step of the system is one queue action of one live request or does no more to the queue than take tickets away |
| SchedulerQueue.SequenceGrows | src/execution-slots.js:200-214 | between any two times of a run the stored sequence of a lane does not decrease, whatever the clock does |
| SchedulerQueue.NumbersNeverRepeat | src/execution-slots.js:200-214 | no two requests of a lane ever draw the same number |
| SchedulerQueue.TicketStaysGone | src/execution-slots.js:305-332 | a ticket that has left the queue is not there at any later time of the run |
| SchedulerQueue.FirstInFirstOut | src/execution-slots.js:200-332 | over whole runs: if one request's ticket existed before another request of that lane began to enqueue, the later one is never past the head check while that ticket is queued |
| SchedulerQueue.RefreshAlwaysHasHead | src/execution-slots.js:216-234 | in every reachable state a refresh of any lane can go on |
| SchedulerHead.StepIsHeadStep | src/execution-slots.js:216-332 | the head file is written only with a listing made under the head lock, and enqueuing ends with such a write |
| SchedulerHead.HeadFileAdmitsQueued | src/execution-slots.js:216-332 | in every reachable state, while a request that has enqueued is still queued, the head file of its lane names a ticket of the lane with a number no larger than its own |
| SchedulerHead.LeastWaiterIsNotHeldBack | src/execution-slots.js:305-332 | no lost wakeup between processes: for the least waiter of a lane the head file names it or a ticket that has left the queue |
| SchedulerHead.LeastWaiterCanCheck | src/execution-slots.js:305-332 | the system has a step in which the least waiter passes the head check or sees a ticket that is gone |
| SchedulerProgress.LockHolderMoves | src/execution-slots.js:162-460 | in every reachable state a live request that holds a lock waits for none, and the system has a step in which it goes on or the slot of a dead owner in its way is cleared, as long as numbers last |
| SchedulerExample.ALeaseIsReachable | src/execution-slots.js:524-779 | under every configuration some run leads a request through the whole protocol to a lease |
| ReadWriteLock.AsyncReadWriteLock.constructor | src/async-locks.js:47-50 | a new lock is free and empty |
| ReadWriteLock.AsyncReadWriteLock.AcquireRead | src/async-locks.js:52-57 | queues a read and drains |
| ReadWriteLock.AsyncReadWriteLock.AcquireWrite | src/async-locks.js:59-64 | queues a write and drains |
| ReadWriteLock.AsyncReadWriteLock.ReleaseGrant | src/async-locks.js:84-99 | the first call of a release closure gives the grant back and drains; later calls do nothing |
| ReadWriteLock.AsyncReadWriteLock.Drain | src/async-locks.js:101-123 | grants from the front of the queue as long as the front can be granted |
| ReadWriteLock.RunInv | src/async-locks.js:47-124 | after any sequence of acquires and releases, repeated releases included: counters equal outstanding grants, grants never conflict and follow arrival order, and the first waiter cannot be granted |
| ReadWriteLock.WriterAlone | src/async-locks.js:47-124 | a writer that holds the lock is the only holder |
| ReadWriteLock.NothingLost | src/async-locks.js:47-124 | grants followed by the queue are exactly the requests made, in order; no grant is taken back |
| ReadWriteLock.GrantedOncePredecessorsDone | src/async-locks.js:101-123 | no lost wakeup: a request whose predecessors have all released has been granted |
| KeyedLock.KeyedReadWriteLock.constructor | src/async-locks.js:126-127 | no key has an entry |
| KeyedLock.KeyedReadWriteLock.FindEntry | src/async-locks.js:147-160 | finds or creates the entry of a key and counts one reference |
| KeyedLock.KeyedReadWriteLock.BeginOperation | src/async-locks.js:129-145 | the synchronous start of a keyed read or write |
| KeyedLock.KeyedReadWriteLock.CallbackEnded | src/async-locks.js:129-145 | the end of the callback releases the entry's lock |
| KeyedLock.KeyedReadWriteLock.FinishOperation | src/async-locks.js:162-167 | drops the reference and deletes an entry that has none left |
| KeyedLock.ReachableInv | src/async-locks.js:126-168 | the invariant of entries, locks and references holds in every reachable state |
| KeyedLock.KeyedExclusion | src/async-locks.js:126-168 | two operations inside their callbacks on one key are both reads, also across deletion and re-creation of its entry |
| KeyedLock.EntryLifetime | src/async-locks.js:147-168 | all operations in flight on a key share one entry, its count is their number, and it exists exactly while that number is positive |
| MutexLock.AsyncMutex.constructor | src/async-locks.js:1-3 | a new mutex is free |
| MutexLock.AsyncMutex.Acquire | src/async-locks.js:5-24 | queues a request and drains |
| MutexLock.AsyncMutex.ReleaseGrant | src/async-locks.js:10-17 | the first call of a release closure frees the mutex and drains; later calls do nothing |
| MutexLock.AsyncMutex.Drain | src/async-locks.js:35-44 | grants the first request of a free mutex |
| MutexLock.RunIsWritersRun | src/async-locks.js:1-45 | every run of the mutex is a run of the reader-writer lock by writers only |
| MutexLock.MutexIsSafe | src/async-locks.js:1-45 | in every reachable state at most one grant is outstanding, grants follow arrival, and requests wait only while one is |
| CaptureQueue.CaptureWorkerQueue.constructor | src/capture-queue.js:1-2 | an idle worker with no waiters |
| CaptureQueue.CaptureWorkerQueue.Dispatch | src/capture-queue.js:17-38 | rejects aborted waiters and leases the worker to the first other one |
| CaptureQueue.CaptureWorkerQueue.AcquireWorker | src/capture-queue.js:40-74 | rejects at once if aborted, else queues and dispatches |
| CaptureQueue.CaptureWorkerQueue.ReleaseLease | src/capture-queue.js:29-34 | the first release frees the worker and defers a dispatch; later ones do nothing |
| CaptureQueue.CaptureWorkerQueue.RunMicrotask | src/capture-queue.js:33-33 | a deferred dispatch |
| CaptureQueue.CaptureWorkerQueue.LeaveQueue | src/capture-queue.js:47-71 | the abort listener and the timer take the waiter out and reject it |
| CaptureQueue.RunInv | src/capture-queue.js:17-74 | over every interleaving: waiters are the pending requests in arrival order, `active` says whether a lease is out, each promise settles at most once, and an idle worker with waiters has a dispatch pending |
| CaptureQueue.ServedInOrder | src/capture-queue.js:17-74 | when a request has been given the worker every earlier request has settled |
| CaptureQueue.OutcomeIsFinal | src/capture-queue.js:17-74 | a settled request keeps its outcome, except that a lease may be returned |
| CaptureQueue.OneLease | src/capture-queue.js:17-38 | at most one lease is out |
| RotatingLog.RotateFiles | src/job-logs.js:20-32 | every file moves up one place, the oldest is lost, the current one is gone, and files past the rotation count stay; if an operation fails midway only the oldest file can be lost |
| RotatingLog.InterruptedKeepsRest | src/job-logs.js:26-31 | between any two renames everything but the oldest file is still there, in order |
| RotatingLog.RotatingFileSink.constructor | src/job-logs.js:34-45 | opens for append with the clamped limit and rotation count |
| RotatingLog.RotatingFileSink.Rotate | src/job-logs.js:65-76 | the rotation followed by a new empty current file; a failing close strands the sink and a later failure closes it; either way at most the oldest file is lost |
| RotatingLog.RotatingFileSink.WriteTurn | src/job-logs.js:86-99 | one turn of the write loop; a failure strands the sink exactly when it is that of the close in a rotation, and closes it otherwise |
| RotatingLog.RotatingFileSink.Write | src/job-logs.js:79-101 | a write to an open sink equals its specification and one to a closed sink does nothing; after a failure the files are a suffix of what was held and written and nothing more is written: a closed sink raises on every write, a stranded one on every write but an empty text |
| RotatingLog.RotatingFileSink.WriteLoop | src/job-logs.js:85-100 | the loop of a write, with a fault at any turn and operation, the close of a rotation included |
| RotatingLog.RotatingFileSink.End | src/job-logs.js:102-106 | closes the sink and leaves the files; a failing close is raised |
| RotatingLog.WriteJoins | src/job-logs.js:79-101 | writing two buffers leaves the same files as writing them joined |
| RotatingLog.ChunkingIrrelevant | src/job-logs.js:79-101 | the files depend only on the bytes written, not on how they were cut into writes |
| RotatingLog.FilesAreSuffix | src/job-logs.js:79-101 | from any start, the files joined oldest first are a suffix of what they held followed by what was written |
| RotatingLog.NoFilePastLimit | src/job-logs.js:79-101 | no segment the sink writes exceeds the limit, whatever it found on opening: every file is within the limit or is a file found then, moved up unchanged |
| RotatingLog.LayoutKept | src/job-logs.js:79-101 | from an empty start every rotated file is filled exactly to the limit |
| RotatingLog.RetainsEnough | src/job-logs.js:79-101 | from an empty start a suffix of at least min(total, rotations * limit) bytes survives, and everything until more rotations happened than files are kept |
| RotatingLog.ReadTail | src/async-jobs.js:97-113 | the last characters of one file, also for limits of zero and below |
| RotatingLog.ReadTailAcrossRotations | src/async-jobs.js:115-128 | the last characters of all files joined oldest first; one for a limit of zero, none for a negative one |
| RotatingLog.TailEndToEnd | src/async-jobs.js:115-128 | however a stream was cut into writes, the tail is exactly the last min(limit, retained) characters of it, and at least min(total, rotations * limit) are retained |
| RotatingLog.WriteThenReadTail | src/async-jobs.js:115-128 | the same through the code: a sink opened on no files, any writes, and the tail reader on the files it leaves |
| CaptureText.CaptureState.constructor | src/process-utils.js:67-67 | a new capture is the capture of the empty stream |
| CaptureText.CaptureState.AppendCapture | src/process-utils.js:75-91 | appending a chunk to the capture of a stream gives the capture of the longer stream, for every limit |
| CaptureText.LastAbsorbs | src/process-utils.js:89-89 | the tail of a stream and a chunk needs only the stream's tail |
| CaptureText.CaptureAccumulator.PushOne | cpp-mcp/src/process.cpp:98-119 | one character moves the ring from the capture of a stream to that of the stream with it |
| CaptureText.CaptureAccumulator.PushText | cpp-mcp/src/process.cpp:87-120 | the same for a text of any length and every limit |
| CaptureText.RingPush | cpp-mcp/src/process.cpp:116-118 | overwriting the oldest slot and advancing drops the oldest character and adds the new one |
| CaptureOracle.KeptReports | src/process-utils.js:92-97 | the reported text, count and flag are those of the whole-stream specification |
| CaptureOracle.CaptureChunks | src/process-utils.js:75-97 | folding a stream chunk by chunk reports the whole-stream specification, however it was cut, for limits none, 0, 1 and larger |
| CaptureOracle.Snapshot | cpp-mcp/src/process.cpp:162-182 | unrolling the ring reports the whole-stream specification |
| CaptureOracle.CaptureByRing | cpp-mcp/src/process.cpp:87-182 | the ring accumulator reports the same as the chunk accumulator for every stream, cut and limit |
| CaptureOracle.CutIsPrefix | cpp-mcp/benchmarks/capture.cpp:8-10 | cutting bytes before a leading byte cuts between code points |
| CaptureOracle.HeadEnd | cpp-mcp/benchmarks/capture.cpp:19-27 | the forward scan ends after exactly the wanted code points |
| CaptureOracle.TailStart | cpp-mcp/benchmarks/capture.cpp:28-34 | the backward scan stops before exactly the wanted code points |
| CaptureOracle.Oracle | cpp-mcp/benchmarks/capture.cpp:11-38 | the byte oracle computes the bytes, count and flag of the whole-stream specification |
| JobQuota.Scan | src/async-jobs.js:442-491 | the store size is the bytes of active and of retained terminal jobs, and every directory is counted once, except that a terminal one that fails counts as terminal and as an error |
| JobQuota.StoreIsOnDisk | src/async-jobs.js:462-487 | the store size is the bytes on disk of what is kept, if every recorded size that is used is still right |
| JobQuota.SortedIsStable | src/async-jobs.js:492-492 | the eviction order is by end time, keeps every job, and keeps scan order among equal times |
| JobQuota.Evict | src/async-jobs.js:504-521 | the loop stops at the first point where both marks are met, counts exactly what is left, and records what it removed, also when removals fail |
| JobQuota.CountsAreExact | src/async-jobs.js:515-519 | the running counters equal the bytes and number of the jobs left |
| JobQuota.Enforce | src/async-jobs.js:494-521 | which pressure starts a pass and which marks it works to |
| JobQuota.Reconcile | src/async-jobs.js:442-521 | the whole pass: only terminal jobs are removed, oldest first, and the reported store size is the bytes that remain |
| JobQuota.ShortestRun | src/async-jobs.js:504-521 | without removal failures exactly the shortest oldest-first run that meets both marks is removed |
| JobQuota.PressureIsRelieved | src/async-jobs.js:497-521 | under reducible byte pressure the store ends at or below max(active bytes, nine tenths of the limit) |
| JobQuota.BytePassAlsoCutsJobs | src/async-jobs.js:500-508 | a pass started by byte pressure alone removes more than the byte mark asks for if and only if what that leaves exceeds nine tenths of the job limit |
| JobQuota.BytePassRemovesExtraJob | src/async-jobs.js:500-508 | an instance with eleven jobs and a limit of eleven |
| BundleTrailer.DecodeEncoded | cpp-bootstrap/src/bundle.cpp:309-331 | eight little-endian bytes give back every number they can hold |
| BundleTrailer.Attach | cpp-bootstrap/src/bundle.cpp:299-320 | refuses empty, oversized or existing outputs, else writes stub, payload, size and magic |
| BundleTrailer.PayloadOffset | cpp-bootstrap/src/bundle.cpp:321-335 | finds the payload of a file that ends in the trailer for the expected size, with the error of each other case |
| BundleTrailer.AttachedPayload | cpp-bootstrap/src/bundle.cpp:299-335 | in an attached file the payload is found exactly at the end of the stub and exactly under its own size, unchanged, whatever bytes stub and payload hold |
| BundleTrailer.FoundIsAttached | cpp-bootstrap/src/bundle.cpp:321-335 | only attachments are accepted |
| BundleStream.ExpandFile | cpp-bootstrap/src/bundle.cpp:71-108 | the loop ends for every answer of the decompressor and equals its specification |
| BundleStream.ExpandBounds | cpp-bootstrap/src/bundle.cpp:82-108 | never more than the declared bytes are written, even on failure; success uses exactly the compressed bytes and writes exactly the declared ones |
| BundleStream.ExpandInverts | cpp-bootstrap/src/bundle.cpp:82-108 | if the decompressor inverts the compressor, a stream expands to its data however the input is buffered and however much is taken each time |
| BundleStream.StoredInverts | cpp-bootstrap/src/bundle.cpp:94-105 | the contract asked of the decompressor can be met |
| BundleManifest.ValidateEntry | cpp-bootstrap/src/bundle.cpp:166-180 | accepts an entry exactly when it is well formed, new, in place and within bounds, with no 64-bit wrap |
| BundleManifest.Validate | cpp-bootstrap/src/bundle.cpp:156-185 | accepts exactly the valid manifests |
| BundleManifest.Tiles | cpp-bootstrap/src/bundle.cpp:156-185 | the files of a valid manifest tile the payload with no gap, overlap or sum above the limit |
| BundleManifest.NamesAreFlat | cpp-bootstrap/src/bundle.cpp:119-131 | accepted names hold no separator and stay distinct when case is ignored |
| BundlePackage.PackFiles | cpp-bootstrap/src/bundle.cpp:250-271 | the packing loop lays files end to end and fails exactly on an invalid, changed or oversized input |
| BundlePackage.Pack | cpp-bootstrap/src/bundle.cpp:250-280 | succeeds exactly when every file is packable and the manifest is valid |
| BundlePackage.Extract | cpp-bootstrap/src/bundle.cpp:281-298 | validates, checks bounds and digest, and expands the files in order, with the error of each other case |
| BundlePackage.ExtractFiles | cpp-bootstrap/src/bundle.cpp:293-297 | the loop over the entries |
| BundlePackage.ExtractedMatches | cpp-bootstrap/src/bundle.cpp:281-298 | delivered files have the names, sizes and digests of the manifest |
| BundlePackage.RoundTrip | cpp-bootstrap/src/bundle.cpp:250-298 | extracting what was packed gives back every file |
| BundlePackage.AttachedRoundTrip | cpp-bootstrap/src/bundle.cpp:250-335 | packed, attached to any executable, found again and extracted, every file comes back |
| NativeInput.PressButtons | chrome-bridge/src/native.rs:316-330 | each button of a mouse event is pressed, then released |
| NativeInput.ReleasePrefix | chrome-bridge/src/native.rs:303-348 | the tracking loop and the cleanup it returns |
| NativeInput.TrackedIsHeld | chrome-bridge/src/native.rs:303-332 | tracking knows exactly the inputs whose last press was not followed by a release, each key once |
| NativeInput.CleanupIsExact | chrome-bridge/src/native.rs:333-348 | cleanup has exactly one up event for each held input and no other event |
| NativeInput.CleanupLeavesNothingHeld | chrome-bridge/src/native.rs:303-348 | the accepted prefix followed by the cleanup leaves nothing held |
| NativeInput.BuildChord | chrome-bridge/src/native.rs:777-783 | all keys down, then up in reverse |
| NativeInput.ChordIsComplete | chrome-bridge/src/native.rs:777-783 | a complete chord needs no cleanup, also when keys repeat |
| NativeInput.ClickIsComplete | chrome-bridge/src/native.rs:693-694 | a complete click needs no cleanup |
| NativeInput.TextIsComplete | chrome-bridge/src/native.rs:727-731 | a complete text chunk needs no cleanup |
| NativeInput.Send | chrome-bridge/src/native.rs:274-302 | a partial send reports an error, sends the cleanup once, and leaves nothing held if that is accepted |
| NativeObservations.Native.constructor | chrome-bridge/src/native.rs:240-244 | no observations, not stopped |
| NativeObservations.Native.ObserveWindow | chrome-bridge/src/native.rs:451-485 | drops old observations and those of the window, makes room, and stores the new one |
| NativeObservations.Native.Perform | chrome-bridge/src/native.rs:583-792 | uses an observation up before anything is checked, and allows input only if its age at the check is within its lifetime and its window is the one asked for |
| NativeObservations.Native.Dispatch | chrome-bridge/src/native.rs:487-504 | a stop sets the flag and empties the store; a stopped bridge does nothing |
| NativeObservations.DispatchKeeps | chrome-bridge/src/native.rs:487-504 | every request keeps the invariant and starts at most one action |
| NativeObservations.RunIsSafe | chrome-bridge/src/native.rs:464-630 | after any run: each id allowed at most one action, on its own window, with its age checked within 30 seconds; at most eight observations and one for each window |
| NativeObservations.StartBoundIff | chrome-bridge/src/native.rs:625-666 | over all runs in which input follows its age check within a delay, every action starts within a bound of its observation if and only if the bound is at least 30 seconds plus the delay |
| NativeObservations.LateStart | chrome-bridge/src/native.rs:625-666 | for every delay, a run whose action starts that much after the lifetime of its observation |
| NativeObservations.StopIsPermanent | chrome-bridge/src/native.rs:487-494 | after a stop nothing changes any more |
| NativeObservations.StopHalts | chrome-bridge/src/native.rs:498-504 | a reported stop, and nothing else, halts and empties the store |
| ProcessTree.AddChildren | src/screen-capture-utils.js:79-84 | the unseen children of one parent are added once each |
| ProcessTree.CollectProcessTreePids | src/screen-capture-utils.js:73-87 | ends on every table, cyclic ones included, and returns exactly the reachable pids without repetition |
| EnvText.ReadValue | cpp-bootstrap/src/setup.cpp:29-38 | the value scan equals its specification |
| EnvText.ValueKeptIff | cpp-bootstrap/src/setup.cpp:29-38 | a value reads back unchanged if and only if it is trimmed, not quoted and has no `#` after a space |
| EnvText.WrittenLines | cpp-bootstrap/src/setup.cpp:39-47 | the lines of a written text are the pieces of the lines written, each without one carriage return at its end |
| EnvText.PairKey | cpp-bootstrap/src/setup.cpp:360-368 | a line "key=value" is read under its key if the key is well formed |
| EnvText.PairKeyOnly | cpp-bootstrap/src/setup.cpp:360-368 | and under another key or none if it is not |
| EnvText.ReturnIsIgnored | cpp-bootstrap/src/setup.cpp:39-47 | a carriage return at the end of a line changes neither its key nor its value |
| EnvLines.Edit | cpp-bootstrap/src/setup.cpp:372-384 | replaces the first line of the key, or appends a line after a separating empty one |
| EnvLines.ReadFirst | cpp-bootstrap/src/setup.cpp:386-391 | reads the first line of the key |
| EnvLines.Collect | cpp-bootstrap/src/setup.cpp:392-398 | reads every line in order |
| EnvLines.EditedReads | cpp-bootstrap/src/setup.cpp:372-391 | what every key reads after an edit, whatever key the new line turns out to assign |
| EnvLines.CollectedIsLast | cpp-bootstrap/src/setup.cpp:392-398 | collecting keeps exactly the assigned keys, each with its last value |
| EnvLines.CollectedAgrees | cpp-bootstrap/src/setup.cpp:386-398 | collected and single reads find the same keys, and the same values when no key repeats |
| EnvLines.RepeatedKey | cpp-bootstrap/src/setup.cpp:386-398 | for a repeated key they agree if and only if its first and last assignment do |
| EnvFile.SetEnvValue | cpp-bootstrap/src/setup.cpp:369-385 | refuses values with a line break, else edits the lines and writes them |
| EnvFile.GetEnvValue | cpp-bootstrap/src/setup.cpp:386-391 | the value of the first line that assigns the key |
| EnvFile.CollectEnvValues | cpp-bootstrap/src/setup.cpp:392-398 | the collected environment has the keys that single reads find, and agrees with them when no key repeats |
| EnvFile.LinesAfterSet | cpp-bootstrap/src/setup.cpp:369-385 | for every key, the lines of the new text: all other lines keep their order and content, up to one carriage return |
| EnvFile.SetThenGet | cpp-bootstrap/src/setup.cpp:369-391 | for every text, well-formed key and single-line value: the key reads as the trimmed, unquoted value and every other key as before |
| EnvFile.SetThenGetAny | cpp-bootstrap/src/setup.cpp:369-391 | what every key reads after setting any key, one that holds a newline included, in any text |
| EnvFile.IllFormedIsLost | cpp-bootstrap/src/setup.cpp:360-391 | in every text, a key that is not well formed reads after a set as its second assignment before, or not at all; the line written is not read under it |
| EnvFile.ReadsBackIff | cpp-bootstrap/src/setup.cpp:360-391 | set in an empty text, a key reads back if and only if it is well formed |
| EnvFile.ExportSetsTheShortKey | cpp-bootstrap/src/setup.cpp:364-391 | setting `export X` makes X read as the value unless an earlier line assigns X |
| EnvFile.TwoLineKeySetsTwo | cpp-bootstrap/src/setup.cpp:369-391 | setting a key of two lines makes both read as written unless the text assigns them already |

## Left out

- Server, launcher, runtime, docker and host tools: registration, HTTP and subprocess plumbing around these cores.
- Screen capture backends, the Win32 parts of the bridge, and the floating-point mapping of coordinates: foreign calls and rounding.
- OAuth, tool authorization, disk-pressure policy and resource-class inference: lookups and regular expressions with no property beyond their own text.
- Process identity: liveness is an oracle that never calls a live owner dead.
- Scheduler metrics, the reports of snapshots, poll intervals, retry loops, sleep lengths and the 250 ms cache of the aged-waiter answer: they change timing or reports. The removals that a snapshot makes, of dead owners' tickets and slots, are steps of the model.
- Scheduler fairness: yielding to aged background work is a possible step of any interactive request at the head; that waiting ends is not claimed.
- Tickets and slots without a readable owner: an unreadable ticket may be reaped at any time in the model; ageing of corrupt slot files is not modelled.
- Log sinks on multi-byte text, and writes that are cut short without an error: a character is one byte and a write that does not fail is complete.
- Captured text arrives as whole code points: the repair of malformed or split UTF-8 in front of the accumulators is not modelled.
- The compaction of old log files before the quota pass: a directory's measured size is an input.
- zlib, SHA-256 and JSON: functions with contracts; a manifest field is its value or absent.
- BundlePackage.Pack: the choice of files from the build manifest and the checks of that manifest are not modelled, because they only compare fields.
- Bundle file permissions, and the removal of a directory after a failed extraction, which leaves no result.
- NativeObservations.Native.Perform: request validation and the desktop checks before the lookup are one input, and so is everything that input does.
- The ring window, percentile selection and state coordinator measured by the other benchmarks: their headers are not part of this model.
- `bootstrap/src/main.rs`: the older installer duplicates the configuration editing.
