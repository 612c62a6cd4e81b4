# takt: verified model

takt is a five-thread vision pipeline: a camera thread captures frames, and four stage threads
preprocess, infer, postprocess and deliver them, joined by lock-free hand-offs and fed from a fixed
pool of frames. On the way detections are suppressed, tracked and timed. This project models its
difficult parts in Dafny and proves what they promise.

Run `dafny verify dfyconfig.toml` in this directory.

## What is modelled, and how

- **Gated assignment** (`Sums`, `GatedMatching`, `Potentials`, `LinearAssignment`). The solver is a
  class over the program's own buffers. Each loop is a method proved against the theory of
  potentials: a shortest augmenting path search keeps dual feasibility and tightness, so the last
  phase is a minimum over all permutations. Gated matchings lift to permutations of the extended
  square at equal cost, and permutations read back to gated matchings at no more cost.
- **Ring and mailbox** (`Words`, `SpscRing`, `LatestSlot`). State machines with one program counter
  per thread; each atomic operation, slot access, epoch bump, notify and park is its own step, and
  any number of threads may close. Both refine simple queues under every interleaving. The ring
  does so with wrapped 64-bit counters. `Ready` in the ring is `Enabled` plus "the slot being read
  is full"; `EnabledIsReady` shows that the second part always holds.
- **Hand-offs and pipeline** (`HandOff`, `HandOffQueues`, `HandOffRefinement`, `HandOffProgress`,
  `FramePool`, `Pipeline`, `PipelineFrames`, `PipelineShutdown`, `PipelineTermination`,
  `PipelineAccounting`, `PipelineDelivery`, `PipelineSchedules`, `PipelineStranding`,
  `PipelineFinalFrame`, `PipelineAdmission`, `PipelineRefusal`, `PipelinePolicies`). Five threads over the abstract
  queues. A push is several steps, with the look at the closed flag separate from the insertion;
  `abort` is seven; the stop callback runs some time after the stop request. Source, stage bodies
  and sinks may return, end or throw at any time. `HandOffRefinement` shows every run of a ring or
  a mailbox to be a run of the abstract queue, which carries over what never happens;
  `HandOffProgress` shows that they answer whatever the abstract queue could serve. Where a
  promise fails, the failing run is built for every configuration in which it exists.
- **Tracker** (`Detections`, `SmallMatrix`, `BoxKalmanFilter`, `KalmanScaling`, `Tracks`,
  `TrackHistory`, `TrackLifetime`, `TrackMeaning`, `ByteTracker`). The tracker is a class whose `Update` is one step of the relation `Advances`; the
  history theorems are about all sequences of such steps. The Kalman filter works on real matrices;
  the square root is a parameter of which only its law is used.
- **Latency histogram** (`LatencyHistogram`, `SharedHistogram`). Bucketing as bit arithmetic over
  powers of two; percentiles against the sorted list of samples; concurrent recording with its
  compare-and-swap loops as a state machine.
- **Suppression and letterbox** (`Nms`, `Letterbox`, `LetterboxSampling`). In-place array algorithms
  against a recursive rule and against a pointwise definition of the output tensor, and what that
  definition does to mirrored, shrunk and evenly shaded images.

## Where the code and its documentation differ

- The solver's header promises an optimum under the gate for every limit. The forbidden entries are
  1e9, and a real pair is recognised by being below that. The promise holds exactly for limits up to
  1e9, for costs of either sign and any size of problem; above, `BeyondTheLimit` gives the problem
  that fails for every shape.
- The pipeline's comments say every frame admitted before shutdown is delivered. A stop request
  closes the ingress from another thread, so one frame whose push was past its check can be left
  behind and is counted neither as completed nor as dropped. `OneFrameCanBeStranded` builds such a
  run for every configuration; without stop requests there is none
  (`StrandedExactlyIfStopsAllowed`). So with a drop-newest or blocking ingress the promise holds
  exactly as long as nobody may request a stop (`AllAdmittedAreDeliveredExactlyIf`).
- The histogram is called conservative. That holds exactly for percentiles whose exact value is at
  most 2^40 - 1 microseconds; beyond, the last bucket reports its own bound.
- A frame refused at shutdown is said never to be counted, and a stale replacement to mean that the
  frame was queued. A mailbox that is closed between the hand-off's look and the mailbox's own
  reports the refused frame as a stale replacement, so capture counts it as captured and dropped.
  `RefusedFrameCanBeCounted` builds such a run for every configuration with policy latest. It takes
  that policy and a stop request (`RefusingExactlyIf`, `RefusedIsCountedExactlyIf`), and it happens
  to one frame at most (`AtMostOneIsRefused`).
- The final captured frame is not always delivered, even if the run ends by itself: a drop-newest
  ingress may be full when that frame arrives. It is always delivered exactly if the policy is
  another one, or the ingress has room for as many frames as may be read, or for the whole pool
  (`FinalFrameIsDeliveredExactlyIf`).

## Model

| member | source | states |
|---|---|---|
| GatedMatching.LiftIsPermutation | src/track/linear_assignment.cpp:22-49 | Every gated partial matching lifts to a permutation of the extended square; whoever is unmatched keeps their own dummy. |
| GatedMatching.LiftCost | src/track/linear_assignment.cpp:22-49 | The lift costs, in the extended square, exactly what the matching costs: its pairs, and half the limit per end left alone. |
| GatedMatching.ReadBackIsGated | src/track/linear_assignment.cpp:96-110 | What is read back from any permutation uses only pairs within the gate, and no row or column twice. |
| GatedMatching.ReadBackIsNoDearer | src/track/linear_assignment.cpp:96-110 | For limits up to 1e9, reading any permutation back gives a gated matching that costs no more than the permutation. |
| GatedMatching.CheapestIsOptimal | include/takt/track/linear_assignment.hpp:21-28 | A cheapest permutation of the extended square reads back as a gated matching that no other gated matching undercuts. |
| GatedMatching.BeyondTheLimit | src/track/linear_assignment.cpp:28-41 | For every limit above 1e9 and every shape there is one problem that no permutation solves: a pair costing 1e9 inside the gate is read back as forbidden. |
| GatedMatching.OptimalExactlyUpToTheLimit | include/takt/track/linear_assignment.hpp:21-28 | Over all cost matrices of a shape the read-back is always optimal if and only if the limit is at most 1e9, whatever the sign and size of the costs. |
| GatedMatching.NothingInReachIsLeft | include/takt/track/linear_assignment.hpp:21-28 | An optimal gated matching leaves no row and column both alone that could be paired for less than the limit. |
| Potentials.ShiftKeepsPotentials | src/track/linear_assignment.cpp:79-86 | Shifting the potentials keeps them feasible for all processed rows and tight on assigned pairs, and makes the new row feasible. |
| Potentials.ShiftKeepsSlack | src/track/linear_assignment.cpp:67-86 | After the shift the slacks are again the distances to the tree, and the edge to the nearest column is tight. |
| Potentials.TreeGrows | src/track/linear_assignment.cpp:62-88 | The alternating tree grows by the column just left and keeps all its edges tight. |
| Potentials.SearchRound | src/track/linear_assignment.cpp:62-88 | One round of scan and shift preserves everything the search relies on. |
| Potentials.WalkStep | src/track/linear_assignment.cpp:89-93 | One step of the walk along `way` keeps distinct columns and tightness, and goes to a strictly earlier column of the tree, so the walk ends at column 0. |
| Potentials.WeakDuality | src/track/linear_assignment.cpp:51-94 | Feasible potentials bound the cost of every permutation from below, and a tight permutation attains the bound. |
| Potentials.LastPhaseIsOptimal | src/track/linear_assignment.cpp:51-94 | After the last phase the assignment is a permutation, and no permutation is cheaper. |
| LinearAssignment.LinearAssignment.Scan | src/track/linear_assignment.cpp:65-78 | The scan relaxes every unused column against the new row and finds the nearest one. |
| LinearAssignment.LinearAssignment.Shift | src/track/linear_assignment.cpp:79-86 | The shift moves potentials of tree rows and columns, and the slacks of the others, by the same amount. |
| LinearAssignment.LinearAssignment.Augment | src/track/linear_assignment.cpp:89-93 | The walk back along `way` places row i and ends phase i: feasible, tight, rows 1 to i on distinct columns. |
| LinearAssignment.LinearAssignment.Phase | src/track/linear_assignment.cpp:57-94 | Phase i extends the placement by row i with at most i column scans. |
| LinearAssignment.LinearAssignment.Minimise | src/track/linear_assignment.cpp:51-94 | All phases: the assignment is minimum over all permutations of any real square matrix, after at most n(n+1)/2 column scans. |
| LinearAssignment.LinearAssignment.Fill | src/track/linear_assignment.cpp:31-49 | The buffer holds the extended matrix. |
| LinearAssignment.LinearAssignment.Collect | src/track/linear_assignment.cpp:96-110 | The read-back: matches are those of the permutation, unmatched lists are what is missing. |
| LinearAssignment.LinearAssignment.Solve | src/track/linear_assignment.cpp:9-111 | Size mismatch exactly when the source throws; otherwise the result splits rows and columns, stems from a cheapest permutation, and is optimal under the gate for limits up to 1e9. |
| LinearAssignment.PartitionsRowsAndCols | include/takt/track/linear_assignment.hpp:9-19 | Each row and each column is in exactly one match or in its unmatched list, and the counts add up. |
| LinearAssignment.MissingIsComplement | src/track/linear_assignment.cpp:98-110 | The unmatched lists hold exactly the indices not matched, in increasing order. |
| SpscRing.WordsAgree | include/takt/core/spsc_ring.hpp:47-56 | With 64-bit wrap-around the fullness and emptiness tests and the slot indices agree with unwrapped counters. |
| SpscRing.StepKeepsInv | include/takt/core/spsc_ring.hpp:47-101 | Every atomic step of producer, consumer and closers keeps the invariant: cached indices lag on the safe side, slots hold exactly what is pushed and not popped. |
| SpscRing.StepRefines | include/takt/core/spsc_ring.hpp:47-101 | Each step is one step, or none, of a bounded first-in first-out queue. |
| SpscRing.RingIsFifo | include/takt/core/spsc_ring.hpp:21-30 | Every run of a ring as constructed is a run of the bounded queue: values come out once each, in push order, at most capacity inside, which is at least what was asked for and less than twice that. |
| SpscRing.NothingIsOverwritten | include/takt/core/spsc_ring.hpp:53-54 | The slot a producer is about to write is empty. |
| SpscRing.NoLostWakeup | include/takt/core/spsc_ring.hpp:61-101 | No consumer is parked while there is an element or the ring is closed, and no producer while there is room or it is closed, unless a bump or notify is still pending. |
| SpscRing.EndMeansDrained | include/takt/core/spsc_ring.hpp:83-92 | When `pop` reports the end everything pushed before the close has been popped; at most one later push can exist, and only if it had passed its check. |
| Words.WrapKeepsSlot | include/takt/core/spsc_ring.hpp:35-36 | A wrapped counter selects the slot its true value selects, because capacities are powers of two. |
| Words.WrapKeepsDistance | include/takt/core/spsc_ring.hpp:49-51 | Unsigned subtraction of wrapped counters gives their true distance. |
| LatestSlot.StepKeepsInv | include/takt/core/latest_slot.hpp:37-79 | Every atomic step keeps back, middle and front a permutation of the slots, a stale middle empty, and all values in order. |
| LatestSlot.StepKeepsAccounts | include/takt/core/latest_slot.hpp:37-63 | Every value given to `publish` is in exactly one place: taken, handed back, in a slot, or in the producer's hands. |
| LatestSlot.StepRefines | include/takt/core/latest_slot.hpp:37-79 | Each step is one step, or none, of a one-place mailbox that replaces its content and hands the old one back. |
| LatestSlot.MailboxIsLatest | include/takt/core/latest_slot.hpp:13-24 | Every run is a run of the one-place mailbox; taken values strictly increase, were all published, and none is lost or duplicated. |
| LatestSlot.TakesTheNewest | include/takt/core/latest_slot.hpp:56-63 | A take moves out the newest value exchanged in before it. |
| LatestSlot.NoLostWakeup | include/takt/core/latest_slot.hpp:66-79 | No consumer is parked on a fresh or closed mailbox unless a bump or notify is still pending. |
| LatestSlot.EndMeansDelivered | include/takt/core/latest_slot.hpp:65-73 | When `take` reports the end the last value exchanged in has been taken, unless a publish was past its check at the close; then at most that one is left. |
| HandOff.PushKeepsOrLoses | src/pipeline/hand_off.cpp:43-62 | Each step of a push keeps queue and hand together in order, or takes out exactly the frame it is about to release. |
| HandOffQueues.RingAllowsPush | src/pipeline/hand_off.cpp:52-58 | Over a ring each step of an abstract push is one the bounded queue allows, with the result the caller gets. |
| HandOffQueues.RingAllowsPop | src/pipeline/hand_off.cpp:64-70 | A pop over a ring takes the oldest element, or reports the end exactly when closed and empty. |
| HandOffQueues.MailboxAllowsPush | src/pipeline/hand_off.cpp:46-51 | Over a mailbox an insertion is a publish and its return; the frame handed back is the one released. |
| HandOffQueues.MailboxRefuses | src/pipeline/hand_off.cpp:46-51 | A closed mailbox refuses, and which of the two looks found it closed decides the result; what the pipeline makes of that is in `PipelineRefusal`. |
| HandOffQueues.MailboxAllowsPop | src/pipeline/hand_off.cpp:64-70 | A take over a mailbox moves its content out, or reports the end exactly when closed and empty. |
| HandOffRefinement.LeadsOn | src/pipeline/hand_off.cpp:43-74 | Moves of the hand-off compose, and so does what they show. |
| HandOffRefinement.RingStepMatched | include/takt/core/spsc_ring.hpp:39-101 | Each atomic step of a ring is up to three moves of the hand-off that show the same; a push that the ring wakes for nothing is asleep in the hand-off no earlier than a pop or close can wake it. |
| HandOffRefinement.RingRunIsHandOffRun | src/pipeline/hand_off.cpp:52-58 | Every run of a ring, called as the policy calls it, is a run of the hand-off with the same insertions, drops with their results, takes, closes and ends, and leaves the same queue. |
| HandOffRefinement.BoxStepMatched | src/pipeline/hand_off.cpp:46-51 | Each atomic step of a push over a mailbox, with the look of the hand-off itself before that of `publish`, is up to two moves of the hand-off that show the same. |
| HandOffRefinement.MailboxRunIsHandOffRun | src/pipeline/hand_off.cpp:46-51 | Every run of pushes, takes and closes over a mailbox is a run of the hand-off with policy latest, with the same results, and leaves the same queue. |
| HandOffProgress.QuietStepLowersRank | include/takt/core/spsc_ring.hpp:61-101 | Every step of a ring that is not a new call and shows nothing lowers a rank over program counters, epochs and pending wake-ups. |
| HandOffProgress.RingQuietRunsAreBounded | include/takt/core/spsc_ring.hpp:61-101 | So no schedule shows nothing for longer than that rank, whatever its order. |
| HandOffProgress.ServedCanMove | include/takt/core/spsc_ring.hpp:61-101 | As long as a push or a pop is under way that has all it needs, some thread can move, were it only to bump or notify. |
| HandOffProgress.RingServesHandOff | src/pipeline/hand_off.cpp:52-58 | Whenever the abstract hand-off could serve a push or a pop that is under way, the ring behind it shows an answer after at most rank quiet steps, without any new call. |
| HandOffProgress.BoxQuietRunsAreBounded | include/takt/core/latest_slot.hpp:37-79 | No schedule over a mailbox shows nothing for longer than its rank. |
| HandOffProgress.BoxServesHandOff | src/pipeline/hand_off.cpp:46-51 | The same answer from a mailbox, with the look of the hand-off itself before that of `publish`. |
| FramePool.Frame.Reset | include/takt/pipeline/frame.hpp:52-58 | A recycled frame forgets its number, its time, its detections, its tracks and its five service times; image, tensors and transform are not touched. |
| FramePool.FramePool.TryAcquire | src/pipeline/frame_pool.cpp:26-36 | Lends the most recently returned frame; none exactly when all are in use. |
| FramePool.FramePool.Acquire | src/pipeline/frame_pool.cpp:38-46 | After the wait: a frame if there is one, nothing only if the pool is empty and a stop was requested. |
| FramePool.FramePool.Recycle | src/pipeline/frame_pool.cpp:58-65 | A lent frame comes back reset, with its buffers untouched, on top of the free list. |
| FramePool.FramePool.ReserveImageBytes | src/pipeline/frame_pool.cpp:53-56 | Every free frame ends up with at least the asked-for image buffer; nothing else of any frame, and nothing of the pool, changes. |
| FramePool.FreeAndLentAreAll | src/pipeline/frame_pool.cpp:26-65 | Free and lent frames together are all frames, each in one place. |
| Pipeline.AbortOnlySignals | src/pipeline/pipeline.cpp:53-64 | A step of `abort` sets one signal or closes one hand-off, and does nothing else. |
| PipelineFrames.StepAffectsLine | src/pipeline/pipeline.cpp:82-100 | Read from the sinks back to the camera, hands and hand-offs form one line of frames; every step of every thread keeps it, takes one frame out, adds one at the camera end, or delivers the one in front. |
| PipelineFrames.EffectKeepsOrder | src/pipeline/pipeline.cpp:82-100 | Delivered and in-flight frame numbers stay strictly increasing under each of these effects. |
| PipelineFrames.StepKeepsAccounted | src/pipeline/frame_pool.cpp:26-65 | Every step, in success and in failure, keeps every frame in exactly one of free list, hands, hand-offs. |
| PipelineFrames.StepKeepsFrames | src/pipeline/pipeline.cpp:82-100 | Every step keeps capacity, order and frame conservation. |
| PipelineFrames.SinksSeeIncreasing | src/pipeline/pipeline.cpp:262-268 | In every run under every policy the sinks see strictly increasing frame numbers. |
| PipelineFrames.AcquireNeverWaits | src/pipeline/pipeline.cpp:147-158 | With the derived pool size the capture thread always finds a free frame. |
| PipelineFrames.AllFramesComeBack | src/pipeline/pipeline.cpp:279-325 | When all threads have exited and the hand-offs are destroyed, the pool has each frame back exactly once. |
| PipelineShutdown.StepKeepsControl | src/pipeline/pipeline.cpp:53-64 | Every step keeps what closed hand-offs, the stop flag and the abort steps imply about each other. |
| PipelineShutdown.NoDeadlock | src/pipeline/pipeline.cpp:82-100 | If some thread has not exited, some thread can move, whatever the policy, the capacities and the size of the pool. |
| PipelineShutdown.NoRunDeadlocks | src/pipeline/pipeline.cpp:270-325 | The same for every state any run can reach. |
| PipelineTermination.StepLowersRank | src/pipeline/pipeline.cpp:82-100 | Every step of every thread lowers a rank over program counters and queue contents, but for a new round of the capture loop; after a stop, an abort, the end of the source or under a frame limit that one does too. |
| PipelineTermination.StepKeepsWindingDown | src/pipeline/pipeline.cpp:303-304 | Winding down can not be called off. |
| PipelineTermination.SchedulesAreBounded | src/pipeline/pipeline.cpp:300-325 | No schedule of a pipeline that is winding down is longer than the rank of the state it starts in. |
| PipelineTermination.LimitedRunsAreBounded | src/pipeline/pipeline.cpp:303-304 | With a frame limit every run is over within 100 steps per frame and 21 more. |
| PipelineTermination.FailingStageWindsDown | src/pipeline/pipeline.cpp:96-98 | A stage that failed needs at most three steps of its own until the pipeline is winding down, and what the others do meanwhile raises the rank by at most 99 a step. |
| PipelineTermination.FailureEndsTheRun | src/pipeline/pipeline.cpp:53-64 | Once the failing stage has had those steps, every schedule is bounded by the rank at the failure and the length of the wait. |
| PipelineTermination.EveryRunEnds | src/pipeline/pipeline.cpp:270-325 | From every state of a pipeline that is winding down the threads get to the end: a schedule exists on which all five exit. |
| PipelineAccounting.StepKeepsFailures | src/pipeline/pipeline.cpp:96-98 | Nothing is aborted unless something failed, and a failure is stored or about to be. |
| PipelineAccounting.FailuresAreReported | src/pipeline/pipeline.cpp:327-330 | When all threads have exited an error is stored exactly if something failed. |
| PipelineAccounting.StageLedger | src/pipeline/pipeline.cpp:85-95 | In a failure-free run each stage step changes counters and pending drops by exactly what it takes off the line. |
| PipelineAccounting.CaptureLedger | src/pipeline/pipeline.cpp:303-318 | The same for each step of capture. |
| PipelineAccounting.StepKeepsDrained | src/pipeline/pipeline.cpp:82-100 | A stage leaves its loop only with a closed, empty input; only the ingress can get a frame after that, at most one, and only from an overtaken push. |
| PipelineAccounting.CapturedFramesAreAccountedFor | src/pipeline/pipeline.cpp:312-317 | In a failure-free run captured equals completed plus dropped plus stranded at the end; at most one frame is stranded, and only if a stop request closed the ingress during a push. |
| PipelineStranding.OneFrameCanBeStranded | src/pipeline/pipeline.cpp:284-284 | The bound is reached in every valid configuration: a run, step by step, that ends with its only frame in the ingress. |
| PipelineStranding.StrandedExactlyIfStopsAllowed | src/pipeline/pipeline.cpp:272-284 | In every valid configuration a failure-free run can end with a captured frame in the ingress if and only if stop requests are allowed. |
| PipelineDelivery.DisplacedIsOld | src/pipeline/hand_off.cpp:46-51 | The frame a stage displaces is older than the one it hands on, so never the newest. |
| PipelineDelivery.StepKeepsNewest | src/pipeline/pipeline.cpp:82-100 | In a failure-free run no step loses the newest admitted frame. |
| PipelineDelivery.NewestGetsThrough | src/pipeline/pipeline.cpp:79-81 | If no close overtook a push, the newest admitted frame is the last the sinks see; in a configuration that keeps the final frame it is the newest captured. |
| PipelineDelivery.FinalFrameIsDelivered | src/pipeline/pipeline.cpp:303-322 | A failure-free run that ends by end of source or frame limit counts every frame read; its final frame is delivered if the ingress does not drop new frames, or has room for all frames that may be read, or for the whole pool. |
| PipelineDelivery.RoomIsThere | src/pipeline/pipeline.cpp:303-312 | In such a configuration a drop-newest ingress is never full at an insertion. |
| PipelineFinalFrame.FinalFrameCanBeLost | src/pipeline/pipeline.cpp:303-317 | In every other configuration there is a run, step by step, that ends by itself with its final frame dropped. |
| PipelineFinalFrame.FinalFrameIsDeliveredExactlyIf | src/pipeline/pipeline.cpp:303-322 | For every valid configuration: all failure-free runs that end by end of source or frame limit deliver their final frame if and only if one of those three conditions holds. |
| PipelineFinalFrame.NarrowIngressLosesTheFinalFrame | src/pipeline/hand_off.cpp:52-58 | The smallest case: room for one frame, a pool of two, two frames read, and the sinks see only the first. |
| PipelineDelivery.BlockingDeliversEveryFrame | src/pipeline/pipeline.cpp:44-49 | With a blocking ingress such a run delivers frames 0 to n-1, each once and in order. |
| PipelineAdmission.StepKeepsAll | src/pipeline/pipeline.cpp:82-100 | Over queues no failure-free step loses an admitted frame or changes the order of those delivered and under way. |
| PipelineAdmission.AdmittedFramesAreDelivered | include/takt/pipeline/hand_off.hpp:42-45 | With a drop-newest or blocking ingress every failure-free run, stopped or not, delivers the admitted frames once and in order, but for one at most that is left in the ingress after a stop; captured is admitted plus dropped. |
| PipelineAdmission.AllAdmittedAreDeliveredExactlyIf | src/pipeline/pipeline.cpp:79-81 | In every such configuration all failure-free runs deliver exactly the admitted frames if and only if stop requests are not allowed. |
| PipelineRefusal.RefusedFrameCanBeCounted | src/pipeline/pipeline.cpp:311-317 | With policy latest every configuration has a run, step by step to the exit of all threads, with one frame captured, one dropped, none completed and none ever admitted. |
| PipelineRefusal.RefusingExactlyIf | src/pipeline/hand_off.cpp:46-51 | In every configuration a failure-free run can catch a push of capture between its two looks at the closed flag if and only if stop requests are allowed and the policy is latest. |
| PipelineRefusal.AtMostOneIsRefused | src/pipeline/pipeline.cpp:311-317 | In every run with policy latest at most one frame is counted without having been admitted, and only after a stop. |
| PipelineRefusal.RefusedIsCountedExactlyIf | src/pipeline/pipeline.cpp:311-317 | With policy latest a whole failure-free run can have counted a frame never admitted if and only if stop requests are allowed. |
| PipelinePolicies.LatestNeverWaits | src/pipeline/pipeline.cpp:44-49 | In every run with policy latest no push of any thread ever sleeps, and whoever is handing a frame on can move at once. |
| PipelinePolicies.LatestReplaces | include/takt/pipeline/hand_off.hpp:38-45 | With policy latest a stage that inserts a frame leaves exactly that frame for the next stage; the frame that stood there is the one released, and nothing else changes. |
| PipelinePolicies.ReplacedIsReleasedAndCounted | src/pipeline/pipeline.cpp:85-95 | The same push to its end, by steps of that stage alone: the replaced frame is back in the pool and counted as dropped, and nothing is counted if nothing stood there. |
| PipelinePolicies.HandOffIsBetweenNeighbours | src/pipeline/pipeline.cpp:82-95 | What is in a hand-off between two stages is changed by these two alone, so the newest frame stays until the next stage takes it or a newer one replaces it. |
| PipelinePolicies.IngressHoldsWhatIsConfigured | src/pipeline/hand_off.cpp:52-58 | In every run with a queueing policy a frame gets into the ingress while fewer frames than configured are queued; capture waits, or drops the frame, only if that many are, and never are twice as many. |
| PipelinePolicies.StageQueueHoldsWhatIsConfigured | src/pipeline/pipeline.cpp:44-49 | The same between two stages, where a frame is never dropped but waits, under either queueing policy. |
| PipelinePolicies.PoolIsAsConfigured | src/pipeline/pipeline.cpp:147-158 | In every run a configured pool lends no more frames than configured and has that many back at the end; a pool left to be sized always has a frame for capture. |
| PipelinePolicies.NothingStartsAfterAbort | src/pipeline/pipeline.cpp:85-87 | Once the abort flag is set no schedule makes a stage start on another frame, and the sinks get at most the one they were being given. |
| Detections.IouRange | include/takt/vision/detection.hpp:29-35 | Overlap is symmetric and between 0 and 1 for all boxes, including inverted and degenerate ones. |
| Detections.IouIsOne | include/takt/vision/detection.hpp:29-35 | Two boxes with an extent overlap completely if and only if they are the same box. |
| Detections.IouCountsCells | include/takt/vision/detection.hpp:29-35 | For boxes with whole corners overlap is the number of unit cells that both cover out of those that either covers, and 0 if there are none. |
| TrackHistory.AssociationSplits | src/track/byte_tracker.cpp:85-94 | An association splits its two lists into matched members, each once, and members left over in order. |
| TrackHistory.EachMatchedOnce | src/track/byte_tracker.cpp:83-112 | Over all three associations no track and no detection is matched twice. |
| TrackHistory.EachUsedOnce | src/track/byte_tracker.cpp:83-130 | In one update no detection is used twice, and new tracks start from exactly the strong, unmatched, good enough detections. |
| TrackHistory.FateContinues | src/track/byte_tracker.cpp:44-51 | One track through one update: seen again in this frame and confirmed, or lost since it was last seen; its id and birth never change. |
| TrackHistory.UpdateKeepsHealth | src/track/byte_tracker.cpp:53-149 | An update keeps ids increasing along the list and below the next, no removed track, tentative tracks newborn, lost ones confirmed and young enough. |
| TrackHistory.HistoryIsHealthy | src/track/byte_tracker.cpp:53-149 | The same for every snapshot of every history since a reset, whose k-th snapshot is frame k. |
| TrackHistory.IdsAreNeverReused | src/track/byte_tracker.cpp:121-121 | An id that has been given out and is gone never comes back. |
| TrackHistory.ReportsAreClose | src/track/byte_tracker.cpp:132-140 | Two consecutive reports of an id are at most the lost limit plus one frame apart, and are of the same track, so its age grows by as much. |
| TrackHistory.ReportsInject | src/track/byte_tracker.cpp:142-148 | The tracks reported after an update inject into its detections, by one mapping: each shows score and class of its own detection and was seen in this frame. |
| TrackHistory.ReportsAreOfReported | src/track/byte_tracker.cpp:142-148 | An object is in the reported list if and only if it reports a confirmed track seen in this frame. |
| TrackHistory.ReportedObjectsInject | src/track/byte_tracker.cpp:142-148 | The reported list itself injects into the detections, so it is no longer than they are, and its ids strictly increase. |
| TrackHistory.UpdateExtendsHistory | src/track/byte_tracker.cpp:53-149 | Each update makes a history one snapshot longer, so the history theorems hold of every tracker. |
| TrackLifetime.LostTracksAreKept | src/track/byte_tracker.cpp:132-140 | A reported track is still there, with its id, in every frame up to frame rate / 30 times the buffer after the report, whatever is detected meanwhile. |
| TrackLifetime.LifetimeIsExact | include/takt/track/byte_tracker.hpp:27-28 | A track that is not seen again is there in a later frame if and only if that frame is within the buffer of its last report. |
| TrackMeaning.MatchesAreInReach | src/track/byte_tracker.cpp:83-112 | Whoever is matched is in reach: by overlap (times score, if configured) of at least 1 less the match threshold for strong detections, one half for weak ones, 0.3 for tentative tracks; and a weak detection only meets a confirmed track in sight. |
| TrackMeaning.LeftoversAreOutOfReach | src/track/byte_tracker.cpp:83-112 | Of a track and a detection that both went unmatched and could have met, the overlap is no more than those bounds. |
| TrackMeaning.ScoresOfReports | include/takt/track/byte_tracker.hpp:32-37 | Over all histories: an object is reported on a score above the low threshold at least, reported after a frame without it on one above the high threshold, and given an id on one above that for new tracks too. |
| TrackMeaning.FirstSighting | src/track/byte_tracker.cpp:116-130 | A new id belongs to a track started from a detection of that frame, and is reported at once exactly in frame 1. |
| TrackMeaning.AgeCountsFrames | src/track/byte_tracker.cpp:142-148 | The age of a reported object is the number of frames since its id first appeared, both counted. |
| TrackMeaning.FlickersVanish | src/track/byte_tracker.cpp:110-112 | A new track that is not seen again in the very next frame is gone after it. |
| TrackMeaning.FirstFrame | src/track/byte_tracker.cpp:116-130 | The first frame reports exactly the detections above both thresholds, in their order, with ids from 1, age 1 and the boxes as detected. |
| TrackMeaning.SecondSighting | src/track/byte_tracker.cpp:44-51 | A new track seen again in the next frame stands four fifths of the way to its second detection and is at rest; one of frame 1, already predicted, 105 parts in 121 of the way, with 25 parts as its velocity. |
| TrackMeaning.LostTracksDrift | src/track/byte_tracker.cpp:77-79 | A track out of sight moves on along a straight line at its last velocity, and its height changes for one frame only. |
| ByteTracker.ByteTracker.Associate | src/track/byte_tracker.cpp:25-42 | The association is a gated matching at cost 1 - IoU (weighted if configured) that splits both lists and is cheapest. |
| ByteTracker.ByteTracker.ApplyMatches | src/track/byte_tracker.cpp:85-87 | Exactly the matched tracks are corrected by their detection; all others stay. |
| ByteTracker.ByteTracker.Match | src/track/byte_tracker.cpp:56-114 | The three associations have the right participants, are cheapest each, and leave every old track settled. |
| ByteTracker.ByteTracker.StartTracks | src/track/byte_tracker.cpp:116-130 | New tracks are appended with consecutive ids; those of the first frame are confirmed at once. |
| ByteTracker.ByteTracker.AgeTracks | src/track/byte_tracker.cpp:132-140 | Exactly the removed and the too old tracks are dropped, and the order is kept. |
| ByteTracker.ByteTracker.Report | src/track/byte_tracker.cpp:142-148 | The report lists, with their age, the confirmed tracks seen in this frame, and no others. |
| ByteTracker.ByteTracker.Update | src/track/byte_tracker.cpp:53-149 | One frame is one step of the relation the history theorems are about; a healthy list stays healthy, and no more objects are reported than were detected. |
| ByteTracker.ByteTracker.Reset | src/track/byte_tracker.cpp:19-23 | Ids and frames start over. |
| LatencyHistogram.IndexIsMonotone | src/core/latency_histogram.cpp:29-39 | Larger values go into the same or a later bucket. |
| LatencyHistogram.BoundsInvertIndex | src/core/latency_histogram.cpp:41-47 | Each of the 2240 buckets is the bucket of its own upper bound: the index is onto and inverted by the bound. |
| LatencyHistogram.BucketsAreContiguous | src/core/latency_histogram.cpp:29-47 | Buckets follow one another without gap or overlap. |
| LatencyHistogram.ValueInBucket | src/core/latency_histogram.cpp:29-47 | A value on the scale lies between the bounds of its bucket. |
| LatencyHistogram.BucketIsNarrow | include/takt/core/latency_histogram.hpp:30-31 | A bucket's upper bound exceeds any of its values by at most a 64th of that value. |
| LatencyHistogram.SortedSorts | src/core/latency_histogram.cpp:70-90 | The reference: samples in increasing order. |
| LatencyHistogram.ScanFindsBucket | src/core/latency_histogram.cpp:79-88 | The scan stops in the bucket of the rank-th smallest sample. |
| LatencyHistogram.EstimateIsClose | src/core/latency_histogram.cpp:70-90 | A percentile is at most a 64th above the exact one, for all samples; it is never below it exactly as long as the exact one is on the scale. |
| LatencyHistogram.EstimateIsMonotone | src/core/latency_histogram.cpp:70-90 | Percentiles are monotone in rank. |
| LatencyHistogram.PercentilesAreGood | include/takt/core/latency_histogram.hpp:54-55 | Both bounds and monotonicity for quantiles in milliseconds, against the exact answer in the sorted list. |
| LatencyHistogram.RankIsLeast | src/core/latency_histogram.cpp:75-77 | The rank is the least one from 1 on that is at least the asked share of the samples. |
| LatencyHistogram.PercentileIsPercentile | include/takt/core/latency_histogram.hpp:52-53 | By counting samples alone: at least the asked share of them is at most the answer, if all are on the scale; and the answer exceeds no sample that covers that share by more than a 64th. |
| LatencyHistogram.SmallestIsSmallest | src/core/latency_histogram.cpp:13-18 | The smallest value is a sample, unless all are too large for its initial value, and no sample is smaller. |
| LatencyHistogram.LargestIsThere | src/core/latency_histogram.cpp:20-25 | The largest value is a sample, and no sample is larger. |
| LatencyHistogram.LatencyHistogram.RecordUs | src/core/latency_histogram.cpp:54-60 | One more sample; all counters follow, the sum modulo 2^64. |
| LatencyHistogram.LatencyHistogram.Record | src/core/latency_histogram.cpp:49-52 | Nanoseconds are truncated to microseconds, negative ones to 0. |
| LatencyHistogram.LatencyHistogram.Reset | src/core/latency_histogram.cpp:62-68 | Back to no samples. |
| LatencyHistogram.LatencyHistogram.PercentileMs | src/core/latency_histogram.cpp:70-90 | The scan returns a percentile in the sense of counting: enough samples are at most the answer, and hardly less would not do; 0 without samples. |
| LatencyHistogram.LatencyHistogram.Summarize | src/core/latency_histogram.cpp:92-106 | Minimum and maximum are samples that bound all others, the mean times the count is the sum as long as that has not wrapped, and all five percentiles are percentiles in the sense of counting. |
| SharedHistogram.StepBalances | src/core/latency_histogram.cpp:54-60 | Under concurrent recording each atomic step pays into a counter exactly what the recording stops owing. |
| SharedHistogram.StepKeepsSmallest | src/core/latency_histogram.cpp:13-18 | The compare-and-swap loop keeps the smallest value right, counting those still to be compared. |
| SharedHistogram.StepKeepsLargest | src/core/latency_histogram.cpp:20-25 | The same for the largest value. |
| SharedHistogram.EverySampleIsCounted | include/takt/core/latency_histogram.hpp:33-35 | Once every recording is through, the counters are those of all samples, whatever the interleaving. |
| SmallMatrix.Times | include/takt/track/small_matrix.hpp:83-94 | The triple loop computes rows times columns. |
| SmallMatrix.Adjoint | include/takt/track/small_matrix.hpp:55-61 | The transpose is the adjoint: x . (m y) == (m' x) . y. |
| SmallMatrix.Factor | include/takt/track/small_matrix.hpp:102-113 | The factor's rows multiply to the matrix; on failure the pivot that is not positive is known. |
| SmallMatrix.Forward | include/takt/track/small_matrix.hpp:117-121 | Forward substitution in place solves l y == b in one column and touches no other. |
| SmallMatrix.Backward | include/takt/track/small_matrix.hpp:122-126 | Back substitution in place solves l' x == y in one column and touches no other. |
| SmallMatrix.CholeskySolve | include/takt/track/small_matrix.hpp:96-129 | For a symmetric matrix of any size: a solution of a x == b if it is positive definite, nothing if it is not. |
| SmallMatrix.FactoredIsPositive | include/takt/track/small_matrix.hpp:96-98 | A matrix that factors is positive definite. |
| SmallMatrix.NotPositiveDefinite | include/takt/track/small_matrix.hpp:104-106 | A pivot that is not positive shows the matrix not positive definite, by a vector with a form that is not positive. |
| SmallMatrix.Sandwich | src/track/kalman_filter.cpp:45-45 | F P F' is symmetric for symmetric P, and its form at z is that of P at F' z. |
| BoxKalmanFilter.InitiateIsValid | src/track/kalman_filter.cpp:21-32 | A first covariance is symmetric and positive semidefinite, and definite if the box has a height. |
| BoxKalmanFilter.Predict | src/track/kalman_filter.cpp:34-46 | Positions move by velocities, the covariance becomes F P F' + Q, and stays symmetric, semidefinite, and definite if it was. |
| BoxKalmanFilter.JosephForm | src/track/kalman_filter.cpp:59-66 | The corrected covariance at z is the old one at z less the padded innovation, plus the noise at the innovation. |
| BoxKalmanFilter.CorrectionKeepsCovariance | src/track/kalman_filter.cpp:62-66 | A correction keeps the covariance symmetric and semidefinite, and definite if the noise is. |
| BoxKalmanFilter.Update | src/track/kalman_filter.cpp:48-67 | The state is corrected with the Kalman gain, or left alone exactly when the innovation covariance is not positive definite; which never happens to a definite covariance. |
| BoxKalmanFilter.MeasurementRoundTrip | src/track/kalman_filter.cpp:69-83 | A fresh track reports the very box it was started from, if and only if that box has positive height or no width. |
| BoxKalmanFilter.Track | src/track/kalman_filter.cpp:21-67 | Any sequence of predictions and corrections, from any first box, keeps the covariance symmetric and semidefinite, and goes from state to state as each call says. |
| KalmanScaling.InitiateScales | include/takt/track/kalman_filter.hpp:8-10 | A track started from a box of another size is the same track at that size: pixels scaled, covariances by as many factors as they have pixel indices. |
| KalmanScaling.PredictionScales | include/takt/track/kalman_filter.hpp:8-10 | Prediction commutes with scaling. |
| KalmanScaling.UpdateScales | include/takt/track/kalman_filter.hpp:8-10 | So does correction, including whether there is one. |
| KalmanScaling.UpdateIsUnique | src/track/kalman_filter.cpp:48-67 | State and measurement determine the corrected state. |
| KalmanScaling.FilterScales | include/takt/track/kalman_filter.hpp:8-10 | So, over any sequence of calls, a filter fed boxes of another size is in the scaled state throughout and reports the scaled boxes: near and far objects are trusted alike. |
| KalmanScaling.DecoupledUpdate | src/track/kalman_filter.cpp:62-66 | Where no position is correlated with another, each entry takes the share of its own innovation that its covariance has in that innovation's. |
| KalmanScaling.VelocitiesGrowUncertain | src/track/kalman_filter.cpp:34-46 | One prediction makes a new track's velocities a hundredth less certain, that of the aspect ratio twice. |
| KalmanScaling.FreshTrackMoves | src/track/kalman_filter.cpp:48-67 | A new track corrected at once moves its centre and height four fifths of the way to the new box and its aspect ratio by a 101st, and gains no velocity. |
| KalmanScaling.PredictedTrackMoves | src/track/kalman_filter.cpp:34-67 | After one prediction it moves 105 parts in 121 of the way, and takes 25 of them as velocity. |
| Nms.SurvivorsArePart | src/vision/nms.cpp:15-27 | Survivors are candidates, each as often at most, and no more than the limit. |
| Nms.SurvivorsByScore | include/takt/vision/nms.hpp:31-32 | Survivors come best first. |
| Nms.SurvivorsAreCompatible | include/takt/vision/nms.hpp:23-26 | No survivor suppresses another. |
| Nms.DiscardsAreSuppressed | src/vision/nms.cpp:16-26 | A candidate that does not survive is suppressed by a survivor at least as good, unless the limit was reached. |
| Nms.LimitIsPrefix | src/vision/nms.cpp:16-16 | The limited result is a prefix of the unlimited one. |
| Nms.SuppressionIsIdempotent | src/vision/nms.cpp:7-28 | Applying it again, after any reordering of the survivors, keeps them all. |
| Nms.CompatibleInAnyOrder | src/vision/nms.cpp:8-9 | Compatibility does not depend on which score-sorted order the sort picked. |
| Nms.SurvivorsOverlapLittle | src/vision/nms.cpp:19-23 | Two survivors that compete, by class or by configuration, overlap by no more than the threshold. |
| Nms.DiscardsOverlapMuch | src/vision/nms.cpp:16-26 | A dropped candidate overlaps by more than that with a survivor it competes with that is at least as good, unless the limit was reached. |
| Nms.ClassesAreIndependent | src/vision/nms.cpp:21-21 | Unless classes do not matter, and under no limit, the survivors of a class are the survivors of that class alone. |
| Nms.AgnosticIgnoresClasses | src/vision/nms.cpp:21-21 | If classes do not matter, changing them changes nothing but them. |
| Nms.Nms.Mark | src/vision/nms.cpp:19-23 | Exactly the later detections the current one suppresses are marked. |
| Nms.Nms.Apply | src/vision/nms.cpp:7-28 | The compacted prefix of the array is the greedy result on some score-sorted order of the input, truncated to the candidate limit. |
| Letterbox.ContentFits | src/vision/letterbox.cpp:26-39 | The resized image fits on both axes, fills one, and the padding is half the room rounded down. |
| Letterbox.ComputeLetterbox | src/vision/letterbox.cpp:21-39 | Fails exactly if one of the four sizes is not positive; otherwise the content fits. |
| Letterbox.RoundTripClips | src/vision/letterbox.cpp:10-19 | Mapping a box to the model and back clips it to the image and does nothing else. |
| Letterbox.TapInRange | src/vision/letterbox.cpp:62-80 | Both neighbours of every output position are in the source, and the weight is in [0, 1). |
| Letterbox.PixelInBounds | include/takt/core/image.hpp:16-26 | Every byte of every pixel of a view, with padded rows, is inside its data. |
| Letterbox.SampleInRange | src/vision/letterbox.cpp:164-168 | A blend of four bytes, scaled, is between 0 and 1. |
| Letterbox.BuildAxis | src/vision/letterbox.cpp:62-80 | The loop builds the table of one axis. |
| Letterbox.Interpolate | src/vision/letterbox.cpp:164-168 | The kernel's inner arithmetic is the bilinear sample. |
| Letterbox.Write | src/vision/letterbox.cpp:168-168 | A cell is written only if it has not been written before, and then holds what belongs there. |
| Letterbox.FillBars | src/vision/letterbox.cpp:139-143 | The bars above and below have been written afterwards, and nothing else. |
| Letterbox.WriteLine | src/vision/letterbox.cpp:145-171 | One image line with its margins has been written afterwards in all planes, and nothing else. |
| Letterbox.Letterboxer.Prepare | src/vision/letterbox.cpp:52-111 | The tables are those of the given size and format afterwards; they are built once if size or format differ from the last, and are neither built nor touched if not. |
| Letterbox.Letterboxer.Run | src/vision/letterbox.cpp:113-173 | Errors as in the source, and then nothing is written; otherwise all tensor cells are written, none twice, and hold what image and target determine; nothing beyond is touched. |
| Letterbox.TensorInRange | include/takt/vision/letterbox.hpp:40-46 | Every cell of a finished tensor is between 0 and 1. |
| Letterbox.PlanesAreRgb | src/vision/letterbox.cpp:120-126 | The three planes are red, green and blue for either channel order, and all grey for a grey image. |
| Letterbox.SameSizeIsExact | src/vision/letterbox.cpp:60-80 | An image of the target's size is not interpolated: each cell is its pixel's byte, scaled. |
| LetterboxSampling.MirrorAcross | src/vision/letterbox.cpp:60-80 | Mirroring an image left to right mirrors its content, cell by cell. |
| LetterboxSampling.MirrorDown | src/vision/letterbox.cpp:60-80 | Mirroring it top to bottom does likewise. |
| LetterboxSampling.TensorsMirror | src/vision/letterbox.cpp:113-173 | The same of the tensors that two runs have filled. |
| LetterboxSampling.BlocksAreSampledInTheMiddle | src/vision/letterbox.cpp:60-80 | Shrunk by whole factors, each cell is the mean of the one, two or four pixels in the middle of its block. |
| LetterboxSampling.SlopesStayEven | src/vision/letterbox.cpp:60-80 | Where an image rises evenly from left to right its content does too, from cell to cell, by the ratio of the sizes. |
| LetterboxSampling.BytesGoToTheirPlanes | src/vision/letterbox.cpp:120-126 | In an image of the target's size each byte is copied, scaled, to its place in the plane of its colour, named by row, column and channel order. |
| LetterboxSampling.BytesAreApart | include/takt/core/image.hpp:16-26 | No two bytes of a view share a place in its data. |
| LetterboxSampling.ImageMapsToContent | src/vision/letterbox.cpp:10-39 | The corners of an image map to those of its content, the lower right one within half a pixel; nothing maps back outside the image, and boxes inside it come back unchanged. |
| Letterbox.HistoryDoesNotMatter | include/takt/vision/letterbox.hpp:46-47 | A job has only one complete tensor. |
| Letterbox.FitAfterPasts | include/takt/vision/letterbox.hpp:46-47 | Two letterboxers for one target, each after any sequence of images of its own, fit the same image with the same outcome into equal tensors. |

## Left out

- C++ memory orderings: steps interleave sequentially consistently.
- Wake-up epochs are unbounded numbers; a 32-bit epoch that wraps around within one park is not modelled, nor are spurious wake-ups (a parked thread that wakes for nothing looks again and changes nothing).
- The mutex and condition variable of the frame pool: `acquire` is one step, enabled when there is a frame or a stop was requested.
- The ring's slot index `& mask` is modelled as the remainder by the capacity, a power of two.
- Ring and mailbox hold numbers in place of frame pointers; values published to a mailbox are distinct and increasing, as sequence numbers are.
- The pipeline works over abstract queues in which an insertion, a pop and an end report are one step each. `HandOffRefinement` shows this for one ring or mailbox at a time; the product of four such simulations, one per hand-off of the pipeline, is not written out, neither for what never happens nor for progress.
- Floating point: all arithmetic is over reals. NaN, infinity and rounding are not modelled; the solver's initial infinite slack is a separate case.
- The solver's flat matrix buffer with its stride is a two-dimensional array; buffers are allocated anew rather than reassigned in place.
- The tracker's scratch lists are locals rather than fields, and its cost buffer is appended to rather than resized and assigned.
- Frame numbers, ids and counters are unbounded, except the ring's counters and the histogram's sum, and in `SharedHistogram` all counters.
- Matrices are sequences of rows; in-place updates of their entries are updates of a sequence held in a variable.
- The order `std::sort` gives to detections of equal score: `Nms.Nms.Apply` sorts by insertion, and every property holds of any order by score.
- Letterbox.Letterboxer.Run: padding rows are filled row by row where the source fills a range of rows at once; negative strides are not modelled.
- Percentile scans that overlap with recordings, for which the source itself promises an approximation only.
- `run_sequential`, warm-up, reports, the statistics thread, overlays, sources, sinks, the ONNX and OpenCV backends, the YOLO decoder, image reshaping and policy names: easy, or foreign code.
- How well tracking, smoothing or re-identification works on real footage.
