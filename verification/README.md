# Denial compositor: a verified model

This project models the parts of the Denial compositor whose correctness is
hardest to see from reading the code, and proves what they are relied on for.
To check it all, run `dafny verify dfyconfig.toml`.

**The commit scheduler** (`Scheduler*.dfy`, `CommitScheduler.dfy`) submits
display commits close to their presentation target. It is modelled as a state
machine whose steps are the atomic operations of four actors: the clock, one
submitter, the shutdown sequence and the worker. Every interleaving, every
passage of time and every ioctl result is a run of that machine. Theorems are
about all its runs: where each submitted commit is, how many slots are taken,
when and how often a commit is attempted, how many others can come first, how
soon a due commit is reached, which of the kernel's answers end a commit and how,
what is answered to each submission and what its job hands over, how soon a job
is received, and how fast a cancelled worker stops. The same
operations are also given as classes that update their fields in place, tied
method by method to the machine's steps.

**Topology and the atlas** (`Topology*.dfy`, `Orientation.dfy`, `Rounding.dfy`,
`Atlas.dfy`, `RenderOutputs.dfy`) hold a transactional map of outputs, number
its changes, plan one pixel rectangle per output by rounding a scaled logical
layout, and map each rectangle into a native buffer for eight orientations.

**Plane requests** (`PlaneDamage.dfy`, `PlaneCommit.dfy`) collect a bounded set
of damage clips and rewrite one reusable atomic request for every attempt.
`CommitRuns.dfy` joins them to the scheduler: over any run it says which requests
reach the device, for which submissions, and what is reported of them.

**The engine host's small protocols** (`MessageBudget.dfy`, `StoragePool.dfy`,
`RasterSentinel.dfy`) are a quota kept by two atomics, a pool of reusable
buffers, and the sentinel by which the render thread reports idleness. Quota
and sentinel are again proved over all interleavings.

**The portal protocol** (`PortalProtocol.dfy`, `PortalRecords.dfy`,
`PortalCache.dfy`) is a fixed-width little-endian codec, its records byte by
byte, and a revision-ordered cache whose change signals must let a listener
follow it.

Four results are worth knowing before changing the code:

- From the moment a waiting commit is due until it is attempted there are fewer
  other attempts than slots, and one more only if there is a second slot and a
  submission had at that moment read its clock before the deadline without yet
  taking a slot (`SchedulerFairness.OvertakingIsBounded`). For every capacity
  above one a run reaches that bound
  (`SchedulerWitnesses.OvertakingBoundIsReached`), so the other slots alone
  bound the overtaking exactly for a capacity of one
  (`SchedulerWitnesses.OtherSlotsBoundOnlyOne`). A retried commit goes behind
  only because the retry interval exceeds zero and the clock does not run
  backwards; one already in flight when another becomes due can still be retried
  ahead of it once, and is counted.
- The worker computes the length of a wait from one reading of the clock and
  begins it later, so it can sleep on a commit that is already due: for less time
  than lies between the reading and the beginning of the wait
  (`SchedulerProgress.DueIsSleptOnWithinTheLag`), and for any such lag up to the
  last moment of it (`SchedulerWitnesses.DueIsSleptOn`).
- A successful `make_current` may never be followed by `raster_idle`: exactly
  when the publisher finds the pending flag set by a call that has already read
  a zero handle, and nothing is made current afterwards
  (`RasterSentinels.OwedAtRestIsTheLostRace`, `RasterSentinels.RaceCanBeLost`).
- Source rectangles are disjoint and lie inside the atlas only while they start
  short of the last edge a `u32` can hold. Exactly when they do not, an output's
  rectangle lies outside the atlas (`Atlas.SourcesLieInTheAtlas`); two that start
  there on the same axis share pixels exactly if they meet on the other
  (`Atlas.SourcesMeetExactly`), as in the valid layout of
  `Atlas.SaturatedSourcesCoincide`.

Where comments and code disagree the model follows the code. The comment on
`submit_for_target` says it retries until the kernel accepts; the code gives up
on a retryable error after 100 ms (`SchedulerOutcomes.EndsAsAnswered`). The
compositor README says over-large atlases are rejected; the planner itself does
not reject but clamps each edge to a `u32`, so the clamp is kept, and the lemmas
about sampling, shared edges, containment and disjointness say exactly when it
bites.

## Model

| member | source | states |
|---|---|---|
| Scheduler.NotBeforeIsEarliest | compositor/src/volition/mod.rs:700-705 | not_before is the earliest moment neither past nor more than 2 ms before the target |
| Scheduler.HasNext | compositor/src/volition/mod.rs:428-439 | a non-empty queue has a lexicographically least (deadline, arrival) |
| Scheduler.NextIsUnique | compositor/src/volition/mod.rs:408-439 | that least commit is the only one a pop can take |
| SchedulerSlots.SlotsAreKept | compositor/src/volition/mod.rs:488-518 | in every reachable state pending is exactly the slots reserved, in the channel, in the queue and in hand, within the capacity; every received commit is in exactly one place |
| SchedulerSlots.SendsFitAndReleasesAreCovered | compositor/src/volition/mod.rs:506-516 | the channel is never full when a reservation is sent, and every decrement of pending finds it positive |
| SchedulerSlots.QueuedAnswersAreSent | compositor/src/volition/mod.rs:488-518 | submissions answered Queued are exactly the jobs put into the channel |
| SchedulerSlots.QueuedAreReportedOrPending | compositor/src/volition/mod.rs:563-567 | once sends and reports settle, answers Queued are events plus pending commits |
| SchedulerSlots.EventsAreTheirCommits | compositor/src/volition/mod.rs:619-655 | each commit is reported at most once, with its own instance and identifier |
| SchedulerTiming.AttemptsAreTimely | compositor/src/volition/mod.rs:609-633 | no attempt before not_before nor more than 2 ms before the target, 100 µs between attempts, at most 1001 attempts |
| SchedulerTiming.PacedIsBounded | compositor/src/volition/mod.rs:50-52 | attempts a retry interval apart, all but the last within the longest wait, are at most 1001 |
| SchedulerWitnesses.AttemptBoundIsReached | compositor/src/volition/mod.rs:609-655 | a run in which one commit is attempted 1001 times |
| SchedulerTiming.ReportsAreTimely | compositor/src/volition/mod.rs:612-672 | a submission is reported no earlier than its last attempt, a retryable error ends a commit only when 100 ms lie between its first and last attempt, and a commit fails exactly on an error that is neither retryable nor recoverable |
| SchedulerTiming.DispositionIsTimed | compositor/src/volition/mod.rs:660-672 | only a retryable refusal leaves the commit waiting, and only within its expiry; after it, or on a recoverable error, the commit stalls, and on any other it fails |
| SchedulerFairness.OvertakingIsBounded | compositor/src/volition/mod.rs:580-658 | between a commit becoming due and its attempt there are at most capacity-1 other attempts, and one more only with a second slot and a submission whose clock was read before the deadline but whose slot was not yet taken |
| SchedulerWitnesses.OvertakingBoundIsReached | compositor/src/volition/mod.rs:488-658 | for every capacity above one, a run in which a due commit waits for that many other attempts |
| SchedulerWitnesses.OtherSlotsBoundOnlyOne | compositor/src/volition/mod.rs:488-658 | overtaking is bounded by the other slots alone, over all runs, exactly for a capacity of one |
| SchedulerFairness.StepIsFair | compositor/src/volition/mod.rs:539-561 | no step lets a new or retried commit get ahead of a due one that was not already counted |
| SchedulerFairness.OvertakersHoldSlots | compositor/src/volition/mod.rs:488-505 | every commit that may still come first holds a slot, except such a submission |
| SchedulerProgress.DueIsSleptOnWithinTheLag | compositor/src/volition/mod.rs:585-607 | while a commit is due a live worker is blocked exactly by a wait that has neither run out nor been ended, and for less time than lies between the clock read the wait's length comes from and the beginning of the wait |
| SchedulerWitnesses.DueIsSleptOn | compositor/src/volition/mod.rs:594-607 | for every such lag, a run in which the worker sleeps on a commit that has been due for one nanosecond less |
| SchedulerProgress.TurnComesSoon | compositor/src/volition/mod.rs:569-658 | the worker reaches a due commit within 8 + 9 * capacity of its own steps |
| SchedulerShutdown.FlagsAreKept | compositor/src/volition/mod.rs:520-531 | submissions and shutdown never meet, a submission with a slot never fails, and the error for an exited worker is never returned |
| SchedulerShutdown.DisconnectedIsCancelled | compositor/src/volition/mod.rs:549-561 | a disconnected channel or an exited worker implies the cancellation flag was already set |
| SchedulerShutdown.CancellationIsPrompt | compositor/src/volition/mod.rs:580-608 | after the flag is stored: at most one more ioctl, one more event, and 7 + capacity more worker steps |
| SchedulerShutdown.NothingBlocksAfterUnpark | compositor/src/volition/mod.rs:520-530 | from the unpark on nothing blocks the worker, and its exit lets the join return |
| CommitScheduling.CommitScheduler.Start | compositor/src/volition/mod.rs:450-461 | starting is refused exactly for a capacity of zero |
| CommitScheduling.CommitScheduler.TrySubmit | compositor/src/volition/mod.rs:488-518 | an undisturbed submission leaves the shared state and the answer of the machine's steps |
| CommitScheduling.CommitScheduler.Shutdown | compositor/src/volition/mod.rs:520-531 | sets the flag, drops the sender and unparks once; a second call changes nothing |
| CommitScheduling.CommitScheduler.FinishJob | compositor/src/volition/mod.rs:563-567 | gives back exactly one slot |
| CommitScheduling.CommitWorker.ScheduleJob | compositor/src/volition/mod.rs:539-547 | queues the job under the next arrival number, ready at not_before, without an expiry |
| CommitScheduling.CommitWorker.DrainJobs | compositor/src/volition/mod.rs:549-561 | empties the channel into the queue in order and then reports whether the sender lives |
| CommitScheduling.CommitWorker.PeekReadyAt | compositor/src/volition/mod.rs:585-594 | the deadline of the least commit, if any |
| CommitScheduling.CommitWorker.PopNext | compositor/src/volition/mod.rs:609 | pops the machine's next commit |
| CommitScheduling.CommitWorker.Attempt | compositor/src/volition/mod.rs:610-656 | one attempt sets the expiry once and then finishes or reinserts as the machine does |
| CommitScheduling.DrainedIsArrivals | compositor/src/volition/mod.rs:549-561 | draining one job at a time equals receiving all of them in order |
| PlaneDamages.PlaneDamage.constructor | compositor/src/volition/mod.rs:88-112 | stores the non-degenerate clips in order, or past 32 their tightest bounding rectangle |
| PlaneDamages.BoundsAreLeast | compositor/src/volition/mod.rs:145-152 | no smaller rectangle holds the clips |
| PlaneDamages.CoverageIsKept | compositor/src/volition/mod.rs:36-39 | every covered point of every clip is covered by some stored clip |
| PlaneDamages.EmptyMeansUnchanged | compositor/src/volition/mod.rs:71-78 | nothing is stored exactly when no clip covers any point; at most 32 clips are stored |
| PlaneDamages.ShortListsAreVerbatim | compositor/src/volition/mod.rs:98-101 | up to 32 non-degenerate clips are stored verbatim |
| PlaneDamages.ShortCoverageIsExact | compositor/src/volition/mod.rs:86-101 | without collapse exactly the given points are covered |
| PlaneDamages.BlobCoversTheSame | compositor/src/volition/mod.rs:114-134 | a damage blob is never empty and covers exactly what is stored |
| PlaneCommits.PlaneCommit.constructor | compositor/src/volition/mod.rs:207-241 | a new request carries the plane's properties, its source rectangle in 16.16 fixed point, no framebuffer and the null blob |
| PlaneCommits.PlaneCommit.Push | compositor/src/volition/mod.rs:243-248 | appends one property and its value |
| PlaneCommits.PlaneCommit.Submit | compositor/src/volition/mod.rs:250-297 | what one attempt does to the device depends on that attempt alone, whatever earlier attempts left in the arrays |
| PlaneCommits.SubmitAll | compositor/src/volition/mod.rs:250-297 | submitting one request over and over leaves the attempts' own events, one attempt after another |
| PlaneCommits.CommitsCarryNothingStale | compositor/src/volition/mod.rs:207-297 | over any attempts every request sets the framebuffer to its own attempt's, the source rectangle to 16.16 fixed point, the rotation to the plane's, the fence to none, and the damage to the blob created for that attempt, or the null blob if none was |
| PlaneCommits.AttemptRequests | compositor/src/volition/mod.rs:250-297 | one attempt makes exactly one request, its own, and besides it at most one creation and one destruction |
| PlaneCommits.BlobsAreBalanced | compositor/src/volition/mod.rs:287-295 | over any attempts every non-null blob is destroyed exactly as often as it is created |
| PlaneCommits.CommitsAreTheirAttempts | compositor/src/volition/mod.rs:250-297 | everything asked of the device belongs to one attempt |
| SchedulerSubmissions.SentAreTheQueued | compositor/src/volition/mod.rs:755-772 | the jobs sent are exactly the submissions answered Queued, each once and in order; the k-th carries its caller's commit, target and payload under the run's one instance, and its not_before is the least moment neither before the clock read nor more than 2 ms before the target |
| SchedulerSubmissions.AnswersAreExact | compositor/src/volition/mod.rs:488-518 | a submission is refused exactly when the sender is gone or all slots are taken, and says which; otherwise it takes a slot and its job enters the channel |
| SchedulerReceipt.SentIsNotSleptOn | compositor/src/volition/mod.rs:549-608 | while a job waits in the channel nothing blocks a live worker |
| SchedulerReceipt.ReceivedSoon | compositor/src/volition/mod.rs:549-608 | unless cancelled first, a sent job is received within 6 + capacity of the worker's steps |
| SchedulerOutcomes.TimesAreReadings | compositor/src/volition/mod.rs:609-613 | the attempt times are what the clock read after each pop |
| SchedulerOutcomes.EndsAsAnswered | compositor/src/volition/mod.rs:614-671 | over any run a commit ends, and with this event, exactly if its last answer calls for it: an acceptance at the moment it came, a recoverable or other refusal at once with its cause, a retryable one only when 100 ms lie between first and last attempt |
| SchedulerOutcomes.FinalAnswerEnds | compositor/src/volition/mod.rs:614-671 | any answer but a retryable refusal is the commit's last, and the commit is, or is about to be, reported as submitted, stalled or failed by it |
| SchedulerOutcomes.OnlyRetryableIsRetried | compositor/src/volition/mod.rs:628-671 | a commit is attempted again only after a retryable refusal less than 100 ms after its first attempt |
| SchedulerOutcomes.DeadlinesAreExact | compositor/src/volition/mod.rs:539-633 | a queued commit is due at its not_before, or 100 µs after its last attempt |
| CommitRuns.SubmitInterleaved | compositor/src/volition/mod.rs:614-618 | the commits' requests, each rewritten for its own attempts with those of others in between, leave the specified log on their one device |
| CommitRuns.RequestsAreTheirCommits | compositor/src/volition/mod.rs:609-618 | over any run the n-th request the device sees is the n-th attempt's: it makes the settings of one sent commit and no others, with the blob created for this attempt or the null blob |
| CommitRuns.RequestsAreOwn | compositor/src/volition/mod.rs:250-297 | whatever the attempts, there is one request for each, in order, with its own settings |
| CommitRuns.BlobsOutliveTheirRequests | compositor/src/volition/mod.rs:262-295 | a blob that a request names is created from that attempt's damage before the request and destroyed after it, with nothing done to it in between |
| CommitRuns.RetriesInOrder | compositor/src/volition/mod.rs:250-297 | the same for one request submitted over and over |
| CommitRuns.RequestsAreAttempts | compositor/src/volition/mod.rs:609-633 | the device sees each commit's requests exactly as often as it was attempted, at most 1001 times |
| CommitRuns.SubmittedIsAccepted | compositor/src/volition/mod.rs:614-627 | a commit is, or is about to be, reported as submitted exactly if the kernel accepted one of its requests |
| CommitRuns.AcceptedIsLast | compositor/src/volition/mod.rs:609-658 | after the kernel has accepted a commit no request for it reaches the device again |
| CommitRuns.NoBlobIsLeft | compositor/src/volition/mod.rs:287-295 | over the attempts of all commits every non-null blob is destroyed exactly as often as it is created |
| Orientation.RotatedByComposes | compositor/src/topology.rs:107-159 | rotating an orientation composes its map with the rotation's |
| Orientation.RotatedByIsUnique | compositor/src/topology.rs:120-159 | rotated_by gives the only orientation that does so |
| Orientation.MapIsMirrorThenSpin | compositor/src/topology.rs:107-118 | all eight maps are an optional mirror followed by quarter turns |
| Orientation.RotationsAddUp | compositor/src/topology.rs:124-159 | any history of rotations is one rotation by the sum of its turns and keeps the reflection |
| Orientation.InverseRotationUndoes | compositor/src/topology.rs:161-168 | the inverse rotation undoes a rotation |
| Orientation.RotationsUndone | compositor/src/topology.rs:161-168 | undoing a history of rotations step by step restores the mounting transform |
| Topology.LogicalRectIsScaled | compositor/src/topology.rs:215-232 | logical lengths times the scale are 120 times the turned mode's pixels; the corner is the position |
| Topology.OverlapIsInterior | compositor/src/topology.rs:462-467 | rectangles overlap exactly if their interiors meet |
| Topology.NameOrder | compositor/src/topology.rs:445-449 | names are ordered by their first difference, a prefix before what it begins |
| Topology.RefusalIsExplained | compositor/src/topology.rs:413-460 | a refused layout has a first output that does not fit the valid layout before it, and the error is that of the first test this output fails |
| Topology.ScanDecidesValidity | compositor/src/topology.rs:413-460 | the validation scan accepts exactly the valid layouts |
| TopologyManagement.VerdictIgnoresOrder | compositor/src/topology.rs:413-460 | its verdict does not depend on the order of the outputs |
| TopologyManagement.ValidateOutputs | compositor/src/topology.rs:413-460 | the loop with its sets of names and rectangles reports the first fault |
| TopologyManagement.FindOverlap | compositor/src/topology.rs:443-467 | the first overlap with an earlier output, names in order |
| TopologyManagement.AllOrNothing | compositor/src/topology.rs:329-384 | a transaction takes effect exactly when the staged map is valid, and otherwise changes nothing |
| TopologyManagement.LastChangeWins | compositor/src/topology.rs:334-346 | the last change naming an output decides it |
| TopologyManagement.UntouchedIsKept | compositor/src/topology.rs:334-346 | outputs no change names stay as they were |
| TopologyManagement.CommitIsTheDifference | compositor/src/topology.rs:347-384 | added, removed and changed are exactly the difference of the maps, in order |
| TopologyManagement.NoopMeansNothingChanged | compositor/src/topology.rs:258-262 | a commit is a no-op exactly when the state is unchanged |
| TopologyManagement.CommitLeadsOn | compositor/src/topology.rs:366-384 | a commit's epochs are the state's before and after; unless nothing changed the epoch is the next number, and 1 after the last |
| TopologyManagement.RefusedIsExplained | compositor/src/topology.rs:347-348 | a refused transaction returns the error that explains the staged outputs in order |
| TopologyManagement.TopologyManager.Apply | compositor/src/topology.rs:322-327 | applies changes under the primary output already chosen |
| TopologyManagement.TopologyManager.ApplyWithPrimaryOutput | compositor/src/topology.rs:329-384 | updates the fields to the specified state and returns the specified result |
| TopologyManagement.TopologyManager.Snapshot | compositor/src/topology.rs:386-406 | epoch, least bounds, chosen ticker and the outputs in order |
| TopologyManagement.LogicalBounds | compositor/src/topology.rs:469-490 | the loop over four edges computes the bounds |
| TopologyManagement.BoundsAreLeast | compositor/src/topology.rs:469-490 | the bounds enclose every output and no smaller rectangle does |
| TopologyManagement.TickerChoice | compositor/src/topology.rs:386-400 | an output is a snapshot's ticker exactly when it has the state's primary name, or, none having it, no other is faster, nor as fast with a smaller identifier |
| TopologyManagement.SnapshotIsTheState | compositor/src/topology.rs:386-406 | a snapshot has the state's epoch, exactly its outputs by increasing identifier, and bounds unless there is none |
| TopologyManagement.SnapshotBoundsAreLeast | compositor/src/topology.rs:386-406 | a snapshot's bounds are the least rectangle around its outputs |
| TopologyRuns.ReachableIsValid | compositor/src/topology.rs:301-384 | every reachable topology is valid |
| TopologyRuns.EpochClosedForm | compositor/src/topology.rs:366-376 | after n effective commits the epoch is (n - 1) mod (2^64 - 1) + 1 |
| TopologyRuns.EpochCollisions | compositor/src/topology.rs:366-384 | two points of any run share an epoch exactly when nothing took effect between them or the counter went round whole |
| TopologyRuns.EpochIsAGenerationKey | compositor/src/topology.rs:366-406 | below 2^64 effective commits equal epochs mean equal states and snapshots |
| Rounding.EdgeIsCentreRule | compositor/src/topology.rs:671-673 | a rounded edge lies at or before a pixel exactly when the coordinate lies before its centre |
| Rounding.EdgesKeepDistance | compositor/src/topology.rs:671-673 | edges at least k pixels apart stay so, and exactly k apart stay exactly k |
| Atlas.ForSnapshot | compositor/src/topology.rs:586-636 | the planning loop computes the specified plan, which has the snapshot's epoch, its bounds' corner and extent and the greatest scale, and an entry for each output in order with its identifier, logical rectangle, transform, turned size and whether it is sampled one to one |
| Atlas.SnapshotsAreWellFormed | compositor/src/topology.rs:386-406 | every snapshot of a valid topology can be planned from |
| Atlas.PixelCentreRule | compositor/src/topology.rs:595-617 | a pixel below 2^32 - 1 on both axes is in an output's source rectangle exactly when its centre, scaled back, is in the logical rectangle |
| Atlas.PixelsAreNotShared | compositor/src/topology.rs:595-617 | no pixel below 2^32 - 1 on both axes belongs to two outputs |
| Atlas.SourcesMeetExactly | compositor/src/topology.rs:595-617 | two source rectangles share a pixel exactly when both outputs start saturated on one axis and their scaled intervals, once rounded, meet on the other |
| Atlas.SourcesAreDisjoint | compositor/src/topology.rs:595-617 | two source rectangles are disjoint if on each axis one of them starts short of saturation |
| Atlas.AtlasIsTheBounds | compositor/src/topology.rs:618-635 | the atlas is exactly the pixels whose centres lie in the logical bounds |
| Atlas.SourcesLieInTheAtlas | compositor/src/topology.rs:595-635 | a source rectangle lies inside the atlas exactly when it starts short of saturation on both axes |
| Atlas.SourcePixelsLieInTheAtlas | compositor/src/topology.rs:595-635 | every pixel of a source rectangle below 2^32 - 1 on both axes lies in the atlas, saturated or not |
| Atlas.SaturatedSourcesCoincide | compositor/src/topology.rs:671-673 | a valid layout in which two outputs side by side get the same source rectangle, outside the atlas |
| Atlas.TilingIsKept | compositor/src/topology.rs:586-636 | a layout that tiles its bounds gives each atlas pixel exactly one owner |
| Atlas.TouchingOutputsShareAnEdge | compositor/src/topology.rs:595-617 | outputs whose logical edges touch meet on the same pixel edge exactly when the first starts short of saturation |
| Atlas.NeverUndersampled | compositor/src/topology.rs:595-617 | a source rectangle is at least as large as the output's transformed pixel size exactly when, on each axis, those pixels fit from its start or are one |
| Atlas.FittingEdgesLeaveRoom | compositor/src/topology.rs:595-617 | if an output's far edges fit a u32, its own pixels fit from its start |
| Atlas.SizesAreForcedExactly | compositor/src/topology.rs:600-611 | a planned width or height is the distance of the rounded edges exactly when the output starts short of saturation on that axis; where not, they coincide and it is forced up to one |
| Atlas.OneToOneExactly | compositor/src/topology.rs:588-617 | an output at the engine scale is sampled one to one exactly when, on each axis, its far edge fits a u32 or it is one pixel wide |
| Atlas.BoundsFitIsEnough | compositor/src/topology.rs:671-673 | if the bounds fit, every output's edges do |
| Atlas.SaturationResamples | compositor/src/topology.rs:671-673 | a valid layout in which saturation costs an output its one-to-one sampling |
| RenderOutputs.ProjectionInvertsInput | compositor/src/topology.rs:547-583 | for every orientation, mode and source rectangle the projection sends the source point of native (u, v) to (u * width, v * height) |
| RenderOutputs.SourceFillsTheBuffer | compositor/src/topology.rs:547-583 | every point of the source rectangle is shown in the native buffer, and every point of the native buffer shows one of the source rectangle |
| RenderOutputs.ViewIdFor | compositor/src/topology.rs:16-25 | a view identifier exists exactly for identifiers below 2^63 - 1, and the two add up to -1 |
| RenderOutputs.RenderExactly | compositor/src/topology.rs:638-668 | any plan renders any snapshot exactly when both epochs are the same and not zero, the counts agree, and every output is planned and has a view; each entry has its output's identifier, view, generation, mode, scale, and the source rectangle and inverse projection of its first entry in the plan |
| RenderOutputs.RenderOwnSnapshot | compositor/src/topology.rs:638-668 | a plan renders its own snapshot exactly when the epoch is non-zero and every output has a view; one entry per output, in order |
| RenderOutputs.ViewsAreDistinct | compositor/src/topology.rs:16-25 | the rendered views are distinct negative numbers |
| RenderOutputs.StalePlansAreRefused | compositor/src/topology.rs:638-645 | along a run a plan is accepted for another snapshot only if the states are the same |
| MessageBudgets.QuotaIsKept | compositor/flutter-engine/src/host.rs:398-440 | under every interleaving messages and bytes are exactly what the calls and permits account for, within both quotas |
| MessageBudgets.SubtractionsAreCovered | compositor/flutter-engine/src/host.rs:415-440 | no counter underflows |
| MessageBudgets.SettledCountersArePermits | compositor/flutter-engine/src/host.rs:398-440 | between calls the counters are the permits held and their bytes, so a refusal has no net effect |
| MessageBudgets.RefusalsAreExact | compositor/flutter-engine/src/host.rs:399-427 | when exactly each of the two atomic updates refuses |
| MessageBudgets.PlatformMessageBudget.TryAcquire | compositor/flutter-engine/src/host.rs:399-427 | undisturbed, a permit is given exactly when both quotas have room |
| MessageBudgets.PlatformMessageBudget.DropPermit | compositor/flutter-engine/src/host.rs:435-440 | dropping a permit gives back its bytes and its message |
| StoragePools.StoragePool.AcquireStorage | compositor/flutter-engine/src/host.rs:356-368 | hands out the newest entry or new storage, always empty; the saturating subtraction is exact |
| StoragePools.StoragePool.ReleaseStorage | compositor/flutter-engine/src/host.rs:370-389 | keeps the emptied storage exactly when both limits allow |
| StoragePools.KeptIfRoom | compositor/flutter-engine/src/host.rs:370-389 | storage is kept exactly if fewer than 256 entries are pooled and no more than 16 MiB with its own room |
| StoragePools.PoolStaysWithinLimits | compositor/flutter-engine/src/host.rs:349-389 | over any calls the pool stays within both limits and holds only empty buffers |
| StoragePools.ReuseIsLastInFirstOut | compositor/flutter-engine/src/host.rs:356-389 | storage that was kept is the next to be handed out |
| RasterSentinels.PendingHasOneOwner | compositor/flutter-engine/src/host.rs:1203-1239 | under every interleaving the pending flag is set exactly while one call or one sentinel is responsible for clearing it |
| RasterSentinels.PendingIsQueued | compositor/flutter-engine/src/host.rs:1203-1239 | while nothing is under way the flag is set exactly if one sentinel is queued |
| RasterSentinels.OwedAtRestIsTheLostRace | compositor/flutter-engine/src/host.rs:1193-1239 | at rest every successful make_current has been followed by raster_idle, except exactly after the publisher's lost race |
| RasterSentinels.RaceIsNotLostAgain | compositor/flutter-engine/src/host.rs:1193-1201 | once the publisher is done, a race not lost or made up for is never lost |
| RasterSentinels.RaceCanBeLost | compositor/flutter-engine/src/host.rs:1193-1219 | an interleaving that ends at rest with idleness owed |
| RasterSentinels.TasksKeepTheirOrder | compositor/flutter-engine/src/host.rs:1218-1230 | the render thread takes tasks in the order in which they were queued |
| RasterSentinels.SentinelRunsLast | compositor/flutter-engine/src/host.rs:1218-1239 | a sentinel runs right after the last task queued before it was posted, and no other runs before that |
| RasterSentinels.CallbackState.QueueRasterSentinel | compositor/flutter-engine/src/host.rs:1203-1230 | an undisturbed call runs the machine's steps to their end: it posts a sentinel exactly if the flag was clear, there is a handle and posting succeeds, and reports idleness itself exactly if posting fails |
| RasterSentinels.CallbackState.MakeCurrent | compositor/flutter-engine/src/host.rs:822-830 | only a successful call queues a sentinel |
| RasterSentinels.CallbackState.PublishEngineHandle | compositor/flutter-engine/src/host.rs:1193-1201 | stores the handle before it tries to queue |
| RasterSentinels.CallbackState.RasterIdle | compositor/flutter-engine/src/host.rs:1232-1239 | clears the flag and reports once |
| PortalRecords.EncodesWhatIsSpelled | compositor/src/portal_protocol.rs:194-211 | an encoded record spells its snapshot byte by byte, and its padding is zero |
| PortalRecords.EncodesTheGreeting | compositor/src/portal_protocol.rs:179-183 | the sixteen bytes of the greeting |
| PortalRecords.AgreesIsConsistent | compositor/src/portal_protocol.rs:44-57 | a snapshot's derived fields are the preference's exactly if brightness is light just for light and the portal value is 0, 1 or 2 |
| PortalRecords.AcceptsWhatIsSpelled | compositor/src/portal_protocol.rs:213-245 | a record is accepted as a snapshot exactly if it spells it, the revision is not zero, brightness is light exactly for light, and the portal value is the preference's |
| PortalRecords.ServerRejectsExactly | compositor/src/portal_protocol.rs:213-283 | a record from the compositor is rejected with an error exactly if that is the first test it fails |
| PortalRecords.ClientRejectsExactly | compositor/src/portal_protocol.rs:185-283 | a record from the portal is rejected with an error exactly if that is the first test it fails |
| PortalProtocol.ServerAcceptsExactly | compositor/src/portal_protocol.rs:213-283 | the server decoder accepts exactly the 36-byte records whose first 33 bytes encode a consistent snapshot of non-zero revision, and returns it |
| PortalProtocol.ServerRoundTrip | compositor/src/portal_protocol.rs:194-245 | decoding an encoded snapshot returns it exactly when its revision is non-zero and its derived fields are consistent |
| PortalProtocol.ClientAcceptsExactly | compositor/src/portal_protocol.rs:179-192 | the client decoder accepts the encoded greeting and nothing else |
| PortalProtocol.DirectionsAreDisjoint | compositor/src/portal_protocol.rs:185-220 | no record is accepted by both decoders |
| PortalProtocol.HeaderIsReadAsWritten | compositor/src/portal_protocol.rs:247-283 | a header and payload are read exactly where they were written |
| PortalProtocol.SnapshotIsReadAsWritten | compositor/src/portal_protocol.rs:221-244 | a payload is accepted exactly when it starts with the snapshot's fields |
| PortalProtocol.EncodedNumberDecodes | compositor/src/portal_protocol.rs:199-206 | little-endian encoding is undone by decoding |
| PortalProtocol.DecodedNumberEncodes | compositor/src/portal_protocol.rs:221-237 | little-endian decoding is undone by encoding |
| PortalProtocol.EncodeHeader | compositor/src/portal_protocol.rs:247-258 | writes the specified header, slice by slice |
| PortalProtocol.EncodeClientMessage | compositor/src/portal_protocol.rs:179-183 | writes the specified greeting |
| PortalProtocol.EncodeServerMessage | compositor/src/portal_protocol.rs:194-211 | writes the specified record, slice by slice |
| PortalCaches.Cache.ApplySnapshot | compositor/denial-portal/src/main.rs:222-235 | replaces the cached snapshot unless the received one is older, and says what changed |
| PortalCaches.ReceiveUpdates | compositor/denial-portal/src/main.rs:173-214 | the update loop leaves the specified cache and emits the specified signals, up to the emission that fails, if one does |
| PortalCaches.FailedEmitLeavesListenersBehind | compositor/denial-portal/src/main.rs:185-211 | a failing emission leaves listeners with the settings before the last update, or with its colour scheme alone |
| PortalCaches.RevisionNeverDecreases | compositor/denial-portal/src/main.rs:222-235 | the cached revision never decreases |
| PortalCaches.CacheHoldsTheNewest | compositor/denial-portal/src/main.rs:222-235 | the cache holds the last-arriving snapshot of maximal revision, the initial one included |
| PortalCaches.ListenersKnowTheCache | compositor/denial-portal/src/main.rs:173-214 | folding only the signals over the initial settings gives the cached settings |
| PortalCaches.SignalsAreNews | compositor/denial-portal/src/main.rs:227-232 | every signal changes what its listener knows |

## Left out

- Floating point: logical sizes, scales and projections are exact reals; rounding error, NaN and infinities are not modelled. The clamp to `u32` is.
- Arrival numbers of the scheduler are unbounded: fewer than 2^64 arrivals in one scheduler's life are assumed, so `order` does not wrap.
- Instants are natural numbers of nanoseconds, and adding to one does not overflow.
- The threads' atomics are sequentially consistent in the model; the weaker orderings named in the code are not modelled. Panics, poisoned locks and a failing thread start are left out.
- The device is a log of requests with freely chosen answers: DRM ioctls, descriptors, errno values beyond three classes, and the serialisation of damage clips to native-endian bytes are left out.
- A job carries its payload as a number; `CommitRuns` looks it up. Cloning a request into a job is not modelled; each job has a request of its own.
- Jobs still waiting when the worker exits stay where they are in the model; in the program their storage is dropped, with the same absence of events.
- CommitScheduling.CommitScheduler.TrySubmit: states the undisturbed call; interleavings are the machine's.
- MessageBudgets.PlatformMessageBudget.TryAcquire: states the undisturbed call; interleavings are the machine's.
- RasterSentinels.CallbackState.QueueRasterSentinel: states the undisturbed call; interleavings are the machine's.
- The handle reset after the engine has shut down, and the shutdown leak policy, depend on the engine's lifetime contract and are left out.
- `TopologyManager::new` is the empty manager followed by one transaction and adds nothing to it.
- Names of settings, brightness names, sRGB packing and the portal's colour fractions are single expressions.
- D-Bus serving, sockets, logging, window tiling, hotplug and frame scheduling are left out.
