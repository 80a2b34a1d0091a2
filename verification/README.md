# Traffic lane counter: a Dafny model

The repository counts vehicles by lane from a video stream and stores the counts. This project models
two of its cores, the counting engine and the storage pipeline, and three state machines beside them, and
proves what holds over all their runs.

`dafny verify dfyconfig.toml` checks the whole project.

## The counting engine

Each frame, every tracked box votes for the lane polygon that holds its bottom centre; per track the votes
are smoothed by a window, a consecutive-run override, a unique-mode vote and an unknown timeout; lanes are
recounted; and each (track, lane) is counted once, with a direction read off a bounded motion history.

| file | contents |
|---|---|
| `Sequences.dfy` | bounded suffixes and counts |
| `LaneSmoothing.dfy` | smoothing of one track: function of the log, convergence, hysteresis |
| `LaneAssigner.dfy` | the polygon test over reals and what it means, the configuration, first-match assignment |
| `LaneStateManager.dfy` | the frame step on track dictionaries, and the mutable store that refines it |
| `LineCounter.dfy` | counter and occupancy as functions, and the objects that refine them |
| `DetectionCore.dfy` | runs of frames, and the pipeline object |
| `TrackLog.dfy` | engine state, lane changes and events as functions of unbounded logs |
| `Conservation.dfy` | occupancy read off the logs, occupancy and tally conservation, amortised bound, completeness |
| `CropRoi.dfy` | the crop region, and the simulation between cropped and original runs |

The objects (`LaneAssigner`, `LaneStateManager`, `LineCounter`, `OccupancyEngine`, `DetectionCore`, `CropROI`)
are classes whose methods are tied to functions on values; the theorems are about those functions, over
every finite run. A track dictionary is a map beside the sequence of its ids in insertion order, because
the order of count events follows it.

Preconditions of runs: configuration validation gives `1 <= min_consecutive_for_change <= history_window`
and lane ids that are names; frame indices grow, gaps allowed; a frame lists a track once. Each lemma asks
only for the ones it needs. Expiry happens at a processed frame in which the track is absent, never at a
skipped one.

`pointPolygonTest` is modelled as the ray-crossing test of OpenCV, on exact reals. Coordinates are reals.

## The storage pipeline

Producers offer payloads to bounded queues; workers collect batches, insert rows, upsert roll-up buckets,
commit once with retries, publish, and on failure dead-letter and roll back; a sentinel stops a worker, which
then drains its queue.

| file | contents |
|---|---|
| `RollupIndex.dfy` | windows and floors, the event table, the roll-up index, what a session owes it |
| `StorageProtocol.dfy` | one worker as a machine of atomic steps; FIFO, ledger and bounds |
| `StorageSystem.dfy` | what a session may hold, and N workers on one database |
| `RowAccounting.dfy` | which event and lane-change rows the tables hold |
| `DeadLetters.dfy` | which payloads the dead letters hold, in which order |
| `Shutdown.dfy` | when a worker can still stop, and where its sentinel is lost |
| `IndexDamage.dfy` | when the roll-up index is exact, as a condition on the schedule |
| `Repositories.dfy` | the session with its repositories, the roll-up and the commit loop |
| `WorkerRuns.dfy` | runs of one machine as schedules, and what a batch does to the books |
| `StorageWorker.dfy` | the worker object, each method a run of the machine |

The machine interleaves every producer call, `stop` and every database call of every worker as separate
steps, and any call may fail. The write lock is not assumed: results hold for all interleavings, so for the
ones the lock allows. The breaker around inserts is one of the reasons an insert step may fail. A session is
the sequence of its pending operations; a commit applies them, a rollback or a closed session drops them.

`StorageWorker` is a class whose loops run without interference, with the outside world (faults, locks, time
left for collecting, adapter) as a parameter. Each of its methods takes its ghost machine along a run of the
protocol (`Reaches`), and any such run is a schedule of the whole system (`ExecIsASchedule`), so the objects
stay within what is proved of all schedules.

A roll-up is cut short by a swallowed error, or by a raised one after which the event stays in the session
because the adapter has no `rollback` or it fails unnoticed. The index is exact if and only if no session
that still holds such a cut is committed (`IndexIsExactIff`); the session's ghost counters `cut` and
`damaged` follow this, and `DamagedIffCommitsACut` reads them off the schedule.

`StoredCounts.dfy` joins the two cores: when all crossings of a run are accepted and stored, tables and buckets
hold the counts that the engine keeps in memory.

## Beside them

`CircuitBreaker.dfy` (calls one at a time on a monotone clock), `AlertService.dfy` (a bounded memory refining
an unbounded log) and `LiveMetrics.dfy` (sliding frame-rate windows).

## Where code and documentation differ

The model follows the code.

- `to_original` documents a zero-area box for boxes outside the frame; the code returns a one-pixel box
  (packages/tf_core/roi.py:198-208). A collapsed box less than one pixel from the far edge ends up to one
  pixel outside the frame (`ClampAxisInsideIff`).
- The crop is documented to contain the polygons; without padding a fractional far edge is cut
  (`CropCoversVerticesIff`).
- `commit_with_retry` documents a retry of the commit; what it retries is an empty one, because the rollback
  dropped the work (packages/tf_db/session.py:122; `DoneMeansPersistedIff`).
- A roll-up is documented as kept in step with its events; it is so if and only if no roll-up that was cut
  short is committed (`IndexIsExactIff`). No swallowed error is needed for that
  (`AMissingRollbackDamagesTheIndex`), and a window listed twice in the configuration is counted twice
  (`BucketsStayBelowEventsIff`).
- "Graceful shutdown: drains queue fully" holds if and only if the sentinel is queued or taken
  (`ClosesWithoutAnotherStopIff`). It is lost in two places, and only there (`OnlyTheseLoseAStop`): `stop` gives
  it up on a full queue (packages/tf_worker/storage/storage_worker.py:269-270; `StopOnAFullQueueIsLost`), and a
  worker that meets it while collecting gives it up when a producer takes the freed place before it is put back
  (packages/tf_worker/storage/storage_worker.py:310-314; `ARefusedRequeueLosesTheStop`).
- Suppression is documented for "same type+camera"; an alert type that continues another after a colon can share
  its key on some cameras (`TypesCollideIff`).
- Unsuppressed alerts of an active key break the one-unresolved-alert-per-key rule
  (`UnsuppressedEmitKeepsInvariantIff`), and the active count forgets truncated alerts
  (`ActiveCountMissesTruncated`).

## Model

| member | source | states |
|---|---|---|
| LaneSmoothing.SmoothIsFunctionOfLog | packages/tf_core/occupancy/lane_state_manager.py:89-121 | After any votes the stored window, stable lane and unknown counter are the last W votes, the stable lane read off the whole log and the trailing run of unknowns |
| LaneSmoothing.StableWasVoted | packages/tf_core/occupancy/lane_state_manager.py:96-121 | A vote never invents a lane: a newly stable lane is a known vote of the current window |
| LaneSmoothing.HistoryIsSuffix | packages/tf_core/occupancy/lane_state_manager.py:89-92 | From any reachable state the window after some votes is the last W of old window plus votes |
| LaneSmoothing.Settles | packages/tf_core/occupancy/lane_state_manager.py:104-108 | From any reachable state, C or more votes in a row for a known lane make it stable |
| LaneSmoothing.ConvergenceIsQuiet | packages/tf_core/occupancy/lane_state_manager.py:104-108 | After C votes for a lane, further votes for it report no lane change, however many |
| LaneSmoothing.SettledThen | packages/tf_core/occupancy/lane_state_manager.py:104-108 | and the stable lane stays that lane |
| LaneSmoothing.UnknownsKeepThenClear | packages/tf_core/occupancy/lane_state_manager.py:97-102 | After a known vote exactly U unknown votes keep the lane; the next one clears it, and it stays cleared while the votes stay unknown |
| LaneSmoothing.FullWindowHolds | packages/tf_core/occupancy/lane_state_manager.py:104-108 | W votes for a lane lead from any reachable state to a full window with that lane stable |
| LaneSmoothing.Hysteresis | packages/tf_core/occupancy/lane_state_manager.py:104-135 | From a full window of one lane no lane change is reported before min(C, W/2+1) votes other than it, unknown votes included, in any interleaving |
| LaneSmoothing.HysteresisStable | packages/tf_core/occupancy/lane_state_manager.py:104-121 | and until then the stable lane is that lane or none |
| LaneSmoothing.HysteresisIsTight | packages/tf_core/occupancy/lane_state_manager.py:104-121 | That many votes in a row for another lane do replace it: the bound is exact |
| LaneSmoothing.KnownVotesSufficeIff | packages/tf_core/occupancy/lane_state_manager.py:97-121 | Counting known votes against the lane only, the bound holds if and only if one vote is enough to change lanes (C = 1), whatever the window and the timeout |
| LaneSmoothing.UnknownVotesErodeTheWindow | packages/tf_core/occupancy/lane_state_manager.py:97-121 | An instance with the lane still held: W-1 unknown votes within the timeout, and one vote for another lane replaces it |
| Geometry.CrossingsShift | packages/tf_core/lanes/lane_assigner.py:36-43 | The polygon test gives the same answer when polygon and point move together |
| Geometry.VertexIsOnEdge | packages/tf_core/lanes/lane_assigner.py:37-38 | A vertex of a polygon is on its edge |
| Geometry.RectangleIsExact | packages/tf_core/lanes/lane_assigner.py:37-43 | On a rectangle the polygon test is exact: positive strictly inside, zero on the boundary, negative outside |
| Geometry.OutsideRectangleIsOutside | packages/tf_core/lanes/lane_assigner.py:37-38 | A point outside a rectangle that holds the polygon is outside the polygon |
| Geometry.PolygonTestIsEvenOdd | packages/tf_core/lanes/lane_assigner.py:36-43 | For every polygon the test is zero exactly on the boundary, the points between two consecutive corners, and off it positive exactly when an odd number of edges meets the ray to the right |
| Geometry.BottomCentreIs | packages/tf_core/lanes/lane_assigner.py:30-33 | The point looked up is halfway between the sides of the box, on its lower edge |
| LaneAssignment.FirstMatchWins | packages/tf_core/lanes/lane_assigner.py:35-45 | The answer is the first lane in configuration order that holds the bottom centre, on the boundary only if the mode lets that count, and unknown when none does |
| LaneAssignment.LaneAssigner.constructor | packages/tf_core/lanes/lane_assigner.py:12-19 | The lanes of the configuration in order, with its boundary mode |
| LaneAssignment.LaneAssigner.Assign | packages/tf_core/lanes/lane_assigner.py:21-45 | The search loop finds that lane |
| TrackStore.TallyVotes | packages/tf_core/occupancy/lane_state_manager.py:111-114 | The vote tally holds exactly the known votes of the window, each with its number |
| TrackStore.MaxCount | packages/tf_core/occupancy/lane_state_manager.py:117 | The maximum of the tally |
| TrackStore.MajorityVote | packages/tf_core/occupancy/lane_state_manager.py:111-121 | A lane exactly when it is the unique most frequent known vote |
| TrackStore.LaneStateManager.ApplyVote | packages/tf_core/occupancy/lane_state_manager.py:89-121 | One vote in place moves window, counter and stable lane as the smoothing step says |
| TrackStore.LaneStateManager.Record | packages/tf_core/occupancy/lane_state_manager.py:78-135 | Stores an observation and reports a change between two lanes, and only that |
| TrackStore.LaneStateManager.CollectStale | packages/tf_core/occupancy/lane_state_manager.py:137-143 | Stale tracks are exactly those absent from this processed frame for longer than the timeout |
| TrackStore.LaneStateManager.Delete | packages/tf_core/occupancy/lane_state_manager.py:145-146 | Exactly those are removed, the order of the others is kept |
| TrackStore.LaneStateManager.Update | packages/tf_core/occupancy/lane_state_manager.py:54-148 | The whole dictionary update, with the reported events, equals the frame step on values |
| Tracking.UpdateTracksValid | packages/tf_core/occupancy/lane_state_manager.py:54-148 | Ids stay distinct and are exactly the keys of the states |
| TrackLog.TracksFollowLogs | packages/tf_core/occupancy/lane_state_manager.py:54-148 | Over every run a track is live exactly when the log of its current incarnation is not empty, and its whole state is read off that log |
| TrackLog.LastSeenIsPast | packages/tf_core/occupancy/lane_state_manager.py:84-87 | A live track was last seen at the last frame exactly when that frame lists it |
| TrackLog.LiveIffListedWithinTimeout | packages/tf_core/occupancy/lane_state_manager.py:137-146 | After every run a track is live exactly when the last frame lists it or one within the timeout before did |
| ChangeLog.ChangesFollowLogs | packages/tf_core/occupancy/lane_state_manager.py:94-135 | What a frame reports for a track is one lane change, when its vote moves the lane that the track's log determines, or nothing |
| ChangeLog.RunsHoldTheirLane | packages/tf_core/occupancy/lane_state_manager.py:89-135 | Hysteresis over runs: after W votes for a lane no frame reports a lane change of the track before min(C, W/2+1) other votes |
| CountingObjects.LineCounter.UpdateTrack | packages/tf_core/counting/line_counter.py:120-162 | One track's turn of the loop: motion history, age, lane, dedup, tally and event |
| CountingObjects.LineCounter.Update | packages/tf_core/counting/line_counter.py:112-164 | The loop over all tracks, with its events in order |
| CountingObjects.OccupancyEngine.ComputeOccupancy | packages/tf_core/occupancy/occupancy_engine.py:12-31 | The recount loop equals the occupancy of the live tracks |
| CountLog.CounterFollowsLogs | packages/tf_core/counting/line_counter.py:120-146 | The dedup set and the bounded motion history are functions of the unbounded logs |
| CountLog.EventsAreFirstSightings | packages/tf_core/counting/line_counter.py:120-164 | What a frame reports for a track is one event, at the first frame where it is countable in that lane, with all its fields, or nothing |
| CountLog.CountedAtFirstSighting | packages/tf_core/counting/line_counter.py:103-164 | Reported in a lane if and only if this is the first frame where the track is seen, old enough and in it: its stable lane or, when it has none and unstable lanes count, its last vote |
| CountLog.EventTellsTheLog | packages/tf_core/counting/line_counter.py:148-159 | The event carries the frame, the class of the first sighting of the incarnation, unknown when that is empty, the confidence of the last one, and the lane as line |
| CountLog.MotionIsNeverDropped | packages/tf_core/counting/line_counter.py:121-125 | With a track timeout of at most 60 the motion log is all anchors ever observed, over all incarnations |
| CountLog.DirectionIsOfAllMotion | packages/tf_core/counting/line_counter.py:80-147 | A reported direction is backward if and only if the lower edges of the last boxes ever observed for the track move down by two pixels or more |
| ReportOrder.ReportsAreInOrder | packages/tf_core/counting/line_counter.py:118-164 | A frame reports events in the order of its tracks, and lane changes in the order of its detections |
| OccupancyConservation.StableLanesAreConfigured | packages/tf_core/occupancy/lane_state_manager.py:96-121 | In every reachable state each stable lane, and each known vote in a window, is a configured lane |
| OccupancyConservation.OccupancyIsConserved | packages/tf_core/occupancy/occupancy_engine.py:22-31 | Occupancy values add up to the live old-enough tracks with a stable lane, lane by lane; the membership guard never drops one |
| OccupancyLog.OccupancyIsOfLogs | packages/tf_core/occupancy/occupancy_engine.py:22-31 | The occupancy of a lane is the number of tracks whose logs are live, old enough and stable in it, whether the last frame lists them or not |
| CountConservation.TalliesAreConserved | packages/tf_core/counting/line_counter.py:142-162 | Over every run: no (track, lane) reported twice, the dedup set is the reported pairs, each lane's tallies sum to its events and its pairs |
| TallyBooks.EachTallyIsItsEvents | packages/tf_core/counting/line_counter.py:146-162 | Over every run each tally by lane, class and direction is the number of events reported with them |
| TallyBooks.AllowedClassesHaveTallies | packages/tf_core/counting/line_counter.py:47-57 | From the start each lane has a tally for each allowed class |
| AmortisedCounting.CountsArePaidFor | packages/tf_core/counting/line_counter.py:138-150 | Counted pairs plus live uncounted segments never exceed the acquisitions plus the lane changes reported so far |
| AmortisedCounting.CountsAreBoundedByChanges | packages/tf_core/occupancy/lane_state_manager.py:94-135 | Over any run, counted pairs are at most the acquisitions plus the lane changes that its frames reported |
| CountCompleteness.ContributorsAreCounted | packages/tf_core/detection_core.py:142-152 | After a frame every track seen in it that contributes to occupancy is counted in its stable lane |
| CountCompleteness.ChangeTargetsAreCounted | packages/tf_core/detection_core.py:142-152 | and so is the target of every lane change reported for a track of minimum age |
| DetectionPipeline.DetectionCore.Start | packages/tf_core/detection_core.py:56-77 | The first start builds a fresh engine, later ones change nothing |
| DetectionPipeline.DetectionCore.Reset | packages/tf_core/detection_core.py:79-88 | A reset core numbers from 0 and must be started again |
| DetectionPipeline.DetectionCore.RunComponents | packages/tf_core/detection_core.py:142-152 | Tracks, then occupancy, then counts: the frame step and its report |
| DetectionPipeline.DetectionCore.ProcessFrame | packages/tf_core/detection_core.py:94-173 | One frame on the objects is one step of the run, numbered by the caller or by the counter |
| CropRegion.ExtendOver | packages/tf_core/roi.py:79-85 | The min/max loop keeps the tightest box of the vertices so far |
| CropRegion.CropROI.constructor | packages/tf_core/roi.py:52-103 | The region of the tightest box of zones, or else of lane polygons, padded and clamped |
| CropRegion.SourceVerticesAre | packages/tf_core/roi.py:62-71 | The crop is drawn around the vertices of the zones or, when there is no zone, of the lanes that are polygons |
| CropRegion.RegionIsExact | packages/tf_core/roi.py:94-98 | It has exactly the whole coordinates in the frame that are within the padding of their box |
| CropRegion.CropROI.TransformConfig | packages/tf_core/roi.py:117-156 | Every corner and all points of every counting line less the offset, the frame size and space of the crop, nothing else changed |
| CropRegion.SuggestedSize | packages/tf_core/roi.py:158-168 | The least multiple of the stride that is not below the longer edge |
| CropRegion.CropIsNonEmptyAndInFrame | packages/tf_core/roi.py:73-103 | With polygons in the frame and padding of at least 1 the crop is a non-empty part of the frame |
| CropRegion.CropCoversVerticesIff | packages/tf_core/roi.py:94-98 | The crop contains every source vertex if and only if it is padded or the far edges are whole pixels |
| CropRegion.NoLaneOutsideTheCrop | packages/tf_core/roi.py:73-103 | A box whose bottom centre is outside the crop around the lanes is in no lane: cropping hides no assignment |
| CropRegion.ClampAxisInsideIff | packages/tf_core/roi.py:191-208 | A clamped interval always has positive length; when it lies in the frame, exactly |
| CropRegion.ClampAxisIs | packages/tf_core/roi.py:191-208 | An interval that overlaps the frame is cut to the frame; any other becomes one pixel at its start, moved into the frame |
| CropRegion.ToOriginalStaysInFrame | packages/tf_core/roi.py:191-210 | With clamping every box of positive area maps to one inside the frame |
| CropRegion.ToOriginalUndoesShift | packages/tf_core/roi.py:170-210 | to_original undoes the shift into the crop |
| CropSimulation.RawLaneShifts | packages/tf_core/roi.py:135-141 | A shifted box has the same raw lane under the shifted configuration |
| CropSimulation.StepShifts | packages/tf_core/roi.py:117-156 | One frame in crop coordinates keeps the simulation relation and reports the same |
| CropSimulation.CroppedRunSimulates | packages/tf_core/roi.py:117-156 | After every run the cropped engine is in the original's state up to the offset of boxes and anchors |
| CropSimulation.CroppingPreservesReports | packages/tf_core/roi.py:117-156 | Every frame of every run reports the same lane changes, occupancy and count events, directions included |
| TimeWindows.WindowStartIsFloor | packages/tf_worker/storage/storage_worker.py:45-58 | Replacing fields is flooring on the time line: the last multiple of the window length, not after the time |
| TimeWindows.FloorsCompose | packages/tf_worker/storage/storage_worker.py:45-58 | A time floors to the i-th finer window of a window if and only if it floors to that window and falls in piece i |
| RollupIndex.BucketsCount | packages/tf_worker/storage/storage_worker.py:618-626 | One event hits a bucket once per configured mention of its window, if it floors to it, and no other bucket |
| RollupIndex.AppendEventOps | packages/tf_worker/storage/storage_worker.py:636-642 | An event with part of its upserts keeps a session bounded, and exact if and only if no upsert is missing |
| RollupIndex.CommitKeepsIndex | packages/tf_worker/storage/storage_worker.py:439-447 | Committing keeps the index within the events; it stays exact if and only if the session was exact |
| RollupIndex.BucketsStayBelowEventsIff | packages/tf_worker/storage/storage_worker.py:138-140 | A window configured twice doubles its buckets: they stay within their events if and only if there are none or it is listed once |
| RollupIndex.PiecesPartitionEvents | packages/tf_worker/storage/storage_worker.py:45-58 | The pieces of a window partition its events |
| RollupIndex.WindowTower | packages/tf_worker/storage/storage_worker.py:45-58 | Where the index is exact, a 1day, 1hour or 5min bucket is the sum of its 24, 12 or 5 pieces |
| Repositories.Session.UpsertBuckets | packages/tf_db/repositories.py:165-217 | One increment a bucket in order, up to the statement that raises |
| Repositories.BucketList | packages/tf_worker/storage/storage_worker.py:618-626 | The bucket list of an event: known configured windows in order |
| Repositories.Session.RollupAggregates | packages/tf_worker/storage/storage_worker.py:608-642 | Expected faults are swallowed with the increments made so far kept; others escape |
| Repositories.Session.CommitWithRetry | packages/tf_db/session.py:96-125 | The loop ends at the first attempt without a lock, or the last one, with its fault; a lock rolls the session back before the retry, so a commit reported as done persisted the session if and only if its first attempt met no lock or nothing was pending |
| Repositories.UpsertsCountOnce | packages/tf_db/repositories.py:188-217 | Committed upserts raise each bucket by its mentions, whether its row existed or not, and touch no event |
| Repositories.DoneMeansPersistedIff | packages/tf_db/session.py:109-125 | The same of what the commit loop leaves in the database, for every pattern of attempts, because no pending operation is invisible |
| Repositories.Session.InsertEvent | packages/tf_db/repositories.py:63-66 | Adds one row to the session, visible only by a commit |
| StorageProtocol.StepKeepsQueueInv | packages/tf_worker/storage/storage_worker.py:168-284 | Every step of producer, stop and worker keeps FIFO order, the ledger, the dead-letter maximum and the batch bound |
| StorageProtocol.CollectKeepsQueueInv | packages/tf_worker/storage/storage_worker.py:298-316 | also when a sentinel is met while collecting and goes behind later items, or is lost |
| SessionInvariant.StepKeepsSessionInv | packages/tf_worker/storage/storage_worker.py:378-447 | At every point of writing a batch the session is sound, and exact if and only if no roll-up in it was cut short |
| SessionInvariant.StepKeepsDatabase | packages/tf_worker/storage/storage_worker.py:439-447 | A step moves the database to a sound one, exact if and only if it commits no event with a roll-up cut short |
| StorageSystem.RunInv | packages/tf_worker/storage/storage_worker.py:318-376 | All of these hold after every schedule of N workers on one database |
| StorageSystem.IndexNeverRunsAhead | packages/tf_worker/storage/storage_worker.py:608-642 | Under every schedule no bucket exceeds its events times the mentions of its window |
| IndexDamage.IndexIsExactIff | packages/tf_worker/storage/storage_worker.py:336-343 | Under every schedule all buckets are exact if and only if no worker commits after a roll-up it cut short, with no rollback, commit or close between |
| IndexDamage.NothingHiddenIsExact | packages/tf_worker/storage/storage_worker.py:608-642 | In particular when no roll-up error is swallowed and no rollback fails or is missing |
| IndexDamage.BucketsCountEvents | packages/tf_worker/storage/storage_worker.py:618-636 | Then every bucket of a configured window, listed once, is the number of events that floor to it |
| IndexDamage.BucketsAddUp | packages/tf_worker/storage/storage_worker.py:45-58 | and the sum of its finer buckets, in every reachable state |
| StorageSystem.AcceptedInOrder | packages/tf_worker/storage/storage_worker.py:224-359 | Per worker: accepted = handled ++ in flight ++ queued, in order; offered = accepted + dropped; accepted = processed + errors + lost in drain + in flight + queued; dead letters bounded |
| StorageSystem.OnlyAdapterlessDrainsLose | packages/tf_worker/storage/storage_worker.py:360-366 | Nothing is lost in a drain that has its adapter |
| DeadLetters.NothingGivenUpIsMissing | packages/tf_worker/storage/storage_worker.py:216-228 | While they are at most ten thousand, the dead letters of a worker are, in order, the refused offers, the items without an adapter, the answered faults and the batches failed outside a drain |
| DeadLetters.DeadLettersAreKept | packages/tf_worker/storage/storage_worker.py:281-284 | Beyond that, the first ten thousand and the answered faults after them, of which the last ten thousand are kept |
| Shutdown.ClosesWithoutAnotherStopIff | packages/tf_worker/storage/storage_worker.py:266-359 | After every schedule of N workers, a worker can still close without another stop if and only if its sentinel is queued or already taken |
| Shutdown.LeftAloneClosesIff | packages/tf_worker/storage/storage_worker.py:318-376 | Left alone it takes a bounded number of steps, however it takes them, and ends closed or, without a pending stop, waiting on an empty queue |
| Shutdown.StopTakesEffectIff | packages/tf_worker/storage/storage_worker.py:269-270 | A stop takes effect if and only if its sentinel finds room or an earlier one is pending |
| Shutdown.MetSentinelStaysIff | packages/tf_worker/storage/storage_worker.py:310-314 | A sentinel met while collecting stays in effect if and only if it gets back into the queue or another is queued |
| Shutdown.OnlyTheseLoseAStop | packages/tf_worker/storage/storage_worker.py:266-376 | No other step of any worker or producer loses a stop |
| Shutdown.StopOnAFullQueueIsLost | packages/tf_worker/storage/storage_worker.py:269-270 | An input: a queue with one place, filled before the stop |
| Shutdown.ARefusedRequeueLosesTheStop | packages/tf_worker/storage/storage_worker.py:310-314 | An input where the stop found room: the sentinel is met while collecting, and a producer takes its place |
| RowAccounting.RowsComeFromAcceptedPayloads | packages/tf_worker/storage/storage_worker.py:378-447 | Under every schedule the tables hold an event or lane-change row at most as often as its payload was accepted, retries and rollbacks included |
| RowAccounting.EverythingAcceptedIsStored | packages/tf_worker/storage/storage_worker.py:378-447 | and exactly as often once all workers have finished, when no step failed or skipped the database |
| StoredCounts.RowsAreTheCounts | packages/tf_worker/pipeline.py:433-475 | When all crossings of a run were accepted and stored, the event rows of each lane number its total in memory, and those of each lane, class and direction its tally |
| StoredCounts.BucketsAreTheCounts | packages/tf_worker/storage/storage_worker.py:608-642 | and each bucket counts the run's crossings of its lane and class in frames of its window, when no roll-up error was hidden |
| StoredCounts.ChangeRowsAreTheReports | packages/tf_worker/pipeline.py:486-499 | The lane-change rows of the camera number the lane changes its frames reported, when all were accepted and stored |
| RowAccounting.StepKeepsRows | packages/tf_worker/storage/storage_worker.py:378-447 | At every step rows committed or pending are covered by distinct payloads handled or inserted, and without failures match them |
| SuppressedRollback.AMissingRollbackDamagesTheIndex | packages/tf_worker/storage/storage_worker.py:336-343 | With nothing swallowed a bucket can still fall behind its events: a raised upsert, an adapter without rollback (or one that fails unnoticed), then another commit |
| WorkerRuns.ReachableInvariants | packages/tf_worker/storage/storage_worker.py:318-366 | The invariants hold wherever a worker object can get |
| WorkerRuns.ExecIsASchedule | packages/tf_worker/storage/storage_worker.py:318-366 | What one worker does undisturbed is one of the schedules of the whole system |
| StorageWorkers.StorageWorker.AppendDeadLetter | packages/tf_worker/storage/storage_worker.py:281-284 | Appends unless the list holds ten thousand |
| StorageWorkers.StorageWorker.ShiftDeadLetters | packages/tf_worker/storage/storage_worker.py:579-582 | Appends and gives up the oldest entry when over the maximum |
| StorageWorkers.StorageWorker.Enqueue | packages/tf_worker/storage/storage_worker.py:168-233 | Critical or full: dropped and dead-lettered; otherwise queued at the back |
| StorageWorkers.StorageWorker.EnqueueLaneChange | packages/tf_worker/storage/storage_worker.py:235-264 | Refused by a full queue only |
| StorageWorkers.StorageWorker.Stop | packages/tf_worker/storage/storage_worker.py:266-270 | Puts the sentinel, or loses it when the queue is full |
| StorageWorkers.StorageWorker.CollectBatch | packages/tf_worker/storage/storage_worker.py:298-316 | What is queued, in order, up to the maximum, the deadline or a sentinel, with a rival producer's puts in between; a sentinel met stays queued, and is lost only when a rival has filled the queue before it is back |
| StorageWorkers.StorageWorker.InsertAndRollUp | packages/tf_worker/storage/storage_worker.py:413-444 | What one payload adds to the session and which fault leaves it |
| StorageWorkers.StorageWorker.WritePayloads | packages/tf_worker/storage/storage_worker.py:412-444 | The loop adds the payloads' operations up to the first fault |
| StorageWorkers.StorageWorker.WriteBatch | packages/tf_worker/storage/storage_worker.py:409-447 | The database after a batch, for every pattern of faults and locks, and the fault that escapes |
| StorageWorkers.StorageWorker.ProcessBatch | packages/tf_worker/storage/storage_worker.py:378-606 | A normal return or an exception, exactly when; the answered fault of a single count event returns normally with a dead letter |
| StorageWorkers.StorageWorker.HandleBatch | packages/tf_worker/storage/storage_worker.py:332-349 | The books after a batch: the database, what stays pending, dead letters in order, and which counter moves, for every pattern of faults |
| StorageWorkers.StorageWorker.RecordFailureOf | packages/tf_worker/storage/storage_worker.py:336-339 | A failed batch: errors, and the batch appended to the dead letters up to ten thousand |
| StorageWorkers.StorageWorker.RollBack | packages/tf_worker/storage/storage_worker.py:340-343 | then the rollback; an adapter without one, or one that fails, leaves the session as it is |
| StorageWorkers.StorageWorker.HandleNext | packages/tf_worker/storage/storage_worker.py:318-349 | One turn of the loop: stops exactly at a sentinel with the books untouched, refuses an item without an adapter, or handles a batch |
| StorageWorkers.StorageWorker.DrainQueue | packages/tf_worker/storage/storage_worker.py:351-359 | The drain takes every queued payload in order and no sentinel |
| StorageWorkers.StorageWorker.Drain | packages/tf_worker/storage/storage_worker.py:351-370 | The queue is empty, the last batch is in the database or counted as errors without dead letters, and the session is closed |
| StorageWorkers.StorageWorker.WorkerLoop | packages/tf_worker/storage/storage_worker.py:318-376 | With no producer left the loop closes if and only if the sentinel is queued, and otherwise waits on an empty queue; either way everything accepted has been handled, and without faults the database is what writing every queued payload gives |
| BatchRuns.AllOpsLeave | packages/tf_worker/storage/storage_worker.py:378-447 | namely its rows in the event table in order, and each bucket raised by its events |
| CircuitBreaking.OpenIffTrailingFailures | packages/tf_common/circuit_breaker.py:44-83 | Between calls: never half-open, and open exactly when the failures since the last success reached the threshold |
| CircuitBreaking.RejectedIff | packages/tf_common/circuit_breaker.py:57-83 | A call is rejected exactly when those failures have reached the threshold and the last of them is less than a recovery period old |
| CircuitBreaking.FailingCallsAreRateLimited | packages/tf_common/circuit_breaker.py:57-83 | In a span of length T in which no call reaches the function and succeeds, at most threshold + floor(T/R) calls reach it |
| CircuitBreaking.RateLimitIsTight | packages/tf_common/circuit_breaker.py:57-83 | and over n recovery periods all of threshold + n can |
| CircuitBreaking.CircuitBreaker.Invoke | packages/tf_common/circuit_breaker.py:57-83 | One protected call on the object is one step |
| CircuitBreaking.CircuitBreaker.RecordFailure | packages/tf_common/circuit_breaker.py:49-55 | Counts a failure and opens at the threshold |
| AlertLog.EmitRefines | packages/tf_common/alert_service.py:55-89 | With default suppression emit on the bounded memory answers and acts as on the unbounded log |
| AlertLog.ResolveRefines | packages/tf_common/alert_service.py:91-107 | So does resolve, also for alerts already truncated away |
| AlertLog.ResolveByIdRefines | packages/tf_common/alert_service.py:109-119 | So does resolve_by_id, which sees the last thousand only |
| AlertLog.HistoryRefines | packages/tf_common/alert_service.py:55-119 | Over every history of emit, resolve and resolve_by_id from an empty service all answers and the memory are those of the unbounded log |
| AlertLog.KeyEqualIff | packages/tf_common/alert_service.py:62 | Alerts share a key exactly when type and camera are the same, an absent, empty or global camera being one |
| AlertLog.TypesCollideIff | packages/tf_common/alert_service.py:62 | except that two types collide, on some cameras, exactly when one continues the other after a colon |
| AlertLog.HistorySuppressesIff | packages/tf_common/alert_service.py:55-67 | After every history the next emit answers nothing exactly when an alert of the same type and camera is unresolved |
| AlertLog.ResolveSucceedsIff | packages/tf_common/alert_service.py:91-107 | resolve succeeds exactly for a type and camera with an unresolved alert, and resolves that one only |
| AlertLog.ResolveByIdSucceedsIff | packages/tf_common/alert_service.py:109-119 | resolve_by_id succeeds exactly for an unresolved alert among the last thousand, and resolves that one only |
| AlertLog.UnsuppressedEmitKeepsInvariantIff | packages/tf_common/alert_service.py:58-80 | An emit keeps one unresolved alert a key if and only if it suppresses or the key is inactive |
| AlertLog.ActiveCountMissesTruncated | packages/tf_common/alert_service.py:129-132 | The active count falls short of the suppressed keys by exactly the unresolved alerts truncated away |
| Alerting.AlertService.Raise | packages/tf_common/alert_service.py:41-89 | emit on the object: with suppression empty exactly when an alert of the same type and camera is active |
| Alerting.AlertService.Clear | packages/tf_common/alert_service.py:91-107 | resolve on the object, tied to the log |
| Alerting.AlertService.ClearById | packages/tf_common/alert_service.py:109-119 | resolve_by_id on the object, tied to the log |
| Alerting.AlertService.GetActiveCount | packages/tf_common/alert_service.py:129-132 | The number of remembered unresolved alerts |
| LiveMetrics.WindowIsRecentFrames | packages/tf_common/monitoring/live_metrics.py:115-118 | On a monotone clock the deque is the last (at most 120) frames of the last five seconds, whatever calls trimmed it in between |
| LiveMetrics.FpsSaturates | packages/tf_common/monitoring/live_metrics.py:121-123 | The rate is the true five-second average if and only if at most 120 frames are in the window, and 24 beyond |
| LiveMetrics.TrimWindow | packages/tf_common/monitoring/live_metrics.py:115-118 | The popping loop removes the old prefix |
| LiveMetrics.CameraMetrics.RecordFrame | packages/tf_common/monitoring/live_metrics.py:155-164 | A processed frame enters the first window and trims both |
| LiveMetrics.CameraMetrics.RecordOutputFrame | packages/tf_common/monitoring/live_metrics.py:192-195 | An output frame enters and trims the second window only |

## Left out

- YOLO detection, ByteTrack, the model registry, video readers, drawing and encoding: tracks are arbitrary input.
- float32 rounding of polygon vertices and OpenCV's integer fast path: coordinates are exact reals.
- Boxes with fewer than four coordinates: a stored box has four or is absent.
- `_build_frame_tracks` and `is_counted_in_occupancy`, which use another frame counter.
- Runs across a live reconnect that restarts frame numbers with the same core, and the offline patching of boxes.
- Crop files and the content of published messages: publishing is a step that succeeds or fails.
- Adapters without a lane-change or aggregate repository or without a session; file-only mode is a step of the machine (`SkipDatabase`) but not a branch of the worker object.
- The upsert loop for databases other than PostgreSQL and SQLite.
- Timestamps given as strings, time zones, and primary keys and update times of rows.
- StorageWorkers.StorageWorker.WorkerLoop: runs with no producer left; what producers and other workers can do to it meanwhile is proved of the machine.
- StorageWorkers.StorageWorker.CollectBatch: a rival puts at most one item after each get; any number of puts between any two steps is covered by the machine.
- StorageWorkers.StorageWorker.Enqueue: reads the queue size and puts in one step; the machine's step `Enqueue` takes the size read earlier as its own parameter, so a stale size is covered there.
- Queue warnings, the backpressure alert and joining the thread with a timeout.
- Different window lists for different workers: one configuration is shared.
- The order in which rows of different workers interleave inside the event table: only their multiplicities matter to the claims.
- The breaker under overlapping callers, as a context manager or as a decorator.
- Alert callbacks, details and history listing; that new alert ids are fresh is a precondition of `Raise` and of `HistoryRefines`.
- Latency, smoothing of displayed rates and system polling in live metrics.
- HTTP routes, authentication, WebSockets, settings, the frontend, migrations, seeding and import scripts, which write events without roll-ups.
