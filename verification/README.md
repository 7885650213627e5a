# A verified model of mocop

mocop watches hosts over SSH, keeps their incidents, GPU telemetry and process
occupancy, and writes them to an SQLite history.  This project models the parts
of it that keep real state or do real arithmetic, and proves what they
guarantee over whole runs.  `dafny verify dfyconfig.toml` checks everything.

| group | files |
|---|---|
| Incident conditions, their durable log, restart | `IncidentRules`, `IncidentRuns`, `IncidentTracker`, `IncidentStore`, `IncidentService` |
| Commit-bound cache of incident criteria, batches with prune and retry | `CriteriaCache` |
| Hourly GPU aggregates kept exact under replacement and retention | `GpuRollups`, `GpuRollupRuns`, `GpuRollupStore` |
| Process transitions, live tables, reconciliation, stored order | `ProcessOrder`, `ProcessTransitions`, `ProcessDevices`, `ProcessTracking`, `ProcessRestore`, `ProcessClock`, `ProcessAlternation`, `ProcessSwaps`, `ProcessTable`, `ProcessCuts`, `ProcessRestarts`, `ProcessTimes`, `ProcessReads`, `ProcessExamples` |
| Occupancy: pairing, merging, classification, days | `Intervals`, `Occupancy`, `OccupancyRuns`, `OccupancyOwners`, `Usage`, `Reports` |
| Asynchronous history writer | `WriterProtocol`, `HistoryWriter` |
| Probe scheduler and retry deadlines | `Scheduler`, `SchedulerLoop`, `Backoff` |
| Connection topology and correlation | `TopologyTrees`, `TopologyConfig`, `TopologyRoutes`, `TopologyProjection`, `Correlation`, `SimultaneousLoss` |
| Recurring maintenance windows | `Maintenance` |

How the pieces fit.  Each stateful component has a specification of one step as
functions on values, theorems about every run of those steps, and an object or
method that carries the step out with the loops and branches of the source and
is proved to do exactly that step.  The incident tracker's six dictionaries per
host are kept as one record of six dictionaries per host, the per-device
dictionaries of the process store as one record per device; tables are maps by
primary key and a transaction is all or nothing.  Concurrent parts are
sequences of atomic sections in any order: what runs under one lock, or one
queue operation, is one step.

Conventions.  Timestamps are whole seconds, and measurements whole hundredths
except where rounding matters; delays and idle shares are reals.  A timestamp
that does not parse is `Malformed` where the source has a rule for it.

Some guarantees hold only under a condition, which is proved to be exact:

- The durable log mirrors a condition, and a restart rebuilds it as it was, iff
  the condition has emitted a transition since its host was last removed while
  it was active (`IncidentStore.LogMirrorsTracker`, `RestartTransparent`; a run
  that breaks it is `RemovedNotMirrored`).
- No future samples of the same configuration tell a rebuilt condition from the
  running one iff, besides, no confirmation, severity change or recovery was
  under way for it (`IncidentStore.RestartTransparent`).
- A measurement below its threshold opens no condition iff it is not rounded up
  to the threshold (`IncidentRuns.BelowOpensIff`).
- Hourly aggregates are exact over all runs iff the raw retention is below the
  2160 hours of the aggregates; otherwise retention can delete an aggregate
  whose later samples stay (`GpuRollupRuns.ExactIff`, `RetainLoses`).
- What is queued when the writer has exited is exactly what was admitted
  between its last look at the queue and its test of the stop flag; closing
  before that look leaves nothing (`WriterProtocol.QueuedAtExitIff`, with a run
  that leaves a write in `QueuedAtExit`).
- A requested idle host is due iff it is failing, has no success on record,
  kept its interval in the last round, or its new interval has passed
  (`Backoff.RequestDueIff`, with a host put off twice in `RequestPutOffTwice`).
- Stored process transitions come back in the order they were emitted iff
  within each process that order was already the rank of the rows
  (`ProcessRestore.OrderRestoredIff`).  Every run whose sample times increase
  has that rank (`ProcessTimes.RunKeepsRank`); two samples of one second can
  break it (`ProcessExamples.SeenAgainNotRestored`).
- What a restart reads back of a device is a collector's log with the same
  starts open iff its limit keeps no start whose stop of the same second it
  drops (`ProcessReads.RestartCollectedIff`).  For every limit there is a run
  in which it does (`ProcessExamples.LimitCutsShort`), and then the pairing
  reports occupancy that never was (`OccupancyRuns.LimitFabricates`).
- A run keeps its owner when the ring loses its start iff the start carries no
  workload or one of the owner the stop names (`OccupancyOwners.CutOwner`).

## Model

| member | source | states |
|---|---|---|
| IncidentRules.TelemetryUnknown | src/mocop/incident_domains.py:58-88 | The freeze test is exactly: some needed domain is missing, and it is not the case that a complete inventory lacks the condition's GPU |
| IncidentRules.MissingGpus | src/mocop/incident_domains.py:66-88 | The identities behind the missing domains, or nothing as soon as one missing domain is not about a GPU |
| IncidentRules.StepKeepsCoherent | src/mocop/incidents.py:548-669 | After every sample a key's entries in the six dictionaries fit together: an opening time exactly while active, no candidate while active, pending changes and recoveries only while active; so the opening-time lookup cannot fail |
| IncidentRuns.LogDeterminesState | src/mocop/incidents.py:548-669 | Every run's log of a key is (opened, alternating escalated and deescalated, resolved) repeated, and says whether the key is active, at which severity and since when |
| IncidentRuns.OpensIffStreak | src/mocop/incidents.py:569-582 | A key opens at a sample iff the maximal unbroken run of same-severity, not-below-threshold readings that ends there has enough samples and lasts long enough; samples around a gap never add up |
| IncidentRuns.CandidateIsStreak | src/mocop/incidents.py:624-637 | While a key is inactive its candidate entry is its current maximal streak: length, severity and start time |
| IncidentRuns.ChangesSeverityIffStreak | src/mocop/incidents.py:586-620 | An active key changes severity at a sample iff the maximal unbroken run of readings at the other severity that ends there is long enough and lasts long enough |
| IncidentRuns.ResolvesIffEvidence | src/mocop/incidents.py:639-666 | An active key resolves at a sample iff that sample is evidence and, with it, at least recovery_cycles online, timely samples with the needed telemetry (or a complete inventory without the GPU) came since the key was last seen |
| IncidentRuns.RecoveryCountsEvidence | src/mocop/incidents.py:655-666 | The recovery counter is the number of evidence samples since the key was last observed, neither more nor less |
| IncidentRuns.OfflineFreezes | src/mocop/incidents.py:569-582 | However long a host is unreachable, a condition other than connectivity keeps its activity, opening time and recovery count and emits nothing, while unconfirmed candidates and pending changes are discarded |
| IncidentRuns.BandNeitherOpensNorResolves | src/mocop/incidents.py:427-449 | A measurement that stays at or above threshold - margin and is not rounded up to the threshold neither opens a condition nor lets one resolve, over any run |
| IncidentRuns.BelowOpensIff | src/mocop/incidents.py:427-449 | A measurement below the threshold still opens a condition, where one sample is enough, iff it is rounded up to the threshold |
| IncidentRuns.SimilarForever | src/mocop/incidents.py:584-666 | States that agree on what the rules look at emit the same transitions on every future sequence of samples |
| IncidentRuns.IndistinguishableIff | src/mocop/incidents.py:584-666 | Under one configuration, which gives every condition its cycles and seconds for good, a state with nothing pending behaves as any state that shows the same condition; one with a counted candidate, change or recovery is told apart from a fresh one by samples of that very configuration |
| IncidentRuns.RecoveryShows | src/mocop/incidents.py:639-666 | A recovery already counted ends after fewer absences than one that starts anew |
| IncidentTracker.Tracker.constructor | src/mocop/incidents.py:492-530 | A rebuilt tracker holds exactly the open incidents it was given, with their opening times, and numbers events after the newest retained one |
| IncidentTracker.Tracker.Update | src/mocop/incidents.py:548-669 | One probe result takes every key of its host through one step of the rules, touches no other host, and appends exactly the transitions the steps emit, numbered without gaps |
| IncidentTracker.Tracker.Append | src/mocop/incidents.py:724-742 | The event gets the next id, joins the log, and the bounded list keeps the newest entries |
| IncidentTracker.Tracker.RemoveHosts | src/mocop/incidents.py:536-546 | Hosts that are no longer wanted lose all entries, the others keep theirs, and the revision counts the removed hosts that had active conditions |
| IncidentTracker.AllKeysStepped | src/mocop/incidents.py:575-668 | Trimming, the loop over observed conditions and the loop over missing active ones together step every key exactly once |
| IncidentStore.PruneKeepsRestored | src/mocop/persistence_incidents.py:28-56 | For any event table and any cutoff a prune leaves what a restart restores for every condition unchanged, opening time and criterion included |
| IncidentStore.PruneKeepsGreatestId | src/mocop/persistence_incidents.py:31-50 | A prune keeps the greatest event id, so ids are not reused after a restart |
| IncidentStore.PruneIdempotent | src/mocop/persistence_incidents.py:31-56 | Pruning twice with one cutoff is pruning once |
| IncidentStore.RowsAfterEvents | src/mocop/persistence_writes.py:47-85 | Writing a sample's events moves the newest row and the newest opening of exactly the conditions they are about |
| IncidentStore.CriteriaLand | src/mocop/persistence_incident_state.py:36-57 | Criterion upserts change only criteria of the newest rows of that host's unresolved conditions, never an event |
| IncidentStore.LogMirrorsTracker | src/mocop/persistence_incident_state.py:18-57 | After every run of samples, prunes, restarts and removals of hosts the table says of a condition what the tracker holds (open or not, severity, criterion, opening time) iff the condition has emitted a transition since its host was last removed while it was active; otherwise it still stands for the state that was dropped |
| IncidentStore.IdsBelowNext | src/mocop/incidents.py:508-514 | In every run, restarts included, no row carries an id the tracker has yet to give out |
| IncidentStore.RestartTransparent | src/mocop/persistence_restore.py:145-173 | After any run, earlier restarts and removals included, and any further prune a tracker rebuilt from the table has the same active condition, severity, criterion and opening time iff the condition was not dropped while active and silent since; with nothing pending it then emits the same transitions on every sequence of samples, and in every other case a run under one configuration has a future under that configuration that tells the two apart |
| IncidentStore.RebuiltSimilar | src/mocop/persistence_restore.py:228-241 | With no confirmation, change or recovery under way a rebuilt condition differs from the running one in nothing the rules look at |
| IncidentStore.ReadBackState | src/mocop/persistence_restore.py:228-241 | A tracker given the open incidents read from the table holds the rebuilt state of every condition of every host |
| IncidentStore.NextAfterNewest | src/mocop/incidents.py:508-514 | A tracker that continues after the newest event it retained continues after the greatest row of the table |
| IncidentStore.RemovalKeepsMirrorIff | src/mocop/incidents.py:536-546 | After a host is removed the log agrees with the emptied tracker iff the condition was neither active nor left over from an earlier removal; otherwise it stays open in the log and a restart restores it |
| IncidentStore.KeptNotOrphaned | src/mocop/incidents.py:536-546 | Conditions of a host that stays in the inventory are never left over, so the log mirrors them throughout |
| IncidentStore.RemovedNotMirrored | src/mocop/incidents.py:536-546 | A host loses its GPU in its one sample and is removed: the log has a condition the tracker does not have, and a restart brings it back |
| IncidentService.DurableTracker.Apply | src/mocop/service.py:542-544 | One applied sample steps the tracker and hands the log the created events with the confirmed criteria, keeping tracker and log in agreement |
| IncidentService.DurableTracker.Resume | src/mocop/service.py:200-205 | A new process given the newest rows and the open incidents of the log is one restart step on: tracker and log agree on every condition and on the next id |
| IncidentService.DurableTracker.RemoveHosts | src/mocop/service.py:340 | A new inventory is one removal step of the run: the tracker forgets the other hosts and the log is left as it was |
| IncidentService.DurableTracker.Mirrored | src/mocop/persistence_incident_state.py:18-33 | In every state the service reaches, the log on disk mirrors a condition of any host iff it was not dropped with its host while active and silent since |
| CriteriaCache.Prepare | src/mocop/persistence_criteria.py:20-57 | Writing the reduced item gives the very tables the whole item would have given, and the batch-local cache is coherent with them |
| CriteriaCache.NoteEvents | src/mocop/persistence_criteria.py:30-38 | After an item's events the cache holds exactly coherent entries and the resolved set the identities whose last event resolves them |
| CriteriaCache.Reduce | src/mocop/persistence_criteria.py:41-57 | Criteria dropped by the loop are those whose write would change nothing |
| CriteriaCache.EventEffect | src/mocop/persistence_writes.py:47-85 | A new event settles the stored criterion and openness of its own condition and of no other |
| CriteriaCache.Writer.CommitBatch | src/mocop/persistence_batches.py:22-92 | A batch commits, or is retried once after a prune when the database is full, or is dropped and counted; in every case the tables equal those written with no cache, and the cache is published only on commit |
| CriteriaCache.Writer.PruneBatch | src/mocop/persistence.py:529-539 | A prune, successful or not, keeps the cache coherent with the tables |
| CriteriaCache.PruneKeepsCoherent | src/mocop/persistence_incidents.py:28-56 | Retention never removes a row a cached criterion speaks about |
| GpuRollupRuns.AlwaysExact | src/mocop/persistence_gpu.py:60-141 | After any mix of batches, replacements, mid-hour prunes, restarts and clock moves every hourly row is the aggregate of the last admitted value of every sample ever admitted in its hour (sums and counts once each, busy as stored, maximum with null as 0), every raw row has its flag and its hour, and the startup backfill changes nothing |
| GpuRollupRuns.ExactIff | src/mocop/persistence_rollups.py:139-150 | The aggregates are exact over all runs with one raw retention iff that retention is below the 2160 hours of the aggregates |
| GpuRollupRuns.RetainLoses | src/mocop/persistence_rollups.py:139-150 | With a raw retention of 2160 hours or more, any retention run whose boundary falls inside an hour with a later retained sample deletes the aggregate that sample needs |
| GpuRollupRuns.NeverReadmitted | src/mocop/persistence_gpu.py:10-27 | A sample deleted by retention never returns and its last admitted value never changes, however the clock moves |
| GpuRollupRuns.SharesBounded | src/mocop/persistence_rollups.py:43-56 | In every run 0 <= busy <= utilization samples <= samples, and samples is the number of distinct samples admitted in the hour |
| GpuRollupRuns.AdmitExact | src/mocop/persistence_gpu.py:66-140 | Inserting or replacing one admissible sample keeps the aggregates exact: the old contribution is taken out with its stored flag, the new one added, the maximum retaken |
| GpuRollupRuns.ReplacePeak | src/mocop/persistence_gpu.py:121-139 | The maximum of the retained rows and the expired maximum is the maximum over everything ever admitted in the hour |
| GpuRollupRuns.DropRawExact | src/mocop/persistence_gpu.py:30-57 | Deleting raw rows while keeping their maxima by hour keeps the aggregates exact |
| GpuRollupRuns.DropHoursExact | src/mocop/persistence_rollups.py:139-150 | Deleting aggregates at least an hour behind the raw boundary removes no hour that still has raw rows |
| GpuRollupRuns.CommitExact | src/mocop/persistence_batches.py:49-73 | A committed batch, filtered at the advanced boundary, keeps the aggregates exact |
| GpuRollups.Retained | src/mocop/persistence_gpu.py:20-27 | Exactly the points at or after the boundary pass |
| GpuRollups.RetainedInOrder | src/mocop/persistence_gpu.py:20-27 | Retained points keep their order |
| GpuRollups.RetainedCount | src/mocop/persistence_gpu.py:20-27 | Every point at or after the boundary is kept as often as it occurs, every other one not at all |
| GpuRollupStore.GpuStore.GpuCutoff | src/mocop/persistence_gpu.py:10-17 | The boundary becomes the later of the stored and the wanted one and is returned; it never moves back |
| GpuRollupStore.GpuStore.WritePoint | src/mocop/persistence_gpu.py:66-140 | The in-place table changes for one point are exactly the step the exactness theorems are about |
| GpuRollupStore.GpuStore.WriteGpuPoints | src/mocop/persistence_gpu.py:60-141 | The loop writes the points one after another and counts them all |
| GpuRollupStore.GpuStore.CommitBatch | src/mocop/persistence_batches.py:49-73 | The boundary moves only when the batch has points, each write keeps its retained points, and the writes that lost points are counted |
| GpuRollupStore.GpuStore.PruneGpu | src/mocop/persistence_gpu.py:30-57 | Maxima of the expiring rows are archived by hour and the rows and their flags deleted |
| GpuRollupStore.GpuStore.PruneAll | src/mocop/persistence.py:541-564 | The GPU part of a retention run is the retention step of the runs |
| GpuRollupStore.GpuStore.EnsureRollups | src/mocop/persistence_rollups.py:73-96 | The startup backfill aggregates the raw hours from the latest rolled-up hour on that have no row, and leaves the others alone |
| GpuRollupStore.MaxMemory | src/mocop/persistence_gpu.py:33-41 | The maximum does not depend on the order in which the rows are taken |
| GpuRollupStore.SumRows | src/mocop/persistence_rollups.py:58-70 | The backfill's counts and sums are the sum of every row's contribution at the current threshold, whatever the order |
| ProcessOrder.Sort | src/mocop/service.py:1158-1168 | Process keys in ascending order by pid, then name |
| ProcessOrder.SortedDistinct | src/mocop/service.py:1158-1168 | Sorting a table's keys yields each key once |
| ProcessTransitions.OpenTransitions | src/mocop/process_transitions.py:71-82 | The starts a log leaves open are those no later stop of the same key closed, each key's newest |
| ProcessTransitions.Reconcile | src/mocop/process_transitions.py:104-136 | The in-place loops give the surviving processes the restored first observation and emit the closures, then the new starts, in key order |
| ProcessTransitions.ReconcileMatches | src/mocop/process_transitions.py:104-136 | Whatever the restored log was, after reconciliation its open runs are exactly the live processes, each first seen when its start says |
| ProcessTransitions.ReconcileStamped | src/mocop/process_transitions.py:85-101 | Reconciliation's closures carry the first observation of the run they end and its starts are their own |
| ProcessDevices.ObserveAgrees | src/mocop/service.py:1097-1276 | Any reading (unsampled, failed query, empty, first, later, with reused pids) keeps a device's log and live table in agreement |
| ProcessDevices.ChangesMatch | src/mocop/service.py:1226-1276 | Starts, stops and stop-start pairs between two tables turn a log that matches the old table into one that matches the new |
| ProcessDevices.SettleAgrees | src/mocop/service.py:1286-1300 | A vanished or stale device ends with nothing live, nothing pending and nothing open |
| ProcessDevices.SettleIsBookkeeping | src/mocop/service.py:1317-1392 | Such a device ends each open run exactly once, in key order, hidden, at its last process sample or, for restored runs, its last GPU sample |
| ProcessDevices.ObserveStamped | src/mocop/service.py:1182-1276 | Every reading appends only starts of runs that are not open and stops that carry the run's first observation |
| ProcessTracking.LogAndTableAgree | src/mocop/service.py:1079-1409 | In every reachable state a device awaiting reconciliation shows nothing live, and for any other the open runs of the full log are the live processes with first-seen equal to their start; through failed queries, vanished devices, pid reuse, stale hosts, eviction, removal and restart |
| ProcessTracking.RunAgrees | src/mocop/service.py:1079-1409 | Agreement for every device and every log in every run, and collector logs throughout if the restored ones are |
| ProcessTracking.TrackBounds | src/mocop/service.py:1277-1285 | One sample keeps every record among the listed identities and leaves at most 256 of them for its host |
| ProcessTracking.RecordsBounded | src/mocop/service.py:1277-1285 | In every run of samples, stale hosts, removals and restarts a host has records of at most 256 devices, all of them listed |
| ProcessRestore.EmissionOrder | src/mocop/persistence_transitions.py:118-148 | The stored rows of a device, any rows whatever, once each and in rank order, rows of one rank in the order they came; where no two share second, process and kind every row ranks strictly after the one before it |
| ProcessRestore.OrderRestoredIff | src/mocop/persistence_transitions.py:118-148 | Ordering by rank gives every process its transitions as emitted iff they were emitted in rank: times never fall back, and within a second a start precedes its stop unless the two carry different start times |
| ProcessRestore.RestoredStamped | src/mocop/persistence_restore.py:264-270 | A collector's log emitted in rank comes back as a collector's log with the same starts open |
| ProcessTable.InTurnIffKeysRanked | src/mocop/persistence_transitions.py:118-127 | A log is in rank iff it is as the collector's rule has it: a process's times never fall back, and within a second a stop precedes a start exactly where the two carry different start times |
| ProcessClock.ObserveTimed | src/mocop/service.py:1097-1276 | A reading that comes later than everything a device has recorded keeps the device's log as that rule has it, hidden closures at earlier times included |
| ProcessTimes.RunTimed | src/mocop/service.py:1079-1409 | In every run whose samples come later than everything recorded or restored for their host, every device's log follows the rule |
| ProcessTimes.RunKeepsRank | src/mocop/persistence_transitions.py:118-148 | In such a run ordering a device's rows by rank gives every process its transitions back as emitted, with the same starts open |
| ProcessAlternation.RunAlternates | src/mocop/service.py:1079-1409 | In every run whose restored logs alternate no log has a stop of a process follow a stop of it |
| ProcessTable.RestoreRows | src/mocop/persistence_restore.py:188-204 | What the two queries gave, hidden rows and visible ones, is put in order and cut to the newest once more; where the table's key tells all rows apart that is the table cut of the theorems |
| ProcessTable.LaterRead | src/mocop/persistence_restore.py:195-204 | Wherever the three limits fall, a row that is read back has every row of a later second read back with it |
| ProcessTable.SmallTableRead | src/mocop/persistence_restore.py:195-204 | With no more rows than the limit every row that retention left is read back |
| ProcessTable.LeftBehind | src/mocop/persistence_restore.py:195-204 | What one restart leaves behind a later one with no larger limit does not read, except rows of the second in which the first one cut |
| ProcessCuts.CroppedCollectedIff | src/mocop/persistence_restore.py:264-268 | Rows read back of a collector's log are a collector's log with the starts of each process they know open as in the whole iff no process keeps the earlier and loses the later of its two transitions of one second |
| ProcessCuts.UnsplitIff | src/mocop/persistence_restore.py:195-204 | The query lists starts before stops, so all that can be lost that way is the stop of a start in the same second, where a reused pid's stop and start are of one visibility |
| ProcessCuts.WholeSecondUnsplit | src/mocop/persistence_restore.py:195-204 | A cut that leaves its oldest second whole loses no such stop |
| ProcessSwaps.ObserveSwapped | src/mocop/service.py:1226-1276 | A later reading records a reused pid's stop and start with one visibility |
| ProcessRestarts.StoredEarns | src/mocop/persistence_restore.py:188-268 | A restart's cut of a table with all rows of a device that keeps no start whose stop it drops is a collector's log that follows the rule, with the starts of the processes it knows open as before and none later than the restored last sample |
| ProcessReads.RestartCollectedIff | src/mocop/persistence_restore.py:188-268 | After any run whose restarts read the table the run has written and did no harm, one more restart gives a device a collector's log with the same starts open iff its cut keeps no start whose stop of the same process, second and instance it drops |
| ProcessReads.FaithfulRuns | src/mocop/service.py:1079-1409 | In every run whose sample times increase and whose restarts cut the table the run has written, keeping no start without its stop and no row the device's record does not have, every device's log is a collector's log that follows the rule and agrees with the live table |
| ProcessReads.UndisturbedWritten | src/mocop/persistence_writes.py:98-150 | Of a device without restart, eviction or removal so far the table holds its log and nothing else |
| ProcessExamples.LimitCutsShort | src/mocop/persistence_restore.py:195-204 | For every limit a run of samples and stale hosts whose table a restart cuts between a start and its stop: the log is a collector's, what is read back is not, or leaves another start open |
| ProcessExamples.ReusedNotRestored | src/mocop/persistence_transitions.py:118-148 | A pid reused in the last second before its host goes stale leaves a visible and a hidden stop of one key: the log leaves nothing open, the rows in emission order the start |
| ProcessExamples.SeenAgainNotRestored | src/mocop/persistence_transitions.py:118-148 | Two samples of one second with a failed query between them: the log leaves the process's start open, its rows in rank order leave nothing open |
| ProcessTracking.ProcessStore.TrackGpuTelemetry | src/mocop/service.py:1079-1303 | One online sample: every reading applied in turn, oldest identities evicted, unobserved devices settled |
| ProcessTracking.ProcessStore.InvalidateProcessInventory | src/mocop/service.py:1305-1346 | A stale host settles all its devices and touches no other |
| ProcessTracking.ProcessStore.EvictOldest | src/mocop/service.py:1277-1285 | Exactly the oldest identities beyond 256 lose their records, and the newest remain in order |
| ProcessTracking.ProcessStore.RemoveHosts | src/mocop/service.py:276-319 | Removed hosts lose every record and identity, others none |
| ProcessTracking.ProcessStore.constructor | src/mocop/service.py:149-198 | Restored devices start with their log, nothing live, and awaiting reconciliation exactly when the log is not empty |
| ProcessTracking.ObserveDevice | src/mocop/service.py:1097-1276 | What is captured for persistence is exactly what the log grew by |
| ProcessTracking.ReadTable | src/mocop/service.py:1182-1193 | First-seen is carried exactly for processes that are the same instance; the others of a known key are the replaced ones |
| Occupancy.PairIntervals | src/mocop/occupancy.py:65-153 | The clipped runs of the log's stops, then of the live processes (each with its owner), all inside the window; unanchorable stops and unmatched starts are counted, and the earliest observation reported |
| Occupancy.PairStamped | src/mocop/occupancy.py:97-131 | On a collector's log the pairing yields, in spans, the run of every stop from the first observation the stop carries, and leaves open exactly what the log leaves open |
| Occupancy.TruncationHarmless | src/mocop/occupancy.py:116-153 | Dropping any prefix of a collector's log loses exactly the runs whose stop was in it; every other run keeps start and end |
| Occupancy.PairedStamped | src/mocop/occupancy.py:133-153 | With its own live table a collector's log, truncated or not, leaves no start unmatched |
| OccupancyRuns.RingTruncation | src/mocop/occupancy.py:65-153 | The same for every device of every run of the store: the ring can be cut anywhere |
| OccupancyRuns.FaithfulTruncation | src/mocop/occupancy.py:65-153 | The same in every run whose sample times increase and whose restarts cut the table the run has written, keeping no start without its stop and no row the device's record does not have |
| OccupancyRuns.LimitFabricates | src/mocop/occupancy.py:97-131 | A restart whose limit drops such a stop turns runs of no length into an interval of five seconds nothing occupied |
| OccupancyOwners.CutOwner | src/mocop/occupancy.py:116-131 | A run whose stop is held keeps its owner when its log is cut iff its start is held too, or carries no workload, or one of the stop's owner (or nothing of the run lies in the window) |
| OccupancyOwners.CutLiveOwner | src/mocop/occupancy.py:133-153 | A live process keeps its owner when its log is cut iff its start is held or has the table's owner |
| Occupancy.MergeIntervals | src/mocop/occupancy.py:156-167 | The merged intervals are in order with a gap between any two, cover exactly the seconds the given ones cover, and their lengths add up to the number of those seconds |
| Intervals.TotalIsMeasure | src/mocop/usage.py:196-198 | The lengths of separated intervals add up to the number of seconds they cover |
| Reports.SecondsByOwner | src/mocop/usage.py:177-198 | An owner's seconds on one GPU are the number of seconds in which at least one of its processes held it |
| Reports.OwnerWithinWindow | src/mocop/usage.py:187-198 | No owner holds one GPU for longer than the window |
| Usage.Classify | src/mocop/usage.py:50-104 | Every interval gets the summed overlap with all kept segments as sampled and with the idle ones as idle, for whatever sampling order |
| Usage.Measure | src/mocop/usage.py:87-104 | Prefix sums, two bisections and two trims equal the naive sum of overlaps, sampled and idle |
| Usage.SumOfFirst | src/mocop/usage.py:80-102 | The naive sum over the first n segments in terms of prefix lengths and trims |
| Usage.SegmentsChain | src/mocop/usage.py:66-79 | Kept segments are in order and do not overlap |
| Usage.OverlapBounds | src/mocop/usage.py:92-104 | 0 <= idle <= sampled <= the interval's length |
| Usage.PrefixSums | src/mocop/usage.py:80-86 | Entry n of each prefix list is the length of the first n segments, all or idle |
| Reports.MeasureHours | src/mocop/reports.py:60-73 | The bisected walk over the touched hours gives the sums over all hours |
| Reports.ClassifyHourly | src/mocop/reports.py:47-73 | Every interval gets the sum over all buckets of its overlap with sampled hours, and of that overlap times the hour's idle share |
| Reports.HourlyBounds | src/mocop/reports.py:60-73 | 0 <= idle <= sampled <= the interval's length when busy samples are among the utilization samples |
| Reports.SplitByDay | src/mocop/reports.py:80-90 | Every UTC day of the owner grows by exactly the seconds of that day the intervals hold, and nothing else changes; the cursor loop ends |
| Reports.DaysConserve | src/mocop/reports.py:80-90 | The day amounts add up to exactly the total of the intervals |
| Reports.DayBounded | src/mocop/reports.py:80-90 | One owner on one GPU gets at most 86400 seconds in a day |
| WriterProtocol.ExactlyOnce | src/mocop/persistence.py:189-264 | In every interleaving each submitted write is exactly once in the queue, in the batch being written, committed, or counted as dropped |
| WriterProtocol.FlushTrueMeansStored | src/mocop/persistence.py:189-219 | A flush that returns true lost nothing while it ran, and everything submitted before its barrier is committed or had been dropped, and acknowledged, before it began |
| WriterProtocol.FailureIsFinal | src/mocop/persistence.py:506-522 | Once the writer has failed the queue is empty and no flush is left waiting, in every later state |
| WriterProtocol.QueuedAtExitIff | src/mocop/persistence.py:475-481 | In every run whose writer has exited, what is queued is exactly what was admitted between its last look at the queue and its test of the stop flag: nothing iff nothing was admitted there, and nothing whenever the writer was closed before that look |
| WriterProtocol.QueuedAtExit | src/mocop/persistence.py:475-481 | A concrete run that exits with a write queued: it was admitted between the writer finding the queue empty and testing the stop flag |
| WriterProtocol.BatchSettles | src/mocop/persistence.py:496-504 | When a batch is booked, everything submitted before a barrier in it is committed or dropped |
| WriterProtocol.StepKeepsInv | src/mocop/persistence.py:189-264 | Every atomic section of producers, flushes, close and writer keeps accounting, submission order, pending barriers and flush snapshots |
| HistoryWriter.SqliteWriter.EnqueueWrite | src/mocop/persistence.py:230-247 | Admission never blocks: the write is queued, or counted as dropped when the writer is closed, failed or gone or the queue is full |
| HistoryWriter.SqliteWriter.AdmitBarrier | src/mocop/persistence.py:203-216 | One admission attempt of a flush: refused after close or failure, queued behind everything submitted, or left to try again |
| HistoryWriter.SqliteWriter.EndFlush | src/mocop/persistence.py:217-219 | A completed flush acknowledges its losses whatever it returns, and returns true iff it did not fail and met no loss beyond the acknowledged ones |
| HistoryWriter.SqliteWriter.TakeOne | src/mocop/persistence.py:475-495 | A batch takes items in order, at most 128, and ends at a barrier |
| HistoryWriter.SqliteWriter.BookCommit | src/mocop/persistence_batches.py:74-92 | A given-up batch is dropped whole; a stored one commits all but the writes that lost points to retention |
| HistoryWriter.SqliteWriter.FinishItems | src/mocop/persistence.py:456-463 | Every barrier among the items completes with the loss count of that moment |
| HistoryWriter.SqliteWriter.FailWriter | src/mocop/persistence.py:506-522 | A failing writer closes admission, empties the queue, counts everything uncommitted and completes every barrier as failed |
| Scheduler.InFlightAgrees | src/mocop/service_scheduler.py:362-387 | At every point no host has two probes in flight, the loop's set, the shared set and the probes in flight name the same hosts, and every open batch counts exactly its probes in flight |
| Scheduler.SubmissionIsSafe | src/mocop/service_scheduler.py:536-590 | Under a current configuration every selected host is in the store, so its incarnation can be read, and the submission stays within the current max_workers |
| Scheduler.ResultsReachTheirHost | src/mocop/service_scheduler.py:391-430 | A result that is applied reaches the host record its probe was started for: no removal of the host lies between, even if it came back |
| Scheduler.StepKeepsInv | src/mocop/service_scheduler.py:330-590 | Configuration updates, manual requests and every section of the loop keep the scheduler's invariant |
| Scheduler.RemoveCounts | src/mocop/service_scheduler.py:381-389 | Counting a finished probe down keeps every batch's count, and a batch goes with its last probe |
| Scheduler.SetHostsEffect | src/mocop/service.py:276-344 | Known hosts keep their incarnation, newcomers get a number never used before |
| Scheduler.LostAfter | src/mocop/service.py:276-344 | A change of inventory makes exactly the probes of removed hosts lost, and a returning host does not make them found |
| SchedulerLoop.SmallestDue | src/mocop/service_scheduler.py:541-557 | The chosen hosts are due, distinct, as many as are due or as there are free workers, and no due host left out has an earlier deadline or, at an equal one, an earlier place |
| SchedulerLoop.ProbeScheduler.SubmitDue | src/mocop/service_scheduler.py:536-590 | One round submits nothing under an outdated configuration, and otherwise a selectable list within the current max_workers |
| SchedulerLoop.ProbeScheduler.DrainOne | src/mocop/service_scheduler.py:362-397 | A finished probe leaves all three views; its batch counts down, ends with its last probe, and reports only if no newer one has |
| SchedulerLoop.ProbeScheduler.ReplaceConfig | src/mocop/service_scheduler.py:140-169 | A new configuration replaces the inventory, trims the shared sets and outdates every running round |
| SchedulerLoop.ProbeScheduler.RequestHostProbe | src/mocop/service_scheduler.py:98-121 | A manual request is accepted iff the host is monitored, not being probed, and already queued or cooled down |
| SchedulerLoop.ProbeScheduler.ApplyPending | src/mocop/service.py:530-539 | The store applies a result only to the incarnation it was started for |
| SchedulerLoop.ProbeScheduler.LeaveLoop | src/mocop/service_scheduler.py:536-538 | The loop leaves at its top or in the submission section and clears the shared sets |
| Backoff.ChainDependsOnLast | src/mocop/service_scheduler.py:199-221 | However often interval and jitter change, the deadline is the failure instant plus the delay of the last policy |
| Backoff.FailingHostDue | src/mocop/service_scheduler.py:511-520 | After any rounds of policy changes and requests a failing host is due from its failure instant plus the delay of the last policy on if nobody asked for it since, and at once if the last round found it requested |
| Backoff.RoundsDependOnLast | src/mocop/service_scheduler.py:199-221 | The deadline after any rounds is one origin plus the delay of the last policy; the origin is the failure, moved only by rounds that put a requested host's deadline to 0 |
| Backoff.RequestDueIff | src/mocop/service_scheduler.py:511-528 | After any chain of rounds a requested idle host is due iff it is failing, or has no success on record, or the last round left its interval as it was, or the new interval has passed since its last success started |
| Backoff.RequestPutOffTwice | src/mocop/service_scheduler.py:511-528 | Two rounds that each change the interval put a requested healthy host off twice, past the instant at which it was due before |
| Backoff.DelayBounds | src/mocop/service_scheduler.py:123-138 | Delays lie between 0 and 60 seconds and without jitter never shrink with one more failure |
| Backoff.RetrySchedule.RebaseFailureBackoff | src/mocop/service_scheduler.py:199-221 | The loop rebases every failing host with a deadline onto its current policy and leaves all others alone |
| Backoff.RetrySchedule.RecordFailure | src/mocop/service_scheduler.py:407-424 | A failure counts up and sets the deadline to its instant plus the delay of its policy |
| Backoff.RetrySchedule.PlanRound | src/mocop/service_scheduler.py:511-528 | The three loops of a round rebase failing hosts, put requested ones to 0 and move healthy ones to their new interval, as one step per host |
| Backoff.RetrySchedule.RecordSuccess | src/mocop/service_scheduler.py:397-405 | A success forgets the failures and sets the deadline one interval after the probe started, but not before it completed |
| TopologyTrees.TreeMeans | src/mocop/config_integrations.py:75-134 | In a tree, however its links are listed, no node has two parents, the root has none, no link loops, and every endpoint is reachable from the root |
| TopologyTrees.NodesReachable | src/mocop/config_integrations.py:125-134 | The nodes of a grown tree are exactly those in every set that contains the root and follows the links |
| TopologyConfig.ConnectionTopology | src/mocop/config_integrations.py:61-136 | A configured topology is accepted iff it has at most 512 links and can be grown from the root one new node at a time |
| TopologyConfig.FollowLinks | src/mocop/config_integrations.py:125-131 | The worklist ends with a set that follows every link and was found link by link from the root |
| TopologyConfig.RemoveTopologyHost | src/mocop/inventory.py:189-228 | Removing the root drops the topology; removing another host from a tree keeps exactly the links that do not touch it and whose source is still reachable, and they form a tree again, so it is accepted; the fixpoint ends |
| TopologyRoutes.ExpandedHops | src/mocop/ssh_topology.py:393-431 | For arbitrary, possibly cyclic routes the walk ends with a chain without repetition, root or own node; without a cycle it is the recursive expansion and cached chains never change |
| TopologyRoutes.CombineClean | src/mocop/ssh_topology.py:424-430 | Combining keeps every hop once, except the root and the node itself |
| TopologyProjection.Project | src/mocop/ssh_topology.py:383-500 | The projected links form a tree of at most 512 links; uncut, every host and every hop of its chain hangs in it, and a cut one is full |
| TopologyProjection.AddPath | src/mocop/ssh_topology.py:451-473 | A path hangs all its nodes into the tree; a node that has a parent keeps it |
| TopologyProjection.Truncate | src/mocop/ssh_topology.py:480-494 | The breadth-first cut is itself a tree from the root, keeps only given links, and stops short of the limit only when it has all of them |
| TopologyProjection.SortLinks | src/mocop/ssh_topology.py:477-479 | The same links in order of source and target |
| Correlation.NodeDepths | src/mocop/correlation.py:78-86 | On a tree the unguarded walk ends having met every node, each one deeper than its parent |
| Correlation.MonitoredDescendants | src/mocop/correlation.py:88-101 | Every reachable node gets exactly the monitored hosts reachable from it |
| Correlation.ReachStep | src/mocop/correlation.py:93-98 | What is below a node is the node and what is below its children |
| Correlation.Correlate | src/mocop/correlation.py:46-76 | Groups are disjoint, have at least two hosts, lie under their anchor, come deepest first, and no anchor is left with two ungrouped hosts |
| Correlation.CorrelateTopology | src/mocop/correlation.py:37-76 | On an accepted topology every group lies below its non-root anchor, groups are disjoint, and two affected hosts left alone share no node but the root |
| SimultaneousLoss.DensestGroup | src/mocop/correlation.py:140-151 | No window of 120 seconds, wherever it is put, holds more losses than the group found |
| SimultaneousLoss.Correlate | src/mocop/correlation.py:128-158 | A common cause is offered iff some window of 120 seconds holds at least three losses and at least half of the fleet |
| Maintenance.ActiveIffCovered | src/mocop/maintenance.py:62-69 | A window is active at an instant iff some instance S + kP covers it |
| Maintenance.EndIsNext | src/mocop/maintenance.py:46-60 | The reported end is the least end of any instance that is still to come |
| Maintenance.StartsWhenConfigured | src/mocop/maintenance.py:46-60 | Every instance starts at the configured time, and a weekly one on the configured weekday |
| Maintenance.InstancesApart | src/mocop/config_loader.py:733-746 | With an admitted duration no two instances meet |

## Left out

- Order of events within one sample: conditions are visited in an unspecified order, so ids of events of one sample are consecutive but their order among keys is open.
- Fields that no rule reads: condition detail, resource and group key, GPU index, process memory, temperature and power.
- Condition keys and telemetry domains are structured values, not strings; parsing them is not modelled.
- Threshold arithmetic of the metric categories: the policy is any function whose conditions carry the sample's timestamp and that reports only connectivity, and no telemetry, for an offline host.
- Binary floating point: a measurement is a real number of hundredths, rounded to a whole one; thresholds, critical lines and margins are whole hundredths.
- Legacy database states: missing companion tables, schema migration, rows without busy flags from before they were recorded (the write step has their branch, the runs never reach it), corrupt-row filters and size caps.
- Points whose timestamp is not text, which the source passes through its filter.
- Size limits of the incident event list are modelled, those of utilization and host histories are not.
- Reading of unchanged state under the locks (snapshots, annotations, diagnostics) and the publication revision of the store.
- Ring capacity of the process events: logs are unbounded in the store, and the effect of losing a prefix is the subject of `Occupancy.TruncationHarmless` and `OccupancyRuns.RingTruncation`.
- IncidentTracker.Tracker.Update: does not fix the order of the created events, because the source iterates dictionaries and sets of keys.
- Occupancy.TruncationHarmless: speaks of start and end only; whether a run keeps its owner is decided in `OccupancyOwners.CutOwner` and `CutLiveOwner`.
- Usage.Classify: requires samples of one second to be comparable, because the source's sort compares their classification.
- Reports.ClassifyHourly: requires buckets of distinct whole hours, which the primary key and the hour text of the table give.
- Intervals, samples and buckets are values: an interval that receives its sampled and idle seconds is a new one at the same place of the list.
- WriterProtocol: a failure while a batch is still being collected, which queue operations do not raise, and the prune between batches, which changes no accounting.
- WriterProtocol.FlushTrueMeansStored: a write filtered by retention counts as dropped although its retained points are stored.
- Scheduler: the final drain after a stop, the pruning of schedules of removed hosts, a failing submission that ends the loop, discovery as a background job (its result is any inventory), waiting times, and cooldown arithmetic (a request is cooled down or not).
- Scheduler: inventories list a host once, as discovery delivers them.
- SchedulerLoop.ProbeScheduler keeps the scheduler's and the store's collections in one state value that its methods reassign, so aliasing between the two objects is not captured.
- ProcessRestore.OrderRestoredIff: speaks of rows that differ in second, process and kind, because a table without sequence cannot tell such rows apart.  A visible and a hidden row can agree in all three, and `ProcessExamples.ReusedNotRestored` shows that such rows are not restored; of two rows of one visibility the table keeps the first.
- ProcessReads.FaithfulRuns: speaks of tables whose key tells all rows apart, for the reason just given, and of restarts that give a device only rows of its present record.  Rows from before an eviction or removal of the device come back with a later restart, and of rows an earlier restart left behind those of the second in which it cut can (`ProcessTable.LeftBehind`); the last GPU sample read back is the one the record has.
- ProcessDevices.WorkloadOf: workloads of a sample are looked up by pid, while in the source each listed process carries its own, so two processes of one pid share a workload.
- GpuRollups.Prune: one clock reading gives the raw and the hourly cutoff of a retention run, while the source reads the clock for each, so a retention of 2159 hours leaves it no slack.
- Backoff: the jitter of a host and failure count is any number from 0 to 1.
- TopologyRoutes.ExpandedHops: on cyclic routes the chain depends on the alias first asked for; only its cleanness is stated there.
- Topology: link transports, labels, groups and warning texts; route resolution itself.
- Correlation: severity texts, keys and ordering of hosts inside a group; the composite's removal of groups that a fleet-wide loss covers.
- SQLite, SSH, HTTP, files, authentication, notifications, capacity ranking, configuration parsing other than the topology, and all presentation.
