# Verified model of the agent supervisor and of the manager's view of it

A daemon supervises agent processes on its node: it starts, stops and restarts them, watches their health,
rotates their logs, edits their configuration and samples their resources. It reports what it knows to a
manager, which keeps one row for every agent and node. This project models those parts in Dafny and proves
what they keep over all inputs and all runs. `dafny verify dfyconfig.toml` checks everything.

Code that updates objects in place is modelled by classes whose methods are proved against specification
functions; the theorems are about those functions. Code that several goroutines run at once is modelled as a
step system: one step is an atomic operation, a locked section, or a stretch of code on data that no other
goroutine touches. The theorems quantify over all runs.

| module | content |
|---|---|
| `Lifecycle`, `HealthLoop` | one agent: start, stop, restart with backoff, exit watcher, health loop; runs of all of these |
| `StepOutcomes` | what every step of a run does to the agent and its health loop, field by field |
| `ManualStop` | status, PID and handle agree; the manual-stop flag; a stopped agent stays stopped |
| `LiveProcesses` | which processes are alive: when one is orphaned, and exactly when a Stop holds |
| `RestartRate` | when automatic restarts keep their distance; the exact rate at which they can come |
| `LogRotation` | the rename loop and the clean-up pass refine a bounded list, most recent first |
| `ConfigMerge` | the deep merge: exact path semantics, idempotence, exact condition for associativity; atomic update |
| `MaxLatency` | compare-and-swap maximum under any interleaving |
| `MetadataWriter` | batching writer: order, completeness, drain |
| `AgentTable` | the manager's agent rows as a function of the whole history of reports and operations |
| `StateSync` | the daemon's pending states, delivery and convergence with the manager |
| `ResourceHistory` | windowed averages against grouping by truncated time |
| `ThresholdAlerts` | over-threshold timers against a statement about all samples |
| `DiskTotals` | running disk totals with replacement against one winner for each disk |
| `NodeTable` | node online/offline against the node's history |
| `HeartbeatPool`, `ClientPool` | heartbeat worker pool and client pool: conservation |
| `Options`, `Sums`, `Uint64` | an optional value, sums of sequences, 64-bit arithmetic |

Findings worth knowing:

- The manual-stop flag is not exact in general. A tick that cannot probe a live process clears its recorded
  PID and keeps the handle; the restart that follows then stops nothing, starts nothing, counts as a success
  and leaves the flag set on a running agent (`ManualStop.StuckRestartHappens`). Without such a restart the
  flag is exact, and only then (`ManualStop.FlagExact`).
- The exit watcher forgets the handle without checking that it is still its own process's. The late watcher of an
  old process so orphans a newer one: it runs on unknown to the supervisor, which then starts another beside it
  (`LiveProcesses.OrphanHappens`, `LiveProcesses.OrphanGetsCompany`). This is the only way to an orphan
  (`LiveProcesses.NoOrphanIff`).
- A Stop holds exactly when no automatic restart is in flight, the agent is not such a live one without a PID, and
  no process is orphaned (`LiveProcesses.StopHoldsIff`); a Stop that lands during a wait is overridden when the
  wait ends (`ManualStop.StopLandedInWait`).
- An automatic restart can follow another restart within 10 seconds, exactly when a successful manual restart
  landed in its wait less than 10 seconds before (`RestartRate.Spacing`, `RestartRate.ManualRestartKeepsSpacingIff`).
- A Stop that lands between the check and the consequence is caught for a dead process and for a missing
  heartbeat, but not for an agent over its threshold (`ManualStop.StopBetweenCheckAndAct`).
- The log clean-up sorts the highest number first under a comment that calls higher numbers newer. Higher numbers
  are older here, so with more than the allowed number of files it deletes the newest logs
  (`LogRotation.CleanupKeepsOldest`). Rotation is right because under its invariant the clean-up deletes nothing.
- A log rotated under a running agent is compressed and removed while the agent still writes to it: its further
  output is lost until the next launch (`LogRotation.LogRotator.RotateIfNeeded`, `LogRotation.LogRotator.Append`).
- Deep merge is associative exactly when, wherever a map, a non-map and a map meet at one path, the last map
  covers everything in the first (`ConfigMerge.MergeAssociativeIff`).
- A request that the metadata writer accepts after its drain has found the channel empty is lost, also one that
  arrives while the last batch is still being written (`MetadataWriter.AcceptedAfterDrainIsLost`). Heartbeats
  queued when the workers have left are never handled (`HeartbeatPool.LeftInQueue`).
- The manager keeps a stale PID after an agent dies: a reported PID of 0 means "not known"
  (`StateSync.PidConvergesIff`).
- The disk collector means to cut the partition number off a device name, but cuts at the first "s", which lies
  inside "disk": all macOS disks share one key, against the comment beside it (`DiskTotals.AllDisksShareOneKey`).
  The totals of a Mac are therefore those of its one largest partition (`DiskTotals.MacReportsOnePartition`).
- A node that registers and then falls silent is never marked offline (`NodeTable.RegisteredButSilentStaysOnline`).

## Model

Rows marked **Main.** are the results the others build up to.

| member | source | states |
|---|---|---|
| Lifecycle.AgentInstance.constructor | daemon/internal/agent/instance.go:36-43 | a new agent is stopped, without PID, handle, flag, restarts or last restart |
| Lifecycle.AgentInstance.StartInternal | daemon/internal/agent/instance.go:61-185 | a running agent is left as it is, flag included; otherwise the flag is cleared on request and the agent is running with the new PID and handle, or failed with the old ones |
| Lifecycle.AgentInstance.Start | daemon/internal/agent/instance.go:51-57 | the flag is cleared even when the agent already runs or cannot be launched |
| Lifecycle.AgentInstance.Stop | daemon/internal/agent/instance.go:217-355 | every branch has one effect: stopped, PID 0, flag set, and the handle gone unless the PID was already 0 |
| Lifecycle.AgentInstance.CalculateBackoff | daemon/internal/agent/instance.go:519-539 | more than five minutes after the last restart the count is reset and the wait is 0; else the wait follows the count |
| Lifecycle.AgentInstance.BeginRestart | daemon/internal/agent/instance.go:359-375 | a restart up to its wait: status restarting, the wait chosen, nothing else changed but a due count reset |
| Lifecycle.AgentInstance.CancelRestart | daemon/internal/agent/instance.go:382-384 | a wait cut short leaves everything but the status, which becomes stopped |
| Lifecycle.AgentInstance.FinishRestart | daemon/internal/agent/instance.go:388-421 | stop if running, launch with the flag cleared, and count the restart with its time only if the launch succeeds |
| Lifecycle.AgentInstance.OnProcessExit | daemon/internal/agent/instance.go:161-182 | any watcher, also of an older process, clears handle and PID and marks the agent stopped, flag untouched |
| Lifecycle.AgentInstance.UpdateStatusWhenProcessExits | daemon/internal/agent/multi_manager.go:290-316 | unless already stopped, status and PID are cleared while the handle stays |
| HealthLoop.HealthChecker.Tick | daemon/internal/agent/multi_health_checker.go:209-413 | one whole tick: verdict by priority (manual stop, process, heartbeat, probe, resources), then agent, over-threshold timer and the restart that begins |
| HealthLoop.HealthChecker.BeginAutoRestart | daemon/internal/agent/multi_health_checker.go:229-229 | an automatic restart begins with backoff and remembers when it is due |
| StepOutcomes.StopOutcome | daemon/internal/agent/instance.go:217-355 | a Stop ends stopped with PID 0 and the flag set, keeps count and time of restarts, and drops the handle unless the PID was 0 |
| StepOutcomes.StartOutcome | daemon/internal/agent/instance.go:51-185 | a Start clears the flag; it changes nothing else of a running agent, and leaves one that is not running with the new PID and handle, or failed with the old ones |
| StepOutcomes.RestartOutcome | daemon/internal/agent/instance.go:388-421 | a restart after its wait, or a manual one: status, PID, handle, flag, count and time for a stuck, a launched and a failed agent |
| StepOutcomes.CancelOutcome | daemon/internal/agent/instance.go:382-384 | a cancelled wait leaves a stopped status and nothing in flight |
| StepOutcomes.ExitOutcome | daemon/internal/agent/instance.go:166-176 | a watcher clears status, PID and handle and keeps flag, count and time |
| StepOutcomes.TickBeginsIff | daemon/internal/agent/multi_health_checker.go:209-413 | **Main.** a tick begins a restart if and only if the agent was not stopped by hand, and is not running, overdue with its heartbeat, not answering under its PID, or over its threshold for longer than the limit |
| StepOutcomes.TickTimer | daemon/internal/agent/multi_health_checker.go:253-277 | the over-threshold timer starts at the first such tick, runs on, and is cleared by a healthy tick or by its own restart |
| StepOutcomes.TickAgent | daemon/internal/agent/multi_health_checker.go:216-251 | status, PID and handle after a tick; one that finds no process or no answer clears the PID |
| StepOutcomes.TickBackoff | daemon/internal/agent/instance.go:519-539 | **Main.** a restart that begins more than five minutes after the last one waits 0 s and resets the count; any other waits 0, 10, 10, 30, 30, then 60 s by its count and keeps it |
| StepOutcomes.TickResetIff | daemon/internal/agent/multi_health_checker.go:271-293 | any other tick resets a positive count if and only if more than five minutes have passed since the last restart and it finds the agent healthy or stopped by hand |
| ManualStop.ReachableSound | daemon/internal/agent/instance.go:147-182 | **Main.** in every reachable state, status running implies a positive PID that is the handle's own, and no handle implies PID 0, so looking a process up by PID in Stop never happens |
| ManualStop.FlagAtEnd | daemon/internal/agent/instance.go:359-422 | without a stuck restart, the flag after a run says whether its last Start, Stop or uncancelled Restart was a Stop |
| ManualStop.FlagFollows | daemon/internal/agent/instance.go:217-422 | the same at every point of the run |
| ManualStop.FlagExact | daemon/internal/agent/instance.go:51-422 | **Main.** the flag says "the last operation was a Stop" at every point of a run if and only if no restart of the run got stuck |
| ManualStop.StuckRestartHappens | daemon/internal/agent/instance.go:223-230 | a concrete run with a stuck restart: the agent runs and the flag is set after an automatic restart |
| ManualStop.ProbedRunsNeverStick | daemon/internal/agent/multi_health_checker.go:364-376 | if no tick fails to probe a process, a live process always has its own PID on record and no restart gets stuck |
| ManualStop.StaysStopped | daemon/internal/agent/multi_health_checker.go:215-311 | **Main.** with the flag set and no restart in flight, no run of ticks, exits and stops begins or completes a restart, clears the flag or brings a process up |
| LiveProcesses.ReachableAccounted | daemon/internal/agent/instance.go:147-182 | at every point of every run a handle says rightly whether its process lives, and every live process still has its watcher to come |
| LiveProcesses.NoOrphanIff | daemon/internal/agent/instance.go:160-176 | **Main.** the only live process is the handle's at every point of a run if and only if no exit watcher fires while the agent is running |
| LiveProcesses.StopHoldsIff | daemon/internal/agent/instance.go:217-422 | **Main.** after a Stop no process is alive in any run in which nobody asks, if and only if no automatic restart is in flight, the Stop did not meet a live process without a PID, and every live process was the handle's |
| LiveProcesses.WaitBringsBack | daemon/internal/agent/instance.go:375-421 | while an automatic restart is in flight some run in which nobody asks brings a process up |
| LiveProcesses.OrphanHappens | daemon/internal/agent/instance.go:160-176 | start, manual restart, then the first process's watcher: the second process lives and nothing on record says so |
| LiveProcesses.OrphanSurvivesStop | daemon/internal/agent/instance.go:223-230 | a Stop at that point returns early and leaves the process alive |
| LiveProcesses.OrphanGetsCompany | daemon/internal/agent/multi_health_checker.go:216-233 | without a Stop the next tick restarts the agent and a third process runs beside the second |
| ManualStop.StopLandedInWait | daemon/internal/agent/instance.go:375-421 | **Main.** just before an automatic restart's wait ends, the flag is set if and only if the last operation during the wait was a Stop; just after, it is clear and the agent runs exactly if its launch succeeded |
| ManualStop.StopBetweenCheckAndAct | daemon/internal/agent/multi_health_checker.go:215-269 | with the flag set after the check, a restart still begins exactly for an over-threshold verdict that has lasted too long |
| RestartRate.CountInvStep | daemon/internal/agent/registry.go:126-140 | every step keeps it |
| RestartRate.CountInvReachable | daemon/internal/agent/registry.go:126-140 | it holds in every reachable world |
| RestartRate.GapInvReachable | daemon/internal/agent/instance.go:519-539 | in every reachable world the last restart lies 10 s before the end of the wait or landed during the wait |
| RestartRate.Spacing | daemon/internal/agent/instance.go:359-422 | **Main.** an automatic restart ends at least 10 s after the restart before it if and only if no successful manual restart landed in its wait within the last 10 s |
| RestartRate.ManualRestartKeepsSpacingIff | daemon/internal/agent/instance.go:370-416 | before a manual restart: an automatic one in flight keeps 10 s of distance from it, whenever it ends, if and only if its timer is due at least 10 s later |
| RestartRate.ManualRestartBreaksSpacing | daemon/internal/agent/instance.go:359-386 | a concrete run in which an automatic restart ends at the very moment of a manual one |
| RestartRate.PaidStep | daemon/internal/agent/instance.go:359-422 | every step keeps the potential |
| RestartRate.PaidAlong | daemon/internal/agent/instance.go:359-422 | from any world, the potential holds since the first automatic restart of the run |
| RestartRate.NoFasterThanCrashLoop | daemon/internal/agent/instance.go:519-539 | **Main.** from any world, no stretch of any run packs automatic restarts more densely than a process that dies as soon as it is up |
| RestartRate.PacksIff | daemon/internal/agent/instance.go:519-539 | **Main.** n automatic restarts fit in a window of some run if and only if a crash loop's first n do |
| RestartRate.RateBound | daemon/internal/agent/instance.go:519-539 | **Main.** in numbers: any stretch of T of any run, from any world, holds at most (T + 220 s) / 60 s successful automatic restarts |
| RestartRate.CrashLoopRuns | daemon/internal/agent/instance.go:359-422 | the crash loop is a possible run, and what it leaves after n rounds |
| RestartRate.CrashLoopSchedule | daemon/internal/agent/instance.go:529-538 | from the fifth on, its n-th restart comes at 60 n - 220 s |
| RestartRate.RateBoundAttained | daemon/internal/agent/instance.go:519-539 | for every n from 5 on some run packs n automatic restarts into exactly 60 n - 220 s, so the bound is tight |
| LogRotation.LogRotator.constructor | daemon/internal/agent/log_manager.go:32-43 | a rotator starts with an empty history |
| LogRotation.LogRotator.Launch | daemon/internal/agent/instance.go:113-133 | a launch rotates exactly when the current log is big or old enough, and opens the current log, empty after a rotation, with its content otherwise |
| LogRotation.LogRotator.Append | daemon/internal/agent/instance.go:132-133 | output follows the open descriptor: into the current log, into the newest rotated log, or nowhere; the slots keep holding the list |
| LogRotation.LogRotator.RotateIfNeeded | daemon/internal/agent/log_manager.go:46-86 | rotates exactly when the current log exists and is big or old enough; then slots hold the history with the new log in front, and a running agent's further output is lost if and only if the log is compressed or none is kept |
| LogRotation.LogRotator.Rotate | daemon/internal/agent/log_manager.go:89-159 | from any directory: renames by name, then the clean-up; without a current log only the shift is done and the time of the last rotation stays |
| LogRotation.ShiftMovesUp | daemon/internal/agent/log_manager.go:91-121 | in any directory each rotated file below maxFiles moves up by one, and files beyond it and the current log stay |
| LogRotation.LogRotator.ShiftNumbers | daemon/internal/agent/log_manager.go:91-121 | the descending loop moves every file up one number and overwrites nothing but number maxFiles |
| LogRotation.LogRotator.Rename | daemon/internal/agent/log_manager.go:101-126 | an existing file moves over the target and takes an open descriptor along, a missing one changes nothing |
| LogRotation.LogRotator.Compress | daemon/internal/agent/log_manager.go:162-192 | the newest rotated log becomes its .gz file; output into it is lost from then on |
| LogRotation.LatestGrows | daemon/internal/agent/log_manager.go:123-126 | output into the newest rotated log extends the newest entry of the list |
| LogRotation.LogRotator.CleanupOldFiles | daemon/internal/agent/log_manager.go:195-237 | deletes exactly the listed files from position maxFiles on |
| LogRotation.LogRotator.ListDescending | daemon/internal/agent/log_manager.go:208-224 | lists every rotated file once, highest number first |
| LogRotation.SlotsAreListedBackwards | daemon/internal/agent/log_manager.go:208-224 | when slots 1..n are filled the listing is n, n-1, ..., 1 in any sort |
| LogRotation.CleanupKeepsOldest | daemon/internal/agent/log_manager.go:218-236 | slot n survives the clean-up if and only if fewer than maxFiles slots are older |
| LogRotation.CleanupOfList | daemon/internal/agent/log_manager.go:195-237 | the clean-up removes nothing from a list within the limit, and everything if the limit is 0 |
| LogRotation.RenamesPush | daemon/internal/agent/log_manager.go:91-147 | the renames put the new log in slot 1 and drop only the log in slot maxFiles |
| LogRotation.PushedIsMostRecent | daemon/internal/agent/log_manager.go:91-126 | pushing onto the most recent logs gives the most recent logs of the longer history |
| LogRotation.RotationRefinesList | daemon/internal/agent/log_manager.go:89-159 | **Main.** a rotation takes the list of the most recent logs to the next such list, and the clean-up deletes nothing unless maxFiles is 0 |
| LogRotation.NewestSurvivesIff | daemon/internal/agent/log_manager.go:89-159 | **Main.** the log just rotated survives its own rotation if and only if maxFiles is positive and there were at most maxFiles rotated logs |
| LogRotation.SlotHoldsIthMostRecent | daemon/internal/agent/log_manager.go:89-159 | **Main.** slot i exists exactly for i up to min(rotations, maxFiles), and holds the i-th most recent log |
| ConfigMerge.MergedLeaf | daemon/internal/agent/config_manager.go:505-529 | **Main.** exact path semantics: every leaf of the updates, and every leaf of the current config whose path the updates neither fill nor cut, and no other leaf |
| ConfigMerge.MergeIdempotent | daemon/internal/agent/config_manager.go:505-529 | **Main.** applying an update twice equals applying it once |
| ConfigMerge.MergeSame | daemon/internal/agent/config_manager.go:505-529 | a config merged with itself is itself |
| ConfigMerge.MergeUnits | daemon/internal/agent/config_manager.go:505-529 | the empty config is a unit on both sides |
| ConfigMerge.AbsorbedIff | daemon/internal/agent/config_manager.go:513-526 | updates replace a config entirely if and only if they say something about everything in it |
| ConfigMerge.AssociativeAt | daemon/internal/agent/config_manager.go:513-526 | the two ways to merge three configs agree at a key if and only if the key is compatible |
| ConfigMerge.MergeAssociativeIff | daemon/internal/agent/config_manager.go:505-529 | **Main.** merging is associative on exactly the compatible triples |
| ConfigMerge.NoClashCompatible | daemon/internal/agent/config_manager.go:513-526 | no path with map, non-map, map implies compatible at every depth |
| ConfigMerge.NoClashAssociates | daemon/internal/agent/config_manager.go:505-529 | merging is associative when no path has a map, a non-map and a map |
| ConfigMerge.DeepMerge | daemon/internal/agent/config_manager.go:505-529 | the two loops compute the merge, in any key order |
| ConfigMerge.DeepCopyFields | daemon/internal/agent/config_manager.go:508-511 | copying a map value by value gives an equal map |
| ConfigMerge.DeepCopyValue | daemon/internal/agent/config_manager.go:532-550 | a deep copy equals its original, lists and maps included |
| ConfigMerge.ConfigManager.ReadConfig | daemon/internal/agent/config_manager.go:70-110 | succeeds exactly on a registered agent's file that parses, with its content; unknown agent, no file name, missing, unreadable and malformed file each have their own error |
| ConfigMerge.ConfigManager.UpdateConfig | daemon/internal/agent/config_manager.go:229-301 | succeeds exactly when reading, validation, serialisation and the three file operations do; then the file holds the merge, else reading the config gives what it gave before; no file but the config and its temporary file changes, none before the write, and the temporary file is gone once it was written |
| MaxLatency.TotalsStep | daemon/internal/agent/performance.go:50-52 | counter, latency sum and number of swaps equal the sums over the calls after every atomic operation |
| MaxLatency.MaxStep | daemon/internal/agent/performance.go:55-63 | an atomic operation leaves the maximum alone or swaps in a strictly larger one |
| MaxLatency.CallsStep | daemon/internal/agent/performance.go:55-63 | every call keeps its invariant: a value read is current exactly while nobody has swapped since |
| MaxLatency.AttainedStep | daemon/internal/agent/performance.go:55-63 | the maximum stays 0 or the latency of some call |
| MaxLatency.InvStep | daemon/internal/agent/performance.go:44-64 | every atomic operation keeps the invariant |
| MaxLatency.Reachable | daemon/internal/agent/performance.go:44-64 | the invariant holds after every interleaving |
| MaxLatency.MaxGrows | daemon/internal/agent/performance.go:55-63 | **Main.** the stored maximum never decreases along a run and bounds every completed call |
| MaxLatency.RetriesBounded | daemon/internal/agent/performance.go:55-63 | **Main.** a call retries at most once for each swap by another call since it began |
| MaxLatency.CallsAreBegun | daemon/internal/agent/performance.go:44-52 | the calls are those begun, with their latencies, and every dropped heartbeat is counted |
| MaxLatency.FiguresAtRest | daemon/internal/agent/performance.go:50-52 | with all calls returned, count and sum are those of the calls |
| MaxLatency.MaxAtRest | daemon/internal/agent/performance.go:55-63 | with all calls returned, the maximum is 0 or a call's latency and bounds them all |
| MaxLatency.AtRest | daemon/internal/agent/performance.go:44-64 | **Main.** when all calls have returned, count, sum and maximum (at least 0) of the latencies begun, and the drops, are exact |
| MaxLatency.PerformanceMetrics.RecordHeartbeat | daemon/internal/agent/performance.go:44-64 | with other calls raising the maximum before each of its swaps: the maximum ends as the largest of the old one, its own latency and those it met, and it goes round at most once for each of them |
| MetadataWriter.InvStep | daemon/internal/agent/async_metadata_writer.go:44-115 | every step keeps: accepted requests are written, then batch, then channel; batch below 10, channel at most 100 |
| MetadataWriter.RunKeepsOrder | daemon/internal/agent/async_metadata_writer.go:44-147 | **Main.** at every point of every run nothing accepted is lost, duplicated or reordered, and what was written stays written |
| MetadataWriter.AcceptedIsAdmitted | daemon/internal/agent/async_metadata_writer.go:117-147 | **Main.** at every point of every run the accepted requests are those submitted when the channel held fewer than 100, unchanged and in order |
| MetadataWriter.BatchWritten | daemon/internal/agent/async_metadata_writer.go:80-111 | a batch is written whole with its tenth request, by the timer, at the stop signal and at the end, and by no other step |
| MetadataWriter.AfterDrainEmpty | daemon/internal/agent/async_metadata_writer.go:100-111 | once the drain has found the channel empty, what is accepted stays in the channel, and what was accepted before is in the batch or written |
| MetadataWriter.EndWritesAll | daemon/internal/agent/async_metadata_writer.go:94-111 | when the goroutine has ended, everything accepted before the drain found the channel empty is written, in order, and only the channel's content is not |
| MetadataWriter.AcceptedAfterDrainIsLost | daemon/internal/agent/async_metadata_writer.go:106-131 | **Main.** after the end everything accepted is written if and only if nothing was submitted since the drain found the channel empty |
| MetadataWriter.DrainTerminates | daemon/internal/agent/async_metadata_writer.go:100-111 | without producers each drain step shortens the channel by one, so the drain ends |
| MetadataWriter.AsyncMetadataWriter.Submit | daemon/internal/agent/async_metadata_writer.go:117-147 | with fewer than 100 requests in the channel the very request, save or update, joins its end; else it is dropped |
| MetadataWriter.AsyncMetadataWriter.Flush | daemon/internal/agent/async_metadata_writer.go:52-78 | the loop writes the whole batch in order and empties it |
| MetadataWriter.AsyncMetadataWriter.ReceiveOne | daemon/internal/agent/async_metadata_writer.go:82-88 | one request moves to the batch; a full batch is written |
| MetadataWriter.AsyncMetadataWriter.SubmitAll | daemon/internal/agent/async_metadata_writer.go:118-147 | several submissions keep the order; the first one finds room in an empty channel |
| MetadataWriter.AsyncMetadataWriter.StopAndDrain | daemon/internal/agent/async_metadata_writer.go:94-112 | with producers submitting between receives the stop branch terminates, and writes everything accepted if and only if nobody submits during the last flush |
| AgentTable.UnknownIsBlank | manager/internal/service/agent.go:269-280 | operations on an agent never reported leave no trace in its row |
| AgentTable.SyncOneFollows | manager/internal/service/agent.go:69-177 | one report extends what its row's history says, and no other row's |
| AgentTable.SyncAllFollows | manager/internal/service/agent.go:69-180 | a list of reports extends it by the reports for that agent, in order |
| AgentTable.OperatedFollows | manager/internal/service/agent.go:333-370 | a carried-out operation extends it by that operation |
| AgentTable.RowIsFunctionOfHistory | manager/internal/service/agent.go:53-370 | **Main.** after any history each row is fixed by its facts: last non-empty status reported or implied (else stopped), last non-zero PID since the last stop (else 0), last known type, version and heartbeat, time of the last fact; no row before the first report |
| AgentTable.SyncAppend | manager/internal/service/agent.go:69-180 | at one time, syncing xs then ys equals syncing xs + ys |
| AgentTable.TimelessSync | manager/internal/service/agent.go:87-177 | sync time influences nothing but the sync-time column |
| AgentTable.TimelessSyncOne | manager/internal/service/agent.go:87-177 | the same for one report |
| AgentTable.SyncsCombine | manager/internal/service/agent.go:69-180 | **Main.** syncing xs then ys equals syncing xs + ys apart from sync times |
| AgentTable.OtherRowsUntouched | manager/internal/repository/agent.go:121-125 | rows of other nodes and of unreported agents do not change |
| AgentTable.AgentRepository.constructor | manager/internal/repository/agent.go:81-86 | the table starts empty |
| AgentTable.AgentRepository.Update | manager/internal/repository/agent.go:89-137 | overlays exactly the non-zero fields on an existing row, reports a missing one |
| AgentTable.AgentRepository.ClearPID | manager/internal/repository/agent.go:186-197 | sets the PID of an existing row to 0 |
| AgentTable.AgentService.SyncAgentStates | manager/internal/service/agent.go:53-199 | rejects an empty node, else the loop applies every report in order |
| AgentTable.AgentService.SyncReport | manager/internal/service/agent.go:69-177 | skips an empty agent, else updates or creates the row as the overlay says |
| AgentTable.AgentService.OperateAgent | manager/internal/service/agent.go:236-380 | the error cases in order; only a carried-out operation changes the table, to the implied status, and a stop clears the PID |
| StateSync.KeptAt | daemon/internal/agent/state_syncer.go:272-278 | after a failed delivery an agent's entry is its own sent state, else what was pending |
| StateSync.KeptIsOverlay | daemon/internal/agent/state_syncer.go:272-278 | the loop over the sent states, in any order, overlays them all on the pending ones |
| StateSync.StateSyncer.constructor | daemon/internal/agent/state_syncer.go:96-140 | nothing is pending at first |
| StateSync.StateSyncer.OnAgentStateChange | daemon/internal/agent/state_syncer.go:96-140 | the change becomes the agent's pending state, with status stopped if empty and the known type and version |
| StateSync.StateSyncer.CollectAgentStates | daemon/internal/agent/state_syncer.go:143-235 | exactly one state for each registered or pending agent, the pending one first |
| StateSync.StateSyncer.BuildStateMap | daemon/internal/agent/state_syncer.go:154-223 | the two loops, in any order, build current states overlaid by pending ones |
| StateSync.StateSyncer.ToSlice | daemon/internal/agent/state_syncer.go:225-229 | lists every entry of the map once |
| StateSync.StateSyncer.KeepPending | daemon/internal/agent/state_syncer.go:272-278 | keeps every undelivered state |
| StateSync.StateSyncer.SyncToManager | daemon/internal/agent/state_syncer.go:262-297 | delivered: the manager applied the states and nothing is pending; failed: all states are pending, whether or not the manager has applied them |
| StateSync.StateSyncer.Land | daemon/internal/agent/state_syncer.go:96-140 | changes landing one after the other overlay the pending states |
| StateSync.StateSyncer.SyncRound | daemon/internal/agent/state_syncer.go:315-328 | collection, changes landing meanwhile, and delivery make one round of the replication |
| StateSync.RoundMade | daemon/internal/agent/state_syncer.go:262-297 | a failed round leaves pending what was pending, then what landed, then what was sent; a delivered one drops all of it |
| StateSync.OwnStateDecides | manager/internal/service/agent.go:69-180 | in a list with one state for each agent, the order does not matter to any row |
| StateSync.DeliveredRow | manager/internal/service/agent.go:69-180 | each listed agent's row is its own state applied to the row before |
| StateSync.OneRound | daemon/internal/agent/state_syncer.go:315-328 | **Main.** after one delivered round the manager shows the daemon's own status (stopped if empty) if and only if no different status was pending |
| StateSync.RoundRow | daemon/internal/agent/state_syncer.go:157-218 | **Main.** the whole row of an agent with nothing pending after a delivered round: type, version, PID and heartbeat are the daemon's, or the manager's where the daemon has none; the status is the daemon's, or stopped if empty |
| StateSync.TwoRoundsConverge | daemon/internal/agent/state_syncer.go:315-328 | after two delivered rounds, with the agents unchanged from the end of the first on, every registered agent's status agrees, whatever was pending |
| StateSync.AgreeingRound | daemon/internal/agent/state_syncer.go:262-297 | a round, delivered or not, keeps the pending states in agreement with unchanged agents, whatever lands |
| StateSync.AgreeingRoundStatus | daemon/internal/agent/state_syncer.go:315-328 | from there a delivered round brings the manager to the daemon's status, and no round takes it away |
| StateSync.StaysConverged | daemon/internal/agent/state_syncer.go:315-328 | **Main.** after one delivered round, with the agents unchanged from its end on and any rounds failing in between, the next delivered round makes every registered agent's status agree, at every later point |
| StateSync.PidConvergesIff | manager/internal/service/agent.go:107-112 | **Main.** the PID agrees too if and only if the daemon's is non-zero, or the manager had none |
| ResourceHistory.TruncateLaw | daemon/internal/agent/resource_monitor.go:573-573 | the truncated time is the multiple of a positive interval at or last before the time; any other interval leaves the time alone |
| ResourceHistory.TruncateIff | daemon/internal/agent/resource_monitor.go:573-573 | a multiple of the interval is the truncated time of exactly the times from it up to the next one |
| ResourceHistory.TruncateMonotone | daemon/internal/agent/resource_monitor.go:573-573 | truncation keeps the time order |
| ResourceHistory.WindowsPartition | daemon/internal/agent/resource_monitor.go:567-592 | for any data the windows concatenate to it, none is empty, and their starts strictly increase |
| ResourceHistory.StreamingIsGroupingIff | daemon/internal/agent/resource_monitor.go:567-592 | **Main.** the streaming windows are the groups of equal truncated time if and only if the truncated times are in order |
| ResourceHistory.OrderedWindowsAreGroups | daemon/internal/agent/resource_monitor.go:572-586 | with truncated times in order each window holds all points of its time slot, and every slot has its window |
| ResourceHistory.TimeOrderGroups | daemon/internal/agent/resource_monitor.go:567-592 | on time-ordered data streaming equals grouping by truncated time, for any interval |
| ResourceHistory.AverageCPUBetween | daemon/internal/agent/resource_monitor.go:621-624 | the CPU average lies between any bounds of its points |
| ResourceHistory.WrappedIsTotal | daemon/internal/agent/resource_monitor.go:611-617 | the 64-bit sum is the true sum modulo 2^64 |
| ResourceHistory.Average64Law | daemon/internal/agent/resource_monitor.go:625-628 | **Main.** a 64-bit average times the count falls short of the true sum by less than the count if and only if the sum fits 64 bits |
| ResourceHistory.Average64Between | daemon/internal/agent/resource_monitor.go:625-628 | if the sum fits, the 64-bit average lies between any bounds of its points |
| ResourceHistory.AverageIntLaw | daemon/internal/agent/resource_monitor.go:629-630 | an integer average is short by less than the count and lies between any bounds of its points |
| ResourceHistory.AggregateDataPoints | daemon/internal/agent/resource_monitor.go:598-632 | the loop computes sums and averages of every field; no points give zeros |
| ResourceHistory.AggregateBetween | daemon/internal/agent/resource_monitor.go:621-631 | each figure of an aggregate lies between any bounds of that same figure in its points, so equal points average to themselves |
| ResourceHistory.GroupIsBetween | daemon/internal/agent/resource_monitor.go:572-586 | the group of a truncated time is the points from it up to one interval later |
| ResourceHistory.ResultByTheClock | daemon/internal/agent/resource_monitor.go:556-595 | **Main.** on time-ordered data there is one aggregate for each interval with a point in it, stamped with the interval's start, a multiple of its length, and averaging just the points in it |
| ResourceHistory.GetResourceHistoryAggregated | daemon/internal/agent/resource_monitor.go:563-594 | the loop returns one aggregate for each window, in order; on time-ordered data these are the aggregates by the clock |
| ThresholdAlerts.TimerIsStart | daemon/internal/agent/resource_monitor.go:428-455 | a timer runs exactly while the latest samples are over, and shows the time of the earliest of that unbroken stretch |
| ThresholdAlerts.TimerMeansTooLong | daemon/internal/agent/resource_monitor.go:355-376 | the timer has run for the duration if and only if some sample is at least that old and every one since is over |
| ThresholdAlerts.AlertMeans | daemon/internal/agent/resource_monitor.go:355-424 | an alert needs the sample just taken above its threshold, where no open-file limit means none; without a duration to wait for, that is all it takes |
| ThresholdAlerts.ResourceMonitor.constructor | daemon/internal/agent/resource_monitor.go:140-150 | no timers and no thresholds at first |
| ThresholdAlerts.ResourceMonitor.SetThreshold | daemon/internal/agent/resource_monitor.go:140-150 | sets one agent's threshold and touches no timer |
| ThresholdAlerts.ResourceMonitor.GetExceededDuration | daemon/internal/agent/resource_monitor.go:428-445 | starts a stopped timer, reads a running one, touches no other |
| ThresholdAlerts.ResourceMonitor.ClearExceededSince | daemon/internal/agent/resource_monitor.go:448-455 | stops one timer, touches no other |
| ThresholdAlerts.ResourceMonitor.CheckOne | daemon/internal/agent/resource_monitor.go:355-376 | one resource: its timer runs or stops, and an alert needs the whole duration |
| ThresholdAlerts.ResourceMonitor.CheckAll | daemon/internal/agent/resource_monitor.go:354-424 | the three resources are independent of each other and of other agents |
| ThresholdAlerts.ResourceMonitor.CheckResourceThresholds | daemon/internal/agent/resource_monitor.go:342-425 | **Main.** a resource is reported if and only if it was over its threshold for the whole duration, over all samples of all agents |
| DiskTotals.FirstS | daemon/internal/collector/disk.go:113-113 | the position of the first "s", -1 exactly when there is none |
| DiskTotals.DeviceBaseCut | daemon/internal/collector/disk.go:112-115 | a device name is cut at its first "s", unless it starts with it or has none |
| DiskTotals.SelectedIff | daemon/internal/collector/disk.go:73-104 | what counts: readable, at one of the given mount points if any are given, and on macOS not below /System/Volumes |
| DiskTotals.EntriesAppend | daemon/internal/collector/disk.go:72-104 | each such partition adds its own usage under its own key, every other one nothing |
| DiskTotals.ExpectedElsewhere | daemon/internal/collector/disk.go:144-146 | off macOS every counted partition adds its figures |
| DiskTotals.AllDisksShareOneKey | daemon/internal/collector/disk.go:106-115 | every device named /dev/disk... gets the same key, /dev/di |
| DiskTotals.OneKeyOneWinner | daemon/internal/collector/disk.go:117-146 | if all partitions have one key, the sums are the figures of the first largest one |
| DiskTotals.MacReportsOnePartition | daemon/internal/collector/disk.go:106-146 | **Main.** on macOS the totals are those of a single partition, the largest, however many disks there are |
| DiskTotals.FirstOfDisk | daemon/internal/collector/disk.go:134-146 | the first partition of a disk adds its figures |
| DiskTotals.Loses | daemon/internal/collector/disk.go:118-127 | a partition no larger than the disk's winner changes neither winner nor sums |
| DiskTotals.Replaces | daemon/internal/collector/disk.go:128-146 | a larger partition becomes the winner; taking the old figures out and adding its own gives the new sums |
| DiskTotals.WinnerWithinSum | daemon/internal/collector/disk.go:130-131 | what is subtracted is within the sum, so it cannot underflow |
| DiskTotals.UsedWithinTotal | daemon/internal/collector/disk.go:192-194 | used never exceeds total in the sums when it does not in any partition |
| DiskTotals.Count | daemon/internal/collector/disk.go:109-146 | one partition keeps: totals are the winners' sums modulo 2^64, and the table holds each disk's winner |
| DiskTotals.SumPartitions | daemon/internal/collector/disk.go:72-178 | the loop computes the expected totals modulo 2^64 |
| DiskTotals.Collect | daemon/internal/collector/disk.go:72-194 | **Main.** the totals are the sums over the first largest partition of each disk on macOS, over all selected partitions elsewhere, exact when they fit 64 bits; free space and percentage follow from them |
| DiskTotals.Percent | daemon/internal/collector/disk.go:181-184 | percentage times total is 100 times used, 0 for no total; between 0 and 100 when used is within total |
| NodeTable.RowFollowsLastTouch | manager/internal/service/node.go:63-217 | a row exists exactly after a registration or heartbeat, and its last-seen time is the last one's |
| NodeTable.OfflineIff | manager/internal/service/node.go:63-252 | **Main.** a node is offline if and only if some check since its last heartbeat or registration found it silent, or that registration said so |
| NodeTable.HeartbeatOutcome | manager/internal/service/node.go:167-217 | a heartbeat leaves its node seen now; an unknown or offline one is online, any other keeps its status; no other row changes |
| NodeTable.RegisterOutcome | manager/internal/service/node.go:63-91 | a registration replaces the whole row and touches no other |
| NodeTable.CheckOutcome | manager/internal/repository/node.go:191-200 | a check turns exactly the nodes with a last-seen time older than the limit offline and changes nothing else |
| NodeTable.OnlineUnlessOffline | manager/internal/grpc/server.go:43-58 | nodes register as online, so a known node is always online or offline, as its history says |
| NodeTable.SilentNodeGoesOffline | manager/internal/service/node.go:233-252 | a node silent past the limit since a heartbeat is offline after the next check |
| NodeTable.RegisteredButSilentStaysOnline | manager/internal/repository/node.go:191-200 | a node registered without a last-seen time is never marked offline before its first heartbeat |
| NodeTable.NodeService.constructor | manager/internal/service/node.go:63-91 | the table starts empty |
| NodeTable.NodeService.Register | manager/internal/service/node.go:63-91 | creates the row or saves over every field of it |
| NodeTable.NodeService.Heartbeat | manager/internal/service/node.go:167-217 | registers an unknown node as online, else refreshes the time and brings an offline node back |
| NodeTable.NodeService.CheckOfflineNodes | manager/internal/service/node.go:233-252 | exactly the silent nodes become offline |
| HeartbeatPool.PlacesStep | daemon/internal/agent/heartbeat_receiver.go:117-309 | a step moves a heartbeat from one place to another; only counting adds one |
| HeartbeatPool.InvStep | daemon/internal/agent/heartbeat_receiver.go:117-331 | every step keeps each counted heartbeat in exactly one place and the counters equal to the places |
| HeartbeatPool.Conservation | daemon/internal/agent/heartbeat_receiver.go:117-331 | this holds at every point of every run, also across Stop |
| HeartbeatPool.CountersAddUp | daemon/internal/agent/heartbeat_receiver.go:117-331 | **Main.** received = arriving + rejected + queued + in flight + processed + errors; none handled twice; the queue keeps its capacity |
| HeartbeatPool.QueueOrder | daemon/internal/agent/heartbeat_receiver.go:158-300 | the queue is first in, first out, and only these two steps touch it |
| HeartbeatPool.LeftInQueue | daemon/internal/agent/heartbeat_receiver.go:311-331 | **Main.** from the moment all workers have left, no counter of handled or failed heartbeats changes and what is queued stays queued, at every later point |
| HeartbeatPool.MissingAfterwards | daemon/internal/agent/heartbeat_receiver.go:311-331 | from the moment all workers have left, received counts the arriving, rejected and queued heartbeats beside the counters as they were then |
| HeartbeatPool.ArrivedKeeps | daemon/internal/agent/heartbeat_receiver.go:151-173 | counting and offering one heartbeat are two steps of the pool and keep the invariant |
| HeartbeatPool.WorkedKeeps | daemon/internal/agent/heartbeat_receiver.go:292-300 | taking and processing one heartbeat are two steps of the pool and keep the invariant |
| HeartbeatPool.HTTPHeartbeatReceiver.constructor | daemon/internal/agent/heartbeat_receiver.go:88-114 | ten workers, an empty queue, counters at 0 |
| HeartbeatPool.HTTPHeartbeatReceiver.ValidateRequest | daemon/internal/agent/heartbeat_receiver.go:177-204 | accepts exactly registered agents with a positive PID and a CPU between 0 and 100 |
| HeartbeatPool.HTTPHeartbeatReceiver.HandleHeartbeat | daemon/internal/agent/heartbeat_receiver.go:117-174 | the answers in order; only a valid request is counted, then queued if there is room and rejected otherwise |
| HeartbeatPool.HTTPHeartbeatReceiver.ProcessHeartbeat | daemon/internal/agent/heartbeat_receiver.go:237-270 | one heartbeat counts as processed or as an error, never both |
| HeartbeatPool.HTTPHeartbeatReceiver.Work | daemon/internal/agent/heartbeat_receiver.go:284-309 | a worker on its own empties the queue in order, or after Stop takes some more heartbeats and leaves; each one taken is counted once |
| HeartbeatPool.HTTPHeartbeatReceiver.Stop | daemon/internal/agent/heartbeat_receiver.go:312-331 | all workers leave, a second call changes nothing, what is queued stays queued |
| ClientPool.LookupAnswers | manager/internal/grpc/daemon_client.go:478-508 | a lookup answers with the node's client if it has one, under the write lock else with a new one if it can be dialed; the answer is then the node's client, and a miss changes nothing but who waits |
| ClientPool.CloseCloses | manager/internal/grpc/daemon_client.go:512-552 | closing a node closes and forgets its client and no other; closing all leaves no node and closes every client |
| ClientPool.InvStep | manager/internal/grpc/daemon_client.go:470-552 | every step keeps: each client ever created is closed or the one client of one node, never both |
| ClientPool.NothingLeaks | manager/internal/grpc/daemon_client.go:470-552 | **Main.** this holds at every point of every run |
| ClientPool.ClientStays | manager/internal/grpc/daemon_client.go:478-502 | a returned client stays its node's open client until that node is closed |
| ClientPool.SameClient | manager/internal/grpc/daemon_client.go:478-508 | **Main.** two lookups of a node with no close in between return the same client, whoever makes them |
| ClientPool.DaemonClientPool.constructor | manager/internal/grpc/daemon_client.go:460-465 | the pool starts empty |
| ClientPool.DaemonClientPool.Interfere | manager/internal/grpc/daemon_client.go:487-552 | calls by others that get the write lock in between |
| ClientPool.DaemonClientPool.GetClient | manager/internal/grpc/daemon_client.go:470-509 | with any calls by others between its two locks: a fast lookup and, if that misses, a slow one in the pool the others left; empty arguments are errors |
| ClientPool.DaemonClientPool.LookupOrCreate | manager/internal/grpc/daemon_client.go:487-508 | the locked part returns the client someone else created meanwhile, else creates one |
| ClientPool.DaemonClientPool.CloseClient | manager/internal/grpc/daemon_client.go:512-533 | closes and removes one node's client, if any |
| ClientPool.DaemonClientPool.CloseAll | manager/internal/grpc/daemon_client.go:536-552 | closes every client and empties the pool |

## Left out

- RestartRate.NoFasterThanCrashLoop: restarts by the health loop, with Start, Stop and manual restarts in between; RestartAll also restarts with backoff, beside the health loop, and is not a step of a run (only tests call it).
- LiveProcesses.StopHoldsIff: a PID is not given out again while a process or its watcher still has it.
- LogRotation.LogRotator.Launch: one open descriptor, that of the process launched last; an orphaned process keeps its own.
- StateSync.TwoRoundsConverge: status only; the PID has its own exact condition in StateSync.PidConvergesIff.
- HeartbeatPool.HTTPHeartbeatReceiver.Stop: called when no handler or worker is busy; the step system above it covers every interleaving.
- HeartbeatPool.HTTPHeartbeatReceiver.Work: one worker while no other is busy; the step system covers ten at once.
- HeartbeatPool.HTTPHeartbeatReceiver.HandleHeartbeat: one request on its own; a Stop or another request in the middle of it is in the step system.
- Processes, signals, sockets, gRPC, HTTP, YAML, JSON, gzip and file watching: their answers are parameters. A stop either finds the process gone or waits until it is.
- Whole operations, ticks and exits are single steps; finer interleavings that no lock excludes are not modelled, such as the two setters of the exit update around a Start. An automatic restart is three steps: begin, wait, finish.
- A cancelled wait may happen at any time of the wait, also a wait of 0; this allows more runs than the code has.
- The health checker's status and heartbeat maps for display, and its branch for an agent that is no longer registered.
- The multi-agent manager's StopAgent and RestartAgent add metadata updates and notifications to the operations modelled here; StartAll and StopAll only loop over agents. RestartAll loops too, but restarts with backoff from goroutines of its own; a run has one restart with backoff at a time, the health loop's.
- Failed compression, failed renames of rotated files, retention by age, other files whose names start with the log's name, and a negative maxFiles, on which the clean-up would panic.
- The second compression loop of a rotation: it looks for shifted files with number 1, and there are none.
- The error for an unsupported configuration format: every file name has a format, YAML by default. A failed write may leave a malformed temporary file, which is modelled as such.
- The locks of the file metadata store: UpdateMetadata takes a lock it already holds through SaveMetadata, so no progress is claimed through it; writes are an abstract log.
- Failures of the database, soft deletion, Upsert and Delete.
- The truncation of a PID to 32 bits in a report, and 64-bit overflow of latency totals, durations and counters.
- Which of several pending states for one agent is freshest after a failed round: older states overwrite newer ones.
- The cutoff filter of GetResourceHistory, floating-point rounding (averages are over the reals), and time before year 1 in truncation.
- Input/output counters and the list of details in the disk collector.
- Average latency of the heartbeat receiver, timestamps of heartbeats, and the read-modify-write of the metadata they update.
- Reconnection and state monitoring inside a daemon client; an error while closing it, which is only logged.
- Authentication, versions, tasks, audit, validators, paging, the legacy single-agent path and the web front end: library wrappers or one-branch claims.
