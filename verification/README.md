# Verified model of the durable-execution operator

This project models the parts of the operator that promise something about whole runs: the AgentJob reconcile
protocol, the write-ahead log and the recovery built on it, the warm pod pool, the checkpoint and artifact commit
protocols, and the older scheduler over the relational store. It proves those promises, and where the code does not
keep one it proves exactly when it does, or exhibits the run on which it fails.

Run `dafny verify dfyconfig.toml` in this directory to check everything.

## The parts

- **AgentJob protocol.** `Arith`, `Conditions`, `Cluster`, `ClusterSafety`, `Snapshot`, `ClusterTheorems`,
  `ClusterProgress`, `ClusterOutcome`, `JobReconciler` and `Recreation`. `Cluster` is a state machine: an API object is
  the list of its versions, one step of a reconciler makes at most one API write, any number of reconcilers run at once,
  each on job and attempt versions that may be arbitrarily old and mixed, and each may stop after any write. Pods move,
  vanish and are replaced, users raise MaxAttempts and cancel. `JobReconciler` is `Reconcile` itself, written as the
  controller runs it, against a class `ApiServer` that only accepts writes the protocol makes; undisturbed, one call is
  proved equal to the fault-free pass that the progress theorem is about; `ClusterOutcome` says what such a pass comes
  to by looking at the pod alone, and why an attempt ended in any run. These are about one incarnation of a job;
  `Recreation` runs the same reconcilers for a job created again under its old name, among the attempts and pods of the
  old incarnation.
- **Write-ahead log and recovery.** `Text`, `WalFormat`, `LogVolume`, `Wal`, `WalGap`, `Manifest`, `Recovery`, `FailStop`,
  `Retry`, `Runtime`, `Runner` and `JobRuns`. `LogVolume` says what each log file holds and how much of each is synced,
  and what a loss of power may leave. `Wal` has the files as text, the writer with its counters, rotation and sync, and
  the reader; `WalGap` the run that loses the log. `Recovery` is the machine of successive runs of a job body: steps may
  be called concurrently and in any order, each at most once per run, and a run ends by finishing, by a kill (nothing
  written is lost) or by a loss of power (any unsynced suffix of any file is lost). `JobRuns.Host` has the files and the
  runtime of one host, and every operation on it is a run of that machine.
- **Pool.** `Pool` says what the operations do to the pods and the creation order; `PoolManager` is the mutable manager.
- **Commits.** `Checkpoint`, `LatestCheckpoint`, `Artifacts` and `Commit`.
- **Scheduler.** `Scheduler`: one job in the store with one scheduler, any number of workers, and terminations, one database
  operation per step. `SchedulerExits` says how attempts end, `SchedulerHistory` tells the job's state by the order of events
  alone, and `SchedulerPasses` has the undisturbed passes of scheduler and worker.

## Assumptions

- A status update fails if the object changed since it was read; names of API objects are unique; UIDs and pool pod ids
  are never used twice.
- `apimeta.SetStatusCondition` replaces the condition of its type or appends it.
- SHA-256 is injective: a digest is represented by the data it was computed from, so no data contains its own digest.
- JSON decoding inverts encoding, an encoded log record is one non-empty line, and a JSON object cut short does not
  decode.
- What a loss of power leaves of a file is durable, and is a run of whole records from its beginning. A file that was
  created is there afterwards, even if it is empty.
- Reads and writes of files, objects and rows succeed, except where a crash or a stop is part of the statement.
- The clock, the results of step functions, the ends of waits and the observations of pods are parameters.

## Results that differ from what one might expect

- A step that a killed process completed but did not sync is trusted by the next run, and can be lost afterwards. What
  recovery finds complete is kept by every later run if and only if it is in the synced part of the log when it is read
  (`Recovery.FoundStaysIffSynced`, `Recovery.FoundCanShrink`).
- `NewWriter` leaves a full last file without syncing it. If a killed process had not synced that file, a later loss of
  power can take its end while records of the next file stay, and the log can never be read again
  (`WalGap.LostLog`). The log stays readable, whatever the writer does and whenever power is lost, if and only if the file
  was synced or not full when the writer was opened (`LogVolume.StaysReadableIff`, `Recovery.RunStaysReadableIff`).
- Log files are read in the order of their names, which is the order of their numbers if and only if there are fewer than
  10,000 (`Wal.NameOrderIff`, `Wal.ReadableInNameOrderIff`).
- The exponential backoff doubles a 64-bit number without a check. Every wait is the documented minimum if and only if
  the last doubling fits in 63 bits; otherwise some wait is negative (`Retry.BackoffExactIff`), and waits get shorter
  (`Retry.WaitsNeverShrinkIff`).
- The manifest's last completed step and the runner's agree if and only if no completed step that began before the
  last-begun one ended after it (`Runner.LastsAgreeIff`); a body that runs two steps at the same time reaches a log on which
  they do not (`Runner.OverlappingIsReached`, `Runner.LastCompletedMayDiffer`), a body that stops at the first error never
  does (`Runner.LastCompletedAgree`).
- A scale-down stops half way to the minimum, because its loop subtracts the removed pods twice (`Pool.ShrinkOk`); an
  idle pool therefore takes floor(log2 e) + 1 calls to lose an excess e (`PoolManager.ReachesMinimum`). The clean-up of
  terminating pods never finds one (`PoolManager.NoneTerminating`).
- The comment on `FSStore.Save` calls the commit atomic, but LATEST is truncated and rewritten in place: a save stopped
  there is all or nothing if and only if all digits are there or the checkpoint numbered by the digits that are there holds
  the old pair or the new one (`Checkpoint.TornLatestIff`). A negative sequence number saves a checkpoint that cannot be
  found (`Checkpoint.FinishedIsRestored`).
- A blob called `manifest.json` is stored under the manifest's own key: the finished commit then never validates
  (`Commit.CommitRoundTripIff`), and an unfinished one does if and only if that blob is a manifest that agrees with what has
  been uploaded (`Commit.InterruptedAcceptedIff`).
- A completed attempt does not always complete its job. The job is Completed if and only if some worker's report came in
  time: after the scheduler's first second write, with no second write between the last note that the job runs and the
  report, and before any other end (`SchedulerHistory.CompletedIffReportedInTime`). So a worker that is faster than the first
  pair of writes, or one that stops before it reports, leaves the job as it is for ever (`SchedulerHistory.FastFirstAttempt`,
  `SchedulerHistory.LostReport`, `SchedulerHistory.CompletedAttemptIff`), while a retried attempt may be faster than its pair
  (`SchedulerHistory.FastRetry`).
- A completed job need not have a completed attempt: an attempt timed out under its worker is reported all the same
  (`SchedulerHistory.CompletedJobIff`, `SchedulerHistory.TimedOutReport`).
- A scheduler that fails between the two writes of a retry does no harm. In the first pair, while the job is pending, the
  failure lets a second active attempt appear if and only if the first is still active, and too many attempts if and only
  if no retries are allowed or a worker can keep the first one going (`Scheduler.FailureIff`).
- The ownership check never fires within one incarnation of a job (`ClusterSafety.NeverDisowned`). It fires exactly when the
  snapshot lists an attempt of another (`Recreation.DisownsIff`). Getting or creating an attempt does not ask whose it is
  (`Recreation.AdoptsIff`), so a job created again can be completed if and only if nothing remains under the name of its
  first attempt (`Recreation.CanCompleteIff`); a pod that remains there is used, and can complete the new job
  (`Recreation.OldPodCompletesIff`).

## Model

| member | source | states |
|---|---|---|
| `Conditions.SetStatusCondition` | internal/state/job.go:14-23 | setting a condition in the stored list, in place or appended, is setting it in the map from types, and leaves one entry per type |
| `Conditions.IsTerminal` | internal/state/job.go:37-47 | the scan says true exactly when Complete or Failed is True |
| `Conditions.IsSucceeded` | internal/state/attempt.go:39-46 | the scan says true exactly when Complete is True |
| `Conditions.FirstVerdictWins` | internal/state/job.go:27-34 | over any sequence of updates, never both verdicts, and the first verdict stays as it is |
| `Snapshot.ValidateSnapshot` | internal/state/invariants.go:34-67 | accepts exactly the snapshots that pairwise have one active attempt at most, increasing ordinals and the job's UID, and otherwise reports the first broken rule |
| `ClusterSafety.ApplyKeeps` | internal/controller/job_controller.go:44-304 | every single step of any reconciler, user or kubelet, on any stale reads, keeps the protocol invariant and only extends object histories |
| `ClusterSafety.NeverDisowned` | internal/controller/job_controller.go:80-99 | within one incarnation of the job, no snapshot of any staleness contains a foreign child |
| `ClusterTheorems.AttemptsStayValid` | internal/controller/job_controller.go:44-304 | in every reachable state the snapshot is valid, ordinals are 1..k and k is at most max(1, MaxAttempts) |
| `ClusterTheorems.CountedOnce` | internal/controller/job_controller.go:163-234 | counters name the active attempt of a live job, and add up to the number of attempts when the job ends by success or exhausted retries |
| `ClusterTheorems.VerdictIsFinal` | internal/state/job.go:27-34 | never Complete and Failed together, and no later step changes the conditions of a job that has a verdict, cancellation included |
| `ClusterTheorems.VerdictIsFenced` | internal/controller/attempt_reconciler.go:89-148 | a job is Complete only if the pod with the very UID its attempt had recorded earlier was seen Succeeded |
| `ClusterProgress.MeasureNeverGrows` | internal/controller/job_controller.go:101-245 | nothing anybody does increases the progress measure while MaxAttempts stays |
| `ClusterProgress.FreshDecreases` | internal/controller/attempt_reconciler.go:37-164 | a fault-free reconcile that need not wait for a pod strictly decreases it |
| `ClusterProgress.EndsWithinBudget` | internal/controller/job_controller.go:101-245 | after 2M + 1 such reconciles, with anything in between, the job has its verdict, M being max(1, MaxAttempts) |
| `ClusterOutcome.PassComesTo` | internal/controller/job_controller.go:101-245 | an undisturbed pass over any reachable state: nothing if the job has ended, else one of the four outcomes below |
| `ClusterOutcome.FreshVerdict` | internal/controller/attempt_reconciler.go:103-164 | with a pod on record and no end yet: the job is Complete iff the pod there is the recorded one and Succeeded; the attempt is Failed iff the pod is gone, replaced or Failed, and then the job retries while it may and else is Failed; otherwise neither ends, and a started attempt shows in the job |
| `ClusterOutcome.FreshDecides` | internal/controller/job_controller.go:163-245 | an attempt that ended earlier: counted once; the job is Complete, names the next attempt, or is out of retries |
| `ClusterOutcome.FreshRecordsPod` | internal/controller/attempt_reconciler.go:56-101 | without a pod on record: the pod there under the attempt's name, or a new one, is recorded |
| `ClusterOutcome.FreshStarts` | internal/controller/job_controller.go:101-133 | without an active attempt: attempt 1 is there, named in the job, and the job is Scheduled |
| `ClusterOutcome.EndedBecause` | internal/controller/attempt_reconciler.go:37-164 | over every run, an attempt is Complete, or Failed, only because some reconciler read of its recorded pod that it Succeeded, or that it is gone, replaced or Failed |
| `ClusterOutcome.ReadDecides` | internal/controller/attempt_reconciler.go:103-164 | and such a read of the newest version gives that verdict, however old the job read with it |
| `ClusterOutcome.ReadRuns` | internal/controller/attempt_reconciler.go:118-131 | a read that the pod runs marks the attempt started, one that it is pending changes nothing |
| `ClusterOutcome.TakesPod` | internal/controller/attempt_reconciler.go:56-87 | whatever was read, no pod that is there is replaced, and the one in hand is the one read, a new one, or the one read after losing the race |
| `ClusterOutcome.CancelEndsIff` | internal/controller/cancel.go:24-43 | a cancel ends a live job at once iff it was read at its newest version |
| `JobReconciler.Reconcile` | internal/controller/job_controller.go:44-246 | every write of a call is a protocol step wherever it stops; an undisturbed call is the fault-free reconcile and has its outcome, told by the pod alone |
| `JobReconciler.ReconcileActive` | internal/controller/job_controller.go:135-161 | an active attempt is followed or decided as the protocol says, for the snapshot's versions |
| `JobReconciler.EnsurePod` | internal/controller/attempt_reconciler.go:37-87 | pod get-or-create and its recording are the two protocol steps |
| `JobReconciler.MarkAttempt` | internal/controller/attempt_reconciler.go:103-178 | the attempt is Complete if the recorded pod Succeeded, Failed if it is gone, replaced or Failed, started if it runs, and otherwise as before |
| `JobReconciler.ObservePod` | internal/controller/attempt_reconciler.go:89-164 | following a recorded pod makes that update in the protocol, or none, and says whether the attempt has ended |
| `JobReconciler.DecideTerminal` | internal/controller/job_controller.go:163-245 | success, retry and exhausted retries are the protocol's decision |
| `JobReconciler.RetryJob` | internal/controller/job_controller.go:185-227 | counting the failure, creating the next attempt and naming it are two protocol steps |
| `JobReconciler.CreateAttempt` | internal/controller/job_controller.go:255-304 | the ordinal is failed + completed + 1 and an existing attempt of that name is reused |
| `JobReconciler.DisownJob` | internal/controller/job_controller.go:80-99 | the ownership branch is the protocol's step |
| `Recreation.DoKeeps` | internal/controller/job_controller.go:44-304 | among remains of an old incarnation, every step of either keeps one owner per attempt, our attempts numbered from 1 without a gap, and a verdict only by our own |
| `Recreation.ForeignIsNotWritten` | internal/controller/attempt_reconciler.go:37-164 | the new incarnation never writes an attempt of the old one |
| `Recreation.OnlyOwnCompletes` | internal/controller/job_controller.go:163-180 | the job is Complete only by an attempt of its own incarnation whose recorded pod was seen Succeeded |
| `Recreation.AdoptsIff` | internal/controller/job_controller.go:255-304 | the next attempt is adopted from the old incarnation iff that one has its name |
| `Recreation.DisownsIff` | internal/controller/job_controller.go:80-99 | a pass over the newest job version fails it for its ownership iff the snapshot lists an attempt of the old incarnation |
| `Recreation.Blocked` | internal/controller/job_controller.go:255-304 | an ordinal held by the old incarnation stops the numbering there, in every run |
| `Recreation.CanCompleteIff` | internal/controller/job_controller.go:44-304 | some run completes the new job iff nothing remains under the name of its first attempt |
| `Recreation.OldPodCompletesIff` | internal/controller/attempt_reconciler.go:56-87 | and then a pod that remains there can be the one that completes it |
| `Text.AtoiItoa` | internal/checkpoint/fs.go:164-168 | parsing a printed number gives it back |
| `Text.AttemptNameInjective` | internal/controller/job_controller.go:255-304 | attempts of different ordinals have different names |
| `Text.SortStrings` | wal/reader.go:182-199 | the names in strictly increasing string order, each once |
| `WalFormat.ParseInvertsName` | wal/reader.go:178-205 | parseFileNum inverts walFileName exactly below 10,000 |
| `WalFormat.NamesInOrder` | wal/reader.go:178-199 | below 10,000, name order is number order |
| `WalFormat.ParseContents` | wal/reader.go:207-232 | scanning a file of encoded records gives the records, or fails if one line reaches the limit |
| `Wal.ReadWalFile` | wal/reader.go:207-232 | the line loop computes the scanner's meaning of the text |
| `Wal.ListWalFiles` | wal/reader.go:182-199 | the names of the files 1, 2, ..., k in string order, each once |
| `Wal.NameOrderIff` | wal/reader.go:178-199 | name order is number order iff there are fewer than 10,000 files |
| `Wal.ReadAll` | wal/reader.go:29-52 | on any log files: the records file by file in name order if they are numbered 1, 2, ..., else corrupt, or a too-long error if a line met before is over the limit |
| `Wal.ReadsBack` | wal/reader.go:29-52 | with fewer than 10,000 files and no gap: exactly the log in append order, or a too-long error exactly when a line is over the limit |
| `Wal.ReadableInNameOrderIff` | wal/reader.go:29-52 | a log without a gap whose files all hold something is accepted in name order iff there are fewer than 10,000 |
| `Wal.LastSeq` | wal/reader.go:234-247 | the number of records in the log |
| `Wal.FilesWithinLimit` | wal/writer.go:81-97 | no file of a readable log exceeds 10 MiB |
| `LogVolume.CutReadable` | wal/writer.go:109-116 | a log that can be read after a loss of power is a prefix of the log before and holds everything up to the last synced record |
| `LogVolume.CutSealed` | wal/writer.go:100-116 | it can be read if all files but the last were synced |
| `LogVolume.StaysReadableIff` | wal/writer.go:26-71 | whatever a writer writes, rotates and syncs, the log can be read after a loss of power at any time iff it did not leave an unsynced full file behind |
| `Wal.Disk.Crash` | wal/writer.go:109-116 | a loss of power leaves in every file some records from its beginning, the synced ones among them |
| `Wal.NewWriter` | wal/writer.go:26-71 | resumes without changing the log or making anything durable, in a new file iff the last is full; fails exactly when the log cannot be read; with 10,000 files or more the writer does not agree with the disk |
| `WalGap.LostLog` | wal/writer.go:26-71 | the run on which the log is lost: a full file left unsynced by a kill, an end record synced in the next file, a loss of power, and the reader reports corruption |
| `Wal.ResumePoint` | wal/writer.go:38-60 | the last file if it is below the limit, else the next |
| `Wal.Writer.Append` | wal/writer.go:74-106 | adds exactly this record at the end, across a rotation too, and keeps what was durable |
| `Wal.Writer.StepBegin` | wal/writer.go:119-130 | appends the begin record with the next number |
| `Wal.Writer.StepEnd` | wal/writer.go:133-154 | appends the end record and syncs the file it is in |
| `Wal.Writer.StepRetry` | wal/writer.go:157-176 | the same for a retry |
| `Wal.Writer.StepTimeout` | wal/writer.go:179-198 | the same for a timeout |
| `Wal.Writer.JobCancelled` | wal/writer.go:201-219 | the same for a cancellation |
| `Manifest.Summarise` | wal/reader.go:62-111 | the one-pass map-and-order loop computes the fold of the records |
| `Manifest.BuildManifest` | wal/reader.go:56-112 | that fold over what the reader gives, failing exactly when the reader fails |
| `Manifest.ManifestMeaning` | wal/reader.go:68-109 | a step is listed iff its last begin-or-end record is an end with exit 0 after a begin, once, with that end's number and output, in first-begin order |
| `Manifest.OthersDoNotMatter` | wal/reader.go:74-97 | retry, timeout and cancel records never change the list |
| `Recovery.FoundIsDone` | runtime/runtime.go:41-55 | in every reachable log, what recovery loads is exactly the steps with an end record |
| `Recovery.ApplyKeeps` | runtime/step.go:46-80 | every action keeps the log well formed or unreadable for good: nothing begins or ends a step after its end |
| `Recovery.SyncedEndIsKept` | wal/writer.go:133-154 | when the sync of an end returns, no crash takes the end from a log that can be read |
| `Recovery.StaysReadable` | wal/writer.go:26-71 | if every start finds the last file synced or not full, the log can be read after any kills and losses of power |
| `Recovery.RunStaysReadableIff` | wal/writer.go:26-71 | one start, then anything through the end of its run: the log can be read throughout iff the start found its last file synced or not full |
| `Recovery.DurableStepsAreNotRepeated` | runtime/step.go:46-80 | once an end is durable, no later run calls that step, through any kills and losses of power, and the durable set only grows while the log can be read |
| `Recovery.CallsAreUnfinished` | runtime/step.go:46-80 | a step's function is only ever called while the log has no end of it |
| `Recovery.FoundOnlyGrowsFromInit` | runtime/runtime.go:41-55 | if no process is killed, what each start finds complete only grows |
| `Recovery.FoundStaysIffSynced` | wal/writer.go:26-71 | with kills: what a start finds is found by all later starts iff the records that prove it are synced |
| `Recovery.FoundCanShrink` | wal/writer.go:133-154 | a reachable state in which they are not |
| `FailStop.CompletedArePrefix` | wal/reader.go:99-109 | for a body that stops at the first error, through any crashes, the list of a log that can be read is a prefix of the program in order, with increasing numbers |
| `Retry.Execute` | protect/retry.go:35-80 | the outcome, also in plain terms of MaxAttempts, RetryOn and the function: when calling stops and why, each wait, one retry record per retry with numbers 2, 3, ..., and attempts equal to calls |
| `Retry.OutcomePlainly` | protect/retry.go:35-80 | called until success, an error not to retry, MaxAttempts calls or a wait cut short; without backoff every wait is the initial delay |
| `Retry.OutcomeUnique` | protect/retry.go:35-80 | those conditions leave exactly one outcome |
| `Retry.BackoffExactIff` | protect/retry.go:60-67 | each wait is InitialDelay * 2^(k-1), or a positive MaxDelay below that, iff the last doubling does not overflow; if it does, some wait is negative |
| `Retry.WaitsNeverShrinkIff` | protect/retry.go:60-67 | waits never get shorter iff there is no overflow |
| `Runtime.IndexSteps` | runtime/runtime.go:50-54 | the maps hold exactly the listed steps with their outputs |
| `Runtime.New` | runtime/runtime.go:28-72 | in recovery mode what the manifest lists is loaded, else nothing; the log is unchanged; fails exactly when a line is too long or, in recovery mode, the reader refuses the log |
| `Runtime.Runtime.Step` | runtime/step.go:34-98 | a loaded step is skipped without a call or a record; otherwise the log gets, record by record, a begin, the retries numbered from 2, and an end with exit 0 iff there was no error or a timeout iff the deadline passed, both durable on return, and nothing more |
| `Runtime.StepIsRun` | runtime/step.go:64-88 | a step's records, files and calls are those of a run of the recovery machine, which contains a timeout iff the deadline passed and a synced end iff there was no error |
| `JobRuns.Host.Start` | runtime/runtime.go:28-72 | starting is the machine's start, and loads exactly what it finds complete |
| `JobRuns.Host.Step` | runtime/step.go:34-98 | a step is a run of the machine; a step whose end is synced is not called |
| `JobRuns.Host.Close` | runtime/runtime.go:118-125 | closing is the machine's end of a run |
| `JobRuns.Host.LosePower` | wal/writer.go:109-116 | a loss of power is the machine's, file by file |
| `Runner.Runner.HandleStepBegin` | internal/runner/runner.go:185-207 | cached output and no record for a loaded step, else a begin record and its number |
| `Runner.Runner.HandleStepEnd` | internal/runner/runner.go:209-227 | a durable end record with the digest of the output |
| `Runner.Runner.LastCompletedStep` | internal/runner/runner.go:121-135 | a loaded step with the greatest number, whatever the map order |
| `Runner.LastCompletedAgree` | internal/runner/runner.go:127-135 | for a body that stops at the first error it is the manifest's last step, the last complete step of the program |
| `Runner.LastsAgreeIff` | internal/runner/runner.go:121-135 | on any log recovery can meet the two agree iff no completed step that began before the last-begun one ended after it |
| `Runner.OverlappingIsReached` | internal/runner/runner.go:121-135 | a run of two overlapping steps from the first start reaches such a log |
| `Runner.LastCompletedMayDiffer` | internal/runner/runner.go:127-135 | on which the manifest names one and the runner the other |
| `Pool.GrowOk` | internal/pool/pool.go:90-103 | creating pods keeps map and order in agreement and adds only new idle ones |
| `Pool.ShrinkOk` | internal/pool/pool.go:257-275 | exactly min(idle, half the excess rounded up) pods go, the oldest idle ones, never below the minimum |
| `Pool.ReconciledOk` | internal/pool/pool.go:188-279 | for any demand and thresholds: map and order agree, the bounds hold, claimed pods are untouched |
| `Pool.ReconciledIs` | internal/pool/pool.go:221-279 | a burst adds max(0, min(demand - idle, room)) new idle pods; else, cooldown over, a step of them below the lower threshold, and above the upper one half the excess goes, oldest idle first; nothing else changes |
| `Pool.BurstMeetsDemand` | internal/pool/pool.go:226-236 | after a burst the demand is met or there is no room |
| `PoolManager.Manager.constructor` | internal/pool/pool.go:79-88 | MinSize idle pods |
| `PoolManager.Manager.Claim` | internal/pool/pool.go:105-134 | takes the idle pod before which none in the list is idle, one no claim in the whole history took before, or counts a miss iff none is idle; claims are successes plus misses |
| `PoolManager.Manager.Release` | internal/pool/pool.go:136-160 | removes the pod and appends a new one, the size unchanged; nothing for an unknown id |
| `PoolManager.Manager.GetStatus` | internal/pool/pool.go:162-186 | the counts, and ready iff a claim would succeed |
| `PoolManager.Manager.CleanUp` | internal/pool/pool.go:192-219 | removes the terminating pods from map and order |
| `PoolManager.NoneTerminating` | internal/pool/pool.go:192-219 | which in any valid pool is nothing |
| `PoolManager.Manager.RemoveIdle` | internal/pool/pool.go:257-275 | the scale-down loop computes Shrink |
| `PoolManager.Manager.Reconcile` | internal/pool/pool.go:188-279 | burst, scale-up and scale-down are as above, each counted and timed iff it happened; claimed pods stay as they are |
| `PoolManager.ExcessHalves` | internal/pool/pool.go:226-275 | each call on an idle pool halves the excess, rounding down |
| `PoolManager.ReachesMinimum` | internal/pool/pool.go:226-275 | the minimum is reached after exactly floor(log2 e) + 1 calls and kept |
| `Checkpoint.FSStore.Save` | internal/checkpoint/fs.go:41-77 | the files after a save cut short anywhere, or finished |
| `Checkpoint.FSStore.Restore` | internal/checkpoint/fs.go:81-120 | follows LATEST and checks the hash |
| `Checkpoint.FinishedIsRestored` | internal/checkpoint/fs.go:41-120 | a finished save is what is restored, its manifest changed in the hash alone, iff its number is not negative |
| `Checkpoint.SaveIsAtomic` | internal/checkpoint/fs.go:41-120 | a save under another number, cut anywhere before LATEST, leaves the previous pair; finished, the new one |
| `Checkpoint.SameSaveIsOldNewOrBroken` | internal/checkpoint/fs.go:41-120 | a save under the same number leaves the old pair, the new one, or a reported failure |
| `Checkpoint.TornLatest` | internal/checkpoint/fs.go:68-74 | cut in LATEST, a restore fails or goes to the checkpoint numbered by the digits that are there |
| `Checkpoint.TornLatestIff` | internal/checkpoint/fs.go:68-74 | so it is all or nothing iff all digits are there or that checkpoint holds the old or the new pair |
| `Checkpoint.RestoredWasSaved` | internal/checkpoint/fs.go:93-119 | after any saves cut short anywhere, a restored workspace and manifest come from one and the same save, the manifest changed in the hash alone |
| `Checkpoint.OthersStay` | internal/checkpoint/fs.go:41-77 | a save, wherever it stops, leaves the other checkpoints as they are |
| `LatestCheckpoint.ParseInvertsKey` | internal/runner/checkpoint.go:92-112 | parsing a checkpoint key gives back the ordinal and number it was printed from iff they fit in 32 and 64 bits, and else skips it |
| `LatestCheckpoint.JunkIsSkipped` | internal/runner/checkpoint.go:92-112 | a key with no part for the ordinal, or with one that is no number, is skipped |
| `LatestCheckpoint.Latest` | internal/runner/checkpoint.go:73-127 | a key whose numbers no parsing key exceeds, or none if none parses |
| `LatestCheckpoint.LatestIsGreatest` | internal/runner/checkpoint.go:56-127 | after any uploads: no ordinal exceeds the chosen one, and no number of that ordinal the chosen number |
| `LatestCheckpoint.KeysSortDifferently` | internal/runner/checkpoint.go:118-124 | string order would choose another |
| `Artifacts.KeyInjective` | internal/artifact/keys.go:12-14 | different files of an attempt have different keys |
| `Artifacts.HashIgnoresOrder` | internal/artifact/commit.go:27-40 | the overall hash does not depend on the order of entries with distinct keys |
| `Artifacts.HashIs` | internal/artifact/commit.go:27-40 | the overall hash is the digest of the content hashes, one for each entry, in key order |
| `Artifacts.SameHashIff` | internal/artifact/commit.go:27-40 | two lists have the same overall hash iff their content hashes in key order are the same |
| `Commit.ContentHash` | internal/artifact/commit.go:27-40 | computes the digest of the content hashes in key order |
| `Commit.CommitArtifacts` | internal/artifact/commit.go:50-113 | the store after any number of uploads; when it finishes, the manifest lists each blob once with its key and digest and nothing else, and the store holds it and the blobs |
| `Commit.ValidateCommit` | internal/artifact/commit.go:121-185 | accepts exactly a stored manifest all of whose entries match the store and whose overall hash is right, so every listed object holds the bytes that were hashed |
| `Commit.TamperedIsRejected` | internal/artifact/commit.go:176-182 | a manifest that keeps a commit's overall hash but drops or adds entries, or lists other digests under the same keys, is rejected, whatever the store holds |
| `Commit.CommitRoundTripIff` | internal/artifact/commit.go:50-185 | a finished commit validates to the same manifest iff no blob is called manifest.json |
| `Commit.InterruptedAcceptedIff` | internal/artifact/commit.go:74-110 | a first commit stopped anywhere is accepted iff a blob uploaded so far is called manifest.json and is a manifest that agrees with what is uploaded |
| `Commit.InterruptedIsRejected` | internal/artifact/commit.go:74-110 | so never without such a blob |
| `Commit.InterruptedCanBeAccepted` | internal/artifact/commit.go:74-110 | and an empty manifest is such a blob |
| `Commit.OtherAttemptUndisturbed` | internal/artifact/keys.go:12-26 | a commit of one attempt does not change the validation of another |
| `Scheduler.ApplyKeeps` | internal/scheduler/reconciler.go:89-224 | every database operation of scheduler, workers and API keeps the invariant |
| `Scheduler.AtMostOneActive` | internal/store/store.go:246-368 | over every interleaving, with the scheduler failing anywhere but inside the first pair of writes: at most one new or executing attempt, at most MaxRetries + 1 attempts, each executed by one worker at most, transition logs are paths through the tables to the current state |
| `Scheduler.FailureIff` | internal/scheduler/reconciler.go:122-131 | in any such state between two writes: which failures let a second active attempt appear, and which let there be too many |
| `Scheduler.EndIsFinal` | internal/model/model.go:23-43 | a job that has ended stays as it is |
| `SchedulerExits.EndedIff` | internal/worker/worker.go:349-367 | over every run, an attempt is Completed iff its process exited with 0 while it was executing, Failed iff otherwise, TimedOut iff it was found stale first |
| `SchedulerExits.ReportedExitedZero` | internal/worker/worker.go:360-363 | a worker has a result to report only after its process exited with 0 |
| `SchedulerExits.NonzeroExit` | internal/worker/worker.go:349-367 | any other exit frees the worker, fails an executing attempt and leaves the job |
| `SchedulerPasses.PendingIsScheduled` | internal/scheduler/reconciler.go:89-134 | a pending job gets its first attempt and is Scheduled |
| `SchedulerPasses.FailedIsRetried` | internal/scheduler/reconciler.go:136-179 | a running job whose last attempt failed is retried while attempts are left, else Failed |
| `SchedulerPasses.StaleIsRetried` | internal/scheduler/reconciler.go:181-224 | an attempt found stale is TimedOut and retried likewise |
| `SchedulerPasses.WorkerLife` | internal/worker/worker.go:82-110 | an undisturbed worker executes a new attempt, and completes attempt and job on exit 0, else fails the attempt alone |
| `SchedulerPasses.FailedOnlyIfUsedUp` | internal/scheduler/reconciler.go:136-224 | over every run, a job is Failed only when MaxRetries + 1 attempts were made and each failed or timed out |
| `SchedulerPasses.TerminateEnds` | internal/api/server.go:200-222 | a termination ends a job that has not ended, for good, and never changes one that has |
| `SchedulerHistory.CompletedIffReportedInTime` | internal/worker/worker.go:360-367 | over every interleaving the job is Completed iff a worker whose process exited with 0 reported after the first second write, with no second write since the last note, and before any other end |
| `SchedulerHistory.OverForever` | internal/worker/worker.go:360-367 | when the attempt is over and everybody done, only a termination changes the job again |
| `SchedulerHistory.CompletedAttemptIff` | internal/worker/worker.go:360-367 | so a completed attempt completes its job, for good, iff such a report came; otherwise the job stays as it is |
| `SchedulerHistory.OwnReportIff` | internal/worker/worker.go:94-97 | a worker's own note and report complete the job iff the first second write came before the note and none came between the two |
| `SchedulerHistory.CompletedJobIff` | internal/worker/worker.go:360-362 | a completed job was reported by a worker whose process exited with 0, and has a completed attempt iff that worker's attempt was not timed out, or a later one completed |
| `SchedulerHistory.FastFirstAttempt` | internal/worker/worker.go:94-97 | a run that leaves the job Scheduled, its attempt completed |
| `SchedulerHistory.LostReport` | internal/worker/worker.go:360-362 | a run that leaves the job Running, its attempt completed |
| `SchedulerHistory.FastRetry` | internal/scheduler/reconciler.go:204-222 | a run on which a retried attempt is over before the second write, and completes the job |
| `SchedulerHistory.TimedOutReport` | internal/worker/worker.go:360-362 | a run on which the job is completed and no attempt is |

## Left out

- Events, metrics, log lines, spans, SpecHash, start and completion times, exit codes of pods, retry delays and requeue
  results of the controller: no effect on the decisions modelled.
- Pods and attempts are named by their ordinal; label lookups are by that name. Deletion and replacement of pods are
  modelled; deletion of a job is modelled by what it leaves behind (`Recreation`), and deletion of single attempts, by a user
  or by the collector of orphans, is not.
- `LoadJobSnapshot`'s sort and `NextOrdinal`: the snapshot is a map from ordinals here.
- `JobReconciler.ApiServer.Others`: leaves the state alone; its contract, and so everything proved about its callers,
  allows any steps of others.
- Wal: failed or partial writes (which use up a number), and directory entries that are not synced. A file loses whole
  records, not parts of a line.
- `Wal.NewWriter`: stated for a log without a gap. On one with a gap it goes on after the greatest number, and only the
  reader refuses the log. With 10,000 files or more what its writer then does to the files is not modelled.
- `Runtime.New`: stated for a log without a gap; with 9,999 files or more its writer need not agree with the disk.
- `JobRuns.Host.Start`: stated for fewer than 9,999 files.
- `Recovery`: a start that fails because the log has a gap may leave an empty file behind, which changes nothing. Runs
  outside recovery mode load nothing and are not actions of the machine.
- `Recovery.Action`: the runner's end records with an exit code other than 0 are not actions of the machine;
  `Runner.Runner.HandleStepEnd` and `Manifest.ManifestMeaning` cover them.
- `Recovery.State`: one process at a time works on a log, and each run uses a step id at most once.
- `Runtime.Runtime.Step`: step options are merged by the caller; the step's and the job's contexts are parameters.
- `Runner`: the comma-separated list of step ids and the JSON of outputs in the environment, and the hook transport.
- Pool: image, runtime class and times of a pod, and the reference to the pod that `Claim` hands out, through which a
  caller could change the pod behind the manager's back. Thresholds and
  ratios are exact reals.
- Checkpoint: packing and unpacking of the workspace, which is a string of bytes here.
- Commit: sizes of artifacts; entries with equal keys are sorted stably, which the library sort does not promise.
- Scheduler: several jobs (a worker may claim any new attempt), heartbeats (any executing attempt may be found stale),
  and the use of the pool by scheduler and worker. The actors are a state machine on values rather than classes,
  because their interleaving is the point.
- Admission, isolation levels, HTTP and gateway handlers, the S3 and Docker clients, pod builders, policies, and the
  experiment and report programs.
