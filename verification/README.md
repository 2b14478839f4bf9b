# Verified model of the vpsops execution daemon and CLI

vpsops runs commands on servers for an operator: a daemon (`aiops-execd`, Go) accepts run
requests over HTTP, executes them as jobs and keeps their results; a CLI (`bin/aiops`, Python)
sends batches and gated plans to many hosts. This project models the parts of both whose
correctness depends on state, order and interleaving, and proves what they promise.
`dafny verify dfyconfig.toml` checks all of it.

## The pieces

**Jobs** (`Lifecycle`, `Protocol`, `Invariant`, `Reachability`, `History`, `JobLifecycle`).
`Lifecycle` gives, as functions on a table (all job objects ever admitted, the jobs map, the
idempotency and lock indexes, the slot semaphore), what each critical section of
`job_lifecycle.go` does. `JobLifecycle` is the same code on objects: a class per Go struct whose
methods are proved against those functions. `Protocol` is the daemon as a transition system over
the same functions. Each admitted job has a runner with a program counter that follows `runJob`;
one event is one critical section with what it does to the store, or one store access outside of
any, and a run is any sequence of enabled events, so it is any interleaving of submissions,
cancels, runners and cleanups. The scans of
`protectedIDs` and `pruneMemory` look at `done` channels without holding the jobs' own mutexes,
so what they see is nondeterministic within what the channels guarantee. `Invariant` and
`Reachability` prove one inductive invariant over all runs; the theorems in `Ledger`,
`Guarantees`, `Retries`, `SweepSafety` and `Survival` are stated for every reachable state or every
run. `KeyedPlan` composes the CLI's gated plan with the daemon's retries.

**What can be lost** (`ExactRuns`, `RunnerSteps`, `Exposure`, `Losses`, `Survival`, `Scenarios`).
For the theorems about every run the protocol's listings may miss directories and its clock may go
back, so they hold for more than the daemon does. What can happen is shown with `Exact` runs only: every
cleanup lists every directory, and times never decrease. `RunnerSteps` shows that any runner can go
on to its release whatever else is going on, so with two slots one can always be freed; `Exposure`
says which cleanups threaten a job; `Losses` builds the runs in which they carry it out; `Survival`
puts both halves together.

**Retention** (`Retention`, `RetentionTheorems`, `RetentionTies`, `RetentionPlans`, `RetentionRules`, `CleanupPasses`,
`Sorting`, `JobStore`). The three greedy passes of `Cleanup` are loops proved to produce a plan in the sense of the
declarative predicate `IsPlan`. Sorting promises an ordered permutation and nothing about ties,
and the theorems hold for every plan the ties allow. `RetentionRules` says what a plan is in the
terms of the settings: days, jobs and bytes.

**Login limiter** (`AuthLimiter`). Timestamp slices share buffers, are compacted in place,
appended to and cut. The class carries a ghost log of all calls, and its answers are proved equal
to those of a limiter that forgets nothing.

**Output capping** (`Capped`), **step events** (`StepEvents`), **gated plans** (`FleetPlan`),
**request normalisation** (`Normalize`, `Paths`, `Utf8`, `Patterns`), **index keys** (`IndexKey`).
`EventObjects`, `Utf8` and `Patterns` tie texts, sizes and name checks to JSON objects, to UTF-8 and to
the regular expressions of the source.

## What turned out to need a condition

- A cancel that first arrives between the runner's check and the publication of the result is
  answered as canceled, but on every run the child's result is what is saved, audited and
  published (`Guarantees.LateCancelIsLost`). A run in which this happens exists for any settings,
  submission and child (`Scenarios.SomeCancelIsLost`).
- A cleanup can remove the directory of an unfinished job. For every configuration, an unfinished
  job is sure of its directory exactly if no cleanup that is removing directories has it on its list,
  and every cleanup between its snapshot and its listing took the snapshot after the job was admitted,
  or no rule can hit the job (`Survival.DirectoryStaysIff`). A rule can hit it if there is an age or a
  byte limit, or a count limit and either a second slot, so that newer directories can come, or
  MaxJobsRetained other directories that may be listed as no older.
- Such a cleanup also makes the daemon forget the job, and then with a second slot a retry with its
  idempotency key is executed beside it. `Survival.MemoryStaysIff` and `Survival.RunsAloneIff` say
  exactly when neither can happen; `Scenarios.SomeKeyRunsTwice` is the run in which it does.
- A request is answered only with jobs of its own token, on every run, exactly if no configured
  token id is another one followed by a colon and text that begins with a letter or digit
  (`Retries.ReuseIsOwnIffSeparated`).
- A second cleanup is sure to delete nothing more exactly if no unprotected directory has the age
  of a protected one (`RetentionTies.SecondCleanupIff`).
- A gated plan sends one idempotency key with every command. It can run to its end with two
  different commands for a host only if the host's daemon forgot the first one's job before the
  second arrived, by cleanup or restart (`KeyedPlan.KeyedPlanNeedsForgetting`).
- The inline truncation flag alone tells whether stdout is complete exactly if the log limit is
  above the inline limit (`Capped.InlineFlagSuffices`).
- A step's output comes back from the scan whatever step follows exactly if every event prefix in it
  is followed by a whole line that does not decode and it does not end inside a prefix
  (`StepEvents.PassesIff`). An output without a prefix does so exactly if it does not end in
  the prefix's stem, or the stem and one underscore (`StepEvents.ClearIff`).
- If the clock goes back, the limiter can let a failure pass that a limiter with full memory
  would not (`AuthLimiter.ClockMustNotGoBack`).

## Model

| member | source | states |
|---|---|---|
| Ledger.PrepareRefinesLedger | internal/execd/job_lifecycle.go:126-189 | After every run from a fresh start, the verdict prepareJob reaches through its four indexes (reused, conflict, lock busy, executor busy, store error, admitted) is the one a scan of the plain list of admitted jobs gives. The list follows the run without looking at the indexes. |
| Ledger.VerdictAgrees | internal/execd/job_lifecycle.go:129-152 | In any state satisfying the invariant and any list that tracks it, index verdict and list verdict are equal for every request. |
| Ledger.StepTracks | internal/execd/server.go:157-188 | Simulation step: whatever happens next, the list updated on its own still holds every admitted job once, with its current phase. |
| Ledger.RunTracks | internal/execd/server.go:157-188 | The simulation holds along every run. |
| Reachability.StepKeepsInv | internal/execd/job_lifecycle.go:126-323 | Every event of every interleaving keeps the invariant relating job objects, runners, indexes, semaphore, disk and cleanups. |
| Reachability.RunKeepsInv | internal/execd/server.go:157-188 | So does every run. |
| History.RunFollows | internal/execd/job_lifecycle.go:35-73 | What no run undoes: identity, start time, accepted cancels, published results, the runner's progress, child result and cancel check, a directory or memory entry once gone. |
| Guarantees.LockExclusion | internal/execd/job_lifecycle.go:138-145 | In every reachable state at most one unfinished job exists per lock key, and the lock index names it, also after a finished holder was superseded and released late. |
| Guarantees.LockEntriesAreLive | internal/execd/job_lifecycle.go:202-209 | Every lock entry names a job with that key whose slot has not been released. |
| Guarantees.SlotConservation | internal/execd/job_lifecycle.go:146-150 | In every reachable state the semaphore holds exactly one token per admitted, unreleased job, at most as many as there are slots; unfinished jobs fit the slots; a runner about to release never finds the semaphore empty. |
| Guarantees.FailedPrepareFrame | internal/execd/job_lifecycle.go:126-180 | A preparation that admits nothing leaves job objects, jobs map, idempotency index and semaphore as they were, and forgets at most a lock whose holder has finished, which it does unless the idempotency lookup answers first. |
| Guarantees.JobStates | internal/execd/job_lifecycle.go:35-73 | In every reachable state done is closed at most once and exactly if a result is set; the state is the result's, else canceled if a cancel was requested, else queued or running; the cancel function has been called exactly if one is bound and a cancel was requested, in either order of arrival, or the runner has returned. |
| Guarantees.PublishedIsFinal | internal/execd/job_lifecycle.go:35-44 | Along every run a published result, its state and the single closing of done never change. |
| Guarantees.EarlyCancelDecides | internal/execd/server.go:169-181 | If a cancel is accepted before the runner's check, then on every run what is saved, audited and published is canceled with exit code -1 and the fixed error text, with job id, time-out flag and finishing time as the child returned them. |
| Guarantees.CheckDecides | internal/execd/server.go:170-181 | On every run behind the check the runner holds, and what is saved, audited and published is, the child's result field by field: job id, time-out flag and finishing time unchanged; state, exit code and error replaced exactly if a cancel had been accepted by then. |
| Guarantees.LateCancelIsLost | internal/execd/server.go:170-181 | From every reachable state in which the runner is past the check, the result is not yet published and no cancel was requested: a cancel is accepted and shown, and on every run after it what is saved, audited and published is the child's result. |
| Scenarios.SomeCancelIsLost | internal/execd/server.go:157-188 | Such a run exists, as the daemon performs it from an empty directory, for any settings with a slot, any keyless submission and any child result. |
| Guarantees.LookUpsAgree | internal/execd/server.go:210-219 | Once a memory-or-disk lookup has returned a result, every later one that returns one returns the same, across publication, pruning and cleanups, whatever each of them had found in memory in its first step. |
| Guarantees.LookUpAnswers | internal/execd/server.go:210-219 | In every reachable state a lookup by memory answers exactly from the publication on, one by disk exactly while the directory holds a result, each with the outcome of the runner's check. |
| Guarantees.PublishedAnswers | internal/execd/server.go:210-214 | Once a job is published, on every run every later lookup by memory returns that result. |
| Guarantees.SavedAnswers | internal/execd/server.go:175-177 | Once result.json was saved, on every run every later lookup by disk returns that outcome for as long as the directory is there. |
| Guarantees.AuditedStays | internal/execd/server.go:178-180 | Once the audit entry was written, it stays on every run, with that outcome. |
| Guarantees.MetadataTells | internal/execd/job_lifecycle.go:163-180 | In every reachable state metadata.json of an admitted job, while its directory is there, holds id, token, privilege, remote, keys and hash of the submission and the job's start time. |
| Guarantees.RecordsAgree | internal/execd/server.go:175-181 | In every reachable state the result in memory, the one in result.json and the audit entry agree wherever two of them exist. |
| Guarantees.AccessIsOwnership | internal/execd/job_lifecycle.go:241-253 | For jobs admitted since the start: whenever an access check answers, by memory or by disk, the answer is whether the asking token submitted the job (or may see everything). |
| Guarantees.AccessAnswers | internal/execd/job_lifecycle.go:241-253 | And there is an answer: by memory always, by disk exactly while the directory has metadata, and yes for a token that may see everything. |
| Guarantees.AccessStays | internal/execd/job_lifecycle.go:241-253 | For every directory, also those found at the start: an answer to a token never changes along any run, whether it comes from memory or from disk. |
| Retries.RetainedJobAnswers | internal/execd/job_lifecycle.go:129-137 | From admission until pruning, every submission with the job's index key gets that job if the hashes agree and a conflict if not, however busy the daemon is. |
| Retries.AnsweredIffRetained | internal/execd/job_lifecycle.go:129-137 | In every reachable state a submission is answered with reuse or conflict exactly if some job in memory has its index key. |
| Retries.OneJobPerKey | internal/execd/job_lifecycle.go:181-187 | No two jobs in memory have the same index key, in any reachable state. |
| Retries.ReuseStaysWithinToken | internal/execd/job_lifecycle.go:321-323 | If no configured token id extends another, a reused job was submitted by the same token under the same idempotency key and hash, after every run. |
| Retries.ReuseAcrossTokens | internal/execd/job_lifecycle.go:321-323 | An instance of the failure: tokens a and a:b, the second answered with the first one's job. |
| Retries.ReuseIsOwnIffSeparated | internal/execd/job_lifecycle.go:129-137 | For any set of valid token ids: on every run with these tokens every reused job was submitted by the asking token, exactly if no id extends another. |
| IndexKey.CollisionIffExtension | internal/execd/job_lifecycle.go:321-323 | The joined key of two distinct valid token ids can collide exactly if one is the other, a colon, and text beginning with a letter or digit. |
| IndexKey.JoinInjective | internal/execd/job_lifecycle.go:321-323 | Over separated token ids the joined key determines token and idempotency key. |
| SweepSafety.SnapshotProtects | internal/execd/job_lifecycle.go:255-274 | A job in memory and unfinished at a cleanup's snapshot is never among that cleanup's victims, whatever interleaves. |
| SweepSafety.RemovedDirectory | internal/execd/job_lifecycle.go:255-262 | A cleanup never removes a protected directory, and that of an unfinished job only if the job was admitted after the snapshot. |
| Survival.DirectoryStaysIff | internal/execd/job_lifecycle.go:255-262 | For every configuration and reachable state: an unfinished job with a directory keeps it until it finishes, on all runs with whole listings and a clock that does not go back, exactly if no cleanup that removes directories has it on its list and every cleanup between snapshot and listing knows the job or no rule can hit it. A rule can: any age or byte limit; a count limit with two slots; a count limit with MaxJobsRetained other directories without metadata or no older. |
| Survival.DirectoryStays | internal/execd/job_lifecycle.go:255-262 | That condition suffices on all runs of the protocol, whose listings may also miss directories, against all cleanups under way and to come. |
| Survival.DirectorySurvives | internal/execd/job_lifecycle.go:255-262 | A corollary: it suffices that every cleanup under way took its snapshot after the admission. |
| Survival.MemoryStaysIff | internal/execd/job_lifecycle.go:276-319 | For every configuration: an unfinished job in memory stays there until it finishes, on all such runs, exactly if no cleanup under way can get at its directory or has removed it. |
| Survival.MemoryStays | internal/execd/job_lifecycle.go:276-319 | That condition suffices on all runs of the protocol. |
| Survival.RunsAloneIff | internal/execd/job_lifecycle.go:129-189 | For every configuration: no submission with the key of an unfinished job in memory is ever admitted beside it, on all such runs, exactly if there is one slot only or the same condition holds. |
| Exposure.StepExposesNothing | internal/execd/jobstore.go:179-241 | Whatever happens while a job is unfinished, no step makes a rule able to hit its directory that could not before: with one slot nothing newer can come. |
| RunnerSteps.Advances | internal/execd/server.go:157-188 | From any state satisfying the invariant a runner can go on to any point up to its release, with any child result, changing nothing but its job, its files, its lock and its slot. |
| RunnerSteps.FreesSlot | internal/execd/job_lifecycle.go:202-209 | With two slots, all taken, a run leads to a free one with any given job, the cleanups, the directories and the indexes as they were. |
| Losses.DirectoryCanGo | internal/execd/jobstore.go:168-254 | For every cleanup in reach of the directory of an unfinished job, at any time, a run with whole listings on which it removes that directory. |
| Losses.JobCanBeForgotten | internal/execd/job_lifecycle.go:276-319 | And one on which its prune drops the job from memory and from the idempotency index. |
| Scenarios.SomeDirectoryIsLost | internal/execd/job_lifecycle.go:255-262 | For any settings with an age or byte limit, or a count limit and two slots, a run exists from an empty directory, with whole listings and a clock that does not go back, in which a cleanup removes the directory of a job that has not finished. |
| Scenarios.SomeKeyRunsTwice | internal/execd/job_lifecycle.go:129-189 | With two slots and some limit, such a run exists in which two unfinished jobs carry the same submission, with the same token and idempotency key. |
| SweepSafety.PruneDropsFinishedOrUnknown | internal/execd/job_lifecycle.go:276-319 | A job dropped from memory had finished or was admitted after the snapshot of the cleanup that prunes. |
| SweepSafety.PrunesBehindRemoval | internal/execd/job_lifecycle.go:255-262 | A cleanup prunes memory only when its whole plan has been carried out; nothing it removed is on disk or was protected. |
| SweepSafety.PruneDropsExactly | internal/execd/job_lifecycle.go:276-319 | The jobs dropped are those the cleanup deleted and, of the done jobs the prune saw newest first, those started more than RetentionDays times 24 hours ago and those behind the first MaxJobsRetained. |
| SweepSafety.MemoryBound | internal/execd/job_lifecycle.go:297-312 | Right after a prune with a retention limit the jobs map holds at most MaxJobsRetained plus Concurrency jobs. |
| JobLifecycle.Job.SetResult | internal/execd/job_lifecycle.go:35-44 | Keeps a result that is there, otherwise sets result and state; done is closed, and only once. As the protocol's step. |
| JobLifecycle.Job.SetCancel | internal/execd/job_lifecycle.go:46-53 | Binds the function and calls it now exactly if a cancel came first. As the protocol's step. |
| JobLifecycle.Job.RequestCancel | internal/execd/job_lifecycle.go:55-67 | Accepted exactly if there is no result; then the job is canceled and a bound function called, otherwise nothing changes. As the protocol's step. |
| JobLifecycle.Job.MarkRunning | internal/execd/job_lifecycle.go:191-200 | Running, or canceled after an early cancel. As the protocol's step. |
| JobLifecycle.JobLifecycle.PrepareJob | internal/execd/job_lifecycle.go:126-189 | Verdict, returned job, table and disk afterwards are those of the protocol's admission, for every combination of failing file operations; the slot taken is given back on both store errors. |
| JobLifecycle.JobLifecycle.StoreJob | internal/execd/job_lifecycle.go:163-180 | The new job's directory holds its metadata if all file operations succeed; otherwise there is no directory, or one without metadata. |
| JobLifecycle.JobLifecycle.ReleaseSlot | internal/execd/job_lifecycle.go:222-229 | Takes one token out, and reports exactly an empty semaphore. |
| JobLifecycle.JobLifecycle.GetJob | internal/execd/job_lifecycle.go:231-235 | The job of that id exactly if it is in memory. |
| JobLifecycle.JobLifecycle.ReleaseJob | internal/execd/job_lifecycle.go:202-209 | Drops the lock only if it is this job's, gives back one slot, and reports exactly an empty semaphore. |
| JobLifecycle.JobLifecycle.CancelJob | internal/execd/job_lifecycle.go:211-220 | Not found exactly if the job is not in memory, accepted exactly if it has no result; only that job changes. |
| JobLifecycle.JobLifecycle.ProtectedIds | internal/execd/job_lifecycle.go:264-274 | Exactly the ids of the unfinished jobs in memory. |
| JobLifecycle.JobLifecycle.DeadIds | internal/execd/job_lifecycle.go:276-309 | Exactly the ids the cleanup deleted, the done jobs older than the cutoff and those with MaxJobsRetained newer done jobs before them, for some newest-first order of all done jobs. |
| JobLifecycle.JobLifecycle.PruneMemory | internal/execd/job_lifecycle.go:276-319 | Of the done jobs, newest first if their number is limited, exactly those leave the jobs map that the cleanup deleted, that started more than RetentionDays times 24 hours before now, or that are behind the first MaxJobsRetained; others leave only if deleted. The idempotency index loses their entries with them; locks and semaphore stay. |
| JobLifecycle.JobLifecycle.CleanupJobs | internal/execd/job_lifecycle.go:255-262 | One cleanup without interference: the directories that go are a plan for the store's own listing that spares the snapshot (with an age limit alone: exactly the unprotected ones older than that many days), the others stay as they are, and memory loses the plan and the stale jobs. A failed cleanup prunes nothing. |
| JobLifecycle.JobLifecycle.RunJob | internal/execd/server.go:157-188 | One runner without interference: the job ends published with its child's result, in which state, exit code and error are replaced exactly if a cancel was asked for, and its context canceled; its directory, if the cleanup leaves it, holds the same result; lock and slot are given back, and then the jobs map and the idempotency index lose exactly the plan of the cleanup behind it, which spares all other unfinished jobs, and the stale done jobs. If that cleanup fails nothing is pruned. Other objects and directories are untouched. |
| RetentionTheorems.VictimsAreOlder | internal/execd/jobstore.go:190-241 | Across all three passes no deleted directory is newer than an unprotected survivor. |
| RetentionTheorems.EarlySurvivor | internal/execd/jobstore.go:190-218 | What AgePass and CountPass compute, for one directory: an unprotected one survives both exactly if it is unexpired and fewer than MaxJobsRetained protected or unexpired ones are ahead of it. |
| RetentionTheorems.CountWithinLimit | internal/execd/jobstore.go:202-218 | Only protected directories can push the survivors beyond MaxJobsRetained. |
| RetentionTheorems.BytesWithinLimit | internal/execd/jobstore.go:220-241 | With a byte limit, what stays is within it or only protected directories are left. |
| RetentionTheorems.ShortestPrefix | internal/execd/jobstore.go:228-240 | What BytePass computes: any oldest-first prefix that suffices contains the one it takes. |
| Retention.PlanIsListedAndUnprotected | internal/execd/jobstore.go:179-188 | A plan names listed directories only, and no protected one. |
| RetentionTheorems.SecondCleanupDeletesNothing | internal/execd/jobstore.go:168-254 | With no tie between protected and unprotected directories, a second cleanup with the same cutoff, limits and protected set deletes nothing, however the sorts break ties. |
| RetentionTies.SecondCleanupIff | internal/execd/jobstore.go:168-254 | For every listing and protected set: a second cleanup deletes nothing, for all limits, cutoffs and ways to break ties, exactly if no unprotected directory has the creation time of a protected one. |
| RetentionTies.TieDeletesLater | internal/execd/jobstore.go:199-201 | For every listing with such a tie, a limit and two outcomes of the sorts for which the first cleanup keeps the unprotected directory and the second deletes it. |
| RetentionPlans.SomePlan | internal/execd/jobstore.go:168-241 | Every listing has a plan. |
| RetentionPlans.CrowdedOut | internal/execd/jobstore.go:199-218 | With a count limit alone, an unprotected directory is in some plan if MaxJobsRetained others are listed as no older. |
| RetentionPlans.NotCrowdedOut | internal/execd/jobstore.go:199-218 | And in no plan if fewer are. |
| RetentionRules.PlanIsTooOld | internal/execd/jobstore.go:190-197 | With an age limit alone a plan is exactly the unprotected directories created more than RetentionDays times 24 hours before now. |
| RetentionRules.PlanIsOverflow | internal/execd/jobstore.go:199-218 | With a count limit alone it is exactly the unprotected ones behind the first MaxJobsRetained of some newest-first order. |
| RetentionRules.PlanIsAgeAndCount | internal/execd/jobstore.go:190-218 | With both: an unprotected directory goes exactly if it is too old, or MaxJobsRetained places are taken before it by protected directories and ones that are not too old. |
| RetentionRules.NoMoreThanNeeded | internal/execd/jobstore.go:220-241 | With a byte limit a plan is what age and count ask for and no more than needed: without the newest directory it adds, too many bytes would stay. |
| CleanupPasses.AgePass | internal/execd/jobstore.go:190-197 | The age loop marks exactly the expired, unprotected directories. |
| CleanupPasses.CountPass | internal/execd/jobstore.go:202-218 | The greedy count loop adds exactly the directories with enough counted ones ahead. |
| CleanupPasses.BytePass | internal/execd/jobstore.go:228-240 | The greedy byte loop stops at the first prefix that suffices and marks exactly its unprotected, unmarked members. |
| CleanupPasses.PlanDeletes | internal/execd/jobstore.go:168-241 | The three loops over the twice sorted listing produce a plan in the declarative sense. |
| JobStore.JobStore.Cleanup | internal/execd/jobstore.go:168-254 | Deletes a plan for the listing: with an age limit alone exactly the unprotected directories created more than RetentionDays times 24 hours ago; without a byte limit what age and count ask for; with one, what stays is within it or all protected. On success the deleted ids are sorted, distinct and exactly the plan, and deleted plus remaining is the listing in jobs and bytes; on a failed removal the report names exactly what has gone. |
| Sorting.LexIsFirstDifference | internal/execd/jobstore.go:250 | The order of the reported ids is by the first character in which two differ, a prefix first. |
| JobStore.JobStore.ListJobDirs | internal/execd/jobstore.go:256-290 | Lists every directory once, with its size and the creation time of its metadata, or the modification time if there is no metadata or its time is Go's zero time. |
| JobStore.JobStore.ReadOutputTail | internal/execd/jobstore.go:138-166 | The end of the log asked for, stdout or stderr, of length min(tail, size) for a positive tail, and all of it for any other tail. |
| JobStore.JobStore.Create | internal/execd/jobstore.go:45-54 | Succeeds exactly for a valid id whose directory is or can be made and whose input can be written; other directories stay, and an existing one is kept. |
| JobStore.JobStore.SaveMetadata | internal/execd/jobstore.go:56-62 | Replaces the metadata of one existing directory and nothing else, or changes nothing. |
| JobStore.JobStore.SaveResult | internal/execd/jobstore.go:93-99 | Replaces the result of one existing directory and nothing else, or changes nothing. |
| JobStore.JobStore.Remove | internal/execd/jobstore.go:117-123 | Removes exactly the one directory, or nothing. |
| JobStore.JobStore.RemoveAll | internal/execd/jobstore.go:243-249 | Removes the marked directories in any order up to the first that is stuck; ids and bytes reported are exactly those of the removed. |
| AuthLimiter.KeptIsLastRecent | internal/execd/auth_limiter.go:43-84 | With a clock that does not go back, what the limiter holds is always the last limit + 1 of all failures since the last success in the window it last looked at. |
| AuthLimiter.VerdictsAgree | internal/execd/auth_limiter.go:28-57 | Hence it allows and reports exactly as a limiter that forgets nothing. |
| AuthLimiter.RateBound | internal/execd/auth_limiter.go:43-66 | Between two successes of a peer at most limit of its failures in any window are answered "not exceeded", for every sequence of events of any peers. |
| AuthLimiter.RecentArePending | internal/execd/auth_limiter.go:43-84 | The recent failures counted are exactly the places of the log with a failure of the peer after the cutoff and no success of the peer behind it. |
| AuthLimiter.ClockMustNotGoBack | internal/execd/auth_limiter.go:68-84 | A sequence with a clock that goes back for which the answers differ. |
| AuthLimiter.Compact | internal/execd/auth_limiter.go:73-79 | Filtering into the slice's own buffer leaves exactly the recent times, in order. |
| AuthLimiter.Push | internal/execd/auth_limiter.go:51-54 | Appends in place or in a bigger copy, and keeps the last n. |
| AuthLimiter.NewAuthFailureLimiter | internal/execd/auth_limiter.go:16-26 | There is no limiter exactly if limit or window is not positive. |
| AuthLimiter.AuthFailureLimiter.RecentLocked | internal/execd/auth_limiter.go:68-84 | Returns the recent failures of the key; other keys keep theirs although buffers are reused. |
| AuthLimiter.AuthFailureLimiter.RecordFailureAndExceeded | internal/execd/auth_limiter.go:43-57 | Exceeded exactly if more than limit failures in the log are the peer's, later than the window's start and without a success of the peer behind them. |
| AuthLimiter.AuthFailureLimiter.IsAllowed | internal/execd/auth_limiter.go:28-37 | Allowed exactly if fewer than limit such failures are in the log. |
| AuthLimiter.AuthFailureLimiter.RecordSuccess | internal/execd/auth_limiter.go:59-66 | Clears exactly the peer's record. |
| AuthLimiter.AuthenticateRequest | internal/execd/server.go:289-315 | A bad login is answered as rate limited exactly if a limiter is on and the peer has more than limit failures in the window since its last success; a good one is always accepted. |
| Capped.CappedBuffer.Write | internal/execd/capped.go:19-41 | The buffer is the capped prefix of everything written, the flag says whether more was written, whatever the chunks; a write never fails. |
| Capped.CappedTeeWriter.Write | internal/execd/capped.go:62-88 | Passes on what the limit leaves; a failing destination is reported with nothing counted. |
| Capped.CopyToTee | internal/execd/child.go:81-96 | What reaches the destination depends on the bytes only, not on the chunks, and if the destination fails it is the part it had room for. |
| Capped.CopyToBoth | internal/execd/runner.go:70-93 | Log file and inline buffer receive the same bytes up to a failing write. |
| Capped.RunStages | internal/execd/runner.go:70-93 | Both stages with any chunking on either side of the pipe capture what the closed form says. |
| Capped.TwoStages | internal/execd/capped.go:19-92 | For 0 <= inline limit <= log limit, log and stdout are the output's own prefixes, and stdout is all of it exactly if neither flag is set. |
| Capped.InlineFlagSuffices | internal/execd/validation.go:105-110 | The inline flag alone is conclusive for every output exactly if the limits differ. |
| StepEvents.ExtractAgentStepEvents | bin/aiops:251-284 | The scanning loop terminates on any output and returns what the recursive reading of it gives. |
| StepEvents.RunBatch | bin/aiops:724-753 | The script's loop prints the events and outputs of the steps that run and exits with the last failing code. |
| EventObjects.StepIsPrinted | bin/aiops:728-747 | In the print of a batch each step that ran has its begin object, its end object with its own exit code and duration, and then its output. |
| StepEvents.BatchRoundTrip | bin/aiops:251-284 | Scanning what a batch printed gives the concatenated outputs and one (index, exit code, duration) entry per step that ran, also if outputs lack final newlines, if all outputs but the last pass and the last comes back when scanned alone. |
| StepEvents.RoundTrip | bin/aiops:251-284 | The same from any step on, behind any text that passes. |
| StepEvents.PassesIff | bin/aiops:251-284 | An output comes back as it is, in front of every begin event and everything behind it, and leaves their scan alone, exactly if each event prefix in it has a whole line behind it that does not decode and it does not end inside a prefix. |
| StepEvents.LossesCanCancel | bin/aiops:251-284 | For a whole batch no condition on single outputs is exact: an instance in which an output does not pass and the scan gives everything back all the same. |
| StepEvents.SomeDecoder | bin/aiops:735-742 | The begin and end objects the script prints can all be told apart, so decoders as assumed exist. |
| StepEvents.ScanAtReturned | bin/aiops:266-269 | Any number of carriage returns before the newline of an event line changes nothing, except that a line that does not decode keeps them. |
| EventObjects.BeginIsObject | bin/aiops:735 | The text of a begin event is a JSON object with its index, and for the scanner no end event. |
| EventObjects.EndIsObject | bin/aiops:273-281 | The text of an end event is a JSON object with four fields, from which the scanner takes exactly that index, exit code and duration. |
| StepEvents.DropsOnlyEvents | bin/aiops:251-284 | On any output the scan removes only whole event lines that decode, keeps everything else in order, and reports exactly the end events it removed. |
| StepEvents.ClearIff | bin/aiops:31 | Which outputs leave the following event recognisable: exactly those without the prefix that do not end in its stem or its stem and an underscore. |
| StepEvents.StemFreeIsClear | bin/aiops:31 | Every output without the stem is such an output. |
| StepEvents.StemOutputKeepsEventLine | bin/aiops:251-284 | An output that is just the stem is free of the prefix, and yet an event line stays in the scanned text. |
| StepEvents.ExitCodeIsLastFailure | bin/aiops:744-752 | The batch exits 0 exactly if every step that ran succeeded, otherwise with the last failing code. |
| StepEvents.StopsAtFailure | bin/aiops:744-747 | Without stop every step runs; with it nothing runs behind a failure, and only a failure leaves steps out. |
| FleetPlan.CommandFleetPlan | bin/aiops:964-1021 | For all replies, over its own arguments: host h gets all prechecks, then all applies, then all postchecks, each once and in its place, as far as things are sent, and everything sent but the last succeeded. A completed run returns 0 exactly if everything was sent to every host and succeeded, and otherwise the code of the last command, or 1 if it is not in 1..125; a run is cut short only by an exception or an unknown host. |
| FleetPlan.ApplyIsGated | bin/aiops:969-994 | An apply command is sent to a host only after all its prechecks and every command of all earlier hosts succeeded; only apply commands carry the lock key. |
| FleetPlan.SentBehindSuccess | bin/aiops:975-991 | Whatever the plan asks for before a sent command was sent before it and succeeded. |
| FleetPlan.PlanIsComplete | bin/aiops:964-979 | The plan holds exactly the commands asked for, each once, by host, phase and position. |
| FleetPlan.RunHost | bin/aiops:972-991 | One host's loops stop at the first command that does not succeed. |
| FleetPlan.RunHosts | bin/aiops:969-994 | The loop over hosts, with the guarantees of the whole command. |
| FleetPlan.CountsAddUp | bin/aiops:451-459 | ok, failed and skipped add up to the total; at most one host fails, and then it is the last reported. |
| KeyedPlan.LaterSendMeetsEarlierJob | bin/aiops:962-977 | While the job of an earlier command is in memory, a later command to that host with the plan's key raises if its hash differs, and is answered with the earlier job, unexecuted, if it does not; the daemon may have been restarted in between. |
| KeyedPlan.SendIsAnsweredIff | bin/aiops:962-977 | A command with the plan's key is answered with reuse or conflict exactly if its host's daemon holds a job with that index key in memory. |
| KeyedPlan.KeyedPlanNeedsForgetting | bin/aiops:962-994 | A plan with a key runs to its end only if, for every two commands to a host with different hashes, the daemon had forgotten the first one's job when the second arrived, by cleanup or restart. |
| Normalize.NormalizeRequest | internal/execd/validation.go:19-126 | Accepted exactly if the request keeps to the rules (`Fits`), refused over the first fault in the order of the checks. An accepted request is root exactly if its privilege is root or its flag set, and otherwise user; every other default replaces just its own missing value, the directory is the resolved one, and nothing else changes. |
| Normalize.AcceptableIffFits | internal/execd/validation.go:19-126 | Having none of the faults is keeping to the rules, stated on the request as it was given: ranges with defaults, sizes, directory, environment and keys. |
| Normalize.NormalCompletes | internal/execd/validation.go:35-123 | What normalising makes of an accepted request, field by field. |
| Normalize.NormalizePrivilege | internal/execd/validation.go:20-40 | The first of these checks: accepted exactly if flag and privilege name user or root and do not contradict; then root exactly if either says so, user otherwise. |
| Normalize.NormalizeCommand | internal/execd/validation.go:20-68 | The first stage: privilege, mode, command and stdin, refused over their first fault; only privilege and mode are filled in. |
| Normalize.NormalizeSizes | internal/execd/validation.go:69-110 | The second stage: times and output limits, refused over their first fault. |
| Normalize.NormalIsStable | internal/execd/validation.go:19-126 | An accepted request is accepted again once normalised, and normalises to itself. |
| Normalize.CleaningIsLawful | internal/execd/validation.go:139-142 | What is assumed of resolving links holds where there are none. |
| Normalize.RetryHashesAlike | internal/execd/server.go:388-396 | Sent again as it was normalised, a request gives the same hash. |
| Normalize.HashedIff | internal/execd/server.go:388-396 | Two requests hash the same text exactly if they differ in nothing but the root flag and whether the wait was given. |
| Normalize.RootFlagIsPrivilege | internal/execd/server.go:388-396 | The legacy root flag and the privilege it stands for have the same fate and hash. |
| Normalize.RootFlagConflict | internal/execd/validation.go:20-34 | A flag that contradicts the privilege is refused. |
| Normalize.CwdIsInside | internal/execd/validation.go:128-156 | For a restricted request the resulting directory is clean and absolute and its components extend those of an allowed prefix. |
| Normalize.NormalizeCwd | internal/execd/validation.go:128-156 | For every directory given, with / for root and /tmp for user in place of an empty one: accepted exactly if it is absolute, exists and is unrestricted or inside a prefix, and then the resolved path is returned. |
| Normalize.ValidateEnv | internal/execd/validation.go:165-185 | Accepts exactly the environments whose every name is well formed, not on the deny list and on the allow list if there is one, and whose every value takes at most 4096 bytes. |
| Paths.PrefixIsComponentPrefix | internal/execd/validation.go:158-163 | On clean absolute paths the string test is the prefix order of the component lists. |
| Paths.CleanIsClean | internal/execd/validation.go:139-147 | Cleaning an absolute path gives an absolute path that cleaning leaves alone. |
| Paths.CleanWalks | internal/execd/validation.go:139-147 | Cleaning an absolute path walks the tree piece by piece: a dot or an empty piece stays, a double dot leads to the parent and stays at the root, a name leads to that child. |
| Utf8.ByteLenCounts | internal/execd/validation.go:51 | The size a limit is compared with is the number of bytes of the UTF-8 encoding (section 3 of RFC 3629), which `CharBytesDecode` shows to be decodable. |
| Utf8.TotalBytesCounts | internal/execd/validation.go:58-64 | For an argument list it is the number of bytes of all arguments. |
| Patterns.JobIds | internal/execd/validation.go:14 | The check of job ids accepts exactly what the regular expression matches. |
| Patterns.Spaces | internal/execd/validation.go:48 | A command is blank if it has nothing but the 25 characters with the Unicode property White_Space. |
| Patterns.EnvKeys | internal/execd/validation.go:13 | So does the check of environment names. |
| Patterns.TokenIds | internal/execd/validation.go:15 | So does the check of token ids. |
| Patterns.ControlKeys | internal/execd/validation.go:16 | So does the check of lock and idempotency keys. |

## Left out

- HTTP routing, header parsing, JSON coding, event logging, configuration loading and deployment: input and output without deep properties.
- Process spawning, sudo, signals, timeouts and process groups: a child returns an arbitrary result and an arbitrary byte stream.
- SHA-256 and token comparison: a submission carries its hash; `Normalize.Hashed` is what the hash is taken of, and equal hashes are only ever compared.
- Fresh job ids: `newJobID` is assumed to return valid ids, none of them used before, also across a restart in `KeyedPlan`.
- Integer widths: sizes, times and durations are unbounded, so overflow of 64-bit values is not modelled.
- Nil and empty maps and lists in requests are the same value, although their JSON encodings differ.
- Panics inside a runner, and the startup cleanup that runs before any request.
- The wait in `handleRun` and all liveness: only safety over interleavings is stated.
- Real directories: removal of one directory succeeds as a whole or fails with the directory still there, and a listing sees each directory's size at one moment. In the protocol a listing may miss directories but invents none; in `Exact` runs it misses none either. A directory without a creation time in its metadata is listed with any modification time that has passed.
- The two store accesses inside prepareJob are part of its event. A cleanup that lists the directory between them sees its modification time instead of the creation time its metadata is about to give; the protocol's listings show the latter.
- In-place sorting: the sorts return a new sequence; the order of ties stays open as in the original.
- JobLifecycle.JobLifecycle.RunJob: covers one runner without interference; interleavings are the subject of the protocol, whose steps use the same functions.
- JobLifecycle.JobLifecycle.CleanupJobs: likewise without interference between snapshot, listing and prune.
- Guarantees.LookUpsAgree: takes a result file as readable once it is written.
- AuthLimiter.VerdictsAgree: assumes clock readings that do not go back, as Go's monotonic clock gives; ClockMustNotGoBack shows the assumption is needed.
- AuthLimiter.AuthFailureLimiter.IsAllowed: nothing in the daemon calls the original's `allow`; it is modelled because its tests promise it. The nil limiter appears in `AuthenticateRequest` only.
- StepEvents.RoundTrip: assumes a JSON decoder that reads back the two objects the script prints; the decoder is a parameter, and `SomeDecoder` shows there is one. Its condition is exact for one output (`PassesIff`) and not for a whole batch (`LossesCanCancel`). The stderr stream and the temporary files of the script are left out.
- StepEvents.DropsOnlyEvents: speaks of scans that end; an event text that decodes to something else than an object, or an end event with fields that are not numbers, ends the original with an exception, here `Crashed`.
- FleetPlan.CommandFleetPlan: retries while a host is busy, polling and the printed report are inside the abstract reply; argument checks other than for missing applies and hosts are left out.
- Normalize.NormalIsStable: assumes that resolving symbolic links gives a clean path that resolves to itself (`Normalize.Lawful`, which `CleaningIsLawful` shows can hold).
