/** Runs that reach weak spots: a job past its cancel check, a cleanup that removes the directory
    of a job admitted after its snapshot, and a retry admitted beside the execution it repeats.
    Each starts from an empty job directory and goes as the daemon performs it. */
module Scenarios {
  import opened Types
  import opened Lifecycle
  import opened Protocol
  import opened Invariant
  import opened Reachability
  import opened History
  import opened Guarantees
  import opened ExactRuns
  import opened RunnerSteps
  import opened Exposure
  import opened Losses
  import opened Survival

  /** `id` is the only job so far, nobody canceled it, and its runner stands at `pc`. */
  ghost predicate Alone(s: Sys, id: string, pc: Pc) {
    && At(s, id, pc)
    && s.runners.Keys == {id} && s.table.recs.Keys == {id} && s.used == {id} && s.table.jobs == {id}
    && s.table.locks.Keys == {} && s.table.idempotency == map[]
    && s.table.sem == (if Rank(pc) < Rank(Released) then 1 else 0)
    && !s.table.recs[id].cancelRequested
  }

  /** A submission that names no lock and no idempotency key. */
  predicate Keyless(sub: Submission) {
    sub.req.lockKey == "" && sub.req.idempotencyKey == ""
  }

  lemma FirstAdmission(cfg: Config, sub: Submission, id: string)
    requires cfg.slots > 0 && Keyless(sub)
    ensures var e := PrepareJob(sub, id, 0, Stored, false);
      && Enabled(cfg, FreshStart(), e) && ExactStep(cfg, FreshStart(), e, 0) && Reading(cfg, e, 0) == 0
      && Alone(Apply(cfg, FreshStart(), e), id, Queueing)
  {
  }

  lemma StaysAlone(s: Sys, s': Sys, id: string, child: RunResult, target: Pc)
    requires Alone(s, id, Queueing) && Arrived(s, s', id, child, target) && Rank(target) <= Rank(Released)
    ensures Alone(s', id, target)
  {
  }

  /** The lone job can get anywhere up to its release. */
  lemma Gets(cfg: Config, sub: Submission, id: string, child: RunResult, target: Pc) returns (s: Sys)
    requires cfg.slots > 0 && Keyless(sub) && Rank(target) <= Rank(Released)
    ensures ExactlyReachable(cfg, s, 0) && Inv(cfg, s) && Alone(s, id, target)
    ensures Rank(target) >= Rank(Ran) ==> s.runners[id].child == Some(child.(jobId := id))
  {
    hide ExactlyReachable, Enabled, Apply, Inv, Run, After, Exact, ClockAfter, ExactStep, Reading, MovedOn;
    var e := PrepareJob(sub, id, 0, Stored, false);
    FreshIsExact(cfg);
    FirstAdmission(cfg, sub, id);
    ExactReachStep(cfg, FreshStart(), 0, e);
    var s0 := Apply(cfg, FreshStart(), e);
    ExactIsReachable(cfg, s0, 0);
    ReachableInv(cfg, s0);
    var es := Advances(cfg, s0, id, child, target, 0);
    ExactReachRun(cfg, s0, 0, es);
    s := After(cfg, s0, es);
    StaysAlone(s0, s, id, child, target);
  }

  /** For any settings with a slot, any such submission and any child, some run has a job whose
      cancel was accepted and whose published result is the child's all the same. */
  lemma SomeCancelIsLost(cfg: Config, sub: Submission, child: RunResult)
    requires cfg.slots > 0 && Keyless(sub)
    ensures exists s: Sys, id: string ::
      && ExactlyReachable(cfg, s, 0) && id in s.table.recs && s.table.recs[id].cancelRequested
      && s.table.recs[id].result == Some(child.(jobId := id))
  {
    hide ExactlyReachable, Enabled, Apply, Inv, Run, After, Exact, ClockAfter, Reachable, ExactStep, Reading, Carries;
    var id := "job-0000";
    var s := Gets(cfg, sub, id, child, Checked);
    ExactIsReachable(cfg, s, 0);
    LateCancelIsLost(cfg, s, id);
    CancelIsTimeless(cfg, s, id);
    ExactReachStep(cfg, s, 0, RequestCancel(id));
    var s1 := Apply(cfg, s, RequestCancel(id));
    StepKeepsInv(cfg, s, RequestCancel(id));
    var es := Advances(cfg, s1, id, child, Published, 0);
    ExactReachRun(cfg, s1, 0, es);
    var s2 := After(cfg, s1, es);
    PublishedCarries(cfg, s2, id, child.(jobId := id));
    assert ExactlyReachable(cfg, s2, 0);
  }

  lemma CancelIsTimeless(cfg: Config, s: Sys, id: string)
    requires Enabled(cfg, s, RequestCancel(id)) && s.table.recs[id].Cancelable() && s.runners[id].pc == Checked
    ensures ExactStep(cfg, s, RequestCancel(id), 0) && Reading(cfg, RequestCancel(id), 0) == 0
    ensures var s' := Apply(cfg, s, RequestCancel(id));
      id in s'.table.recs && id in s'.runners && s'.table.recs[id].cancelRequested && s'.runners[id].pc == Checked
  {
  }

  lemma PublishedCarries(cfg: Config, s: Sys, id: string, res: RunResult)
    requires Inv(cfg, s) && Carries(s, id, res) && id in s.runners && s.runners[id].pc == Published
    ensures id in s.table.recs && s.table.recs[id].result == Some(res)
  {
    hide LocksOk, IdempotencyOk, DiskOk, SweepsOk, FreshSweep, SlotsOk;
    assert JobOk(id, s.table.recs[id], s.runners[id]);
  }

  // ----- a job admitted behind a snapshot

  /** "job-0000" has taken its snapshot, and "job-0001" was admitted behind it. */
  ghost predicate Joined(s: Sys, sub: Submission) {
    && At(s, "job-0000", Snapshotted) && "job-0001" !in s.runners["job-0000"].snapshotIds
    && "job-0001" in Unfinished(s) && "job-0001" in s.disk
    && "job-0001" in s.table.jobs && "job-0001" in s.runners && s.runners["job-0001"].sub == sub
  }

  lemma TakesSnapshot(cfg: Config, s: Sys, id: string)
    requires Inv(cfg, s) && Alone(s, id, Released)
    ensures var e := Snapshot(id, {});
      && Enabled(cfg, s, e) && ExactStep(cfg, s, e, 0) && Reading(cfg, e, 0) == 0
      && Alone(Apply(cfg, s, e), id, Snapshotted) && Apply(cfg, s, e).runners[id].snapshotIds == {id}
  {
    hide Inv, Enabled, Apply, Cleaned, Unfinished, ExactStep, Reading, JobsOk;
    InvKeys(cfg, s);
    LoneIsDone(s, id);
    SnapshotEnabled(cfg, s, id);
    SnapshotAlone(s, id);
    hide Alone;
  }

  lemma SnapshotEnabled(cfg: Config, s: Sys, id: string)
    requires At(s, id, Released) && Unfinished(s) == {}
    ensures var e := Snapshot(id, {});
      && Enabled(cfg, s, e) && ExactStep(cfg, s, e, 0) && Reading(cfg, e, 0) == 0
      && Apply(cfg, s, e) == Cleaned(s, e)
  {
    hide Cleaned, Unfinished;
  }

  lemma SnapshotAlone(s: Sys, id: string)
    requires Alone(s, id, Released)
    ensures Alone(Cleaned(s, Snapshot(id, {})), id, Snapshotted)
    ensures Cleaned(s, Snapshot(id, {})).runners[id].snapshotIds == {id}
  {
  }

  lemma LoneIsDone(s: Sys, id: string)
    requires JobsOk(s) && At(s, id, Released) && s.table.recs.Keys == {id}
    ensures Unfinished(s) == {}
  {
    PublishedIsDone(s, id);
    hide JobsOk;
  }

  lemma SecondAdmission(cfg: Config, s: Sys, sub: Submission)
    requires cfg.slots > 0 && Alone(s, "job-0000", Snapshotted) && sub.req.lockKey == ""
    requires s.runners["job-0000"].snapshotIds == {"job-0000"}
    ensures var e := PrepareJob(sub, "job-0001", 1, Stored, false);
      && Enabled(cfg, s, e) && ExactStep(cfg, s, e, 0) && Reading(cfg, e, 0) == 1
      && Joined(Apply(cfg, s, e), sub)
  {
    hide PruneOrder, SawReleased, Pruning, Saving, Auditing, Releasing, Updated, Cleaned, CleanerReady, Ready, WholeListing;
  }

  /** A job admitted between the snapshot and the listing of another job's cleanup. */
  lemma SomeJobIsOverlooked(cfg: Config, first: Submission, sub: Submission, child: RunResult) returns (s: Sys)
    requires cfg.slots > 0 && Keyless(first) && sub.req.lockKey == ""
    ensures ExactlyReachable(cfg, s, 1) && Inv(cfg, s) && Joined(s, sub)
  {
    hide ExactlyReachable, Enabled, Apply, Alone, Joined, Inv, ExactStep, Reading;
    var s0 := Gets(cfg, first, "job-0000", child, Released);
    var snapshot, join := Snapshot("job-0000", {}), PrepareJob(sub, "job-0001", 1, Stored, false);
    TakesSnapshot(cfg, s0, "job-0000");
    ExactReachStep(cfg, s0, 0, snapshot);
    StepKeepsInv(cfg, s0, snapshot);
    var s1 := Apply(cfg, s0, snapshot);
    SecondAdmission(cfg, s1, sub);
    ExactReachStep(cfg, s1, 0, join);
    StepKeepsInv(cfg, s1, join);
    s := Apply(cfg, s1, join);
  }

  lemma JoinedIsInReach(cfg: Config, s: Sys, sub: Submission)
    requires Joined(s, sub)
    requires cfg.retentionDays > 0 || cfg.maxTotalJobBytes > 0 || (cfg.maxJobsRetained > 0 && cfg.slots > 1)
    ensures Exposed(cfg, s, "job-0001") && !Harmless(s.runners["job-0000"], "job-0001", true)
  {
  }

  /** For any settings with an age or byte limit, or a count limit and two slots, some run has a
      cleanup remove the directory of a job that has not finished. */
  lemma SomeDirectoryIsLost(cfg: Config, first: Submission, child: RunResult)
    requires cfg.slots > 0 && Keyless(first)
    requires cfg.retentionDays > 0 || cfg.maxTotalJobBytes > 0 || (cfg.maxJobsRetained > 0 && cfg.slots > 1)
    ensures exists s: Sys, clock: int, x: string :: ExactlyReachable(cfg, s, clock) && x in Unfinished(s) && x !in s.disk
  {
    hide ExactlyReachable, Inv, Run, After, Exact, ClockAfter, Exposed;
    var s := SomeJobIsOverlooked(cfg, first, first, child);
    JoinedIsInReach(cfg, s, first);
    var es := DirectoryCanGo(cfg, s, "job-0000", "job-0001", 1);
    ExactReachRun(cfg, s, 1, es);
    var s', clock := After(cfg, s, es), ClockAfter(cfg, es, 1);
    assert ExactlyReachable(cfg, s', clock) && "job-0001" in Unfinished(s');
  }

  /** With a second slot and some limit, in some run two unfinished jobs have the same idempotency key of the
      same token: the retry was admitted while the first execution went on. */
  lemma SomeKeyRunsTwice(cfg: Config, first: Submission, sub: Submission, child: RunResult)
    requires cfg.slots > 1 && Keyless(first)
    requires cfg.retentionDays > 0 || cfg.maxTotalJobBytes > 0 || cfg.maxJobsRetained > 0
    requires sub.req.lockKey == "" && sub.req.idempotencyKey != ""
    ensures exists s: Sys, clock: int, a: string, b: string ::
      && ExactlyReachable(cfg, s, clock) && a != b && a in Unfinished(s) && b in Unfinished(s)
      && a in s.runners && b in s.runners && s.runners[a].sub == sub == s.runners[b].sub
  {
    hide ExactlyReachable, Inv, Run, After, Exact, ClockAfter, Exposed, ExactStep, Enabled, Apply, Reading, PrepareVerdict, JobsOk;
    var s := SomeJobIsOverlooked(cfg, first, sub, child);
    JoinedIsInReach(cfg, s, sub);
    var es := SecondExecution(cfg, s, "job-0000", "job-0001", sub, 1);
    var s', clock := After(cfg, s, es), ClockAfter(cfg, es, 1);
    ExactReachRun(cfg, s, 1, es);
    RunKeepsInv(cfg, s, es);
    InvKeys(cfg, s);
    InvKeys(cfg, s');
    RunFollows(cfg, s, es, "job-0001");
    var other := FreshId(s'.used);
    var again := PrepareJob(sub, other, clock, Stored, false);
    Readmission(cfg, s', sub, other, clock);
    ExactReachStep(cfg, s', clock, again);
    var s2 := Apply(cfg, s', again);
    assert ExactlyReachable(cfg, s2, clock) && "job-0001" in Unfinished(s2) && other in Unfinished(s2);
  }

  lemma Readmission(cfg: Config, s: Sys, sub: Submission, other: string, now: int)
    requires PrepareVerdict(s.table, cfg.slots, sub, other, Stored) == Admitted(other)
    requires other !in s.used && s.table.recs.Keys <= s.used && "job-0001" in s.runners && "job-0001" in Unfinished(s)
    ensures var e := PrepareJob(sub, other, now, Stored, false);
      && Enabled(cfg, s, e) && ExactStep(cfg, s, e, now) && Reading(cfg, e, now) == now
    ensures var s' := Apply(cfg, s, PrepareJob(sub, other, now, Stored, false));
      && "job-0001" in Unfinished(s') && other in Unfinished(s')
      && "job-0001" in s'.runners && s'.runners["job-0001"] == s.runners["job-0001"]
      && other in s'.runners && s'.runners[other].sub == sub
  {
    hide PrepareVerdict, Prepare;
    var e := PrepareJob(sub, other, now, Stored, false);
    AdmissionShape(cfg, s, sub, other, now, Stored, false);
    assert Apply(cfg, s, e) == Admission(cfg, s, sub, other, now, Stored, false);
    hide Apply, Admission;
  }
}
