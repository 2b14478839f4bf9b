/** What cleanups may take away while jobs run. */
module SweepSafety {
  import opened Types
  import opened Lifecycle
  import opened Retention
  import opened RetentionRules
  import opened Protocol
  import opened Invariant
  import opened Reachability

  /** A cleanup never removes a protected directory, and the directory of an unfinished job
      only if that job was admitted after the cleanup's snapshot. */
  lemma RemovedDirectory(cfg: Config, s: Sys, id: string, victim: string)
    requires Reachable(cfg, s) && Enabled(cfg, s, RemoveDir(id, victim))
    ensures id in s.runners && victim !in s.runners[id].protected
    ensures victim in Unfinished(s) ==> victim !in s.runners[id].snapshotIds
  {
    hide Reachable, JobsOk, SlotsOk, LocksOk, IdempotencyOk, DiskOk, FreshSweep;
    ReachableInv(cfg, s);
    assert SweepOk(s, s.runners[id]);
  }

  /** `x` is protected in the cleanup of `id` and not among its victims. */
  ghost predicate Spared(s: Sys, id: string, x: string) {
    && id in s.runners && Rank(s.runners[id].pc) >= Rank(Snapshotted)
    && x in s.runners[id].protected
    && x !in s.runners[id].todo && x !in s.runners[id].deleted
  }

  lemma CleanerSpares(cfg: Config, s: Sys, e: Event, r: Runner, x: string)
    requires Cleaning(e) && CleanerReady(cfg, s, e, r) && Rank(r.pc) >= Rank(Snapshotted)
    requires x in r.protected && x !in r.todo && x !in r.deleted
    ensures var r' := CleanerAfter(e, s.table.recs.Keys, r);
      Rank(r'.pc) >= Rank(Snapshotted) && x in r'.protected && x !in r'.todo && x !in r'.deleted
  {
    hide IsPlan, Listed, Unfinished;
    if e.PlanCleanup? {
      PlanIsListedAndUnprotected(cfg, e.cutoff, r.protected, e.listing, e.plan);
    }
  }

  lemma OwnStepSpares(cfg: Config, s: Sys, e: Event, x: string)
    requires Enabled(cfg, s, e) && !e.PrepareJob? && Spared(s, e.id, x)
    ensures Spared(Apply(cfg, s, e), e.id, x)
  {
    if Plain(e) {
      PlainSpares(s, e, x);
      hide Spared, Ready, JobAfter, RunnerAfter, Updated;
    } else if Cleaning(e) {
      CleanerSpares(cfg, s, e, s.runners[e.id], x);
      hide CleanerReady, CleanerAfter;
    } else {
      hide PruneOrder, SawReleased, StaleIds;
    }
  }

  lemma PlainSpares(s: Sys, e: Event, x: string)
    requires Plain(e) && e.id in s.runners && e.id in s.table.recs && Ready(e, s.runners[e.id]) && Spared(s, e.id, x)
    ensures var j, r := s.table.recs[e.id], s.runners[e.id];
      Spared(Updated(s, e.id, JobAfter(e, j, r), RunnerAfter(e, j, r)), e.id, x)
  {
  }

  lemma StepSpares(cfg: Config, s: Sys, e: Event, id: string, x: string)
    requires s.runners.Keys <= s.used && Enabled(cfg, s, e) && Spared(s, id, x)
    ensures Spared(Apply(cfg, s, e), id, x)
  {
    hide Apply, Enabled;
    if !e.PrepareJob? && e.id == id {
      OwnStepSpares(cfg, s, e, x);
    } else {
      OtherRunnersStay(cfg, s, e, id);
    }
  }

  lemma {:induction false} RunSpares(cfg: Config, s: Sys, es: seq<Event>, id: string, x: string)
    requires Inv(cfg, s) && Run(cfg, s, es) && Spared(s, id, x)
    ensures Spared(After(cfg, s, es), id, x)
    decreases |es|
  {
    hide Enabled, Apply, Spared, JobOk, SlotsOk, LocksOk, IdempotencyOk, DiskOk, SweepsOk, FreshSweep;
    if es != [] {
      JobsKeys(s);
      StepSpares(cfg, s, es[0], id, x);
      StepKeepsInv(cfg, s, es[0]);
      RunSpares(cfg, Apply(cfg, s, es[0]), es[1..], id, x);
    }
  }

  /** A job in memory and unfinished when a cleanup takes its snapshot is never among that
      cleanup's victims, whatever happens in between. */
  lemma SnapshotProtects(cfg: Config, s: Sys, id: string, protected: set<string>, x: string, es: seq<Event>)
    requires Reachable(cfg, s) && Enabled(cfg, s, Snapshot(id, protected))
    requires x in s.table.jobs && x in Unfinished(s)
    requires Run(cfg, Apply(cfg, s, Snapshot(id, protected)), es)
    ensures Spared(After(cfg, Apply(cfg, s, Snapshot(id, protected)), es), id, x)
  {
    hide Reachable, JobOk, SlotsOk, LocksOk, IdempotencyOk, DiskOk, SweepsOk;
    ReachableInv(cfg, s);
    assert s.runners[id].todo == {} && s.runners[id].deleted == {};
    assert x in s.table.jobs * Unfinished(s);
    assert Spared(Apply(cfg, s, Snapshot(id, protected)), id, x);
    hide Inv;
    StepKeepsInv(cfg, s, Snapshot(id, protected));
    hide Apply, Enabled, Spared;
    RunSpares(cfg, Apply(cfg, s, Snapshot(id, protected)), es, id, x);
  }

  // ----- pruning

  /** Pruning drops a job from memory only if it has finished or was admitted after the
      snapshot of the cleanup that prunes. */
  lemma PruneDropsFinishedOrUnknown(cfg: Config, s: Sys, e: Event, x: string)
    requires Reachable(cfg, s) && Enabled(cfg, s, e) && e.PruneMemory?
    requires x in s.table.jobs && x !in Apply(cfg, s, e).table.jobs
    ensures e.id in s.runners && x in s.table.recs
    ensures s.table.recs[x].Done() || x !in s.runners[e.id].snapshotIds
  {
    hide Reachable, JobOk, SlotsOk, LocksOk, IdempotencyOk, DiskOk, FreshSweep, StaleIds;
    ReachableInv(cfg, s);
    JobsKeys(s);
    assert SweepOk(s, s.runners[e.id]);
    StaleAreDone(cfg, s.table, e.order, Cutoff(cfg, e.now));
  }

  /** A cleanup prunes only when its whole plan has been carried out, and nothing it removed is back. */
  lemma PrunesBehindRemoval(cfg: Config, s: Sys, e: Event)
    requires Reachable(cfg, s) && Enabled(cfg, s, e) && e.PruneMemory?
    ensures e.id in s.runners && s.runners[e.id].todo == {} && s.runners[e.id].deleted !! s.disk.Keys
    ensures s.runners[e.id].deleted !! s.runners[e.id].protected
  {
    hide Reachable, JobsOk, SlotsOk, LocksOk, IdempotencyOk, DiskOk, FreshSweep, PruneOrder, SawReleased;
    ReachableInv(cfg, s);
    assert SweepOk(s, s.runners[e.id]);
  }

  /** And exactly these: what the cleanup deleted, and of the done jobs the prune saw those that
      are too old or have MaxJobsRetained newer ones before them. */
  lemma PruneDropsExactly(cfg: Config, s: Sys, e: Event, x: string)
    requires Enabled(cfg, s, e) && e.PruneMemory? && x in s.table.jobs
    ensures e.id in s.runners && forall i :: 0 <= i < |e.order| ==> e.order[i] in s.table.recs
    ensures x !in Apply(cfg, s, e).table.jobs <==>
      || x in s.runners[e.id].deleted
      || exists i :: 0 <= i < |e.order| && e.order[i] == x
           && (|| (cfg.retentionDays > 0
                   && s.table.recs[e.order[i]].started + cfg.retentionDays * 24 * 3_600 * 1_000_000_000 < e.now)
               || (cfg.maxJobsRetained > 0 && i >= cfg.maxJobsRetained))
  {
    hide SawReleased;
    var order := e.order;
    forall i | 0 <= i < |order|
      ensures order[i] in StaleIds(cfg, s.table, order, Cutoff(cfg, e.now)) <==>
        TooOld(cfg, s.table.recs[order[i]].started, e.now) || (cfg.maxJobsRetained > 0 && i >= cfg.maxJobsRetained)
    {
      StaleIsTooOld(cfg, s.table, order, e.now, i);
    }
  }

  ghost function Kept(order: seq<string>, n: nat): set<string>
    requires n <= |order|
  {
    set i | 0 <= i < n :: order[i]
  }

  lemma {:induction false} KeptSize(order: seq<string>, n: nat)
    requires n <= |order|
    ensures |Kept(order, n)| <= n
  {
    if n > 0 {
      KeptSize(order, n - 1);
      assert Kept(order, n) == Kept(order, n - 1) + {order[n - 1]};
    } else {
      assert Kept(order, 0) == {};
    }
  }

  /** Right after a prune with a retention limit the jobs map holds at most that many
      finished jobs and one job per slot. */
  lemma MemoryBound(cfg: Config, s: Sys, e: Event)
    requires Reachable(cfg, s) && Enabled(cfg, s, e) && e.PruneMemory? && cfg.maxJobsRetained > 0
    ensures |Apply(cfg, s, e).table.jobs| <= cfg.maxJobsRetained + cfg.slots
  {
    hide Reachable, JobOk, LocksOk, IdempotencyOk, DiskOk, SweepsOk, FreshSweep;
    ReachableInv(cfg, s);
    JobsKeys(s);
    PruneBound(cfg, s, e.id, e.order, e.now);
  }

  lemma PruneBound(cfg: Config, s: Sys, id: string, order: seq<string>, now: int)
    requires s.runners.Keys == s.table.recs.Keys && s.table.jobs <= s.table.recs.Keys && SlotsOk(cfg, s)
    requires id in s.runners && PruneOrder(cfg, s.table, order) && SawReleased(s, order) && cfg.maxJobsRetained > 0
    ensures |Pruning(cfg, s, id, order, now).table.jobs| <= cfg.maxJobsRetained + cfg.slots
  {
    var left := Pruning(cfg, s, id, order, now).table.jobs;
    var n := if |order| < cfg.maxJobsRetained then |order| else cfg.maxJobsRetained;
    var stale := StaleIds(cfg, s.table, order, Cutoff(cfg, now));
    forall x | x in left ensures x in Kept(order, n) + Unreleased(s) {
      if x !in Unreleased(s) {
        assert x in order;
        var i :| 0 <= i < |order| && order[i] == x;
        assert Stale(cfg, s.table, order, Cutoff(cfg, now), i) ==> x in stale;
        assert x in Kept(order, n);
      }
    }
    KeptSize(order, n);
    var bound := Kept(order, n) + Unreleased(s);
    assert bound == left + (bound - left);
  }
}
