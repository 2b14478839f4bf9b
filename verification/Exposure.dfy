/** Which cleanups threaten an unfinished job, and that no step adds to them. */
module Exposure {
  import opened Types
  import opened Lifecycle
  import opened Retention
  import opened RetentionPlans
  import opened Protocol
  import opened Invariant
  import opened History

  /** A cleanup may list `d` as at least as new as `x`: its creation time is not earlier, or one
      of the two has none and is listed with its modification time. */
  predicate AsNew(d: JobDir, x: JobDir) {
    !HasCreationTime(d) || !HasCreationTime(x) || d.meta.value.createdAt >= x.meta.value.createdAt
  }

  /** The directories that may be listed ahead of the one of `x`. */
  function Crowd(s: Sys, x: string): set<string>
    requires x in s.disk
  {
    set d | d in s.disk && d != x && AsNew(s.disk[d], s.disk[x])
  }

  /** Some rule lets a cleanup delete the directory of `x` if it does not know the job: any age or
      byte limit, and a count limit if newer directories can still come or enough are there. */
  predicate CanHit(cfg: Config, s: Sys, x: string)
    requires x in s.disk
  {
    || cfg.retentionDays > 0 || cfg.maxTotalJobBytes > 0
    || (cfg.maxJobsRetained > 0 && (cfg.slots > 1 || |Crowd(s, x)| >= cfg.maxJobsRetained))
  }

  predicate Exposed(cfg: Config, s: Sys, x: string) {
    x in s.disk && CanHit(cfg, s, x)
  }

  /** No cleanup can get at the directory of `x`: those between snapshot and listing know the job
      if a rule could hit it, those removing directories do not have it on their list. */
  ghost predicate OutOfReach(cfg: Config, s: Sys, x: string)
    requires x in s.disk
  {
    forall c :: c in s.runners ==>
      && (s.runners[c].pc == Snapshotted && CanHit(cfg, s, x) ==> x in s.runners[c].snapshotIds)
      && (s.runners[c].pc == Planned ==> x !in s.runners[c].todo)
  }

  /** A cleanup that will not drop `x` from memory. */
  predicate Harmless(r: Runner, x: string, exposed: bool) {
    && (r.pc == Snapshotted && exposed ==> x in r.snapshotIds)
    && (r.pc == Planned ==> x !in r.todo)
    && (r.pc == Planned || r.pc == Swept ==> x !in r.deleted)
  }

  /** No cleanup under way has removed the directory of `x` or can get at it. */
  ghost predicate Remembered(cfg: Config, s: Sys, x: string) {
    forall c :: c in s.runners ==> Harmless(s.runners[c], x, Exposed(cfg, s, x))
  }

  // ----- a job does not become exposed

  lemma OwnsSlot(cfg: Config, s: Sys, x: string)
    requires JobsOk(s) && SlotsOk(cfg, s) && x in Unfinished(s)
    ensures x in s.runners && Rank(s.runners[x].pc) < Rank(Published) && 0 < s.table.sem <= cfg.slots
  {
    hide JobOk;
    assert x in s.runners && JobOk(x, s.table.recs[x], s.runners[x]);
    hide JobsOk;
    UnfinishedIsEarly(x, s.table.recs[x], s.runners[x]);
    assert x in Unreleased(s);
  }

  lemma UnfinishedIsEarly(id: string, j: JobView, r: Runner)
    requires JobOk(id, j, r) && !j.Done()
    ensures Rank(r.pc) < Rank(Published)
  {
  }

  /** With every slot taken a submission leaves no directory. */
  lemma BusyLeavesDisk(cfg: Config, s: Sys, e: Event)
    requires e.PrepareJob? && Enabled(cfg, s, e) && s.table.sem >= cfg.slots
    ensures Apply(cfg, s, e).disk == s.disk
  {
    hide Prepare, Existing, Holder;
  }

  lemma OtherStepsKeepMetas(cfg: Config, s: Sys, e: Event)
    requires !e.PrepareJob? && Enabled(cfg, s, e)
    ensures var s' := Apply(cfg, s, e);
      s'.disk.Keys <= s.disk.Keys && forall d :: d in s'.disk ==> s'.disk[d].meta == s.disk[d].meta
  {
    hide Ready, JobAfter, RunnerAfter, CleanerReady, CleanerAfter, PruneOrder, SawReleased, StaleIds;
  }

  lemma CrowdShrinks(s: Sys, s': Sys, x: string)
    requires x in s'.disk && s'.disk.Keys <= s.disk.Keys
    requires forall d :: d in s'.disk ==> s'.disk[d].meta == s.disk[d].meta
    ensures |Crowd(s', x)| <= |Crowd(s, x)|
  {
    SubsetSize(Crowd(s', x), Crowd(s, x));
  }

  /** While `x` is unfinished, a step exposes it only if it was exposed. */
  lemma StepExposesNothing(cfg: Config, s: Sys, e: Event, x: string)
    requires Inv(cfg, s) && Enabled(cfg, s, e) && x in Unfinished(s) && Exposed(cfg, Apply(cfg, s, e), x)
    ensures Exposed(cfg, s, x)
  {
    hide Enabled, Apply, JobOk, LaterJob, SlotsOk, LocksOk, IdempotencyOk, DiskOk, SweepsOk, FreshSweep, AsNew;
    StepFollows(cfg, s, e, x);
    OwnsSlot(cfg, s, x);
    if e.PrepareJob? {
      if cfg.slots <= 1 {
        BusyLeavesDisk(cfg, s, e);
        CrowdShrinks(s, Apply(cfg, s, e), x);
      }
    } else {
      OtherStepsKeepMetas(cfg, s, e);
      CrowdShrinks(s, Apply(cfg, s, e), x);
    }
  }

  // ----- a plan that spares `x`

  lemma ListedBehindCrowd(s: Sys, l: seq<Entry>, x: string, e: Entry, f: Entry)
    requires Listed(s, l) && x in s.disk && e in l && f in l && e.id == x && f != e && f.created >= e.created
    ensures f.id in Crowd(s, x)
  {
    var i :| 0 <= i < |l| && l[i] == e;
    var k :| 0 <= k < |l| && l[k] == f;
    assert f.id in Ids(l) && f.id in s.disk;
    assert f.id != e.id;
  }

  /** A directory no rule can hit is in no plan. */
  lemma SparedIfNotExposed(cfg: Config, s: Sys, cutoff: int, protected: set<string>, l: seq<Entry>, plan: set<string>, x: string)
    requires Listed(s, l) && IsPlan(cfg, cutoff, protected, l, plan) && !Exposed(cfg, s, x)
    ensures x !in plan
  {
    hide IsPlan, Listed, Crowd;
    PlanIsListedAndUnprotected(cfg, cutoff, protected, l, plan);
    if x in plan {
      assert x in s.disk && DistinctIds(l) by {
        Lists(s, l, x);
      }
      if cfg.maxJobsRetained > 0 {
        var i :| 0 <= i < |l| && l[i].id == x;
        forall f | f in l && f != l[i] && f.created >= l[i].created ensures f.id in Crowd(s, x) {
          ListedBehindCrowd(s, l, x, l[i], f);
        }
        NotCrowdedOut(cfg, cutoff, protected, l, plan, l[i], Crowd(s, x));
      } else {
        NothingGoes(cfg, cutoff, protected, l, plan);
      }
    }
  }

  lemma Lists(s: Sys, l: seq<Entry>, x: string)
    requires Listed(s, l) && x in Ids(l)
    ensures x in s.disk && DistinctIds(l)
  {
  }

  lemma KnownIsProtected(s: Sys, c: string, x: string)
    requires SweepsOk(s) && c in s.runners && s.runners[c].pc == Snapshotted && x in Unfinished(s)
    requires x in s.disk && x in s.runners[c].snapshotIds
    ensures x in s.runners[c].protected
  {
    assert SweepOk(s, s.runners[c]);
  }

  /** What a harmless cleanup plans does not touch `x`. */
  lemma PlanSpares(cfg: Config, s: Sys, e: Event, x: string)
    requires SweepsOk(s) && e.PlanCleanup? && Enabled(cfg, s, e) && x in Unfinished(s)
    requires Harmless(s.runners[e.id], x, Exposed(cfg, s, x))
    ensures x !in e.plan
  {
    hide SweepsOk, Unfinished, IsPlan, Listed, Exposed;
    var r := s.runners[e.id];
    assert r.pc == Snapshotted && Listed(s, e.listing) && IsPlan(cfg, e.cutoff, r.protected, e.listing, e.plan);
    hide Enabled;
    if Exposed(cfg, s, x) {
      ExposedIsThere(cfg, s, x);
      KnownIsProtected(s, e.id, x);
      PlanIsListedAndUnprotected(cfg, e.cutoff, r.protected, e.listing, e.plan);
    } else {
      SparedIfNotExposed(cfg, s, e.cutoff, r.protected, e.listing, e.plan, x);
    }
  }

  lemma ExposedIsThere(cfg: Config, s: Sys, x: string)
    requires Exposed(cfg, s, x)
    ensures x in s.disk
  {
  }
}
