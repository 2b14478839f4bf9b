/** What runs cannot undo: how one job looks later, given how it looks now. */
module History {
  import opened Types
  import opened Lifecycle
  import opened Protocol
  import opened Invariant
  import opened Reachability

  /** The job `id` of `s` as it may look in a later state `s'`. */
  ghost predicate Follows(s: Sys, s': Sys, id: string) {
    && id in s.table.recs && id in s.runners && id in s'.table.recs && id in s'.runners
    && LaterJob(s.table.recs[id], s.runners[id], s'.table.recs[id], s'.runners[id])
    && (id !in s.table.jobs ==> id !in s'.table.jobs)
    && (id !in s.disk ==> id !in s'.disk)
    && (id in s.audit ==> id in s'.audit)
  }

  ghost predicate LaterJob(j: JobView, r: Runner, j': JobView, r': Runner) {
    && j'.id == j.id && j'.tokenId == j.tokenId && j'.hash == j.hash && j'.started == j.started && j'.lockKey == j.lockKey
    && r'.sub == r.sub
    && Rank(r.pc) <= Rank(r'.pc)
    && j.closes <= j'.closes
    && (j.cancelRequested ==> j'.cancelRequested)
    && (j.result.Some? ==> j'.result == j.result && j'.state == j.state)
    && (Rank(r.pc) >= Rank(Ran) ==> r'.child == r.child)
    && (Rank(r.pc) >= Rank(Checked) ==> r'.seen == r.seen && r'.res == r.res)
    && (Rank(r.pc) < Rank(Checked) <= Rank(r'.pc) && j.cancelRequested ==> r'.seen)
    && (Rank(r.pc) >= Rank(Snapshotted) ==> r'.protected == r.protected && r'.snapshotIds == r.snapshotIds)
    && (r.deleted <= r'.deleted)
  }

  lemma LaterTransitive(j: JobView, r: Runner, j': JobView, r': Runner, j'': JobView, r'': Runner)
    requires LaterJob(j, r, j', r') && LaterJob(j', r', j'', r'')
    ensures LaterJob(j, r, j'', r'')
  {
  }

  lemma PlainLater(e: Event, id: string, j: JobView, r: Runner)
    requires Plain(e) && Ready(e, r) && JobOk(id, j, r)
    ensures LaterJob(j, r, JobAfter(e, j, r), RunnerAfter(e, j, r))
  {
  }

  lemma CleaningLater(cfg: Config, s: Sys, e: Event, j: JobView, r: Runner)
    requires Cleaning(e) && CleanerReady(cfg, s, e, r)
    ensures LaterJob(j, r, j, CleanerAfter(e, s.table.recs.Keys, r))
  {
  }

  lemma PlainFollows(cfg: Config, s: Sys, e: Event, id: string)
    requires JobsOk(s) && Plain(e) && Enabled(cfg, s, e) && id in s.table.recs
    ensures Follows(s, Apply(cfg, s, e), id)
  {
    hide JobOk, LaterJob, JobAfter, RunnerAfter;
    var s' := Apply(cfg, s, e);
    assert s' == Updated(s, e.id, JobAfter(e, s.table.recs[e.id], s.runners[e.id]), RunnerAfter(e, s.table.recs[e.id], s.runners[e.id]));
    assert e.id in s.table.recs && Ready(e, s.runners[e.id]) && JobOk(e.id, s.table.recs[e.id], s.runners[e.id]);
    JobsKeys(s);
    hide JobsOk, Apply, Enabled, Ready;
    PlainLater(e, e.id, s.table.recs[e.id], s.runners[e.id]);
    if id != e.id {
      LaterRefl(s.table.recs[id], s.runners[id]);
    }
  }

  lemma LaterRefl(j: JobView, r: Runner)
    ensures LaterJob(j, r, j, r)
  {
  }

  lemma CleaningFollows(cfg: Config, s: Sys, e: Event, id: string)
    requires JobsOk(s) && Cleaning(e) && Enabled(cfg, s, e) && id in s.table.recs
    ensures Follows(s, Apply(cfg, s, e), id)
  {
    hide JobOk, LaterJob, CleanerAfter, CleanerReady;
    CleaningLater(cfg, s, e, s.table.recs[e.id], s.runners[e.id]);
    if id != e.id {
      LaterRefl(s.table.recs[id], s.runners[id]);
    }
  }

  lemma LaterPc(j: JobView, r: Runner, pc: Pc)
    requires Rank(r.pc) <= Rank(pc) && !(Rank(r.pc) < Rank(Checked) <= Rank(pc))
    ensures LaterJob(j, r, j, r.(pc := pc))
  {
  }

  lemma PrepareFollows(cfg: Config, s: Sys, e: Event, id: string)
    requires JobsOk(s) && e.PrepareJob? && Enabled(cfg, s, e) && id in s.table.recs
    ensures Follows(s, Apply(cfg, s, e), id)
  {
    hide JobOk, LaterJob, Admission;
    var s' := Apply(cfg, s, e);
    assert s' == Admission(cfg, s, e.sub, e.newId, e.now, e.outcome, e.leftover) && e.newId !in s.used;
    JobsKeys(s);
    hide JobsOk, Apply, Enabled;
    LaterRefl(s.table.recs[id], s.runners[id]);
    AdmissionKeepsOld(cfg, s, e.sub, e.newId, e.now, e.outcome, e.leftover, id);
  }

  lemma AdmissionKeepsOld(cfg: Config, s: Sys, sub: Submission, newId: string, now: int, outcome: StoreOutcome, leftover: bool, id: string)
    requires id in s.table.recs && id in s.runners && id in s.used && newId !in s.used
    ensures var s' := Admission(cfg, s, sub, newId, now, outcome, leftover);
      && id in s'.table.recs && id in s'.runners && s'.table.recs[id] == s.table.recs[id] && s'.runners[id] == s.runners[id]
      && (id !in s.table.jobs ==> id !in s'.table.jobs)
      && (id !in s.disk ==> id !in s'.disk)
      && (id in s.audit ==> id in s'.audit)
  {
    hide PrepareVerdict, Admission;
    AdmissionShape(cfg, s, sub, newId, now, outcome, leftover);
  }

  lemma OtherFollows(cfg: Config, s: Sys, e: Event, id: string)
    requires JobsOk(s) && !Plain(e) && !Cleaning(e) && !e.PrepareJob? && Enabled(cfg, s, e) && id in s.table.recs
    ensures Follows(s, Apply(cfg, s, e), id)
  {
    hide JobOk, LaterJob, PruneOrder, SawReleased, StaleIds, Admission;
    LaterRefl(s.table.recs[id], s.runners[id]);
    match e {
      case SaveResult(x, _) => LaterPc(s.table.recs[x], s.runners[x], Saved);
      case WriteAudit(x, _) => LaterPc(s.table.recs[x], s.runners[x], Audited);
      case ReleaseJob(x) => LaterPc(s.table.recs[x], s.runners[x], Released);
      case PruneMemory(x, _, _) => LaterPc(s.table.recs[x], s.runners[x], Finished);
    }
  }

  lemma StepFollows(cfg: Config, s: Sys, e: Event, id: string)
    requires JobsOk(s) && Enabled(cfg, s, e) && id in s.table.recs
    ensures Follows(s, Apply(cfg, s, e), id)
  {
    hide JobsOk, Enabled, Apply, Follows;
    if Plain(e) {
      PlainFollows(cfg, s, e, id);
    } else if Cleaning(e) {
      CleaningFollows(cfg, s, e, id);
    } else if e.PrepareJob? {
      PrepareFollows(cfg, s, e, id);
    } else {
      OtherFollows(cfg, s, e, id);
    }
  }

  lemma FollowsTransitive(s: Sys, s': Sys, s'': Sys, id: string)
    requires Follows(s, s', id) && Follows(s', s'', id)
    ensures Follows(s, s'', id)
  {
    hide LaterJob;
    LaterTransitive(s.table.recs[id], s.runners[id], s'.table.recs[id], s'.runners[id], s''.table.recs[id], s''.runners[id]);
  }

  /** Whatever the interleaving, a job only moves forward: it keeps its identity, a
      published result never changes, a cancel request never disappears and is seen by a
      check that comes after it, and a job or directory that is gone never returns. */
  lemma {:induction false} RunFollows(cfg: Config, s: Sys, es: seq<Event>, id: string)
    requires Inv(cfg, s) && Run(cfg, s, es) && id in s.table.recs
    ensures Follows(s, After(cfg, s, es), id)
    decreases |es|
  {
    hide Enabled, Apply, JobOk, LaterJob, SlotsOk, LocksOk, IdempotencyOk, DiskOk, SweepsOk, FreshSweep;
    JobsKeys(s);
    if es == [] {
      LaterRefl(s.table.recs[id], s.runners[id]);
    } else {
      var s1 := Apply(cfg, s, es[0]);
      StepFollows(cfg, s, es[0], id);
      StepKeepsInv(cfg, s, es[0]);
      RunFollows(cfg, s1, es[1..], id);
      FollowsTransitive(s, s1, After(cfg, s, es), id);
    }
  }
}
