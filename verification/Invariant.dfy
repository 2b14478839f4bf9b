/** What every reachable state of the protocol satisfies. */
module Invariant {
  import opened Types
  import opened Lifecycle
  import opened Retention
  import opened Protocol

  /** A job object and its runner agree. */
  ghost predicate JobOk(id: string, j: JobView, r: Runner) {
    && j.id == id && j.lockKey == r.sub.req.lockKey && j.hash == r.sub.hash && j.tokenId == r.sub.tokenId
    && j.remote == r.sub.remote
    && j.closes == (if j.result.Some? then 1 else 0)
    && (j.result.Some? <==> Rank(r.pc) >= Rank(Published))
    && (j.result.Some? ==> j.result == r.res)
    && j.state == (if j.result.Some? then j.result.value.state
                   else if j.cancelRequested then Canceled
                   else if r.pc == Queueing then Queued
                   else Running)
    && (j.cancelBound <==> Rank(r.pc) >= Rank(Bound))
    && (j.cancelCalls > 0 <==> (j.cancelRequested && j.cancelBound) || Rank(r.pc) >= Rank(ContextClosed))
    && (r.child.Some? ==> r.child.value.jobId == id)
    && (r.child.Some? <==> Rank(r.pc) >= Rank(Ran))
    && (r.res.Some? <==> Rank(r.pc) >= Rank(Checked))
    && (r.res.Some? ==> r.res.value == Outcome(r.child.value, r.seen))
    && (r.seen ==> j.cancelRequested)
  }

  lemma ReleasedIsDone(id: string, j: JobView, r: Runner)
    requires JobOk(id, j, r) && Rank(r.pc) >= Rank(Released)
    ensures j.Done()
  {
  }

  ghost predicate JobsOk(s: Sys) {
    && s.runners.Keys == s.table.recs.Keys
    && s.table.jobs <= s.table.recs.Keys <= s.used
    && s.disk.Keys <= s.used
    && forall id :: id in s.table.recs ==> JobOk(id, s.table.recs[id], s.runners[id])
  }

  ghost predicate SlotsOk(cfg: Config, s: Sys) {
    s.table.sem == |Unreleased(s)| <= cfg.slots
  }

  /** Every lock entry is an unreleased job with that key, and every unfinished job with
      a lock key has the entry. */
  ghost predicate LocksOk(s: Sys)
    requires s.runners.Keys == s.table.recs.Keys
  {
    && (forall k :: k in s.table.locks ==>
          && k != ""
          && s.table.locks[k] in s.table.recs
          && s.table.recs[s.table.locks[k]].lockKey == k
          && Rank(s.runners[s.table.locks[k]].pc) < Rank(Released))
    && (forall id :: id in s.table.recs && s.table.recs[id].lockKey != "" && !s.table.recs[id].Done() ==>
          s.table.recs[id].lockKey in s.table.locks && s.table.locks[s.table.recs[id].lockKey] == id)
  }

  /** The idempotency index sends exactly the keys of the retained jobs to those jobs. */
  ghost predicate IdempotencyOk(s: Sys)
    requires s.runners.Keys == s.table.recs.Keys && s.table.jobs <= s.table.recs.Keys
  {
    && (forall k :: k in s.table.idempotency ==>
          && s.table.idempotency[k] in s.table.jobs
          && s.runners[s.table.idempotency[k]].sub.req.idempotencyKey != ""
          && s.runners[s.table.idempotency[k]].sub.Key() == k)
    && (forall id :: id in s.table.jobs && s.runners[id].sub.req.idempotencyKey != "" ==>
          s.runners[id].sub.Key() in s.table.idempotency && s.table.idempotency[s.runners[id].sub.Key()] == id)
  }

  /** Files of admitted jobs carry what their runners wrote. */
  ghost predicate FilesOk(s: Sys)
    requires s.runners.Keys == s.table.recs.Keys
  {
    forall id :: id in s.table.recs && id in s.disk ==>
      && s.disk[id].meta == Some(NewMetadata(s.runners[id].sub, id, s.table.recs[id].started))
      && (s.disk[id].result.Some? ==> Rank(s.runners[id].pc) >= Rank(Saved) && s.disk[id].result == s.runners[id].res)
  }

  ghost predicate AuditOk(s: Sys) {
    forall id :: id in s.audit ==>
      && id in s.table.recs && id in s.runners
      && Rank(s.runners[id].pc) >= Rank(Audited)
      && s.runners[id].res == Some(s.audit[id])
  }

  /** An unfinished job that is no longer in memory has no directory. */
  ghost predicate ForgottenOk(s: Sys) {
    forall id :: id in s.table.recs && id !in s.table.jobs && !s.table.recs[id].Done() ==> id !in s.disk
  }

  ghost predicate DiskOk(s: Sys)
    requires s.runners.Keys == s.table.recs.Keys
  {
    FilesOk(s) && AuditOk(s) && ForgottenOk(s)
  }

  /** A cleanup under way: unfinished jobs it knew of are protected or have no directory,
      and no unfinished job it knew of is among its victims. */
  ghost predicate SweepOk(s: Sys, r: Runner) {
    && r.protected <= r.snapshotIds <= s.table.recs.Keys
    && (forall id :: id in r.snapshotIds && !s.table.recs[id].Done() ==> id in r.protected || id !in s.disk)
    && r.todo + r.deleted !! r.protected
    && (forall id :: id in r.todo + r.deleted && id in r.snapshotIds ==> s.table.recs[id].Done())
    && r.todo + r.deleted <= s.used
    && r.deleted !! s.disk.Keys
    && (r.pc == Snapshotted ==> r.todo + r.deleted == {})
    && (r.pc == Swept ==> r.todo == {})
  }

  predicate Sweeping(r: Runner) {
    Rank(Snapshotted) <= Rank(r.pc) <= Rank(Swept)
  }

  ghost predicate SweepsOk(s: Sys) {
    forall id :: id in s.runners && Sweeping(s.runners[id]) ==> SweepOk(s, s.runners[id])
  }

  ghost predicate FreshSweep(s: Sys) {
    forall id :: id in s.runners && Rank(s.runners[id].pc) < Rank(Snapshotted) ==>
      s.runners[id].todo == {} && s.runners[id].deleted == {}
  }

  ghost predicate Inv(cfg: Config, s: Sys) {
    && JobsOk(s)
    && SlotsOk(cfg, s)
    && LocksOk(s)
    && IdempotencyOk(s)
    && DiskOk(s)
    && SweepsOk(s)
    && FreshSweep(s)
  }

  lemma InitInv(cfg: Config, s: Sys)
    requires Init(s)
    ensures Inv(cfg, s)
  {
    assert Unreleased(s) == {};
  }

  /** The same jobs, each at least as far as before. */
  ghost predicate Onward(s: Sys, s': Sys) {
    && s.runners.Keys == s.table.recs.Keys == s'.table.recs.Keys == s'.runners.Keys
    && s.used == s'.used
    && forall x :: x in s.table.recs ==>
         && s'.table.recs[x].lockKey == s.table.recs[x].lockKey
         && s'.table.recs[x].started == s.table.recs[x].started
         && s'.runners[x].sub == s.runners[x].sub
         && (s.table.recs[x].Done() ==> s'.table.recs[x].Done())
         && Rank(s.runners[x].pc) <= Rank(s'.runners[x].pc)
  }

  lemma LocksFrame(s: Sys, s': Sys)
    requires Onward(s, s') && LocksOk(s) && s'.table.locks == s.table.locks
    requires forall x :: x in s.runners && Rank(s.runners[x].pc) < Rank(Released) ==> Rank(s'.runners[x].pc) < Rank(Released)
    ensures LocksOk(s')
  {
    assert s'.runners.Keys == s'.table.recs.Keys;
  }

  lemma IdempotencyFrame(s: Sys, s': Sys)
    requires Onward(s, s') && s.table.jobs <= s.table.recs.Keys && IdempotencyOk(s)
    requires s'.table.idempotency == s.table.idempotency && s'.table.jobs == s.table.jobs
    ensures IdempotencyOk(s')
  {
  }

  ghost predicate FilesSettle(s: Sys, s': Sys) {
    && s'.disk.Keys <= s.disk.Keys
    && (forall x :: x in s'.disk ==> s'.disk[x].meta == s.disk[x].meta)
    && (forall x :: x in s'.disk && x in s.table.recs && x in s'.runners && s'.disk[x].result.Some? ==>
          Rank(s'.runners[x].pc) >= Rank(Saved) && s'.disk[x].result == s'.runners[x].res)
  }

  /** Directories only go away, and results only change to what their runner holds. */
  ghost predicate Settled(s: Sys, s': Sys) {
    FilesSettle(s, s') && AuditOk(s')
  }

  lemma DiskFrame(s: Sys, s': Sys)
    requires Onward(s, s') && DiskOk(s) && Settled(s, s') && s'.table.jobs == s.table.jobs
    ensures DiskOk(s')
  {
  }

  ghost predicate SameSweep(r: Runner, r': Runner) {
    && r'.snapshotIds == r.snapshotIds && r'.protected == r.protected
    && r'.todo + r'.deleted == r.todo + r.deleted
    && r'.deleted == r.deleted && r'.todo == r.todo
    && (r'.pc == Snapshotted ==> r.pc == Snapshotted) && (r'.pc == Swept ==> r.pc == Swept)
  }

  lemma SweepFrame(s: Sys, s': Sys, r: Runner, r': Runner)
    requires Onward(s, s') && SweepOk(s, r) && SameSweep(r, r')
    requires s'.disk.Keys <= s.disk.Keys
    ensures SweepOk(s', r')
  {
  }

  /** A step of one runner, or a cancel, that touches nothing but that job's object, its
      runner and its files. */
  ghost predicate LocalStep(s: Sys, s': Sys, id: string) {
    && id in s.table.recs && id in s'.table.recs && id in s.runners && id in s'.runners
    && s'.table == s.table.(recs := s.table.recs[id := s'.table.recs[id]])
    && s'.runners == s.runners[id := s'.runners[id]]
    && s'.used == s.used
    && s'.runners[id].sub == s.runners[id].sub
    && s'.table.recs[id].started == s.table.recs[id].started
    && (s.table.recs[id].Done() ==> s'.table.recs[id].Done())
    && (Rank(s.runners[id].pc) < Rank(Released) <==> Rank(s'.runners[id].pc) < Rank(Released))
    && Rank(s.runners[id].pc) <= Rank(s'.runners[id].pc)
    && JobOk(id, s'.table.recs[id], s'.runners[id])
    && Settled(s, s')
  }

  lemma SameLockKey(id: string, j: JobView, r: Runner, j': JobView, r': Runner)
    requires JobOk(id, j, r) && JobOk(id, j', r') && r'.sub == r.sub
    ensures j'.lockKey == j.lockKey
  {
  }

  lemma LocalIsOnward(s: Sys, s': Sys, id: string)
    requires JobsOk(s) && LocalStep(s, s', id)
    ensures Onward(s, s')
  {
    hide JobOk, Settled;
    SameLockKey(id, s.table.recs[id], s.runners[id], s'.table.recs[id], s'.runners[id]);
  }

  lemma SameUnreleased(s: Sys, s': Sys)
    requires s.runners.Keys == s'.runners.Keys
    requires forall x :: x in s.runners ==> (Rank(s.runners[x].pc) < Rank(Released) <==> Rank(s'.runners[x].pc) < Rank(Released))
    ensures Unreleased(s') == Unreleased(s)
  {
  }

  lemma LocalKeepsJobs(s: Sys, s': Sys, id: string)
    requires JobsOk(s) && LocalStep(s, s', id)
    ensures JobsOk(s') && Unreleased(s') == Unreleased(s)
  {
    hide JobOk, Unreleased;
    assert s'.disk.Keys <= s.disk.Keys;
    hide Settled;
    assert s'.runners.Keys == s.runners.Keys && s'.table.recs.Keys == s.table.recs.Keys;
    assert JobOk(id, s'.table.recs[id], s'.runners[id]);
    assert forall x :: x in s.runners && x != id ==> s'.runners[x] == s.runners[x] && s'.table.recs[x] == s.table.recs[x];
    assert s'.table.jobs == s.table.jobs && s'.used == s.used;
    assert Rank(s.runners[id].pc) < Rank(Released) <==> Rank(s'.runners[id].pc) < Rank(Released);
    hide LocalStep;
    SameUnreleased(s, s');
  }

  lemma LocalKeepsLocks(s: Sys, s': Sys, id: string)
    requires JobsOk(s) && LocksOk(s) && LocalStep(s, s', id)
    ensures LocksOk(s')
  {
    LocalIsOnward(s, s', id);
    hide JobOk, Settled, Onward, LocksOk;
    LocksFrame(s, s');
  }

  /** No cleanup makes progress. */
  ghost predicate SweepsIdle(s: Sys, s': Sys) {
    && s'.runners.Keys == s.runners.Keys
    && s'.disk.Keys <= s.disk.Keys
    && forall c :: c in s.runners ==>
         && s'.runners[c].todo == s.runners[c].todo && s'.runners[c].deleted == s.runners[c].deleted
         && (Sweeping(s'.runners[c]) ==> s'.runners[c] == s.runners[c])
  }

  lemma SweepsFrame(s: Sys, s': Sys)
    requires Onward(s, s') && SweepsOk(s) && FreshSweep(s) && SweepsIdle(s, s')
    ensures SweepsOk(s') && FreshSweep(s')
  {
    hide SweepOk;
    forall c | c in s'.runners && Sweeping(s'.runners[c]) ensures SweepOk(s', s'.runners[c]) {
      SweepFrame(s, s', s.runners[c], s'.runners[c]);
    }
  }

  lemma LocalKeepsInv(cfg: Config, s: Sys, s': Sys, id: string)
    requires Inv(cfg, s) && LocalStep(s, s', id) && SweepsIdle(s, s')
    ensures Inv(cfg, s')
  {
    LocalKeepsJobs(s, s', id);
    LocalKeepsLocks(s, s', id);
    LocalIsOnward(s, s', id);
    hide JobOk, Settled, Onward, LocksOk, IdempotencyOk, DiskOk, SweepsOk, FreshSweep, SweepsIdle;
    IdempotencyFrame(s, s');
    DiskFrame(s, s');
    SweepsFrame(s, s');
  }

  /** A new object value and runner value for one job that keep what others rely on. */
  ghost predicate Progress(id: string, j0: JobView, r0: Runner, j: JobView, r: Runner) {
    && JobOk(id, j, r)
    && r.sub == r0.sub && j.started == j0.started
    && (j0.Done() ==> j.Done())
    && r.todo == r0.todo && r.deleted == r0.deleted
    && Rank(r0.pc) <= Rank(r.pc)
    && (r == r0 || Rank(r.pc) < Rank(Released))
    && (Rank(r0.pc) >= Rank(Saved) ==> r.res == r0.res)
  }

  ghost predicate Advance(s: Sys, id: string, j: JobView, r: Runner) {
    id in s.table.recs && id in s.runners && Progress(id, s.table.recs[id], s.runners[id], j, r)
  }

  lemma AdvanceSettles(s: Sys, id: string, j: JobView, r: Runner)
    requires JobsOk(s) && DiskOk(s) && Advance(s, id, j, r)
    ensures Settled(s, Updated(s, id, j, r))
  {
    hide JobOk, ForgottenOk, FilesOk, AuditOk, FilesSettle;
    JobsKeys(s);
    hide JobsOk;
    AdvanceFiles(s, id, j, r);
    AdvanceAudit(s, id, j, r);
  }

  lemma AdvanceFiles(s: Sys, id: string, j: JobView, r: Runner)
    requires s.runners.Keys == s.table.recs.Keys && FilesOk(s) && Advance(s, id, j, r)
    ensures FilesSettle(s, Updated(s, id, j, r))
  {
    hide JobOk;
  }

  lemma AdvanceAudit(s: Sys, id: string, j: JobView, r: Runner)
    requires s.runners.Keys == s.table.recs.Keys && AuditOk(s) && Advance(s, id, j, r)
    ensures AuditOk(Updated(s, id, j, r))
  {
    hide JobOk;
  }

  lemma AdvanceIsLocal(s: Sys, id: string, j: JobView, r: Runner)
    requires JobsOk(s) && DiskOk(s) && Advance(s, id, j, r)
    ensures LocalStep(s, Updated(s, id, j, r), id)
  {
    AdvanceSettles(s, id, j, r);
    hide JobOk, Settled, JobsOk, DiskOk;
    var s' := Updated(s, id, j, r);
    assert s'.table.recs[id] == j && s'.runners[id] == r;
  }

  lemma AdvanceIsIdle(s: Sys, id: string, j: JobView, r: Runner)
    requires JobsOk(s) && Advance(s, id, j, r)
    ensures SweepsIdle(s, Updated(s, id, j, r))
  {
    hide JobOk;
  }

  lemma AdvanceKeepsInv(cfg: Config, s: Sys, id: string, j: JobView, r: Runner)
    requires Inv(cfg, s) && Advance(s, id, j, r)
    ensures Inv(cfg, Updated(s, id, j, r))
  {
    hide Advance, LocalStep, SweepsIdle, Updated;
    AdvanceIsLocal(s, id, j, r);
    AdvanceIsIdle(s, id, j, r);
    LocalKeepsInv(cfg, s, Updated(s, id, j, r), id);
  }

  lemma PlainProgress(e: Event, id: string, j: JobView, r: Runner)
    requires Plain(e) && e.id == id && Ready(e, r) && JobOk(id, j, r)
    ensures Progress(id, j, r, JobAfter(e, j, r), RunnerAfter(e, j, r))
  {
  }

  lemma PlainIsAdvance(cfg: Config, s: Sys, e: Event)
    requires JobsOk(s) && Enabled(cfg, s, e) && Plain(e)
    ensures Advance(s, e.id, JobAfter(e, s.table.recs[e.id], s.runners[e.id]), RunnerAfter(e, s.table.recs[e.id], s.runners[e.id]))
  {
    hide JobOk, Progress, JobAfter, RunnerAfter;
    PlainProgress(e, e.id, s.table.recs[e.id], s.runners[e.id]);
  }

  lemma PlainKeepsInv(cfg: Config, s: Sys, e: Event)
    requires Inv(cfg, s) && Enabled(cfg, s, e) && Plain(e)
    ensures Inv(cfg, Apply(cfg, s, e))
  {
    hide JobsOk, SlotsOk, LocksOk, IdempotencyOk, DiskOk, SweepsOk, FreshSweep, Advance, JobAfter, RunnerAfter, Updated;
    PlainIsAdvance(cfg, s, e);
    hide Inv, Enabled;
    AdvanceKeepsInv(cfg, s, e.id, JobAfter(e, s.table.recs[e.id], s.runners[e.id]), RunnerAfter(e, s.table.recs[e.id], s.runners[e.id]));
  }

  /** Moving on without a write to the job object. */
  lemma NextPc(id: string, j: JobView, r: Runner, pc: Pc)
    requires JobOk(id, j, r)
    requires (r.pc == Checked && pc == Saved) || (r.pc == Saved && pc == Audited) || (Rank(ContextClosed) <= Rank(r.pc) <= Rank(pc))
    ensures JobOk(id, j, r.(pc := pc))
  {
  }

  lemma AuditFrame(s: Sys, s': Sys)
    requires AuditOk(s) && s'.audit == s.audit && s'.table.recs.Keys == s.table.recs.Keys && s'.runners.Keys == s.runners.Keys
    requires forall x :: x in s.runners ==> s'.runners[x].res == s.runners[x].res && Rank(s'.runners[x].pc) >= Rank(s.runners[x].pc)
    ensures AuditOk(s')
  {
  }

  lemma FilesFrame(s: Sys, s': Sys)
    requires s.runners.Keys == s.table.recs.Keys && FilesOk(s) && s'.disk == s.disk && s'.runners.Keys == s.runners.Keys
    requires forall x :: x in s.runners ==> s'.runners[x].res == s.runners[x].res && Rank(s'.runners[x].pc) >= Rank(s.runners[x].pc)
    ensures FilesSettle(s, s')
  {
  }

  lemma SavingSettles(s: Sys, id: string, ok: bool)
    requires JobsOk(s) && DiskOk(s) && At(s, id, Checked) && (ok ==> id in s.disk)
    ensures Settled(s, Saving(s, id, ok))
  {
    hide JobOk, ForgottenOk, FilesOk, AuditOk, FilesSettle;
    JobsKeys(s);
    hide JobsOk;
    var s' := Saving(s, id, ok);
    LaterRank();
    assert forall x :: x in s.runners && x != id ==> s'.runners[x] == s.runners[x];
    AuditFrame(s, s');
    SavingFiles(s, id, ok);
  }

  lemma LaterRank()
    ensures Rank(Saved) >= Rank(Checked) && Rank(Audited) >= Rank(Saved)
  {
  }

  lemma SavingFiles(s: Sys, id: string, ok: bool)
    requires s.runners.Keys == s.table.recs.Keys && FilesOk(s) && At(s, id, Checked) && (ok ==> id in s.disk)
    ensures FilesSettle(s, Saving(s, id, ok))
  {
    var s' := Saving(s, id, ok);
    assert s'.disk.Keys == s.disk.Keys && s'.runners[id].pc == Saved;
    forall x | x in s'.disk && x in s.table.recs && x in s'.runners && s'.disk[x].result.Some?
      ensures Rank(s'.runners[x].pc) >= Rank(Saved) && s'.disk[x].result == s'.runners[x].res
    {
      assert x != id ==> s'.disk[x] == s.disk[x] && s'.runners[x] == s.runners[x];
    }
  }

  lemma AuditingAudit(s: Sys, id: string, ok: bool)
    requires AuditOk(s) && At(s, id, Saved) && s.runners[id].res.Some?
    ensures AuditOk(Auditing(s, id, ok))
  {
    var s' := Auditing(s, id, ok);
    assert s'.runners[id].pc == Audited && s'.runners[id].res == s.runners[id].res;
    forall x | x in s'.audit
      ensures x in s'.table.recs && x in s'.runners && Rank(s'.runners[x].pc) >= Rank(Audited) && s'.runners[x].res == Some(s'.audit[x])
    {
      assert x != id ==> x in s.audit && s'.audit[x] == s.audit[x] && s'.runners[x] == s.runners[x];
    }
  }

  lemma AuditingSettles(s: Sys, id: string, ok: bool)
    requires JobsOk(s) && DiskOk(s) && At(s, id, Saved) && s.runners[id].res.Some?
    ensures Settled(s, Auditing(s, id, ok))
  {
    hide JobOk, ForgottenOk, FilesOk, FilesSettle, AuditOk;
    JobsKeys(s);
    hide JobsOk;
    LaterRank();
    var s' := Auditing(s, id, ok);
    assert forall x :: x in s.runners && x != id ==> s'.runners[x] == s.runners[x];
    AuditingAudit(s, id, ok);
    FilesFrame(s, s');
  }

  lemma WriterIsLocal(s: Sys, s': Sys, id: string)
    requires id in s.table.recs && id in s.runners && s'.table == s.table && s'.used == s.used
    requires s'.runners.Keys == s.runners.Keys && s'.runners == s.runners[id := s.runners[id].(pc := s'.runners[id].pc)]
    requires Rank(s.runners[id].pc) <= Rank(s'.runners[id].pc) < Rank(Released)
    requires JobOk(id, s.table.recs[id], s'.runners[id]) && Settled(s, s')
    ensures LocalStep(s, s', id) && SweepsIdle(s, s')
  {
    assert s.table.recs == s.table.recs[id := s.table.recs[id]];
    assert s'.disk.Keys <= s.disk.Keys;
    hide JobOk, Settled;
  }

  lemma SavingIsLocal(s: Sys, id: string, ok: bool)
    requires JobsOk(s) && DiskOk(s) && At(s, id, Checked) && (ok ==> id in s.disk)
    ensures LocalStep(s, Saving(s, id, ok), id) && SweepsIdle(s, Saving(s, id, ok))
  {
    hide JobOk, DiskOk, Settled, LocalStep, SweepsIdle;
    assert JobOk(id, s.table.recs[id], s.runners[id]);
    SavingSettles(s, id, ok);
    hide JobsOk;
    NextPc(id, s.table.recs[id], s.runners[id], Saved);
    var s' := Saving(s, id, ok);
    assert s'.runners[id] == s.runners[id].(pc := Saved);
    WriterIsLocal(s, s', id);
  }

  lemma AuditingIsLocal(s: Sys, id: string, ok: bool)
    requires JobsOk(s) && DiskOk(s) && At(s, id, Saved) && s.runners[id].res.Some?
    ensures LocalStep(s, Auditing(s, id, ok), id) && SweepsIdle(s, Auditing(s, id, ok))
  {
    hide JobOk, DiskOk, Settled, LocalStep, SweepsIdle;
    assert JobOk(id, s.table.recs[id], s.runners[id]);
    AuditingSettles(s, id, ok);
    hide JobsOk;
    NextPc(id, s.table.recs[id], s.runners[id], Audited);
    var s' := Auditing(s, id, ok);
    assert s'.runners[id] == s.runners[id].(pc := Audited);
    WriterIsLocal(s, s', id);
  }

  lemma WriterKeepsInv(cfg: Config, s: Sys, e: Event)
    requires Inv(cfg, s) && Enabled(cfg, s, e) && (e.SaveResult? || e.WriteAudit?)
    ensures Inv(cfg, Apply(cfg, s, e))
  {
    hide LocalStep, SweepsIdle, JobsOk, SlotsOk, DiskOk, SweepsOk, FreshSweep, LocksOk, IdempotencyOk, Saving, Auditing;
    match e {
      case SaveResult(id, ok) => SavingIsLocal(s, id, ok);
      case WriteAudit(id, ok) => AuditingIsLocal(s, id, ok);
    }
    LocalKeepsInv(cfg, s, Apply(cfg, s, e), e.id);
  }

  /** A step of a cleanup: only its runner's cleanup variables change, and directories may go. */
  ghost predicate CleanerStep(s: Sys, s': Sys, id: string) {
    && s'.table == s.table && s'.used == s.used && s'.audit == s.audit
    && s'.runners.Keys == s.runners.Keys
    && s'.disk.Keys <= s.disk.Keys
    && (forall x :: x in s'.disk ==> s'.disk[x] == s.disk[x])
    && id in s.runners
    && (forall x :: x in s.runners && x != id ==> s'.runners[x] == s.runners[x])
    && Rank(Released) <= Rank(s.runners[id].pc) <= Rank(s'.runners[id].pc)
    && Rank(s'.runners[id].pc) >= Rank(Snapshotted)
    && s'.runners[id].sub == s.runners[id].sub && s'.runners[id].child == s.runners[id].child
    && s'.runners[id].seen == s.runners[id].seen && s'.runners[id].res == s.runners[id].res
    && (Sweeping(s'.runners[id]) ==> SweepOk(s', s'.runners[id]))
  }

  lemma CleanerIsOnward(s: Sys, s': Sys, id: string)
    requires JobsOk(s) && CleanerStep(s, s', id)
    ensures Onward(s, s')
  {
    hide JobOk;
  }

  lemma CleanerJobOk(id: string, j: JobView, r: Runner, r': Runner)
    requires JobOk(id, j, r) && Rank(Released) <= Rank(r.pc) <= Rank(r'.pc)
    requires r'.sub == r.sub && r'.child == r.child && r'.seen == r.seen && r'.res == r.res
    ensures JobOk(id, j, r')
  {
  }

  lemma CleanerKeepsJobs(cfg: Config, s: Sys, s': Sys, id: string)
    requires JobsOk(s) && SlotsOk(cfg, s) && CleanerStep(s, s', id)
    ensures JobsOk(s') && SlotsOk(cfg, s')
  {
    hide JobOk, SweepOk, Unreleased;
    assert JobOk(id, s'.table.recs[id], s'.runners[id]) by {
      CleanerJobOk(id, s.table.recs[id], s.runners[id], s'.runners[id]);
    }
    SameUnreleased(s, s');
  }

  lemma CleanerKeepsSweeps(s: Sys, s': Sys, id: string)
    requires JobsOk(s) && SweepsOk(s) && FreshSweep(s) && CleanerStep(s, s', id)
    ensures SweepsOk(s') && FreshSweep(s')
  {
    hide SweepOk, JobOk, Onward;
    CleanerIsOnward(s, s', id);
    assert id in s'.runners && (Sweeping(s'.runners[id]) ==> SweepOk(s', s'.runners[id]));
    assert forall x :: x in s.runners && x != id ==> s'.runners[x] == s.runners[x];
    assert s'.runners.Keys == s.runners.Keys && s'.disk.Keys <= s.disk.Keys;
    hide JobsOk, CleanerStep;
    forall c | c in s'.runners && Sweeping(s'.runners[c]) ensures SweepOk(s', s'.runners[c]) {
      if c != id {
        SweepFrame(s, s', s.runners[c], s'.runners[c]);
      }
    }
  }

  lemma CleanerSettles(s: Sys, s': Sys, id: string)
    requires JobsOk(s) && DiskOk(s) && CleanerStep(s, s', id)
    ensures Settled(s, s')
  {
    hide JobOk, SweepOk;
    JobsKeys(s);
    hide JobsOk, ForgottenOk;
    assert forall x :: x in s.runners ==> s'.runners[x].res == s.runners[x].res && Rank(s'.runners[x].pc) >= Rank(s.runners[x].pc);
  }

  lemma CleanerKeepsInv(cfg: Config, s: Sys, s': Sys, id: string)
    requires Inv(cfg, s) && CleanerStep(s, s', id)
    ensures Inv(cfg, s')
  {
    hide JobOk, SweepOk, Settled, Onward, SlotsOk, LocksOk, IdempotencyOk, DiskOk, SweepsOk, FreshSweep;
    CleanerKeepsJobs(cfg, s, s', id);
    CleanerIsOnward(s, s', id);
    CleanerSettles(s, s', id);
    CleanerKeepsSweeps(s, s', id);
    assert s'.table == s.table;
    assert forall x :: x in s.runners && Rank(s.runners[x].pc) < Rank(Released) ==> Rank(s'.runners[x].pc) < Rank(Released);
    hide CleanerStep;
    LocksFrame(s, s');
    IdempotencyFrame(s, s');
    DiskFrame(s, s');
  }

  lemma SnapshotSweep(s: Sys, r: Runner, protected: set<string>)
    requires JobsOk(s) && DiskOk(s)
    requires s.table.jobs * Unfinished(s) <= protected <= s.table.jobs
    requires r.todo == {} && r.deleted == {}
    ensures SweepOk(s, r.(pc := Snapshotted, snapshotIds := s.table.recs.Keys, protected := protected))
  {
    hide JobOk;
  }

  lemma PlanSweep(cfg: Config, s: Sys, r: Runner, listing: seq<Entry>, cutoff: int, plan: set<string>)
    requires SweepOk(s, r) && r.pc == Snapshotted && s.disk.Keys <= s.used
    requires Ids(listing) <= s.disk.Keys && IsPlan(cfg, cutoff, r.protected, listing, plan)
    ensures SweepOk(s, r.(pc := Planned, todo := plan))
  {
    PlanIsListedAndUnprotected(cfg, cutoff, r.protected, listing, plan);
    hide IsPlan, Ids;
    assert r.deleted == {};
  }

  lemma RemoveSweep(s: Sys, s': Sys, r: Runner, victim: string)
    requires SweepOk(s, r) && victim in r.todo
    requires s' == s.(runners := s'.runners, disk := s.disk - {victim})
    ensures SweepOk(s', r.(todo := r.todo - {victim}, deleted := r.deleted + {victim}))
  {
  }

  lemma CleanerAfterSweep(cfg: Config, s: Sys, e: Event, r: Runner)
    requires JobsOk(s) && DiskOk(s) && Cleaning(e) && CleanerReady(cfg, s, e, r) && !e.RemoveDir?
    requires if e.Snapshot? then r.todo == {} && r.deleted == {} else SweepOk(s, r)
    ensures !e.FailSweep? ==> SweepOk(s, CleanerAfter(e, s.table.recs.Keys, r))
  {
    hide JobOk, DiskOk, SweepOk, IsPlan, Ids, Unfinished, DistinctIds;
    JobsKeys(s);
    hide JobsOk;
    match e {
      case Snapshot(id, protected) => SnapshotSweep(s, r, protected);
      case PlanCleanup(id, listing, cutoff, plan) => PlanSweep(cfg, s, r, listing, cutoff, plan);
      case EndSweep(id) => SweepEnds(s, r);
      case FailSweep(id) =>
    }
  }

  lemma CleanedKeepsSweep(cfg: Config, s: Sys, e: Event)
    requires JobsOk(s) && DiskOk(s) && Cleaning(e) && e.id in s.runners
    requires CleanerReady(cfg, s, e, s.runners[e.id])
    requires if e.Snapshot? then s.runners[e.id].todo == {} && s.runners[e.id].deleted == {} else SweepOk(s, s.runners[e.id])
    ensures Sweeping(Cleaned(s, e).runners[e.id]) ==> SweepOk(Cleaned(s, e), Cleaned(s, e).runners[e.id])
  {
    hide JobsOk, DiskOk, SweepOk, IsPlan, Listed, Unfinished;
    var s' := Cleaned(s, e);
    if e.RemoveDir? {
      RemoveSweep(s, s', s.runners[e.id], e.victim);
    } else {
      CleanerAfterSweep(cfg, s, e, s.runners[e.id]);
      hide CleanerReady;
      if !e.FailSweep? {
        SweepFrame'(s, s', s'.runners[e.id]);
      }
    }
  }

  lemma SweepFrame'(s: Sys, s': Sys, r: Runner)
    requires SweepOk(s, r) && s'.table.recs == s.table.recs && s'.disk == s.disk && s'.used == s.used
    ensures SweepOk(s', r)
  {
  }

  lemma SweepEnds(s: Sys, r: Runner)
    requires SweepOk(s, r) && r.todo == {}
    ensures SweepOk(s, r.(pc := Swept))
  {
  }

  lemma CleanedFrame(s: Sys, e: Event)
    requires Cleaning(e) && e.id in s.runners
    requires Rank(s.runners[e.id].pc) >= Rank(Released)
    requires if e.Snapshot? then s.runners[e.id].pc == Released else Rank(Snapshotted) <= Rank(s.runners[e.id].pc) <= Rank(Planned)
    requires e.PlanCleanup? ==> s.runners[e.id].pc == Snapshotted
    requires Sweeping(Cleaned(s, e).runners[e.id]) ==> SweepOk(Cleaned(s, e), Cleaned(s, e).runners[e.id])
    ensures CleanerStep(s, Cleaned(s, e), e.id)
  {
    hide SweepOk;
  }

  lemma CleanerFacts(cfg: Config, s: Sys, e: Event)
    requires SweepsOk(s) && FreshSweep(s) && Enabled(cfg, s, e) && Cleaning(e)
    ensures e.id in s.runners && CleanerReady(cfg, s, e, s.runners[e.id])
    ensures if e.Snapshot? then s.runners[e.id].todo == {} && s.runners[e.id].deleted == {} else SweepOk(s, s.runners[e.id])
  {
    hide SweepOk, Listed, Unfinished, IsPlan;
  }

  lemma CleanedKeepsInv(cfg: Config, s: Sys, e: Event)
    requires Inv(cfg, s) && Enabled(cfg, s, e) && Cleaning(e)
    ensures Inv(cfg, Apply(cfg, s, e))
  {
    hide JobsOk, SlotsOk, LocksOk, IdempotencyOk, DiskOk, SweepsOk, FreshSweep, SweepOk, Cleaned, CleanerStep, Listed, IsPlan;
    CleanerFacts(cfg, s, e);
    CleanedKeepsSweep(cfg, s, e);
    CleanedFrame(s, e);
    CleanerKeepsInv(cfg, s, Cleaned(s, e), e.id);
  }

  lemma ReleasingSlots(cfg: Config, s: Sys, id: string)
    requires SlotsOk(cfg, s) && At(s, id, ContextClosed)
    ensures s.table.sem > 0 && SlotsOk(cfg, Releasing(s, id))
  {
    var s' := Releasing(s, id);
    assert id in Unreleased(s);
    assert Unreleased(s') == Unreleased(s) - {id};
  }

  lemma ReleasingLocks(s: Sys, id: string)
    requires s.runners.Keys == s.table.recs.Keys && LocksOk(s) && At(s, id, ContextClosed) && s.table.recs[id].Done()
    ensures LocksOk(Releasing(s, id))
  {
    var s' := Releasing(s, id);
    assert s'.table.recs == s.table.recs;
    assert s'.runners.Keys == s.runners.Keys && forall x :: x in s.runners && x != id ==> s'.runners[x] == s.runners[x];
    assert forall k :: k in s'.table.locks ==> k in s.table.locks && s'.table.locks[k] == s.table.locks[k] && s.table.locks[k] != id;
    assert forall k :: k in s.table.locks && s.table.locks[k] != id ==> k in s'.table.locks;
    hide Releasing, Release;
  }

  /** Only the runner's program counter moves, after publication, and the jobs map may shrink. */
  ghost predicate PcStep(s: Sys, s': Sys, id: string, pc: Pc) {
    && s'.table.recs == s.table.recs && s'.table.jobs <= s.table.jobs && s'.used == s.used
    && s'.disk == s.disk && s'.audit == s.audit
    && id in s.runners && Rank(ContextClosed) <= Rank(s.runners[id].pc) <= Rank(pc)
    && s'.runners == s.runners[id := s.runners[id].(pc := pc)]
  }

  lemma PublishedIsDone(s: Sys, id: string)
    requires JobsOk(s) && id in s.table.recs && id in s.runners && Rank(s.runners[id].pc) >= Rank(Published)
    ensures s.table.recs[id].Done()
  {
    assert JobOk(id, s.table.recs[id], s.runners[id]);
    hide JobsOk;
  }

  lemma PcStepJobs(s: Sys, s': Sys, id: string, pc: Pc)
    requires JobsOk(s) && PcStep(s, s', id, pc)
    ensures JobsOk(s') && Onward(s, s')
  {
    hide JobOk;
    assert JobOk(id, s.table.recs[id], s.runners[id]);
    NextPc(id, s'.table.recs[id], s.runners[id], pc);
    assert forall x :: x in s.runners && x != id ==> s'.runners[x] == s.runners[x];
    assert s'.runners.Keys == s.runners.Keys && s'.runners[id] == s.runners[id].(pc := pc);
  }

  lemma PcStepSettles(s: Sys, s': Sys, id: string, pc: Pc)
    requires s.runners.Keys == s.table.recs.Keys && DiskOk(s) && PcStep(s, s', id, pc)
    ensures Settled(s, s')
  {
  }

  lemma PcStepIdle(s: Sys, s': Sys, id: string, pc: Pc)
    requires PcStep(s, s', id, pc) && (pc == Released || pc == Finished)
    ensures SweepsIdle(s, s')
  {
  }

  lemma PcStepFrame(s: Sys, s': Sys, id: string, pc: Pc)
    requires JobsOk(s) && DiskOk(s) && PcStep(s, s', id, pc) && (pc == Released || pc == Finished)
    ensures JobsOk(s') && Onward(s, s') && SweepsIdle(s, s') && Settled(s, s')
  {
    hide JobOk, DiskOk, Onward, Settled, PcStep, SweepsIdle;
    PcStepIdle(s, s', id, pc);
    PcStepJobs(s, s', id, pc);
    JobsKeys(s);
    hide JobsOk;
    PcStepSettles(s, s', id, pc);
  }

  lemma ReleasingKeepsInv(cfg: Config, s: Sys, id: string)
    requires Inv(cfg, s) && At(s, id, ContextClosed)
    ensures Inv(cfg, Releasing(s, id))
  {
    hide JobOk, Onward, Settled, SlotsOk, LocksOk, IdempotencyOk, DiskOk, SweepsOk, FreshSweep, SweepsIdle, JobsOk;
    var s' := Releasing(s, id);
    PublishedIsDone(s, id);
    ReleasingSlots(cfg, s, id);
    JobsKeys(s);
    ReleasingLocks(s, id);
    PcStepFrame(s, s', id, Released);
    IdempotencyFrame(s, s');
    DiskFrame(s, s');
    SweepsFrame(s, s');
  }

  lemma JobsKeys(s: Sys)
    requires JobsOk(s)
    ensures s.runners.Keys == s.table.recs.Keys && s.table.jobs <= s.table.recs.Keys <= s.used && s.disk.Keys <= s.used
  {
  }

  lemma DropKeepsIdempotency(s: Sys, s': Sys, dead: set<string>)
    requires Onward(s, s') && s.table.jobs <= s.table.recs.Keys && IdempotencyOk(s)
    requires s'.table == Drop(s.table, dead)
    ensures s'.table.jobs <= s'.table.recs.Keys && IdempotencyOk(s')
  {
  }

  lemma DropKeepsDisk(s: Sys, s': Sys, dead: set<string>)
    requires Onward(s, s') && DiskOk(s) && Settled(s, s')
    requires s'.table == Drop(s.table, dead)
    requires forall x :: x in dead && x in s.table.recs && !s.table.recs[x].Done() ==> x !in s.disk
    ensures DiskOk(s')
  {
  }

  lemma DeletedHaveNoFiles(s: Sys, id: string)
    requires SweepsOk(s) && At(s, id, Swept)
    ensures s.runners[id].deleted !! s.disk.Keys
  {
  }

  lemma StaleAreDone(cfg: Config, t: Table, order: seq<string>, cutoff: int)
    requires PruneOrder(cfg, t, order)
    ensures forall x :: x in StaleIds(cfg, t, order, cutoff) ==> x in t.recs && t.recs[x].Done()
  {
  }

  lemma PruningSlots(cfg: Config, s: Sys, s': Sys)
    requires SlotsOk(cfg, s) && s'.table.sem == s.table.sem && Unreleased(s') == Unreleased(s)
    ensures SlotsOk(cfg, s')
  {
  }

  lemma PruningKeepsInv(cfg: Config, s: Sys, id: string, order: seq<string>, now: int)
    requires Inv(cfg, s) && At(s, id, Swept) && PruneOrder(cfg, s.table, order)
    ensures Inv(cfg, Pruning(cfg, s, id, order, now))
  {
    hide JobOk, Onward, Settled, SlotsOk, LocksOk, IdempotencyOk, DiskOk, SweepsOk, FreshSweep, SweepsIdle, JobsOk, SweepOk, StaleIds, PruneOrder, Unreleased;
    var s' := Pruning(cfg, s, id, order, now);
    var dead := s.runners[id].deleted + StaleIds(cfg, s.table, order, Cutoff(cfg, now));
    DeletedHaveNoFiles(s, id);
    StaleAreDone(cfg, s.table, order, Cutoff(cfg, now));
    JobsKeys(s);
    PcStepFrame(s, s', id, Finished);
    SameUnreleased(s, s');
    PruningSlots(cfg, s, s');
    LocksFrame(s, s');
    DropKeepsIdempotency(s, s', dead);
    DropKeepsDisk(s, s', dead);
    SweepsFrame(s, s');
  }
}
