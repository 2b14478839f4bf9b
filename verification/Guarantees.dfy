/** What the daemon promises in every reachable state and along every run. */
module Guarantees {
  import opened Types
  import opened Lifecycle
  import opened Protocol
  import opened Invariant
  import opened Reachability
  import opened History

  // ----- locks and slots

  /** Two unfinished jobs never share a lock key, and the lock index names the one there is. */
  lemma LockExclusion(cfg: Config, s: Sys, a: string, b: string)
    requires Reachable(cfg, s)
    requires {a, b} <= Unfinished(s)
    requires s.table.recs[a].lockKey == s.table.recs[b].lockKey != ""
    ensures a == b && s.table.recs[a].lockKey in s.table.locks && s.table.locks[s.table.recs[a].lockKey] == a
  {
    hide Reachable, JobsOk, SlotsOk, IdempotencyOk, DiskOk, SweepsOk, FreshSweep;
    ReachableInv(cfg, s);
    JobsKeys(s);
    assert a in Unfinished(s) && b in Unfinished(s);
  }

  /** A lock entry always names a job with that key whose slot is still taken, so a superseded
      holder's late release removes nothing of its successor's. */
  lemma LockEntriesAreLive(cfg: Config, s: Sys, key: string)
    requires Reachable(cfg, s) && key in s.table.locks
    ensures var id := s.table.locks[key];
      id in Unreleased(s) && id in s.table.recs && s.table.recs[id].lockKey == key
  {
    hide Reachable, JobsOk, SlotsOk, IdempotencyOk, DiskOk, SweepsOk, FreshSweep;
    ReachableInv(cfg, s);
    JobsKeys(s);
  }

  lemma UnfinishedAreUnreleased(s: Sys)
    requires JobsOk(s)
    ensures Unfinished(s) <= Unreleased(s)
  {
    hide JobOk;
    forall id | id in Unfinished(s) ensures id in Unreleased(s) {
      assert JobOk(id, s.table.recs[id], s.runners[id]);
      if Rank(s.runners[id].pc) >= Rank(Released) {
        ReleasedIsDone(id, s.table.recs[id], s.runners[id]);
      }
    }
  }

  /** The semaphore counts exactly the unreleased jobs, unfinished jobs fit into the slots,
      and a runner about to release always finds a token. */
  lemma SlotConservation(cfg: Config, s: Sys)
    requires Reachable(cfg, s)
    ensures s.table.sem == |Unreleased(s)| <= cfg.slots
    ensures |Unfinished(s)| <= cfg.slots
    ensures forall id :: At(s, id, ContextClosed) ==> s.table.sem > 0
  {
    hide Reachable, JobOk, LocksOk, IdempotencyOk, DiskOk, SweepsOk, FreshSweep;
    ReachableInv(cfg, s);
    UnfinishedAreUnreleased(s);
    SubsetSize(Unfinished(s), Unreleased(s));
    forall id | At(s, id, ContextClosed) ensures s.table.sem > 0 {
      assert id in Unreleased(s);
    }
  }

  /** A preparation that admits nothing keeps every object, the jobs map, the idempotency
      index and the semaphore, and at most forgets a lock whose holder has finished. */
  lemma FailedPrepareFrame(cfg: Config, s: Sys, sub: Submission, newId: string, now: int, outcome: StoreOutcome)
    requires !PrepareVerdict(s.table, cfg.slots, sub, newId, outcome).Admitted?
    ensures var t, t' := s.table, Prepare(s.table, cfg.slots, sub, newId, now, outcome);
      && t'.recs == t.recs && t'.jobs == t.jobs && t'.idempotency == t.idempotency && t'.sem == t.sem
      && (t'.locks == t.locks
          || (&& sub.req.lockKey in t.locks && t.locks[sub.req.lockKey] in t.recs
              && t.recs[t.locks[sub.req.lockKey]].Done()
              && t'.locks == t.locks - {sub.req.lockKey}))
      && (sub.req.lockKey in t'.locks && t'.locks[sub.req.lockKey] in t.recs && t.recs[t'.locks[sub.req.lockKey]].Done() ==>
            || sub.req.lockKey == ""
            || PrepareVerdict(t, cfg.slots, sub, newId, outcome).Reused?
            || PrepareVerdict(t, cfg.slots, sub, newId, outcome).IdempotencyConflict?)
  {
  }

  // ----- the state of one job

  /** Done is closed at most once and exactly when there is a result; the state is the
      result's, or canceled, or queued or running; and the child's context is canceled once it
      is there and a cancel was requested, whichever came first, and otherwise not before its
      runner returns. */
  lemma JobStates(cfg: Config, s: Sys, id: string)
    requires Reachable(cfg, s) && id in s.table.recs
    ensures id in s.runners
    ensures var j, pc := s.table.recs[id], s.runners[id].pc;
      && j.closes <= 1
      && (j.closes == 1 <==> j.result.Some?)
      && (j.result.Some? ==> j.state == j.result.value.state)
      && (j.result.None? && j.cancelRequested ==> j.state == Canceled)
      && (j.result.None? && !j.cancelRequested ==> j.state == if pc == Queueing then Queued else Running)
      && (j.cancelCalls > 0 <==> (j.cancelRequested && j.cancelBound) || Rank(pc) >= Rank(ContextClosed))
      && (j.cancelBound <==> Rank(pc) >= Rank(Bound))
  {
    hide Reachable, SlotsOk, LocksOk, IdempotencyOk, DiskOk, SweepsOk, FreshSweep;
    ReachableInv(cfg, s);
    assert JobOk(id, s.table.recs[id], s.runners[id]);
    hide JobsOk;
  }

  /** Once published, a result, the state it gives the job and its done channel stay. */
  lemma PublishedIsFinal(cfg: Config, s: Sys, es: seq<Event>, id: string)
    requires Reachable(cfg, s) && Run(cfg, s, es)
    requires id in s.table.recs && s.table.recs[id].result.Some?
    ensures id in After(cfg, s, es).table.recs
    ensures var j, j' := s.table.recs[id], After(cfg, s, es).table.recs[id];
      j'.result == j.result && j'.state == j.state && j'.closes == j.closes == 1
  {
    hide Reachable, Inv, Apply, Enabled, JobOk;
    ReachableInv(cfg, s);
    RunKeepsInv(cfg, s, es);
    RunFollows(cfg, s, es, id);
    ResultMeansClosedOnce(cfg, s, id);
    ResultMeansClosedOnce(cfg, After(cfg, s, es), id);
  }

  lemma ResultMeansClosedOnce(cfg: Config, s: Sys, id: string)
    requires Inv(cfg, s) && id in s.table.recs && s.table.recs[id].result.Some?
    ensures s.table.recs[id].closes == 1
  {
    hide SlotsOk, LocksOk, IdempotencyOk, DiskOk, SweepsOk, FreshSweep;
    assert JobOk(id, s.table.recs[id], s.runners[id]);
    hide JobsOk;
  }

  // ----- the outcome of a cancel

  /** Everything the runner wrote about the job carries `res`. */
  ghost predicate Carries(s: Sys, id: string, res: RunResult) {
    && id in s.table.recs
    && (s.table.recs[id].result.Some? ==> s.table.recs[id].result == Some(res))
    && (id in s.audit ==> s.audit[id] == res)
    && (id in s.disk && s.disk[id].result.Some? ==> s.disk[id].result == Some(res))
  }

  lemma CarriesRes(cfg: Config, s: Sys, id: string)
    requires Inv(cfg, s) && id in s.table.recs && id in s.runners && s.runners[id].res.Some?
    ensures Carries(s, id, s.runners[id].res.value)
  {
    hide SlotsOk, LocksOk, IdempotencyOk, SweepsOk, FreshSweep;
    assert JobOk(id, s.table.recs[id], s.runners[id]);
    hide JobsOk;
  }

  lemma ResIsOutcome(cfg: Config, s: Sys, id: string)
    requires Inv(cfg, s) && id in s.table.recs && id in s.runners && Rank(s.runners[id].pc) >= Rank(Checked)
    ensures var r := s.runners[id]; r.child.Some? && r.res == Some(Outcome(r.child.value, r.seen))
  {
    hide SlotsOk, LocksOk, IdempotencyOk, DiskOk, SweepsOk, FreshSweep;
    assert JobOk(id, s.table.recs[id], s.runners[id]);
    hide JobsOk;
  }

  /** `res` is what the child returned with state, exit code and error replaced if `canceled`. */
  predicate Replaced(child: RunResult, canceled: bool, res: RunResult) {
    && res.jobId == child.jobId && res.timedOut == child.timedOut && res.finishedAt == child.finishedAt
    && res.state == (if canceled then Canceled else child.state)
    && res.exitCode == (if canceled then -1 else child.exitCode)
    && res.error == (if canceled then "job canceled" else child.error)
  }

  /** Past the check a runner holds its child's result, so replaced, and whatever has been
      saved, audited or published is that. */
  lemma ResultIsReplaced(cfg: Config, s: Sys, id: string)
    requires Inv(cfg, s) && id in s.table.recs && id in s.runners && Rank(s.runners[id].pc) >= Rank(Checked)
    ensures var r := s.runners[id];
      && r.child.Some? && r.res.Some? && r.child.value.jobId == id
      && Replaced(r.child.value, r.seen, r.res.value) && Carries(s, id, r.res.value)
  {
    hide Carries;
    ResIsOutcome(cfg, s, id);
    CarriesRes(cfg, s, id);
  }

  /** A cancel accepted before the runner's check decides the outcome: whatever the child
      returns and whatever else happens, result.json, the audit log and the published
      result say canceled with exit code -1, and the rest is the child's. */
  lemma EarlyCancelDecides(cfg: Config, s: Sys, es: seq<Event>, id: string)
    requires Reachable(cfg, s) && Run(cfg, s, es)
    requires id in s.table.recs && id in s.runners
    requires s.table.recs[id].cancelRequested && Rank(s.runners[id].pc) < Rank(Checked)
    ensures var s' := After(cfg, s, es);
      && id in s'.runners
      && (Rank(s'.runners[id].pc) >= Rank(Checked) ==>
            && s'.runners[id].child.Some? && s'.runners[id].res.Some?
            && var child, res := s'.runners[id].child.value, s'.runners[id].res.value;
               && Carries(s', id, res)
               && res.state == Canceled && res.exitCode == -1 && res.error == "job canceled"
               && res.jobId == child.jobId == id && res.timedOut == child.timedOut && res.finishedAt == child.finishedAt)
  {
    hide Reachable, Inv, Apply, Enabled, JobOk, Carries;
    ReachableInv(cfg, s);
    RunKeepsInv(cfg, s, es);
    RunFollows(cfg, s, es, id);
    var s' := After(cfg, s, es);
    if Rank(s'.runners[id].pc) >= Rank(Checked) {
      ResultIsReplaced(cfg, s', id);
    }
  }

  /** The check is where it is decided: on every run behind it, what is saved, audited and
      published is the child's result; state, exit code and error are replaced exactly if a
      cancel had been accepted by then, and nothing else ever is. */
  lemma CheckDecides(cfg: Config, s: Sys, es: seq<Event>, id: string)
    requires Reachable(cfg, s) && At(s, id, Ran) && Enabled(cfg, s, CheckCancel(id))
    requires Run(cfg, Apply(cfg, s, CheckCancel(id)), es)
    ensures s.runners[id].child.Some?
    ensures var s', child, asked := After(cfg, Apply(cfg, s, CheckCancel(id)), es), s.runners[id].child.value, s.table.recs[id].cancelRequested;
      && id in s'.runners && s'.runners[id].res.Some?
      && var res := s'.runners[id].res.value;
         && Carries(s', id, res)
         && res.jobId == child.jobId == id && res.timedOut == child.timedOut && res.finishedAt == child.finishedAt
         && (if asked then res.state == Canceled && res.exitCode == -1 && res.error == "job canceled"
             else res.state == child.state && res.exitCode == child.exitCode && res.error == child.error)
  {
    hide Reachable, Inv, JobOk, Carries;
    ReachableInv(cfg, s);
    var s1 := Apply(cfg, s, CheckCancel(id));
    assert s1.runners[id].pc == Checked && s1.runners[id].child == s.runners[id].child && s1.runners[id].seen == s.table.recs[id].cancelRequested;
    assert id in s1.table.recs;
    StepKeepsInv(cfg, s, CheckCancel(id));
    hide Apply, Enabled;
    ResultIsReplaced(cfg, s1, id);
    RunKeepsInv(cfg, s1, es);
    RunFollows(cfg, s1, es, id);
    CarriesRes(cfg, After(cfg, s1, es), id);
  }

  /** A cancel that first arrives anywhere between the check and the publication is accepted and
      shown as canceled, yet on every run what is saved, audited and published is the child's
      result. */
  lemma LateCancelIsLost(cfg: Config, s: Sys, id: string)
    requires Reachable(cfg, s) && id in s.table.recs && id in s.runners
    requires Rank(Checked) <= Rank(s.runners[id].pc) < Rank(Published) && !s.table.recs[id].cancelRequested
    ensures s.table.recs[id].Cancelable() && Enabled(cfg, s, RequestCancel(id)) && s.runners[id].child.Some?
    ensures var s1 := Apply(cfg, s, RequestCancel(id));
      && id in s1.table.recs && s1.table.recs[id].state == Canceled
      && forall es :: Run(cfg, s1, es) ==> Carries(After(cfg, s1, es), id, s.runners[id].child.value)
  {
    hide Reachable, Carries, Inv;
    ReachableInv(cfg, s);
    UnseenIsChild(cfg, s, id);
    CancelLate(cfg, s, id);
    hide Apply, Enabled;
    var s1 := Apply(cfg, s, RequestCancel(id));
    StepKeepsInv(cfg, s, RequestCancel(id));
    hide Run, After;
    forall es | Run(cfg, s1, es) ensures Carries(After(cfg, s1, es), id, s.runners[id].child.value) {
      RunKeepsInv(cfg, s1, es);
      RunFollows(cfg, s1, es, id);
      CarriesRes(cfg, After(cfg, s1, es), id);
    }
  }

  lemma UnseenIsChild(cfg: Config, s: Sys, id: string)
    requires Inv(cfg, s) && id in s.table.recs && id in s.runners
    requires Rank(Checked) <= Rank(s.runners[id].pc) < Rank(Published) && !s.table.recs[id].cancelRequested
    ensures s.table.recs[id].result.None? && s.runners[id].child.Some? && s.runners[id].res == s.runners[id].child
  {
    hide SlotsOk, LocksOk, IdempotencyOk, DiskOk, SweepsOk, FreshSweep;
    assert JobOk(id, s.table.recs[id], s.runners[id]);
    hide JobsOk;
  }

  lemma CancelLate(cfg: Config, s: Sys, id: string)
    requires id in s.table.recs && id in s.runners && s.table.recs[id].result.None?
    ensures Enabled(cfg, s, RequestCancel(id))
    ensures var s1 := Apply(cfg, s, RequestCancel(id));
      id in s1.table.recs && s1.runners == s.runners && s1.table.recs[id].state == Canceled
  {
  }

  // ----- memory and disk

  /** What handleJob reads once it has asked, perhaps some time ago, whether the job is in
      memory: the object it was given, or result.json. */
  function LookUp(s: Sys, inMemory: bool, id: string): Option<RunResult> {
    if inMemory then (if id in s.table.recs then s.table.recs[id].result else None)
    else if id in s.disk then s.disk[id].result
    else None
  }

  /** Once a lookup has returned a result, every later one that returns one returns the same,
      whatever each of them had found in memory before: across publication, pruning and
      cleanups, also between the two steps of one lookup. */
  lemma LookUpsAgree(cfg: Config, s: Sys, es: seq<Event>, id: string, inMemory: bool, inMemoryLater: bool)
    requires Reachable(cfg, s) && Run(cfg, s, es) && id in s.table.recs
    requires LookUp(s, inMemory, id).Some? && LookUp(After(cfg, s, es), inMemoryLater, id).Some?
    ensures LookUp(After(cfg, s, es), inMemoryLater, id) == LookUp(s, inMemory, id)
  {
    hide Reachable, Inv, Apply, Enabled, JobOk;
    var s' := After(cfg, s, es);
    ReachableInv(cfg, s);
    RunKeepsInv(cfg, s, es);
    RunFollows(cfg, s, es, id);
    LookUpIsRes(cfg, s, inMemory, id);
    LookUpIsRes(cfg, s', inMemoryLater, id);
  }

  lemma LookUpIsRes(cfg: Config, s: Sys, inMemory: bool, id: string)
    requires Inv(cfg, s) && id in s.table.recs && LookUp(s, inMemory, id).Some?
    ensures id in s.runners && Rank(s.runners[id].pc) >= Rank(Saved) && LookUp(s, inMemory, id) == s.runners[id].res
  {
    hide SlotsOk, LocksOk, IdempotencyOk, SweepsOk, FreshSweep;
    assert JobOk(id, s.table.recs[id], s.runners[id]);
    hide JobsOk;
  }

  /** A lookup by memory answers exactly from the publication on, and a lookup by disk exactly
      while the directory holds a result, each with the outcome of the runner's check. */
  lemma LookUpAnswers(cfg: Config, s: Sys, id: string)
    requires Reachable(cfg, s) && id in s.table.recs
    ensures id in s.runners
    ensures LookUp(s, true, id).Some? <==> Rank(s.runners[id].pc) >= Rank(Published)
    ensures LookUp(s, true, id).Some? ==> LookUp(s, true, id) == s.runners[id].res
    ensures LookUp(s, false, id).Some? <==> id in s.disk && s.disk[id].result.Some?
    ensures LookUp(s, false, id).Some? ==> LookUp(s, false, id) == s.disk[id].result == s.runners[id].res
  {
    hide Reachable, SlotsOk, LocksOk, IdempotencyOk, SweepsOk, FreshSweep;
    ReachableInv(cfg, s);
    assert JobOk(id, s.table.recs[id], s.runners[id]);
    hide JobsOk;
  }

  /** Once a job is published, every later lookup by memory returns that result. */
  lemma PublishedAnswers(cfg: Config, s: Sys, es: seq<Event>, id: string)
    requires Reachable(cfg, s) && Run(cfg, s, es)
    requires id in s.table.recs && id in s.runners && Rank(s.runners[id].pc) >= Rank(Published)
    ensures s.runners[id].res.Some? && LookUp(After(cfg, s, es), true, id) == s.runners[id].res
  {
    hide Reachable, Inv, Run, After, JobOk, LookUp;
    ReachableInv(cfg, s);
    RunFollows(cfg, s, es, id);
    ReachRun(cfg, s, es);
    LookUpAnswers(cfg, s, id);
    LookUpAnswers(cfg, After(cfg, s, es), id);
  }

  lemma ResultStays(cfg: Config, s: Sys, e: Event, id: string)
    requires Enabled(cfg, s, e) && id in s.table.recs && id in s.used && id in s.disk && s.disk[id].result.Some?
    requires e.SaveResult? && id in s.runners ==> e.id != id || s.runners[id].res.Some?
    ensures id in Apply(cfg, s, e).disk ==> Apply(cfg, s, e).disk[id].result.Some?
  {
    hide Ready, JobAfter, RunnerAfter, CleanerReady, CleanerAfter, PruneOrder, SawReleased, StaleIds, PrepareVerdict, Prepare;
    if e.PrepareJob? {
      PrepareNames(s.table, cfg.slots, e.sub, e.newId, e.outcome);
    }
  }

  lemma {:induction false} RunKeepsResult(cfg: Config, s: Sys, es: seq<Event>, id: string)
    requires Inv(cfg, s) && Run(cfg, s, es) && id in s.table.recs && id in s.disk && s.disk[id].result.Some?
    ensures id in After(cfg, s, es).disk ==> After(cfg, s, es).disk[id].result.Some?
    decreases |es|
  {
    hide Enabled, Apply, JobOk, SlotsOk, LocksOk, IdempotencyOk, DiskOk, SweepsOk, FreshSweep;
    if es != [] {
      JobsKeys(s);
      if es[0].SaveResult? && es[0].id == id {
        SaverHasResult(cfg, s, es[0]);
      }
      ResultStays(cfg, s, es[0], id);
      StepFollows(cfg, s, es[0], id);
      StepKeepsInv(cfg, s, es[0]);
      if id in Apply(cfg, s, es[0]).disk {
        RunKeepsResult(cfg, Apply(cfg, s, es[0]), es[1..], id);
      } else {
        RunFollows(cfg, Apply(cfg, s, es[0]), es[1..], id);
      }
    }
  }

  lemma SaverHasResult(cfg: Config, s: Sys, e: Event)
    requires JobsOk(s) && Enabled(cfg, s, e) && (e.SaveResult? || e.WriteAudit?)
    ensures e.id in s.runners && e.id in s.table.recs && s.runners[e.id].res.Some?
    ensures e.SaveResult? && e.ok ==> e.id in s.disk
  {
    assert JobOk(e.id, s.table.recs[e.id], s.runners[e.id]);
    hide JobsOk;
  }

  /** What is written is there: once result.json has been saved, every later lookup by disk
      returns the outcome for as long as the directory is there. */
  lemma SavedAnswers(cfg: Config, s: Sys, es: seq<Event>, id: string)
    requires Reachable(cfg, s) && Enabled(cfg, s, SaveResult(id, true))
    requires Run(cfg, Apply(cfg, s, SaveResult(id, true)), es)
    ensures id in s.runners && s.runners[id].res.Some?
    ensures var s' := After(cfg, Apply(cfg, s, SaveResult(id, true)), es);
      id in s'.disk ==> LookUp(s', false, id) == s.runners[id].res
  {
    hide Reachable, Inv, Run, After, JobOk, LookUp;
    var e := SaveResult(id, true);
    ReachableInv(cfg, s);
    assert JobsOk(s) by { InvGivesJobs(cfg, s); }
    SaverHasResult(cfg, s, e);
    StepKeepsInv(cfg, s, e);
    ReachStep(cfg, s, e);
    var s1 := Apply(cfg, s, e);
    assert s1.disk[id].result == s.runners[id].res && s1.runners[id].res == s.runners[id].res;
    assert s1.runners[id].pc == Saved && id in s1.table.recs && id in s1.disk;
    hide JobsOk, Enabled, Apply;
    RunKeepsResult(cfg, s1, es, id);
    RunFollows(cfg, s1, es, id);
    ReachRun(cfg, s1, es);
    LookUpAnswers(cfg, After(cfg, s1, es), id);
  }

  lemma InvGivesJobs(cfg: Config, s: Sys)
    requires Inv(cfg, s)
    ensures JobsOk(s)
  {
  }

  /** And once the audit entry has been written it stays, with the same outcome. */
  lemma AuditedStays(cfg: Config, s: Sys, es: seq<Event>, id: string)
    requires Reachable(cfg, s) && Enabled(cfg, s, WriteAudit(id, true))
    requires Run(cfg, Apply(cfg, s, WriteAudit(id, true)), es)
    ensures id in s.runners && id in After(cfg, Apply(cfg, s, WriteAudit(id, true)), es).audit
    ensures Some(After(cfg, Apply(cfg, s, WriteAudit(id, true)), es).audit[id]) == s.runners[id].res
  {
    hide Reachable, Inv, Run, After, JobOk;
    var e := WriteAudit(id, true);
    ReachableInv(cfg, s);
    assert JobsOk(s) by { InvGivesJobs(cfg, s); }
    SaverHasResult(cfg, s, e);
    StepKeepsInv(cfg, s, e);
    var s1 := Apply(cfg, s, e);
    assert id in s1.audit && s1.runners[id].res == s.runners[id].res && s1.runners[id].pc == Audited && id in s1.table.recs;
    hide JobsOk, Enabled, Apply;
    RunKeepsInv(cfg, s1, es);
    RunFollows(cfg, s1, es, id);
    CarriesRes(cfg, After(cfg, s1, es), id);
  }

  /** What metadata.json tells is what was submitted, as long as the directory is there. */
  lemma MetadataTells(cfg: Config, s: Sys, id: string)
    requires Reachable(cfg, s) && id in s.table.recs && id in s.disk
    ensures id in s.runners && s.disk[id].meta.Some?
    ensures var m, j, sub := s.disk[id].meta.value, s.table.recs[id], s.runners[id].sub;
      && m.jobId == j.id == id && m.createdAt == j.started
      && m.tokenId == j.tokenId == sub.tokenId && m.hash == j.hash == sub.hash && m.remote == j.remote == sub.remote
      && m.lockKey == j.lockKey == sub.req.lockKey && m.idempotencyKey == sub.req.idempotencyKey && m.privilege == sub.req.privilege
  {
    hide Reachable, SlotsOk, LocksOk, IdempotencyOk, SweepsOk, FreshSweep;
    ReachableInv(cfg, s);
    assert JobOk(id, s.table.recs[id], s.runners[id]);
    hide JobsOk;
  }

  /** The published result, result.json and the audit entry never disagree where they exist. */
  lemma RecordsAgree(cfg: Config, s: Sys, id: string)
    requires Reachable(cfg, s) && id in s.table.recs
    ensures s.table.recs[id].result.Some? && id in s.disk && s.disk[id].result.Some? ==>
      s.disk[id].result == s.table.recs[id].result
    ensures s.table.recs[id].result.Some? && id in s.audit ==> Some(s.audit[id]) == s.table.recs[id].result
    ensures id in s.audit && id in s.disk && s.disk[id].result.Some? ==> s.disk[id].result == Some(s.audit[id])
  {
    hide Reachable, SlotsOk, LocksOk, IdempotencyOk, SweepsOk, FreshSweep;
    ReachableInv(cfg, s);
    assert JobOk(id, s.table.recs[id], s.runners[id]);
    hide JobsOk;
  }

  /** What authorizeJobAccess answers once it has asked whether the job is in memory: by the
      object it was given, or by metadata.json. None stands for its error. */
  function Access(s: Sys, allowRoot: bool, tokenId: string, inMemory: bool, id: string): Option<bool> {
    if allowRoot then Some(true)
    else if inMemory then (if id in s.table.recs then Some(s.table.recs[id].tokenId == tokenId) else None)
    else if id in s.disk && s.disk[id].meta.Some? then Some(s.disk[id].meta.value.tokenId == tokenId)
    else None
  }

  /** Access to a job this daemon admitted never depends on whether it is still in memory: an
      answer is always whether the asking token submitted it (or may see everything). */
  lemma AccessIsOwnership(cfg: Config, s: Sys, allowRoot: bool, tokenId: string, inMemory: bool, id: string)
    requires Reachable(cfg, s) && id in s.table.recs
    ensures id in s.runners
    ensures Access(s, allowRoot, tokenId, inMemory, id).Some? ==>
      Access(s, allowRoot, tokenId, inMemory, id).value == (allowRoot || s.runners[id].sub.tokenId == tokenId)
  {
    hide Reachable, SlotsOk, LocksOk, IdempotencyOk, SweepsOk, FreshSweep;
    ReachableInv(cfg, s);
    assert JobOk(id, s.table.recs[id], s.runners[id]);
    hide JobsOk;
  }

  /** And there is an answer: always by memory, by disk while the directory has metadata, and
      always for a token that may see everything. */
  lemma AccessAnswers(cfg: Config, s: Sys, tokenId: string, id: string)
    requires Reachable(cfg, s)
    ensures forall inMemory :: Access(s, true, tokenId, inMemory, id) == Some(true)
    ensures id in s.table.recs ==>
      id in s.runners && Access(s, false, tokenId, true, id) == Some(s.runners[id].sub.tokenId == tokenId)
    ensures id in s.table.recs && id in s.disk ==> Access(s, false, tokenId, false, id) == Some(s.runners[id].sub.tokenId == tokenId)
    ensures Access(s, false, tokenId, false, id).Some? <==> id in s.disk && s.disk[id].meta.Some?
    ensures id in s.disk && s.disk[id].meta.Some? ==>
      Access(s, false, tokenId, false, id) == Some(s.disk[id].meta.value.tokenId == tokenId)
  {
    hide Reachable, SlotsOk, LocksOk, IdempotencyOk, SweepsOk, FreshSweep;
    ReachableInv(cfg, s);
    if id in s.table.recs {
      assert JobOk(id, s.table.recs[id], s.runners[id]);
    }
    hide JobsOk;
  }

  /** Directories of no job of this daemon change in nothing until they are removed. */
  lemma StepKeepsOld(cfg: Config, s: Sys, e: Event, id: string)
    requires JobsOk(s) && Enabled(cfg, s, e) && id in s.used && id !in s.table.recs
    ensures id in Apply(cfg, s, e).used && id !in Apply(cfg, s, e).table.recs
    ensures id in Apply(cfg, s, e).disk ==> id in s.disk && Apply(cfg, s, e).disk[id] == s.disk[id]
  {
    hide JobOk, Ready, JobAfter, RunnerAfter, CleanerReady, CleanerAfter, PruneOrder, SawReleased, StaleIds, PrepareVerdict, Prepare;
    if e.PrepareJob? {
      PrepareNames(s.table, cfg.slots, e.sub, e.newId, e.outcome);
      AdmissionShape(cfg, s, e.sub, e.newId, e.now, e.outcome, e.leftover);
    }
  }

  lemma {:induction false} RunKeepsOld(cfg: Config, s: Sys, es: seq<Event>, id: string)
    requires Inv(cfg, s) && Run(cfg, s, es) && id in s.used && id !in s.table.recs
    ensures id in After(cfg, s, es).used && id !in After(cfg, s, es).table.recs
    ensures id in After(cfg, s, es).disk ==> id in s.disk && After(cfg, s, es).disk[id] == s.disk[id]
    decreases |es|
  {
    hide Enabled, Apply, JobOk, SlotsOk, LocksOk, IdempotencyOk, DiskOk, SweepsOk, FreshSweep;
    if es != [] {
      StepKeepsOld(cfg, s, es[0], id);
      StepKeepsInv(cfg, s, es[0]);
      RunKeepsOld(cfg, Apply(cfg, s, es[0]), es[1..], id);
    }
  }

  /** For every directory, also those found at the start of the daemon: once access has been
      answered, every later answer to the same token is the same. */
  lemma AccessStays(cfg: Config, s: Sys, es: seq<Event>, allowRoot: bool, tokenId: string, inMemory: bool, inMemoryLater: bool, id: string)
    requires Reachable(cfg, s) && Run(cfg, s, es)
    requires Access(s, allowRoot, tokenId, inMemory, id).Some?
    requires Access(After(cfg, s, es), allowRoot, tokenId, inMemoryLater, id).Some?
    ensures Access(After(cfg, s, es), allowRoot, tokenId, inMemoryLater, id) == Access(s, allowRoot, tokenId, inMemory, id)
  {
    hide Reachable, Run, After, JobOk, SlotsOk, LocksOk, IdempotencyOk, DiskOk, SweepsOk, FreshSweep;
    if !allowRoot {
      ReachableInv(cfg, s);
      ReachRun(cfg, s, es);
      if id in s.table.recs {
        RunFollows(cfg, s, es, id);
        AccessIsOwnership(cfg, s, allowRoot, tokenId, inMemory, id);
        AccessIsOwnership(cfg, After(cfg, s, es), allowRoot, tokenId, inMemoryLater, id);
      } else {
        RunKeepsOld(cfg, s, es, id);
      }
    }
  }
}
