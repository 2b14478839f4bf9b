/** The invariant holds in every reachable state. */
module Reachability {
  import opened Types
  import opened Lifecycle
  import opened Protocol
  import opened Invariant

  lemma StaleHolderKeepsLocks(s: Sys, sub: Submission)
    requires s.runners.Keys == s.table.recs.Keys && LocksOk(s)
    ensures LocksOk(s.(table := WithoutStaleHolder(s.table, sub)))
  {
  }

  lemma StaleHolderKeepsInv(cfg: Config, s: Sys, sub: Submission)
    requires Inv(cfg, s)
    ensures Inv(cfg, s.(table := WithoutStaleHolder(s.table, sub)))
  {
    JobsKeys(s);
    StaleHolderKeepsLocks(s, sub);
    SameButLocks(cfg, s, s.(table := WithoutStaleHolder(s.table, sub)));
  }

  lemma SameButLocks(cfg: Config, s: Sys, s': Sys)
    requires Inv(cfg, s) && s' == s.(table := s.table.(locks := s'.table.locks))
    requires s.runners.Keys == s.table.recs.Keys && LocksOk(s')
    ensures Inv(cfg, s')
  {
    hide JobOk, LocksOk, SweepOk, SlotsOk;
    forall id | id in s'.runners && Sweeping(s'.runners[id]) ensures SweepOk(s', s'.runners[id]) {
      SweepFrame'(s, s', s.runners[id]);
    }
    hide SweepsOk;
    UnreleasedSlots(cfg, s, s');
  }

  lemma UnreleasedSlots(cfg: Config, s: Sys, s': Sys)
    requires SlotsOk(cfg, s) && s'.table.sem == s.table.sem && s'.runners == s.runners
    ensures SlotsOk(cfg, s')
  {
    assert Unreleased(s') == Unreleased(s);
  }

  ghost predicate Leftover(s: Sys, s': Sys, newId: string) {
    && newId !in s.used
    && s' == s.(disk := s'.disk, used := s.used + {newId})
    && (s'.disk == s.disk || s'.disk == s.disk[newId := JobDir(None, None)])
  }

  lemma LeftoverJobs(cfg: Config, s: Sys, s': Sys, newId: string)
    requires JobsOk(s) && SlotsOk(cfg, s) && LocksOk(s) && IdempotencyOk(s) && Leftover(s, s', newId)
    ensures JobsOk(s') && SlotsOk(cfg, s') && LocksOk(s') && IdempotencyOk(s')
  {
    hide JobOk;
    assert Unreleased(s') == Unreleased(s);
  }

  lemma LeftoverDisk(s: Sys, s': Sys, newId: string)
    requires JobsOk(s) && DiskOk(s) && Leftover(s, s', newId)
    ensures DiskOk(s')
  {
    hide JobOk;
  }

  lemma LeftoverSweeps(s: Sys, s': Sys, newId: string)
    requires SweepsOk(s) && FreshSweep(s) && s.table.recs.Keys <= s.used && Leftover(s, s', newId)
    ensures SweepsOk(s') && FreshSweep(s')
  {
    forall id | id in s'.runners && Sweeping(s'.runners[id]) ensures SweepOk(s', s'.runners[id]) {
      assert SweepOk(s, s.runners[id]);
    }
  }

  /** A failed preparation may leave an empty directory behind. */
  lemma LeftoverKeepsInv(cfg: Config, s: Sys, s': Sys, newId: string)
    requires Inv(cfg, s) && Leftover(s, s', newId)
    ensures Inv(cfg, s')
  {
    hide JobsOk, SlotsOk, LocksOk, IdempotencyOk, DiskOk, SweepsOk, FreshSweep, Leftover;
    JobsKeys(s);
    LeftoverJobs(cfg, s, s', newId);
    LeftoverDisk(s, s', newId);
    LeftoverSweeps(s, s', newId);
  }

  /** The indexes have no entry for the submission's keys. */
  predicate Vacant(t: Table, sub: Submission) {
    && (sub.req.lockKey != "" ==> sub.req.lockKey !in t.locks)
    && (sub.req.idempotencyKey != "" ==> sub.Key() !in t.idempotency)
  }

  function Admitting(s: Sys, sub: Submission, newId: string, now: int): Sys {
    s.(table := Admit(s.table, sub, newId, now),
       runners := s.runners[newId := NewRunner(sub)],
       disk := s.disk[newId := JobDir(Some(NewMetadata(sub, newId, now)), None)],
       used := s.used + {newId})
  }

  lemma AdmittingJobs(s: Sys, sub: Submission, newId: string, now: int)
    requires JobsOk(s) && newId !in s.used
    ensures JobsOk(Admitting(s, sub, newId, now))
  {
    assert JobOk(newId, NewJob(sub, newId, now), NewRunner(sub));
    hide JobOk;
  }

  lemma AdmittingSlots(cfg: Config, s: Sys, sub: Submission, newId: string, now: int)
    requires SlotsOk(cfg, s) && newId !in s.runners && s.table.sem < cfg.slots
    ensures SlotsOk(cfg, Admitting(s, sub, newId, now))
  {
    assert Unreleased(Admitting(s, sub, newId, now)) == Unreleased(s) + {newId};
  }

  lemma AdmittingLocks(s: Sys, sub: Submission, newId: string, now: int)
    requires s.runners.Keys == s.table.recs.Keys && LocksOk(s) && newId !in s.runners && Vacant(s.table, sub)
    ensures LocksOk(Admitting(s, sub, newId, now))
  {
  }

  lemma AdmittingIdempotency(s: Sys, sub: Submission, newId: string, now: int)
    requires s.runners.Keys == s.table.recs.Keys && s.table.jobs <= s.table.recs.Keys
    requires IdempotencyOk(s) && newId !in s.runners && Vacant(s.table, sub)
    ensures Admitting(s, sub, newId, now).table.jobs <= Admitting(s, sub, newId, now).table.recs.Keys
    ensures IdempotencyOk(Admitting(s, sub, newId, now))
  {
  }

  lemma AdmittingDisk(s: Sys, sub: Submission, newId: string, now: int)
    requires s.runners.Keys == s.table.recs.Keys && DiskOk(s) && newId !in s.runners
    ensures DiskOk(Admitting(s, sub, newId, now))
  {
  }

  lemma AdmittingSweep(s: Sys, sub: Submission, newId: string, now: int, r: Runner)
    requires SweepOk(s, r) && newId !in s.used && s.table.recs.Keys <= s.used
    ensures SweepOk(Admitting(s, sub, newId, now), r)
  {
  }

  lemma AdmittingSweeps(s: Sys, sub: Submission, newId: string, now: int)
    requires JobsOk(s) && SweepsOk(s) && FreshSweep(s) && newId !in s.used
    ensures SweepsOk(Admitting(s, sub, newId, now)) && FreshSweep(Admitting(s, sub, newId, now))
  {
    JobsKeys(s);
    hide SweepOk, JobOk, Admit;
    var s' := Admitting(s, sub, newId, now);
    forall id | id in s'.runners && Sweeping(s'.runners[id]) ensures SweepOk(s', s'.runners[id]) {
      assert id != newId;
      AdmittingSweep(s, sub, newId, now, s.runners[id]);
    }
  }

  lemma AdmittingKeepsInv(cfg: Config, s: Sys, sub: Submission, newId: string, now: int)
    requires Inv(cfg, s) && newId !in s.used && s.table.sem < cfg.slots && Vacant(s.table, sub)
    ensures Inv(cfg, Admitting(s, sub, newId, now))
  {
    hide JobsOk, SlotsOk, LocksOk, IdempotencyOk, DiskOk, SweepsOk, FreshSweep, Admitting, Vacant;
    JobsKeys(s);
    AdmittingJobs(s, sub, newId, now);
    JobsKeys(Admitting(s, sub, newId, now));
    AdmittingSlots(cfg, s, sub, newId, now);
    AdmittingLocks(s, sub, newId, now);
    AdmittingIdempotency(s, sub, newId, now);
    AdmittingDisk(s, sub, newId, now);
    AdmittingSweeps(s, sub, newId, now);
  }

  /** Where prepareJob admits, neither key has an index entry left. */
  lemma AdmittedIsVacant(s: Sys, slots: nat, sub: Submission, newId: string, outcome: StoreOutcome)
    requires s.runners.Keys == s.table.recs.Keys && s.table.jobs <= s.table.recs.Keys
    requires LocksOk(s) && IdempotencyOk(s)
    requires PrepareVerdict(s.table, slots, sub, newId, outcome).Admitted?
    ensures Vacant(WithoutStaleHolder(s.table, sub), sub)
    ensures s.table.sem < slots && PrepareVerdict(s.table, slots, sub, newId, outcome) == Admitted(newId)
  {
  }

  lemma PrepareKeepsInv(cfg: Config, s: Sys, sub: Submission, newId: string, now: int, outcome: StoreOutcome, leftover: bool)
    requires Inv(cfg, s) && newId !in s.used
    ensures Inv(cfg, Admission(cfg, s, sub, newId, now, outcome, leftover))
  {
    hide JobsOk, SlotsOk, LocksOk, IdempotencyOk, DiskOk, SweepsOk, FreshSweep, WithoutStaleHolder, PrepareVerdict;
    var verdict := PrepareVerdict(s.table, cfg.slots, sub, newId, outcome);
    var s1 := s.(table := WithoutStaleHolder(s.table, sub));
    var s' := Admission(cfg, s, sub, newId, now, outcome, leftover);
    JobsKeys(s);
    StaleHolderKeepsInv(cfg, s, sub);
    if verdict.Admitted? {
      AdmittedIsVacant(s, cfg.slots, sub, newId, outcome);
      StaleHolderSame(s.table, sub);
      hide Inv, Vacant;
      AdmittingKeepsInv(cfg, s1, sub, newId, now);
      assert s' == Admitting(s1, sub, newId, now);
    } else if verdict.StoreError? {
      hide Inv;
      LeftoverKeepsInv(cfg, s1, s', newId);
    }
  }

  lemma StaleHolderSame(t: Table, sub: Submission)
    ensures WithoutStaleHolder(t, sub) == t.(locks := WithoutStaleHolder(t, sub).locks)
  {
  }

  /** An event changes no runner but its own. */
  lemma OtherRunnersStay(cfg: Config, s: Sys, e: Event, c: string)
    requires s.runners.Keys <= s.used && Enabled(cfg, s, e) && c in s.runners && (e.PrepareJob? || c != e.id)
    ensures c in Apply(cfg, s, e).runners && Apply(cfg, s, e).runners[c] == s.runners[c]
  {
    hide Ready, JobAfter, RunnerAfter, CleanerReady, CleanerAfter, PruneOrder, SawReleased, StaleIds, PrepareVerdict, Prepare;
    if e.PrepareJob? {
      PrepareNames(s.table, cfg.slots, e.sub, e.newId, e.outcome);
    }
  }

  lemma PrepareNames(t: Table, slots: nat, sub: Submission, newId: string, outcome: StoreOutcome)
    ensures PrepareVerdict(t, slots, sub, newId, outcome).Admitted? ==> PrepareVerdict(t, slots, sub, newId, outcome) == Admitted(newId)
  {
  }

  lemma AdmissionShape(cfg: Config, s: Sys, sub: Submission, newId: string, now: int, outcome: StoreOutcome, leftover: bool)
    ensures var s' := Admission(cfg, s, sub, newId, now, outcome, leftover);
      && s'.audit == s.audit && s'.disk.Keys <= s.disk.Keys + {newId}
      && if PrepareVerdict(s.table, cfg.slots, sub, newId, outcome).Admitted? then
           && s'.table.recs == s.table.recs[newId := NewJob(sub, newId, now)]
           && s'.table.jobs == s.table.jobs + {newId} && s'.runners == s.runners[newId := NewRunner(sub)]
         else
           s'.table.recs == s.table.recs && s'.table.jobs == s.table.jobs && s'.runners == s.runners
  {
    PrepareNames(s.table, cfg.slots, sub, newId, outcome);
    StaleHolderSame(s.table, sub);
    hide PrepareVerdict, WithoutStaleHolder;
  }

  lemma StepKeepsInv(cfg: Config, s: Sys, e: Event)
    requires Inv(cfg, s) && Enabled(cfg, s, e)
    ensures Inv(cfg, Apply(cfg, s, e))
  {
    hide Inv, Admission, Pruning, Releasing, Updated, Cleaned, Saving, Auditing;
    if Plain(e) {
      PlainKeepsInv(cfg, s, e);
    } else if Cleaning(e) {
      CleanedKeepsInv(cfg, s, e);
    } else {
      match e {
        case PrepareJob(sub, newId, now, outcome, leftover) => PrepareKeepsInv(cfg, s, sub, newId, now, outcome, leftover);
        case SaveResult(_, _) => WriterKeepsInv(cfg, s, e);
        case WriteAudit(_, _) => WriterKeepsInv(cfg, s, e);
        case ReleaseJob(id) => ReleasingKeepsInv(cfg, s, id);
        case PruneMemory(id, order, now) => PruningKeepsInv(cfg, s, id, order, now);
      }
    }
  }

  lemma {:induction false} RunKeepsInv(cfg: Config, s: Sys, es: seq<Event>)
    requires Inv(cfg, s) && Run(cfg, s, es)
    ensures Inv(cfg, After(cfg, s, es))
    decreases |es|
  {
    hide Inv, Enabled, Apply;
    if es != [] {
      StepKeepsInv(cfg, s, es[0]);
      RunKeepsInv(cfg, Apply(cfg, s, es[0]), es[1..]);
    }
  }

  /** `s` can be reached from a fresh start over any job directory. */
  ghost predicate Reachable(cfg: Config, s: Sys) {
    exists s0: Sys, es: seq<Event> :: Init(s0) && Run(cfg, s0, es) && After(cfg, s0, es) == s
  }

  lemma ReachableInv(cfg: Config, s: Sys)
    requires Reachable(cfg, s)
    ensures Inv(cfg, s)
  {
    hide Inv, Enabled, Apply;
    var s0: Sys, es: seq<Event> :| Init(s0) && Run(cfg, s0, es) && After(cfg, s0, es) == s;
    InitInv(cfg, s0);
    RunKeepsInv(cfg, s0, es);
  }

  lemma ReachRun(cfg: Config, s: Sys, es: seq<Event>)
    requires Reachable(cfg, s) && Run(cfg, s, es)
    ensures Reachable(cfg, After(cfg, s, es))
  {
    hide Enabled, Apply, Run, After;
    var s0: Sys, fs: seq<Event> :| Init(s0) && Run(cfg, s0, fs) && After(cfg, s0, fs) == s;
    RunAppend(cfg, s0, fs, es);
  }

  lemma ReachStep(cfg: Config, s: Sys, e: Event)
    requires Reachable(cfg, s) && Enabled(cfg, s, e)
    ensures Reachable(cfg, Apply(cfg, s, e))
  {
    hide Enabled, Apply;
    var s0: Sys, es: seq<Event> :| Init(s0) && Run(cfg, s0, es) && After(cfg, s0, es) == s;
    var s1 := Apply(cfg, s, e);
    RunOne(cfg, s, e);
    RunAppend(cfg, s0, es, [e]);
    assert After(cfg, s0, es + [e]) == s1;
  }

  /** A daemon started over an empty job directory. */
  function FreshStart(): Sys {
    Sys(Table(map[], {}, map[], map[], 0), map[], map[], map[], {})
  }

  lemma FreshIsReachable(cfg: Config)
    ensures Init(FreshStart()) && Reachable(cfg, FreshStart())
  {
    assert Init(FreshStart()) && Run(cfg, FreshStart(), []) && After(cfg, FreshStart(), []) == FreshStart();
  }
}
