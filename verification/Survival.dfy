/** Exactly when an unfinished job keeps its directory, its place in memory and its claim to its
    idempotency key, against every cleanup that is under way or still to come. */
module Survival {
  import opened Types
  import opened Lifecycle
  import opened Protocol
  import opened Invariant
  import opened Reachability
  import opened History
  import opened Retries
  import opened ExactRuns
  import opened RunnerSteps
  import opened Exposure
  import opened Losses

  // ----- one step

  lemma CleanerStaysHarmless(cfg: Config, s: Sys, e: Event, r: Runner, x: string, exposed: bool, later: bool)
    requires Cleaning(e) && CleanerReady(cfg, s, e, r) && x in s.table.recs && Harmless(r, x, exposed)
    requires e.PlanCleanup? ==> x !in e.plan && r.deleted == {}
    requires later ==> exposed
    ensures Harmless(CleanerAfter(e, s.table.recs.Keys, r), x, later)
  {
    hide Listed, Unfinished;
  }

  lemma PlainStaysHarmless(e: Event, j: JobView, r: Runner, x: string, exposed: bool, later: bool)
    requires Plain(e) && Ready(e, r) && Harmless(r, x, exposed) && (later ==> exposed)
    ensures Harmless(RunnerAfter(e, j, r), x, later)
  {
  }

  lemma NothingDeletedYet(s: Sys, c: string)
    requires SweepsOk(s) && c in s.runners && s.runners[c].pc == Snapshotted
    ensures s.runners[c].deleted == {}
  {
    assert SweepOk(s, s.runners[c]);
  }

  lemma OwnCleaningStaysHarmless(cfg: Config, s: Sys, e: Event, x: string, later: bool)
    requires SweepsOk(s) && Cleaning(e) && Enabled(cfg, s, e)
    requires x in Unfinished(s) && Harmless(s.runners[e.id], x, Exposed(cfg, s, x))
    requires later ==> Exposed(cfg, s, x)
    ensures e.id in Apply(cfg, s, e).runners && Harmless(Apply(cfg, s, e).runners[e.id], x, later)
  {
    var r := s.runners[e.id];
    hide SweepsOk, Exposed, Harmless;
    if e.PlanCleanup? {
      PlanSpares(cfg, s, e, x);
      NothingDeletedYet(s, e.id);
    }
    assert CleanerReady(cfg, s, e, r) && Apply(cfg, s, e) == Cleaned(s, e);
    hide CleanerReady, CleanerAfter, Apply, Enabled;
    CleanerStaysHarmless(cfg, s, e, r, x, Exposed(cfg, s, x), later);
  }

  lemma OwnStepStaysHarmless(cfg: Config, s: Sys, e: Event, x: string, later: bool)
    requires SweepsOk(s) && Enabled(cfg, s, e) && !e.PrepareJob?
    requires x in Unfinished(s) && Harmless(s.runners[e.id], x, Exposed(cfg, s, x))
    requires later ==> Exposed(cfg, s, x)
    ensures e.id in Apply(cfg, s, e).runners && Harmless(Apply(cfg, s, e).runners[e.id], x, later)
  {
    hide Exposed;
    if Plain(e) {
      PlainStaysHarmless(e, s.table.recs[e.id], s.runners[e.id], x, Exposed(cfg, s, x), later);
      hide Ready, JobAfter, RunnerAfter, SweepsOk, Unfinished;
    } else if Cleaning(e) {
      OwnCleaningStaysHarmless(cfg, s, e, x, later);
      hide Enabled, Apply, SweepsOk, Harmless;
    } else {
      hide PruneOrder, SawReleased, StaleIds, SweepsOk, Unfinished;
    }
  }

  lemma NewRunnersAreHarmless(cfg: Config, s: Sys, e: Event, c: string, x: string, exposed: bool)
    requires Enabled(cfg, s, e) && c in Apply(cfg, s, e).runners && c !in s.runners
    ensures Harmless(Apply(cfg, s, e).runners[c], x, exposed)
  {
    hide Ready, JobAfter, RunnerAfter, CleanerReady, CleanerAfter, PruneOrder, SawReleased, StaleIds, PrepareVerdict, Prepare;
  }

  lemma StillHarmless(r: Runner, x: string, exposed: bool, later: bool)
    requires Harmless(r, x, exposed) && (later ==> exposed)
    ensures Harmless(r, x, later)
  {
  }

  lemma StepKeepsRemembered(cfg: Config, s: Sys, e: Event, x: string)
    requires Inv(cfg, s) && Enabled(cfg, s, e) && x in Unfinished(s) && Remembered(cfg, s, x)
    ensures Remembered(cfg, Apply(cfg, s, e), x)
  {
    hide Apply, Enabled, Harmless, JobOk, SlotsOk, LocksOk, IdempotencyOk, DiskOk, SweepsOk, FreshSweep, Exposed;
    var s' := Apply(cfg, s, e);
    JobsKeys(s);
    var later := Exposed(cfg, s', x);
    if later {
      StepExposesNothing(cfg, s, e, x);
    }
    forall c | c in s'.runners ensures Harmless(s'.runners[c], x, later) {
      if c !in s.runners {
        NewRunnersAreHarmless(cfg, s, e, c, x, later);
      } else if !e.PrepareJob? && c == e.id {
        OwnStepStaysHarmless(cfg, s, e, x, later);
      } else {
        OtherRunnersStay(cfg, s, e, c);
        StillHarmless(s.runners[c], x, Exposed(cfg, s, x), later);
      }
    }
  }

  /** A step that meets no armed cleanup takes nothing of `x` away. */
  lemma StepTakesNothing(cfg: Config, s: Sys, e: Event, x: string)
    requires Enabled(cfg, s, e) && x in Unfinished(s) && Remembered(cfg, s, x)
    ensures x in s.disk ==> x in Apply(cfg, s, e).disk
    ensures x in s.table.jobs ==> x in Apply(cfg, s, e).table.jobs
  {
    hide Ready, JobAfter, RunnerAfter, CleanerAfter, Listed, Exposed;
    if e.PrepareJob? {
      AdmissionKeepsEntries(cfg, s, e.sub, e.newId, e.now, e.outcome, e.leftover);
      hide Admission;
    } else if e.PruneMemory? {
      assert Harmless(s.runners[e.id], x, Exposed(cfg, s, x));
      StaleAreDone(cfg, s.table, e.order, Cutoff(cfg, e.now));
      hide StaleIds;
    } else if e.RemoveDir? {
      assert Harmless(s.runners[e.id], x, Exposed(cfg, s, x));
    }
  }

  lemma AdmissionKeepsEntries(cfg: Config, s: Sys, sub: Submission, newId: string, now: int, outcome: StoreOutcome, leftover: bool)
    ensures s.disk.Keys <= Admission(cfg, s, sub, newId, now, outcome, leftover).disk.Keys
    ensures s.table.jobs <= Admission(cfg, s, sub, newId, now, outcome, leftover).table.jobs
  {
    AdmissionShape(cfg, s, sub, newId, now, outcome, leftover);
    hide PrepareVerdict, Prepare;
  }

  // ----- whole runs

  lemma LaterDone(s: Sys, s': Sys, x: string)
    requires Follows(s, s', x) && x in Unfinished(s')
    ensures x in Unfinished(s)
  {
  }

  lemma {:induction false} RunTakesNothing(cfg: Config, s: Sys, es: seq<Event>, x: string)
    requires Inv(cfg, s) && Run(cfg, s, es) && x in s.table.recs && Remembered(cfg, s, x)
    requires x in Unfinished(After(cfg, s, es))
    ensures x in s.disk ==> x in After(cfg, s, es).disk
    ensures x in s.table.jobs ==> x in After(cfg, s, es).table.jobs
    decreases |es|
  {
    hide Enabled, Apply, Remembered, JobOk, LaterJob, SlotsOk, LocksOk, IdempotencyOk, DiskOk, SweepsOk, FreshSweep;
    if es != [] {
      RunFollows(cfg, s, es, x);
      LaterDone(s, After(cfg, s, es), x);
      StepKeepsRemembered(cfg, s, es[0], x);
      StepTakesNothing(cfg, s, es[0], x);
      StepFollows(cfg, s, es[0], x);
      StepKeepsInv(cfg, s, es[0]);
      RunTakesNothing(cfg, Apply(cfg, s, es[0]), es[1..], x);
    }
  }

  /** While the directory is there, being out of reach is all there is to it. */
  lemma OutOfReachIsRemembered(cfg: Config, s: Sys, x: string)
    requires SweepsOk(s) && x in s.disk
    ensures OutOfReach(cfg, s, x) <==> Remembered(cfg, s, x)
  {
    forall c | c in s.runners && Sweeping(s.runners[c]) ensures x !in s.runners[c].deleted {
      assert SweepOk(s, s.runners[c]);
    }
    hide SweepsOk, CanHit;
    assert forall c :: c in s.runners && Harmless(s.runners[c], x, CanHit(cfg, s, x)) ==>
      && (s.runners[c].pc == Snapshotted && CanHit(cfg, s, x) ==> x in s.runners[c].snapshotIds)
      && (s.runners[c].pc == Planned ==> x !in s.runners[c].todo);
  }

  /** For every configuration: out of reach of the cleanups under way, the directory stays for
      as long as the job is unfinished, whatever cleanups and jobs come later. */
  lemma DirectoryStays(cfg: Config, s: Sys, es: seq<Event>, x: string)
    requires Reachable(cfg, s) && Run(cfg, s, es)
    requires x in s.table.recs && x in s.disk && OutOfReach(cfg, s, x)
    requires x in Unfinished(After(cfg, s, es))
    ensures x in After(cfg, s, es).disk
  {
    hide Reachable, JobsOk, SlotsOk, LocksOk, IdempotencyOk, DiskOk, FreshSweep, Remembered, OutOfReach;
    ReachableInv(cfg, s);
    OutOfReachIsRemembered(cfg, s, x);
    hide Inv, Run, After, Unfinished;
    RunTakesNothing(cfg, s, es, x);
  }

  /** For every configuration: so does its place in memory. */
  lemma MemoryStays(cfg: Config, s: Sys, es: seq<Event>, x: string)
    requires Reachable(cfg, s) && Run(cfg, s, es)
    requires x in s.table.recs && x in s.table.jobs && Remembered(cfg, s, x)
    requires x in Unfinished(After(cfg, s, es))
    ensures x in After(cfg, s, es).table.jobs
  {
    hide Reachable, Inv, Run, After, Unfinished, Remembered;
    ReachableInv(cfg, s);
    RunTakesNothing(cfg, s, es, x);
  }

  /** Exactly when an unfinished job is sure of its directory until it finishes: if it is out of
      reach it stays on every run, and otherwise it goes on a run as the daemon performs them. */
  lemma DirectoryStaysIff(cfg: Config, s: Sys, x: string, clock: int)
    requires Reachable(cfg, s) && x in Unfinished(s) && x in s.disk
    ensures OutOfReach(cfg, s, x) <==>
      forall es :: Run(cfg, s, es) && Exact(cfg, s, es, clock) && x in Unfinished(After(cfg, s, es)) ==> x in After(cfg, s, es).disk
  {
    hide Reachable, Inv, Run, After, Exact, CanHit;
    if OutOfReach(cfg, s, x) {
      forall es | Run(cfg, s, es) && x in Unfinished(After(cfg, s, es)) ensures x in After(cfg, s, es).disk {
        DirectoryStays(cfg, s, es, x);
      }
    } else {
      ReachableInv(cfg, s);
      var c :| c in s.runners && !((s.runners[c].pc == Snapshotted && CanHit(cfg, s, x) ==> x in s.runners[c].snapshotIds)
                                   && (s.runners[c].pc == Planned ==> x !in s.runners[c].todo));
      var es := DirectoryCanGo(cfg, s, c, x, clock);
    }
  }

  /** Every cleanup under way took its snapshot after `x` was admitted. */
  ghost predicate KnownToSweeps(s: Sys, x: string) {
    forall c :: c in s.runners && Sweeping(s.runners[c]) ==> x in s.runners[c].snapshotIds
  }

  /** In particular it is sure of it if every cleanup under way took its snapshot after the
      admission, so a job admitted while no cleanup runs keeps its directory. */
  lemma DirectorySurvives(cfg: Config, s: Sys, es: seq<Event>, x: string)
    requires Reachable(cfg, s) && Run(cfg, s, es)
    requires x in s.disk && x in s.table.recs && KnownToSweeps(s, x)
    requires x in Unfinished(After(cfg, s, es))
    ensures x in After(cfg, s, es).disk
  {
    hide Reachable, JobOk, LaterJob, Run, After, SlotsOk, LocksOk, IdempotencyOk, DiskOk, FreshSweep;
    ReachableInv(cfg, s);
    RunFollows(cfg, s, es, x);
    LaterDone(s, After(cfg, s, es), x);
    forall c | c in s.runners && s.runners[c].pc == Planned ensures x !in s.runners[c].todo {
      assert SweepOk(s, s.runners[c]);
    }
    hide Inv, SweepsOk;
    assert OutOfReach(cfg, s, x);
    DirectoryStays(cfg, s, es, x);
  }

  /** Exactly when an unfinished job is sure to be found in memory until it finishes. */
  lemma MemoryStaysIff(cfg: Config, s: Sys, x: string, clock: int)
    requires Reachable(cfg, s) && x in Unfinished(s) && x in s.table.jobs
    ensures Remembered(cfg, s, x) <==>
      forall es :: Run(cfg, s, es) && Exact(cfg, s, es, clock) && x in Unfinished(After(cfg, s, es)) ==> x in After(cfg, s, es).table.jobs
  {
    hide Reachable, Inv, Run, After, Exact, Harmless, Exposed;
    if Remembered(cfg, s, x) {
      forall es | Run(cfg, s, es) && x in Unfinished(After(cfg, s, es)) ensures x in After(cfg, s, es).table.jobs {
        MemoryStays(cfg, s, es, x);
      }
    } else {
      ReachableInv(cfg, s);
      var c :| c in s.runners && !Harmless(s.runners[c], x, Exposed(cfg, s, x));
      var es := JobCanBeForgotten(cfg, s, c, x, clock);
    }
  }

  // ----- what that means for retries

  /** A retry of `x`: its index key again, with any lock and any request. */
  predicate Retry(s: Sys, x: string, sub: Submission)
    requires x in s.runners
  {
    sub.req.idempotencyKey != "" && sub.Key() == s.runners[x].sub.Key()
  }

  /** Exactly when no retry of an unfinished job can start a second execution beside it: with one
      slot never, with more exactly while it is sure to be in memory. */
  lemma RunsAloneIff(cfg: Config, s: Sys, x: string, clock: int)
    requires Reachable(cfg, s) && x in Unfinished(s) && x in s.table.jobs
    requires x in s.runners && s.runners[x].sub.req.idempotencyKey != ""
    ensures cfg.slots == 1 || Remembered(cfg, s, x) <==>
      forall es, sub: Submission, newId, outcome ::
        Run(cfg, s, es) && Exact(cfg, s, es, clock) && x in Unfinished(After(cfg, s, es)) && Retry(s, x, sub) ==>
        !PrepareVerdict(After(cfg, s, es).table, cfg.slots, sub, newId, outcome).Admitted?
  {
    hide Reachable, Inv, Run, After, Exact, Harmless, Exposed, PrepareVerdict;
    if cfg.slots == 1 || Remembered(cfg, s, x) {
      forall es, sub: Submission, newId, outcome |
        Run(cfg, s, es) && x in Unfinished(After(cfg, s, es)) && Retry(s, x, sub)
        ensures !PrepareVerdict(After(cfg, s, es).table, cfg.slots, sub, newId, outcome).Admitted?
      {
        if cfg.slots == 1 {
          NoSlotLeft(cfg, s, es, x, sub, newId, outcome);
        } else {
          NoSecondExecution(cfg, s, es, x, sub, newId, outcome);
        }
      }
    } else {
      ReachableInv(cfg, s);
      var c :| c in s.runners && !Harmless(s.runners[c], x, Exposed(cfg, s, x));
      var sub := s.runners[x].sub;
      var retry := sub.(req := sub.req.(lockKey := ""));
      var es := SecondExecution(cfg, s, c, x, retry, clock);
      assert PrepareVerdict(After(cfg, s, es).table, cfg.slots, retry, "", Stored).Admitted?;
    }
  }

  lemma NoSlotLeft(cfg: Config, s: Sys, es: seq<Event>, x: string, sub: Submission, newId: string, outcome: StoreOutcome)
    requires Reachable(cfg, s) && Run(cfg, s, es) && cfg.slots == 1 && x in Unfinished(After(cfg, s, es))
    ensures !PrepareVerdict(After(cfg, s, es).table, cfg.slots, sub, newId, outcome).Admitted?
  {
    hide Reachable, Run, After, Unfinished, LocksOk, IdempotencyOk, DiskOk, SweepsOk, FreshSweep, Existing, Holder;
    ReachRun(cfg, s, es);
    ReachableInv(cfg, After(cfg, s, es));
    OwnsSlot(cfg, After(cfg, s, es), x);
    hide Inv;
  }

  lemma NoSecondExecution(cfg: Config, s: Sys, es: seq<Event>, x: string, sub: Submission, newId: string, outcome: StoreOutcome)
    requires Reachable(cfg, s) && Run(cfg, s, es) && Remembered(cfg, s, x)
    requires x in s.table.jobs && x in s.table.recs && x in s.runners && s.runners[x].sub.req.idempotencyKey != ""
    requires Retry(s, x, sub)
    requires x in Unfinished(After(cfg, s, es))
    ensures !PrepareVerdict(After(cfg, s, es).table, cfg.slots, sub, newId, outcome).Admitted?
  {
    hide Reachable, Inv, Run, After, Unfinished, Remembered, PrepareVerdict;
    MemoryStays(cfg, s, es, x);
    ReachableInv(cfg, s);
    RunFollows(cfg, s, es, x);
    ReachRun(cfg, s, es);
    RetainedJobAnswers(cfg, After(cfg, s, es), x, sub, newId, outcome);
  }

  /** A free slot is there or comes, the cleanup makes the daemon forget `x`, and a retry that
      asks for no lock is admitted. */
  lemma SecondExecution(cfg: Config, s: Sys, c: string, x: string, retry: Submission, clock: int) returns (es: seq<Event>)
    requires Inv(cfg, s) && cfg.slots != 1 && c in s.runners && x in Unfinished(s) && x in s.table.jobs && x in s.runners
    requires s.runners[x].sub.req.idempotencyKey != "" && !Harmless(s.runners[c], x, Exposed(cfg, s, x))
    requires retry.req.lockKey == "" && Retry(s, x, retry)
    ensures Run(cfg, s, es) && Exact(cfg, s, es, clock) && x in Unfinished(After(cfg, s, es))
    ensures forall newId :: PrepareVerdict(After(cfg, s, es).table, cfg.slots, retry, newId, Stored) == Admitted(newId)
  {
    hide Run, After, Exact, ClockAfter, Inv, Harmless, Exposed, PrepareVerdict, JobsOk, SameAround, Forgot;
    InvKeys(cfg, s);
    InSlots(cfg, s, x);
    var fs := FreesSlot(cfg, s, x, clock);
    var s1 := After(cfg, s, fs);
    AroundIsReach(cfg, s, s1, c, x);
    var rest := JobCanBeForgotten(cfg, s1, c, x, clock);
    ExactAppend(cfg, s, fs, rest, clock);
    es := fs + rest;
    ForgottenKeyIsFree(cfg, s1, After(cfg, s, es), x, retry);
  }

  lemma InSlots(cfg: Config, s: Sys, x: string)
    requires Inv(cfg, s) && x in Unfinished(s)
    ensures cfg.slots > 0
  {
    hide LocksOk, IdempotencyOk, DiskOk, SweepsOk, FreshSweep;
    OwnsSlot(cfg, s, x);
    hide Inv;
  }

  lemma AroundIsReach(cfg: Config, s: Sys, s': Sys, c: string, x: string)
    requires SameAround(s, s', x) && c in s.runners && x in Unfinished(s) && x in s.runners
    requires !Harmless(s.runners[c], x, Exposed(cfg, s, x))
    ensures c in s'.runners && !Harmless(s'.runners[c], x, Exposed(cfg, s', x))
    ensures x in Unfinished(s') && x in s'.runners && s'.runners[x] == s.runners[x] && s'.table.jobs == s.table.jobs
  {
    if x in s.disk {
      assert Crowd(s', x) == Crowd(s, x);
    }
  }

  /** Once a job is forgotten, a submission with its key and no lock finds a free slot. */
  lemma ForgottenKeyIsFree(cfg: Config, s: Sys, s': Sys, x: string, sub: Submission)
    requires Inv(cfg, s) && Forgot(s, s', x) && x in s.table.jobs && x in s.runners
    requires sub.req.lockKey == "" && s.runners[x].sub.req.idempotencyKey != "" && Retry(s, x, sub)
    requires s.table.sem < cfg.slots
    ensures x in Unfinished(s) ==> x in Unfinished(s')
    ensures forall newId :: PrepareVerdict(s'.table, cfg.slots, sub, newId, Stored) == Admitted(newId)
  {
    hide JobsOk, SlotsOk, LocksOk, DiskOk, SweepsOk, FreshSweep;
    JobsKeys(s);
    assert sub.Key() in s.table.idempotency && s.table.idempotency[sub.Key()] == x;
    assert sub.Key() !in s'.table.idempotency;
  }
}
