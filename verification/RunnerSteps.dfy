/** A runner can always go on until its slot is released, and disturbs nobody on the way. */
module RunnerSteps {
  import opened Types
  import opened Lifecycle
  import opened Protocol
  import opened Invariant
  import opened Reachability
  import opened ExactRuns

  /** The next step of the runner of `y`; its files are written if its directory is there. */
  function NextStep(s: Sys, y: string, child: RunResult): Event
    requires y in s.runners && Rank(s.runners[y].pc) < Rank(Released)
  {
    match s.runners[y].pc
    case Queueing => MarkRunning(y)
    case Started => SetCancel(y)
    case Bound => RunChild(y, child)
    case Ran => CheckCancel(y)
    case Checked => SaveResult(y, y in s.disk)
    case Saved => WriteAudit(y, true)
    case Audited => SetResult(y)
    case Published => CloseContext(y)
    case ContextClosed => ReleaseJob(y)
  }

  /** The same directories with the same metadata. */
  ghost predicate SameMetas(s: Sys, s': Sys) {
    s'.disk.Keys == s.disk.Keys && forall d :: d in s.disk ==> s'.disk[d].meta == s.disk[d].meta
  }

  /** Only the job `y` and its files may look different, and its lock and slot may be free. */
  ghost predicate MovedOn(s: Sys, s': Sys, y: string) {
    && y in s.runners && y in s'.runners && y in s.table.recs && y in s'.table.recs
    && s'.runners == s.runners[y := s'.runners[y]]
    && s'.table.recs == s.table.recs[y := s'.table.recs[y]]
    && s'.table.jobs == s.table.jobs && s'.table.idempotency == s.table.idempotency
    && s'.table.locks.Keys <= s.table.locks.Keys
    && s'.used == s.used && SameMetas(s, s')
    && s'.runners[y].sub == s.runners[y].sub
    && s'.table.recs[y].started == s.table.recs[y].started
    && s'.table.recs[y].cancelRequested == s.table.recs[y].cancelRequested
  }

  lemma MovedOnTransitive(s: Sys, s1: Sys, s2: Sys, y: string)
    requires MovedOn(s, s1, y) && MovedOn(s1, s2, y)
    ensures MovedOn(s, s2, y)
  {
  }

  lemma PlainMoves(s: Sys, e: Event, j: JobView, r: Runner)
    requires Plain(e) && Ready(e, r) && !e.RequestCancel?
    requires e.id in s.runners && e.id in s.table.recs && s.table.recs[e.id] == j && s.runners[e.id] == r
    ensures MovedOn(s, Updated(s, e.id, JobAfter(e, j, r), RunnerAfter(e, j, r)), e.id)
    ensures Rank(RunnerAfter(e, j, r).pc) == Rank(r.pc) + 1
    ensures RunnerAfter(e, j, r).child == if e.RunChild? then Some(e.child.(jobId := e.id)) else r.child
  {
  }

  lemma WriteMoves(s: Sys, y: string, ok: bool)
    requires y in s.runners && y in s.table.recs && s.runners[y].res.Some? && (ok ==> y in s.disk)
    ensures MovedOn(s, Saving(s, y, ok), y) && MovedOn(s, Auditing(s, y, true), y)
  {
    assert s.table.recs == s.table.recs[y := s.table.recs[y]];
  }

  lemma ReleaseMoves(s: Sys, y: string)
    requires y in s.runners && y in s.table.recs
    ensures MovedOn(s, Releasing(s, y), y)
  {
    assert s.table.recs == s.table.recs[y := s.table.recs[y]];
    assert s.runners[y := Releasing(s, y).runners[y]] == Releasing(s, y).runners;
  }

  lemma ResIsThere(s: Sys, y: string)
    requires JobsOk(s) && y in s.runners && Rank(s.runners[y].pc) >= Rank(Checked)
    ensures s.runners[y].res.Some?
  {
    assert y in s.table.recs && JobOk(y, s.table.recs[y], s.runners[y]);
    hide JobsOk;
  }

  /** One step further. */
  ghost predicate Advanced(s: Sys, s': Sys, y: string, child: RunResult)
    requires y in s.runners
  {
    && MovedOn(s, s', y)
    && var pc := s.runners[y].pc;
       && Rank(s'.runners[y].pc) == Rank(pc) + 1
       && s'.runners[y].child == (if pc == Bound then Some(child.(jobId := y)) else s.runners[y].child)
       && s'.table.sem == (if pc == ContextClosed && s.table.sem > 0 then s.table.sem - 1 else s.table.sem)
  }

  lemma NextIsReady(s: Sys, y: string, child: RunResult)
    requires y in s.runners && Rank(s.runners[y].pc) < Rank(Released) && Plain(NextStep(s, y, child))
    ensures var e, r := NextStep(s, y, child), s.runners[y];
      && e.id == y && Ready(e, r) && !e.RequestCancel? && (e.RunChild? <==> r.pc == Bound) && (e.RunChild? ==> e.child == child)
      && r.pc != ContextClosed
  {
  }

  lemma PlainAdvance(cfg: Config, s: Sys, y: string, child: RunResult)
    requires y in s.runners && y in s.table.recs && Rank(s.runners[y].pc) < Rank(Released)
    requires Plain(NextStep(s, y, child))
    ensures Enabled(cfg, s, NextStep(s, y, child)) && Advanced(s, Apply(cfg, s, NextStep(s, y, child)), y, child)
  {
    NextIsReady(s, y, child);
    hide MovedOn, JobAfter, RunnerAfter, NextStep, Ready, Rank, Plain;
    var e, j, r := NextStep(s, y, child), s.table.recs[y], s.runners[y];
    assert e.id == y;
    PlainMoves(s, e, j, r);
    assert Updated(s, y, JobAfter(e, j, r), RunnerAfter(e, j, r)).table.sem == s.table.sem;
    assert Updated(s, y, JobAfter(e, j, r), RunnerAfter(e, j, r)).runners[y] == RunnerAfter(e, j, r);
    hide Updated;
    assert Enabled(cfg, s, e) && Apply(cfg, s, e) == Updated(s, y, JobAfter(e, j, r), RunnerAfter(e, j, r));
  }

  lemma OtherAdvance(cfg: Config, s: Sys, y: string, child: RunResult)
    requires y in s.runners && y in s.table.recs && Rank(s.runners[y].pc) < Rank(Released)
    requires !Plain(NextStep(s, y, child)) && (Rank(s.runners[y].pc) >= Rank(Checked) ==> s.runners[y].res.Some?)
    ensures Enabled(cfg, s, NextStep(s, y, child)) && Advanced(s, Apply(cfg, s, NextStep(s, y, child)), y, child)
  {
    hide MovedOn;
    match s.runners[y].pc {
      case Checked => WriteMoves(s, y, y in s.disk);
      case Saved => WriteMoves(s, y, false);
      case ContextClosed => ReleaseMoves(s, y);
    }
  }

  lemma GoesOn(cfg: Config, s: Sys, y: string, child: RunResult)
    requires JobsOk(s) && y in s.runners && Rank(s.runners[y].pc) < Rank(Released)
    ensures Enabled(cfg, s, NextStep(s, y, child)) && Advanced(s, Apply(cfg, s, NextStep(s, y, child)), y, child)
  {
    JobsKeys(s);
    if Plain(NextStep(s, y, child)) {
      PlainAdvance(cfg, s, y, child);
    } else {
      if Rank(s.runners[y].pc) >= Rank(Checked) {
        ResIsThere(s, y);
      }
      OtherAdvance(cfg, s, y, child);
    }
    hide *;
  }

  lemma Timeless(cfg: Config, s: Sys, y: string, child: RunResult, clock: int)
    requires y in s.runners && Rank(s.runners[y].pc) < Rank(Released)
    ensures ExactStep(cfg, s, NextStep(s, y, child), clock) && Reading(cfg, NextStep(s, y, child), clock) == clock
  {
  }

  /** Any number of steps further, with the slot given back at the end. */
  ghost predicate Arrived(s: Sys, s': Sys, y: string, child: RunResult, target: Pc)
    requires y in s.runners
  {
    && MovedOn(s, s', y) && s'.runners[y].pc == target
    && s'.table.sem == (if Rank(s.runners[y].pc) < Rank(Released) == Rank(target) then s.table.sem - 1 else s.table.sem)
    && s'.runners[y].child == (if Rank(s.runners[y].pc) <= Rank(Bound) < Rank(target) then Some(child.(jobId := y)) else s.runners[y].child)
  }

  lemma AdvancedArrives(s: Sys, s1: Sys, s2: Sys, y: string, child: RunResult, target: Pc)
    requires y in s.runners && s.table.sem > 0 && Rank(s.runners[y].pc) < Rank(target) <= Rank(Released)
    requires Advanced(s, s1, y, child) && Arrived(s1, s2, y, child, target)
    ensures Arrived(s, s2, y, child, target)
  {
    MovedOnTransitive(s, s1, s2, y);
    RankIsPc(s.runners[y].pc, ContextClosed);
    RankIsPc(s.runners[y].pc, Bound);
    hide MovedOn;
  }

  /** An admitted job's runner can get anywhere up to its release, with any child, whatever
      else is going on. */
  lemma {:induction false} Advances(cfg: Config, s: Sys, y: string, child: RunResult, target: Pc, clock: int) returns (es: seq<Event>)
    requires Inv(cfg, s) && y in s.runners && Rank(s.runners[y].pc) <= Rank(target) <= Rank(Released)
    ensures Run(cfg, s, es) && Exact(cfg, s, es, clock) && ClockAfter(cfg, es, clock) == clock
    ensures Inv(cfg, After(cfg, s, es)) && Arrived(s, After(cfg, s, es), y, child, target)
    decreases Rank(target) - Rank(s.runners[y].pc)
  {
    hide Enabled, Apply, MovedOn, Inv, ExactStep, Reading, Run, After, Exact, ClockAfter, NextStep, JobsOk;
    InvKeys(cfg, s);
    RankIsPc(s.runners[y].pc, target);
    if s.runners[y].pc == target {
      ExactNone(cfg, s, clock);
      es := [];
      NotMoved(s, y);
    } else {
      var e := NextStep(s, y, child);
      GoesOn(cfg, s, y, child);
      Timeless(cfg, s, y, child, clock);
      StepKeepsInv(cfg, s, e);
      SlotIsHeld(cfg, s, y);
      var s1 := Apply(cfg, s, e);
      RunnerStays(s, s1, y);
      hide Rank;
      var rest := Advances(cfg, s1, y, child, target, clock);
      ExactOne(cfg, s, e, clock);
      ExactAppend(cfg, s, [e], rest, clock);
      es := [e] + rest;
      hide Arrived, Advanced;
      AdvancedArrives(s, s1, After(cfg, s1, rest), y, child, target);
    }
  }

  lemma RunnerStays(s: Sys, s': Sys, y: string)
    requires MovedOn(s, s', y)
    ensures y in s'.runners
  {
  }

  lemma RankIsPc(a: Pc, b: Pc)
    ensures a == b <==> Rank(a) == Rank(b)
  {
  }

  lemma InvKeys(cfg: Config, s: Sys)
    requires Inv(cfg, s)
    ensures JobsOk(s) && s.runners.Keys == s.table.recs.Keys && s.table.jobs <= s.table.recs.Keys <= s.used && s.disk.Keys <= s.used
  {
  }

  lemma NotMoved(s: Sys, y: string)
    requires y in s.runners && y in s.table.recs
    ensures MovedOn(s, s, y)
  {
    assert s.runners == s.runners[y := s.runners[y]] && s.table.recs == s.table.recs[y := s.table.recs[y]];
  }

  lemma SlotIsHeld(cfg: Config, s: Sys, y: string)
    requires Inv(cfg, s) && y in s.runners && Rank(s.runners[y].pc) < Rank(Released)
    ensures 0 < s.table.sem <= cfg.slots
  {
    assert y in Unreleased(s);
  }

  // ----- a slot for the next submission

  lemma AnotherOwner(s: Sys, x: string) returns (y: string)
    requires |Unreleased(s)| > 1
    ensures y in Unreleased(s) && y != x
  {
    if forall z :: z in Unreleased(s) ==> z == x {
      SubsetSize(Unreleased(s), {x});
    }
    y :| y in Unreleased(s) && y != x;
  }

  /** The same job `x`, the same cleanups, directories and index entries. */
  ghost predicate SameAround(s: Sys, s': Sys, x: string) {
    && s'.runners.Keys == s.runners.Keys && s'.table.recs.Keys == s.table.recs.Keys
    && (x in s.runners ==> s'.runners[x] == s.runners[x])
    && (x in s.table.recs ==> s'.table.recs[x] == s.table.recs[x])
    && (forall c :: c in s.runners && Rank(s.runners[c].pc) >= Rank(Released) ==> s'.runners[c] == s.runners[c])
    && s'.table.jobs == s.table.jobs && s'.table.idempotency == s.table.idempotency && s'.table.sem <= s.table.sem
    && s'.used == s.used && SameMetas(s, s')
  }

  lemma MovedOnIsAround(s: Sys, s': Sys, y: string, x: string)
    requires MovedOn(s, s', y) && y != x && Rank(s.runners[y].pc) < Rank(Released) && s'.table.sem <= s.table.sem
    ensures SameAround(s, s', x)
  {
  }

  /** With two slots, one can be free while `x` holds the other: another holder runs to its release. */
  lemma FreesSlot(cfg: Config, s: Sys, x: string, clock: int) returns (es: seq<Event>)
    requires Inv(cfg, s) && cfg.slots > 1
    ensures Run(cfg, s, es) && Exact(cfg, s, es, clock) && ClockAfter(cfg, es, clock) == clock
    ensures var s' := After(cfg, s, es);
      Inv(cfg, s') && SameAround(s, s', x) && s'.table.sem < cfg.slots
  {
    hide Run, After, Exact, ClockAfter, MovedOn, JobsOk, LocksOk, IdempotencyOk, DiskOk, SweepsOk, FreshSweep, SameAround;
    if s.table.sem < cfg.slots {
      ExactNone(cfg, s, clock);
      es := [];
      NothingAround(s, x);
    } else {
      var y := AnotherOwner(s, x);
      var child := RunResult(y, Succeeded, 0, false, 0, "");
      SlotIsHeld(cfg, s, y);
      hide Inv;
      es := Advances(cfg, s, y, child, Released, clock);
      MovedOnIsAround(s, After(cfg, s, es), y, x);
    }
  }

  lemma NothingAround(s: Sys, x: string)
    ensures SameAround(s, s, x)
  {
  }
}
