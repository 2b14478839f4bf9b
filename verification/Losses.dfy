/** How a cleanup in reach of an unfinished job takes its directory and its place in memory: runs
    as the daemon performs them, each listing the whole job directory under a clock that does
    not go back. */
module Losses {
  import opened Types
  import opened Lifecycle
  import opened Retention
  import opened RetentionPlans
  import opened Sorting
  import opened Protocol
  import opened Invariant
  import opened Reachability
  import opened Retries
  import opened ExactRuns
  import opened RunnerSteps
  import opened Exposure

  // ----- listing the whole disk

  lemma {:induction false} Listing(ids: set<string>) returns (l: seq<string>)
    ensures Unique(l) && forall x :: x in l <==> x in ids
  {
    if ids == {} {
      l := [];
    } else {
      var x :| x in ids;
      l := Listing(ids - {x});
      l := l + [x];
    }
  }

  /** A time before all creation times on disk and not after `t`. */
  lemma {:induction false} LowerBound(disk: map<string, JobDir>, ids: set<string>, t: int) returns (low: int)
    requires ids <= disk.Keys
    ensures low <= t && forall d :: d in ids && HasCreationTime(disk[d]) ==> low <= disk[d].meta.value.createdAt
  {
    low := t;
    if ids != {} {
      var d :| d in ids;
      low := LowerBound(disk, ids - {d}, t);
      if HasCreationTime(disk[d]) && disk[d].meta.value.createdAt < low {
        low := disk[d].meta.value.createdAt;
      }
    }
  }

  /** How `d` is listed when `x` is to go: without a creation time, `x` is old and others are new. */
  function EntryOf(disk: map<string, JobDir>, d: string, x: string, now: int, low: int, big: nat): Entry
    requires d in disk
  {
    Entry(d,
          if HasCreationTime(disk[d]) then disk[d].meta.value.createdAt else if d == x then low else now,
          if d == x then big else 0)
  }

  lemma ListAll(s: Sys, x: string, now: int, low: int, big: nat) returns (l: seq<Entry>)
    requires low <= now
    ensures Listed(s, l) && WholeListing(s, l, now)
    ensures forall d :: d in s.disk ==> EntryOf(s.disk, d, x, now, low, big) in l
  {
    var ids := Listing(s.disk.Keys);
    assert forall i :: 0 <= i < |ids| ==> ids[i] in ids;
    l := seq(|ids|, i requires 0 <= i < |ids| => EntryOf(s.disk, ids[i], x, now, low, big));
    forall d | d in s.disk ensures EntryOf(s.disk, d, x, now, low, big) in l && d in Ids(l) {
      var i :| 0 <= i < |ids| && ids[i] == d;
      assert l[i] == EntryOf(s.disk, d, x, now, low, big);
    }
    assert Ids(l) == s.disk.Keys;
  }

  // ----- a plan with `x` in it

  /** A whole listing and a plan of it in which `x` goes, at some time from `clock` on. */
  ghost predicate Hits(cfg: Config, s: Sys, protected: set<string>, x: string, clock: int, l: seq<Entry>, cutoff: int, plan: set<string>) {
    && Listed(s, l) && IsPlan(cfg, cutoff, protected, l, plan) && x in plan
    && clock <= cutoff + cfg.retentionDays * DAY && WholeListing(s, l, cutoff + cfg.retentionDays * DAY)
  }

  lemma AgeHits(cfg: Config, s: Sys, protected: set<string>, x: string, clock: int) returns (l: seq<Entry>, cutoff: int, plan: set<string>)
    requires cfg.retentionDays > 0 && x in s.disk && x !in protected
    ensures Hits(cfg, s, protected, x, clock, l, cutoff, plan)
  {
    hide Listed, WholeListing, IsPlan;
    var created := if HasCreationTime(s.disk[x]) then s.disk[x].meta.value.createdAt else clock;
    cutoff := (if created < clock then clock else created) + 1;
    l := ListAll(s, x, cutoff + cfg.retentionDays * DAY, cutoff - 1, 0);
    plan := SomePlan(cfg, cutoff, protected, l);
    ListedAreDistinct(s, l);
    ExpiredGoes(cfg, cutoff, protected, l, plan, EntryOf(s.disk, x, x, cutoff + cfg.retentionDays * DAY, cutoff - 1, 0));
  }

  lemma BytesHit(cfg: Config, s: Sys, protected: set<string>, x: string, clock: int) returns (l: seq<Entry>, cutoff: int, plan: set<string>)
    requires cfg.maxTotalJobBytes > 0 && x in s.disk && x !in protected
    ensures Hits(cfg, s, protected, x, clock, l, cutoff, plan)
  {
    hide Listed, WholeListing, IsPlan;
    cutoff := Cutoff(cfg, clock);
    l := ListAll(s, x, clock, clock, cfg.maxTotalJobBytes + 1);
    plan := SomePlan(cfg, cutoff, protected, l);
    ListedAreDistinct(s, l);
    TooBigGoes(cfg, cutoff, protected, l, plan, EntryOf(s.disk, x, x, clock, clock, cfg.maxTotalJobBytes + 1));
  }

  lemma CrowdHits(cfg: Config, s: Sys, protected: set<string>, x: string, clock: int) returns (l: seq<Entry>, cutoff: int, plan: set<string>)
    requires CountOnly(cfg) && x in s.disk && x !in protected && |Crowd(s, x)| >= cfg.maxJobsRetained
    ensures Hits(cfg, s, protected, x, clock, l, cutoff, plan)
  {
    hide Listed, WholeListing, IsPlan;
    var created := if HasCreationTime(s.disk[x]) then s.disk[x].meta.value.createdAt else clock;
    var now := if created < clock then clock else created;
    var low := LowerBound(s.disk, s.disk.Keys, now);
    cutoff := Cutoff(cfg, now);
    l := ListAll(s, x, now, low, 0);
    var e := EntryOf(s.disk, x, x, now, low, 0);
    ListedAreDistinct(s, l);
    forall d | d in Crowd(s, x) ensures exists f :: f in l && f.id == d && f.created >= e.created {
      assert EntryOf(s.disk, d, x, now, low, 0) in l;
    }
    plan := CrowdedOut(cfg, cutoff, protected, l, e, Crowd(s, x));
  }

  lemma ListedAreDistinct(s: Sys, l: seq<Entry>)
    requires Listed(s, l)
    ensures DistinctIds(l)
  {
  }

  // ----- newer directories

  /** A preparation that fails at the store and leaves an empty directory. */
  lemma Leaves(cfg: Config, s: Sys, clock: int) returns (e: Event)
    requires s.table.sem < cfg.slots
    ensures Enabled(cfg, s, e) && ExactStep(cfg, s, e, clock) && Reading(cfg, e, clock) == clock
    ensures e.PrepareJob? && e.newId !in s.used
    ensures var s' := Apply(cfg, s, e);
      s'.table == s.table && s'.runners == s.runners && s'.disk == s.disk[e.newId := JobDir(None, None)]
  {
    var id := FreshId(s.used);
    e := PrepareJob(Keyed("", ""), id, clock, CreateFailed, true);
  }

  lemma {:induction false} LongerThanAll(ids: set<string>) returns (n: nat)
    ensures forall x :: x in ids ==> |x| < n
  {
    if ids == {} {
      n := 0;
    } else {
      var x :| x in ids;
      n := LongerThanAll(ids - {x});
      n := if |x| < n then n else |x| + 1;
    }
  }

  lemma FreshId(ids: set<string>) returns (id: string)
    ensures id !in ids
  {
    var n := LongerThanAll(ids);
    id := seq(n, _ => 'a');
  }

  lemma CrowdGrows(s: Sys, s': Sys, x: string, d: string)
    requires x in s.disk && d !in s.disk && s'.disk == s.disk[d := JobDir(None, None)]
    ensures |Crowd(s', x)| == |Crowd(s, x)| + 1
  {
    hide AsNew;
    assert AsNew(JobDir(None, None), s.disk[x]) by {
      NoTimeIsAsNew(s.disk[x]);
    }
    assert Crowd(s', x) == Crowd(s, x) + {d};
  }

  lemma NoTimeIsAsNew(x: JobDir)
    ensures AsNew(JobDir(None, None), x)
  {
  }

  /** As many of them as it takes. */
  lemma {:induction false} Leftovers(cfg: Config, s: Sys, x: string, n: nat, clock: int) returns (es: seq<Event>)
    requires Inv(cfg, s) && s.table.sem < cfg.slots && x in s.disk
    ensures Run(cfg, s, es) && Exact(cfg, s, es, clock) && ClockAfter(cfg, es, clock) == clock
    ensures var s' := After(cfg, s, es);
      && Inv(cfg, s') && s'.table == s.table && s'.runners == s.runners
      && x in s'.disk && |Crowd(s', x)| >= n
    decreases n
  {
    hide Enabled, Apply, Inv, ExactStep, Reading, Run, After, Exact, ClockAfter, Crowd;
    if n == 0 {
      ExactNone(cfg, s, clock);
      es := [];
    } else {
      var fs := Leftovers(cfg, s, x, n - 1, clock);
      var s1 := After(cfg, s, fs);
      var e := Leaves(cfg, s1, clock);
      InvKeys(cfg, s1);
      CrowdGrows(s1, Apply(cfg, s1, e), x, e.newId);
      StepKeepsInv(cfg, s1, e);
      ExactOne(cfg, s1, e, clock);
      ExactAppend(cfg, s, fs, [e], clock);
      es := fs + [e];
    }
  }

  // ----- a cleanup overlooks `x`

  /** The job `x` and its runner are the same, no slot and no key has been taken. */
  ghost predicate Unmoved(s: Sys, s': Sys, x: string) {
    && x in s.runners && x in s'.runners && s'.runners[x] == s.runners[x]
    && x in s.table.recs && x in s'.table.recs && s'.table.recs[x] == s.table.recs[x]
    && s'.table.sem <= s.table.sem
    && forall k :: k in s'.table.idempotency ==> k in s.table.idempotency && s'.table.idempotency[k] == s.table.idempotency[k]
  }

  lemma UnmovedTransitive(s: Sys, s1: Sys, s2: Sys, x: string)
    requires Unmoved(s, s1, x) && Unmoved(s1, s2, x)
    ensures Unmoved(s, s2, x)
  {
  }

  /** A cleanup at its listing that does not know `x`, and `x` on disk. */
  ghost predicate Overlooking(cfg: Config, s: Sys, c: string, x: string) {
    && At(s, c, Snapshotted) && x !in s.runners[c].protected
    && c != x && x in s.disk && x in Unfinished(s) && x in s.runners && x in s.table.recs
  }

  lemma AroundOverlooks(cfg: Config, s: Sys, s': Sys, c: string, x: string)
    requires Overlooking(cfg, s, c, x) && SameAround(s, s', x)
    ensures Overlooking(cfg, s', c, x) && Unmoved(s, s', x)
  {
  }

  lemma LeftoversOverlook(cfg: Config, s: Sys, s': Sys, c: string, x: string)
    requires Overlooking(cfg, s, c, x) && s'.table == s.table && s'.runners == s.runners && x in s'.disk
    ensures Overlooking(cfg, s', c, x) && Unmoved(s, s', x)
  {
  }

  /** With two slots and a count limit, enough newer directories can come. */
  lemma GetsCrowded(cfg: Config, s: Sys, c: string, x: string, clock: int) returns (es: seq<Event>)
    requires Inv(cfg, s) && Overlooking(cfg, s, c, x) && cfg.slots > 1 && cfg.maxJobsRetained > 0
    ensures Run(cfg, s, es) && Exact(cfg, s, es, clock) && ClockAfter(cfg, es, clock) == clock
    ensures var s' := After(cfg, s, es);
      Inv(cfg, s') && Overlooking(cfg, s', c, x) && Unmoved(s, s', x) && |Crowd(s', x)| >= cfg.maxJobsRetained
  {
    hide Run, After, Exact, ClockAfter, Inv, Crowd, SameAround, Unmoved;
    var fs := FreesSlot(cfg, s, x, clock);
    var s1 := After(cfg, s, fs);
    AroundOverlooks(cfg, s, s1, c, x);
    var rest := Leftovers(cfg, s1, x, cfg.maxJobsRetained, clock);
    ExactAppend(cfg, s, fs, rest, clock);
    es := fs + rest;
    LeftoversOverlook(cfg, s1, After(cfg, s, es), c, x);
    UnmovedTransitive(s, s1, After(cfg, s, es), x);
  }

  lemma PlansIt(cfg: Config, s: Sys, c: string, x: string, l: seq<Entry>, cutoff: int, plan: set<string>, clock: int)
    requires Overlooking(cfg, s, c, x) && Hits(cfg, s, s.runners[c].protected, x, clock, l, cutoff, plan)
    ensures var e := PlanCleanup(c, l, cutoff, plan);
      && Enabled(cfg, s, e) && ExactStep(cfg, s, e, clock)
      && var s' := Apply(cfg, s, e);
         Unmoved(s, s', x) && s'.disk == s.disk && At(s', c, Planned) && x in s'.runners[c].todo
  {
    hide Listed, IsPlan, WholeListing, Unfinished;
  }

  lemma HitsNow(cfg: Config, s: Sys, protected: set<string>, x: string, clock: int) returns (l: seq<Entry>, cutoff: int, plan: set<string>)
    requires x in s.disk && x !in protected
    requires cfg.retentionDays > 0 || cfg.maxTotalJobBytes > 0 || (cfg.maxJobsRetained > 0 && |Crowd(s, x)| >= cfg.maxJobsRetained)
    ensures Hits(cfg, s, protected, x, clock, l, cutoff, plan)
  {
    hide Hits, Crowd;
    if cfg.retentionDays > 0 {
      l, cutoff, plan := AgeHits(cfg, s, protected, x, clock);
    } else if cfg.maxTotalJobBytes > 0 {
      l, cutoff, plan := BytesHit(cfg, s, protected, x, clock);
    } else {
      l, cutoff, plan := CrowdHits(cfg, s, protected, x, clock);
    }
  }

  /** A cleanup that does not know an exposed job can plan to delete its directory. */
  lemma Overlooks(cfg: Config, s: Sys, c: string, x: string, clock: int) returns (es: seq<Event>)
    requires Inv(cfg, s) && Overlooking(cfg, s, c, x) && Exposed(cfg, s, x)
    ensures Run(cfg, s, es) && Exact(cfg, s, es, clock)
    ensures var s' := After(cfg, s, es);
      Inv(cfg, s') && Unmoved(s, s', x) && x in s'.disk && At(s', c, Planned) && x in s'.runners[c].todo
  {
    hide Enabled, Apply, Run, After, Exact, ClockAfter, Inv, Hits, ExactStep, Reading, Unmoved, Crowd, Unfinished;
    var fs := [];
    if cfg.retentionDays > 0 || cfg.maxTotalJobBytes > 0 || |Crowd(s, x)| >= cfg.maxJobsRetained {
      ExactNone(cfg, s, clock);
      StaysUnmoved(s, x);
    } else {
      fs := GetsCrowded(cfg, s, c, x, clock);
    }
    var s1 := After(cfg, s, fs);
    var l, cutoff, plan := HitsNow(cfg, s1, s1.runners[c].protected, x, clock);
    var e := PlanCleanup(c, l, cutoff, plan);
    PlansIt(cfg, s1, c, x, l, cutoff, plan, clock);
    StepKeepsInv(cfg, s1, e);
    ExactOne(cfg, s1, e, clock);
    ExactAppend(cfg, s, fs, [e], clock);
    es := fs + [e];
    UnmovedTransitive(s, s1, After(cfg, s, es), x);
  }

  lemma StaysUnmoved(s: Sys, x: string)
    requires x in s.runners && x in s.table.recs
    ensures Unmoved(s, s, x)
  {
  }

  // ----- and carries out its plan

  lemma Removes(cfg: Config, s: Sys, c: string, v: string, x: string, clock: int)
    requires At(s, c, Planned) && v in s.runners[c].todo && x != c && x in s.runners && x in s.table.recs
    ensures Enabled(cfg, s, RemoveDir(c, v)) && ExactStep(cfg, s, RemoveDir(c, v), clock)
    ensures Reading(cfg, RemoveDir(c, v), clock) == clock
    ensures var s' := Apply(cfg, s, RemoveDir(c, v));
      && Unmoved(s, s', x) && At(s', c, Planned) && v !in s'.disk
      && s'.runners[c].todo == s.runners[c].todo - {v} && s'.runners[c].deleted == s.runners[c].deleted + {v}
  {
  }

  /** A cleanup in reach of the directory of an unfinished job can remove it. */
  lemma DirectoryCanGo(cfg: Config, s: Sys, c: string, x: string, clock: int) returns (es: seq<Event>)
    requires Inv(cfg, s) && x in Unfinished(s) && x in s.disk && c in s.runners
    requires (s.runners[c].pc == Snapshotted && Exposed(cfg, s, x) && x !in s.runners[c].snapshotIds)
          || (s.runners[c].pc == Planned && x in s.runners[c].todo)
    ensures Run(cfg, s, es) && Exact(cfg, s, es, clock)
    ensures x in Unfinished(After(cfg, s, es)) && x !in After(cfg, s, es).disk
  {
    hide Apply, Enabled, Inv, Exposed, Run, After, Exact, ClockAfter, ExactStep, Reading, JobsOk;
    InvKeys(cfg, s);
    SweeperIsAnother(cfg, s, c, x);
    var fs := [];
    if s.runners[c].pc == Planned {
      ExactNone(cfg, s, clock);
    } else {
      UnknownIsUnprotected(cfg, s, c, x);
      fs := Overlooks(cfg, s, c, x, clock);
    }
    var s1 := After(cfg, s, fs);
    var later := ClockAfter(cfg, fs, clock);
    Removes(cfg, s1, c, x, x, later);
    ExactOne(cfg, s1, RemoveDir(c, x), later);
    ExactAppend(cfg, s, fs, [RemoveDir(c, x)], clock);
    es := fs + [RemoveDir(c, x)];
  }

  lemma SweeperIsAnother(cfg: Config, s: Sys, c: string, x: string)
    requires Inv(cfg, s) && x in Unfinished(s) && c in s.runners && Rank(s.runners[c].pc) >= Rank(Snapshotted)
    ensures x in s.runners && c != x
  {
    hide JobsOk, SlotsOk, LocksOk, IdempotencyOk, DiskOk, SweepsOk, FreshSweep, Unfinished;
    OwnsSlot(cfg, s, x);
    hide Inv;
  }

  lemma UnknownIsUnprotected(cfg: Config, s: Sys, c: string, x: string)
    requires Inv(cfg, s) && c in s.runners && s.runners[c].pc == Snapshotted && x !in s.runners[c].snapshotIds
    ensures x !in s.runners[c].protected
  {
    hide JobsOk, SlotsOk, LocksOk, IdempotencyOk, DiskOk, FreshSweep;
    assert SweepOk(s, s.runners[c]);
  }

  // ----- and prunes

  function StartOf(recs: map<string, JobView>, id: string): int {
    if id in recs then recs[id].started else 0
  }

  lemma NewestOrder(recs: map<string, JobView>, ids: set<string>) returns (order: seq<string>)
    ensures Unique(order) && forall x :: x in order <==> x in ids
    ensures forall i, j :: 0 <= i < j < |order| ==> StartOf(recs, order[i]) >= StartOf(recs, order[j])
  {
    var l := Listing(ids);
    var newer := (a: string, b: string) => StartOf(recs, a) >= StartOf(recs, b);
    assert TotalOn(l, newer);
    order := Arranged(l, newer);
    PermutedUnique(order, l);
    forall x ensures x in order <==> x in l {
      assert x in order <==> x in multiset(order);
      assert x in l <==> x in multiset(l);
    }
    forall i, j | 0 <= i < j < |order| ensures StartOf(recs, order[i]) >= StartOf(recs, order[j]) {
      assert newer(order[i], order[j]);
    }
  }

  /** A prune always finds an order to go by. */
  lemma SomeOrder(cfg: Config, s: Sys) returns (order: seq<string>)
    requires JobsOk(s)
    ensures PruneOrder(cfg, s.table, order) && SawReleased(s, order)
  {
    JobsKeys(s);
    ReleasedAreDone(s);
    hide JobsOk;
    var done := set id | id in s.table.jobs && s.table.recs[id].Done();
    order := NewestOrder(s.table.recs, done);
    assert forall i :: 0 <= i < |order| ==> order[i] in order && order[i] in done;
  }

  lemma ReleasedAreDone(s: Sys)
    requires JobsOk(s)
    ensures forall j :: j in s.table.jobs && j in s.runners && Rank(s.runners[j].pc) >= Rank(Released) ==>
      j in s.table.recs && s.table.recs[j].Done()
  {
    hide JobOk;
    forall j | j in s.table.jobs && j in s.runners && Rank(s.runners[j].pc) >= Rank(Released)
      ensures j in s.table.recs && s.table.recs[j].Done()
    {
      assert JobOk(j, s.table.recs[j], s.runners[j]);
      hide JobsOk;
      ReleasedIsDone(j, s.table.recs[j], s.runners[j]);
    }
  }

  /** Nothing new, and the daemon has forgotten `x`. */
  ghost predicate Forgot(s: Sys, s': Sys, x: string) {
    && Unmoved(s, s', x)
    && x !in s'.table.jobs
    && forall k :: k in s'.table.idempotency ==> s'.table.idempotency[k] != x
  }

  lemma ForgotSince(s: Sys, s1: Sys, s2: Sys, x: string)
    requires Unmoved(s, s1, x) && Forgot(s1, s2, x)
    ensures Forgot(s, s2, x)
  {
  }

  lemma Prunes(cfg: Config, s: Sys, c: string, x: string, clock: int) returns (e: Event)
    requires JobsOk(s) && At(s, c, Swept) && x in s.runners[c].deleted && x != c && x in s.table.recs
    ensures Enabled(cfg, s, e) && ExactStep(cfg, s, e, clock) && Forgot(s, Apply(cfg, s, e), x)
  {
    hide PruneOrder, SawReleased, StaleIds, Enabled, Apply, Forgot, Pruning, ExactStep;
    JobsKeys(s);
    hide JobsOk;
    var order := SomeOrder(cfg, s);
    e := PruneMemory(c, order, clock);
    PruneApplies(cfg, s, c, order, clock);
    PruningForgets(cfg, s, c, order, clock, x);
  }

  lemma PruningForgets(cfg: Config, s: Sys, c: string, order: seq<string>, now: int, x: string)
    requires c in s.runners && PruneOrder(cfg, s.table, order) && x in s.runners[c].deleted
    requires x != c && x in s.runners && x in s.table.recs
    ensures Forgot(s, Pruning(cfg, s, c, order, now), x)
  {
    hide PruneOrder, StaleIds;
  }

  lemma PruneApplies(cfg: Config, s: Sys, c: string, order: seq<string>, now: int)
    requires At(s, c, Swept) && PruneOrder(cfg, s.table, order) && SawReleased(s, order)
    ensures Enabled(cfg, s, PruneMemory(c, order, now)) && ExactStep(cfg, s, PruneMemory(c, order, now), now)
    ensures Apply(cfg, s, PruneMemory(c, order, now)) == Pruning(cfg, s, c, order, now)
  {
    hide PruneOrder, SawReleased, Pruning, Ready, CleanerReady, Admission, Saving, Auditing, Releasing, Cleaned, Updated;
  }

  lemma Ends(cfg: Config, s: Sys, c: string, x: string, clock: int)
    requires At(s, c, Planned) && s.runners[c].todo == {} && x != c && x in s.runners && x in s.table.recs
    ensures Enabled(cfg, s, EndSweep(c)) && ExactStep(cfg, s, EndSweep(c), clock)
    ensures Reading(cfg, EndSweep(c), clock) == clock
    ensures var s' := Apply(cfg, s, EndSweep(c));
      Unmoved(s, s', x) && At(s', c, Swept) && s'.runners[c].deleted == s.runners[c].deleted
  {
  }

  lemma UnmovedKeys(s: Sys, s': Sys, x: string)
    requires Unmoved(s, s', x)
    ensures x in s'.runners && x in s'.table.recs
  {
  }

  /** A cleanup carries out the rest of its plan and prunes. */
  lemma {:induction false} CleansUp(cfg: Config, s: Sys, c: string, x: string, clock: int) returns (es: seq<Event>)
    requires Inv(cfg, s) && At(s, c, Planned) && x != c && x in s.runners && x in s.table.recs
    requires x in s.runners[c].todo + s.runners[c].deleted
    ensures Run(cfg, s, es) && Exact(cfg, s, es, clock) && Forgot(s, After(cfg, s, es), x)
    decreases |s.runners[c].todo|
  {
    hide Apply, Enabled, Inv, Forgot, Unmoved, Run, After, Exact, ClockAfter, ExactStep, Reading, JobsOk;
    var e, rest;
    if s.runners[c].todo == {} {
      e := EndSweep(c);
      Ends(cfg, s, c, x, clock);
      StepKeepsInv(cfg, s, e);
      var s' := Apply(cfg, s, e);
      InvKeys(cfg, s');
      UnmovedKeys(s, s', x);
      var f := Prunes(cfg, s', c, x, clock);
      ExactOne(cfg, s', f, clock);
      rest := [f];
    } else {
      var v :| v in s.runners[c].todo;
      e := RemoveDir(c, v);
      Removes(cfg, s, c, v, x, clock);
      StepKeepsInv(cfg, s, e);
      UnmovedKeys(s, Apply(cfg, s, e), x);
      rest := CleansUp(cfg, Apply(cfg, s, e), c, x, clock);
    }
    ExactOne(cfg, s, e, clock);
    ExactAppend(cfg, s, [e], rest, clock);
    es := [e] + rest;
    ForgotSince(s, Apply(cfg, s, e), After(cfg, s, es), x);
  }

  /** A cleanup that is not harmless can make the daemon forget an unfinished job. */
  lemma JobCanBeForgotten(cfg: Config, s: Sys, c: string, x: string, clock: int) returns (es: seq<Event>)
    requires Inv(cfg, s) && c in s.runners && x in Unfinished(s) && !Harmless(s.runners[c], x, Exposed(cfg, s, x))
    ensures Run(cfg, s, es) && Exact(cfg, s, es, clock) && Forgot(s, After(cfg, s, es), x)
  {
    hide Apply, Enabled, Inv, Exposed, Run, After, Exact, ClockAfter, ExactStep, Reading, JobsOk, Forgot, Unmoved;
    InvKeys(cfg, s);
    SweeperIsAnother(cfg, s, c, x);
    if s.runners[c].pc == Planned {
      es := CleansUp(cfg, s, c, x, clock);
    } else if s.runners[c].pc == Swept {
      var e := Prunes(cfg, s, c, x, clock);
      es := [e];
      ExactOne(cfg, s, e, clock);
    } else {
      UnknownIsUnprotected(cfg, s, c, x);
      ExposedIsThere(cfg, s, x);
      var fs := Overlooks(cfg, s, c, x, clock);
      var s1 := After(cfg, s, fs);
      UnmovedKeys(s, s1, x);
      var rest := CleansUp(cfg, s1, c, x, ClockAfter(cfg, fs, clock));
      ExactAppend(cfg, s, fs, rest, clock);
      es := fs + rest;
      ForgotSince(s, s1, After(cfg, s, es), x);
    }
  }
}
