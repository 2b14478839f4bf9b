/** Every listing has a plan, and what is in every plan of it, or in one. */
module RetentionPlans {
  import opened Types
  import opened Retention
  import opened RetentionTheorems
  import opened Sorting

  lemma SortedBoth(l: seq<Entry>) returns (newest: seq<Entry>, oldest: seq<Entry>)
    ensures multiset(newest) == multiset(l) && NewestFirst(newest)
    ensures multiset(oldest) == multiset(l) && OldestFirst(oldest)
  {
    var down, up := (a: Entry, b: Entry) => a.created >= b.created, (a: Entry, b: Entry) => a.created <= b.created;
    newest := Arranged(l, down);
    oldest := Arranged(l, up);
    assert forall i, j :: 0 <= i < j < |newest| ==> down(newest[i], newest[j]);
    assert forall i, j :: 0 <= i < j < |oldest| ==> up(oldest[i], oldest[j]);
  }

  /** The byte pass stops somewhere. */
  lemma {:induction false} Stops(cfg: Config, protected: set<string>, l: seq<Entry>, oldest: seq<Entry>, going: set<string>, from: nat)
      returns (n: nat)
    requires from <= |oldest|
    requires forall i :: 0 <= i < from ==> BytesOutside(l, going + Oldest(oldest, i, protected, going)) > cfg.maxTotalJobBytes
    ensures ByteStop(cfg, protected, l, oldest, going, n)
    decreases |oldest| - from
  {
    if from == |oldest| || BytesOutside(l, going + Oldest(oldest, from, protected, going)) <= cfg.maxTotalJobBytes {
      n := from;
    } else {
      n := Stops(cfg, protected, l, oldest, going, from + 1);
    }
  }

  lemma SomePlan(cfg: Config, cutoff: int, protected: set<string>, l: seq<Entry>) returns (plan: set<string>)
    ensures IsPlan(cfg, cutoff, protected, l, plan)
  {
    var newest, oldest := SortedBoth(l);
    var early := Early(cfg, cutoff, protected, newest);
    var n := Stops(cfg, protected, l, oldest, early, 0);
    plan := if OverLimit(cfg, l, early) then early + Oldest(oldest, n, protected, early) else early;
    assert PlanWith(cfg, cutoff, protected, l, newest, oldest, n, plan);
  }

  /** An expired, unprotected directory is in every plan. */
  lemma ExpiredGoes(cfg: Config, cutoff: int, protected: set<string>, l: seq<Entry>, plan: set<string>, e: Entry)
    requires DistinctIds(l) && IsPlan(cfg, cutoff, protected, l, plan)
    requires e in l && e.id !in protected && Expired(cfg, cutoff, e)
    ensures e.id in plan
  {
    var newest, oldest, n := PlanParts(cfg, cutoff, protected, l, plan);
    var i := Position(newest, l, e);
    EarlySurvivor(cfg, cutoff, protected, newest, i);
  }

  lemma {:induction false} BytesAtLeast(l: seq<Entry>, ids: set<string>, e: Entry)
    requires e in l && e.id !in ids
    ensures BytesOutside(l, ids) >= e.size
  {
    if l[0] != e {
      assert e in l[1..];
      BytesAtLeast(l[1..], ids, e);
    }
  }

  /** So is one that alone is over the byte limit. */
  lemma TooBigGoes(cfg: Config, cutoff: int, protected: set<string>, l: seq<Entry>, plan: set<string>, e: Entry)
    requires DistinctIds(l) && IsPlan(cfg, cutoff, protected, l, plan)
    requires e in l && e.id !in protected && e.size > cfg.maxTotalJobBytes > 0
    ensures e.id in plan
  {
    BytesWithinLimit(cfg, cutoff, protected, l, plan);
    if e.id !in plan {
      BytesAtLeast(l, plan, e);
    }
  }

  // ----- the count limit alone

  /** Newest first, and `last` behind all others of its age. */
  predicate Behind(last: Entry, a: Entry, b: Entry) {
    a.created > b.created || (a.created == b.created && (b == last || a != last))
  }

  lemma NotBehind(last: Entry, e: Entry)
    requires e != last && e.created >= last.created
    ensures !Behind(last, last, e)
  {
  }

  lemma OrderWithLast(l: seq<Entry>, last: Entry) returns (order: seq<Entry>)
    requires DistinctIds(l)
    ensures multiset(order) == multiset(l) && NewestFirst(order) && DistinctIds(order)
    ensures forall i, j :: 0 <= i < j < |order| ==> Behind(last, order[i], order[j])
  {
    var leq := (a: Entry, b: Entry) => Behind(last, a, b);
    assert TotalOn(l, leq);
    order := Arranged(l, leq);
    forall i, j | 0 <= i < j < |order| ensures Behind(last, order[i], order[j]) {
      assert leq(order[i], order[j]);
    }
    PermutedDistinct(order, l);
  }

  /** At least as many entries as ids they have. */
  lemma {:induction false} EntriesForIds(ids: set<string>, es: set<Entry>)
    requires forall id :: id in ids ==> exists e :: e in es && e.id == id
    ensures |ids| <= |es|
  {
    if ids != {} {
      var id :| id in ids;
      var e :| e in es && e.id == id;
      forall other | other in ids - {id} ensures exists f :: f in es - {e} && f.id == other {
        var f :| f in es && f.id == other;
        assert f in es - {e};
      }
      EntriesForIds(ids - {id}, es - {e});
    }
  }

  /** No more entries than ids, if the ids tell them apart. */
  lemma {:induction false} IdsForEntries(es: set<Entry>, ids: set<string>)
    requires forall e :: e in es ==> e.id in ids
    requires forall e, f :: e in es && f in es && e.id == f.id ==> e == f
    ensures |es| <= |ids|
  {
    if es != {} {
      var e :| e in es;
      IdsForEntries(es - {e}, ids - {e.id});
    }
  }

  predicate CountOnly(cfg: Config) {
    cfg.retentionDays <= 0 && cfg.maxTotalJobBytes <= 0 && cfg.maxJobsRetained > 0
  }

  /** With enough directories at least as new, some plan has an unprotected one in it. */
  lemma CrowdedOut(cfg: Config, cutoff: int, protected: set<string>, l: seq<Entry>, e: Entry, crowd: set<string>) returns (plan: set<string>)
    requires CountOnly(cfg) && DistinctIds(l) && e in l && e.id !in protected
    requires e.id !in crowd && |crowd| >= cfg.maxJobsRetained
    requires forall d :: d in crowd ==> exists f :: f in l && f.id == d && f.created >= e.created
    ensures IsPlan(cfg, cutoff, protected, l, plan) && e.id in plan
  {
    var order := OrderWithLast(l, e);
    plan := Early(cfg, cutoff, protected, order);
    assert PlanWith(cfg, cutoff, protected, l, order, order, 0, plan);
    var i := Position(order, l, e);
    forall d | d in crowd ensures exists f :: f in Ahead(cfg, cutoff, protected, order, i) && f.id == d {
      var f :| f in l && f.id == d && f.created >= e.created;
      var k := Position(order, l, f);
      assert k != i;
      NotBehind(e, f);
      assert f in Ahead(cfg, cutoff, protected, order, i);
    }
    EntriesForIds(crowd, Ahead(cfg, cutoff, protected, order, i));
    EarlySurvivor(cfg, cutoff, protected, order, i);
  }

  /** With fewer, no plan has. */
  lemma NotCrowdedOut(cfg: Config, cutoff: int, protected: set<string>, l: seq<Entry>, plan: set<string>, e: Entry, crowd: set<string>)
    requires CountOnly(cfg) && DistinctIds(l) && IsPlan(cfg, cutoff, protected, l, plan) && e in l
    requires |crowd| < cfg.maxJobsRetained
    requires forall f :: f in l && f != e && f.created >= e.created ==> f.id in crowd
    ensures e.id !in plan
  {
    PlanIsListedAndUnprotected(cfg, cutoff, protected, l, plan);
    var newest, oldest, n := PlanParts(cfg, cutoff, protected, l, plan);
    var i := Position(newest, l, e);
    if e.id !in protected {
      forall f | f in Ahead(cfg, cutoff, protected, newest, i) ensures f.id in crowd {
        var k :| 0 <= k < i && newest[k] == f;
        var m := InBoth(newest, l, k);
        assert newest[k].id != newest[i].id;
      }
      IdsForEntries(Ahead(cfg, cutoff, protected, newest, i), crowd);
      EarlySurvivor(cfg, cutoff, protected, newest, i);
    }
  }

  /** Without any limit nothing is in a plan. */
  lemma NothingGoes(cfg: Config, cutoff: int, protected: set<string>, l: seq<Entry>, plan: set<string>)
    requires cfg.retentionDays <= 0 && cfg.maxTotalJobBytes <= 0 && cfg.maxJobsRetained <= 0
    requires IsPlan(cfg, cutoff, protected, l, plan)
    ensures plan == {}
  {
    var newest: seq<Entry>, oldest: seq<Entry>, n: nat :| PlanWith(cfg, cutoff, protected, l, newest, oldest, n, plan);
    assert AgeVictims(cfg, cutoff, protected, newest) == {} && CountVictims(cfg, cutoff, protected, newest) == {};
  }
}
