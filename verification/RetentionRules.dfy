/** The retention rules as an operator reads them in the settings: days, jobs and bytes. */
module RetentionRules {
  import opened Types
  import opened Lifecycle
  import opened Retention
  import opened RetentionTheorems
  import opened CleanupPasses

  /** More than RetentionDays days old at `now`, if there is such a limit. */
  predicate TooOld(cfg: Config, created: int, now: int) {
    cfg.retentionDays > 0 && created + cfg.retentionDays * 24 * 3_600 * 1_000_000_000 < now
  }

  /** The places before `i` of directories that stay whatever the count: protected or not too old. */
  ghost function PlacesTaken(cfg: Config, now: int, protected: set<string>, newest: seq<Entry>, i: nat): set<nat>
    requires i <= |newest|
  {
    set k: nat | k < i && (newest[k].id in protected || !TooOld(cfg, newest[k].created, now))
  }

  /** An unprotected directory goes if it is too old, or behind MaxJobsRetained such places. */
  ghost predicate Goes(cfg: Config, now: int, protected: set<string>, newest: seq<Entry>, i: nat)
    requires i < |newest|
  {
    && newest[i].id !in protected
    && (TooOld(cfg, newest[i].created, now)
        || (cfg.maxJobsRetained > 0 && |PlacesTaken(cfg, now, protected, newest, i)| >= cfg.maxJobsRetained))
  }

  /** `early` is what the age and count limits ask for, for some newest-first order of the listing. */
  ghost predicate AgeAndCount(cfg: Config, now: int, protected: set<string>, l: seq<Entry>, early: set<string>) {
    exists newest: seq<Entry> ::
      && multiset(newest) == multiset(l)
      && (forall i, j :: 0 <= i < j < |newest| ==> newest[i].created >= newest[j].created)
      && early <= Ids(l)
      && forall i :: 0 <= i < |newest| ==> (newest[i].id in early <==> Goes(cfg, now, protected, newest, i))
  }

  lemma ExpiredIsTooOld(cfg: Config, now: int, e: Entry)
    ensures Expired(cfg, Cutoff(cfg, now), e) <==> TooOld(cfg, e.created, now)
  {
  }

  lemma {:induction false} AheadIsPlaces(cfg: Config, now: int, protected: set<string>, newest: seq<Entry>, i: nat)
    requires DistinctIds(newest) && i <= |newest|
    ensures |Ahead(cfg, Cutoff(cfg, now), protected, newest, i)| == |PlacesTaken(cfg, now, protected, newest, i)|
  {
    if i == 0 {
      assert Ahead(cfg, Cutoff(cfg, now), protected, newest, 0) == {};
      assert PlacesTaken(cfg, now, protected, newest, 0) == {};
    } else {
      AheadIsPlaces(cfg, now, protected, newest, i - 1);
      AheadNext(cfg, Cutoff(cfg, now), protected, newest, i - 1);
      NextPlace(cfg, now, protected, newest, i - 1);
      ExpiredIsTooOld(cfg, now, newest[i - 1]);
      hide Ahead, PlacesTaken, Expired, TooOld, Cutoff, DistinctIds;
    }
  }

  lemma NextPlace(cfg: Config, now: int, protected: set<string>, newest: seq<Entry>, i: nat)
    requires i < |newest|
    ensures |PlacesTaken(cfg, now, protected, newest, i + 1)|
         == |PlacesTaken(cfg, now, protected, newest, i)|
            + (if newest[i].id in protected || !TooOld(cfg, newest[i].created, now) then 1 else 0)
  {
    hide TooOld;
    var taken := newest[i].id in protected || !TooOld(cfg, newest[i].created, now);
    assert PlacesTaken(cfg, now, protected, newest, i + 1)
        == PlacesTaken(cfg, now, protected, newest, i) + if taken then {i} else {};
  }

  lemma EarlyIsAgeAndCount(cfg: Config, now: int, protected: set<string>, l: seq<Entry>, newest: seq<Entry>)
    requires DistinctIds(l) && multiset(newest) == multiset(l) && NewestFirst(newest)
    ensures AgeAndCount(cfg, now, protected, l, Early(cfg, Cutoff(cfg, now), protected, newest))
  {
    var early := Early(cfg, Cutoff(cfg, now), protected, newest);
    PermutedDistinct(newest, l);
    forall id | id in early ensures id in Ids(l) {
      var i :| 0 <= i < |newest| && newest[i].id == id;
      var j := InBoth(newest, l, i);
    }
    forall i | 0 <= i < |newest| ensures newest[i].id in early <==> Goes(cfg, now, protected, newest, i) {
      VictimInOrder(cfg, Cutoff(cfg, now), protected, newest, i);
      ExpiredIsTooOld(cfg, now, newest[i]);
      AheadIsPlaces(cfg, now, protected, newest, i);
    }
  }

  /** Without a byte limit a plan is what the age and count limits ask for. */
  lemma PlanIsAgeAndCount(cfg: Config, now: int, protected: set<string>, l: seq<Entry>, plan: set<string>)
    requires DistinctIds(l) && IsPlan(cfg, Cutoff(cfg, now), protected, l, plan) && cfg.maxTotalJobBytes <= 0
    ensures AgeAndCount(cfg, now, protected, l, plan)
  {
    var newest, oldest, n := PlanParts(cfg, Cutoff(cfg, now), protected, l, plan);
    EarlyIsAgeAndCount(cfg, now, protected, l, newest);
  }

  /** With an age limit alone it is exactly the unprotected directories that are too old. */
  lemma PlanIsTooOld(cfg: Config, now: int, protected: set<string>, l: seq<Entry>, plan: set<string>, i: nat)
    requires DistinctIds(l) && IsPlan(cfg, Cutoff(cfg, now), protected, l, plan) && i < |l|
    requires cfg.maxJobsRetained <= 0 && cfg.maxTotalJobBytes <= 0
    ensures l[i].id in plan <==> l[i].id !in protected && TooOld(cfg, l[i].created, now)
  {
    var newest, oldest, n := PlanParts(cfg, Cutoff(cfg, now), protected, l, plan);
    var k := Position(newest, l, l[i]);
    VictimInOrder(cfg, Cutoff(cfg, now), protected, newest, k);
    ExpiredIsTooOld(cfg, now, l[i]);
  }

  /** With a count limit alone it is exactly the unprotected ones behind the first MaxJobsRetained. */
  lemma PlanIsOverflow(cfg: Config, now: int, protected: set<string>, l: seq<Entry>, plan: set<string>) returns (newest: seq<Entry>)
    requires DistinctIds(l) && IsPlan(cfg, Cutoff(cfg, now), protected, l, plan)
    requires cfg.retentionDays <= 0 && cfg.maxJobsRetained > 0 && cfg.maxTotalJobBytes <= 0
    ensures multiset(newest) == multiset(l) && forall i, j :: 0 <= i < j < |newest| ==> newest[i].created >= newest[j].created
    ensures forall i :: 0 <= i < |newest| ==> (newest[i].id in plan <==> newest[i].id !in protected && i >= cfg.maxJobsRetained)
  {
    var oldest, n;
    newest, oldest, n := PlanParts(cfg, Cutoff(cfg, now), protected, l, plan);
    forall i | 0 <= i < |newest| ensures newest[i].id in plan <==> newest[i].id !in protected && i >= cfg.maxJobsRetained {
      VictimInOrder(cfg, Cutoff(cfg, now), protected, newest, i);
      AllPlaces(cfg, now, protected, newest, i);
      AheadIsPlaces(cfg, now, protected, newest, i);
    }
  }

  lemma {:induction false} AllPlaces(cfg: Config, now: int, protected: set<string>, newest: seq<Entry>, i: nat)
    requires cfg.retentionDays <= 0 && i <= |newest|
    ensures |PlacesTaken(cfg, now, protected, newest, i)| == i
  {
    if i == 0 {
      assert PlacesTaken(cfg, now, protected, newest, 0) == {};
    } else {
      AllPlaces(cfg, now, protected, newest, i - 1);
      assert PlacesTaken(cfg, now, protected, newest, i) == PlacesTaken(cfg, now, protected, newest, i - 1) + {i - 1};
    }
  }

  /** With a byte limit it takes on top of that no more than is needed: without the newest one it
      takes, too much would stay. */
  lemma NoMoreThanNeeded(cfg: Config, now: int, protected: set<string>, l: seq<Entry>, plan: set<string>) returns (early: set<string>)
    requires DistinctIds(l) && IsPlan(cfg, Cutoff(cfg, now), protected, l, plan)
    ensures AgeAndCount(cfg, now, protected, l, early) && early <= plan
    ensures plan != early ==>
      && cfg.maxTotalJobBytes > 0
      && exists v :: v in l && v.id in plan - early && BytesOutside(l, plan - {v.id}) > cfg.maxTotalJobBytes
           && forall w :: w in l && w.id in plan - early ==> w.created <= v.created
  {
    var cutoff := Cutoff(cfg, now);
    var newest, oldest, n := PlanParts(cfg, cutoff, protected, l, plan);
    early := Early(cfg, cutoff, protected, newest);
    EarlyIsAgeAndCount(cfg, now, protected, l, newest);
    if plan != early {
      var q := LastTaken(oldest, n, protected, early);
      var v := oldest[q];
      var k := InBoth(oldest, l, q);
      assert plan - {v.id} == early + Oldest(oldest, q, protected, early) by {
        LastInOldest(oldest, q, protected, early, q);
      }
      forall w | w in l && w.id in plan - early ensures w.created <= v.created {
        var i := Position(oldest, l, w);
        var m :| 0 <= m < n && oldest[m].id == w.id;
        assert m == i;
      }
      assert v in l && v.id in plan - early && BytesOutside(l, plan - {v.id}) > cfg.maxTotalJobBytes;
    }
  }

  /** The last place the byte pass takes something from. */
  lemma {:induction false} LastTaken(oldest: seq<Entry>, n: nat, protected: set<string>, early: set<string>) returns (q: nat)
    requires DistinctIds(oldest) && n <= |oldest| && early + Oldest(oldest, n, protected, early) != early
    ensures q < n && oldest[q].id !in protected && oldest[q].id !in early
    ensures Oldest(oldest, n, protected, early) == Oldest(oldest, q, protected, early) + {oldest[q].id}
    ensures forall i :: q < i < n ==> oldest[i].id in protected || oldest[i].id in early
  {
    if n == 0 {
      assert false;
    } else if oldest[n - 1].id !in protected && oldest[n - 1].id !in early {
      q := n - 1;
    } else {
      assert Oldest(oldest, n, protected, early) == Oldest(oldest, n - 1, protected, early);
      q := LastTaken(oldest, n - 1, protected, early);
    }
  }

  /** Which done jobs the rules drop from memory. */
  lemma StaleIsTooOld(cfg: Config, t: Table, order: seq<string>, now: int, i: nat)
    requires PruneOrder(cfg, t, order) && i < |order|
    ensures order[i] in StaleIds(cfg, t, order, Cutoff(cfg, now)) <==>
      TooOld(cfg, t.recs[order[i]].started, now) || (cfg.maxJobsRetained > 0 && i >= cfg.maxJobsRetained)
  {
    if order[i] in StaleIds(cfg, t, order, Cutoff(cfg, now)) {
      var k :| 0 <= k < |order| && Stale(cfg, t, order, Cutoff(cfg, now), k) && order[k] == order[i];
      assert k == i;
    }
  }
}
