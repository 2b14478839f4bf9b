/** What the retention rules add up to. */
module RetentionTheorems {
  import opened Types
  import opened Retention
  import opened Sorting

  // ----- orders of a listing

  lemma PermutedDistinct(a: seq<Entry>, b: seq<Entry>)
    requires multiset(a) == multiset(b) && DistinctIds(b)
    ensures DistinctIds(a)
  {
    PermutedUnique(a, b);
    forall i, j | 0 <= i < j < |a| ensures a[i].id != a[j].id {
      var k := InBoth(a, b, i);
      var m := InBoth(a, b, j);
    }
  }

  /** Where an entry of the listing stands in an order of it. */
  lemma Position(order: seq<Entry>, l: seq<Entry>, e: Entry) returns (i: nat)
    requires multiset(order) == multiset(l) && e in l
    ensures i < |order| && order[i] == e
  {
    var k :| 0 <= k < |l| && l[k] == e;
    i := InBoth(l, order, k);
  }

  // ----- survivors

  lemma VictimInOrder(cfg: Config, cutoff: int, protected: set<string>, newest: seq<Entry>, i: nat)
    requires DistinctIds(newest) && i < |newest|
    ensures newest[i].id in AgeVictims(cfg, cutoff, protected, newest) <==>
              Expired(cfg, cutoff, newest[i]) && newest[i].id !in protected
    ensures newest[i].id in CountVictims(cfg, cutoff, protected, newest) <==> Overflows(cfg, cutoff, protected, newest, i)
  {
    if newest[i].id in CountVictims(cfg, cutoff, protected, newest) {
      var k :| 0 <= k < |newest| && Overflows(cfg, cutoff, protected, newest, k) && newest[k].id == newest[i].id;
      assert k == i;
    }
  }

  /** An unprotected directory survives the age and count passes exactly if it is unexpired
      and fewer than the limit of protected or unexpired directories are ahead of it. */
  lemma EarlySurvivor(cfg: Config, cutoff: int, protected: set<string>, newest: seq<Entry>, i: nat)
    requires DistinctIds(newest) && i < |newest| && newest[i].id !in protected
    ensures newest[i].id !in Early(cfg, cutoff, protected, newest) <==>
      && !Expired(cfg, cutoff, newest[i])
      && (cfg.maxJobsRetained > 0 ==> |Ahead(cfg, cutoff, protected, newest, i)| < cfg.maxJobsRetained)
  {
    VictimInOrder(cfg, cutoff, protected, newest, i);
  }

  lemma LastInOldest(oldest: seq<Entry>, n: nat, protected: set<string>, going: set<string>, i: nat)
    requires DistinctIds(oldest) && n <= |oldest| && i < |oldest|
    requires oldest[i].id !in protected && oldest[i].id !in going
    ensures oldest[i].id in Oldest(oldest, n, protected, going) <==> i < n
  {
    if oldest[i].id in Oldest(oldest, n, protected, going) {
      var k :| 0 <= k < n && oldest[k].id == oldest[i].id;
      assert k == i;
    }
  }

  lemma PlanParts(cfg: Config, cutoff: int, protected: set<string>, l: seq<Entry>, plan: set<string>)
      returns (newest: seq<Entry>, oldest: seq<Entry>, n: nat)
    requires DistinctIds(l) && IsPlan(cfg, cutoff, protected, l, plan)
    ensures DistinctIds(newest) && PlanWith(cfg, cutoff, protected, l, newest, oldest, n, plan)
    ensures OverLimit(cfg, l, Early(cfg, cutoff, protected, newest)) ==> DistinctIds(oldest)
  {
    newest, oldest, n :| PlanWith(cfg, cutoff, protected, l, newest, oldest, n, plan);
    PermutedDistinct(newest, l);
    if OverLimit(cfg, l, Early(cfg, cutoff, protected, newest)) {
      PermutedDistinct(oldest, l);
    }
  }

  lemma EarlyVictimIsOlder(cfg: Config, cutoff: int, protected: set<string>, newest: seq<Entry>, i: nat, j: nat)
    requires DistinctIds(newest) && NewestFirst(newest) && i < |newest| && j < |newest|
    requires newest[i].id !in protected && newest[j].id !in protected
    requires newest[i].id in Early(cfg, cutoff, protected, newest) && newest[j].id !in Early(cfg, cutoff, protected, newest)
    ensures newest[i].created <= newest[j].created
  {
    EarlySurvivor(cfg, cutoff, protected, newest, i);
    EarlySurvivor(cfg, cutoff, protected, newest, j);
    if i < j && !Expired(cfg, cutoff, newest[i]) {
      SubsetSize(Ahead(cfg, cutoff, protected, newest, i), Ahead(cfg, cutoff, protected, newest, j));
      assert false;
    }
  }

  /** Across all three passes, no deleted directory is newer than an unprotected survivor. */
  lemma VictimsAreOlder(cfg: Config, cutoff: int, protected: set<string>, l: seq<Entry>, plan: set<string>, victim: Entry, survivor: Entry)
    requires DistinctIds(l) && IsPlan(cfg, cutoff, protected, l, plan)
    requires victim in l && victim.id in plan
    requires survivor in l && survivor.id !in plan && survivor.id !in protected
    ensures victim.created <= survivor.created
  {
    PlanIsListedAndUnprotected(cfg, cutoff, protected, l, plan);
    var newest, oldest, n := PlanParts(cfg, cutoff, protected, l, plan);
    var early := Early(cfg, cutoff, protected, newest);
    if victim.id in early {
      var i := Position(newest, l, victim);
      var j := Position(newest, l, survivor);
      EarlyVictimIsOlder(cfg, cutoff, protected, newest, i, j);
    } else {
      var i := Position(oldest, l, victim);
      var j := Position(oldest, l, survivor);
      LastInOldest(oldest, n, protected, early, i);
      LastInOldest(oldest, n, protected, early, j);
    }
  }

  /** With a byte limit, what stays is within it unless only protected directories are left. */
  lemma BytesWithinLimit(cfg: Config, cutoff: int, protected: set<string>, l: seq<Entry>, plan: set<string>)
    requires DistinctIds(l) && IsPlan(cfg, cutoff, protected, l, plan) && cfg.maxTotalJobBytes > 0
    ensures BytesOutside(l, plan) <= cfg.maxTotalJobBytes || forall e :: e in l && e.id !in plan ==> e.id in protected
  {
    var newest, oldest, n := PlanParts(cfg, cutoff, protected, l, plan);
    var early := Early(cfg, cutoff, protected, newest);
    if OverLimit(cfg, l, early) && n == |oldest| {
      forall e | e in l && e.id !in plan ensures e.id in protected {
        var i := Position(oldest, l, e);
        if e.id !in protected {
          LastInOldest(oldest, n, protected, early, i);
        }
      }
    }
  }

  /** The byte pass takes the shortest oldest-first prefix that suffices: any other prefix that
      brings the rest within the limit contains it. */
  lemma ShortestPrefix(cfg: Config, protected: set<string>, l: seq<Entry>, oldest: seq<Entry>, early: set<string>, n: nat, m: nat)
    requires ByteStop(cfg, protected, l, oldest, early, n) && m <= |oldest|
    requires BytesOutside(l, early + Oldest(oldest, m, protected, early)) <= cfg.maxTotalJobBytes
    ensures Oldest(oldest, n, protected, early) <= Oldest(oldest, m, protected, early)
  {
    assert !(m < n);
  }

  // ----- the count limit

  ghost function Unprotected(l: seq<Entry>, protected: set<string>, plan: set<string>): set<Entry> {
    set i | 0 <= i < |l| && l[i].id !in protected && l[i].id !in plan :: l[i]
  }

  /** The last position of an order that holds a member of `s`. */
  lemma {:induction false} LastOf(order: seq<Entry>, s: set<Entry>, n: nat) returns (q: nat)
    requires n <= |order| && exists i :: 0 <= i < n && order[i] in s
    ensures q < n && order[q] in s && forall i :: q < i < n ==> order[i] !in s
  {
    if order[n - 1] in s {
      q := n - 1;
    } else {
      q := LastOf(order, s, n - 1);
    }
  }

  lemma AllButLastAhead(cfg: Config, cutoff: int, protected: set<string>, newest: seq<Entry>, s: set<Entry>, q: nat)
    requires q < |newest| && newest[q] in s && (forall i :: q < i < |newest| ==> newest[i] !in s)
    requires forall e :: e in s ==> e in newest && Counted(cfg, cutoff, protected, e)
    ensures s - {newest[q]} <= Ahead(cfg, cutoff, protected, newest, q)
  {
    forall e | e in s - {newest[q]} ensures e in Ahead(cfg, cutoff, protected, newest, q) {
      var k :| 0 <= k < |newest| && newest[k] == e;
      assert k < q;
    }
  }

  lemma SurvivorsAreCounted(cfg: Config, cutoff: int, protected: set<string>, l: seq<Entry>, plan: set<string>, newest: seq<Entry>, e: Entry)
    requires DistinctIds(newest) && multiset(newest) == multiset(l) && Early(cfg, cutoff, protected, newest) <= plan
    requires e in Unprotected(l, protected, plan)
    ensures e in newest && !Expired(cfg, cutoff, e)
    ensures cfg.maxJobsRetained > 0 ==>
      forall i :: 0 <= i < |newest| && newest[i] == e ==> |Ahead(cfg, cutoff, protected, newest, i)| < cfg.maxJobsRetained
  {
    var i := Position(newest, l, e);
    EarlySurvivor(cfg, cutoff, protected, newest, i);
    forall k | 0 <= k < |newest| && newest[k] == e ensures k == i {
    }
  }

  /** Only protected directories can push the number of survivors beyond the count limit. */
  lemma CountWithinLimit(cfg: Config, cutoff: int, protected: set<string>, l: seq<Entry>, plan: set<string>)
    requires DistinctIds(l) && IsPlan(cfg, cutoff, protected, l, plan) && cfg.maxJobsRetained > 0
    ensures |Unprotected(l, protected, plan)| <= cfg.maxJobsRetained
  {
    var newest, oldest, n := PlanParts(cfg, cutoff, protected, l, plan);
    var u := Unprotected(l, protected, plan);
    if u != {} {
      forall e | e in u ensures e in newest && Counted(cfg, cutoff, protected, e) {
        SurvivorsAreCounted(cfg, cutoff, protected, l, plan, newest, e);
      }
      var e :| e in u;
      var q := LastOf(newest, u, |newest|);
      AllButLastAhead(cfg, cutoff, protected, newest, u, q);
      SubsetSize(u - {newest[q]}, Ahead(cfg, cutoff, protected, newest, q));
      SurvivorsAreCounted(cfg, cutoff, protected, l, plan, newest, newest[q]);
    }
  }

  // ----- cleaning up twice

  /** The listing once the plan has been carried out. */
  function Rest(l: seq<Entry>, plan: set<string>): seq<Entry> {
    if l == [] then []
    else (if l[0].id in plan then [] else [l[0]]) + Rest(l[1..], plan)
  }

  lemma {:induction false} RestMembers(l: seq<Entry>, plan: set<string>, e: Entry)
    ensures e in Rest(l, plan) <==> e in l && e.id !in plan
  {
    if l != [] {
      RestMembers(l[1..], plan, e);
      assert e in l <==> e == l[0] || e in l[1..];
    }
  }

  lemma {:induction false} RestDistinct(l: seq<Entry>, plan: set<string>)
    requires DistinctIds(l)
    ensures DistinctIds(Rest(l, plan))
  {
    if l != [] {
      RestDistinct(l[1..], plan);
      forall i | 0 <= i < |Rest(l[1..], plan)| ensures Rest(l[1..], plan)[i].id != l[0].id {
        RestMembers(l[1..], plan, Rest(l[1..], plan)[i]);
      }
    }
  }

  lemma {:induction false} RestBytes(l: seq<Entry>, plan: set<string>)
    ensures BytesOutside(Rest(l, plan), {}) == BytesOutside(l, plan)
  {
    if l != [] {
      RestBytes(l[1..], plan);
      if l[0].id in plan {
        assert Rest(l, plan) == Rest(l[1..], plan);
      } else {
        assert Rest(l, plan)[1..] == Rest(l[1..], plan);
      }
    }
  }

  /** No unprotected directory was created at the same instant as a protected one. */
  ghost predicate NoTieWithProtected(l: seq<Entry>, protected: set<string>) {
    forall e, f :: e in l && f in l && e.id in protected && f.id !in protected ==> e.created != f.created
  }

  ghost function ProtectedNewer(l: seq<Entry>, protected: set<string>, t: int): set<Entry> {
    set i | 0 <= i < |l| && l[i].id in protected && l[i].created > t :: l[i]
  }

  /** At most the newer protected entries and the other unprotected ones are ahead. */
  lemma AheadBound(cfg: Config, cutoff: int, protected: set<string>, m: seq<Entry>, newest: seq<Entry>, i: nat)
    requires DistinctIds(newest) && multiset(newest) == multiset(m) && NewestFirst(newest) && i < |newest|
    requires newest[i].id !in protected && NoTieWithProtected(m, protected)
    ensures Ahead(cfg, cutoff, protected, newest, i)
         <= ProtectedNewer(m, protected, newest[i].created) + (Unprotected(m, protected, {}) - {newest[i]})
  {
    forall e | e in Ahead(cfg, cutoff, protected, newest, i)
      ensures e in ProtectedNewer(m, protected, newest[i].created) + (Unprotected(m, protected, {}) - {newest[i]})
    {
      var k :| 0 <= k < i && newest[k] == e;
      var p := InBoth(newest, m, k);
      var q := InBoth(newest, m, i);
      assert e.id != newest[i].id;
    }
  }

  /** At least those are ahead of the last unprotected survivor. */
  lemma AheadOfLast(cfg: Config, cutoff: int, protected: set<string>, l: seq<Entry>, plan: set<string>, newest: seq<Entry>, q: nat)
    requires DistinctIds(newest) && multiset(newest) == multiset(l) && NewestFirst(newest)
    requires Early(cfg, cutoff, protected, newest) <= plan && plan !! protected
    requires q < |newest| && newest[q] in Unprotected(l, protected, plan)
    requires forall i :: q < i < |newest| ==> newest[i] !in Unprotected(l, protected, plan)
    ensures ProtectedNewer(l, protected, newest[q].created) + (Unprotected(l, protected, plan) - {newest[q]})
         <= Ahead(cfg, cutoff, protected, newest, q)
  {
    var u := Unprotected(l, protected, plan);
    forall e | e in u ensures e in newest && Counted(cfg, cutoff, protected, e) {
      SurvivorsAreCounted(cfg, cutoff, protected, l, plan, newest, e);
    }
    AllButLastAhead(cfg, cutoff, protected, newest, u, q);
    forall e | e in ProtectedNewer(l, protected, newest[q].created) ensures e in Ahead(cfg, cutoff, protected, newest, q) {
      var k := Position(newest, l, e);
      assert k < q;
    }
  }

  lemma RestUnprotected(l: seq<Entry>, protected: set<string>, plan: set<string>)
    requires plan !! protected
    ensures Unprotected(Rest(l, plan), protected, {}) == Unprotected(l, protected, plan)
    ensures forall t :: ProtectedNewer(Rest(l, plan), protected, t) == ProtectedNewer(l, protected, t)
  {
    var m := Rest(l, plan);
    forall e: Entry ensures e in m <==> e in l && e.id !in plan {
      RestMembers(l, plan, e);
    }
    forall e | e in Unprotected(l, protected, plan) ensures e in Unprotected(m, protected, {}) {
      assert e in m;
    }
    forall e | e in Unprotected(m, protected, {}) ensures e in Unprotected(l, protected, plan) {
      assert e in l;
    }
    forall t ensures ProtectedNewer(m, protected, t) == ProtectedNewer(l, protected, t) {
      forall e | e in ProtectedNewer(l, protected, t) ensures e in ProtectedNewer(m, protected, t) {
        assert e in m;
      }
      forall e | e in ProtectedNewer(m, protected, t) ensures e in ProtectedNewer(l, protected, t) {
        assert e in l;
      }
    }
  }

  lemma SameSizes<T>(p: set<T>, q: set<T>, u: set<T>, a: T, b: T)
    requires p <= q && a in u && b in u && q !! u
    ensures |p + (u - {a})| <= |q + (u - {b})|
  {
    SubsetSize(p, q);
    assert |p + (u - {a})| == |p| + |u - {a}|;
    assert |q + (u - {b})| == |q| + |u - {b}|;
  }

  /** No survivor has more entries ahead of it in the rest than the last survivor had before. */
  lemma FewerAhead(cfg: Config, cutoff: int, protected: set<string>, l: seq<Entry>, plan: set<string>,
                   newest: seq<Entry>, q: nat, again: seq<Entry>, i: nat)
    requires multiset(newest) == multiset(l) && DistinctIds(newest) && NewestFirst(newest)
    requires Early(cfg, cutoff, protected, newest) <= plan && plan !! protected
    requires q < |newest| && newest[q] in Unprotected(l, protected, plan)
    requires forall k :: q < k < |newest| ==> newest[k] !in Unprotected(l, protected, plan)
    requires multiset(again) == multiset(Rest(l, plan)) && DistinctIds(again) && NewestFirst(again) && i < |again|
    requires again[i] in Unprotected(l, protected, plan) && again[i].created >= newest[q].created
    requires NoTieWithProtected(Rest(l, plan), protected)
    ensures |Ahead(cfg, cutoff, protected, again, i)| <= |Ahead(cfg, cutoff, protected, newest, q)|
  {
    RestUnprotected(l, protected, plan);
    AheadBound(cfg, cutoff, protected, Rest(l, plan), again, i);
    AheadOfLast(cfg, cutoff, protected, l, plan, newest, q);
    var u := Unprotected(l, protected, plan);
    var newer, newerThanLast := ProtectedNewer(l, protected, again[i].created), ProtectedNewer(l, protected, newest[q].created);
    assert newer <= newerThanLast && newerThanLast !! u;
    hide Ahead, ProtectedNewer, Unprotected, Early;
    SameSizes(newer, newerThanLast, u, again[i], newest[q]);
    SubsetSize(Ahead(cfg, cutoff, protected, again, i), newer + (u - {again[i]}));
    SubsetSize(newerThanLast + (u - {newest[q]}), Ahead(cfg, cutoff, protected, newest, q));
  }

  lemma RestMember(l: seq<Entry>, plan: set<string>, protected: set<string>, again: seq<Entry>, i: nat)
    requires multiset(again) == multiset(Rest(l, plan)) && i < |again| && again[i].id !in protected
    ensures again[i] in l && again[i] in Unprotected(l, protected, plan)
  {
    var k := InBoth(again, Rest(l, plan), i);
    RestMembers(l, plan, again[i]);
  }

  lemma RestNoTie(l: seq<Entry>, plan: set<string>, protected: set<string>)
    requires NoTieWithProtected(l, protected)
    ensures NoTieWithProtected(Rest(l, plan), protected)
  {
    forall e: Entry ensures e in Rest(l, plan) <==> e in l && e.id !in plan {
      RestMembers(l, plan, e);
    }
  }

  /** What was not over the count limit after a cleanup is not over it in the next. */
  lemma SecondCountKeeps(cfg: Config, cutoff: int, protected: set<string>, l: seq<Entry>, plan: set<string>,
                         again: seq<Entry>, i: nat)
    requires DistinctIds(l) && IsPlan(cfg, cutoff, protected, l, plan) && cfg.maxJobsRetained > 0
    requires NoTieWithProtected(l, protected)
    requires multiset(again) == multiset(Rest(l, plan)) && NewestFirst(again) && i < |again| && again[i].id !in protected
    ensures |Ahead(cfg, cutoff, protected, again, i)| < cfg.maxJobsRetained
  {
    PlanIsListedAndUnprotected(cfg, cutoff, protected, l, plan);
    RestDistinct(l, plan);
    PermutedDistinct(again, Rest(l, plan));
    RestNoTie(l, plan, protected);
    RestMember(l, plan, protected, again, i);
    var newest, oldest, n := PlanParts(cfg, cutoff, protected, l, plan);
    assert multiset(newest) == multiset(l) && NewestFirst(newest) && Early(cfg, cutoff, protected, newest) <= plan;
    hide PlanWith, IsPlan, Early, Ahead, NoTieWithProtected, Unprotected, Rest;
    var u := Unprotected(l, protected, plan);
    var p := Position(newest, l, again[i]);
    var q := LastOf(newest, u, |newest|);
    SurvivorsAreCounted(cfg, cutoff, protected, l, plan, newest, newest[q]);
    assert p <= q;
    FewerAhead(cfg, cutoff, protected, l, plan, newest, q, again, i);
  }

  /** A second cleanup with the same cutoff, limits and protected jobs deletes nothing,
      whichever way the sorts break ties among unprotected directories. */
  lemma SecondCleanupDeletesNothing(cfg: Config, cutoff: int, protected: set<string>, l: seq<Entry>, plan: set<string>, second: set<string>)
    requires DistinctIds(l) && NoTieWithProtected(l, protected)
    requires IsPlan(cfg, cutoff, protected, l, plan) && IsPlan(cfg, cutoff, protected, Rest(l, plan), second)
    ensures second == {}
  {
    var m := Rest(l, plan);
    RestDistinct(l, plan);
    var newest, oldest, n := PlanParts(cfg, cutoff, protected, l, plan);
    var newest', oldest', n' := PlanParts(cfg, cutoff, protected, m, second);
    assert Early(cfg, cutoff, protected, newest) <= plan;
    hide IsPlan, Early, NoTieWithProtected;
    forall i | 0 <= i < |newest'| ensures newest'[i].id !in Early(cfg, cutoff, protected, newest') {
      SecondKeeps(cfg, cutoff, protected, l, plan, newest, newest', i);
    }
    NoEarly(cfg, cutoff, protected, newest');
    if OverLimit(cfg, m, {}) {
      BytesWithinLimit(cfg, cutoff, protected, l, plan);
      RestBytes(l, plan);
      forall e | e in m ensures e in l && e.id !in plan {
        RestMembers(l, plan, e);
      }
      SecondBytes(cfg, protected, m, oldest', n');
    }
  }

  lemma NoEarly(cfg: Config, cutoff: int, protected: set<string>, newest: seq<Entry>)
    requires forall i :: 0 <= i < |newest| ==> newest[i].id !in Early(cfg, cutoff, protected, newest)
    ensures Early(cfg, cutoff, protected, newest) == {}
  {
  }

  lemma SecondKeeps(cfg: Config, cutoff: int, protected: set<string>, l: seq<Entry>, plan: set<string>,
                    newest: seq<Entry>, again: seq<Entry>, i: nat)
    requires DistinctIds(l) && IsPlan(cfg, cutoff, protected, l, plan) && NoTieWithProtected(l, protected)
    requires DistinctIds(newest) && multiset(newest) == multiset(l) && Early(cfg, cutoff, protected, newest) <= plan
    requires multiset(again) == multiset(Rest(l, plan)) && DistinctIds(again) && NewestFirst(again) && i < |again|
    ensures again[i].id !in Early(cfg, cutoff, protected, again)
  {
    if again[i].id !in protected {
      RestMember(l, plan, protected, again, i);
      SurvivorsAreCounted(cfg, cutoff, protected, l, plan, newest, again[i]);
      if cfg.maxJobsRetained > 0 {
        SecondCountKeeps(cfg, cutoff, protected, l, plan, again, i);
      }
      EarlySurvivor(cfg, cutoff, protected, again, i);
    }
  }

  lemma SecondBytes(cfg: Config, protected: set<string>, m: seq<Entry>, oldest: seq<Entry>, n: nat)
    requires multiset(oldest) == multiset(m) && ByteStop(cfg, protected, m, oldest, {}, n)
    requires BytesOutside(m, {}) <= cfg.maxTotalJobBytes || forall e :: e in m ==> e.id in protected
    ensures Oldest(oldest, n, protected, {}) == {}
  {
    assert {} + Oldest(oldest, 0, protected, {}) == {};
    if n > 0 {
      forall i | 0 <= i < n ensures oldest[i].id in protected {
        var k := InBoth(oldest, m, i);
      }
    }
  }
}
