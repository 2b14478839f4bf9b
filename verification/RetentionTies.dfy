/** Exactly for which listings a second cleanup can delete something. */
module RetentionTies {
  import opened Types
  import opened Retention
  import opened RetentionTheorems
  import opened Sorting

  /** Newest first, and `first` before all others of its age. */
  predicate Before(first: Entry, a: Entry, b: Entry) {
    a.created > b.created || (a.created == b.created && (a == first || b != first))
  }

  lemma OrderWithFirst(l: seq<Entry>, first: Entry) returns (order: seq<Entry>)
    requires DistinctIds(l)
    ensures multiset(order) == multiset(l) && NewestFirst(order) && DistinctIds(order)
    ensures forall i, j :: 0 <= i < j < |order| ==> Before(first, order[i], order[j])
  {
    var leq := (a: Entry, b: Entry) => Before(first, a, b);
    assert TotalOn(l, leq);
    order := Arranged(l, leq);
    forall i, j | 0 <= i < j < |order| ensures Before(first, order[i], order[j]) {
      assert leq(order[i], order[j]);
    }
    PermutedDistinct(order, l);
  }

  ghost function FirstOnes(order: seq<Entry>, n: nat): set<Entry>
    requires n <= |order|
  {
    set i | 0 <= i < n :: order[i]
  }

  lemma {:induction false} FirstOnesSize(order: seq<Entry>, n: nat)
    requires DistinctIds(order) && n <= |order|
    ensures |FirstOnes(order, n)| == n
  {
    if n > 0 {
      FirstOnesSize(order, n - 1);
      assert order[n - 1] !in FirstOnes(order, n - 1);
      assert FirstOnes(order, n) == FirstOnes(order, n - 1) + {order[n - 1]};
    } else {
      assert FirstOnes(order, 0) == {};
    }
  }

  /** A limit on the number of jobs and nothing else. */
  function AtMost(n: int): Config {
    Config(1, 0, n, 0)
  }

  /** With such a limit the first entries of an order stay. */
  lemma FirstOnesStay(protected: set<string>, order: seq<Entry>, n: nat, i: nat)
    requires DistinctIds(order) && i < n && i < |order|
    ensures order[i].id !in Early(AtMost(n), 0, protected, order)
  {
    if order[i].id !in protected {
      EarlySurvivor(AtMost(n), 0, protected, order, i);
      FirstOnesSize(order, i);
      SubsetSize(Ahead(AtMost(n), 0, protected, order, i), FirstOnes(order, i));
    }
  }

  lemma EarlyIsPlan(protected: set<string>, l: seq<Entry>, order: seq<Entry>, n: nat)
    requires multiset(order) == multiset(l) && NewestFirst(order)
    ensures IsPlan(AtMost(n), 0, protected, l, Early(AtMost(n), 0, protected, order))
  {
    assert PlanWith(AtMost(n), 0, protected, l, order, order, 0, Early(AtMost(n), 0, protected, order));
  }

  lemma ProtectedStay(cfg: Config, protected: set<string>, order: seq<Entry>, e: Entry)
    requires e.id in protected
    ensures e.id !in Early(cfg, 0, protected, order)
  {
  }

  /** Everything newer than `u`, and `p`, is ahead of `u` if `p` comes first among its age. */
  lemma AllAhead(n: nat, protected: set<string>, again: seq<Entry>, j: nat, u: Entry, p: Entry, newer: set<Entry>)
    requires j < |again| && again[j] == u && p != u && p.created == u.created && p in again
    requires forall x, y :: 0 <= x < y < |again| ==> Before(p, again[x], again[y])
    requires forall e :: e in newer ==> e in again && e.created > u.created
    ensures newer + {p} <= Ahead(AtMost(n), 0, protected, again, j)
  {
    forall e | e in newer + {p} ensures e in Ahead(AtMost(n), 0, protected, again, j) {
      var x :| 0 <= x < |again| && again[x] == e;
      assert x != j;
      assert x < j;
    }
  }

  /** A tie between a protected and an unprotected directory lets the sorts of two cleanups
      differ: the first keeps the unprotected one, the second deletes it. */
  lemma TieDeletesLater(l: seq<Entry>, protected: set<string>, p: Entry, u: Entry)
      returns (cfg: Config, plan: set<string>, second: set<string>)
    requires DistinctIds(l) && p in l && u in l
    requires p.id in protected && u.id !in protected && p.created == u.created
    ensures IsPlan(cfg, 0, protected, l, plan) && IsPlan(cfg, 0, protected, Rest(l, plan), second)
    ensures u.id !in plan && u.id in second
  {
    var newest := OrderWithFirst(l, u);
    var k := Position(newest, l, u);
    var n := k + 1;
    cfg := AtMost(n);
    plan := Early(cfg, 0, protected, newest);
    EarlyIsPlan(protected, l, newest, n);
    FirstOnesStay(protected, newest, n, k);
    var rest := Rest(l, plan);
    RestDistinct(l, plan);
    var again := OrderWithFirst(rest, p);
    second := Early(cfg, 0, protected, again);
    EarlyIsPlan(protected, rest, again, n);
    StaysIn(l, plan, again, u);
    ProtectedStay(cfg, protected, newest, p);
    StaysIn(l, plan, again, p);
    var j :| 0 <= j < |again| && again[j] == u;
    var newer := FirstOnes(newest, k);
    forall e | e in newer ensures e in again && e.created > u.created {
      var i :| 0 <= i < k && newest[i] == e;
      assert Before(u, newest[i], newest[k]) && newest[i].id != newest[k].id;
      FirstOnesStay(protected, newest, n, i);
      var m := InBoth(newest, l, i);
      StaysIn(l, plan, again, e);
    }
    hide Early, Ahead, IsPlan, Rest, FirstOnes;
    AllAhead(n, protected, again, j, u, p, newer);
    FirstOnesSize(newest, k);
    assert |newer + {p}| == n;
    SubsetSize(newer + {p}, Ahead(cfg, 0, protected, again, j));
    EarlySurvivor(cfg, 0, protected, again, j);
  }

  lemma StaysIn(l: seq<Entry>, plan: set<string>, again: seq<Entry>, e: Entry)
    requires multiset(again) == multiset(Rest(l, plan)) && e in l && e.id !in plan
    ensures e in again
  {
    RestMembers(l, plan, e);
    assert e in multiset(again);
  }

  /** A second cleanup with the same cutoff, limits and protected jobs is sure to delete
      nothing exactly if no unprotected directory has the age of a protected one. */
  lemma SecondCleanupIff(l: seq<Entry>, protected: set<string>)
    requires DistinctIds(l)
    ensures NoTieWithProtected(l, protected) <==>
      forall cfg, cutoff, plan, second ::
        IsPlan(cfg, cutoff, protected, l, plan) && IsPlan(cfg, cutoff, protected, Rest(l, plan), second) ==> second == {}
  {
    hide IsPlan, Rest;
    if NoTieWithProtected(l, protected) {
      forall cfg, cutoff, plan, second |
        IsPlan(cfg, cutoff, protected, l, plan) && IsPlan(cfg, cutoff, protected, Rest(l, plan), second)
        ensures second == {}
      {
        SecondCleanupDeletesNothing(cfg, cutoff, protected, l, plan, second);
      }
    } else {
      var p, u :| p in l && u in l && p.id in protected && u.id !in protected && p.created == u.created;
      var cfg, plan, second := TieDeletesLater(l, protected, p, u);
      assert IsPlan(cfg, 0, protected, l, plan) && IsPlan(cfg, 0, protected, Rest(l, plan), second);
    }
  }
}
