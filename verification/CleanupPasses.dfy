/** The loops of a cleanup, each computing its part of the plan. */
module CleanupPasses {
  import opened Types
  import opened Retention
  import opened RetentionTheorems
  import opened Sorting

  // ----- sizes

  lemma {:induction false} BytesSplit(l: seq<Entry>, ids: set<string>)
    ensures BytesOf(l, ids) + BytesOutside(l, ids) == BytesOutside(l, {})
  {
    if l != [] {
      BytesSplit(l[1..], ids);
    }
  }

  lemma {:induction false} BytesAppend(l: seq<Entry>, e: Entry)
    ensures BytesOutside(l + [e], {}) == BytesOutside(l, {}) + e.size
  {
    if l == [] {
      assert [e][1..] == [] && ([] + [e])[0] == e && [] + [e] == [e];
    } else {
      BytesAppend(l[1..], e);
      assert (l + [e])[1..] == l[1..] + [e];
    }
  }

  lemma {:induction false} BytesUnlisted(l: seq<Entry>, ids: set<string>, id: string)
    requires forall i :: 0 <= i < |l| ==> l[i].id != id
    ensures BytesOutside(l, ids + {id}) == BytesOutside(l, ids)
  {
    if l != [] {
      assert l[0].id in ids + {id} <==> l[0].id in ids;
      BytesUnlisted(l[1..], ids, id);
    }
  }

  lemma {:induction false} BytesDrop(l: seq<Entry>, ids: set<string>, e: Entry)
    requires DistinctIds(l) && e in l && e.id !in ids
    ensures BytesOutside(l, ids + {e.id}) == BytesOutside(l, ids) - e.size
  {
    if l[0] == e {
      BytesUnlisted(l[1..], ids, e.id);
    } else {
      var k :| 0 <= k < |l| && l[k] == e;
      assert l[1..][k - 1] == e;
      assert l[0].id != e.id;
      BytesDrop(l[1..], ids, e);
    }
  }

  method TotalBytes(l: seq<Entry>) returns (total: nat)
    ensures total == BytesOutside(l, {})
  {
    total := 0;
    for i := 0 to |l|
      invariant total == BytesOutside(l[..i], {})
    {
      BytesAppend(l[..i], l[i]);
      assert l[..i + 1] == l[..i] + [l[i]];
      total := total + l[i].size;
    }
    assert l[..|l|] == l;
  }

  // ----- the delete set

  /** The delete set maps ids to their listed entries. */
  ghost predicate Marked(deleteSet: map<string, Entry>, l: seq<Entry>) {
    forall id :: id in deleteSet ==> deleteSet[id] in l && deleteSet[id].id == id
  }

  method MarkDelete(deleteSet: map<string, Entry>, protected: set<string>, e: Entry, ghost l: seq<Entry>)
      returns (marked: map<string, Entry>)
    requires Marked(deleteSet, l) && e in l
    ensures Marked(marked, l)
    ensures marked.Keys == deleteSet.Keys + (if e.id in protected then {} else {e.id})
  {
    if e.id in protected || e.id in deleteSet {
      return deleteSet;
    }
    return deleteSet[e.id := e];
  }

  method AgePass(cfg: Config, cutoff: int, protected: set<string>, jobs: seq<Entry>) returns (deleteSet: map<string, Entry>)
    ensures Marked(deleteSet, jobs) && deleteSet.Keys == AgeVictims(cfg, cutoff, protected, jobs)
  {
    deleteSet := map[];
    if cfg.retentionDays > 0 {
      for i := 0 to |jobs|
        invariant Marked(deleteSet, jobs)
        invariant deleteSet.Keys == set k | 0 <= k < i && Expired(cfg, cutoff, jobs[k]) && jobs[k].id !in protected :: jobs[k].id
      {
        if jobs[i].created < cutoff {
          deleteSet := MarkDelete(deleteSet, protected, jobs[i], jobs);
        }
      }
    }
  }

  lemma AgePermuted(cfg: Config, cutoff: int, protected: set<string>, l: seq<Entry>, order: seq<Entry>)
    requires multiset(order) == multiset(l)
    ensures AgeVictims(cfg, cutoff, protected, order) == AgeVictims(cfg, cutoff, protected, l)
  {
    forall i | 0 <= i < |l| ensures exists j :: 0 <= j < |order| && order[j] == l[i] {
      var j := InBoth(l, order, i);
    }
    forall i | 0 <= i < |order| ensures exists j :: 0 <= j < |l| && l[j] == order[i] {
      var j := InBoth(order, l, i);
    }
  }

  ghost function OverflowsUpTo(cfg: Config, cutoff: int, protected: set<string>, newest: seq<Entry>, n: nat): set<string>
    requires n <= |newest|
  {
    set i | 0 <= i < n && Overflows(cfg, cutoff, protected, newest, i) :: newest[i].id
  }

  lemma AheadNext(cfg: Config, cutoff: int, protected: set<string>, newest: seq<Entry>, i: nat)
    requires DistinctIds(newest) && i < |newest|
    ensures |Ahead(cfg, cutoff, protected, newest, i + 1)|
         == |Ahead(cfg, cutoff, protected, newest, i)| + (if Counted(cfg, cutoff, protected, newest[i]) then 1 else 0)
  {
    var before, after := Ahead(cfg, cutoff, protected, newest, i), Ahead(cfg, cutoff, protected, newest, i + 1);
    assert newest[i] !in before;
    assert after == before + (if Counted(cfg, cutoff, protected, newest[i]) then {newest[i]} else {});
  }

  /** The count pass after `i` entries: `keys` is to go and `kept` places are taken. */
  ghost predicate Counting(cfg: Config, cutoff: int, protected: set<string>, newest: seq<Entry>, i: nat, kept: nat, keys: set<string>) {
    && i <= |newest|
    && keys == AgeVictims(cfg, cutoff, protected, newest) + OverflowsUpTo(cfg, cutoff, protected, newest, i)
    && kept <= |Ahead(cfg, cutoff, protected, newest, i)|
    && (kept < cfg.maxJobsRetained ==> kept == |Ahead(cfg, cutoff, protected, newest, i)|)
  }

  lemma CountStep(cfg: Config, cutoff: int, protected: set<string>, newest: seq<Entry>, i: nat, kept: nat, keys: set<string>)
    requires DistinctIds(newest) && cfg.maxJobsRetained > 0 && i < |newest|
    requires Counting(cfg, cutoff, protected, newest, i, kept, keys)
    ensures var id := newest[i].id;
      if id in protected then Counting(cfg, cutoff, protected, newest, i + 1, kept + 1, keys)
      else if id in keys then Counting(cfg, cutoff, protected, newest, i + 1, kept, keys)
      else if kept >= cfg.maxJobsRetained then Counting(cfg, cutoff, protected, newest, i + 1, kept, keys + {id})
      else Counting(cfg, cutoff, protected, newest, i + 1, kept + 1, keys)
  {
    AheadNext(cfg, cutoff, protected, newest, i);
    NextOverflow(cfg, cutoff, protected, newest, i);
    VictimInOrder(cfg, cutoff, protected, newest, i);
    FreshOverflow(cfg, cutoff, protected, newest, i);
    hide Ahead, OverflowsUpTo, AgeVictims, CountVictims, DistinctIds;
  }

  lemma CountStart(cfg: Config, cutoff: int, protected: set<string>, newest: seq<Entry>)
    ensures Counting(cfg, cutoff, protected, newest, 0, 0, AgeVictims(cfg, cutoff, protected, newest))
    ensures cfg.maxJobsRetained <= 0 ==> Early(cfg, cutoff, protected, newest) == AgeVictims(cfg, cutoff, protected, newest)
  {
    assert Ahead(cfg, cutoff, protected, newest, 0) == {};
    assert OverflowsUpTo(cfg, cutoff, protected, newest, 0) == {};
  }

  lemma CountEnd(cfg: Config, cutoff: int, protected: set<string>, newest: seq<Entry>, kept: nat, keys: set<string>)
    requires Counting(cfg, cutoff, protected, newest, |newest|, kept, keys)
    ensures keys == Early(cfg, cutoff, protected, newest)
  {
    assert OverflowsUpTo(cfg, cutoff, protected, newest, |newest|) == CountVictims(cfg, cutoff, protected, newest);
  }

  method CountPass(cfg: Config, cutoff: int, protected: set<string>, newest: seq<Entry>, aged: map<string, Entry>)
      returns (deleteSet: map<string, Entry>)
    requires DistinctIds(newest) && Marked(aged, newest) && aged.Keys == AgeVictims(cfg, cutoff, protected, newest)
    ensures Marked(deleteSet, newest) && deleteSet.Keys == Early(cfg, cutoff, protected, newest)
  {
    hide Counting, Early, AgeVictims, Marked;
    deleteSet := aged;
    CountStart(cfg, cutoff, protected, newest);
    if cfg.maxJobsRetained > 0 {
      var kept := 0;
      for i := 0 to |newest|
        invariant kept >= 0 && Marked(deleteSet, newest)
        invariant Counting(cfg, cutoff, protected, newest, i, kept, deleteSet.Keys)
      {
        CountStep(cfg, cutoff, protected, newest, i, kept, deleteSet.Keys);
        if newest[i].id in protected {
          kept := kept + 1;
          continue;
        }
        if newest[i].id in deleteSet {
          continue;
        }
        if kept >= cfg.maxJobsRetained {
          deleteSet := MarkDelete(deleteSet, protected, newest[i], newest);
          continue;
        }
        kept := kept + 1;
      }
      CountEnd(cfg, cutoff, protected, newest, kept, deleteSet.Keys);
    }
  }

  lemma NextOverflow(cfg: Config, cutoff: int, protected: set<string>, newest: seq<Entry>, i: nat)
    requires i < |newest|
    ensures OverflowsUpTo(cfg, cutoff, protected, newest, i + 1)
         == OverflowsUpTo(cfg, cutoff, protected, newest, i)
            + (if Overflows(cfg, cutoff, protected, newest, i) then {newest[i].id} else {})
  {
  }

  lemma FreshOverflow(cfg: Config, cutoff: int, protected: set<string>, newest: seq<Entry>, i: nat)
    requires DistinctIds(newest) && i < |newest|
    ensures newest[i].id !in OverflowsUpTo(cfg, cutoff, protected, newest, i)
  {
  }

  method BytesLeft(jobs: seq<Entry>, total: nat, deleteSet: map<string, Entry>) returns (left: int)
    requires DistinctIds(jobs) && Marked(deleteSet, jobs) && total == BytesOutside(jobs, {})
    ensures left == BytesOutside(jobs, deleteSet.Keys)
  {
    left := total;
    var todo := deleteSet.Keys;
    assert deleteSet.Keys - todo == {};
    while todo != {}
      invariant todo <= deleteSet.Keys
      invariant left == BytesOutside(jobs, deleteSet.Keys - todo)
      decreases |todo|
    {
      var id :| id in todo;
      BytesDrop(jobs, deleteSet.Keys - todo, deleteSet[id]);
      assert deleteSet.Keys - (todo - {id}) == (deleteSet.Keys - todo) + {id};
      left := left - deleteSet[id].size;
      todo := todo - {id};
    }
    assert deleteSet.Keys - {} == deleteSet.Keys;
  }

  lemma NextOldest(oldest: seq<Entry>, i: nat, protected: set<string>, going: set<string>)
    requires i < |oldest|
    ensures Oldest(oldest, i + 1, protected, going)
         == Oldest(oldest, i, protected, going)
            + (if oldest[i].id !in protected && oldest[i].id !in going then {oldest[i].id} else {})
  {
  }

  /** The byte pass before entry `i`: `keys` is to go and `left` bytes would stay. */
  ghost predicate Dropping(cfg: Config, protected: set<string>, jobs: seq<Entry>, oldest: seq<Entry>, early: set<string>,
                           i: nat, left: int, keys: set<string>)
  {
    && i <= |oldest|
    && keys == early + Oldest(oldest, i, protected, early)
    && left == BytesOutside(jobs, keys)
    && forall k :: 0 <= k < i ==> BytesOutside(jobs, early + Oldest(oldest, k, protected, early)) > cfg.maxTotalJobBytes
  }

  lemma DropStep(cfg: Config, protected: set<string>, jobs: seq<Entry>, oldest: seq<Entry>, early: set<string>,
                 i: nat, left: int, keys: set<string>)
    requires DistinctIds(jobs) && DistinctIds(oldest) && multiset(oldest) == multiset(jobs) && i < |oldest|
    requires Dropping(cfg, protected, jobs, oldest, early, i, left, keys) && left > cfg.maxTotalJobBytes
    ensures oldest[i] in jobs
    ensures if oldest[i].id in protected || oldest[i].id in keys
            then Dropping(cfg, protected, jobs, oldest, early, i + 1, left, keys)
            else Dropping(cfg, protected, jobs, oldest, early, i + 1, left - oldest[i].size, keys + {oldest[i].id})
  {
    NextOldest(oldest, i, protected, early);
    if oldest[i].id !in protected && oldest[i].id !in early {
      LastInOldest(oldest, i, protected, early, i);
    }
    var k := InBoth(oldest, jobs, i);
    if oldest[i].id !in keys {
      BytesDrop(jobs, keys, oldest[i]);
    }
    hide Oldest, BytesOutside, DistinctIds;
    assert early + Oldest(oldest, i, protected, early) + {oldest[i].id} == early + (Oldest(oldest, i, protected, early) + {oldest[i].id});
  }

  lemma DropStart(cfg: Config, protected: set<string>, jobs: seq<Entry>, oldest: seq<Entry>, early: set<string>, left: int)
    requires left == BytesOutside(jobs, early)
    ensures Dropping(cfg, protected, jobs, oldest, early, 0, left, early)
  {
    assert early + Oldest(oldest, 0, protected, early) == early;
  }

  lemma DropEnd(cfg: Config, protected: set<string>, jobs: seq<Entry>, oldest: seq<Entry>, early: set<string>, n: nat, left: int, keys: set<string>)
    requires Dropping(cfg, protected, jobs, oldest, early, n, left, keys)
    requires n == |oldest| || left <= cfg.maxTotalJobBytes
    ensures ByteStop(cfg, protected, jobs, oldest, early, n) && keys == early + Oldest(oldest, n, protected, early)
  {
  }

  method BytePass(cfg: Config, protected: set<string>, jobs: seq<Entry>, oldest: seq<Entry>, early: map<string, Entry>, bytes: int)
      returns (deleteSet: map<string, Entry>, ghost n: nat)
    requires DistinctIds(jobs) && DistinctIds(oldest) && multiset(oldest) == multiset(jobs) && Marked(early, jobs)
    requires bytes == BytesOutside(jobs, early.Keys)
    ensures Marked(deleteSet, jobs) && ByteStop(cfg, protected, jobs, oldest, early.Keys, n)
    ensures deleteSet.Keys == early.Keys + Oldest(oldest, n, protected, early.Keys)
  {
    hide Dropping, Marked, ByteStop, Oldest, BytesOutside;
    deleteSet := early;
    n := 0;
    var left := bytes;
    DropStart(cfg, protected, jobs, oldest, early.Keys, left);
    for i := 0 to |oldest|
      invariant n == i && Marked(deleteSet, jobs)
      invariant Dropping(cfg, protected, jobs, oldest, early.Keys, i, left, deleteSet.Keys)
    {
      if left <= cfg.maxTotalJobBytes {
        break;
      }
      DropStep(cfg, protected, jobs, oldest, early.Keys, i, left, deleteSet.Keys);
      n := i + 1;
      if oldest[i].id in protected {
        continue;
      }
      if oldest[i].id in deleteSet {
        continue;
      }
      deleteSet := MarkDelete(deleteSet, protected, oldest[i], jobs);
      left := left - oldest[i].size;
    }
    DropEnd(cfg, protected, jobs, oldest, early.Keys, n, left, deleteSet.Keys);
  }

  lemma MarkedPermuted(deleteSet: map<string, Entry>, l: seq<Entry>, m: seq<Entry>)
    requires Marked(deleteSet, l) && multiset(l) == multiset(m)
    ensures Marked(deleteSet, m)
  {
    forall id | id in deleteSet ensures deleteSet[id] in m {
      var k := Position(m, l, deleteSet[id]);
    }
  }

  /** The whole decision: totals, the age pass, the newest-first sort, the count pass and, if
      too much would stay, the oldest-first sort and the byte pass. */
  method PlanDeletes(cfg: Config, cutoff: int, protected: set<string>, listing: seq<Entry>)
      returns (deleteSet: map<string, Entry>, total: nat)
    requires DistinctIds(listing)
    ensures total == BytesOutside(listing, {})
    ensures Marked(deleteSet, listing) && IsPlan(cfg, cutoff, protected, listing, deleteSet.Keys)
  {
    hide Marked, Early, Oldest, AgeVictims, ByteStop, DistinctIds, BytesOutside;
    var jobs := listing;
    total := TotalBytes(jobs);
    deleteSet := AgePass(cfg, cutoff, protected, jobs);
    jobs := Sort(jobs, (a: Entry, b: Entry) => a.created >= b.created);
    ghost var newest := jobs;
    PermutedDistinct(jobs, listing);
    AgePermuted(cfg, cutoff, protected, listing, jobs);
    MarkedPermuted(deleteSet, listing, jobs);
    deleteSet := CountPass(cfg, cutoff, protected, jobs, deleteSet);
    MarkedPermuted(deleteSet, jobs, listing);
    ghost var early := deleteSet.Keys;
    ghost var n: nat := 0;
    var left := BytesLeft(listing, total, deleteSet);
    if cfg.maxTotalJobBytes > 0 && left > cfg.maxTotalJobBytes {
      jobs := Sort(jobs, (a: Entry, b: Entry) => a.created <= b.created);
      PermutedDistinct(jobs, listing);
      deleteSet, n := BytePass(cfg, protected, listing, jobs, deleteSet, left);
    }
    assert PlanWith(cfg, cutoff, protected, listing, newest, jobs, n, deleteSet.Keys);
  }
}
