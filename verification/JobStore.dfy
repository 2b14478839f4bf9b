/** The job store: one directory per job, and the cleanup that bounds it. */
module JobStore {
  import opened Types
  import opened Retention
  import opened CleanupPasses
  import opened RetentionTheorems
  import opened RetentionRules
  import opened Sorting

  /** A job directory with its logs and what stat says of it. */
  datatype StoredDir = StoredDir(files: JobDir, stdout: string, stderr: string, modTime: int, size: nat)

  datatype LogName = StdoutLog | StderrLog | OtherFile(name: string)

  datatype CleanupReport = CleanupReport(deletedIds: seq<string>, deletedBytes: nat, remainingJobs: int, remainingBytes: int)

  predicate IdChar(c: char) {
    'A' <= c <= 'Z' || 'a' <= c <= 'z' || '0' <= c <= '9' || c == '.' || c == '_' || c == '-'
  }

  predicate ValidJobId(id: string) {
    8 <= |id| <= 80 && forall i :: 0 <= i < |id| ==> IdChar(id[i])
  }

  function LogOf(d: StoredDir, name: LogName): Option<string> {
    match name
    case StdoutLog => Some(d.stdout)
    case StderrLog => Some(d.stderr)
    case OtherFile(_) => None
  }

  /** When a listing says a directory was created. */
  function Created(d: StoredDir): int {
    if HasCreationTime(d.files) then d.files.meta.value.createdAt else d.modTime
  }

  /** `l` lists every directory of `dirs` once, in any order. */
  ghost predicate Lists(l: seq<Entry>, dirs: map<string, StoredDir>) {
    && DistinctIds(l)
    && Ids(l) == dirs.Keys
    && forall i :: 0 <= i < |l| ==> l[i].id in dirs && l[i] == Entry(l[i].id, Created(dirs[l[i].id]), dirs[l[i].id].size)
  }

  lemma ListNothing()
    ensures DistinctIds([]) && Ids([]) == {}
  {
  }

  lemma ListGrows(l: seq<Entry>, e: Entry)
    requires DistinctIds(l) && e.id !in Ids(l)
    ensures DistinctIds(l + [e]) && Ids(l + [e]) == Ids(l) + {e.id}
  {
    assert forall i :: 0 <= i < |l| ==> l[i].id in Ids(l);
    forall id | id in Ids(l) ensures id in Ids(l + [e]) {
      var i :| 0 <= i < |l| && l[i].id == id;
      assert (l + [e])[i].id == id;
    }
    assert (l + [e])[|l|].id == e.id;
  }

  ghost function IdSet(ids: seq<string>): set<string> {
    set i | 0 <= i < |ids| :: ids[i]
  }

  lemma PermutedIdSet(a: seq<string>, b: seq<string>)
    requires multiset(a) == multiset(b)
    ensures IdSet(a) == IdSet(b)
  {
    forall x: string ensures x in IdSet(a) <==> x in IdSet(b) {
      assert x in IdSet(a) <==> x in a;
      assert x in IdSet(b) <==> x in b;
      assert x in a <==> x in multiset(a);
      assert x in b <==> x in multiset(b);
    }
  }

  class JobStore {
    var dirs: map<string, StoredDir>

    /** The files of every job directory. */
    ghost function Files(): map<string, JobDir>
      reads this
    {
      map id | id in dirs :: dirs[id].files
    }

    constructor ()
      ensures dirs == map[]
    {
      dirs := map[];
    }

    /** Makes the directory if need be and writes input.json. `made` and `written` say which
        of the two the file system lets happen. */
    method Create(id: string, made: bool, written: bool, now: int) returns (ok: bool)
      modifies this
      ensures ok <==> ValidJobId(id) && (made || id in old(dirs)) && written
      ensures dirs.Keys == old(dirs.Keys) + (if ValidJobId(id) && made then {id} else {})
      ensures forall x :: x in old(dirs) ==> dirs[x] == old(dirs)[x]
      ensures id in dirs && id !in old(dirs) ==> dirs[id].files == JobDir(None, None)
    {
      if !ValidJobId(id) {
        return false;
      }
      if id !in dirs {
        if !made {
          return false;
        }
        dirs := dirs[id := StoredDir(JobDir(None, None), "", "", now, 0)];
      }
      return written;
    }

    method SaveMetadata(meta: Metadata, written: bool) returns (ok: bool)
      modifies this
      ensures ok <==> ValidJobId(meta.jobId) && written && meta.jobId in old(dirs)
      ensures Files() == if ok then old(Files())[meta.jobId := old(Files())[meta.jobId].(meta := Some(meta))] else old(Files())
    {
      if !ValidJobId(meta.jobId) || !written || meta.jobId !in dirs {
        return false;
      }
      var d := dirs[meta.jobId];
      dirs := dirs[meta.jobId := d.(files := d.files.(meta := Some(meta)))];
      return true;
    }

    method SaveResult(res: RunResult, written: bool) returns (ok: bool)
      modifies this
      ensures ok <==> ValidJobId(res.jobId) && written && res.jobId in old(dirs)
      ensures Files() == if ok then old(Files())[res.jobId := old(Files())[res.jobId].(result := Some(res))] else old(Files())
    {
      if !ValidJobId(res.jobId) || !written || res.jobId !in dirs {
        return false;
      }
      var d := dirs[res.jobId];
      dirs := dirs[res.jobId := d.(files := d.files.(result := Some(res)))];
      return true;
    }

    method Remove(id: string, removed: bool) returns (ok: bool)
      modifies this
      ensures ok <==> ValidJobId(id) && removed
      ensures dirs == if ok then old(dirs) - {id} else old(dirs)
    {
      if !ValidJobId(id) || !removed {
        return false;
      }
      dirs := dirs - {id};
      return true;
    }

    /** A positive tail reads the end of the log, as much of it as was asked for; any other
        tail reads all of it. */
    method ReadOutputTail(id: string, name: LogName, tailBytes: int) returns (out: Option<string>)
      ensures out.Some? <==> ValidJobId(id) && !name.OtherFile? && id in dirs
      ensures out.Some? ==>
        var log := if name.StdoutLog? then dirs[id].stdout else dirs[id].stderr;
        && |out.value| == (if tailBytes <= 0 || |log| < tailBytes then |log| else tailBytes)
        && out.value == log[|log| - |out.value|..]
    {
      if !ValidJobId(id) || name.OtherFile? || id !in dirs {
        return None;
      }
      var log := LogOf(dirs[id], name).value;
      if tailBytes <= 0 {
        return Some(log);
      }
      var start := 0;
      if |log| > tailBytes {
        start := |log| - tailBytes;
      }
      return Some(log[start..]);
    }

    method ListJobDirs() returns (jobs: seq<Entry>)
      ensures Lists(jobs, dirs)
      ensures forall i :: 0 <= i < |jobs| ==>
        && jobs[i].id in dirs
        && jobs[i].size == dirs[jobs[i].id].size
        && jobs[i].created == match dirs[jobs[i].id].files.meta
             case None => dirs[jobs[i].id].modTime
             case Some(m) => if m.createdAt == -62_135_596_800 * 1_000_000_000 then dirs[jobs[i].id].modTime else m.createdAt
    {
      hide Ids, DistinctIds;
      jobs := [];
      assert DistinctIds(jobs) && Ids(jobs) == {} by { ListNothing(); }
      var todo := dirs.Keys;
      while todo != {}
        invariant todo <= dirs.Keys
        invariant DistinctIds(jobs) && Ids(jobs) == dirs.Keys - todo
        invariant forall i :: 0 <= i < |jobs| ==> jobs[i].id in dirs && jobs[i] == Entry(jobs[i].id, Created(dirs[jobs[i].id]), dirs[jobs[i].id].size)
        decreases |todo|
      {
        var id :| id in todo;
        var e := Entry(id, Created(dirs[id]), dirs[id].size);
        ListGrows(jobs, e);
        jobs := jobs + [e];
        todo := todo - {id};
      }
    }

    /** Deletes what the retention rules say of the directories listed now, in whatever way
        the two sorts broke ties, and reports exactly that. If the listing fails nothing
        changes; if a removal in `stuck` fails, some part of the plan has been carried out. */
    method Cleanup(cfg: Config, protected: set<string>, now: int, listable: bool, stuck: set<string>)
        returns (report: CleanupReport, ok: bool, ghost listing: seq<Entry>, ghost plan: set<string>)
      modifies this
      ensures !listable ==> !ok && dirs == old(dirs) && report == CleanupReport([], 0, 0, 0)
      ensures listable ==> Lists(listing, old(dirs)) && IsPlan(cfg, Cutoff(cfg, now), protected, listing, plan)
      ensures listable ==> (ok <==> plan !! stuck)
      ensures listable ==>
        && IdSet(report.deletedIds) <= plan && dirs == old(dirs) - IdSet(report.deletedIds)
        && report.deletedBytes == BytesOf(listing, IdSet(report.deletedIds))
      ensures listable && cfg.maxJobsRetained <= 0 && cfg.maxTotalJobBytes <= 0 ==>
        forall i :: 0 <= i < |listing| ==>
          (listing[i].id in plan <==>
             && listing[i].id !in protected
             && cfg.retentionDays > 0 && listing[i].created + cfg.retentionDays * 24 * 3_600 * 1_000_000_000 < now)
      ensures listable && cfg.maxTotalJobBytes <= 0 ==> AgeAndCount(cfg, now, protected, listing, plan)
      ensures ok && cfg.maxTotalJobBytes > 0 ==>
        || report.remainingBytes <= cfg.maxTotalJobBytes
        || forall i :: 0 <= i < |listing| ==> listing[i].id in plan || listing[i].id in protected
      ensures ok ==>
        && IdSet(report.deletedIds) == plan && |report.deletedIds| == |plan| && Sorted(report.deletedIds, LexLeq)
        && report.remainingJobs == |listing| - |plan|
        && report.remainingBytes == BytesOutside(listing, plan)
    {
      hide IsPlan, AgeAndCount, BytesOf, BytesOutside, IdSet, DistinctIds, Marked;
      report := CleanupReport([], 0, 0, 0);
      listing, plan := [], {};
      if !listable {
        return report, false, listing, plan;
      }
      var jobs := ListJobDirs();
      listing := jobs;
      var deleteSet, total := PlanDeletes(cfg, Cutoff(cfg, now), protected, jobs);
      plan := deleteSet.Keys;
      RulesHold(cfg, now, protected, listing, plan);
      var ids, bytes;
      ids, bytes, ok := RemoveAll(deleteSet, jobs, stuck);
      report := CleanupReport(ids, bytes, 0, 0);
      if !ok {
        return report, false, listing, plan;
      }
      LexTotalOn(ids);
      var sorted := Sort(ids, LexLeq);
      PermutedIdSet(sorted, ids);
      assert |sorted| == |multiset(sorted)| == |ids|;
      BytesSplit(jobs, plan);
      report := CleanupReport(sorted, bytes, |jobs| - |deleteSet|, total - bytes);
      return report, true, listing, plan;
    }

    /** Removes the marked directories one by one, in any order, up to the first that is stuck. */
    method RemoveAll(deleteSet: map<string, Entry>, ghost jobs: seq<Entry>, stuck: set<string>)
        returns (ids: seq<string>, bytes: nat, ok: bool)
      requires DistinctIds(jobs) && Marked(deleteSet, jobs)
      modifies this
      ensures IdSet(ids) <= deleteSet.Keys && |ids| == |IdSet(ids)|
      ensures dirs == old(dirs) - IdSet(ids) && bytes == BytesOf(jobs, IdSet(ids))
      ensures ok <==> deleteSet.Keys !! stuck
      ensures ok ==> IdSet(ids) == deleteSet.Keys
    {
      hide IdSet, BytesOf, DistinctIds;
      ids, bytes := [], 0;
      var todo := deleteSet.Keys;
      NothingRemoved(jobs);
      while todo != {}
        invariant todo <= deleteSet.Keys && IdSet(ids) == deleteSet.Keys - todo && |ids| == |IdSet(ids)|
        invariant IdSet(ids) !! stuck
        invariant dirs == old(dirs) - IdSet(ids) && bytes == BytesOf(jobs, IdSet(ids))
        decreases |todo|
      {
        var id :| id in todo;
        if id in stuck {
          return ids, bytes, false;
        }
        RemovedOne(jobs, ids, deleteSet[id]);
        assert old(dirs) - IdSet(ids) - {id} == old(dirs) - (IdSet(ids) + {id});
        dirs := dirs - {id};
        ids := ids + [id];
        bytes := bytes + deleteSet[id].size;
        todo := todo - {id};
      }
      return ids, bytes, true;
    }
  }

  lemma RulesHold(cfg: Config, now: int, protected: set<string>, l: seq<Entry>, plan: set<string>)
    requires DistinctIds(l) && IsPlan(cfg, Cutoff(cfg, now), protected, l, plan)
    ensures cfg.maxJobsRetained <= 0 && cfg.maxTotalJobBytes <= 0 ==>
      forall i :: 0 <= i < |l| ==> (l[i].id in plan <==> l[i].id !in protected && TooOld(cfg, l[i].created, now))
    ensures cfg.maxTotalJobBytes <= 0 ==> AgeAndCount(cfg, now, protected, l, plan)
    ensures cfg.maxTotalJobBytes > 0 ==>
      BytesOutside(l, plan) <= cfg.maxTotalJobBytes || forall i :: 0 <= i < |l| ==> l[i].id in plan || l[i].id in protected
  {
    hide IsPlan, AgeAndCount, TooOld, BytesOutside;
    if cfg.maxTotalJobBytes > 0 {
      BytesWithinLimit(cfg, Cutoff(cfg, now), protected, l, plan);
    } else {
      PlanIsAgeAndCount(cfg, now, protected, l, plan);
      if cfg.maxJobsRetained <= 0 {
        forall i | 0 <= i < |l| ensures l[i].id in plan <==> l[i].id !in protected && TooOld(cfg, l[i].created, now) {
          PlanIsTooOld(cfg, now, protected, l, plan, i);
        }
      }
    }
  }

  lemma NothingRemoved(jobs: seq<Entry>)
    ensures IdSet([]) == {} && BytesOf(jobs, {}) == 0
  {
    BytesSplit(jobs, {});
  }

  lemma RemovedOne(jobs: seq<Entry>, ids: seq<string>, e: Entry)
    requires DistinctIds(jobs) && e in jobs && e.id !in IdSet(ids)
    ensures IdSet(ids + [e.id]) == IdSet(ids) + {e.id}
    ensures BytesOf(jobs, IdSet(ids + [e.id])) == BytesOf(jobs, IdSet(ids)) + e.size
  {
    forall x: string ensures x in IdSet(ids + [e.id]) <==> x in IdSet(ids) + {e.id} {
      assert x in IdSet(ids) <==> x in ids;
      assert x in IdSet(ids + [e.id]) <==> x in ids + [e.id];
    }
    BytesDrop(jobs, IdSet(ids), e);
    BytesSplit(jobs, IdSet(ids));
    BytesSplit(jobs, IdSet(ids) + {e.id});
  }
}
