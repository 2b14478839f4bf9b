/** The job objects and the lifecycle object that indexes them, as the daemon keeps them. Each
    method is one critical section and is tied to the table function of the same name. */
module JobLifecycle {
  import opened Types
  import opened IndexKey
  import opened Lifecycle
  import opened Protocol
  import opened Sorting
  import opened Retention
  import opened RetentionRules
  import Store = JobStore

  class Job {
    const id: string
    const started: int
    const hash: string
    const tokenId: string
    const remote: string
    const lockKey: string
    var state: JobState
    var result: Option<RunResult>
    var closes: nat
    var cancelBound: bool
    var cancelCalls: nat
    var cancelRequested: bool

    constructor (sub: Submission, newId: string, now: int)
      ensures View() == NewJob(sub, newId, now) && id == newId && lockKey == sub.req.lockKey && Valid()
    {
      id := newId;
      state := Queued;
      result := None;
      closes := 0;
      started := now;
      hash := sub.hash;
      tokenId := sub.tokenId;
      remote := sub.remote;
      lockKey := sub.req.lockKey;
      cancelBound, cancelCalls, cancelRequested := false, 0, false;
    }

    /** The done channel has been closed exactly if there is a result. */
    predicate Valid()
      reads this
    {
      closes == if result.Some? then 1 else 0
    }

    function View(): JobView
      reads this
    {
      JobView(id, state, result, closes, started, hash, tokenId, remote, lockKey, cancelBound, cancelCalls, cancelRequested)
    }

    predicate Done()
      reads this
    {
      closes > 0
    }

    /** Closing a channel twice would panic. */
    method CloseDone()
      requires closes == 0
      modifies `closes
      ensures closes == 1
    {
      closes := 1;
    }

    method SetResult(res: RunResult)
      requires Valid()
      modifies this
      ensures Valid() && View() == old(View()).WithResult(res)
      ensures result == (if old(result).Some? then old(result) else Some(res)) && Done()
      ensures state == if old(result).Some? then old(state) else res.state
    {
      if result.Some? {
        return;
      }
      result := Some(res);
      state := res.state;
      CloseDone();
    }

    method SetCancel()
      requires Valid()
      modifies this
      ensures Valid() && View() == old(View()).WithCancel()
      ensures cancelBound && cancelCalls == old(cancelCalls) + if cancelRequested then 1 else 0
    {
      cancelBound := true;
      if cancelRequested {
        cancelCalls := cancelCalls + 1;
      }
    }

    method RequestCancel() returns (accepted: bool)
      requires Valid()
      modifies this
      ensures Valid() && accepted == old(View()).Cancelable() && View() == old(View()).CancelRequested()
      ensures accepted <==> old(result).None?
      ensures accepted ==> cancelRequested && state == Canceled && cancelCalls == old(cancelCalls) + if cancelBound then 1 else 0
      ensures !accepted ==> View() == old(View())
    {
      if result.Some? {
        return false;
      }
      cancelRequested := true;
      state := Canceled;
      if cancelBound {
        cancelCalls := cancelCalls + 1;
      }
      return true;
    }

    predicate WasCancelRequested()
      reads this
    {
      cancelRequested
    }

    /** The job's context is closed when its runner returns. */
    method CloseContext()
      modifies `cancelCalls
      ensures View() == old(View()).CallCancel()
    {
      cancelCalls := cancelCalls + 1;
    }

    method MarkRunning()
      requires Valid()
      modifies this
      ensures Valid() && View() == old(View()).MarkedRunning()
      ensures state == if cancelRequested then Canceled else Running
    {
      if cancelRequested {
        state := Canceled;
        return;
      }
      state := Running;
    }
  }

  /** The ids an index of job objects holds. */
  ghost function IdsOf(index: map<string, Job>): map<string, string> {
    map k | k in index :: index[k].id
  }

  ghost function RecsOf(known: map<string, Job>): map<string, JobView>
    reads known.Values
  {
    map id | id in known :: known[id].View()
  }

  lemma IdsOfWithout(index: map<string, Job>, k: string)
    ensures IdsOf(index - {k}) == IdsOf(index) - {k}
  {
  }

  lemma RecsOfPut(known: map<string, Job>, id: string, j: Job)
    ensures RecsOf(known[id := j]) == RecsOf(known)[id := j.View()]
  {
  }

  ghost predicate KnownIn(known: map<string, Job>, j: Job) {
    j.id in known && known[j.id] == j
  }

  ghost predicate ValidJobs(known: map<string, Job>)
    reads known.Values
  {
    forall id :: id in known ==> known[id].id == id && known[id].Valid()
  }

  ghost predicate ValidIndex(known: map<string, Job>, index: map<string, Job>) {
    forall k :: k in index ==> KnownIn(known, index[k])
  }

  ghost predicate ValidMap(known: map<string, Job>, jobs: map<string, Job>) {
    forall id :: id in jobs ==> jobs[id].id == id && KnownIn(known, jobs[id])
  }

  lemma ValidJobsPut(known: map<string, Job>, jobs: map<string, Job>, j: Job)
    requires ValidJobs(known) && ValidMap(known, jobs) && j.id !in known && j.Valid()
    ensures ValidJobs(known[j.id := j]) && ValidMap(known[j.id := j], jobs[j.id := j])
  {
  }

  /** Entering a new job under a key, if it has one. */
  lemma KeyedPut(known: map<string, Job>, index: map<string, Job>, keyed: bool, k: string, j: Job)
    requires ValidIndex(known, index) && j.id !in known
    ensures ValidIndex(known[j.id := j], if keyed then index[k := j] else index)
    ensures IdsOf(if keyed then index[k := j] else index) == if keyed then IdsOf(index)[k := j.id] else IdsOf(index)
  {
  }

  lemma RecAt(known: map<string, Job>, id: string)
    requires id in known
    ensures id in RecsOf(known) && RecsOf(known)[id] == known[id].View()
  {
  }

  lemma IdsOfKeys(index: map<string, Job>)
    ensures IdsOf(index).Keys == index.Keys && forall k :: k in index ==> IdsOf(index)[k] == index[k].id
  {
  }

  lemma KnownById(known: map<string, Job>, index: map<string, Job>, k: string, j: Job)
    requires ValidIndex(known, index) && k in index && KnownIn(known, j)
    ensures index[k].id == j.id <==> index[k] == j
  {
  }

  lemma ValidWithout(known: map<string, Job>, index: map<string, Job>, k: string)
    requires ValidIndex(known, index)
    ensures ValidIndex(known, index - {k})
  {
  }

  lemma KnownPut(known: map<string, Job>, j: Job)
    ensures KnownIn(known[j.id := j], j)
  {
  }

  lemma IndexDropped(known: map<string, Job>, was: map<string, Job>, index: map<string, Job>, dead: set<string>)
    requires ValidIndex(known, was)
    requires forall k :: k in index <==> k in was && was[k].id !in dead
    requires forall k :: k in index ==> index[k] == was[k]
    ensures ValidIndex(known, index)
    ensures IdsOf(index) == map k | k in IdsOf(was) && IdsOf(was)[k] !in dead :: IdsOf(was)[k]
  {
  }

  lemma MapDropped(known: map<string, Job>, jobs: map<string, Job>, dead: set<string>)
    requires ValidMap(known, jobs)
    ensures ValidMap(known, jobs - dead)
  {
  }

  /** The table with one more job object in its indexes. */
  function Indexed(t: Table, sub: Submission, j: JobView, id: string): Table {
    t.(recs := t.recs[id := j],
       jobs := t.jobs + {id},
       locks := if sub.req.lockKey == "" then t.locks else t.locks[sub.req.lockKey := id],
       idempotency := if sub.req.idempotencyKey == "" then t.idempotency else t.idempotency[sub.Key() := id])
  }

  lemma IndexedNew(t: Table, sub: Submission, newId: string, now: int)
    ensures Indexed(t, sub, NewJob(sub, newId, now), newId) == Admit(t, sub, newId, now).(sem := t.sem)
  {
  }

  lemma AdmitSem(t: Table, sub: Submission, newId: string, now: int)
    ensures Admit(t, sub, newId, now).sem == t.sem + 1
    ensures Admit(t.(sem := t.sem + 1), sub, newId, now).(sem := t.sem + 1) == Admit(t, sub, newId, now)
  {
  }

  datatype CancelAnswer = NotFound | NotCancelable | Accepted

  class JobLifecycle {
    const cfg: Config
    const store: Store.JobStore
    var sem: nat
    var jobs: map<string, Job>
    var idempotency: map<string, Job>
    var locks: map<string, Job>
    /** Every job ever admitted. */
    ghost var admitted: map<string, Job>

    ghost predicate Known(j: Job)
      reads this
    {
      KnownIn(admitted, j)
    }

    ghost predicate Valid()
      reads this, admitted.Values
    {
      && ValidJobs(admitted)
      && ValidMap(admitted, jobs)
      && ValidIndex(admitted, idempotency)
      && ValidIndex(admitted, locks)
    }

    ghost function View(): Table
      reads this, admitted.Values
    {
      Table(RecsOf(admitted), jobs.Keys, IdsOf(idempotency), IdsOf(locks), sem)
    }

    constructor (cfg: Config, store: Store.JobStore)
      ensures Valid() && this.cfg == cfg && this.store == store
      ensures View() == Table(map[], {}, map[], map[], 0)
    {
      this.cfg := cfg;
      this.store := store;
      sem := 0;
      jobs, idempotency, locks, admitted := map[], map[], map[], map[];
    }

    /** What the store makes of a new job, given which file operations succeed. */
    static function Creation(made: bool, input: bool, metadata: bool): StoreOutcome {
      if !made || !input then CreateFailed else if !metadata then MetadataFailed else Stored
    }

    method ReleaseSlot() returns (ok: bool)
      modifies `sem
      ensures ok == (old(sem) > 0) && sem == if ok then old(sem) - 1 else old(sem)
    {
      ok := sem > 0;
      if ok {
        sem := sem - 1;
      }
    }

    /** Creates the job's files, or none of them that matter. */
    method StoreJob(sub: Submission, newId: string, now: int, made: bool, input: bool, metadata: bool, removed: bool)
        returns (ok: bool)
      requires Store.ValidJobId(newId) && newId !in store.dirs
      modifies store
      ensures ok == Creation(made, input, metadata).Stored? && (ok <==> made && input && metadata)
      ensures ok ==> store.Files() == old(store.Files())[newId := JobDir(Some(NewMetadata(sub, newId, now)), None)]
      ensures !ok ==> store.Files() == old(store.Files()) || store.Files() == old(store.Files())[newId := JobDir(None, None)]
    {
      ghost var before := store.Files();
      var created := store.Create(newId, made, input, now);
      assert store.Files() == if made then before[newId := JobDir(None, None)] else before;
      if !created {
        return false;
      }
      var saved := store.SaveMetadata(NewMetadata(sub, newId, now), metadata);
      if !saved {
        assert store.Files() == before[newId := JobDir(None, None)];
        var gone := store.Remove(newId, removed);
        assert gone ==> store.Files() == before[newId := JobDir(None, None)] - {newId};
        assert before[newId := JobDir(None, None)] - {newId} == before;
        return false;
      }
      return true;
    }

    /** The idempotency lookup of prepareJob. */
    method FindExisting(sub: Submission) returns (existing: Job?)
      requires Valid()
      ensures existing == null <==> Existing(View(), sub).None?
      ensures existing != null ==> Known(existing) && Existing(View(), sub) == Some(existing.View())
    {
      existing := null;
      if sub.req.idempotencyKey != "" {
        var key := sub.Key();
        if key in idempotency {
          existing := idempotency[key];
        }
      }
    }

    /** The lock check of prepareJob: a finished holder is dropped. */
    method CheckLock(sub: Submission) returns (busy: bool)
      requires Valid()
      modifies `locks
      ensures Valid()
      ensures busy <==> Holder(old(View()), sub).Some? && !Holder(old(View()), sub).value.Done()
      ensures View() == if busy then old(View()) else WithoutStaleHolder(old(View()), sub)
    {
      if sub.req.lockKey != "" && sub.req.lockKey in locks {
        if !locks[sub.req.lockKey].Done() {
          return true;
        }
        IdsOfWithout(locks, sub.req.lockKey);
        locks := locks - {sub.req.lockKey};
      }
      return false;
    }

    /** The part of prepareJob before anything is created: lookups, lock and slot. */
    method Gate(sub: Submission) returns (verdict: Option<Verdict>, existing: Job?)
      requires Valid()
      modifies `locks, `sem
      ensures Valid() && (existing != null ==> Known(existing))
      ensures verdict.Some? ==> forall newId, outcome :: PrepareVerdict(old(View()), cfg.slots, sub, newId, outcome) == verdict.value
      ensures verdict.Some? ==> !verdict.value.Admitted? && !verdict.value.StoreError?
      ensures verdict.Some? ==> (existing != null <==> verdict.value.Reused?) && (existing != null ==> existing.id == verdict.value.id)
      ensures verdict.Some? ==>
        View() == if verdict.value.Busy? then WithoutStaleHolder(old(View()), sub) else old(View())
      ensures verdict.None? ==> existing == null && View() == WithoutStaleHolder(old(View()), sub).(sem := old(sem) + 1)
      ensures verdict.None? ==> forall newId, outcome ::
        PrepareVerdict(old(View()), cfg.slots, sub, newId, outcome) == if outcome == Stored then Admitted(newId) else StoreError
    {
      hide IdsOf, RecsOf, Find, ValidIndex, ValidMap, ValidJobs, WithoutStaleHolder, Existing, Holder;
      existing := FindExisting(sub);
      if existing != null {
        if existing.hash != sub.hash {
          return Some(IdempotencyConflict), null;
        }
        return Some(Reused(existing.id)), existing;
      }
      var busy := CheckLock(sub);
      if busy {
        return Some(LockBusy), null;
      }
      if sem >= cfg.slots {
        return Some(Busy), null;
      }
      sem := sem + 1;
      return None, null;
    }

    /** Enters a new job object into the indexes. */
    method Index(sub: Submission, j: Job)
      requires Valid() && j.id !in admitted && j.Valid() && j.lockKey == sub.req.lockKey
      modifies `jobs, `locks, `idempotency, `admitted
      ensures Valid() && Known(j) && admitted == old(admitted)[j.id := j]
      ensures View() == Indexed(old(View()), sub, j.View(), j.id)
    {
      hide IdsOf, RecsOf, ValidIndex, ValidMap, ValidJobs, Join, KnownIn, Job.View;
      ValidJobsPut(admitted, jobs, j);
      KeyedPut(admitted, locks, sub.req.lockKey != "", sub.req.lockKey, j);
      KeyedPut(admitted, idempotency, sub.req.idempotencyKey != "", sub.Key(), j);
      RecsOfPut(admitted, j.id, j);
      KnownPut(admitted, j);
      admitted := admitted[j.id := j];
      jobs := jobs[j.id := j];
      if sub.req.lockKey != "" {
        locks := locks[sub.req.lockKey := j];
      }
      if sub.req.idempotencyKey != "" {
        idempotency := idempotency[sub.Key() := j];
      }
      assert jobs.Keys == old(jobs.Keys) + {j.id};
    }

    /** Makes the job object of a stored job and enters it into the indexes. */
    method Enter(sub: Submission, newId: string, now: int) returns (j: Job)
      requires Valid() && newId !in admitted
      modifies `jobs, `locks, `idempotency, `admitted
      ensures Valid() && Known(j) && j.id == newId && fresh(j)
      ensures View() == Admit(old(View()), sub, newId, now).(sem := old(sem))
      ensures admitted == old(admitted)[newId := j]
    {
      j := new Job(sub, newId, now);
      IndexedNew(View(), sub, newId, now);
      hide IdsOf, RecsOf, ValidIndex, ValidMap, ValidJobs, Indexed, Admit, Job.View, NewJob;
      assert RecsOf(admitted) == old(RecsOf(admitted));
      Index(sub, j);
    }

    /** One submission: the answer, the table and the disk afterwards are those of the
        protocol's admission. `made`, `input`, `metadata` and `removed` say which file
        operations succeed. */
    method PrepareJob(sub: Submission, newId: string, now: int, made: bool, input: bool, metadata: bool, removed: bool)
        returns (verdict: Verdict, j: Job?)
      requires Valid() && newId !in admitted
      requires Store.ValidJobId(newId) && newId !in store.dirs
      modifies this, store
      ensures Valid()
      ensures verdict == PrepareVerdict(old(View()), cfg.slots, sub, newId, Creation(made, input, metadata))
      ensures View() == Prepare(old(View()), cfg.slots, sub, newId, now, Creation(made, input, metadata))
      ensures j != null <==> verdict.Reused? || verdict.Admitted?
      ensures j != null ==> Known(j) && j.id == verdict.id
      ensures verdict.Admitted? ==>
        store.Files() == old(store.Files())[newId := JobDir(Some(NewMetadata(sub, newId, now)), None)]
      ensures verdict.StoreError? ==>
        store.Files() == old(store.Files()) || store.Files() == old(store.Files())[newId := JobDir(None, None)]
      ensures !verdict.Admitted? && !verdict.StoreError? ==> store.dirs == old(store.dirs)
    {
      hide IdsOf, RecsOf, Admit, ValidIndex, ValidMap, ValidJobs, WithoutStaleHolder, PrepareVerdict, KnownIn;
      ghost var t := View();
      AdmitSem(WithoutStaleHolder(t, sub), sub, newId, now);
      StaleHolderSem(t, sub);
      var gated;
      gated, j := Gate(sub);
      if gated.Some? {
        return gated.value, j;
      }
      var stored := StoreJob(sub, newId, now, made, input, metadata, removed);
      if !stored {
        var released := ReleaseSlot();
        return StoreError, null;
      }
      j := Enter(sub, newId, now);
      return Admitted(newId), j;
    }

    /** Gives the job's lock and slot back. */
    method ReleaseJob(j: Job) returns (ok: bool)
      requires Valid() && Known(j)
      modifies `locks, `sem
      ensures Valid() && View() == Release(old(View()), j.id)
      ensures ok <==> old(sem) > 0
    {
      hide RecsOf, IdsOf, ValidIndex, ValidMap, ValidJobs;
      RecAt(admitted, j.id);
      if j.lockKey in locks {
        IdsOfWithout(locks, j.lockKey);
        KnownById(admitted, locks, j.lockKey, j);
      }
      IdsOfKeys(locks);
      if j.lockKey != "" && j.lockKey in locks && locks[j.lockKey] == j {
        ValidWithout(admitted, locks, j.lockKey);
        locks := locks - {j.lockKey};
      }
      ok := ReleaseSlot();
    }

    method GetJob(id: string) returns (j: Job?)
      requires Valid()
      ensures j != null <==> id in View().jobs
      ensures j != null ==> Known(j) && j.id == id
    {
      if id in jobs {
        return jobs[id];
      }
      return null;
    }

    /** A cancel reaches the job if it is in memory and has no result yet. */
    method CancelJob(id: string) returns (answer: CancelAnswer)
      requires Valid()
      modifies jobs.Values
      ensures Valid()
      ensures answer.NotFound? <==> id !in jobs
      ensures id in jobs ==> (answer.Accepted? <==> old(jobs[id].result).None?)
      ensures id in jobs ==>
        id in old(View()).recs && View() == old(View()).(recs := old(View()).recs[id := old(View()).recs[id].CancelRequested()])
      ensures id !in jobs ==> View() == old(View())
    {
      var j := GetJob(id);
      if j == null {
        return NotFound;
      }
      var accepted := j.RequestCancel();
      return if accepted then Accepted else NotCancelable;
    }

    /** The ids of the unfinished jobs in memory. */
    ghost function UnfinishedIds(): set<string>
      reads this, jobs.Values
    {
      set id | id in jobs && !jobs[id].Done()
    }

    lemma UnfinishedAre()
      requires Valid()
      ensures UnfinishedIds() == UnfinishedOf(View())
    {
      hide IdsOf;
      forall id | id in jobs ensures jobs[id].Done() == View().recs[id].Done() && id in View().recs {
        RecAt(admitted, id);
      }
    }

    method ProtectedIds() returns (protected: set<string>)
      requires Valid()
      ensures protected == UnfinishedIds()
    {
      protected := {};
      var todo := jobs.Keys;
      while todo != {}
        invariant todo <= jobs.Keys
        invariant protected == set id | id in jobs && id !in todo && !jobs[id].Done()
        decreases |todo|
      {
        var id :| id in todo;
        if !jobs[id].Done() {
          protected := protected + {id};
        }
        todo := todo - {id};
      }
    }

    method DoneJobs() returns (done: seq<Job>)
      requires Valid()
      ensures forall i :: 0 <= i < |done| ==> done[i].id in jobs && jobs[done[i].id] == done[i] && done[i].Done()
      ensures forall i, j :: 0 <= i < j < |done| ==> done[i].id != done[j].id
      ensures forall id :: id in jobs && jobs[id].Done() ==> jobs[id] in done
    {
      hide RecsOf, IdsOf, ValidIndex, ValidJobs;
      done := [];
      var todo := jobs.Keys;
      while todo != {}
        invariant todo <= jobs.Keys
        invariant forall i :: 0 <= i < |done| ==> done[i].id in jobs && done[i].id !in todo && jobs[done[i].id] == done[i] && done[i].Done()
        invariant forall i, j :: 0 <= i < j < |done| ==> done[i].id != done[j].id
        invariant forall id :: id in jobs && id !in todo && jobs[id].Done() ==> jobs[id] in done
        decreases |todo|
      {
        var id :| id in todo;
        if jobs[id].Done() {
          done := done + [jobs[id]];
        }
        todo := todo - {id};
      }
    }

    /** Which ids the two rules of the prune add to those a cleanup deleted. */
    method DeadIds(deletedIds: seq<string>, now: int) returns (dead: set<string>, ghost order: seq<string>)
      requires Valid()
      ensures PruneOrder(cfg, View(), order)
      ensures forall id :: id in jobs && jobs[id].Done() ==> id in order
      ensures dead == Store.IdSet(deletedIds) + StaleIds(cfg, View(), order, Cutoff(cfg, now))
    {
      hide RecsOf, IdsOf, ValidIndex, ValidJobs, PruneOrder, StaleIds, Store.IdSet, AgedIds, BeyondIds;
      dead := SetOf(deletedIds);
      var done := DoneJobs();
      ghost var listed := done;
      if cfg.retentionDays > 0 {
        var aged := Aged(done, Cutoff(cfg, now));
        dead := dead + aged;
      }
      if cfg.maxJobsRetained > 0 {
        DoneTotal(done);
        done := Sort(done, (a: Job, b: Job) => a.started >= b.started);
        var beyond := Beyond(done, cfg.maxJobsRetained);
        dead := dead + beyond;
      }
      SameAged(listed, done, Cutoff(cfg, now));
      order := IdsIn(done);
      forall j | j in listed
        ensures j.id in View().jobs && j.id in View().recs && View().recs[j.id] == j.View() && j.Done()
      {
        RecAt(admitted, j.id);
      }
      DoneOrder(cfg, View(), listed, done);
      StaleSplit(cfg, View(), done, Cutoff(cfg, now));
    }

    /** Drops from memory what a cleanup deleted and what the rules call stale. */
    method PruneMemory(deletedIds: seq<string>, now: int) returns (ghost order: seq<string>)
      requires Valid()
      modifies `jobs, `idempotency
      ensures Valid()
      ensures PruneOrder(cfg, old(View()), order)
      ensures forall id :: id in old(jobs) && old(jobs)[id].Done() ==> id in order
      ensures View() == Drop(old(View()), Store.IdSet(deletedIds) + StaleIds(cfg, old(View()), order, Cutoff(cfg, now)))
      ensures jobs.Keys <= old(jobs.Keys) && forall id :: id in old(jobs) && id !in order ==> (id in jobs <==> id !in deletedIds)
      ensures forall i :: 0 <= i < |order| ==>
        && order[i] in old(jobs) && old(jobs)[order[i]].Done()
        && (order[i] in jobs <==>
              && order[i] !in deletedIds
              && !(cfg.retentionDays > 0
                   && old(jobs)[order[i]].started + cfg.retentionDays * 24 * 3_600 * 1_000_000_000 < now)
              && !(cfg.maxJobsRetained > 0 && i >= cfg.maxJobsRetained))
      ensures cfg.maxJobsRetained > 0 ==>
        forall i, j :: 0 <= i < j < |order| ==> old(jobs)[order[i]].started >= old(jobs)[order[j]].started
      ensures cfg.maxJobsRetained <= 0 ==> forall id :: id in old(jobs) ==>
        (id !in jobs <==>
           || id in deletedIds
           || (&& old(jobs)[id].Done() && cfg.retentionDays > 0
               && old(jobs)[id].started + cfg.retentionDays * 24 * 3_600 * 1_000_000_000 < now))
      ensures forall k :: k in old(idempotency) && old(idempotency)[k].id in old(jobs) ==>
        (k in idempotency <==> old(idempotency)[k].id in jobs)
    {
      hide RecsOf, IdsOf, ValidIndex, ValidJobs, ValidMap, PruneOrder, StaleIds, Store.IdSet, Drop;
      var dead;
      dead, order := DeadIds(deletedIds, now);
      DeadAre(View(), deletedIds, order, now, dead);
      OrderStarts(order);
      if dead == {} {
        DropNothing(View());
        return;
      }
      DropIds(dead);
    }

    /** Which jobs the dead ids are, in terms of the settings. */
    lemma DeadAre(t: Table, deletedIds: seq<string>, order: seq<string>, now: int, dead: set<string>)
      requires PruneOrder(cfg, t, order)
      requires dead == Store.IdSet(deletedIds) + StaleIds(cfg, t, order, Cutoff(cfg, now))
      ensures forall id :: id !in order ==> (id in dead <==> id in deletedIds)
      ensures forall i :: 0 <= i < |order| ==>
        && order[i] in t.recs
        && (order[i] in dead <==>
           || order[i] in deletedIds || TooOld(cfg, t.recs[order[i]].started, now)
           || (cfg.maxJobsRetained > 0 && i >= cfg.maxJobsRetained))
    {
      forall i | 0 <= i < |order|
        ensures order[i] in StaleIds(cfg, t, order, Cutoff(cfg, now)) <==>
          TooOld(cfg, t.recs[order[i]].started, now) || (cfg.maxJobsRetained > 0 && i >= cfg.maxJobsRetained)
      {
        StaleIsTooOld(cfg, t, order, now, i);
      }
    }

    lemma OrderStarts(order: seq<string>)
      requires Valid() && PruneOrder(cfg, View(), order)
      ensures forall i :: 0 <= i < |order| ==>
        && order[i] in jobs && order[i] in View().recs && jobs[order[i]].Done()
        && jobs[order[i]].started == View().recs[order[i]].started
      ensures cfg.maxJobsRetained > 0 ==> forall i, j :: 0 <= i < j < |order| ==> jobs[order[i]].started >= jobs[order[j]].started
    {
      hide IdsOf;
      forall i | 0 <= i < |order|
        ensures order[i] in jobs && order[i] in View().recs && View().recs[order[i]] == jobs[order[i]].View()
      {
        RecAt(admitted, order[i]);
      }
    }

    /** Removes the dead from both indexes that name them. */
    method DropIds(dead: set<string>)
      requires Valid()
      modifies `jobs, `idempotency
      ensures Valid() && View() == Drop(old(View()), dead)
      ensures jobs == old(jobs) - dead
      ensures forall k :: k in idempotency <==> k in old(idempotency) && old(idempotency)[k].id !in dead
    {
      hide RecsOf, IdsOf, ValidIndex, ValidJobs, ValidMap, KnownIn;
      jobs := jobs - dead;
      DropKeys(dead);
      IndexDropped(admitted, old(idempotency), idempotency, dead);
      MapDropped(admitted, old(jobs), dead);
      assert jobs.Keys == old(jobs.Keys) - dead;
      assert RecsOf(admitted) == old(RecsOf(admitted));
    }

    /** The loop over the idempotency index. */
    method DropKeys(dead: set<string>)
      modifies `idempotency
      ensures forall k :: k in idempotency <==> k in old(idempotency) && old(idempotency)[k].id !in dead
      ensures forall k :: k in idempotency ==> idempotency[k] == old(idempotency)[k]
    {
      var todo := idempotency.Keys;
      while todo != {}
        invariant todo <= old(idempotency.Keys)
        invariant forall k :: k in idempotency <==> k in old(idempotency) && (k in todo || old(idempotency)[k].id !in dead)
        invariant forall k :: k in idempotency ==> idempotency[k] == old(idempotency)[k]
        decreases |todo|
      {
        var key :| key in todo;
        if key in idempotency && idempotency[key].id in dead {
          idempotency := idempotency - {key};
        }
        todo := todo - {key};
      }
    }

    /** One cleanup from snapshot to prune, without interference: the directories and the jobs
        that go are those the protocol's steps let go. */
    method CleanupJobs(now: int, listable: bool, stuck: set<string>)
        returns (report: Store.CleanupReport, ok: bool, ghost listing: seq<Entry>, ghost plan: set<string>, ghost order: seq<string>)
      requires Valid()
      modifies this`jobs, this`idempotency, store
      ensures Valid()
      ensures ok ==>
        && Store.Lists(listing, old(store.dirs))
        && IsPlan(cfg, Cutoff(cfg, now), old(UnfinishedIds()), listing, plan)
        && store.dirs == old(store.dirs) - plan
        && PruneOrder(cfg, old(View()), order)
        && View() == Drop(old(View()), plan + StaleIds(cfg, old(View()), order, Cutoff(cfg, now)))
      ensures ok && cfg.maxJobsRetained <= 0 && cfg.maxTotalJobBytes <= 0 ==>
        forall i :: 0 <= i < |listing| ==>
          (listing[i].id in store.dirs <==>
             || listing[i].id in old(UnfinishedIds())
             || !(cfg.retentionDays > 0 && listing[i].created + cfg.retentionDays * 24 * 3_600 * 1_000_000_000 < now))
      ensures ok && cfg.maxJobsRetained <= 0 ==> forall id :: id in old(jobs) ==>
        (id !in jobs <==>
           || id in plan
           || (&& id !in old(UnfinishedIds()) && cfg.retentionDays > 0
               && old(jobs)[id].started + cfg.retentionDays * 24 * 3_600 * 1_000_000_000 < now))
      ensures ok ==> old(UnfinishedIds()) <= jobs.Keys
      ensures !ok ==> View() == old(View()) && jobs == old(jobs)
      ensures forall id :: id in store.dirs ==> id in old(store.dirs) && store.dirs[id] == old(store.dirs)[id]
    {
      hide RecsOf, IdsOf, ValidIndex, ValidJobs, ValidMap, IsPlan, PruneOrder, StaleIds, Drop, Store.Lists, Store.IdSet, AgeAndCount;
      order := [];
      var protected := ProtectedIds();
      report, ok, listing, plan := store.Cleanup(cfg, protected, now, listable, stuck);
      if !ok {
        return;
      }
      ListsThere(listing, old(store.dirs));
      DeletedIs(report.deletedIds);
      order := PruneMemory(report.deletedIds, now);
      PlanSpares(Cutoff(cfg, now), protected, listing, plan);
    }

    lemma ListsThere(listing: seq<Entry>, dirs: map<string, Store.StoredDir>)
      requires Store.Lists(listing, dirs)
      ensures forall i :: 0 <= i < |listing| ==> listing[i].id in dirs
    {
    }

    lemma DeletedIs(ids: seq<string>)
      ensures forall id :: id in ids <==> id in Store.IdSet(ids)
    {
    }

    lemma PlanSpares(cutoff: int, protected: set<string>, listing: seq<Entry>, plan: set<string>)
      requires IsPlan(cfg, cutoff, protected, listing, plan)
      ensures plan !! protected
    {
      PlanIsListedAndUnprotected(cfg, cutoff, protected, listing, plan);
    }

    /** The runner's work up to its result, alone: the cancel check turns the child's result
        into the outcome, which is saved, published, and never withdrawn. */
    method Work(j: Job, child: RunResult, saved: bool)
      requires j.Valid() && j.result.None?
      modifies j, store
      ensures j.Valid() && j.View() == Worked(old(j.View()), child)
      ensures Outcomes(j.id, child, old(j.cancelRequested), j.result)
      ensures j.cancelBound && j.cancelCalls == old(j.cancelCalls) + 1 + if old(j.cancelRequested) then 1 else 0
      ensures store.Files() == if saved && Store.ValidJobId(j.id) && j.id in old(store.dirs)
        then old(store.Files())[j.id := old(store.Files())[j.id].(result := j.result)] else old(store.Files())
    {
      j.MarkRunning();
      j.SetCancel();
      var res := child.(jobId := j.id);
      if j.WasCancelRequested() {
        res := res.(state := Canceled, exitCode := -1, error := "job canceled");
      }
      var written := store.SaveResult(res, saved);
      j.SetResult(res);
      j.CloseContext();
    }

    /** The same, as it shows in the table. */
    method WorkOn(j: Job, child: RunResult, saved: bool)
      requires Valid() && Known(j) && j.result.None?
      modifies j, store
      ensures Valid() && j.View() == Worked(old(j.View()), child)
      ensures Outcomes(j.id, child, old(j.cancelRequested), j.result)
      ensures j.cancelBound && j.cancelCalls == old(j.cancelCalls) + 1 + if old(j.cancelRequested) then 1 else 0
      ensures View() == old(View()).(recs := old(View()).recs[j.id := j.View()])
      ensures store.dirs.Keys == old(store.dirs.Keys)
      ensures forall id :: id in store.dirs ==>
        && id in old(store.dirs)
        && store.dirs[id].files == if saved && Store.ValidJobId(j.id) && id == j.id
           then old(store.dirs[id].files).(result := j.result) else old(store.dirs[id].files)
    {
      hide Worked, Job.View, IdsOf;
      Work(j, child, saved);
      assert store.dirs.Keys == store.Files().Keys && old(store.dirs).Keys == old(store.Files()).Keys;
      forall id | id in store.dirs
        ensures id in old(store.dirs)
        ensures store.dirs[id].files == if saved && Store.ValidJobId(j.id) && id == j.id
          then old(store.dirs[id].files).(result := j.result) else old(store.dirs[id].files)
      {
        assert id in store.Files() && store.Files()[id] == store.dirs[id].files;
      }
      assert forall id :: id in admitted && id != j.id ==> admitted[id] != j && admitted[id].View() == old(admitted[id].View());
    }

    /** runJob without interference: slot, lock and memory are given back after the result is out,
        and the cleanup behind it finds the job done. */
    method RunJob(j: Job, child: RunResult, saved: bool, now: int, listable: bool, stuck: set<string>)
        returns (slotBack: bool, swept: bool, ghost listing: seq<Entry>, ghost plan: set<string>, ghost order: seq<string>)
      requires Valid() && Known(j) && j.result.None?
      modifies this`jobs, this`idempotency, this`locks, this`sem, j, store
      ensures Valid() && j.View() == Worked(old(j.View()), child)
      ensures j.cancelBound && j.cancelCalls == old(j.cancelCalls) + 1 + if old(j.cancelRequested) then 1 else 0
      ensures j.result.Some? && j.result.value.jobId == j.id
      ensures j.result.value.timedOut == child.timedOut && j.result.value.finishedAt == child.finishedAt
      ensures old(j.cancelRequested) ==>
        j.result.value.state == Canceled && j.result.value.exitCode == -1 && j.result.value.error == "job canceled"
      ensures !old(j.cancelRequested) ==>
        j.result.value.state == child.state && j.result.value.exitCode == child.exitCode && j.result.value.error == child.error
      ensures slotBack <==> old(sem) > 0
      ensures var t := Release(old(View()).(recs := old(View()).recs[j.id := j.View()]), j.id);
        if swept then
          && IsPlan(cfg, Cutoff(cfg, now), UnfinishedOf(t), listing, plan)
          && Ids(listing) == old(store.dirs.Keys) && store.dirs.Keys == old(store.dirs.Keys) - plan
          && PruneOrder(cfg, t, order) && View() == Drop(t, plan + StaleIds(cfg, t, order, Cutoff(cfg, now)))
        else
          View() == t
      ensures forall id :: id in store.dirs ==>
        && id in old(store.dirs)
        && store.dirs[id].files == if saved && Store.ValidJobId(j.id) && id == j.id
           then old(store.dirs[id].files).(result := j.result) else old(store.dirs[id].files)
    {
      hide IdsOf, RecsOf, ValidIndex, ValidJobs, ValidMap, Drop, PruneOrder, StaleIds, IsPlan, Release, UnfinishedOf;
      RecAt(admitted, j.id);
      WorkOn(j, child, saved);
      slotBack := ReleaseJob(j);
      UnfinishedAre();
      var report;
      report, swept, listing, plan, order := CleanupJobs(now, listable, stuck);
    }
  }

  /** The unfinished jobs of the jobs map. */
  ghost function UnfinishedOf(t: Table): set<string> {
    set id | id in t.jobs && id in t.recs && !t.recs[id].Done()
  }

  /** The result of job `id` is its child's, with state, exit code and error replaced if a cancel was asked for. */
  predicate Outcomes(id: string, child: RunResult, asked: bool, result: Option<RunResult>) {
    && result.Some? && result.value.jobId == id
    && result.value.timedOut == child.timedOut && result.value.finishedAt == child.finishedAt
    && (if asked then result.value.state == Canceled && result.value.exitCode == -1 && result.value.error == "job canceled"
        else result.value.state == child.state && result.value.exitCode == child.exitCode && result.value.error == child.error)
  }

  /** What a job's own runner makes of it, with no cancel in between. */
  function Worked(j: JobView, child: RunResult): JobView {
    j.MarkedRunning().WithCancel().WithResult(Outcome(child.(jobId := j.id), j.cancelRequested)).CallCancel()
  }

  lemma DropNothing(t: Table)
    ensures Drop(t, {}) == t
  {
  }

  ghost function AgedIds(done: seq<Job>, cutoff: int): set<string> {
    set i | 0 <= i < |done| && done[i].started < cutoff :: done[i].id
  }

  ghost function BeyondIds(done: seq<Job>, n: int): set<string> {
    set i | 0 <= i < |done| && i >= n :: done[i].id
  }

  ghost function IdsIn(done: seq<Job>): seq<string> {
    seq(|done|, i requires 0 <= i < |done| => done[i].id)
  }

  method SetOf(ids: seq<string>) returns (s: set<string>)
    ensures s == Store.IdSet(ids)
  {
    s := {};
    for i := 0 to |ids|
      invariant s == Store.IdSet(ids[..i])
    {
      s := s + {ids[i]};
    }
    assert ids[..|ids|] == ids;
  }

  method Aged(done: seq<Job>, cutoff: int) returns (ids: set<string>)
    ensures ids == AgedIds(done, cutoff)
  {
    ids := {};
    for i := 0 to |done|
      invariant ids == set k | 0 <= k < i && done[k].started < cutoff :: done[k].id
    {
      if done[i].started < cutoff {
        ids := ids + {done[i].id};
      }
    }
  }

  method Beyond(done: seq<Job>, n: int) returns (ids: set<string>)
    ensures ids == BeyondIds(done, n)
  {
    ids := {};
    for i := 0 to |done|
      invariant ids == set k | 0 <= k < i && k >= n :: done[k].id
    {
      if i >= n {
        ids := ids + {done[i].id};
      }
    }
  }

  lemma DoneTotal(done: seq<Job>)
    ensures TotalOn(done, (a: Job, b: Job) => a.started >= b.started)
  {
  }

  lemma AgedWithin(a: seq<Job>, b: seq<Job>, cutoff: int)
    requires multiset(a) == multiset(b)
    ensures AgedIds(a, cutoff) <= AgedIds(b, cutoff)
  {
    forall id | id in AgedIds(a, cutoff) ensures id in AgedIds(b, cutoff) {
      var i :| 0 <= i < |a| && a[i].started < cutoff && a[i].id == id;
      assert a[i] in multiset(b);
      var k :| 0 <= k < |b| && b[k] == a[i];
      assert b[k].id == id;
    }
  }

  lemma SameAged(a: seq<Job>, b: seq<Job>, cutoff: int)
    requires multiset(a) == multiset(b)
    ensures AgedIds(a, cutoff) == AgedIds(b, cutoff)
  {
    AgedWithin(a, b, cutoff);
    AgedWithin(b, a, cutoff);
  }

  lemma DoneOrder(cfg: Config, t: Table, listed: seq<Job>, done: seq<Job>)
    requires multiset(done) == multiset(listed) && Unique(listed)
    requires forall j :: j in listed ==> j.id in t.jobs && j.id in t.recs && t.recs[j.id] == j.View() && j.Done()
    requires forall i, j :: i in listed && j in listed && i.id == j.id ==> i == j
    requires cfg.maxJobsRetained > 0 ==> Sorted(done, (a: Job, b: Job) => a.started >= b.started)
    ensures PruneOrder(cfg, t, IdsIn(done))
    ensures StartsAgree(t, done)
    ensures forall j :: j in listed ==> j.id in IdsIn(done)
  {
    PermutedUnique(done, listed);
    forall j | j in done ensures j in listed {
      assert j in multiset(listed);
    }
    forall j | j in listed ensures j.id in IdsIn(done) {
      assert j in multiset(done);
      var i :| 0 <= i < |done| && done[i] == j;
      assert IdsIn(done)[i] == j.id;
    }
  }

  lemma StaleSplit(cfg: Config, t: Table, done: seq<Job>, cutoff: int)
    requires PruneOrder(cfg, t, IdsIn(done))
    requires StartsAgree(t, done)
    ensures StaleIds(cfg, t, IdsIn(done), cutoff)
         == (if cfg.retentionDays > 0 then AgedIds(done, cutoff) else {})
            + (if cfg.maxJobsRetained > 0 then BeyondIds(done, cfg.maxJobsRetained) else {})
  {
    var ids := IdsIn(done);
    assert forall i :: 0 <= i < |done| ==> ids[i] == done[i].id && t.recs[ids[i]].started == done[i].started;
    forall id: string
      ensures id in StaleIds(cfg, t, ids, cutoff) <==>
        || (cfg.retentionDays > 0 && id in AgedIds(done, cutoff))
        || (cfg.maxJobsRetained > 0 && id in BeyondIds(done, cfg.maxJobsRetained))
    {
      StaleId(cfg, t, done, cutoff, id);
    }
  }

  ghost predicate StartsAgree(t: Table, done: seq<Job>) {
    forall i :: 0 <= i < |done| ==> done[i].id in t.recs && t.recs[done[i].id].started == done[i].started
  }

  lemma StaleId(cfg: Config, t: Table, done: seq<Job>, cutoff: int, id: string)
    requires PruneOrder(cfg, t, IdsIn(done)) && StartsAgree(t, done)
    ensures id in StaleIds(cfg, t, IdsIn(done), cutoff) <==>
      || (cfg.retentionDays > 0 && id in AgedIds(done, cutoff))
      || (cfg.maxJobsRetained > 0 && id in BeyondIds(done, cfg.maxJobsRetained))
  {
    hide PruneOrder;
    var ids := IdsIn(done);
    assert forall i :: 0 <= i < |done| ==> ids[i] == done[i].id && ids[i] in t.recs && t.recs[ids[i]].started == done[i].started;
    if id in StaleIds(cfg, t, ids, cutoff) {
      var i :| 0 <= i < |ids| && Stale(cfg, t, ids, cutoff, i) && ids[i] == id;
      assert done[i].id == id;
    }
    if id in AgedIds(done, cutoff) {
      var i :| 0 <= i < |done| && done[i].started < cutoff && done[i].id == id;
      assert ids[i] == id;
    }
    if id in BeyondIds(done, cfg.maxJobsRetained) {
      var i :| 0 <= i < |done| && i >= cfg.maxJobsRetained && done[i].id == id;
      assert ids[i] == id;
    }
  }

  lemma StaleHolderSem(t: Table, sub: Submission)
    ensures WithoutStaleHolder(t, sub).sem == t.sem
  {
  }
}
