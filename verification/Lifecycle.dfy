/** The job table: the values of the daemon's job objects, its three indexes and its
    slot semaphore, and what each critical section does to them. */
module Lifecycle {
  import opened Types
  import opened IndexKey

  /** The value of one job object. `closes` counts how often its done channel was closed. */
  datatype JobView = JobView(
    id: string,
    state: JobState,
    result: Option<RunResult>,
    closes: nat,
    started: int,
    hash: string,
    tokenId: string,
    remote: string,
    lockKey: string,
    cancelBound: bool,
    cancelCalls: nat,
    cancelRequested: bool)
  {
    predicate Done() { closes > 0 }

    function CallCancel(): JobView {
      this.(cancelCalls := cancelCalls + 1)
    }

    function WithResult(res: RunResult): JobView {
      if result.Some? then this
      else this.(result := Some(res), state := res.state, closes := closes + 1)
    }

    function WithCancel(): JobView {
      var bound := this.(cancelBound := true);
      if cancelRequested then bound.CallCancel() else bound
    }

    predicate Cancelable() { result.None? }

    function CancelRequested(): JobView {
      if !Cancelable() then this
      else
        var asked := this.(cancelRequested := true, state := Canceled);
        if cancelBound then asked.CallCancel() else asked
    }

    function MarkedRunning(): JobView {
      this.(state := if cancelRequested then Canceled else Running)
    }
  }

  /** A request on its way into prepareJob, with its hash and its sender. */
  datatype Submission = Submission(req: RunRequest, hash: string, tokenId: string, remote: string) {
    function Key(): string { Join(tokenId, req.idempotencyKey) }
  }

  /** Every job object ever admitted, by id, with the indexes as maps from keys to ids.
      The daemon's jobs map sends each id in `jobs` to the object of that id. */
  datatype Table = Table(
    recs: map<string, JobView>,
    jobs: set<string>,
    idempotency: map<string, string>,
    locks: map<string, string>,
    sem: nat)

  /** The job an index entry points to. */
  function Find(t: Table, index: map<string, string>, key: string): Option<JobView> {
    if key in index && index[key] in t.recs then Some(t.recs[index[key]]) else None
  }

  datatype StoreOutcome = Stored | CreateFailed | MetadataFailed

  datatype Verdict =
    | Reused(id: string)
    | IdempotencyConflict
    | LockBusy
    | Busy
    | StoreError
    | Admitted(id: string)

  function NewJob(sub: Submission, id: string, now: int): JobView {
    JobView(id, Queued, None, 0, now, sub.hash, sub.tokenId, sub.remote, sub.req.lockKey, false, 0, false)
  }

  function Existing(t: Table, sub: Submission): Option<JobView> {
    if sub.req.idempotencyKey == "" then None else Find(t, t.idempotency, sub.Key())
  }

  function Holder(t: Table, sub: Submission): Option<JobView> {
    if sub.req.lockKey == "" then None else Find(t, t.locks, sub.req.lockKey)
  }

  function PrepareVerdict(t: Table, slots: nat, sub: Submission, newId: string, outcome: StoreOutcome): Verdict {
    match Existing(t, sub)
    case Some(j) => if j.hash != sub.hash then IdempotencyConflict else Reused(j.id)
    case None =>
      var holder := Holder(t, sub);
      if holder.Some? && !holder.value.Done() then LockBusy
      else if t.sem >= slots then Busy
      else if outcome != Stored then StoreError
      else Admitted(newId)
  }

  /** Drops the finished holder of the requested lock, if there is one. */
  function WithoutStaleHolder(t: Table, sub: Submission): Table {
    var holder := Holder(t, sub);
    if holder.Some? && holder.value.Done() then t.(locks := t.locks - {sub.req.lockKey}) else t
  }

  function Admit(t: Table, sub: Submission, id: string, now: int): Table {
    t.(recs := t.recs[id := NewJob(sub, id, now)],
       jobs := t.jobs + {id},
       locks := if sub.req.lockKey == "" then t.locks else t.locks[sub.req.lockKey := id],
       idempotency := if sub.req.idempotencyKey == "" then t.idempotency else t.idempotency[sub.Key() := id],
       sem := t.sem + 1)
  }

  function Prepare(t: Table, slots: nat, sub: Submission, newId: string, now: int, outcome: StoreOutcome): Table {
    match PrepareVerdict(t, slots, sub, newId, outcome)
    case Admitted(id) => Admit(WithoutStaleHolder(t, sub), sub, id, now)
    case Busy => WithoutStaleHolder(t, sub)
    case StoreError => WithoutStaleHolder(t, sub)
    case _ => t
  }

  function Release(t: Table, id: string): Table {
    var lockKey := if id in t.recs then t.recs[id].lockKey else "";
    var holds := lockKey != "" && lockKey in t.locks && t.locks[lockKey] == id;
    t.(locks := if holds then t.locks - {lockKey} else t.locks,
       sem := if t.sem > 0 then t.sem - 1 else 0)
  }

  /** The done jobs a prune saw, newest first if the number of jobs is limited. */
  ghost predicate PruneOrder(cfg: Config, t: Table, order: seq<string>) {
    && (forall i :: 0 <= i < |order| ==> order[i] in t.jobs && order[i] in t.recs && t.recs[order[i]].Done())
    && (forall i, j :: 0 <= i < j < |order| ==> order[i] != order[j])
    && (cfg.maxJobsRetained > 0 ==>
          forall i, j :: 0 <= i < j < |order| ==> t.recs[order[i]].started >= t.recs[order[j]].started)
  }

  /** `order[i]` is too old or has MaxJobsRetained newer done jobs before it. */
  ghost predicate Stale(cfg: Config, t: Table, order: seq<string>, cutoff: int, i: nat)
    requires PruneOrder(cfg, t, order) && i < |order|
  {
    || (cfg.retentionDays > 0 && t.recs[order[i]].started < cutoff)
    || (cfg.maxJobsRetained > 0 && i >= cfg.maxJobsRetained)
  }

  ghost function StaleIds(cfg: Config, t: Table, order: seq<string>, cutoff: int): set<string>
    requires PruneOrder(cfg, t, order)
  {
    set i | 0 <= i < |order| && Stale(cfg, t, order, cutoff, i) :: order[i]
  }

  ghost function Drop(t: Table, dead: set<string>): Table {
    t.(jobs := t.jobs - dead,
       idempotency := map k | k in t.idempotency && t.idempotency[k] !in dead :: t.idempotency[k])
  }
}
