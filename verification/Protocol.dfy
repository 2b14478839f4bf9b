/** The daemon as an interleaved transition system. One event is one critical section
    (or one store access) of a request handler or of a job's runner, so a sequence of
    events is any interleaving of any number of them. */
module Protocol {
  import opened Types
  import opened Lifecycle
  import opened Retention

  /** How far a job's runner has come. */
  datatype Pc =
    | Queueing
    | Started
    | Bound
    | Ran
    | Checked
    | Saved
    | Audited
    | Published
    | ContextClosed
    | Released
    | Snapshotted
    | Planned
    | Swept
    | Finished

  function Rank(pc: Pc): nat {
    match pc
    case Queueing => 0
    case Started => 1
    case Bound => 2
    case Ran => 3
    case Checked => 4
    case Saved => 5
    case Audited => 6
    case Published => 7
    case ContextClosed => 8
    case Released => 9
    case Snapshotted => 10
    case Planned => 11
    case Swept => 12
    case Finished => 13
  }

  /** A runner's local variables. `child` is what the child process returned, `res` the
      result after the cancel check and `seen` the answer of that check. `snapshotIds` are the
      ids of all jobs admitted when `protected` was taken; `todo` and `deleted` split the
      directories its cleanup removes. */
  datatype Runner = Runner(
    pc: Pc,
    sub: Submission,
    child: Option<RunResult>,
    seen: bool,
    res: Option<RunResult>,
    snapshotIds: set<string>,
    protected: set<string>,
    todo: set<string>,
    deleted: set<string>)

  /** `used` holds every job id that ever named a job or a directory. */
  datatype Sys = Sys(
    table: Table,
    runners: map<string, Runner>,
    disk: map<string, JobDir>,
    audit: map<string, RunResult>,
    used: set<string>)

  datatype Event =
    | PrepareJob(sub: Submission, newId: string, now: int, outcome: StoreOutcome, leftover: bool)
    | RequestCancel(id: string)
    | MarkRunning(id: string)
    | SetCancel(id: string)
    | RunChild(id: string, child: RunResult)
    | CheckCancel(id: string)
    | SaveResult(id: string, ok: bool)
    | WriteAudit(id: string, ok: bool)
    | SetResult(id: string)
    | CloseContext(id: string)
    | ReleaseJob(id: string)
    | Snapshot(id: string, protected: set<string>)
    | PlanCleanup(id: string, listing: seq<Entry>, cutoff: int, plan: set<string>)
    | RemoveDir(id: string, victim: string)
    | EndSweep(id: string)
    | FailSweep(id: string)
    | PruneMemory(id: string, order: seq<string>, now: int)

  /** What the runner reports, given the child's result and the cancel check. */
  function Outcome(child: RunResult, canceled: bool): RunResult {
    if canceled then child.(state := Canceled, exitCode := -1, error := "job canceled") else child
  }

  function NewMetadata(sub: Submission, id: string, now: int): Metadata {
    Metadata(id, sub.tokenId, sub.req.privilege, sub.remote, sub.req.lockKey, sub.req.idempotencyKey, sub.hash, now)
  }

  function NewRunner(sub: Submission): Runner {
    Runner(Queueing, sub, None, false, None, {}, {}, {}, {})
  }

  ghost predicate Init(s: Sys) {
    && s.table == Table(map[], {}, map[], map[], 0)
    && s.runners == map[]
    && s.audit == map[]
    && s.disk.Keys <= s.used
  }

  predicate At(s: Sys, id: string, pc: Pc) {
    id in s.runners && id in s.table.recs && s.runners[id].pc == pc
  }

  ghost function Unfinished(s: Sys): set<string> {
    set id | id in s.table.recs && !s.table.recs[id].Done()
  }

  /** Jobs whose runner still owns a slot. */
  ghost function Unreleased(s: Sys): set<string> {
    set id | id in s.runners && Rank(s.runners[id].pc) < Rank(Released)
  }

  /** Events that touch one job object and its runner and nothing else. */
  predicate Plain(e: Event) {
    || e.RequestCancel? || e.MarkRunning? || e.SetCancel? || e.RunChild?
    || e.CheckCancel? || e.SetResult? || e.CloseContext?
  }

  /** Where the runner stands for a plain event. */
  predicate Ready(e: Event, r: Runner)
    requires Plain(e)
  {
    match e
    case RequestCancel(_) => true
    case MarkRunning(_) => r.pc == Queueing
    case SetCancel(_) => r.pc == Started
    case RunChild(_, _) => r.pc == Bound
    case CheckCancel(_) => r.pc == Ran
    case SetResult(_) => r.pc == Audited
    case CloseContext(_) => r.pc == Published
  }

  /** The steps of a runner's cleanup up to the pruning of memory. */
  predicate Cleaning(e: Event) {
    e.Snapshot? || e.PlanCleanup? || e.RemoveDir? || e.EndSweep? || e.FailSweep?
  }

  ghost predicate CleanerReady(cfg: Config, s: Sys, e: Event, r: Runner)
    requires Cleaning(e)
  {
    match e
    case Snapshot(_, protected) =>
      r.pc == Released && s.table.jobs * Unfinished(s) <= protected <= s.table.jobs
    case PlanCleanup(_, listing, cutoff, plan) =>
      r.pc == Snapshotted && Listed(s, listing) && IsPlan(cfg, cutoff, r.protected, listing, plan)
    case RemoveDir(_, victim) => r.pc == Planned && victim in r.todo
    case EndSweep(_) => r.pc == Planned && r.todo == {}
    case FailSweep(_) => r.pc == Snapshotted || r.pc == Planned
  }

  /** `listing` names existing directories once each, with the creation times their metadata gives. */
  ghost predicate Listed(s: Sys, listing: seq<Entry>) {
    && DistinctIds(listing)
    && Ids(listing) <= s.disk.Keys
    && forall i :: 0 <= i < |listing| && listing[i].id in s.disk && HasCreationTime(s.disk[listing[i].id]) ==>
         listing[i].created == s.disk[listing[i].id].meta.value.createdAt
  }

  /** Every job whose slot was released is among the done jobs the prune saw. */
  ghost predicate SawReleased(s: Sys, order: seq<string>) {
    forall j :: j in s.table.jobs && j in s.runners && Rank(s.runners[j].pc) >= Rank(Released) ==> j in order
  }

  ghost predicate Enabled(cfg: Config, s: Sys, e: Event) {
    if Plain(e) then
      e.id in s.table.recs && e.id in s.runners && Ready(e, s.runners[e.id])
    else if Cleaning(e) then
      e.id in s.table.recs && e.id in s.runners && CleanerReady(cfg, s, e, s.runners[e.id])
    else
      match e
      case PrepareJob(_, newId, _, _, _) => newId !in s.used
      case SaveResult(id, ok) => At(s, id, Checked) && (ok ==> id in s.disk)
      case WriteAudit(id, _) => At(s, id, Saved) && s.runners[id].res.Some?
      case ReleaseJob(id) => At(s, id, ContextClosed)
      case PruneMemory(id, order, _) => At(s, id, Swept) && PruneOrder(cfg, s.table, order) && SawReleased(s, order)
  }

  function WithRec(s: Sys, id: string, j: JobView): Sys {
    s.(table := s.table.(recs := s.table.recs[id := j]))
  }

  function WithRunner(s: Sys, id: string, r: Runner): Sys {
    s.(runners := s.runners[id := r])
  }

  function Admission(cfg: Config, s: Sys, sub: Submission, newId: string, now: int, outcome: StoreOutcome, leftover: bool): Sys {
    var t := Prepare(s.table, cfg.slots, sub, newId, now, outcome);
    match PrepareVerdict(s.table, cfg.slots, sub, newId, outcome)
    case Admitted(_) =>
      s.(table := t,
         runners := s.runners[newId := NewRunner(sub)],
         disk := s.disk[newId := JobDir(Some(NewMetadata(sub, newId, now)), None)],
         used := s.used + {newId})
    case StoreError =>
      s.(table := t,
         disk := if leftover then s.disk[newId := JobDir(None, None)] else s.disk,
         used := s.used + {newId})
    case _ => s.(table := t)
  }

  function JobAfter(e: Event, j: JobView, r: Runner): JobView
    requires Plain(e)
  {
    match e
    case RequestCancel(_) => j.CancelRequested()
    case MarkRunning(_) => j.MarkedRunning()
    case SetCancel(_) => j.WithCancel()
    case SetResult(_) => if r.res.Some? then j.WithResult(r.res.value) else j
    case CloseContext(_) => j.CallCancel()
    case _ => j
  }

  function RunnerAfter(e: Event, j: JobView, r: Runner): Runner
    requires Plain(e)
  {
    match e
    case RequestCancel(_) => r
    case MarkRunning(_) => r.(pc := Started)
    case SetCancel(_) => r.(pc := Bound)
    case RunChild(id, child) => r.(pc := Ran, child := Some(child.(jobId := id)))
    case CheckCancel(_) =>
      var res := if r.child.Some? then Some(Outcome(r.child.value, j.cancelRequested)) else None;
      r.(pc := Checked, seen := j.cancelRequested, res := res)
    case SetResult(_) => r.(pc := Published)
    case CloseContext(_) => r.(pc := ContextClosed)
  }

  function Updated(s: Sys, id: string, j: JobView, r: Runner): Sys {
    WithRunner(WithRec(s, id, j), id, r)
  }

  function CleanerAfter(e: Event, admitted: set<string>, r: Runner): Runner
    requires Cleaning(e)
  {
    match e
    case Snapshot(_, protected) => r.(pc := Snapshotted, snapshotIds := admitted, protected := protected)
    case PlanCleanup(_, _, _, plan) => r.(pc := Planned, todo := plan)
    case RemoveDir(_, victim) => r.(todo := r.todo - {victim}, deleted := r.deleted + {victim})
    case EndSweep(_) => r.(pc := Swept)
    case FailSweep(_) => r.(pc := Finished)
  }

  function Cleaned(s: Sys, e: Event): Sys
    requires Cleaning(e) && e.id in s.runners
  {
    WithRunner(s, e.id, CleanerAfter(e, s.table.recs.Keys, s.runners[e.id])).(
      disk := if e.RemoveDir? then s.disk - {e.victim} else s.disk)
  }

  function Saving(s: Sys, id: string, ok: bool): Sys
    requires id in s.runners && (ok ==> id in s.disk)
  {
    var saved := WithRunner(s, id, s.runners[id].(pc := Saved));
    if ok then saved.(disk := s.disk[id := s.disk[id].(result := s.runners[id].res)]) else saved
  }

  function Auditing(s: Sys, id: string, ok: bool): Sys
    requires id in s.runners && s.runners[id].res.Some?
  {
    var next := WithRunner(s, id, s.runners[id].(pc := Audited));
    if ok then next.(audit := s.audit[id := s.runners[id].res.value]) else next
  }

  function Releasing(s: Sys, id: string): Sys
    requires id in s.runners
  {
    WithRunner(s.(table := Release(s.table, id)), id, s.runners[id].(pc := Released))
  }

  ghost function Pruning(cfg: Config, s: Sys, id: string, order: seq<string>, now: int): Sys
    requires id in s.runners && PruneOrder(cfg, s.table, order)
  {
    var dead := s.runners[id].deleted + StaleIds(cfg, s.table, order, Cutoff(cfg, now));
    WithRunner(s.(table := Drop(s.table, dead)), id, s.runners[id].(pc := Finished))
  }

  /** The state after an enabled event. */
  ghost function Apply(cfg: Config, s: Sys, e: Event): Sys
    requires Enabled(cfg, s, e)
  {
    if Plain(e) then
      var j, r := s.table.recs[e.id], s.runners[e.id];
      Updated(s, e.id, JobAfter(e, j, r), RunnerAfter(e, j, r))
    else if Cleaning(e) then
      Cleaned(s, e)
    else
      match e
      case PrepareJob(sub, newId, now, outcome, leftover) => Admission(cfg, s, sub, newId, now, outcome, leftover)
      case SaveResult(id, ok) => Saving(s, id, ok)
      case WriteAudit(id, ok) => Auditing(s, id, ok)
      case ReleaseJob(id) => Releasing(s, id)
      case PruneMemory(id, order, now) => Pruning(cfg, s, id, order, now)
  }

  /** `es` can happen one after the other from `s`. */
  ghost predicate Run(cfg: Config, s: Sys, es: seq<Event>)
    decreases |es|
  {
    es == [] || (Enabled(cfg, s, es[0]) && Run(cfg, Apply(cfg, s, es[0]), es[1..]))
  }

  ghost function After(cfg: Config, s: Sys, es: seq<Event>): Sys
    requires Run(cfg, s, es)
    decreases |es|
  {
    if es == [] then s else After(cfg, Apply(cfg, s, es[0]), es[1..])
  }

  lemma {:induction false} RunAppend(cfg: Config, s: Sys, es: seq<Event>, fs: seq<Event>)
    requires Run(cfg, s, es) && Run(cfg, After(cfg, s, es), fs)
    ensures Run(cfg, s, es + fs) && After(cfg, s, es + fs) == After(cfg, After(cfg, s, es), fs)
    decreases |es|
  {
    hide Apply, Enabled;
    if es == [] {
      assert es + fs == fs;
    } else {
      RunAppend(cfg, Apply(cfg, s, es[0]), es[1..], fs);
      assert (es + fs)[0] == es[0] && (es + fs)[1..] == es[1..] + fs;
    }
  }

  lemma RunCons(cfg: Config, s: Sys, e: Event, es: seq<Event>)
    requires Enabled(cfg, s, e) && Run(cfg, Apply(cfg, s, e), es)
    ensures Run(cfg, s, [e] + es) && After(cfg, s, [e] + es) == After(cfg, Apply(cfg, s, e), es)
  {
    hide Apply, Enabled;
    assert ([e] + es)[0] == e && ([e] + es)[1..] == es;
  }

  lemma RunOne(cfg: Config, s: Sys, e: Event)
    requires Enabled(cfg, s, e)
    ensures Run(cfg, s, [e]) && After(cfg, s, [e]) == Apply(cfg, s, e)
  {
    hide Apply, Enabled;
    RunCons(cfg, s, e, []);
    assert [e] + [] == [e];
  }
}
