/** The reference the indexes are measured against: a plain list of the admitted jobs,
    scanned from the front for every question. */
module Ledger {
  import opened Types
  import opened IndexKey
  import opened Lifecycle
  import opened Protocol
  import opened Invariant
  import opened Reachability

  datatype LedgerEntry = LedgerEntry(
    id: string,
    tokenId: string,
    idempotencyKey: string,
    hash: string,
    lockKey: string,
    finished: bool,
    released: bool,
    retained: bool)
  {
    predicate Answers(key: string) {
      retained && idempotencyKey != "" && Join(tokenId, idempotencyKey) == key
    }

    predicate Holds(key: string) {
      !finished && lockKey == key
    }
  }

  function FirstRetained(l: seq<LedgerEntry>, key: string): Option<LedgerEntry> {
    if l == [] then None
    else if l[0].Answers(key) then Some(l[0])
    else FirstRetained(l[1..], key)
  }

  predicate LockHeld(l: seq<LedgerEntry>, key: string) {
    l != [] && (l[0].Holds(key) || LockHeld(l[1..], key))
  }

  function SlotsTaken(l: seq<LedgerEntry>): nat {
    if l == [] then 0 else (if l[0].released then 0 else 1) + SlotsTaken(l[1..])
  }

  /** prepareJob's answer by scanning the list. */
  function LedgerVerdict(l: seq<LedgerEntry>, slots: nat, sub: Submission, newId: string, outcome: StoreOutcome): Verdict {
    var existing := if sub.req.idempotencyKey == "" then None else FirstRetained(l, sub.Key());
    if existing.Some? then
      if existing.value.hash == sub.hash then Reused(existing.value.id) else IdempotencyConflict
    else if sub.req.lockKey != "" && LockHeld(l, sub.req.lockKey) then LockBusy
    else if SlotsTaken(l) >= slots then Busy
    else if outcome == Stored then Admitted(newId)
    else StoreError
  }

  function NewEntry(sub: Submission, id: string): LedgerEntry {
    LedgerEntry(id, sub.tokenId, sub.req.idempotencyKey, sub.hash, sub.req.lockKey, false, false, true)
  }

  /** How an entry of the list follows an event. */
  ghost function EntryAfter(cfg: Config, s: Sys, e: Event, x: LedgerEntry): LedgerEntry
    requires Enabled(cfg, s, e)
  {
    match e
    case SetResult(id) => if x.id == id then x.(finished := true) else x
    case ReleaseJob(id) => if x.id == id then x.(released := true) else x
    case PruneMemory(id, order, now) =>
      if x.id in s.runners[id].deleted + StaleIds(cfg, s.table, order, Cutoff(cfg, now)) then x.(retained := false) else x
    case _ => x
  }

  /** How the list follows an event. It never consults the indexes. */
  ghost function LedgerAfter(cfg: Config, l: seq<LedgerEntry>, s: Sys, e: Event): seq<LedgerEntry>
    requires Enabled(cfg, s, e)
  {
    if e.PrepareJob? then
      if LedgerVerdict(l, cfg.slots, e.sub, e.newId, e.outcome).Admitted? then l + [NewEntry(e.sub, e.newId)] else l
    else
      seq(|l|, i requires 0 <= i < |l| => EntryAfter(cfg, s, e, l[i]))
  }

  ghost function LedgerRun(cfg: Config, l: seq<LedgerEntry>, s: Sys, es: seq<Event>): seq<LedgerEntry>
    requires Run(cfg, s, es)
    decreases |es|
  {
    if es == [] then l
    else LedgerRun(cfg, LedgerAfter(cfg, l, s, es[0]), Apply(cfg, s, es[0]), es[1..])
  }

  /** The list entry of an admitted job. */
  ghost function EntryOf(s: Sys, id: string): LedgerEntry
    requires id in s.table.recs && id in s.runners
  {
    var j, r := s.table.recs[id], s.runners[id];
    LedgerEntry(id, r.sub.tokenId, r.sub.req.idempotencyKey, r.sub.hash, r.sub.req.lockKey,
                Rank(r.pc) >= Rank(Published), Rank(r.pc) >= Rank(Released), id in s.table.jobs)
  }

  ghost function LedgerIds(l: seq<LedgerEntry>): set<string> {
    set i | 0 <= i < |l| :: l[i].id
  }

  ghost predicate Distinct(l: seq<LedgerEntry>) {
    forall i, j :: 0 <= i < j < |l| ==> l[i].id != l[j].id
  }

  /** The list holds every admitted job once, as it is now. */
  ghost predicate Tracks(s: Sys, l: seq<LedgerEntry>) {
    && s.runners.Keys == s.table.recs.Keys
    && Distinct(l)
    && LedgerIds(l) == s.table.recs.Keys
    && forall i :: 0 <= i < |l| ==> l[i].id in s.table.recs && l[i] == EntryOf(s, l[i].id)
  }

  lemma {:induction false} FirstRetainedFinds(l: seq<LedgerEntry>, key: string)
    ensures var f := FirstRetained(l, key);
      && (f.Some? ==> f.value in l && f.value.Answers(key))
      && (f.None? ==> forall i :: 0 <= i < |l| ==> !l[i].Answers(key))
  {
    if l != [] && !l[0].Answers(key) {
      FirstRetainedFinds(l[1..], key);
    }
  }

  lemma {:induction false} LockHeldFinds(l: seq<LedgerEntry>, key: string)
    ensures LockHeld(l, key) <==> exists i :: 0 <= i < |l| && l[i].Holds(key)
  {
    if l != [] {
      LockHeldFinds(l[1..], key);
      if exists i :: 0 <= i < |l| && l[i].Holds(key) {
        var i :| 0 <= i < |l| && l[i].Holds(key);
        assert i > 0 ==> l[1..][i - 1].Holds(key);
      }
    }
  }

  ghost function UnreleasedIds(l: seq<LedgerEntry>): set<string> {
    if l == [] then {} else (if l[0].released then {} else {l[0].id}) + UnreleasedIds(l[1..])
  }

  lemma {:induction false} UnreleasedMember(l: seq<LedgerEntry>, id: string)
    ensures id in UnreleasedIds(l) <==> exists i :: 0 <= i < |l| && !l[i].released && l[i].id == id
  {
    if l != [] {
      UnreleasedMember(l[1..], id);
      assert forall i :: 0 < i < |l| ==> l[i] == l[1..][i - 1];
    }
  }

  lemma {:induction false} SlotsTakenCounts(l: seq<LedgerEntry>)
    requires Distinct(l)
    ensures SlotsTaken(l) == |UnreleasedIds(l)|
  {
    if l != [] {
      assert Distinct(l[1..]);
      SlotsTakenCounts(l[1..]);
      UnreleasedMember(l[1..], l[0].id);
    }
  }

  lemma EntryIn(s: Sys, l: seq<LedgerEntry>, id: string) returns (i: nat)
    requires Tracks(s, l) && id in s.table.recs
    ensures i < |l| && l[i] == EntryOf(s, id)
  {
    assert id in LedgerIds(l);
    i :| 0 <= i < |l| && l[i].id == id;
  }

  /** Scanning for an idempotency key finds what the index finds. */
  lemma LookupAgrees(s: Sys, l: seq<LedgerEntry>, sub: Submission)
    requires JobsOk(s) && IdempotencyOk(s) && Tracks(s, l) && sub.req.idempotencyKey != ""
    ensures var f := FirstRetained(l, sub.Key());
      && f.Some? == Existing(s.table, sub).Some?
      && (f.Some? ==> f.value.id == Existing(s.table, sub).value.id && f.value.hash == Existing(s.table, sub).value.hash)
  {
    var key := sub.Key();
    if key in s.table.idempotency {
      var i := EntryIn(s, l, s.table.idempotency[key]);
      assert l[i].Answers(key) && JobOk(l[i].id, s.table.recs[l[i].id], s.runners[l[i].id]);
    }
    var f := FirstRetained(l, key);
    FirstRetainedFinds(l, key);
    if f.Some? {
      var i :| 0 <= i < |l| && l[i] == f.value;
      assert f.value == EntryOf(s, f.value.id);
      assert s.table.idempotency[key] == f.value.id;
    }
  }

  /** Scanning for an unfinished job with a lock key finds what the lock index finds. */
  lemma LockAgrees(s: Sys, l: seq<LedgerEntry>, sub: Submission)
    requires JobsOk(s) && LocksOk(s) && Tracks(s, l) && sub.req.lockKey != ""
    ensures LockHeld(l, sub.req.lockKey) <==> Holder(s.table, sub).Some? && !Holder(s.table, sub).value.Done()
  {
    var key := sub.req.lockKey;
    LockHeldFinds(l, key);
    if LockHeld(l, key) {
      var i :| 0 <= i < |l| && l[i].Holds(key);
      assert l[i] == EntryOf(s, l[i].id);
      assert JobOk(l[i].id, s.table.recs[l[i].id], s.runners[l[i].id]);
    }
    if Holder(s.table, sub).Some? && !Holder(s.table, sub).value.Done() {
      var id := s.table.locks[key];
      assert JobOk(id, s.table.recs[id], s.runners[id]);
      var i := EntryIn(s, l, id);
      assert l[i].Holds(key);
    }
  }

  lemma SlotsAgree(cfg: Config, s: Sys, l: seq<LedgerEntry>)
    requires SlotsOk(cfg, s) && Tracks(s, l)
    ensures SlotsTaken(l) == s.table.sem
  {
    SlotsTakenCounts(l);
    assert UnreleasedIds(l) == Unreleased(s) by {
      forall id ensures id in UnreleasedIds(l) <==> id in Unreleased(s) {
        UnreleasedMember(l, id);
        if id in Unreleased(s) {
          var i := EntryIn(s, l, id);
        }
      }
    }
  }

  /** In any state satisfying the invariant the four indexes answer as the list does. */
  lemma VerdictAgrees(cfg: Config, s: Sys, l: seq<LedgerEntry>, sub: Submission, newId: string, outcome: StoreOutcome)
    requires Inv(cfg, s) && Tracks(s, l)
    ensures PrepareVerdict(s.table, cfg.slots, sub, newId, outcome) == LedgerVerdict(l, cfg.slots, sub, newId, outcome)
  {
    hide JobsOk, SlotsOk, LocksOk, IdempotencyOk, DiskOk, SweepsOk, FreshSweep, Tracks, Existing, Holder;
    JobsKeys(s);
    SlotsAgree(cfg, s, l);
    if sub.req.idempotencyKey != "" {
      LookupAgrees(s, l, sub);
    } else {
      NoKeyNoJob(s.table, sub);
    }
    if sub.req.lockKey != "" {
      LockAgrees(s, l, sub);
    } else {
      NoKeyNoJob(s.table, sub);
    }
  }

  lemma NoKeyNoJob(t: Table, sub: Submission)
    ensures sub.req.idempotencyKey == "" ==> Existing(t, sub) == None
    ensures sub.req.lockKey == "" ==> Holder(t, sub) == None
  {
  }

  lemma TracksPointwise(s: Sys, l: seq<LedgerEntry>, s': Sys, l': seq<LedgerEntry>)
    requires Tracks(s, l) && |l'| == |l| && s'.runners.Keys == s'.table.recs.Keys == s.table.recs.Keys
    requires forall i :: 0 <= i < |l| && l[i].id in s.table.recs ==> l'[i] == EntryOf(s', l[i].id)
    ensures Tracks(s', l')
  {
    assert forall i :: 0 <= i < |l| ==> l'[i].id == l[i].id;
    hide EntryOf;
    MappedIds(l, l');
    hide LedgerIds;
  }

  lemma AppendedIds(l: seq<LedgerEntry>, x: LedgerEntry)
    ensures LedgerIds(l + [x]) == LedgerIds(l) + {x.id}
  {
    var l' := l + [x];
    forall id | id in LedgerIds(l) ensures id in LedgerIds(l') {
      var i :| 0 <= i < |l| && l[i].id == id;
      assert l'[i].id == id;
    }
    assert l'[|l|].id == x.id;
  }

  lemma MappedIds(l: seq<LedgerEntry>, l': seq<LedgerEntry>)
    requires |l'| == |l| && forall i :: 0 <= i < |l| ==> l'[i].id == l[i].id
    ensures LedgerIds(l') == LedgerIds(l)
  {
    forall id | id in LedgerIds(l) ensures id in LedgerIds(l') {
      var i :| 0 <= i < |l| && l[i].id == id;
      assert l'[i].id == id;
    }
  }

  /** Events other than these leave every entry as it is. */
  predicate Silent(e: Event) {
    !e.PrepareJob? && !e.SetResult? && !e.ReleaseJob? && !e.PruneMemory?
  }

  /** `r'` has passed the same of the two milestones the list knows of as `r`. */
  predicate SameMilestones(r: Runner, r': Runner) {
    && r'.sub == r.sub
    && (Rank(r'.pc) >= Rank(Published) <==> Rank(r.pc) >= Rank(Published))
    && (Rank(r'.pc) >= Rank(Released) <==> Rank(r.pc) >= Rank(Released))
  }

  lemma PlainMilestones(e: Event, j: JobView, r: Runner)
    requires Plain(e) && !e.SetResult? && Ready(e, r)
    ensures SameMilestones(r, RunnerAfter(e, j, r))
  {
  }

  lemma CleaningMilestones(cfg: Config, s: Sys, e: Event, r: Runner)
    requires Cleaning(e) && CleanerReady(cfg, s, e, r)
    ensures SameMilestones(r, CleanerAfter(e, s.table.recs.Keys, r))
  {
    hide Listed, Unfinished;
  }

  lemma SameMilestonesEntry(s: Sys, s': Sys, x: string, id: string)
    requires s.runners.Keys == s.table.recs.Keys && x in s.runners && id in s.runners
    requires s'.table.recs.Keys == s.table.recs.Keys && s'.table.jobs == s.table.jobs
    requires s'.runners.Keys == s.runners.Keys && s'.runners == s.runners[x := s'.runners[x]]
    requires SameMilestones(s.runners[x], s'.runners[x])
    ensures EntryOf(s', id) == EntryOf(s, id)
  {
  }

  lemma SilentEntry(cfg: Config, s: Sys, e: Event, id: string)
    requires s.runners.Keys == s.table.recs.Keys && Enabled(cfg, s, e) && Silent(e) && id in s.table.recs
    ensures var s' := Apply(cfg, s, e);
      s'.runners.Keys == s'.table.recs.Keys == s.table.recs.Keys && EntryOf(s', id) == EntryOf(s, id)
  {
    hide EntryOf, JobAfter, RunnerAfter, CleanerAfter, CleanerReady, Ready, SameMilestones;
    if Plain(e) {
      PlainMilestones(e, s.table.recs[e.id], s.runners[e.id]);
    } else if Cleaning(e) {
      CleaningMilestones(cfg, s, e, s.runners[e.id]);
    } else {
      PcMilestones(s.runners[e.id], if e.SaveResult? then Saved else Audited);
    }
    SameMilestonesEntry(s, Apply(cfg, s, e), e.id, id);
  }

  lemma PcMilestones(r: Runner, pc: Pc)
    requires Rank(r.pc) < Rank(Published) && Rank(pc) < Rank(Published)
    ensures SameMilestones(r, r.(pc := pc))
  {
  }

  lemma PublishedEntry(cfg: Config, s: Sys, e: Event, id: string)
    requires s.runners.Keys == s.table.recs.Keys && Enabled(cfg, s, e) && e.SetResult? && id in s.table.recs
    ensures var s' := Apply(cfg, s, e);
      && s'.runners.Keys == s'.table.recs.Keys == s.table.recs.Keys
      && EntryOf(s', id) == EntryAfter(cfg, s, e, EntryOf(s, id))
  {
    hide JobAfter;
  }

  lemma ReleasingEntry(s: Sys, x: string, id: string)
    requires s.runners.Keys == s.table.recs.Keys && At(s, x, ContextClosed) && id in s.table.recs
    ensures var s' := Releasing(s, x);
      && s'.runners.Keys == s'.table.recs.Keys == s.table.recs.Keys
      && EntryOf(s', id) == if id == x then EntryOf(s, id).(released := true) else EntryOf(s, id)
  {
  }

  lemma PruningEntry(cfg: Config, s: Sys, x: string, order: seq<string>, now: int, id: string)
    requires s.runners.Keys == s.table.recs.Keys && At(s, x, Swept) && PruneOrder(cfg, s.table, order) && id in s.table.recs
    ensures var s' := Pruning(cfg, s, x, order, now);
      && s'.runners.Keys == s'.table.recs.Keys == s.table.recs.Keys
      && EntryOf(s', id) == if id in s.runners[x].deleted + StaleIds(cfg, s.table, order, Cutoff(cfg, now))
                            then EntryOf(s, id).(retained := false) else EntryOf(s, id)
  {
    hide StaleIds, PruneOrder;
  }

  lemma ReleasedEntry(cfg: Config, s: Sys, e: Event, id: string)
    requires s.runners.Keys == s.table.recs.Keys && Enabled(cfg, s, e) && e.ReleaseJob? && id in s.table.recs
    ensures var s' := Apply(cfg, s, e);
      && s'.runners.Keys == s'.table.recs.Keys == s.table.recs.Keys
      && EntryOf(s', id) == EntryAfter(cfg, s, e, EntryOf(s, id))
  {
    hide EntryOf, Releasing;
    ReleasingEntry(s, e.id, id);
    assert EntryOf(s, id).id == id by { EntryId(s, id); }
  }

  lemma EntryId(s: Sys, id: string)
    requires id in s.table.recs && id in s.runners
    ensures EntryOf(s, id).id == id
  {
  }

  lemma ForgottenEntry(cfg: Config, s: Sys, e: Event, id: string)
    requires s.runners.Keys == s.table.recs.Keys && Enabled(cfg, s, e) && e.PruneMemory? && id in s.table.recs
    ensures var s' := Apply(cfg, s, e);
      && s'.runners.Keys == s'.table.recs.Keys == s.table.recs.Keys
      && EntryOf(s', id) == EntryAfter(cfg, s, e, EntryOf(s, id))
  {
    hide EntryOf, Pruning, StaleIds, PruneOrder, SawReleased;
    PruningEntry(cfg, s, e.id, e.order, e.now, id);
    assert EntryOf(s, id).id == id by { EntryId(s, id); }
  }

  lemma AdmittedEntry(s: Sys, s': Sys, id: string)
    requires id in s.table.recs && id in s.runners && id in s'.table.recs && id in s'.runners
    requires s'.runners[id] == s.runners[id] && (id in s'.table.jobs <==> id in s.table.jobs)
    ensures EntryOf(s', id) == EntryOf(s, id)
  {
  }

  lemma AdmittedEntries(s: Sys, s': Sys, sub: Submission, newId: string, now: int)
    requires s.runners.Keys == s.table.recs.Keys && newId !in s.table.recs
    requires s'.table.recs == s.table.recs[newId := NewJob(sub, newId, now)]
    requires s'.table.jobs == s.table.jobs + {newId} && s'.runners == s.runners[newId := NewRunner(sub)]
    ensures forall id :: id in s.table.recs ==> EntryOf(s', id) == EntryOf(s, id)
    ensures s'.runners.Keys == s'.table.recs.Keys == s.table.recs.Keys + {newId} && EntryOf(s', newId) == NewEntry(sub, newId)
  {
    assert EntryOf(s', newId) == NewEntry(sub, newId);
    hide EntryOf;
    forall id | id in s.table.recs ensures EntryOf(s', id) == EntryOf(s, id) {
      AdmittedEntry(s, s', id);
    }
  }

  lemma PreparedEntries(cfg: Config, s: Sys, e: Event)
    requires s.runners.Keys == s.table.recs.Keys <= s.used && Enabled(cfg, s, e) && e.PrepareJob?
    ensures var s' := Apply(cfg, s, e);
      && (forall id :: id in s.table.recs ==> id in s'.table.recs && id in s'.runners && EntryOf(s', id) == EntryOf(s, id))
      && if PrepareVerdict(s.table, cfg.slots, e.sub, e.newId, e.outcome).Admitted? then
           s'.runners.Keys == s'.table.recs.Keys == s.table.recs.Keys + {e.newId} && EntryOf(s', e.newId) == NewEntry(e.sub, e.newId)
         else
           s'.runners.Keys == s'.table.recs.Keys == s.table.recs.Keys
  {
    hide EntryOf, Admission, PrepareVerdict;
    var s' := Apply(cfg, s, e);
    assert e.newId !in s.used && s' == Admission(cfg, s, e.sub, e.newId, e.now, e.outcome, e.leftover);
    hide Apply, Enabled;
    AdmissionShape(cfg, s, e.sub, e.newId, e.now, e.outcome, e.leftover);
    if PrepareVerdict(s.table, cfg.slots, e.sub, e.newId, e.outcome).Admitted? {
      AdmittedEntries(s, s', e.sub, e.newId, e.now);
    } else {
      forall id | id in s.table.recs ensures EntryOf(s', id) == EntryOf(s, id) {
        AdmittedEntry(s, s', id);
      }
    }
  }

  lemma AppendedTracks(s: Sys, l: seq<LedgerEntry>, s': Sys, sub: Submission, newId: string)
    requires Tracks(s, l) && newId !in s.table.recs
    requires s'.runners.Keys == s'.table.recs.Keys == s.table.recs.Keys + {newId}
    requires forall id :: id in s.table.recs ==> EntryOf(s', id) == EntryOf(s, id)
    requires EntryOf(s', newId) == NewEntry(sub, newId)
    ensures Tracks(s', l + [NewEntry(sub, newId)])
  {
    hide EntryOf;
    AppendedIds(l, NewEntry(sub, newId));
    assert forall i :: 0 <= i < |l| ==> l[i].id in LedgerIds(l);
    hide LedgerIds;
  }

  lemma PreparedTracks(cfg: Config, s: Sys, l: seq<LedgerEntry>, e: Event)
    requires JobsOk(s) && Tracks(s, l) && Enabled(cfg, s, e) && e.PrepareJob?
    requires PrepareVerdict(s.table, cfg.slots, e.sub, e.newId, e.outcome) == LedgerVerdict(l, cfg.slots, e.sub, e.newId, e.outcome)
    ensures Tracks(Apply(cfg, s, e), LedgerAfter(cfg, l, s, e))
  {
    var s', l' := Apply(cfg, s, e), LedgerAfter(cfg, l, s, e);
    assert e.newId !in s.used;
    hide JobOk, LedgerVerdict, Apply, Enabled, Tracks, EntryOf, PrepareVerdict;
    JobsKeys(s);
    hide JobsOk;
    PreparedEntries(cfg, s, e);
    if PrepareVerdict(s.table, cfg.slots, e.sub, e.newId, e.outcome).Admitted? {
      AppendedTracks(s, l, s', e.sub, e.newId);
    } else {
      TracksPointwise(s, l, s', l');
    }
  }

  lemma QuietEntry(cfg: Config, s: Sys, e: Event, id: string)
    requires s.runners.Keys == s.table.recs.Keys && Enabled(cfg, s, e) && !e.PrepareJob? && id in s.table.recs
    ensures var s' := Apply(cfg, s, e);
      id in s'.table.recs && id in s'.runners && EntryOf(s', id) == EntryAfter(cfg, s, e, EntryOf(s, id))
  {
    hide Apply, Enabled, EntryOf;
    if Silent(e) {
      SilentEntry(cfg, s, e, id);
    } else if e.PruneMemory? {
      ForgottenEntry(cfg, s, e, id);
    } else if e.SetResult? {
      PublishedEntry(cfg, s, e, id);
    } else {
      ReleasedEntry(cfg, s, e, id);
    }
  }

  lemma QuietTracks(cfg: Config, s: Sys, l: seq<LedgerEntry>, e: Event)
    requires s.runners.Keys == s.table.recs.Keys && Tracks(s, l) && Enabled(cfg, s, e) && !e.PrepareJob?
    ensures Tracks(Apply(cfg, s, e), LedgerAfter(cfg, l, s, e))
  {
    var s', l' := Apply(cfg, s, e), LedgerAfter(cfg, l, s, e);
    hide Apply, Enabled, EntryOf, EntryAfter;
    QuietKeys(cfg, s, e);
    forall i | 0 <= i < |l| && l[i].id in s.table.recs ensures l'[i] == EntryOf(s', l[i].id) {
      QuietEntry(cfg, s, e, l[i].id);
    }
    TracksPointwise(s, l, s', l');
  }

  lemma QuietKeys(cfg: Config, s: Sys, e: Event)
    requires s.runners.Keys == s.table.recs.Keys && Enabled(cfg, s, e) && !e.PrepareJob?
    ensures Apply(cfg, s, e).runners.Keys == Apply(cfg, s, e).table.recs.Keys == s.table.recs.Keys
  {
    hide CleanerReady, Ready, JobAfter, RunnerAfter, CleanerAfter, StaleIds, PruneOrder, SawReleased;
    if Plain(e) || Cleaning(e) {
    } else {
      hide Updated, Cleaned;
    }
  }

  /** One step of the simulation. */
  lemma StepTracks(cfg: Config, s: Sys, l: seq<LedgerEntry>, e: Event)
    requires Inv(cfg, s) && Tracks(s, l) && Enabled(cfg, s, e)
    ensures Tracks(Apply(cfg, s, e), LedgerAfter(cfg, l, s, e))
  {
    hide JobsOk, SlotsOk, LocksOk, IdempotencyOk, DiskOk, SweepsOk, FreshSweep, Apply, Enabled, Tracks, LedgerAfter;
    JobsKeys(s);
    if e.PrepareJob? {
      VerdictAgrees(cfg, s, l, e.sub, e.newId, e.outcome);
      PreparedTracks(cfg, s, l, e);
    } else {
      QuietTracks(cfg, s, l, e);
    }
  }

  lemma {:induction false} RunTracks(cfg: Config, s: Sys, l: seq<LedgerEntry>, es: seq<Event>)
    requires Inv(cfg, s) && Tracks(s, l) && Run(cfg, s, es)
    ensures Tracks(After(cfg, s, es), LedgerRun(cfg, l, s, es)) && Inv(cfg, After(cfg, s, es))
    decreases |es|
  {
    hide Inv, Tracks, Enabled, Apply, LedgerAfter;
    if es != [] {
      StepTracks(cfg, s, l, es[0]);
      StepKeepsInv(cfg, s, es[0]);
      RunTracks(cfg, Apply(cfg, s, es[0]), LedgerAfter(cfg, l, s, es[0]), es[1..]);
    }
  }

  /** After any run from a fresh start, prepareJob answers every request as a scan of the
      list of admitted jobs would. */
  lemma PrepareRefinesLedger(cfg: Config, s: Sys, es: seq<Event>, sub: Submission, newId: string, outcome: StoreOutcome)
    requires Init(s) && Run(cfg, s, es)
    ensures PrepareVerdict(After(cfg, s, es).table, cfg.slots, sub, newId, outcome)
         == LedgerVerdict(LedgerRun(cfg, [], s, es), cfg.slots, sub, newId, outcome)
  {
    InitInv(cfg, s);
    assert Tracks(s, []);
    hide Inv, Tracks, Enabled, Apply, LedgerAfter, PrepareVerdict, LedgerVerdict;
    RunTracks(cfg, s, [], es);
    VerdictAgrees(cfg, After(cfg, s, es), LedgerRun(cfg, [], s, es), sub, newId, outcome);
  }
}
