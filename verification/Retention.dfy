/** Which job directories a cleanup deletes, stated without its loops. */
module Retention {
  import opened Types

  /** One job directory as the cleanup lists it. */
  datatype Entry = Entry(id: string, created: int, size: nat)

  /** Metadata gives the creation time; otherwise the directory's modification time counts. */
  predicate HasCreationTime(d: JobDir) {
    d.meta.Some? && d.meta.value.createdAt != ZERO_TIME
  }

  predicate DistinctIds(l: seq<Entry>) {
    forall i, j :: 0 <= i < j < |l| ==> l[i].id != l[j].id
  }

  ghost function Ids(l: seq<Entry>): set<string> {
    set i | 0 <= i < |l| :: l[i].id
  }

  predicate NewestFirst(order: seq<Entry>) {
    forall i, j :: 0 <= i < j < |order| ==> order[i].created >= order[j].created
  }

  predicate OldestFirst(order: seq<Entry>) {
    forall i, j :: 0 <= i < j < |order| ==> order[i].created <= order[j].created
  }

  predicate Expired(cfg: Config, cutoff: int, e: Entry) {
    cfg.retentionDays > 0 && e.created < cutoff
  }

  /** Entries that take a place in the count pass. */
  predicate Counted(cfg: Config, cutoff: int, protected: set<string>, e: Entry) {
    e.id in protected || !Expired(cfg, cutoff, e)
  }

  ghost function AgeVictims(cfg: Config, cutoff: int, protected: set<string>, l: seq<Entry>): set<string> {
    set i | 0 <= i < |l| && Expired(cfg, cutoff, l[i]) && l[i].id !in protected :: l[i].id
  }

  /** The counted entries before position `i`. */
  ghost function Ahead(cfg: Config, cutoff: int, protected: set<string>, order: seq<Entry>, i: nat): set<Entry>
    requires i <= |order|
  {
    set k | 0 <= k < i && Counted(cfg, cutoff, protected, order[k]) :: order[k]
  }

  /** `order[i]` goes because enough counted entries are ahead of it. */
  ghost predicate Overflows(cfg: Config, cutoff: int, protected: set<string>, order: seq<Entry>, i: nat)
    requires i < |order|
  {
    && cfg.maxJobsRetained > 0
    && order[i].id !in protected
    && !Expired(cfg, cutoff, order[i])
    && |Ahead(cfg, cutoff, protected, order, i)| >= cfg.maxJobsRetained
  }

  ghost function CountVictims(cfg: Config, cutoff: int, protected: set<string>, newest: seq<Entry>): set<string> {
    set i | 0 <= i < |newest| && Overflows(cfg, cutoff, protected, newest, i) :: newest[i].id
  }

  /** Total size of the listed entries whose id is in `ids`. */
  function BytesOf(l: seq<Entry>, ids: set<string>): nat {
    if l == [] then 0
    else (if l[0].id in ids then l[0].size else 0) + BytesOf(l[1..], ids)
  }

  /** Total size of the listed entries whose id is not in `ids`. */
  function BytesOutside(l: seq<Entry>, ids: set<string>): nat {
    if l == [] then 0
    else (if l[0].id in ids then 0 else l[0].size) + BytesOutside(l[1..], ids)
  }

  /** The first `n` entries of the oldest-first order that are neither protected nor already going. */
  ghost function Oldest(oldest: seq<Entry>, n: nat, protected: set<string>, going: set<string>): set<string>
    requires n <= |oldest|
  {
    set i | 0 <= i < n && oldest[i].id !in protected && oldest[i].id !in going :: oldest[i].id
  }

  /** `n` is where the byte pass stops: nothing is needed before `n` and enough has gone at `n`,
      or the entries are exhausted. */
  ghost predicate ByteStop(cfg: Config, protected: set<string>, l: seq<Entry>, oldest: seq<Entry>, going: set<string>, n: nat) {
    && n <= |oldest|
    && (forall i :: 0 <= i < n ==> BytesOutside(l, going + Oldest(oldest, i, protected, going)) > cfg.maxTotalJobBytes)
    && (n == |oldest| || BytesOutside(l, going + Oldest(oldest, n, protected, going)) <= cfg.maxTotalJobBytes)
  }

  ghost function Early(cfg: Config, cutoff: int, protected: set<string>, newest: seq<Entry>): set<string> {
    AgeVictims(cfg, cutoff, protected, newest) + CountVictims(cfg, cutoff, protected, newest)
  }

  /** Too much would stay after the age and count passes. */
  predicate OverLimit(cfg: Config, l: seq<Entry>, early: set<string>) {
    cfg.maxTotalJobBytes > 0 && BytesOutside(l, early) > cfg.maxTotalJobBytes
  }

  ghost predicate PlanWith(cfg: Config, cutoff: int, protected: set<string>, l: seq<Entry>,
                           newest: seq<Entry>, oldest: seq<Entry>, n: nat, plan: set<string>)
  {
    && multiset(newest) == multiset(l) && NewestFirst(newest)
    && var early := Early(cfg, cutoff, protected, newest);
       if OverLimit(cfg, l, early) then
         && multiset(oldest) == multiset(l) && OldestFirst(oldest)
         && ByteStop(cfg, protected, l, oldest, early, n)
         && plan == early + Oldest(oldest, n, protected, early)
       else
         plan == early
  }

  /** `plan` is what a cleanup of the listing `l` deletes, for some outcome of its two unstable sorts. */
  ghost predicate IsPlan(cfg: Config, cutoff: int, protected: set<string>, l: seq<Entry>, plan: set<string>) {
    exists newest: seq<Entry>, oldest: seq<Entry>, n: nat :: PlanWith(cfg, cutoff, protected, l, newest, oldest, n, plan)
  }

  lemma InBoth(l: seq<Entry>, m: seq<Entry>, i: nat) returns (j: nat)
    requires multiset(l) == multiset(m) && i < |l|
    ensures j < |m| && m[j] == l[i]
  {
    assert l[i] in multiset(m);
    assert l[i] in m;
    j :| 0 <= j < |m| && m[j] == l[i];
  }

  /** A plan names listed entries only and never a protected one. */
  lemma PlanIsListedAndUnprotected(cfg: Config, cutoff: int, protected: set<string>, l: seq<Entry>, plan: set<string>)
    requires IsPlan(cfg, cutoff, protected, l, plan)
    ensures plan <= Ids(l) && plan !! protected
  {
    var newest: seq<Entry>, oldest: seq<Entry>, n: nat :| PlanWith(cfg, cutoff, protected, l, newest, oldest, n, plan);
    forall id | id in plan ensures id in Ids(l) && id !in protected {
      if id in Early(cfg, cutoff, protected, newest) {
        var i :| 0 <= i < |newest| && newest[i].id == id && id !in protected;
        var j := InBoth(newest, l, i);
      } else {
        var i :| 0 <= i < n && oldest[i].id == id && id !in protected;
        var j := InBoth(oldest, l, i);
      }
    }
  }
}
