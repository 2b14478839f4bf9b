/** Idempotent retries: which job a repeated request gets. */
module Retries {
  import opened Types
  import opened IndexKey
  import opened Lifecycle
  import opened Protocol
  import opened Invariant
  import opened Reachability

  /** While a job is in memory, every submission with its index key is answered with that
      job if the hashes agree and with a conflict if not, however busy the daemon is. */
  lemma RetainedJobAnswers(cfg: Config, s: Sys, id: string, sub: Submission, newId: string, outcome: StoreOutcome)
    requires Reachable(cfg, s) && id in s.table.jobs && id in s.runners
    requires s.runners[id].sub.req.idempotencyKey != "" && sub.req.idempotencyKey != ""
    requires sub.Key() == s.runners[id].sub.Key()
    ensures PrepareVerdict(s.table, cfg.slots, sub, newId, outcome)
         == if sub.hash == s.runners[id].sub.hash then Reused(id) else IdempotencyConflict
  {
    hide Reachable, SlotsOk, LocksOk, DiskOk, SweepsOk, FreshSweep;
    ReachableInv(cfg, s);
    assert JobOk(id, s.table.recs[id], s.runners[id]);
  }

  /** A job in memory has the index key of `sub`. */
  predicate Claims(s: Sys, id: string, sub: Submission) {
    && id in s.table.jobs && id in s.runners
    && sub.req.idempotencyKey != "" && s.runners[id].sub.req.idempotencyKey != ""
    && sub.Key() == s.runners[id].sub.Key()
  }

  /** And only then: a submission is answered without a look at lock, slots and store exactly if
      some job in memory has its index key. */
  lemma AnsweredIffRetained(cfg: Config, s: Sys, sub: Submission, newId: string, outcome: StoreOutcome)
    requires Reachable(cfg, s)
    ensures var verdict := PrepareVerdict(s.table, cfg.slots, sub, newId, outcome);
      verdict.Reused? || verdict.IdempotencyConflict? <==> exists id :: Claims(s, id, sub)
  {
    hide Reachable, PrepareVerdict, Inv;
    ReachableInv(cfg, s);
    var verdict := PrepareVerdict(s.table, cfg.slots, sub, newId, outcome);
    if verdict.Reused? || verdict.IdempotencyConflict? {
      AnswerHasKey(cfg, s, sub, newId, outcome);
      assert Claims(s, s.table.idempotency[sub.Key()], sub);
    }
    if id :| Claims(s, id, sub) {
      RetainedJobAnswers(cfg, s, id, sub, newId, outcome);
    }
  }

  lemma AnswerHasKey(cfg: Config, s: Sys, sub: Submission, newId: string, outcome: StoreOutcome)
    requires Inv(cfg, s)
    requires var verdict := PrepareVerdict(s.table, cfg.slots, sub, newId, outcome); verdict.Reused? || verdict.IdempotencyConflict?
    ensures sub.Key() in s.table.idempotency && Claims(s, s.table.idempotency[sub.Key()], sub)
  {
    hide SlotsOk, LocksOk, DiskOk, SweepsOk, FreshSweep;
    JobsKeys(s);
    hide JobsOk;
  }

  /** No two jobs in memory have the same index key. */
  lemma OneJobPerKey(cfg: Config, s: Sys, a: string, b: string)
    requires Reachable(cfg, s) && {a, b} <= s.table.jobs && a in s.runners && b in s.runners
    requires s.runners[a].sub.req.idempotencyKey != "" && s.runners[b].sub.req.idempotencyKey != ""
    requires s.runners[a].sub.Key() == s.runners[b].sub.Key()
    ensures a == b
  {
    hide Reachable, JobsOk, SlotsOk, LocksOk, DiskOk, SweepsOk, FreshSweep;
    ReachableInv(cfg, s);
    assert a in s.table.jobs && b in s.table.jobs;
  }

  /** Requests come from configured tokens and were normalised. */
  ghost predicate Authentic(tokens: set<string>, sub: Submission) {
    sub.tokenId in tokens && (sub.req.idempotencyKey == "" || ValidControlKey(sub.req.idempotencyKey))
  }

  ghost predicate AuthenticRun(tokens: set<string>, es: seq<Event>) {
    forall i :: 0 <= i < |es| && es[i].PrepareJob? ==> Authentic(tokens, es[i].sub)
  }

  ghost predicate AuthenticRunners(tokens: set<string>, s: Sys) {
    forall id :: id in s.runners ==> Authentic(tokens, s.runners[id].sub)
  }

  lemma PlainKeepsSub(e: Event, j: JobView, r: Runner)
    requires Plain(e)
    ensures RunnerAfter(e, j, r).sub == r.sub
  {
  }

  lemma OwnRunnerKeepsSub(cfg: Config, s: Sys, e: Event)
    requires Enabled(cfg, s, e) && !e.PrepareJob?
    ensures e.id in s.runners && e.id in Apply(cfg, s, e).runners && Apply(cfg, s, e).runners[e.id].sub == s.runners[e.id].sub
    ensures Apply(cfg, s, e).runners.Keys == s.runners.Keys
  {
    hide Ready, JobAfter, RunnerAfter, CleanerReady, PruneOrder, SawReleased, StaleIds;
    if Plain(e) {
      PlainKeepsSub(e, s.table.recs[e.id], s.runners[e.id]);
    }
  }

  lemma PrepareKeepsAuthentic(cfg: Config, tokens: set<string>, s: Sys, e: Event)
    requires AuthenticRunners(tokens, s) && Enabled(cfg, s, e) && e.PrepareJob? && Authentic(tokens, e.sub)
    ensures AuthenticRunners(tokens, Apply(cfg, s, e))
  {
    hide Authentic, PrepareVerdict, Prepare;
  }

  lemma StepKeepsAuthentic(cfg: Config, tokens: set<string>, s: Sys, e: Event)
    requires AuthenticRunners(tokens, s) && s.runners.Keys <= s.used && Enabled(cfg, s, e)
    requires e.PrepareJob? ==> Authentic(tokens, e.sub)
    ensures AuthenticRunners(tokens, Apply(cfg, s, e))
  {
    hide Apply, Enabled, Authentic;
    if e.PrepareJob? {
      hide AuthenticRunners;
      PrepareKeepsAuthentic(cfg, tokens, s, e);
    } else {
      OwnRunnerKeepsSub(cfg, s, e);
      forall id | id in Apply(cfg, s, e).runners ensures Authentic(tokens, Apply(cfg, s, e).runners[id].sub) {
        if id != e.id {
          OtherRunnersStay(cfg, s, e, id);
        }
      }
    }
  }

  lemma {:induction false} RunKeepsAuthentic(cfg: Config, tokens: set<string>, s: Sys, es: seq<Event>)
    requires Inv(cfg, s) && AuthenticRunners(tokens, s) && Run(cfg, s, es) && AuthenticRun(tokens, es)
    ensures AuthenticRunners(tokens, After(cfg, s, es))
    decreases |es|
  {
    hide Enabled, Apply, AuthenticRunners, Authentic, JobOk, SlotsOk, LocksOk, IdempotencyOk, DiskOk, SweepsOk, FreshSweep;
    if es != [] {
      JobsKeys(s);
      StepKeepsAuthentic(cfg, tokens, s, es[0]);
      StepKeepsInv(cfg, s, es[0]);
      RunKeepsAuthentic(cfg, tokens, Apply(cfg, s, es[0]), es[1..]);
    }
  }

  lemma ReusedHasKey(cfg: Config, s: Sys, sub: Submission, newId: string, outcome: StoreOutcome)
    requires Inv(cfg, s)
    ensures var verdict := PrepareVerdict(s.table, cfg.slots, sub, newId, outcome);
      verdict.Reused? ==>
        && verdict.id in s.table.jobs && verdict.id in s.runners
        && sub.req.idempotencyKey != "" && s.runners[verdict.id].sub.req.idempotencyKey != ""
        && s.runners[verdict.id].sub.Key() == sub.Key() && s.runners[verdict.id].sub.hash == sub.hash
  {
    hide SlotsOk, LocksOk, DiskOk, SweepsOk, FreshSweep;
    var verdict := PrepareVerdict(s.table, cfg.slots, sub, newId, outcome);
    if verdict.Reused? {
      var id := s.table.idempotency[sub.Key()];
      assert JobOk(id, s.table.recs[id], s.runners[id]);
    }
  }

  /** When no configured token id extends another, a reused job was submitted by the same
      token under the same idempotency key with the same hash. */
  lemma ReuseStaysWithinToken(cfg: Config, tokens: set<string>, s: Sys, es: seq<Event>,
                              sub: Submission, newId: string, outcome: StoreOutcome)
    requires Separated(tokens) && Init(s) && Run(cfg, s, es) && AuthenticRun(tokens, es) && Authentic(tokens, sub)
    ensures var s' := After(cfg, s, es);
      var verdict := PrepareVerdict(s'.table, cfg.slots, sub, newId, outcome);
      verdict.Reused? ==>
        && verdict.id in s'.runners
        && s'.runners[verdict.id].sub.tokenId == sub.tokenId
        && s'.runners[verdict.id].sub.req.idempotencyKey == sub.req.idempotencyKey
        && s'.runners[verdict.id].sub.hash == sub.hash
  {
    InitInv(cfg, s);
    assert AuthenticRunners(tokens, s);
    hide Inv, Enabled, Apply, PrepareVerdict, Separated;
    RunKeepsInv(cfg, s, es);
    RunKeepsAuthentic(cfg, tokens, s, es);
    var s' := After(cfg, s, es);
    ReusedHasKey(cfg, s', sub, newId, outcome);
    var verdict := PrepareVerdict(s'.table, cfg.slots, sub, newId, outcome);
    if verdict.Reused? {
      var first := s'.runners[verdict.id].sub;
      assert Authentic(tokens, first);
      JoinInjective(tokens, first.tokenId, first.req.idempotencyKey, sub.tokenId, sub.req.idempotencyKey);
    }
  }

  /** The side condition is needed: with tokens "a" and "a:b" a request of the second is
      answered with the first's job. */
  lemma ReuseAcrossTokens(cfg: Config, s: Sys, first: Submission, second: Submission, id: string, now: int, other: string)
    requires Init(s) && cfg.slots > 0 && id !in s.used
    requires first.tokenId == "a" && first.req.idempotencyKey == "b:c"
    requires second.tokenId == "a:b" && second.req.idempotencyKey == "c" && second.hash == first.hash
    ensures ValidTokenId("a") && ValidTokenId("a:b") && ValidControlKey("b:c") && ValidControlKey("c")
    ensures Enabled(cfg, s, PrepareJob(first, id, now, Stored, false))
    ensures PrepareVerdict(Apply(cfg, s, PrepareJob(first, id, now, Stored, false)).table, cfg.slots, second, other, Stored) == Reused(id)
  {
    assert second.Key() == "a:b:c" == first.Key();
  }

  /** Two submissions in a row with the same hash: the second is answered with the first's
      job exactly when their index keys are equal. */
  lemma SecondReusesIffSameKey(cfg: Config, s: Sys, first: Submission, second: Submission, id: string, now: int, other: string)
    requires Init(s) && cfg.slots > 0 && id !in s.used
    requires first.req.idempotencyKey != "" && second.req.idempotencyKey != "" && second.hash == first.hash
    ensures Enabled(cfg, s, PrepareJob(first, id, now, Stored, false))
    ensures PrepareVerdict(Apply(cfg, s, PrepareJob(first, id, now, Stored, false)).table, cfg.slots, second, other, Stored) == Reused(id)
       <==> second.Key() == first.Key()
  {
  }

  /** A reused job, if the verdict names one, was submitted by the asking token. */
  ghost predicate OwnReuse(cfg: Config, s: Sys, sub: Submission, newId: string, outcome: StoreOutcome) {
    var verdict := PrepareVerdict(s.table, cfg.slots, sub, newId, outcome);
    verdict.Reused? ==> verdict.id in s.runners && s.runners[verdict.id].sub.tokenId == sub.tokenId
  }

  /** Two tokens that can share an index key do so in the run of one admission. */
  lemma CollisionReuses(cfg: Config, t: string, u: string, k: string, l: string)
    requires cfg.slots > 0 && t != u && ValidControlKey(k) && ValidControlKey(l) && Join(t, k) == Join(u, l)
    ensures var s, es := FreshStart(), [PrepareJob(Keyed(t, k), "job-0000", 0, Stored, false)];
      Init(s) && Run(cfg, s, es) && !OwnReuse(cfg, After(cfg, s, es), Keyed(u, l), "job-0001", Stored)
  {
    var s, first, second := FreshStart(), Keyed(t, k), Keyed(u, l);
    var e := PrepareJob(first, "job-0000", 0, Stored, false);
    SecondReusesIffSameKey(cfg, s, first, second, "job-0000", 0, "job-0001");
    FirstIsAdmitted(cfg, s, first, "job-0000");
    hide Apply, Enabled, PrepareVerdict;
    RunOne(cfg, s, e);
  }

  lemma FirstIsAdmitted(cfg: Config, s: Sys, sub: Submission, id: string)
    requires Init(s) && cfg.slots > 0 && id !in s.used
    ensures Enabled(cfg, s, PrepareJob(sub, id, 0, Stored, false))
    ensures Apply(cfg, s, PrepareJob(sub, id, 0, Stored, false)).runners == map[id := NewRunner(sub)]
  {
  }

  /** Reuse is confined to the asking token, on every run of every daemon with these tokens,
      exactly if no token id extends another. */
  lemma ReuseIsOwnIffSeparated(cfg: Config, tokens: set<string>)
    requires cfg.slots > 0 && forall t :: t in tokens ==> ValidTokenId(t)
    ensures Separated(tokens) <==>
      forall s, es, sub, newId, outcome ::
        Init(s) && Run(cfg, s, es) && AuthenticRun(tokens, es) && Authentic(tokens, sub) ==>
        OwnReuse(cfg, After(cfg, s, es), sub, newId, outcome)
  {
    hide Init, Run, After, AuthenticRun, OwnReuse, PrepareVerdict;
    if Separated(tokens) {
      forall s, es, sub, newId, outcome |
        Init(s) && Run(cfg, s, es) && AuthenticRun(tokens, es) && Authentic(tokens, sub)
        ensures OwnReuse(cfg, After(cfg, s, es), sub, newId, outcome)
      {
        hide Authentic, Separated;
        ReuseStaysWithinToken(cfg, tokens, s, es, sub, newId, outcome);
        IsOwn(cfg, After(cfg, s, es), sub, newId, outcome);
      }
    } else {
      var t, u :| t in tokens && u in tokens && Extends(t, u);
      CollisionIffExtension(t, u);
      var k, l :| ValidControlKey(k) && ValidControlKey(l) && Join(t, k) == Join(u, l);
      CollisionReuses(cfg, t, u, k, l);
      var es := [PrepareJob(Keyed(t, k), "job-0000", 0, Stored, false)];
      OneAuthentic(tokens, es[0]);
      assert Authentic(tokens, Keyed(u, l));
    }
  }

  lemma IsOwn(cfg: Config, s: Sys, sub: Submission, newId: string, outcome: StoreOutcome)
    requires var verdict := PrepareVerdict(s.table, cfg.slots, sub, newId, outcome);
      verdict.Reused? ==> verdict.id in s.runners && s.runners[verdict.id].sub.tokenId == sub.tokenId
    ensures OwnReuse(cfg, s, sub, newId, outcome)
  {
  }

  lemma OneAuthentic(tokens: set<string>, e: Event)
    requires e.PrepareJob? && Authentic(tokens, e.sub)
    ensures AuthenticRun(tokens, [e])
  {
  }

  function Keyed(tokenId: string, key: string): Submission {
    Submission(RunRequest(Shell, "", [], User, None, "", map[], "", 0, 0, 0, 0, 0, 0, 0, key, "", false), "", tokenId, "")
  }
}
