/** A gated plan run with one idempotency key, against daemons that look the key up. The CLI
    sends the same key with every command of the plan. */
module KeyedPlan {
  import opened Types
  import opened Lifecycle
  import opened Protocol
  import opened Invariant
  import opened Reachability
  import opened History
  import opened Retries
  import Fleet = FleetPlan

  /** One send as the daemon of its host takes it: the submission it becomes, the state it finds
      and how its preparation goes. */
  datatype Arrival = Arrival(cfg: Config, state: Sys, sub: Submission, newId: string, now: int, outcome: StoreOutcome, leftover: bool)
  {
    function Verdict(): Verdict { PrepareVerdict(state.table, cfg.slots, sub, newId, outcome) }

    function Prepared(): Sys { Admission(cfg, state, sub, newId, now, outcome, leftover) }

    ghost predicate Possible() { Reachable(cfg, state) && newId !in state.used }
  }

  /** `b` reaches the same daemon some run after `a` did. */
  ghost predicate Onwards(a: Arrival, b: Arrival) {
    a.cfg == b.cfg && exists es :: Run(a.cfg, a.Prepared(), es) && After(a.cfg, a.Prepared(), es) == b.state
  }

  /** Or the daemon was started anew in between, perhaps with other settings. It takes no job id
      that was used before. */
  predicate Restarted(a: Arrival, b: Arrival) {
    a.Verdict().Admitted? || a.Verdict().Reused? ==> a.Verdict().id !in b.state.table.recs
  }

  ghost predicate Later(a: Arrival, b: Arrival) {
    Onwards(a, b) || Restarted(a, b)
  }

  /** The sends of a plan with the key `key` and their arrivals. Requests to one host differ only
      in command and lock key, so their hashes do too. Whatever is neither admitted nor reused
      is answered with an error status, which the CLI raises. */
  ghost predicate Arrive(key: string, tokens: nat -> string, hash: (nat, string, string) -> string,
                         sent: seq<Fleet.Sent>, arrivals: seq<Arrival>)
  {
    && key != "" && |arrivals| == |sent|
    && (forall i :: 0 <= i < |sent| ==>
          && arrivals[i].Possible()
          && arrivals[i].sub.req.idempotencyKey == key && arrivals[i].sub.req.lockKey == sent[i].task.lockKey
          && arrivals[i].sub.tokenId == tokens(sent[i].task.host)
          && arrivals[i].sub.hash == hash(sent[i].task.host, sent[i].task.command, sent[i].task.lockKey)
          && (sent[i].reply.Answer? ==> arrivals[i].Verdict().Admitted? || arrivals[i].Verdict().Reused?))
    && (forall i, j :: 0 <= i < j < |sent| && sent[i].task.host == sent[j].task.host ==> Later(arrivals[i], arrivals[j]))
  }

  /** The job an answered send got carries the send's key and hash, for good. */
  lemma AnsweredJob(a: Arrival, b: Arrival)
    requires a.Possible() && Onwards(a, b) && a.sub.req.idempotencyKey != ""
    requires a.Verdict().Admitted? || a.Verdict().Reused?
    ensures var id := a.Verdict().id;
      && id in b.state.runners && b.state.runners[id].sub.req.idempotencyKey != ""
      && b.state.runners[id].sub.Key() == a.sub.Key() && b.state.runners[id].sub.hash == a.sub.hash
  {
    var id, s, s1 := a.Verdict().id, a.state, a.Prepared();
    var es :| Run(a.cfg, s1, es) && After(a.cfg, s1, es) == b.state;
    hide Reachable, Run, After, Inv, PrepareVerdict, Admission, Onwards;
    ReachableInv(a.cfg, s);
    PrepareKeepsInv(a.cfg, s, a.sub, a.newId, a.now, a.outcome, a.leftover);
    ReusedHasKey(a.cfg, s, a.sub, a.newId, a.outcome);
    PrepareNames(s.table, a.cfg.slots, a.sub, a.newId, a.outcome);
    AdmissionShape(a.cfg, s, a.sub, a.newId, a.now, a.outcome, a.leftover);
    JobsKeysOf(a.cfg, s);
    assert id in s1.runners && id in s1.table.recs;
    RunFollows(a.cfg, s1, es, id);
  }

  lemma JobsKeysOf(cfg: Config, s: Sys)
    requires Inv(cfg, s)
    ensures s.runners.Keys == s.table.recs.Keys && s.table.jobs <= s.table.recs.Keys
  {
  }

  /** While the job of an earlier send to a host is in memory, a later send to that host with
      another command or lock key raises, and one with the same is answered with the earlier
      job instead of being executed. */
  lemma LaterSendMeetsEarlierJob(key: string, tokens: nat -> string, hash: (nat, string, string) -> string,
                                 sent: seq<Fleet.Sent>, arrivals: seq<Arrival>, i: nat, j: nat)
    requires Arrive(key, tokens, hash, sent, arrivals) && i < j < |sent|
    requires sent[i].task.host == sent[j].task.host && sent[i].reply.Answer?
    requires arrivals[i].Verdict().id in arrivals[j].state.table.jobs
    ensures arrivals[j].Verdict() ==
      if arrivals[j].sub.hash == arrivals[i].sub.hash then Reused(arrivals[i].Verdict().id) else IdempotencyConflict
    ensures arrivals[j].sub.hash != arrivals[i].sub.hash ==> sent[j].reply.Raised?
  {
    hide Reachable, Onwards, PrepareVerdict, Inv;
    var a, b := arrivals[i], arrivals[j];
    assert Later(a, b);
    ReachableInv(b.cfg, b.state);
    JobsKeysOf(b.cfg, b.state);
    AnsweredJob(a, b);
    RetainedJobAnswers(b.cfg, b.state, a.Verdict().id, b.sub, b.newId, b.outcome);
  }

  /** And a send is so answered only while some job with its key is in memory; otherwise it is
      executed, or refused over its lock, the slots or the store. */
  lemma SendIsAnsweredIff(key: string, tokens: nat -> string, hash: (nat, string, string) -> string,
                          sent: seq<Fleet.Sent>, arrivals: seq<Arrival>, j: nat)
    requires Arrive(key, tokens, hash, sent, arrivals) && j < |sent|
    ensures arrivals[j].Verdict().Reused? || arrivals[j].Verdict().IdempotencyConflict? <==>
      exists id :: Claims(arrivals[j].state, id, arrivals[j].sub)
  {
    hide Reachable, Later, PrepareVerdict, Claims;
    var b := arrivals[j];
    AnsweredIffRetained(b.cfg, b.state, b.sub, b.newId, b.outcome);
  }

  /** So a plan with a key runs to its end only if every daemon had forgotten the job of each
      command before a different one reached it. */
  lemma KeyedPlanNeedsForgetting(key: string, tokens: nat -> string, hash: (nat, string, string) -> string,
                                 hosts: nat, stages: seq<Fleet.Stage>, results: seq<Fleet.HostResult>, code: int,
                                 sent: seq<Fleet.Sent>, arrivals: seq<Arrival>)
    requires Fleet.Gated(Fleet.Plan(hosts, stages), sent) && Fleet.Ended(hosts, stages, results, code, sent)
    requires Arrive(key, tokens, hash, sent, arrivals)
    ensures forall i, j :: (0 <= i < j < |sent| && sent[i].task.host == sent[j].task.host
                            && arrivals[i].sub.hash != arrivals[j].sub.hash) ==>
      && (arrivals[i].Verdict().Admitted? || arrivals[i].Verdict().Reused?)
      && arrivals[i].Verdict().id !in arrivals[j].state.table.jobs
  {
    hide Reachable, Later, PrepareVerdict;
    forall i, j | 0 <= i < j < |sent| && sent[i].task.host == sent[j].task.host
      && arrivals[i].sub.hash != arrivals[j].sub.hash
      ensures arrivals[i].Verdict().Admitted? || arrivals[i].Verdict().Reused?
      ensures arrivals[i].Verdict().id !in arrivals[j].state.table.jobs
    {
      assert sent[i].reply.Ok() && sent[j].reply.Answer?;
      if arrivals[i].Verdict().id in arrivals[j].state.table.jobs {
        LaterSendMeetsEarlierJob(key, tokens, hash, sent, arrivals, i, j);
      }
    }
  }
}
