/** The gated plan over several hosts: prechecks, then applies, then postchecks, one host after
    the other, stopping at the first command that does not succeed. */
module FleetPlan {
  import opened Types

  datatype Phase = Precheck | Apply | Postcheck

  /** Command number `index` of a phase, for host number `host`. */
  datatype Task = Task(host: nat, phase: Phase, index: nat, command: string, lockKey: string)

  /** What sending a command brings back: an exception, or a state and an exit code. */
  datatype Reply = Raised | Answer(succeeded: bool, exitCode: int)
  {
    predicate Ok() { Answer? && succeeded && exitCode == 0 }
  }

  datatype Sent = Sent(task: Task, reply: Reply)

  datatype HostResult = HostResult(host: nat, ok: bool, steps: seq<Sent>)

  datatype Outcome = Aborted | Completed(results: seq<HostResult>, returnCode: int)

  datatype Stage = Stage(phase: Phase, commands: seq<string>, lockKey: string)

  function Stages(precheck: seq<string>, apply: seq<string>, postcheck: seq<string>, lockKey: string): seq<Stage> {
    [Stage(Precheck, precheck, ""), Stage(Apply, apply, lockKey), Stage(Postcheck, postcheck, "")]
  }

  function StageTasks(host: nat, stage: Stage): seq<Task> {
    seq(|stage.commands|, k requires 0 <= k < |stage.commands| =>
      Task(host, stage.phase, k, stage.commands[k], stage.lockKey))
  }

  function HostTasks(host: nat, stages: seq<Stage>): seq<Task> {
    if stages == [] then [] else HostTasks(host, stages[..|stages| - 1]) + StageTasks(host, stages[|stages| - 1])
  }

  /** Every command for every host, in order. */
  function Plan(hosts: nat, stages: seq<Stage>): seq<Task> {
    if hosts == 0 then [] else Plan(hosts - 1, stages) + HostTasks(hosts - 1, stages)
  }

  function Tasks(sent: seq<Sent>): (r: seq<Task>)
    ensures |r| == |sent|
  {
    seq(|sent|, i requires 0 <= i < |sent| => sent[i].task)
  }

  /** `sent` follows the plan, and nothing follows a command that did not succeed. */
  ghost predicate Gated(plan: seq<Task>, sent: seq<Sent>) {
    && Tasks(sent) <= plan
    && forall i :: 0 <= i < |sent| - 1 ==> sent[i].reply.Ok()
  }

  predicate AllOk(sent: seq<Sent>) {
    forall i :: 0 <= i < |sent| ==> sent[i].reply.Ok()
  }

  /** The replies are those of the world, in the order of the sends. */
  ghost predicate Answered(replies: nat -> Reply, start: nat, sent: seq<Sent>) {
    forall i :: 0 <= i < |sent| ==> sent[i].reply == replies(start + i)
  }

  function ReturnCode(exitCode: int): (r: int)
    ensures r != 0
  {
    if 1 <= exitCode <= 125 then exitCode else 1
  }

  /** One host, from its `start`-th send on. */
  method RunHost(host: nat, stages: seq<Stage>, replies: nat -> Reply, start: nat)
      returns (sent: seq<Sent>, raised: bool, hostOk: bool, exitCode: int)
    ensures Gated(HostTasks(host, stages), sent) && Answered(replies, start, sent)
    ensures raised <==> sent != [] && sent[|sent| - 1].reply.Raised?
    ensures hostOk <==> AllOk(sent)
    ensures hostOk ==> Tasks(sent) == HostTasks(host, stages)
    ensures !raised && !hostOk ==>
      sent != [] && sent[|sent| - 1].reply.Answer? && !sent[|sent| - 1].reply.Ok() && exitCode == sent[|sent| - 1].reply.exitCode
  {
    sent, raised, hostOk, exitCode := [], false, true, 0;
    for i := 0 to |stages|
      invariant !raised && hostOk && AllOk(sent) && Answered(replies, start, sent)
      invariant Tasks(sent) == HostTasks(host, stages[..i])
    {
      var stage := stages[i];
      ghost var before := Tasks(sent);
      HostTasksPut(host, stages, i);
      TasksGrow(host, stages, i + 1);
      assert StageTasks(host, stage)[..0] == [];
      for k := 0 to |stage.commands|
        invariant !raised && hostOk && AllOk(sent) && Answered(replies, start, sent)
        invariant Tasks(sent) == before + StageTasks(host, stage)[..k]
      {
        var task := Task(host, stage.phase, k, stage.commands[k], stage.lockKey);
        assert StageTasks(host, stage)[..k + 1] == StageTasks(host, stage)[..k] + [task];
        var reply := replies(start + |sent|);
        TasksPut(sent, Sent(task, reply));
        sent := sent + [Sent(task, reply)];
        assert Tasks(sent) == before + StageTasks(host, stage)[..k + 1];
        if reply.Raised? {
          raised, hostOk := true, false;
          return;
        }
        if !reply.Ok() {
          hostOk, exitCode := false, reply.exitCode;
          break;
        }
      }
      if !hostOk {
        break;
      }
      assert StageTasks(host, stage)[..|stage.commands|] == StageTasks(host, stage);
    }
    assert stages[..|stages|] == stages;
  }

  lemma TasksPut(sent: seq<Sent>, s: Sent)
    ensures Tasks(sent + [s]) == Tasks(sent) + [s.task]
  {
  }

  lemma HostTasksPut(host: nat, stages: seq<Stage>, i: nat)
    requires i < |stages|
    ensures HostTasks(host, stages[..i + 1]) == HostTasks(host, stages[..i]) + StageTasks(host, stages[i])
  {
    assert stages[..i + 1][..i] == stages[..i];
  }

  lemma {:induction false} TasksGrow(host: nat, stages: seq<Stage>, i: nat)
    requires i <= |stages|
    ensures HostTasks(host, stages[..i]) <= HostTasks(host, stages)
    decreases |stages| - i
  {
    if i == |stages| {
      assert stages[..i] == stages;
    } else {
      HostTasksPut(host, stages, i);
      TasksGrow(host, stages, i + 1);
    }
  }

  /** All steps reported, host after host. */
  function AllSteps(results: seq<HostResult>): seq<Sent> {
    if results == [] then [] else AllSteps(results[..|results| - 1]) + results[|results| - 1].steps
  }

  lemma AllStepsPut(results: seq<HostResult>, r: HostResult)
    ensures AllSteps(results + [r]) == AllSteps(results) + r.steps
  {
    assert (results + [r])[..|results|] == results;
  }

  /** The result of host i reports that host, in plan order, and is ok if all its steps are.
      Only the last host may have failed. */
  ghost predicate Reports(stages: seq<Stage>, results: seq<HostResult>) {
    forall i :: 0 <= i < |results| ==>
      && results[i].host == i
      && (results[i].ok <==> AllOk(results[i].steps))
      && (results[i].ok ==> Tasks(results[i].steps) == HostTasks(i, stages))
      && (i < |results| - 1 ==> results[i].ok)
  }

  /** A plan that ran to its end, or to a command that answered and did not succeed. */
  ghost predicate Ended(hosts: nat, stages: seq<Stage>, results: seq<HostResult>, returnCode: int, sent: seq<Sent>) {
    && AllSteps(results) == sent
    && Reports(stages, results)
    && 0 < |results| <= hosts
    && (|results| < hosts ==> !AllOk(sent))
    && (AllOk(sent) ==> Tasks(sent) == Plan(hosts, stages) && returnCode == 0)
    && (!AllOk(sent) ==>
         && sent[|sent| - 1].reply.Answer? && !sent[|sent| - 1].reply.Ok()
         && !results[|results| - 1].ok
         && returnCode == ReturnCode(sent[|sent| - 1].reply.exitCode))
  }

  /** A plan cut short by an exception: from the last command, or over an unknown host. */
  ghost predicate CutShort(hosts: nat, known: nat -> bool, stages: seq<Stage>, sent: seq<Sent>) {
    || (sent != [] && sent[|sent| - 1].reply.Raised?)
    || (AllOk(sent) && exists h :: 0 <= h < hosts && !known(h) && Tasks(sent) == Plan(h, stages))
  }

  /** From place `at` on, as far as things were sent, the commands of one phase for one host. */
  predicate InPlace(sent: seq<Sent>, at: nat, host: nat, phase: Phase, commands: seq<string>, lockKey: string) {
    forall k :: 0 <= k < |commands| && at + k < |sent| ==> sent[at + k].task == Task(host, phase, k, commands[k], lockKey)
  }

  /** How many commands the hosts before `host` get. */
  function First(host: nat, precheck: seq<string>, apply: seq<string>, postcheck: seq<string>): nat {
    host * (|precheck| + |apply| + |postcheck|)
  }

  /** The whole command. `known` says which hosts are configured. Host after host, what is sent is
      all prechecks, all applies and all postchecks, in order, and nothing behind a command that
      did not succeed. The code is 0 exactly if all of it was sent and succeeded. */
  method CommandFleetPlan(hosts: nat, known: nat -> bool, precheck: seq<string>, apply: seq<string>,
                          postcheck: seq<string>, lockKey: string, replies: nat -> Reply)
      returns (outcome: Outcome, sent: seq<Sent>)
    ensures Gated(Plan(hosts, Stages(precheck, apply, postcheck, lockKey)), sent) && Answered(replies, 0, sent)
    ensures apply == [] || hosts == 0 ==> outcome.Aborted? && sent == []
    ensures apply != [] && hosts > 0 ==>
      match outcome
      case Aborted => CutShort(hosts, known, Stages(precheck, apply, postcheck, lockKey), sent)
      case Completed(results, code) => Ended(hosts, Stages(precheck, apply, postcheck, lockKey), results, code, sent)
    ensures |sent| <= hosts * (|precheck| + |apply| + |postcheck|)
    ensures forall h: nat :: h < hosts ==>
      && InPlace(sent, First(h, precheck, apply, postcheck), h, Precheck, precheck, "")
      && InPlace(sent, First(h, precheck, apply, postcheck) + |precheck|, h, Apply, apply, lockKey)
      && InPlace(sent, First(h, precheck, apply, postcheck) + |precheck| + |apply|, h, Postcheck, postcheck, "")
    ensures forall i :: 0 <= i < |sent| ==> sent[i].reply == replies(i) && (i < |sent| - 1 ==> sent[i].reply == Answer(true, 0))
    ensures outcome.Completed? ==>
      (outcome.returnCode == 0 <==>
         && |sent| == hosts * (|precheck| + |apply| + |postcheck|)
         && forall i :: 0 <= i < |sent| ==> sent[i].reply == Answer(true, 0))
    ensures outcome.Completed? && outcome.returnCode != 0 ==>
      && sent != [] && sent[|sent| - 1].reply.Answer? && sent[|sent| - 1].reply != Answer(true, 0)
      && var exitCode := sent[|sent| - 1].reply.exitCode;
         outcome.returnCode == if 1 <= exitCode <= 125 then exitCode else 1
  {
    hide Gated, Ended, CutShort, Plan, Stages, InPlace, Tasks, Answered, AllOk, First;
    sent := [];
    NothingSent(Stages(precheck, apply, postcheck, lockKey), replies);
    PlanStep(hosts, Stages(precheck, apply, postcheck, lockKey), 0, []);
    SentInPlace(hosts, precheck, apply, postcheck, lockKey, []);
    if apply == [] || hosts == 0 {
      return Aborted, [];
    }
    outcome, sent := RunHosts(hosts, known, Stages(precheck, apply, postcheck, lockKey), replies);
    SentInPlace(hosts, precheck, apply, postcheck, lockKey, sent);
    GatedReplies(Plan(hosts, Stages(precheck, apply, postcheck, lockKey)), sent, replies);
    if outcome.Completed? {
      EndedCode(hosts, Stages(precheck, apply, postcheck, lockKey), outcome.results, outcome.returnCode, sent);
    }
  }

  lemma GatedReplies(plan: seq<Task>, sent: seq<Sent>, replies: nat -> Reply)
    requires Gated(plan, sent) && Answered(replies, 0, sent)
    ensures forall i :: 0 <= i < |sent| ==> sent[i].reply == replies(i) && (i < |sent| - 1 ==> sent[i].reply == Answer(true, 0))
  {
  }

  lemma EndedCode(hosts: nat, stages: seq<Stage>, results: seq<HostResult>, code: int, sent: seq<Sent>)
    requires Ended(hosts, stages, results, code, sent) && Gated(Plan(hosts, stages), sent)
    ensures code == 0 <==> |sent| == |Plan(hosts, stages)| && forall i :: 0 <= i < |sent| ==> sent[i].reply == Answer(true, 0)
    ensures code != 0 ==>
      && sent != [] && sent[|sent| - 1].reply.Answer? && sent[|sent| - 1].reply != Answer(true, 0)
      && var exitCode := sent[|sent| - 1].reply.exitCode; code == if 1 <= exitCode <= 125 then exitCode else 1
  {
    hide Reports, AllSteps, Plan;
    if AllOk(sent) {
      assert |Tasks(sent)| == |sent|;
    }
  }

  /** The tasks of one host, phase by phase. */
  lemma HostTasksByPhase(host: nat, precheck: seq<string>, apply: seq<string>, postcheck: seq<string>, lockKey: string)
    ensures HostTasks(host, Stages(precheck, apply, postcheck, lockKey)) ==
      StageTasks(host, Stage(Precheck, precheck, "")) + StageTasks(host, Stage(Apply, apply, lockKey))
        + StageTasks(host, Stage(Postcheck, postcheck, ""))
  {
    hide StageTasks;
    var stages := Stages(precheck, apply, postcheck, lockKey);
    assert stages[..0] == [] && stages[..3] == stages;
    HostTasksPut(host, stages, 0);
    HostTasksPut(host, stages, 1);
    HostTasksPut(host, stages, 2);
  }

  /** Where the tasks of host `h` stand in the plan. */
  lemma {:induction false} PlanAt(hosts: nat, stages: seq<Stage>, n: nat, h: nat)
    requires forall host: nat :: |HostTasks(host, stages)| == n
    ensures |Plan(hosts, stages)| == hosts * n
    ensures h < hosts ==> 0 <= h * n && h * n + n <= hosts * n && Plan(hosts, stages)[h * n..h * n + n] == HostTasks(h, stages)
  {
    if hosts > 0 {
      PlanAt(hosts - 1, stages, n, h);
      var front, last := Plan(hosts - 1, stages), HostTasks(hosts - 1, stages);
      assert hosts * n == (hosts - 1) * n + n;
      if h == hosts - 1 {
        assert (front + last)[|front|..] == last;
      } else if h < hosts - 1 {
        assert (front + last)[h * n..h * n + n] == front[h * n..h * n + n];
      }
    }
  }

  lemma SentInPlace(hosts: nat, precheck: seq<string>, apply: seq<string>, postcheck: seq<string>, lockKey: string, sent: seq<Sent>)
    requires Gated(Plan(hosts, Stages(precheck, apply, postcheck, lockKey)), sent)
    ensures |Plan(hosts, Stages(precheck, apply, postcheck, lockKey))| == hosts * (|precheck| + |apply| + |postcheck|)
    ensures |sent| <= hosts * (|precheck| + |apply| + |postcheck|)
    ensures forall h: nat :: h < hosts ==>
      && InPlace(sent, First(h, precheck, apply, postcheck), h, Precheck, precheck, "")
      && InPlace(sent, First(h, precheck, apply, postcheck) + |precheck|, h, Apply, apply, lockKey)
      && InPlace(sent, First(h, precheck, apply, postcheck) + |precheck| + |apply|, h, Postcheck, postcheck, "")
  {
    var n, stages := |precheck| + |apply| + |postcheck|, Stages(precheck, apply, postcheck, lockKey);
    forall host: nat ensures |HostTasks(host, stages)| == n {
      HostTasksByPhase(host, precheck, apply, postcheck, lockKey);
    }
    hide *;
    PlanAt(hosts, stages, n, 0);
    SentIsPrefix(Plan(hosts, stages), sent);
    forall h: nat | h < hosts
      ensures InPlace(sent, First(h, precheck, apply, postcheck), h, Precheck, precheck, "")
      ensures InPlace(sent, First(h, precheck, apply, postcheck) + |precheck|, h, Apply, apply, lockKey)
      ensures InPlace(sent, First(h, precheck, apply, postcheck) + |precheck| + |apply|, h, Postcheck, postcheck, "")
    {
      PlanAt(hosts, stages, n, h);
      FirstIs(h, precheck, apply, postcheck);
      HostSent(Plan(hosts, stages), precheck, apply, postcheck, lockKey, sent, h);
    }
  }

  lemma FirstIs(host: nat, precheck: seq<string>, apply: seq<string>, postcheck: seq<string>)
    ensures First(host, precheck, apply, postcheck) == host * (|precheck| + |apply| + |postcheck|)
  {
  }

  lemma SentIsPrefix(plan: seq<Task>, sent: seq<Sent>)
    requires Gated(plan, sent)
    ensures |sent| <= |plan| && forall i :: 0 <= i < |sent| ==> sent[i].task == plan[i]
  {
    assert forall i :: 0 <= i < |sent| ==> Tasks(sent)[i] == sent[i].task;
  }

  lemma HostSent(plan: seq<Task>, precheck: seq<string>, apply: seq<string>, postcheck: seq<string>, lockKey: string, sent: seq<Sent>, h: nat)
    requires |sent| <= |plan| && (forall i :: 0 <= i < |sent| ==> sent[i].task == plan[i])
    requires var first, n := First(h, precheck, apply, postcheck), |precheck| + |apply| + |postcheck|;
      first + n <= |plan| && plan[first..first + n] == HostTasks(h, Stages(precheck, apply, postcheck, lockKey))
    ensures InPlace(sent, First(h, precheck, apply, postcheck), h, Precheck, precheck, "")
    ensures InPlace(sent, First(h, precheck, apply, postcheck) + |precheck|, h, Apply, apply, lockKey)
    ensures InPlace(sent, First(h, precheck, apply, postcheck) + |precheck| + |apply|, h, Postcheck, postcheck, "")
  {
    hide HostTasks, Stages, First;
    var first, n := First(h, precheck, apply, postcheck), |precheck| + |apply| + |postcheck|;
    var mine := plan[first..first + n];
    HostTasksByPhase(h, precheck, apply, postcheck, lockKey);
    assert forall k :: 0 <= k < n ==> mine[k] == plan[first + k];
    forall k | 0 <= k < |precheck| && first + k < |sent|
      ensures sent[first + k].task == Task(h, Precheck, k, precheck[k], "")
    {
      assert mine[k] == StageTasks(h, Stage(Precheck, precheck, ""))[k];
    }
    forall k | 0 <= k < |apply| && first + |precheck| + k < |sent|
      ensures sent[first + |precheck| + k].task == Task(h, Apply, k, apply[k], lockKey)
    {
      assert mine[|precheck| + k] == StageTasks(h, Stage(Apply, apply, lockKey))[k];
    }
    forall k | 0 <= k < |postcheck| && first + |precheck| + |apply| + k < |sent|
      ensures sent[first + |precheck| + |apply| + k].task == Task(h, Postcheck, k, postcheck[k], "")
    {
      assert mine[|precheck| + |apply| + k] == StageTasks(h, Stage(Postcheck, postcheck, ""))[k];
    }
  }

  /** The loop over the hosts. */
  method RunHosts(hosts: nat, known: nat -> bool, stages: seq<Stage>, replies: nat -> Reply)
      returns (outcome: Outcome, sent: seq<Sent>)
    requires hosts > 0
    ensures Gated(Plan(hosts, stages), sent) && Answered(replies, 0, sent)
    ensures match outcome
      case Aborted => CutShort(hosts, known, stages, sent)
      case Completed(results, code) => Ended(hosts, stages, results, code, sent)
  {
    hide Reports, AllSteps, Plan, HostTasks, Gated, Answered, AllOk, Tasks;
    sent := [];
    var results := [];
    NothingSent(stages, replies);
    for i := 0 to hosts
      invariant |results| == i && Reports(stages, results) && AllSteps(results) == sent
      invariant i > 0 ==> results[i - 1].ok
      invariant AllOk(sent) && Answered(replies, 0, sent) && Tasks(sent) == Plan(i, stages)
    {
      PlanStep(hosts, stages, i, sent);
      if !known(i) {
        return Aborted, sent;
      }
      var steps, raised, hostOk, exitCode := RunHost(i, stages, replies, |sent|);
      SentMore(Plan(i, stages), HostTasks(i, stages), sent, steps, replies);
      StillGated(hosts, stages, i, sent + steps);
      ReportsPut(stages, results, HostResult(i, hostOk, steps));
      sent := sent + steps;
      if raised {
        return Aborted, sent;
      }
      results := results + [HostResult(i, hostOk, steps)];
      if !hostOk {
        return Completed(results, ReturnCode(exitCode)), sent;
      }
    }
    PlanStep(hosts, stages, hosts, sent);
    return Completed(results, 0), sent;
  }

  lemma NothingSent(stages: seq<Stage>, replies: nat -> Reply)
    ensures Reports(stages, []) && AllSteps([]) == [] && AllOk([]) && Answered(replies, 0, []) && Tasks([]) == Plan(0, stages)
  {
  }

  lemma PlanStep(hosts: nat, stages: seq<Stage>, i: nat, sent: seq<Sent>)
    requires i <= hosts && AllOk(sent) && Tasks(sent) == Plan(i, stages)
    ensures Gated(Plan(hosts, stages), sent)
    ensures Plan(i + 1, stages) == Plan(i, stages) + HostTasks(i, stages)
  {
    PlanGrows(hosts, stages, i);
  }

  lemma StillGated(hosts: nat, stages: seq<Stage>, i: nat, sent: seq<Sent>)
    requires i < hosts && Gated(Plan(i, stages) + HostTasks(i, stages), sent)
    ensures Gated(Plan(hosts, stages), sent)
  {
    PlanGrows(hosts, stages, i + 1);
  }

  lemma ReportsPut(stages: seq<Stage>, results: seq<HostResult>, r: HostResult)
    requires Reports(stages, results) && (results != [] ==> results[|results| - 1].ok)
    requires r.host == |results| && (r.ok <==> AllOk(r.steps)) && (r.ok ==> Tasks(r.steps) == HostTasks(r.host, stages))
    ensures Reports(stages, results + [r])
    ensures AllSteps(results + [r]) == AllSteps(results) + r.steps
  {
    hide AllOk, Tasks, HostTasks, AllSteps;
    AllStepsPut(results, r);
    var all := results + [r];
    forall i | 0 <= i < |all|
      ensures all[i].host == i && (all[i].ok <==> AllOk(all[i].steps))
      ensures (all[i].ok ==> Tasks(all[i].steps) == HostTasks(i, stages)) && (i < |all| - 1 ==> all[i].ok)
    {
      if i < |results| {
        assert all[i] == results[i];
      }
    }
  }

  lemma {:induction false} PlanGrows(hosts: nat, stages: seq<Stage>, i: nat)
    requires i <= hosts
    ensures Plan(i, stages) <= Plan(hosts, stages)
    decreases hosts - i
  {
    if i < hosts {
      PlanGrows(hosts, stages, i + 1);
    }
  }

  /** One host's sends behind those of the hosts before it. */
  lemma SentMore(plan: seq<Task>, more: seq<Task>, sent: seq<Sent>, steps: seq<Sent>, replies: nat -> Reply)
    requires AllOk(sent) && Tasks(sent) == plan && Gated(more, steps)
    requires Answered(replies, 0, sent) && Answered(replies, |sent|, steps)
    ensures Gated(plan + more, sent + steps) && Answered(replies, 0, sent + steps)
    ensures Tasks(sent + steps) == plan + Tasks(steps)
    ensures AllOk(sent + steps) <==> AllOk(steps)
    ensures steps != [] ==> (sent + steps)[|sent + steps| - 1] == steps[|steps| - 1]
  {
    assert Tasks(sent + steps) == Tasks(sent) + Tasks(steps);
    var all := sent + steps;
    forall i | 0 <= i < |all| - 1 ensures all[i].reply.Ok() {
      assert i < |sent| ==> all[i] == sent[i];
      assert i >= |sent| ==> all[i] == steps[i - |sent|];
    }
    if AllOk(all) {
      assert forall i :: 0 <= i < |steps| ==> steps[i] == all[|sent| + i];
    }
  }

  function PhaseRank(p: Phase): nat {
    match p
    case Precheck => 0
    case Apply => 1
    case Postcheck => 2
  }

  /** Host first, then phase, then number. */
  predicate Earlier(a: Task, b: Task) {
    a.host < b.host
    || (a.host == b.host && (PhaseRank(a.phase) < PhaseRank(b.phase) || (a.phase == b.phase && a.index < b.index)))
  }

  ghost predicate InOrder(tasks: seq<Task>) {
    forall i, j :: 0 <= i < j < |tasks| ==> Earlier(tasks[i], tasks[j])
  }

  /** `t` is one of the commands the plan asks for. */
  ghost predicate Asked(hosts: nat, stages: seq<Stage>, t: Task) {
    && t.host < hosts
    && exists i :: 0 <= i < |stages| && AskedBy(stages[i], t)
  }

  predicate AskedBy(stage: Stage, t: Task) {
    t.phase == stage.phase && t.index < |stage.commands| && t.command == stage.commands[t.index] && t.lockKey == stage.lockKey
  }

  ghost predicate RanksRise(stages: seq<Stage>) {
    forall i, j :: 0 <= i < j < |stages| ==> PhaseRank(stages[i].phase) < PhaseRank(stages[j].phase)
  }

  lemma StageTasksAre(host: nat, stage: Stage)
    ensures InOrder(StageTasks(host, stage))
    ensures forall t :: t in StageTasks(host, stage) <==> t.host == host && AskedBy(stage, t)
  {
    forall t: Task | t.host == host && AskedBy(stage, t) ensures t in StageTasks(host, stage) {
      assert StageTasks(host, stage)[t.index] == t;
    }
  }

  lemma {:induction false} HostTasksAre(host: nat, stages: seq<Stage>)
    requires RanksRise(stages)
    ensures InOrder(HostTasks(host, stages))
    ensures forall t :: t in HostTasks(host, stages) <==> t.host == host && exists i :: 0 <= i < |stages| && AskedBy(stages[i], t)
  {
    if stages != [] {
      var front, last := stages[..|stages| - 1], stages[|stages| - 1];
      HostTasksAre(host, front);
      StageTasksAre(host, last);
      var a, b := HostTasks(host, front), StageTasks(host, last);
      forall x, y | x in a && y in b ensures Earlier(x, y) {
        var i :| 0 <= i < |front| && AskedBy(front[i], x);
        assert stages[i] == front[i];
      }
      OrderJoins(a, b);
      forall t: Task ensures t in a + b <==> t.host == host && exists i :: 0 <= i < |stages| && AskedBy(stages[i], t) {
        if t in a {
          var i :| 0 <= i < |front| && AskedBy(front[i], t);
          assert AskedBy(stages[i], t);
        }
        if t in b {
          assert AskedBy(stages[|stages| - 1], t);
        }
        if i :| 0 <= i < |stages| && t.host == host && AskedBy(stages[i], t) {
          assert i < |front| ==> AskedBy(front[i], t);
        }
      }
    }
  }

  lemma OrderJoins(a: seq<Task>, b: seq<Task>)
    requires InOrder(a) && InOrder(b) && forall x, y :: x in a && y in b ==> Earlier(x, y)
    ensures InOrder(a + b)
  {
    forall i, j | 0 <= i < j < |a + b| ensures Earlier((a + b)[i], (a + b)[j]) {
      if i < |a| <= j {
        assert a[i] in a && b[j - |a|] in b;
      }
    }
  }

  /** The plan holds exactly the commands asked for, each once, in order. */
  lemma {:induction false} PlanIsComplete(hosts: nat, stages: seq<Stage>)
    requires RanksRise(stages)
    ensures InOrder(Plan(hosts, stages))
    ensures forall t :: t in Plan(hosts, stages) <==> Asked(hosts, stages, t)
  {
    if hosts > 0 {
      PlanIsComplete(hosts - 1, stages);
      HostTasksAre(hosts - 1, stages);
      OrderJoins(Plan(hosts - 1, stages), HostTasks(hosts - 1, stages));
    }
  }

  lemma NotBothEarlier(a: Task, b: Task)
    ensures !(Earlier(a, b) && Earlier(b, a))
  {
  }

  /** Whatever the plan asks for before a command that was sent has itself been sent before it,
      and has succeeded. */
  lemma SentBehindSuccess(hosts: nat, stages: seq<Stage>, sent: seq<Sent>, i: nat, t: Task)
    requires RanksRise(stages) && Gated(Plan(hosts, stages), sent) && i < |sent|
    requires Asked(hosts, stages, t) && Earlier(t, sent[i].task)
    ensures exists j :: 0 <= j < i && sent[j].task == t && sent[j].reply.Ok()
  {
    var plan := Plan(hosts, stages);
    PlanIsComplete(hosts, stages);
    assert t in plan;
    var j :| 0 <= j < |plan| && plan[j] == t;
    assert Tasks(sent)[i] == plan[i];
    NotBothEarlier(plan[i], plan[j]);
    assert j < i;
    assert Tasks(sent)[j] == plan[j];
  }

  ghost predicate SucceededBefore(sent: seq<Sent>, i: nat, t: Task)
    requires i <= |sent|
  {
    exists j :: 0 <= j < i && sent[j].task == t && sent[j].reply.Ok()
  }

  /** An apply command is sent to a host only after all its prechecks and everything for all
      earlier hosts succeeded, and it alone carries the lock key. */
  lemma ApplyIsGated(hosts: nat, precheck: seq<string>, apply: seq<string>, postcheck: seq<string>, lockKey: string,
                     sent: seq<Sent>, i: nat)
    requires Gated(Plan(hosts, Stages(precheck, apply, postcheck, lockKey)), sent)
    requires i < |sent|
    ensures sent[i].task.lockKey == if sent[i].task.phase == Apply then lockKey else ""
    ensures sent[i].task.phase == Apply ==>
      && (forall k :: 0 <= k < |precheck| ==>
            SucceededBefore(sent, i, Task(sent[i].task.host, Precheck, k, precheck[k], "")))
      && (forall t :: Asked(sent[i].task.host, Stages(precheck, apply, postcheck, lockKey), t) ==> SucceededBefore(sent, i, t))
  {
    var stages := Stages(precheck, apply, postcheck, lockKey);
    var host := sent[i].task.host;
    PlanIsComplete(hosts, stages);
    assert Tasks(sent)[i] in Plan(hosts, stages);
    assert Asked(hosts, stages, sent[i].task);
    var at :| 0 <= at < |stages| && AskedBy(stages[at], sent[i].task);
    if sent[i].task.phase == Apply {
      forall k | 0 <= k < |precheck| ensures SucceededBefore(sent, i, Task(host, Precheck, k, precheck[k], "")) {
        var t := Task(host, Precheck, k, precheck[k], "");
        assert AskedBy(stages[0], t);
        SentBehindSuccess(hosts, stages, sent, i, t);
      }
      forall t | Asked(host, stages, t) ensures SucceededBefore(sent, i, t) {
        SentBehindSuccess(hosts, stages, sent, i, t);
      }
    }
  }

  datatype Counts = Counts(total: int, ok: nat, failed: nat, skipped: Option<int>)

  function OkCount(results: seq<HostResult>): nat {
    if results == [] then 0
    else OkCount(results[..|results| - 1]) + if results[|results| - 1].ok then 1 else 0
  }

  function FailedCount(results: seq<HostResult>): nat {
    if results == [] then 0
    else FailedCount(results[..|results| - 1]) + if results[|results| - 1].ok then 0 else 1
  }

  function FleetCounts(results: seq<HostResult>, total: int): Counts {
    var skipped := total - |results|;
    Counts(total, OkCount(results), FailedCount(results), if skipped > 0 then Some(skipped) else None)
  }

  /** The counts of a completed plan add up, with at most one failure, and hosts are skipped
      only behind it. */
  lemma {:induction false} CountsAddUp(stages: seq<Stage>, results: seq<HostResult>, total: nat)
    requires Reports(stages, results) && |results| <= total
    ensures var c := FleetCounts(results, total);
      && c.ok + c.failed + (if c.skipped.Some? then c.skipped.value else 0) == c.total
      && c.failed <= 1
      && (c.failed == 1 <==> results != [] && !results[|results| - 1].ok)
  {
    if results != [] {
      var front := results[..|results| - 1];
      assert Reports(stages, front);
      CountsAddUp(stages, front, total);
      assert front != [] ==> results[|front| - 1].ok;
    }
  }
}
