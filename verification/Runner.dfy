/** omni/agents/runner.py: a request from submission to its answer, as a client of the orchestrator.
    The policy verdict, the fresh ids and the language model's outcome are inputs. */
module Runner {
  import opened Json
  import opened Orchestrator
  import opened Accounting
  import opened Assignments
  import opened MetaOrchestrators

  datatype Outcome = Reply(answer: string) | LlmError(error: string) | Crash

  datatype Call = Call(skills: seq<string>, taskId: string, workerId: string, workerName: string)

  function NewTask(c: Call): Task {
    Task(c.taskId, c.skills, 0, Queued, None, Null)
  }

  function FallbackWorker(c: Call): Agent {
    NewAgent(c.workerId, c.workerName, if c.skills == [] then ["chat"] else c.skills, Worker)
  }

  datatype Setup = Setup(pool: Pool, agent: string)

  /** The part of `_setup` that touches the orchestrator: submit, assign, and on failure register a
      worker of the right skill and assign again. */
  function SetUp(strategy: Strategy, p: Pool, c: Call): Setup {
    var p1 := Submitted(p, NewTask(c));
    var first := AssignAnswer(strategy, p1, c.taskId);
    var p2 := AssignedPool(strategy, p1, c.taskId);
    if first.Answered? && first.agent.Some? && first.agent.value != "" && AgentIndex(p2.agents, first.agent.value) >= 0 then
      Setup(p2, first.agent.value)
    else
      var p3 := Registered(p2, FallbackWorker(c));
      Setup(AssignedPool(strategy, p3, c.taskId), c.workerId)
  }

  /** The pool when `run` ends; a crash is an exception `run` does not catch. */
  function Served(strategy: Strategy, p: Pool, c: Call, outcome: Outcome): Pool {
    Settled(SetUp(strategy, p, c).pool, c, outcome)
  }

  function Settled(p: Pool, c: Call, outcome: Outcome): Pool {
    match outcome
    case Reply(answer) => Finished(p, c.taskId, Completed, Obj(map["answer" := Str(answer)]), 0.0)
    case LlmError(error) => Finished(p, c.taskId, Failed, Obj(map["error" := Str(error)]), 0.0)
    case Crash => p
  }

  ghost predicate FreshCall(p: Pool, c: Call) {
    && TaskIndex(p.tasks, c.taskId) < 0 && AgentIndex(p.agents, c.workerId) < 0
    && c.workerId != "" && c.taskId != ""
  }

  // ------------------------------------------------------------------ set-up

  lemma FallbackWins(strategy: Strategy, agents: seq<Agent>, c: Call)
    requires Best(strategy, agents, NewTask(c), |agents|) < 0
    ensures Best(strategy, agents + [FallbackWorker(c)], NewTask(c), |agents| + 1) == |agents|
  {
  }

  /** Task `c` has been added to the pool and handed to the named agent; the books are kept. */
  ghost predicate HandedTo(p: Pool, s: Setup, c: Call) {
    && Sound(s.pool)
    && s.pool.tasks == p.tasks + [NewTask(c).(status := Assigned, assignee := Some(s.agent))]
    && AgentIndex(s.pool.agents, s.agent) >= 0
    && |p.agents| <= |s.pool.agents|
    && (forall i :: 0 <= i < |p.agents| ==> SameAgent(p.agents[i], s.pool.agents[i]))
  }

  lemma HandNewTask(p: Pool, q: Pool, c: Call, b: nat)
    requires Sound(q) && q.tasks == p.tasks + [NewTask(c)] && b < |q.agents| && Capable(q.agents[b], NewTask(c))
    requires |p.agents| <= |q.agents| && forall i :: 0 <= i < |p.agents| ==> SameAgent(p.agents[i], q.agents[i])
    ensures HandedTo(p, Setup(Hand(q, |p.tasks|, b), q.agents[b].id), c)
  {
    HandKeeps(q, |p.tasks|, b);
  }

  /** The second `assign` hands the task to the new worker. */
  lemma FallbackPicked(strategy: Strategy, p: Pool, c: Call)
    requires FreshCall(p, c) && Best(strategy, p.agents, NewTask(c), |p.agents|) < 0
    ensures var p3 := Registered(Submitted(p, NewTask(c)), FallbackWorker(c));
            p3 == Pool(p.agents + [FallbackWorker(c)], p.tasks + [NewTask(c)])
            && AssignedPool(strategy, p3, c.taskId) == Hand(p3, |p.tasks|, |p.agents|)
  {
    hide Best, Score, Hand;
    FallbackWins(strategy, p.agents, c);
    var p3 := Registered(Submitted(p, NewTask(c)), FallbackWorker(c));
    assert p3.tasks[|p.tasks|].id == c.taskId && TaskIndex(p3.tasks, c.taskId) == |p.tasks|;
  }

  lemma {:induction false} FallbackHands(strategy: Strategy, p: Pool, c: Call)
    requires Sound(p) && FreshCall(p, c)
    requires Best(strategy, p.agents, NewTask(c), |p.agents|) < 0
    ensures var p3 := Registered(Submitted(p, NewTask(c)), FallbackWorker(c));
            HandedTo(p, Setup(AssignedPool(strategy, p3, c.taskId), c.workerId), c)
  {
    hide Best, Score, Hand, AssignedPool, HandedTo, Sound;
    SubmitKeeps(p, NewTask(c));
    RegisterKeeps(Submitted(p, NewTask(c)), FallbackWorker(c));
    FallbackPicked(strategy, p, c);
    HandNewTask(p, Registered(Submitted(p, NewTask(c)), FallbackWorker(c)), c, |p.agents|);
  }

  lemma FirstAssign(strategy: Strategy, p: Pool, c: Call)
    requires FreshCall(p, c)
    ensures var p1 := Submitted(p, NewTask(c));
            var b := Best(strategy, p.agents, NewTask(c), |p.agents|);
            if b < 0 then AssignAnswer(strategy, p1, c.taskId) == Answered(None) && AssignedPool(strategy, p1, c.taskId) == p1
            else AssignAnswer(strategy, p1, c.taskId) == Answered(Some(p.agents[b].id))
                 && AssignedPool(strategy, p1, c.taskId) == Hand(p1, |p.tasks|, b)
  {
  }

  lemma {:induction false} DirectHands(strategy: Strategy, p: Pool, c: Call)
    requires Sound(p) && FreshCall(p, c)
    requires Best(strategy, p.agents, NewTask(c), |p.agents|) >= 0
    ensures var b := Best(strategy, p.agents, NewTask(c), |p.agents|);
            HandedTo(p, Setup(Hand(Submitted(p, NewTask(c)), |p.tasks|, b), p.agents[b].id), c)
  {
    var b := Best(strategy, p.agents, NewTask(c), |p.agents|);
    SubmitKeeps(p, NewTask(c));
    ScoreMeansCapable(strategy, p.agents[b], NewTask(c));
    HandNewTask(p, Submitted(p, NewTask(c)), c, b);
  }

  /** The agent `_setup` reports is the one the task is assigned to, on both paths. */
  lemma {:induction false} SetUpAssigns(strategy: Strategy, p: Pool, c: Call)
    requires Sound(p) && FreshCall(p, c)
    ensures HandedTo(p, SetUp(strategy, p, c), c)
  {
    hide HandedTo, AssignedPool, AssignAnswer, Hand, Registered, FallbackWorker;
    FirstAssign(strategy, p, c);
    var b := Best(strategy, p.agents, NewTask(c), |p.agents|);
    if b < 0 {
      FallbackHands(strategy, p, c);
    } else {
      DirectHands(strategy, p, c);
      assert p.agents[b].id != "";
    }
  }

  /** The task a call submits, and once it is handed to an agent. */
  function Asked(c: Call): Task { Task(c.taskId, c.skills, 0, Queued, None, Null) }

  function TakenBy(c: Call, agent: string): Task { Asked(c).(status := Assigned, assignee := Some(agent)) }

  /** The worker that is made when nobody can take the task: it has the one task, and the skills asked
      for, or else chat. */
  function NewWorker(c: Call): Agent {
    Agent(c.workerId, c.workerName, Worker, Running, if c.skills == [] then ["chat"] else c.skills, 0.0, 1, 0.0)
  }

  ghost predicate SomeoneCan(strategy: Strategy, p: Pool, c: Call) {
    exists i :: 0 <= i < |p.agents| && CanTake(strategy, p.agents[i], Asked(c))
  }

  /** `_setup`, in full: the task goes to the first agent of least burden that can take it, and to a
      new worker exactly if there is none. */
  lemma SetUpExactly(strategy: Strategy, p: Pool, c: Call) returns (b: nat)
    requires Sound(p) && FreshCall(p, c)
    ensures var s := SetUp(strategy, p, c);
            if SomeoneCan(strategy, p, c) then
              IsBest(strategy, p.agents, Asked(c), b)
              && var a := p.agents[b];
                 s == Setup(Pool(p.agents[b := a.(queueDepth := a.queueDepth + 1, status := Running)],
                                 p.tasks + [TakenBy(c, a.id)]), a.id)
            else s == Setup(Pool(p.agents + [NewWorker(c)], p.tasks + [TakenBy(c, c.workerId)]), c.workerId)
  {
    hide Best, SetUp, Sound, FreshCall;
    b := 0;
    BestIs(strategy, p.agents, Asked(c));
    var k := Best(strategy, p.agents, Asked(c), |p.agents|);
    if k >= 0 {
      b := k;
      DirectIsHanded(strategy, p, c);
    } else {
      FallbackIsHanded(strategy, p, c);
    }
  }

  lemma DirectIsHanded(strategy: Strategy, p: Pool, c: Call)
    requires Sound(p) && FreshCall(p, c) && Best(strategy, p.agents, Asked(c), |p.agents|) >= 0
    ensures var b := Best(strategy, p.agents, Asked(c), |p.agents|);
            var a := p.agents[b];
            SetUp(strategy, p, c) ==
            Setup(Pool(p.agents[b := a.(queueDepth := a.queueDepth + 1, status := Running)], p.tasks + [TakenBy(c, a.id)]), a.id)
  {
    hide Best, AssignAnswer, AssignedPool;
    assert NewTask(c) == Asked(c);
    FirstAssign(strategy, p, c);
    var b := Best(strategy, p.agents, Asked(c), |p.agents|);
    var q := Hand(Submitted(p, NewTask(c)), |p.tasks|, b);
    assert q.agents[b].id == p.agents[b].id != "";
  }

  lemma FallbackIsHanded(strategy: Strategy, p: Pool, c: Call)
    requires FreshCall(p, c) && Best(strategy, p.agents, Asked(c), |p.agents|) < 0
    ensures SetUp(strategy, p, c) ==
            Setup(Pool(p.agents + [NewWorker(c)], p.tasks + [TakenBy(c, c.workerId)]), c.workerId)
  {
    hide Best, AssignAnswer, AssignedPool;
    assert NewTask(c) == Asked(c);
    FirstAssign(strategy, p, c);
    FallbackAssigned(strategy, p, c);
  }

  lemma FallbackAssigned(strategy: Strategy, p: Pool, c: Call)
    requires FreshCall(p, c) && Best(strategy, p.agents, Asked(c), |p.agents|) < 0
    ensures var p3 := Registered(Submitted(p, NewTask(c)), FallbackWorker(c));
            AssignedPool(strategy, p3, c.taskId) == Pool(p.agents + [NewWorker(c)], p.tasks + [TakenBy(c, c.workerId)])
  {
    hide Best, Score, AssignedPool;
    FallbackPicked(strategy, p, c);
    var p3 := Registered(Submitted(p, NewTask(c)), FallbackWorker(c));
    assert Hand(p3, |p.tasks|, |p.agents|).agents == p.agents + [NewWorker(c)];
  }

  // ------------------------------------------------------------------ the whole run

  /** Every agent known before has the depth it had, and any new one is idle. */
  ghost predicate DepthsRestored(p: Pool, p': Pool) {
    && |p.agents| <= |p'.agents|
    && (forall i :: 0 <= i < |p.agents| ==> p'.agents[i].id == p.agents[i].id && p'.agents[i].queueDepth == p.agents[i].queueDepth)
    && (forall i :: |p.agents| <= i < |p'.agents| ==> p'.agents[i].queueDepth == 0)
  }

  lemma EndedTaskHoldsNobody(p: Pool, p': Pool)
    requires Sound(p) && Sound(p') && |p.agents| <= |p'.agents|
    requires forall i :: 0 <= i < |p.agents| ==> p'.agents[i].id == p.agents[i].id
    requires |p'.tasks| == |p.tasks| + 1 && p'.tasks[..|p.tasks|] == p.tasks && p'.tasks[|p.tasks|].status != Assigned
    ensures DepthsRestored(p, p')
  {
    forall i | 0 <= i < |p'.agents| ensures p'.agents[i].queueDepth == Held(p.tasks, p'.agents[i].id) {
      assert p'.tasks == p.tasks + [p'.tasks[|p.tasks|]];
      HeldAppend(p.tasks, p'.tasks[|p.tasks|], p'.agents[i].id);
    }
    forall i | |p.agents| <= i < |p'.agents| ensures Held(p.tasks, p'.agents[i].id) == 0 {
      forall j | 0 <= j < |p.tasks| ensures !Counts(p.tasks[j], p'.agents[i].id) {
        if p.tasks[j].status == Assigned {
          assert IsHeldBy(p.tasks[j], p.agents);
          var k :| 0 <= k < |p.agents| && p.tasks[j].assignee == Some(p.agents[k].id) && Capable(p.agents[k], p.tasks[j]);
          assert p'.agents[k].id == p.agents[k].id;
        }
      }
      HeldNone(p.tasks, p'.agents[i].id);
    }
  }

  lemma {:induction false} FinishEnds(p: Pool, s: Setup, c: Call, status: TaskStatus, result: Json)
    requires Sound(p) && FreshCall(p, c) && HandedTo(p, s, c) && (status == Completed || status == Failed)
    ensures var p' := Finished(s.pool, c.taskId, status, result, 0.0);
            && Sound(p') && DepthsRestored(p, p')
            && |p'.tasks| == |p.tasks| + 1 && p'.tasks[|p.tasks|].id == c.taskId && p'.tasks[|p.tasks|].status == status
  {
    hide Sound, DepthsRestored;
    assert TaskIndex(s.pool.tasks, c.taskId) == |p.tasks|;
    FinishKeepsExactly(s.pool, c.taskId, status, result, 0.0);
    ReleasedSame(s.pool.agents, s.pool.tasks[|p.tasks|].assignee, 0.0);
    EndedTaskHoldsNobody(p, Finished(s.pool, c.taskId, status, result, 0.0));
  }

  /** A run that returns leaves every queue as it found it and its task ended. A run that ends in
      any other exception does not: its agent keeps a slot for a task nobody will finish. */
  lemma {:induction false} RunConserves(strategy: Strategy, p: Pool, c: Call, outcome: Outcome)
    requires Sound(p) && FreshCall(p, c)
    ensures var p' := Served(strategy, p, c, outcome);
            && Sound(p') && |p'.tasks| == |p.tasks| + 1 && p'.tasks[|p.tasks|].id == c.taskId
            && (DepthsRestored(p, p') <==> !outcome.Crash?)
            && (outcome.Reply? ==> p'.tasks[|p.tasks|].status == Completed)
            && (outcome.LlmError? ==> p'.tasks[|p.tasks|].status == Failed)
  {
    var s := SetUp(strategy, p, c);
    SetUpAssigns(strategy, p, c);
    match outcome
    case Reply(answer) => FinishEnds(p, s, c, Completed, Obj(map["answer" := Str(answer)]));
    case LlmError(error) => FinishEnds(p, s, c, Failed, Obj(map["error" := Str(error)]));
    case Crash => CrashLeaks(p, s, c);
  }

  /** What a call leaves: its task, last in the table, with the answer or the error as its result. */
  lemma RunLeaves(strategy: Strategy, p: Pool, c: Call, outcome: Outcome)
    requires Sound(p) && FreshCall(p, c)
    ensures var s, p' := SetUp(strategy, p, c), Served(strategy, p, c, outcome);
            var t := TakenBy(c, s.agent);
            && |p'.tasks| == |p.tasks| + 1 && p'.tasks[..|p.tasks|] == p.tasks
            && p'.tasks[|p.tasks|] == match outcome
                                      case Reply(answer) => t.(status := Completed, result := Obj(map["answer" := Str(answer)]))
                                      case LlmError(error) => t.(status := Failed, result := Obj(map["error" := Str(error)]))
                                      case Crash => t
  {
    hide AssignedPool, AssignAnswer, Best, Sound;
    var b := SetUpExactly(strategy, p, c);
    var s := SetUp(strategy, p, c);
    assert TaskIndex(s.pool.tasks, c.taskId) == |p.tasks|;
  }

  lemma CrashLeaks(p: Pool, s: Setup, c: Call)
    requires Sound(p) && HandedTo(p, s, c)
    ensures !DepthsRestored(p, s.pool)
  {
    var i := AgentIndex(s.pool.agents, s.agent);
    HeldAppend(p.tasks, s.pool.tasks[|p.tasks|], s.agent);
    assert s.pool.agents[i].queueDepth == Held(p.tasks, s.agent) + 1;
    if i < |p.agents| {
      assert SameAgent(p.agents[i], s.pool.agents[i]);
      assert p.agents[i].queueDepth == Held(p.tasks, p.agents[i].id);
    }
  }

  // ------------------------------------------------------------------ the client

  datatype RunResult = Denied | Done(task: string, answer: string) | Broken(task: string, error: string) | Raised

  function ResultOf(c: Call, outcome: Outcome): RunResult {
    match outcome
    case Reply(answer) => Done(c.taskId, answer)
    case LlmError(error) => Broken(c.taskId, error)
    case Crash => Raised
  }

  class AgentRunner {
    const orchestrator: MetaOrchestrator

    constructor (orchestrator: MetaOrchestrator)
      ensures this.orchestrator == orchestrator
    {
      this.orchestrator := orchestrator;
    }

    /** `_setup` after the policy has allowed the request. */
    method Prepare(c: Call) returns (agent: string)
      modifies orchestrator
      ensures orchestrator.Now() == SetUp(orchestrator.strategy, old(orchestrator.Now()), c).pool
      ensures agent == SetUp(orchestrator.strategy, old(orchestrator.Now()), c).agent
    {
      orchestrator.SubmitTask(NewTask(c));
      var answer := orchestrator.AssignTask(c.taskId);
      if answer.Answered? && answer.agent.Some? && answer.agent.value != ""
         && AgentIndex(orchestrator.agents, answer.agent.value) >= 0
      {
        return answer.agent.value;
      }
      var worker := orchestrator.RegisterAgent(c.workerId, c.workerName, if c.skills == [] then ["chat"] else c.skills, Worker);
      var _ := orchestrator.AssignTask(c.taskId);
      agent := worker.id;
    }

    /** `run` */
    method RunCall(allowed: bool, c: Call, outcome: Outcome) returns (r: RunResult)
      modifies orchestrator
      ensures !allowed ==> r == Denied && orchestrator.Now() == old(orchestrator.Now())
      ensures allowed ==> orchestrator.Now() == Served(orchestrator.strategy, old(orchestrator.Now()), c, outcome)
      ensures allowed ==> r == ResultOf(c, outcome)
    {
      if !allowed {
        return Denied;
      }
      var agent := Prepare(c);
      r := Settle(c, outcome);
    }

    /** The end of `run`, once the model has answered or failed. */
    method Settle(c: Call, outcome: Outcome) returns (r: RunResult)
      modifies orchestrator
      ensures orchestrator.Now() == Settled(old(orchestrator.Now()), c, outcome)
      ensures r == ResultOf(c, outcome)
    {
      match outcome
      case LlmError(error) =>
        var _ := orchestrator.FailTask(c.taskId, error, 0.0);
        r := Broken(c.taskId, error);
      case Reply(answer) =>
        var _ := orchestrator.CompleteTask(c.taskId, Obj(map["answer" := Str(answer)]), 0.0);
        r := Done(c.taskId, answer);
      case Crash =>
        r := Raised;
    }
  }
}
