/** omni/orchestrator/engine.py: the orchestrator as an object. */
module MetaOrchestrators {
  import opened Json
  import opened Orchestrator

  class MetaOrchestrator {
    var agents: seq<Agent>
    var tasks: seq<Task>
    const strategy: Strategy

    function Now(): Pool
      reads this
    {
      Pool(agents, tasks)
    }

    constructor (strategy: Strategy)
      ensures this.strategy == strategy && Now() == Pool([], [])
    {
      this.strategy := strategy;
      agents, tasks := [], [];
    }

    /** `register_agent`, given the fresh id the source draws. */
    method RegisterAgent(id: string, name: string, skills: seq<string>, agentType: AgentType) returns (a: Agent)
      modifies this`agents
      ensures a == NewAgent(id, name, skills, agentType)
      ensures Now() == Apply(strategy, old(Now()), Register(a))
    {
      a := NewAgent(id, name, skills, agentType);
      agents := agents + [a];
    }

    method SubmitTask(t: Task)
      modifies this`tasks
      ensures Now() == Apply(strategy, old(Now()), Submit(t))
    {
      var j := TaskIndex(tasks, t.id);
      if j < 0 {
        tasks := tasks + [t];
      } else {
        tasks := tasks[j := t];
      }
    }

    /** The loop of `assign`: the first agent to reach the highest score, or -1. */
    method PickAgent(task: Task) returns (best: int)
      ensures best == Best(strategy, agents, task, |agents|)
    {
      var score := 0.0;
      best := -1;
      for i := 0 to |agents|
        invariant best == Best(strategy, agents, task, i)
        invariant best >= 0 ==> score == Score(strategy, agents[best], task)
      {
        if agents[i].status != Terminated {
          var s := Score(strategy, agents[i], task);
          if s >= 0.0 && (best < 0 || s > score) {
            best, score := i, s;
          }
        }
      }
    }

    /** `assign` */
    method AssignTask(id: string) returns (answer: Answer)
      modifies this
      ensures answer == AssignAnswer(strategy, old(Now()), id)
      ensures Now() == Apply(strategy, old(Now()), Assign(id))
    {
      var j := TaskIndex(tasks, id);
      if j < 0 {
        return KeyError;
      }
      var task := tasks[j];
      if task.status != Queued {
        return Answered(task.assignee);
      }
      var best := PickAgent(task);
      if best < 0 {
        return Answered(None);
      }
      var agent := agents[best];
      tasks := tasks[j := task.(status := Assigned, assignee := Some(agent.id))];
      agents := agents[best := agent.(queueDepth := agent.queueDepth + 1, status := Running)];
      answer := Answered(Some(agent.id));
    }

    /** The part `complete` and `fail` share. False where the source raises KeyError. */
    method Finish(id: string, status: TaskStatus, result: Json, cost: real) returns (known: bool)
      modifies this
      ensures known <==> TaskIndex(old(tasks), id) >= 0
      ensures Now() == Finished(old(Now()), id, status, result, cost)
    {
      var j := TaskIndex(tasks, id);
      if j < 0 {
        return false;
      }
      var task := tasks[j].(status := status, result := result);
      tasks := tasks[j := task];
      if task.assignee.Some? && task.assignee.value != "" {
        var i := AgentIndex(agents, task.assignee.value);
        if i >= 0 {
          var a := agents[i];
          var depth := if a.queueDepth - 1 > 0 then a.queueDepth - 1 else 0;
          agents := agents[i := a.(queueDepth := depth, costSpent := a.costSpent + cost, load := Max(0.0, a.load - 0.1))];
        }
      }
      known := true;
    }

    method CompleteTask(id: string, result: Json, cost: real) returns (known: bool)
      modifies this
      ensures Now() == Apply(strategy, old(Now()), Complete(id, result, cost))
    {
      known := Finish(id, Completed, result, cost);
    }

    method FailTask(id: string, error: string, cost: real) returns (known: bool)
      modifies this
      ensures Now() == Apply(strategy, old(Now()), Fail(id, error, cost))
    {
      known := Finish(id, Failed, Obj(map["error" := Str(error)]), cost);
    }

    method BeatAgent(id: string, load: Option<real>, status: Option<AgentStatus>, spent: Option<real>) returns (known: bool)
      modifies this`agents
      ensures Now() == Apply(strategy, old(Now()), Heartbeat(id, load, status, spent))
    {
      var i := AgentIndex(agents, id);
      if i < 0 {
        return false;
      }
      var a := agents[i];
      if load.Some? { a := a.(load := Max(0.0, Min(1.0, load.value))); }
      if status.Some? { a := a.(status := status.value); }
      if spent.Some? { a := a.(costSpent := spent.value); }
      agents := agents[i := a];
      known := true;
    }

    /** `balance` */
    method BalanceLoad(high: real, low: real) returns (moves: seq<Move>)
      modifies this
      ensures moves == Balancing(strategy, old(Now()), high, low).moves
      ensures Now() == Apply(strategy, old(Now()), Balance(high, low))
    {
      var over, under := Overloaded(agents, high, |agents|), Underloaded(agents, low, |agents|);
      moves := [];
      if over == [] || under == [] {
        return;
      }
      ghost var start := Progress(Now(), []);
      for k := 0 to |over|
        invariant |agents| == |start.pool.agents| && ValidIndices(over[..k], |agents|)
        invariant Progress(Now(), moves) == TriedSources(strategy, start, under, over[..k])
      {
        assert over[k] in over && over[..k + 1] == over[..k] + [over[k]] && over[..k + 1][..k] == over[..k];
        moves := BalanceFrom(over[k], under, moves);
      }
      assert over[..|over|] == over;
    }

    /** One round of the inner loop of `balance`: the task moves if the agent holds it and the least
        loaded agent can take it. */
    method TryTask(j: nat, src: nat, under: seq<nat>, moves0: seq<Move>) returns (moves: seq<Move>)
      requires j < |tasks| && src < |agents| && under != [] && ValidIndices(under, |agents|) && |moves0| < 3
      modifies this
      ensures |agents| == |old(agents)| && |tasks| == |old(tasks)|
      ensures Progress(Now(), moves) == Tried(strategy, Progress(old(Now()), moves0), under, src, j)
    {
      moves := moves0;
      var task := tasks[j];
      if task.status == Assigned && task.assignee == Some(agents[src].id) {
        var dst := LeastLoaded(agents, under);
        if Score(strategy, agents[dst], task) >= 0.0 {
          var from, to := agents[src].id, agents[dst].id;
          tasks := tasks[j := task.(assignee := Some(to), status := Assigned)];
          var s := agents[src];
          agents := agents[src := s.(queueDepth := Less1(s.queueDepth), load := Max(0.0, s.load - 0.1))];
          var d := agents[dst];
          agents := agents[dst := d.(queueDepth := d.queueDepth + 1, load := Min(1.0, d.load + 0.1))];
          moves := moves + [Move(task.id, from, to)];
        }
      }
    }

    /** The inner loop of `balance`, for one overloaded agent. */
    method BalanceFrom(src: nat, under: seq<nat>, moves0: seq<Move>) returns (moves: seq<Move>)
      requires src < |agents| && under != [] && ValidIndices(under, |agents|)
      modifies this
      ensures |agents| == |old(agents)|
      ensures Progress(Now(), moves) == TriedTasks(strategy, Progress(old(Now()), moves0), under, src, |old(tasks)|)
    {
      hide Tried;
      moves := moves0;
      ghost var start := Progress(Now(), moves0);
      var n := |tasks|;
      for j := 0 to n
        invariant |agents| == |start.pool.agents| && |tasks| == n
        invariant Progress(Now(), moves) == TriedTasks(strategy, start, under, src, j)
      {
        if |moves| >= 3 {
          FullStaysPut(start, under, src, j, n);
          return;
        }
        moves := TryTask(j, src, under, moves);
      }
    }

    /** After three moves the rest of the loop does nothing, which is why the source may leave it early. */
    lemma {:induction false} FullStaysPut(g: Progress, under: seq<nat>, src: nat, j: nat, n: nat)
      requires under != [] && ValidIndices(under, |g.pool.agents|)
      requires src < |g.pool.agents| && j <= n <= |g.pool.tasks|
      requires |TriedTasks(strategy, g, under, src, j).moves| >= 3
      ensures TriedTasks(strategy, g, under, src, n) == TriedTasks(strategy, g, under, src, j)
    {
      if j < n { FullStaysPut(g, under, src, j, n - 1); }
    }
  }
}
