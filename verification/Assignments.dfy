/** What assigning, finishing and a heartbeat do to the pool, and what the scores prefer. */
module Assignments {
  import opened Json
  import opened Orchestrator

  // ------------------------------------------------------------------ scores

  predicate HasSkills(a: Agent, t: Task) { forall s | s in t.requiredSkills :: s in a.skills }

  function AtMostOf(n: int, cap: int): int { if n < cap then n else cap }

  /** What speaks against an agent: its load and queue, its spend, or its queue; each up to a cap. */
  function Burden(strategy: Strategy, a: Agent): real {
    match strategy
    case Balanced => a.load + AtMostOf(a.queueDepth, 5) as real * 0.05
    case CostOptimized => if a.costSpent < 1000.0 then a.costSpent else 1000.0
    case SpeedOptimized => AtMostOf(a.queueDepth, 10) as real
  }

  /** A running agent with the skills can take a task; under the balanced strategy only while its
      burden is at most one, and a hundredth more for each step of the task's priority up to ten. */
  predicate CanTake(strategy: Strategy, a: Agent, t: Task) {
    && a.status != Terminated && HasSkills(a, t)
    && (strategy.Balanced? ==> Burden(strategy, a) <= 1.0 + AtMostOf(t.priority, 10) as real * 0.01)
  }

  lemma EligibleExactly(strategy: Strategy, a: Agent, t: Task)
    ensures Eligible(strategy, a, t) <==> CanTake(strategy, a, t)
  {
    QueueShare(a.queueDepth);
  }

  lemma QueueShare(n: int)
    ensures (if n < 5 then n else 5) as real / 5.0 * 0.25 == AtMostOf(n, 5) as real * 0.05
  {
  }

  /** Of two agents with the skills, the one with the smaller burden scores higher. */
  lemma LighterScoresHigher(strategy: Strategy, a: Agent, b: Agent, t: Task)
    requires HasSkills(a, t) && HasSkills(b, t)
    ensures Score(strategy, a, t) > Score(strategy, b, t) <==> Burden(strategy, a) < Burden(strategy, b)
  {
    QueueShare(a.queueDepth);
    QueueShare(b.queueDepth);
  }

  /** A score is what the burden leaves of one, and of the priority's allowance; without the skills it
      is -1. */
  lemma ScoreIs(strategy: Strategy, a: Agent, t: Task)
    ensures !HasSkills(a, t) ==> Score(strategy, a, t) == -1.0
    ensures HasSkills(a, t) ==>
              match strategy
              case Balanced => Score(strategy, a, t) + Burden(strategy, a) == 1.0 + AtMostOf(t.priority, 10) as real * 0.01
              case CostOptimized => Score(strategy, a, t) * 1000.0 + Burden(strategy, a) == 1000.0
              case SpeedOptimized => Score(strategy, a, t) * 10.0 + Burden(strategy, a) == 10.0
  {
    QueueShare(a.queueDepth);
  }

  // ------------------------------------------------------------------ assign

  /** The first agent of least burden among those that can take the task. */
  ghost predicate IsBest(strategy: Strategy, agents: seq<Agent>, t: Task, b: nat) {
    && b < |agents| && CanTake(strategy, agents[b], t)
    && forall i :: 0 <= i < |agents| && CanTake(strategy, agents[i], t) ==>
         Burden(strategy, agents[b]) <= Burden(strategy, agents[i])
         && (i < b ==> Burden(strategy, agents[b]) < Burden(strategy, agents[i]))
  }

  lemma BestIs(strategy: Strategy, agents: seq<Agent>, t: Task)
    ensures var b := Best(strategy, agents, t, |agents|);
            if b >= 0 then IsBest(strategy, agents, t, b)
            else forall i :: 0 <= i < |agents| ==> !CanTake(strategy, agents[i], t)
  {
    hide Best, Score, Eligible;
    var b := Best(strategy, agents, t, |agents|);
    forall i | 0 <= i < |agents| ensures Eligible(strategy, agents[i], t) <==> CanTake(strategy, agents[i], t) {
      EligibleExactly(strategy, agents[i], t);
    }
    if b >= 0 {
      forall i | 0 <= i < |agents| && CanTake(strategy, agents[i], t)
        ensures Burden(strategy, agents[b]) <= Burden(strategy, agents[i])
        ensures i < b ==> Burden(strategy, agents[b]) < Burden(strategy, agents[i])
      {
        LighterScoresHigher(strategy, agents[i], agents[b], t);
        LighterScoresHigher(strategy, agents[b], agents[i], t);
      }
    }
  }

  /** `assign`, in full. An unknown task is an error, and one that is not queued stays with whom it
      names. A queued task goes to the first agent of least burden that can take it, which then runs
      with one more task in its queue; if none can, nothing changes. */
  lemma AssignExactly(strategy: Strategy, p: Pool, id: string) returns (b: nat)
    ensures var j := TaskIndex(p.tasks, id);
            var answer, p' := AssignAnswer(strategy, p, id), AssignedPool(strategy, p, id);
            if j < 0 then answer == KeyError && p' == p
            else if p.tasks[j].status != Queued then answer == Answered(p.tasks[j].assignee) && p' == p
            else if exists i :: 0 <= i < |p.agents| && CanTake(strategy, p.agents[i], p.tasks[j]) then
              var t := p.tasks[j];
              IsBest(strategy, p.agents, t, b)
              && var a := p.agents[b];
                 answer == Answered(Some(a.id))
                 && p' == Pool(p.agents[b := a.(queueDepth := a.queueDepth + 1, status := Running)],
                               p.tasks[j := t.(status := Assigned, assignee := Some(a.id))])
            else answer == Answered(None) && p' == p
  {
    hide Best;
    b := 0;
    var j := TaskIndex(p.tasks, id);
    if j >= 0 && p.tasks[j].status == Queued {
      BestIs(strategy, p.agents, p.tasks[j]);
      var k := Best(strategy, p.agents, p.tasks[j], |p.agents|);
      if k >= 0 { b := k; }
    }
  }

  /** `submit`, in full: the task comes last in the table, or takes the place of one with its id; no
      agent changes. */
  lemma SubmitExactly(p: Pool, t: Task)
    ensures var p' := Submitted(p, t);
            && p'.agents == p.agents
            && ((forall j :: 0 <= j < |p.tasks| ==> p.tasks[j].id != t.id) ==> p'.tasks == p.tasks + [t])
            && ((exists j :: 0 <= j < |p.tasks| && p.tasks[j].id == t.id) ==>
                  exists j :: 0 <= j < |p.tasks| && p.tasks[j].id == t.id && p'.tasks == p.tasks[j := t])
  {
    var j := TaskIndex(p.tasks, t.id);
    if j >= 0 { assert p.tasks[j].id == t.id; }
  }

  // ------------------------------------------------------------------ complete, fail, heartbeat

  /** An agent that is rid of one task: one less in its queue and a tenth less of load, neither below
      zero, and the cost added to what it spent. */
  function Relieved(a: Agent, cost: real): Agent {
    a.(queueDepth := if a.queueDepth > 0 then a.queueDepth - 1 else 0,
       load := if a.load > 0.1 then a.load - 0.1 else 0.0,
       costSpent := a.costSpent + cost)
  }

  /** `complete` and `fail`, in full: the task has its status and result, the agent it names, if there
      is one, is relieved, and nothing else changes. */
  lemma FinishExactly(p: Pool, id: string, status: TaskStatus, result: Json, cost: real)
    ensures var j, p' := TaskIndex(p.tasks, id), Finished(p, id, status, result, cost);
            if j < 0 then p' == p
            else
              var t := p.tasks[j];
              && p'.tasks == p.tasks[j := t.(status := status, result := result)]
              && |p'.agents| == |p.agents|
              && forall i :: 0 <= i < |p.agents| ==>
                   p'.agents[i] == if t.assignee.Some? && t.assignee.value != "" && i == AgentIndex(p.agents, t.assignee.value)
                                   then Relieved(p.agents[i], cost) else p.agents[i]
  {
  }

  /** `heartbeat`, in full: the agent's load, brought between zero and one, its status and its spend
      are what is given, and what is not given stays. */
  lemma BeatExactly(p: Pool, id: string, load: Option<real>, status: Option<AgentStatus>, cost: Option<real>)
    ensures var i, p' := AgentIndex(p.agents, id), Beat(p, id, load, status, cost);
            if i < 0 then p' == p
            else
              var a := p'.agents[i];
              && p' == p.(agents := p.agents[i := a])
              && a == p.agents[i].(load := a.load, status := a.status, costSpent := a.costSpent)
              && a.load == (if load.None? then p.agents[i].load
                            else if load.value < 0.0 then 0.0 else if load.value > 1.0 then 1.0 else load.value)
              && a.status == (if status.None? then p.agents[i].status else status.value)
              && a.costSpent == (if cost.None? then p.agents[i].costSpent else cost.value)
  {
  }
}
