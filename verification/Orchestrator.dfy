/** omni/orchestrator/engine.py: scoring, assignment, completion and balancing, as functions of the
    pool of agents and the table of tasks. Both dictionaries are listed in insertion order. */
module Orchestrator {
  import opened Json

  datatype AgentType = System | Coordinator | Supervisor | Worker | Specialist

  datatype AgentStatus = Running | Idle | Waiting | Blocked | Terminated

  datatype Agent = Agent(
    id: string, name: string, agentType: AgentType, status: AgentStatus, skills: seq<string>,
    load: real, queueDepth: int, costSpent: real)

  datatype TaskStatus = Queued | Assigned | InProgress | Completed | Failed | Cancelled

  datatype Task = Task(
    id: string, requiredSkills: seq<string>, priority: int, status: TaskStatus, assignee: Option<string>, result: Json)

  datatype Pool = Pool(agents: seq<Agent>, tasks: seq<Task>)

  datatype Strategy = Balanced | CostOptimized | SpeedOptimized

  // ------------------------------------------------------------------ scoring

  function Min(a: real, b: real): real { if b < a then b else a }
  function Max(a: real, b: real): real { if a < b then b else a }

  predicate Capable(a: Agent, t: Task) {
    forall s | s in t.requiredSkills :: s in a.skills
  }

  function Score(strategy: Strategy, a: Agent, t: Task): real {
    match strategy
    case Balanced =>
      var load := a.load + (if a.queueDepth < 5 then a.queueDepth else 5) as real / 5.0 * 0.25;
      if !Capable(a, t) then -1.0
      else (1.0 - load) + (if t.priority < 10 then t.priority else 10) as real * 0.01
    case CostOptimized =>
      if !Capable(a, t) then -1.0 else 1.0 - Min(a.costSpent, 1000.0) / 1000.0
    case SpeedOptimized =>
      if !Capable(a, t) then -1.0 else 1.0 - (if a.queueDepth < 10 then a.queueDepth else 10) as real / 10.0
  }

  /** A score that is not negative proves the agent capable, whatever the strategy. */
  lemma ScoreMeansCapable(strategy: Strategy, a: Agent, t: Task)
    requires Score(strategy, a, t) >= 0.0
    ensures Capable(a, t)
  {}

  // ------------------------------------------------------------------ lookup

  function AgentIndex(agents: seq<Agent>, id: string): (r: int)
    ensures -1 <= r < |agents|
    ensures r >= 0 ==> agents[r].id == id
    ensures r < 0 ==> forall i :: 0 <= i < |agents| ==> agents[i].id != id
  {
    if agents == [] then -1
    else if agents[|agents| - 1].id == id then |agents| - 1
    else AgentIndex(agents[..|agents| - 1], id)
  }

  function TaskIndex(tasks: seq<Task>, id: string): (r: int)
    ensures -1 <= r < |tasks|
    ensures r >= 0 ==> tasks[r].id == id
    ensures r < 0 ==> forall i :: 0 <= i < |tasks| ==> tasks[i].id != id
  {
    if tasks == [] then -1
    else if tasks[|tasks| - 1].id == id then |tasks| - 1
    else TaskIndex(tasks[..|tasks| - 1], id)
  }

  // ------------------------------------------------------------------ the operations

  predicate Eligible(strategy: Strategy, a: Agent, t: Task) {
    a.status != Terminated && Score(strategy, a, t) >= 0.0
  }

  /** The best of the first `n` agents: the first to reach the highest score, or -1. */
  function Best(strategy: Strategy, agents: seq<Agent>, t: Task, n: nat): (r: int)
    requires n <= |agents|
    ensures -1 <= r < n
    ensures r >= 0 ==> Eligible(strategy, agents[r], t)
    ensures r < 0 ==> forall i :: 0 <= i < n ==> !Eligible(strategy, agents[i], t)
    ensures r >= 0 ==> forall i :: 0 <= i < n && Eligible(strategy, agents[i], t) ==>
              Score(strategy, agents[i], t) <= Score(strategy, agents[r], t)
              && (i < r ==> Score(strategy, agents[i], t) < Score(strategy, agents[r], t))
  {
    if n == 0 then -1
    else
      var b, a := Best(strategy, agents, t, n - 1), agents[n - 1];
      if !Eligible(strategy, a, t) then b
      else if b < 0 || Score(strategy, a, t) > Score(strategy, agents[b], t) then n - 1
      else b
  }

  datatype Answer = KeyError | Answered(agent: Option<string>)

  function AssignAnswer(strategy: Strategy, p: Pool, id: string): Answer {
    var j := TaskIndex(p.tasks, id);
    if j < 0 then KeyError
    else if p.tasks[j].status != Queued then Answered(p.tasks[j].assignee)
    else
      var b := Best(strategy, p.agents, p.tasks[j], |p.agents|);
      if b < 0 then Answered(None) else Answered(Some(p.agents[b].id))
  }

  function AssignedPool(strategy: Strategy, p: Pool, id: string): Pool {
    var j := TaskIndex(p.tasks, id);
    if j < 0 || p.tasks[j].status != Queued then p
    else
      var b := Best(strategy, p.agents, p.tasks[j], |p.agents|);
      if b < 0 then p else Hand(p, j, b)
  }

  /** Task `j` goes to agent `b`. */
  function Hand(p: Pool, j: nat, b: nat): Pool
    requires j < |p.tasks| && b < |p.agents|
  {
    var a := p.agents[b];
    Pool(p.agents[b := a.(queueDepth := a.queueDepth + 1, status := Running)],
         p.tasks[j := p.tasks[j].(status := Assigned, assignee := Some(a.id))])
  }

  function Less1(n: int): int { if n - 1 > 0 then n - 1 else 0 }

  /** `complete` and `fail`: the task is over, and the agent it names is released. */
  function Finished(p: Pool, id: string, status: TaskStatus, result: Json, cost: real): Pool {
    var j := TaskIndex(p.tasks, id);
    if j < 0 then p
    else
      var t := p.tasks[j];
      Pool(Released(p.agents, t.assignee, cost), p.tasks[j := t.(status := status, result := result)])
  }

  function Released(agents: seq<Agent>, assignee: Option<string>, cost: real): seq<Agent> {
    if assignee.None? || assignee.value == "" || AgentIndex(agents, assignee.value) < 0 then agents
    else
      var i := AgentIndex(agents, assignee.value);
      var a := agents[i];
      agents[i := a.(queueDepth := Less1(a.queueDepth), costSpent := a.costSpent + cost, load := Max(0.0, a.load - 0.1))]
  }

  function Beat(p: Pool, id: string, load: Option<real>, status: Option<AgentStatus>, cost: Option<real>): Pool {
    var i := AgentIndex(p.agents, id);
    if i < 0 then p
    else
      var a := p.agents[i];
      p.(agents := p.agents[i := a.(
        load := if load.None? then a.load else Max(0.0, Min(1.0, load.value)),
        status := if status.None? then a.status else status.value,
        costSpent := if cost.None? then a.costSpent else cost.value)])
  }

  /** `self._tasks[task.id] = task` */
  function Submitted(p: Pool, t: Task): Pool {
    var j := TaskIndex(p.tasks, t.id);
    if j < 0 then p.(tasks := p.tasks + [t]) else p.(tasks := p.tasks[j := t])
  }

  function NewAgent(id: string, name: string, skills: seq<string>, agentType: AgentType): Agent {
    Agent(id, name, agentType, Idle, skills, 0.0, 0, 0.0)
  }

  /** Agent ids are fresh, so registering always appends. */
  function Registered(p: Pool, a: Agent): Pool {
    p.(agents := p.agents + [a])
  }

  // ------------------------------------------------------------------ balancing

  datatype Move = Move(task: string, from: string, to: string)

  datatype Progress = Progress(pool: Pool, moves: seq<Move>)

  predicate IsOverloaded(a: Agent, high: real) { a.status != Terminated && a.load >= high && a.queueDepth > 0 }
  predicate IsUnderloaded(a: Agent, low: real) { a.status != Terminated && a.load <= low }

  function Overloaded(agents: seq<Agent>, high: real, n: nat): (r: seq<nat>)
    requires n <= |agents|
    ensures forall i :: i in r <==> 0 <= i < n && IsOverloaded(agents[i], high)
  {
    if n == 0 then []
    else
      var front := Overloaded(agents, high, n - 1);
      if IsOverloaded(agents[n - 1], high) then front + [n - 1] else front
  }

  function Underloaded(agents: seq<Agent>, low: real, n: nat): (r: seq<nat>)
    requires n <= |agents|
    ensures forall i :: i in r <==> 0 <= i < n && IsUnderloaded(agents[i], low)
  {
    if n == 0 then []
    else
      var front := Underloaded(agents, low, n - 1);
      if IsUnderloaded(agents[n - 1], low) then front + [n - 1] else front
  }

  predicate ValidIndices(indices: seq<nat>, n: nat) { forall i | i in indices :: i < n }

  /** `min(underloaded, key=load)`: the first of the least loaded. */
  function LeastLoaded(agents: seq<Agent>, under: seq<nat>): (r: nat)
    requires under != [] && ValidIndices(under, |agents|)
    ensures r in under && r < |agents|
    ensures forall i :: i in under ==> agents[r].load <= agents[i].load
  {
    if |under| == 1 then under[0]
    else
      var n := |under| - 1;
      assert under == under[..n] + [under[n]];
      assert forall i :: i in under[..n] ==> i in under;
      assert under[n] in under;
      var r := LeastLoaded(agents, under[..n]);
      if agents[under[n]].load < agents[r].load then under[n] else r
  }

  lemma LeastLoadedNext(agents: seq<Agent>, under: seq<nat>)
    requires |under| > 1 && ValidIndices(under, |agents|)
    ensures var front, last := under[..|under| - 1], under[|under| - 1];
            ValidIndices(front, |agents|) && last < |agents|
            && LeastLoaded(agents, under) ==
               if agents[last].load < agents[LeastLoaded(agents, front)].load then last else LeastLoaded(agents, front)
  {
    var front, last := under[..|under| - 1], under[|under| - 1];
    assert under == front + [last];
    assert last in under;
    forall i | i in front ensures i < |agents| { assert i in under; }
  }

  ghost predicate FirstOfLeast(agents: seq<Agent>, under: seq<nat>, i: nat)
    requires i < |under|
  {
    && (forall j :: 0 <= j < |under| ==> under[j] < |agents|)
    && (forall j :: 0 <= j < |under| ==> agents[under[i]].load <= agents[under[j]].load)
    && (forall j :: 0 <= j < i ==> agents[under[i]].load < agents[under[j]].load)
  }

  lemma FirstOfLeastNext(agents: seq<Agent>, front: seq<nat>, last: nat, i: nat)
    requires last < |agents| && i < |front| && FirstOfLeast(agents, front, i)
    ensures FirstOfLeast(agents, front + [last], if agents[last].load < agents[front[i]].load then |front| else i)
  {
    var under := front + [last];
    assert forall j :: 0 <= j < |front| ==> under[j] == front[j];
  }

  lemma LeastLoadedOne(agents: seq<Agent>, under: seq<nat>)
    requires |under| == 1 && ValidIndices(under, |agents|)
    ensures LeastLoaded(agents, under) == under[0] && FirstOfLeast(agents, under, 0)
  {
    assert under[0] in under;
  }

  /** The least loaded agent stands in front of every other of its load. */
  lemma {:induction false} LeastLoadedIsFirst(agents: seq<Agent>, under: seq<nat>) returns (i: nat)
    requires under != [] && ValidIndices(under, |agents|)
    ensures i < |under| && LeastLoaded(agents, under) == under[i] && FirstOfLeast(agents, under, i)
  {
    hide LeastLoaded, FirstOfLeast, ValidIndices;
    if |under| == 1 {
      LeastLoadedOne(agents, under);
      i := 0;
    } else {
      var front, last := under[..|under| - 1], under[|under| - 1];
      LeastLoadedNext(agents, under);
      i := LeastLoadedIsFirst(agents, front);
      FirstOfLeastNext(agents, front, last, i);
      assert under == front + [last];
      if agents[last].load < agents[front[i]].load { i := |front|; }
    }
  }

  /** Task `j` moves from agent `src` to agent `dst`. */
  function Rehomed(p: Pool, j: nat, src: nat, dst: nat): Pool
    requires j < |p.tasks| && src < |p.agents| && dst < |p.agents|
  {
    var s := p.agents[src];
    var released := p.agents[src := s.(queueDepth := Less1(s.queueDepth), load := Max(0.0, s.load - 0.1))];
    var d := released[dst];
    Pool(released[dst := d.(queueDepth := d.queueDepth + 1, load := Min(1.0, d.load + 0.1))],
         p.tasks[j := p.tasks[j].(assignee := Some(d.id), status := Assigned)])
  }

  predicate MayMove(p: Pool, j: nat, src: nat)
    requires j < |p.tasks| && src < |p.agents|
  {
    p.tasks[j].status == Assigned && p.tasks[j].assignee == Some(p.agents[src].id)
  }

  /** One round of the inner loop. */
  function Tried(strategy: Strategy, g: Progress, under: seq<nat>, src: nat, j: nat): (r: Progress)
    requires under != [] && ValidIndices(under, |g.pool.agents|)
    requires src < |g.pool.agents| && j < |g.pool.tasks|
    ensures |r.pool.agents| == |g.pool.agents| && |r.pool.tasks| == |g.pool.tasks|
  {
    if |g.moves| >= 3 || !MayMove(g.pool, j, src) then g
    else
      var dst := LeastLoaded(g.pool.agents, under);
      if Score(strategy, g.pool.agents[dst], g.pool.tasks[j]) < 0.0 then g
      else
        Progress(Rehomed(g.pool, j, src, dst),
                 g.moves + [Move(g.pool.tasks[j].id, g.pool.agents[src].id, g.pool.agents[dst].id)])
  }

  /** The inner loop over the first `n` tasks. */
  function TriedTasks(strategy: Strategy, g: Progress, under: seq<nat>, src: nat, n: nat): (r: Progress)
    requires under != [] && ValidIndices(under, |g.pool.agents|)
    requires src < |g.pool.agents| && n <= |g.pool.tasks|
    ensures |r.pool.agents| == |g.pool.agents| && |r.pool.tasks| == |g.pool.tasks|
  {
    if n == 0 then g else Tried(strategy, TriedTasks(strategy, g, under, src, n - 1), under, src, n - 1)
  }

  /** The outer loop over the overloaded agents. */
  function TriedSources(strategy: Strategy, g: Progress, under: seq<nat>, over: seq<nat>): (r: Progress)
    requires under != [] && ValidIndices(under, |g.pool.agents|) && ValidIndices(over, |g.pool.agents|)
    ensures |r.pool.agents| == |g.pool.agents| && |r.pool.tasks| == |g.pool.tasks|
  {
    if over == [] then g
    else
      var n := |over| - 1;
      assert over[n] in over && forall i :: i in over[..n] ==> i in over;
      var before := TriedSources(strategy, g, under, over[..n]);
      TriedTasks(strategy, before, under, over[n], |before.pool.tasks|)
  }

  function Balancing(strategy: Strategy, p: Pool, high: real, low: real): Progress {
    var over, under := Overloaded(p.agents, high, |p.agents|), Underloaded(p.agents, low, |p.agents|);
    if over == [] || under == [] then Progress(p, [])
    else TriedSources(strategy, Progress(p, []), under, over)
  }

  // ------------------------------------------------------------------ runs

  datatype Op =
    | Register(agent: Agent)
    | Submit(task: Task)
    | Assign(id: string)
    | Complete(id: string, result: Json, cost: real)
    | Fail(id: string, error: string, cost: real)
    | Balance(high: real, low: real)
    | Heartbeat(id: string, load: Option<real>, status: Option<AgentStatus>, spent: Option<real>)

  function Apply(strategy: Strategy, p: Pool, op: Op): Pool {
    match op
    case Register(a) => Registered(p, a)
    case Submit(t) => Submitted(p, t)
    case Assign(id) => AssignedPool(strategy, p, id)
    case Complete(id, result, cost) => Finished(p, id, Completed, result, cost)
    case Fail(id, error, cost) => Finished(p, id, Failed, Obj(map["error" := Str(error)]), cost)
    case Balance(high, low) => Balancing(strategy, p, high, low).pool
    case Heartbeat(id, load, status, spent) => Beat(p, id, load, status, spent)
  }

  function Run(strategy: Strategy, p: Pool, ops: seq<Op>): Pool {
    if ops == [] then p
    else Apply(strategy, Run(strategy, p, ops[..|ops| - 1]), ops[|ops| - 1])
  }
}
