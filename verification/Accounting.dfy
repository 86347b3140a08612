/** The task table and the agents' queue depths agree in every run. */
module Accounting {
  import opened Json
  import opened Orchestrator

  predicate Counts(t: Task, id: string) { t.status == Assigned && t.assignee == Some(id) }

  /** The ASSIGNED tasks that name an agent. */
  function Held(tasks: seq<Task>, id: string): nat {
    if tasks == [] then 0
    else Held(tasks[..|tasks| - 1], id) + if Counts(tasks[|tasks| - 1], id) then 1 else 0
  }

  ghost predicate DistinctIds(p: Pool) {
    && (forall i, j :: 0 <= i < j < |p.agents| ==> p.agents[i].id != p.agents[j].id)
    && (forall i, j :: 0 <= i < j < |p.tasks| ==> p.tasks[i].id != p.tasks[j].id)
    && (forall i :: 0 <= i < |p.agents| ==> p.agents[i].id != "")
  }

  ghost predicate DepthsAgree(p: Pool) {
    forall i :: 0 <= i < |p.agents| ==> p.agents[i].queueDepth == Held(p.tasks, p.agents[i].id)
  }

  ghost predicate IsHeldBy(t: Task, agents: seq<Agent>) {
    exists i :: 0 <= i < |agents| && t.assignee == Some(agents[i].id) && Capable(agents[i], t)
  }

  ghost predicate AssigneesAble(p: Pool) {
    forall j :: 0 <= j < |p.tasks| && p.tasks[j].status == Assigned ==> IsHeldBy(p.tasks[j], p.agents)
  }

  ghost predicate Sound(p: Pool) { DistinctIds(p) && DepthsAgree(p) && AssigneesAble(p) }

  // ------------------------------------------------------------------ small steps

  lemma {:induction false} HeldUpdate(tasks: seq<Task>, j: nat, t: Task, id: string)
    requires j < |tasks|
    ensures Held(tasks[j := t], id) + (if Counts(tasks[j], id) then 1 else 0) == Held(tasks, id) + (if Counts(t, id) then 1 else 0)
  {
    var n := |tasks| - 1;
    if j == n {
      assert tasks[j := t][..n] == tasks[..n];
    } else {
      assert tasks[j := t][..n] == tasks[..n][j := t];
      HeldUpdate(tasks[..n], j, t, id);
    }
  }

  lemma HeldAppend(tasks: seq<Task>, t: Task, id: string)
    ensures Held(tasks + [t], id) == Held(tasks, id) + if Counts(t, id) then 1 else 0
  {
    assert (tasks + [t])[..|tasks|] == tasks;
  }

  lemma {:induction false} HeldPositive(tasks: seq<Task>, j: nat, id: string)
    requires j < |tasks| && Counts(tasks[j], id)
    ensures Held(tasks, id) > 0
  {
    if j < |tasks| - 1 { HeldPositive(tasks[..|tasks| - 1], j, id); }
  }

  lemma {:induction false} HeldNone(tasks: seq<Task>, id: string)
    requires forall j :: 0 <= j < |tasks| ==> !Counts(tasks[j], id)
    ensures Held(tasks, id) == 0
  {
    if tasks != [] { HeldNone(tasks[..|tasks| - 1], id); }
  }

  /** Two agents that answer for the same tasks. */
  predicate SameAgent(a: Agent, b: Agent) { a.id == b.id && a.skills == b.skills }

  ghost predicate SameAgents(xs: seq<Agent>, ys: seq<Agent>) {
    |xs| == |ys| && forall i :: 0 <= i < |xs| ==> SameAgent(xs[i], ys[i])
  }

  lemma HeldByStays(t: Task, xs: seq<Agent>, ys: seq<Agent>)
    requires SameAgents(xs, ys)
    ensures IsHeldBy(t, xs) <==> IsHeldBy(t, ys)
  {
    if IsHeldBy(t, xs) {
      var i :| 0 <= i < |xs| && t.assignee == Some(xs[i].id) && Capable(xs[i], t);
      assert Capable(ys[i], t);
    }
    if IsHeldBy(t, ys) {
      var i :| 0 <= i < |ys| && t.assignee == Some(ys[i].id) && Capable(ys[i], t);
      assert Capable(xs[i], t);
    }
  }

  /** Changing one task's status or assignee, and agents only in what does not identify them. */
  lemma TaskChange(p: Pool, p': Pool, j: nat)
    requires DistinctIds(p) && AssigneesAble(p) && SameAgents(p.agents, p'.agents) && j < |p.tasks|
    requires |p'.tasks| == |p.tasks| && p'.tasks == p.tasks[j := p'.tasks[j]]
    requires p'.tasks[j].id == p.tasks[j].id
    requires p'.tasks[j].status == Assigned ==> IsHeldBy(p'.tasks[j], p'.agents)
    ensures DistinctIds(p') && AssigneesAble(p')
  {
    forall k | 0 <= k < |p'.tasks| && p'.tasks[k].status == Assigned ensures IsHeldBy(p'.tasks[k], p'.agents) {
      if k != j { HeldByStays(p.tasks[k], p.agents, p'.agents); }
    }
  }

  // ------------------------------------------------------------------ each operation

  lemma HandKeeps(p: Pool, j: nat, b: nat)
    requires Sound(p) && j < |p.tasks| && b < |p.agents|
    requires p.tasks[j].status != Assigned && Capable(p.agents[b], p.tasks[j])
    ensures Sound(Hand(p, j, b))
  {
    var p' := Hand(p, j, b);
    assert IsHeldBy(p'.tasks[j], p'.agents) by { assert Capable(p'.agents[b], p'.tasks[j]); }
    TaskChange(p, p', j);
    forall i | 0 <= i < |p'.agents| ensures p'.agents[i].queueDepth == Held(p'.tasks, p'.agents[i].id) {
      HeldUpdate(p.tasks, j, p'.tasks[j], p.agents[i].id);
    }
  }

  lemma AssignKeeps(strategy: Strategy, p: Pool, id: string)
    requires Sound(p)
    ensures Sound(AssignedPool(strategy, p, id))
  {
    var j := TaskIndex(p.tasks, id);
    if j >= 0 && p.tasks[j].status == Queued {
      var b := Best(strategy, p.agents, p.tasks[j], |p.agents|);
      if b >= 0 {
        ScoreMeansCapable(strategy, p.agents[b], p.tasks[j]);
        HandKeeps(p, j, b);
      }
    }
  }

  /** The agent a finished task releases, if any. */
  function ReleasedIndex(p: Pool, id: string): int {
    var j := TaskIndex(p.tasks, id);
    if j < 0 || p.tasks[j].assignee.None? || p.tasks[j].assignee.value == "" then -1
    else AgentIndex(p.agents, p.tasks[j].assignee.value)
  }

  lemma ReleasedSame(agents: seq<Agent>, assignee: Option<string>, cost: real)
    ensures SameAgents(agents, Released(agents, assignee, cost))
  {}

  lemma FinishedDepth(p: Pool, id: string, status: TaskStatus, result: Json, cost: real, i: nat)
    requires Sound(p) && TaskIndex(p.tasks, id) >= 0 && i < |p.agents| && status != Assigned
    ensures var p' := Finished(p, id, status, result, cost);
            var held := p.tasks[TaskIndex(p.tasks, id)].status == Assigned;
            && p'.agents[i].id == p.agents[i].id
            && (ReleasedIndex(p, id) != i ==>
                  p'.agents[i].queueDepth == p.agents[i].queueDepth == Held(p'.tasks, p.agents[i].id))
            && (ReleasedIndex(p, id) == i ==>
                  && p'.agents[i].queueDepth == Less1(p.agents[i].queueDepth)
                  && Held(p'.tasks, p.agents[i].id) == p.agents[i].queueDepth - (if held then 1 else 0))
  {
    var j := TaskIndex(p.tasks, id);
    var p' := Finished(p, id, status, result, cost);
    HeldUpdate(p.tasks, j, p'.tasks[j], p.agents[i].id);
    if Counts(p.tasks[j], p.agents[i].id) {
      assert AgentIndex(p.agents, p.agents[i].id) == i;
    }
  }

  /** Finishing a task keeps the books exactly when it was ASSIGNED, or names nobody who still holds
      work: completing a task twice, or one that was never assigned, releases somebody else's slot. */
  lemma FinishKeepsExactly(p: Pool, id: string, status: TaskStatus, result: Json, cost: real)
    requires Sound(p) && TaskIndex(p.tasks, id) >= 0 && status != Assigned
    ensures Sound(Finished(p, id, status, result, cost)) <==>
            (p.tasks[TaskIndex(p.tasks, id)].status == Assigned
             || ReleasedIndex(p, id) < 0
             || p.agents[ReleasedIndex(p, id)].queueDepth == 0)
  {
    var j, r := TaskIndex(p.tasks, id), ReleasedIndex(p, id);
    var p' := Finished(p, id, status, result, cost);
    ReleasedSame(p.agents, p.tasks[j].assignee, cost);
    TaskChange(p, p', j);
    forall i | 0 <= i < |p.agents|
      ensures p'.agents[i].queueDepth == Held(p'.tasks, p'.agents[i].id) <==>
                (r != i || p.tasks[j].status == Assigned || p.agents[i].queueDepth == 0)
    {
      FinishedDepth(p, id, status, result, cost, i);
      if r == i && p.tasks[j].status == Assigned { HeldPositive(p.tasks, j, p.agents[i].id); }
    }
    if Sound(p') && r >= 0 {
      assert p'.agents[r].queueDepth == Held(p'.tasks, p'.agents[r].id);
    }
  }

  lemma RegisterKeeps(p: Pool, a: Agent)
    requires Sound(p) && a.id != "" && a.queueDepth == 0 && AgentIndex(p.agents, a.id) < 0
    ensures Sound(Registered(p, a))
  {
    var p' := Registered(p, a);
    forall j | 0 <= j < |p.tasks| ensures !Counts(p.tasks[j], a.id) {
      if p.tasks[j].status == Assigned {
        assert IsHeldBy(p.tasks[j], p.agents);
      }
    }
    HeldNone(p.tasks, a.id);
    forall j | 0 <= j < |p'.tasks| && p'.tasks[j].status == Assigned ensures IsHeldBy(p'.tasks[j], p'.agents) {
      assert IsHeldBy(p.tasks[j], p.agents);
      var i :| 0 <= i < |p.agents| && p.tasks[j].assignee == Some(p.agents[i].id) && Capable(p.agents[i], p.tasks[j]);
      assert p'.agents[i] == p.agents[i];
    }
  }

  lemma SubmitKeeps(p: Pool, t: Task)
    requires Sound(p) && TaskIndex(p.tasks, t.id) < 0 && t.status == Queued
    ensures Sound(Submitted(p, t))
  {
    var p' := Submitted(p, t);
    forall i | 0 <= i < |p.agents| ensures Held(p'.tasks, p.agents[i].id) == Held(p.tasks, p.agents[i].id) {
      HeldAppend(p.tasks, t, p.agents[i].id);
    }
    forall j | 0 <= j < |p'.tasks| && p'.tasks[j].status == Assigned ensures IsHeldBy(p'.tasks[j], p'.agents) {
      assert p'.tasks[j] == p.tasks[j];
    }
  }

  lemma BeatKeeps(p: Pool, id: string, load: Option<real>, status: Option<AgentStatus>, cost: Option<real>)
    requires Sound(p)
    ensures Sound(Beat(p, id, load, status, cost))
  {
    var p' := Beat(p, id, load, status, cost);
    assert SameAgents(p.agents, p'.agents);
    forall j | 0 <= j < |p'.tasks| && p'.tasks[j].status == Assigned ensures IsHeldBy(p'.tasks[j], p'.agents) {
      HeldByStays(p.tasks[j], p.agents, p'.agents);
    }
  }

  lemma RehomedKeeps(p: Pool, j: nat, src: nat, dst: nat)
    requires Sound(p) && j < |p.tasks| && src < |p.agents| && dst < |p.agents|
    requires MayMove(p, j, src) && Capable(p.agents[dst], p.tasks[j])
    ensures Sound(Rehomed(p, j, src, dst))
  {
    var p' := Rehomed(p, j, src, dst);
    assert SameAgents(p.agents, p'.agents);
    assert IsHeldBy(p'.tasks[j], p'.agents) by { assert Capable(p'.agents[dst], p'.tasks[j]); }
    TaskChange(p, p', j);
    HeldPositive(p.tasks, j, p.agents[src].id);
    forall i | 0 <= i < |p'.agents| ensures p'.agents[i].queueDepth == Held(p'.tasks, p'.agents[i].id) {
      HeldUpdate(p.tasks, j, p'.tasks[j], p.agents[i].id);
    }
  }

  lemma {:induction false} TriedKeeps(strategy: Strategy, g: Progress, under: seq<nat>, src: nat, j: nat)
    requires Sound(g.pool) && under != [] && ValidIndices(under, |g.pool.agents|)
    requires src < |g.pool.agents| && j < |g.pool.tasks|
    ensures Sound(Tried(strategy, g, under, src, j).pool)
  {
    if |g.moves| < 3 && MayMove(g.pool, j, src) {
      var dst := LeastLoaded(g.pool.agents, under);
      if Score(strategy, g.pool.agents[dst], g.pool.tasks[j]) >= 0.0 {
        ScoreMeansCapable(strategy, g.pool.agents[dst], g.pool.tasks[j]);
        RehomedKeeps(g.pool, j, src, dst);
      }
    }
  }

  lemma {:induction false} TriedTasksKeep(strategy: Strategy, g: Progress, under: seq<nat>, src: nat, n: nat)
    requires Sound(g.pool) && under != [] && ValidIndices(under, |g.pool.agents|)
    requires src < |g.pool.agents| && n <= |g.pool.tasks|
    ensures Sound(TriedTasks(strategy, g, under, src, n).pool)
  {
    hide Tried, Sound;
    if n > 0 {
      TriedTasksKeep(strategy, g, under, src, n - 1);
      TriedKeeps(strategy, TriedTasks(strategy, g, under, src, n - 1), under, src, n - 1);
    }
  }

  lemma {:induction false} TriedSourcesKeep(strategy: Strategy, g: Progress, under: seq<nat>, over: seq<nat>)
    requires Sound(g.pool) && under != [] && ValidIndices(under, |g.pool.agents|) && ValidIndices(over, |g.pool.agents|)
    ensures Sound(TriedSources(strategy, g, under, over).pool)
  {
    hide TriedTasks, Sound;
    if over != [] {
      var n := |over| - 1;
      assert over[n] in over && forall i :: i in over[..n] ==> i in over;
      TriedSourcesKeep(strategy, g, under, over[..n]);
      var before := TriedSources(strategy, g, under, over[..n]);
      TriedTasksKeep(strategy, before, under, over[n], |before.pool.tasks|);
    }
  }

  /** Balancing keeps the books whatever its thresholds. */
  lemma BalanceKeeps(strategy: Strategy, p: Pool, high: real, low: real)
    requires Sound(p)
    ensures Sound(Balancing(strategy, p, high, low).pool)
  {
    var over, under := Overloaded(p.agents, high, |p.agents|), Underloaded(p.agents, low, |p.agents|);
    if over != [] && under != [] { TriedSourcesKeep(strategy, Progress(p, []), under, over); }
  }

  // ------------------------------------------------------------------ runs

  /** What the source asks of its callers: fresh ids, tasks submitted QUEUED, and only ASSIGNED tasks finished. */
  ghost predicate Proper(p: Pool, op: Op) {
    match op
    case Register(a) => a.id != "" && a.queueDepth == 0 && AgentIndex(p.agents, a.id) < 0
    case Submit(t) => TaskIndex(p.tasks, t.id) < 0 && t.status == Queued
    case Complete(id, _, _) => TaskIndex(p.tasks, id) >= 0 ==> p.tasks[TaskIndex(p.tasks, id)].status == Assigned
    case Fail(id, _, _) => TaskIndex(p.tasks, id) >= 0 ==> p.tasks[TaskIndex(p.tasks, id)].status == Assigned
    case _ => true
  }

  ghost predicate ProperRun(strategy: Strategy, p: Pool, ops: seq<Op>) {
    ops == [] ||
    (ProperRun(strategy, p, ops[..|ops| - 1]) && Proper(Run(strategy, p, ops[..|ops| - 1]), ops[|ops| - 1]))
  }

  lemma {:induction false} ApplyKeeps(strategy: Strategy, p: Pool, op: Op)
    requires Sound(p) && Proper(p, op)
    ensures Sound(Apply(strategy, p, op))
  {
    match op
    case Register(a) => RegisterKeeps(p, a);
    case Submit(t) => SubmitKeeps(p, t);
    case Assign(id) => AssignKeeps(strategy, p, id);
    case Complete(id, result, cost) => if TaskIndex(p.tasks, id) >= 0 { FinishKeepsExactly(p, id, Completed, result, cost); }
    case Fail(id, error, cost) =>
      if TaskIndex(p.tasks, id) >= 0 { FinishKeepsExactly(p, id, Failed, Obj(map["error" := Str(error)]), cost); }
    case Balance(high, low) => BalanceKeeps(strategy, p, high, low);
    case Heartbeat(id, load, status, spent) => BeatKeeps(p, id, load, status, spent);
  }

  /** In every run and for every strategy, each agent's queue depth is the number of ASSIGNED tasks
      that name it, and each of those tasks is held by a registered agent with all its skills. */
  lemma {:induction false} RunKeepsAccounts(strategy: Strategy, p: Pool, ops: seq<Op>)
    requires Sound(p) && ProperRun(strategy, p, ops)
    ensures Sound(Run(strategy, p, ops))
  {
    if ops != [] {
      RunKeepsAccounts(strategy, p, ops[..|ops| - 1]);
      ApplyKeeps(strategy, Run(strategy, p, ops[..|ops| - 1]), ops[|ops| - 1]);
    }
  }

  // ------------------------------------------------------------------ completing a task twice

  /** Completing an assigned task a second time breaks the books exactly when its agent holds another. */
  lemma CompletingTwice(p: Pool, id: string, result: Json, again: Json, cost: real)
    requires Sound(p) && TaskIndex(p.tasks, id) >= 0 && p.tasks[TaskIndex(p.tasks, id)].status == Assigned
    ensures ReleasedIndex(p, id) >= 0 && p.agents[ReleasedIndex(p, id)].queueDepth >= 1
    ensures Sound(Finished(Finished(p, id, Completed, result, cost), id, Completed, again, cost)) <==>
            p.agents[ReleasedIndex(p, id)].queueDepth == 1
  {
    var j, r := TaskIndex(p.tasks, id), ReleasedIndex(p, id);
    var p' := Finished(p, id, Completed, result, cost);
    assert IsHeldBy(p.tasks[j], p.agents);
    HeldPositive(p.tasks, j, p.agents[r].id);
    FinishKeepsExactly(p, id, Completed, result, cost);
    SameTask(p, id, Completed, result, cost);
    FinishedDepth(p, id, Completed, result, cost, r);
    FinishKeepsExactly(p', id, Completed, again, cost);
  }

  lemma SameTask(p: Pool, id: string, status: TaskStatus, result: Json, cost: real)
    requires Sound(p) && TaskIndex(p.tasks, id) >= 0
    ensures var p' := Finished(p, id, status, result, cost);
            TaskIndex(p'.tasks, id) == TaskIndex(p.tasks, id)
            && p'.tasks[TaskIndex(p'.tasks, id)].status == status
            && ReleasedIndex(p', id) == ReleasedIndex(p, id)
  {
    var j, p' := TaskIndex(p.tasks, id), Finished(p, id, status, result, cost);
    assert p'.tasks[j].id == id;
    var a := p.tasks[j].assignee;
    ReleasedSame(p.agents, a, cost);
    if a.Some? && a.value != "" && AgentIndex(p.agents, a.value) >= 0 {
      assert p'.agents[AgentIndex(p.agents, a.value)].id == a.value;
    }
  }

  const CARRIER := NewAgent("a", "a", [], Worker)
  const FIRST := Task("t", [], 0, Queued, None, Null)
  const SECOND := Task("u", [], 0, Queued, None, Null)
  const BOTH_SUBMITTED: seq<Op> := [Register(CARRIER)] + [Submit(FIRST)] + [Submit(SECOND)]
  const BOTH_ASSIGNED: seq<Op> := BOTH_SUBMITTED + [Assign("t")] + [Assign("u")]

  function Busy(depth: int): Agent { CARRIER.(queueDepth := depth, status := Running) }

  function Taken(t: Task): Task { t.(status := Assigned, assignee := Some("a")) }

  lemma RunNext(strategy: Strategy, p: Pool, ops: seq<Op>, op: Op)
    ensures Run(strategy, p, ops + [op]) == Apply(strategy, Run(strategy, p, ops), op)
  {
    assert (ops + [op])[..|ops|] == ops;
  }

  lemma OneCarrier(strategy: Strategy, a: Agent, p: Pool, j: nat)
    requires p.agents == [a] && j < |p.tasks| && TaskIndex(p.tasks, p.tasks[j].id) == j
    requires p.tasks[j].status == Queued && Eligible(strategy, a, p.tasks[j])
    ensures AssignedPool(strategy, p, p.tasks[j].id) == Hand(p, j, 0)
  {
    assert Best(strategy, p.agents, p.tasks[j], 1) == 0;
  }

  lemma BothSubmitted(strategy: Strategy)
    ensures Run(strategy, Pool([], []), BOTH_SUBMITTED) == Pool([CARRIER], [FIRST, SECOND])
  {
    hide Run;
    var none: seq<Op> := [];
    RunNothing(strategy);
    assert none + [Register(CARRIER)] == [Register(CARRIER)];
    RunNext(strategy, Pool([], []), none, Register(CARRIER));
    RunNext(strategy, Pool([], []), [Register(CARRIER)], Submit(FIRST));
    RunNext(strategy, Pool([], []), [Register(CARRIER)] + [Submit(FIRST)], Submit(SECOND));
    assert [CARRIER] == [] + [CARRIER] && [FIRST, SECOND] == [FIRST] + [SECOND];
  }

  lemma FirstTaken(strategy: Strategy)
    ensures AssignedPool(strategy, Pool([CARRIER], [FIRST, SECOND]), "t") == Pool([Busy(1)], [Taken(FIRST), SECOND])
  {
    hide AssignedPool, Best;
    var p := Pool([CARRIER], [FIRST, SECOND]);
    assert p.tasks[..1] == [FIRST];
    OneCarrier(strategy, CARRIER, p, 0);
  }

  lemma SecondTaken(strategy: Strategy)
    ensures AssignedPool(strategy, Pool([Busy(1)], [Taken(FIRST), SECOND]), "u")
            == Pool([Busy(2)], [Taken(FIRST), Taken(SECOND)])
  {
    hide AssignedPool, Best;
    OneCarrier(strategy, Busy(1), Pool([Busy(1)], [Taken(FIRST), SECOND]), 1);
  }

  /** Two tasks handed to one agent, for every strategy. */
  lemma BothAssigned(strategy: Strategy)
    ensures Run(strategy, Pool([], []), BOTH_ASSIGNED) == Pool([Busy(2)], [Taken(FIRST), Taken(SECOND)])
  {
    hide Run, AssignedPool, Busy, Taken;
    BothSubmitted(strategy);
    RunNext(strategy, Pool([], []), BOTH_SUBMITTED, Assign("t"));
    FirstTaken(strategy);
    RunNext(strategy, Pool([], []), BOTH_SUBMITTED + [Assign("t")], Assign("u"));
    SecondTaken(strategy);
  }

  lemma RunNothing(strategy: Strategy)
    ensures Run(strategy, Pool([], []), []) == Pool([], [])
  {
  }

  /** A run the source accepts: after both tasks are assigned, completing the first of them twice
      leaves an agent that holds a task with a queue depth of zero. */
  lemma RunBreaksAccounts(strategy: Strategy, result: Json, cost: real)
    ensures var p := Run(strategy, Pool([], []), BOTH_ASSIGNED);
            Sound(p)
            && !Sound(Apply(strategy, Apply(strategy, p, Complete("t", result, cost)), Complete("t", result, cost)))
  {
    BothAssigned(strategy);
    var p := Run(strategy, Pool([], []), BOTH_ASSIGNED);
    BothHeld(p);
    CompletingTwice(p, "t", result, result, cost);
  }

  lemma BothHeld(p: Pool)
    requires p == Pool([Busy(2)], [Taken(FIRST), Taken(SECOND)])
    ensures Sound(p) && TaskIndex(p.tasks, "t") == 0 && ReleasedIndex(p, "t") == 0
  {
    var t := p.tasks;
    assert t[..2] == t && t[..2][..1] == t[..1] && t[..1][..0] == [];
    assert Held(t[..1], "a") == 1 && Held(t, "a") == 2;
    assert p.agents[0].id == "a";
    forall j | 0 <= j < 2 ensures IsHeldBy(t[j], p.agents) { assert Capable(p.agents[0], t[j]); }
  }
}
