/** Balancing at its default thresholds: load is conserved, and every call that moves something
    makes measurable progress. */
module BalanceProgress {
  import opened Json
  import opened Orchestrator

  const HIGH := 0.8
  const LOW := 0.2

  function TotalLoad(agents: seq<Agent>): real {
    if agents == [] then 0.0 else TotalLoad(agents[..|agents| - 1]) + agents[|agents| - 1].load
  }

  /** The sum of the squared loads: smaller means more even. */
  function Unevenness(agents: seq<Agent>): real {
    if agents == [] then 0.0
    else Unevenness(agents[..|agents| - 1]) + agents[|agents| - 1].load * agents[|agents| - 1].load
  }

  lemma {:induction false} TotalUpdate(agents: seq<Agent>, i: nat, a: Agent)
    requires i < |agents|
    ensures TotalLoad(agents[i := a]) == TotalLoad(agents) - agents[i].load + a.load
  {
    var n := |agents| - 1;
    if i == n {
      assert agents[i := a][..n] == agents[..n];
    } else {
      assert agents[i := a][..n] == agents[..n][i := a];
      TotalUpdate(agents[..n], i, a);
    }
  }

  lemma {:induction false} UnevennessUpdate(agents: seq<Agent>, i: nat, a: Agent)
    requires i < |agents|
    ensures Unevenness(agents[i := a]) == Unevenness(agents) - agents[i].load * agents[i].load + a.load * a.load
  {
    var n := |agents| - 1;
    if i == n {
      assert agents[i := a][..n] == agents[..n];
    } else {
      assert agents[i := a][..n] == agents[..n][i := a];
      UnevennessUpdate(agents[..n], i, a);
    }
  }

  lemma {:induction false} UnevennessNonNegative(agents: seq<Agent>)
    ensures Unevenness(agents) >= 0.0
  {
    if agents != [] {
      UnevennessNonNegative(agents[..|agents| - 1]);
      var x := agents[|agents| - 1].load;
      assert x * x >= 0.0;
    }
  }

  /** After `k` moves of one call: how far every source and target can have come. */
  ghost predicate Spread(agents: seq<Agent>, over: seq<nat>, under: seq<nat>, k: nat) {
    && k <= 3
    && (forall i :: i in over ==> i < |agents| && agents[i].load >= HIGH - k as real * 0.1)
    && (forall i :: i in under ==> i < |agents| && agents[i].load <= LOW + k as real * 0.1)
  }

  /** What `k` moves must have gained: a tenth for the first, a fiftieth for each later one. */
  function Gain(k: nat): real {
    if k == 0 then 0.0 else 0.1 + (k - 1) as real * 0.02
  }

  /** Everything the loop keeps, relative to the agents at the start of the call. */
  ghost predicate OnCourse(start: seq<Agent>, g: Progress, over: seq<nat>, under: seq<nat>) {
    && |g.pool.agents| == |start|
    && Spread(g.pool.agents, over, under, |g.moves|)
    && TotalLoad(g.pool.agents) == TotalLoad(start)
    && Unevenness(g.pool.agents) <= Unevenness(start) - Gain(|g.moves|)
  }

  lemma SquareStep(s: real, d: real)
    ensures (s - 0.1) * (s - 0.1) + (d + 0.1) * (d + 0.1) == s * s + d * d - 0.2 * (s - d) + 0.02
  {}

  /** One move between distinct agents far enough apart: no clamp fires. */
  lemma MoveEffect(p: Pool, j: nat, src: nat, dst: nat)
    requires j < |p.tasks| && src < |p.agents| && dst < |p.agents| && src != dst
    requires p.agents[src].load >= 0.1 && p.agents[dst].load <= 0.9
    ensures var p' := Rehomed(p, j, src, dst);
            var s, d := p.agents[src].load, p.agents[dst].load;
            && p'.agents[src].load == s - 0.1 && p'.agents[dst].load == d + 0.1
            && p'.agents[src].queueDepth == (if p.agents[src].queueDepth > 0 then p.agents[src].queueDepth - 1 else 0)
            && p'.agents[dst].queueDepth == p.agents[dst].queueDepth + 1
            && p'.tasks == p.tasks[j := p.tasks[j].(assignee := Some(p.agents[dst].id), status := Assigned)]
            && (forall i :: 0 <= i < |p.agents| && i != src && i != dst ==> p'.agents[i] == p.agents[i])
            && TotalLoad(p'.agents) == TotalLoad(p.agents)
            && Unevenness(p'.agents) == Unevenness(p.agents) - 0.2 * (s - d) + 0.02
  {
    hide TotalLoad, Unevenness;
    var a, b := p.agents[src], p.agents[dst];
    var released := p.agents[src := a.(queueDepth := Less1(a.queueDepth), load := Max(0.0, a.load - 0.1))];
    var b' := b.(queueDepth := b.queueDepth + 1, load := Min(1.0, b.load + 0.1));
    assert Rehomed(p, j, src, dst).agents == released[dst := b'];
    TotalUpdate(p.agents, src, released[src]);
    TotalUpdate(released, dst, b');
    UnevennessUpdate(p.agents, src, released[src]);
    UnevennessUpdate(released, dst, b');
    SquareStep(a.load, b.load);
  }

  /** One move between distinct agents, whatever their loads: a tenth of load and a place in the queue
      go over, the load kept between zero and one. */
  lemma MoveExactly(p: Pool, j: nat, src: nat, dst: nat)
    requires j < |p.tasks| && src < |p.agents| && dst < |p.agents| && src != dst
    ensures var p', s, d := Rehomed(p, j, src, dst), p.agents[src], p.agents[dst];
            && p'.agents == p.agents[src := s.(queueDepth := if s.queueDepth > 0 then s.queueDepth - 1 else 0,
                                               load := if s.load < 0.1 then 0.0 else s.load - 0.1)]
                                    [dst := d.(queueDepth := d.queueDepth + 1,
                                               load := if d.load > 0.9 then 1.0 else d.load + 0.1)]
            && p'.tasks == p.tasks[j := p.tasks[j].(assignee := Some(d.id), status := Assigned)]
  {
  }

  lemma MoveKeepsCourse(start: seq<Agent>, g: Progress, over: seq<nat>, under: seq<nat>, j: nat, src: nat, dst: nat, m: Move)
    requires OnCourse(start, g, over, under) && |g.moves| < 3
    requires src in over && dst in under && j < |g.pool.tasks|
    ensures OnCourse(start, Progress(Rehomed(g.pool, j, src, dst), g.moves + [m]), over, under)
  {
    MoveEffect(g.pool, j, src, dst);
  }

  lemma TriedKeepsCourse(start: seq<Agent>, strategy: Strategy, g: Progress, over: seq<nat>, under: seq<nat>, src: nat, j: nat)
    requires OnCourse(start, g, over, under) && under != [] && src in over
    requires ValidIndices(under, |g.pool.agents|) && j < |g.pool.tasks|
    ensures OnCourse(start, Tried(strategy, g, under, src, j), over, under)
  {
    if |g.moves| < 3 && MayMove(g.pool, j, src) {
      var dst := LeastLoaded(g.pool.agents, under);
      MoveKeepsCourse(start, g, over, under, j, src, dst,
                      Move(g.pool.tasks[j].id, g.pool.agents[src].id, g.pool.agents[dst].id));
    }
  }

  lemma {:induction false} TasksKeepCourse(start: seq<Agent>, strategy: Strategy, g: Progress, over: seq<nat>, under: seq<nat>,
                                           src: nat, n: nat)
    requires OnCourse(start, g, over, under) && under != [] && src in over
    requires ValidIndices(under, |g.pool.agents|) && n <= |g.pool.tasks|
    ensures OnCourse(start, TriedTasks(strategy, g, under, src, n), over, under)
  {
    hide Tried, LeastLoaded;
    if n > 0 {
      TasksKeepCourse(start, strategy, g, over, under, src, n - 1);
      TriedKeepsCourse(start, strategy, TriedTasks(strategy, g, under, src, n - 1), over, under, src, n - 1);
    }
  }

  lemma {:induction false} SourcesKeepCourse(start: seq<Agent>, strategy: Strategy, g: Progress, over: seq<nat>, under: seq<nat>, n: nat)
    requires OnCourse(start, g, over, under) && under != [] && n <= |over|
    requires ValidIndices(under, |g.pool.agents|) && ValidIndices(over, |g.pool.agents|)
    ensures ValidIndices(over[..n], |g.pool.agents|)
    ensures OnCourse(start, TriedSources(strategy, g, under, over[..n]), over, under)
  {
    assert forall i :: i in over[..n] ==> i in over;
    if n > 0 {
      assert over[..n][..n - 1] == over[..n - 1] && over[..n][n - 1] == over[n - 1] && over[n - 1] in over;
      SourcesKeepCourse(start, strategy, g, over, under, n - 1);
      var before := TriedSources(strategy, g, under, over[..n - 1]);
      TasksKeepCourse(start, strategy, before, over, under, over[n - 1], |before.pool.tasks|);
    }
  }

  /** One call at the default thresholds: at most three moves, total load unchanged, and unevenness
      down by at least a tenth whenever anything moved. */
  lemma BalanceMakesProgress(strategy: Strategy, p: Pool)
    ensures var g := Balancing(strategy, p, HIGH, LOW);
            && |g.moves| <= 3
            && TotalLoad(g.pool.agents) == TotalLoad(p.agents)
            && (g.moves != [] ==> Unevenness(g.pool.agents) <= Unevenness(p.agents) - 0.1)
            && (g.moves == [] ==> Unevenness(g.pool.agents) <= Unevenness(p.agents))
  {
    var over, under := Overloaded(p.agents, HIGH, |p.agents|), Underloaded(p.agents, LOW, |p.agents|);
    if over != [] && under != [] {
      SourcesKeepCourse(p.agents, strategy, Progress(p, []), over, under, |over|);
      assert over[..|over|] == over;
    }
  }

  // ------------------------------------------------------------------ calls in a row

  function Balanced(strategy: Strategy, p: Pool, calls: nat): Pool {
    if calls == 0 then p
    else Balancing(strategy, Balanced(strategy, p, calls - 1), HIGH, LOW).pool
  }

  ghost predicate AllMove(strategy: Strategy, p: Pool, calls: nat) {
    forall i :: 0 <= i < calls ==> Balancing(strategy, Balanced(strategy, p, i), HIGH, LOW).moves != []
  }

  lemma {:induction false} CallsConsume(strategy: Strategy, p: Pool, calls: nat)
    requires AllMove(strategy, p, calls)
    ensures Unevenness(Balanced(strategy, p, calls).agents) <= Unevenness(p.agents) - calls as real * 0.1
    ensures TotalLoad(Balanced(strategy, p, calls).agents) == TotalLoad(p.agents)
  {
    if calls > 0 {
      CallsConsume(strategy, p, calls - 1);
      BalanceMakesProgress(strategy, Balanced(strategy, p, calls - 1));
    }
  }

  /** Balancing settles: no more than ten times the initial unevenness of calls in a row can move anything. */
  lemma BalancingSettles(strategy: Strategy, p: Pool, calls: nat)
    requires AllMove(strategy, p, calls)
    ensures calls as real <= 10.0 * Unevenness(p.agents)
  {
    CallsConsume(strategy, p, calls);
    UnevennessNonNegative(Balanced(strategy, p, calls).agents);
  }

  // ------------------------------------------------------------------ what a call may touch

  ghost predicate OnlyRehomed(before: Pool, after: Pool) {
    && |after.agents| == |before.agents| && |after.tasks| == |before.tasks|
    && (forall j :: 0 <= j < |before.tasks| ==> after.tasks[j] == before.tasks[j].(assignee := after.tasks[j].assignee))
    && (forall j :: 0 <= j < |before.tasks| && before.tasks[j].status != Assigned ==> after.tasks[j] == before.tasks[j])
    && (forall i :: 0 <= i < |before.agents| ==>
          after.agents[i] == before.agents[i].(load := after.agents[i].load, queueDepth := after.agents[i].queueDepth))
  }

  lemma TriedOnlyRehomes(strategy: Strategy, start: Pool, g: Progress, under: seq<nat>, src: nat, j: nat)
    requires OnlyRehomed(start, g.pool) && under != [] && ValidIndices(under, |g.pool.agents|)
    requires src < |g.pool.agents| && j < |g.pool.tasks|
    ensures OnlyRehomed(start, Tried(strategy, g, under, src, j).pool)
  {}

  lemma {:induction false} TasksOnlyRehome(strategy: Strategy, start: Pool, g: Progress, under: seq<nat>, src: nat, n: nat)
    requires OnlyRehomed(start, g.pool) && under != [] && ValidIndices(under, |g.pool.agents|)
    requires src < |g.pool.agents| && n <= |g.pool.tasks|
    ensures OnlyRehomed(start, TriedTasks(strategy, g, under, src, n).pool)
  {
    hide Tried, OnlyRehomed;
    if n > 0 {
      TasksOnlyRehome(strategy, start, g, under, src, n - 1);
      TriedOnlyRehomes(strategy, start, TriedTasks(strategy, g, under, src, n - 1), under, src, n - 1);
    }
  }

  lemma {:induction false} SourcesOnlyRehome(strategy: Strategy, start: Pool, g: Progress, under: seq<nat>, over: seq<nat>)
    requires OnlyRehomed(start, g.pool) && under != []
    requires ValidIndices(under, |g.pool.agents|) && ValidIndices(over, |g.pool.agents|)
    ensures OnlyRehomed(start, TriedSources(strategy, g, under, over).pool)
  {
    if over != [] {
      var n := |over| - 1;
      assert over[n] in over && forall i :: i in over[..n] ==> i in over;
      SourcesOnlyRehome(strategy, start, g, under, over[..n]);
      var before := TriedSources(strategy, g, under, over[..n]);
      TasksOnlyRehome(strategy, start, before, under, over[n], |before.pool.tasks|);
    }
  }

  /** Balancing changes nothing but assignees of ASSIGNED tasks and the loads and depths of agents;
      in particular no task starts or ends, and no agent's status changes. */
  lemma BalanceOnlyRehomes(strategy: Strategy, p: Pool, high: real, low: real)
    ensures OnlyRehomed(p, Balancing(strategy, p, high, low).pool)
  {
    var over, under := Overloaded(p.agents, high, |p.agents|), Underloaded(p.agents, low, |p.agents|);
    if over != [] && under != [] { SourcesOnlyRehome(strategy, p, Progress(p, []), under, over); }
  }
}
