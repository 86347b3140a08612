/** Which tasks one balancing call moves: the nested loops over agents and tasks, which change both as
    they go, come to trying one list of tasks that is fixed when the call starts. */
module BalanceMoves {
  import opened Json
  import opened Orchestrator
  import opened BalanceProgress

  // ------------------------------------------------------------------ who gives and who takes

  predicate Heavy(a: Agent, high: real) { a.status != Terminated && a.load >= high && a.queueDepth > 0 }

  predicate Light(a: Agent, low: real) { a.status != Terminated && a.load <= low }

  ghost predicate Increasing(s: seq<nat>) { forall i, j :: 0 <= i < j < |s| ==> s[i] < s[j] }

  lemma {:induction false} OverloadedAre(agents: seq<Agent>, high: real, n: nat)
    requires n <= |agents|
    ensures Increasing(Overloaded(agents, high, n))
    ensures forall i :: i in Overloaded(agents, high, n) <==> 0 <= i < n && Heavy(agents[i], high)
  {
    if n > 0 {
      OverloadedAre(agents, high, n - 1);
      var front := Overloaded(agents, high, n - 1);
      assert forall i :: 0 <= i < |front| ==> front[i] in front;
    }
  }

  lemma {:induction false} UnderloadedAre(agents: seq<Agent>, low: real, n: nat)
    requires n <= |agents|
    ensures Increasing(Underloaded(agents, low, n))
    ensures forall i :: i in Underloaded(agents, low, n) <==> 0 <= i < n && Light(agents[i], low)
  {
    if n > 0 {
      UnderloadedAre(agents, low, n - 1);
      var front := Underloaded(agents, low, n - 1);
      assert forall i :: 0 <= i < |front| ==> front[i] in front;
    }
  }

  // ------------------------------------------------------------------ the list of attempts

  /** Task `task`, held by agent `src`. */
  datatype Candidate = Candidate(task: nat, src: nat)

  predicate HeldBy(p: Pool, j: nat, i: nat) {
    j < |p.tasks| && i < |p.agents| && p.tasks[j].status == Assigned && p.tasks[j].assignee == Some(p.agents[i].id)
  }

  function CandidatesOf(p: Pool, src: nat, n: nat): seq<Candidate> {
    if n == 0 then []
    else CandidatesOf(p, src, n - 1) + if HeldBy(p, n - 1, src) then [Candidate(n - 1, src)] else []
  }

  function Candidates(p: Pool, over: seq<nat>): seq<Candidate> {
    if over == [] then []
    else Candidates(p, over[..|over| - 1]) + CandidatesOf(p, over[|over| - 1], |p.tasks|)
  }

  ghost predicate IsCandidate(p: Pool, high: real, c: Candidate) {
    c.src < |p.agents| && Heavy(p.agents[c.src], high) && HeldBy(p, c.task, c.src)
  }

  /** Agent by agent, and task by task. */
  predicate Earlier(c: Candidate, d: Candidate) { c.src < d.src || (c.src == d.src && c.task < d.task) }

  ghost predicate InTurn(cs: seq<Candidate>) { forall i, j :: 0 <= i < j < |cs| ==> Earlier(cs[i], cs[j]) }

  lemma {:induction false} CandidatesOfAre(p: Pool, src: nat, n: nat)
    ensures InTurn(CandidatesOf(p, src, n))
    ensures forall c :: c in CandidatesOf(p, src, n) <==> c.src == src && c.task < n && HeldBy(p, c.task, src)
  {
    if n > 0 {
      CandidatesOfAre(p, src, n - 1);
      var front := CandidatesOf(p, src, n - 1);
      assert forall i :: 0 <= i < |front| ==> front[i] in front;
    }
  }

  lemma {:induction false} CandidatesAre(p: Pool, over: seq<nat>)
    requires Increasing(over)
    ensures InTurn(Candidates(p, over))
    ensures forall c :: c in Candidates(p, over) <==> c.src in over && HeldBy(p, c.task, c.src)
  {
    if over != [] {
      var front, src := over[..|over| - 1], over[|over| - 1];
      assert over == front + [src];
      CandidatesAre(p, front);
      CandidatesOfAre(p, src, |p.tasks|);
      TurnAppend(Candidates(p, front), CandidatesOf(p, src, |p.tasks|), src);
    }
  }

  lemma TurnAppend(x: seq<Candidate>, y: seq<Candidate>, src: nat)
    requires InTurn(x) && InTurn(y)
    requires (forall c :: c in x ==> c.src < src) && (forall c :: c in y ==> c.src == src)
    ensures InTurn(x + y)
  {
    assert forall i :: 0 <= i < |x| ==> x[i] in x;
    assert forall i :: 0 <= i < |y| ==> y[i] in y;
  }

  // ------------------------------------------------------------------ trying them in turn

  /** Moves the task to the first of the least loaded takers, if it can take it and fewer than three
      were moved. */
  function Attempt(strategy: Strategy, g: Progress, under: seq<nat>, c: Candidate): (r: Progress)
    requires under != [] && ValidIndices(under, |g.pool.agents|)
    requires c.src < |g.pool.agents| && c.task < |g.pool.tasks|
    ensures |r.pool.agents| == |g.pool.agents| && |r.pool.tasks| == |g.pool.tasks|
  {
    var dst := LeastLoaded(g.pool.agents, under);
    var to, from, task := g.pool.agents[dst], g.pool.agents[c.src], g.pool.tasks[c.task];
    if |g.moves| < 3 && Score(strategy, to, task) >= 0.0 then
      Progress(Rehomed(g.pool, c.task, c.src, dst), g.moves + [Move(task.id, from.id, to.id)])
    else g
  }

  ghost predicate Known(cs: seq<Candidate>, p: Pool) {
    forall c :: c in cs ==> c.src < |p.agents| && c.task < |p.tasks|
  }

  ghost function Attempts(strategy: Strategy, g: Progress, under: seq<nat>, cs: seq<Candidate>): (r: Progress)
    requires under != [] && ValidIndices(under, |g.pool.agents|) && Known(cs, g.pool)
    ensures |r.pool.agents| == |g.pool.agents| && |r.pool.tasks| == |g.pool.tasks|
  {
    if cs == [] then g
    else
      var n := |cs| - 1;
      assert cs[n] in cs && forall c :: c in cs[..n] ==> c in cs;
      Attempt(strategy, Attempts(strategy, g, under, cs[..n]), under, cs[n])
  }

  lemma {:induction false} AttemptsConcat(strategy: Strategy, g: Progress, under: seq<nat>, x: seq<Candidate>, y: seq<Candidate>)
    requires under != [] && ValidIndices(under, |g.pool.agents|) && Known(x, g.pool) && Known(y, g.pool)
    ensures Attempts(strategy, g, under, x + y) == Attempts(strategy, Attempts(strategy, g, under, x), under, y)
  {
    hide Attempt;
    if y == [] {
      assert x + y == x;
    } else {
      var front := y[..|y| - 1];
      assert forall c :: c in front ==> c in y;
      AttemptsConcat(strategy, g, under, x, front);
      assert (x + y)[..|x + y| - 1] == x + front;
    }
  }

  // ------------------------------------------------------------------ the loops try them

  /** Agents keep their ids, and a task that was moved is held by one that takes. */
  ghost predicate Moving(p: Pool, q: Pool, under: seq<nat>) {
    && |q.agents| == |p.agents| && |q.tasks| == |p.tasks|
    && (forall i :: 0 <= i < |p.agents| ==> q.agents[i].id == p.agents[i].id)
    && (forall j :: 0 <= j < |p.tasks| ==> q.tasks[j] == p.tasks[j] || IsTaken(p, q.tasks[j], under))
  }

  ghost predicate IsTaken(p: Pool, t: Task, under: seq<nat>) {
    exists d :: d in under && d < |p.agents| && t.assignee == Some(p.agents[d].id)
  }

  ghost predicate AgentsDiffer(p: Pool) {
    forall i, j :: 0 <= i < j < |p.agents| ==> p.agents[i].id != p.agents[j].id
  }

  /** What the call starts from: who gives, who takes, and that no agent does both. */
  ghost predicate Sides(p: Pool, over: seq<nat>, under: seq<nat>) {
    && AgentsDiffer(p) && under != [] && ValidIndices(under, |p.agents|) && ValidIndices(over, |p.agents|)
    && (forall i :: i in over ==> i !in under)
  }

  /** The tasks of `src` have not been touched yet. */
  ghost predicate Untouched(p: Pool, q: Pool, src: nat, from: nat)
    requires |q.tasks| == |p.tasks|
  {
    forall j :: from <= j < |p.tasks| && HeldBy(p, j, src) ==> q.tasks[j] == p.tasks[j]
  }

  lemma MovableAsBefore(p: Pool, q: Pool, over: seq<nat>, under: seq<nat>, src: nat, j: nat)
    requires Sides(p, over, under) && Moving(p, q, under) && src in over && j < |p.tasks|
    requires HeldBy(p, j, src) ==> q.tasks[j] == p.tasks[j]
    ensures MayMove(q, j, src) <==> HeldBy(p, j, src)
  {
  }

  lemma AttemptMoves(strategy: Strategy, p: Pool, g: Progress, under: seq<nat>, c: Candidate)
    requires under != [] && ValidIndices(under, |p.agents|) && Moving(p, g.pool, under)
    requires c.src < |p.agents| && c.task < |p.tasks|
    ensures Moving(p, Attempt(strategy, g, under, c).pool, under)
    ensures forall k :: 0 <= k < |p.tasks| && k != c.task ==> Attempt(strategy, g, under, c).pool.tasks[k] == g.pool.tasks[k]
  {
    var dst := LeastLoaded(g.pool.agents, under);
    var q := Rehomed(g.pool, c.task, c.src, dst);
    assert q.tasks[c.task].assignee == Some(p.agents[dst].id);
    assert IsTaken(p, q.tasks[c.task], under);
  }

  lemma TriedIsAttempt(strategy: Strategy, p: Pool, g: Progress, over: seq<nat>, under: seq<nat>, src: nat, j: nat)
    requires Sides(p, over, under) && Moving(p, g.pool, under) && src in over && j < |p.tasks|
    requires HeldBy(p, j, src) ==> g.pool.tasks[j] == p.tasks[j]
    ensures Tried(strategy, g, under, src, j) ==
            if HeldBy(p, j, src) then Attempt(strategy, g, under, Candidate(j, src)) else g
  {
    hide LeastLoaded, Rehomed, Score, Moving, Sides, HeldBy;
    MovingSizes(p, g.pool, over, under);
    MovableAsBefore(p, g.pool, over, under, src, j);
  }

  lemma MovingSizes(p: Pool, q: Pool, over: seq<nat>, under: seq<nat>)
    requires Sides(p, over, under) && Moving(p, q, under)
    ensures |q.agents| == |p.agents| && |q.tasks| == |p.tasks| && under != []
    ensures ValidIndices(under, |q.agents|) && ValidIndices(over, |q.agents|)
  {
  }

  /** The inner loop tries the tasks that the agent held when the call started. */
  lemma {:induction false} TasksAreAttempts(
      strategy: Strategy, p: Pool, g: Progress, over: seq<nat>, under: seq<nat>, src: nat, n: nat)
    requires Sides(p, over, under) && Moving(p, g.pool, under) && src in over && n <= |p.tasks|
    requires Untouched(p, g.pool, src, 0)
    ensures Known(CandidatesOf(p, src, n), p)
    ensures var r := TriedTasks(strategy, g, under, src, n);
            && r == Attempts(strategy, g, under, CandidatesOf(p, src, n))
            && Moving(p, r.pool, under)
            && (forall j :: 0 <= j < |p.tasks| && (j >= n || !HeldBy(p, j, src)) ==> r.pool.tasks[j] == g.pool.tasks[j])
  {
    hide Tried, Attempt, Sides, Moving, HeldBy;
    MovingSizes(p, g.pool, over, under);
    CandidatesOfAre(p, src, n);
    if n > 0 {
      TasksAreAttempts(strategy, p, g, over, under, src, n - 1);
      var r := TriedTasks(strategy, g, under, src, n - 1);
      TriedIsAttempt(strategy, p, r, over, under, src, n - 1);
      AttemptMoves(strategy, p, r, under, Candidate(n - 1, src));
      var front := CandidatesOf(p, src, n - 1);
      assert front + [] == front && (front + [Candidate(n - 1, src)])[..|front|] == front;
    }
  }

  lemma HeldOnce(p: Pool, j: nat, i: nat, k: nat)
    requires AgentsDiffer(p) && HeldBy(p, j, i) && HeldBy(p, j, k)
    ensures i == k
  {
  }

  ghost predicate AllUntouched(p: Pool, q: Pool, over: seq<nat>, m: nat)
    requires |q.tasks| == |p.tasks|
  {
    forall k :: m <= k < |over| ==> Untouched(p, q, over[k], 0)
  }

  /** One agent's turn leaves the tasks of the agents after it. */
  lemma OneSource(strategy: Strategy, p: Pool, g: Progress, over: seq<nat>, under: seq<nat>, m: nat)
    requires Sides(p, over, under) && Increasing(over) && m < |over|
    requires Moving(p, g.pool, under) && AllUntouched(p, g.pool, over, m)
    ensures ValidIndices(under, |g.pool.agents|) && over[m] < |g.pool.agents| && Known(CandidatesOf(p, over[m], |p.tasks|), p)
    ensures var r := TriedTasks(strategy, g, under, over[m], |g.pool.tasks|);
            && r == Attempts(strategy, g, under, CandidatesOf(p, over[m], |p.tasks|))
            && Moving(p, r.pool, under) && AllUntouched(p, r.pool, over, m + 1)
  {
    hide TriedTasks, Attempts, HeldBy, Moving;
    var src := over[m];
    assert src in over;
    MovingSizes(p, g.pool, over, under);
    TasksAreAttempts(strategy, p, g, over, under, src, |p.tasks|);
    var r := TriedTasks(strategy, g, under, src, |p.tasks|);
    forall k, j | m < k < |over| && 0 <= j < |p.tasks| && HeldBy(p, j, over[k]) ensures r.pool.tasks[j] == p.tasks[j] {
      assert Untouched(p, g.pool, over[k], 0);
      if HeldBy(p, j, src) { HeldOnce(p, j, src, over[k]); }
    }
  }

  lemma SourcesNext(strategy: Strategy, g: Progress, under: seq<nat>, over: seq<nat>, m: nat)
    requires under != [] && ValidIndices(under, |g.pool.agents|) && ValidIndices(over, |g.pool.agents|) && 0 < m <= |over|
    ensures ValidIndices(over[..m], |g.pool.agents|) && ValidIndices(over[..m - 1], |g.pool.agents|)
    ensures over[m - 1] < |g.pool.agents|
    ensures var before := TriedSources(strategy, g, under, over[..m - 1]);
            TriedSources(strategy, g, under, over[..m])
            == TriedTasks(strategy, before, under, over[m - 1], |before.pool.tasks|)
  {
    assert over[..m][..m - 1] == over[..m - 1] && over[..m][m - 1] == over[m - 1] && over[m - 1] in over;
    var now, before := over[..m], over[..m - 1];
    forall i | i in now ensures i < |g.pool.agents| { assert i in over; }
    forall i | i in before ensures i < |g.pool.agents| { assert i in over; }
  }

  lemma CandidatesNext(p: Pool, over: seq<nat>, m: nat)
    requires Increasing(over) && 0 < m <= |over| && ValidIndices(over, |p.agents|)
    ensures Candidates(p, over[..m]) == Candidates(p, over[..m - 1]) + CandidatesOf(p, over[m - 1], |p.tasks|)
    ensures Known(Candidates(p, over[..m]), p) && Known(Candidates(p, over[..m - 1]), p)
  {
    assert over[..m][..m - 1] == over[..m - 1] && over[..m][m - 1] == over[m - 1];
    CandidatesAre(p, over[..m]);
    CandidatesAre(p, over[..m - 1]);
    assert forall i :: i in over[..m] ==> i in over;
  }

  /** The outer loop tries them agent by agent. */
  lemma {:induction false} SourcesAreAttempts(strategy: Strategy, p: Pool, over: seq<nat>, under: seq<nat>, m: nat)
    requires Sides(p, over, under) && Increasing(over) && m <= |over|
    ensures ValidIndices(over[..m], |p.agents|) && Known(Candidates(p, over[..m]), p)
    ensures var r := TriedSources(strategy, Progress(p, []), under, over[..m]);
            && r == Attempts(strategy, Progress(p, []), under, Candidates(p, over[..m]))
            && Moving(p, r.pool, under) && AllUntouched(p, r.pool, over, m)
  {
    if m > 0 {
      hide TriedSources, TriedTasks, Attempts, Moving, AllUntouched, Candidates, CandidatesOf;
      var start := Progress(p, []);
      SourcesAreAttempts(strategy, p, over, under, m - 1);
      SourcesNext(strategy, start, under, over, m);
      CandidatesNext(p, over, m);
      OneSource(strategy, p, TriedSources(strategy, start, under, over[..m - 1]), over, under, m - 1);
      AttemptsConcat(strategy, start, under, Candidates(p, over[..m - 1]), CandidatesOf(p, over[m - 1], |p.tasks|));
    } else {
      NothingTried(strategy, p, over, under);
    }
  }

  lemma NothingTried(strategy: Strategy, p: Pool, over: seq<nat>, under: seq<nat>)
    requires Sides(p, over, under)
    ensures var g := Progress(p, []);
            TriedSources(strategy, g, under, over[..0]) == g && Candidates(p, over[..0]) == []
            && Attempts(strategy, g, under, []) == g && Moving(p, p, under) && AllUntouched(p, p, over, 0)
  {
  }

  ghost predicate AreSides(p: Pool, high: real, low: real, over: seq<nat>, under: seq<nat>) {
    && Increasing(over) && (forall i :: i in over <==> 0 <= i < |p.agents| && Heavy(p.agents[i], high))
    && Increasing(under) && (forall i :: i in under <==> 0 <= i < |p.agents| && Light(p.agents[i], low))
  }

  /** One call, where overloaded means more than underloaded, is: list the ASSIGNED tasks of the
      overloaded agents, agent by agent and task by task, as they stand when the call starts; try each
      in turn, moving it to the least loaded of the agents that were underloaded then, until three
      were moved. */
  lemma BalancingTriesInTurn(strategy: Strategy, p: Pool, high: real, low: real)
    returns (over: seq<nat>, under: seq<nat>, cs: seq<Candidate>)
    requires AgentsDiffer(p) && low < high
    ensures AreSides(p, high, low, over, under)
    ensures InTurn(cs) && Known(cs, p) && forall c :: c in cs <==> IsCandidate(p, high, c)
    ensures under == [] ==> Balancing(strategy, p, high, low) == Progress(p, [])
    ensures under != [] ==>
              ValidIndices(under, |p.agents|)
              && Balancing(strategy, p, high, low) == Attempts(strategy, Progress(p, []), under, cs)
  {
    hide TriedSources, Attempts, Attempt;
    over, under := Overloaded(p.agents, high, |p.agents|), Underloaded(p.agents, low, |p.agents|);
    OverloadedAre(p.agents, high, |p.agents|);
    UnderloadedAre(p.agents, low, |p.agents|);
    cs := Candidates(p, over);
    CandidatesAre(p, over);
    if under != [] {
      SourcesAreAttempts(strategy, p, over, under, |over|);
      assert over[..|over|] == over;
      if over == [] { NothingTried(strategy, p, over, under); }
    }
  }

  // ------------------------------------------------------------------ how many move

  /** An agent that has taken `e` tasks in this call. */
  function Laden(a: Agent, e: nat): Agent { a.(load := a.load + e as real * 0.1, queueDepth := a.queueDepth + e) }

  /** Every agent that takes can take every candidate, also after the one or two tasks it may have
      taken already. */
  ghost predicate AllTake(strategy: Strategy, p: Pool) {
    forall d: nat, c, e: nat :: d < |p.agents| && Light(p.agents[d], LOW) && IsCandidate(p, HIGH, c) && e <= 2 ==>
      Score(strategy, Laden(p.agents[d], e), p.tasks[c.task]) >= 0.0
  }

  ghost predicate LightlyLaden(p: Pool, g: Progress, under: seq<nat>) {
    && Moving(p, g.pool, under)
    && (forall d :: d in under ==> d < |p.agents| && exists e: nat :: e <= |g.moves| && g.pool.agents[d] == Laden(p.agents[d], e))
  }

  lemma AttemptTakes(strategy: Strategy, p: Pool, g: Progress, over: seq<nat>, under: seq<nat>, c: Candidate)
    requires AllTake(strategy, p) && Sides(p, over, under) && AreSides(p, HIGH, LOW, over, under)
    requires LightlyLaden(p, g, under) && |g.moves| <= 3
    requires IsCandidate(p, HIGH, c) && c.task < |p.tasks| && g.pool.tasks[c.task] == p.tasks[c.task]
    ensures var r := Attempt(strategy, g, under, c);
            LightlyLaden(p, r, under) && |r.moves| == if |g.moves| < 3 then |g.moves| + 1 else 3
  {
    hide Score, Moving;
    MovingSizes(p, g.pool, over, under);
    AttemptMoves(strategy, p, g, under, c);
    if |g.moves| < 3 {
      var dst := LeastLoaded(g.pool.agents, under);
      var e: nat :| e <= |g.moves| && g.pool.agents[dst] == Laden(p.agents[dst], e);
      assert Light(p.agents[dst], LOW);
      var r := Attempt(strategy, g, under, c);
      TakerIsLaden(g.pool, p.agents[dst], c, dst, e);
      forall d | d in under ensures exists e': nat :: e' <= |r.moves| && r.pool.agents[d] == Laden(p.agents[d], e') {
        if d == dst {
          assert r.pool.agents[d] == Laden(p.agents[d], e + 1);
        } else {
          var f: nat :| f <= |g.moves| && g.pool.agents[d] == Laden(p.agents[d], f);
          assert r.pool.agents[d] == Laden(p.agents[d], f);
        }
      }
    }
  }

  lemma TakerIsLaden(q: Pool, a: Agent, c: Candidate, dst: nat, e: nat)
    requires c.src < |q.agents| && c.task < |q.tasks| && dst < |q.agents| && c.src != dst
    requires q.agents[dst] == Laden(a, e) && a.load <= 0.2 && e <= 2
    ensures Rehomed(q, c.task, c.src, dst).agents[dst] == Laden(a, e + 1)
    ensures forall i :: 0 <= i < |q.agents| && i != c.src && i != dst ==> Rehomed(q, c.task, c.src, dst).agents[i] == q.agents[i]
  {
    assert (e + 1) as real * 0.1 == e as real * 0.1 + 0.1;
  }

  ghost predicate OthersStay(p: Pool, q: Pool, cs: seq<Candidate>)
    requires |q.tasks| == |p.tasks|
  {
    forall j :: 0 <= j < |p.tasks| && (forall c :: c in cs ==> c.task != j) ==> q.tasks[j] == p.tasks[j]
  }

  lemma OthersStayNext(p: Pool, q: Pool, q': Pool, front: seq<Candidate>, last: Candidate)
    requires |q.tasks| == |p.tasks| == |q'.tasks| && OthersStay(p, q, front)
    requires forall k :: 0 <= k < |p.tasks| && k != last.task ==> q'.tasks[k] == q.tasks[k]
    ensures OthersStay(p, q', front + [last])
  {
    forall j | 0 <= j < |p.tasks| && (forall c :: c in front + [last] ==> c.task != j) ensures q'.tasks[j] == p.tasks[j] {
      assert last in front + [last];
      forall c | c in front ensures c.task != j { assert c in front + [last]; }
    }
  }

  /** The candidates tried so far have moved, up to three, and the tasks not tried are untouched. */
  ghost predicate AllTaken(p: Pool, g: Progress, under: seq<nat>, cs: seq<Candidate>) {
    && LightlyLaden(p, g, under) && |g.moves| == (if |cs| < 3 then |cs| else 3)
    && |g.pool.tasks| == |p.tasks| && OthersStay(p, g.pool, cs)
  }

  lemma AttemptNext(
      strategy: Strategy, p: Pool, g: Progress, over: seq<nat>, under: seq<nat>, front: seq<Candidate>, last: Candidate)
    requires AllTake(strategy, p) && Sides(p, over, under) && AreSides(p, HIGH, LOW, over, under)
    requires AllTaken(p, g, under, front) && |g.pool.agents| == |p.agents|
    requires IsCandidate(p, HIGH, last) && last.task < |p.tasks| && last.src < |p.agents|
    requires forall c :: c in front ==> c.task != last.task
    ensures ValidIndices(under, |g.pool.agents|) && under != []
    ensures AllTaken(p, Attempt(strategy, g, under, last), under, front + [last])
  {
    hide Attempt, AllTake, LightlyLaden, IsCandidate, Moving, Sides, AreSides, OthersStay;
    SidesSizes(p, over, under);
    LadenMoves(p, g, under);
    OtherStays(p, g.pool, front, last.task);
    AttemptTakes(strategy, p, g, over, under, last);
    AttemptMoves(strategy, p, g, under, last);
    OthersStayNext(p, g.pool, Attempt(strategy, g, under, last).pool, front, last);
  }

  lemma {:induction false} AttemptsTake(strategy: Strategy, p: Pool, over: seq<nat>, under: seq<nat>, cs: seq<Candidate>)
    requires AllTake(strategy, p) && Sides(p, over, under) && AreSides(p, HIGH, LOW, over, under)
    requires InTurn(cs) && Known(cs, p) && forall c :: c in cs ==> IsCandidate(p, HIGH, c)
    ensures AllTaken(p, Attempts(strategy, Progress(p, []), under, cs), under, cs)
  {
    if cs == [] {
      NothingLaden(p, under);
    } else {
      hide Attempt, AllTake, AllTaken, IsCandidate, Sides, AreSides;
      var front, last := cs[..|cs| - 1], cs[|cs| - 1];
      assert cs == front + [last];
      assert last in cs;
      assert forall c :: c in front ==> c in cs;
      SidesSizes(p, over, under);
      AttemptsTake(strategy, p, over, under, front);
      TaskOnce(p, front, last);
      AttemptNext(strategy, p, Attempts(strategy, Progress(p, []), under, front), over, under, front, last);
    }
  }

  lemma SidesSizes(p: Pool, over: seq<nat>, under: seq<nat>)
    requires Sides(p, over, under)
    ensures under != [] && ValidIndices(under, |p.agents|) && AgentsDiffer(p)
  {
  }

  lemma OtherStays(p: Pool, q: Pool, cs: seq<Candidate>, j: nat)
    requires |q.tasks| == |p.tasks| && OthersStay(p, q, cs) && j < |p.tasks| && forall c :: c in cs ==> c.task != j
    ensures q.tasks[j] == p.tasks[j]
  {
  }

  lemma LadenMoves(p: Pool, g: Progress, under: seq<nat>)
    requires LightlyLaden(p, g, under)
    ensures Moving(p, g.pool, under)
  {
  }

  lemma NothingLaden(p: Pool, under: seq<nat>)
    requires ValidIndices(under, |p.agents|)
    ensures LightlyLaden(p, Progress(p, []), under)
  {
    forall d | d in under ensures exists e: nat :: e <= 0 && p.agents[d] == Laden(p.agents[d], e) {
      assert p.agents[d] == Laden(p.agents[d], 0);
    }
  }

  lemma TaskOnce(p: Pool, front: seq<Candidate>, last: Candidate)
    requires AgentsDiffer(p) && InTurn(front + [last]) && forall c :: c in front + [last] ==> IsCandidate(p, HIGH, c)
    ensures forall c :: c in front ==> c.task != last.task
  {
    assert last in front + [last];
    forall c | c in front ensures c.task != last.task {
      var i :| 0 <= i < |front| && front[i] == c;
      assert (front + [last])[i] == c && (front + [last])[|front|] == last && c in front + [last];
      if c.task == last.task { HeldOnce(p, c.task, c.src, last.src); }
    }
  }

  /** At the default thresholds, where every agent that takes can take every task on offer, a call moves as many tasks as there
      are, up to three. */
  lemma ThreeMoveIfTheyCan(strategy: Strategy, p: Pool, cs: seq<Candidate>)
    requires AgentsDiffer(p) && AllTake(strategy, p) && exists d: nat :: d < |p.agents| && Light(p.agents[d], LOW)
    requires InTurn(cs) && forall c :: c in cs <==> IsCandidate(p, HIGH, c)
    ensures |Balancing(strategy, p, HIGH, LOW).moves| == if |cs| < 3 then |cs| else 3
  {
    hide Balancing, AllTake, IsCandidate;
    var over, under, them := BalancingTriesInTurn(strategy, p, HIGH, LOW);
    OneListing(cs, them);
    SidesDiffer(p, over, under);
    AttemptsTake(strategy, p, over, under, cs);
  }

  lemma SidesDiffer(p: Pool, over: seq<nat>, under: seq<nat>)
    requires AgentsDiffer(p) && AreSides(p, HIGH, LOW, over, under) && exists d: nat :: d < |p.agents| && Light(p.agents[d], LOW)
    ensures Sides(p, over, under)
  {
    var d: nat :| d < |p.agents| && Light(p.agents[d], LOW);
    assert d in under;
  }

  /** Candidates in turn are determined by which they are. */
  lemma {:induction false} OneListing(x: seq<Candidate>, y: seq<Candidate>)
    requires InTurn(x) && InTurn(y) && forall c :: c in x <==> c in y
    ensures x == y
  {
    if x == [] {
      FirstIn(y);
    } else {
      FirstIn(x);
      var i :| 0 <= i < |y| && y[i] == x[0];
      FirstIn(y);
      var j :| 0 <= j < |x| && x[j] == y[0];
      assert i == 0;
      forall c ensures c in x[1..] <==> c in y[1..] {
        RestIn(x, c);
        RestIn(y, c);
      }
      OneListing(x[1..], y[1..]);
      assert x == [x[0]] + x[1..] && y == [y[0]] + y[1..];
    }
  }

  lemma FirstIn(x: seq<Candidate>)
    ensures x != [] ==> x[0] in x
  {
  }

  lemma RestIn(x: seq<Candidate>, c: Candidate)
    requires InTurn(x) && x != []
    ensures c in x[1..] <==> c in x && c != x[0]
  {
    assert x == [x[0]] + x[1..];
    if c in x[1..] {
      var i :| 0 <= i < |x[1..]| && x[1..][i] == c;
      assert Earlier(x[0], x[i + 1]);
    }
  }
}
