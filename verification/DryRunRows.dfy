/** The report of a dry run explains itself: every row, the verdict, the log and the totals follow
    from the plan, the budgets and the rows before. */
module DryRunRows {
  import opened Ordering
  import opened DryRun

  // ------------------------------------------------------------------ what the rows add up to

  /** A step that ran took its time, whatever became of it; so did the one whose effects no longer
      all fitted. */
  ghost function Took(plan: Plan, before: seq<StepResult>, r: StepResult): real
    requires |before| < |plan.steps|
  {
    if r.status.Skipped? && (r.status.cause != EffectBudget || Spent(before)) then 0.0
    else plan.steps[|before|].duration
  }

  ghost function Clock(plan: Plan, rows: seq<StepResult>): real
    requires |rows| <= |plan.steps|
  {
    if rows == [] then 0.0 else Clock(plan, rows[..|rows| - 1]) + Took(plan, rows[..|rows| - 1], rows[|rows| - 1])
  }

  function Applied(r: StepResult): seq<string> { if r.status.Ok? then r.status.applied else [] }

  function AppliedCount(rows: seq<StepResult>): nat {
    if rows == [] then 0 else AppliedCount(rows[..|rows| - 1]) + |Applied(rows[|rows| - 1])|
  }

  /** The disallowed effects that the rows name, in order. */
  function RejectedBy(rows: seq<StepResult>): seq<string> {
    if rows == [] then []
    else
      var last := rows[|rows| - 1];
      RejectedBy(rows[..|rows| - 1]) + if last.status.NotAllowed? then last.status.bad else []
  }

  ghost predicate IsSpent(r: StepResult) { r.status == Skipped(EffectBudget) }

  ghost predicate Spent(rows: seq<StepResult>) { exists i :: 0 <= i < |rows| && IsSpent(rows[i]) }

  /** The effects a row leaves in the log: all of a step that succeeded, and of the first step that is
      skipped for the effect budget as many as still fitted. */
  ghost function RowLogs(c: Config, plan: Plan, before: seq<StepResult>, r: StepResult): seq<LogEntry>
    requires |before| < |plan.steps|
  {
    var i, used := |before|, AppliedCount(before);
    var effects := plan.steps[i].effects;
    if r.status.Ok? then Entries(plan, i, r.status.applied)
    else if IsSpent(r) && !Spent(before) then
      Entries(plan, i, if used < c.maxEffects && c.maxEffects - used < |effects| then effects[..c.maxEffects - used] else [])
    else []
  }

  ghost function LoggedBy(c: Config, plan: Plan, rows: seq<StepResult>): seq<LogEntry>
    requires |rows| <= |plan.steps|
  {
    if rows == [] then []
    else LoggedBy(c, plan, rows[..|rows| - 1]) + RowLogs(c, plan, rows[..|rows| - 1], rows[|rows| - 1])
  }

  /** One reason for each step over the limit, for the timeout and for the effect budget. */
  ghost function ReasonsOf(plan: Plan, rows: seq<StepResult>): seq<Reason>
    requires |rows| <= |plan.steps|
  {
    if rows == [] then [] else ReasonsOf(plan, rows[..|rows| - 1]) + ReasonOf(plan, rows[..|rows| - 1], rows[|rows| - 1])
  }

  ghost function ReasonOf(plan: Plan, before: seq<StepResult>, r: StepResult): seq<Reason>
    requires |before| <= |plan.steps|
  {
    if r.status == Skipped(StepLimit) then [StepsExceeded]
    else if r.status == Skipped(Timeout) then [TimedOut(Clock(plan, before))]
    else if IsSpent(r) && !Spent(before) then [EffectsExceeded]
    else []
  }

  // ------------------------------------------------------------------ one row

  /** What row `i` must say, given the rows before it. */
  ghost predicate RowTells(c: Config, plan: Plan, before: seq<StepResult>, r: StepResult, i: nat)
    requires |before| == i < |plan.steps|
  {
    var s := plan.steps[i];
    && r.step == i && r.name == s.name
    && if Spent(before) then r.status == Skipped(EffectBudget)
       else if i >= c.maxSteps then r.status == Skipped(StepLimit)
       else if Clock(plan, before) + s.duration > c.timeoutMs then r.status == Skipped(Timeout)
       else if s.error != "" then r.status == FailedWith(s.error, s.duration)
       else if exists e :: e in s.effects && e !in c.allowed then
         r.status.NotAllowed? && r.status.refusedAfter == s.duration
         && Sorted(r.status.bad) && forall e :: e in r.status.bad <==> e in s.effects && e !in c.allowed
       else if |s.effects| > 0 && AppliedCount(before) + |s.effects| > c.maxEffects then r.status == Skipped(EffectBudget)
       else r.status == Ok(s.effects, s.duration)
  }

  ghost predicate RowsTell(c: Config, plan: Plan, rows: seq<StepResult>) {
    |rows| <= |plan.steps| && forall i :: 0 <= i < |rows| ==> RowTells(c, plan, rows[..i], rows[i], i)
  }

  lemma RowsTellNext(c: Config, plan: Plan, rows: seq<StepResult>, r: StepResult)
    requires RowsTell(c, plan, rows) && |rows| < |plan.steps| && RowTells(c, plan, rows, r, |rows|)
    ensures RowsTell(c, plan, rows + [r])
  {
    hide RowTells;
    var all := rows + [r];
    forall i | 0 <= i < |all| ensures RowTells(c, plan, all[..i], all[i], i) {
      assert all[..i] == rows[..i];
      if i == |rows| { assert rows[..i] == rows; }
    }
  }

  lemma SpentNext(rows: seq<StepResult>, r: StepResult)
    ensures Spent(rows + [r]) <==> Spent(rows) || IsSpent(r)
  {
    var all := rows + [r];
    if i :| 0 <= i < |rows| && IsSpent(rows[i]) { assert IsSpent(all[i]); }
    if IsSpent(r) { assert IsSpent(all[|rows|]); }
  }

  lemma LoggedNext(c: Config, plan: Plan, rows: seq<StepResult>, r: StepResult)
    requires |rows| < |plan.steps|
    ensures LoggedBy(c, plan, rows + [r]) == LoggedBy(c, plan, rows) + RowLogs(c, plan, rows, r)
  {
    assert (rows + [r])[..|rows|] == rows;
  }

  lemma SumsNext(plan: Plan, rows: seq<StepResult>, r: StepResult)
    requires |rows| < |plan.steps|
    ensures Clock(plan, rows + [r]) == Clock(plan, rows) + Took(plan, rows, r)
    ensures AppliedCount(rows + [r]) == AppliedCount(rows) + |Applied(r)|
    ensures ReasonsOf(plan, rows + [r]) == ReasonsOf(plan, rows) + ReasonOf(plan, rows, r)
    ensures RejectedBy(rows + [r]) == RejectedBy(rows) + if r.status.NotAllowed? then r.status.bad else []
  {
    assert (rows + [r])[..|rows|] == rows;
  }

  /** The rows skipped for the effect budget tell nothing new. */
  lemma {:induction false} SkippedTell(c: Config, plan: Plan, rows: seq<StepResult>)
    requires RowsTell(c, plan, rows) && Spent(rows)
    ensures RowsTell(c, plan, rows + SkipRest(plan, |rows|))
    ensures |rows + SkipRest(plan, |rows|)| == |plan.steps|
    ensures Clock(plan, rows + SkipRest(plan, |rows|)) == Clock(plan, rows)
    ensures AppliedCount(rows + SkipRest(plan, |rows|)) == AppliedCount(rows)
    ensures RejectedBy(rows + SkipRest(plan, |rows|)) == RejectedBy(rows)
    ensures ReasonsOf(plan, rows + SkipRest(plan, |rows|)) == ReasonsOf(plan, rows)
    ensures Spent(rows + SkipRest(plan, |rows|))
    ensures LoggedBy(c, plan, rows + SkipRest(plan, |rows|)) == LoggedBy(c, plan, rows)
    decreases |plan.steps| - |rows|
  {
    hide RowsTell, Spent, Clock, AppliedCount, RejectedBy, LoggedBy, ReasonsOf;
    RowsAreFew(c, plan, rows);
    var i := |rows|;
    if i == |plan.steps| {
      assert rows + [] == rows;
    } else {
      var r := SkippedResult(plan, i, EffectBudget);
      RowsTellNext(c, plan, rows, r);
      SpentNext(rows, r);
      SumsNext(plan, rows, r);
      LoggedNext(c, plan, rows, r);
      assert LoggedBy(c, plan, rows) + [] == LoggedBy(c, plan, rows);
      SkippedTell(c, plan, rows + [r]);
      assert rows + SkipRest(plan, i) == rows + [r] + SkipRest(plan, i + 1);
      assert RejectedBy(rows) + [] == RejectedBy(rows) && ReasonsOf(plan, rows) + [] == ReasonsOf(plan, rows);
    }
  }

  lemma RowsAreFew(c: Config, plan: Plan, rows: seq<StepResult>)
    requires RowsTell(c, plan, rows)
    ensures |rows| <= |plan.steps|
  {
  }

  // ------------------------------------------------------------------ every round

  ghost predicate Limited(rows: seq<StepResult>) { exists i :: 0 <= i < |rows| && rows[i].status == Skipped(StepLimit) }

  predicate IsTimeout(r: StepResult) { r.status == Skipped(Timeout) }

  ghost predicate OnlyLastTimesOut(rows: seq<StepResult>) {
    forall i :: 0 <= i < |rows| - 1 ==> !IsTimeout(rows[i])
  }

  /** The executor's variables are what the rows say. */
  ghost predicate Told(c: Config, plan: Plan, log: seq<LogEntry>, g: Progress) {
    && RowsTell(c, plan, g.results)
    && g.clock == Clock(plan, g.results) && g.rejected == RejectedBy(g.results)
    && g.reasons == ReasonsOf(plan, g.results)
    && g.log == log + LoggedBy(c, plan, g.results) && g.effects == |LoggedBy(c, plan, g.results)|
    && (g.budgetExceeded <==> Spent(g.results) || Limited(g.results))
    && (g.timeoutHit <==> g.results != [] && IsTimeout(g.results[|g.results| - 1]))
    && (g.stopped <==> g.timeoutHit || Spent(g.results))
    && OnlyLastTimesOut(g.results)
    && (!Spent(g.results) ==> g.effects == AppliedCount(g.results))
    && (Spent(g.results) ==> |g.results| == |plan.steps|)
  }

  lemma LimitedNext(rows: seq<StepResult>, r: StepResult)
    ensures Limited(rows + [r]) <==> Limited(rows) || r.status == Skipped(StepLimit)
  {
    var all := rows + [r];
    if i :| 0 <= i < |rows| && rows[i].status == Skipped(StepLimit) { assert all[i].status == Skipped(StepLimit); }
    if r.status == Skipped(StepLimit) { assert all[|rows|].status == Skipped(StepLimit); }
  }

  /** A round that adds one row and does not spend the effect budget. */
  lemma RowAdded(c: Config, plan: Plan, log: seq<LogEntry>, g: Progress, g': Progress, r: StepResult)
    requires Told(c, plan, log, g) && !g.stopped && |g.results| < |plan.steps|
    requires RowTells(c, plan, g.results, r, |g.results|) && !IsSpent(r)
    requires g'.results == g.results + [r] && g'.clock == g.clock + Took(plan, g.results, r)
    requires g'.reasons == g.reasons + ReasonOf(plan, g.results, r)
    requires g'.rejected == g.rejected + if r.status.NotAllowed? then r.status.bad else []
    requires var more := if r.status.Ok? then Entries(plan, |g.results|, r.status.applied) else [];
             g'.log == g.log + more && g'.effects == g.effects + |more|
    requires g'.budgetExceeded == (g.budgetExceeded || r.status == Skipped(StepLimit))
    requires g'.timeoutHit == IsTimeout(r) && g'.stopped == IsTimeout(r)
    ensures Told(c, plan, log, g')
  {
    hide RowTells, RowsTell, Spent, Limited, Clock, AppliedCount, RejectedBy, LoggedBy, ReasonsOf;
    RowsTellNext(c, plan, g.results, r);
    SpentNext(g.results, r);
    LimitedNext(g.results, r);
    SumsNext(plan, g.results, r);
    LoggedNext(c, plan, g.results, r);
  }

  /** A round that spends the effect budget: its step and all later ones are skipped. */
  lemma BudgetSpent(c: Config, plan: Plan, log: seq<LogEntry>, g: Progress, g': Progress, r: StepResult)
    requires Told(c, plan, log, g) && !g.stopped && |g.results| < |plan.steps|
    requires RowTells(c, plan, g.results, r, |g.results|) && IsSpent(r)
    requires g'.results == g.results + [r] + SkipRest(plan, |g.results| + 1)
    requires g'.reasons == g.reasons + [EffectsExceeded]
    requires g'.clock == g.clock + Took(plan, g.results, r) && g'.rejected == g.rejected
    requires g'.stopped && !g'.timeoutHit && g'.budgetExceeded
    requires var more := RowLogs(c, plan, g.results, r); g'.log == g.log + more && g'.effects == g.effects + |more|
    ensures Told(c, plan, log, g')
  {
    hide RowTells, RowsTell, Spent, Clock, AppliedCount, RejectedBy, LoggedBy, RowLogs, ReasonsOf;
    var rows := g.results + [r];
    RowsTellNext(c, plan, g.results, r);
    SpentNext(g.results, r);
    SumsNext(plan, g.results, r);
    LoggedNext(c, plan, g.results, r);
    SkippedTell(c, plan, rows);
    SkippedKeepTimeouts(plan, rows);
    LastIsSpent(plan, rows);
    assert RejectedBy(g.results) + [] == RejectedBy(g.results);
  }

  lemma {:induction false} SkippedKeepTimeouts(plan: Plan, rows: seq<StepResult>)
    requires |rows| <= |plan.steps| && forall i :: 0 <= i < |rows| ==> !IsTimeout(rows[i])
    ensures OnlyLastTimesOut(rows + SkipRest(plan, |rows|))
    decreases |plan.steps| - |rows|
  {
    if |rows| == |plan.steps| {
      assert rows + [] == rows;
    } else {
      var r := SkippedResult(plan, |rows|, EffectBudget);
      SkippedKeepTimeouts(plan, rows + [r]);
      assert rows + SkipRest(plan, |rows|) == rows + [r] + SkipRest(plan, |rows| + 1);
    }
  }

  lemma {:induction false} LastIsSpent(plan: Plan, rows: seq<StepResult>)
    requires rows != [] && IsSpent(rows[|rows| - 1]) && |rows| <= |plan.steps|
    ensures var all := rows + SkipRest(plan, |rows|); IsSpent(all[|all| - 1])
    decreases |plan.steps| - |rows|
  {
    if |rows| == |plan.steps| {
      assert rows + [] == rows;
    } else {
      var r := SkippedResult(plan, |rows|, EffectBudget);
      LastIsSpent(plan, rows + [r]);
      assert rows + SkipRest(plan, |rows|) == rows + [r] + SkipRest(plan, |rows| + 1);
    }
  }

  /** What round `i` adds when it spends no budget. */
  function RowOf(c: Config, plan: Plan, i: nat, status: Status): StepResult
    requires i < |plan.steps|
  {
    StepResult(i, plan.steps[i].name, status)
  }

  lemma VettedTold(c: Config, plan: Plan, log: seq<LogEntry>, g: Progress, bad: seq<string>)
    requires Told(c, plan, log, g) && !g.stopped && |g.results| < |plan.steps| && |g.results| < c.maxSteps
    requires var s := plan.steps[|g.results|]; g.clock + s.duration <= c.timeoutMs && s.error == ""
    requires Sorted(bad) && forall e :: e in bad <==> e in plan.steps[|g.results|].effects && e !in c.allowed
    ensures Told(c, plan, log, Vetted(c, plan, g.(clock := g.clock + plan.steps[|g.results|].duration), |g.results|, bad))
  {
    hide Spent, Clock, AppliedCount, RejectedBy, LoggedBy, RowsTell, Limited, ReasonsOf;
    assert g.reasons + [] == g.reasons;
    var i := |g.results|;
    var s := plan.steps[i];
    var t := g.(clock := g.clock + s.duration);
    var g' := Vetted(c, plan, t, i, bad);
    if bad != [] {
      assert bad[0] in bad;
      RowAdded(c, plan, log, g, g', RowOf(c, plan, i, NotAllowed(bad, s.duration)));
    } else {
      NoneBad(c, s, bad);
      EffectedTold(c, plan, log, g, s.duration);
    }
  }

  lemma NoneBad(c: Config, s: Step, bad: seq<string>)
    requires bad == [] && forall e :: e in bad <==> e in s.effects && e !in c.allowed
    ensures forall e :: e in s.effects ==> e in c.allowed
  {
    forall e | e in s.effects ensures e in c.allowed { assert e !in bad; }
  }

  lemma EffectedTold(c: Config, plan: Plan, log: seq<LogEntry>, g: Progress, duration: real)
    requires Told(c, plan, log, g) && !g.stopped && |g.results| < |plan.steps| && |g.results| < c.maxSteps
    requires var s := plan.steps[|g.results|];
             g.clock + s.duration <= c.timeoutMs && s.error == "" && duration == s.duration
             && forall e :: e in s.effects ==> e in c.allowed
    ensures Told(c, plan, log, Effected(c, plan, g.(clock := g.clock + duration), |g.results|))
  {
    hide Spent, Clock, AppliedCount, RejectedBy, LoggedBy, RowsTell, Limited, ReasonsOf;
    assert g.reasons + [] == g.reasons;
    var i := |g.results|;
    var s := plan.steps[i];
    var g' := Effected(c, plan, g.(clock := g.clock + duration), i);
    if |s.effects| <= Room(c, g.effects) {
      RowAdded(c, plan, log, g, g', RowOf(c, plan, i, Ok(s.effects, s.duration)));
    } else {
      BudgetSpent(c, plan, log, g, g', RowOf(c, plan, i, Skipped(EffectBudget)));
    }
  }

  lemma RoundTold(c: Config, plan: Plan, log: seq<LogEntry>, g: Progress)
    requires Told(c, plan, log, g) && !g.stopped && |g.results| < |plan.steps|
    ensures Told(c, plan, log, Next(c, plan, g, |g.results|))
  {
    hide Spent, Clock, AppliedCount, RejectedBy, LoggedBy, RowsTell, Limited, Vetted, ReasonsOf;
    assert g.reasons + [] == g.reasons;
    var i := |g.results|;
    var s := plan.steps[i];
    var g' := Next(c, plan, g, i);
    assert g.rejected + [] == g.rejected && g.log + [] == g.log;
    if i >= c.maxSteps {
      RowAdded(c, plan, log, g, g', RowOf(c, plan, i, Skipped(StepLimit)));
    } else if g.clock + s.duration > c.timeoutMs {
      RowAdded(c, plan, log, g, g', RowOf(c, plan, i, Skipped(Timeout)));
    } else if s.error != "" {
      RowAdded(c, plan, log, g, g', RowOf(c, plan, i, FailedWith(s.error, s.duration)));
    } else {
      var bad := SortedKeys(Bad(c, s));
      assert forall e :: e in bad <==> e in s.effects && e !in c.allowed;
      VettedTold(c, plan, log, g, bad);
    }
  }

  lemma StartTold(c: Config, plan: Plan, log: seq<LogEntry>)
    ensures Told(c, plan, log, Start(log))
  {
  }

  lemma RoundCounts(c: Config, plan: Plan, log: seq<LogEntry>, g: Progress, i: nat)
    requires Told(c, plan, log, g) && !g.stopped && |g.results| == i < |plan.steps|
    ensures var g' := Next(c, plan, g, i); Told(c, plan, log, g') && (!g'.stopped ==> |g'.results| == i + 1)
  {
    hide Next, Told;
    RoundTold(c, plan, log, g);
    ToldCount(c, plan, log, g);
  }

  lemma AfterNext(c: Config, plan: Plan, log: seq<LogEntry>, n: nat)
    requires 0 < n <= |plan.steps|
    ensures var g := After(c, plan, log, n - 1); After(c, plan, log, n) == if g.stopped then g else Next(c, plan, g, n - 1)
  {
  }

  ghost predicate ToldBy(c: Config, plan: Plan, log: seq<LogEntry>, g: Progress, n: nat) {
    Told(c, plan, log, g) && (!g.stopped ==> |g.results| == n)
  }

  lemma RoundToldBy(c: Config, plan: Plan, log: seq<LogEntry>, g: Progress, n: nat)
    requires ToldBy(c, plan, log, g, n) && n < |plan.steps|
    ensures ToldBy(c, plan, log, if g.stopped then g else Next(c, plan, g, n), n + 1)
  {
    hide Next, Told;
    if !g.stopped { RoundCounts(c, plan, log, g, n); }
  }

  lemma {:induction false} AfterTold(c: Config, plan: Plan, log: seq<LogEntry>, n: nat)
    requires n <= |plan.steps|
    ensures ToldBy(c, plan, log, After(c, plan, log, n), n)
  {
    hide Next, ToldBy, After;
    if n == 0 {
      AtStart(c, plan, log);
    } else {
      AfterTold(c, plan, log, n - 1);
      AfterNext(c, plan, log, n);
      RoundToldBy(c, plan, log, After(c, plan, log, n - 1), n - 1);
    }
  }

  lemma AtStart(c: Config, plan: Plan, log: seq<LogEntry>)
    ensures ToldBy(c, plan, log, After(c, plan, log, 0), 0)
  {
    StartTold(c, plan, log);
  }

  lemma ToldCount(c: Config, plan: Plan, log: seq<LogEntry>, g: Progress)
    requires Told(c, plan, log, g) && !g.stopped && |g.results| < |plan.steps|
    ensures var g' := Next(c, plan, g, |g.results|); !g'.stopped ==> |g'.results| == |g.results| + 1
  {
  }

  // ------------------------------------------------------------------ the report

  lemma {:induction false} FailuresShow(rows: seq<StepResult>)
    ensures Failures(rows) > 0 <==> exists i :: 0 <= i < |rows| && (rows[i].status.FailedWith? || rows[i].status.NotAllowed?)
  {
    if rows != [] {
      FailuresShow(rows[..|rows| - 1]);
      if IsFailure(rows[|rows| - 1]) { assert rows[|rows| - 1].status.FailedWith? || rows[|rows| - 1].status.NotAllowed?; }
    }
  }

  lemma {:induction false} RejectionsShow(rows: seq<StepResult>)
    requires RejectedBy(rows) != []
    ensures exists i :: 0 <= i < |rows| && rows[i].status.NotAllowed?
  {
    if RejectedBy(rows[..|rows| - 1]) != [] {
      RejectionsShow(rows[..|rows| - 1]);
      var i :| 0 <= i < |rows| - 1 && rows[..|rows| - 1][i].status.NotAllowed?;
      assert rows[i].status.NotAllowed?;
    } else {
      assert rows[|rows| - 1].status.NotAllowed?;
    }
  }

  ghost predicate SomeFailed(rows: seq<StepResult>) {
    exists i :: 0 <= i < |rows| && (rows[i].status.FailedWith? || rows[i].status.NotAllowed?)
  }

  ghost predicate SomeSkipped(rows: seq<StepResult>) { exists i :: 0 <= i < |rows| && rows[i].status.Skipped? }

  /** The report of every dry run, read off its rows. Each row is what its step, the budgets and the
      rows before it say. The verdict is that something failed if any row failed; else that a budget
      was exceeded if any row was skipped; else clean. The log grows by what the rows applied, and the
      clock, the rejected effects and the reasons are the rows' own. */
  lemma ReportTells(c: Config, plan: Plan, log: seq<LogEntry>)
    ensures var g := Outcome(c, plan, log);
            && RowsTell(c, plan, g.results)
            && VerdictOf(g) == (if SomeFailed(g.results) then HasFailures
                                else if SomeSkipped(g.results) then BudgetExceeded else Clean)
            && g.log == log + LoggedBy(c, plan, g.results) && g.effects == |LoggedBy(c, plan, g.results)|
            && g.clock == Clock(plan, g.results) && g.rejected == RejectedBy(g.results)
            && g.reasons == ReasonsOf(plan, g.results)
            && (|g.results| == |plan.steps| || (g.results != [] && IsTimeout(g.results[|g.results| - 1])))
  {
    hide RowsTell, Clock, LoggedBy, RejectedBy, ReasonsOf, Failures, After;
    var g := Outcome(c, plan, log);
    AfterTold(c, plan, log, |plan.steps|);
    FailuresShow(g.results);
    if g.rejected != [] { RejectionsShow(g.results); }
    if i :| 0 <= i < |g.results| && g.results[i].status.Skipped? {
      if IsTimeout(g.results[i]) { assert i == |g.results| - 1; }
      else if g.results[i].status.cause == EffectBudget { assert IsSpent(g.results[i]); }
      else { assert g.results[i].status == Skipped(StepLimit); }
    }
  }
}
