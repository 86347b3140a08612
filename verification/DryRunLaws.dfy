/** What a dry run promises: exactly when it is clean, what it may log, and how it grows with its budgets. */
module DryRunLaws {
  import opened Ordering
  import opened DryRun

  function Duration(steps: seq<Step>, n: nat): real
    requires n <= |steps|
  {
    if n == 0 then 0.0 else Duration(steps, n - 1) + steps[n - 1].duration
  }

  function EffectCount(steps: seq<Step>, n: nat): nat
    requires n <= |steps|
  {
    if n == 0 then 0 else EffectCount(steps, n - 1) + |steps[n - 1].effects|
  }

  /** Every effect of the first `n` steps, in order. */
  function AllEffects(plan: Plan, n: nat): seq<LogEntry>
    requires n <= |plan.steps|
  {
    if n == 0 then [] else AllEffects(plan, n - 1) + Entries(plan, n - 1, plan.steps[n - 1].effects)
  }

  // ------------------------------------------------------------------ clean, exactly

  /** The first `n` steps declare no error, use only allowed effects, and stay within all three budgets. */
  ghost predicate Fits(c: Config, plan: Plan, n: nat)
    requires n <= |plan.steps|
  {
    && (n > 0 ==> n <= c.maxSteps)
    && (forall k :: 0 < k <= n ==> Duration(plan.steps, k) <= c.timeoutMs)
    && (EffectCount(plan.steps, n) > 0 ==> EffectCount(plan.steps, n) <= c.maxEffects)
    && (forall i :: 0 <= i < n ==> plan.steps[i].error == "" && Bad(c, plan.steps[i]) == {})
  }

  ghost predicate Untroubled(g: Progress) {
    !g.stopped && !g.budgetExceeded && !g.timeoutHit && g.rejected == [] && Failures(g.results) == 0
  }

  lemma BadEmpty(c: Config, s: Step)
    ensures Bad(c, s) == {} <==> forall e :: e in s.effects ==> e in c.allowed
    ensures SortedKeys(Bad(c, s)) == [] <==> Bad(c, s) == {}
  {
    assert forall e :: e in s.effects && e !in c.allowed ==> e in Bad(c, s);
  }

  lemma FailuresNext(results: seq<StepResult>, r: StepResult)
    ensures Failures(results + [r]) == Failures(results) + if IsFailure(r) then 1 else 0
  {
    assert (results + [r])[..|results|] == results;
  }

  /** After an untroubled start, one more round is untroubled exactly when the step passes every test. */
  lemma NextUntroubled(c: Config, plan: Plan, g: Progress, i: nat)
    requires i < |plan.steps| && Untroubled(g)
    ensures var s := plan.steps[i];
            Untroubled(Next(c, plan, g, i)) <==>
            (i < c.maxSteps && g.clock + s.duration <= c.timeoutMs && s.error == "" && Bad(c, s) == {}
             && |s.effects| <= Room(c, g.effects))
    ensures Untroubled(Next(c, plan, g, i)) ==>
              var s := plan.steps[i];
              Next(c, plan, g, i) == g.(clock := g.clock + s.duration, effects := g.effects + |s.effects|,
                log := g.log + Entries(plan, i, s.effects),
                results := g.results + [StepResult(i, s.name, Ok(s.effects, s.duration))])
  {
    var s := plan.steps[i];
    BadEmpty(c, s);
    FailuresNext(g.results, StepResult(i, s.name, FailedWith(s.error, s.duration)));
    FailuresNext(g.results, StepResult(i, s.name, Ok(s.effects, s.duration)));
  }

  lemma NextTrouble(c: Config, plan: Plan, g: Progress, i: nat)
    requires i < |plan.steps| && !Untroubled(g)
    ensures !Untroubled(if g.stopped then g else Next(c, plan, g, i))
  {
    if !g.stopped {
      var s := plan.steps[i];
      BadEmpty(c, s);
      FailuresNext(g.results, SkippedResult(plan, i, StepLimit));
      FailuresNext(g.results, StepResult(i, s.name, FailedWith(s.error, s.duration)));
      FailuresNext(g.results, StepResult(i, s.name, NotAllowed(SortedKeys(Bad(c, s)), s.duration)));
      FailuresNext(g.results, StepResult(i, s.name, Ok(s.effects, s.duration)));
    }
  }

  /** The executor's variables after `n` untroubled rounds. */
  ghost predicate OnTrack(plan: Plan, log: seq<LogEntry>, n: nat, g: Progress)
    requires n <= |plan.steps|
  {
    && g.clock == Duration(plan.steps, n) && g.effects == EffectCount(plan.steps, n)
    && g.log == log + AllEffects(plan, n) && |g.results| == n
  }

  lemma {:induction false} OnTrackNext(c: Config, plan: Plan, log: seq<LogEntry>, n: nat, g: Progress)
    requires 0 < n <= |plan.steps| && Untroubled(g) && OnTrack(plan, log, n - 1, g)
    requires Fits(c, plan, n - 1)
    ensures Untroubled(Next(c, plan, g, n - 1)) <==> Fits(c, plan, n)
    ensures Fits(c, plan, n) ==> OnTrack(plan, log, n, Next(c, plan, g, n - 1))
  {
    FitsNext(c, plan, n);
    NextUntroubled(c, plan, g, n - 1);
  }

  lemma {:induction false} UntroubledIffFits(c: Config, plan: Plan, log: seq<LogEntry>, n: nat)
    requires n <= |plan.steps|
    ensures Untroubled(After(c, plan, log, n)) <==> Fits(c, plan, n)
    ensures Fits(c, plan, n) ==> OnTrack(plan, log, n, After(c, plan, log, n))
  {
    hide Next;
    if n > 0 {
      var g := After(c, plan, log, n - 1);
      UntroubledIffFits(c, plan, log, n - 1);
      if Untroubled(g) {
        OnTrackNext(c, plan, log, n, g);
      } else {
        NextTrouble(c, plan, g, n - 1);
        FitsNext(c, plan, n);
      }
    }
  }

  lemma FitsNext(c: Config, plan: Plan, n: nat)
    requires 0 < n <= |plan.steps|
    ensures var s := plan.steps[n - 1];
            Fits(c, plan, n) <==>
            (Fits(c, plan, n - 1) && n - 1 < c.maxSteps && Duration(plan.steps, n - 1) + s.duration <= c.timeoutMs
             && s.error == "" && Bad(c, s) == {} && |s.effects| <= Room(c, EffectCount(plan.steps, n - 1)))
  {
    var s := plan.steps[n - 1];
    if Fits(c, plan, n) {
      assert Duration(plan.steps, n) <= c.timeoutMs;
      assert plan.steps[n - 1].error == "";
    }
  }

  lemma {:induction false} StoppedIsTroubled(c: Config, plan: Plan, log: seq<LogEntry>, n: nat)
    requires n <= |plan.steps|
    ensures After(c, plan, log, n).stopped ==> After(c, plan, log, n).budgetExceeded || After(c, plan, log, n).timeoutHit
  {
    if n > 0 { StoppedIsTroubled(c, plan, log, n - 1); }
  }

  /** A run is clean if and only if its steps fit: the number of steps, every running total of
      durations, the number of effects, no declared error, no effect outside the allow-list. A clean
      run logs exactly the effects of all steps in order. */
  lemma CleanExactlyWhenItFits(c: Config, plan: Plan, log: seq<LogEntry>)
    ensures VerdictOf(Outcome(c, plan, log)) == Clean <==> Fits(c, plan, |plan.steps|)
    ensures VerdictOf(Outcome(c, plan, log)) == Clean ==> Outcome(c, plan, log).log == log + AllEffects(plan, |plan.steps|)
  {
    UntroubledIffFits(c, plan, log, |plan.steps|);
    StoppedIsTroubled(c, plan, log, |plan.steps|);
  }

  lemma {:induction false} DurationGrows(steps: seq<Step>, k: nat, n: nat)
    requires k <= n <= |steps| && forall i :: 0 <= i < |steps| ==> steps[i].duration >= 0.0
    ensures Duration(steps, k) <= Duration(steps, n)
  {
    if k < n { DurationGrows(steps, k, n - 1); }
  }

  /** With nonnegative durations and budgets only the totals matter. */
  lemma CleanByTotals(c: Config, plan: Plan, log: seq<LogEntry>)
    requires c.maxEffects >= 0 && c.timeoutMs >= 0.0 && plan.steps != []
    requires forall i :: 0 <= i < |plan.steps| ==> plan.steps[i].duration >= 0.0
    ensures VerdictOf(Outcome(c, plan, log)) == Clean <==>
            (&& |plan.steps| <= c.maxSteps
             && Duration(plan.steps, |plan.steps|) <= c.timeoutMs
             && EffectCount(plan.steps, |plan.steps|) <= c.maxEffects
             && forall i :: 0 <= i < |plan.steps| ==>
                  plan.steps[i].error == "" && forall e :: e in plan.steps[i].effects ==> e in c.allowed)
  {
    CleanExactlyWhenItFits(c, plan, log);
    var n := |plan.steps|;
    forall k | 0 < k <= n ensures Duration(plan.steps, k) <= Duration(plan.steps, n) { DurationGrows(plan.steps, k, n); }
    forall i | 0 <= i < n
      ensures Bad(c, plan.steps[i]) == {} <==> forall e :: e in plan.steps[i].effects ==> e in c.allowed
    {
      BadEmpty(c, plan.steps[i]);
    }
  }

  // ------------------------------------------------------------------ every run

  lemma NextLogs(c: Config, plan: Plan, g: Progress, i: nat)
    requires i < |plan.steps|
    ensures var g' := Next(c, plan, g, i);
            && g.log <= g'.log && |g'.log| - |g.log| == g'.effects - g.effects
            && (g'.effects > g.effects ==> g'.effects <= c.maxEffects)
            && (forall k :: |g.log| <= k < |g'.log| ==> g'.log[k].effect in c.allowed && g'.log[k].step == i)
  {
    var s := plan.steps[i];
    BadEmpty(c, s);
  }

  /** Whatever happens: the count is the growth of the log, it stays within the budget, and nothing
      outside the allow-list is ever recorded. */
  lemma {:induction false} LogIsAccounted(c: Config, plan: Plan, log: seq<LogEntry>, n: nat)
    requires n <= |plan.steps|
    ensures var g := After(c, plan, log, n);
            && log <= g.log && g.effects == |g.log| - |log|
            && (g.effects > 0 ==> g.effects <= c.maxEffects)
            && (forall k :: |log| <= k < |g.log| ==> g.log[k].effect in c.allowed && g.log[k].step < n)
  {
    hide Next;
    if n > 0 {
      LogIsAccounted(c, plan, log, n - 1);
      var g := After(c, plan, log, n - 1);
      if !g.stopped {
        NextLogs(c, plan, g, n - 1);
        var g' := Next(c, plan, g, n - 1);
        forall k | |log| <= k < |g'.log| ensures g'.log[k].effect in c.allowed && g'.log[k].step < n {
          if k < |g.log| { assert g'.log[k] == g.log[k]; }
        }
      }
    }
  }

  lemma {:induction false} SkipRestLength(plan: Plan, i: nat)
    requires i <= |plan.steps|
    ensures |SkipRest(plan, i)| == |plan.steps| - i
    decreases |plan.steps| - i
  {
    if i < |plan.steps| { SkipRestLength(plan, i + 1); }
  }

  lemma NextRows(c: Config, plan: Plan, g: Progress, i: nat)
    requires i < |plan.steps| && !g.stopped && !g.timeoutHit && |g.results| == i
    ensures var g' := Next(c, plan, g, i);
            && (!g'.stopped ==> |g'.results| == i + 1 && !g'.timeoutHit)
            && (g'.stopped && !g'.timeoutHit ==> |g'.results| == |plan.steps|)
            && |g'.results| <= |plan.steps|
  {
    SkipRestLength(plan, i + 1);
  }

  /** One row per step, unless a timeout ends the run early. */
  lemma {:induction false} OneRowPerStep(c: Config, plan: Plan, log: seq<LogEntry>, n: nat)
    requires n <= |plan.steps|
    ensures var g := After(c, plan, log, n);
            && (!g.stopped ==> |g.results| == n && !g.timeoutHit)
            && (g.stopped && !g.timeoutHit ==> |g.results| == |plan.steps|)
            && |g.results| <= |plan.steps|
  {
    if n > 0 {
      OneRowPerStep(c, plan, log, n - 1);
      var g := After(c, plan, log, n - 1);
      if !g.stopped { NextRows(c, plan, g, n - 1); }
    }
  }

  // ------------------------------------------------------------------ two runs

  ghost predicate NoSmaller(c: Config, d: Config) {
    c.allowed == d.allowed && c.maxSteps <= d.maxSteps && c.timeoutMs <= d.timeoutMs && c.maxEffects <= d.maxEffects
  }

  predicate Hit(g: Progress) { g.stopped || g.budgetExceeded }

  /** How many of the first `n` steps were completed before a budget was first hit. */
  ghost function Completed(c: Config, plan: Plan, log: seq<LogEntry>, n: nat): (r: nat)
    requires n <= |plan.steps|
    ensures r <= n
  {
    if n == 0 then 0
    else if Hit(After(c, plan, log, n)) then Completed(c, plan, log, n - 1)
    else n
  }

  /** From the same point, the run with the larger budgets does at least as much. */
  lemma NextMonotone(c: Config, d: Config, plan: Plan, g: Progress, i: nat)
    requires NoSmaller(c, d) && i < |plan.steps| && !Hit(g)
    ensures Next(c, plan, g, i).log <= Next(d, plan, g, i).log
    ensures !Hit(Next(c, plan, g, i)) ==> Next(d, plan, g, i) == Next(c, plan, g, i)
    ensures g.results <= Next(c, plan, g, i).results && g.results <= Next(d, plan, g, i).results
  {
    var s := plan.steps[i];
    assert s.effects[..|s.effects|] == s.effects;
    BadEmpty(c, s);
    assert Bad(c, s) == Bad(d, s);
    assert Room(c, g.effects) <= Room(d, g.effects);
  }

  /** Once a budget is hit, nothing more is logged. */
  lemma HitIsQuiet(c: Config, plan: Plan, log: seq<LogEntry>, n: nat)
    requires 0 < n <= |plan.steps| && Hit(After(c, plan, log, n - 1))
    ensures After(c, plan, log, n).log == After(c, plan, log, n - 1).log && Hit(After(c, plan, log, n))
    ensures After(c, plan, log, n - 1).results <= After(c, plan, log, n).results
  {
    LimitPassed(c, plan, log, n - 1);
  }

  lemma {:induction false} LimitPassed(c: Config, plan: Plan, log: seq<LogEntry>, n: nat)
    requires n <= |plan.steps|
    ensures var g := After(c, plan, log, n); g.budgetExceeded && !g.stopped ==> c.maxSteps < n
  {
    if n > 0 { LimitPassed(c, plan, log, n - 1); }
  }

  /** The run with the larger budgets (`h`) against the other (`g`), of which `done` steps completed freely. */
  ghost predicate Ahead(g: Progress, h: Progress, done: nat) {
    && g.log <= h.log
    && (!Hit(g) ==> g == h)
    && done <= |g.results| && done <= |h.results| && g.results[..done] == h.results[..done]
  }

  lemma AheadStays(g: Progress, h: Progress, done: nat, g': Progress, h': Progress)
    requires Ahead(g, h, done) && Hit(g) && Hit(g')
    requires g'.log == g.log && g.results <= g'.results && h.log <= h'.log && h.results <= h'.results
    ensures Ahead(g', h', done)
  {
    assert g'.results[..done] == g.results[..done] && h'.results[..done] == h.results[..done];
  }

  lemma {:induction false} BudgetsMonotoneUpTo(c: Config, d: Config, plan: Plan, log: seq<LogEntry>, n: nat)
    requires NoSmaller(c, d) && n <= |plan.steps|
    ensures Ahead(After(c, plan, log, n), After(d, plan, log, n), Completed(c, plan, log, n))
  {
    if n > 0 {
      BudgetsMonotoneUpTo(c, d, plan, log, n - 1);
      if Hit(After(c, plan, log, n - 1)) { StillAhead(c, d, plan, log, n); } else { StepAhead(c, d, plan, log, n); }
    }
  }

  lemma {:induction false} StillAhead(c: Config, d: Config, plan: Plan, log: seq<LogEntry>, n: nat)
    requires 0 < n <= |plan.steps| && Hit(After(c, plan, log, n - 1))
    requires Ahead(After(c, plan, log, n - 1), After(d, plan, log, n - 1), Completed(c, plan, log, n - 1))
    ensures Ahead(After(c, plan, log, n), After(d, plan, log, n), Completed(c, plan, log, n))
  {
    HitIsQuiet(c, plan, log, n);
    AheadStays(After(c, plan, log, n - 1), After(d, plan, log, n - 1), Completed(c, plan, log, n - 1),
               After(c, plan, log, n), After(d, plan, log, n));
  }

  lemma AfterMonotone(c: Config, d: Config, plan: Plan, log: seq<LogEntry>, n: nat)
    requires NoSmaller(c, d) && 0 < n <= |plan.steps|
    requires var g := After(c, plan, log, n - 1); !Hit(g) && g == After(d, plan, log, n - 1)
    ensures var g, g', h' := After(c, plan, log, n - 1), After(c, plan, log, n), After(d, plan, log, n);
            g'.log <= h'.log && (!Hit(g') ==> h' == g') && g.results <= g'.results && g.results <= h'.results
  {
    hide After, Next;
    AfterIsNext(c, plan, log, n);
    AfterIsNext(d, plan, log, n);
    NextMonotone(c, d, plan, After(c, plan, log, n - 1), n - 1);
  }

  lemma AfterIsNext(c: Config, plan: Plan, log: seq<LogEntry>, n: nat)
    requires 0 < n <= |plan.steps| && !After(c, plan, log, n - 1).stopped
    ensures After(c, plan, log, n) == Next(c, plan, After(c, plan, log, n - 1), n - 1)
  {}

  lemma {:induction false} StepAhead(c: Config, d: Config, plan: Plan, log: seq<LogEntry>, n: nat)
    requires NoSmaller(c, d) && 0 < n <= |plan.steps|
    requires var g := After(c, plan, log, n - 1); !Hit(g) && g == After(d, plan, log, n - 1)
    ensures Ahead(After(c, plan, log, n), After(d, plan, log, n), Completed(c, plan, log, n))
  {
    hide After, Next, Ahead, Completed;
    var g := After(c, plan, log, n - 1);
    OneRowPerStep(c, plan, log, n - 1);
    OneRowPerStep(c, plan, log, n);
    AfterMonotone(c, d, plan, log, n);
    FreelyAhead(c, plan, log, g, After(c, plan, log, n), After(d, plan, log, n), n);
  }

  lemma FreelyAhead(c: Config, plan: Plan, log: seq<LogEntry>, g: Progress, g': Progress, h': Progress, n: nat)
    requires 0 < n <= |plan.steps| && g == After(c, plan, log, n - 1) && g' == After(c, plan, log, n) && !Hit(g)
    requires |g.results| == n - 1 && (!Hit(g') ==> |g'.results| == n)
    requires g'.log <= h'.log && (!Hit(g') ==> h' == g') && g.results <= g'.results && g.results <= h'.results
    ensures Ahead(g', h', Completed(c, plan, log, n))
  {
    if Hit(g') {
      assert Completed(c, plan, log, n) == n - 1;
    }
  }

  /** Larger budgets only add. Two runs of the same plan: the one with the larger budgets logs an
      extension of what the other logged, and agrees with it on every step completed before the
      smaller budgets were hit. */
  lemma LargerBudgetsExtend(c: Config, d: Config, plan: Plan, log: seq<LogEntry>)
    requires NoSmaller(c, d)
    ensures var g, h := Outcome(c, plan, log), Outcome(d, plan, log);
            var done := Completed(c, plan, log, |plan.steps|);
            && g.log <= h.log
            && done <= |g.results| && done <= |h.results| && g.results[..done] == h.results[..done]
            && (!Hit(g) ==> g == h && done == |plan.steps|)
  {
    BudgetsMonotoneUpTo(c, d, plan, log, |plan.steps|);
  }
}
