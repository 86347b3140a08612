/** omni/simulation/runner.py: the dry-run executor. A plan is run under three budgets against a
    backend that only records effects. */
module DryRun {
  import opened Ordering
  import opened Json

  datatype Step = Step(name: Option<string>, duration: real, error: string, effects: seq<string>)

  datatype Config = Config(allowed: set<string>, maxSteps: int, timeoutMs: real, maxEffects: int)

  datatype LogEntry = LogEntry(effect: string, step: nat, plan: string)

  datatype Cause = StepLimit | Timeout | EffectBudget

  datatype Status =
    | Ok(applied: seq<string>, duration: real)
    | FailedWith(error: string, failedAfter: real)
    | NotAllowed(bad: seq<string>, refusedAfter: real)
    | Skipped(cause: Cause)

  datatype StepResult = StepResult(step: nat, name: Option<string>, status: Status)

  datatype Reason = StepsExceeded | TimedOut(clock: real) | EffectsExceeded

  datatype Progress = Progress(
    clock: real, effects: nat, rejected: seq<string>, reasons: seq<Reason>, timeoutHit: bool, budgetExceeded: bool,
    results: seq<StepResult>, log: seq<LogEntry>, stopped: bool)

  datatype Plan = Plan(name: string, steps: seq<Step>)

  function Start(log: seq<LogEntry>): Progress {
    Progress(0.0, 0, [], [], false, false, [], log, false)
  }

  function Bad(c: Config, s: Step): set<string> {
    set e | e in s.effects && e !in c.allowed
  }

  function SkippedResult(plan: Plan, i: nat, cause: Cause): StepResult
    requires i < |plan.steps|
  {
    StepResult(i, plan.steps[i].name, Skipped(cause))
  }

  /** The steps from `i` on, all skipped for the effect budget. */
  function SkipRest(plan: Plan, i: nat): seq<StepResult>
    requires i <= |plan.steps|
    decreases |plan.steps| - i
  {
    if i == |plan.steps| then [] else [SkippedResult(plan, i, EffectBudget)] + SkipRest(plan, i + 1)
  }

  /** How many more effects fit. */
  function Room(c: Config, used: nat): nat {
    if used <= c.maxEffects then c.maxEffects - used else 0
  }

  function Entries(plan: Plan, i: nat, effects: seq<string>): (r: seq<LogEntry>)
    ensures |r| == |effects|
    ensures forall k :: 0 <= k < |r| ==> r[k] == LogEntry(effects[k], i, plan.name)
  {
    seq(|effects|, k requires 0 <= k < |effects| => LogEntry(effects[k], i, plan.name))
  }

  /** One round of the loop. */
  ghost function Next(c: Config, plan: Plan, g: Progress, i: nat): Progress
    requires i < |plan.steps|
  {
    var s := plan.steps[i];
    if i >= c.maxSteps then
      g.(budgetExceeded := true, reasons := g.reasons + [StepsExceeded],
         results := g.results + [SkippedResult(plan, i, StepLimit)])
    else if g.clock + s.duration > c.timeoutMs then
      g.(timeoutHit := true, reasons := g.reasons + [TimedOut(g.clock)],
         results := g.results + [SkippedResult(plan, i, Timeout)], stopped := true)
    else
      var t := g.(clock := g.clock + s.duration);
      if s.error != "" then
        t.(results := g.results + [StepResult(i, s.name, FailedWith(s.error, s.duration))])
      else Vetted(c, plan, t, i, SortedKeys(Bad(c, s)))
  }

  /** A step with its disallowed effects: any of them fails it. */
  function Vetted(c: Config, plan: Plan, g: Progress, i: nat, bad: seq<string>): Progress
    requires i < |plan.steps|
  {
    var s := plan.steps[i];
    if bad != [] then
      g.(rejected := g.rejected + bad, results := g.results + [StepResult(i, s.name, NotAllowed(bad, s.duration))])
    else Effected(c, plan, g, i)
  }

  /** A step whose effects are all allowed: they are applied while the effect budget lasts. */
  function Effected(c: Config, plan: Plan, g: Progress, i: nat): Progress
    requires i < |plan.steps|
  {
    var s := plan.steps[i];
    if |s.effects| > Room(c, g.effects) then
      var n := Room(c, g.effects);
      g.(budgetExceeded := true, reasons := g.reasons + [EffectsExceeded], effects := g.effects + n,
         log := g.log + Entries(plan, i, s.effects[..n]),
         results := g.results + [SkippedResult(plan, i, EffectBudget)] + SkipRest(plan, i + 1), stopped := true)
    else
      g.(effects := g.effects + |s.effects|, log := g.log + Entries(plan, i, s.effects),
         results := g.results + [StepResult(i, s.name, Ok(s.effects, s.duration))])
  }

  /** The executor's variables after the first `n` rounds. */
  ghost function After(c: Config, plan: Plan, log: seq<LogEntry>, n: nat): Progress
    requires n <= |plan.steps|
  {
    if n == 0 then Start(log)
    else
      var g := After(c, plan, log, n - 1);
      if g.stopped then g else Next(c, plan, g, n - 1)
  }

  datatype Verdict = Clean | HasFailures | BudgetExceeded

  predicate IsFailure(r: StepResult) { r.status.FailedWith? || r.status.NotAllowed? }

  function Failures(results: seq<StepResult>): nat {
    if results == [] then 0
    else Failures(results[..|results| - 1]) + if IsFailure(results[|results| - 1]) then 1 else 0
  }

  function VerdictOf(g: Progress): Verdict {
    if Failures(g.results) > 0 || g.rejected != [] then HasFailures
    else if g.budgetExceeded || g.timeoutHit then BudgetExceeded
    else Clean
  }

  ghost function Outcome(c: Config, plan: Plan, log: seq<LogEntry>): Progress {
    After(c, plan, log, |plan.steps|)
  }

  lemma {:induction false} StoppedStays(c: Config, plan: Plan, log: seq<LogEntry>, i: nat, n: nat)
    requires i <= n <= |plan.steps| && After(c, plan, log, i).stopped
    ensures After(c, plan, log, n) == After(c, plan, log, i)
  {
    if i < n { StoppedStays(c, plan, log, i, n - 1); }
  }

  // ------------------------------------------------------------------ the executor

  /** `NoopEffectBackend`: an effect is a list append. */
  class NoopEffectBackend {
    var log: seq<LogEntry>

    constructor ()
      ensures log == []
    {
      log := [];
    }

    method ApplyEffect(e: LogEntry)
      modifies this
      ensures log == old(log) + [e]
    {
      log := log + [e];
    }
  }

  datatype Report = Report(verdict: Verdict, final: Progress)

  class DryRunExecutor {
    const backend: NoopEffectBackend
    const config: Config

    constructor (backend: NoopEffectBackend, config: Config)
      ensures this.backend == backend && this.config == config
    {
      this.backend, this.config := backend, config;
    }

    /** The loop over the effects of one step, until the effect budget is spent. */
    method ApplyEffects(plan: Plan, i: nat, effects: seq<string>, used: nat) returns (n: nat)
      modifies backend
      ensures n == if |effects| > Room(config, used) then Room(config, used) else |effects|
      ensures backend.log == old(backend.log) + Entries(plan, i, effects[..n])
    {
      n := 0;
      while n < |effects| && used + n < config.maxEffects
        invariant n <= |effects| && (n > 0 ==> used + n <= config.maxEffects)
        invariant backend.log == old(backend.log) + Entries(plan, i, effects[..n])
      {
        backend.ApplyEffect(LogEntry(effects[n], i, plan.name));
        assert Entries(plan, i, effects[..n + 1]) == Entries(plan, i, effects[..n]) + [LogEntry(effects[n], i, plan.name)];
        n := n + 1;
      }
    }

    /** One step that may run, once its disallowed effects are known. */
    method RunVetted(plan: Plan, i: nat, g: Progress, bad: seq<string>) returns (r: Progress)
      requires i < |plan.steps| && g.log == backend.log
      modifies backend
      ensures r == Vetted(config, plan, g, i, bad) && r.log == backend.log
    {
      if bad != [] {
        var s := plan.steps[i];
        return g.(rejected := g.rejected + bad, results := g.results + [StepResult(i, s.name, NotAllowed(bad, s.duration))]);
      }
      r := RunEffects(plan, i, g);
    }

    method RunEffects(plan: Plan, i: nat, g: Progress) returns (r: Progress)
      requires i < |plan.steps| && g.log == backend.log
      modifies backend
      ensures r == Effected(config, plan, g, i) && r.log == backend.log
    {
      var s := plan.steps[i];
      var n := ApplyEffects(plan, i, s.effects, g.effects);
      r := g.(effects := g.effects + n, log := backend.log);
      if n < |s.effects| {
        r := r.(budgetExceeded := true, reasons := g.reasons + [EffectsExceeded],
                results := g.results + [SkippedResult(plan, i, EffectBudget)] + SkipRest(plan, i + 1), stopped := true);
        return;
      }
      assert s.effects[..n] == s.effects;
      r := r.(results := g.results + [StepResult(i, s.name, Ok(s.effects, s.duration))]);
    }

    /** `run`; None where the source raises ValueError. */
    method Execute(plan: Plan) returns (report: Option<Report>)
      modifies backend
      ensures report == None <==> plan.steps == []
      ensures plan.steps == [] ==> backend.log == old(backend.log)
      ensures plan.steps != [] ==>
                var g := Outcome(config, plan, old(backend.log));
                report.value == Report(VerdictOf(g), g) && backend.log == g.log
    {
      if plan.steps == [] {
        return None;
      }
      var g := Start(backend.log);
      var i := 0;
      while i < |plan.steps| && !g.stopped
        invariant i <= |plan.steps|
        invariant g == After(config, plan, old(backend.log), i) && g.log == backend.log
        decreases |plan.steps| - i
      {
        var s := plan.steps[i];
        if i >= config.maxSteps {
          g := g.(budgetExceeded := true, reasons := g.reasons + [StepsExceeded],
                  results := g.results + [SkippedResult(plan, i, StepLimit)]);
        } else if g.clock + s.duration > config.timeoutMs {
          g := g.(timeoutHit := true, reasons := g.reasons + [TimedOut(g.clock)],
                  results := g.results + [SkippedResult(plan, i, Timeout)], stopped := true);
        } else {
          g := g.(clock := g.clock + s.duration);
          if s.error != "" {
            g := g.(results := g.results + [StepResult(i, s.name, FailedWith(s.error, s.duration))]);
          } else {
            var bad := SortKeys(Bad(config, s));
            g := RunVetted(plan, i, g, bad);
          }
        }
        i := i + 1;
      }
      if g.stopped {
        StoppedStays(config, plan, old(backend.log), i, |plan.steps|);
      }
      report := Some(Report(VerdictOf(g), g));
    }
  }
}
