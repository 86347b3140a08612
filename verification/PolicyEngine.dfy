/** omni/policy/engine.py: the engine as an object. Its methods are loops over rules, windows and
    groups; each is proved to take the engine's state to the state of the specification. */
module PolicyEngines {
  import opened Json
  import opened Policy

  class PolicyEngine {
    var rules: seq<Rule>
    var limits: seq<Limit>
    var lockdown: bool
    var decisions: seq<Decision>
    var pendings: map<string, Decision>
    var usage: seq<Usage>
    const holds: Evaluator

    function Now(): State
      reads this
    {
      State(rules, limits, lockdown, decisions, pendings, usage)
    }

    constructor (holds: Evaluator, seed: seq<Rule>)
      ensures this.holds == holds && Now() == State(seed, [], false, [], map[], [])
    {
      this.holds := holds;
      rules, limits, lockdown, decisions, pendings, usage := seed, [], false, [], map[], [];
    }

    method InstallRule(rule: Rule)
      modifies this`rules
      ensures Now() == Apply(holds, old(Now()), AddRule(rule))
    {
      rules := rules + [rule];
    }

    method InstallLimit(limit: Limit)
      modifies this`limits
      ensures Now() == Apply(holds, old(Now()), AddLimit(limit))
    {
      limits := limits + [limit];
    }

    method Lock(on: bool)
      modifies this`lockdown
      ensures Now() == Apply(holds, old(Now()), SetLockdown(on))
    {
      lockdown := on;
    }

    /** `_check_limits` */
    method CheckLimits(q: Request) returns (status: LimitStatus)
      ensures status == CheckedLimits(Now(), q)
    {
      status := FRESH_STATUS;
      var windows := Windows(limits, Scopes(q.principal));
      for i := 0 to |windows|
        invariant status == StatusAfter(usage, windows[..i], q.checkedAt, q.cost, q.calls)
      {
        assert windows[..i + 1][..i] == windows[..i];
        var w := windows[i];
        var usedCost := UsedCost(usage, w.scope, q.checkedAt, w.limit.window);
        var usedCalls := UsedCalls(usage, w.scope, q.checkedAt, w.limit.window);
        var allowed, violations := status.allowed, status.violations;
        if w.limit.maxCost.Some? && usedCost + q.cost > w.limit.maxCost.value {
          allowed := false;
          violations := violations + [CostOver(w.limit.id, w.scope.scope, w.scope.value)];
        }
        if w.limit.maxCalls.Some? && usedCalls + q.calls > w.limit.maxCalls.value {
          allowed := false;
          violations := violations + [CallsOver(w.limit.id, w.scope.scope, w.scope.value)];
        }
        status := LimitStatus(allowed, MaxReal(status.currentCost, usedCost), MaxInt(status.currentCalls, usedCalls), violations);
      }
      assert windows[..|windows|] == windows;
    }

    /** `_record_usage` */
    method RecordUsage(q: Request)
      modifies this`usage
      ensures usage == Recorded(old(usage), q)
    {
      if q.cost <= 0.0 && q.calls <= 0 {
        return;
      }
      var groups := q.principal.groups;
      for i := 0 to |groups|
        invariant usage == old(usage) + GroupUsage(q, groups[..i])
      {
        assert groups[..i + 1][..i] == groups[..i];
        usage := usage + [Usage(q.recordedAt, "GROUP", groups[i], q.cost, q.calls)];
      }
      assert groups[..|groups|] == groups;
      usage := usage + [Usage(q.recordedAt, "PRINCIPAL", q.principal.id, q.cost, q.calls)];
      usage := usage + [Usage(q.recordedAt, "GLOBAL", "*", q.cost, q.calls)];
    }

    /** `_log` */
    method Log(d: Decision)
      modifies this`decisions
      ensures decisions == old(decisions) + [d]
    {
      decisions := decisions + [d];
    }

    /** The rules that match, most important first. */
    method MatchingRules(q: Request) returns (matching: seq<Rule>)
      ensures matching == ByPriority(Matching(holds, rules, q))
    {
      var found: seq<Rule> := [];
      for i := 0 to |rules|
        invariant found == Matching(holds, rules[..i], q)
      {
        assert rules[..i + 1][..i] == rules[..i];
        if RuleMatches(holds, rules[i], q) {
          found := found + [rules[i]];
        }
      }
      assert rules[..|rules|] == rules;
      matching := ByPriority(found);
    }

    method FindEffect(matching: seq<Rule>, effect: string) returns (r: Option<Rule>)
      ensures r == FirstWith(matching, effect)
    {
      for i := 0 to |matching|
        invariant FirstWith(matching, effect) == FirstWith(matching[i..], effect)
      {
        if matching[i].effect == effect {
          return Some(matching[i]);
        }
        assert matching[i..][1..] == matching[i + 1..];
      }
      r := None;
    }

    /** `evaluate` */
    method EvaluateRequest(q: Request) returns (d: Decision)
      modifies this`decisions, this`pendings, this`usage
      ensures d == Decide(holds, old(Now()), q)
      ensures Now() == Evaluated(holds, old(Now()), q)
    {
      if lockdown && "system.admin" !in q.principal.roles {
        d := Denied(q, None, Lockdown(q.action, q.principal.id), Low, FRESH_STATUS);
        Log(d);
        return;
      }
      var matching := MatchingRules(q);
      var deny := FindEffect(matching, "DENY");
      var risk := q.resource.Risk();
      var status := CheckLimits(q);
      if deny.Some? {
        d := Denied(q, Some(deny.value.id), DeniedBy(deny.value.id), risk, status);
        Log(d);
        return;
      }
      var allow := FindEffect(matching, "ALLOW");
      if allow.None? {
        d := Denied(q, None, NoPolicy(q.action, q.principal.id), risk, status);
        Log(d);
        return;
      }
      var rule := allow.value;
      if rule.riskLevel.Some? && risk.AtLeast(rule.riskLevel.value) {
        d := Denied(q, Some(rule.id), RiskGate(rule.id), risk, status).(principalId := q.principal.id);
        Log(d);
        return;
      }
      if !status.allowed {
        d := Denied(q, Some(rule.id), LimitExceeded(status.violations), risk, status);
        Log(d);
        return;
      }
      if rule.requireApproval && "approval.exempt" !in q.principal.roles {
        d := Decision(q.id, false, Some(rule.id), NeedsApproval(rule.approveRoles, rule.id), q.principal.id, risk,
                      true, rule.approveRoles, Pending, status);
        pendings := pendings[d.id := d];
        Log(d);
        return;
      }
      RecordUsage(q);
      d := Decision(q.id, true, Some(rule.id), AllowedBy(rule.id), q.principal.id, risk, false, [], NoApproval, status);
      Log(d);
    }

    /** `approve`; None where the source raises KeyError. */
    method ApproveDecision(id: string, role: string) returns (d: Option<Decision>)
      modifies this`decisions, this`pendings
      ensures d == ApprovalOf(old(Now()), id, role)
      ensures Now() == AfterApproval(old(Now()), id, role)
    {
      if id !in pendings {
        return None;
      }
      var pending := pendings[id];
      if role !in pending.approveRoles {
        var rejected := pending.(approval := Rejected, reason := LacksRole(role));
        Log(rejected);
        return Some(rejected);
      }
      var approved := pending.(allowed := true, approval := Approved, reason := ApprovedBy(role));
      pendings := pendings - {id};
      Log(approved);
      d := Some(approved);
    }
  }
}
