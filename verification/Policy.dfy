/** omni/policy/engine.py and omni/contracts/policy.py: rule matching, rolling-window limits and the
    decision made for one request, as functions of the engine's state. */
module Policy {
  import opened Json

  datatype RiskLevel = Low | Medium | High | Critical {
    function Index(): nat {
      match this
      case Low => 0
      case Medium => 1
      case High => 2
      case Critical => 3
    }

    predicate AtLeast(threshold: RiskLevel) { Index() >= threshold.Index() }
  }

  datatype Principal = Principal(id: string, roles: seq<string>, groups: seq<string>, attributes: Doc)

  datatype Resource = Resource(kind: string, attributes: Doc) {
    /** A missing or unknown level counts as low. */
    function Risk(): RiskLevel {
      if "risk_level" !in attributes then Low
      else
        var v := attributes["risk_level"];
        if v == Str("medium") then Medium
        else if v == Str("high") then High
        else if v == Str("critical") then Critical
        else Low
    }
  }

  datatype Condition = Condition(field: string, op: string, value: Json)

  /** How attribute conditions evaluate; a parameter of the engine. */
  type Evaluator = (Condition, Principal, Resource) -> bool

  datatype Rule = Rule(
    id: string, action: string, effect: string, roles: seq<string>, groups: seq<string>, conditions: seq<Condition>,
    priority: int, riskLevel: Option<RiskLevel>, requireApproval: bool, approveRoles: seq<string>)

  datatype Limit = Limit(
    id: string, scope: string, scopeValue: string, window: int, maxCost: Option<real>, maxCalls: Option<int>)

  datatype Usage = Usage(ts: real, scope: string, value: string, cost: real, calls: int)

  datatype Violation = CostOver(limit: string, scope: string, value: string) | CallsOver(limit: string, scope: string, value: string)

  datatype LimitStatus = LimitStatus(allowed: bool, currentCost: real, currentCalls: int, violations: seq<Violation>)

  datatype Approval = NoApproval | Pending | Approved | Rejected

  datatype Reason =
    | Lockdown(action: string, principal: string)
    | DeniedBy(rule: string)
    | NoPolicy(action: string, principal: string)
    | RiskGate(rule: string)
    | LimitExceeded(violations: seq<Violation>)
    | NeedsApproval(roles: seq<string>, rule: string)
    | AllowedBy(rule: string)
    | LacksRole(role: string)
    | ApprovedBy(role: string)

  datatype Decision = Decision(
    id: string, allowed: bool, matchedRule: Option<string>, reason: Reason, principalId: string, risk: RiskLevel,
    requireApproval: bool, approveRoles: seq<string>, approval: Approval, limits: LimitStatus)

  datatype State = State(
    rules: seq<Rule>, limits: seq<Limit>, lockdown: bool, decisions: seq<Decision>, pendings: map<string, Decision>,
    usage: seq<Usage>)

  datatype Request = Request(
    principal: Principal, action: string, resource: Resource, cost: real, calls: int,
    checkedAt: real, recordedAt: real, id: string)

  // ------------------------------------------------------------------ rule matching

  predicate StartsWith(s: string, prefix: string) { prefix <= s }

  /** A pattern with a star anywhere is matched as a prefix: all of it but its last character. */
  predicate ActionMatches(pattern: string, action: string) {
    if pattern == "*" then true
    else if '*' !in pattern then pattern == action
    else StartsWith(action, pattern[..|pattern| - 1])
  }

  predicate Meets(xs: seq<string>, ys: seq<string>) { exists x | x in xs :: x in ys }

  predicate RuleMatches(holds: Evaluator, r: Rule, q: Request) {
    && ActionMatches(r.action, q.action)
    && (r.roles != [] ==> Meets(r.roles, q.principal.roles))
    && (r.groups != [] ==> Meets(r.groups, q.principal.groups))
    && forall c | c in r.conditions :: holds(c, q.principal, q.resource)
  }

  function Matching(holds: Evaluator, rules: seq<Rule>, q: Request): seq<Rule> {
    if rules == [] then []
    else
      var n := |rules| - 1;
      Matching(holds, rules[..n], q) + if RuleMatches(holds, rules[n], q) then [rules[n]] else []
  }

  /** Stable sort, highest priority first. */
  function ByPriority(rules: seq<Rule>): (r: seq<Rule>)
    ensures |r| == |rules|
  {
    if rules == [] then []
    else Place(ByPriority(rules[..|rules| - 1]), rules[|rules| - 1])
  }

  /** Inserts a later rule behind every rule of at least its priority. */
  function Place(sorted: seq<Rule>, r: Rule): (s: seq<Rule>)
    ensures |s| == |sorted| + 1
  {
    if sorted == [] || sorted[|sorted| - 1].priority >= r.priority then sorted + [r]
    else Place(sorted[..|sorted| - 1], r) + [sorted[|sorted| - 1]]
  }

  function FirstWith(rules: seq<Rule>, effect: string): (r: Option<Rule>)
    ensures r.None? <==> forall x :: x in rules ==> x.effect != effect
    ensures r.Some? ==> r.value in rules && r.value.effect == effect
  {
    if rules == [] then None
    else if rules[0].effect == effect then Some(rules[0])
    else FirstWith(rules[1..], effect)
  }

  // ------------------------------------------------------------------ limits

  datatype Scope = Scope(scope: string, value: string)

  /** The comprehension over groups yields ("GROUP", g) and also (g, g) for every group g. */
  function GroupScopes(groups: seq<string>): seq<Scope> {
    if groups == [] then [] else [Scope("GROUP", groups[0]), Scope(groups[0], groups[0])] + GroupScopes(groups[1..])
  }

  function Scopes(p: Principal): seq<Scope> {
    [Scope("GLOBAL", "*")] + GroupScopes(p.groups) + [Scope("PRINCIPAL", p.id)]
  }

  predicate Applies(l: Limit, s: Scope) {
    l.scope == s.scope && (l.scopeValue == "*" || l.scopeValue == s.value)
  }

  datatype Window = Window(scope: Scope, limit: Limit)

  predicate SameKey(a: Window, b: Window) { a.scope == b.scope && a.limit.id == b.limit.id }

  /** `windows[scope, value, limit.id] = limit`: an existing key keeps its place and takes the new limit. */
  function PutWindow(ws: seq<Window>, w: Window): seq<Window> {
    if ws == [] then [w]
    else if SameKey(ws[0], w) then [w] + ws[1..]
    else [ws[0]] + PutWindow(ws[1..], w)
  }

  /** One limit against the scopes of the principal. */
  function LimitWindows(ws: seq<Window>, l: Limit, scopes: seq<Scope>): seq<Window> {
    if scopes == [] then ws
    else
      var n := |scopes| - 1;
      var before := LimitWindows(ws, l, scopes[..n]);
      if Applies(l, scopes[n]) then PutWindow(before, Window(scopes[n], l)) else before
  }

  function Windows(limits: seq<Limit>, scopes: seq<Scope>): seq<Window> {
    if limits == [] then []
    else LimitWindows(Windows(limits[..|limits| - 1], scopes), limits[|limits| - 1], scopes)
  }

  predicate Recent(u: Usage, s: Scope, now: real, window: int) {
    u.scope == s.scope && u.value == s.value && now - u.ts <= window as real
  }

  function UsedCost(usage: seq<Usage>, s: Scope, now: real, window: int): real {
    if usage == [] then 0.0
    else
      var n := |usage| - 1;
      UsedCost(usage[..n], s, now, window) + if Recent(usage[n], s, now, window) then usage[n].cost else 0.0
  }

  function UsedCalls(usage: seq<Usage>, s: Scope, now: real, window: int): int {
    if usage == [] then 0
    else
      var n := |usage| - 1;
      UsedCalls(usage[..n], s, now, window) + if Recent(usage[n], s, now, window) then usage[n].calls else 0
  }

  predicate CostFits(usage: seq<Usage>, w: Window, now: real, cost: real) {
    w.limit.maxCost.Some? ==> UsedCost(usage, w.scope, now, w.limit.window) + cost <= w.limit.maxCost.value
  }

  predicate CallsFit(usage: seq<Usage>, w: Window, now: real, calls: int) {
    w.limit.maxCalls.Some? ==> UsedCalls(usage, w.scope, now, w.limit.window) + calls <= w.limit.maxCalls.value
  }

  function MaxReal(a: real, b: real): real { if a < b then b else a }
  function MaxInt(a: int, b: int): int { if a < b then b else a }

  /** The status after one more window. */
  function StatusNext(st: LimitStatus, usage: seq<Usage>, w: Window, now: real, cost: real, calls: int): LimitStatus {
    var key, s := w.limit.id, w.scope;
    LimitStatus(
      st.allowed && CostFits(usage, w, now, cost) && CallsFit(usage, w, now, calls),
      MaxReal(st.currentCost, UsedCost(usage, s, now, w.limit.window)),
      MaxInt(st.currentCalls, UsedCalls(usage, s, now, w.limit.window)),
      st.violations
        + (if CostFits(usage, w, now, cost) then [] else [CostOver(key, s.scope, s.value)])
        + (if CallsFit(usage, w, now, calls) then [] else [CallsOver(key, s.scope, s.value)]))
  }

  const FRESH_STATUS := LimitStatus(true, 0.0, 0, [])

  function StatusAfter(usage: seq<Usage>, ws: seq<Window>, now: real, cost: real, calls: int): LimitStatus {
    if ws == [] then FRESH_STATUS
    else StatusNext(StatusAfter(usage, ws[..|ws| - 1], now, cost, calls), usage, ws[|ws| - 1], now, cost, calls)
  }

  function CheckedLimits(s: State, q: Request): LimitStatus {
    StatusAfter(s.usage, Windows(s.limits, Scopes(q.principal)), q.checkedAt, q.cost, q.calls)
  }

  // ------------------------------------------------------------------ usage

  function GroupUsage(q: Request, groups: seq<string>): (r: seq<Usage>)
    ensures |r| == |groups|
  {
    if groups == [] then []
    else GroupUsage(q, groups[..|groups| - 1]) + [Usage(q.recordedAt, "GROUP", groups[|groups| - 1], q.cost, q.calls)]
  }

  predicate Chargeable(q: Request) { q.cost > 0.0 || q.calls > 0 }

  function Recorded(usage: seq<Usage>, q: Request): seq<Usage> {
    if !Chargeable(q) then usage
    else
      usage + GroupUsage(q, q.principal.groups)
        + [Usage(q.recordedAt, "PRINCIPAL", q.principal.id, q.cost, q.calls)]
        + [Usage(q.recordedAt, "GLOBAL", "*", q.cost, q.calls)]
  }

  // ------------------------------------------------------------------ the decision

  function Denied(q: Request, rule: Option<string>, reason: Reason, risk: RiskLevel, limits: LimitStatus): Decision {
    Decision(q.id, false, rule, reason, "", risk, false, [], NoApproval, limits)
  }

  predicate LockedOut(s: State, q: Request) { s.lockdown && "system.admin" !in q.principal.roles }

  predicate Gated(allow: Rule, q: Request) {
    allow.riskLevel.Some? && q.resource.Risk().AtLeast(allow.riskLevel.value)
  }

  predicate MustBeApproved(allow: Rule, q: Request) {
    allow.requireApproval && "approval.exempt" !in q.principal.roles
  }

  function Decide(holds: Evaluator, s: State, q: Request): Decision {
    if LockedOut(s, q) then
      Denied(q, None, Lockdown(q.action, q.principal.id), Low, FRESH_STATUS)
    else
      var matching := ByPriority(Matching(holds, s.rules, q));
      var deny, allow := FirstWith(matching, "DENY"), FirstWith(matching, "ALLOW");
      var risk, limits := q.resource.Risk(), CheckedLimits(s, q);
      if deny.Some? then Denied(q, Some(deny.value.id), DeniedBy(deny.value.id), risk, limits)
      else if allow.None? then Denied(q, None, NoPolicy(q.action, q.principal.id), risk, limits)
      else
        var rule := allow.value.id;
        if Gated(allow.value, q) then
          Denied(q, Some(rule), RiskGate(rule), risk, limits).(principalId := q.principal.id)
        else if !limits.allowed then Denied(q, Some(rule), LimitExceeded(limits.violations), risk, limits)
        else if MustBeApproved(allow.value, q) then
          Decision(q.id, false, Some(rule), NeedsApproval(allow.value.approveRoles, rule), q.principal.id, risk,
                   true, allow.value.approveRoles, Pending, limits)
        else
          Decision(q.id, true, Some(rule), AllowedBy(rule), q.principal.id, risk, false, [], NoApproval, limits)
  }

  /** The state after a request: the decision is logged, a pending one is also kept for approval,
      and an allowed one is charged. */
  function Evaluated(holds: Evaluator, s: State, q: Request): State {
    var d := Decide(holds, s, q);
    s.(decisions := s.decisions + [d],
       pendings := if d.approval.Pending? then s.pendings[d.id := d] else s.pendings,
       usage := if d.allowed then Recorded(s.usage, q) else s.usage)
  }

  /** The answer to an approval; None where the source raises KeyError. */
  function ApprovalOf(s: State, id: string, role: string): Option<Decision> {
    if id !in s.pendings then None
    else
      var p := s.pendings[id];
      if role !in p.approveRoles then Some(p.(approval := Rejected, reason := LacksRole(role)))
      else Some(p.(allowed := true, approval := Approved, reason := ApprovedBy(role)))
  }

  function AfterApproval(s: State, id: string, role: string): State {
    var d := ApprovalOf(s, id, role);
    if d.None? then s
    else s.(decisions := s.decisions + [d.value],
            pendings := if d.value.approval.Approved? then s.pendings - {id} else s.pendings)
  }

  datatype Op =
    | AddRule(rule: Rule)
    | AddLimit(limit: Limit)
    | SetLockdown(on: bool)
    | Evaluate(q: Request)
    | Approve(id: string, role: string)

  function Apply(holds: Evaluator, s: State, op: Op): State {
    match op
    case AddRule(r) => s.(rules := s.rules + [r])
    case AddLimit(l) => s.(limits := s.limits + [l])
    case SetLockdown(on) => s.(lockdown := on)
    case Evaluate(q) => Evaluated(holds, s, q)
    case Approve(id, role) => AfterApproval(s, id, role)
  }

  function Run(holds: Evaluator, s: State, ops: seq<Op>): State {
    if ops == [] then s
    else Apply(holds, Run(holds, s, ops[..|ops| - 1]), ops[|ops| - 1])
  }
}
