/** What decides a request, spelled out: which rules match it, which of them counts, and which
    reason is given in which case. */
module PolicyDecisions {
  import opened Json
  import opened Policy
  import opened PolicyLog

  // ------------------------------------------------------------------ matching

  predicate Starts(s: string, prefix: string) { |prefix| <= |s| && s[..|prefix|] == prefix }

  /** An action matches a pattern that is a star, that equals it, or that has a star somewhere and
      but for its last character starts it. */
  ghost predicate NamesAction(pattern: string, action: string) {
    pattern == "*" || (if '*' in pattern then Starts(action, pattern[..|pattern| - 1]) else pattern == action)
  }

  ghost predicate CoversRequest(holds: Evaluator, r: Rule, q: Request) {
    && NamesAction(r.action, q.action)
    && (r.roles == [] || exists x :: x in r.roles && x in q.principal.roles)
    && (r.groups == [] || exists x :: x in r.groups && x in q.principal.groups)
    && (forall c :: c in r.conditions ==> holds(c, q.principal, q.resource))
  }

  lemma ActionIsNamed(pattern: string, action: string)
    ensures ActionMatches(pattern, action) <==> NamesAction(pattern, action)
  {
  }

  /** A pattern that ends in its one star matches exactly the actions that start with the rest. */
  lemma StarMatchesPrefix(prefix: string, action: string)
    ensures ActionMatches(prefix + "*", action) <==> Starts(action, prefix)
  {
    var pattern := prefix + "*";
    assert pattern[|prefix|] == '*' && pattern[..|pattern| - 1] == prefix;
    ActionIsNamed(pattern, action);
    assert pattern == "*" ==> prefix == "";
  }

  lemma MatchesExactly(holds: Evaluator, r: Rule, q: Request)
    ensures RuleMatches(holds, r, q) <==> CoversRequest(holds, r, q)
  {
    ActionIsNamed(r.action, q.action);
  }

  // ------------------------------------------------------------------ the rule that counts

  ghost predicate Bids(holds: Evaluator, r: Rule, q: Request, effect: string) {
    r.effect == effect && CoversRequest(holds, r, q)
  }

  /** Of the installed rules with an effect that cover the request, the earliest of highest priority. */
  ghost predicate Counts(holds: Evaluator, rules: seq<Rule>, q: Request, effect: string, i: nat) {
    && i < |rules| && Bids(holds, rules[i], q, effect)
    && forall j :: 0 <= j < |rules| && Bids(holds, rules[j], q, effect) ==>
         rules[j].priority <= rules[i].priority && (j < i ==> rules[j].priority < rules[i].priority)
  }

  function Chosen(holds: Evaluator, rules: seq<Rule>, q: Request, effect: string): Option<Rule> {
    FirstWith(ByPriority(Matching(holds, rules, q)), effect)
  }

  lemma ChosenNext(holds: Evaluator, front: seq<Rule>, r: Rule, q: Request, effect: string)
    ensures var was := Chosen(holds, front, q, effect);
            Chosen(holds, front + [r], q, effect) ==
            if Bids(holds, r, q, effect) && (was.None? || was.value.priority < r.priority) then Some(r) else was
  {
    hide CoversRequest, FirstWith, ByPriority, RuleMatches, Place;
    var m := Matching(holds, front, q);
    assert (front + [r])[..|front|] == front;
    MatchesExactly(holds, r, q);
    assert m + [] == m;
    SortedDescending(m);
    PlaceNext(m, r);
    PlaceFirst(ByPriority(m), r, effect);
  }

  lemma PlaceNext(m: seq<Rule>, r: Rule)
    ensures ByPriority(m + [r]) == Place(ByPriority(m), r)
  {
    assert (m + [r])[..|m|] == m;
  }

  /** Filtering, sorting by priority and taking the first with an effect finds the rule that counts,
      and none only if no rule with that effect covers the request. */
  lemma {:induction false} ChosenCounts(holds: Evaluator, rules: seq<Rule>, q: Request, effect: string) returns (i: nat)
    ensures Chosen(holds, rules, q, effect).None? ==> forall j :: 0 <= j < |rules| ==> !Bids(holds, rules[j], q, effect)
    ensures Chosen(holds, rules, q, effect).Some? ==>
              Counts(holds, rules, q, effect, i) && Chosen(holds, rules, q, effect) == Some(rules[i])
  {
    i := 0;
    if rules != [] {
      hide CoversRequest, Chosen, Counts, Bids;
      var front, r := rules[..|rules| - 1], rules[|rules| - 1];
      assert rules == front + [r];
      i := ChosenCounts(holds, front, q, effect);
      ChosenNext(holds, front, r, q, effect);
      var was := Chosen(holds, front, q, effect);
      CountsNext(holds, front, r, q, effect, i, was.None?);
      if Bids(holds, r, q, effect) && (was.None? || was.value.priority < r.priority) { i := |front|; }
    } else {
      assert Chosen(holds, [], q, effect).None?;
    }
  }

  lemma CountsNext(holds: Evaluator, front: seq<Rule>, r: Rule, q: Request, effect: string, i: nat, none: bool)
    requires if none then forall j :: 0 <= j < |front| ==> !Bids(holds, front[j], q, effect)
             else Counts(holds, front, q, effect, i)
    ensures Bids(holds, r, q, effect) && (none || front[i].priority < r.priority) ==>
              Counts(holds, front + [r], q, effect, |front|)
    ensures !none && !(Bids(holds, r, q, effect) && front[i].priority < r.priority) ==>
              Counts(holds, front + [r], q, effect, i) && (front + [r])[i] == front[i]
    ensures none && !Bids(holds, r, q, effect) ==>
              forall j :: 0 <= j < |front + [r]| ==> !Bids(holds, (front + [r])[j], q, effect)
  {
    hide Bids;
    assert forall j :: 0 <= j < |front| ==> (front + [r])[j] == front[j];
  }

  // ------------------------------------------------------------------ risk

  /** The level an attribute value names; anything else is low. */
  function LevelOf(attributes: Doc): RiskLevel {
    if "risk_level" in attributes && attributes["risk_level"] == Str("critical") then Critical
    else if "risk_level" in attributes && attributes["risk_level"] == Str("high") then High
    else if "risk_level" in attributes && attributes["risk_level"] == Str("medium") then Medium
    else Low
  }

  predicate Under(a: RiskLevel, b: RiskLevel) {
    match a
    case Low => !b.Low?
    case Medium => b.High? || b.Critical?
    case High => b.Critical?
    case Critical => false
  }

  lemma RiskIsLevel(r: Resource)
    ensures r.Risk() == LevelOf(r.attributes)
  {
  }

  lemma AtLeastIsNotUnder(a: RiskLevel, b: RiskLevel)
    ensures a.AtLeast(b) <==> !Under(a, b)
  {
  }

  // ------------------------------------------------------------------ the decision

  ghost predicate Locked(s: State, q: Request) { s.lockdown && "system.admin" !in q.principal.roles }

  ghost predicate SomeBids(holds: Evaluator, s: State, q: Request, effect: string) {
    exists j :: 0 <= j < |s.rules| && Bids(holds, s.rules[j], q, effect)
  }

  /** A refusal asks for nothing; it names the principal only at the risk gate. */
  predicate Refuses(d: Decision, principal: string) {
    !d.allowed && d.approval == NoApproval && !d.requireApproval && d.approveRoles == [] && d.principalId == principal
  }

  /** What is left to an allowing rule once no lockdown holds and no rule denies. */
  ghost predicate AllowedByRule(s: State, q: Request, r: Rule, d: Decision) {
    var gated := r.riskLevel.Some? && !Under(LevelOf(q.resource.attributes), r.riskLevel.value);
    var held := r.requireApproval && "approval.exempt" !in q.principal.roles;
    && d.matchedRule == Some(r.id)
    && (gated ==> d.reason == RiskGate(r.id) && Refuses(d, q.principal.id))
    && (!gated && !CheckedLimits(s, q).allowed ==>
          d.reason == LimitExceeded(CheckedLimits(s, q).violations) && Refuses(d, ""))
    && (!gated && CheckedLimits(s, q).allowed && held ==>
          d.reason == NeedsApproval(r.approveRoles, r.id) && !d.allowed && d.approval == Pending
          && d.requireApproval && d.approveRoles == r.approveRoles && d.principalId == q.principal.id)
    && (!gated && CheckedLimits(s, q).allowed && !held ==>
          d.reason == AllowedBy(r.id) && d.allowed && d.approval == NoApproval
          && !d.requireApproval && d.approveRoles == [] && d.principalId == q.principal.id)
  }

  /** Every decision, case by case: lockdown, then any denying rule, then the allowing rule that
      counts and its gate, its limits and its approval; and the reason given is that case's. */
  lemma DecisionIs(holds: Evaluator, s: State, q: Request) returns (deny: nat, allow: nat)
    ensures var d := Decide(holds, s, q);
            if Locked(s, q) then
              Refuses(d, "") && d.reason == Lockdown(q.action, q.principal.id) && d.matchedRule == None
              && d.risk == Low && d.limits == LimitStatus(true, 0.0, 0, [])
            else if SomeBids(holds, s, q, "DENY") then
              Counts(holds, s.rules, q, "DENY", deny) && Refuses(d, "")
              && d.reason == DeniedBy(s.rules[deny].id) && d.matchedRule == Some(s.rules[deny].id)
            else if SomeBids(holds, s, q, "ALLOW") then
              Counts(holds, s.rules, q, "ALLOW", allow) && AllowedByRule(s, q, s.rules[allow], d)
            else Refuses(d, "") && d.reason == NoPolicy(q.action, q.principal.id) && d.matchedRule == None
    ensures var d := Decide(holds, s, q);
            d.id == q.id
            && (!Locked(s, q) ==> d.risk == LevelOf(q.resource.attributes) && d.limits == CheckedLimits(s, q))
  {
    hide Bids, Counts, FirstWith, ByPriority, Matching, CheckedLimits;
    deny := ChosenCounts(holds, s.rules, q, "DENY");
    allow := ChosenCounts(holds, s.rules, q, "ALLOW");
    CountsBids(holds, s, q, "DENY", deny);
    CountsBids(holds, s, q, "ALLOW", allow);
    RiskIsLevel(q.resource);
    var rule := Chosen(holds, s.rules, q, "ALLOW");
    if rule.Some? && rule.value.riskLevel.Some? { AtLeastIsNotUnder(q.resource.Risk(), rule.value.riskLevel.value); }
  }

  lemma CountsBids(holds: Evaluator, s: State, q: Request, effect: string, i: nat)
    ensures Counts(holds, s.rules, q, effect, i) ==> i < |s.rules| && SomeBids(holds, s, q, effect)
  {
  }

  // ------------------------------------------------------------------ over a run

  /** An entry of the log allows exactly if it was granted at once or approved. */
  ghost predicate AllowsProperly(d: Decision) { d.allowed <==> d.approval.Approved? || d.reason.AllowedBy? }

  ghost predicate EntriesProper(s: State) {
    && (forall d :: d in s.decisions ==> AllowsProperly(d))
    && (forall id :: id in s.pendings ==> s.pendings[id].approval == Pending && !s.pendings[id].allowed)
  }

  lemma EvaluateAllowsProperly(holds: Evaluator, s: State, q: Request)
    requires EntriesProper(s)
    ensures EntriesProper(Evaluated(holds, s, q))
  {
    hide CheckedLimits, Matching, ByPriority, Recorded, FirstWith;
  }

  lemma ApproveAllowsProperly(s: State, id: string, role: string)
    requires EntriesProper(s)
    ensures EntriesProper(AfterApproval(s, id, role))
  {
  }

  /** In every run, no refusal, rejection or pending entry of the log allows anything. */
  lemma {:induction false} RunAllowsProperly(holds: Evaluator, s: State, ops: seq<Op>)
    requires EntriesProper(s)
    ensures EntriesProper(Run(holds, s, ops))
  {
    hide EntriesProper, Evaluated, AfterApproval;
    if ops != [] {
      var before := Run(holds, s, ops[..|ops| - 1]);
      RunAllowsProperly(holds, s, ops[..|ops| - 1]);
      match ops[|ops| - 1]
      case Evaluate(q) => EvaluateAllowsProperly(holds, before, q);
      case Approve(id, role) => ApproveAllowsProperly(before, id, role);
      case _ => OthersAllowProperly(holds, before, ops[|ops| - 1]);
    }
  }

  lemma OthersAllowProperly(holds: Evaluator, s: State, op: Op)
    requires EntriesProper(s) && !op.Evaluate? && !op.Approve?
    ensures EntriesProper(Apply(holds, s, op))
  {
  }

  /** An approval succeeds exactly for a pending id and a role its request accepts; otherwise nothing
      is approved, and a rejected request stays pending. */
  lemma ApprovedExactlyWhen(s: State, id: string, role: string)
    requires EntriesProper(s)
    ensures var d := ApprovalOf(s, id, role);
            && (d.Some? <==> id in s.pendings)
            && (d.Some? ==> (d.value.allowed <==> role in s.pendings[id].approveRoles)
                            && d.value.approval == (if role in s.pendings[id].approveRoles then Approved else Rejected)
                            && d.value.reason == (if role in s.pendings[id].approveRoles then ApprovedBy(role) else LacksRole(role)))
    ensures AfterApproval(s, id, role).pendings.Keys ==
            if id in s.pendings && role in s.pendings[id].approveRoles then s.pendings.Keys - {id} else s.pendings.Keys
    ensures AfterApproval(s, id, role).usage == s.usage
  {
  }

  /** A request is charged unless it asks for nothing: neither a positive cost nor a call. */
  lemma ChargedExactlyWhen(usage: seq<Usage>, q: Request)
    ensures Recorded(usage, q) == usage <==> q.cost <= 0.0 && q.calls <= 0
    ensures q.cost > 0.0 || q.calls > 0 ==> |Recorded(usage, q)| == |usage| + |q.principal.groups| + 2
  {
  }

  /** What each step leaves: rules and limits only by their own steps, always at the end; lockdown only
      by its switch; a request is logged, kept if it is pending, and charged if it is allowed. */
  lemma StepExactly(holds: Evaluator, s: State, op: Op)
    ensures var s' := Apply(holds, s, op);
            && s'.rules == (if op.AddRule? then s.rules + [op.rule] else s.rules)
            && s'.limits == (if op.AddLimit? then s.limits + [op.limit] else s.limits)
            && s'.lockdown == (if op.SetLockdown? then op.on else s.lockdown)
            && (op.Evaluate? ==>
                  var d := Decide(holds, s, op.q);
                  s'.decisions == s.decisions + [d]
                  && s'.pendings == (if d.approval == Pending then s.pendings[op.q.id := d] else s.pendings)
                  && s'.usage == (if d.allowed then Recorded(s.usage, op.q) else s.usage))
            && (!op.Evaluate? ==> s'.usage == s.usage)
            && (!op.Evaluate? && !op.Approve? ==> s'.decisions == s.decisions && s'.pendings == s.pendings)
  {
    hide CheckedLimits, Matching, ByPriority, FirstWith, Recorded;
  }
}
