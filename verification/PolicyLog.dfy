/** What a decision means, and what the append-only log records over every run. */
module PolicyLog {
  import opened Json
  import opened Policy

  // ------------------------------------------------------------------ which rule decides

  /** The first rule of an effect in the sorted list, described without sorting: highest priority,
      and the earliest among equals. */
  ghost predicate IsChosen(rules: seq<Rule>, effect: string, i: int) {
    && 0 <= i < |rules| && rules[i].effect == effect
    && forall j :: 0 <= j < |rules| && rules[j].effect == effect ==>
         rules[j].priority <= rules[i].priority && (j < i ==> rules[j].priority < rules[i].priority)
  }

  ghost predicate ChosenRule(rules: seq<Rule>, effect: string, r: Rule) {
    exists i :: IsChosen(rules, effect, i) && rules[i] == r
  }

  ghost predicate Descending(rules: seq<Rule>) {
    forall i, j :: 0 <= i < j < |rules| ==> rules[i].priority >= rules[j].priority
  }

  lemma {:induction false} FirstWithAppend(x: seq<Rule>, y: seq<Rule>, effect: string)
    ensures FirstWith(x + y, effect) == if FirstWith(x, effect).Some? then FirstWith(x, effect) else FirstWith(y, effect)
  {
    if x == [] {
      assert x + y == y;
    } else {
      assert (x + y)[0] == x[0] && (x + y)[1..] == x[1..] + y;
      FirstWithAppend(x[1..], y, effect);
    }
  }

  lemma AppendKeepsOrder(sorted: seq<Rule>, last: Rule)
    requires Descending(sorted) && forall x :: x in sorted ==> x.priority >= last.priority
    ensures Descending(sorted + [last])
  {
  }

  lemma {:induction false} PlaceKeepsOrder(sorted: seq<Rule>, r: Rule)
    requires Descending(sorted)
    ensures Descending(Place(sorted, r))
    ensures forall x :: x in Place(sorted, r) <==> x in sorted || x == r
  {
    if sorted == [] || sorted[|sorted| - 1].priority >= r.priority {
      AppendKeepsOrder(sorted, r);
    } else {
      var front, last := sorted[..|sorted| - 1], sorted[|sorted| - 1];
      assert sorted == front + [last];
      PlaceKeepsOrder(front, r);
      forall x | x in front ensures x.priority >= last.priority { LastIsLeast(sorted, x); }
      AppendKeepsOrder(Place(front, r), last);
    }
  }

  lemma LastIsLeast(sorted: seq<Rule>, x: Rule)
    requires Descending(sorted) && x in sorted
    ensures x.priority >= sorted[|sorted| - 1].priority
  {
  }

  lemma FirstWithNext(x: seq<Rule>, e: Rule, effect: string)
    ensures FirstWith(x + [e], effect)
            == if FirstWith(x, effect).Some? then FirstWith(x, effect) else if e.effect == effect then Some(e) else None
  {
    FirstWithAppend(x, [e], effect);
  }

  lemma {:induction false} PlaceFirst(sorted: seq<Rule>, r: Rule, effect: string)
    requires Descending(sorted)
    ensures var f := FirstWith(sorted, effect);
            FirstWith(Place(sorted, r), effect) ==
            if r.effect == effect && (f.None? || f.value.priority < r.priority) then Some(r) else f
  {
    hide FirstWith;
    if sorted == [] || sorted[|sorted| - 1].priority >= r.priority {
      FirstWithNext(sorted, r, effect);
    } else {
      var n := |sorted| - 1;
      var front, last := sorted[..n], sorted[n];
      assert sorted == front + [last];
      PlaceFirst(front, r, effect);
      FirstWithNext(front, last, effect);
      FirstWithNext(Place(front, r), last, effect);
    }
  }

  lemma {:induction false} SortedDescending(rules: seq<Rule>)
    ensures Descending(ByPriority(rules))
    ensures forall x :: x in ByPriority(rules) <==> x in rules
  {
    if rules != [] {
      var n := |rules| - 1;
      SortedDescending(rules[..n]);
      PlaceKeepsOrder(ByPriority(rules[..n]), rules[n]);
      assert rules == rules[..n] + [rules[n]];
    }
  }

  lemma ChosenNext(front: seq<Rule>, r: Rule, effect: string, i: int)
    requires IsChosen(front, effect, i)
    ensures if r.effect == effect && front[i].priority < r.priority then IsChosen(front + [r], effect, |front|)
            else IsChosen(front + [r], effect, i)
  {
    assert forall j :: 0 <= j < |front| ==> (front + [r])[j] == front[j];
  }

  lemma NewestIsChosen(front: seq<Rule>, r: Rule, effect: string)
    requires r.effect == effect && FirstWith(ByPriority(front), effect).None?
    ensures IsChosen(front + [r], effect, |front|)
  {
    hide FirstWith, ByPriority;
    SortedDescending(front);
    forall j | 0 <= j < |front| ensures (front + [r])[j].effect != effect {
      assert front[j] in ByPriority(front);
    }
  }

  lemma {:induction false} FirstIsChosen(rules: seq<Rule>, effect: string) returns (i: int)
    requires FirstWith(ByPriority(rules), effect).Some?
    ensures IsChosen(rules, effect, i) && FirstWith(ByPriority(rules), effect) == Some(rules[i])
  {
    hide FirstWith, Place, IsChosen, Descending;
    var n := |rules| - 1;
    var front, r := rules[..n], rules[n];
    SortedDescending(front);
    PlaceFirst(ByPriority(front), r, effect);
    assert rules == front + [r];
    if FirstWith(ByPriority(front), effect).Some? {
      i := FirstIsChosen(front, effect);
      ChosenInRange(front, effect, i);
      ChosenNext(front, r, effect, i);
      if r.effect == effect && front[i].priority < r.priority {
        i := n;
      }
    } else {
      i := n;
      NewestIsChosen(front, r, effect);
    }
  }

  lemma ChosenInRange(rules: seq<Rule>, effect: string, i: int)
    requires IsChosen(rules, effect, i)
    ensures 0 <= i < |rules|
  {
  }

  lemma {:induction false} MatchingIsFilter(holds: Evaluator, rules: seq<Rule>, q: Request)
    ensures forall r :: r in Matching(holds, rules, q) <==> r in rules && RuleMatches(holds, r, q)
  {
    if rules != [] {
      var n := |rules| - 1;
      MatchingIsFilter(holds, rules[..n], q);
      assert rules == rules[..n] + [rules[n]];
    }
  }

  /** Sorting and taking the first is choosing. */
  lemma {:induction false} FirstMeansChosen(rules: seq<Rule>, effect: string, r: Rule)
    ensures FirstWith(ByPriority(rules), effect) == Some(r) <==> ChosenRule(rules, effect, r)
  {
    SortedDescending(rules);
    if FirstWith(ByPriority(rules), effect).Some? {
      var i := FirstIsChosen(rules, effect);
      forall j | IsChosen(rules, effect, j) ensures j == i {}
    } else {
      forall i ensures !IsChosen(rules, effect, i) {
        if 0 <= i < |rules| { assert rules[i] in ByPriority(rules); }
      }
    }
  }

  /** No matching rule denies, the chosen ALLOW rule lets the risk pass, every limit fits. */
  ghost predicate Grants(holds: Evaluator, s: State, q: Request, r: Rule) {
    && !LockedOut(s, q)
    && (forall x :: x in s.rules && RuleMatches(holds, x, q) ==> x.effect != "DENY")
    && ChosenRule(Matching(holds, s.rules, q), "ALLOW", r) && !Gated(r, q)
    && CheckedLimits(s, q).allowed
  }

  lemma NoDenyMeansNone(holds: Evaluator, s: State, q: Request)
    ensures FirstWith(ByPriority(Matching(holds, s.rules, q)), "DENY").None? <==>
            forall x :: x in s.rules && RuleMatches(holds, x, q) ==> x.effect != "DENY"
  {
    MatchingIsFilter(holds, s.rules, q);
    SortedDescending(Matching(holds, s.rules, q));
  }

  /** Default deny and deny before allow: a request is allowed, or held for approval, exactly when
      some rule grants it; which of the two is up to that rule. */
  lemma AllowedExactlyWhen(holds: Evaluator, s: State, q: Request)
    ensures var d := Decide(holds, s, q);
            && (d.allowed <==> exists r :: Grants(holds, s, q, r) && !MustBeApproved(r, q))
            && (d.approval.Pending? <==> exists r :: Grants(holds, s, q, r) && MustBeApproved(r, q))
            && (forall r :: Grants(holds, s, q, r) ==>
                  d.matchedRule == Some(r.id) && (d.approval.Pending? ==> d.approveRoles == r.approveRoles))
  {
    var m := Matching(holds, s.rules, q);
    NoDenyMeansNone(holds, s, q);
    forall r ensures FirstWith(ByPriority(m), "ALLOW") == Some(r) <==> ChosenRule(m, "ALLOW", r) {
      FirstMeansChosen(m, "ALLOW", r);
    }
    var allow := FirstWith(ByPriority(m), "ALLOW");
    if allow.Some? {
      assert Grants(holds, s, q, allow.value) <==>
             !LockedOut(s, q) && FirstWith(ByPriority(m), "DENY").None? && !Gated(allow.value, q) && CheckedLimits(s, q).allowed;
    }
  }

  // ------------------------------------------------------------------ the log over a run

  /** One request or known approval, one entry; nothing else is ever logged, nothing is removed. */
  lemma ApplyLogs(holds: Evaluator, s: State, op: Op)
    ensures s.decisions <= Apply(holds, s, op).decisions
    ensures |Apply(holds, s, op).decisions| ==
            |s.decisions| + if op.Evaluate? || (op.Approve? && op.id in s.pendings) then 1 else 0
  {}

  lemma {:induction false} LogOnlyGrows(holds: Evaluator, s: State, ops: seq<Op>)
    ensures s.decisions <= Run(holds, s, ops).decisions
  {
    if ops != [] {
      LogOnlyGrows(holds, s, ops[..|ops| - 1]);
      ApplyLogs(holds, Run(holds, s, ops[..|ops| - 1]), ops[|ops| - 1]);
    }
  }

  ghost predicate Logged(log: seq<Decision>, i: int, id: string, approval: Approval) {
    0 <= i < |log| && log[i].id == id && log[i].approval == approval
  }

  ghost predicate HasEntry(log: seq<Decision>, id: string, approval: Approval) {
    exists i :: Logged(log, i, id, approval)
  }

  /** The history of approvals, read off the log. */
  ghost predicate HistoryKept(s: State) {
    && (forall id :: id in s.pendings <==> HasEntry(s.decisions, id, Pending) && !HasEntry(s.decisions, id, Approved))
    && (forall id :: id in s.pendings ==> s.pendings[id] in s.decisions && s.pendings[id].id == id && s.pendings[id].approval.Pending?)
    && (forall i, j, id :: Logged(s.decisions, i, id, Approved) && Logged(s.decisions, j, id, Approved) ==> i == j)
    && (forall j, id :: Logged(s.decisions, j, id, Approved) ==> ApprovedProperly(s.decisions, j, id))
  }

  /** An approval follows its pending entry and names a role that entry accepts. */
  ghost predicate ApprovedProperly(log: seq<Decision>, j: int, id: string) {
    && Logged(log, j, id, Approved) && log[j].allowed && log[j].reason.ApprovedBy?
    && exists i :: Logged(log, i, id, Pending) && i < j && log[j].reason.role in log[i].approveRoles
  }

  ghost predicate FreshId(s: State, op: Op) {
    op.Evaluate? ==> forall d :: d in s.decisions ==> d.id != op.q.id
  }

  /** Decision ids are never reused by a later request. */
  ghost predicate FreshIds(holds: Evaluator, s: State, ops: seq<Op>) {
    ops == [] || (FreshIds(holds, s, ops[..|ops| - 1]) && FreshId(Run(holds, s, ops[..|ops| - 1]), ops[|ops| - 1]))
  }

  lemma EntryNext(log: seq<Decision>, d: Decision, id: string, approval: Approval)
    ensures HasEntry(log + [d], id, approval) <==> HasEntry(log, id, approval) || (d.id == id && d.approval == approval)
  {
    var log' := log + [d];
    if HasEntry(log, id, approval) {
      var i :| Logged(log, i, id, approval);
      assert Logged(log', i, id, approval);
    }
    if d.id == id && d.approval == approval { assert Logged(log', |log|, id, approval); }
    if HasEntry(log', id, approval) {
      var i :| Logged(log', i, id, approval);
      if i < |log| { assert Logged(log, i, id, approval); }
    }
  }

  lemma ProperStays(log: seq<Decision>, d: Decision, j: int, id: string)
    requires ApprovedProperly(log, j, id)
    ensures ApprovedProperly(log + [d], j, id)
  {
    var i :| Logged(log, i, id, Pending) && i < j && log[j].reason.role in log[i].approveRoles;
    assert Logged(log + [d], i, id, Pending);
  }

  lemma AppendKeepsHistory(s: State, s': State, d: Decision)
    requires HistoryKept(s) && (forall x :: x in s.decisions ==> x.id != d.id) && !d.approval.Approved?
    requires s'.decisions == s.decisions + [d]
    requires s'.pendings == if d.approval.Pending? then s.pendings[d.id := d] else s.pendings
    ensures HistoryKept(s')
  {
    forall id, a ensures HasEntry(s'.decisions, id, a) <==> HasEntry(s.decisions, id, a) || (d.id == id && d.approval == a) {
      EntryNext(s.decisions, d, id, a);
    }
    assert !HasEntry(s.decisions, d.id, Pending) && !HasEntry(s.decisions, d.id, Approved);
    forall j, id | Logged(s'.decisions, j, id, Approved) ensures Logged(s.decisions, j, id, Approved) && ApprovedProperly(s'.decisions, j, id) {
      assert j < |s.decisions|;
      assert Logged(s.decisions, j, id, Approved);
      ProperStays(s.decisions, d, j, id);
    }
  }

  lemma {:induction false} EvaluateKeepsHistory(holds: Evaluator, s: State, q: Request)
    requires HistoryKept(s) && FreshId(s, Evaluate(q))
    ensures HistoryKept(Evaluated(holds, s, q))
  {
    var d := Decide(holds, s, q);
    assert d.id == q.id && !d.approval.Approved?;
    AppendKeepsHistory(s, Evaluated(holds, s, q), d);
  }

  lemma {:induction false} ApproveKeepsHistory(s: State, id: string, role: string)
    requires HistoryKept(s)
    ensures HistoryKept(AfterApproval(s, id, role))
  {
    if id in s.pendings {
      var s' := AfterApproval(s, id, role);
      var d := ApprovalOf(s, id, role).value;
      forall x, a ensures HasEntry(s'.decisions, x, a) <==> HasEntry(s.decisions, x, a) || (d.id == x && d.approval == a) {
        EntryNext(s.decisions, d, x, a);
      }
      assert !HasEntry(s.decisions, id, Approved);
      var i :| 0 <= i < |s.decisions| && s.decisions[i] == s.pendings[id];
      assert Logged(s'.decisions, i, id, Pending);
      forall j, x | Logged(s'.decisions, j, x, Approved) ensures ApprovedProperly(s'.decisions, j, x) {
        if j < |s.decisions| {
          assert Logged(s.decisions, j, x, Approved);
          ProperStays(s.decisions, d, j, x);
        }
      }
      forall j, k, x | Logged(s'.decisions, j, x, Approved) && Logged(s'.decisions, k, x, Approved) ensures j == k {
        if j < |s.decisions| { assert Logged(s.decisions, j, x, Approved); }
        if k < |s.decisions| { assert Logged(s.decisions, k, x, Approved); }
      }
    }
  }

  lemma OthersKeepHistory(holds: Evaluator, s: State, op: Op)
    requires HistoryKept(s) && !op.Evaluate? && !op.Approve?
    ensures HistoryKept(Apply(holds, s, op))
  {
  }

  /** In every run an id is pending if and only if it has a pending entry and no approved one; no id
      is approved twice; and every approval follows its request, by a role the request accepts. */
  lemma {:induction false} RunKeepsHistory(holds: Evaluator, s: State, ops: seq<Op>)
    requires HistoryKept(s) && FreshIds(holds, s, ops)
    ensures HistoryKept(Run(holds, s, ops))
  {
    hide HistoryKept, Evaluated, AfterApproval;
    if ops != [] {
      var before := Run(holds, s, ops[..|ops| - 1]);
      RunKeepsHistory(holds, s, ops[..|ops| - 1]);
      match ops[|ops| - 1]
      case Evaluate(q) => EvaluateKeepsHistory(holds, before, q);
      case Approve(id, role) => ApproveKeepsHistory(before, id, role);
      case _ => OthersKeepHistory(holds, before, ops[|ops| - 1]);
    }
  }

  // ------------------------------------------------------------------ charges and decisions

  datatype Charge = Charge(ts: real, cost: real, calls: int)

  function GlobalCharges(usage: seq<Usage>): seq<Charge> {
    if usage == [] then []
    else
      var u := usage[|usage| - 1];
      GlobalCharges(usage[..|usage| - 1]) + if u.scope == "GLOBAL" then [Charge(u.ts, u.cost, u.calls)] else []
  }

  /** The requests of a run that were allowed at once and had something to charge, in order. */
  function AllowedCharges(holds: Evaluator, s: State, ops: seq<Op>): seq<Charge> {
    if ops == [] then []
    else
      var n := |ops| - 1;
      AllowedCharges(holds, s, ops[..n]) + ChargeOf(holds, Run(holds, s, ops[..n]), ops[n])
  }

  function ChargeOf(holds: Evaluator, s: State, op: Op): seq<Charge> {
    if op.Evaluate? && Decide(holds, s, op.q).allowed && Chargeable(op.q) then
      [Charge(op.q.recordedAt, op.q.cost, op.q.calls)]
    else []
  }

  lemma {:induction false} GlobalConcat(x: seq<Usage>, y: seq<Usage>)
    ensures GlobalCharges(x + y) == GlobalCharges(x) + GlobalCharges(y)
  {
    if y == [] {
      assert x + y == x;
    } else {
      var n := |y| - 1;
      assert (x + y)[..|x + y| - 1] == x + y[..n];
      GlobalConcat(x, y[..n]);
    }
  }

  lemma {:induction false} NoGlobalInGroups(q: Request, groups: seq<string>)
    ensures GlobalCharges(GroupUsage(q, groups)) == []
  {
    if groups != [] { NoGlobalInGroups(q, groups[..|groups| - 1]); }
  }

  lemma RecordedGlobal(usage: seq<Usage>, q: Request)
    ensures GlobalCharges(Recorded(usage, q)) ==
            GlobalCharges(usage) + if Chargeable(q) then [Charge(q.recordedAt, q.cost, q.calls)] else []
  {
    if Chargeable(q) {
      var p := Usage(q.recordedAt, "PRINCIPAL", q.principal.id, q.cost, q.calls);
      var a := Usage(q.recordedAt, "GLOBAL", "*", q.cost, q.calls);
      var g := GroupUsage(q, q.principal.groups);
      NoGlobalInGroups(q, q.principal.groups);
      GlobalConcat(usage, g);
      GlobalConcat(usage + g, [p]);
      GlobalConcat(usage + g + [p], [a]);
      assert [p][..0] == [] && [a][..0] == [];
    }
  }

  /** Global usage is exactly the allowed, nonzero requests: approvals, refusals and retries charge nothing. */
  lemma {:induction false} UsageIsAllowedRequests(holds: Evaluator, s: State, ops: seq<Op>)
    ensures GlobalCharges(Run(holds, s, ops).usage) == GlobalCharges(s.usage) + AllowedCharges(holds, s, ops)
  {
    if ops != [] {
      var n := |ops| - 1;
      UsageIsAllowedRequests(holds, s, ops[..n]);
      ApplyCharges(holds, Run(holds, s, ops[..n]), ops[n]);
    }
  }

  lemma ApplyCharges(holds: Evaluator, s: State, op: Op)
    ensures GlobalCharges(Apply(holds, s, op).usage) == GlobalCharges(s.usage) + ChargeOf(holds, s, op)
  {
    if op.Evaluate? { RecordedGlobal(s.usage, op.q); }
  }
}
