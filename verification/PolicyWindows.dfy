/** The rolling-window limits bound what is charged in every interval, over every run. */
module PolicyWindows {
  import opened Json
  import opened Ordering
  import opened Policy

  /** Both halves of a limit are argued the same way. */
  datatype Kind = Cost | Calls

  function Amount(u: Usage, kind: Kind): real {
    if kind.Cost? then u.cost else u.calls as real
  }

  function Asked(q: Request, kind: Kind): real {
    if kind.Cost? then q.cost else q.calls as real
  }

  function Bound(l: Limit, kind: Kind): Option<real> {
    if kind.Cost? then l.maxCost
    else if l.maxCalls.None? then None
    else Some(l.maxCalls.value as real)
  }

  /** What was charged to a scope within [from, to] by the entries from index `start` on. */
  function Charged(usage: seq<Usage>, start: nat, s: Scope, kind: Kind, from: real, to: real): real {
    if |usage| <= start then 0.0
    else
      var u := usage[|usage| - 1];
      Charged(usage[..|usage| - 1], start, s, kind, from, to)
        + if u.scope == s.scope && u.value == s.value && from <= u.ts <= to then Amount(u, kind) else 0.0
  }

  function Used(usage: seq<Usage>, s: Scope, now: real, window: int, kind: Kind): real {
    if kind.Cost? then UsedCost(usage, s, now, window) else UsedCalls(usage, s, now, window) as real
  }

  ghost predicate NonNegative(usage: seq<Usage>) {
    forall i :: 0 <= i < |usage| ==> usage[i].cost >= 0.0 && usage[i].calls >= 0
  }

  ghost predicate Past(usage: seq<Usage>, t: real) {
    forall i :: 0 <= i < |usage| ==> usage[i].ts <= t
  }

  /** The check looks back at least as far as any interval of the window's length that ends later. */
  lemma {:induction false} CheckSeesInterval(usage: seq<Usage>, start: nat, s: Scope, kind: Kind, from: real, to: real,
                                             now: real, window: int)
    requires NonNegative(usage) && now - window as real <= from
    ensures 0.0 <= Charged(usage, start, s, kind, from, to) <= Used(usage, s, now, window, kind)
    decreases |usage|
  {
    if usage != [] {
      var n := |usage| - 1;
      CheckSeesInterval(usage[..n], start, s, kind, from, to, now, window);
      if |usage| <= start { UsedNonNegative(usage, s, now, window, kind); }
    }
  }

  lemma {:induction false} UsedNonNegative(usage: seq<Usage>, s: Scope, now: real, window: int, kind: Kind)
    requires NonNegative(usage)
    ensures Used(usage, s, now, window, kind) >= 0.0
  {
    if usage != [] { UsedNonNegative(usage[..|usage| - 1], s, now, window, kind); }
  }

  // ------------------------------------------------------------------ what a charge adds

  function Occurrences(groups: seq<string>, g: string): nat {
    if groups == [] then 0
    else Occurrences(groups[..|groups| - 1], g) + if groups[|groups| - 1] == g then 1 else 0
  }

  lemma {:induction false} OccursAtMostOnce(groups: seq<string>, g: string)
    requires Distinct(groups)
    ensures Occurrences(groups, g) == if g in groups then 1 else 0
  {
    if groups != [] {
      var n := |groups| - 1;
      OccursAtMostOnce(groups[..n], g);
      assert groups == groups[..n] + [groups[n]];
    }
  }

  /** How many entries one charge writes for a scope. */
  function Times(p: Principal, s: Scope): nat {
    (if s.scope == "GROUP" then Occurrences(p.groups, s.value) else 0)
      + (if s == Scope("PRINCIPAL", p.id) then 1 else 0)
      + (if s == Scope("GLOBAL", "*") then 1 else 0)
  }

  /** `n` times `x`. */
  function Repeat(n: nat, x: real): real {
    if n == 0 then 0.0 else Repeat(n - 1, x) + x
  }

  lemma {:induction false} ManyExceed(n: nat, x: real)
    requires x > 0.0
    ensures Repeat(n, x) <= x <==> n <= 1
  {
    assert Repeat(1, x) == Repeat(0, x) + x == x;
    if n > 2 { ManyExceed(n - 1, x); }
  }

  lemma {:induction false} ChargedGroups(usage: seq<Usage>, q: Request, groups: seq<string>, start: nat, s: Scope, kind: Kind,
                                         from: real, to: real)
    requires start <= |usage|
    ensures Charged(usage + GroupUsage(q, groups), start, s, kind, from, to) == Charged(usage, start, s, kind, from, to)
              + if s.scope == "GROUP" && from <= q.recordedAt <= to then Repeat(Occurrences(groups, s.value), Asked(q, kind)) else 0.0
  {
    if groups == [] {
      assert usage + [] == usage;
    } else {
      var n := |groups| - 1;
      ChargedGroups(usage, q, groups[..n], start, s, kind, from, to);
      var u := Usage(q.recordedAt, "GROUP", groups[n], q.cost, q.calls);
      assert usage + GroupUsage(q, groups) == usage + GroupUsage(q, groups[..n]) + [u];
    }
  }

  lemma ChargedRecorded(usage: seq<Usage>, q: Request, start: nat, s: Scope, kind: Kind, from: real, to: real)
    requires start <= |usage| && Chargeable(q)
    ensures Charged(Recorded(usage, q), start, s, kind, from, to) == Charged(usage, start, s, kind, from, to)
              + if from <= q.recordedAt <= to then Repeat(Times(q.principal, s), Asked(q, kind)) else 0.0
  {
    var g := usage + GroupUsage(q, q.principal.groups);
    var p := Usage(q.recordedAt, "PRINCIPAL", q.principal.id, q.cost, q.calls);
    var a := Usage(q.recordedAt, "GLOBAL", "*", q.cost, q.calls);
    ChargedGroups(usage, q, q.principal.groups, start, s, kind, from, to);
  }

  lemma {:induction false} GroupUsageShape(q: Request, groups: seq<string>)
    ensures forall i :: 0 <= i < |groups| ==>
              GroupUsage(q, groups)[i].cost == q.cost && GroupUsage(q, groups)[i].calls == q.calls
              && GroupUsage(q, groups)[i].ts == q.recordedAt
  {
    if groups != [] { GroupUsageShape(q, groups[..|groups| - 1]); }
  }

  // ------------------------------------------------------------------ a charged scope was checked

  lemma {:induction false} GroupScopesCover(groups: seq<string>, g: string)
    requires g in groups
    ensures Scope("GROUP", g) in GroupScopes(groups)
  {
    if groups[0] != g { GroupScopesCover(groups[1..], g); }
  }

  lemma ChargedScopesAreChecked(p: Principal, s: Scope)
    requires Distinct(p.groups)
    ensures Times(p, s) <= 1
    ensures Times(p, s) == 1 ==> s in Scopes(p)
  {
    OccursAtMostOnce(p.groups, s.value);
    if s.scope == "GROUP" && s.value in p.groups { GroupScopesCover(p.groups, s.value); }
  }

  ghost predicate Keyed(ws: seq<Window>, s: Scope, id: string) {
    exists i :: 0 <= i < |ws| && ws[i].scope == s && ws[i].limit.id == id
  }

  lemma {:induction false} PutKeeps(ws: seq<Window>, w: Window, s: Scope, id: string)
    ensures Keyed(PutWindow(ws, w), w.scope, w.limit.id)
    ensures Keyed(ws, s, id) ==> Keyed(PutWindow(ws, w), s, id)
    ensures forall x :: x in PutWindow(ws, w) ==> x == w || x in ws
  {
    var r := PutWindow(ws, w);
    if ws == [] || SameKey(ws[0], w) {
      assert r[0] == w;
      if Keyed(ws, s, id) {
        var i :| 0 <= i < |ws| && ws[i].scope == s && ws[i].limit.id == id;
        assert r[i].scope == s && r[i].limit.id == id;
      }
    } else {
      PutKeeps(ws[1..], w, s, id);
      var t := PutWindow(ws[1..], w);
      var j :| 0 <= j < |t| && t[j].scope == w.scope && t[j].limit.id == w.limit.id;
      assert r[j + 1] == t[j];
      if Keyed(ws, s, id) {
        var i :| 0 <= i < |ws| && ws[i].scope == s && ws[i].limit.id == id;
        if i == 0 {
          assert r[0] == ws[0];
        } else {
          assert ws[1..][i - 1] == ws[i];
          var k :| 0 <= k < |t| && t[k].scope == s && t[k].limit.id == id;
          assert r[k + 1] == t[k];
        }
      }
    }
  }

  lemma {:induction false} LimitWindowsKeep(ws: seq<Window>, l: Limit, scopes: seq<Scope>, s: Scope, id: string)
    ensures Keyed(ws, s, id) ==> Keyed(LimitWindows(ws, l, scopes), s, id)
    ensures s in scopes && Applies(l, s) ==> Keyed(LimitWindows(ws, l, scopes), s, l.id)
    ensures forall x :: x in LimitWindows(ws, l, scopes) ==> x.limit == l || x in ws
  {
    if scopes != [] {
      var n := |scopes| - 1;
      var before := LimitWindows(ws, l, scopes[..n]);
      LimitWindowsKeep(ws, l, scopes[..n], s, id);
      assert scopes == scopes[..n] + [scopes[n]];
      if Applies(l, scopes[n]) {
        PutKeeps(before, Window(scopes[n], l), s, id);
        PutKeeps(before, Window(scopes[n], l), s, l.id);
      }
    }
  }

  lemma {:induction false} WindowsKeep(limits: seq<Limit>, scopes: seq<Scope>, l: Limit, s: Scope)
    requires s in scopes && Applies(l, s)
    ensures l in limits ==> Keyed(Windows(limits, scopes), s, l.id)
    ensures forall x :: x in Windows(limits, scopes) ==> x.limit in limits
  {
    if limits != [] {
      var n := |limits| - 1;
      WindowsKeep(limits[..n], scopes, l, s);
      LimitWindowsKeep(Windows(limits[..n], scopes), limits[n], scopes, s, l.id);
      assert limits == limits[..n] + [limits[n]];
    }
  }

  ghost predicate OnlyLimitNamed(limits: seq<Limit>, l: Limit) {
    l in limits && forall x :: x in limits && x.id == l.id ==> x == l
  }

  /** An allowed status means every window fits. */
  lemma {:induction false} AllowedFits(usage: seq<Usage>, ws: seq<Window>, now: real, cost: real, calls: int)
    ensures StatusAfter(usage, ws, now, cost, calls).allowed <==>
            forall w :: w in ws ==> CostFits(usage, w, now, cost) && CallsFit(usage, w, now, calls)
  {
    if ws != [] {
      var n := |ws| - 1;
      AllowedFits(usage, ws[..n], now, cost, calls);
      assert ws == ws[..n] + [ws[n]];
    }
  }

  lemma CheckedMeansFits(s: State, q: Request, l: Limit, scope: Scope, kind: Kind)
    requires OnlyLimitNamed(s.limits, l) && scope in Scopes(q.principal) && Applies(l, scope)
    requires CheckedLimits(s, q).allowed && Bound(l, kind).Some?
    ensures Used(s.usage, scope, q.checkedAt, l.window, kind) + Asked(q, kind) <= Bound(l, kind).value
  {
    var ws := Windows(s.limits, Scopes(q.principal));
    WindowsKeep(s.limits, Scopes(q.principal), l, scope);
    AllowedFits(s.usage, ws, q.checkedAt, q.cost, q.calls);
    var i :| 0 <= i < |ws| && ws[i].scope == scope && ws[i].limit.id == l.id;
    assert ws[i] in ws && ws[i].limit in s.limits;
  }

  // ------------------------------------------------------------------ runs

  predicate FairRequest(q: Request) {
    q.cost >= 0.0 && q.calls >= 0 && q.checkedAt <= q.recordedAt
  }

  ghost predicate GoodRequest(q: Request) { FairRequest(q) && Distinct(q.principal.groups) }

  /** The clock's reading after a run that starts at `t`. */
  function LastTime(ops: seq<Op>, t: real): real {
    if ops == [] then t
    else if ops[|ops| - 1].Evaluate? then ops[|ops| - 1].q.recordedAt
    else LastTime(ops[..|ops| - 1], t)
  }

  /** Nonnegative requests on a clock that never runs backwards, from principals with distinct groups. */
  ghost predicate GoodRun(ops: seq<Op>, t: real) {
    ops == [] ||
    (var last := ops[|ops| - 1];
     GoodRun(ops[..|ops| - 1], t)
     && (last.Evaluate? ==> GoodRequest(last.q) && LastTime(ops[..|ops| - 1], t) <= last.q.checkedAt))
  }

  ghost predicate KeepsName(ops: seq<Op>, l: Limit) {
    forall i :: 0 <= i < |ops| && ops[i].AddLimit? ==> ops[i].limit.id != l.id
  }

  ghost predicate Bounded(usage: seq<Usage>, start: nat, l: Limit, s: Scope, kind: Kind) {
    Bound(l, kind).Some? ==>
      forall from, to :: to - from <= l.window as real ==> Charged(usage, start, s, kind, from, to) <= Bound(l, kind).value
  }

  ghost predicate Kept(s: State, start: nat, l: Limit, scope: Scope, kind: Kind, t: real) {
    && OnlyLimitNamed(s.limits, l) && NonNegative(s.usage) && Past(s.usage, t)
    && start <= |s.usage| && Bounded(s.usage, start, l, scope, kind)
  }

  lemma RecordedStays(usage: seq<Usage>, q: Request, t: real)
    requires NonNegative(usage) && Past(usage, t) && GoodRequest(q) && t <= q.checkedAt
    ensures NonNegative(Recorded(usage, q)) && Past(Recorded(usage, q), q.recordedAt) && |usage| <= |Recorded(usage, q)|
  {
    GroupUsageShape(q, q.principal.groups);
  }

  /** One charge keeps one scope of one limit within bounds, whichever interval is looked at. */
  lemma ChargeKeepsBound(s: State, q: Request, start: nat, l: Limit, scope: Scope, kind: Kind, t: real, from: real, to: real)
    requires Kept(s, start, l, scope, kind, t) && Applies(l, scope)
    requires GoodRequest(q) && t <= q.checkedAt && Chargeable(q) && CheckedLimits(s, q).allowed
    requires Bound(l, kind).Some? && to - from <= l.window as real
    ensures Charged(Recorded(s.usage, q), start, scope, kind, from, to) <= Bound(l, kind).value
  {
    var times := Times(q.principal, scope);
    ChargedRecorded(s.usage, q, start, scope, kind, from, to);
    ChargedScopesAreChecked(q.principal, scope);
    if times == 1 && from <= q.recordedAt <= to {
      CheckedMeansFits(s, q, l, scope, kind);
      CheckSeesInterval(s.usage, start, scope, kind, from, to, q.checkedAt, l.window);
    }
  }

  lemma {:induction false} EvaluateKeeps(holds: Evaluator, s: State, q: Request, start: nat, l: Limit, scope: Scope, kind: Kind, t: real)
    requires Kept(s, start, l, scope, kind, t) && Applies(l, scope)
    requires GoodRequest(q) && t <= q.checkedAt
    ensures Kept(Evaluated(holds, s, q), start, l, scope, kind, q.recordedAt)
  {
    RecordedStays(s.usage, q, t);
    var d := Decide(holds, s, q);
    if d.allowed && Chargeable(q) && Bound(l, kind).Some? {
      assert CheckedLimits(s, q).allowed;
      forall from, to | to - from <= l.window as real
        ensures Charged(Recorded(s.usage, q), start, scope, kind, from, to) <= Bound(l, kind).value
      {
        ChargeKeepsBound(s, q, start, l, scope, kind, t, from, to);
      }
    }
  }

  lemma {:induction false} RunKeeps(holds: Evaluator, s: State, ops: seq<Op>, start: nat, l: Limit, scope: Scope, kind: Kind, t: real)
    requires Kept(s, start, l, scope, kind, t) && Applies(l, scope)
    requires GoodRun(ops, t) && KeepsName(ops, l)
    ensures Kept(Run(holds, s, ops), start, l, scope, kind, LastTime(ops, t))
  {
    if ops != [] {
      var n := |ops| - 1;
      RunKeeps(holds, s, ops[..n], start, l, scope, kind, t);
      var before := Run(holds, s, ops[..n]);
      if ops[n].Evaluate? {
        EvaluateKeeps(holds, before, ops[n].q, start, l, scope, kind, LastTime(ops[..n], t));
      }
    }
  }

  /** The sliding-window bound. Once a limit is installed under its own name, then in every run and
      for every scope it applies to, what is charged from then on within any interval of the
      window's length stays within the limit: every interval, wherever it starts and ends. */
  lemma SlidingWindowBound(holds: Evaluator, s: State, l: Limit, ops: seq<Op>, t: real, scope: Scope, kind: Kind, from: real, to: real)
    requires NonNegative(s.usage) && Past(s.usage, t) && (forall x :: x in s.limits ==> x.id != l.id)
    requires GoodRun(ops, t) && KeepsName(ops, l)
    requires Applies(l, scope) && Bound(l, kind).Some? && Bound(l, kind).value >= 0.0
    requires to - from <= l.window as real
    ensures Charged(Run(holds, Apply(holds, s, AddLimit(l)), ops).usage, |s.usage|, scope, kind, from, to) <= Bound(l, kind).value
  {
    var s' := Apply(holds, s, AddLimit(l));
    forall a, b ensures Charged(s'.usage, |s.usage|, scope, kind, a, b) == 0.0 {
    }
    assert Kept(s', |s.usage|, l, scope, kind, t);
    RunKeeps(holds, s', ops, |s.usage|, l, scope, kind, t);
  }

  // ------------------------------------------------------------------ groups listed twice

  const OPEN_RULE := Rule("open", "*", "ALLOW", [], [], [], 0, None, false, [])

  /** A fresh engine that allows everything, with one limit on one group. */
  function OneGroupLimit(g: string, window: int, max: real): State {
    State([OPEN_RULE], [Limit("cap", "GROUP", g, window, Some(max), None)], false, [], map[], [])
  }

  lemma FreshFits(ws: seq<Window>, now: real, cost: real, calls: int)
    requires forall w :: w in ws ==> w.limit.maxCalls.None? && w.limit.maxCost == Some(cost)
    ensures StatusAfter([], ws, now, cost, calls).allowed
  {
    AllowedFits([], ws, now, cost, calls);
  }

  lemma {:induction false} WindowLimits(limits: seq<Limit>, scopes: seq<Scope>)
    ensures forall w :: w in Windows(limits, scopes) ==> w.limit in limits
  {
    if limits != [] {
      var n := |limits| - 1;
      WindowLimits(limits[..n], scopes);
      LimitWindowsKeep(Windows(limits[..n], scopes), limits[n], scopes, Scope("", ""), "");
      assert limits == limits[..n] + [limits[n]];
    }
  }

  lemma OneCharge(q: Request, s: Scope, from: real, to: real)
    requires q.cost > 0.0 && s.scope == "GROUP"
    ensures Charged(Recorded([], q), 0, s, Cost, from, to) ==
            if from <= q.recordedAt <= to then Repeat(Occurrences(q.principal.groups, s.value), q.cost) else 0.0
  {
    ChargedRecorded([], q, 0, s, Cost, from, to);
  }

  lemma FreshIsAllowed(holds: Evaluator, g: string, window: int, q: Request)
    ensures Decide(holds, OneGroupLimit(g, window, q.cost), q).allowed
  {
    var s := OneGroupLimit(g, window, q.cost);
    WindowLimits(s.limits, Scopes(q.principal));
    FreshFits(Windows(s.limits, Scopes(q.principal)), q.checkedAt, q.cost, q.calls);
    OpenRuleAllows(holds, s, q);
  }

  /** The distinct-groups condition is exact. A request that spends the whole limit of a group is
      allowed, and is charged once per occurrence of the group: the bound then holds if and only if
      the principal lists the group at most once. */
  lemma BoundNeedsDistinctGroups(holds: Evaluator, g: string, window: int, q: Request)
    requires q.cost > 0.0 && window >= 0
    ensures Decide(holds, OneGroupLimit(g, window, q.cost), q).allowed
    ensures var s := OneGroupLimit(g, window, q.cost);
            Bounded(Evaluated(holds, s, q).usage, 0, s.limits[0], Scope("GROUP", g), Cost)
            <==> Occurrences(q.principal.groups, g) <= 1
  {
    FreshIsAllowed(holds, g, window, q);
    var n := Occurrences(q.principal.groups, g);
    ManyExceed(n, q.cost);
    var usage := Recorded([], q);
    var scope := Scope("GROUP", g);
    forall from, to ensures Charged(usage, 0, scope, Cost, from, to) == if from <= q.recordedAt <= to then Repeat(n, q.cost) else 0.0 {
      OneCharge(q, scope, from, to);
    }
    if n > 1 {
      assert q.recordedAt - q.recordedAt <= window as real;
      assert Charged(usage, 0, scope, Cost, q.recordedAt, q.recordedAt) > q.cost;
    }
  }

  /** Nonnegative requests of one principal, whatever its groups, on a clock that never runs backwards. */
  ghost predicate FairRun(ops: seq<Op>, p: Principal, t: real) {
    ops == [] ||
    (var last := ops[|ops| - 1];
     FairRun(ops[..|ops| - 1], p, t)
     && (last.Evaluate? ==>
           FairRequest(last.q) && last.q.principal == p && LastTime(ops[..|ops| - 1], t) <= last.q.checkedAt))
  }

  lemma {:induction false} FairIsGood(ops: seq<Op>, p: Principal, t: real)
    requires FairRun(ops, p, t) && Distinct(p.groups)
    ensures GoodRun(ops, t)
  {
    if ops != [] { FairIsGood(ops[..|ops| - 1], p, t); }
  }

  /** One limit, one scope, one run and one interval. */
  datatype Case = Case(
    s: State, l: Limit, ops: seq<Op>, t: real, scope: Scope, kind: Kind, from: real, to: real)

  ghost predicate Posed(p: Principal, c: Case) {
    && NonNegative(c.s.usage) && Past(c.s.usage, c.t) && (forall x :: x in c.s.limits ==> x.id != c.l.id)
    && FairRun(c.ops, p, c.t) && KeepsName(c.ops, c.l)
    && Applies(c.l, c.scope) && Bound(c.l, c.kind).Some? && Bound(c.l, c.kind).value >= 0.0
    && c.to - c.from <= c.l.window as real
  }

  function AfterRun(holds: Evaluator, c: Case): State { Run(holds, Apply(holds, c.s, AddLimit(c.l)), c.ops) }

  /** The bound, where all that is known of the principal's groups is `p`. */
  ghost predicate BoundHolds(holds: Evaluator, p: Principal, c: Case) {
    Posed(p, c) ==>
      Charged(AfterRun(holds, c).usage, |c.s.usage|, c.scope, c.kind, c.from, c.to) <= Bound(c.l, c.kind).value
  }

  lemma RepeatedOccursTwice(groups: seq<string>)
    requires !Distinct(groups)
    ensures exists g :: Occurrences(groups, g) > 1
  {
    var i, j :| 0 <= i < j < |groups| && groups[i] == groups[j];
    OccursUpTo(groups, i, j, |groups|);
    assert groups[..|groups|] == groups;
  }

  lemma {:induction false} OccursUpTo(groups: seq<string>, i: nat, j: nat, n: nat)
    requires i < j < |groups| && groups[i] == groups[j] && n <= |groups|
    ensures Occurrences(groups[..n], groups[i]) >= (if i < n then 1 else 0) + (if j < n then 1 else 0)
  {
    if n > 0 {
      OccursUpTo(groups, i, j, n - 1);
      assert groups[..n][..n - 1] == groups[..n - 1];
    }
  }

  const NOTHING_YET := State([OPEN_RULE], [], false, [], map[], [])

  function OneRequest(p: Principal): Request {
    Request(p, "act", Resource("any", map[]), 1.0, 0, 0.0, 0.0, "id")
  }

  /** A request that spends the whole limit of a group listed twice. */
  function DoubleCharge(p: Principal, g: string): Case {
    Case(NOTHING_YET, Limit("cap", "GROUP", g, 0, Some(1.0), None), [Evaluate(OneRequest(p))], 0.0, Scope("GROUP", g), Cost, 0.0, 0.0)
  }

  lemma DoubleChargeIsPosed(p: Principal, g: string)
    ensures Posed(p, DoubleCharge(p, g))
  {
    var c := DoubleCharge(p, g);
    assert c.ops[..0] == [];
    assert LastTime([], 0.0) == 0.0 && FairRun([], p, 0.0);
  }

  lemma DoubleChargeRuns(holds: Evaluator, p: Principal, g: string)
    ensures AfterRun(holds, DoubleCharge(p, g)).usage == Recorded([], OneRequest(p))
  {
    hide Decide, Recorded;
    var c, q := DoubleCharge(p, g), OneRequest(p);
    var s := OneGroupLimit(g, 0, 1.0);
    FreshIsAllowed(holds, g, 0, q);
    assert c.ops[..0] == [] && c.s.limits + [c.l] == [c.l];
    assert Apply(holds, c.s, AddLimit(c.l)) == s;
    assert Run(holds, s, []) == s;
  }

  lemma DoubleChargeExceeds(holds: Evaluator, p: Principal, g: string)
    requires Occurrences(p.groups, g) > 1
    ensures !BoundHolds(holds, p, DoubleCharge(p, g))
  {
    hide AfterRun, Recorded, Charged, Occurrences, Posed;
    DoubleChargeIsPosed(p, g);
    DoubleChargeRuns(holds, p, g);
    OneCharge(OneRequest(p), Scope("GROUP", g), 0.0, 0.0);
    ManyExceed(Occurrences(p.groups, g), 1.0);
  }

  /** The distinct-groups condition is exact, principal by principal: the bound holds for every limit
      installed in any state, every run of the principal's requests and every interval, if and only
      if the principal lists no group twice. */
  lemma BoundIffDistinctGroups(holds: Evaluator, p: Principal)
    ensures (forall c :: BoundHolds(holds, p, c)) <==> Distinct(p.groups)
  {
    if Distinct(p.groups) {
      forall c ensures BoundHolds(holds, p, c) {
        if FairRun(c.ops, p, c.t) { FairIsGood(c.ops, p, c.t); }
        DistinctHolds(holds, p, c);
      }
    } else {
      RepeatedOccursTwice(p.groups);
      var g :| Occurrences(p.groups, g) > 1;
      DoubleChargeExceeds(holds, p, g);
    }
  }

  lemma DistinctHolds(holds: Evaluator, p: Principal, c: Case)
    requires FairRun(c.ops, p, c.t) ==> GoodRun(c.ops, c.t)
    ensures BoundHolds(holds, p, c)
  {
    hide Apply, Run, Charged, FairRun, GoodRun;
    if !BoundHolds(holds, p, c) {
      SlidingWindowBound(holds, c.s, c.l, c.ops, c.t, c.scope, c.kind, c.from, c.to);
    }
  }

  lemma OpenRuleAllows(holds: Evaluator, s: State, q: Request)
    requires s.rules == [OPEN_RULE] && !s.lockdown && CheckedLimits(s, q).allowed
    ensures Decide(holds, s, q).allowed
  {
    assert s.rules[..0] == [];
    assert RuleMatches(holds, OPEN_RULE, q);
    assert Matching(holds, s.rules, q) == [OPEN_RULE];
    assert [OPEN_RULE][..0] == [];
    assert ByPriority([OPEN_RULE]) == [OPEN_RULE];
    assert FirstWith([OPEN_RULE], "ALLOW") == Some(OPEN_RULE);
    assert FirstWith([OPEN_RULE], "DENY") == None;
  }
}
