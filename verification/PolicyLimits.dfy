/** What the check of the limits decides, in terms of what was charged: which windows apply, what
    each of them counts, and that nothing else refuses. */
module PolicyLimits {
  import opened Policy
  import opened PolicyWindows

  // ------------------------------------------------------------------ what a window counts

  /** A window counts exactly what was charged in the closed interval that ends now. */
  lemma {:induction false} UsedIsCharged(usage: seq<Usage>, s: Scope, now: real, window: int, kind: Kind)
    requires Past(usage, now)
    ensures Used(usage, s, now, window, kind) == Charged(usage, 0, s, kind, now - window as real, now)
  {
    if usage != [] { UsedIsCharged(usage[..|usage| - 1], s, now, window, kind); }
  }

  /** What is older than the window no longer counts. */
  lemma {:induction false} OldUsageRollsOff(usage: seq<Usage>, s: Scope, now: real, window: int, kind: Kind)
    requires forall i :: 0 <= i < |usage| ==> usage[i].ts < now - window as real
    ensures Used(usage, s, now, window, kind) == 0.0
  {
    if usage != [] { OldUsageRollsOff(usage[..|usage| - 1], s, now, window, kind); }
  }

  // ------------------------------------------------------------------ which windows there are

  /** The scopes of a principal. */
  lemma {:induction false} ScopesAre(p: Principal, s: Scope)
    ensures s in Scopes(p) <==>
            s == Scope("GLOBAL", "*") || s == Scope("PRINCIPAL", p.id)
            || (exists g :: g in p.groups && (s == Scope("GROUP", g) || s == Scope(g, g)))
  {
    GroupScopesAre(p.groups, s);
  }

  lemma {:induction false} GroupScopesAre(groups: seq<string>, s: Scope)
    ensures s in GroupScopes(groups) <==> exists g :: g in groups && (s == Scope("GROUP", g) || s == Scope(g, g))
  {
    if groups != [] {
      GroupScopesAre(groups[1..], s);
      assert groups == [groups[0]] + groups[1..];
      if g :| g in groups && (s == Scope("GROUP", g) || s == Scope(g, g)) {
        assert g == groups[0] || g in groups[1..];
      }
    }
  }

  /** A limit is for a scope if it names that kind of scope and its value, or every value. */
  predicate IsFor(l: Limit, s: Scope) { l.scope == s.scope && (l.scopeValue == "*" || l.scopeValue == s.value) }

  /** The last installed of the limits with its id that are for a scope. */
  ghost predicate InForce(limits: seq<Limit>, i: nat, s: Scope) {
    && i < |limits| && IsFor(limits[i], s)
    && forall j :: i < j < |limits| && limits[j].id == limits[i].id ==> !IsFor(limits[j], s)
  }

  ghost predicate Governs(limits: seq<Limit>, l: Limit, s: Scope) {
    exists i: nat :: InForce(limits, i, s) && limits[i] == l
  }

  ghost predicate OnePerKey(ws: seq<Window>) {
    forall i, j :: 0 <= i < j < |ws| ==> !SameKey(ws[i], ws[j])
  }

  lemma {:induction false} PutWindowAdds(ws: seq<Window>, w: Window)
    requires OnePerKey(ws)
    ensures OnePerKey(PutWindow(ws, w))
    ensures forall x :: x in PutWindow(ws, w) <==> x == w || (x in ws && !SameKey(x, w))
  {
    if ws != [] {
      assert ws == [ws[0]] + ws[1..];
      if SameKey(ws[0], w) {
        forall x | x in ws[1..] ensures !SameKey(x, w) {
          var i :| 0 <= i < |ws[1..]| && ws[1..][i] == x;
          assert x == ws[i + 1];
        }
      } else {
        PutWindowAdds(ws[1..], w);
        var rest := PutWindow(ws[1..], w);
        forall i | 0 <= i < |rest| ensures !SameKey(ws[0], rest[i]) {
          assert rest[i] in rest;
          if rest[i] != w {
            var k :| 0 <= k < |ws[1..]| && ws[1..][k] == rest[i];
            assert rest[i] == ws[k + 1];
          }
        }
      }
    }
  }

  /** One limit replaces those with its id on its scopes, and leaves every other window. */
  lemma {:induction false} LimitWindowsAre(ws: seq<Window>, l: Limit, scopes: seq<Scope>)
    requires OnePerKey(ws)
    ensures OnePerKey(LimitWindows(ws, l, scopes))
    ensures forall x :: x in LimitWindows(ws, l, scopes) <==>
              if x.scope in scopes && IsFor(l, x.scope) && x.limit.id == l.id then x.limit == l else x in ws
  {
    if scopes != [] {
      hide OnePerKey;
      var n := |scopes| - 1;
      LimitWindowsAre(ws, l, scopes[..n]);
      assert scopes == scopes[..n] + [scopes[n]];
      if Applies(l, scopes[n]) { PutWindowAdds(LimitWindows(ws, l, scopes[..n]), Window(scopes[n], l)); }
    }
  }

  lemma GovernsNext(front: seq<Limit>, l: Limit, m: Limit, s: Scope)
    ensures Governs(front + [l], m, s) <==> if IsFor(l, s) && m.id == l.id then m == l else Governs(front, m, s)
  {
    var limits := front + [l];
    if IsFor(l, s) && m == l { assert InForce(limits, |front|, s); }
    if Governs(front, m, s) && !(IsFor(l, s) && m.id == l.id) {
      var i: nat :| InForce(front, i, s) && front[i] == m;
      assert InForce(limits, i, s);
    }
    if Governs(limits, m, s) {
      var i: nat :| InForce(limits, i, s) && limits[i] == m;
      if i < |front| {
        forall j | i < j < |front| && front[j].id == front[i].id ensures !IsFor(front[j], s) { assert limits[j] == front[j]; }
        assert InForce(front, i, s);
      }
    }
  }

  /** The windows that are checked: each scope of the principal with each limit that governs it. */
  lemma {:induction false} WindowsAre(limits: seq<Limit>, scopes: seq<Scope>)
    ensures OnePerKey(Windows(limits, scopes))
    ensures forall x :: x in Windows(limits, scopes) <==> x.scope in scopes && Governs(limits, x.limit, x.scope)
  {
    if limits != [] {
      hide OnePerKey, Governs, LimitWindows;
      var n := |limits| - 1;
      WindowsAre(limits[..n], scopes);
      LimitWindowsAre(Windows(limits[..n], scopes), limits[n], scopes);
      assert limits == limits[..n] + [limits[n]];
      forall x: Window
        ensures x in Windows(limits, scopes) <==> x.scope in scopes && Governs(limits, x.limit, x.scope)
      {
        GovernsNext(limits[..n], limits[n], x.limit, x.scope);
      }
    } else {
      NothingGoverns(scopes);
    }
  }

  lemma NothingGoverns(scopes: seq<Scope>)
    ensures OnePerKey(Windows([], scopes))
    ensures forall x :: x in Windows([], scopes) <==> x.scope in scopes && Governs([], x.limit, x.scope)
  {
  }

  // ------------------------------------------------------------------ the verdict

  /** One limit on one scope has room for what is asked. */
  ghost predicate HasRoom(s: State, q: Request, l: Limit, scope: Scope, kind: Kind) {
    Bound(l, kind).Some? ==>
      Charged(s.usage, 0, scope, kind, q.checkedAt - l.window as real, q.checkedAt) + Asked(q, kind) <= Bound(l, kind).value
  }

  /** The scopes a request is checked and charged under, and (g, g) for every group. */
  ghost predicate Concerns(q: Request, s: Scope) {
    s == Scope("GLOBAL", "*") || s == Scope("PRINCIPAL", q.principal.id)
    || (exists g :: g in q.principal.groups && (s == Scope("GROUP", g) || s == Scope(g, g)))
  }

  ghost predicate Checks(s: State, q: Request, l: Limit, scope: Scope) {
    Concerns(q, scope) && Governs(s.limits, l, scope)
  }

  lemma WindowFits(s: State, q: Request, w: Window)
    requires Past(s.usage, q.checkedAt)
    ensures CostFits(s.usage, w, q.checkedAt, q.cost) <==> HasRoom(s, q, w.limit, w.scope, Cost)
    ensures CallsFit(s.usage, w, q.checkedAt, q.calls) <==> HasRoom(s, q, w.limit, w.scope, Calls)
  {
    UsedIsCharged(s.usage, w.scope, q.checkedAt, w.limit.window, Cost);
    UsedIsCharged(s.usage, w.scope, q.checkedAt, w.limit.window, Calls);
  }

  lemma WindowsChecked(s: State, q: Request)
    ensures forall x :: x in Windows(s.limits, Scopes(q.principal)) <==> Checks(s, q, x.limit, x.scope)
  {
    WindowsAre(s.limits, Scopes(q.principal));
    forall x: Window ensures x.scope in Scopes(q.principal) <==> Concerns(q, x.scope) { ScopesAre(q.principal, x.scope); }
  }

  /** The limits allow a request if and only if every limit that governs one of its scopes has room:
      what was charged there within the window, and no more, plus what is asked stays within the
      bound, in cost and in calls. */
  lemma LimitsAllowExactly(s: State, q: Request)
    requires Past(s.usage, q.checkedAt)
    ensures CheckedLimits(s, q).allowed <==>
            forall l, scope, kind :: Checks(s, q, l, scope) ==> HasRoom(s, q, l, scope, kind)
  {
    hide Windows, Scopes, Checks, HasRoom, CostFits, CallsFit;
    var ws := Windows(s.limits, Scopes(q.principal));
    AllowedFits(s.usage, ws, q.checkedAt, q.cost, q.calls);
    WindowsChecked(s, q);
    forall w | w in ws
      ensures CostFits(s.usage, w, q.checkedAt, q.cost) <==> HasRoom(s, q, w.limit, w.scope, Cost)
      ensures CallsFit(s.usage, w, q.checkedAt, q.calls) <==> HasRoom(s, q, w.limit, w.scope, Calls)
    {
      WindowFits(s, q, w);
    }
    if CheckedLimits(s, q).allowed {
      forall l, scope, kind | Checks(s, q, l, scope) ensures HasRoom(s, q, l, scope, kind) {
        assert Window(scope, l) in ws;
        assert kind.Cost? || kind.Calls?;
      }
    }
  }

  /** A limit that was spent is released: once all usage is older than every window, only what is
      asked counts. */
  lemma SpentLimitsAreReleased(s: State, q: Request)
    requires forall l, i :: l in s.limits && 0 <= i < |s.usage| ==> s.usage[i].ts < q.checkedAt - l.window as real
    ensures CheckedLimits(s, q).allowed <==>
            forall l, scope :: Checks(s, q, l, scope) ==>
              (l.maxCost.Some? ==> q.cost <= l.maxCost.value) && (l.maxCalls.Some? ==> q.calls <= l.maxCalls.value)
  {
    hide Windows, Scopes, Checks;
    var ws := Windows(s.limits, Scopes(q.principal));
    AllowedFits(s.usage, ws, q.checkedAt, q.cost, q.calls);
    WindowsChecked(s, q);
    forall w | w in ws
      ensures CostFits(s.usage, w, q.checkedAt, q.cost) <==> (w.limit.maxCost.Some? ==> q.cost <= w.limit.maxCost.value)
      ensures CallsFit(s.usage, w, q.checkedAt, q.calls) <==> (w.limit.maxCalls.Some? ==> q.calls <= w.limit.maxCalls.value)
    {
      GoverningIsInstalled(s, q, w);
      OldUsageRollsOff(s.usage, w.scope, q.checkedAt, w.limit.window, Cost);
      OldUsageRollsOff(s.usage, w.scope, q.checkedAt, w.limit.window, Calls);
    }
    forall l, scope | Checks(s, q, l, scope) ensures Window(scope, l) in ws {}
  }

  lemma GoverningIsInstalled(s: State, q: Request, w: Window)
    requires Checks(s, q, w.limit, w.scope)
    ensures w.limit in s.limits
  {
  }

  // ------------------------------------------------------------------ the report

  /** The greatest usage over the windows that were checked, and zero. */
  ghost predicate IsPeak(peak: real, s: State, q: Request, kind: Kind) {
    && peak >= 0.0
    && (forall l, scope :: Checks(s, q, l, scope) ==> Used(s.usage, scope, q.checkedAt, l.window, kind) <= peak)
    && (peak == 0.0 || exists l, scope :: Checks(s, q, l, scope) && Used(s.usage, scope, q.checkedAt, l.window, kind) == peak)
  }

  ghost predicate Peaks(st: LimitStatus, usage: seq<Usage>, ws: seq<Window>, now: real) {
    && st.currentCost >= 0.0 && st.currentCalls >= 0
    && (forall w :: w in ws ==>
          UsedCost(usage, w.scope, now, w.limit.window) <= st.currentCost
          && UsedCalls(usage, w.scope, now, w.limit.window) <= st.currentCalls)
    && (st.currentCost == 0.0 || exists w :: w in ws && UsedCost(usage, w.scope, now, w.limit.window) == st.currentCost)
    && (st.currentCalls == 0 || exists w :: w in ws && UsedCalls(usage, w.scope, now, w.limit.window) == st.currentCalls)
  }

  lemma {:induction false} StatusPeaks(usage: seq<Usage>, ws: seq<Window>, now: real, cost: real, calls: int)
    ensures Peaks(StatusAfter(usage, ws, now, cost, calls), usage, ws, now)
  {
    if ws != [] {
      var n := |ws| - 1;
      StatusPeaks(usage, ws[..n], now, cost, calls);
      assert ws == ws[..n] + [ws[n]];
      var before := StatusAfter(usage, ws[..n], now, cost, calls);
      if before.currentCost != 0.0 {
        var w :| w in ws[..n] && UsedCost(usage, w.scope, now, w.limit.window) == before.currentCost;
        assert w in ws;
      }
      if before.currentCalls != 0 {
        var w :| w in ws[..n] && UsedCalls(usage, w.scope, now, w.limit.window) == before.currentCalls;
        assert w in ws;
      }
      assert ws[n] in ws;
    }
  }

  /** What the report says was used is the greatest usage over the windows checked. */
  lemma ReportIsPeak(s: State, q: Request)
    ensures IsPeak(CheckedLimits(s, q).currentCost, s, q, Cost)
    ensures IsPeak(CheckedLimits(s, q).currentCalls as real, s, q, Calls)
  {
    hide Checks, UsedCost, UsedCalls, Windows, Scopes, StatusAfter;
    var ws := Windows(s.limits, Scopes(q.principal));
    StatusPeaks(s.usage, ws, q.checkedAt, q.cost, q.calls);
    WindowsChecked(s, q);
    forall l, scope | Checks(s, q, l, scope) ensures Window(scope, l) in ws {}
  }

  lemma {:induction false} StatusViolations(usage: seq<Usage>, ws: seq<Window>, now: real, cost: real, calls: int, v: Violation)
    ensures v in StatusAfter(usage, ws, now, cost, calls).violations <==>
            exists w :: w in ws && v.limit == w.limit.id && Scope(v.scope, v.value) == w.scope
                        && (if v.CostOver? then !CostFits(usage, w, now, cost) else !CallsFit(usage, w, now, calls))
  {
    if ws != [] {
      var n := |ws| - 1;
      StatusViolations(usage, ws[..n], now, cost, calls, v);
      assert ws == ws[..n] + [ws[n]];
    }
  }

  /** The violations listed are exactly the limits without room. */
  lemma ViolationsAre(s: State, q: Request, v: Violation)
    requires Past(s.usage, q.checkedAt)
    ensures v in CheckedLimits(s, q).violations <==>
            exists l :: Checks(s, q, l, Scope(v.scope, v.value)) && l.id == v.limit
                        && !HasRoom(s, q, l, Scope(v.scope, v.value), if v.CostOver? then Cost else Calls)
  {
    hide Checks, HasRoom, CostFits, CallsFit, Windows, Scopes, StatusAfter;
    var ws := Windows(s.limits, Scopes(q.principal));
    StatusViolations(s.usage, ws, q.checkedAt, q.cost, q.calls, v);
    WindowsChecked(s, q);
    forall w: Window
      ensures CostFits(s.usage, w, q.checkedAt, q.cost) <==> HasRoom(s, q, w.limit, w.scope, Cost)
      ensures CallsFit(s.usage, w, q.checkedAt, q.calls) <==> HasRoom(s, q, w.limit, w.scope, Calls)
    {
      WindowFits(s, q, w);
    }
    forall l, scope | Checks(s, q, l, scope) ensures Window(scope, l) in ws {}
  }
}
