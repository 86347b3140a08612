/** omni/fleet/node.py: the announcements and elections of a fleet over shared storage. Each call is
    one step. A node's announcement is its id and capacity, and its capacity never changes. */
module Election {
  import opened Json
  import opened Ordering

  datatype Announcement = Announcement(node: string, capacity: int)

  datatype Leader = Leader(leader: string, term: int)

  /** The announcements in storage, by node id. */
  type Registry = map<string, int>

  // ------------------------------------------------------------------ the winner

  /** The key `(capacity, node)` of `b` is below that of `a`. */
  predicate Ahead(a: Announcement, b: Announcement) {
    b.capacity < a.capacity || (b.capacity == a.capacity && Less(b.node, a.node))
  }

  lemma AheadTotal(a: Announcement, b: Announcement)
    ensures a == b || Ahead(a, b) || Ahead(b, a)
  {
    LessTotal(a.node, b.node);
  }

  lemma AheadTransitive(a: Announcement, b: Announcement, c: Announcement)
    requires Ahead(a, b) && Ahead(b, c)
    ensures Ahead(a, c)
  {
    if a.capacity == b.capacity == c.capacity { LessTransitive(c.node, b.node, a.node); }
  }

  lemma AheadIrreflexive(a: Announcement)
    ensures !Ahead(a, a)
  {
    LessIrreflexive(a.node);
  }

  /** Every node of the registry other than `node` is behind it. */
  ghost predicate Wins(node: string, registry: Registry) {
    && node in registry
    && forall m :: m in registry && m != node ==>
         Ahead(Announcement(node, registry[node]), Announcement(m, registry[m]))
  }

  /** The winner has the greatest capacity, and among those with it the greatest id. */
  lemma WinnerIsGreatest(n: string, registry: Registry)
    requires n in registry
    ensures Wins(n, registry) <==>
            forall m :: m in registry ==>
              registry[m] < registry[n] || (registry[m] == registry[n] && (m == n || Less(m, n)))
  {
    if !Wins(n, registry) {
      var m :| m in registry && m != n && !Ahead(Announcement(n, registry[n]), Announcement(m, registry[m]));
    }
  }

  lemma WinnerIsUnique(m: string, n: string, registry: Registry)
    requires Wins(m, registry) && Wins(n, registry)
    ensures m == n
  {
    if m != n {
      var a, b := Announcement(m, registry[m]), Announcement(n, registry[n]);
      AheadTransitive(a, b, a);
      AheadIrreflexive(a);
    }
  }

  lemma {:induction false} WinnerExists(registry: Registry)
    requires registry.Keys != {}
    ensures exists n :: Wins(n, registry)
    decreases |registry|
  {
    var n :| n in registry;
    var rest := registry - {n};
    if rest.Keys == {} {
      assert forall m :: m in registry && m != n ==> m in rest.Keys;
      assert Wins(n, registry);
    } else {
      assert n !in rest && rest.Keys < registry.Keys;
      SmallerMap(rest, registry);
      WinnerExists(rest);
      var w :| Wins(w, rest);
      WinnerOfMore(registry, n, w);
    }
  }

  lemma SmallerMap(small: Registry, big: Registry)
    requires small.Keys < big.Keys
    ensures |small| < |big|
  {
    SmallerSet(small.Keys, big.Keys);
  }

  lemma SmallerSet(small: set<string>, big: set<string>)
    requires small < big
    ensures |small| < |big|
  {
    assert big == small + (big - small);
  }

  lemma WinnerOfMore(registry: Registry, n: string, w: string)
    requires n in registry && Wins(w, registry - {n})
    ensures Wins(n, registry) || Wins(w, registry)
  {
    var a, b := Announcement(n, registry[n]), Announcement(w, registry[w]);
    AheadTotal(a, b);
    if Ahead(a, b) {
      forall m | m in registry && m != n ensures Ahead(a, Announcement(m, registry[m])) {
        assert m in registry - {n};
        if m != w { AheadTransitive(a, b, Announcement(m, registry[m])); }
      }
    } else {
      forall m | m in registry && m != w ensures Ahead(b, Announcement(m, registry[m])) {
        assert m != n ==> m in registry - {n};
      }
    }
  }

  ghost function Winner(registry: Registry): (n: string)
    requires registry.Keys != {}
    ensures Wins(n, registry)
  {
    WinnerExists(registry);
    var n :| Wins(n, registry);
    n
  }

  // ------------------------------------------------------------------ listings

  /** `nodes()` may list the registry in any order: by insertion in memory, by last update in
      Postgres. */
  ghost predicate Lists(list: seq<Announcement>, registry: Registry) {
    && (forall i :: 0 <= i < |list| ==> list[i].node in registry && registry[list[i].node] == list[i].capacity)
    && (forall n :: n in registry ==> Announcement(n, registry[n]) in list)
  }

  /** `max(candidates, key=...)`: the first of the greatest. */
  method Best(list: seq<Announcement>) returns (best: Announcement)
    requires list != []
    ensures best in list && forall a :: a in list ==> a == best || Ahead(best, a)
  {
    best := list[0];
    for i := 1 to |list|
      invariant best in list && forall a :: a in list[..i] ==> a == best || Ahead(best, a)
    {
      ghost var before := best;
      if Ahead(list[i], best) {
        forall a | a in list[..i] ensures Ahead(list[i], a) {
          if a != before { AheadTransitive(list[i], before, a); }
        }
        best := list[i];
      } else {
        AheadTotal(best, list[i]);
      }
      assert list[..i + 1] == list[..i] + [list[i]];
    }
  }

  /** Whatever the order of the listing, its best announcement is the winner's. */
  lemma BestIsWinner(list: seq<Announcement>, registry: Registry, best: Announcement)
    requires registry.Keys != {} && Lists(list, registry)
    requires best in list && forall a :: a in list ==> a == best || Ahead(best, a)
    ensures best == Announcement(Winner(registry), registry[Winner(registry)])
  {
    assert Wins(best.node, registry) by {
      forall m | m in registry && m != best.node
        ensures Ahead(Announcement(best.node, registry[best.node]), Announcement(m, registry[m]))
      {
        assert Announcement(m, registry[m]) in list;
      }
    }
    WinnerIsUnique(best.node, Winner(registry), registry);
  }

  // ------------------------------------------------------------------ runs

  /** `stored` is every leader that `set_leader` wrote, in order. */
  datatype Fleet = Fleet(registry: Registry, leader: Option<Leader>, stored: seq<Leader>)

  const EMPTY_FLEET := Fleet(map[], None, [])

  datatype Op = Announce(node: string) | Elect(node: string)

  type Capacities = string -> int

  function Announced(f: Fleet, node: string, capacity: int): (g: Fleet)
    ensures node in g.registry.Keys
  {
    f.(registry := f.registry[node := capacity])
  }

  function NextTerm(leader: Option<Leader>): int {
    if leader.Some? then leader.value.term + 1 else 1
  }

  ghost function Elected(f: Fleet, node: string, capacity: int): Fleet {
    var g := Announced(f, node, capacity);
    if Winner(g.registry) != node then g
    else
      var l := Leader(node, NextTerm(f.leader));
      g.(leader := Some(l), stored := f.stored + [l])
  }

  /** What `elect` returns. */
  ghost function ElectionResult(f: Fleet, node: string, capacity: int): Leader {
    var w := Winner(Announced(f, node, capacity).registry);
    if w == node then Leader(node, NextTerm(f.leader))
    else Leader(w, if f.leader.Some? && f.leader.value.leader == w then f.leader.value.term else 0)
  }

  /** An election, in full: the caller is announced; if it has the greatest capacity and id it becomes
      the stored leader of the next term and says so, and otherwise nothing is stored and it names the
      one that has, with that one's stored term or 0. */
  lemma ElectExactly(f: Fleet, node: string, capacity: int)
    ensures var g, r := Elected(f, node, capacity), ElectionResult(f, node, capacity);
            && g.registry == f.registry[node := capacity] && Wins(r.leader, g.registry)
            && (r.leader == node ==>
                  r.term == (if f.leader.Some? then f.leader.value.term + 1 else 1)
                  && g.leader == Some(r) && g.stored == f.stored + [r])
            && (r.leader != node ==>
                  r.term == (if f.leader.Some? && f.leader.value.leader == r.leader then f.leader.value.term else 0)
                  && g.leader == f.leader && g.stored == f.stored)
  {
  }

  ghost function Step(f: Fleet, op: Op, capacities: Capacities): Fleet {
    match op
    case Announce(node) => Announced(f, node, capacities(node))
    case Elect(node) => Elected(f, node, capacities(node))
  }

  ghost function RunFrom(f: Fleet, ops: seq<Op>, capacities: Capacities): Fleet {
    if ops == [] then f
    else Step(RunFrom(f, ops[..|ops| - 1], capacities), ops[|ops| - 1], capacities)
  }

  ghost function Run(ops: seq<Op>, capacities: Capacities): Fleet {
    RunFrom(EMPTY_FLEET, ops, capacities)
  }

  // ------------------------------------------------------------------ terms

  ghost predicate TermsCount(f: Fleet) {
    && (forall i :: 0 <= i < |f.stored| ==> f.stored[i].term == i + 1)
    && f.leader == (if f.stored == [] then None else Some(f.stored[|f.stored| - 1]))
  }

  lemma {:induction false} RunCountsTerms(ops: seq<Op>, capacities: Capacities)
    ensures TermsCount(Run(ops, capacities))
  {
    if ops != [] { RunCountsTerms(ops[..|ops| - 1], capacities); }
  }

  /** A term has one leader, and the stored one is that of the last election. */
  lemma OneLeaderPerTerm(ops: seq<Op>, capacities: Capacities, a: Leader, b: Leader)
    requires a in Run(ops, capacities).stored && b in Run(ops, capacities).stored && a.term == b.term
    ensures a == b && Run(ops, capacities).leader.Some? && a.term <= Run(ops, capacities).leader.value.term
  {
    RunCountsTerms(ops, capacities);
  }

  /** `is_leader` */
  predicate LeaderIs(leader: Option<Leader>, node: string) { leader.Some? && leader.value.leader == node }

  // ------------------------------------------------------------------ rank

  ghost predicate Faithful(f: Fleet, capacities: Capacities) {
    && (forall n :: n in f.registry ==> f.registry[n] == capacities(n))
    && (forall l :: l in f.stored ==> l.leader in f.registry)
  }

  /** More capacity, or as much and no smaller an id. */
  predicate AtLeast(a: string, b: string, capacities: Capacities) {
    capacities(b) < capacities(a) || (capacities(b) == capacities(a) && (a == b || Less(b, a)))
  }

  lemma {:induction false} RunIsFaithful(ops: seq<Op>, capacities: Capacities)
    ensures Faithful(Run(ops, capacities), capacities)
  {
    if ops != [] { RunIsFaithful(ops[..|ops| - 1], capacities); }
  }

  lemma WinnerIsAtLeast(registry: Registry, n: string, capacities: Capacities)
    requires n in registry && forall m :: m in registry ==> registry[m] == capacities(m)
    ensures AtLeast(Winner(registry), n, capacities)
  {
  }

  ghost predicate Climbing(stored: seq<Leader>, capacities: Capacities) {
    forall i, j :: 0 <= i <= j < |stored| ==> AtLeast(stored[j].leader, stored[i].leader, capacities)
  }

  lemma ElectionClimbs(f: Fleet, node: string, capacities: Capacities)
    requires Faithful(f, capacities) && Climbing(f.stored, capacities)
    ensures Climbing(Elected(f, node, capacities(node)).stored, capacities)
  {
    var registry := Announced(f, node, capacities(node)).registry;
    assert node in registry.Keys;
    forall i | 0 <= i < |f.stored|
      ensures AtLeast(Winner(registry), f.stored[i].leader, capacities)
    {
      assert f.stored[i] in f.stored;
      WinnerIsAtLeast(registry, f.stored[i].leader, capacities);
    }
  }

  /** The stored leader never changes to a node of lower capacity, or of equal capacity and smaller id. */
  lemma {:induction false} LeadersOnlyClimb(ops: seq<Op>, capacities: Capacities)
    ensures Climbing(Run(ops, capacities).stored, capacities)
  {
    if ops != [] {
      var front, op := ops[..|ops| - 1], ops[|ops| - 1];
      LeadersOnlyClimb(front, capacities);
      RunIsFaithful(front, capacities);
      if op.Elect? { ElectionClimbs(Run(front, capacities), op.node, capacities); }
    }
  }

  // ------------------------------------------------------------------ stability

  ghost predicate Members(ops: seq<Op>, members: set<string>) {
    forall i :: 0 <= i < |ops| ==> ops[i].node in members
  }

  /** Every member has announced, and the member ahead of the others is the stored leader. */
  ghost predicate Settled(f: Fleet, members: set<string>, champion: string, capacities: Capacities) {
    && f.registry.Keys == members && Wins(champion, f.registry)
    && (forall n :: n in f.registry ==> f.registry[n] == capacities(n))
    && f.leader.Some? && f.leader.value.leader == champion
  }

  /** Electing the champion among members that have all announced settles the fleet. */
  lemma ChampionSettles(f: Fleet, members: set<string>, champion: string, capacities: Capacities)
    requires Faithful(f, capacities) && f.registry.Keys == members && Wins(champion, f.registry)
    ensures Settled(Elected(f, champion, capacities(champion)), members, champion, capacities)
  {
    assert f.registry[champion := capacities(champion)] == f.registry;
    WinnerIsUnique(champion, Winner(f.registry), f.registry);
  }

  lemma SettledStep(f: Fleet, op: Op, members: set<string>, champion: string, capacities: Capacities)
    requires Settled(f, members, champion, capacities) && op.node in members
    ensures Settled(Step(f, op, capacities), members, champion, capacities)
    ensures op.Elect? ==> Some(ElectionResult(f, op.node, capacities(op.node))) == Step(f, op, capacities).leader
  {
    assert f.registry[op.node := capacities(op.node)] == f.registry;
    WinnerIsUnique(champion, Winner(f.registry), f.registry);
  }

  /** From then on no announcement or election of a member changes who leads, and every member that
      asks is told the leader and the term that are stored. */
  lemma {:induction false} ElectionIsStable(
      f: Fleet, ops: seq<Op>, members: set<string>, champion: string, capacities: Capacities, caller: string)
    requires Settled(f, members, champion, capacities) && Members(ops, members) && caller in members
    ensures var after := RunFrom(f, ops, capacities);
            Settled(after, members, champion, capacities)
            && ElectionResult(after, caller, capacities(caller)).leader == champion
            && Elected(after, caller, capacities(caller)).leader
               == Some(ElectionResult(after, caller, capacities(caller)))
    decreases |ops|
  {
    if ops != [] {
      var front := ops[..|ops| - 1];
      ElectionIsStable(f, front, members, champion, capacities, caller);
      SettledStep(RunFrom(f, front, capacities), ops[|ops| - 1], members, champion, capacities);
    }
    SettledStep(RunFrom(f, ops, capacities), Elect(caller), members, champion, capacities);
  }

  /** A caller is told term 0 exactly when the winner is another node that is not the stored leader. */
  lemma TermZeroExactlyWhen(ops: seq<Op>, caller: string, capacities: Capacities)
    ensures var f := Run(ops, capacities);
            var w := Winner(Announced(f, caller, capacities(caller)).registry);
            ElectionResult(f, caller, capacities(caller)).term == 0 <==>
            w != caller && !(f.leader.Some? && f.leader.value.leader == w)
  {
    RunCountsTerms(ops, capacities);
  }

  ghost predicate HeardFrom(ops: seq<Op>, node: string) {
    exists i :: 0 <= i < |ops| && ops[i].node == node
  }

  lemma {:induction false} RegistryIsCallers(ops: seq<Op>, capacities: Capacities, node: string)
    ensures node in Run(ops, capacities).registry <==> HeardFrom(ops, node)
  {
    if ops != [] {
      var front, op := ops[..|ops| - 1], ops[|ops| - 1];
      RegistryIsCallers(front, capacities, node);
      if HeardFrom(front, node) {
        var i :| 0 <= i < |front| && front[i].node == node;
        assert ops[i].node == node;
      }
    }
  }

  ghost predicate Leads(champion: string, members: set<string>, capacities: Capacities) {
    champion in members && forall m :: m in members ==> AtLeast(champion, m, capacities)
  }

  /** In every run of the members: once each has been heard from and the one of highest rank has
      called `elect`, it stays the stored leader, and whoever asks is told the leader and the term that are stored. */
  lemma {:induction false} ElectionConverges(
      ops: seq<Op>, later: seq<Op>, members: set<string>, champion: string, capacities: Capacities,
      caller: string)
    requires Members(ops, members) && Members(later, members) && caller in members
    requires forall m :: m in members ==> HeardFrom(ops, m)
    requires Leads(champion, members, capacities)
    ensures var after := RunFrom(Step(Run(ops, capacities), Elect(champion), capacities), later, capacities);
            after.leader.Some? && after.leader.value.leader == champion
            && ElectionResult(after, caller, capacities(caller)).leader == champion
            && Elected(after, caller, capacities(caller)).leader
               == Some(ElectionResult(after, caller, capacities(caller)))
  {
    var f := Run(ops, capacities);
    forall n ensures n in f.registry <==> n in members { RegistryIsCallers(ops, capacities, n); }
    assert f.registry.Keys == members;
    RunIsFaithful(ops, capacities);
    ChampionSettles(f, members, champion, capacities);
    ElectionIsStable(Elected(f, champion, capacities(champion)), later, members, champion, capacities, caller);
  }

  /** From then on the champion is the only member that `is_leader` answers yes to. */
  lemma OnlyTheChampionLeads(
      ops: seq<Op>, later: seq<Op>, members: set<string>, champion: string, capacities: Capacities,
      caller: string)
    requires Members(ops, members) && Members(later, members) && caller in members
    requires forall m :: m in members ==> HeardFrom(ops, m)
    requires Leads(champion, members, capacities)
    ensures var after := RunFrom(Step(Run(ops, capacities), Elect(champion), capacities), later, capacities);
            LeaderIs(after.leader, caller) <==> caller == champion
  {
    ElectionConverges(ops, later, members, champion, capacities, caller);
  }
}
