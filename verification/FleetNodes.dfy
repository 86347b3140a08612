/** omni/fleet/storage.py and omni/fleet/node.py: the storage adapters and the node that uses one.
    The ghost fields keep the history that the laws of elections and leases speak about. */
module FleetNodes {
  import opened Json
  import opened Election
  import L = Leases
  import Moments

  // ------------------------------------------------------------------ the registry as a list

  ghost predicate DistinctNodes(list: seq<Announcement>) {
    forall i, j :: 0 <= i < j < |list| ==> list[i].node != list[j].node
  }

  ghost function RegistryOf(list: seq<Announcement>): (r: Registry)
    requires DistinctNodes(list)
    ensures Lists(list, r)
  {
    map a | a in list :: a.node := a.capacity
  }

  /** `self._announcements[key] = payload`: a known node keeps its place. */
  function Placed(list: seq<Announcement>, a: Announcement): seq<Announcement> {
    if list == [] then [a]
    else if list[0].node == a.node then [a] + list[1..]
    else [list[0]] + Placed(list[1..], a)
  }

  lemma {:induction false} PlacedMembers(list: seq<Announcement>, a: Announcement)
    requires DistinctNodes(list)
    ensures DistinctNodes(Placed(list, a))
    ensures forall b :: b in Placed(list, a) <==> b == a || (b in list && b.node != a.node)
  {
    if list != [] {
      assert list == [list[0]] + list[1..];
      if list[0].node != a.node {
        PlacedMembers(list[1..], a);
        var rest := Placed(list[1..], a);
        forall i | 0 <= i < |rest| ensures rest[i].node != list[0].node { assert rest[i] in rest; }
      }
    }
  }

  /** A known node keeps its place in the list, a new one comes last, and the others stay. */
  lemma {:induction false} PlacedInPlace(list: seq<Announcement>, a: Announcement)
    requires DistinctNodes(list)
    ensures var r := Placed(list, a);
            var known := exists i :: 0 <= i < |list| && list[i].node == a.node;
            && |r| == |list| + (if known then 0 else 1) && (!known ==> r == list + [a])
            && (forall i :: 0 <= i < |list| ==> r[i] == if list[i].node == a.node then a else list[i])
  {
    if list != [] && list[0].node != a.node {
      PlacedInPlace(list[1..], a);
      if i :| 0 <= i < |list| && list[i].node == a.node { assert list[1..][i - 1].node == a.node; }
    }
  }

  lemma {:induction false} PlacedIsUpdate(list: seq<Announcement>, a: Announcement)
    requires DistinctNodes(list)
    ensures DistinctNodes(Placed(list, a)) && RegistryOf(Placed(list, a)) == RegistryOf(list)[a.node := a.capacity]
  {
    PlacedMembers(list, a);
  }

  class InMemoryFleetStorage {
    var leader: Option<Leader>
    var announcements: seq<Announcement>
    var queue: seq<Doc>
    ghost var stored: seq<Leader>
    ghost var handed: seq<Doc>

    ghost predicate Valid()
      reads this
    {
      DistinctNodes(announcements)
    }

    ghost function State(): Fleet
      requires Valid()
      reads this
    {
      Fleet(RegistryOf(announcements), leader, stored)
    }

    ghost function Tasks(): L.Fifo
      reads this
    {
      L.Fifo(queue, handed)
    }

    constructor ()
      ensures Valid() && State() == EMPTY_FLEET && Tasks() == L.FifoRun([])
    {
      leader, announcements, queue, stored, handed := None, [], [], [], [];
    }

    method SetLeader(node: string, term: int) returns (l: Leader)
      modifies this`leader, this`stored
      ensures l == Leader(node, term) && leader == Some(l) && stored == old(stored) + [l]
    {
      l := Leader(node, term);
      leader, stored := Some(l), stored + [l];
    }

    method Announce(a: Announcement)
      requires Valid()
      modifies this`announcements
      ensures Valid() && State() == Announced(old(State()), a.node, a.capacity)
      ensures announcements == Placed(old(announcements), a)
    {
      PlacedIsUpdate(announcements, a);
      announcements := Placed(announcements, a);
    }

    method Enqueue(task: Doc) returns (r: Doc)
      modifies this`queue
      ensures r == task && Tasks() == L.FifoStep(old(Tasks()), L.Enqueue(task))
    {
      queue := queue + [task];
      r := task;
    }

    /** The node and the duration of the lease are ignored. */
    method LeaseTask(node: string, seconds: int, now: int) returns (r: Option<Doc>)
      modifies this`queue, this`handed
      ensures Tasks() == L.FifoStep(old(Tasks()), L.Lease(node, seconds, now))
      ensures r == if old(queue) == [] then None else Some(old(queue)[0])
    {
      if queue == [] {
        return None;
      }
      r := Some(queue[0]);
      handed := handed + [queue[0]];
      queue := queue[1..];
    }
  }

  class FleetNode {
    const storage: InMemoryFleetStorage
    const id: string
    const capacity: int

    constructor (s: InMemoryFleetStorage, nodeId: string, units: int)
      ensures storage == s && id == nodeId && capacity == units
    {
      storage, id, capacity := s, nodeId, units;
    }

    method AnnounceSelf()
      requires storage.Valid()
      modifies storage`announcements
      ensures storage.Valid() && storage.State() == Announced(old(storage.State()), id, capacity)
    {
      storage.Announce(Announcement(id, capacity));
    }

    method CallElection() returns (r: Leader)
      requires storage.Valid()
      modifies storage`announcements, storage`leader, storage`stored
      ensures storage.Valid() && storage.State() == Elected(old(storage.State()), id, capacity)
      ensures r == ElectionResult(old(storage.State()), id, capacity)
    {
      AnnounceSelf();
      ghost var registry := storage.State().registry;
      assert id in registry.Keys;
      var candidates := storage.announcements;
      assert Announcement(id, capacity) in candidates;
      var best := Best(candidates);
      BestIsWinner(candidates, registry, best);
      var current := storage.leader;
      if best.node == id {
        r := storage.SetLeader(id, if current.Some? then current.value.term + 1 else 1);
      } else {
        r := Leader(best.node,
                    if current.Some? && current.value.leader == best.node then current.value.term else 0);
      }
    }

    method IsLeader() returns (yes: bool)
      ensures yes == LeaderIs(storage.leader, id)
    {
      yes := storage.leader.Some? && storage.leader.value.leader == id;
    }

    method AdoptTask(now: int) returns (r: Option<Doc>)
      modifies storage`queue, storage`handed
      ensures storage.Tasks() == L.FifoStep(old(storage.Tasks()), L.Lease(id, 60, now))
      ensures r == if old(storage.queue) == [] then None else Some(old(storage.queue)[0])
    {
      r := storage.LeaseTask(id, 60, now);
    }
  }

  // ------------------------------------------------------------------ the table of tasks

  function Decimal(n: nat): string {
    if n < 10 then [Moments.Digit(n)] else Decimal(n / 10) + [Moments.Digit(n % 10)]
  }

  predicate IsDigit(c: char) { '0' <= c <= '9' }

  /** The number a string of digits stands for. */
  function NumberOf(s: string): nat
    requires forall i :: 0 <= i < |s| ==> IsDigit(s[i])
  {
    if s == "" then 0
    else
      assert IsDigit(s[|s| - 1]);
      NumberOf(s[..|s| - 1]) * 10 + (s[|s| - 1] as int - '0' as int)
  }

  /** `str(id)`: digits that stand for the number, with no zero in front. */
  lemma {:induction false} DecimalReads(n: nat)
    ensures var s := Decimal(n);
            && s != "" && (forall i :: 0 <= i < |s| ==> IsDigit(s[i])) && NumberOf(s) == n
            && (|s| > 1 ==> s[0] != '0') && (n > 0 ==> s[0] != '0')
  {
    DigitReads(n % 10);
    if n >= 10 {
      DecimalReads(n / 10);
      var s := Decimal(n);
      assert s[..|s| - 1] == Decimal(n / 10);
    } else {
      assert Decimal(n)[..0] == "";
    }
  }

  lemma DigitReads(d: nat)
    requires d < 10
    ensures IsDigit(Moments.Digit(d)) && Moments.Digit(d) as int - '0' as int == d
  {
  }

  /** `{"id": str(id), **payload}`: an id inside the payload hides the one of the row. */
  function Labelled(id: nat, payload: Doc): (d: Doc)
    ensures forall k :: k in payload ==> k in d && d[k] == payload[k]
    ensures "id" in d && ("id" !in payload ==> d["id"] == Str(Decimal(id)))
    ensures forall k :: k in d ==> k == "id" || k in payload
  {
    map["id" := Str(Decimal(id))] + payload
  }

  /** What `lease_task` comes to. */
  datatype LeaseAnswer = Nothing | Handed(task: Doc) | Raised

  class PostgresFleetStorage {
    /** Does the driver parse JSONB columns itself, as psycopg does unless told otherwise? */
    const parsesJson: bool
    var rows: L.Table
    var serial: nat
    ghost var grants: seq<L.Grant>

    ghost function State(): L.Queue
      reads this
    {
      L.Queue(rows, serial, grants)
    }

    constructor (parses: bool)
      ensures State() == L.Run([]) && parsesJson == parses
    {
      parsesJson, rows, serial, grants := parses, [], 0, [];
    }

    method Enqueue(task: Doc) returns (r: Doc)
      modifies this`rows, this`serial
      ensures State() == L.Step(old(State()), L.Enqueue(task))
      ensures r == Labelled(serial, task)
    {
      serial := serial + 1;
      rows := rows + [L.TaskRow(serial, task, L.Queued, None, None)];
      r := Labelled(serial, task);
    }

    /** `ORDER BY id LIMIT 1` over the rows that are queued or whose lease has ended. */
    method SelectFirst(now: int) returns (k: nat)
      ensures k == L.Pick(rows, now)
    {
      k := 0;
      while k < |rows| && !L.Available(rows[k], now)
        invariant k <= |rows| && L.NoneBefore(rows, k, now)
      {
        k := k + 1;
      }
      L.PickIsFirst(rows, now, k);
    }

    /** The lease is committed before the payload goes through `json.loads`, which raises on a value
        that is already parsed: the row is then leased although nobody was handed it. */
    method LeaseTask(node: string, seconds: int, now: int) returns (r: LeaseAnswer)
      modifies this`rows, this`grants
      ensures State() == L.Step(old(State()), L.Lease(node, seconds, now))
      ensures r == Nothing <==> grants == old(grants)
      ensures r != Nothing ==> |grants| == |old(grants)| + 1
      ensures r != Nothing ==>
                r == if parsesJson then Raised
                     else Handed(Labelled(grants[|old(grants)|].id, grants[|old(grants)|].payload))
    {
      var k := SelectFirst(now);
      if k == |rows| {
        return Nothing;
      }
      var row := rows[k];
      grants := grants + [L.GrantOf(row, node, seconds, now)];
      rows := rows[k := L.Lent(row, node, seconds, now)];
      r := if parsesJson then Raised else Handed(Labelled(row.id, row.payload));
    }
  }
}
