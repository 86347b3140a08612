/** omni/fleet/storage.py: the shared task queue. The Postgres table is the sequence of its rows in
    the order of insertion, and each statement is one step on it. Moments are integers. */
module Leases {
  import opened Json

  datatype RowStatus = Queued | Leased

  datatype TaskRow = TaskRow(
    id: nat, payload: Doc, status: RowStatus, leasedBy: Option<string>, leasedUntil: Option<int>)

  type Table = seq<TaskRow>

  // ------------------------------------------------------------------ one lease

  /** `status = 'queued' OR leased_until < NOW()` */
  predicate Available(r: TaskRow, now: int) {
    r.status == Queued || (r.leasedUntil.Some? && r.leasedUntil.value < now)
  }

  ghost predicate NoneBefore(rows: Table, end: nat, now: int)
    requires end <= |rows|
  {
    forall i :: 0 <= i < end ==> !Available(rows[i], now)
  }

  /** The position of the first available row, or the number of rows if there is none. */
  function Pick(rows: Table, now: int): (k: nat)
    ensures k <= |rows| && (k < |rows| ==> Available(rows[k], now)) && NoneBefore(rows, k, now)
  {
    if rows == [] then 0
    else
      var front := rows[..|rows| - 1];
      var k := Pick(front, now);
      assert forall i :: 0 <= i < |front| ==> rows[i] == front[i];
      if k < |front| then k
      else if Available(rows[|front|], now) then |front|
      else |rows|
  }

  lemma PickIsFirst(rows: Table, now: int, k: nat)
    requires k <= |rows| && NoneBefore(rows, k, now) && (k < |rows| ==> Available(rows[k], now))
    ensures k == Pick(rows, now)
  {
  }

  ghost predicate Ordered(rows: Table) {
    forall i, j :: 0 <= i < j < |rows| ==> rows[i].id < rows[j].id
  }

  function Lent(r: TaskRow, node: string, seconds: int, now: int): TaskRow {
    r.(status := Leased, leasedBy := Some(node), leasedUntil := Some(now + seconds))
  }

  // ------------------------------------------------------------------ runs

  datatype Op =
    | Enqueue(payload: Doc)
    | Lease(node: string, seconds: int, now: int)

  /** What one successful lease handed out, and for how long. */
  datatype Grant = Grant(id: nat, node: string, payload: Doc, at: int, until: int)

  /** The table, the sequence behind its ids, and every grant made so far. */
  datatype Queue = Queue(rows: Table, serial: nat, grants: seq<Grant>)

  const EMPTY_QUEUE := Queue([], 0, [])

  function GrantOf(r: TaskRow, node: string, seconds: int, now: int): Grant {
    Grant(r.id, node, r.payload, now, now + seconds)
  }

  function Enqueued(q: Queue, payload: Doc): Queue {
    q.(rows := q.rows + [TaskRow(q.serial + 1, payload, Queued, None, None)], serial := q.serial + 1)
  }

  function LeasedOut(q: Queue, node: string, seconds: int, now: int): Queue {
    var k := Pick(q.rows, now);
    if k == |q.rows| then q
    else q.(rows := q.rows[k := Lent(q.rows[k], node, seconds, now)],
            grants := q.grants + [GrantOf(q.rows[k], node, seconds, now)])
  }

  function Step(q: Queue, op: Op): Queue {
    match op
    case Enqueue(payload) => Enqueued(q, payload)
    case Lease(node, seconds, now) => LeasedOut(q, node, seconds, now)
  }

  function Run(ops: seq<Op>): Queue {
    if ops == [] then EMPTY_QUEUE else Step(Run(ops[..|ops| - 1]), ops[|ops| - 1])
  }

  // ------------------------------------------------------------------ leases exclude each other

  /** The clock of the database never goes back. */
  ghost predicate Timely(ops: seq<Op>) {
    forall i, j :: 0 <= i < j < |ops| && ops[i].Lease? && ops[j].Lease? ==> ops[i].now <= ops[j].now
  }

  ghost predicate NotAfter(ops: seq<Op>, clock: int) {
    forall i :: 0 <= i < |ops| && ops[i].Lease? ==> ops[i].now <= clock
  }

  ghost predicate Exclusive(grants: seq<Grant>) {
    forall i, j :: 0 <= i < j < |grants| && grants[i].id == grants[j].id ==> grants[i].until < grants[j].at
  }

  /** Whatever was granted on a row has ended, or ends no later than the row says. */
  ghost predicate Covered(r: TaskRow, grants: seq<Grant>, clock: int) {
    forall i :: 0 <= i < |grants| && grants[i].id == r.id ==>
      r.status == Leased && r.leasedUntil.Some?
      && (grants[i].until <= r.leasedUntil.value || grants[i].until < clock)
  }

  ghost predicate AllCovered(rows: Table, grants: seq<Grant>, clock: int) {
    forall k :: 0 <= k < |rows| ==> Covered(rows[k], grants, clock)
  }

  ghost predicate IdsIssued(q: Queue) {
    && Ordered(q.rows)
    && (forall k :: 0 <= k < |q.rows| ==> q.rows[k].id <= q.serial)
    && (forall i :: 0 <= i < |q.grants| ==> q.grants[i].id <= q.serial)
  }

  lemma {:induction false} RunKeepsIds(ops: seq<Op>)
    ensures IdsIssued(Run(ops))
  {
    if ops != [] {
      RunKeepsIds(ops[..|ops| - 1]);
    }
  }

  lemma {:induction false} RunExcludes(ops: seq<Op>, clock: int)
    requires Timely(ops) && NotAfter(ops, clock)
    ensures Exclusive(Run(ops).grants) && AllCovered(Run(ops).rows, Run(ops).grants, clock)
  {
    if ops != [] {
      var front, op := ops[..|ops| - 1], ops[|ops| - 1];
      RunKeepsIds(front);
      match op {
        case Enqueue(payload) =>
          RunExcludes(front, clock);
        case Lease(node, seconds, now) =>
          RunExcludes(front, now);
      }
    }
  }

  /** No lease is asked for a negative time. */
  ghost predicate Lasting(ops: seq<Op>) {
    forall i :: 0 <= i < |ops| && ops[i].Lease? ==> ops[i].seconds >= 0
  }

  /** Whatever was granted on a row ends no later than the row says. */
  ghost predicate Outlasted(r: TaskRow, grants: seq<Grant>) {
    forall i :: 0 <= i < |grants| && grants[i].id == r.id ==>
      r.status == Leased && r.leasedUntil.Some? && grants[i].until <= r.leasedUntil.value
  }

  lemma {:induction false} RunOutlasts(ops: seq<Op>)
    requires Lasting(ops)
    ensures Exclusive(Run(ops).grants)
    ensures forall k :: 0 <= k < |Run(ops).rows| ==> Outlasted(Run(ops).rows[k], Run(ops).grants)
  {
    if ops != [] {
      RunOutlasts(ops[..|ops| - 1]);
      RunKeepsIds(ops[..|ops| - 1]);
    }
  }

  /** Two grants of one task never hold at the same moment: on a clock that never goes back however
      long they were asked for, and on any clock if none was asked for a negative time. */
  lemma LeasesExclude(ops: seq<Op>, i: nat, j: nat, moment: int)
    requires Timely(ops) || Lasting(ops)
    requires i < j < |Run(ops).grants| && Run(ops).grants[i].id == Run(ops).grants[j].id
    ensures Run(ops).grants[i].until < Run(ops).grants[j].at
    ensures !(Run(ops).grants[i].at <= moment <= Run(ops).grants[i].until
              && Run(ops).grants[j].at <= moment <= Run(ops).grants[j].until)
  {
    if Lasting(ops) {
      RunOutlasts(ops);
    } else {
      var clock := LastMoment(ops);
      RunExcludes(ops, clock);
    }
  }

  lemma {:induction false} LastMoment(ops: seq<Op>) returns (clock: int)
    ensures NotAfter(ops, clock)
  {
    if ops == [] {
      clock := 0;
    } else {
      var op := ops[|ops| - 1];
      clock := LastMoment(ops[..|ops| - 1]);
      if op.Lease? && clock < op.now { clock := op.now; }
    }
  }

  // ------------------------------------------------------------------ nothing is lost

  function Payloads(rows: Table): seq<Doc> {
    if rows == [] then [] else Payloads(rows[..|rows| - 1]) + [rows[|rows| - 1].payload]
  }

  function Submitted(ops: seq<Op>): seq<Doc> {
    if ops == [] then []
    else Submitted(ops[..|ops| - 1])
         + if ops[|ops| - 1].Enqueue? then [ops[|ops| - 1].payload] else []
  }

  lemma {:induction false} PayloadsKept(rows: Table, k: nat, r: TaskRow)
    requires k < |rows| && r.payload == rows[k].payload
    ensures Payloads(rows[k := r]) == Payloads(rows)
  {
    var n := |rows| - 1;
    if k < n {
      assert rows[k := r][..n] == rows[..n][k := r];
      PayloadsKept(rows[..n], k, r);
    } else {
      assert rows[k := r][..n] == rows[..n];
    }
  }

  /** The table holds exactly the submitted tasks, in order, whatever was leased meanwhile. */
  lemma {:induction false} NoTaskIsLost(ops: seq<Op>)
    ensures Payloads(Run(ops).rows) == Submitted(ops)
  {
    if ops != [] {
      var q, op := Run(ops[..|ops| - 1]), ops[|ops| - 1];
      NoTaskIsLost(ops[..|ops| - 1]);
      match op {
        case Enqueue(payload) =>
        case Lease(node, seconds, now) =>
          var k := Pick(q.rows, now);
          if k < |q.rows| { PayloadsKept(q.rows, k, Lent(q.rows[k], node, seconds, now)); }
      }
    }
  }

  /** A lease hands out the available task of the smallest id, and nothing only when none is
      available. */
  lemma SmallestIdWins(q: Queue, node: string, seconds: int, now: int, i: nat)
    requires IdsIssued(q) && i < |q.rows| && Available(q.rows[i], now)
    ensures var after := LeasedOut(q, node, seconds, now).grants;
            |after| == |q.grants| + 1 && after[..|q.grants|] == q.grants
            && after[|q.grants|].id <= q.rows[i].id
            && (after[|q.grants|].id == q.rows[i].id ==> after[|q.grants|].payload == q.rows[i].payload)
  {
    var k := Pick(q.rows, now);
    assert k <= i;
  }

  /** A lease, in full: the available row of the smallest id is leased to the node until its time is
      up, and granted as such; every other row stays, and nothing happens where none is available. */
  lemma LeaseExactly(q: Queue, node: string, seconds: int, now: int) returns (k: nat)
    ensures var q' := LeasedOut(q, node, seconds, now);
            if exists i :: 0 <= i < |q.rows| && Available(q.rows[i], now) then
              && k < |q.rows| && Available(q.rows[k], now) && NoneBefore(q.rows, k, now)
              && var r := q.rows[k];
                 q' == Queue(q.rows[k := TaskRow(r.id, r.payload, Leased, Some(node), Some(now + seconds))], q.serial,
                             q.grants + [Grant(r.id, node, r.payload, now, now + seconds)])
            else q' == q
  {
    k := Pick(q.rows, now);
    if i :| 0 <= i < |q.rows| && Available(q.rows[i], now) { assert k <= i; }
  }

  // ------------------------------------------------------------------ the in-memory queue

  /** What a caller of `lease_task` gets: the payloads handed out, in order. */
  function Handed(grants: seq<Grant>): seq<Doc> {
    if grants == [] then [] else Handed(grants[..|grants| - 1]) + [grants[|grants| - 1].payload]
  }

  /** The list behind `InMemoryFleetStorage`, and the payloads it has handed out. */
  datatype Fifo = Fifo(waiting: seq<Doc>, handed: seq<Doc>)

  function FifoStep(f: Fifo, op: Op): Fifo {
    match op
    case Enqueue(payload) => f.(waiting := f.waiting + [payload])
    case Lease(_, _, _) =>
      if f.waiting == [] then f else Fifo(f.waiting[1..], f.handed + [f.waiting[0]])
  }

  function FifoRun(ops: seq<Op>): Fifo {
    if ops == [] then Fifo([], []) else FifoStep(FifoRun(ops[..|ops| - 1]), ops[|ops| - 1])
  }

  /** No lease is asked for after an earlier one has run out. */
  ghost predicate Unexpired(ops: seq<Op>) {
    forall i, j :: 0 <= i < j < |ops| && ops[i].Lease? && ops[j].Lease? ==>
      ops[j].now <= ops[i].now + ops[i].seconds
  }

  ghost predicate LeasesRun(rows: Table, now: int) {
    forall k :: 0 <= k < |rows| && rows[k].status == Leased ==>
      rows[k].leasedUntil.Some? && now <= rows[k].leasedUntil.value
  }

  ghost predicate WaitingFrom(rows: Table, n: nat, f: Fifo)
    requires n <= |rows|
  {
    && |f.waiting| == |rows| - n
    && (forall k :: 0 <= k < n ==> rows[k].status == Leased)
    && (forall k :: n <= k < |rows| ==> rows[k].status == Queued && rows[k].payload == f.waiting[k - n])
  }

  /** The table is its leased rows followed by the rows the list still holds. */
  ghost predicate Matches(q: Queue, f: Fifo) {
    |q.grants| <= |q.rows| && WaitingFrom(q.rows, |q.grants|, f) && Handed(q.grants) == f.handed
  }

  lemma FirstWaiting(q: Queue, f: Fifo, now: int)
    requires Matches(q, f) && LeasesRun(q.rows, now)
    ensures Pick(q.rows, now) == |q.grants|
  {
    PickIsFirst(q.rows, now, |q.grants|);
  }

  lemma HandedGrows(grants: seq<Grant>, g: Grant)
    ensures Handed(grants + [g]) == Handed(grants) + [g.payload]
  {
    assert (grants + [g])[..|grants|] == grants;
  }

  lemma LeaseMatches(q: Queue, f: Fifo, node: string, seconds: int, now: int)
    requires Matches(q, f) && LeasesRun(q.rows, now)
    ensures Matches(LeasedOut(q, node, seconds, now), FifoStep(f, Lease(node, seconds, now)))
  {
    FirstWaiting(q, f, now);
    var k := |q.grants|;
    if f.waiting != [] {
      HandedGrows(q.grants, GrantOf(q.rows[k], node, seconds, now));
    }
  }

  /** Where every lease asked for lasts until `now`, every leased row runs at `now`. */
  lemma {:induction false} StillRunning(ops: seq<Op>, now: int)
    requires forall i :: 0 <= i < |ops| && ops[i].Lease? ==> now <= ops[i].now + ops[i].seconds
    ensures LeasesRun(Run(ops).rows, now)
  {
    if ops != [] {
      StillRunning(ops[..|ops| - 1], now);
    }
  }

  /** No lease is asked for while some leased row has run out. */
  ghost predicate NoneExpires(ops: seq<Op>) {
    ops == [] ||
    (var front, op := ops[..|ops| - 1], ops[|ops| - 1];
     NoneExpires(front) && (op.Lease? ==> LeasesRun(Run(front).rows, op.now)))
  }

  function LeasedCount(rows: Table): nat {
    if rows == [] then 0 else LeasedCount(rows[..|rows| - 1]) + if rows[|rows| - 1].status == Leased then 1 else 0
  }

  /** The leased rows come first. */
  ghost predicate LeasedFirst(rows: Table) {
    && LeasedCount(rows) <= |rows|
    && (forall k :: 0 <= k < |rows| ==> (rows[k].status == Leased <==> k < LeasedCount(rows)))
    && (forall k :: 0 <= k < |rows| && rows[k].status == Leased ==> rows[k].leasedUntil.Some?)
  }

  lemma {:induction false} LeasedCountUpdate(rows: Table, k: nat, r: TaskRow)
    requires k < |rows| && r.status == Leased
    ensures LeasedCount(rows[k := r]) == LeasedCount(rows) + if rows[k].status == Leased then 0 else 1
  {
    var n := |rows| - 1;
    if k < n {
      assert rows[k := r][..n] == rows[..n][k := r];
      LeasedCountUpdate(rows[..n], k, r);
    } else {
      assert rows[k := r][..n] == rows[..n];
    }
  }

  /** What one lease does to a table whose leased rows come first. */
  lemma LeaseAmongFirst(q: Queue, node: string, seconds: int, now: int)
    requires LeasedFirst(q.rows)
    ensures var q' := LeasedOut(q, node, seconds, now); var n := LeasedCount(q.rows);
            LeasedFirst(q'.rows)
            && if !LeasesRun(q.rows, now) then |q'.grants| == |q.grants| + 1 && LeasedCount(q'.rows) == n
               else |q'.grants| - |q.grants| == LeasedCount(q'.rows) - n
  {
    hide Pick, LeasedCount;
    var k, n := Pick(q.rows, now), LeasedCount(q.rows);
    if k < |q.rows| {
      assert n < |q.rows| ==> Available(q.rows[n], now);
      assert LeasesRun(q.rows, now) <==> k == n;
      LeasedCountUpdate(q.rows, k, Lent(q.rows[k], node, seconds, now));
    }
  }

  lemma EnqueueAmongFirst(q: Queue, payload: Doc)
    requires LeasedFirst(q.rows)
    ensures var q' := Enqueued(q, payload);
            LeasedFirst(q'.rows) && LeasedCount(q'.rows) == LeasedCount(q.rows) && q'.grants == q.grants
  {
    var q' := Enqueued(q, payload);
    assert q'.rows[..|q.rows|] == q.rows;
  }

  /** Rows are leased at most once each exactly as long as none expires: there are no more grants
      than leased rows. */
  lemma {:induction false} RunCounts(ops: seq<Op>)
    ensures LeasedFirst(Run(ops).rows) && LeasedCount(Run(ops).rows) <= |Run(ops).grants|
    ensures LeasedCount(Run(ops).rows) == |Run(ops).grants| <==> NoneExpires(ops)
  {
    if ops != [] {
      hide LeasedOut, LeasesRun, LeasedFirst, LeasedCount, Enqueued;
      var front, op := ops[..|ops| - 1], ops[|ops| - 1];
      RunCounts(front);
      match op {
        case Enqueue(payload) => EnqueueAmongFirst(Run(front), payload);
        case Lease(node, seconds, now) => LeaseAmongFirst(Run(front), node, seconds, now);
      }
    }
  }

  ghost predicate GrantedOnce(grants: seq<Grant>) {
    forall i, j :: 0 <= i < j < |grants| ==> grants[i].id != grants[j].id
  }

  /** A row is leased exactly when its id was granted. */
  ghost predicate GrantsShow(q: Queue) {
    forall k :: 0 <= k < |q.rows| ==>
      (q.rows[k].status == Leased <==> exists i :: 0 <= i < |q.grants| && q.grants[i].id == q.rows[k].id)
  }

  lemma {:induction false} RunShows(ops: seq<Op>)
    ensures GrantsShow(Run(ops))
  {
    if ops != [] {
      var front, op := ops[..|ops| - 1], ops[|ops| - 1];
      RunShows(front);
      RunKeepsIds(front);
      var q, q' := Run(front), Run(ops);
      if op.Lease? {
        LeaseShows(q, op.node, op.seconds, op.now);
      }
    }
  }

  lemma LeaseShows(q: Queue, node: string, seconds: int, now: int)
    requires GrantsShow(q) && IdsIssued(q)
    ensures GrantsShow(LeasedOut(q, node, seconds, now))
  {
    var q', k := LeasedOut(q, node, seconds, now), Pick(q.rows, now);
    if k < |q.rows| {
      var n := |q.grants|;
      forall j | 0 <= j < |q.rows|
        ensures q'.rows[j].status == Leased <==> exists i :: 0 <= i <= n && q'.grants[i].id == q'.rows[j].id
      {
        if j == k {
          assert q'.grants[n].id == q'.rows[j].id;
        } else if q.rows[j].status == Leased {
          var i :| 0 <= i < n && q.grants[i].id == q.rows[j].id;
          assert q'.grants[i].id == q'.rows[j].id;
        } else {
          assert q'.rows[j].id != q'.grants[n].id;
        }
      }
    }
  }

  /** Every task is granted at most once if and only if no lease is asked for while some leased row
      has run out. */
  lemma {:induction false} GrantedOnceExactlyWhen(ops: seq<Op>)
    ensures GrantedOnce(Run(ops).grants) <==> NoneExpires(ops)
  {
    if ops != [] {
      hide LeasedOut, GrantedOnce, LeasesRun;
      var front, op := ops[..|ops| - 1], ops[|ops| - 1];
      GrantedOnceExactlyWhen(front);
      RunCounts(front);
      RunShows(front);
      RunKeepsIds(front);
      if op.Lease? { LeaseOnce(Run(front), op.node, op.seconds, op.now); }
    }
  }

  lemma LeaseOnce(q: Queue, node: string, seconds: int, now: int)
    requires LeasedFirst(q.rows) && GrantsShow(q) && IdsIssued(q)
    ensures GrantedOnce(LeasedOut(q, node, seconds, now).grants) <==> GrantedOnce(q.grants) && LeasesRun(q.rows, now)
  {
    var q', k, n := LeasedOut(q, node, seconds, now), Pick(q.rows, now), |q.grants|;
    if k < |q.rows| {
      assert q'.grants[n].id == q.rows[k].id;
      assert forall i :: 0 <= i < n ==> q'.grants[i] == q.grants[i];
      assert LeasesRun(q.rows, now) <==> q.rows[k].status == Queued;
    }
  }

  // ------------------------------------------------------------------ the same as the list, exactly

  /** The payloads that still wait in the table, in order. */
  function Waiting(rows: Table): seq<Doc> {
    if rows == [] then []
    else Waiting(rows[..|rows| - 1]) + if rows[|rows| - 1].status == Queued then [rows[|rows| - 1].payload] else []
  }

  /** A caller cannot tell the table from the list. */
  ghost predicate SameAsFifo(q: Queue, f: Fifo) { Handed(q.grants) == f.handed && Waiting(q.rows) == f.waiting }

  lemma {:induction false} WaitingAre(rows: Table, n: nat)
    requires n <= |rows| && forall k :: 0 <= k < |rows| ==> (rows[k].status == Leased <==> k < n)
    ensures |Waiting(rows)| == |rows| - n && forall k :: n <= k < |rows| ==> Waiting(rows)[k - n] == rows[k].payload
  {
    if n < |rows| { WaitingAre(rows[..|rows| - 1], n); } else { NoneWaits(rows); }
  }

  lemma {:induction false} NoneWaits(rows: Table)
    requires forall k :: 0 <= k < |rows| ==> rows[k].status == Leased
    ensures Waiting(rows) == []
  {
    if rows != [] { NoneWaits(rows[..|rows| - 1]); }
  }

  lemma {:induction false} MatchesRun(ops: seq<Op>)
    requires NoneExpires(ops)
    ensures Matches(Run(ops), FifoRun(ops))
  {
    if ops != [] {
      var front, op := ops[..|ops| - 1], ops[|ops| - 1];
      MatchesRun(front);
      if op.Lease? { LeaseMatches(Run(front), FifoRun(front), op.node, op.seconds, op.now); }
    }
  }

  /** Both hold every submitted task once: handed out, or still waiting. */
  lemma {:induction false} FifoCounts(ops: seq<Op>)
    ensures |FifoRun(ops).waiting| + |FifoRun(ops).handed| == |Run(ops).rows|
  {
    if ops != [] { FifoCounts(ops[..|ops| - 1]); }
  }

  lemma {:induction false} HandedCount(grants: seq<Grant>)
    ensures |Handed(grants)| == |grants|
  {
    if grants != [] { HandedCount(grants[..|grants| - 1]); }
  }

  /** The table hands out the tasks that the list would, in the same order, and keeps the same ones
      waiting, if and only if no lease is asked for while some leased row has run out. */
  lemma FifoExactlyWhen(ops: seq<Op>)
    ensures SameAsFifo(Run(ops), FifoRun(ops)) <==> NoneExpires(ops)
  {
    hide Run, FifoRun, NoneExpires, Handed, Waiting;
    var q, f := Run(ops), FifoRun(ops);
    RunCounts(ops);
    FifoCounts(ops);
    HandedCount(q.grants);
    WaitingAre(q.rows, LeasedCount(q.rows));
    if NoneExpires(ops) {
      MatchesRun(ops);
      var n := |q.grants|;
      forall j | 0 <= j < |f.waiting| ensures Waiting(q.rows)[j] == f.waiting[j] {
        assert Waiting(q.rows)[n + j - n] == q.rows[n + j].payload;
      }
    }
  }

  /** It is enough that every lease lasts until each later one is asked for. */
  lemma {:induction false} UnexpiredMeansNone(ops: seq<Op>)
    requires Unexpired(ops)
    ensures NoneExpires(ops)
  {
    if ops != [] {
      UnexpiredMeansNone(ops[..|ops| - 1]);
      if ops[|ops| - 1].Lease? { StillRunning(ops[..|ops| - 1], ops[|ops| - 1].now); }
    }
  }

  /** Such a run hands out and keeps what the list does. */
  lemma UnexpiredIsFifo(ops: seq<Op>)
    requires Unexpired(ops)
    ensures Matches(Run(ops), FifoRun(ops)) && SameAsFifo(Run(ops), FifoRun(ops))
  {
    UnexpiredMeansNone(ops);
    MatchesRun(ops);
    FifoExactlyWhen(ops);
  }

  lemma RunOnce(ops: seq<Op>, op: Op)
    ensures Run(ops + [op]) == Step(Run(ops), op) && FifoRun(ops + [op]) == FifoStep(FifoRun(ops), op)
  {
    assert (ops + [op])[..|ops|] == ops;
  }

  lemma LeaseFirst(q: Queue, node: string, seconds: int, now: int)
    requires q.rows != [] && Available(q.rows[0], now)
    ensures LeasedOut(q, node, seconds, now) ==
            Queue(q.rows[0 := Lent(q.rows[0], node, seconds, now)], q.serial,
                  q.grants + [GrantOf(q.rows[0], node, seconds, now)])
  {
    PickIsFirst(q.rows, now, 0);
  }

  const LENDER := "a"

  function OneLeased(payload: Doc, seconds: int, now: int): seq<Op> {
    [] + [Enqueue(payload)] + [Lease(LENDER, seconds, now)]
  }

  lemma RunNothing()
    ensures Run([]) == EMPTY_QUEUE && FifoRun([]) == Fifo([], [])
  {
  }

  lemma OneIsLeased(payload: Doc, seconds: int, now: int)
    ensures var r := TaskRow(1, payload, Queued, None, None);
            Run(OneLeased(payload, seconds, now)) ==
            Queue([Lent(r, LENDER, seconds, now)], 1, [GrantOf(r, LENDER, seconds, now)])
    ensures FifoRun(OneLeased(payload, seconds, now)) == Fifo([], [payload])
  {
    hide Run, FifoRun, Pick, LeasedOut;
    var none: seq<Op> := [];
    RunNothing();
    RunOnce(none, Enqueue(payload));
    RunOnce(none + [Enqueue(payload)], Lease(LENDER, seconds, now));
    LeaseFirst(Run(none + [Enqueue(payload)]), LENDER, seconds, now);
  }

  /** The condition is needed: once a lease has run out, the list is empty where the table hands
      the task out again. */
  lemma ExpiredIsHandedAgain(payload: Doc, seconds: int, now: int, later: int)
    requires now + seconds < later
    ensures var ops := OneLeased(payload, seconds, now) + [Lease(LENDER, seconds, later)];
            Handed(Run(ops).grants) == [payload, payload] && FifoRun(ops).handed == [payload]
  {
    hide Run, FifoRun, Pick, LeasedOut, OneLeased;
    var leased := OneLeased(payload, seconds, now);
    var q := Run(leased);
    RunOnce(leased, Lease(LENDER, seconds, later));
    OneIsLeased(payload, seconds, now);
    LeaseFirst(q, LENDER, seconds, later);
    HandedGrows([], q.grants[0]);
    HandedGrows(q.grants, GrantOf(q.rows[0], LENDER, seconds, later));
  }
}
