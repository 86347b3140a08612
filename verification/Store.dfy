/** omni/memory/store.py: the append-only versioned store. The table is the sequence of its rows in
    insertion order; each SQL query is a function of that sequence. */
module Store {
  import opened Json
  import opened Diff
  import opened DiffReplay
  import opened Moments

  datatype Reason =
    | Text(s: string)
    | RollbackTo(version: int, s: string)
    | FusionOf(sources: seq<string>, target: string, s: string)

  datatype Origin = Origin(branch: string, version: int)

  datatype Row = Row(
    key: string, branch: string, version: int, value: Doc, agent: string, reason: Reason,
    parent: Option<int>, hash: string, provenance: Option<Origin>, createdAt: Moment)

  type Table = seq<Row>
  type HashFunction = Doc -> string

  // ------------------------------------------------------------------ queries

  predicate On(r: Row, key: string, branch: string) { r.key == key && r.branch == branch }

  /** `_latest`: the matching row with the greatest version. */
  function Latest(rows: Table, key: string, branch: string): Option<Row> {
    if rows == [] then None
    else
      var best, r := Latest(rows[..|rows| - 1], key, branch), rows[|rows| - 1];
      if On(r, key, branch) && (best.None? || best.value.version < r.version) then Some(r) else best
  }

  function ReadAt(rows: Table, key: string, branch: string, version: int): Option<Row> {
    if rows == [] then None
    else
      var r := rows[|rows| - 1];
      if On(r, key, branch) && r.version == version then Some(r)
      else ReadAt(rows[..|rows| - 1], key, branch, version)
  }

  /** The latest row is found wherever there is one, and no row of its key and branch is newer. */
  lemma {:induction false} LatestFound(rows: Table, key: string, branch: string)
    ensures Latest(rows, key, branch).Some? <==> exists r :: r in rows && On(r, key, branch)
    ensures Latest(rows, key, branch).Some? ==>
              var l := Latest(rows, key, branch).value;
              On(l, key, branch) && l in rows && forall r :: r in rows && On(r, key, branch) ==> r.version <= l.version
  {
    if rows != [] {
      LatestFound(rows[..|rows| - 1], key, branch);
      assert rows == rows[..|rows| - 1] + [rows[|rows| - 1]];
    }
  }

  /** `read`: without a version, the latest one. */
  function Read(rows: Table, key: string, branch: string, version: Option<int>): Option<Row> {
    if version.None? then Latest(rows, key, branch) else ReadAt(rows, key, branch, version.value)
  }

  function Count(rows: Table, key: string, branch: string): nat {
    if rows == [] then 0
    else Count(rows[..|rows| - 1], key, branch) + if On(rows[|rows| - 1], key, branch) then 1 else 0
  }

  // ------------------------------------------------------------------ the version log invariant

  /** What a row must be, given the rows inserted before it. */
  ghost predicate RowKept(before: Table, r: Row, hash: HashFunction) {
    && r.version == Count(before, r.key, r.branch) + 1
    && r.parent == (if r.version == 1 then None else Some(r.version - 1))
    && r.hash == hash(r.value)
  }

  ghost predicate WellKept(rows: Table, hash: HashFunction) {
    rows == [] || (WellKept(rows[..|rows| - 1], hash) && RowKept(rows[..|rows| - 1], rows[|rows| - 1], hash))
  }

  lemma WellKeptAppend(rows: Table, r: Row, hash: HashFunction)
    requires WellKept(rows, hash) && RowKept(rows, r, hash)
    ensures WellKept(rows + [r], hash)
  {
    assert (rows + [r])[..|rows|] == rows;
  }

  lemma {:induction false} LatestIsLast(rows: Table, hash: HashFunction, key: string, branch: string)
    requires WellKept(rows, hash)
    ensures var n, l := Count(rows, key, branch), Latest(rows, key, branch);
            if n == 0 then l == None
            else l.Some? && On(l.value, key, branch) && l.value.version == n && l.value in rows
                 && l.value.hash == hash(l.value.value)
  {
    if rows != [] {
      LatestIsLast(rows[..|rows| - 1], hash, key, branch);
    }
  }

  /** Versions 1..n exist, and no others. */
  lemma {:induction false} VersionsHaveNoGaps(rows: Table, hash: HashFunction, key: string, branch: string, version: int)
    requires WellKept(rows, hash)
    ensures ReadAt(rows, key, branch, version).Some? <==> 1 <= version <= Count(rows, key, branch)
    ensures ReadAt(rows, key, branch, version).Some? ==>
              var r := ReadAt(rows, key, branch, version).value;
              && On(r, key, branch) && r.version == version && r in rows && r.hash == hash(r.value)
              && r.parent == (if version == 1 then None else Some(version - 1))
  {
    if rows != [] {
      VersionsHaveNoGaps(rows[..|rows| - 1], hash, key, branch, version);
    }
  }

  /** The primary key is never repeated. */
  lemma {:induction false} VersionsAreUnique(rows: Table, hash: HashFunction, i: nat, j: nat)
    requires WellKept(rows, hash) && i < j < |rows|
    requires rows[i].key == rows[j].key && rows[i].branch == rows[j].branch
    ensures rows[i].version < rows[j].version
  {
    if j < |rows| - 1 {
      VersionsAreUnique(rows[..|rows| - 1], hash, i, j);
    } else {
      VersionsBounded(rows[..j], hash, i);
    }
  }

  lemma {:induction false} VersionsBounded(rows: Table, hash: HashFunction, i: nat)
    requires WellKept(rows, hash) && i < |rows|
    ensures 1 <= rows[i].version <= Count(rows, rows[i].key, rows[i].branch)
  {
    if i < |rows| - 1 {
      VersionsBounded(rows[..|rows| - 1], hash, i);
    }
  }

  // ------------------------------------------------------------------ operations on the table

  datatype Op =
    | Write(key: string, branch: string, value: Doc, agent: string, reason: Reason)
    | Rollback(key: string, branch: string, target: int, agent: string, text: string)
    | Branch(key: string, source: string, version: Option<int>, newBranch: string, agent: string, text: string)

  function WrittenRow(rows: Table, hash: HashFunction, key: string, branch: string, value: Doc,
                      agent: string, reason: Reason, now: Moment): Row
  {
    var latest := Latest(rows, key, branch);
    Row(key, branch, if latest.None? then 1 else latest.value.version + 1, value, agent, reason,
        if latest.None? then None else Some(latest.value.version), hash(value), None, now)
  }

  /** The row an operation appends, or nothing where the source raises KeyError. */
  function NewRow(rows: Table, hash: HashFunction, op: Op, now: Moment): Option<Row> {
    match op
    case Write(key, branch, value, agent, reason) =>
      Some(WrittenRow(rows, hash, key, branch, value, agent, reason, now))
    case Rollback(key, branch, target, agent, text) =>
      var found := ReadAt(rows, key, branch, target);
      if found.None? then None
      else Some(WrittenRow(rows, hash, key, branch, found.value.value, agent, RollbackTo(target, text), now))
    case Branch(key, source, version, newBranch, agent, text) =>
      var found := Read(rows, key, source, version);
      if found.None? || ReadAt(rows, key, newBranch, 1).Some? then None
      else
        Some(Row(key, newBranch, 1, found.value.value, agent, Text(text), None, found.value.hash,
                 Some(Origin(source, found.value.version)), now))
  }

  function Apply(rows: Table, hash: HashFunction, op: Op, now: Moment): Table {
    var r := NewRow(rows, hash, op, now);
    if r.None? then rows else rows + [r.value]
  }

  datatype Stamped = Stamped(op: Op, now: Moment)

  function Run(rows: Table, hash: HashFunction, ops: seq<Stamped>): Table {
    if ops == [] then rows
    else
      var before := Run(rows, hash, ops[..|ops| - 1]);
      Apply(before, hash, ops[|ops| - 1].op, ops[|ops| - 1].now)
  }

  lemma {:induction false} NewRowKept(rows: Table, hash: HashFunction, op: Op, now: Moment)
    requires WellKept(rows, hash)
    ensures NewRow(rows, hash, op, now).Some? ==> RowKept(rows, NewRow(rows, hash, op, now).value, hash)
  {
    match op
    case Write(key, branch, _, _, _) => LatestIsLast(rows, hash, key, branch);
    case Rollback(key, branch, _, _, _) => LatestIsLast(rows, hash, key, branch);
    case Branch(key, source, version, newBranch, _, _) =>
      LatestIsLast(rows, hash, key, source);
      VersionsHaveNoGaps(rows, hash, key, newBranch, 1);
      if version.Some? { VersionsHaveNoGaps(rows, hash, key, source, version.value); }
  }

  /** Every run keeps the version log, and only ever adds rows at the end. */
  lemma {:induction false} RunKeepsVersionLog(rows: Table, hash: HashFunction, ops: seq<Stamped>)
    requires WellKept(rows, hash)
    ensures WellKept(Run(rows, hash, ops), hash)
    ensures rows <= Run(rows, hash, ops)
  {
    if ops != [] {
      var before := Run(rows, hash, ops[..|ops| - 1]);
      var last := ops[|ops| - 1];
      RunKeepsVersionLog(rows, hash, ops[..|ops| - 1]);
      NewRowKept(before, hash, last.op, last.now);
      var r := NewRow(before, hash, last.op, last.now);
      if r.Some? { WellKeptAppend(before, r.value, hash); }
    }
  }

  /** A rollback succeeds exactly for versions 1..n, and the new latest version is a copy of its target. */
  lemma {:induction false} RollbackCopiesTarget(rows: Table, hash: HashFunction, op: Op, now: Moment)
    requires WellKept(rows, hash) && op.Rollback?
    ensures var n := Count(rows, op.key, op.branch);
            var rows' := Apply(rows, hash, op, now);
            if 1 <= op.target <= n then
              && Latest(rows', op.key, op.branch).Some?
              && Latest(rows', op.key, op.branch).value.version == n + 1
              && ReadAt(rows, op.key, op.branch, op.target).Some?
              && Latest(rows', op.key, op.branch).value.value == ReadAt(rows, op.key, op.branch, op.target).value.value
              && ReadAt(rows', op.key, op.branch, op.target) == ReadAt(rows, op.key, op.branch, op.target)
              && ReadAt(rows', op.key, op.branch, n + 1) == Latest(rows', op.key, op.branch)
            else rows' == rows
  {
    VersionsHaveNoGaps(rows, hash, op.key, op.branch, op.target);
    LatestIsLast(rows, hash, op.key, op.branch);
    var r := NewRow(rows, hash, op, now);
    if r.Some? { assert (rows + [r.value])[..|rows|] == rows; }
  }

  /** A branch succeeds exactly when its source exists and the new branch holds nothing for the key. */
  lemma {:induction false} BranchStartsFresh(rows: Table, hash: HashFunction, op: Op, now: Moment)
    requires WellKept(rows, hash) && op.Branch?
    ensures var n := Count(rows, op.key, op.source);
            var found := n > 0 && (op.version.None? || 1 <= op.version.value <= n);
            NewRow(rows, hash, op, now).Some? <==> found && Count(rows, op.key, op.newBranch) == 0
    ensures NewRow(rows, hash, op, now).Some? ==>
              var rows' := Apply(rows, hash, op, now);
              var copied := Read(rows, op.key, op.source, op.version).value;
              && Latest(rows', op.key, op.newBranch).value.value == copied.value
              && Latest(rows', op.key, op.newBranch).value.version == 1
              && Latest(rows', op.key, op.source) == Latest(rows, op.key, op.source)
  {
    LatestIsLast(rows, hash, op.key, op.source);
    LatestIsLast(rows, hash, op.key, op.newBranch);
    VersionsHaveNoGaps(rows, hash, op.key, op.newBranch, 1);
    if op.version.Some? { VersionsHaveNoGaps(rows, hash, op.key, op.source, op.version.value); }
    var r := NewRow(rows, hash, op, now);
    if r.Some? { assert (rows + [r.value])[..|rows|] == rows; }
  }

  // ------------------------------------------------------------------ diff between versions

  datatype VersionDiff = VersionDiff(key: string, branch: string, fromVersion: int, toVersion: int, items: seq<Item>)

  /** Python's `v or default`: zero counts as absent. */
  function Or(v: Option<int>, default: int): int {
    if v.None? || v.value == 0 then default else v.value
  }

  /** The two versions `diff` compares: by default the latest one and the one before it. */
  datatype Ends = Ends(since: int, upto: int, a: Row, b: Row)

  function DiffEnds(rows: Table, key: string, branch: string, fromVersion: Option<int>, toVersion: Option<int>): Option<Ends> {
    var latest := Latest(rows, key, branch);
    if latest.None? then None
    else
      var upto := Or(toVersion, latest.value.version);
      var since := Or(fromVersion, if upto - 1 > 1 then upto - 1 else 1);
      var a, b := ReadAt(rows, key, branch, since), ReadAt(rows, key, branch, upto);
      if a.None? || b.None? then None else Some(Ends(since, upto, a.value, b.value))
  }

  ghost function DiffOf(rows: Table, key: string, branch: string, fromVersion: Option<int>, toVersion: Option<int>): Option<VersionDiff> {
    var ends := DiffEnds(rows, key, branch, fromVersion, toVersion);
    if ends.None? then None
    else
      var e := ends.value;
      Some(VersionDiff(key, branch, e.since, e.upto, DiffValues(Some(e.a.value), Some(e.b.value))))
  }

  /** Any two stored versions can be diffed, and the diff turns the one into the other. */
  lemma {:induction false} DiffBetweenVersionsReplays(rows: Table, hash: HashFunction, key: string, branch: string, v: int, w: int)
    requires WellKept(rows, hash)
    requires 1 <= v <= Count(rows, key, branch) && 1 <= w <= Count(rows, key, branch)
    ensures var d := DiffOf(rows, key, branch, Some(v), Some(w));
            && d.Some? && ReadAt(rows, key, branch, v).Some? && ReadAt(rows, key, branch, w).Some?
            && Replay(Obj(ReadAt(rows, key, branch, v).value.value), d.value.items)
               == Some(Obj(ReadAt(rows, key, branch, w).value.value))
  {
    hide WellKept, Replay, Count;
    VersionsHaveNoGaps(rows, hash, key, branch, v);
    VersionsHaveNoGaps(rows, hash, key, branch, w);
    LatestIsLast(rows, hash, key, branch);
    ReplayReachesNew(Obj(ReadAt(rows, key, branch, v).value.value), Obj(ReadAt(rows, key, branch, w).value.value));
  }

  /** After a rollback to v, nothing differs between v and the version the rollback wrote. */
  lemma {:induction false} RollbackDiffIsEmpty(rows: Table, hash: HashFunction, op: Op, now: Moment)
    requires WellKept(rows, hash) && op.Rollback? && 1 <= op.target <= Count(rows, op.key, op.branch)
    ensures var n := Count(rows, op.key, op.branch);
            DiffOf(Apply(rows, hash, op, now), op.key, op.branch, Some(op.target), Some(n + 1))
            == Some(VersionDiff(op.key, op.branch, op.target, n + 1, []))
  {
    var n := Count(rows, op.key, op.branch);
    var rows' := Apply(rows, hash, op, now);
    RollbackCopiesTarget(rows, hash, op, now);
    VersionsHaveNoGaps(rows, hash, op.key, op.branch, op.target);
    var copy := ReadAt(rows, op.key, op.branch, op.target).value.value;
    EmptyIffEqual(Obj(copy), Obj(copy));
  }

  // ------------------------------------------------------------------ what is written, and what is compared

  /** The next version of a key and branch, and its parent. */
  predicate Continues(rows: Table, r: Row) {
    var n := Count(rows, r.key, r.branch);
    r.version == n + 1 && r.parent == if n == 0 then None else Some(n)
  }

  predicate HoldsValueOf(rows: Table, r: Row, branch: string, version: int) {
    var found := ReadAt(rows, r.key, branch, version); found.Some? && r.value == found.value.value
  }

  /** The row an operation appends, in full. */
  predicate IsRowOf(rows: Table, op: Op, now: Moment, r: Row) {
    && r.key == op.key && r.agent == op.agent && r.createdAt == now && Continues(rows, r)
    && (op.Write? ==> r.branch == op.branch && r.value == op.value && r.reason == op.reason && r.provenance == None)
    && (op.Rollback? ==>
          r.branch == op.branch && HoldsValueOf(rows, r, op.branch, op.target)
          && r.reason == RollbackTo(op.target, op.text) && r.provenance == None)
    && (op.Branch? ==>
          var v := if op.version.None? then Count(rows, op.key, op.source) else op.version.value;
          r.branch == op.newBranch && r.version == 1 && HoldsValueOf(rows, r, op.source, v)
          && r.reason == Text(op.text) && r.provenance == Some(Origin(op.source, v)))
  }

  /** Every operation appends the next version of its key and branch, with the value written, copied
      back or copied over, its hash, its author and its reason. */
  lemma RowIs(rows: Table, hash: HashFunction, op: Op, now: Moment)
    requires WellKept(rows, hash) && NewRow(rows, hash, op, now).Some?
    ensures var r := NewRow(rows, hash, op, now).value; IsRowOf(rows, op, now, r) && r.hash == hash(r.value)
  {
    hide WellKept;
    match op
    case Write(key, branch, _, _, _) => LatestIsLast(rows, hash, key, branch);
    case Rollback(key, branch, target, _, _) =>
      LatestIsLast(rows, hash, key, branch);
      VersionsHaveNoGaps(rows, hash, key, branch, target);
    case Branch(key, source, version, newBranch, _, _) =>
      LatestIsLast(rows, hash, key, source);
      LatestReads(rows, hash, key, source);
      LatestIsLast(rows, hash, key, newBranch);
      VersionsHaveNoGaps(rows, hash, key, newBranch, 1);
      if version.Some? { VersionsHaveNoGaps(rows, hash, key, source, version.value); }
  }

  /** Reading version n is reading the latest row. */
  lemma LatestReads(rows: Table, hash: HashFunction, key: string, branch: string)
    requires WellKept(rows, hash)
    ensures Count(rows, key, branch) > 0 ==> ReadAt(rows, key, branch, Count(rows, key, branch)) == Latest(rows, key, branch)
  {
    var n := Count(rows, key, branch);
    if n > 0 {
      LatestIsLast(rows, hash, key, branch);
      VersionsHaveNoGaps(rows, hash, key, branch, n);
      var a, b := ReadAt(rows, key, branch, n).value, Latest(rows, key, branch).value;
      var i, j :| 0 <= i < |rows| && 0 <= j < |rows| && rows[i] == a && rows[j] == b;
      if i < j { VersionsAreUnique(rows, hash, i, j); } else if j < i { VersionsAreUnique(rows, hash, j, i); }
    }
  }

  /** A version that is absent, or zero. */
  predicate Unnamed(v: Option<int>) { v == None || v == Some(0) }

  ghost predicate IsDiffOf(rows: Table, key: string, branch: string, since: int, upto: int, d: VersionDiff) {
    var a, b := ReadAt(rows, key, branch, since), ReadAt(rows, key, branch, upto);
    && a.Some? && b.Some? && d.key == key && d.branch == branch && d.fromVersion == since && d.toVersion == upto
    && d.items == DiffValues(Some(a.value.value), Some(b.value.value))
  }

  /** What `diff` compares: by default the latest version with the one before it, or with itself if it
      is the first; a missing older end is the version before the newer one. It answers exactly if both
      versions exist, and the items are those of the two values. */
  lemma DiffCompares(
      rows: Table, hash: HashFunction, key: string, branch: string, fromVersion: Option<int>, toVersion: Option<int>)
    requires WellKept(rows, hash)
    ensures var n := Count(rows, key, branch);
            var upto := if Unnamed(toVersion) then n else toVersion.value;
            var since := if !Unnamed(fromVersion) then fromVersion.value else if upto <= 2 then 1 else upto - 1;
            var d := DiffOf(rows, key, branch, fromVersion, toVersion);
            && (d.Some? <==> 1 <= since <= n && 1 <= upto <= n)
            && (d.Some? ==> IsDiffOf(rows, key, branch, since, upto, d.value))
  {
    hide WellKept, DiffValues, Count, Latest, ReadAt;
    var n := Count(rows, key, branch);
    var upto := if Unnamed(toVersion) then n else toVersion.value;
    var since := if !Unnamed(fromVersion) then fromVersion.value else if upto <= 2 then 1 else upto - 1;
    LatestIsLast(rows, hash, key, branch);
    VersionsHaveNoGaps(rows, hash, key, branch, since);
    VersionsHaveNoGaps(rows, hash, key, branch, upto);
  }
}
