/** omni/memory/store.py: the store as an object whose methods append to its table. */
module MemoryStores {
  import opened Json
  import opened Diff
  import opened Moments
  import opened Store
  import opened TimeTravel

  class MemoryStore {
    var rows: Table
    const hash: HashFunction

    ghost predicate Valid()
      reads this
    {
      WellKept(rows, hash)
    }

    constructor (hash: HashFunction)
      ensures Valid() && rows == [] && this.hash == hash
    {
      rows := [];
      this.hash := hash;
    }

    /** `_insert`. The primary key must be free, or SQLite refuses the row. */
    method Insert(entry: Row)
      requires Valid() && RowKept(rows, entry, hash)
      requires forall r :: r in rows ==> !(On(r, entry.key, entry.branch) && r.version == entry.version)
      modifies this
      ensures Valid() && rows == old(rows) + [entry]
    {
      WellKeptAppend(rows, entry, hash);
      rows := rows + [entry];
    }

    /** A row that continues the log never collides with a stored one. */
    lemma KeyIsFree(entry: Row)
      requires Valid() && RowKept(rows, entry, hash)
      ensures forall r :: r in rows ==> !(On(r, entry.key, entry.branch) && r.version == entry.version)
    {
      forall r | r in rows && On(r, entry.key, entry.branch) ensures r.version != entry.version {
        var i :| 0 <= i < |rows| && rows[i] == r;
        VersionsBounded(rows, hash, i);
      }
    }

    method WriteEntry(key: string, branch: string, value: Doc, agent: string, reason: Reason, now: Moment)
      returns (entry: Row)
      requires Valid()
      modifies this
      ensures Valid()
      ensures NewRow(old(rows), hash, Write(key, branch, value, agent, reason), now) == Some(entry)
      ensures rows == Apply(old(rows), hash, Write(key, branch, value, agent, reason), now)
    {
      var latest := Latest(rows, key, branch);
      var version := if latest.None? then 1 else latest.value.version + 1;
      entry := Row(key, branch, version, value, agent, reason,
                   if latest.None? then None else Some(latest.value.version), hash(value), None, now);
      NewRowKept(rows, hash, Write(key, branch, value, agent, reason), now);
      KeyIsFree(entry);
      Insert(entry);
    }

    method RollbackTo(key: string, branch: string, target: int, agent: string, text: string, now: Moment)
      returns (entry: Option<Row>)
      requires Valid()
      modifies this
      ensures Valid()
      ensures entry == NewRow(old(rows), hash, Rollback(key, branch, target, agent, text), now)
      ensures rows == Apply(old(rows), hash, Rollback(key, branch, target, agent, text), now)
    {
      var found := ReadAt(rows, key, branch, target);
      if found.None? {
        return None;
      }
      var e := WriteEntry(key, branch, found.value.value, agent, Reason.RollbackTo(target, text), now);
      entry := Some(e);
    }

    method BranchFrom(key: string, source: string, version: Option<int>, newBranch: string, agent: string,
                      text: string, now: Moment)
      returns (entry: Option<Row>)
      requires Valid()
      modifies this
      ensures Valid()
      ensures entry == NewRow(old(rows), hash, Branch(key, source, version, newBranch, agent, text), now)
      ensures rows == Apply(old(rows), hash, Branch(key, source, version, newBranch, agent, text), now)
    {
      var found := Read(rows, key, source, version);
      if found.None? {
        return None;
      }
      var existing := ReadAt(rows, key, newBranch, 1);
      if existing.Some? {
        return None;
      }
      var e := Row(key, newBranch, 1, found.value.value, agent, Text(text), None, found.value.hash,
                   Some(Origin(source, found.value.version)), now);
      NewRowKept(rows, hash, Branch(key, source, version, newBranch, agent, text), now);
      KeyIsFree(e);
      Insert(e);
      entry := Some(e);
    }

    /** `diff`; the answer is None where a version is missing. */
    method DiffVersions(key: string, branch: string, fromVersion: Option<int>, toVersion: Option<int>)
      returns (d: Option<VersionDiff>)
      ensures d == DiffOf(rows, key, branch, fromVersion, toVersion)
    {
      var ends := DiffEnds(rows, key, branch, fromVersion, toVersion);
      if ends.None? {
        return None;
      }
      var items := ComputeDiff(Some(ends.value.a.value), Some(ends.value.b.value));
      d := Some(VersionDiff(key, branch, ends.value.since, ends.value.upto, items));
    }

    method TakeSnapshot() returns (s: Snapshot)
      requires Valid()
      ensures s == Current(rows)
    {
      s := Collect(rows, hash, None);
    }

    method SnapshotAsOf(t: string) returns (s: Snapshot)
      requires Valid()
      ensures s == AsOf(rows, t)
    {
      s := Collect(rows, hash, Some(t));
    }
  }
}
