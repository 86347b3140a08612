/** omni/memory/fusion.py: `MemoryFuser.fuse` over a live store. */
module Fuser {
  import opened Ordering
  import opened Json
  import opened Store
  import opened MemoryStores
  import opened DeepMerge
  import opened Fusion
  import opened FusionResults

  datatype Decision = WonBy(key: string, branch: string, version: int) | MergedFrom(key: string, entries: seq<Row>)

  datatype FuseReport = FuseReport(fused: nat, kept: nat, decisions: seq<Decision>)

  /** The entries of one key in the `latest` dictionary, whose values are listed in insertion order. */
  function ForKey(latest: seq<Row>, key: string): seq<Row> {
    if latest == [] then []
    else ForKey(latest[..|latest| - 1], key) + if latest[|latest| - 1].key == key then [latest[|latest| - 1]] else []
  }

  predicate Has(latest: seq<Row>, key: string, branch: string) {
    exists i | 0 <= i < |latest| :: On(latest[i], key, branch)
  }

  /** The dictionary's values after the keys `names` of one branch. */
  function CollectedNames(rows: Table, latest: seq<Row>, branch: string, names: seq<string>): seq<Row> {
    if names == [] then latest
    else
      var n := |names| - 1;
      Put(CollectedNames(rows, latest, branch, names[..n]), Latest(rows, names[n], branch))
  }

  /** `latest[(branch, key)] = entry` for a pair whose stored entry, if any, is this one. */
  function Put(latest: seq<Row>, entry: Option<Row>): seq<Row> {
    if entry.None? || Has(latest, entry.value.key, entry.value.branch) then latest else latest + [entry.value]
  }

  ghost function Collected(rows: Table, sources: seq<string>): seq<Row> {
    if sources == [] then []
    else
      var n := |sources| - 1;
      CollectedNames(rows, Collected(rows, sources[..n]), sources[n], SortedKeys(AllKeys(rows, sources[n])))
  }

  lemma {:induction false} InForKey(latest: seq<Row>, key: string)
    ensures forall e :: e in ForKey(latest, key) <==> e in latest && e.key == key
  {
    if latest != [] {
      InForKey(latest[..|latest| - 1], key);
      assert latest == latest[..|latest| - 1] + [latest[|latest| - 1]];
    }
  }

  /** Whether a pair was read before shows in its key's entries. */
  lemma HasInForKey(x: seq<Row>, y: seq<Row>, key: string, branch: string)
    requires ForKey(x, key) == ForKey(y, key)
    ensures Has(x, key, branch) ==> Has(y, key, branch)
  {
    InForKey(x, key);
    InForKey(y, key);
    if Has(x, key, branch) {
      var i :| 0 <= i < |x| && On(x[i], key, branch);
      assert x[i] in ForKey(x, key);
      assert x[i] in y;
    }
  }

  lemma {:induction false} NamesForKey(rows: Table, latest: seq<Row>, branch: string, names: seq<string>, key: string)
    requires Distinct(names)
    ensures ForKey(CollectedNames(rows, latest, branch, names), key) ==
            ForKey(latest, key) + if key in names && !Has(latest, key, branch) then Found(rows, key, branch) else []
  {
    if names != [] {
      var n := |names| - 1;
      var before := CollectedNames(rows, latest, branch, names[..n]);
      NamesForKey(rows, latest, branch, names[..n], key);
      LatestFound(rows, names[n], branch);
      LastName(names, key);
      if names[n] == key {
        HasInForKey(before, latest, key, branch);
        HasInForKey(latest, before, key, branch);
      }
    }
  }

  lemma LastName(names: seq<string>, key: string)
    requires Distinct(names) && names != []
    ensures var n := |names| - 1;
            (key in names <==> key in names[..n] || key == names[n]) && names[n] !in names[..n]
  {
    var n := |names| - 1;
    assert names == names[..n] + [names[n]];
  }

  lemma {:induction false} EntriesBranches(rows: Table, sources: seq<string>, key: string, branch: string)
    ensures (exists e :: e in Entries(rows, sources, key) && On(e, key, branch)) <==>
            branch in sources && Latest(rows, key, branch).Some?
  {
    if sources != [] {
      var n := |sources| - 1;
      EntriesBranches(rows, sources[..n], key, branch);
      LatestFound(rows, key, sources[n]);
      assert sources == sources[..n] + [sources[n]];
      assert forall e :: e in Entries(rows, sources[..n], key) ==> e in Entries(rows, sources, key);
      if branch == sources[n] && branch !in sources[..n] && Latest(rows, key, branch).Some? {
        assert Latest(rows, key, branch).value in Entries(rows, sources, key);
      }
    }
  }

  /** What the dictionary holds for one key is that key's entries, in branch order. */
  lemma {:induction false} CollectedForKey(rows: Table, sources: seq<string>, key: string)
    ensures ForKey(Collected(rows, sources), key) == Entries(rows, sources, key)
  {
    if sources != [] {
      var n := |sources| - 1;
      var branch := sources[n];
      var before := Collected(rows, sources[..n]);
      var names := SortedKeys(AllKeys(rows, branch));
      CollectedForKey(rows, sources[..n], key);
      NamesForKey(rows, before, branch, names, key);
      InForKey(before, key);
      EntriesBranches(rows, sources[..n], key, branch);
      LatestFound(rows, key, branch);
    }
  }

  function DecisionFor(strategy: Strategy, key: string, entries: seq<Row>): Decision
    requires entries != []
  {
    if strategy.Newest? then WonBy(key, Winner(entries).branch, Winner(entries).version)
    else MergedFrom(key, entries)
  }

  function DecisionsFor(rows: Table, job: Job, names: seq<string>): (r: seq<Decision>)
    requires HasEntries(rows, job, names)
  {
    if names == [] then []
    else
      var n := |names| - 1;
      DecisionsFor(rows, job, names[..n]) + [DecisionFor(job.strategy, names[n], Entries(rows, job.sources, names[n]))]
  }

  lemma {:induction false} DecisionCount(rows: Table, job: Job, names: seq<string>)
    requires HasEntries(rows, job, names)
    ensures |DecisionsFor(rows, job, names)| == |names|
  {
    hide Entries, DecisionFor;
    if names != [] { DecisionCount(rows, job, names[..|names| - 1]); }
  }

  /** The report has one decision for each key, in the order of the keys. */
  lemma {:induction false} DecisionsAre(rows: Table, job: Job, names: seq<string>, i: nat)
    requires HasEntries(rows, job, names) && i < |names|
    ensures |DecisionsFor(rows, job, names)| == |names|
    ensures DecisionsFor(rows, job, names)[i] == DecisionFor(job.strategy, names[i], Entries(rows, job.sources, names[i]))
  {
    hide Entries, DecisionFor;
    DecisionCount(rows, job, names);
    var n := |names| - 1;
    DecisionCount(rows, job, names[..n]);
    if i < n { DecisionsAre(rows, job, names[..n], i); }
  }

  /** A decision names the newest entry, whose value is the one that is written, or all of them. */
  lemma DecisionNames(strategy: Strategy, key: string, entries: seq<Row>) returns (w: Row)
    requires entries != []
    ensures strategy.Newest? ==>
              IsNewest(w, entries) && FusedValue(strategy, entries) == w.value
              && DecisionFor(strategy, key, entries) == WonBy(key, w.branch, w.version)
    ensures strategy.Merging? ==> DecisionFor(strategy, key, entries) == MergedFrom(key, entries)
  {
    w := Winner(entries);
    WinnerIsNewest(entries);
  }

  class MemoryFuser {
    const store: MemoryStore
    const agent: string
    const strategy: Strategy

    constructor (store: MemoryStore, agent: string, strategy: Strategy)
      ensures this.store == store && this.agent == agent && this.strategy == strategy
    {
      this.store, this.agent, this.strategy := store, agent, strategy;
    }

    /** The first half of `fuse`: every key of every source branch, and the latest entries. */
    method Gather(rows: Table, sources: seq<string>) returns (keys: set<string>, latest: seq<Row>)
      ensures keys == SourceKeys(rows, sources)
      ensures latest == Collected(rows, sources)
    {
      keys, latest := {}, [];
      for i := 0 to |sources|
        invariant keys == SourceKeys(rows, sources[..i])
        invariant latest == Collected(rows, sources[..i])
      {
        var branch := sources[i];
        assert sources[..i + 1] == sources[..i] + [branch] && sources[..i + 1][..i] == sources[..i];
        var names := SortKeys(AllKeys(rows, branch));
        keys := keys + Elems(names);
        latest := GatherNames(rows, latest, branch, names);
      }
      assert sources[..|sources|] == sources;
    }

    /** The loop over `all_keys(branch)`. */
    method GatherNames(rows: Table, latest0: seq<Row>, branch: string, names: seq<string>) returns (latest: seq<Row>)
      ensures latest == CollectedNames(rows, latest0, branch, names)
    {
      latest := latest0;
      for j := 0 to |names|
        invariant latest == CollectedNames(rows, latest0, branch, names[..j])
      {
        assert names[..j + 1][..j] == names[..j];
        var entry := Latest(rows, names[j], branch);
        latest := Put(latest, entry);
      }
      assert names[..|names|] == names;
    }

    /** The value a key is fused to, and the decision that is reported. */
    method Decide(key: string, entries: seq<Row>) returns (value: Doc, decision: Decision)
      requires entries != []
      ensures value == FusedValue(strategy, entries)
      ensures decision == DecisionFor(strategy, key, entries)
    {
      if strategy.Newest? {
        var winner := Winner(entries);
        return winner.value, WonBy(key, winner.branch, winner.version);
      }
      var merged: Doc := map[];
      for i := 0 to |entries|
        invariant merged == MergedValue(entries[..i])
      {
        assert entries[..i + 1][..i] == entries[..i];
        merged := MergeDocs(merged, entries[i].value);
      }
      assert entries[..|entries|] == entries;
      return merged, MergedFrom(key, entries);
    }

    /** One round of the loop over keys. */
    method FuseOne(ghost rows: Table, job: Job, key: string, entries: seq<Row>, clock: Clock)
      returns (wrote: bool, decision: Decision)
      requires store.Valid()
      requires entries == Entries(rows, job.sources, key) && entries != []
      requires job.strategy == strategy && job.agent == agent
      modifies store
      ensures store.Valid()
      ensures store.rows == FuseKey(rows, old(store.rows), store.hash, job, key, clock)
      ensures |store.rows| == |old(store.rows)| + if wrote then 1 else 0
      ensures decision == DecisionFor(strategy, key, entries)
    {
      var value;
      value, decision := Decide(key, entries);
      var existing := Latest(store.rows, key, job.target);
      if existing.Some? && PyEqualDocs(existing.value.value, value) {
        wrote := false;
      } else {
        var _ := store.WriteEntry(key, job.target, value, agent, Note(job), clock(|store.rows|));
        wrote := true;
      }
    }

    /** The loop over the sorted keys. */
    method FuseAll(ghost rows: Table, job: Job, names: seq<string>, latest: seq<Row>, clock: Clock)
      returns (report: FuseReport)
      requires store.Valid() && store.rows == rows
      requires HasEntries(rows, job, names)
      requires latest == Collected(rows, job.sources)
      requires job.strategy == strategy && job.agent == agent
      modifies store
      ensures store.Valid()
      ensures store.rows == FuseKeys(rows, store.hash, job, names, clock)
      ensures report.fused == |store.rows| - |rows| && report.fused + report.kept == |names|
      ensures report.decisions == DecisionsFor(rows, job, names)
    {
      hide Collected, ForKey, FuseKey, Entries, DecisionFor;
      var fused, kept, decisions := 0, 0, [];
      for i := 0 to |names|
        invariant store.Valid()
        invariant store.rows == FuseKeys(rows, store.hash, job, names[..i], clock)
        invariant fused == |store.rows| - |rows| && fused + kept == i
        invariant decisions == DecisionsFor(rows, job, names[..i])
      {
        assert names[..i + 1][..i] == names[..i];
        CollectedForKey(rows, job.sources, names[i]);
        var wrote, decision := FuseOne(rows, job, names[i], ForKey(latest, names[i]), clock);
        if wrote { fused := fused + 1; } else { kept := kept + 1; }
        decisions := decisions + [decision];
      }
      assert names[..|names|] == names;
      report := FuseReport(fused, kept, decisions);
    }

    /** `fuse`; None where the source raises ValueError. */
    method Fuse(sources: seq<string>, target: string, text: string, clock: Clock) returns (report: Option<FuseReport>)
      requires store.Valid()
      modifies store
      ensures store.Valid()
      ensures sources == [] <==> report == None
      ensures sources == [] ==> store.rows == old(store.rows)
      ensures sources != [] ==>
                var job := Job(sources, target, text, strategy, agent);
                && store.rows == Fused(old(store.rows), store.hash, job, clock)
                && report.value.fused == |store.rows| - |old(store.rows)|
                && report.value.fused + report.value.kept == |KeysToFuse(old(store.rows), job)|
                && report.value.decisions == DecisionsFor(old(store.rows), job, KeysToFuse(old(store.rows), job))
    {
      if sources == [] {
        return None;
      }
      var job := Job(sources, target, text, strategy, agent);
      var keys, latest := Gather(store.rows, sources);
      var names := SortKeys(keys);
      assert names == KeysToFuse(store.rows, job);
      var r := FuseAll(store.rows, job, names, latest, clock);
      report := Some(r);
    }
  }
}
