/** What a fusion leaves on the target, in terms of the rows the sources held. */
module FusionResults {
  import opened Json
  import opened Moments
  import opened Store
  import opened DeepMerge
  import opened Fusion

  // ------------------------------------------------------------------ the entries

  /** Where a branch is first named, or the number of branches. */
  function FirstNamed(sources: seq<string>, branch: string): (i: nat)
    ensures i <= |sources| && (i < |sources| ==> sources[i] == branch)
    ensures forall j :: 0 <= j < i ==> sources[j] != branch
  {
    if sources == [] then 0
    else if sources[0] == branch then 0
    else 1 + FirstNamed(sources[1..], branch)
  }

  lemma FirstNamedIs(sources: seq<string>, branch: string, i: nat)
    requires i <= |sources| && (i < |sources| ==> sources[i] == branch)
    requires forall j :: 0 <= j < i ==> sources[j] != branch
    ensures FirstNamed(sources, branch) == i
  {
  }

  lemma FirstNamedNext(front: seq<string>, last: string, branch: string)
    ensures FirstNamed(front + [last], branch) ==
            if branch in front then FirstNamed(front, branch)
            else if branch == last then |front| else |front| + 1
  {
    FirstNamedIs(front + [last], branch,
                 if branch in front then FirstNamed(front, branch) else if branch == last then |front| else |front| + 1);
  }

  /** The latest rows of the sources for a key, one a branch, in the order the branches are first named. */
  ghost predicate AreLatestOf(entries: seq<Row>, rows: Table, sources: seq<string>, key: string) {
    && (forall e :: e in entries <==> e.branch in sources && Latest(rows, key, e.branch) == Some(e))
    && (forall i, j :: 0 <= i < j < |entries| ==>
          FirstNamed(sources, entries[i].branch) < FirstNamed(sources, entries[j].branch))
  }

  lemma FoundIs(rows: Table, key: string, branch: string, e: Row)
    ensures e in Found(rows, key, branch) <==> e.branch == branch && Latest(rows, key, branch) == Some(e)
  {
    LatestFound(rows, key, branch);
  }

  lemma {:induction false} EntriesAreLatest(rows: Table, sources: seq<string>, key: string)
    ensures AreLatestOf(Entries(rows, sources, key), rows, sources, key)
  {
    if sources != [] {
      var front, last := sources[..|sources| - 1], sources[|sources| - 1];
      assert sources == front + [last];
      EntriesAreLatest(rows, front, key);
      forall e ensures e in Entries(rows, sources, key) <==> e.branch in sources && Latest(rows, key, e.branch) == Some(e) {
        FoundIs(rows, key, last, e);
      }
      LaterBranchesFollow(rows, front, last, key);
    }
  }

  lemma LaterBranchesFollow(rows: Table, front: seq<string>, last: string, key: string)
    requires AreLatestOf(Entries(rows, front, key), rows, front, key)
    ensures var es := Entries(rows, front + [last], key);
            forall i, j :: 0 <= i < j < |es| ==>
              FirstNamed(front + [last], es[i].branch) < FirstNamed(front + [last], es[j].branch)
  {
    hide FirstNamed, Latest;
    var sources := front + [last];
    assert sources[..|front|] == front;
    var before, es := Entries(rows, front, key), Entries(rows, sources, key);
    forall i, j | 0 <= i < j < |es| ensures FirstNamed(sources, es[i].branch) < FirstNamed(sources, es[j].branch) {
      FirstNamedNext(front, last, es[i].branch);
      FirstNamedNext(front, last, es[j].branch);
      assert es[i] == before[i] && before[i] in before;
      if j < |before| {
        assert es[j] == before[j] && before[j] in before;
      } else {
        FoundIs(rows, key, last, es[j]);
        assert es[j] in Found(rows, key, last);
      }
    }
  }

  // ------------------------------------------------------------------ the newest

  /** Stamped no earlier than any other, and of no lower version where stamped at the same moment. */
  ghost predicate IsNewest(w: Row, entries: seq<Row>) {
    && w in entries
    && forall e :: e in entries ==>
         Instant(e.createdAt) < Instant(w.createdAt)
         || (Instant(e.createdAt) == Instant(w.createdAt) && e.version <= w.version)
  }

  lemma WinnerIsNewest(entries: seq<Row>)
    requires entries != []
    ensures IsNewest(Winner(entries), entries)
  {
    hide Instant, Winner;
  }

  // ------------------------------------------------------------------ the merge of them all

  /** The last entry that speaks at a path decides its leaf. */
  ghost predicate DecidedByLast(value: Doc, entries: seq<Row>, path: seq<string>)
    requires path != []
  {
    (exists i :: 0 <= i < |entries| && LastSpeaks(entries, i, path) && LeafAt(value, path) == LeafAt(entries[i].value, path))
    || ((forall i :: 0 <= i < |entries| ==> !Speaks(entries[i].value, path)) && LeafAt(value, path).None?)
  }

  ghost predicate LastSpeaks(entries: seq<Row>, i: nat, path: seq<string>)
    requires path != [] && i < |entries|
  {
    Speaks(entries[i].value, path) && forall j :: i < j < |entries| ==> !Speaks(entries[j].value, path)
  }

  lemma {:induction false} LastEntryDecides(entries: seq<Row>, path: seq<string>)
    requires path != []
    ensures DecidedByLast(MergedValue(entries), entries, path)
  {
    hide LeafAt, Speaks;
    if entries == [] {
      EmptySaysNothing(path);
    } else {
      var n := |entries| - 1;
      var front := entries[..n];
      LastEntryDecides(front, path);
      MergeLeaves(MergedValue(front), entries[n].value, path);
      if Speaks(entries[n].value, path) {
        assert LastSpeaks(entries, n, path);
      } else {
        StillDecides(MergedValue(front), MergedValue(entries), front, entries[n], path);
        assert entries == front + [entries[n]];
      }
    }
  }

  /** An entry that does not speak leaves the decision as it was. */
  lemma StillDecides(before: Doc, after: Doc, front: seq<Row>, e: Row, path: seq<string>)
    requires path != [] && !Speaks(e.value, path) && DecidedByLast(before, front, path)
    requires LeafAt(after, path) == LeafAt(before, path)
    ensures DecidedByLast(after, front + [e], path)
  {
    hide LeafAt, Speaks;
    var entries := front + [e];
    assert forall j :: 0 <= j < |front| ==> entries[j] == front[j];
    if i :| 0 <= i < |front| && LastSpeaks(front, i, path) && LeafAt(before, path) == LeafAt(front[i].value, path) {
      assert LastSpeaks(entries, i, path);
    }
  }

  lemma EmptySaysNothing(path: seq<string>)
    requires path != []
    ensures LeafAt(map[], path).None?
  {
  }

  // ------------------------------------------------------------------ the target after a fusion

  /** What the fusion gives a key: the newest entry's value, or the merge of all. */
  ghost predicate IsResult(value: Doc, strategy: Strategy, entries: seq<Row>) {
    match strategy
    case Newest => exists w :: IsNewest(w, entries) && value == w.value
    case Merging => forall path :: path != [] ==> DecidedByLast(value, entries, path)
  }

  lemma FusedValueIsResult(strategy: Strategy, entries: seq<Row>)
    requires entries != []
    ensures IsResult(FusedValue(strategy, entries), strategy, entries)
  {
    hide Winner, MergedValue, DecidedByLast, IsNewest;
    WinnerIsNewest(entries);
    forall path | path != [] ensures DecidedByLast(MergedValue(entries), entries, path) { LastEntryDecides(entries, path); }
  }

  /** After a fusion the target holds, for every key some source branch has, the result of the latest
      rows of the sources: as a new version under the fuser's name and reason, unless it held an
      equal value before, which then stays. */
  lemma FusionLeavesResults(rows: Table, hash: HashFunction, job: Job, clock: Clock, key: string)
    returns (entries: seq<Row>, value: Doc)
    requires exists r :: r in rows && r.key == key && r.branch in job.sources
    ensures AreLatestOf(entries, rows, job.sources, key) && entries != [] && IsResult(value, job.strategy, entries)
    ensures var was, now := Latest(rows, key, job.target), Latest(Fused(rows, hash, job, clock), key, job.target);
            now.Some?
            && if was.Some? && PyEqualDocs(was.value.value, value) then now == was
               else now.value.value == value && now.value.version == (if was.None? then 1 else was.value.version + 1)
                    && now.value.agent == job.agent && now.value.reason == FusionOf(job.sources, job.target, job.text)
  {
    hide Fused, FusedValue, Latest, PyEqual, IsResult, AreLatestOf, Entries;
    entries := Entries(rows, job.sources, key);
    assert key in SourceKeys(rows, job.sources);
    FusionSetsTargets(rows, hash, job, clock, key);
    value := FusedValue(job.strategy, entries);
    EntriesAreLatest(rows, job.sources, key);
    FusedValueIsResult(job.strategy, entries);
  }
}
