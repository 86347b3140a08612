/** omni/memory/fusion.py: consolidating source branches into a target branch. */
module Fusion {
  import opened Ordering
  import opened Json
  import opened Moments
  import opened Store
  import opened DeepMerge
  import opened MergeFolds

  datatype Strategy = Newest | Merging

  /** Reading `clock(n)` when the row with index n is inserted. */
  type Clock = nat -> Moment

  // ------------------------------------------------------------------ what is fused

  function AllKeys(rows: Table, branch: string): set<string> {
    set r | r in rows && r.branch == branch :: r.key
  }

  /** The latest row of each source branch for one key, in the order the branches are named;
      a branch named twice counts once. */
  function Entries(rows: Table, sources: seq<string>, key: string): seq<Row> {
    if sources == [] then []
    else
      var n := |sources| - 1;
      Entries(rows, sources[..n], key) + if sources[n] in sources[..n] then [] else Found(rows, key, sources[n])
  }

  function Found(rows: Table, key: string, branch: string): seq<Row> {
    var latest := Latest(rows, key, branch);
    if latest.None? then [] else [latest.value]
  }

  function SourceKeys(rows: Table, sources: seq<string>): set<string> {
    set r | r in rows && r.branch in sources :: r.key
  }

  predicate Later(a: Row, b: Row) {
    var s, t := Instant(a.createdAt), Instant(b.createdAt);
    s > t || (s == t && a.version > b.version)
  }

  /** `max(entries, key=(created_at, version))`: the first of the greatest. */
  function Winner(entries: seq<Row>): (w: Row)
    requires entries != []
    ensures w in entries && forall e :: e in entries ==> !Later(e, w)
  {
    if |entries| == 1 then entries[0]
    else
      var n := |entries| - 1;
      var w := Winner(entries[..n]);
      assert entries == entries[..n] + [entries[n]];
      if Later(entries[n], w) then entries[n] else w
  }

  lemma WinnerNext(s: seq<Row>, e: Row)
    ensures Winner(s + [e]) == if s != [] && !Later(e, Winner(s)) then Winner(s) else e
  {
    hide Later;
    assert s != [] ==> (s + [e])[..|s|] == s;
  }

  /** The winner stands in front of every other entry of its time and version. */
  lemma {:induction false} WinnerIsFirst(entries: seq<Row>) returns (i: nat)
    requires entries != []
    ensures i < |entries| && Winner(entries) == entries[i]
    ensures forall j :: 0 <= j < i ==> Later(entries[i], entries[j])
    ensures forall j :: 0 <= j < |entries| ==> !Later(entries[j], entries[i])
  {
    hide Winner, Instant;
    var n := |entries| - 1;
    WinnerNext(entries[..n], entries[n]);
    assert entries == entries[..n] + [entries[n]];
    if n == 0 {
      i := 0;
    } else {
      i := WinnerIsFirst(entries[..n]);
      assert forall j :: 0 <= j < n ==> entries[..n][j] == entries[j];
      if Later(entries[n], entries[i]) { i := n; }
    }
  }

  /** The left fold of the merge over the entries, starting from the empty document. */
  function MergedValue(entries: seq<Row>): Doc {
    if entries == [] then map[]
    else Merge(MergedValue(entries[..|entries| - 1]), entries[|entries| - 1].value)
  }

  function FusedValue(strategy: Strategy, entries: seq<Row>): Doc
    requires entries != []
  {
    if strategy.Newest? then Winner(entries).value else MergedValue(entries)
  }

  // ------------------------------------------------------------------ the table after a fusion

  datatype Job = Job(sources: seq<string>, target: string, text: string, strategy: Strategy, agent: string)

  function Note(job: Job): Reason {
    FusionOf(job.sources, job.target, job.text)
  }

  predicate HasEntries(rows: Table, job: Job, keys: seq<string>) {
    forall k | k in keys :: Entries(rows, job.sources, k) != []
  }

  /** `rows` is the table when the sources were read, `cur` the table when this key is written. */
  function FuseKey(rows: Table, cur: Table, hash: HashFunction, job: Job, key: string, clock: Clock): Table
    requires Entries(rows, job.sources, key) != []
  {
    var value := FusedValue(job.strategy, Entries(rows, job.sources, key));
    var existing := Latest(cur, key, job.target);
    if existing.Some? && PyEqualDocs(existing.value.value, value) then cur
    else Apply(cur, hash, Write(key, job.target, value, job.agent, Note(job)), clock(|cur|))
  }

  function FuseKeys(rows: Table, hash: HashFunction, job: Job, keys: seq<string>, clock: Clock): Table
    requires HasEntries(rows, job, keys)
  {
    if keys == [] then rows
    else
      var n := |keys| - 1;
      FuseKey(rows, FuseKeys(rows, hash, job, keys[..n], clock), hash, job, keys[n], clock)
  }

  lemma {:induction false} EntriesFound(rows: Table, sources: seq<string>, key: string)
    ensures Entries(rows, sources, key) != [] <==> key in SourceKeys(rows, sources)
  {
    if sources != [] {
      var n := |sources| - 1;
      EntriesFound(rows, sources[..n], key);
      LatestFound(rows, key, sources[n]);
      assert sources == sources[..n] + [sources[n]];
      if key in SourceKeys(rows, sources) && key !in SourceKeys(rows, sources[..n]) {
        var r :| r in rows && r.branch in sources && r.key == key;
        assert r.branch == sources[n];
      }
      if Latest(rows, key, sources[n]).Some? {
        var l := Latest(rows, key, sources[n]).value;
        assert l in rows && l.branch in sources;
      }
    }
  }

  ghost function KeysToFuse(rows: Table, job: Job): (keys: seq<string>)
    ensures HasEntries(rows, job, keys)
    ensures Sorted(keys) && Distinct(keys) && forall k :: k in keys <==> k in SourceKeys(rows, job.sources)
  {
    var keys := SortedKeys(SourceKeys(rows, job.sources));
    AllHaveEntries(rows, job, keys);
    keys
  }

  lemma AllHaveEntries(rows: Table, job: Job, keys: seq<string>)
    requires forall k :: k in keys ==> k in SourceKeys(rows, job.sources)
    ensures HasEntries(rows, job, keys)
  {
    forall k | k in keys ensures Entries(rows, job.sources, k) != [] { EntriesFound(rows, job.sources, k); }
  }

  ghost function Fused(rows: Table, hash: HashFunction, job: Job, clock: Clock): Table {
    FuseKeys(rows, hash, job, KeysToFuse(rows, job), clock)
  }

  // ------------------------------------------------------------------ frame

  /** What a reader of one (key, branch) can see is the same in both tables. */
  ghost predicate SameHistory(rows: Table, rows': Table, key: string, branch: string) {
    && Latest(rows', key, branch) == Latest(rows, key, branch)
    && Count(rows', key, branch) == Count(rows, key, branch)
    && forall v :: ReadAt(rows', key, branch, v) == ReadAt(rows, key, branch, v)
  }

  /** Nothing changes outside the target branch, nor for a key that is not fused. */
  lemma {:induction false} FuseFrame(rows: Table, hash: HashFunction, job: Job, keys: seq<string>, clock: Clock, key: string, branch: string)
    requires HasEntries(rows, job, keys)
    requires key !in keys || branch != job.target
    ensures SameHistory(rows, FuseKeys(rows, hash, job, keys, clock), key, branch)
  {
    if keys != [] {
      var n := |keys| - 1;
      FuseFrame(rows, hash, job, keys[..n], clock, key, branch);
    }
  }

  // ------------------------------------------------------------------ result

  /** The target holds the fused value, up to Python equality where it already did, and exactly otherwise. */
  ghost predicate Holds(rows: Table, rows': Table, job: Job, key: string)
    requires Entries(rows, job.sources, key) != []
  {
    var value := FusedValue(job.strategy, Entries(rows, job.sources, key));
    var was, now := Latest(rows, key, job.target), Latest(rows', key, job.target);
    now.Some? &&
    if was.Some? && PyEqualDocs(was.value.value, value) then now == was
    else
      now.value.value == value && now.value.version == (if was.None? then 1 else was.value.version + 1)
      && now.value.agent == job.agent && now.value.reason == FusionOf(job.sources, job.target, job.text)
  }

  lemma FuseKeyHolds(rows: Table, cur: Table, hash: HashFunction, job: Job, key: string, clock: Clock)
    requires Entries(rows, job.sources, key) != []
    requires Latest(cur, key, job.target) == Latest(rows, key, job.target)
    ensures Holds(rows, FuseKey(rows, cur, hash, job, key, clock), job, key)
  {
    var value := FusedValue(job.strategy, Entries(rows, job.sources, key));
  }

  lemma {:induction false} FuseKeysHold(rows: Table, hash: HashFunction, job: Job, keys: seq<string>, clock: Clock, i: nat)
    requires HasEntries(rows, job, keys) && Distinct(keys) && i < |keys|
    ensures Holds(rows, FuseKeys(rows, hash, job, keys, clock), job, keys[i])
  {
    hide FuseKey, Entries, Latest, FusedValue, PyEqual;
    var n := |keys| - 1;
    var cur := FuseKeys(rows, hash, job, keys[..n], clock);
    if i == n {
      FuseFrame(rows, hash, job, keys[..n], clock, keys[n], job.target);
      FuseKeyHolds(rows, cur, hash, job, keys[n], clock);
    } else {
      FuseKeysHold(rows, hash, job, keys[..n], clock, i);
      OtherKeyStays(rows, cur, hash, job, keys[n], clock, keys[i]);
    }
  }

  lemma OtherKeyStays(rows: Table, cur: Table, hash: HashFunction, job: Job, key: string, clock: Clock, other: string)
    requires Entries(rows, job.sources, key) != [] && other != key
    ensures Latest(FuseKey(rows, cur, hash, job, key, clock), other, job.target) == Latest(cur, other, job.target)
  {
    hide Entries, FusedValue, PyEqual;
  }

  /** Every key of a source branch gets its fused value on the target. */
  lemma {:induction false} FusionSetsTargets(rows: Table, hash: HashFunction, job: Job, clock: Clock, key: string)
    requires key in SourceKeys(rows, job.sources)
    ensures Entries(rows, job.sources, key) != []
    ensures Holds(rows, Fused(rows, hash, job, clock), job, key)
  {
    EntriesFound(rows, job.sources, key);
    var keys := KeysToFuse(rows, job);
    var i :| 0 <= i < |keys| && keys[i] == key;
    FuseKeysHold(rows, hash, job, keys, clock, i);
  }

  /** Source branches, other branches and other keys are untouched. */
  lemma {:induction false} FusionTouchesNothingElse(rows: Table, hash: HashFunction, job: Job, clock: Clock, key: string, branch: string)
    requires branch != job.target || key !in SourceKeys(rows, job.sources)
    ensures SameHistory(rows, Fused(rows, hash, job, clock), key, branch)
  {
    FuseFrame(rows, hash, job, KeysToFuse(rows, job), clock, key, branch);
  }

  lemma {:induction false} KeysStamped(rows: Table, hash: HashFunction, job: Job, keys: seq<string>, clock: Clock)
    requires HasEntries(rows, job, keys)
    ensures var rows' := FuseKeys(rows, hash, job, keys, clock);
            rows <= rows' && |rows'| <= |rows| + |keys|
            && forall i :: |rows| <= i < |rows'| ==> rows'[i].branch == job.target && rows'[i].createdAt == clock(i)
  {
    hide FuseKey, Entries;
    if keys != [] {
      var n := |keys| - 1;
      KeysStamped(rows, hash, job, keys[..n], clock);
      KeyStamped(rows, FuseKeys(rows, hash, job, keys[..n], clock), hash, job, keys[n], clock);
    }
  }

  lemma KeyStamped(rows: Table, cur: Table, hash: HashFunction, job: Job, key: string, clock: Clock)
    requires Entries(rows, job.sources, key) != []
    ensures var next := FuseKey(rows, cur, hash, job, key, clock);
            cur <= next && |next| <= |cur| + 1
            && forall i :: |cur| <= i < |next| ==> next[i].branch == job.target && next[i].createdAt == clock(i)
  {
    hide Entries, FusedValue, PyEqual, Latest;
  }

  /** A fusion only adds rows, at most one a key, all on the target and stamped when they are added. */
  lemma FusionOnlyAdds(rows: Table, hash: HashFunction, job: Job, clock: Clock)
    ensures var rows' := Fused(rows, hash, job, clock);
            rows <= rows' && |rows'| <= |rows| + |KeysToFuse(rows, job)|
            && forall i :: |rows| <= i < |rows'| ==> rows'[i].branch == job.target && rows'[i].createdAt == clock(i)
  {
    KeysStamped(rows, hash, job, KeysToFuse(rows, job), clock);
  }

  // ------------------------------------------------------------------ fusing twice

  lemma {:induction false} EntriesSame(rows: Table, rows': Table, sources: seq<string>, key: string)
    requires forall b :: b in sources ==> SameHistory(rows, rows', key, b)
    ensures Entries(rows', sources, key) == Entries(rows, sources, key)
  {
    if sources != [] {
      var n := |sources| - 1;
      EntriesSame(rows, rows', sources[..n], key);
      assert SameHistory(rows, rows', key, sources[n]);
    }
  }

  lemma {:induction false} NothingToFuse(rows: Table, hash: HashFunction, job: Job, keys: seq<string>, clock: Clock)
    requires HasEntries(rows, job, keys)
    requires forall k :: k in keys ==>
               Latest(rows, k, job.target).Some? &&
               PyEqualDocs(Latest(rows, k, job.target).value.value, FusedValue(job.strategy, Entries(rows, job.sources, k)))
    ensures FuseKeys(rows, hash, job, keys, clock) == rows
  {
    if keys != [] {
      NothingToFuse(rows, hash, job, keys[..|keys| - 1], clock);
    }
  }

  lemma FoundSame(rows: Table, rows': Table, key: string, branch: string)
    requires SameHistory(rows, rows', key, branch)
    ensures Found(rows', key, branch) == Found(rows, key, branch)
  {
  }

  /** The entries of the branches named before the target. */
  function Before(rows: Table, sources: seq<string>, key: string, target: string): seq<Row>
    requires target in sources
  {
    var n := |sources| - 1;
    if target in sources[..n] then Before(rows, sources[..n], key, target) else Entries(rows, sources[..n], key)
  }

  /** The entries of the branches named after the target, and not before it. */
  function After(rows: Table, sources: seq<string>, key: string, target: string): seq<Row>
    requires target in sources
  {
    var n := |sources| - 1;
    if target !in sources[..n] then []
    else
      After(rows, sources[..n], key, target) + if sources[n] in sources[..n] then [] else Found(rows, key, sources[n])
  }

  /** Where the target is a source, its entry sits between those two, and they do not change with it. */
  lemma {:induction false} EntriesSplit(rows: Table, rows': Table, sources: seq<string>, key: string, target: string)
    requires target in sources
    requires forall b :: b in sources && b != target ==> SameHistory(rows, rows', key, b)
    ensures Entries(rows, sources, key) ==
            Before(rows, sources, key, target) + Found(rows, key, target) + After(rows, sources, key, target)
    ensures Before(rows', sources, key, target) == Before(rows, sources, key, target)
    ensures After(rows', sources, key, target) == After(rows, sources, key, target)
  {
    hide SameHistory, Found;
    var n := |sources| - 1;
    assert sources == sources[..n] + [sources[n]];
    if target in sources[..n] {
      EntriesSplit(rows, rows', sources[..n], key, target);
      if sources[n] != target { FoundSame(rows, rows', key, sources[n]); }
    } else {
      EntriesSame(rows, rows', sources[..n], key);
    }
  }

  lemma LaterThanBoth(z: Row, t: Row, u: Row)
    requires Later(z, t) && !Later(u, t)
    ensures Later(z, u)
  {
  }

  /** Putting one more entry anywhere leaves the newest as it was, or makes the new one the newest. */
  lemma {:induction false} WinnerOfMore(x: seq<Row>, t: Row, y: seq<Row>)
    ensures Winner(x + [t] + y) == t || (x + y != [] && Winner(x + [t] + y) == Winner(x + y))
    decreases |y|
  {
    hide Later;
    if y == [] {
      assert x + [t] + y == x + [t] && x + y == x;
      WinnerNext(x, t);
    } else {
      var front, z := y[..|y| - 1], y[|y| - 1];
      assert x + [t] + y == (x + [t] + front) + [z] && x + y == (x + front) + [z];
      WinnerOfMore(x, t, front);
      WinnerNext(x + [t] + front, z);
      WinnerNext(x + front, z);
      if x + front != [] && Later(z, t) {
        var u := Winner(x + front);
        assert u in x + [t] + front;
        if Winner(x + [t] + front) == t { LaterThanBoth(z, t, u); }
      }
    }
  }

  function Values(entries: seq<Row>): seq<Doc> {
    if entries == [] then [] else Values(entries[..|entries| - 1]) + [entries[|entries| - 1].value]
  }

  lemma {:induction false} MergedInOrder(x: seq<Row>, y: seq<Row>)
    ensures MergedValue(x + y) == Fold(MergedValue(x), Values(y))
  {
    hide Merge;
    if y == [] {
      assert x + y == x;
    } else {
      var front, last := y[..|y| - 1], y[|y| - 1];
      MergedInOrder(x, front);
      assert (x + y)[..|x + y| - 1] == x + front && (x + y)[|x + y| - 1] == last;
      FoldSnoc(MergedValue(x), Values(front), last.value);
    }
  }

  lemma FoldSnoc(b: Doc, ys: seq<Doc>, y: Doc)
    ensures Fold(b, ys + [y]) == Merge(Fold(b, ys), y)
  {
    FoldNext(b, ys, y, "");
  }

  lemma MergedAround(x: seq<Row>, n: Row, y: seq<Row>)
    ensures MergedValue(x + [n] + y) == Fold(Merge(MergedValue(x), n.value), Values(y))
  {
    MergedInOrder(x + [n], y);
    assert (x + [n])[..|x|] == x;
  }

  /** What merging computes once its result is among the entries. */
  lemma MergedAgain(x: seq<Row>, t: seq<Row>, y: seq<Row>, n: Row)
    requires |t| <= 1 && n.value == MergedValue(x + t + y)
    ensures PyEqualDocs(n.value, MergedValue(x + [n] + y)) <==>
            t == [] || Settled(MergedValue(x), t[0].value, Values(y))
  {
    hide MergedValue, Merge, Values, Fold, Settled, PyEqual;
    var a, before := MergedValue(x), if t == [] then map[] else t[0].value;
    MergedAround(x, n, y);
    if t == [] {
      assert x + t + y == x + y;
      MergedInOrder(x, y);
      MergeEmptyOverride(a);
      NothingSettled(a, Values(y));
    } else {
      assert t == [t[0]];
      MergedAround(x, t[0], y);
    }
    SettledExactly(a, before, Values(y));
    PyEqualReflexive(Obj(n.value));
  }

  lemma NothingSettled(a: Doc, ys: seq<Doc>)
    ensures Settled(a, map[], ys)
  {
  }

  lemma NewestAgain(x: seq<Row>, t: seq<Row>, y: seq<Row>, n: Row)
    requires |t| <= 1 && x + t + y != [] && n.value == Winner(x + t + y).value
    requires t != [] ==> t[0].value != n.value
    ensures Winner(x + [n] + y).value == n.value
  {
    hide Winner, Later;
    WinnerOfMore(x, n, y);
    if t == [] {
      assert x + t + y == x + y;
    } else {
      assert t == [t[0]];
      WinnerOfMore(x, t[0], y);
    }
  }

  /** A second fusion leaves this key alone: the first one found the target holding the value, or no
      leaf of what the target held separates the branches named before it from those named after it. */
  ghost predicate KeySettled(rows: Table, job: Job, k: string) {
    job.target !in job.sources || job.strategy.Newest? ||
    (var was := Latest(rows, k, job.target);
     was.None? || PyEqualDocs(was.value.value, MergedValue(Entries(rows, job.sources, k)))
     || Settled(MergedValue(Before(rows, job.sources, k, job.target)), was.value.value,
                Values(After(rows, job.sources, k, job.target))))
  }

  ghost predicate Repeatable(rows: Table, job: Job) {
    forall k :: k in SourceKeys(rows, job.sources) ==> KeySettled(rows, job, k)
  }

  /** What the second fusion computes for a key that the first one wrote to a target among its sources. */
  lemma WrittenAgain(rows: Table, rows': Table, job: Job, k: string)
    requires job.target in job.sources && Entries(rows, job.sources, k) != []
    requires forall b :: b in job.sources && b != job.target ==> SameHistory(rows, rows', k, b)
    requires var was, now := Latest(rows, k, job.target), Latest(rows', k, job.target);
             var value := FusedValue(job.strategy, Entries(rows, job.sources, k));
             now.Some? && now.value.value == value && (was.Some? ==> !PyEqualDocs(was.value.value, value))
    ensures Entries(rows', job.sources, k) != []
    ensures PyEqualDocs(Latest(rows', k, job.target).value.value, FusedValue(job.strategy, Entries(rows', job.sources, k)))
            <==> KeySettled(rows, job, k)
  {
    hide Winner, MergedValue, PyEqual, Entries, SameHistory, Latest, Before, After, Settled, Values;
    EntriesSplit(rows, rows', job.sources, k, job.target);
    EntriesAround(rows', job.sources, k, job.target);
    var x, t, y := Before(rows, job.sources, k, job.target), Found(rows, k, job.target), After(rows, job.sources, k, job.target);
    var n := Latest(rows', k, job.target).value;
    assert Found(rows', k, job.target) == [n];
    PyEqualReflexive(Obj(n.value));
    if job.strategy.Newest? {
      NewestAgain(x, t, y, n);
    } else {
      MergedAgain(x, t, y, n);
    }
  }

  lemma {:induction false} EntriesAround(rows: Table, sources: seq<string>, key: string, target: string)
    requires target in sources
    ensures Entries(rows, sources, key) ==
            Before(rows, sources, key, target) + Found(rows, key, target) + After(rows, sources, key, target)
  {
    EntriesSplit(rows, rows, sources, key, target);
  }

  lemma {:induction false} KeyIsSettled(rows: Table, hash: HashFunction, job: Job, clock: Clock, k: string)
    requires k in SourceKeys(rows, job.sources)
    ensures var rows' := Fused(rows, hash, job, clock);
            Entries(rows', job.sources, k) != [] && Latest(rows', k, job.target).Some?
            && (PyEqualDocs(Latest(rows', k, job.target).value.value, FusedValue(job.strategy, Entries(rows', job.sources, k)))
                <==> KeySettled(rows, job, k))
  {
    hide Fused, Winner, MergedValue, PyEqual, Entries, SameHistory, FusedValue, Latest, Settled, Before, After;
    var rows' := Fused(rows, hash, job, clock);
    forall b | b in job.sources && b != job.target ensures SameHistory(rows, rows', k, b) {
      FusionTouchesNothingElse(rows, hash, job, clock, k, b);
    }
    FusionSetsTargets(rows, hash, job, clock, k);
    var was, now := Latest(rows, k, job.target), Latest(rows', k, job.target);
    var value := FusedValue(job.strategy, Entries(rows, job.sources, k));
    PyEqualReflexive(Obj(value));
    if job.target !in job.sources {
      EntriesSame(rows, rows', job.sources, k);
    } else if was.Some? && PyEqualDocs(was.value.value, value) {
      UnwrittenSame(rows, rows', job, k);
    } else {
      WrittenAgain(rows, rows', job, k);
    }
  }

  lemma UnwrittenSame(rows: Table, rows': Table, job: Job, k: string)
    requires job.target in job.sources && Latest(rows', k, job.target) == Latest(rows, k, job.target)
    requires forall b :: b in job.sources && b != job.target ==> SameHistory(rows, rows', k, b)
    ensures Entries(rows', job.sources, k) == Entries(rows, job.sources, k)
    ensures Entries(rows, job.sources, k) != [] && job.strategy.Merging? ==>
              FusedValue(job.strategy, Entries(rows, job.sources, k)) == MergedValue(Entries(rows, job.sources, k))
  {
    hide SameHistory, Entries, Before, After, MergedValue, Latest;
    EntriesSplit(rows, rows', job.sources, k, job.target);
    EntriesAround(rows', job.sources, k, job.target);
  }

  lemma {:induction false} SourceKeysStay(rows: Table, hash: HashFunction, job: Job, clock: Clock, k: string)
    requires k in SourceKeys(Fused(rows, hash, job, clock), job.sources)
    ensures k in SourceKeys(rows, job.sources)
  {
    hide Fused, Latest, SameHistory;
    var rows' := Fused(rows, hash, job, clock);
    if k !in SourceKeys(rows, job.sources) {
      forall b | b in job.sources ensures SameHistory(rows, rows', k, b) {
        FusionTouchesNothingElse(rows, hash, job, clock, k, b);
      }
      EntriesSame(rows, rows', job.sources, k);
      EntriesFound(rows, job.sources, k);
      EntriesFound(rows', job.sources, k);
    }
  }

  /** A second fusion appends nothing if and only if every key is settled. */
  lemma {:induction false} FusionIsIdempotent(rows: Table, hash: HashFunction, job: Job, clock: Clock, clock': Clock)
    ensures Fused(Fused(rows, hash, job, clock), hash, job, clock') == Fused(rows, hash, job, clock) <==> Repeatable(rows, job)
  {
    hide KeySettled, FusedValue, PyEqual, Entries, Latest, FuseKeys, SourceKeys;
    var rows' := Fused(rows, hash, job, clock);
    if Repeatable(rows, job) {
      var keys := KeysToFuse(rows', job);
      forall k | k in keys
        ensures Latest(rows', k, job.target).Some?
        ensures PyEqualDocs(Latest(rows', k, job.target).value.value, FusedValue(job.strategy, Entries(rows', job.sources, k)))
      {
        SourceKeysStay(rows, hash, job, clock, k);
        KeyIsSettled(rows, hash, job, clock, k);
      }
      NothingToFuse(rows', hash, job, keys, clock');
    } else {
      var k :| k in SourceKeys(rows, job.sources) && !KeySettled(rows, job, k);
      KeyIsSettled(rows, hash, job, clock, k);
      EntriesFound(rows', job.sources, k);
      FusionSetsTargets(rows', hash, job, clock', k);
    }
  }

  /** Nothing is in the way where the strategy is the newest, or the target is no source or is the
      last one named. */
  lemma {:induction false} RepeatsUnlessAmid(rows: Table, job: Job)
    requires job.target !in job.sources || job.strategy.Newest? || job.target !in job.sources[..|job.sources| - 1]
    ensures Repeatable(rows, job)
  {
    hide Settled;
    forall k | k in SourceKeys(rows, job.sources) ensures KeySettled(rows, job, k) {
      if job.target in job.sources && Latest(rows, k, job.target).Some? {
        SettledAlone(MergedValue(Before(rows, job.sources, k, job.target)), Latest(rows, k, job.target).value.value);
      }
    }
  }

  const AMID := ["a", "t", "c"]

  lemma EntriesAmid(rows: Table, key: string)
    ensures Entries(rows, AMID, key) == Found(rows, key, "a") + Found(rows, key, "t") + Found(rows, key, "c")
    ensures Before(rows, AMID, key, "t") == Found(rows, key, "a") && After(rows, AMID, key, "t") == Found(rows, key, "c")
  {
    assert AMID[..2] == ["a", "t"] && AMID[..2][..1] == ["a"] && AMID[..2][..1][..0] == [];
    assert Entries(rows, AMID[..2][..1], key) == [] + Found(rows, key, "a");
    assert Entries(rows, AMID[..2], key) == Entries(rows, AMID[..2][..1], key) + Found(rows, key, "t");
    assert After(rows, AMID[..2], key, "t") == [];
  }

  /** Such a table: the target holds a number, the branches around it objects with different keys. */
  lemma NumberIsFusedTwice(rows: Table, hash: HashFunction, job: Job, clock: Clock, clock': Clock, key: string)
    requires job.sources == AMID && job.target == "t" && job.strategy.Merging?
    requires Latest(rows, key, "a").Some? && Latest(rows, key, "a").value.value == OBJECT_X
    requires Latest(rows, key, "t").Some? && Latest(rows, key, "t").value.value == NUMBER
    requires Latest(rows, key, "c").Some? && Latest(rows, key, "c").value.value == OBJECT_Y
    ensures Fused(Fused(rows, hash, job, clock), hash, job, clock') != Fused(rows, hash, job, clock)
  {
    hide Latest, Entries, Before, After, Settled, Merge, Fused, SourceKeys;
    EntriesAmid(rows, key);
    EntriesFound(rows, AMID, key);
    ThreeMerged(Latest(rows, key, "a").value, Latest(rows, key, "t").value, Latest(rows, key, "c").value);
    NumberSeparates();
    FusionIsIdempotent(rows, hash, job, clock, clock');
    assert !KeySettled(rows, job, key);
  }

  lemma ThreeMerged(a: Row, t: Row, c: Row)
    requires a.value == OBJECT_X && t.value == NUMBER && c.value == OBJECT_Y
    ensures MergedValue([a]) == OBJECT_X && Values([c]) == [OBJECT_Y]
    ensures !PyEqualDocs(NUMBER, MergedValue([a] + [t] + [c]))
  {
    hide Merge;
    assert [a][..0] == [] && [c][..0] == [];
    assert Values([c]) == Values([]) + [c.value];
    MergeEmptyBase(OBJECT_X);
    MergedAround([a], t, [c]);
    FoldSnoc(Merge(OBJECT_X, NUMBER), [], OBJECT_Y);
    assert [] + [OBJECT_Y] == [OBJECT_Y];
    MergeAt(OBJECT_X, NUMBER, "k");
    MergeAt(Merge(OBJECT_X, NUMBER), OBJECT_Y, "k");
  }

  /** Python's equality does not tell True from 1, so a fusion may keep what the diff would change. */
  lemma TrueIsOne()
    ensures var a, b := map["k" := Bool(true)], map["k" := Int(1)]; PyEqualDocs(a, b) && a != b
  {
    var a: Doc, b: Doc := map["k" := Bool(true)], map["k" := Int(1)];
    assert a["k"] != b["k"];
  }
}
