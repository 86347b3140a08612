/** omni/marketplace: the releases of one skill, and what a remote registry adds to them. */
module Releases {
  import opened Json
  import opened Versions

  datatype Release = Release(version: string, interface: Doc)

  /** What a manifest records of its versions. */
  datatype Skill = Skill(releases: seq<Release>, latest: string)

  const NEW_SKILL := Skill([], NO_VERSION)

  /** One entry of a remote manifest's version list; the version may be missing. */
  datatype Meta = Meta(version: Option<string>, interface: Doc)

  // ------------------------------------------------------------------ adding one release

  /** `_add_version` accepts: both versions can be read and the new one is above the latest. */
  predicate Newer(latest: string, version: string, toInt: ToInt) {
    var a, b := Materialize(latest, toInt), Materialize(version, toInt);
    a.Some? && b.Some? && Below(a.value, b.value)
  }

  function Added(s: Skill, r: Release): Skill { Skill(s.releases + [r], r.version) }

  predicate Named(m: Meta) { m.version.Some? && m.version.value != "" }

  function ReleaseOf(m: Meta): Release
    requires Named(m)
  {
    Release(m.version.value, m.interface)
  }

  function Offered(s: Skill, m: Meta, toInt: ToInt): Skill {
    if Named(m) && Newer(s.latest, m.version.value, toInt) then Added(s, ReleaseOf(m)) else s
  }

  function OfferedAll(s: Skill, metas: seq<Meta>, toInt: ToInt): Skill {
    if metas == [] then s else Offered(OfferedAll(s, metas[..|metas| - 1], toInt), metas[|metas| - 1], toInt)
  }

  // ------------------------------------------------------------------ the version order

  function KeyOf(r: Release, toInt: ToInt): Key { SortKey(r.version, toInt) }

  ghost predicate AllRead(releases: seq<Release>, toInt: ToInt) {
    forall i :: 0 <= i < |releases| ==> Materialize(releases[i].version, toInt).Some?
  }

  ghost predicate Ascending(releases: seq<Release>, toInt: ToInt) {
    forall i, j :: 0 <= i < j < |releases| ==> Below(KeyOf(releases[i], toInt), KeyOf(releases[j], toInt))
  }

  /** Versions ascend strictly, all above 0.0.0, and the latest is the last. */
  ghost predicate InOrder(s: Skill, toInt: ToInt) {
    && AllRead(s.releases, toInt) && Ascending(s.releases, toInt)
    && (forall i :: 0 <= i < |s.releases| ==> Below(ZERO, KeyOf(s.releases[i], toInt)))
    && s.latest == (if s.releases == [] then NO_VERSION else s.releases[|s.releases| - 1].version)
    && Materialize(s.latest, toInt).Some?
  }

  lemma NewSkillInOrder(toInt: ToInt)
    requires toInt("0") == Some(0)
    ensures InOrder(NEW_SKILL, toInt)
  {
    NoVersionIsZero(toInt);
  }

  lemma AddedAscends(s: Skill, r: Release, toInt: ToInt, i: nat)
    requires InOrder(s, toInt) && Newer(s.latest, r.version, toInt) && i < |s.releases|
    ensures Below(KeyOf(s.releases[i], toInt), KeyOf(r, toInt))
  {
    AtMostBelow(KeyOf(s.releases[i], toInt), SortKey(s.latest, toInt), KeyOf(r, toInt));
  }

  lemma AddedInOrder(s: Skill, r: Release, toInt: ToInt)
    requires toInt("0") == Some(0) && InOrder(s, toInt) && Newer(s.latest, r.version, toInt)
    ensures InOrder(Added(s, r), toInt)
  {
    hide Below, Materialize;
    NoVersionIsZero(toInt);
    forall i | 0 <= i < |s.releases| ensures Below(KeyOf(s.releases[i], toInt), KeyOf(r, toInt)) {
      AddedAscends(s, r, toInt, i);
    }
    if s.releases != [] { BelowTransitive(ZERO, SortKey(s.latest, toInt), KeyOf(r, toInt)); }
  }

  lemma {:induction false} OfferedInOrder(s: Skill, metas: seq<Meta>, toInt: ToInt)
    requires toInt("0") == Some(0) && InOrder(s, toInt)
    ensures InOrder(OfferedAll(s, metas, toInt), toInt)
  {
    if metas != [] {
      var n := |metas| - 1;
      OfferedInOrder(s, metas[..n], toInt);
      var t, m := OfferedAll(s, metas[..n], toInt), metas[n];
      if Named(m) && Newer(t.latest, m.version.value, toInt) { AddedInOrder(t, ReleaseOf(m), toInt); }
    }
  }

  lemma {:induction false} OfferedExtends(s: Skill, metas: seq<Meta>, toInt: ToInt)
    ensures s.releases <= OfferedAll(s, metas, toInt).releases
  {
    if metas != [] { OfferedExtends(s, metas[..|metas| - 1], toInt); }
  }

  // ------------------------------------------------------------------ sorting a remote manifest

  /** `_version_key(v.get("version", "0.0.0"))` */
  function MetaKey(m: Meta, toInt: ToInt): Key {
    SortKey(if m.version.Some? then m.version.value else NO_VERSION, toInt)
  }

  function Insert(sorted: seq<Meta>, m: Meta, toInt: ToInt): seq<Meta> {
    if sorted == [] || AtMost(MetaKey(sorted[|sorted| - 1], toInt), MetaKey(m, toInt)) then sorted + [m]
    else Insert(sorted[..|sorted| - 1], m, toInt) + [sorted[|sorted| - 1]]
  }

  /** `sorted(versions, key=...)`, which keeps entries of one key in their order. */
  function SortMetas(metas: seq<Meta>, toInt: ToInt): seq<Meta> {
    if metas == [] then [] else Insert(SortMetas(metas[..|metas| - 1], toInt), metas[|metas| - 1], toInt)
  }

  ghost predicate Sorted(metas: seq<Meta>, toInt: ToInt) {
    forall i, j :: 0 <= i < j < |metas| ==> AtMost(MetaKey(metas[i], toInt), MetaKey(metas[j], toInt))
  }

  ghost predicate AllAtMost(metas: seq<Meta>, key: Key, toInt: ToInt) {
    forall i :: 0 <= i < |metas| ==> AtMost(MetaKey(metas[i], toInt), key)
  }

  lemma {:induction false} InsertAtMost(sorted: seq<Meta>, m: Meta, key: Key, toInt: ToInt)
    requires AllAtMost(sorted, key, toInt) && AtMost(MetaKey(m, toInt), key)
    ensures AllAtMost(Insert(sorted, m, toInt), key, toInt)
  {
    if sorted != [] { InsertAtMost(sorted[..|sorted| - 1], m, key, toInt); }
  }

  lemma GreatestIsLast(sorted: seq<Meta>, key: Key, toInt: ToInt)
    requires Sorted(sorted, toInt) && sorted != [] && AtMost(MetaKey(sorted[|sorted| - 1], toInt), key)
    ensures AllAtMost(sorted, key, toInt)
  {
    forall i | 0 <= i < |sorted| - 1 ensures AtMost(MetaKey(sorted[i], toInt), key) {
      AtMostTransitive(MetaKey(sorted[i], toInt), MetaKey(sorted[|sorted| - 1], toInt), key);
    }
  }

  lemma {:induction false} InsertSorts(sorted: seq<Meta>, m: Meta, toInt: ToInt)
    requires Sorted(sorted, toInt)
    ensures Sorted(Insert(sorted, m, toInt), toInt)
  {
    hide MetaKey, Below;
    if sorted == [] {
    } else if AtMost(MetaKey(sorted[|sorted| - 1], toInt), MetaKey(m, toInt)) {
      GreatestIsLast(sorted, MetaKey(m, toInt), toInt);
    } else {
      var front, last := sorted[..|sorted| - 1], sorted[|sorted| - 1];
      BelowTotal(MetaKey(last, toInt), MetaKey(m, toInt));
      InsertSorts(front, m, toInt);
      InsertAtMost(front, m, MetaKey(last, toInt), toInt);
    }
  }

  lemma {:induction false} SortSorts(metas: seq<Meta>, toInt: ToInt)
    ensures Sorted(SortMetas(metas, toInt), toInt)
  {
    if metas != [] {
      SortSorts(metas[..|metas| - 1], toInt);
      InsertSorts(SortMetas(metas[..|metas| - 1], toInt), metas[|metas| - 1], toInt);
    }
  }

  /** An entry whose version is missing or empty is passed over. */
  predicate HasVersion(m: Meta) { m.version.Some? && m.version.value != "" }

  predicate HasKey(m: Meta, key: Key, toInt: ToInt) {
    HasVersion(m) && Materialize(m.version.value, toInt) == Some(key)
  }

  /** The first entry of the manifest whose version reads as `key`. */
  function FirstOf(metas: seq<Meta>, key: Key, toInt: ToInt): Option<Meta> {
    if metas == [] then None
    else
      var first := FirstOf(metas[..|metas| - 1], key, toInt);
      if first.Some? then first
      else if HasKey(metas[|metas| - 1], key, toInt) then Some(metas[|metas| - 1])
      else None
  }

  lemma FirstOfNext(metas: seq<Meta>, m: Meta, key: Key, toInt: ToInt)
    ensures FirstOf(metas + [m], key, toInt)
            == if FirstOf(metas, key, toInt).Some? then FirstOf(metas, key, toInt)
               else if HasKey(m, key, toInt) then Some(m)
               else None
  {
    assert (metas + [m])[..|metas|] == metas;
  }

  lemma {:induction false} InsertKeepsFirst(sorted: seq<Meta>, m: Meta, key: Key, toInt: ToInt)
    ensures FirstOf(Insert(sorted, m, toInt), key, toInt) == FirstOf(sorted + [m], key, toInt)
  {
    FirstOfNext(sorted, m, key, toInt);
    if sorted != [] && !AtMost(MetaKey(sorted[|sorted| - 1], toInt), MetaKey(m, toInt)) {
      var n := |sorted| - 1;
      InsertKeepsFirst(sorted[..n], m, key, toInt);
      FirstOfNext(sorted[..n], m, key, toInt);
      FirstOfNext(Insert(sorted[..n], m, toInt), sorted[n], key, toInt);
    }
  }

  lemma {:induction false} SortKeepsFirst(metas: seq<Meta>, key: Key, toInt: ToInt)
    ensures FirstOf(SortMetas(metas, toInt), key, toInt) == FirstOf(metas, key, toInt)
  {
    if metas != [] {
      var n := |metas| - 1;
      SortKeepsFirst(metas[..n], key, toInt);
      InsertKeepsFirst(SortMetas(metas[..n], toInt), metas[n], key, toInt);
      FirstOfNext(SortMetas(metas[..n], toInt), metas[n], key, toInt);
    }
  }

  // ------------------------------------------------------------------ what is taken

  ghost predicate Readable(m: Meta, toInt: ToInt) { HasVersion(m) && Materialize(m.version.value, toInt).Some? }

  ghost predicate Reached(metas: seq<Meta>, end: Key, toInt: ToInt) {
    forall i :: 0 <= i < |metas| && Readable(metas[i], toInt) ==> AtMost(MetaKey(metas[i], toInt), end)
  }

  /** How far the latest version gets when entries are offered in ascending order. */
  ghost predicate Progress(s: Skill, t: Skill, metas: seq<Meta>, toInt: ToInt) {
    var start, end := SortKey(s.latest, toInt), SortKey(t.latest, toInt);
    && Reached(metas, end, toInt) && AtMost(start, end)
    && (end == start || (metas != [] && AtMost(end, MetaKey(metas[|metas| - 1], toInt))))
  }

  lemma ReachedFurther(metas: seq<Meta>, m: Meta, was: Key, end: Key, toInt: ToInt)
    requires Reached(metas, was, toInt) && AtMost(was, end)
    requires Readable(m, toInt) ==> AtMost(MetaKey(m, toInt), end)
    ensures Reached(metas + [m], end, toInt)
  {
    forall i | 0 <= i < |metas| && Readable(metas[i], toInt) ensures AtMost(MetaKey(metas[i], toInt), end) {
      AtMostTransitive(MetaKey(metas[i], toInt), was, end);
    }
  }

  lemma {:induction false} ProgressNext(s: Skill, t: Skill, metas: seq<Meta>, m: Meta, toInt: ToInt)
    requires Progress(s, t, metas, toInt) && Materialize(t.latest, toInt).Some?
    requires metas == [] || AtMost(MetaKey(metas[|metas| - 1], toInt), MetaKey(m, toInt))
    ensures Progress(s, Offered(t, m, toInt), metas + [m], toInt)
  {
    var start, was, end := SortKey(s.latest, toInt), SortKey(t.latest, toInt), SortKey(Offered(t, m, toInt).latest, toInt);
    NotBelow(was, MetaKey(m, toInt));
    AtMostTransitive(start, was, end);
    ReachedFurther(metas, m, was, end, toInt);
    if was != start { AtMostTransitive(was, MetaKey(metas[|metas| - 1], toInt), MetaKey(m, toInt)); }
  }

  lemma {:induction false} OfferedProgress(s: Skill, metas: seq<Meta>, toInt: ToInt)
    requires toInt("0") == Some(0) && InOrder(s, toInt) && Sorted(metas, toInt)
    ensures Progress(s, OfferedAll(s, metas, toInt), metas, toInt)
  {
    if metas != [] {
      var front, m := metas[..|metas| - 1], metas[|metas| - 1];
      OfferedProgress(s, front, toInt);
      OfferedInOrder(s, front, toInt);
      assert metas == front + [m];
      ProgressNext(s, OfferedAll(s, front, toInt), front, m, toInt);
    }
  }

  ghost predicate TookAt(s: Skill, t: Skill, i: nat, key: Key, toInt: ToInt) {
    |s.releases| <= i < |t.releases| && KeyOf(t.releases[i], toInt) == key
  }

  ghost predicate Took(s: Skill, t: Skill, key: Key, toInt: ToInt) {
    exists i: nat :: TookAt(s, t, i, key, toInt)
  }

  /** The new release for `key`, if there is one, is the first entry with that key. */
  ghost predicate TookFirst(s: Skill, t: Skill, metas: seq<Meta>, key: Key, toInt: ToInt) {
    forall i: nat :: TookAt(s, t, i, key, toInt) ==>
      var first := FirstOf(metas, key, toInt);
      first.Some? && HasVersion(first.value)
      && t.releases[i] == Release(first.value.version.value, first.value.interface)
  }

  lemma {:induction false} FirstIsOffered(metas: seq<Meta>, key: Key, toInt: ToInt)
    requires FirstOf(metas, key, toInt).Some?
    ensures exists i :: 0 <= i < |metas| && metas[i] == FirstOf(metas, key, toInt).value && HasKey(metas[i], key, toInt)
  {
    var n := |metas| - 1;
    if FirstOf(metas[..n], key, toInt).Some? {
      FirstIsOffered(metas[..n], key, toInt);
      var i :| 0 <= i < n && metas[..n][i] == FirstOf(metas, key, toInt).value && HasKey(metas[..n][i], key, toInt);
      assert metas[i] == metas[..n][i];
    } else {
      assert metas[n] == FirstOf(metas, key, toInt).value;
    }
  }

  /** A version above the latest has not been offered before. */
  lemma NewerIsFirst(s: Skill, t: Skill, metas: seq<Meta>, key: Key, toInt: ToInt)
    requires Progress(s, t, metas, toInt) && Below(SortKey(t.latest, toInt), key)
    ensures FirstOf(metas, key, toInt) == None
  {
    NotBelow(SortKey(t.latest, toInt), key);
    if FirstOf(metas, key, toInt).Some? {
      FirstIsOffered(metas, key, toInt);
      var i :| 0 <= i < |metas| && metas[i] == FirstOf(metas, key, toInt).value && HasKey(metas[i], key, toInt);
      assert Readable(metas[i], toInt);
    }
  }

  ghost predicate TakesExactly(s: Skill, t: Skill, metas: seq<Meta>, key: Key, toInt: ToInt) {
    TookFirst(s, t, metas, key, toInt)
    && (Took(s, t, key, toInt) <==> Below(SortKey(s.latest, toInt), key) && FirstOf(metas, key, toInt).Some?)
  }

  ghost predicate Grown(s: Skill, t: Skill) {
    s.releases <= t.releases && (|s.releases| == |t.releases| ==> s == t)
  }

  lemma {:induction false} OfferedGrows(s: Skill, metas: seq<Meta>, toInt: ToInt)
    ensures Grown(s, OfferedAll(s, metas, toInt))
  {
    if metas != [] { OfferedGrows(s, metas[..|metas| - 1], toInt); }
  }

  /** An entry above the old latest that is refused has the number of the release just taken. */
  lemma {:induction false} RefusedIsTaken(s: Skill, t: Skill, metas: seq<Meta>, m: Meta, key: Key, toInt: ToInt)
    requires InOrder(t, toInt) && Grown(s, t) && Progress(s, t, metas, toInt)
    requires HasKey(m, key, toInt) && !Newer(t.latest, m.version.value, toInt) && Below(SortKey(s.latest, toInt), key)
    requires metas == [] || AtMost(MetaKey(metas[|metas| - 1], toInt), key)
    ensures Took(s, t, key, toInt)
  {
    var start, end := SortKey(s.latest, toInt), SortKey(t.latest, toInt);
    NotBelow(start, key);
    NotBelow(end, key);
    NotBelow(key, end);
    if metas != [] && AtMost(end, MetaKey(metas[|metas| - 1], toInt)) {
      AtMostTransitive(end, MetaKey(metas[|metas| - 1], toInt), key);
    }
    assert end == key && |s.releases| < |t.releases|;
    assert TookAt(s, t, |t.releases| - 1, key, toInt);
  }

  lemma {:induction false} RefusedNext(s: Skill, t: Skill, metas: seq<Meta>, m: Meta, key: Key, toInt: ToInt)
    requires InOrder(t, toInt) && Grown(s, t) && Progress(s, t, metas, toInt)
    requires TakesExactly(s, t, metas, key, toInt) && Offered(t, m, toInt) == t
    requires metas == [] || AtMost(MetaKey(metas[|metas| - 1], toInt), MetaKey(m, toInt))
    ensures TakesExactly(s, t, metas + [m], key, toInt)
  {
    FirstOfNext(metas, m, key, toInt);
    if HasKey(m, key, toInt) && Below(SortKey(s.latest, toInt), key) {
      RefusedIsTaken(s, t, metas, m, key, toInt);
    }
  }

  lemma {:induction false} AcceptedNext(s: Skill, t: Skill, metas: seq<Meta>, m: Meta, key: Key, toInt: ToInt)
    requires Grown(s, t) && Progress(s, t, metas, toInt) && TakesExactly(s, t, metas, key, toInt)
    requires Named(m) && Newer(t.latest, m.version.value, toInt)
    ensures TakesExactly(s, Added(t, ReleaseOf(m)), metas + [m], key, toInt)
  {
    var u, n := Added(t, ReleaseOf(m)), |t.releases|;
    FirstOfNext(metas, m, key, toInt);
    forall i: nat ensures TookAt(s, u, i, key, toInt) <==>
      TookAt(s, t, i, key, toInt) || (i == n && HasKey(m, key, toInt)) {
    }
    if HasKey(m, key, toInt) {
      NewerIsFirst(s, t, metas, key, toInt);
      AtMostBelow(SortKey(s.latest, toInt), SortKey(t.latest, toInt), key);
      assert TookAt(s, u, n, key, toInt);
    } else {
      assert forall i: nat :: TookAt(s, u, i, key, toInt) <==> TookAt(s, t, i, key, toInt);
    }
  }

  /** Offered in ascending order, a skill takes for every version number above its latest the first
      entry with that number, and nothing else. */
  lemma {:induction false} TakesTheNewer(s: Skill, metas: seq<Meta>, key: Key, toInt: ToInt)
    requires toInt("0") == Some(0) && InOrder(s, toInt) && Sorted(metas, toInt)
    ensures TakesExactly(s, OfferedAll(s, metas, toInt), metas, key, toInt)
  {
    hide Materialize, Below;
    if metas != [] {
      var n := |metas| - 1;
      var front, m, t := metas[..n], metas[n], OfferedAll(s, metas[..n], toInt);
      TakesTheNewer(s, front, key, toInt);
      OfferedProgress(s, front, toInt);
      OfferedInOrder(s, front, toInt);
      OfferedGrows(s, front, toInt);
      assert metas == front + [m];
      if Offered(t, m, toInt) == t {
        RefusedNext(s, t, front, m, key, toInt);
      } else {
        AcceptedNext(s, t, front, m, key, toInt);
      }
    }
  }

  /** In the order of the remote manifest: for every version number above the old latest there is
      exactly one new release, that of the first entry with the number, and the new releases follow
      the old ones in strictly ascending order. */
  lemma {:induction false} SyncTakesTheNewer(s: Skill, metas: seq<Meta>, key: Key, toInt: ToInt)
    requires toInt("0") == Some(0) && InOrder(s, toInt)
    ensures var t := OfferedAll(s, SortMetas(metas, toInt), toInt);
            InOrder(t, toInt) && s.releases <= t.releases && TakesExactly(s, t, metas, key, toInt)
  {
    var ordered := SortMetas(metas, toInt);
    SortSorts(metas, toInt);
    SortKeepsFirst(metas, key, toInt);
    TakesTheNewer(s, ordered, key, toInt);
    OfferedInOrder(s, ordered, toInt);
    OfferedExtends(s, ordered, toInt);
  }

  lemma {:induction false} NothingNewer(t: Skill, metas: seq<Meta>, toInt: ToInt)
    requires Materialize(t.latest, toInt).Some?
    requires Reached(metas, SortKey(t.latest, toInt), toInt)
    ensures OfferedAll(t, metas, toInt) == t
  {
    if metas != [] {
      var n := |metas| - 1;
      NothingNewer(t, metas[..n], toInt);
      NotBelow(SortKey(t.latest, toInt), MetaKey(metas[n], toInt));
    }
  }

  /** Offering the same manifest again changes nothing. */
  lemma {:induction false} SyncAgainTakesNothing(s: Skill, metas: seq<Meta>, toInt: ToInt)
    requires toInt("0") == Some(0) && InOrder(s, toInt)
    ensures var t := OfferedAll(s, SortMetas(metas, toInt), toInt);
            OfferedAll(t, SortMetas(metas, toInt), toInt) == t
  {
    var ordered := SortMetas(metas, toInt);
    SortSorts(metas, toInt);
    OfferedProgress(s, ordered, toInt);
    OfferedInOrder(s, ordered, toInt);
    NothingNewer(OfferedAll(s, ordered, toInt), ordered, toInt);
  }

  /** An entry without a version is sorted as three zeros. */
  lemma MissingSortsAsZero(interface: Doc, toInt: ToInt)
    requires toInt("0") == Some(0)
    ensures MetaKey(Meta(None, interface), toInt) == [0, 0, 0]
  {
    NoVersionIsZero(toInt);
  }

  /** A version is newer than the latest exactly if both can be read and at the first part in which
      they differ it has the greater number, or the latest ends there. */
  lemma NewerExactlyWhen(latest: string, version: string, toInt: ToInt)
    ensures var a, b := Materialize(latest, toInt), Materialize(version, toInt);
            Newer(latest, version, toInt) <==> a.Some? && b.Some? && exists i: nat :: SmallerAt(a.value, b.value, i)
  {
    var a, b := Materialize(latest, toInt), Materialize(version, toInt);
    if a.Some? && b.Some? { BelowIsFirstDifference(a.value, b.value); }
  }
}
