/** omni/marketplace: publishing to the catalog, and syncing one remote manifest into it. The
    catalog is the list of its manifests in the order of their creation. */
module Catalogs {
  import opened Json
  import opened Ordering
  import opened Versions
  import opened Releases

  datatype Kind = Official | Community | Private | Enterprise | Local | Remote

  datatype Manifest = Manifest(
    name: string, description: string, kind: Kind, author: string, tags: seq<string>, skill: Skill,
    sourceUrl: string, lastSynced: Option<int>)

  type Catalog = seq<Manifest>

  datatype Submission = Submission(
    name: string, description: string, kind: Kind, author: string, version: string, interface: Doc,
    tags: seq<string>)

  // ------------------------------------------------------------------ finding a skill

  /** The first manifest with that name, or the length of the catalog. */
  function Find(c: Catalog, name: string): (k: nat)
    ensures k <= |c| && (k < |c| ==> c[k].name == name) && forall i :: 0 <= i < k ==> c[i].name != name
  {
    if c == [] then 0 else if c[0].name == name then 0 else 1 + Find(c[1..], name)
  }

  function SkillNamed(c: Catalog, name: string): Skill {
    if Find(c, name) < |c| then c[Find(c, name)].skill else NEW_SKILL
  }

  lemma FindIs(c: Catalog, name: string, k: nat)
    requires k <= |c| && (k < |c| ==> c[k].name == name) && forall i :: 0 <= i < k ==> c[i].name != name
    ensures Find(c, name) == k
  {
  }

  lemma FindAfterUpdate(c: Catalog, p: nat, m: Manifest, name: string)
    requires p < |c| && m.name == c[p].name
    ensures Find(c[p := m], name) == Find(c, name)
  {
    FindIs(c[p := m], name, Find(c, name));
  }

  lemma FindAfterAppend(c: Catalog, m: Manifest, name: string)
    ensures Find(c + [m], name)
            == if Find(c, name) < |c| || m.name == name then Find(c, name) else |c| + 1
  {
    FindIs(c + [m], name, if Find(c, name) < |c| || m.name == name then Find(c, name) else |c| + 1);
  }

  // ------------------------------------------------------------------ publishing

  function NewManifest(s: Submission): Manifest {
    Manifest(s.name, s.description, s.kind, s.author, s.tags, NEW_SKILL, "", None)
  }

  /** Empty descriptions, authors and tags keep what is there. */
  ghost function Refreshed(m: Manifest, s: Submission): Manifest {
    m.(description := if s.description != "" then s.description else m.description,
       kind := s.kind,
       author := if s.author != "" then s.author else m.author,
       tags := if s.tags != [] then SortedKeys(Elems(m.tags) + Elems(s.tags)) else m.tags)
  }

  /** The catalog when `publish` reaches `_add_version`: the manifest is there, even if its version
      is then refused. */
  ghost function Entered(c: Catalog, s: Submission): (d: Catalog)
    ensures Find(c, s.name) < |d| && d[Find(c, s.name)].name == s.name
    ensures |d| == if Find(c, s.name) < |c| then |c| else |c| + 1
    ensures forall i :: 0 <= i < |c| && i != Find(c, s.name) ==> d[i] == c[i]
    ensures d[Find(c, s.name)].skill == SkillNamed(c, s.name)
  {
    var p := Find(c, s.name);
    if p < |c| then c[p := Refreshed(c[p], s)] else c + [NewManifest(s)]
  }

  /** A catalog, and whether `publish` returned rather than raised. */
  datatype Outcome = Outcome(catalog: Catalog, ok: bool)

  ghost function Published(c: Catalog, s: Submission, toInt: ToInt): Outcome {
    var d, p := Entered(c, s), Find(c, s.name);
    if Newer(d[p].skill.latest, s.version, toInt)
    then Outcome(d[p := d[p].(skill := Added(d[p].skill, Release(s.version, s.interface)))], true)
    else Outcome(d, false)
  }

  function Next(s: Skill, r: Release, toInt: ToInt): Skill {
    if Newer(s.latest, r.version, toInt) then Added(s, r) else s
  }

  lemma EnteredFinds(c: Catalog, s: Submission, name: string)
    ensures SkillNamed(Entered(c, s), name) == SkillNamed(c, name)
    ensures Find(Entered(c, s), s.name) == Find(c, s.name)
  {
    var p := Find(c, s.name);
    if p < |c| {
      FindAfterUpdate(c, p, Refreshed(c[p], s), name);
      FindAfterUpdate(c, p, Refreshed(c[p], s), s.name);
    } else {
      FindAfterAppend(c, NewManifest(s), name);
      FindAfterAppend(c, NewManifest(s), s.name);
    }
  }

  /** Publishing changes the releases of the skill of that name only, and succeeds exactly when the
      version is newer. */
  lemma {:induction false} PublishedSkill(c: Catalog, s: Submission, toInt: ToInt, name: string)
    ensures var o := Published(c, s, toInt);
            SkillNamed(o.catalog, name)
            == (if name == s.name then Next(SkillNamed(c, name), Release(s.version, s.interface), toInt)
                else SkillNamed(c, name))
            && (o.ok <==> Newer(SkillNamed(c, s.name).latest, s.version, toInt))
            && Find(o.catalog, s.name) == Find(c, s.name) < |o.catalog|
  {
    var d, p := Entered(c, s), Find(c, s.name);
    EnteredFinds(c, s, name);
    var m := d[p].(skill := Added(d[p].skill, Release(s.version, s.interface)));
    FindAfterUpdate(d, p, m, name);
    FindAfterUpdate(d, p, m, s.name);
  }

  // ------------------------------------------------------------------ syncing

  /** A fetched manifest. The name is empty if missing; the kind is None if it names no kind. */
  datatype RemoteManifest = RemoteManifest(
    name: string, description: string, kind: Option<Kind>, author: string, tags: seq<string>, metas: seq<Meta>)

  function SubmissionOf(r: RemoteManifest, m: Meta): Submission
    requires r.kind.Some? && Named(m)
  {
    Submission(r.name, r.description, r.kind.value, r.author, m.version.value, m.interface, r.tags)
  }

  function Stamped(c: Catalog, p: nat, url: string, now: int): Catalog
    requires p < |c|
  {
    c[p := c[p].(sourceUrl := url, lastSynced := Some(now))]
  }

  /** One round of the loop in `sync`; an unknown kind raises before the catalog is reached. */
  ghost function PullOne(o: Outcome, r: RemoteManifest, m: Meta, url: string, now: int, toInt: ToInt): Outcome {
    if !Named(m) || r.kind.None? then o
    else
      var q := Published(o.catalog, SubmissionOf(r, m), toInt);
      var p := Find(q.catalog, r.name);
      if q.ok && p < |q.catalog| then Outcome(Stamped(q.catalog, p, url, now), true)
      else Outcome(q.catalog, o.ok)
  }

  ghost function PullAll(
      c: Catalog, r: RemoteManifest, metas: seq<Meta>, url: string, now: int, toInt: ToInt): Outcome {
    if metas == [] then Outcome(c, false)
    else PullOne(PullAll(c, r, metas[..|metas| - 1], url, now, toInt), r, metas[|metas| - 1], url, now, toInt)
  }

  datatype SyncResult = NoName | NoVersions | NothingNew | Synced

  ghost function SyncedCatalog(c: Catalog, r: RemoteManifest, url: string, now: int, toInt: ToInt): Catalog {
    if r.name == "" || r.metas == [] then c
    else PullAll(c, r, SortMetas(r.metas, toInt), url, now, toInt).catalog
  }

  ghost function ResultOf(c: Catalog, r: RemoteManifest, url: string, now: int, toInt: ToInt): SyncResult {
    if r.name == "" then NoName
    else if r.metas == [] then NoVersions
    else if PullAll(c, r, SortMetas(r.metas, toInt), url, now, toInt).ok then Synced
    else NothingNew
  }

  lemma StampedSkill(c: Catalog, p: nat, url: string, now: int, name: string)
    requires p < |c|
    ensures SkillNamed(Stamped(c, p, url, now), name) == SkillNamed(c, name)
  {
    FindAfterUpdate(c, p, c[p].(sourceUrl := url, lastSynced := Some(now)), name);
  }

  lemma {:induction false} PulledSkill(o: Outcome, r: RemoteManifest, m: Meta, url: string, now: int, toInt: ToInt, name: string)
    ensures var q := PullOne(o, r, m, url, now, toInt);
            SkillNamed(q.catalog, name)
            == (if name == r.name && r.kind.Some? then Offered(SkillNamed(o.catalog, name), m, toInt)
                else SkillNamed(o.catalog, name))
            && (q.ok <==> o.ok || (r.kind.Some? && Named(m)
                                   && Newer(SkillNamed(o.catalog, r.name).latest, m.version.value, toInt)))
  {
    if Named(m) && r.kind.Some? {
      var s := SubmissionOf(r, m);
      var q := Published(o.catalog, s, toInt);
      PublishedSkill(o.catalog, s, toInt, name);
      PublishedSkill(o.catalog, s, toInt, r.name);
      StampedSkill(q.catalog, Find(q.catalog, r.name), url, now, name);
    }
  }

  /** The catalog's part in `sync`: the named skill is offered the entries, no other skill changes,
      and something was published exactly when the releases grew. */
  lemma {:induction false} PulledAllSkill(
      c: Catalog, r: RemoteManifest, metas: seq<Meta>, url: string, now: int, toInt: ToInt, name: string)
    ensures var q := PullAll(c, r, metas, url, now, toInt);
            SkillNamed(q.catalog, name)
            == (if name == r.name && r.kind.Some? then OfferedAll(SkillNamed(c, name), metas, toInt)
                else SkillNamed(c, name))
            && (q.ok <==> |SkillNamed(c, r.name).releases| < |SkillNamed(q.catalog, r.name).releases|)
  {
    if metas != [] {
      var n := |metas| - 1;
      var o := PullAll(c, r, metas[..n], url, now, toInt);
      PulledAllSkill(c, r, metas[..n], url, now, toInt, name);
      PulledAllSkill(c, r, metas[..n], url, now, toInt, r.name);
      PulledSkill(o, r, metas[n], url, now, toInt, name);
      PulledSkill(o, r, metas[n], url, now, toInt, r.name);
      OfferedExtends(SkillNamed(c, r.name), metas[..n], toInt);
    }
  }

  // ------------------------------------------------------------------ the order of every run

  datatype Op =
    | Publish(s: Submission)
    | Sync(r: RemoteManifest, url: string, now: int)

  ghost function Step(c: Catalog, op: Op, toInt: ToInt): Catalog {
    match op
    case Publish(s) => Published(c, s, toInt).catalog
    case Sync(r, url, now) => SyncedCatalog(c, r, url, now, toInt)
  }

  ghost function Run(ops: seq<Op>, toInt: ToInt): Catalog {
    if ops == [] then [] else Step(Run(ops[..|ops| - 1], toInt), ops[|ops| - 1], toInt)
  }

  lemma {:induction false} StepKeepsOrder(c: Catalog, op: Op, toInt: ToInt, name: string)
    requires toInt("0") == Some(0) && InOrder(SkillNamed(c, name), toInt)
    ensures InOrder(SkillNamed(Step(c, op, toInt), name), toInt)
  {
    match op {
      case Publish(s) =>
        PublishedSkill(c, s, toInt, name);
        if Newer(SkillNamed(c, name).latest, s.version, toInt) {
          AddedInOrder(SkillNamed(c, name), Release(s.version, s.interface), toInt);
        }
      case Sync(r, url, now) =>
        PulledAllSkill(c, r, SortMetas(r.metas, toInt), url, now, toInt, name);
        OfferedInOrder(SkillNamed(c, name), SortMetas(r.metas, toInt), toInt);
    }
  }

  /** Whatever was published and synced, the versions of every skill ascend strictly and its latest
      version is the last. */
  lemma {:induction false} RunKeepsVersionOrder(ops: seq<Op>, toInt: ToInt, name: string)
    requires toInt("0") == Some(0)
    ensures InOrder(SkillNamed(Run(ops, toInt), name), toInt)
  {
    if ops == [] {
      NewSkillInOrder(toInt);
    } else {
      RunKeepsVersionOrder(ops[..|ops| - 1], toInt, name);
      StepKeepsOrder(Run(ops[..|ops| - 1], toInt), ops[|ops| - 1], toInt, name);
    }
  }

  // ------------------------------------------------------------------ the laws of sync

  ghost predicate Offers(r: RemoteManifest, key: Key, toInt: ToInt) {
    r.name != "" && r.kind.Some? && FirstOf(r.metas, key, toInt).Some?
  }

  /** A sync into any catalog in order, which every run gives: the old releases stay in front, for
      every number above the old latest the first entry with it is there, and nothing else is. */
  lemma {:induction false} SyncAddsTheNewer(
      c: Catalog, r: RemoteManifest, url: string, now: int, toInt: ToInt, key: Key)
    requires toInt("0") == Some(0) && InOrder(SkillNamed(c, r.name), toInt)
    requires r.name != "" && r.kind.Some?
    ensures var s, t := SkillNamed(c, r.name), SkillNamed(SyncedCatalog(c, r, url, now, toInt), r.name);
            InOrder(t, toInt) && s.releases <= t.releases && TakesExactly(s, t, r.metas, key, toInt)
  {
    SyncTakesTheNewer(SkillNamed(c, r.name), r.metas, key, toInt);
    PulledAllSkill(c, r, SortMetas(r.metas, toInt), url, now, toInt, r.name);
    if r.metas == [] { SameSkillTakes(SkillNamed(c, r.name), key, toInt); }
  }

  lemma SameSkillTakes(s: Skill, key: Key, toInt: ToInt)
    ensures TakesExactly(s, s, [], key, toInt)
  {
  }

  lemma GrowthShows(s: Skill, t: Skill, toInt: ToInt) returns (key: Key)
    requires |s.releases| < |t.releases|
    ensures Took(s, t, key, toInt)
  {
    key := KeyOf(t.releases[|s.releases|], toInt);
    assert TookAt(s, t, |s.releases|, key, toInt);
  }

  /** A sync succeeds exactly when the manifest names a known kind and offers some number above the
      latest version. */
  lemma {:induction false} SyncSucceedsExactlyWhen(
      c: Catalog, r: RemoteManifest, url: string, now: int, toInt: ToInt)
    requires toInt("0") == Some(0) && InOrder(SkillNamed(c, r.name), toInt)
    ensures ResultOf(c, r, url, now, toInt) == Synced <==>
            exists key :: Offers(r, key, toInt) && Below(SortKey(SkillNamed(c, r.name).latest, toInt), key)
  {
    var s := SkillNamed(c, r.name);
    var t := SkillNamed(SyncedCatalog(c, r, url, now, toInt), r.name);
    PulledAllSkill(c, r, SortMetas(r.metas, toInt), url, now, toInt, r.name);
    if ResultOf(c, r, url, now, toInt) == Synced {
      var key := GrowthShows(s, t, toInt);
      SyncAddsTheNewer(c, r, url, now, toInt, key);
      assert Offers(r, key, toInt);
    } else {
      forall key | Offers(r, key, toInt) ensures !Below(SortKey(s.latest, toInt), key) {
        SyncAddsTheNewer(c, r, url, now, toInt, key);
      }
    }
  }

  /** Syncing the same manifest again leaves every version list as it is and finds nothing new. */
  lemma {:induction false} SyncAgainFindsNothing(
      c: Catalog, r: RemoteManifest, url: string, now: int, later: int, toInt: ToInt, name: string)
    requires toInt("0") == Some(0) && InOrder(SkillNamed(c, r.name), toInt)
    requires r.name != "" && r.metas != []
    ensures var once := SyncedCatalog(c, r, url, now, toInt);
            SkillNamed(SyncedCatalog(once, r, url, later, toInt), name) == SkillNamed(once, name)
            && ResultOf(once, r, url, later, toInt) == NothingNew
  {
    var ordered := SortMetas(r.metas, toInt);
    var once := SyncedCatalog(c, r, url, now, toInt);
    SyncAgainTakesNothing(SkillNamed(c, r.name), r.metas, toInt);
    PulledAllSkill(c, r, ordered, url, now, toInt, r.name);
    PulledAllSkill(once, r, ordered, url, later, toInt, name);
    PulledAllSkill(once, r, ordered, url, later, toInt, r.name);
  }

  // ------------------------------------------------------------------ the manifests

  function Given(text: string, before: string): string { if text == "" then before else text }

  /** What a publication makes of a manifest: its kind, what it says of description, author and tags,
      and the release if it is newer. Where it says nothing, what was there stays. */
  ghost predicate IsPublished(before: Manifest, after: Manifest, s: Submission, toInt: ToInt) {
    && after.name == before.name && after.kind == s.kind
    && after.description == Given(s.description, before.description) && after.author == Given(s.author, before.author)
    && (if s.tags == [] then after.tags == before.tags else IsSorting(after.tags, Elems(before.tags) + Elems(s.tags)))
    && after.sourceUrl == before.sourceUrl && after.lastSynced == before.lastSynced
    && after.skill == if Newer(before.skill.latest, s.version, toInt)
                      then Skill(before.skill.releases + [Release(s.version, s.interface)], s.version) else before.skill
  }

  /** `publish`, in full: the manifest of that name, or a new one at the end with nothing yet, becomes
      the published one even if the version is refused, and no other manifest changes. */
  lemma PublishExactly(c: Catalog, s: Submission, toInt: ToInt)
    ensures var o, p := Published(c, s, toInt), Find(c, s.name);
            && |o.catalog| == (if p < |c| then |c| else |c| + 1)
            && (forall i :: 0 <= i < |c| && i != p ==> o.catalog[i] == c[i])
            && (p < |c| ==> IsPublished(c[p], o.catalog[p], s, toInt))
            && (p == |c| ==>
                  var m := o.catalog[p];
                  m == Manifest(s.name, s.description, s.kind, s.author, s.tags, m.skill, "", None)
                  && m.skill == if Newer(NO_VERSION, s.version, toInt)
                                then Skill([Release(s.version, s.interface)], s.version) else Skill([], NO_VERSION))
  {
    hide Newer;
    var p := Find(c, s.name);
  }

  /** Where the manifest of a name was last taken from, if it is there. */
  function StampOf(c: Catalog, name: string): (string, Option<int>) {
    var p := Find(c, name);
    if p < |c| then (c[p].sourceUrl, c[p].lastSynced) else ("", None)
  }

  lemma PublishKeepsStamps(c: Catalog, s: Submission, toInt: ToInt)
    ensures StampOf(Published(c, s, toInt).catalog, s.name) == StampOf(c, s.name)
  {
    PublishExactly(c, s, toInt);
    PublishedSkill(c, s, toInt, s.name);
  }

  /** What a sync leaves alone: every manifest of another name, and their places. */
  ghost predicate OthersStay(c: Catalog, d: Catalog, name: string) {
    && Find(d, name) == Find(c, name) && |c| <= |d| <= |c| + 1 && (Find(c, name) < |c| ==> |d| == |c|)
    && forall i :: 0 <= i < |c| && i != Find(c, name) ==> d[i] == c[i]
  }

  lemma PullOneStamps(c: Catalog, o: Outcome, r: RemoteManifest, m: Meta, url: string, now: int, toInt: ToInt)
    requires OthersStay(c, o.catalog, r.name)
    requires StampOf(o.catalog, r.name) == if o.ok then (url, Some(now)) else StampOf(c, r.name)
    ensures var q := PullOne(o, r, m, url, now, toInt);
            OthersStay(c, q.catalog, r.name)
            && StampOf(q.catalog, r.name) == if q.ok then (url, Some(now)) else StampOf(c, r.name)
  {
    hide Newer;
    if Named(m) && r.kind.Some? {
      var s := SubmissionOf(r, m);
      var q := Published(o.catalog, s, toInt);
      PublishExactly(o.catalog, s, toInt);
      PublishedSkill(o.catalog, s, toInt, r.name);
      PublishKeepsStamps(o.catalog, s, toInt);
      var p := Find(q.catalog, r.name);
      FindAfterUpdate(q.catalog, p, q.catalog[p].(sourceUrl := url, lastSynced := Some(now)), r.name);
    }
  }

  lemma {:induction false} PullAllStamps(c: Catalog, r: RemoteManifest, metas: seq<Meta>, url: string, now: int, toInt: ToInt)
    ensures var q := PullAll(c, r, metas, url, now, toInt);
            OthersStay(c, q.catalog, r.name)
            && StampOf(q.catalog, r.name) == if q.ok then (url, Some(now)) else StampOf(c, r.name)
  {
    if metas != [] {
      var n := |metas| - 1;
      PullAllStamps(c, r, metas[..n], url, now, toInt);
      PullOneStamps(c, PullAll(c, r, metas[..n], url, now, toInt), r, metas[n], url, now, toInt);
    }
  }

  /** A sync marks the named manifest with its source and time exactly if it succeeds, and touches no
      other manifest. */
  lemma SyncStamps(c: Catalog, r: RemoteManifest, url: string, now: int, toInt: ToInt)
    ensures var d := SyncedCatalog(c, r, url, now, toInt);
            OthersStay(c, d, r.name)
            && StampOf(d, r.name) == if ResultOf(c, r, url, now, toInt) == Synced then (url, Some(now)) else StampOf(c, r.name)
  {
    PullAllStamps(c, r, SortMetas(r.metas, toInt), url, now, toInt);
  }

  /** A manifest without a name, or without versions, is refused before anything happens. */
  lemma EmptyManifestsAreRefused(c: Catalog, r: RemoteManifest, url: string, now: int, toInt: ToInt)
    ensures ResultOf(c, r, url, now, toInt) == NoName <==> r.name == ""
    ensures ResultOf(c, r, url, now, toInt) == NoVersions <==> r.name != "" && r.metas == []
    ensures r.name == "" || r.metas == [] ==> SyncedCatalog(c, r, url, now, toInt) == c
  {
  }
}
