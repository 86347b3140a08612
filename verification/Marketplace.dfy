/** omni/marketplace: the catalog and the remote registry as objects. What a fetch returns and what
    the clock reads are parameters. */
module Marketplace {
  import opened Ordering
  import opened Versions
  import opened Releases
  import opened Catalogs

  class SkillCatalog {
    const toInt: ToInt
    var skills: Catalog

    constructor (int_: ToInt)
      ensures toInt == int_ && skills == Run([], int_)
    {
      toInt, skills := int_, [];
    }

    method Enter(s: Submission) returns (p: nat)
      modifies this`skills
      ensures p == Find(old(skills), s.name) && skills == Entered(old(skills), s)
    {
      p := Find(skills, s.name);
      if p == |skills| {
        skills := skills + [NewManifest(s)];
        return;
      }
      var m := skills[p];
      m := m.(description := if s.description != "" then s.description else m.description,
              kind := s.kind,
              author := if s.author != "" then s.author else m.author);
      if s.tags != [] {
        var tags := SortKeys(Elems(m.tags) + Elems(s.tags));
        m := m.(tags := tags);
      }
      skills := skills[p := m];
    }

    /** `_add_version`; `ok` is false where it raises. */
    method AddVersion(p: nat, r: Release) returns (ok: bool)
      requires p < |skills|
      modifies this`skills
      ensures ok == Newer(old(skills)[p].skill.latest, r.version, toInt)
      ensures skills == if ok then old(skills)[p := old(skills)[p].(skill := Added(old(skills)[p].skill, r))]
                        else old(skills)
    {
      var latest, offered := Materialize(skills[p].skill.latest, toInt), Materialize(r.version, toInt);
      ok := latest.Some? && offered.Some? && Below(latest.value, offered.value);
      if ok {
        skills := skills[p := skills[p].(skill := Added(skills[p].skill, r))];
      }
    }

    method Publish(s: Submission) returns (ok: bool)
      modifies this`skills
      ensures Outcome(skills, ok) == Published(old(skills), s, toInt)
    {
      var p := Enter(s);
      ok := AddVersion(p, Release(s.version, s.interface));
    }

    method Stamp(name: string, url: string, now: int)
      requires Find(skills, name) < |skills|
      modifies this`skills
      ensures skills == Stamped(old(skills), Find(old(skills), name), url, now)
    {
      skills := Stamped(skills, Find(skills, name), url, now);
    }
  }

  class RemoteSkillRegistry {
    const catalog: SkillCatalog
    var sources: seq<string>
    var synced: map<string, int>

    constructor (c: SkillCatalog)
      ensures catalog == c && sources == [] && synced == map[]
    {
      catalog, sources, synced := c, [], map[];
    }

    method RegisterSource(url: string)
      modifies this`sources
      ensures sources == if url in old(sources) then old(sources) else old(sources) + [url]
    {
      if url !in sources {
        sources := sources + [url];
      }
    }

    method PullEntry(r: RemoteManifest, m: Meta, url: string, now: int) returns (ok: bool)
      modifies catalog`skills
      ensures forall before :: Outcome(catalog.skills, before || ok)
                == PullOne(Outcome(old(catalog.skills), before), r, m, url, now, catalog.toInt)
    {
      ok := false;
      if Named(m) && r.kind.Some? {
        var s := SubmissionOf(r, m);
        PublishedSkill(catalog.skills, s, catalog.toInt, r.name);
        ok := catalog.Publish(s);
        if ok {
          catalog.Stamp(r.name, url, now);
        }
      }
    }

    method PullEntries(r: RemoteManifest, metas: seq<Meta>, url: string, now: int) returns (ok: bool)
      modifies catalog`skills
      ensures Outcome(catalog.skills, ok) == PullAll(old(catalog.skills), r, metas, url, now, catalog.toInt)
    {
      ok := false;
      assert metas[..0] == [];
      for i := 0 to |metas|
        invariant Outcome(catalog.skills, ok)
                  == PullAll(old(catalog.skills), r, metas[..i], url, now, catalog.toInt)
      {
        assert metas[..i + 1][..i] == metas[..i];
        var published := PullEntry(r, metas[i], url, now);
        ok := ok || published;
      }
      assert metas[..|metas|] == metas;
    }

    method SyncManifest(url: string, r: RemoteManifest, now: int) returns (result: SyncResult)
      modifies catalog`skills, this`synced
      ensures catalog.skills == SyncedCatalog(old(catalog.skills), r, url, now, catalog.toInt)
      ensures result == ResultOf(old(catalog.skills), r, url, now, catalog.toInt)
      ensures synced == if result == Synced then old(synced)[url := now] else old(synced)
    {
      if r.name == "" {
        return NoName;
      }
      if r.metas == [] {
        return NoVersions;
      }
      var ok := PullEntries(r, SortMetas(r.metas, catalog.toInt), url, now);
      if !ok {
        return NothingNew;
      }
      synced := synced[url := now];
      result := Synced;
    }
  }
}
