/** omni/evolution/executor.py: configuration mutations that remember what they replaced. */
module Evolution {
  import opened Json
  import opened ConfigPaths

  datatype Assignment = Assignment(path: Path, value: Json)

  type Mutation = seq<Assignment>

  /** No path of the mutation is a prefix of another. */
  ghost predicate PrefixFree(m: Mutation) {
    forall i, j :: 0 <= i < |m| && 0 <= j < |m| && i != j ==> Apart(m[i].path, m[j].path)
  }

  ghost predicate AllPresent(d: Doc, m: Mutation) {
    forall i :: 0 <= i < |m| ==> Present(Obj(d), m[i].path)
  }

  predicate NoEmptyPath(m: Mutation) { forall a | a in m :: a.path != [] }

  /** `for k, v in sets.items(): _set_dotted(config, k, v)` */
  function Assigned(d: Doc, m: Mutation): Doc
    requires NoEmptyPath(m)
  {
    if m == [] then d
    else
      var n := |m| - 1;
      assert m[n] in m && forall a :: a in m[..n] ==> a in m;
      Set(Assigned(d, m[..n]), m[n].path, m[n].value)
  }

  /** The values the configuration holds at the mutation's paths, as the record keeps them. */
  function Captured(d: Doc, m: Mutation): (r: Mutation)
    ensures |r| == |m| && forall i :: 0 <= i < |m| ==> r[i] == Assignment(m[i].path, Get(Obj(d), m[i].path))
  {
    seq(|m|, i requires 0 <= i < |m| => Assignment(m[i].path, Get(Obj(d), m[i].path)))
  }

  ghost predicate ApartFromAll(p: Path, m: Mutation) { forall a :: a in m ==> Apart(p, a.path) }

  lemma {:induction false} AssignedCommutes(d: Doc, m: Mutation, p: Path, v: Json)
    requires NoEmptyPath(m) && p != [] && ApartFromAll(p, m)
    ensures Assigned(Set(d, p, v), m) == Set(Assigned(d, m), p, v)
  {
    if m != [] {
      var n := |m| - 1;
      AssignedCommutes(d, m[..n], p, v);
      assert m[n] in m;
      SetsCommute(Assigned(d, m[..n]), p, v, m[n].path, m[n].value);
    }
  }

  /** A mutation leaves every path apart from its own as it was, and there or missing as it was. */
  lemma {:induction false} AssignedElsewhere(d: Doc, m: Mutation, p: Path)
    requires NoEmptyPath(m) && p != [] && ApartFromAll(p, m)
    ensures Get(Obj(Assigned(d, m)), p) == Get(Obj(d), p)
    ensures Present(Obj(Assigned(d, m)), p) <==> Present(Obj(d), p)
  {
    if m != [] {
      var n := |m| - 1;
      AssignedElsewhere(d, m[..n], p);
      assert m[n] in m;
      SetElsewhere(Assigned(d, m[..n]), m[n].path, m[n].value, p);
    }
  }

  /** A path holds the value it was given where no later path of the mutation is a prefix of it or
      goes on from it: the assignments are made in order. */
  lemma {:induction false} UntouchedHolds(d: Doc, m: Mutation, i: nat)
    requires NoEmptyPath(m) && i < |m| && forall j :: i < j < |m| ==> Apart(m[i].path, m[j].path)
    ensures Get(Obj(Assigned(d, m)), m[i].path) == m[i].value && Present(Obj(Assigned(d, m)), m[i].path)
  {
    var n := |m| - 1;
    if i == n {
      SetThenGet(Assigned(d, m[..n]), m[n].path, m[n].value);
    } else {
      UntouchedHolds(d, m[..n], i);
      assert m[i] in m && m[n] in m;
      SetElsewhere(Assigned(d, m[..n]), m[n].path, m[n].value, m[i].path);
    }
  }

  /** After a mutation whose paths are apart, every path holds the value it was given. */
  lemma AssignedHolds(d: Doc, m: Mutation, i: nat)
    requires NoEmptyPath(m) && PrefixFree(m) && i < |m|
    ensures Get(Obj(Assigned(d, m)), m[i].path) == m[i].value && Present(Obj(Assigned(d, m)), m[i].path)
  {
    UntouchedHolds(d, m, i);
  }

  /** Writing the captured values back restores the configuration where every path was present. */
  lemma {:induction false} CapturedRestores(d: Doc, m: Mutation)
    requires NoEmptyPath(m) && PrefixFree(m) && AllPresent(d, m)
    ensures NoEmptyPath(Captured(d, m)) && Assigned(Assigned(d, m), Captured(d, m)) == d
  {
    if m != [] {
      var n := |m| - 1;
      var front, last, back := m[..n], m[n], Captured(d, m);
      CapturedRestores(d, front);
      assert back[..n] == Captured(d, front);
      assert ApartFromAll(last.path, back[..n]) by {
        forall a | a in back[..n] ensures Apart(last.path, a.path) {
          var i :| 0 <= i < n && back[..n][i] == a;
          assert front[i] in front;
        }
      }
      AssignedCommutes(Assigned(d, front), back[..n], last.path, last.value);
      SetTwice(d, last.path, last.value, back[n].value);
      SetSame(d, last.path);
    }
  }

  /** A mutation with paths apart is undone by its record if and only if every path it sets was
      there before: a path that was missing comes back as a null. */
  lemma UndoExactlyWhenPresent(d: Doc, m: Mutation)
    requires NoEmptyPath(m) && PrefixFree(m)
    ensures NoEmptyPath(Captured(d, m))
    ensures Assigned(Assigned(d, m), Captured(d, m)) == d <==> AllPresent(d, m)
  {
    if AllPresent(d, m) {
      CapturedRestores(d, m);
    } else {
      var back := Captured(d, m);
      var i :| 0 <= i < |m| && !Present(Obj(d), m[i].path);
      assert PrefixFree(back);
      AssignedHolds(Assigned(d, m), back, i);
    }
  }

  // ------------------------------------------------------------------ records

  datatype Status = Applied | Reverted

  datatype Record = Record(id: string, proposal: string, target: string, mutation: Mutation, before: Mutation,
                           after: Mutation, status: Status)

  datatype State = State(config: Doc, records: seq<Record>)

  function NewRecord(d: Doc, id: string, proposal: string, target: string, m: Mutation): Record
    requires NoEmptyPath(m)
  {
    Record(id, proposal, target, m, Captured(d, m), Captured(Assigned(d, m), m), Applied)
  }

  function AppliedState(s: State, id: string, proposal: string, target: string, m: Mutation): State
    requires NoEmptyPath(m)
  {
    State(Assigned(s.config, m), s.records + [NewRecord(s.config, id, proposal, target, m)])
  }

  /** The first record with an id, or -1. */
  function Find(records: seq<Record>, id: string): (i: int)
    ensures -1 <= i < |records|
    ensures i >= 0 ==> records[i].id == id && forall j :: 0 <= j < i ==> records[j].id != id
    ensures i < 0 ==> forall j :: 0 <= j < |records| ==> records[j].id != id
  {
    if records == [] then -1
    else
      var n := |records| - 1;
      var i := Find(records[..n], id);
      if i >= 0 then i else if records[n].id == id then n else -1
  }

  predicate Sane(s: State) { forall r | r in s.records :: NoEmptyPath(r.before) }

  /** `revert`: a record reverts once. */
  function RevertedState(s: State, id: string): State
    requires Sane(s)
  {
    var i := Find(s.records, id);
    if i < 0 || s.records[i].status.Reverted? then s
    else
      assert s.records[i] in s.records;
      State(Assigned(s.config, s.records[i].before), s.records[i := s.records[i].(status := Reverted)])
  }

  /** Reverting again changes nothing. */
  lemma RevertOnce(s: State, id: string)
    requires Sane(s)
    ensures Sane(RevertedState(s, id)) && RevertedState(RevertedState(s, id), id) == RevertedState(s, id)
  {
    var i := Find(s.records, id);
    if i >= 0 && !s.records[i].status.Reverted? {
      var s' := RevertedState(s, id);
      assert s'.records[i].id == id;
      assert forall j :: 0 <= j < i ==> s'.records[j] == s.records[j];
    }
  }

  /** A record tells, path by path, what the configuration held before and what it holds after. */
  lemma RecordTells(d: Doc, id: string, proposal: string, target: string, m: Mutation, i: nat)
    requires NoEmptyPath(m) && PrefixFree(m) && i < |m|
    ensures var r := NewRecord(d, id, proposal, target, m);
            && r.id == id && r.proposal == proposal && r.target == target && r.mutation == m && r.status == Applied
            && |r.before| == |m| && r.before[i] == Assignment(m[i].path, Get(Obj(d), m[i].path))
            && |r.after| == |m| && r.after[i] == m[i]
  {
    AssignedHolds(d, m, i);
  }

  /** A revert, in full: every path of the record holds what it held before the mutation, every path
      apart from them stays, the record is marked, and no other record changes. */
  lemma RevertExactly(s: State, id: string, k: nat, other: Path)
    requires Sane(s) && Find(s.records, id) >= 0 && s.records[Find(s.records, id)].status.Applied?
    requires PrefixFree(s.records[Find(s.records, id)].before) && k < |s.records[Find(s.records, id)].before| && other != []
    ensures var i, s' := Find(s.records, id), RevertedState(s, id);
            var before := s.records[i].before;
            && s'.records == s.records[i := s.records[i].(status := Reverted)]
            && Get(Obj(s'.config), before[k].path) == before[k].value
            && (ApartFromAll(other, before) ==> Get(Obj(s'.config), other) == Get(Obj(s.config), other))
  {
    var r := s.records[Find(s.records, id)];
    assert r in s.records;
    AssignedHolds(s.config, r.before, k);
    if ApartFromAll(other, r.before) { AssignedElsewhere(s.config, r.before, other); }
  }

  // ------------------------------------------------------------------ stacks of mutations

  datatype Job = Job(id: string, proposal: string, target: string, mutation: Mutation)

  ghost predicate Unused(s: State, id: string) { forall r :: r in s.records ==> r.id != id }

  /** Each job in turn can be undone, and uses an id of its own. */
  ghost predicate Undoable(s: State, jobs: seq<Job>)
    requires Sane(s)
    decreases |jobs|
  {
    jobs == [] ||
    (&& NoEmptyPath(jobs[0].mutation) && PrefixFree(jobs[0].mutation) && AllPresent(s.config, jobs[0].mutation)
     && Unused(s, jobs[0].id)
     && (SaneDone(s, jobs[0]); Undoable(Done(s, jobs[0]), jobs[1..])))
  }

  function Done(s: State, j: Job): State
    requires NoEmptyPath(j.mutation)
  {
    AppliedState(s, j.id, j.proposal, j.target, j.mutation)
  }

  lemma SaneDone(s: State, j: Job)
    requires Sane(s) && NoEmptyPath(j.mutation)
    ensures Sane(Done(s, j))
  {
    var before := Captured(s.config, j.mutation);
    forall a | a in before ensures a.path != [] {
      var i :| 0 <= i < |before| && before[i] == a;
      assert j.mutation[i] in j.mutation;
    }
  }

  /** Applies the jobs in order, then reverts them in reverse order. */
  ghost function ThereAndBack(s: State, jobs: seq<Job>): State
    requires Sane(s) && Undoable(s, jobs)
    ensures Sane(ThereAndBack(s, jobs))
    decreases |jobs|
  {
    if jobs == [] then s
    else
      SaneDone(s, jobs[0]);
      var s' := ThereAndBack(Done(s, jobs[0]), jobs[1..]);
      RevertedState(s', jobs[0].id)
  }

  ghost predicate Keeps(s: State, s': State) {
    |s.records| <= |s'.records| && forall i :: 0 <= i < |s.records| ==> s'.records[i] == s.records[i]
  }

  lemma DoneThenReverted(s: State, s': State, j: Job)
    requires Sane(s) && Sane(s') && NoEmptyPath(j.mutation) && PrefixFree(j.mutation) && AllPresent(s.config, j.mutation)
    requires Unused(s, j.id) && s'.config == Done(s, j).config && Keeps(Done(s, j), s')
    ensures RevertedState(s', j.id).config == s.config && Keeps(s, RevertedState(s', j.id))
  {
    var n := |s.records|;
    assert s'.records[n] == Done(s, j).records[n];
    forall i | 0 <= i < n ensures s'.records[i].id != j.id {
      assert s'.records[i] == Done(s, j).records[i] == s.records[i];
      assert s.records[i] in s.records;
    }
    assert Find(s'.records, j.id) == n;
    CapturedRestores(s.config, j.mutation);
  }

  /** Undo is exact: reverting any stack of mutations, last first, restores the configuration tree,
      provided each mutation's paths were apart and present when it was applied. */
  lemma {:induction false} StackRestores(s: State, jobs: seq<Job>)
    requires Sane(s) && Undoable(s, jobs)
    ensures ThereAndBack(s, jobs).config == s.config && Keeps(s, ThereAndBack(s, jobs))
    decreases |jobs|
  {
    if jobs != [] {
      SaneDone(s, jobs[0]);
      StackRestores(Done(s, jobs[0]), jobs[1..]);
      DoneThenReverted(s, ThereAndBack(Done(s, jobs[0]), jobs[1..]), jobs[0]);
    }
  }

  // ------------------------------------------------------------------ the executor

  const MUTATION_TARGETS := ["routing", "prompt", "memory_layout", "orchestrator_config"]

  /** What a caller asks for: values for configuration paths, and a template for a task type. Which of
      them counts depends on the target. */
  datatype Request = Request(sets: Mutation, taskType: Path, template: Json)

  datatype Answer = UnknownTarget | NotAdopted | Forbidden | NeedsMemory | Made(record: Record)

  /** Without a memory store a prompt is one path of the configuration. */
  function MutationOf(target: string, r: Request): Mutation {
    if target == "prompt" then [Assignment(["prompts"] + r.taskType, r.template)] else r.sets
  }

  /** After a prompt mutation the configuration holds the template for its task type under "prompts",
      and every path apart from there stays as it was, whatever else the request says. */
  lemma PromptIsKept(d: Doc, r: Request, other: Path)
    requires other != []
    ensures NoEmptyPath(MutationOf("prompt", r))
    ensures var after := Assigned(d, MutationOf("prompt", r));
            Get(Obj(after), ["prompts"] + r.taskType) == r.template
            && (Apart(other, ["prompts"] + r.taskType) ==> Get(Obj(after), other) == Get(Obj(d), other))
  {
    var m := MutationOf("prompt", r);
    AssignedHolds(d, m, 0);
    if Apart(other, ["prompts"] + r.taskType) { AssignedElsewhere(d, m, other); }
  }

  /** After a mutation of routing or of the orchestrator's configuration every path of the request holds
      its value, and the paths apart from them stay. */
  lemma SetsAreKept(d: Doc, target: string, r: Request, i: nat, other: Path)
    requires target == "routing" || target == "orchestrator_config"
    requires NoEmptyPath(r.sets) && PrefixFree(r.sets) && i < |r.sets| && other != []
    ensures var after := Assigned(d, MutationOf(target, r));
            Get(Obj(after), r.sets[i].path) == r.sets[i].value
            && (ApartFromAll(other, r.sets) ==> Get(Obj(after), other) == Get(Obj(d), other))
  {
    AssignedHolds(d, r.sets, i);
    if ApartFromAll(other, r.sets) { AssignedElsewhere(d, r.sets, other); }
  }

  class EvolutionExecutor {
    var config: Doc
    var records: seq<Record>

    function Now(): State
      reads this
    {
      State(config, records)
    }

    constructor (config: Doc)
      ensures Now() == State(config, [])
    {
      this.config, records := config, [];
    }

    /** `_set_dotted` over all items of a mutation. */
    method AssignAll(m: Mutation)
      requires NoEmptyPath(m)
      modifies this`config
      ensures config == Assigned(old(config), m)
    {
      for i := 0 to |m|
        invariant NoEmptyPath(m[..i]) && config == Assigned(old(config), m[..i])
      {
        assert m[..i + 1][..i] == m[..i] && m[..i + 1] == m[..i] + [m[i]] && m[i] in m;
        config := Set(config, m[i].path, m[i].value);
      }
      assert m[..|m|] == m;
    }

    /** The values at the mutation's paths. */
    method Capture(m: Mutation) returns (r: Mutation)
      ensures r == Captured(config, m)
    {
      r := [];
      for i := 0 to |m|
        invariant r == Captured(config, m)[..i]
      {
        var v := GetDotted(config, m[i].path);
        r := r + [Assignment(m[i].path, v)];
      }
    }

    /** `apply`, with the proposal's status and the policy's verdict as inputs, and no memory store. */
    method ApplyMutation(id: string, proposal: string, adopted: bool, allowed: bool, target: string, request: Request)
      returns (answer: Answer)
      requires NoEmptyPath(request.sets)
      modifies this
      ensures answer.UnknownTarget? <==> target !in MUTATION_TARGETS
      ensures answer.NotAdopted? <==> target in MUTATION_TARGETS && !adopted
      ensures answer.Forbidden? <==> target in MUTATION_TARGETS && adopted && !allowed
      ensures answer.NeedsMemory? <==> target == "memory_layout" && adopted && allowed
      ensures answer.Made? ==> NoEmptyPath(MutationOf(target, request))
      ensures answer.Made? ==> Now() == AppliedState(old(Now()), id, proposal, target, MutationOf(target, request))
                               && answer.record == NewRecord(old(config), id, proposal, target, MutationOf(target, request))
      ensures !answer.Made? ==> Now() == old(Now())
    {
      if target !in MUTATION_TARGETS {
        return UnknownTarget;
      }
      if !adopted {
        return NotAdopted;
      }
      if !allowed {
        return Forbidden;
      }
      if target == "memory_layout" {
        return NeedsMemory;
      }
      var m := MutationOf(target, request);
      var before := Capture(m);
      AssignAll(m);
      var after := Capture(m);
      var r := Record(id, proposal, target, m, before, after, Applied);
      records := records + [r];
      answer := Made(r);
    }

    /** `revert`; None where the source raises KeyError. */
    method RevertMutation(id: string) returns (r: Option<Record>)
      requires Sane(Now())
      modifies this
      ensures r.None? <==> Find(old(records), id) < 0
      ensures Now() == RevertedState(old(Now()), id)
      ensures r.Some? ==> r.value.id == id && r.value.status.Reverted?
    {
      var i := Find(records, id);
      if i < 0 {
        return None;
      }
      var record := records[i];
      if record.status.Reverted? {
        return Some(record);
      }
      assert record in records;
      AssignAll(record.before);
      record := record.(status := Reverted);
      records := records[i := record];
      r := Some(record);
    }
  }
}
