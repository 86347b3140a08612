/** omni/memory/fusion.py: `deep_merge`, and the laws that make it a merge. */
module DeepMerge {
  import opened Json

  /** Override wins; two objects under the same key combine. */
  function Merge(a: Doc, b: Doc): (r: Doc)
    ensures r.Keys == a.Keys + b.Keys
    decreases Obj(a)
  {
    map k | k in a.Keys + b.Keys :: MergedAt(a, b, k)
  }

  function MergedAt(a: Doc, b: Doc, k: string): Json
    requires k in a || k in b
    decreases Obj(a), 0
  {
    if k !in b then a[k]
    else if k in a && a[k].Obj? && b[k].Obj? then Obj(Merge(a[k].fields, b[k].fields))
    else b[k]
  }

  method MergeDocs(a: Doc, b: Doc) returns (result: Doc)
    ensures result == Merge(a, b)
    decreases Obj(a)
  {
    result := a;
    var todo := b.Keys;
    while todo != {}
      invariant todo <= b.Keys
      invariant result.Keys == a.Keys + (b.Keys - todo)
      invariant forall k :: k in result ==> result[k] == if k in todo then a[k] else MergedAt(a, b, k)
      decreases todo
    {
      var key :| key in todo;
      todo := todo - {key};
      if key in result && result[key].Obj? && b[key].Obj? {
        var merged := MergeDocs(a[key].fields, b[key].fields);
        result := result[key := Obj(merged)];
      } else {
        result := result[key := b[key]];
      }
    }
  }

  lemma MergeAt(a: Doc, b: Doc, k: string)
    requires k in a || k in b
    ensures Merge(a, b)[k] == MergedAt(a, b, k)
  {}

  // ------------------------------------------------------------------ identity, idempotence, absorption

  lemma MergeEmptyOverride(a: Doc)
    ensures Merge(a, map[]) == a
  {
    forall k | k in a ensures Merge(a, map[])[k] == a[k] { MergeAt(a, map[], k); }
  }

  lemma MergeEmptyBase(b: Doc)
    ensures Merge(map[], b) == b
  {
    forall k | k in b ensures Merge(map[], b)[k] == b[k] { MergeAt(map[], b, k); }
  }

  lemma {:induction false} MergeIdempotent(a: Doc)
    ensures Merge(a, a) == a
    decreases Obj(a)
  {
    forall k | k in a ensures Merge(a, a)[k] == a[k] {
      MergeAt(a, a, k);
      if a[k].Obj? { MergeIdempotent(a[k].fields); }
    }
  }

  /** Merging the same override a second time changes nothing. */
  lemma {:induction false} MergeAbsorbs(a: Doc, b: Doc)
    ensures Merge(Merge(a, b), b) == Merge(a, b)
    decreases Obj(a)
  {
    var m := Merge(a, b);
    forall k | k in m ensures Merge(m, b)[k] == m[k] {
      MergeAt(m, b, k);
      MergeAt(a, b, k);
      if k in b && b[k].Obj? {
        if k in a && a[k].Obj? { MergeAbsorbs(a[k].fields, b[k].fields); } else { MergeIdempotent(b[k].fields); }
      }
    }
  }

  /** What was merged into `a` absorbs `a` again. */
  lemma {:induction false} MergeAgain(a: Doc, b: Doc)
    ensures Merge(a, Merge(a, b)) == Merge(a, b)
    decreases Obj(a)
  {
    var m := Merge(a, b);
    forall k | k in m ensures Merge(a, m)[k] == m[k] {
      MergeAt(a, b, k);
      MergeAt(a, m, k);
      if k in a && a[k].Obj? && m[k].Obj? {
        if k in b { MergeAgain(a[k].fields, b[k].fields); } else { MergeIdempotent(a[k].fields); }
      }
    }
    assert Merge(a, m).Keys == m.Keys;
  }

  // ------------------------------------------------------------------ where every leaf comes from

  /** The non-object value at a path of keys, if the path leads to one. */
  function LeafAt(d: Doc, path: seq<string>): Option<Json>
    requires path != []
    decreases |path|
  {
    if path[0] !in d then None
    else
      var v := d[path[0]];
      if |path| == 1 then (if v.Obj? then None else Some(v))
      else if v.Obj? then LeafAt(v.fields, path[1..])
      else None
  }

  /** Does `d` say anything at this path, or put a leaf on the way to it? */
  predicate Speaks(d: Doc, path: seq<string>)
    requires path != []
    decreases |path|
  {
    path[0] in d && (|path| == 1 || !d[path[0]].Obj? || Speaks(d[path[0]].fields, path[1..]))
  }

  /** The merge, path by path: the override decides wherever it speaks, the base everywhere else. */
  lemma {:induction false} MergeLeaves(a: Doc, b: Doc, path: seq<string>)
    requires path != []
    ensures LeafAt(Merge(a, b), path) == if Speaks(b, path) then LeafAt(b, path) else LeafAt(a, path)
    decreases |path|
  {
    var k := path[0];
    if k in a || k in b {
      MergeAt(a, b, k);
      if |path| > 1 && k in a && k in b && a[k].Obj? && b[k].Obj? {
        MergeLeaves(a[k].fields, b[k].fields, path[1..]);
      } else if |path| > 1 && k in b && b[k].Obj? {
        SilentHasNoLeaf(b[k].fields, path[1..]);
      }
    }
  }

  lemma {:induction false} SilentHasNoLeaf(d: Doc, path: seq<string>)
    requires path != []
    ensures LeafAt(d, path).Some? ==> Speaks(d, path)
    decreases |path|
  {
    if |path| > 1 && path[0] in d && d[path[0]].Obj? { SilentHasNoLeaf(d[path[0]].fields, path[1..]); }
  }

  /** Every leaf of the override survives. */
  lemma OverrideLeavesKept(a: Doc, b: Doc, path: seq<string>)
    requires path != [] && LeafAt(b, path).Some?
    ensures LeafAt(Merge(a, b), path) == LeafAt(b, path)
  {
    SilentHasNoLeaf(b, path);
    MergeLeaves(a, b, path);
  }

  // ------------------------------------------------------------------ associativity, exactly

  /** Every key of `a` is in `c`, at every depth where both are objects. */
  predicate Covers(c: Doc, a: Doc)
    decreases Obj(a)
  {
    forall k | k in a :: k in c && (a[k].Obj? && c[k].Obj? ==> Covers(c[k].fields, a[k].fields))
  }

  lemma {:induction false} CoversIffAbsorbed(a: Doc, c: Doc)
    ensures Covers(c, a) <==> Merge(a, c) == c
    decreases Obj(a)
  {
    forall k | k in a && k in c && a[k].Obj? && c[k].Obj?
      ensures Covers(c[k].fields, a[k].fields) <==> Merge(a[k].fields, c[k].fields) == c[k].fields
    {
      CoversIffAbsorbed(a[k].fields, c[k].fields);
    }
    forall k | k in a || k in c ensures Merge(a, c)[k] == MergedAt(a, c, k) { MergeAt(a, c, k); }
    if Covers(c, a) {
      assert Merge(a, c).Keys == c.Keys;
      assert Merge(a, c) == c;
    } else {
      var k :| k in a && !(k in c && (a[k].Obj? && c[k].Obj? ==> Covers(c[k].fields, a[k].fields)));
      assert k in Merge(a, c);
    }
  }

  /** No leaf of `b` separates an object of `a` from one of `c` that lacks some of its keys. */
  predicate NothingBetween(a: Doc, b: Doc, c: Doc)
    decreases Obj(a)
  {
    forall k | k in a && k in b && k in c && a[k].Obj? && c[k].Obj? ::
      if b[k].Obj? then NothingBetween(a[k].fields, b[k].fields, c[k].fields)
      else Covers(c[k].fields, a[k].fields)
  }

  lemma {:induction false} AssociativeAt(a: Doc, b: Doc, c: Doc, k: string)
    requires k in a || k in b || k in c
    requires k in a && k in b && k in c && a[k].Obj? && b[k].Obj? && c[k].Obj? ==>
               (NothingBetween(a[k].fields, b[k].fields, c[k].fields) <==>
                Merge(Merge(a[k].fields, b[k].fields), c[k].fields) == Merge(a[k].fields, Merge(b[k].fields, c[k].fields)))
    ensures var lhs, rhs := Merge(Merge(a, b), c), Merge(a, Merge(b, c));
            && k in lhs && k in rhs
            && (lhs[k] == rhs[k] <==>
                (k in a && k in b && k in c && a[k].Obj? && c[k].Obj? ==>
                   if b[k].Obj? then NothingBetween(a[k].fields, b[k].fields, c[k].fields)
                   else Covers(c[k].fields, a[k].fields)))
  {
    MergeAt(Merge(a, b), c, k);
    MergeAt(a, Merge(b, c), k);
    if k in a || k in b { MergeAt(a, b, k); }
    if k in b || k in c { MergeAt(b, c, k); }
    if k in a && k in c && a[k].Obj? && c[k].Obj? { CoversIffAbsorbed(a[k].fields, c[k].fields); }
  }

  /** Merging is associative exactly when nothing separates: the order of three branches matters
      only where a leaf sits between two objects of which the later lacks some key of the earlier. */
  lemma {:induction false} AssociativeIff(a: Doc, b: Doc, c: Doc)
    ensures Merge(Merge(a, b), c) == Merge(a, Merge(b, c)) <==> NothingBetween(a, b, c)
    decreases Obj(a)
  {
    var lhs, rhs := Merge(Merge(a, b), c), Merge(a, Merge(b, c));
    forall k | k in lhs
      ensures k in rhs
      ensures lhs[k] == rhs[k] <==>
                (k in a && k in b && k in c && a[k].Obj? && c[k].Obj? ==>
                   if b[k].Obj? then NothingBetween(a[k].fields, b[k].fields, c[k].fields)
                   else Covers(c[k].fields, a[k].fields))
    {
      if k in a && k in b && k in c && a[k].Obj? && b[k].Obj? && c[k].Obj? {
        AssociativeIff(a[k].fields, b[k].fields, c[k].fields);
      }
      AssociativeAt(a, b, c, k);
    }
    assert lhs.Keys == rhs.Keys;
    if NothingBetween(a, b, c) {
      assert lhs == rhs;
    } else {
      var k :| k in a && k in b && k in c && a[k].Obj? && c[k].Obj? &&
        !(if b[k].Obj? then NothingBetween(a[k].fields, b[k].fields, c[k].fields) else Covers(c[k].fields, a[k].fields));
      assert k in lhs && lhs[k] != rhs[k];
    }
  }
}
