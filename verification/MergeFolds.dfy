/** Merging a list of documents, and what happens when the result takes the place of one of them. */
module MergeFolds {
  import opened Json
  import opened DeepMerge

  /** Merges the documents of `ys` into `b`, in order. */
  function Fold(b: Doc, ys: seq<Doc>): Doc {
    if ys == [] then b else Merge(Fold(b, ys[..|ys| - 1]), ys[|ys| - 1])
  }

  /** Some document holds a value that is no object under `k`. */
  predicate HasLeaf(ys: seq<Doc>, k: string) { exists y: Doc | y in ys :: k in y && !y[k].Obj? }

  predicate Named(ys: seq<Doc>, k: string) { exists y: Doc | y in ys :: k in y }

  /** The objects under `k`, in order. */
  function Under(ys: seq<Doc>, k: string): seq<Doc> {
    if ys == [] then []
    else
      var last := ys[|ys| - 1];
      Under(ys[..|ys| - 1], k) + if k in last && last[k].Obj? then [last[k].fields] else []
  }

  /** What one more document adds. */
  lemma FoldNext(b: Doc, ys: seq<Doc>, y: Doc, k: string)
    ensures Fold(b, ys + [y]) == Merge(Fold(b, ys), y)
    ensures HasLeaf(ys + [y], k) <==> HasLeaf(ys, k) || (k in y && !y[k].Obj?)
    ensures Named(ys + [y], k) <==> Named(ys, k) || k in y
    ensures Under(ys + [y], k) == if k in y && y[k].Obj? then Under(ys, k) + [y[k].fields] else Under(ys, k)
  {
    assert (ys + [y])[..|ys|] == ys;
    assert y in ys + [y] && forall x :: x in ys ==> x in ys + [y];
  }

  // ------------------------------------------------------------------ one key of a fold

  lemma {:induction false} FoldKeys(b: Doc, ys: seq<Doc>, k: string)
    ensures k in Fold(b, ys) <==> k in b || Named(ys, k)
  {
    if ys != [] {
      var n := |ys| - 1;
      FoldKeys(b, ys[..n], k);
      assert ys == ys[..n] + [ys[n]];
    }
  }

  /** From a leaf on, what came before the list is forgotten. */
  lemma {:induction false} FoldForgets(b: Doc, b': Doc, ys: seq<Doc>, k: string)
    requires HasLeaf(ys, k)
    ensures k in Fold(b, ys) && k in Fold(b', ys) && Fold(b, ys)[k] == Fold(b', ys)[k]
  {
    var n := |ys| - 1;
    assert ys == ys[..n] + [ys[n]];
    var f, f' := Fold(b, ys[..n]), Fold(b', ys[..n]);
    if k in ys[n] && !ys[n][k].Obj? {
      MergeAt(f, ys[n], k);
      MergeAt(f', ys[n], k);
    } else {
      FoldForgets(b, b', ys[..n], k);
      MergeAt(f, ys[n], k);
      MergeAt(f', ys[n], k);
    }
  }

  /** What the objects under `k` are merged into. */
  function BaseAt(b: Doc, k: string): Doc {
    if k in b && b[k].Obj? then b[k].fields else map[]
  }

  /** With no leaf in the list, the objects under `k` are merged into what was there. */
  lemma {:induction false} FoldUnder(b: Doc, ys: seq<Doc>, k: string)
    requires !HasLeaf(ys, k)
    ensures BaseAt(Fold(b, ys), k) == Fold(BaseAt(b, k), Under(ys, k))
    ensures Named(ys, k) ==> k in Fold(b, ys) && Fold(b, ys)[k] == Obj(BaseAt(Fold(b, ys), k))
    ensures !Named(ys, k) ==> Under(ys, k) == []
    ensures !Named(ys, k) && k in b ==> k in Fold(b, ys) && Fold(b, ys)[k] == b[k]
  {
    hide Merge, Fold, HasLeaf, Named, Under, BaseAt;
    if ys == [] {
      NothingUnder(b, k);
    } else {
      var front, last := ys[..|ys| - 1], ys[|ys| - 1];
      assert ys == front + [last];
      FoldNext(b, front, last, k);
      FoldUnder(b, front, k);
      OneUnder(Fold(b, front), last, k);
      if k in last { FoldNext(BaseAt(b, k), Under(front, k), last[k].fields, k); }
    }
  }

  lemma OneUnder(b: Doc, y: Doc, k: string)
    ensures k in y && y[k].Obj? ==> k in Merge(b, y) && Merge(b, y)[k] == Obj(Merge(BaseAt(b, k), y[k].fields))
    ensures k !in y && k in b ==> k in Merge(b, y) && Merge(b, y)[k] == b[k]
    ensures k !in y ==> BaseAt(Merge(b, y), k) == BaseAt(b, k)
    ensures k in y && y[k].Obj? ==> BaseAt(Merge(b, y), k) == Merge(BaseAt(b, k), y[k].fields)
  {
    hide Merge;
    if k in b || k in y { MergeAt(b, y, k); }
    if k in y && y[k].Obj? { MergeEmptyBase(y[k].fields); }
  }

  lemma NothingUnder(b: Doc, k: string)
    ensures Fold(b, []) == b && Under([], k) == [] && !Named([], k)
    ensures Fold(BaseAt(b, k), []) == BaseAt(b, k)
  {
  }

  lemma FoldNothing(b: Doc)
    ensures Fold(b, []) == b
  {
  }

  /** Only what stands under `k` matters there. */
  lemma FoldLocal(b: Doc, b': Doc, ys: seq<Doc>, k: string)
    requires k in b && k in b' && b[k] == b'[k]
    ensures k in Fold(b, ys) && k in Fold(b', ys) && Fold(b, ys)[k] == Fold(b', ys)[k]
  {
    if HasLeaf(ys, k) {
      FoldForgets(b, b', ys, k);
    } else {
      FoldUnder(b, ys, k);
      FoldUnder(b', ys, k);
    }
  }

  /** Merging the same list a second time changes nothing. */
  lemma {:induction false} FoldAbsorbs(b: Doc, ys: seq<Doc>)
    ensures Fold(Fold(b, ys), ys) == Fold(b, ys)
    decreases Obj(Fold(b, ys))
  {
    var m := Fold(b, ys);
    forall k ensures k in Fold(m, ys) <==> k in m {
      FoldKeys(m, ys, k);
      FoldKeys(b, ys, k);
    }
    forall k | k in m ensures Fold(m, ys)[k] == m[k] {
      FoldKeys(b, ys, k);
      if HasLeaf(ys, k) {
        FoldForgets(m, b, ys, k);
      } else {
        FoldUnder(m, ys, k);
        FoldUnder(b, ys, k);
        if Named(ys, k) { FoldAbsorbs(BaseAt(b, k), Under(ys, k)); }
      }
    }
  }

  // ------------------------------------------------------------------ the result in the place of one document

  /** Every key of `a` is taken up by the list, and wherever the list holds objects only, so are those
      below. */
  predicate Covered(a: Doc, ys: seq<Doc>)
    decreases Obj(a)
  {
    forall k | k in a ::
      Named(ys, k) && (a[k].Obj? && !HasLeaf(ys, k) ==> Covered(a[k].fields, Under(ys, k)))
  }

  /** Wherever a value of `t` that is no object separates an object of `a` from objects of the list,
      the list covers that object. */
  predicate Settled(a: Doc, t: Doc, ys: seq<Doc>)
    decreases Obj(a)
  {
    forall k | k in a && k in t && a[k].Obj? && !HasLeaf(ys, k) ::
      if t[k].Obj? then Settled(a[k].fields, t[k].fields, Under(ys, k))
      else Named(ys, k) ==> Covered(a[k].fields, Under(ys, k))
  }

  /** One key of a second merge, where putting the result back changes nothing under it. */
  lemma KeyAbsorbs(b: Doc, b': Doc, ys: seq<Doc>, k: string)
    requires k in Fold(b, ys)
    requires HasLeaf(ys, k) || (k in b' && b'[k] == Fold(b, ys)[k])
    ensures k in Fold(b', ys) && Fold(b', ys)[k] == Fold(b, ys)[k]
  {
    if HasLeaf(ys, k) {
      FoldForgets(b, b', ys, k);
    } else {
      FoldLocal(b', Fold(b, ys), ys, k);
      FoldAbsorbs(b, ys);
    }
  }

  /** `again` is `m` exactly when `same` holds, and otherwise not even equal in Python's sense. */
  ghost predicate Exactly(same: bool, m: Doc, again: Doc) {
    if same then again == m else !PyEqualDocs(m, again)
  }

  lemma {:induction false} CoveredExactly(a: Doc, ys: seq<Doc>)
    ensures var f := Fold(map[], ys); Exactly(Covered(a, ys), f, Fold(Merge(a, f), ys))
    decreases Obj(a)
  {
    hide Merge, Fold, Under, HasLeaf, Named;
    var f := Fold(map[], ys);
    var again := Fold(Merge(a, f), ys);
    forall k ensures k in again <==> k in f || k in a {
      FoldKeys(Merge(a, f), ys, k);
      FoldKeys(map[], ys, k);
    }
    forall k | k in f
      ensures k in a && a[k].Obj? && !HasLeaf(ys, k) ==>
                f[k].Obj? && again[k].Obj? && Exactly(Covered(a[k].fields, Under(ys, k)), f[k].fields, again[k].fields)
      ensures !(k in a && a[k].Obj? && !HasLeaf(ys, k)) ==> again[k] == f[k]
    {
      FoldKeys(map[], ys, k);
      CoveredAt(a, ys, k);
      if k in a && a[k].Obj? && !HasLeaf(ys, k) { CoveredExactly(a[k].fields, Under(ys, k)); }
    }
    forall k ensures k in f <==> Named(ys, k) { FoldKeys(map[], ys, k); }
    if Covered(a, ys) {
      assert again.Keys == f.Keys;
    } else {
      var k :| k in a && !(Named(ys, k) && (a[k].Obj? && !HasLeaf(ys, k) ==> Covered(a[k].fields, Under(ys, k))));
      assert k in again;
    }
  }

  lemma CoveredAt(a: Doc, ys: seq<Doc>, k: string)
    requires Named(ys, k)
    ensures var f := Fold(map[], ys); var again := Fold(Merge(a, f), ys);
            k in f && k in again
            && if k in a && a[k].Obj? && !HasLeaf(ys, k)
               then var u := Under(ys, k);
                    f[k] == Obj(Fold(map[], u)) && again[k] == Obj(Fold(Merge(a[k].fields, Fold(map[], u)), u))
               else again[k] == f[k]
  {
    var f := Fold(map[], ys);
    FoldKeys(map[], ys, k);
    MergeAt(a, f, k);
    if HasLeaf(ys, k) {
      FoldForgets(map[], Merge(a, f), ys, k);
    } else {
      FoldUnder(map[], ys, k);
      if k in a && a[k].Obj? {
        FoldUnder(Merge(a, f), ys, k);
      } else {
        KeyAbsorbs(map[], Merge(a, f), ys, k);
      }
    }
  }

  /** Putting the merge of a whole list in the place of one of its documents and merging again gives
      the same if and only if no leaf of that document separates. */
  lemma {:induction false} SettledExactly(a: Doc, t: Doc, ys: seq<Doc>)
    ensures var m := Fold(Merge(a, t), ys); Exactly(Settled(a, t, ys), m, Fold(Merge(a, m), ys))
    decreases Obj(a)
  {
    hide Merge, Fold, Under, HasLeaf, Named;
    var m := Fold(Merge(a, t), ys);
    var again := Fold(Merge(a, m), ys);
    forall k ensures k in again <==> k in m {
      FoldKeys(Merge(a, m), ys, k);
      FoldKeys(Merge(a, t), ys, k);
    }
    forall k | k in m
      ensures k in a && k in t && a[k].Obj? && !HasLeaf(ys, k) && (t[k].Obj? || Named(ys, k)) ==>
                m[k].Obj? && again[k].Obj?
                && Exactly(if t[k].Obj? then Settled(a[k].fields, t[k].fields, Under(ys, k))
                           else Covered(a[k].fields, Under(ys, k)), m[k].fields, again[k].fields)
      ensures !(k in a && k in t && a[k].Obj? && !HasLeaf(ys, k) && (t[k].Obj? || Named(ys, k))) ==> again[k] == m[k]
    {
      SettledAt(a, t, ys, k);
      if k in a && a[k].Obj? && !HasLeaf(ys, k) {
        if k !in t {
          SettledExactly(a[k].fields, map[], Under(ys, k));
          MergeEmptyOverride(a[k].fields);
        } else if t[k].Obj? {
          SettledExactly(a[k].fields, t[k].fields, Under(ys, k));
        } else {
          CoveredExactly(a[k].fields, Under(ys, k));
        }
      }
    }
    if Settled(a, t, ys) {
      assert again == m;
    } else {
      var k :| k in a && k in t && a[k].Obj? && !HasLeaf(ys, k) &&
        !(if t[k].Obj? then Settled(a[k].fields, t[k].fields, Under(ys, k))
          else Named(ys, k) ==> Covered(a[k].fields, Under(ys, k)));
      FoldKeys(Merge(a, t), ys, k);
      assert k in m;
    }
  }

  /** What the list is merged into under `k`, where `a` holds an object there. */
  function JoinAt(a: Doc, t: Doc, k: string): Doc
    requires k in a && a[k].Obj?
  {
    if k !in t then a[k].fields else if t[k].Obj? then Merge(a[k].fields, t[k].fields) else map[]
  }

  lemma SettledAt(a: Doc, t: Doc, ys: seq<Doc>, k: string)
    requires k in Fold(Merge(a, t), ys)
    ensures var m := Fold(Merge(a, t), ys); var again := Fold(Merge(a, m), ys);
            k in again
            && if k in a && a[k].Obj? && !HasLeaf(ys, k) && (k !in t || t[k].Obj? || Named(ys, k))
               then var u := Under(ys, k);
                    var x := Fold(JoinAt(a, t, k), u);
                    m[k] == Obj(x) && again[k] == Obj(Fold(Merge(a[k].fields, x), u))
               else again[k] == m[k]
  {
    hide Merge, Fold, Under, HasLeaf, Named;
    var b := Merge(a, t);
    var m := Fold(b, ys);
    FoldKeys(b, ys, k);
    MergeAt(a, m, k);
    if k in a || k in t { MergeAt(a, t, k); }
    if HasLeaf(ys, k) {
      KeyAbsorbs(b, Merge(a, m), ys, k);
    } else {
      FoldUnder(b, ys, k);
      if k in a && a[k].Obj? && (k !in t || t[k].Obj? || Named(ys, k)) {
        FoldNothing(JoinAt(a, t, k));
        FoldUnder(Merge(a, m), ys, k);
        FoldNothing(BaseAt(Merge(a, m), k));
      } else {
        KeyAbsorbs(b, Merge(a, m), ys, k);
      }
    }
  }

  // ------------------------------------------------------------------ no later document, and one

  /** With nothing after it, a document never separates. */
  lemma {:induction false} SettledAlone(a: Doc, t: Doc)
    ensures Settled(a, t, [])
    decreases Obj(a)
  {
    forall k | k in a && k in t && a[k].Obj? && t[k].Obj? ensures Settled(a[k].fields, t[k].fields, []) {
      SettledAlone(a[k].fields, t[k].fields);
    }
  }

  lemma OneLater(c: Doc, k: string)
    ensures HasLeaf([c], k) <==> k in c && !c[k].Obj?
    ensures Named([c], k) <==> k in c
    ensures Under([c], k) == if k in c && c[k].Obj? then [c[k].fields] else []
  {
    FoldNext(map[], [], c, k);
    assert [] + [c] == [c];
  }

  lemma {:induction false} CoveredByOne(a: Doc, c: Doc)
    ensures Covered(a, [c]) <==> Covers(c, a)
    decreases Obj(a)
  {
    forall k | k in a
      ensures Named([c], k) <==> k in c
      ensures HasLeaf([c], k) <==> k in c && !c[k].Obj?
      ensures k in c && a[k].Obj? && c[k].Obj? ==>
                (Covered(a[k].fields, Under([c], k)) <==> Covers(c[k].fields, a[k].fields))
    {
      OneLater(c, k);
      if k in c && a[k].Obj? && c[k].Obj? { CoveredByOne(a[k].fields, c[k].fields); }
    }
  }

  /** For three documents it is the condition under which merging them is associative. */
  lemma {:induction false} SettledByOne(a: Doc, b: Doc, c: Doc)
    ensures Settled(a, b, [c]) <==> NothingBetween(a, b, c)
    decreases Obj(a)
  {
    forall k | k in a && k in b && a[k].Obj?
      ensures HasLeaf([c], k) <==> k in c && !c[k].Obj?
      ensures Named([c], k) <==> k in c
      ensures k in c && c[k].Obj? && b[k].Obj? ==>
                (Settled(a[k].fields, b[k].fields, Under([c], k)) <==> NothingBetween(a[k].fields, b[k].fields, c[k].fields))
      ensures k !in c && b[k].Obj? ==> Settled(a[k].fields, b[k].fields, Under([c], k))
      ensures k in c && c[k].Obj? ==> (Covered(a[k].fields, Under([c], k)) <==> Covers(c[k].fields, a[k].fields))
    {
      OneLater(c, k);
      if k in c && c[k].Obj? {
        CoveredByOne(a[k].fields, c[k].fields);
        if b[k].Obj? { SettledByOne(a[k].fields, b[k].fields, c[k].fields); }
      } else if k !in c && b[k].Obj? {
        SettledAlone(a[k].fields, b[k].fields);
      }
    }
  }

  /** Putting the merge of three documents in the place of the middle one and merging again gives the
      same exactly when nothing separates. */
  lemma RemergeIff(a: Doc, b: Doc, c: Doc)
    ensures var m := Merge(Merge(a, b), c); Merge(Merge(a, m), c) == m <==> NothingBetween(a, b, c)
  {
    hide Merge;
    var m := Merge(Merge(a, b), c);
    SettledExactly(a, b, [c]);
    SettledByOne(a, b, c);
    assert Fold(Merge(a, b), [c]) == m && Fold(Merge(a, m), [c]) == Merge(Merge(a, m), c);
    PyEqualReflexive(Obj(m));
  }

  const OBJECT_X: Doc := map["k" := Obj(map["x" := Int(1)])]
  const NUMBER: Doc := map["k" := Int(5)]
  const OBJECT_Y: Doc := map["k" := Obj(map["y" := Int(2)])]

  /** A number between two objects with different keys: it matters how the merges are grouped, and the
      result put in the place of the number is merged into something else. */
  lemma NumberSeparates()
    ensures Merge(Merge(OBJECT_X, NUMBER), OBJECT_Y) != Merge(OBJECT_X, Merge(NUMBER, OBJECT_Y))
    ensures !Settled(OBJECT_X, NUMBER, [OBJECT_Y])
  {
    var x, y := OBJECT_X["k"].fields, OBJECT_Y["k"].fields;
    assert "x" in x && "x" !in y && !Covers(y, x);
    assert "k" in OBJECT_X && "k" in NUMBER && "k" in OBJECT_Y;
    AssociativeIff(OBJECT_X, NUMBER, OBJECT_Y);
    SettledByOne(OBJECT_X, NUMBER, OBJECT_Y);
  }
}
