/** A diff as an edit script: replaying it on the old document gives the new one,
    and swapping it gives the diff of the opposite direction. */
module DiffReplay {
  import opened Ordering
  import opened Json
  import opened Diff

  // ------------------------------------------------------------------ what an item does

  /** Applies one item at its path. Strict: the place must exist, an added key or slot
      must be free, and the recorded old value must be the one found there. */
  function ApplyAt(v: Json, path: Path, item: Item): Option<Json>
    decreases |path|
  {
    if path == [] then
      if item.Replace? && item.oldValue == v then Some(item.newValue) else None
    else if |path| == 1 && item.Add? then Insert(v, path[0], item.newValue)
    else if |path| == 1 && item.Remove? then Delete(v, path[0], item.oldValue)
    else
      match path[0]
      case Key(k) =>
        if !(v.Obj? && k in v.fields) then None
        else
          var w := ApplyAt(v.fields[k], path[1..], item);
          if w.None? then None else Some(Obj(v.fields[k := w.value]))
      case Index(i) =>
        if !(v.Arr? && i < |v.elems|) then None
        else
          var w := ApplyAt(v.elems[i], path[1..], item);
          if w.None? then None else Some(Arr(v.elems[i := w.value]))
  }

  function Insert(v: Json, step: Step, x: Json): Option<Json> {
    match step
    case Key(k) => if v.Obj? && k !in v.fields then Some(Obj(v.fields[k := x])) else None
    case Index(i) => if v.Arr? && i <= |v.elems| then Some(Arr(v.elems[..i] + [x] + v.elems[i..])) else None
  }

  function Delete(v: Json, step: Step, x: Json): Option<Json> {
    match step
    case Key(k) => if v.Obj? && k in v.fields && v.fields[k] == x then Some(Obj(v.fields - {k})) else None
    case Index(i) =>
      if v.Arr? && i < |v.elems| && v.elems[i] == x then Some(Arr(v.elems[..i] + v.elems[i + 1..])) else None
  }

  function ApplyAll(v: Json, items: seq<Item>): Option<Json>
    decreases |items|
  {
    if items == [] then Some(v)
    else
      var w := ApplyAt(v, items[0].path, items[0]);
      if w.None? then None else ApplyAll(w.value, items[1..])
  }

  function Edits(items: seq<Item>): seq<Item> {
    if items == [] then []
    else (if items[0].Remove? then [] else [items[0]]) + Edits(items[1..])
  }

  /** The removals, last one first, so that every index still means what it meant in the old list. */
  function Removals(items: seq<Item>): seq<Item> {
    if items == [] then []
    else Removals(items[1..]) + (if items[0].Remove? then [items[0]] else [])
  }

  /** Replays a diff: additions and replacements in order, then the removals backwards. */
  function Replay(v: Json, items: seq<Item>): Option<Json> {
    ApplyAll(v, Edits(items) + Removals(items))
  }

  function Swapped(item: Item): Item {
    match item
    case Add(p, x) => Remove(p, x)
    case Remove(p, x) => Add(p, x)
    case Replace(p, x, y) => Replace(p, y, x)
  }

  function Inverse(items: seq<Item>): (r: seq<Item>)
    ensures |r| == |items|
    ensures forall i :: 0 <= i < |r| ==> r[i] == Swapped(items[i])
  {
    seq(|items|, i requires 0 <= i < |items| => Swapped(items[i]))
  }

  // ------------------------------------------------------------------ scripts compose

  lemma {:induction false} ApplyAllConcat(v: Json, x: seq<Item>, y: seq<Item>)
    ensures ApplyAll(v, x + y) == (var w := ApplyAll(v, x); if w.None? then None else ApplyAll(w.value, y))
    decreases |x|
  {
    if x == [] {
      assert x + y == y;
    } else {
      assert (x + y)[0] == x[0] && (x + y)[1..] == x[1..] + y;
      var w := ApplyAt(v, x[0].path, x[0]);
      if w.Some? { ApplyAllConcat(w.value, x[1..], y); }
    }
  }

  lemma {:induction false} EditsConcat(x: seq<Item>, y: seq<Item>)
    ensures Edits(x + y) == Edits(x) + Edits(y)
  {
    if x == [] {
      assert x + y == y;
    } else {
      assert (x + y)[0] == x[0] && (x + y)[1..] == x[1..] + y;
      EditsConcat(x[1..], y);
    }
  }

  lemma {:induction false} RemovalsConcat(x: seq<Item>, y: seq<Item>)
    ensures Removals(x + y) == Removals(y) + Removals(x)
  {
    if x == [] {
      assert x + y == y;
    } else {
      assert (x + y)[0] == x[0] && (x + y)[1..] == x[1..] + y;
      RemovalsConcat(x[1..], y);
    }
  }

  ghost function Flat(parts: seq<seq<Item>>): seq<Item> {
    if parts == [] then [] else Flat(parts[..|parts| - 1]) + parts[|parts| - 1]
  }

  /** Edits step by step, each part taking one state to the next. */
  lemma {:induction false} EditsChain(parts: seq<seq<Item>>, states: seq<Json>)
    requires |states| == |parts| + 1
    requires forall i :: 0 <= i < |parts| ==> ApplyAll(states[i], Edits(parts[i])) == Some(states[i + 1])
    ensures ApplyAll(states[0], Edits(Flat(parts))) == Some(states[|parts|])
  {
    if parts != [] {
      var n := |parts| - 1;
      EditsChain(parts[..n], states[..n + 1]);
      EditsConcat(Flat(parts[..n]), parts[n]);
      ApplyAllConcat(states[0], Edits(Flat(parts[..n])), Edits(parts[n]));
    }
  }

  /** Removals step by step, from the last part back. */
  lemma {:induction false} RemovalsChain(parts: seq<seq<Item>>, states: seq<Json>)
    requires |states| == |parts| + 1
    requires forall i :: 0 <= i < |parts| ==> ApplyAll(states[i + 1], Removals(parts[i])) == Some(states[i])
    ensures ApplyAll(states[|parts|], Removals(Flat(parts))) == Some(states[0])
  {
    if parts != [] {
      var n := |parts| - 1;
      RemovalsChain(parts[..n], states[..n + 1]);
      RemovalsConcat(Flat(parts[..n]), parts[n]);
      ApplyAllConcat(states[n + 1], Removals(parts[n]), Removals(Flat(parts[..n])));
    }
  }

  lemma {:induction false} EditsUnder(step: Step, x: seq<Item>)
    ensures Edits(Under(step, x)) == Under(step, Edits(x))
  {
    if x != [] {
      var u := Under(step, x);
      assert u[0] == Below(step, x[0]) && u[1..] == Under(step, x[1..]);
      EditsUnder(step, x[1..]);
    }
  }

  lemma {:induction false} RemovalsUnder(step: Step, x: seq<Item>)
    ensures Removals(Under(step, x)) == Under(step, Removals(x))
  {
    if x != [] {
      var u := Under(step, x);
      assert u[0] == Below(step, x[0]) && u[1..] == Under(step, x[1..]);
      RemovalsUnder(step, x[1..]);
    }
  }

  /** Only a replacement may sit at the very place it compares. */
  ghost predicate Proper(items: seq<Item>) {
    forall i :: 0 <= i < |items| && items[i].path == [] ==> items[i].Replace?
  }

  /** How an item acts does not depend on the part of its path already walked. */
  lemma {:induction false} ApplyAtPath(v: Json, path: Path, x: Item, y: Item)
    requires x == y.(path := x.path)
    ensures ApplyAt(v, path, x) == ApplyAt(v, path, y)
    decreases |path|
  {
    if path != [] && !(|path| == 1 && !x.Replace?) {
      match path[0]
      case Key(k) => if v.Obj? && k in v.fields { ApplyAtPath(v.fields[k], path[1..], x, y); }
      case Index(i) => if v.Arr? && i < |v.elems| { ApplyAtPath(v.elems[i], path[1..], x, y); }
    }
  }

  /** A child's script, prefixed with the child's key, edits exactly that child. */
  lemma {:induction false} ApplyUnderKey(m: Doc, k: string, items: seq<Item>)
    requires k in m && Proper(items)
    requires ApplyAll(m[k], items).Some?
    ensures ApplyAll(Obj(m), Under(Key(k), items)) == Some(Obj(m[k := ApplyAll(m[k], items).value]))
    decreases |items|
  {
    if items == [] {
      assert m[k := m[k]] == m;
    } else {
      var w := ApplyAt(m[k], items[0].path, items[0]).value;
      var u := Under(Key(k), items);
      assert ApplyAt(Obj(m), u[0].path, u[0]) == Some(Obj(m[k := w])) by {
        assert u[0].path[1..] == items[0].path;
        ApplyAtPath(m[k], items[0].path, u[0], items[0]);
      }
      assert u[0].path[1..] == items[0].path && u[1..] == Under(Key(k), items[1..]);
      ApplyUnderKey(m[k := w], k, items[1..]);
      assert m[k := w][k := ApplyAll(w, items[1..]).value] == m[k := ApplyAll(w, items[1..]).value];
    }
  }

  lemma {:induction false} ApplyUnderIndex(s: seq<Json>, j: nat, items: seq<Item>)
    requires j < |s| && Proper(items)
    requires ApplyAll(s[j], items).Some?
    ensures ApplyAll(Arr(s), Under(Index(j), items)) == Some(Arr(s[j := ApplyAll(s[j], items).value]))
    decreases |items|
  {
    if items == [] {
      assert s[j := s[j]] == s;
    } else {
      var w := ApplyAt(s[j], items[0].path, items[0]).value;
      var u := Under(Index(j), items);
      assert ApplyAt(Arr(s), u[0].path, u[0]) == Some(Arr(s[j := w])) by {
        assert u[0].path[1..] == items[0].path;
        ApplyAtPath(s[j], items[0].path, u[0], items[0]);
      }
      assert u[0].path[1..] == items[0].path && u[1..] == Under(Index(j), items[1..]);
      ApplyUnderIndex(s[j := w], j, items[1..]);
      assert s[j := w][j := ApplyAll(w, items[1..]).value] == s[j := ApplyAll(w, items[1..]).value];
    }
  }

  lemma {:induction false} WalkedProper(a: Json, b: Json)
    ensures Proper(Walked(a, b))
    ensures Proper(Edits(Walked(a, b))) && Proper(Removals(Walked(a, b)))
  {
    if SameType(a, b) && a.Obj? {
      var keys := AllKeys(a, b);
      FieldsProper(a, b, keys, |keys|);
      assert Walked(a, b) == WalkedFields(a, b, keys, |keys|);
    } else if SameType(a, b) && a.Arr? {
      ElemsProper(a, b, Max(|a.elems|, |b.elems|));
      assert Walked(a, b) == WalkedElems(a, b, Max(|a.elems|, |b.elems|));
    }
    SplitProper(Walked(a, b));
  }

  lemma {:induction false} FieldsProper(a: Json, b: Json, keys: seq<string>, n: nat)
    requires a.Obj? && b.Obj? && n <= |keys|
    requires forall k :: k in keys ==> k in a.fields || k in b.fields
    ensures forall i :: 0 <= i < |WalkedFields(a, b, keys, n)| ==> WalkedFields(a, b, keys, n)[i].path != []
  {
    if n > 0 { FieldsProper(a, b, keys, n - 1); }
  }

  lemma {:induction false} ElemsProper(a: Json, b: Json, n: nat)
    requires a.Arr? && b.Arr? && n <= Max(|a.elems|, |b.elems|)
    ensures forall i :: 0 <= i < |WalkedElems(a, b, n)| ==> WalkedElems(a, b, n)[i].path != []
  {
    if n > 0 { ElemsProper(a, b, n - 1); }
  }

  lemma {:induction false} SplitProper(items: seq<Item>)
    requires Proper(items)
    ensures Proper(Edits(items)) && Proper(Removals(items))
  {
    if items != [] {
      assert Proper(items[1..]);
      assert Proper([items[0]]);
      SplitProper(items[1..]);
    }
  }

  // ------------------------------------------------------------------ the round trip

  /** The document between the two halves of a replay: everything edited, nothing removed yet. */
  ghost function Edited(a: Json, b: Json): Json
    decreases a, 1, 0
  {
    if !SameType(a, b) then b
    else if a.Obj? then Obj(EditedFields(a, b, a.fields.Keys + b.fields.Keys))
    else if a.Arr? then Arr(EditedElems(a, b, Max(|a.elems|, |b.elems|)))
    else b
  }

  /** The object once the keys in `done` have been edited. */
  ghost function EditedFields(a: Json, b: Json, done: set<string>): (r: Doc)
    requires a.Obj? && b.Obj?
    ensures r.Keys == a.fields.Keys + (done * b.fields.Keys)
    ensures forall k :: k in r ==> r[k] == EditedField(a, b, done, k)
    decreases a, 0, 1
  {
    map k | k in a.fields.Keys + (done * b.fields.Keys) :: EditedField(a, b, done, k)
  }

  ghost function EditedField(a: Json, b: Json, done: set<string>, k: string): Json
    requires a.Obj? && b.Obj? && k in a.fields.Keys + (done * b.fields.Keys)
    decreases a, 0, 0
  {
    if k in done && k in b.fields then
      if k in a.fields then Edited(a.fields[k], b.fields[k]) else b.fields[k]
    else a.fields[k]
  }

  /** The first `n` slots of the edited list. */
  ghost function EditedElems(a: Json, b: Json, n: nat): (r: seq<Json>)
    requires a.Arr? && b.Arr? && n <= Max(|a.elems|, |b.elems|)
    ensures |r| == n
    ensures forall i :: 0 <= i < n ==> r[i] == EditedElem(a, b, i)
    decreases a, 0, 1
  {
    seq(n, i requires 0 <= i < n => EditedElem(a, b, i))
  }

  ghost function EditedElem(a: Json, b: Json, i: nat): Json
    requires a.Arr? && b.Arr? && i < Max(|a.elems|, |b.elems|)
    decreases a, 0, 0
  {
    if i >= |a.elems| then b.elems[i]
    else if i >= |b.elems| then a.elems[i]
    else Edited(a.elems[i], b.elems[i])
  }

  lemma {:induction false} EditsReach(a: Json, b: Json)
    ensures ApplyAll(a, Edits(Walked(a, b))) == Some(Edited(a, b))
    decreases a, 1, 0
  {
    if SameType(a, b) && a.Obj? {
      DictEditsReach(a, b, AllKeys(a, b));
    } else if SameType(a, b) && a.Arr? {
      ListEditsReach(a, b, Max(|a.elems|, |b.elems|));
    }
  }

  ghost function FieldParts(a: Json, b: Json, keys: seq<string>): seq<seq<Item>>
    requires a.Obj? && b.Obj?
    requires forall k :: k in keys ==> k in a.fields || k in b.fields
  {
    seq(|keys|, i requires 0 <= i < |keys| => WalkedField(a, b, keys[i]))
  }

  lemma {:induction false} FieldPartsFlat(a: Json, b: Json, keys: seq<string>, n: nat)
    requires a.Obj? && b.Obj? && n <= |keys|
    requires forall k :: k in keys ==> k in a.fields || k in b.fields
    ensures Flat(FieldParts(a, b, keys)[..n]) == WalkedFields(a, b, keys, n)
  {
    if n > 0 {
      FieldPartsFlat(a, b, keys, n - 1);
      assert FieldParts(a, b, keys)[..n][..n - 1] == FieldParts(a, b, keys)[..n - 1];
    }
  }

  ghost function ElemParts(a: Json, b: Json, n: nat): seq<seq<Item>>
    requires a.Arr? && b.Arr? && n <= Max(|a.elems|, |b.elems|)
  {
    seq(n, i requires 0 <= i < n => WalkedElem(a, b, i))
  }

  lemma {:induction false} ElemPartsFlat(a: Json, b: Json, n: nat)
    requires a.Arr? && b.Arr? && n <= Max(|a.elems|, |b.elems|)
    ensures Flat(ElemParts(a, b, n)) == WalkedElems(a, b, n)
  {
    if n > 0 {
      ElemPartsFlat(a, b, n - 1);
      assert ElemParts(a, b, n)[..n - 1] == ElemParts(a, b, n - 1);
    }
  }

  lemma {:induction false} DictEditsReach(a: Json, b: Json, keys: seq<string>)
    requires a.Obj? && b.Obj? && Distinct(keys)
    requires forall k :: k in keys <==> k in a.fields || k in b.fields
    ensures ApplyAll(a, Edits(WalkedFields(a, b, keys, |keys|))) == Some(Edited(a, b))
    decreases a, 0, 1
  {
    hide ApplyAll, Edits, WalkedFields, EditedFields, Flat;
    var n := |keys|;
    var parts := FieldParts(a, b, keys);
    var states := seq(n + 1, i requires 0 <= i <= n => Obj(EditedFields(a, b, Elems(keys[..i]))));
    forall i | 0 <= i < n ensures ApplyAll(states[i], Edits(parts[i])) == Some(states[i + 1]) {
      FieldEditAt(a, b, keys, i + 1);
    }
    EditsChain(parts, states);
    FieldPartsFlat(a, b, keys, n);
    assert parts[..n] == parts && keys[..n] == keys;
    NoFieldEdited(a, b, keys);
    assert Elems(keys) == a.fields.Keys + b.fields.Keys;
  }

  lemma {:induction false} ListEditsReach(a: Json, b: Json, n: nat)
    requires a.Arr? && b.Arr? && n == Max(|a.elems|, |b.elems|)
    ensures ApplyAll(a, Edits(WalkedElems(a, b, n))) == Some(Edited(a, b))
    decreases a, 0, 1
  {
    hide ApplyAll, Edits, WalkedElem, WalkedElems, EditedPrefix, EditedElems, Edited, Flat;
    var parts := ElemParts(a, b, n);
    var states := seq(n + 1, i requires 0 <= i <= n => Arr(EditedPrefix(a, b, i)));
    forall i | 0 <= i < n ensures ApplyAll(states[i], Edits(parts[i])) == Some(states[i + 1]) {
      ElemEdit(a, b, i);
    }
    EditsChain(parts, states);
    ElemPartsFlat(a, b, n);
    ListEnds(a, b, n);
    assert states[0] == a && states[n] == Edited(a, b);
  }

  lemma NoFieldEdited(a: Json, b: Json, keys: seq<string>)
    requires a.Obj? && b.Obj?
    ensures EditedFields(a, b, Elems(keys[..0])) == a.fields
  {
    assert Elems(keys[..0]) == {};
  }

  lemma {:induction false} FieldEditAt(a: Json, b: Json, keys: seq<string>, n: nat)
    requires a.Obj? && b.Obj? && 0 < n <= |keys| && Distinct(keys)
    requires keys[n - 1] in a.fields || keys[n - 1] in b.fields
    ensures ApplyAll(Obj(EditedFields(a, b, Elems(keys[..n - 1]))), Edits(WalkedField(a, b, keys[n - 1])))
         == Some(Obj(EditedFields(a, b, Elems(keys[..n]))))
    decreases a, 0, 0, 1
  {
    ElemsFromFront(keys, n - 1);
    FieldEdit(a, b, EditedFields(a, b, Elems(keys[..n - 1])), Elems(keys[..n - 1]), keys[n - 1]);
  }

  lemma EditedFieldsNext(a: Json, b: Json, before: set<string>, k: string)
    requires a.Obj? && b.Obj? && (k in a.fields || k in b.fields) && k !in before
    ensures var m, after := EditedFields(a, b, before), EditedFields(a, b, before + {k});
            && (k !in a.fields ==> k !in m && m[k := b.fields[k]] == after)
            && (k in a.fields ==> k in m && m[k] == a.fields[k])
            && (k !in b.fields ==> m == after)
            && (k in a.fields && k in b.fields ==> m[k := Edited(a.fields[k], b.fields[k])] == after)
  {
    var m, after := EditedFields(a, b, before), EditedFields(a, b, before + {k});
    assert forall x :: x in m && x != k ==> x in after && m[x] == after[x];
  }

  lemma {:induction false} FieldEdit(a: Json, b: Json, m: Doc, before: set<string>, k: string)
    requires a.Obj? && b.Obj? && (k in a.fields || k in b.fields) && k !in before
    requires m == EditedFields(a, b, before)
    ensures ApplyAll(Obj(m), Edits(WalkedField(a, b, k))) == Some(Obj(EditedFields(a, b, before + {k})))
    decreases a, 0, 0, 0
  {
    EditedFieldsNext(a, b, before, k);
    if k in a.fields && k in b.fields { ChildFieldEdit(m, k, a.fields[k], b.fields[k]); }
  }

  lemma {:induction false} ChildFieldEdit(m: Doc, k: string, x: Json, y: Json)
    requires k in m && m[k] == x
    ensures ApplyAll(Obj(m), Edits(Under(Key(k), Walked(x, y)))) == Some(Obj(m[k := Edited(x, y)]))
    decreases x, 2, 0
  {
    EditsReach(x, y);
    EditsUnder(Key(k), Walked(x, y));
    WalkedProper(x, y);
    ApplyUnderKey(m, k, Edits(Walked(x, y)));
  }

  lemma {:induction false} ChildElemEdit(s: seq<Json>, i: nat, x: Json, y: Json)
    requires i < |s| && s[i] == x
    ensures ApplyAll(Arr(s), Edits(Under(Index(i), Walked(x, y)))) == Some(Arr(s[i := Edited(x, y)]))
    decreases x, 2, 0
  {
    EditsReach(x, y);
    EditsUnder(Index(i), Walked(x, y));
    WalkedProper(x, y);
    ApplyUnderIndex(s, i, Edits(Walked(x, y)));
  }

  /** The list once its first `n` slots have been edited. */
  ghost function EditedPrefix(a: Json, b: Json, n: nat): seq<Json>
    requires a.Arr? && b.Arr? && n <= Max(|a.elems|, |b.elems|)
  {
    EditedElems(a, b, n) + (if n <= |a.elems| then a.elems[n..] else [])
  }

  lemma ListEnds(a: Json, b: Json, n: nat)
    requires a.Arr? && b.Arr? && n == Max(|a.elems|, |b.elems|)
    ensures Arr(EditedPrefix(a, b, 0)) == a && Arr(EditedPrefix(a, b, n)) == Edited(a, b)
    ensures Arr(TrimmedElems(a, b, 0)) == b && Arr(TrimmedElems(a, b, n)) == Edited(a, b)
  {
    assert EditedPrefix(a, b, 0) == a.elems && TrimmedElems(a, b, 0) == b.elems;
    assert EditedPrefix(a, b, n) == EditedElems(a, b, n) == TrimmedElems(a, b, n);
  }

  lemma EditedPrefixNext(a: Json, b: Json, i: nat)
    requires a.Arr? && b.Arr? && i < Max(|a.elems|, |b.elems|)
    ensures var s, t := EditedPrefix(a, b, i), EditedPrefix(a, b, i + 1);
            && (i >= |a.elems| ==> i <= |s| && s[..i] + [b.elems[i]] + s[i..] == t)
            && (i < |a.elems| ==> i < |s| && s[i] == a.elems[i])
            && (|b.elems| <= i < |a.elems| ==> s == t)
            && (i < |a.elems| && i < |b.elems| ==> s[i := Edited(a.elems[i], b.elems[i])] == t)
  {
    assert EditedElems(a, b, i + 1) == EditedElems(a, b, i) + [EditedElem(a, b, i)];
  }

  lemma {:induction false} ElemEdit(a: Json, b: Json, i: nat)
    requires a.Arr? && b.Arr? && i < Max(|a.elems|, |b.elems|)
    ensures ApplyAll(Arr(EditedPrefix(a, b, i)), Edits(WalkedElem(a, b, i))) == Some(Arr(EditedPrefix(a, b, i + 1)))
    decreases a, 0, 0
  {
    EditedPrefixNext(a, b, i);
    if i < |a.elems| && i < |b.elems| { ChildElemEdit(EditedPrefix(a, b, i), i, a.elems[i], b.elems[i]); }
  }

  lemma {:induction false} RemovalsReach(a: Json, b: Json)
    ensures ApplyAll(Edited(a, b), Removals(Walked(a, b))) == Some(b)
    decreases a, 1, 0
  {
    if SameType(a, b) && a.Obj? {
      DictRemovalsReach(a, b, AllKeys(a, b));
    } else if SameType(a, b) && a.Arr? {
      ListRemovalsReach(a, b, Max(|a.elems|, |b.elems|));
    }
  }

  lemma {:induction false} DictRemovalsReach(a: Json, b: Json, keys: seq<string>)
    requires a.Obj? && b.Obj? && Distinct(keys)
    requires forall k :: k in keys <==> k in a.fields || k in b.fields
    ensures ApplyAll(Edited(a, b), Removals(WalkedFields(a, b, keys, |keys|))) == Some(b)
    decreases a, 0, 1
  {
    hide ApplyAll, Removals, WalkedFields, TrimmedFields, Flat;
    var n := |keys|;
    var parts := FieldParts(a, b, keys);
    var states := seq(n + 1, i requires 0 <= i <= n => Obj(TrimmedFields(a, b, Elems(keys[i..]))));
    forall i | 0 <= i < n ensures ApplyAll(states[i + 1], Removals(parts[i])) == Some(states[i]) {
      FieldRemovalAt(a, b, keys, i + 1);
    }
    RemovalsChain(parts, states);
    FieldPartsFlat(a, b, keys, n);
    assert parts[..n] == parts;
    AllTrimmed(a, b, keys);
    NoneTrimmed(a, b, keys);
  }

  lemma {:induction false} ListRemovalsReach(a: Json, b: Json, n: nat)
    requires a.Arr? && b.Arr? && n == Max(|a.elems|, |b.elems|)
    ensures ApplyAll(Edited(a, b), Removals(WalkedElems(a, b, n))) == Some(b)
    decreases a, 0, 1
  {
    hide ApplyAll, Removals, WalkedElem, WalkedElems, TrimmedElems, EditedElems, Edited, Flat;
    var parts := ElemParts(a, b, n);
    var states := seq(n + 1, i requires 0 <= i <= n => Arr(TrimmedElems(a, b, i)));
    forall i | 0 <= i < n ensures ApplyAll(states[i + 1], Removals(parts[i])) == Some(states[i]) {
      ElemRemoval(a, b, i);
    }
    RemovalsChain(parts, states);
    ElemPartsFlat(a, b, n);
    ListEnds(a, b, n);
    assert states[0] == b && states[n] == Edited(a, b);
  }

  lemma {:induction false} ChildFieldRemoval(m: Doc, k: string, x: Json, y: Json)
    requires k in m && m[k] == Edited(x, y)
    ensures ApplyAll(Obj(m), Removals(Under(Key(k), Walked(x, y)))) == Some(Obj(m[k := y]))
    decreases x, 2, 0
  {
    RemovalsReach(x, y);
    RemovalsUnder(Key(k), Walked(x, y));
    WalkedProper(x, y);
    ApplyUnderKey(m, k, Removals(Walked(x, y)));
  }

  lemma {:induction false} ChildElemRemoval(s: seq<Json>, i: nat, x: Json, y: Json)
    requires i < |s| && s[i] == Edited(x, y)
    ensures ApplyAll(Arr(s), Removals(Under(Index(i), Walked(x, y)))) == Some(Arr(s[i := y]))
    decreases x, 2, 0
  {
    RemovalsReach(x, y);
    RemovalsUnder(Index(i), Walked(x, y));
    WalkedProper(x, y);
    ApplyUnderIndex(s, i, Removals(Walked(x, y)));
  }

  /** The edited object once the keys in `done` have also lost what the new one lacks. */
  ghost function TrimmedFields(a: Json, b: Json, done: set<string>): (r: Doc)
    requires a.Obj? && b.Obj?
    ensures r.Keys == (a.fields.Keys - (done - b.fields.Keys)) + b.fields.Keys
    ensures forall k :: k in r ==>
              r[k] == if k in done then b.fields[k] else EditedField(a, b, a.fields.Keys + b.fields.Keys, k)
  {
    map k | k in (a.fields.Keys - (done - b.fields.Keys)) + b.fields.Keys ::
      if k in done then b.fields[k] else EditedField(a, b, a.fields.Keys + b.fields.Keys, k)
  }

  lemma AllTrimmed(a: Json, b: Json, keys: seq<string>)
    requires a.Obj? && b.Obj?
    requires forall k :: k in keys <==> k in a.fields || k in b.fields
    ensures TrimmedFields(a, b, Elems(keys[0..])) == b.fields
  {}

  lemma NoneTrimmed(a: Json, b: Json, keys: seq<string>)
    requires a.Obj? && b.Obj?
    ensures Obj(TrimmedFields(a, b, Elems(keys[|keys|..]))) == Edited(a, b)
  {
    assert TrimmedFields(a, b, Elems(keys[|keys|..])) == EditedFields(a, b, a.fields.Keys + b.fields.Keys);
  }

  lemma {:induction false} FieldRemovalAt(a: Json, b: Json, keys: seq<string>, n: nat)
    requires a.Obj? && b.Obj? && 0 < n <= |keys| && Distinct(keys)
    requires keys[n - 1] in a.fields || keys[n - 1] in b.fields
    ensures ApplyAll(Obj(TrimmedFields(a, b, Elems(keys[n..]))), Removals(WalkedField(a, b, keys[n - 1])))
         == Some(Obj(TrimmedFields(a, b, Elems(keys[n - 1..]))))
    decreases a, 0, 0, 1
  {
    ElemsFromBack(keys, n - 1);
    FieldRemoval(a, b, Elems(keys[n..]), keys[n - 1]);
  }

  lemma TrimmedFieldsNext(a: Json, b: Json, before: set<string>, k: string)
    requires a.Obj? && b.Obj? && (k in a.fields || k in b.fields) && k !in before
    ensures var m, after := TrimmedFields(a, b, before), TrimmedFields(a, b, before + {k});
            && (k !in a.fields ==> m == after)
            && (k !in b.fields ==> k in m && m[k] == a.fields[k] && m - {k} == after)
            && (k in a.fields && k in b.fields ==>
                  k in m && m[k] == Edited(a.fields[k], b.fields[k]) && m[k := b.fields[k]] == after)
  {
    var m, after := TrimmedFields(a, b, before), TrimmedFields(a, b, before + {k});
    assert forall x :: x in m && x != k ==> x in after && m[x] == after[x];
  }

  lemma {:induction false} FieldRemoval(a: Json, b: Json, before: set<string>, k: string)
    requires a.Obj? && b.Obj? && (k in a.fields || k in b.fields) && k !in before
    ensures ApplyAll(Obj(TrimmedFields(a, b, before)), Removals(WalkedField(a, b, k)))
         == Some(Obj(TrimmedFields(a, b, before + {k})))
    decreases a, 0, 0, 0
  {
    var m := TrimmedFields(a, b, before);
    TrimmedFieldsNext(a, b, before, k);
    if k in a.fields && k in b.fields { ChildFieldRemoval(m, k, a.fields[k], b.fields[k]); }
  }

  /** The edited list with its slots from `n` on already trimmed to the new list. */
  ghost function TrimmedElems(a: Json, b: Json, n: nat): seq<Json>
    requires a.Arr? && b.Arr? && n <= Max(|a.elems|, |b.elems|)
  {
    EditedElems(a, b, n) + (if n <= |b.elems| then b.elems[n..] else [])
  }

  lemma TrimmedElemsNext(a: Json, b: Json, i: nat)
    requires a.Arr? && b.Arr? && i < Max(|a.elems|, |b.elems|)
    ensures var s, t := TrimmedElems(a, b, i + 1), TrimmedElems(a, b, i);
            && i < |s|
            && (i >= |a.elems| ==> s == t)
            && (i >= |b.elems| ==> s[i] == a.elems[i] && s[..i] + s[i + 1..] == t)
            && (i < |a.elems| && i < |b.elems| ==>
                  s[i] == Edited(a.elems[i], b.elems[i]) && s[i := b.elems[i]] == t)
  {
    assert EditedElems(a, b, i + 1) == EditedElems(a, b, i) + [EditedElem(a, b, i)];
  }

  lemma {:induction false} ElemRemoval(a: Json, b: Json, i: nat)
    requires a.Arr? && b.Arr? && i < Max(|a.elems|, |b.elems|)
    ensures ApplyAll(Arr(TrimmedElems(a, b, i + 1)), Removals(WalkedElem(a, b, i))) == Some(Arr(TrimmedElems(a, b, i)))
    decreases a, 0, 0
  {
    TrimmedElemsNext(a, b, i);
    if i < |a.elems| && i < |b.elems| { ChildElemRemoval(TrimmedElems(a, b, i + 1), i, a.elems[i], b.elems[i]); }
  }

  /** Replaying a diff on the old document gives exactly the new one. */
  lemma ReplayReachesNew(a: Json, b: Json)
    ensures Replay(a, Walked(a, b)) == Some(b)
  {
    EditsReach(a, b);
    RemovalsReach(a, b);
    ApplyAllConcat(a, Edits(Walked(a, b)), Removals(Walked(a, b)));
  }

  // ------------------------------------------------------------------ inversion

  lemma ObjectsWalk(a: Json, b: Json)
    requires a.Obj? && b.Obj?
    ensures AllKeys(b, a) == AllKeys(a, b) && Walked(a, b) == WalkedFields(a, b, AllKeys(a, b), |AllKeys(a, b)|)
  {
    assert a.fields.Keys + b.fields.Keys == b.fields.Keys + a.fields.Keys;
  }

  lemma ArraysWalk(a: Json, b: Json)
    requires a.Arr? && b.Arr?
    ensures Walked(a, b) == WalkedElems(a, b, Max(|a.elems|, |b.elems|))
  {
  }

  lemma LeafInverts(a: Json, b: Json)
    requires !(a.Obj? && b.Obj?) && !(a.Arr? && b.Arr?)
    ensures Walked(b, a) == Inverse(Walked(a, b))
  {
  }

  /** The diff the other way round is the same list with every item swapped. */
  lemma {:induction false} DiffInverts(a: Json, b: Json)
    ensures Walked(b, a) == Inverse(Walked(a, b))
    decreases a, 1, 0
  {
    hide Walked, Inverse, WalkedFields, WalkedElems, AllKeys;
    if a.Obj? && b.Obj? {
      ObjectsWalk(a, b);
      ObjectsWalk(b, a);
      FieldsInvert(a, b, AllKeys(a, b), |AllKeys(a, b)|);
    } else if a.Arr? && b.Arr? {
      ArraysWalk(a, b);
      ArraysWalk(b, a);
      ElemsInvert(a, b, Max(|a.elems|, |b.elems|));
    } else {
      LeafInverts(a, b);
    }
  }

  lemma InverseConcat(x: seq<Item>, y: seq<Item>)
    ensures Inverse(x + y) == Inverse(x) + Inverse(y)
  {
  }

  lemma {:induction false} FieldsInvert(a: Json, b: Json, keys: seq<string>, n: nat)
    requires a.Obj? && b.Obj? && n <= |keys|
    requires forall k :: k in keys ==> k in a.fields || k in b.fields
    ensures WalkedFields(b, a, keys, n) == Inverse(WalkedFields(a, b, keys, n))
    decreases a, 0, n
  {
    hide WalkedField, Inverse;
    if n > 0 {
      FieldsInvert(a, b, keys, n - 1);
      FieldInverts(a, b, keys[n - 1]);
      InverseConcat(WalkedFields(a, b, keys, n - 1), WalkedField(a, b, keys[n - 1]));
    }
  }

  lemma {:induction false} FieldInverts(a: Json, b: Json, k: string)
    requires a.Obj? && b.Obj? && (k in a.fields || k in b.fields)
    ensures WalkedField(b, a, k) == Inverse(WalkedField(a, b, k))
    decreases a, 0, 0
  {
    if k in a.fields && k in b.fields {
      DiffInverts(a.fields[k], b.fields[k]);
    }
  }

  lemma {:induction false} ElemsInvert(a: Json, b: Json, n: nat)
    requires a.Arr? && b.Arr? && n <= Max(|a.elems|, |b.elems|)
    ensures WalkedElems(b, a, n) == Inverse(WalkedElems(a, b, n))
    decreases a, 0, n
  {
    hide WalkedElem, Inverse;
    if n > 0 {
      ElemsInvert(a, b, n - 1);
      ElemInverts(a, b, n - 1);
      InverseConcat(WalkedElems(a, b, n - 1), WalkedElem(a, b, n - 1));
    }
  }

  lemma {:induction false} ElemInverts(a: Json, b: Json, i: nat)
    requires a.Arr? && b.Arr? && i < Max(|a.elems|, |b.elems|)
    ensures WalkedElem(b, a, i) == Inverse(WalkedElem(a, b, i))
    decreases a, 0, 0
  {
    if i < |a.elems| && i < |b.elems| {
      DiffInverts(a.elems[i], b.elems[i]);
    }
  }

  /** Undoing: replaying the swapped diff on the new document gives back the old one. */
  lemma ReplayInverseReachesOld(a: Json, b: Json)
    ensures Replay(b, Inverse(Walked(a, b))) == Some(a)
  {
    DiffInverts(a, b);
    ReplayReachesNew(b, a);
  }

  // ------------------------------------------------------------------ emptiness

  lemma {:induction false} SameIsEmpty(a: Json)
    ensures Walked(a, a) == []
    decreases a, 1, 0
  {
    if a.Obj? {
      var keys := AllKeys(a, a);
      SameFieldsEmpty(a, keys, |keys|);
    } else if a.Arr? {
      SameElemsEmpty(a, |a.elems|);
    }
  }

  lemma {:induction false} SameFieldsEmpty(a: Json, keys: seq<string>, n: nat)
    requires a.Obj? && n <= |keys| && forall k :: k in keys ==> k in a.fields
    ensures WalkedFields(a, a, keys, n) == []
    decreases a, 0, n
  {
    if n > 0 {
      SameFieldsEmpty(a, keys, n - 1);
      SameIsEmpty(a.fields[keys[n - 1]]);
    }
  }

  lemma {:induction false} SameElemsEmpty(a: Json, n: nat)
    requires a.Arr? && n <= |a.elems|
    ensures WalkedElems(a, a, n) == []
    decreases a, 0, n
  {
    if n > 0 {
      SameElemsEmpty(a, n - 1);
      SameIsEmpty(a.elems[n - 1]);
    }
  }

  /** No items exactly when nothing differs, types included. */
  lemma EmptyIffEqual(a: Json, b: Json)
    ensures Walked(a, b) == [] <==> a == b
  {
    SameIsEmpty(a);
    ReplayReachesNew(a, b);
  }

  // ------------------------------------------------------------------ independence

  ghost predicate Independent(items: seq<Item>) {
    forall i, j :: 0 <= i < |items| && 0 <= j < |items| && i != j ==> !(items[i].path <= items[j].path)
  }

  /** Every item lies strictly below the step, so below the compared value. */
  ghost predicate AllStartWith(items: seq<Item>, step: Step) {
    forall i :: 0 <= i < |items| ==> items[i].path != [] && items[i].path[0] == step
  }

  lemma IndependentUnder(step: Step, items: seq<Item>)
    requires Independent(items)
    ensures Independent(Under(step, items)) && AllStartWith(Under(step, items), step)
  {
    var u := Under(step, items);
    forall i, j | 0 <= i < |u| && 0 <= j < |u| && i != j ensures !(u[i].path <= u[j].path) {
      assert u[i].path[1..] == items[i].path && u[j].path[1..] == items[j].path;
    }
  }

  /** No item's path is a prefix of another's: the items talk about disjoint places. */
  lemma {:induction false} DiffIndependent(a: Json, b: Json)
    ensures Independent(Walked(a, b))
    decreases a, 1, 0
  {
    if SameType(a, b) && a.Obj? {
      var keys := AllKeys(a, b);
      FieldsIndependent(a, b, keys, |keys|);
    } else if SameType(a, b) && a.Arr? {
      ElemsIndependent(a, b, Max(|a.elems|, |b.elems|));
    }
  }

  lemma IndependentAppend(x: seq<Item>, y: seq<Item>, step: Step)
    requires Independent(x) && Independent(y) && AllStartWith(y, step)
    requires forall i :: 0 <= i < |x| ==> x[i].path != [] && x[i].path[0] != step
    ensures Independent(x + y)
  {
    var z := x + y;
    forall i, j | 0 <= i < |z| && 0 <= j < |z| && i != j ensures !(z[i].path <= z[j].path) {
      if i < |x| && j >= |x| {
        assert z[i].path[0] != z[j].path[0];
      } else if i >= |x| && j < |x| {
        assert z[i].path[0] != z[j].path[0];
      } else if i >= |x| {
        assert z[i] == y[i - |x|] && z[j] == y[j - |x|];
      }
    }
  }

  ghost predicate KeysAmong(items: seq<Item>, keys: seq<string>) {
    forall i :: 0 <= i < |items| ==>
      items[i].path != [] && items[i].path[0].Key? && items[i].path[0].k in keys
  }

  lemma KeysNext(x: seq<Item>, y: seq<Item>, keys: seq<string>, k: string)
    requires Independent(x) && KeysAmong(x, keys) && k !in keys
    requires Independent(y) && AllStartWith(y, Key(k))
    ensures Independent(x + y) && KeysAmong(x + y, keys + [k])
  {
    IndependentAppend(x, y, Key(k));
  }

  lemma {:induction false} FieldsIndependent(a: Json, b: Json, keys: seq<string>, n: nat)
    requires a.Obj? && b.Obj? && n <= |keys| && Distinct(keys)
    requires forall k :: k in keys ==> k in a.fields || k in b.fields
    ensures var w := WalkedFields(a, b, keys, n); Independent(w) && KeysAmong(w, keys[..n])
    decreases a, 0, n
  {
    hide Independent, KeysAmong, WalkedField, AllStartWith;
    if n > 0 {
      FieldsIndependent(a, b, keys, n - 1);
      FieldIndependent(a, b, keys[n - 1]);
      assert keys[..n] == keys[..n - 1] + [keys[n - 1]];
      KeysNext(WalkedFields(a, b, keys, n - 1), WalkedField(a, b, keys[n - 1]), keys[..n - 1], keys[n - 1]);
    } else {
      NoneIndependent(keys);
    }
  }

  lemma NoneIndependent(keys: seq<string>)
    ensures Independent([]) && KeysAmong([], keys[..0])
  {
  }

  lemma {:induction false} ElemsIndependent(a: Json, b: Json, n: nat)
    requires a.Arr? && b.Arr? && n <= Max(|a.elems|, |b.elems|)
    ensures var w := WalkedElems(a, b, n);
            Independent(w) && IndicesBelow(w, n)
    decreases a, 0, n
  {
    if n > 0 {
      ElemsIndependent(a, b, n - 1);
      ElemIndependent(a, b, n - 1);
      IndependentNext(WalkedElems(a, b, n - 1), WalkedElem(a, b, n - 1), n - 1);
    }
  }

  ghost predicate IndicesBelow(items: seq<Item>, n: nat) {
    forall i :: 0 <= i < |items| ==> items[i].path != [] && items[i].path[0].Index? && items[i].path[0].i < n
  }

  lemma IndependentNext(x: seq<Item>, y: seq<Item>, n: nat)
    requires Independent(x) && IndicesBelow(x, n)
    requires Independent(y) && AllStartWith(y, Index(n))
    ensures Independent(x + y) && IndicesBelow(x + y, n + 1)
  {
    IndependentAppend(x, y, Index(n));
  }

  lemma {:induction false} FieldIndependent(a: Json, b: Json, k: string)
    requires a.Obj? && b.Obj? && (k in a.fields || k in b.fields)
    ensures Independent(WalkedField(a, b, k)) && AllStartWith(WalkedField(a, b, k), Key(k))
    decreases a, 0, 0
  {
    if k in a.fields && k in b.fields {
      DiffIndependent(a.fields[k], b.fields[k]);
      IndependentUnder(Key(k), Walked(a.fields[k], b.fields[k]));
    }
  }

  lemma {:induction false} ElemIndependent(a: Json, b: Json, i: nat)
    requires a.Arr? && b.Arr? && i < Max(|a.elems|, |b.elems|)
    ensures Independent(WalkedElem(a, b, i)) && AllStartWith(WalkedElem(a, b, i), Index(i))
    decreases a, 0, 0
  {
    if i < |a.elems| && i < |b.elems| {
      DiffIndependent(a.elems[i], b.elems[i]);
      IndependentUnder(Index(i), Walked(a.elems[i], b.elems[i]));
    }
  }
}
