/** What a diff says, item by item: which changes it lists and in which order, without reference to
    the walk that finds them. */
module DiffItems {
  import opened Ordering
  import opened Json
  import opened Diff

  // ------------------------------------------------------------------ the changes between two documents

  /** What a document holds at a path, if the path leads anywhere. */
  function At(v: Json, p: Path): Option<Json>
    decreases |p|
  {
    if p == [] then Some(v)
    else
      match p[0]
      case Key(k) => if v.Obj? && k in v.fields then At(v.fields[k], p[1..]) else None
      case Index(i) => if v.Arr? && i < |v.elems| then At(v.elems[i], p[1..]) else None
  }

  /** Two objects, or two lists: what the walk goes into rather than replace. */
  predicate BothContainers(x: Json, y: Json) { (x.Obj? && y.Obj?) || (x.Arr? && y.Arr?) }

  predicate ContainersAt(a: Json, b: Json, p: Path) {
    At(a, p).Some? && At(b, p).Some? && BothContainers(At(a, p).value, At(b, p).value)
  }

  /** An addition is at a place only the new document has, in a container both have; a removal is the
      reverse; a replacement is of values that differ and are not both objects or both lists. */
  predicate Changes(a: Json, b: Json, item: Item) {
    var p := item.path;
    match item
    case Add(_, x) => p != [] && At(a, p).None? && At(b, p) == Some(x) && ContainersAt(a, b, p[..|p| - 1])
    case Remove(_, x) => p != [] && At(a, p) == Some(x) && At(b, p).None? && ContainersAt(a, b, p[..|p| - 1])
    case Replace(_, x, y) => At(a, p) == Some(x) && At(b, p) == Some(y) && x != y && !BothContainers(x, y)
  }

  // ------------------------------------------------------------------ one level

  function Tail(item: Item): Item
    requires item.path != []
  {
    item.(path := item.path[1..])
  }

  lemma InUnder(step: Step, items: seq<Item>, item: Item)
    ensures item in Under(step, items) <==> item.path != [] && item.path[0] == step && Tail(item) in items
  {
    var r := Under(step, items);
    if item.path != [] && item.path[0] == step && Tail(item) in items {
      var i :| 0 <= i < |items| && items[i] == Tail(item);
      assert [step] + item.path[1..] == item.path;
      assert r[i] == item;
    }
    if item in r {
      var i :| 0 <= i < |r| && r[i] == item;
      assert Tail(Below(step, items[i])) == items[i];
    }
  }

  /** The children of `a` and `b` at a step. */
  predicate HasStep(v: Json, step: Step) {
    match step
    case Key(k) => v.Obj? && k in v.fields
    case Index(i) => v.Arr? && i < |v.elems|
  }

  function Child(v: Json, step: Step): Json
    requires HasStep(v, step)
  {
    match step
    case Key(k) => v.fields[k]
    case Index(i) => v.elems[i]
  }

  lemma AtStep(v: Json, p: Path)
    requires p != []
    ensures At(v, p) == if HasStep(v, p[0]) then At(Child(v, p[0]), p[1..]) else None
    ensures |p| > 1 ==> At(v, p[..|p| - 1]) == if HasStep(v, p[0]) then At(Child(v, p[0]), p[1..][..|p| - 2]) else None
    ensures |p| == 1 ==> At(v, p[..|p| - 1]) == Some(v)
  {
    if |p| > 1 {
      var q := p[..|p| - 1];
      assert q[0] == p[0] && q[1..] == p[1..][..|p| - 2];
    }
  }

  /** A change below a step both have is a change of the children; a step only one has is the change. */
  lemma ChangesStep(a: Json, b: Json, item: Item)
    requires item.path != [] && BothContainers(a, b)
    ensures var step := item.path[0];
            Changes(a, b, item) <==>
            if HasStep(a, step) && HasStep(b, step) then Changes(Child(a, step), Child(b, step), Tail(item))
            else if HasStep(b, step) then item == Add([step], Child(b, step))
            else HasStep(a, step) && item == Remove([step], Child(a, step))
  {
    var p, step := item.path, item.path[0];
    AtStep(a, p);
    AtStep(b, p);
    if |p| == 1 { assert p == [step]; }
    assert Tail(item).path == p[1..];
  }

  // ------------------------------------------------------------------ the items are the changes

  lemma {:induction false} InFields(a: Json, b: Json, keys: seq<string>, n: nat, item: Item)
    requires a.Obj? && b.Obj? && n <= |keys| && forall k :: k in keys ==> k in a.fields || k in b.fields
    ensures item in WalkedFields(a, b, keys, n) <==> exists i :: 0 <= i < n && item in WalkedField(a, b, keys[i])
  {
    if n > 0 { InFields(a, b, keys, n - 1, item); }
  }

  lemma {:induction false} InElems(a: Json, b: Json, n: nat, item: Item)
    requires a.Arr? && b.Arr? && n <= Max(|a.elems|, |b.elems|)
    ensures item in WalkedElems(a, b, n) <==> exists i :: 0 <= i < n && item in WalkedElem(a, b, i)
  {
    if n > 0 {
      InElems(a, b, n - 1, item);
      assert WalkedElems(a, b, n) == WalkedElems(a, b, n - 1) + WalkedElem(a, b, n - 1);
      if item in WalkedElem(a, b, n - 1) { assert 0 <= n - 1 < n; }
    }
  }

  /** A diff lists exactly the changes between the two documents. */
  lemma {:induction false} DiffListsTheChanges(a: Json, b: Json, item: Item)
    ensures item in Walked(a, b) <==> Changes(a, b, item)
    decreases a, 1
  {
    if BothContainers(a, b) {
      if item.path == [] {
        NothingAtTheRoot(a, b, item);
      } else if a.Obj? {
        FieldItems(a, b, item);
      } else {
        ElemItems(a, b, item);
      }
    } else if item.path != [] {
      AtStep(a, item.path);
      AtStep(b, item.path);
      NoStepInBoth(a, b, item);
    }
  }

  lemma NoStepInBoth(a: Json, b: Json, item: Item)
    requires !BothContainers(a, b) && item.path != []
    ensures !Changes(a, b, item)
  {
    var p := item.path;
    AtStep(a, p);
    AtStep(b, p);
  }

  lemma InObject(a: Json, b: Json, item: Item)
    requires a.Obj? && b.Obj?
    ensures item in Walked(a, b) <==> exists k :: (k in a.fields || k in b.fields) && item in WalkedField(a, b, k)
  {
    hide WalkedField, WalkedFields;
    var keys := AllKeys(a, b);
    InFields(a, b, keys, |keys|, item);
    assert Walked(a, b) == WalkedFields(a, b, keys, |keys|);
    if k :| (k in a.fields || k in b.fields) && item in WalkedField(a, b, k) {
      var i :| 0 <= i < |keys| && keys[i] == k;
    }
  }

  lemma InList(a: Json, b: Json, item: Item)
    requires a.Arr? && b.Arr?
    ensures item in Walked(a, b) <==> exists i :: 0 <= i < Max(|a.elems|, |b.elems|) && item in WalkedElem(a, b, i)
  {
    hide WalkedElem, WalkedElems;
    InElems(a, b, Max(|a.elems|, |b.elems|), item);
    assert Walked(a, b) == WalkedElems(a, b, Max(|a.elems|, |b.elems|));
  }

  lemma NothingAtTheRoot(a: Json, b: Json, item: Item)
    requires BothContainers(a, b) && item.path == []
    ensures item !in Walked(a, b) && !Changes(a, b, item)
  {
    hide Walked;
    if a.Obj? {
      InObject(a, b, item);
      forall k | k in a.fields || k in b.fields ensures item !in WalkedField(a, b, k) {
        if k in a.fields && k in b.fields { InUnder(Key(k), Walked(a.fields[k], b.fields[k]), item); }
      }
    } else {
      InList(a, b, item);
      forall i | 0 <= i < Max(|a.elems|, |b.elems|) ensures item !in WalkedElem(a, b, i) {
        if i < |a.elems| && i < |b.elems| { InUnder(Index(i), Walked(a.elems[i], b.elems[i]), item); }
      }
    }
  }

  lemma {:induction false} FieldItems(a: Json, b: Json, item: Item)
    requires a.Obj? && b.Obj? && item.path != []
    ensures item in Walked(a, b) <==> Changes(a, b, item)
    decreases a, 0
  {
    hide Walked, Changes;
    ChangesStep(a, b, item);
    InObject(a, b, item);
    forall k | k in a.fields || k in b.fields
      ensures item in WalkedField(a, b, k) <==> item.path[0] == Key(k) && Changes(a, b, item)
    {
      if k in a.fields && k in b.fields {
        InUnder(Key(k), Walked(a.fields[k], b.fields[k]), item);
        DiffListsTheChanges(a.fields[k], b.fields[k], Tail(item));
      }
    }
    if Changes(a, b, item) { assert item in WalkedField(a, b, item.path[0].k); }
  }

  lemma {:induction false} ElemItems(a: Json, b: Json, item: Item)
    requires a.Arr? && b.Arr? && item.path != []
    ensures item in Walked(a, b) <==> Changes(a, b, item)
    decreases a, 0
  {
    hide Walked, Changes;
    ChangesStep(a, b, item);
    InList(a, b, item);
    forall i | 0 <= i < Max(|a.elems|, |b.elems|)
      ensures item in WalkedElem(a, b, i) <==> item.path[0] == Index(i) && Changes(a, b, item)
    {
      if i < |a.elems| && i < |b.elems| {
        InUnder(Index(i), Walked(a.elems[i], b.elems[i]), item);
        DiffListsTheChanges(a.elems[i], b.elems[i], Tail(item));
      }
    }
    if Changes(a, b, item) {
      var i := item.path[0].i;
      assert 0 <= i < Max(|a.elems|, |b.elems|) && item in WalkedElem(a, b, i);
    }
    if item in Walked(a, b) {
      var i :| 0 <= i < Max(|a.elems|, |b.elems|) && item in WalkedElem(a, b, i);
      assert Changes(a, b, item);
    }
  }

  // ------------------------------------------------------------------ in order

  predicate StepBefore(s: Step, t: Step) {
    match (s, t)
    case (Key(k), Key(l)) => Less(k, l)
    case (Index(i), Index(j)) => i < j
    case (Key(_), Index(_)) => true
    case (Index(_), Key(_)) => false
  }

  /** The order of a walk: sorted keys, ascending indices, each child's items together. */
  predicate PathBefore(p: Path, q: Path) {
    if p == [] then q != []
    else q != [] && (StepBefore(p[0], q[0]) || (p[0] == q[0] && PathBefore(p[1..], q[1..])))
  }

  ghost predicate InOrder(items: seq<Item>) {
    forall i, j :: 0 <= i < j < |items| ==> PathBefore(items[i].path, items[j].path)
  }

  ghost predicate StartBelow(items: seq<Item>, step: Step) {
    forall i :: 0 <= i < |items| ==> items[i].path != [] && StepBefore(items[i].path[0], step)
  }

  ghost predicate StartAt(items: seq<Item>, step: Step) {
    forall i :: 0 <= i < |items| ==> items[i].path != [] && items[i].path[0] == step
  }

  lemma OrderUnder(step: Step, items: seq<Item>)
    requires InOrder(items)
    ensures InOrder(Under(step, items)) && StartAt(Under(step, items), step)
  {
    var r := Under(step, items);
    forall i, j | 0 <= i < j < |r| ensures PathBefore(r[i].path, r[j].path) {
      assert r[i].path[1..] == items[i].path && r[j].path[1..] == items[j].path;
    }
  }

  lemma OrderAppend(x: seq<Item>, y: seq<Item>, step: Step)
    requires InOrder(x) && InOrder(y) && StartBelow(x, step) && StartAt(y, step)
    ensures InOrder(x + y)
  {
  }

  lemma {:induction false} DiffInOrder(a: Json, b: Json)
    ensures InOrder(Walked(a, b))
    decreases a, 1, 0
  {
    if SameType(a, b) && a.Obj? {
      var keys := AllKeys(a, b);
      FieldsInOrder(a, b, keys, |keys|);
    } else if SameType(a, b) && a.Arr? {
      ElemsInOrder(a, b, Max(|a.elems|, |b.elems|));
    }
  }

  lemma {:induction false} FieldInOrder(a: Json, b: Json, k: string)
    requires a.Obj? && b.Obj? && (k in a.fields || k in b.fields)
    ensures InOrder(WalkedField(a, b, k)) && StartAt(WalkedField(a, b, k), Key(k))
    decreases a, 0, 0
  {
    if k in a.fields && k in b.fields {
      DiffInOrder(a.fields[k], b.fields[k]);
      OrderUnder(Key(k), Walked(a.fields[k], b.fields[k]));
    }
  }

  lemma {:induction false} ElemInOrder(a: Json, b: Json, i: nat)
    requires a.Arr? && b.Arr? && i < Max(|a.elems|, |b.elems|)
    ensures InOrder(WalkedElem(a, b, i)) && StartAt(WalkedElem(a, b, i), Index(i))
    decreases a, 0, 0
  {
    if i < |a.elems| && i < |b.elems| {
      DiffInOrder(a.elems[i], b.elems[i]);
      OrderUnder(Index(i), Walked(a.elems[i], b.elems[i]));
    }
  }

  /** The items of the first `n` keys come before those of every later key. */
  lemma {:induction false} FieldsInOrder(a: Json, b: Json, keys: seq<string>, n: nat)
    requires a.Obj? && b.Obj? && n <= |keys| && Sorted(keys)
    requires forall k :: k in keys ==> k in a.fields || k in b.fields
    ensures InOrder(WalkedFields(a, b, keys, n))
    ensures forall j :: n <= j < |keys| ==> StartBelow(WalkedFields(a, b, keys, n), Key(keys[j]))
    decreases a, 0, n
  {
    if n > 0 {
      hide InOrder, WalkedField;
      var x, y := WalkedFields(a, b, keys, n - 1), WalkedField(a, b, keys[n - 1]);
      FieldsInOrder(a, b, keys, n - 1);
      FieldInOrder(a, b, keys[n - 1]);
      OrderAppend(x, y, Key(keys[n - 1]));
    } else {
      assert WalkedFields(a, b, keys, 0) == [];
    }
  }

  lemma {:induction false} ElemsInOrder(a: Json, b: Json, n: nat)
    requires a.Arr? && b.Arr? && n <= Max(|a.elems|, |b.elems|)
    ensures InOrder(WalkedElems(a, b, n))
    ensures forall j :: n <= j ==> StartBelow(WalkedElems(a, b, n), Index(j))
    decreases a, 0, n
  {
    if n > 0 {
      hide InOrder, WalkedElem;
      var x, y := WalkedElems(a, b, n - 1), WalkedElem(a, b, n - 1);
      ElemsInOrder(a, b, n - 1);
      ElemInOrder(a, b, n - 1);
      OrderAppend(x, y, Index(n - 1));
    } else {
      assert WalkedElems(a, b, 0) == [];
    }
  }

  // ------------------------------------------------------------------ so there is one diff

  lemma {:induction false} BeforeIsOneWay(p: Path, q: Path)
    requires PathBefore(p, q)
    ensures !PathBefore(q, p) && p != q
  {
    if p != [] {
      if p[0] == q[0] && PathBefore(p[1..], q[1..]) { BeforeIsOneWay(p[1..], q[1..]); }
      StepIsOneWay(p[0], q[0]);
    }
  }

  lemma StepIsOneWay(s: Step, t: Step)
    ensures StepBefore(s, t) ==> !StepBefore(t, s) && s != t
  {
    if s.Key? && t.Key? && StepBefore(s, t) { LessAsymmetric(s.k, t.k); }
  }

  lemma SameFirst(x: seq<Item>, y: seq<Item>)
    requires InOrder(x) && InOrder(y) && x != [] && (forall item :: item in x <==> item in y)
    ensures y != [] && x[0] == y[0]
  {
    assert x[0] in y;
    assert y[0] in x;
    var i :| 0 <= i < |y| && y[i] == x[0];
    var j :| 0 <= j < |x| && x[j] == y[0];
    if i > 0 && j > 0 { BeforeIsOneWay(x[0].path, x[j].path); }
  }

  lemma FirstOnce(x: seq<Item>, item: Item)
    requires InOrder(x) && x != []
    ensures item in x[1..] <==> item in x && item != x[0]
  {
    assert x == [x[0]] + x[1..];
    if item in x[1..] {
      var i :| 0 <= i < |x[1..]| && x[1..][i] == item;
      BeforeIsOneWay(x[0].path, x[i + 1].path);
    }
  }

  lemma FirstIn(x: seq<Item>)
    ensures x != [] ==> x[0] in x
  {
  }

  lemma {:induction false} SameItems(x: seq<Item>, y: seq<Item>)
    requires InOrder(x) && InOrder(y) && (forall item :: item in x <==> item in y)
    ensures x == y
  {
    if x == [] {
      FirstIn(y);
    } else {
      SameFirst(x, y);
      forall item ensures item in x[1..] <==> item in y[1..] {
        FirstOnce(x, item);
        FirstOnce(y, item);
      }
      SameItems(x[1..], y[1..]);
      assert x == [x[0]] + x[1..] && y == [y[0]] + y[1..];
    }
  }

  /** The diff is the one list, in the order of the paths, of exactly the changes. */
  lemma DiffIsDetermined(a: Json, b: Json, items: seq<Item>)
    ensures items == Walked(a, b) <==> InOrder(items) && forall item :: item in items <==> Changes(a, b, item)
  {
    DiffInOrder(a, b);
    forall item ensures item in Walked(a, b) <==> Changes(a, b, item) { DiffListsTheChanges(a, b, item); }
    if InOrder(items) && forall item :: item in items <==> Changes(a, b, item) { SameItems(items, Walked(a, b)); }
  }
}
