/** omni/memory/diff.py: the structural diff of two JSON documents.
    Paths are structured steps, not dotted text. */
module Diff {
  import opened Ordering
  import opened Json

  datatype Step = Key(k: string) | Index(i: nat)
  type Path = seq<Step>

  datatype Item =
    | Add(path: Path, newValue: Json)
    | Remove(path: Path, oldValue: Json)
    | Replace(path: Path, oldValue: Json, newValue: Json)

  function Below(step: Step, item: Item): Item {
    item.(path := [step] + item.path)
  }

  /** The items of a child's diff, seen from its parent. */
  function Under(step: Step, items: seq<Item>): (r: seq<Item>)
    ensures |r| == |items|
    ensures forall i :: 0 <= i < |r| ==> r[i] == Below(step, items[i])
  {
    seq(|items|, i requires 0 <= i < |items| => Below(step, items[i]))
  }

  function Prefixed(prefix: Path, items: seq<Item>): (r: seq<Item>)
    ensures |r| == |items|
    ensures forall i :: 0 <= i < |r| ==> r[i] == items[i].(path := prefix + items[i].path)
  {
    seq(|items|, i requires 0 <= i < |items| => items[i].(path := prefix + items[i].path))
  }

  // ------------------------------------------------------------------ the walk

  /** What `_walk(a, b, ...)` appends, with paths relative to the pair it compares. */
  ghost function Walked(a: Json, b: Json): seq<Item>
    decreases a, 1, 0
  {
    if !SameType(a, b) then [Replace([], a, b)]
    else if a.Obj? then
      var keys := AllKeys(a, b);
      WalkedFields(a, b, keys, |keys|)
    else if a.Arr? then WalkedElems(a, b, Max(|a.elems|, |b.elems|))
    else if a != b then [Replace([], a, b)]
    else []
  }

  /** `sorted(set(old) | set(new))` */
  ghost function AllKeys(a: Json, b: Json): (keys: seq<string>)
    requires a.Obj? && b.Obj?
    ensures Sorted(keys) && Distinct(keys)
    ensures forall k :: k in keys <==> k in a.fields || k in b.fields
  {
    SortedKeys(a.fields.Keys + b.fields.Keys)
  }

  function Max(m: nat, n: nat): nat { if m < n then n else m }

  /** The items of the first `n` keys. */
  ghost function WalkedFields(a: Json, b: Json, keys: seq<string>, n: nat): seq<Item>
    requires a.Obj? && b.Obj? && n <= |keys|
    requires forall k :: k in keys ==> k in a.fields || k in b.fields
    decreases a, 0, n
  {
    if n == 0 then []
    else WalkedFields(a, b, keys, n - 1) + WalkedField(a, b, keys[n - 1])
  }

  ghost function WalkedField(a: Json, b: Json, k: string): seq<Item>
    requires a.Obj? && b.Obj? && (k in a.fields || k in b.fields)
    decreases a, 0, 0
  {
    if k !in a.fields then [Add([Key(k)], b.fields[k])]
    else if k !in b.fields then [Remove([Key(k)], a.fields[k])]
    else Under(Key(k), Walked(a.fields[k], b.fields[k]))
  }

  /** The items of the first `n` indices. */
  ghost function WalkedElems(a: Json, b: Json, n: nat): seq<Item>
    requires a.Arr? && b.Arr? && n <= Max(|a.elems|, |b.elems|)
    decreases a, 0, n
  {
    if n == 0 then []
    else WalkedElems(a, b, n - 1) + WalkedElem(a, b, n - 1)
  }

  ghost function WalkedElem(a: Json, b: Json, i: nat): seq<Item>
    requires a.Arr? && b.Arr? && i < Max(|a.elems|, |b.elems|)
    decreases a, 0, 0
  {
    if i >= |a.elems| then [Add([Index(i)], b.elems[i])]
    else if i >= |b.elems| then [Remove([Index(i)], a.elems[i])]
    else Under(Index(i), Walked(a.elems[i], b.elems[i]))
  }

  /** `diff_values`: an absent document counts as the empty one. */
  ghost function DiffValues(a: Option<Doc>, b: Option<Doc>): seq<Item> {
    Walked(Obj(OrEmpty(a)), Obj(OrEmpty(b)))
  }

  function OrEmpty(d: Option<Doc>): Doc {
    if d.Some? then d.value else map[]
  }

  lemma AppendStep(before: seq<Item>, prefix: Path, x: seq<Item>, y: seq<Item>)
    ensures before + Prefixed(prefix, x) + Prefixed(prefix, y) == before + Prefixed(prefix, x + y)
  {
    assert Prefixed(prefix, x + y) == Prefixed(prefix, x) + Prefixed(prefix, y);
  }

  lemma PrefixedUnder(prefix: Path, step: Step, x: seq<Item>)
    ensures Prefixed(prefix, Under(step, x)) == Prefixed(prefix + [step], x)
  {
    forall i | 0 <= i < |x| ensures Prefixed(prefix, Under(step, x))[i] == Prefixed(prefix + [step], x)[i] {
      assert prefix + ([step] + x[i].path) == (prefix + [step]) + x[i].path;
    }
  }

  lemma PrefixedNothing(x: seq<Item>)
    ensures Prefixed([], x) == x
  {
    forall i | 0 <= i < |x| ensures Prefixed([], x)[i] == x[i] {
      assert [] + x[i].path == x[i].path;
    }
  }

  /** The list that `_walk` threads through its recursion and appends to. */
  class ItemList {
    var items: seq<Item>

    constructor ()
      ensures items == []
    {
      items := [];
    }

    method Append(item: Item)
      modifies this
      ensures items == old(items) + [item]
    {
      items := items + [item];
    }
  }

  method Walk(a: Json, b: Json, path: Path, out: ItemList)
    modifies out
    ensures out.items == old(out.items) + Prefixed(path, Walked(a, b))
    decreases a, 2
  {
    if !SameType(a, b) {
      out.Append(Replace(path, a, b));
    } else if a.Obj? {
      var keys := SortKeys(a.fields.Keys + b.fields.Keys);
      WalkDict(a, b, keys, path, out);
    } else if a.Arr? {
      WalkList(a, b, path, out);
    } else if a != b {
      assert path + [] == path;
      out.Append(Replace(path, a, b));
    }
  }

  method WalkDict(a: Json, b: Json, keys: seq<string>, path: Path, out: ItemList)
    requires a.Obj? && b.Obj?
    requires forall k :: k in keys ==> k in a.fields || k in b.fields
    modifies out
    ensures out.items == old(out.items) + Prefixed(path, WalkedFields(a, b, keys, |keys|))
    decreases a, 1
  {
    for n := 0 to |keys|
      invariant out.items == old(out.items) + Prefixed(path, WalkedFields(a, b, keys, n))
    {
      WalkKey(a, b, keys[n], path, out);
      AppendStep(old(out.items), path, WalkedFields(a, b, keys, n), WalkedField(a, b, keys[n]));
    }
  }

  method WalkList(a: Json, b: Json, path: Path, out: ItemList)
    requires a.Arr? && b.Arr?
    modifies out
    ensures out.items == old(out.items) + Prefixed(path, WalkedElems(a, b, Max(|a.elems|, |b.elems|)))
    decreases a, 1
  {
    for n := 0 to Max(|a.elems|, |b.elems|)
      invariant out.items == old(out.items) + Prefixed(path, WalkedElems(a, b, n))
    {
      WalkIndex(a, b, n, path, out);
      AppendStep(old(out.items), path, WalkedElems(a, b, n), WalkedElem(a, b, n));
    }
  }

  /** The body of the loop over keys. */
  method WalkKey(a: Json, b: Json, key: string, path: Path, out: ItemList)
    requires a.Obj? && b.Obj? && (key in a.fields || key in b.fields)
    modifies out
    ensures out.items == old(out.items) + Prefixed(path, WalkedField(a, b, key))
    decreases a, 0
  {
    if key !in a.fields {
      out.Append(Add(path + [Key(key)], b.fields[key]));
    } else if key !in b.fields {
      out.Append(Remove(path + [Key(key)], a.fields[key]));
    } else {
      PrefixedUnder(path, Key(key), Walked(a.fields[key], b.fields[key]));
      Walk(a.fields[key], b.fields[key], path + [Key(key)], out);
    }
  }

  /** The body of the loop over indices. */
  method WalkIndex(a: Json, b: Json, n: nat, path: Path, out: ItemList)
    requires a.Arr? && b.Arr? && n < Max(|a.elems|, |b.elems|)
    modifies out
    ensures out.items == old(out.items) + Prefixed(path, WalkedElem(a, b, n))
    decreases a, 0
  {
    if n >= |a.elems| {
      out.Append(Add(path + [Index(n)], b.elems[n]));
    } else if n >= |b.elems| {
      out.Append(Remove(path + [Index(n)], a.elems[n]));
    } else {
      PrefixedUnder(path, Index(n), Walked(a.elems[n], b.elems[n]));
      Walk(a.elems[n], b.elems[n], path + [Index(n)], out);
    }
  }

  method ComputeDiff(a: Option<Doc>, b: Option<Doc>) returns (items: seq<Item>)
    ensures items == DiffValues(a, b)
  {
    var out := new ItemList();
    Walk(Obj(OrEmpty(a)), Obj(OrEmpty(b)), [], out);
    PrefixedNothing(DiffValues(a, b));
    items := out.items;
  }
}
