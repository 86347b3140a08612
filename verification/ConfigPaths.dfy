/** omni/evolution/executor.py: reading and writing dotted paths of a nested configuration.
    A path is the nonempty list of parts that splitting on dots yields. */
module ConfigPaths {
  import opened Json

  type Path = seq<string>

  /** `_get_dotted` with its default None. */
  function Get(v: Json, path: Path): Json
    decreases |path|
  {
    if path == [] then v
    else if !v.Obj? || path[0] !in v.fields then Null
    else Get(v.fields[path[0]], path[1..])
  }

  predicate Present(v: Json, path: Path)
    decreases |path|
  {
    path == [] || (v.Obj? && path[0] in v.fields && Present(v.fields[path[0]], path[1..]))
  }

  /** The object to write below: whatever is there if it is an object, a fresh one otherwise. */
  function Below(d: Doc, key: string): Doc {
    if key in d && d[key].Obj? then d[key].fields else map[]
  }

  /** `_set_dotted` */
  function Set(d: Doc, path: Path, value: Json): Doc
    requires path != []
    decreases |path|
  {
    if |path| == 1 then d[path[0] := value]
    else d[path[0] := Obj(Set(Below(d, path[0]), path[1..], value))]
  }

  method GetDotted(d: Doc, path: Path) returns (value: Json)
    ensures value == Get(Obj(d), path)
  {
    var cur := Obj(d);
    for i := 0 to |path|
      invariant Get(Obj(d), path) == Get(cur, path[i..])
    {
      if !cur.Obj? || path[i] !in cur.fields {
        return Null;
      }
      assert path[i..][1..] == path[i + 1..];
      cur := cur.fields[path[i]];
    }
    value := cur;
  }

  // ------------------------------------------------------------------ laws

  predicate Apart(p: Path, q: Path) { !(p <= q) && !(q <= p) }

  /** What was written is what is read. */
  lemma {:induction false} SetThenGet(d: Doc, path: Path, value: Json)
    requires path != []
    ensures Get(Obj(Set(d, path, value)), path) == value && Present(Obj(Set(d, path, value)), path)
    decreases |path|
  {
    if |path| > 1 { SetThenGet(Below(d, path[0]), path[1..], value); }
  }

  /** A write leaves every other place as it was, even when it replaces scalars on its way. */
  lemma {:induction false} SetElsewhere(d: Doc, path: Path, value: Json, other: Path)
    requires path != [] && other != [] && Apart(path, other)
    ensures Get(Obj(Set(d, path, value)), other) == Get(Obj(d), other)
    ensures Present(Obj(Set(d, path, value)), other) <==> Present(Obj(d), other)
    decreases |path|
  {
    if path[0] == other[0] {
      SetElsewhere(Below(d, path[0]), path[1..], value, other[1..]);
    }
  }

  lemma {:induction false} SetTwice(d: Doc, path: Path, v: Json, w: Json)
    requires path != []
    ensures Set(Set(d, path, v), path, w) == Set(d, path, w)
    decreases |path|
  {
    if |path| > 1 { SetTwice(Below(d, path[0]), path[1..], v, w); }
  }

  /** Writing back what is there changes nothing. */
  lemma {:induction false} SetSame(d: Doc, path: Path)
    requires path != [] && Present(Obj(d), path)
    ensures Set(d, path, Get(Obj(d), path)) == d
    decreases |path|
  {
    var k := path[0];
    if |path| > 1 {
      SetSame(d[k].fields, path[1..]);
      assert d[k := d[k]] == d;
    } else {
      assert d[k := d[k]] == d;
    }
  }

  lemma SetBelowTwice(d: Doc, p: Path, v: Json, q: Path, w: Json)
    requires |p| > 1 && |q| > 1 && p[0] == q[0]
    ensures Set(Set(d, p, v), q, w) == d[p[0] := Obj(Set(Set(Below(d, p[0]), p[1..], v), q[1..], w))]
  {
    var k := p[0];
    var inner := Set(Below(d, k), p[1..], v);
    assert Below(d[k := Obj(inner)], k) == inner;
  }

  lemma SetsBesideCommute(d: Doc, p: Path, v: Json, q: Path, w: Json)
    requires p != [] && q != [] && p[0] != q[0]
    ensures Set(Set(d, p, v), q, w) == Set(Set(d, q, w), p, v)
  {
  }

  /** Writes to places apart can be done in either order. */
  lemma {:induction false} SetsCommute(d: Doc, p: Path, v: Json, q: Path, w: Json)
    requires p != [] && q != [] && Apart(p, q)
    ensures Set(Set(d, p, v), q, w) == Set(Set(d, q, w), p, v)
    decreases |p|
  {
    if p[0] == q[0] {
      SetsCommute(Below(d, p[0]), p[1..], v, q[1..], w);
      SetBelowTwice(d, p, v, q, w);
      SetBelowTwice(d, q, w, p, v);
    } else {
      SetsBesideCommute(d, p, v, q, w);
    }
  }

  /** Reading a path that leads nowhere gives a null. */
  lemma {:induction false} AbsentReadsNull(v: Json, path: Path)
    requires !Present(v, path)
    ensures Get(v, path) == Null
    decreases |path|
  {
    if v.Obj? && path[0] in v.fields { AbsentReadsNull(v.fields[path[0]], path[1..]); }
  }
}
