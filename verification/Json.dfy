/** JSON documents as Python sees them after `json.loads`. */
module Json {

  datatype Option<+T> = None | Some(value: T)

  /** One constructor per Python type, so `type(a) is type(b)` is `SameType(a, b)`.
      Floats are reals; objects are finite maps, because dict equality ignores order. */
  datatype Json =
    | Null
    | Bool(b: bool)
    | Int(i: int)
    | Float(r: real)
    | Str(s: string)
    | Arr(elems: seq<Json>)
    | Obj(fields: map<string, Json>)

  type Doc = map<string, Json>

  predicate SameType(a: Json, b: Json) {
    match a
    case Null => b.Null?
    case Bool(_) => b.Bool?
    case Int(_) => b.Int?
    case Float(_) => b.Float?
    case Str(_) => b.Str?
    case Arr(_) => b.Arr?
    case Obj(_) => b.Obj?
  }

  predicate IsNumber(a: Json) { a.Bool? || a.Int? || a.Float? }

  function Number(a: Json): real
    requires IsNumber(a)
  {
    match a
    case Bool(b) => if b then 1.0 else 0.0
    case Int(i) => i as real
    case Float(r) => r
  }

  /** Python's `==` on loaded documents. It is coarser than structural equality:
      `True == 1 == 1.0`, at every depth. */
  predicate PyEqual(a: Json, b: Json)
    decreases a
  {
    if IsNumber(a) && IsNumber(b) then Number(a) == Number(b)
    else if a.Arr? && b.Arr? then
      |a.elems| == |b.elems| && forall i | 0 <= i < |a.elems| :: PyEqual(a.elems[i], b.elems[i])
    else if a.Obj? && b.Obj? then
      a.fields.Keys == b.fields.Keys && forall k | k in a.fields :: PyEqual(a.fields[k], b.fields[k])
    else a == b
  }

  predicate PyEqualDocs(a: Doc, b: Doc) {
    PyEqual(Obj(a), Obj(b))
  }

  lemma {:induction false} PyEqualReflexive(a: Json)
    ensures PyEqual(a, a)
  {
    if a.Arr? {
      forall i | 0 <= i < |a.elems| ensures PyEqual(a.elems[i], a.elems[i]) { PyEqualReflexive(a.elems[i]); }
    } else if a.Obj? {
      forall k | k in a.fields ensures PyEqual(a.fields[k], a.fields[k]) { PyEqualReflexive(a.fields[k]); }
    }
  }

  /** The document with every number, booleans included, as a float. */
  function Plain(a: Json): Json {
    match a
    case Bool(b) => Float(if b then 1.0 else 0.0)
    case Int(i) => Float(i as real)
    case Arr(elems) => Arr(seq(|elems|, i requires 0 <= i < |elems| => Plain(elems[i])))
    case Obj(fields) => Obj(map k | k in fields :: Plain(fields[k]))
    case _ => a
  }

  /** Python's `==` holds exactly where the documents are the same but for the types of numbers. */
  lemma {:induction false} PyEqualIsPlain(a: Json, b: Json)
    ensures PyEqual(a, b) <==> Plain(a) == Plain(b)
    decreases a
  {
    if a.Arr? && b.Arr? {
      if |a.elems| == |b.elems| {
        forall i | 0 <= i < |a.elems| ensures PyEqual(a.elems[i], b.elems[i]) <==> Plain(a.elems[i]) == Plain(b.elems[i]) {
          PyEqualIsPlain(a.elems[i], b.elems[i]);
        }
        SamePlainElems(a, b);
      } else {
        assert |Plain(a).elems| == |a.elems| && |Plain(b).elems| == |b.elems|;
      }
    } else if a.Obj? && b.Obj? {
      if a.fields.Keys == b.fields.Keys {
        forall k | k in a.fields ensures PyEqual(a.fields[k], b.fields[k]) <==> Plain(a.fields[k]) == Plain(b.fields[k]) {
          PyEqualIsPlain(a.fields[k], b.fields[k]);
        }
        SamePlainFields(a, b);
      } else {
        assert Plain(a).fields.Keys == a.fields.Keys && Plain(b).fields.Keys == b.fields.Keys;
      }
    }
  }

  lemma SamePlainElems(a: Json, b: Json)
    requires a.Arr? && b.Arr? && |a.elems| == |b.elems|
    ensures Plain(a) == Plain(b) <==> forall i :: 0 <= i < |a.elems| ==> Plain(a.elems[i]) == Plain(b.elems[i])
  {
    var x, y := Plain(a).elems, Plain(b).elems;
    assert forall i :: 0 <= i < |a.elems| ==> x[i] == Plain(a.elems[i]) && y[i] == Plain(b.elems[i]);
    if forall i :: 0 <= i < |a.elems| ==> Plain(a.elems[i]) == Plain(b.elems[i]) { assert x == y; }
  }

  lemma SamePlainFields(a: Json, b: Json)
    requires a.Obj? && b.Obj? && a.fields.Keys == b.fields.Keys
    ensures Plain(a) == Plain(b) <==> forall k :: k in a.fields ==> Plain(a.fields[k]) == Plain(b.fields[k])
  {
    var x, y := Plain(a).fields, Plain(b).fields;
    assert x.Keys == a.fields.Keys && y.Keys == b.fields.Keys;
    assert forall k :: k in a.fields ==> x[k] == Plain(a.fields[k]) && y[k] == Plain(b.fields[k]);
    if forall k :: k in a.fields ==> Plain(a.fields[k]) == Plain(b.fields[k]) { assert x == y; }
  }
}
