/** Strings in Python's code-point order, and `sorted` over a set of strings. */
module Ordering {

  predicate Less(a: string, b: string) {
    if a == [] then b != []
    else b != [] && (a[0] < b[0] || (a[0] == b[0] && Less(a[1..], b[1..])))
  }

  lemma {:induction false} LessTotal(a: string, b: string)
    ensures Less(a, b) || a == b || Less(b, a)
  {
    if a != [] && b != [] && a[0] == b[0] {
      LessTotal(a[1..], b[1..]);
      assert a == [a[0]] + a[1..] && b == [b[0]] + b[1..];
    }
  }

  lemma {:induction false} LessTransitive(a: string, b: string, c: string)
    requires Less(a, b) && Less(b, c)
    ensures Less(a, c)
  {
    if a != [] && a[0] == b[0] && b[0] == c[0] {
      LessTransitive(a[1..], b[1..], c[1..]);
    }
  }

  lemma {:induction false} LessIrreflexive(a: string)
    ensures !Less(a, a)
  {
    if a != [] {
      LessIrreflexive(a[1..]);
    }
  }

  lemma LessAsymmetric(a: string, b: string)
    requires Less(a, b)
    ensures !Less(b, a) && a != b
  {
    LessIrreflexive(a);
    if Less(b, a) {
      LessTransitive(a, b, a);
    }
  }

  /** `a` and `b` agree up to `i`, where `a` ends or has the smaller code point. */
  ghost predicate SmallerAt(a: string, b: string, i: nat) {
    i <= |a| && i < |b| && (forall j :: 0 <= j < i ==> a[j] == b[j]) && (i == |a| || a[i] < b[i])
  }

  /** The first difference decides; a proper prefix comes first. */
  lemma {:induction false} LessIsFirstDifference(a: string, b: string)
    ensures Less(a, b) <==> exists i: nat :: SmallerAt(a, b, i)
  {
    if a != [] && b != [] && a[0] == b[0] {
      LessIsFirstDifference(a[1..], b[1..]);
      if i: nat :| SmallerAt(a[1..], b[1..], i) { assert SmallerAt(a, b, i + 1); }
      if i: nat :| SmallerAt(a, b, i) { assert SmallerAt(a[1..], b[1..], i - 1); }
    } else if Less(a, b) {
      assert SmallerAt(a, b, 0);
    }
  }

  ghost predicate Sorted(keys: seq<string>) {
    forall i, j :: 0 <= i < j < |keys| ==> Less(keys[i], keys[j])
  }

  ghost predicate Distinct(keys: seq<string>) {
    forall i, j :: 0 <= i < j < |keys| ==> keys[i] != keys[j]
  }

  function Elems(keys: seq<string>): set<string> {
    set k | k in keys
  }

  lemma ElemsFromFront(keys: seq<string>, i: nat)
    requires i < |keys| && Distinct(keys)
    ensures Elems(keys[..i + 1]) == Elems(keys[..i]) + {keys[i]} && keys[i] !in Elems(keys[..i])
  {
    assert keys[..i + 1] == keys[..i] + [keys[i]];
  }

  lemma ElemsFromBack(keys: seq<string>, i: nat)
    requires i < |keys| && Distinct(keys)
    ensures Elems(keys[i..]) == Elems(keys[i + 1..]) + {keys[i]} && keys[i] !in Elems(keys[i + 1..])
  {
    assert keys[i..] == [keys[i]] + keys[i + 1..];
  }

  predicate IsLeast(k: string, s: set<string>) {
    k in s && forall x :: x in s ==> x == k || Less(k, x)
  }

  lemma {:induction false} LeastExists(s: set<string>) returns (k: string)
    requires s != {}
    ensures IsLeast(k, s)
    decreases s
  {
    k :| k in s;
    if s != {k} {
      var m := LeastExists(s - {k});
      LessTotal(k, m);
      if Less(m, k) {
        k := m;
      } else {
        forall x | x in s && x != k && x != m ensures Less(k, x) {
          assert x in s - {k};
          LessTransitive(k, m, x);
        }
      }
    }
  }

  /** `r` lists the elements of `s` once each, in strictly ascending order. */
  ghost predicate IsSorting(r: seq<string>, s: set<string>) {
    Sorted(r) && Distinct(r) && |r| == |s| && forall k :: k in r <==> k in s
  }

  lemma {:induction false} SortingUnique(p: seq<string>, q: seq<string>, s: set<string>)
    requires IsSorting(p, s) && IsSorting(q, s)
    ensures p == q
  {
    if p != [] {
      SameHead(p, q, s);
      SortingUnique(p[1..], q[1..], s - {p[0]});
      assert p == [p[0]] + p[1..] && q == [q[0]] + q[1..];
    }
  }

  lemma SameHead(p: seq<string>, q: seq<string>, s: set<string>)
    requires IsSorting(p, s) && IsSorting(q, s) && p != []
    ensures q != [] && p[0] == q[0]
  {
    assert p[0] in q && q[0] in p;
    var i :| 0 <= i < |q| && q[i] == p[0];
    var j :| 0 <= j < |p| && p[j] == q[0];
    if i != 0 && j != 0 { LessAsymmetric(q[0], q[i]); }
  }

  lemma {:induction false} SortingExists(s: set<string>)
    ensures exists r :: IsSorting(r, s)
    decreases |s|
  {
    if s == {} {
      assert IsSorting([], s);
    } else {
      var k := LeastExists(s);
      SortingExists(s - {k});
      var rest :| IsSorting(rest, s - {k});
      LeastFirst(s, k, rest);
    }
  }

  lemma LeastFirst(s: set<string>, k: string, rest: seq<string>)
    requires IsLeast(k, s) && IsSorting(rest, s - {k})
    ensures IsSorting([k] + rest, s)
  {
    forall i | 0 <= i < |rest| ensures Less(k, rest[i]) && k != rest[i] {
      assert rest[i] in s - {k};
    }
  }

  /** `sorted(s)` */
  ghost function SortedKeys(s: set<string>): (r: seq<string>)
    ensures IsSorting(r, s)
  {
    SortingExists(s);
    var r :| IsSorting(r, s);
    r
  }

  method SortKeys(s: set<string>) returns (r: seq<string>)
    ensures r == SortedKeys(s)
  {
    r := TakeLeast(s);
    SortingUnique(r, SortedKeys(s), s);
  }

  method TakeLeast(s: set<string>) returns (r: seq<string>)
    ensures IsSorting(r, s)
    decreases |s|
  {
    if s == {} {
      return [];
    }
    ghost var least := LeastExists(s);
    var k :| k in s && IsLeast(k, s);
    var rest := TakeLeast(s - {k});
    LeastFirst(s, k, rest);
    r := [k] + rest;
  }
}
