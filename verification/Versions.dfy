/** omni/marketplace/catalog.py and remote.py: version numbers and their order. */
module Versions {
  import opened Json

  /** `materialize` turns the first three parts of a version into a tuple of integers. */
  type Key = seq<int>

  /** Python's `int` on text, or None where it raises `ValueError`. */
  type ToInt = string -> Option<int>

  // ------------------------------------------------------------------ tuples

  predicate Below(a: Key, b: Key) {
    if a == [] then b != []
    else b != [] && (a[0] < b[0] || (a[0] == b[0] && Below(a[1..], b[1..])))
  }

  predicate AtMost(a: Key, b: Key) { a == b || Below(a, b) }

  lemma {:induction false} BelowTotal(a: Key, b: Key)
    ensures Below(a, b) || a == b || Below(b, a)
  {
    if a != [] && b != [] && a[0] == b[0] {
      BelowTotal(a[1..], b[1..]);
      assert a == [a[0]] + a[1..] && b == [b[0]] + b[1..];
    }
  }

  lemma {:induction false} BelowTransitive(a: Key, b: Key, c: Key)
    requires Below(a, b) && Below(b, c)
    ensures Below(a, c)
  {
    if a != [] && a[0] == b[0] && b[0] == c[0] { BelowTransitive(a[1..], b[1..], c[1..]); }
  }

  lemma {:induction false} BelowIrreflexive(a: Key)
    ensures !Below(a, a)
  {
    if a != [] { BelowIrreflexive(a[1..]); }
  }

  /** `a` and `b` agree up to `i`, where `a` ends or has the smaller number. */
  ghost predicate SmallerAt(a: Key, b: Key, i: nat) {
    i <= |a| && i < |b| && (forall j :: 0 <= j < i ==> a[j] == b[j]) && (i == |a| || a[i] < b[i])
  }

  /** The first part that differs decides, from the left; a proper prefix comes first. */
  lemma {:induction false} BelowIsFirstDifference(a: Key, b: Key)
    ensures Below(a, b) <==> exists i: nat :: SmallerAt(a, b, i)
  {
    if a != [] && b != [] && a[0] == b[0] {
      BelowIsFirstDifference(a[1..], b[1..]);
      if i: nat :| SmallerAt(a[1..], b[1..], i) { assert SmallerAt(a, b, i + 1); }
      if i: nat :| SmallerAt(a, b, i) { assert SmallerAt(a[1..], b[1..], i - 1); }
    } else if Below(a, b) {
      assert SmallerAt(a, b, 0);
    }
  }

  lemma NotBelow(a: Key, b: Key)
    ensures !Below(a, b) <==> AtMost(b, a)
  {
    BelowTotal(a, b);
    BelowIrreflexive(a);
    if Below(a, b) && Below(b, a) { BelowTransitive(a, b, a); }
  }

  lemma AtMostTransitive(a: Key, b: Key, c: Key)
    requires AtMost(a, b) && AtMost(b, c)
    ensures AtMost(a, c)
  {
    if Below(a, b) && Below(b, c) { BelowTransitive(a, b, c); }
  }

  lemma AtMostBelow(a: Key, b: Key, c: Key)
    requires AtMost(a, b) && Below(b, c)
    ensures Below(a, c)
  {
    if a != b { BelowTransitive(a, b, c); }
  }

  // ------------------------------------------------------------------ parsing

  /** `version.split(".")` */
  function Parts(version: string): (parts: seq<string>)
    ensures parts != []
  {
    if version == [] then [""]
    else
      var rest := Parts(version[1..]);
      if version[0] == '.' then [""] + rest else [[version[0]] + rest[0]] + rest[1..]
  }

  function Integers(parts: seq<string>, toInt: ToInt): Option<Key> {
    if parts == [] then Some([])
    else
      var first, rest := toInt(parts[0]), Integers(parts[1..], toInt);
      if first.None? || rest.None? then None else Some([first.value] + rest.value)
  }

  function FirstThree(parts: seq<string>): seq<string> {
    if |parts| <= 3 then parts else parts[..3]
  }

  /** `materialize`, where None is the `ValueError`. */
  function Materialize(version: string, toInt: ToInt): Option<Key> {
    Integers(FirstThree(Parts(version)), toInt)
  }

  /** The parts, with a dot between each two. */
  function Joined(parts: seq<string>): string {
    if parts == [] then ""
    else if |parts| == 1 then parts[0]
    else parts[0] + "." + Joined(parts[1..])
  }

  /** Splitting finds the parts between the dots: joined again they are the text, and none holds a dot. */
  lemma {:induction false} PartsJoin(version: string)
    ensures Joined(Parts(version)) == version
    ensures forall i :: 0 <= i < |Parts(version)| ==> '.' !in Parts(version)[i]
  {
    if version != [] {
      var rest := Parts(version[1..]);
      PartsJoin(version[1..]);
      assert version == [version[0]] + version[1..];
      if version[0] == '.' {
        assert ([""] + rest)[1..] == rest;
      } else {
        var parts := [[version[0]] + rest[0]] + rest[1..];
        assert parts[1..] == rest[1..];
      }
    }
  }

  lemma {:induction false} IntegersInOrder(parts: seq<string>, toInt: ToInt)
    ensures Integers(parts, toInt).Some? <==> forall i :: 0 <= i < |parts| ==> toInt(parts[i]).Some?
    ensures Integers(parts, toInt).Some? ==>
              var k := Integers(parts, toInt).value;
              |k| == |parts| && forall i :: 0 <= i < |parts| ==> toInt(parts[i]) == Some(k[i])
  {
    if parts != [] { IntegersInOrder(parts[1..], toInt); }
  }

  /** A version is read as its first three parts, each an integer, in their order; it cannot be read
      exactly if one of them is none. What stands after the third dot is never looked at. */
  lemma {:induction false} VersionIsRead(version: string, toInt: ToInt)
    ensures var parts, k := Parts(version), Materialize(version, toInt);
            var n := if |parts| < 3 then |parts| else 3;
            && (k.Some? <==> forall i :: 0 <= i < n ==> toInt(parts[i]).Some?)
            && (k.Some? ==> |k.value| == n && forall i :: 0 <= i < n ==> toInt(parts[i]) == Some(k.value[i]))
  {
    IntegersInOrder(FirstThree(Parts(version)), toInt);
  }

  const NO_VERSION := "0.0.0"
  const ZERO: Key := [0, 0, 0]

  lemma PartsOfNoVersion()
    ensures Parts(NO_VERSION) == ["0", "0", "0"]
  {
    assert ['0'] + "" == "0" && ['.'] + "0" == ".0" && ['0'] + ".0" == "0.0";
    assert ['.'] + "0.0" == ".0.0" && ['0'] + ".0.0" == NO_VERSION;
  }

  lemma IntegersOfZeros(toInt: ToInt)
    requires toInt("0") == Some(0)
    ensures Integers(["0", "0", "0"], toInt) == Some(ZERO)
  {
    assert ["0"] + [] == ["0"] && ["0"] + ["0"] == ["0", "0"] && ["0"] + ["0", "0"] == ["0", "0", "0"];
    var none: Key := [];
    assert [0] + none == [0];
    assert Integers(["0", "0"], toInt) == Some([0] + [0]);
    assert [0] + ([0] + [0]) == ZERO;
  }

  /** What a new manifest starts from is read as three zeros, provided "0" is read as zero. */
  lemma NoVersionIsZero(toInt: ToInt)
    requires toInt("0") == Some(0)
    ensures Materialize(NO_VERSION, toInt) == Some(ZERO)
  {
    PartsOfNoVersion();
    IntegersOfZeros(toInt);
  }

  /** `_version_key`: what cannot be read sorts as three zeros. */
  function SortKey(version: string, toInt: ToInt): Key {
    var k := Materialize(version, toInt);
    if k.Some? then k.value else ZERO
  }
}
