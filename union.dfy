/**
 * Sequence helpers and the order-preserving union that the chart takes from
 * lodash's `union`: the elements of all given arrays, each once, in the order
 * in which they first occur.
 */
module LodashUnion {

  /** No element occurs twice. */
  predicate NoDups<T(==)>(s: seq<T>) {
    forall i, j :: 0 <= i < j < |s| ==> s[i] != s[j]
  }

  /** The position of the first occurrence of `x` in `s`. */
  function FirstIndex<T(==)>(s: seq<T>, x: T): (i: nat)
    requires x in s
    ensures i < |s| && s[i] == x
    ensures forall j :: 0 <= j < i ==> s[j] != x
  {
    if s[0] == x then 0 else 1 + FirstIndex(s[1..], x)
  }

  /** Appending an element does not move the first occurrence of one already present. */
  lemma {:induction false} FirstIndexOfPrefix<T>(p: seq<T>, x: T, y: T)
    requires y in p
    ensures y in p + [x] && FirstIndex(p + [x], y) == FirstIndex(p, y)
  {
    if p[0] != y {
      assert (p + [x])[1..] == p[1..] + [x];
      FirstIndexOfPrefix(p[1..], x, y);
    }
  }

  /** The arrays laid end to end. */
  function Flatten<T>(arrays: seq<seq<T>>): seq<T> {
    if arrays == [] then [] else arrays[0] + Flatten(arrays[1..])
  }

  /** An element is in the flattened sequence exactly when one of the arrays holds it. */
  lemma {:induction false} InFlattenOne<T>(arrays: seq<seq<T>>, x: T)
    ensures x in Flatten(arrays) <==> exists i :: 0 <= i < |arrays| && x in arrays[i]
  {
    if arrays != [] {
      InFlattenOne(arrays[1..], x);
      if x in Flatten(arrays[1..]) {
        var i :| 0 <= i < |arrays[1..]| && x in arrays[1..][i];
        assert x in arrays[i + 1];
      }
      if exists i :: 0 <= i < |arrays| && x in arrays[i] {
        var i :| 0 <= i < |arrays| && x in arrays[i];
        if i > 0 {
          assert x in arrays[1..][i - 1];
        }
      }
    }
  }

  lemma InFlatten<T(!new)>(arrays: seq<seq<T>>)
    ensures forall x :: x in Flatten(arrays) <==> exists i :: 0 <= i < |arrays| && x in arrays[i]
  {
    forall x {
      InFlattenOne(arrays, x);
    }
  }

  /** Keeps the first occurrence of every element and drops the later ones. */
  function Dedup<T(==,!new)>(s: seq<T>): (r: seq<T>)
    ensures NoDups(r)
    ensures forall x :: x in r <==> x in s
  {
    if s == [] then []
    else
      var p, x := s[..|s| - 1], s[|s| - 1];
      assert s == p + [x];
      var r := Dedup(p);
      if x in r then r else r + [x]
  }

  /** The kept elements stand in the order of their first occurrences. */
  lemma {:induction false} DedupKeepsFirstOccurrenceOrder<T(!new)>(s: seq<T>)
    ensures forall i, j :: 0 <= i < j < |Dedup(s)| ==>
      FirstIndex(s, Dedup(s)[i]) < FirstIndex(s, Dedup(s)[j])
  {
    if s != [] {
      var p, x := s[..|s| - 1], s[|s| - 1];
      assert s == p + [x];
      var r := Dedup(p);
      DedupKeepsFirstOccurrenceOrder(p);
      forall y | y in p
        ensures FirstIndex(s, y) == FirstIndex(p, y) < |p|
      {
        FirstIndexOfPrefix(p, x, y);
      }
      if x !in r {
        assert FirstIndex(s, x) == |p|;
      }
    }
  }

  /** lodash `union(...arrays)`: every element of every array exactly once. */
  function Union<T(==,!new)>(arrays: seq<seq<T>>): (r: seq<T>)
    ensures NoDups(r)
    ensures forall x :: x in r <==> exists i :: 0 <= i < |arrays| && x in arrays[i]
  {
    InFlatten(arrays);
    Dedup(Flatten(arrays))
  }

  /** The union lists its elements in the order in which they first appear across the arrays. */
  lemma UnionFirstAppearanceOrder<T(!new)>(arrays: seq<seq<T>>)
    ensures forall i, j :: 0 <= i < j < |Union(arrays)| ==>
      Union(arrays)[i] in Flatten(arrays) && Union(arrays)[j] in Flatten(arrays) &&
      FirstIndex(Flatten(arrays), Union(arrays)[i]) < FirstIndex(Flatten(arrays), Union(arrays)[j])
  {
    DedupKeepsFirstOccurrenceOrder(Flatten(arrays));
  }
}
