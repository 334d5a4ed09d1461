/** `Array.prototype.sort` with a comparator: a stable sort (as the language
    has required since ES2019), written as an insertion sort that places each
    element after every earlier element that does not compare greater. A
    comparator returns a negative number when its first argument goes first. */
module Sorting {

  type Comparator<!T> = (T, T) -> real

  /** `a` goes before `b` exactly when `b` goes after `a`. */
  ghost predicate Antisymmetric<T(!new)>(cmp: Comparator<T>) {
    forall a, b :: cmp(a, b) < 0.0 <==> cmp(b, a) > 0.0
  }

  /** Every neighbour pair is in order. */
  ghost predicate Ordered<T>(s: seq<T>, cmp: Comparator<T>) {
    forall i :: 0 <= i < |s| - 1 ==> cmp(s[i], s[i + 1]) <= 0.0
  }

  function Reverse<T>(s: seq<T>): (r: seq<T>)
    ensures |r| == |s|
    ensures forall i :: 0 <= i < |s| ==> r[i] == s[|s| - 1 - i]
    decreases |s|
  {
    if s == [] then [] else [s[|s| - 1]] + Reverse(s[..|s| - 1])
  }

  /** Place `x`, which comes after every element of `s` in the input, before
      the first element that compares greater than it. */
  function Insert<T>(x: T, s: seq<T>, cmp: Comparator<T>): (r: seq<T>)
    ensures |r| == |s| + 1
    ensures multiset(r) == multiset(s) + multiset{x}
    decreases |s|
  {
    if s == [] then [x]
    else if cmp(s[0], x) > 0.0 then [x] + s
    else
      assert s == [s[0]] + s[1..];
      [s[0]] + Insert(x, s[1..], cmp)
  }

  /** `copy.sort(cmp)`: the input's elements inserted one at a time, in order. */
  function Sort<T>(s: seq<T>, cmp: Comparator<T>): (r: seq<T>)
    ensures |r| == |s|
    decreases |s|
  {
    if s == [] then [] else Insert(s[|s| - 1], Sort(s[..|s| - 1], cmp), cmp)
  }

  /** The sorted list is a permutation of the input. */
  lemma {:induction false} SortIsPermutation<T>(s: seq<T>, cmp: Comparator<T>)
    ensures multiset(Sort(s, cmp)) == multiset(s)
    decreases |s|
  {
    if s != [] {
      SortIsPermutation(s[..|s| - 1], cmp);
      assert s == s[..|s| - 1] + [s[|s| - 1]];
    }
  }

  lemma {:induction false} InsertOrdered<T(!new)>(x: T, s: seq<T>, cmp: Comparator<T>)
    requires Antisymmetric(cmp)
    requires Ordered(s, cmp)
    ensures Ordered(Insert(x, s, cmp), cmp)
    ensures s != [] ==> Insert(x, s, cmp)[0] == x || Insert(x, s, cmp)[0] == s[0]
    decreases |s|
  {
    if s != [] && cmp(s[0], x) <= 0.0 {
      var tail := s[1..];
      InsertOrdered(x, tail, cmp);
      var r := Insert(x, s, cmp);
      assert r[1..] == Insert(x, tail, cmp);
      if tail != [] {
        assert cmp(s[0], tail[0]) <= 0.0;
      }
    }
  }

  /** With an antisymmetric comparator, the sorted list is in order. */
  lemma {:induction false} SortOrdered<T(!new)>(s: seq<T>, cmp: Comparator<T>)
    requires Antisymmetric(cmp)
    ensures Ordered(Sort(s, cmp), cmp)
    decreases |s|
  {
    if s != [] {
      SortOrdered(s[..|s| - 1], cmp);
      InsertOrdered(s[|s| - 1], Sort(s[..|s| - 1], cmp), cmp);
    }
  }

  /** When every element compares greater than each later one, sorting
      reverses the list. */
  lemma {:induction false} SortReversesDescending<T>(s: seq<T>, cmp: Comparator<T>)
    requires forall i, j :: 0 <= i < j < |s| ==> cmp(s[i], s[j]) > 0.0
    ensures Sort(s, cmp) == Reverse(s)
    decreases |s|
  {
    if s != [] {
      var prefix := s[..|s| - 1];
      assert forall i, j :: 0 <= i < j < |prefix| ==> cmp(prefix[i], prefix[j]) > 0.0 by {
        assert forall i :: 0 <= i < |prefix| ==> prefix[i] == s[i];
      }
      SortReversesDescending(prefix, cmp);
      if prefix != [] {
        assert Reverse(prefix)[0] == s[|s| - 2];
      }
    }
  }
}
