/** Facts about sequences used as ordered collections: the key order of a
    Python dict and the lists the game builds from it. */
module Sequences {

  predicate Distinct<T(==)>(s: seq<T>) {
    forall i, j :: 0 <= i < j < |s| ==> s[i] != s[j]
  }

  function Elems<T>(s: seq<T>): set<T> {
    set x | x in s
  }

  /** The elements of `s` not in `drop`, in their order in `s`: the list
      comprehension `[x for x in s if x not in drop]`. */
  function Without<T(==,!new)>(s: seq<T>, drop: set<T>): (r: seq<T>)
    ensures forall x :: x in r <==> x in s && x !in drop
    ensures |r| <= |s|
  {
    if s == [] then []
    else if s[0] in drop then Without(s[1..], drop)
    else [s[0]] + Without(s[1..], drop)
  }

  /** `a` is `b` with some elements left out and the rest in the same order. */
  predicate IsSubsequence<T(==)>(a: seq<T>, b: seq<T>)
    decreases |b|
  {
    a == [] ||
    (b != [] && ((a[0] == b[0] && IsSubsequence(a[1..], b[1..])) || IsSubsequence(a, b[1..])))
  }

  lemma {:induction false} SubsequenceTransitive<T>(a: seq<T>, b: seq<T>, c: seq<T>)
    requires IsSubsequence(a, b) && IsSubsequence(b, c)
    ensures IsSubsequence(a, c)
    decreases |c|
  {
    if a != [] {
      if IsSubsequence(b, c[1..]) {
        SubsequenceTransitive(a, b, c[1..]);
      } else if a[0] == b[0] && IsSubsequence(a[1..], b[1..]) {
        SubsequenceTransitive(a[1..], b[1..], c[1..]);
      } else {
        SubsequenceTransitive(a, b[1..], c[1..]);
      }
    }
  }

  lemma {:induction false} WithoutIsSubsequence<T(!new)>(s: seq<T>, drop: set<T>)
    ensures IsSubsequence(Without(s, drop), s)
  {
    if s != [] {
      WithoutIsSubsequence(s[1..], drop);
    }
  }

  lemma {:induction false} WithoutDistinct<T(!new)>(s: seq<T>, drop: set<T>)
    requires Distinct(s)
    ensures Distinct(Without(s, drop))
  {
    if s != [] {
      assert Distinct(s[1..]);
      WithoutDistinct(s[1..], drop);
    }
  }

  /** Filtering twice is filtering once by both sets. */
  lemma {:induction false} WithoutWithout<T(!new)>(s: seq<T>, a: set<T>, b: set<T>)
    ensures Without(Without(s, a), b) == Without(s, a + b)
  {
    if s != [] {
      WithoutWithout(s[1..], a, b);
    }
  }

  /** Filtering out nothing that occurs leaves the sequence as it is. */
  lemma {:induction false} WithoutNothing<T(!new)>(s: seq<T>, drop: set<T>)
    requires forall x :: x in drop ==> x !in s
    ensures Without(s, drop) == s
  {
    if s != [] {
      WithoutNothing(s[1..], drop);
    }
  }

  lemma {:induction false} DistinctCard<T>(s: seq<T>)
    requires Distinct(s)
    ensures |Elems(s)| == |s|
  {
    if s != [] {
      assert Elems(s) == {s[0]} + Elems(s[1..]);
      assert s[0] !in Elems(s[1..]);
      DistinctCard(s[1..]);
    }
  }

  /** Removing a duplicate-free selection `d` of the elements of a
      duplicate-free `s` leaves `|s| - |d|` elements. */
  lemma WithoutSelection<T(!new)>(s: seq<T>, d: seq<T>)
    requires Distinct(s) && Distinct(d) && Elems(d) <= Elems(s)
    ensures |Without(s, Elems(d))| == |s| - |d|
  {
    var r := Without(s, Elems(d));
    WithoutDistinct(s, Elems(d));
    DistinctCard(r);
    DistinctCard(s);
    DistinctCard(d);
    assert Elems(r) == Elems(s) - Elems(d);
    SubsetDifferenceCard(Elems(s), Elems(d));
  }

  lemma SubsetDifferenceCard<T>(a: set<T>, b: set<T>)
    requires b <= a
    ensures |a - b| == |a| - |b|
  {
  }
}
