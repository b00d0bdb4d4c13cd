/**
 * `Array.prototype.sort` with a numeric comparator `(a, b) => key(a) - key(b)`,
 * as an insertion sort that works in place on the array it is given.
 */
module Sorting {

  /** `s` is in non-decreasing order of `key`. */
  predicate SortedBy<T>(s: seq<T>, key: T -> real) {
    forall i, j :: 0 <= i < j < |s| ==> key(s[i]) <= key(s[j])
  }

  /** Exchanges two elements of `a`. */
  method Swap<T>(a: array<T>, i: int, j: int)
    requires 0 <= i < a.Length && 0 <= j < a.Length
    modifies a
    ensures a[..] == old(a[..])[i := old(a[j])][j := old(a[i])]
    ensures multiset(a[..]) == multiset(old(a[..]))
  {
    a[i], a[j] := a[j], a[i];
  }

  /** Moves `a[i]` down into the sorted prefix `a[..i]`, leaving the rest of `a` alone. */
  method Insert<T>(a: array<T>, i: int, key: T -> real)
    requires 0 <= i < a.Length && SortedBy(a[..i], key)
    modifies a
    ensures SortedBy(a[..i + 1], key)
    ensures multiset(a[..]) == multiset(old(a[..]))
    ensures a[i + 1..] == old(a[i + 1..])
  {
    var j := i;
    while j > 0 && key(a[j - 1]) > key(a[j])
      invariant 0 <= j <= i
      invariant multiset(a[..]) == multiset(old(a[..]))
      invariant a[i + 1..] == old(a[i + 1..])
      invariant forall k, l :: 0 <= k < l <= i && k != j && l != j ==> key(a[k]) <= key(a[l])
      invariant forall l :: j < l <= i ==> key(a[j]) < key(a[l])
    {
      Swap(a, j - 1, j);
      j := j - 1;
    }
  }

  /** Sorts `a` in place into non-decreasing order of `key`, keeping its elements. */
  method SortByKey<T>(a: array<T>, key: T -> real)
    modifies a
    ensures SortedBy(a[..], key)
    ensures multiset(a[..]) == multiset(old(a[..]))
  {
    var i := 0;
    while i < a.Length
      invariant 0 <= i <= a.Length
      invariant SortedBy(a[..i], key)
      invariant multiset(a[..]) == multiset(old(a[..]))
    {
      Insert(a, i, key);
      i := i + 1;
    }
    assert a[..a.Length] == a[..];
  }
}
