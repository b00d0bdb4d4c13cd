/** `Array.prototype.filter` and the facts about it the model relies on. */
module Seqs {

  /**
   * `s.filter(p)`: the elements of `s` satisfying `p`, in their original order.
   * The recursion runs through FilterOf, so that a proof about a filtered
   * sequence sees it unfolded only where it asks for FilterNil or FilterCons.
   */
  function Filter<T(!new)>(s: seq<T>, p: T -> bool): (r: seq<T>)
    ensures |r| <= |s|
    ensures forall i :: 0 <= i < |r| ==> p(r[i])
    decreases |s|, 1
  {
    FilterOf(s, p)
  }

  function FilterOf<T(!new)>(s: seq<T>, p: T -> bool): (r: seq<T>)
    ensures |r| <= |s|
    ensures forall i :: 0 <= i < |r| ==> p(r[i])
    decreases |s|, 0
  {
    if s == [] then []
    else
      (if p(s[0]) then [s[0]] else []) + Filter(s[1..], p)
  }

  /** Nothing survives filtering the empty sequence. */
  lemma FilterNil<T(!new)>(s: seq<T>, p: T -> bool)
    requires s == []
    ensures Filter(s, p) == []
  {
    assert Filter(s, p) == FilterOf(s, p);
  }

  /** The first element is kept exactly when it satisfies `p`; the rest is filtered alike. */
  lemma FilterCons<T(!new)>(s: seq<T>, p: T -> bool)
    requires s != []
    ensures Filter(s, p) == (if p(s[0]) then [s[0]] else []) + Filter(s[1..], p)
  {
    assert Filter(s, p) == FilterOf(s, p);
  }

  /** Filtering a concatenation filters each part, keeping their order. */
  lemma {:induction false} FilterAppend<T(!new)>(a: seq<T>, b: seq<T>, p: T -> bool)
    ensures Filter(a + b, p) == Filter(a, p) + Filter(b, p)
  {
    if a == [] {
      assert a + b == b;
      FilterNil(a, p);
    } else {
      var head := if p(a[0]) then [a[0]] else [];
      assert (a + b)[0] == a[0];
      assert (a + b)[1..] == a[1..] + b;
      FilterCons(a, p);
      FilterCons(a + b, p);
      FilterAppend(a[1..], b, p);
      assert Filter(a + b, p) == head + (Filter(a[1..], p) + Filter(b, p));
    }
  }

  /** Filtering keeps every occurrence of an element satisfying `p` and none of the others. */
  lemma {:induction false} FilterCount<T(!new)>(s: seq<T>, p: T -> bool, x: T)
    ensures multiset(Filter(s, p))[x] == if p(x) then multiset(s)[x] else 0
  {
    if s == [] {
      FilterNil(s, p);
    } else {
      FilterCons(s, p);
      assert s == [s[0]] + s[1..];
      FilterCount(s[1..], p, x);
    }
  }

  /** Filtering keeps an element of `s` exactly when it satisfies `p`. */
  lemma FilterMembership<T(!new)>(s: seq<T>, p: T -> bool, x: T)
    ensures x in Filter(s, p) <==> x in s && p(x)
  {
    FilterCount(s, p, x);
    assert x in Filter(s, p) <==> multiset(Filter(s, p))[x] > 0;
    assert x in s <==> multiset(s)[x] > 0;
  }

  /** If `p` implies `q` everywhere, filtering by `p` keeps no more than filtering by `q`. */
  lemma {:induction false} FilterMonotone<T(!new)>(s: seq<T>, p: T -> bool, q: T -> bool)
    requires forall x :: p(x) ==> q(x)
    ensures |Filter(s, p)| <= |Filter(s, q)|
  {
    if s == [] {
      FilterNil(s, p);
      FilterNil(s, q);
    } else {
      FilterCons(s, p);
      FilterCons(s, q);
      FilterMonotone(s[1..], p, q);
    }
  }

  /** Two predicates that agree on every element of `s` filter it alike. */
  lemma {:induction false} FilterAgree<T(!new)>(s: seq<T>, p: T -> bool, q: T -> bool)
    requires forall i :: 0 <= i < |s| ==> (p(s[i]) <==> q(s[i]))
    ensures Filter(s, p) == Filter(s, q)
  {
    if s == [] {
      FilterNil(s, p);
      FilterNil(s, q);
    } else {
      FilterCons(s, p);
      FilterCons(s, q);
      FilterAgree(s[1..], p, q);
    }
  }

  /** Elements satisfying two disjoint predicates together number at most `|s|`. */
  lemma {:induction false} FilterDisjoint<T(!new)>(s: seq<T>, p: T -> bool, q: T -> bool)
    requires forall x :: !(p(x) && q(x))
    ensures |Filter(s, p)| + |Filter(s, q)| <= |s|
  {
    if s == [] {
      FilterNil(s, p);
      FilterNil(s, q);
    } else {
      FilterCons(s, p);
      FilterCons(s, q);
      FilterDisjoint(s[1..], p, q);
    }
  }
}
