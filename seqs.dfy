/**
 * Sequence helpers: JavaScript's `Array.prototype.filter` and the
 * "order-preserving subsequence" relation that states what filtering keeps.
 */
module Seqs {

  /** `s.filter(p)`: the elements of `s` that satisfy `p`, in their original order. */
  function Filter<T(==,!new)>(s: seq<T>, p: T -> bool): (r: seq<T>)
    ensures |r| <= |s|
    ensures forall x :: x in r <==> x in s && p(x)
    decreases |s|
  {
    if s == [] then []
    else if p(s[0]) then [s[0]] + Filter(s[1..], p)
    else Filter(s[1..], p)
  }

  /** `a` is obtained from `b` by deleting elements, keeping the order of the rest. */
  predicate IsSubsequence<T(==,!new)>(a: seq<T>, b: seq<T>)
    decreases |b|
  {
    if a == [] then true
    else if b == [] then false
    else (a[0] == b[0] && IsSubsequence(a[1..], b[1..])) || IsSubsequence(a, b[1..])
  }

  lemma {:induction false} SubsequenceReflexive<T(!new)>(s: seq<T>)
    ensures IsSubsequence(s, s)
    decreases |s|
  {
    if s != [] {
      SubsequenceReflexive(s[1..]);
    }
  }

  /** Filtering keeps order: its result is a subsequence of its input. */
  lemma {:induction false} FilterIsSubsequence<T(!new)>(s: seq<T>, p: T -> bool)
    ensures IsSubsequence(Filter(s, p), s)
    decreases |s|
  {
    if s != [] {
      FilterIsSubsequence(s[1..], p);
    }
  }

  lemma {:induction false} FilterAppend<T(!new)>(a: seq<T>, b: seq<T>, p: T -> bool)
    ensures Filter(a + b, p) == Filter(a, p) + Filter(b, p)
    decreases |a|
  {
    if a == [] {
      assert a + b == b;
    } else {
      assert (a + b)[1..] == a[1..] + b;
      FilterAppend(a[1..], b, p);
    }
  }

  /** A predicate that holds of every element filters nothing out. */
  lemma {:induction false} FilterKeepsAll<T(!new)>(s: seq<T>, p: T -> bool)
    requires forall x :: x in s ==> p(x)
    ensures Filter(s, p) == s
    decreases |s|
  {
    if s != [] {
      assert s == [s[0]] + s[1..];
      FilterKeepsAll(s[1..], p);
    }
  }

  /** Two predicates that agree on the elements of `s` filter `s` alike. */
  lemma {:induction false} FilterAgree<T(!new)>(s: seq<T>, p: T -> bool, q: T -> bool)
    requires forall x :: x in s ==> p(x) == q(x)
    ensures Filter(s, p) == Filter(s, q)
    decreases |s|
  {
    if s != [] {
      assert forall x :: x in s[1..] ==> x in s;
      FilterAgree(s[1..], p, q);
    }
  }

  /** Filtering twice is filtering once by the conjunction. */
  lemma {:induction false} FilterTwice<T(!new)>(s: seq<T>, p: T -> bool, q: T -> bool, pq: T -> bool)
    requires forall x :: x in s ==> pq(x) == (p(x) && q(x))
    ensures Filter(Filter(s, p), q) == Filter(s, pq)
    decreases |s|
  {
    if s != [] {
      assert forall x :: x in s[1..] ==> x in s;
      FilterTwice(s[1..], p, q, pq);
    }
  }

  /** Filtering by a disjoint union counts the two parts separately. */
  lemma {:induction false} FilterDisjointLength<T(!new)>(s: seq<T>, p: T -> bool, q: T -> bool, pq: T -> bool)
    requires forall x :: x in s ==> pq(x) == (p(x) || q(x)) && !(p(x) && q(x))
    ensures |Filter(s, pq)| == |Filter(s, p)| + |Filter(s, q)|
    decreases |s|
  {
    if s != [] {
      assert forall x :: x in s[1..] ==> x in s;
      FilterDisjointLength(s[1..], p, q, pq);
    }
  }

  /** Filtering keeps every copy of a kept value and no copy of a dropped one. */
  lemma {:induction false} FilterCount<T(!new)>(s: seq<T>, p: T -> bool, x: T)
    ensures multiset(Filter(s, p))[x] == if p(x) then multiset(s)[x] else 0
    decreases |s|
  {
    if s != [] {
      assert s == [s[0]] + s[1..];
      FilterCount(s[1..], p, x);
    }
  }

  /** `FilterCount` for every value at once. */
  lemma FilterCountAll<T(!new)>(s: seq<T>, p: T -> bool)
    ensures forall x :: multiset(Filter(s, p))[x] == if p(x) then multiset(s)[x] else 0
  {
    forall x
      ensures multiset(Filter(s, p))[x] == if p(x) then multiset(s)[x] else 0
    {
      FilterCount(s, p, x);
    }
  }

  /** A predicate that holds of no element filters everything out. */
  lemma {:induction false} FilterDropsAll<T(!new)>(s: seq<T>, p: T -> bool)
    requires forall x :: x in s ==> !p(x)
    ensures Filter(s, p) == []
    decreases |s|
  {
    if s != [] {
      assert forall x :: x in s[1..] ==> x in s;
      FilterDropsAll(s[1..], p);
    }
  }
}
