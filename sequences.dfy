/** Row selection and column mapping over sequences: the two table operations
    the dashboard applies to its event log. `Where(s, p)` is boolean-mask
    indexing (`frame[mask]`): it keeps the rows for which `p` holds, in their
    original order. `Map(s, f)` is `column.map(f)`. */
module Sequences {

  /** The rows of `s` for which `p` holds, in their original order. */
  function Where<T>(s: seq<T>, p: T -> bool): (r: seq<T>)
    ensures |r| <= |s|
    ensures forall x :: x in r ==> x in s && p(x)
  {
    if s == [] then []
    else if p(s[0]) then [s[0]] + Where(s[1..], p)
    else Where(s[1..], p)
  }

  /** `f` applied to every row of `s`. */
  function Map<T, U>(s: seq<T>, f: T -> U): (r: seq<U>)
    ensures |r| == |s|
    ensures forall i :: 0 <= i < |s| ==> r[i] == f(s[i])
  {
    if s == [] then [] else [f(s[0])] + Map(s[1..], f)
  }

  /** `a` is obtained from `b` by deleting elements, without reordering. */
  ghost predicate IsSubsequence<T>(a: seq<T>, b: seq<T>)
    decreases |b|
  {
    a == [] || (b != [] && ((a[0] == b[0] && IsSubsequence(a[1..], b[1..])) || IsSubsequence(a, b[1..])))
  }

  /** A row is selected exactly when it is a row of `s` and `p` holds of it. */
  lemma {:induction false} WhereMember<T>(s: seq<T>, p: T -> bool, x: T)
    ensures x in Where(s, p) <==> x in s && p(x)
  {
    if s != [] {
      WhereMember(s[1..], p, x);
      assert s == [s[0]] + s[1..];
    }
  }

  /** Each selected value keeps its multiplicity; rejected values vanish. */
  lemma {:induction false} WhereMultiplicity<T>(s: seq<T>, p: T -> bool, x: T)
    ensures multiset(Where(s, p))[x] == if p(x) then multiset(s)[x] else 0
  {
    if s != [] {
      WhereMultiplicity(s[1..], p, x);
      assert s == [s[0]] + s[1..];
    }
  }

  /** Selection never reorders: the result is a subsequence of the input. */
  lemma {:induction false} WhereIsSubsequence<T>(s: seq<T>, p: T -> bool)
    ensures IsSubsequence(Where(s, p), s)
  {
    if s != [] {
      WhereIsSubsequence(s[1..], p);
      if p(s[0]) {
        assert Where(s, p)[1..] == Where(s[1..], p);
      }
    }
  }

  /** Weakening the predicate can only add rows: what a stronger predicate
      keeps is a subsequence of what a weaker one keeps. */
  lemma {:induction false} WhereMonotone<T>(s: seq<T>, p: T -> bool, q: T -> bool)
    requires forall x :: x in s && p(x) ==> q(x)
    ensures IsSubsequence(Where(s, p), Where(s, q))
  {
    if s != [] {
      WhereMonotone(s[1..], p, q);
      if p(s[0]) {
        assert Where(s, p)[1..] == Where(s[1..], p);
        assert Where(s, q)[1..] == Where(s[1..], q);
      } else if q(s[0]) {
        SubsequenceCons(Where(s[1..], p), Where(s[1..], q), s[0]);
      }
    }
  }

  lemma SubsequenceCons<T>(a: seq<T>, b: seq<T>, x: T)
    requires IsSubsequence(a, b)
    ensures IsSubsequence(a, [x] + b)
  {
    assert ([x] + b)[1..] == b;
  }

  /** Two masks that agree on the rows of `s` select the same rows. */
  lemma {:induction false} WhereCongruent<T>(s: seq<T>, p: T -> bool, q: T -> bool)
    requires forall x :: x in s ==> p(x) == q(x)
    ensures Where(s, p) == Where(s, q)
  {
    if s != [] {
      WhereCongruent(s[1..], p, q);
    }
  }

  /** Applying two masks one after the other selects what their conjunction
      selects. */
  lemma {:induction false} WhereWhere<T>(s: seq<T>, p: T -> bool, q: T -> bool, pq: T -> bool)
    requires forall x :: pq(x) == (p(x) && q(x))
    ensures Where(Where(s, p), q) == Where(s, pq)
  {
    if s != [] {
      WhereWhere(s[1..], p, q, pq);
      if p(s[0]) {
        assert Where(s, p)[1..] == Where(s[1..], p);
      }
    }
  }

  /** A mask that every row passes selects everything. */
  lemma {:induction false} WhereAll<T>(s: seq<T>, p: T -> bool)
    requires forall x :: x in s ==> p(x)
    ensures Where(s, p) == s
  {
    if s != [] {
      WhereAll(s[1..], p);
    }
  }

  /** A value occurs in a mapped column exactly when some row maps to it. */
  lemma {:induction false} MapMember<T, U>(s: seq<T>, f: T -> U, y: U)
    ensures y in Map(s, f) <==> exists x :: x in s && f(x) == y
  {
    if s != [] {
      MapMember(s[1..], f, y);
      assert Map(s, f) == [f(s[0])] + Map(s[1..], f);
      assert s == [s[0]] + s[1..];
    }
  }

  /** How often `y` occurs in the mapped column is the number of rows that
      map to it, that is, the number of rows `isY` selects. */
  lemma {:induction false} MapMultiplicity<T, U>(s: seq<T>, f: T -> U, y: U, isY: T -> bool)
    requires forall x :: isY(x) == (f(x) == y)
    ensures multiset(Map(s, f))[y] == |Where(s, isY)|
  {
    if s != [] {
      MapMultiplicity(s[1..], f, y, isY);
      assert Map(s, f) == [f(s[0])] + Map(s[1..], f);
    }
  }
}
