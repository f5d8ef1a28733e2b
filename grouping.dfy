/** Group-by-and-count: `frame.groupby(keys).size()`. The result has one
    entry per distinct key, keys in ascending order, each with the number of
    rows that carry it. The key order is a parameter `lt`, a strict total
    order on the key type. */
module Grouping {

  /** One group of a `groupby(...).size()` result. */
  datatype Tally<K> = Tally(key: K, count: nat)

  ghost predicate StrictTotalOrder<K(!new)>(lt: (K, K) -> bool) {
    && (forall a :: !lt(a, a))
    && (forall a, b, c :: lt(a, b) && lt(b, c) ==> lt(a, c))
    && (forall a, b :: a == b || lt(a, b) || lt(b, a))
  }

  /** Keys strictly ascending, hence pairwise distinct. */
  ghost predicate Ascending<K>(g: seq<Tally<K>>, lt: (K, K) -> bool) {
    forall i, j :: 0 <= i < j < |g| ==> lt(g[i].key, g[j].key)
  }

  /** No empty group. */
  ghost predicate Positive<K>(g: seq<Tally<K>>) {
    forall i :: 0 <= i < |g| ==> g[i].count >= 1
  }

  /** The key column (`size().index`). */
  function Keys<K>(g: seq<Tally<K>>): (ks: seq<K>)
    ensures |ks| == |g|
    ensures forall i :: 0 <= i < |g| ==> ks[i] == g[i].key
  {
    if g == [] then [] else [g[0].key] + Keys(g[1..])
  }

  /** The count column (`size().values`). */
  function Counts<K>(g: seq<Tally<K>>): (cs: seq<nat>)
    ensures |cs| == |g|
    ensures forall i :: 0 <= i < |g| ==> cs[i] == g[i].count
  {
    if g == [] then [] else [g[0].count] + Counts(g[1..])
  }

  /** The sum of a column of counts. */
  function Sum(cs: seq<nat>): nat {
    if cs == [] then 0 else cs[0] + Sum(cs[1..])
  }

  /** The sum of a tally's counts: the number of rows it tallies. */
  function Total<K>(g: seq<Tally<K>>): nat {
    Sum(Counts(g))
  }

  /** A tally's total is its first count plus the total of the rest. */
  lemma TotalUnfold<K>(g: seq<Tally<K>>)
    requires g != []
    ensures Total(g) == g[0].count + Total(g[1..])
  {
    assert Counts(g)[1..] == Counts(g[1..]);
  }

  /** The count recorded for key `k` (summed, should `k` occur twice). */
  function CountOf<K(==)>(g: seq<Tally<K>>, k: K): nat {
    if g == [] then 0 else (if g[0].key == k then g[0].count else 0) + CountOf(g[1..], k)
  }

  /** Adds one row with key `k` to an ascending tally: bumps its group or
      opens a new group of one at its place in the order. */
  function Insert<K(==)>(g: seq<Tally<K>>, k: K, lt: (K, K) -> bool): seq<Tally<K>> {
    if g == [] then [Tally(k, 1)]
    else if g[0].key == k then [Tally(k, g[0].count + 1)] + g[1..]
    else if lt(k, g[0].key) then [Tally(k, 1)] + g
    else [g[0]] + Insert(g[1..], k, lt)
  }

  /** `groupby(s).size()`: the rows of `s` tallied one by one. */
  function CountBy<K(==)>(s: seq<K>, lt: (K, K) -> bool): seq<Tally<K>> {
    if s == [] then [] else Insert(CountBy(s[..|s| - 1], lt), s[|s| - 1], lt)
  }

  lemma {:induction false} InsertCountOf<K>(g: seq<Tally<K>>, k: K, lt: (K, K) -> bool, x: K)
    ensures CountOf(Insert(g, k, lt), x) == CountOf(g, x) + (if x == k then 1 else 0)
  {
    if g == [] {
    } else if g[0].key == k {
      assert Insert(g, k, lt)[1..] == g[1..];
    } else if lt(k, g[0].key) {
      assert Insert(g, k, lt)[1..] == g;
    } else {
      InsertCountOf(g[1..], k, lt, x);
      assert Insert(g, k, lt)[1..] == Insert(g[1..], k, lt);
    }
  }

  lemma {:induction false} InsertTotal<K>(g: seq<Tally<K>>, k: K, lt: (K, K) -> bool)
    ensures Total(Insert(g, k, lt)) == Total(g) + 1
  {
    var h := Insert(g, k, lt);
    TotalUnfold(h);
    if g == [] {
      assert h[1..] == [];
    } else if g[0].key == k {
      TotalUnfold(g);
      assert h[1..] == g[1..];
    } else if lt(k, g[0].key) {
      assert h[1..] == g;
    } else {
      TotalUnfold(g);
      InsertTotal(g[1..], k, lt);
      assert h[1..] == Insert(g[1..], k, lt);
    }
  }

  lemma {:induction false} InsertKeys<K>(g: seq<Tally<K>>, k: K, lt: (K, K) -> bool, x: K)
    ensures x in Keys(Insert(g, k, lt)) <==> x in Keys(g) || x == k
  {
    if g == [] {
    } else if g[0].key == k {
      assert Keys(Insert(g, k, lt)) == [k] + Keys(g[1..]);
      assert Keys(g) == [k] + Keys(g[1..]);
    } else if lt(k, g[0].key) {
      assert Keys(Insert(g, k, lt)) == [k] + Keys(g);
    } else {
      InsertKeys(g[1..], k, lt, x);
      assert Keys(Insert(g, k, lt)) == [g[0].key] + Keys(Insert(g[1..], k, lt));
      assert Keys(g) == [g[0].key] + Keys(g[1..]);
    }
  }

  lemma {:induction false} InsertPositive<K>(g: seq<Tally<K>>, k: K, lt: (K, K) -> bool)
    requires Positive(g)
    ensures Positive(Insert(g, k, lt))
  {
    if g != [] && g[0].key != k && !lt(k, g[0].key) {
      InsertPositive(g[1..], k, lt);
    }
  }

  lemma {:induction false} InsertAscending<K(!new)>(g: seq<Tally<K>>, k: K, lt: (K, K) -> bool)
    requires StrictTotalOrder(lt) && Ascending(g, lt)
    ensures Ascending(Insert(g, k, lt), lt)
  {
    if g == [] {
    } else if g[0].key == k {
    } else if lt(k, g[0].key) {
    } else {
      var rest := Insert(g[1..], k, lt);
      InsertAscending(g[1..], k, lt);
      assert lt(g[0].key, k);
      forall j | 0 <= j < |rest|
        ensures lt(g[0].key, rest[j].key)
      {
        assert rest[j].key in Keys(rest);
        InsertKeys(g[1..], k, lt, rest[j].key);
        if rest[j].key != k {
          var i :| 0 <= i < |g[1..]| && Keys(g[1..])[i] == rest[j].key;
          assert g[1..][i] == g[i + 1];
        }
      }
      assert Insert(g, k, lt) == [g[0]] + rest;
    }
  }

  /** In an ascending tally each group's count is the count recorded for its
      key, and a key that has no group is recorded zero times. */
  lemma {:induction false} CountOfAscending<K(!new)>(g: seq<Tally<K>>, lt: (K, K) -> bool, x: K)
    requires StrictTotalOrder(lt) && Ascending(g, lt)
    ensures x !in Keys(g) ==> CountOf(g, x) == 0
    ensures forall i :: 0 <= i < |g| && g[i].key == x ==> CountOf(g, x) == g[i].count
  {
    if g != [] {
      CountOfAscending(g[1..], lt, x);
      assert Keys(g) == [g[0].key] + Keys(g[1..]);
      if g[0].key == x {
        assert x !in Keys(g[1..]);
      }
      forall i | 0 <= i < |g| && g[i].key == x
        ensures CountOf(g, x) == g[i].count
      {
        if i > 0 {
          assert lt(g[0].key, g[i].key);
          assert g[1..][i - 1] == g[i];
        }
      }
    }
  }

  /** `CountBy(s)` is the group-by-size of `s`: keys strictly ascending, no
      empty group, exactly the values of `s` as keys, each key recorded as
      often as it occurs in `s`, and the counts adding up to `|s|`. */
  lemma {:induction false} CountByTallies<K(!new)>(s: seq<K>, lt: (K, K) -> bool)
    requires StrictTotalOrder(lt)
    ensures Ascending(CountBy(s, lt), lt)
    ensures Positive(CountBy(s, lt))
    ensures Total(CountBy(s, lt)) == |s|
    ensures forall x :: CountOf(CountBy(s, lt), x) == multiset(s)[x]
    ensures forall x :: x in Keys(CountBy(s, lt)) <==> x in s
  {
    if s != [] {
      var init, last := s[..|s| - 1], s[|s| - 1];
      assert s == init + [last];
      CountByTallies(init, lt);
      var g := CountBy(init, lt);
      InsertAscending(g, last, lt);
      InsertPositive(g, last, lt);
      InsertTotal(g, last, lt);
      forall x
        ensures CountOf(CountBy(s, lt), x) == multiset(s)[x]
        ensures x in Keys(CountBy(s, lt)) <==> x in s
      {
        InsertCountOf(g, last, lt, x);
        InsertKeys(g, last, lt, x);
      }
    }
  }

  /** Entry-wise reading of `CountByTallies`: every group counts the rows of
      `s` with its key, and so is non-empty. */
  lemma CountByEntries<K(!new)>(s: seq<K>, lt: (K, K) -> bool)
    requires StrictTotalOrder(lt)
    ensures forall i :: 0 <= i < |CountBy(s, lt)| ==>
      CountBy(s, lt)[i].count == multiset(s)[CountBy(s, lt)[i].key] >= 1
  {
    var g := CountBy(s, lt);
    CountByTallies(s, lt);
    forall i | 0 <= i < |g|
      ensures g[i].count == multiset(s)[g[i].key]
    {
      CountOfAscending(g, lt, g[i].key);
    }
  }

  /** An ascending, positive tally is determined by the counts it records:
      two of them that agree on every key are equal. So `CountBy` is the only
      result its contract allows. */
  lemma {:induction false} TallyUnique<K(!new)>(g: seq<Tally<K>>, h: seq<Tally<K>>, lt: (K, K) -> bool)
    requires StrictTotalOrder(lt)
    requires Ascending(g, lt) && Positive(g) && Ascending(h, lt) && Positive(h)
    requires forall x :: CountOf(g, x) == CountOf(h, x)
    ensures g == h
  {
    if g == [] || h == [] {
      if g != [] {
        assert CountOf(h, g[0].key) == 0;
        CountOfAscending(g, lt, g[0].key);
      } else if h != [] {
        assert CountOf(g, h[0].key) == 0;
        CountOfAscending(h, lt, h[0].key);
      }
    } else {
      var a, b := g[0].key, h[0].key;
      CountOfAscending(g, lt, a);
      CountOfAscending(h, lt, b);
      if lt(a, b) {
        MinimumAbsent(h, lt, a);
        assert false;
      } else if lt(b, a) {
        MinimumAbsent(g, lt, b);
        assert false;
      }
      assert a == b;
      forall x
        ensures CountOf(g[1..], x) == CountOf(h[1..], x)
      {
        assert CountOf(g, x) == CountOf(h, x);
      }
      TallyUnique(g[1..], h[1..], lt);
      assert g == [g[0]] + g[1..];
      assert h == [h[0]] + h[1..];
    }
  }

  /** A key below the first key of an ascending tally has no group there. */
  lemma MinimumAbsent<K(!new)>(g: seq<Tally<K>>, lt: (K, K) -> bool, x: K)
    requires StrictTotalOrder(lt) && Ascending(g, lt) && g != [] && lt(x, g[0].key)
    ensures CountOf(g, x) == 0
  {
    CountOfAscending(g, lt, x);
  }
}
