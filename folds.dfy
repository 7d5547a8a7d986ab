/**
 * The array idioms the screens are built from: `filter`, `reduce` with `+`,
 * and grouping by a key into a dictionary of running sums. Everything
 * recurses on the LAST element, so that each definition is the left fold
 * that `reduce` and `forEach` perform.
 */
module Folds {

  /** `xs.filter(p)`. */
  function Filter<T(!new)>(xs: seq<T>, p: T -> bool): (r: seq<T>)
    ensures |r| <= |xs|
    ensures forall x :: x in r <==> x in xs && p(x)
  {
    if xs == [] then []
    else Filter(xs[..|xs| - 1], p) + (if p(xs[|xs| - 1]) then [xs[|xs| - 1]] else [])
  }

  /** `r` is `xs` with some elements dropped and the rest kept in their order. */
  predicate Subsequence<T(==)>(r: seq<T>, xs: seq<T>)
    decreases |xs|
  {
    if r == [] then true
    else if xs == [] then false
    else
      var keepsLast := r[|r| - 1] == xs[|xs| - 1] && Subsequence(r[..|r| - 1], xs[..|xs| - 1]);
      keepsLast || Subsequence(r, xs[..|xs| - 1])
  }

  lemma {:induction false} FilterIsSubsequence<T(!new)>(xs: seq<T>, p: T -> bool)
    ensures Subsequence(Filter(xs, p), xs)
  {
    if xs != [] {
      var init, last := xs[..|xs| - 1], xs[|xs| - 1];
      FilterIsSubsequence(init, p);
      var r := Filter(xs, p);
      if p(last) {
        assert r == Filter(init, p) + [last];
        assert r[..|r| - 1] == Filter(init, p) && r[|r| - 1] == last;
      } else {
        assert r == Filter(init, p);
      }
    }
  }

  /** `filter` keeps every copy of a satisfying element and no copy of any other. */
  lemma {:induction false} FilterCounts<T(!new)>(xs: seq<T>, p: T -> bool)
    ensures forall x :: multiset(Filter(xs, p))[x] == if p(x) then multiset(xs)[x] else 0
  {
    if xs != [] {
      var init, last := xs[..|xs| - 1], xs[|xs| - 1];
      FilterCounts(init, p);
      assert xs == init + [last];
    }
  }

  /** A predicate that holds everywhere keeps the whole list. */
  lemma {:induction false} FilterAll<T(!new)>(xs: seq<T>, p: T -> bool)
    requires forall x :: x in xs ==> p(x)
    ensures Filter(xs, p) == xs
  {
    if xs != [] {
      var init, last := xs[..|xs| - 1], xs[|xs| - 1];
      forall x | x in init
        ensures p(x)
      {
        assert x in xs;
      }
      FilterAll(init, p);
      assert p(last) by {
        assert last in xs;
      }
      calc {
        Filter(xs, p);
        Filter(init, p) + [last];
        init + [last];
        xs;
      }
    }
  }

  /** Predicates that agree on every element keep the same elements. */
  lemma {:induction false} FilterCongruent<T(!new)>(xs: seq<T>, p: T -> bool, q: T -> bool)
    requires forall x :: x in xs ==> p(x) == q(x)
    ensures Filter(xs, p) == Filter(xs, q)
  {
    if xs != [] {
      FilterCongruent(xs[..|xs| - 1], p, q);
    }
  }

  /**
   * `xs.findIndex(p)`: the first index whose element satisfies `p`, or -1.
   * Unlike the folds, the search runs from the front.
   */
  function FindIndex<T(!new)>(xs: seq<T>, p: T -> bool): (k: int)
    ensures -1 <= k < |xs|
    ensures k >= 0 ==> p(xs[k]) && forall j :: 0 <= j < k ==> !p(xs[j])
    ensures k == -1 <==> forall j :: 0 <= j < |xs| ==> !p(xs[j])
  {
    if xs == [] then -1
    else if p(xs[0]) then 0
    else
      var k := FindIndex(xs[1..], p);
      if k == -1 then -1 else k + 1
  }

  /** Being the first index that satisfies `p`, or -1 when none does, fixes the index. */
  lemma FindIndexUnique<T(!new)>(xs: seq<T>, p: T -> bool, k: int)
    requires -1 <= k < |xs|
    requires k >= 0 ==> p(xs[k]) && forall j :: 0 <= j < k ==> !p(xs[j])
    requires k == -1 ==> forall j :: 0 <= j < |xs| ==> !p(xs[j])
    ensures k == FindIndex(xs, p)
  {
  }

  /** `xs.reduce((acc, x) => acc + f(x), 0)`. */
  function Sum<T>(xs: seq<T>, f: T -> int): int
  {
    if xs == [] then 0 else Sum(xs[..|xs| - 1], f) + f(xs[|xs| - 1])
  }

  /** The sum of a two-element list. */
  lemma SumPair<T>(a: T, b: T, f: T -> int)
    ensures Sum([a, b], f) == f(a) + f(b)
  {
    var xs := [a, b];
    assert xs[..1] == [a] && [a][..0] == [];
    assert Sum([a], f) == Sum([], f) + f(a);
    assert Sum(xs, f) == Sum(xs[..1], f) + f(b);
  }

  lemma {:induction false} SumAppend<T>(xs: seq<T>, ys: seq<T>, f: T -> int)
    ensures Sum(xs + ys, f) == Sum(xs, f) + Sum(ys, f)
    decreases |ys|
  {
    if ys == [] {
      assert xs + ys == xs;
    } else {
      assert (xs + ys)[..|xs + ys| - 1] == xs + ys[..|ys| - 1];
      SumAppend(xs, ys[..|ys| - 1], f);
    }
  }

  /** A sum of nonnegative terms over a sublist is bounded by the sum over the list. */
  lemma {:induction false} SumFilterBounded<T(!new)>(xs: seq<T>, p: T -> bool, f: T -> int)
    requires forall x :: x in xs ==> f(x) >= 0
    ensures 0 <= Sum(Filter(xs, p), f) <= Sum(xs, f)
  {
    if xs != [] {
      var init, last := xs[..|xs| - 1], xs[|xs| - 1];
      assert forall x :: x in init ==> x in xs;
      SumFilterBounded(init, p, f);
      SumAppend(Filter(init, p), if p(last) then [last] else [], f);
      assert Sum([last], f) == f(last) by {
        assert [last][..0] == [];
      }
    }
  }

  /** The running sum that grouping by `key` keeps for the key `k`. */
  function SumWhere<T, K(==)>(xs: seq<T>, key: T -> K, k: K, f: T -> int): int
  {
    if xs == [] then 0
    else SumWhere(xs[..|xs| - 1], key, k, f) + (if key(xs[|xs| - 1]) == k then f(xs[|xs| - 1]) else 0)
  }

  /** The keys met in `xs`. */
  function Keys<T(!new), K(==)>(xs: seq<T>, key: T -> K): (r: set<K>)
    ensures forall x :: x in xs ==> key(x) in r
    ensures forall k :: k in r ==> exists x :: x in xs && key(x) == k
  {
    if xs == [] then {} else Keys(xs[..|xs| - 1], key) + {key(xs[|xs| - 1])}
  }

  /** A key that no element carries has a zero group sum. */
  lemma {:induction false} SumWhereAbsent<T(!new), K>(xs: seq<T>, key: T -> K, k: K, f: T -> int)
    requires k !in Keys(xs, key)
    ensures SumWhere(xs, key, k, f) == 0
  {
    if xs != [] {
      SumWhereAbsent(xs[..|xs| - 1], key, k, f);
    }
  }

  /** The group sums, added up in the order `ks` lists the keys. */
  function SumOverKeys<T, K(==)>(xs: seq<T>, key: T -> K, f: T -> int, ks: seq<K>): int
  {
    if ks == [] then 0
    else SumOverKeys(xs, key, f, ks[..|ks| - 1]) + SumWhere(xs, key, ks[|ks| - 1], f)
  }

  function Occurrences<K(==)>(ks: seq<K>, k: K): nat
  {
    if ks == [] then 0
    else Occurrences(ks[..|ks| - 1], k) + (if ks[|ks| - 1] == k then 1 else 0)
  }

  predicate Distinct<K(==)>(ks: seq<K>)
  {
    forall i, j :: 0 <= i < j < |ks| ==> ks[i] != ks[j]
  }

  lemma {:induction false} OccursOnce<K>(ks: seq<K>, k: K)
    requires Distinct(ks)
    ensures Occurrences(ks, k) == if k in ks then 1 else 0
  {
    if ks != [] {
      var init := ks[..|ks| - 1];
      OccursOnce(init, k);
      if ks[|ks| - 1] == k {
        forall i | 0 <= i < |init|
          ensures init[i] != k
        {
          assert ks[i] == init[i];
        }
      }
    }
  }

  /** Adding one element to the grouped list adds its value once per listing of its key. */
  lemma {:induction false} SumOverKeysSnoc<T, K>(xs: seq<T>, x: T, key: T -> K, f: T -> int, ks: seq<K>)
    ensures SumOverKeys(xs + [x], key, f, ks) == SumOverKeys(xs, key, f, ks) + Occurrences(ks, key(x)) * f(x)
  {
    assert (xs + [x])[..|xs + [x]| - 1] == xs;
    if ks != [] {
      SumOverKeysSnoc(xs, x, key, f, ks[..|ks| - 1]);
    }
  }

  /**
   * Grouping conserves the total: when `ks` lists every key met in `xs`
   * exactly once, the group sums add up to the sum over `xs`.
   */
  lemma {:induction false} PartitionSum<T, K>(xs: seq<T>, key: T -> K, f: T -> int, ks: seq<K>)
    requires Distinct(ks)
    requires forall x :: x in xs ==> key(x) in ks
    ensures SumOverKeys(xs, key, f, ks) == Sum(xs, f)
  {
    if xs == [] {
      SumOverKeysEmpty(key, f, ks);
    } else {
      var init, last := xs[..|xs| - 1], xs[|xs| - 1];
      assert forall x :: x in init ==> x in xs;
      PartitionSum(init, key, f, ks);
      assert xs == init + [last];
      SumOverKeysSnoc(init, last, key, f, ks);
      OccursOnce(ks, key(last));
    }
  }

  lemma {:induction false} SumOverKeysEmpty<T, K>(key: T -> K, f: T -> int, ks: seq<K>)
    ensures SumOverKeys([], key, f, ks) == 0
  {
    if ks != [] {
      SumOverKeysEmpty(key, f, ks[..|ks| - 1]);
    }
  }
}
