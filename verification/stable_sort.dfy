/**
 * One stable sort by an integer key. JavaScript's `Array.prototype.sort` is
 * stable, and every ordering of the storage layer (created descending, score
 * descending, views descending, revealedAt descending, revealDate ascending)
 * is this sort with a suitable key: a descending order uses the negated value.
 */
module StableSort {
  import opened Seqs

  /** Keys are non-decreasing along `s`. */
  ghost predicate SortedBy<T>(s: seq<T>, key: T -> int) {
    forall i, j :: 0 <= i < j < |s| ==> key(s[i]) <= key(s[j])
  }

  /** The elements of `s` whose key is `k`, in their order in `s`. */
  function WithKey<T>(s: seq<T>, key: T -> int, k: int): seq<T> {
    if |s| == 0 then [] else (if key(s[0]) == k then [s[0]] else []) + WithKey(s[1..], key, k)
  }

  lemma WithKeyCons<T>(x: T, s: seq<T>, key: T -> int, k: int)
    ensures WithKey([x] + s, key, k) == (if key(x) == k then [x] else []) + WithKey(s, key, k)
  {
    assert ([x] + s)[1..] == s;
  }

  /**
   * Inserts `x` in front of the first element whose key is not smaller than
   * its own: `x` comes from earlier in the input than everything in `s`, so
   * it must precede the elements that share its key.
   */
  function Insert<T>(x: T, s: seq<T>, key: T -> int): (r: seq<T>)
    requires SortedBy(s, key)
    ensures |r| == |s| + 1
    ensures multiset(r) == multiset(s) + multiset{x}
    ensures SortedBy(r, key)
  {
    if |s| == 0 || key(x) <= key(s[0]) then
      [x] + s
    else
      assert s == [s[0]] + s[1..];
      var rest := Insert(x, s[1..], key);
      assert multiset(rest) == multiset(s[1..] + [x]);
      assert forall i :: 0 <= i < |s[1..] + [x]| ==> key(s[0]) <= key((s[1..] + [x])[i]);
      LowerBoundByMultiset(rest, s[1..] + [x], key, key(s[0]));
      [s[0]] + rest
  }

  /** A lower bound on the keys of a sequence carries over to any permutation of it. */
  lemma LowerBoundByMultiset<T>(a: seq<T>, b: seq<T>, key: T -> int, lo: int)
    requires multiset(a) == multiset(b)
    requires forall i :: 0 <= i < |b| ==> lo <= key(b[i])
    ensures forall i :: 0 <= i < |a| ==> lo <= key(a[i])
  {
    forall i | 0 <= i < |a|
      ensures lo <= key(a[i])
    {
      assert a[i] in multiset(b);
    }
  }

  /** The elements of a prefix with a given key are a prefix of those of the whole. */
  lemma {:induction false} WithKeyPrefix<T>(a: seq<T>, b: seq<T>, key: T -> int, k: int)
    requires a <= b
    ensures WithKey(a, key, k) <= WithKey(b, key, k)
  {
    if |a| > 0 {
      assert a[1..] <= b[1..];
      WithKeyPrefix(a[1..], b[1..], key, k);
    }
  }

  /** Inserting `x` adds it in front of the elements that share its key. */
  lemma {:induction false} InsertWithKey<T>(x: T, s: seq<T>, key: T -> int, k: int)
    requires SortedBy(s, key)
    ensures WithKey(Insert(x, s, key), key, k) == (if key(x) == k then [x] else []) + WithKey(s, key, k)
  {
    if |s| == 0 || key(x) <= key(s[0]) {
      WithKeyCons(x, s, key, k);
    } else {
      var rest := Insert(x, s[1..], key);
      InsertWithKey(x, s[1..], key, k);
      assert s == [s[0]] + s[1..];
      WithKeyCons(s[0], rest, key, k);
      WithKeyCons(s[0], s[1..], key, k);
    }
  }

  /**
   * Stable sort by ascending key: a permutation of the input, sorted, and
   * for every key value the elements carrying it keep their input order.
   */
  function SortBy<T>(s: seq<T>, key: T -> int): (r: seq<T>)
    ensures |r| == |s|
    ensures multiset(r) == multiset(s)
    ensures SortedBy(r, key)
  {
    if |s| == 0 then []
    else
      assert s == [s[0]] + s[1..];
      Insert(s[0], SortBy(s[1..], key), key)
  }

  /** The sort is stable: the elements sharing any one key keep their input order. */
  lemma {:induction false} SortByStable<T>(s: seq<T>, key: T -> int, k: int)
    ensures WithKey(SortBy(s, key), key, k) == WithKey(s, key, k)
  {
    if |s| > 0 {
      var sorted := SortBy(s[1..], key);
      SortByStable(s[1..], key, k);
      assert SortBy(s, key) == Insert(s[0], sorted, key);
      InsertWithKey(s[0], sorted, key, k);
    }
  }

  /**
   * Cutting a sorted sequence after `n` elements keeps the smallest keys:
   * an element whose key is below that of some kept element is kept with
   * all of its copies.
   */
  lemma PrefixKeepsSmallest<T>(s: seq<T>, key: T -> int, n: nat)
    requires SortedBy(s, key)
    requires n <= |s|
    ensures forall x, y :: x in s && y in s[..n] && key(x) < key(y) ==>
              multiset(s[..n])[x] == multiset(s)[x]
  {
    assert s == s[..n] + s[n..];
    forall x, y | x in s && y in s[..n] && key(x) < key(y)
      ensures multiset(s[..n])[x] == multiset(s)[x]
    {
      var i :| 0 <= i < n && s[i] == y;
      assert forall j :: n <= j < |s| ==> key(s[j]) >= key(y);
      assert x !in s[n..];
      assert multiset(s) == multiset(s[..n]) + multiset(s[n..]);
    }
  }

  /**
   * The first `n` elements of the stable sort of `s` by `key`
   * (`sort(...).slice(0, n)`): sorted, drawn from `s`, and never leaving out
   * an element whose key is below that of one it keeps.
   */
  function TopBy<T>(s: seq<T>, key: T -> int, n: nat): (r: seq<T>)
    ensures |r| == Min(n, |s|)
    ensures r == SortBy(s, key)[..|r|]
    ensures SortedBy(r, key)
    ensures multiset(r) <= multiset(s)
    ensures forall x, y :: x in s && y in r && key(x) < key(y) ==> multiset(r)[x] == multiset(s)[x]
  {
    var sorted := SortBy(s, key);
    var r := Take(sorted, n);
    assert sorted == r + sorted[|r|..];
    PrefixKeepsSmallest(sorted, key, |r|);
    r
  }

  /**
   * The first `n` of the stable sort keep, of each key, the elements that
   * come first in the input, in input order.
   */
  lemma TopByStable<T>(s: seq<T>, key: T -> int, n: nat, k: int)
    ensures WithKey(TopBy(s, key, n), key, k) <= WithKey(s, key, k)
  {
    WithKeyPrefix(TopBy(s, key, n), SortBy(s, key), key, k);
    SortByStable(s, key, k);
  }

  /** Every element of the cut comes from `s`, and an element of `s` with a smaller key than a kept one is kept. */
  lemma TopByMembers<T>(s: seq<T>, key: T -> int, n: nat)
    ensures forall x :: x in TopBy(s, key, n) ==> x in s
    ensures forall x, y :: x in s && y in TopBy(s, key, n) && key(x) < key(y) ==> x in TopBy(s, key, n)
  {
    var r := TopBy(s, key, n);
    forall x | x in r
      ensures x in s
    {
      assert x in multiset(s);
    }
    forall x, y | x in s && y in r && key(x) < key(y)
      ensures x in r
    {
      assert multiset(r)[x] == multiset(s)[x];
    }
  }

  /** `WithKey` is the filter by any predicate that holds exactly for key `k`. */
  lemma {:induction false} WithKeyIsFilter<T>(s: seq<T>, key: T -> int, k: int, p: T -> bool)
    requires forall x :: p(x) == (key(x) == k)
    ensures WithKey(s, key, k) == Filter(s, p)
  {
    if |s| > 0 {
      WithKeyIsFilter(s[1..], key, k, p);
    }
  }

  /** Stability stated with a filter: the elements of one key come out of the sort in their input order. */
  lemma SortByStableFilter<T>(s: seq<T>, key: T -> int, k: int, p: T -> bool)
    requires forall x :: p(x) == (key(x) == k)
    ensures Filter(SortBy(s, key), p) == Filter(s, p)
  {
    SortByStable(s, key, k);
    WithKeyIsFilter(SortBy(s, key), key, k, p);
    WithKeyIsFilter(s, key, k, p);
  }
}
