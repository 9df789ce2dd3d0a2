/**
 * Stable descending sort by a two-part key.
 *
 * Every ranking in the repository is either Python's `list.sort(key=...,
 * reverse=True)` (stable) or a database `order_by('-a', '-b')`. Both are
 * modelled by `SortDesc`: an insertion sort that places an element after every
 * element whose key is strictly greater, so elements with equal keys keep the
 * order in which they arrived. Single-field orderings use 0.0 as the minor key.
 */
module Sorting {

  /** A sort key, compared lexicographically: major first, then minor. */
  datatype Key = Key(major: real, minor: real)

  /** `a` sorts strictly before `b` in a descending ordering. */
  predicate Above(a: Key, b: Key) {
    a.major > b.major || (a.major == b.major && a.minor > b.minor)
  }

  function Insert<T>(x: T, s: seq<T>, key: T -> Key): (r: seq<T>)
    ensures multiset(r) == multiset(s) + multiset{x}
    ensures |r| == |s| + 1
  {
    if s == [] then [x]
    else if Above(key(s[0]), key(x)) then
      assert s == [s[0]] + s[1..];
      [s[0]] + Insert(x, s[1..], key)
    else [x] + s
  }

  function SortDesc<T>(s: seq<T>, key: T -> Key): (r: seq<T>)
    ensures multiset(r) == multiset(s)
    ensures |r| == |s|
  {
    if s == [] then []
    else
      assert s == [s[0]] + s[1..];
      Insert(s[0], SortDesc(s[1..], key), key)
  }

  /** No element is strictly above an element that precedes it. */
  ghost predicate Descending<T>(s: seq<T>, key: T -> Key) {
    forall i, j | 0 <= i < j < |s| :: !Above(key(s[j]), key(s[i]))
  }

  /** The elements of `s` whose key is exactly `k`, in order. */
  function WithKey<T>(s: seq<T>, key: T -> Key, k: Key): (r: seq<T>)
    ensures |r| <= |s|
  {
    if s == [] then []
    else (if key(s[0]) == k then [s[0]] else []) + WithKey(s[1..], key, k)
  }

  /** Python's `s[:n]` for a list; a negative `n` drops that many from the end. */
  function PyPrefix<T>(s: seq<T>, n: int): (r: seq<T>)
    ensures r <= s
    ensures n >= 0 ==> |r| == if n < |s| then n else |s|
    ensures n < 0 ==> |r| == if |s| + n > 0 then |s| + n else 0
  {
    if n >= 0 then (if n < |s| then s[..n] else s)
    else (if |s| + n > 0 then s[..|s| + n] else [])
  }

  /** A database slice `[:n]` on an ordered query set (negative bounds are refused there). */
  function Take<T>(s: seq<T>, n: nat): (r: seq<T>)
    ensures r <= s
    ensures |r| == if n < |s| then n else |s|
  {
    if n < |s| then s[..n] else s
  }

  /** The elements of `s` that satisfy `p`, in order (a query set's `.filter`). */
  function Filter<T>(s: seq<T>, p: T -> bool): (r: seq<T>)
    ensures forall x | x in r :: x in s && p(x)
    ensures forall x | x in s && p(x) :: x in r
    ensures |r| <= |s|
  {
    if s == [] then []
    else (if p(s[0]) then [s[0]] else []) + Filter(s[1..], p)
  }

  // ---------------------------------------------------------------------------
  // Properties of the sort
  // ---------------------------------------------------------------------------

  /** Sorting neither adds nor loses an element. */
  lemma SortDescMembers<T>(s: seq<T>, key: T -> Key)
    ensures forall x | x in SortDesc(s, key) :: x in s
    ensures forall x | x in s :: x in SortDesc(s, key)
  {
    var t := SortDesc(s, key);
    forall x | x in t
      ensures x in s
    {
      assert x in multiset(t);
    }
    forall x | x in s
      ensures x in t
    {
      assert x in multiset(s);
    }
  }

  lemma AboveAsymmetric(a: Key, b: Key)
    ensures Above(a, b) ==> !Above(b, a)
  {
  }

  lemma NotAboveTransitive(a: Key, b: Key, c: Key)
    requires !Above(a, b) && !Above(b, c)
    ensures !Above(a, c)
  {
  }

  lemma {:induction false} InsertDescending<T>(x: T, s: seq<T>, key: T -> Key)
    requires Descending(s, key)
    ensures Descending(Insert(x, s, key), key)
    decreases |s|
  {
    if s != [] {
      var r := Insert(x, s, key);
      if Above(key(s[0]), key(x)) {
        var t := Insert(x, s[1..], key);
        InsertDescending(x, s[1..], key);
        assert r == [s[0]] + t;
        forall k | 0 <= k < |t|
          ensures !Above(key(t[k]), key(s[0]))
        {
          assert t[k] in multiset(t);
          if t[k] != x {
            assert t[k] in multiset(s[1..]);
            var m :| 0 <= m < |s[1..]| && s[1..][m] == t[k];
            assert s[m + 1] == t[k];
          }
        }
      } else {
        assert r == [x] + s;
        forall k | 0 < k < |r|
          ensures !Above(key(r[k]), key(x))
        {
          NotAboveTransitive(key(s[k - 1]), key(s[0]), key(x));
        }
      }
    }
  }

  lemma {:induction false} SortDescDescending<T>(s: seq<T>, key: T -> Key)
    ensures Descending(SortDesc(s, key), key)
    decreases |s|
  {
    if s != [] {
      SortDescDescending(s[1..], key);
      InsertDescending(s[0], SortDesc(s[1..], key), key);
    }
  }

  lemma {:induction false} WithKeyConcat<T>(a: seq<T>, b: seq<T>, key: T -> Key, k: Key)
    ensures WithKey(a + b, key, k) == WithKey(a, key, k) + WithKey(b, key, k)
    decreases |a|
  {
    if a == [] {
      assert a + b == b;
    } else {
      assert (a + b)[0] == a[0];
      assert (a + b)[1..] == a[1..] + b;
      WithKeyConcat(a[1..], b, key, k);
    }
  }

  function Single<T>(x: T, key: T -> Key, k: Key): seq<T> {
    if key(x) == k then [x] else []
  }

  lemma WithKeyCons<T>(x: T, s: seq<T>, key: T -> Key, k: Key)
    ensures WithKey([x] + s, key, k) == Single(x, key, k) + WithKey(s, key, k)
  {
    assert ([x] + s)[0] == x;
    assert ([x] + s)[1..] == s;
  }

  lemma {:induction false} InsertWithKey<T>(x: T, s: seq<T>, key: T -> Key, k: Key)
    ensures WithKey(Insert(x, s, key), key, k) == Single(x, key, k) + WithKey(s, key, k)
    decreases |s|
  {
    if s == [] {
      WithKeyCons(x, s, key, k);
    } else if Above(key(s[0]), key(x)) {
      InsertWithKey(x, s[1..], key, k);
      InsertWithKeyBelow(x, s, key, k);
    } else {
      WithKeyCons(x, s, key, k);
    }
  }

  /** The step of `InsertWithKey` where `x` goes below the head of `s`. */
  lemma InsertWithKeyBelow<T>(x: T, s: seq<T>, key: T -> Key, k: Key)
    requires s != [] && Above(key(s[0]), key(x))
    requires WithKey(Insert(x, s[1..], key), key, k) == Single(x, key, k) + WithKey(s[1..], key, k)
    ensures WithKey(Insert(x, s, key), key, k) == Single(x, key, k) + WithKey(s, key, k)
  {
    var h, t := s[0], Insert(x, s[1..], key);
    var a, b, w := Single(h, key, k), Single(x, key, k), WithKey(s[1..], key, k);
    InsertBelowHead(x, s, key);
    WithKeyCons(h, t, key, k);
    WithKeyHead(s, key, k);
    SinglesExclusive(h, x, key, k);
    SwapEmpty(a, b, w);
  }

  lemma InsertBelowHead<T>(x: T, s: seq<T>, key: T -> Key)
    requires s != [] && Above(key(s[0]), key(x))
    ensures Insert(x, s, key) == [s[0]] + Insert(x, s[1..], key)
  {
  }

  lemma WithKeyHead<T>(s: seq<T>, key: T -> Key, k: Key)
    requires s != []
    ensures WithKey(s, key, k) == Single(s[0], key, k) + WithKey(s[1..], key, k)
  {
  }

  /** An element strictly above `x` never shares its key. */
  lemma SinglesExclusive<T>(h: T, x: T, key: T -> Key, k: Key)
    requires Above(key(h), key(x))
    ensures Single(h, key, k) == [] || Single(x, key, k) == []
  {
  }

  lemma SwapEmpty<T>(a: seq<T>, b: seq<T>, w: seq<T>)
    requires a == [] || b == []
    ensures a + (b + w) == b + (a + w)
  {
  }

  /** Stability: for every key value, the elements carrying it keep their input order. */
  lemma {:induction false} SortDescStable<T>(s: seq<T>, key: T -> Key, k: Key)
    ensures WithKey(SortDesc(s, key), key, k) == WithKey(s, key, k)
    decreases |s|
  {
    if s != [] {
      SortDescStable(s[1..], key, k);
      InsertWithKey(s[0], SortDesc(s[1..], key), key, k);
    }
  }

  /** A prefix of a sequence keeps a prefix of each key's elements. */
  lemma {:induction false} WithKeyPrefix<T>(p: seq<T>, s: seq<T>, key: T -> Key, k: Key)
    requires p <= s
    ensures WithKey(p, key, k) <= WithKey(s, key, k)
  {
    assert s == p + s[|p|..];
    WithKeyConcat(p, s[|p|..], key, k);
  }

  lemma DescendingPrefix<T>(p: seq<T>, s: seq<T>, key: T -> Key)
    requires p <= s && Descending(s, key)
    ensures Descending(p, key)
  {
    forall i, j | 0 <= i < j < |p|
      ensures !Above(key(p[j]), key(p[i]))
    {
      assert p[i] == s[i] && p[j] == s[j];
    }
  }

  /**
   * Selecting the first `n` of a descending sort: the result is sorted, holds
   * only input elements, keeps every key's input order, and no element left
   * out sorts strictly before an element that was kept.
   */
  lemma TopN<T>(s: seq<T>, key: T -> Key, n: nat)
    ensures Descending(Take(SortDesc(s, key), n), key)
    ensures multiset(Take(SortDesc(s, key), n)) <= multiset(s)
    ensures forall x | x in Take(SortDesc(s, key), n) :: x in s
    ensures forall k :: WithKey(Take(SortDesc(s, key), n), key, k) <= WithKey(s, key, k)
    ensures forall y, x | y in s && y !in Take(SortDesc(s, key), n) && x in Take(SortDesc(s, key), n)
              :: !Above(key(y), key(x))
  {
    var t := SortDesc(s, key);
    var r := Take(t, n);
    SortDescDescending(s, key);
    DescendingPrefix(r, t, key);
    assert t == r + t[|r|..];
    assert multiset(t) == multiset(r) + multiset(t[|r|..]);
    forall x | x in r
      ensures x in s
    {
      assert x in multiset(r);
      assert x in multiset(s);
    }
    forall k
      ensures WithKey(r, key, k) <= WithKey(s, key, k)
    {
      WithKeyPrefix(r, t, key, k);
      SortDescStable(s, key, k);
    }
    forall y, x | y in s && y !in r && x in r
      ensures !Above(key(y), key(x))
    {
      assert y in multiset(t);
      var j :| 0 <= j < |t| && t[j] == y;
      var i :| 0 <= i < |r| && r[i] == x;
      assert t[i] == x;
    }
  }

  // ---------------------------------------------------------------------------
  // Sums do not depend on the order
  // ---------------------------------------------------------------------------

  /** `sum(f(x) for x in s)`. */
  function SumOf<T>(s: seq<T>, f: T -> int): int {
    if s == [] then 0 else f(s[0]) + SumOf(s[1..], f)
  }

  lemma {:induction false} SumOfInsert<T>(x: T, s: seq<T>, key: T -> Key, f: T -> int)
    ensures SumOf(Insert(x, s, key), f) == f(x) + SumOf(s, f)
    decreases |s|
  {
    if s != [] && Above(key(s[0]), key(x)) {
      var t := Insert(x, s[1..], key);
      assert Insert(x, s, key) == [s[0]] + t;
      assert ([s[0]] + t)[1..] == t;
      SumOfInsert(x, s[1..], key, f);
    } else {
      assert ([x] + s)[1..] == s;
    }
  }

  lemma {:induction false} SumOfSortDesc<T>(s: seq<T>, key: T -> Key, f: T -> int)
    ensures SumOf(SortDesc(s, key), f) == SumOf(s, f)
    decreases |s|
  {
    if s != [] {
      SumOfSortDesc(s[1..], key, f);
      SumOfInsert(s[0], SortDesc(s[1..], key), key, f);
    }
  }

  // ---------------------------------------------------------------------------
  // Sorting keeps a sequence free of duplicates
  // ---------------------------------------------------------------------------

  ghost predicate Distinct<T>(s: seq<T>) {
    forall i, j | 0 <= i < j < |s| :: s[i] != s[j]
  }

  lemma {:induction false} InsertDistinct<T>(x: T, s: seq<T>, key: T -> Key)
    requires Distinct(s) && x !in s
    ensures Distinct(Insert(x, s, key))
    decreases |s|
  {
    if s != [] && Above(key(s[0]), key(x)) {
      var t := Insert(x, s[1..], key);
      InsertDistinct(x, s[1..], key);
      assert Insert(x, s, key) == [s[0]] + t;
      assert s[0] !in s[1..];
      assert s[0] !in multiset(t);
    }
  }

  lemma {:induction false} SortDescDistinct<T>(s: seq<T>, key: T -> Key)
    requires Distinct(s)
    ensures Distinct(SortDesc(s, key))
    decreases |s|
  {
    if s != [] {
      SortDescDistinct(s[1..], key);
      assert s[0] !in s[1..];
      assert s[0] !in multiset(SortDesc(s[1..], key));
      InsertDistinct(s[0], SortDesc(s[1..], key), key);
    }
  }
}
