/**
 * The JavaScript array operations the views apply to the task list
 * (`filter`, `map`, `slice(0, k)` and a comparator `sort`), as functions on
 * sequences, with the facts about them that the views rely on.
 */
module Lists {

  /** `a` is obtained from `b` by deleting elements: the order of what is kept is unchanged. */
  predicate IsSubsequence<T(==,!new)>(a: seq<T>, b: seq<T>)
    decreases |b|
  {
    a == [] ||
    (b != [] &&
     ((a[0] == b[0] && IsSubsequence(a[1..], b[1..])) || IsSubsequence(a, b[1..])))
  }

  /** `s.filter(p)`: the elements of `s` that satisfy `p`, in their original order. */
  function Filter<T(==,!new)>(s: seq<T>, p: T -> bool): (r: seq<T>)
    ensures |r| <= |s|
    ensures forall x :: x in r <==> x in s && p(x)
  {
    if s == [] then []
    else
      assert s == [s[0]] + s[1..];
      if p(s[0]) then [s[0]] + Filter(s[1..], p) else Filter(s[1..], p)
  }

  /** `s.map(f)`: one result per element, in order. */
  function Map<T, U>(s: seq<T>, f: T -> U): (r: seq<U>)
    ensures |r| == |s|
    ensures forall i :: 0 <= i < |s| ==> r[i] == f(s[i])
  {
    if s == [] then [] else [f(s[0])] + Map(s[1..], f)
  }

  /** `s.slice(0, k)`: the first `k` elements, or all of them when there are fewer. */
  function Take<T>(s: seq<T>, k: nat): seq<T>
  {
    if |s| <= k then s else s[..k]
  }

  /** The keys never decrease from left to right. */
  predicate SortedBy<T>(s: seq<T>, key: T -> int)
  {
    forall i, j :: 0 <= i < j < |s| ==> key(s[i]) <= key(s[j])
  }

  /** Putting in front an element whose key is at most every other key keeps a list sorted. */
  lemma SortedCons<T>(x: T, s: seq<T>, key: T -> int)
    requires SortedBy(s, key)
    requires forall i :: 0 <= i < |s| ==> key(x) <= key(s[i])
    ensures SortedBy([x] + s, key)
  {
    var r := [x] + s;
    forall i, j | 0 <= i < j < |r| ensures key(r[i]) <= key(r[j]) {
      assert r[j] == s[j - 1];
      if i > 0 {
        assert r[i] == s[i - 1];
      }
    }
  }

  /** Every element of a list made of `x` and the elements of `s` is `x` or an element of `s`. */
  lemma FromMultiset<T>(r: seq<T>, x: T, s: seq<T>, i: int)
    requires multiset(r) == multiset(s) + multiset{x}
    requires 0 <= i < |r|
    ensures r[i] == x || r[i] in s
  {
    assert r[i] in multiset(r);
  }

  /** Inserts `x` before the first element whose key is not smaller than its own. */
  function Insert<T>(x: T, s: seq<T>, key: T -> int): (r: seq<T>)
    requires SortedBy(s, key)
    ensures SortedBy(r, key)
    ensures multiset(r) == multiset(s) + multiset{x}
  {
    if s == [] || key(x) <= key(s[0]) then
      SortedCons(x, s, key);
      [x] + s
    else
      var rest := Insert(x, s[1..], key);
      assert s == [s[0]] + s[1..];
      forall i | 0 <= i < |rest| ensures key(s[0]) <= key(rest[i]) {
        FromMultiset(rest, x, s[1..], i);
      }
      SortedCons(s[0], rest, key);
      [s[0]] + rest
  }

  /**
   * `[...s].sort((a, b) => key(a) - key(b))`: a stable sort into ascending key
   * order (ECMAScript requires `Array.prototype.sort` to be stable).
   */
  function SortBy<T(==,!new)>(s: seq<T>, key: T -> int): (r: seq<T>)
    ensures SortedBy(r, key)
    ensures multiset(r) == multiset(s)
    ensures |r| == |s|
  {
    if s == [] then []
    else
      assert s == [s[0]] + s[1..];
      var r := Insert(s[0], SortBy(s[1..], key), key);
      assert |r| == |multiset(r)|;
      r
  }

  /** A filtered list is a subsequence of the list it was taken from. */
  lemma {:induction false} FilterIsSubsequence<T(!new)>(s: seq<T>, p: T -> bool)
    ensures IsSubsequence(Filter(s, p), s)
  {
    if s != [] {
      FilterIsSubsequence(s[1..], p);
      var r := Filter(s, p);
      if !p(s[0]) {
        assert r == Filter(s[1..], p);
      } else {
        assert r[0] == s[0] && r[1..] == Filter(s[1..], p);
      }
    }
  }

  /**
   * `filter` keeps duplicates: an element occurs in the result as often as in
   * the list when it satisfies the predicate, and not at all otherwise.
   */
  lemma {:induction false} FilterMultiplicity<T(!new)>(s: seq<T>, p: T -> bool)
    ensures forall x :: multiset(Filter(s, p))[x] == if p(x) then multiset(s)[x] else 0
  {
    if s != [] {
      FilterMultiplicity(s[1..], p);
      assert s == [s[0]] + s[1..];
    }
  }

  /** Filtering twice keeps an element as often as the list holds it when it passes both filters. */
  lemma FilterTwiceMultiplicity<T(!new)>(s: seq<T>, p: T -> bool, q: T -> bool)
    ensures forall x :: multiset(Filter(Filter(s, p), q))[x] == if p(x) && q(x) then multiset(s)[x] else 0
  {
    FilterMultiplicity(s, p);
    FilterMultiplicity(Filter(s, p), q);
  }

  /** Filtering a concatenation filters each part. */
  lemma {:induction false} FilterAppend<T(!new)>(a: seq<T>, b: seq<T>, p: T -> bool)
    ensures Filter(a + b, p) == Filter(a, p) + Filter(b, p)
  {
    if a == [] {
      assert a + b == b;
    } else {
      var ab := a + b;
      assert ab[0] == a[0] && ab[1..] == a[1..] + b;
      FilterAppend(a[1..], b, p);
      if p(a[0]) {
        assert Filter(ab, p) == [a[0]] + Filter(a[1..] + b, p);
        assert Filter(a, p) == [a[0]] + Filter(a[1..], p);
      } else {
        assert Filter(ab, p) == Filter(a[1..] + b, p);
        assert Filter(a, p) == Filter(a[1..], p);
      }
    }
  }

  /** A predicate that every element satisfies keeps the whole list. */
  lemma {:induction false} FilterKeepsAll<T(!new)>(s: seq<T>, p: T -> bool)
    requires forall x :: x in s ==> p(x)
    ensures Filter(s, p) == s
  {
    if s != [] {
      assert s[0] in s;
      assert forall x :: x in s[1..] ==> x in s;
      FilterKeepsAll(s[1..], p);
    }
  }

  /** Two predicates that agree on the elements select the same sublist. */
  lemma {:induction false} FilterCongruent<T(!new)>(s: seq<T>, p: T -> bool, q: T -> bool)
    requires forall x :: x in s ==> p(x) == q(x)
    ensures Filter(s, p) == Filter(s, q)
  {
    if s != [] {
      assert s[0] in s;
      assert forall x :: x in s[1..] ==> x in s;
      FilterCongruent(s[1..], p, q);
    }
  }

  /**
   * Counting by cases: when `b` and `c` never hold together and `a` holds
   * exactly when one of them does, the two counts add up to the count for `a`.
   */
  lemma {:induction false} FilterCountSplit<T(!new)>(s: seq<T>, a: T -> bool, b: T -> bool, c: T -> bool)
    requires forall x :: a(x) <==> (b(x) || c(x))
    requires forall x :: !(b(x) && c(x))
    ensures |Filter(s, b)| + |Filter(s, c)| == |Filter(s, a)|
    ensures multiset(Filter(s, b)) + multiset(Filter(s, c)) == multiset(Filter(s, a))
  {
    if s != [] {
      FilterCountSplit(s[1..], a, b, c);
    }
  }

  /** Pairwise exclusive predicates select no more elements, together, than the list holds. */
  lemma {:induction false} FilterCountDisjoint3<T(!new)>(s: seq<T>, p: T -> bool, q: T -> bool, r: T -> bool)
    requires forall x :: !(p(x) && q(x)) && !(p(x) && r(x)) && !(q(x) && r(x))
    ensures |Filter(s, p)| + |Filter(s, q)| + |Filter(s, r)| <= |s|
  {
    if s != [] {
      FilterCountDisjoint3(s[1..], p, q, r);
    }
  }

  /**
   * Three predicates of which exactly one holds of every element split the
   * list: the three sublists together hold every element exactly once.
   */
  lemma FilterPartition3<T(!new)>(s: seq<T>, p: T -> bool, q: T -> bool, r: T -> bool)
    requires forall x :: (p(x) || q(x) || r(x))
    requires forall x :: !(p(x) && q(x)) && !(p(x) && r(x)) && !(q(x) && r(x))
    ensures multiset(Filter(s, p)) + multiset(Filter(s, q)) + multiset(Filter(s, r)) == multiset(s)
  {
    var all := (x: T) => true;
    var qr := (x: T) => q(x) || r(x);
    FilterKeepsAll(s, all);
    FilterCountSplit(s, all, p, qr);
    FilterCountSplit(s, qr, q, r);
  }

  /** The sizes of three sublists that split the list add up to its length. */
  lemma {:induction false} FilterPartition3Count<T(!new)>(s: seq<T>, p: T -> bool, q: T -> bool, r: T -> bool)
    requires forall x :: (p(x) || q(x) || r(x))
    requires forall x :: !(p(x) && q(x)) && !(p(x) && r(x)) && !(q(x) && r(x))
    ensures |Filter(s, p)| + |Filter(s, q)| + |Filter(s, r)| == |s|
  {
    if s != [] {
      FilterPartition3Count(s[1..], p, q, r);
      assert p(s[0]) || q(s[0]) || r(s[0]);
    }
  }

  /**
   * The first `k` elements of a sorted list are the `k` smallest: every element
   * left out has a key at least as large as every element taken.
   */
  lemma TakeSortedIsSmallest<T(!new)>(s: seq<T>, key: T -> int, k: nat)
    requires SortedBy(s, key)
    ensures multiset(Take(s, k)) + multiset(s[|Take(s, k)|..]) == multiset(s)
    ensures forall x, y :: x in Take(s, k) && y in s[|Take(s, k)|..] ==> key(x) <= key(y)
  {
    var n := |Take(s, k)|;
    assert s == Take(s, k) + s[n..];
    forall x, y | x in Take(s, k) && y in s[n..] ensures key(x) <= key(y) {
      var i :| 0 <= i < n && Take(s, k)[i] == x;
      var j :| 0 <= j < |s[n..]| && s[n..][j] == y;
      assert s[i] == x && s[n + j] == y;
    }
  }

  /** What the first `k` elements of a list hold is in the list, and they stay in order. */
  lemma TakePrefix<T(!new)>(s: seq<T>, key: T -> int, k: nat)
    ensures forall x :: x in Take(s, k) ==> x in s
    ensures SortedBy(s, key) ==> SortedBy(Take(s, k), key)
  {
    assert Take(s, k) == s[..|Take(s, k)|];
  }

  /** The elements whose key is `k`. */
  function KeyIs<T>(key: T -> int, k: int): T -> bool
  {
    (x: T) => key(x) == k
  }

  /**
   * Inserting `x` into a sorted list puts it ahead of every element with the
   * same key: among the elements with `x`'s key it comes first.
   */
  lemma {:induction false} InsertTies<T(!new)>(x: T, s: seq<T>, key: T -> int, k: int)
    requires SortedBy(s, key)
    ensures Filter(Insert(x, s, key), KeyIs(key, k)) ==
            (if key(x) == k then [x] else []) + Filter(s, KeyIs(key, k))
  {
    if s == [] || key(x) <= key(s[0]) {
      assert Insert(x, s, key) == [x] + s;
      assert ([x] + s)[1..] == s;
    } else {
      assert SortedBy(s[1..], key);
      InsertTies(x, s[1..], key, k);
      assert s == [s[0]] + s[1..];
      var r := Insert(x, s, key);
      assert r == [s[0]] + Insert(x, s[1..], key);
      assert r[1..] == Insert(x, s[1..], key);
    }
  }

  /**
   * The sort is stable: the elements that share a key keep their relative
   * order, so for every key the sorted list and the original list hold the
   * same sequence of elements with that key.
   */
  lemma {:induction false} SortByStable<T(!new)>(s: seq<T>, key: T -> int, k: int)
    ensures Filter(SortBy(s, key), KeyIs(key, k)) == Filter(s, KeyIs(key, k))
  {
    if s != [] {
      SortByStable(s[1..], key, k);
      InsertTies(s[0], SortBy(s[1..], key), key, k);
      assert s == [s[0]] + s[1..];
    }
  }

  /**
   * Sorting and keeping the first `n`: for every key, the elements kept with
   * that key are the first ones with that key in the original order.
   */
  lemma TakeSortByKeepsTies<T(!new)>(s: seq<T>, key: T -> int, n: nat, k: int)
    ensures Filter(Take(SortBy(s, key), n), KeyIs(key, k)) <= Filter(s, KeyIs(key, k))
  {
    var sorted := SortBy(s, key);
    var m := |Take(sorted, n)|;
    assert sorted == Take(sorted, n) + sorted[m..];
    FilterAppend(Take(sorted, n), sorted[m..], KeyIs(key, k));
    SortByStable(s, key, k);
  }

  /** `TakeSortByKeepsTies` for any predicate that picks out the elements with key `k`. */
  lemma TakeSortByKeepsTiesOf<T(!new)>(s: seq<T>, key: T -> int, n: nat, k: int, same: T -> bool)
    requires forall x :: same(x) == (key(x) == k)
    ensures Filter(Take(SortBy(s, key), n), same) <= Filter(s, same)
  {
    TakeSortByKeepsTies(s, key, n, k);
    FilterCongruent(Take(SortBy(s, key), n), same, KeyIs(key, k));
    FilterCongruent(s, same, KeyIs(key, k));
  }

  /** No two elements share a key. */
  predicate DistinctBy<T, K(==)>(s: seq<T>, key: T -> K)
  {
    forall i, j :: 0 <= i < j < |s| ==> key(s[i]) != key(s[j])
  }

  /** Filtering keeps keys distinct. */
  lemma {:induction false} FilterKeepsDistinct<T(!new), K>(s: seq<T>, p: T -> bool, key: T -> K)
    requires DistinctBy(s, key)
    ensures DistinctBy(Filter(s, p), key)
  {
    if s != [] {
      FilterKeepsDistinct(s[1..], p, key);
      var rest := Filter(s[1..], p);
      if p(s[0]) {
        var r := [s[0]] + rest;
        forall i, j | 0 <= i < j < |r| ensures key(r[i]) != key(r[j]) {
          if i == 0 {
            assert r[j] in s[1..];
            var k :| 0 <= k < |s[1..]| && s[1..][k] == r[j];
            assert s[k + 1] == r[j];
          } else {
            assert r[i] == rest[i - 1] && r[j] == rest[j - 1];
          }
        }
      }
    }
  }
}
