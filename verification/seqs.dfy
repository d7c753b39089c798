/** The array operations the views and stores are written with (`filter`,
    `findIndex`, counting with `filter(...).length`), over Dafny sequences. */
module Seqs {
  import opened Wrappers

  /** `s.filter(p)`: the elements of `s` that satisfy `p`, in their order. */
  function Filter<T>(s: seq<T>, p: T -> bool): (r: seq<T>)
    ensures |r| <= |s|
    ensures forall i :: 0 <= i < |r| ==> r[i] in s && p(r[i])
    ensures forall i :: 0 <= i < |s| && p(s[i]) ==> s[i] in r
    decreases |s|
  {
    if s == [] then []
    else (if p(s[0]) then [s[0]] else []) + Filter(s[1..], p)
  }

  /** Filtering distributes over concatenation: the order of what is kept is
      the order of the input. */
  lemma {:induction false} FilterAppend<T>(a: seq<T>, b: seq<T>, p: T -> bool)
    ensures Filter(a + b, p) == Filter(a, p) + Filter(b, p)
    decreases |a|
  {
    if a == [] {
      assert a + b == b;
    } else {
      assert (a + b)[1..] == a[1..] + b;
      FilterAppend(a[1..], b, p);
    }
  }

  /** Two tests that agree on every element of `s` filter it alike. */
  lemma {:induction false} FilterCongruent<T>(s: seq<T>, p: T -> bool, q: T -> bool)
    requires forall i :: 0 <= i < |s| ==> p(s[i]) == q(s[i])
    ensures Filter(s, p) == Filter(s, q)
    decreases |s|
  {
    if s != [] {
      FilterCongruent(s[1..], p, q);
    }
  }

  /** A filter that every element passes returns its input unchanged. */
  lemma {:induction false} FilterKeepsAll<T>(s: seq<T>, p: T -> bool)
    requires forall i :: 0 <= i < |s| ==> p(s[i])
    ensures Filter(s, p) == s
    decreases |s|
  {
    if s != [] {
      FilterKeepsAll(s[1..], p);
    }
  }

  /** A filter that no element passes returns the empty sequence. */
  lemma {:induction false} FilterDropsAll<T>(s: seq<T>, p: T -> bool)
    requires forall i :: 0 <= i < |s| ==> !p(s[i])
    ensures Filter(s, p) == []
    decreases |s|
  {
    if s != [] {
      FilterDropsAll(s[1..], p);
    }
  }

  /** Filtering `a + [x] + b` where every element of `a` and `b` passes and
      `x` fails leaves `a + b`. */
  lemma {:induction false} FilterDropsMiddle<T>(a: seq<T>, x: T, b: seq<T>, p: T -> bool)
    requires forall i :: 0 <= i < |a| ==> p(a[i])
    requires !p(x)
    requires forall i :: 0 <= i < |b| ==> p(b[i])
    ensures Filter(a + [x] + b, p) == a + b
  {
    var ax := a + [x];
    FilterDropsLast(a, x, p);
    FilterAppend(ax, b, p);
    FilterKeepsAll(b, p);
  }

  lemma {:induction false} FilterDropsLast<T>(a: seq<T>, x: T, p: T -> bool)
    requires forall i :: 0 <= i < |a| ==> p(a[i])
    requires !p(x)
    ensures Filter(a + [x], p) == a
  {
    FilterAppend(a, [x], p);
    FilterKeepsAll(a, p);
    FilterDropsAll([x], p);
    assert Filter(a, p) + Filter([x], p) == a + [];
  }

  /** Removing the one element at index k that fails the test, when all others
      pass it, leaves the rest in order. */
  lemma {:induction false} FilterRemovesOne<T>(s: seq<T>, p: T -> bool, k: nat)
    requires k < |s| && !p(s[k])
    requires forall i :: 0 <= i < |s| && i != k ==> p(s[i])
    ensures Filter(s, p) == s[..k] + s[k + 1..]
  {
    var a, b := s[..k], s[k + 1..];
    forall i | 0 <= i < |a| ensures p(a[i]) {
      assert a[i] == s[i];
    }
    forall i | 0 <= i < |b| ensures p(b[i]) {
      assert b[i] == s[k + 1 + i];
    }
    assert s == a + [s[k]] + b;
    FilterDropsMiddle(a, s[k], b, p);
  }

  /** The number of elements satisfying `p` (`s.filter(p).length`). */
  function Count<T>(s: seq<T>, p: T -> bool): (n: nat)
    ensures n <= |s|
  {
    |Filter(s, p)|
  }

  /** Counting splits over concatenation. */
  lemma CountAppend<T>(a: seq<T>, b: seq<T>, p: T -> bool)
    ensures Count(a + b, p) == Count(a, p) + Count(b, p)
  {
    FilterAppend(a, b, p);
  }

  /** When every element passes exactly one of three tests, the three counts
      add up to the length. */
  lemma {:induction false} CountThreeWay<T>(s: seq<T>, p: T -> bool, q: T -> bool, r: T -> bool)
    requires forall i :: 0 <= i < |s| ==> p(s[i]) || q(s[i]) || r(s[i])
    requires forall i :: 0 <= i < |s| ==> !(p(s[i]) && q(s[i])) && !(p(s[i]) && r(s[i])) && !(q(s[i]) && r(s[i]))
    ensures Count(s, p) + Count(s, q) + Count(s, r) == |s|
    decreases |s|
  {
    if s != [] {
      CountThreeWay(s[1..], p, q, r);
    }
  }

  /** `s.findIndex(p)`: the first index whose element satisfies `p`. */
  function FindIndex<T>(s: seq<T>, p: T -> bool): (r: Option<nat>)
    ensures r.Some? ==> r.value < |s| && p(s[r.value])
    ensures r.Some? ==> forall j :: 0 <= j < r.value ==> !p(s[j])
    ensures r.None? <==> forall j :: 0 <= j < |s| ==> !p(s[j])
    decreases |s|
  {
    if s == [] then None
    else if p(s[0]) then Some(0)
    else match FindIndex(s[1..], p)
      case None => None
      case Some(k) => Some(k + 1)
  }

  /** `s.find(p)`: the first element satisfying `p`. */
  function Find<T>(s: seq<T>, p: T -> bool): (r: Option<T>)
    ensures r.None? <==> forall j :: 0 <= j < |s| ==> !p(s[j])
    ensures r.Some? ==> r.value in s && p(r.value)
    ensures r.Some? ==> exists k :: 0 <= k < |s| && s[k] == r.value && forall j :: 0 <= j < k ==> !p(s[j])
  {
    match FindIndex(s, p)
    case None => None
    case Some(k) => Some(s[k])
  }

  /** No two elements of `s` share a key. */
  ghost predicate UniqueBy<T, K>(s: seq<T>, key: T -> K) {
    forall i, j :: 0 <= i < j < |s| ==> key(s[i]) != key(s[j])
  }

  /** Two positions with the same key are the same position. */
  lemma UniqueByIndex<T, K>(s: seq<T>, key: T -> K, i: nat, j: nat)
    requires UniqueBy(s, key) && i < |s| && j < |s| && key(s[i]) == key(s[j])
    ensures i == j
  {
  }

  /** Filtering never introduces two elements with the same key. */
  lemma {:induction false} FilterUniqueBy<T, K>(s: seq<T>, p: T -> bool, key: T -> K)
    requires UniqueBy(s, key)
    ensures UniqueBy(Filter(s, p), key)
    decreases |s|
  {
    if s != [] {
      FilterUniqueBy(s[1..], p, key);
      var rest := Filter(s[1..], p);
      if p(s[0]) {
        var r := Filter(s, p);
        assert r == [s[0]] + rest;
        forall j | 0 < j < |r| ensures key(r[0]) != key(r[j]) {
          assert r[j] == rest[j - 1];
          var m :| 0 <= m < |s[1..]| && s[1..][m] == rest[j - 1];
          assert s[m + 1] == r[j];
        }
      }
    }
  }

  /** When every element before index k passes the test, filtering keeps that
      prefix in place. */
  lemma FilterKeepsPrefix<T>(s: seq<T>, p: T -> bool, k: nat)
    requires k <= |s|
    requires forall i :: 0 <= i < k ==> p(s[i])
    ensures |Filter(s, p)| >= k && Filter(s, p)[..k] == s[..k]
  {
    var a, b := s[..k], s[k..];
    assert s == a + b;
    forall i | 0 <= i < |a| ensures p(a[i]) {
      assert a[i] == s[i];
    }
    FilterKeepsAll(a, p);
    FilterAppend(a, b, p);
  }

  /** A prefix holds no element more often than the whole sequence. */
  lemma PrefixMultiset<T>(s: seq<T>, n: nat)
    requires n <= |s|
    ensures multiset(s[..n]) <= multiset(s)
  {
    assert s == s[..n] + s[n..];
    assert multiset(s) == multiset(s[..n]) + multiset(s[n..]);
  }

  // ---------------------------------------------------------------- sorting

  /** Keys never decrease along the sequence. */
  ghost predicate SortedBy<T>(s: seq<T>, key: T -> int) {
    forall i, j :: 0 <= i < j < |s| ==> key(s[i]) <= key(s[j])
  }

  /** Inserts `x` before the first element whose key is not smaller, so that
      `x` lands ahead of the elements with an equal key. */
  function InsertBy<T>(x: T, s: seq<T>, key: T -> int): (r: seq<T>)
    ensures multiset(r) == multiset(s) + multiset{x}
  {
    if s == [] || key(x) <= key(s[0]) then [x] + s
    else
      assert s == [s[0]] + s[1..];
      [s[0]] + InsertBy(x, s[1..], key)
  }

  /** Inserting into a sorted sequence keeps it sorted. */
  lemma {:induction false} InsertBySorted<T>(x: T, s: seq<T>, key: T -> int)
    requires SortedBy(s, key)
    ensures SortedBy(InsertBy(x, s, key), key)
    decreases |s|
  {
    if s == [] || key(x) <= key(s[0]) {
      ConsSorted(x, s, key);
    } else {
      var rest := InsertBy(x, s[1..], key);
      InsertBySorted(x, s[1..], key);
      InsertedAboveHead(x, s, key);
      ConsSorted(s[0], rest, key);
    }
  }

  /** Inserting a key above the head of a sorted sequence into its tail leaves
      only keys no smaller than the head. */
  lemma InsertedAboveHead<T>(x: T, s: seq<T>, key: T -> int)
    requires SortedBy(s, key) && s != [] && key(s[0]) < key(x)
    ensures forall e :: e in InsertBy(x, s[1..], key) ==> key(s[0]) <= key(e)
  {
    var rest := InsertBy(x, s[1..], key);
    forall e | e in rest ensures key(s[0]) <= key(e) {
      assert e in multiset(rest);
      if e != x {
        assert e in multiset(s[1..]);
        var j :| 0 <= j < |s[1..]| && s[1..][j] == e;
        assert s[j + 1] == e;
      }
    }
  }

  /** A sorted sequence stays sorted behind a head no larger than its elements. */
  lemma ConsSorted<T>(a: T, rest: seq<T>, key: T -> int)
    requires SortedBy(rest, key)
    requires forall e :: e in rest ==> key(a) <= key(e)
    ensures SortedBy([a] + rest, key)
  {
    var r := [a] + rest;
    forall i, j | 0 <= i < j < |r| ensures key(r[i]) <= key(r[j]) {
      if i == 0 {
        assert r[j] == rest[j - 1] && r[j] in rest;
      } else {
        assert r[i] == rest[i - 1] && r[j] == rest[j - 1];
      }
    }
  }

  /** A stable sort by key (insertion sort): the same elements, keys ascending. */
  function SortBy<T>(s: seq<T>, key: T -> int): (r: seq<T>)
    ensures multiset(r) == multiset(s) && |r| == |s|
    ensures SortedBy(r, key)
  {
    if s == [] then []
    else
      assert s == [s[0]] + s[1..];
      var sorted := SortBy(s[1..], key);
      InsertBySorted(s[0], sorted, key);
      InsertBy(s[0], sorted, key)
  }

  /** The first `n` elements of a sorted sequence have keys no larger than
      any element after them. */
  lemma SortedPrefixIsSmallest<T>(s: seq<T>, key: T -> int, n: nat, e: T)
    requires SortedBy(s, key) && n <= |s|
    requires e in s && e !in s[..n]
    ensures forall i :: 0 <= i < n ==> key(s[i]) <= key(e)
  {
    var j :| 0 <= j < |s| && s[j] == e;
    assert j >= n by {
      assert forall i :: 0 <= i < n ==> s[..n][i] == s[i];
    }
  }
}
