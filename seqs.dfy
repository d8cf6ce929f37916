/** Order-preserving filtering and sorting by an integer key: the
    `WHERE … ORDER BY …` of the store queries and the `filter` calls of
    the services. */
module Seqs {

  /** `key` never decreases along `s`. */
  ghost predicate SortedBy<T>(s: seq<T>, key: T -> int) {
    forall i, j :: 0 <= i < j < |s| ==> key(s[i]) <= key(s[j])
  }

  /** The elements of `s` that satisfy `p`, in their original order. */
  function Filter<T>(s: seq<T>, p: T -> bool): (r: seq<T>)
    ensures |r| <= |s|
    ensures forall i :: 0 <= i < |r| ==> r[i] in s && p(r[i])
    ensures forall i :: 0 <= i < |s| && p(s[i]) ==> s[i] in r
  {
    if s == [] then []
    else if p(s[0]) then [s[0]] + Filter(s[1..], p)
    else Filter(s[1..], p)
  }

  /** `a` is `s` with some elements left out, the rest kept in order. */
  predicate Subsequence<T(==)>(a: seq<T>, s: seq<T>) {
    if a == [] then true
    else if s == [] then false
    else (a[0] == s[0] && Subsequence(a[1..], s[1..])) || Subsequence(a, s[1..])
  }

  /** Filtering only leaves elements out: what it keeps is in its original
      order. */
  lemma {:induction false} FilterSubsequence<T>(s: seq<T>, p: T -> bool)
    ensures Subsequence(Filter(s, p), s)
  {
    if s != [] {
      FilterSubsequence(s[1..], p);
      if p(s[0]) {
        assert Filter(s, p)[1..] == Filter(s[1..], p);
      }
    }
  }

  /** Filtering never reorders: a sorted sequence stays sorted. */
  lemma {:induction false} FilterKeepsOrder<T>(s: seq<T>, p: T -> bool, key: T -> int)
    requires SortedBy(s, key)
    ensures SortedBy(Filter(s, p), key)
  {
    if s != [] {
      FilterKeepsOrder(s[1..], p, key);
      var rest := Filter(s[1..], p);
      if p(s[0]) {
        forall i | 0 <= i < |rest| ensures key(s[0]) <= key(rest[i]) {
          var k :| 0 <= k < |s[1..]| && s[1..][k] == rest[i];
          assert s[k + 1] == rest[i];
        }
        SortedCons(s[0], rest, key);
      }
    }
  }

  /** An element no larger than any of a sorted sequence can go in front. */
  lemma SortedCons<T>(x: T, s: seq<T>, key: T -> int)
    requires SortedBy(s, key)
    requires forall i :: 0 <= i < |s| ==> key(x) <= key(s[i])
    ensures SortedBy([x] + s, key)
  {
    var r := [x] + s;
    forall i, j | 0 <= i < j < |r| ensures key(r[i]) <= key(r[j]) {
      assert r[j] == s[j - 1];
      if i > 0 {
        assert r[i] == s[i - 1];
      }
    }
  }

  /** `s.map((x, i) => f(i, x))` */
  function MapIndexed<T, U>(s: seq<T>, f: (nat, T) -> U): (r: seq<U>)
    ensures |r| == |s|
    ensures forall i :: 0 <= i < |s| ==> r[i] == f(i, s[i])
  {
    seq(|s|, i requires 0 <= i < |s| => f(i, s[i]))
  }

  /** Mapping one more element of `s` appends its image. */
  lemma MapIndexedSnoc<T, U>(s: seq<T>, f: (nat, T) -> U, i: nat)
    requires i < |s|
    ensures MapIndexed(s[..i + 1], f) == MapIndexed(s[..i], f) + [f(i, s[i])]
  {
    assert s[..i + 1][i] == s[i];
    assert forall k :: 0 <= k < i ==> s[..i + 1][k] == s[..i][k];
  }

  lemma AppendAssoc<T>(a: seq<T>, b: seq<T>, c: seq<T>)
    ensures (a + b) + c == a + (b + c)
  {
  }

  /** Number of elements of `s` that satisfy `p`. */
  function Count<T>(s: seq<T>, p: T -> bool): (n: nat)
    ensures n <= |s|
  {
    if s == [] then 0 else (if p(s[0]) then 1 else 0) + Count(s[1..], p)
  }

  lemma {:induction false} CountAppend<T>(a: seq<T>, b: seq<T>, p: T -> bool)
    ensures Count(a + b, p) == Count(a, p) + Count(b, p)
  {
    if a == [] {
      assert a + b == b;
    } else {
      assert (a + b)[1..] == a[1..] + b;
      CountAppend(a[1..], b, p);
    }
  }

  /** When `p` holds of exactly the elements that satisfy one of the
      disjoint `q` and `r`, the counts add up. */
  lemma {:induction false} CountPartition<T>(s: seq<T>, p: T -> bool, q: T -> bool, r: T -> bool)
    requires forall x :: p(x) == (q(x) || r(x))
    requires forall x :: !(q(x) && r(x))
    ensures Count(s, q) + Count(s, r) == Count(s, p)
  {
    if s != [] {
      CountPartition(s[1..], p, q, r);
    }
  }

  /** Counting over a sequence whose every element satisfies `p`, or none
      does. */
  lemma {:induction false} CountAllOrNone<T>(s: seq<T>, p: T -> bool, all: bool)
    requires forall i :: 0 <= i < |s| ==> p(s[i]) == all
    ensures Count(s, p) == if all then |s| else 0
  {
    if s != [] {
      CountAllOrNone(s[1..], p, all);
    }
  }

  lemma {:induction false} CountFilter<T>(s: seq<T>, p: T -> bool)
    ensures Count(s, p) == |Filter(s, p)|
  {
    if s != [] {
      CountFilter(s[1..], p);
    }
  }

  /** `x` placed into the sorted `s` before the first element with a larger or equal key. */
  function Insert<T>(x: T, s: seq<T>, key: T -> int): (r: seq<T>)
    requires SortedBy(s, key)
    ensures SortedBy(r, key)
    ensures multiset(r) == multiset(s) + multiset{x}
    ensures |r| == |s| + 1
  {
    if s == [] then [x]
    else if key(x) <= key(s[0]) then [x] + s
    else
      var rest := Insert(x, s[1..], key);
      assert forall i :: 0 <= i < |rest| ==> key(s[0]) <= key(rest[i]) by {
        forall i | 0 <= i < |rest| ensures key(s[0]) <= key(rest[i]) {
          assert rest[i] in multiset(s[1..]) + multiset{x};
          if rest[i] != x {
            var k :| 0 <= k < |s[1..]| && s[1..][k] == rest[i];
            assert s[k + 1] == rest[i];
          }
        }
      }
      assert multiset(s) == multiset{s[0]} + multiset(s[1..]) by {
        assert s == [s[0]] + s[1..];
      }
      SortedCons(s[0], rest, key);
      [s[0]] + rest
  }

  /** Insertion sort by ascending key. */
  function SortBy<T>(s: seq<T>, key: T -> int): (r: seq<T>)
    ensures SortedBy(r, key)
    ensures multiset(r) == multiset(s)
    ensures |r| == |s|
  {
    if s == [] then []
    else
      assert s == [s[0]] + s[1..];
      Insert(s[0], SortBy(s[1..], key), key)
  }

  /** The first `n` elements, or all of them when there are fewer. */
  function Take<T>(s: seq<T>, n: nat): (r: seq<T>)
    ensures |r| == if n < |s| then n else |s|
    ensures r <= s
  {
    if n < |s| then s[..n] else s
  }

  /** A prefix takes nothing the sequence does not hold. */
  lemma TakeSubMultiset<T>(s: seq<T>, n: nat)
    ensures multiset(Take(s, n)) <= multiset(s)
  {
    var t := Take(s, n);
    assert s == t + s[|t|..];
    assert multiset(s) == multiset(t) + multiset(s[|t|..]);
  }

  /** A prefix of a sorted sequence holds its smallest keys: whatever is left
      out has a key at least as large as every key kept. */
  lemma PrefixHoldsSmallest<T>(s: seq<T>, n: nat, key: T -> int)
    requires SortedBy(s, key)
    ensures SortedBy(Take(s, n), key)
    ensures forall x, y :: x in multiset(s) - multiset(Take(s, n)) && y in Take(s, n) ==> key(y) <= key(x)
  {
    var t := Take(s, n);
    if n < |s| {
      assert s == t + s[n..];
      forall x, y | x in multiset(s) - multiset(t) && y in t ensures key(y) <= key(x) {
        assert multiset(s) == multiset(t) + multiset(s[n..]);
        assert x in multiset(s[n..]);
        var i :| 0 <= i < |t| && t[i] == y;
        var j :| n <= j < |s| && s[j] == x;
      }
    }
  }
}
