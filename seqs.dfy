/** The collection operations of the Swift standard library the app uses: `filter`, `first(where:)`, `firstIndex(where:)`, `reduce(0, +)` and `sorted(by:)`. */
module Seqs {
  import opened Wrappers

  /** `filter`: the elements that satisfy `p`, in their original order. */
  function Filter<T>(s: seq<T>, p: T -> bool): (r: seq<T>)
    ensures |r| <= |s|
    ensures forall k :: 0 <= k < |r| ==> p(r[k])
  {
    if s == [] then []
    else if p(s[0]) then [s[0]] + Filter(s[1..], p)
    else Filter(s[1..], p)
  }

  /** An element survives `filter` exactly when it is in the sequence and satisfies `p`. */
  lemma {:induction false} FilterMember<T>(s: seq<T>, p: T -> bool, x: T)
    ensures x in Filter(s, p) <==> x in s && p(x)
  {
    if s != [] {
      FilterMember(s[1..], p, x);
      assert s == [s[0]] + s[1..];
    }
  }

  /** `filter` keeps a sub-multiset of the elements. */
  lemma {:induction false} FilterSubMultiset<T>(s: seq<T>, p: T -> bool)
    ensures multiset(Filter(s, p)) <= multiset(s)
  {
    if s != [] {
      var x, t := s[0], s[1..];
      FilterSubMultiset(t, p);
      assert s == [x] + t;
      assert multiset(s) == multiset{x} + multiset(t);
      if p(x) {
        assert Filter(s, p) == [x] + Filter(t, p);
      }
    }
  }

  /** `filter` keeps every copy of an element that satisfies `p`, and none of the others. */
  lemma {:induction false} FilterCount<T>(s: seq<T>, p: T -> bool, x: T)
    ensures multiset(Filter(s, p))[x] == if p(x) then multiset(s)[x] else 0
  {
    if s != [] {
      var y, t := s[0], s[1..];
      FilterCount(t, p, x);
      assert s == [y] + t;
      assert multiset(s) == multiset{y} + multiset(t);
      if p(y) {
        assert Filter(s, p) == [y] + Filter(t, p);
        assert multiset(Filter(s, p)) == multiset{y} + multiset(Filter(t, p));
      }
    }
  }

  lemma {:induction false} FilterAppend<T>(a: seq<T>, b: seq<T>, p: T -> bool)
    ensures Filter(a + b, p) == Filter(a, p) + Filter(b, p)
  {
    if a != [] {
      assert (a + b)[1..] == a[1..] + b;
      FilterAppend(a[1..], b, p);
    } else {
      assert a + b == b;
    }
  }

  /** Keeping the elements that satisfy `p` and those that do not splits the sequence in two. */
  lemma {:induction false} FilterPartition<T>(s: seq<T>, p: T -> bool, q: T -> bool)
    requires forall x :: q(x) <==> !p(x)
    ensures multiset(Filter(s, p)) + multiset(Filter(s, q)) == multiset(s)
  {
    if s != [] {
      var x, t := s[0], s[1..];
      FilterPartition(t, p, q);
      assert s == [x] + t;
      assert multiset(s) == multiset{x} + multiset(t);
      if p(x) {
        assert Filter(s, p) == [x] + Filter(t, p) && Filter(s, q) == Filter(t, q);
      } else {
        assert Filter(s, p) == Filter(t, p) && Filter(s, q) == [x] + Filter(t, q);
      }
    }
  }

  /** Elements kept by `p` are never kept by a `q` that excludes them. */
  lemma FilterDisjoint<T>(s: seq<T>, p: T -> bool, q: T -> bool, x: T)
    requires forall y :: q(y) ==> !p(y)
    requires x in Filter(s, p)
    ensures x !in Filter(s, q)
  {
    FilterMember(s, p, x);
    FilterMember(s, q, x);
  }

  /** Filtering a sequence in which every element satisfies `p` keeps it whole. */
  lemma {:induction false} FilterAll<T>(s: seq<T>, p: T -> bool)
    requires forall k :: 0 <= k < |s| ==> p(s[k])
    ensures Filter(s, p) == s
  {
    if s != [] {
      FilterAll(s[1..], p);
      assert s == [s[0]] + s[1..];
    }
  }

  /** Two conditions that agree on every element keep the same elements. */
  lemma {:induction false} FilterAgree<T>(s: seq<T>, p: T -> bool, q: T -> bool)
    requires forall k :: 0 <= k < |s| ==> p(s[k]) == q(s[k])
    ensures Filter(s, p) == Filter(s, q)
  {
    if s != [] {
      FilterAgree(s[1..], p, q);
    }
  }

  /** `firstIndex(where:)`. */
  function FirstIndex<T>(s: seq<T>, p: T -> bool): (r: Option<nat>)
    ensures r.Some? ==> r.value < |s| && p(s[r.value]) && forall j :: 0 <= j < r.value ==> !p(s[j])
    ensures r.None? ==> forall j :: 0 <= j < |s| ==> !p(s[j])
  {
    if s == [] then None
    else if p(s[0]) then Some(0)
    else match FirstIndex(s[1..], p)
      case None => None
      case Some(i) => Some(i + 1)
  }

  /** `first(where:)`. */
  function First<T>(s: seq<T>, p: T -> bool): (r: Option<T>)
    ensures r.Some? ==> exists i :: 0 <= i < |s| && s[i] == r.value && p(s[i]) && forall j :: 0 <= j < i ==> !p(s[j])
    ensures r.None? <==> forall j :: 0 <= j < |s| ==> !p(s[j])
  {
    match FirstIndex(s, p)
    case None => None
    case Some(i) => Some(s[i])
  }

  /** The first index is the one whose element satisfies `p` with none before it doing so. */
  lemma FirstIndexAt<T>(s: seq<T>, p: T -> bool, i: nat)
    requires i < |s| && p(s[i]) && forall k :: 0 <= k < i ==> !p(s[k])
    ensures FirstIndex(s, p) == Some(i)
  {
  }

  /** `first(where:)` looks at the head, then at the tail. */
  lemma FirstCons<T>(s: seq<T>, p: T -> bool)
    requires s != []
    ensures First(s, p) == if p(s[0]) then Some(s[0]) else First(s[1..], p)
  {
    if !p(s[0]) {
      match FirstIndex(s[1..], p)
      case Some(i) => assert s[1..][i] == s[i + 1];
      case None =>
    }
  }

  /** `reduce(0, +)` over a key of each element. */
  function SumBy<T>(s: seq<T>, key: T -> real): real {
    if s == [] then 0.0 else key(s[0]) + SumBy(s[1..], key)
  }

  lemma {:induction false} SumByAppend<T>(a: seq<T>, b: seq<T>, key: T -> real)
    ensures SumBy(a + b, key) == SumBy(a, key) + SumBy(b, key)
  {
    if a != [] {
      assert (a + b)[1..] == a[1..] + b;
      SumByAppend(a[1..], b, key);
    } else {
      assert a + b == b;
    }
  }

  /** Taking one element out of a sum. */
  lemma SumByRemove<T>(b: seq<T>, i: nat, key: T -> real)
    requires i < |b|
    ensures SumBy(b, key) == key(b[i]) + SumBy(b[..i] + b[i + 1..], key)
  {
    assert b == b[..i] + ([b[i]] + b[i + 1..]);
    SumByAppend(b[..i], [b[i]] + b[i + 1..], key);
    SumByAppend([b[i]], b[i + 1..], key);
    SumByAppend(b[..i], b[i + 1..], key);
  }

  /** Removing the element at `i` removes one copy of it from the multiset. */
  lemma MultisetRemove<T>(b: seq<T>, i: nat)
    requires i < |b|
    ensures multiset(b[..i] + b[i + 1..]) == multiset(b) - multiset{b[i]}
  {
    assert b == b[..i] + [b[i]] + b[i + 1..];
    assert multiset(b) == multiset(b[..i]) + multiset{b[i]} + multiset(b[i + 1..]);
  }

  /** The sum does not depend on the order of the elements. */
  lemma {:induction false} SumByPermutation<T>(a: seq<T>, b: seq<T>, key: T -> real)
    requires multiset(a) == multiset(b)
    ensures SumBy(a, key) == SumBy(b, key)
    decreases |a|
  {
    if a != [] {
      var x := a[0];
      assert x in multiset(b);
      var i :| 0 <= i < |b| && b[i] == x;
      var b' := b[..i] + b[i + 1..];
      MultisetRemove(b, i);
      assert a == [x] + a[1..];
      assert multiset(a[1..]) == multiset(a) - multiset{x};
      SumByPermutation(a[1..], b', key);
      SumByRemove(b, i, key);
    } else {
      assert b == [];
    }
  }

  /** `key` is non-decreasing (ascending) or non-increasing (descending) along `s`. */
  predicate SortedBy<T>(s: seq<T>, key: T -> real, descending: bool) {
    forall i, j :: 0 <= i < j < |s| ==> if descending then key(s[i]) >= key(s[j]) else key(s[i]) <= key(s[j])
  }

  predicate InOrder(x: real, y: real, descending: bool) {
    if descending then x >= y else x <= y
  }

  /** Inserts `x` into a sorted sequence before the first element it is ordered strictly before. */
  function Insert<T>(x: T, s: seq<T>, key: T -> real, descending: bool): (r: seq<T>)
    requires SortedBy(s, key, descending)
    ensures SortedBy(r, key, descending)
    ensures multiset(r) == multiset(s) + multiset{x}
  {
    if s == [] then [x]
    else if InOrder(key(x), key(s[0]), descending) then
      ConsSorted(x, s, key, descending);
      [x] + s
    else
      var rest := Insert(x, s[1..], key, descending);
      assert s == [s[0]] + s[1..];
      HeadBeforeRest(x, s, rest, key, descending);
      ConsSorted(s[0], rest, key, descending);
      [s[0]] + rest
  }

  /** Putting an element ordered before the head in front keeps a sequence sorted. */
  lemma ConsSorted<T>(x: T, s: seq<T>, key: T -> real, descending: bool)
    requires SortedBy(s, key, descending)
    requires s != [] ==> InOrder(key(x), key(s[0]), descending)
    ensures SortedBy([x] + s, key, descending)
  {
    var r := [x] + s;
    forall i, j | 0 <= i < j < |r|
      ensures InOrder(key(r[i]), key(r[j]), descending)
    {
      if i == 0 {
        assert r[j] == s[j - 1];
      } else {
        assert r[i] == s[i - 1] && r[j] == s[j - 1];
      }
    }
  }

  /** When `x` does not go first, the head of `s` is ordered before everything the insertion into the tail gives. */
  lemma HeadBeforeRest<T>(x: T, s: seq<T>, rest: seq<T>, key: T -> real, descending: bool)
    requires s != [] && SortedBy(s, key, descending)
    requires !InOrder(key(x), key(s[0]), descending)
    requires multiset(rest) == multiset(s[1..]) + multiset{x}
    ensures rest != [] ==> InOrder(key(s[0]), key(rest[0]), descending)
    ensures forall k :: 0 <= k < |rest| ==> InOrder(key(s[0]), key(rest[k]), descending)
  {
    forall k | 0 <= k < |rest|
      ensures InOrder(key(s[0]), key(rest[k]), descending)
    {
      assert rest[k] in multiset(rest);
      if rest[k] != x {
        assert rest[k] in multiset(s[1..]);
        var j :| 0 <= j < |s[1..]| && s[1..][j] == rest[k];
        assert s[j + 1] == rest[k];
      }
    }
  }

  /** `sorted(by:)` on a numeric key: the elements of `s`, ordered by `key`. */
  function SortBy<T>(s: seq<T>, key: T -> real, descending: bool): (r: seq<T>)
    ensures SortedBy(r, key, descending)
    ensures multiset(r) == multiset(s)
    ensures |r| == |s|
  {
    if s == [] then []
    else
      assert s == [s[0]] + s[1..];
      Insert(s[0], SortBy(s[1..], key, descending), key, descending)
  }

  /** The sequence without its element at `i`: what deleting one fetched record leaves. */
  function RemoveAt<T>(s: seq<T>, i: nat): (r: seq<T>)
    requires i < |s|
    ensures |r| == |s| - 1
    ensures forall k :: 0 <= k < i ==> r[k] == s[k]
    ensures forall k :: i <= k < |r| ==> r[k] == s[k + 1]
  {
    s[..i] + s[i + 1..]
  }

  /** `map`. */
  function Map<T, U>(s: seq<T>, f: T -> U): (r: seq<U>)
    ensures |r| == |s|
    ensures forall k :: 0 <= k < |s| ==> r[k] == f(s[k])
  {
    seq(|s|, k requires 0 <= k < |s| => f(s[k]))
  }

  /** `compactMap`: the results of `f` that are not `nil`, in order. */
  function CompactMap<T, U>(s: seq<T>, f: T -> Option<U>): (r: seq<U>)
    ensures |r| <= |s|
  {
    if s == [] then []
    else match f(s[0])
      case Some(u) => [u] + CompactMap(s[1..], f)
      case None => CompactMap(s[1..], f)
  }

  lemma {:induction false} CompactMapAppend<T, U>(a: seq<T>, b: seq<T>, f: T -> Option<U>)
    ensures CompactMap(a + b, f) == CompactMap(a, f) + CompactMap(b, f)
  {
    if a != [] {
      assert (a + b)[1..] == a[1..] + b;
      CompactMapAppend(a[1..], b, f);
    } else {
      assert a + b == b;
    }
  }

  /** Every result of `compactMap` is the image of some element; elements with no image are skipped. */
  lemma {:induction false} CompactMapMember<T, U>(s: seq<T>, f: T -> Option<U>, u: U)
    ensures u in CompactMap(s, f) <==> exists k :: 0 <= k < |s| && f(s[k]) == Some(u)
  {
    if s != [] {
      CompactMapMember(s[1..], f, u);
      if exists k :: 0 <= k < |s| && f(s[k]) == Some(u) {
        var k :| 0 <= k < |s| && f(s[k]) == Some(u);
        if k > 0 {
          assert s[1..][k - 1] == s[k];
        }
      }
      if exists k :: 0 <= k < |s[1..]| && f(s[1..][k]) == Some(u) {
        var k :| 0 <= k < |s[1..]| && f(s[1..][k]) == Some(u);
        assert s[k + 1] == s[1..][k];
      }
    }
  }

  /** When `f` maps every element to a value, `compactMap` is `map`. */
  lemma {:induction false} CompactMapTotal<T, U>(s: seq<T>, f: T -> Option<U>, g: T -> U)
    requires forall k :: 0 <= k < |s| ==> f(s[k]) == Some(g(s[k]))
    ensures CompactMap(s, f) == Map(s, g)
  {
    if s != [] {
      CompactMapTotal(s[1..], f, g);
      assert Map(s, g) == [g(s[0])] + Map(s[1..], g);
    }
  }

  /** `compactMap` with a partial inverse of the mapped function gives the original sequence back. */
  lemma {:induction false} CompactMapOfMap<T, U>(s: seq<T>, g: T -> U, p: U -> Option<T>)
    requires forall k :: 0 <= k < |s| ==> p(g(s[k])) == Some(s[k])
    ensures CompactMap(Map(s, g), p) == s
  {
    if s != [] {
      CompactMapOfMap(s[1..], g, p);
      assert Map(s, g) == [g(s[0])] + Map(s[1..], g);
    }
  }
}
