/**
 * Sequence operations the store queries are built from: `findOne` (first
 * match), `Array.prototype.filter`, a descending sort on an integer key
 * (Mongo's `sort({field: -1})`), and `skip`/`limit` paging.
 */
module Seqs {
  import opened Basics

  /** The first element satisfying `p`, if any. */
  function Find<T>(xs: seq<T>, p: T -> bool): (r: Option<T>)
    ensures r.None? <==> forall i :: 0 <= i < |xs| ==> !p(xs[i])
    ensures r.Some? ==> r.value in xs && p(r.value)
  {
    if |xs| == 0 then None
    else if p(xs[0]) then Some(xs[0])
    else Find(xs[1..], p)
  }

  /** When exactly one element satisfies `p`, `Find` returns it. */
  lemma {:induction false} FindOnly<T>(xs: seq<T>, p: T -> bool, i: nat)
    requires i < |xs| && p(xs[i])
    requires forall j :: 0 <= j < |xs| && j != i ==> !p(xs[j])
    ensures Find(xs, p) == Some(xs[i])
  {
    if i > 0 {
      forall j | 0 <= j < |xs[1..]| && j != i - 1
        ensures !p(xs[1..][j])
      {
        assert xs[1..][j] == xs[j + 1];
      }
      FindOnly(xs[1..], p, i - 1);
    }
  }

  /** The elements satisfying `p`, in their original order. */
  function Filter<T>(xs: seq<T>, p: T -> bool): (r: seq<T>)
    ensures |r| <= |xs|
    ensures forall i :: 0 <= i < |r| ==> r[i] in xs && p(r[i])
    ensures forall i :: 0 <= i < |xs| && p(xs[i]) ==> xs[i] in r
    ensures multiset(r) <= multiset(xs)
    ensures forall x {:trigger multiset(r)[x]} :: x in xs && p(x) ==> multiset(r)[x] == multiset(xs)[x]
  {
    if |xs| == 0 then []
    else
      assert xs == [xs[0]] + xs[1..];
      if p(xs[0]) then [xs[0]] + Filter(xs[1..], p)
      else Filter(xs[1..], p)
  }

  /** Filtering a non-empty sequence keeps its head exactly when the head passes. */
  lemma FilterCons<T>(xs: seq<T>, p: T -> bool)
    requires |xs| > 0
    ensures |Filter(xs, p)| == (if p(xs[0]) then 1 else 0) + |Filter(xs[1..], p)|
  {
  }

  /** `a` can be obtained from `b` by deleting elements: order is kept. */
  predicate IsSubsequence<T(==)>(a: seq<T>, b: seq<T>)
    decreases |b|
  {
    |a| == 0 || (|b| > 0 && (if a[0] == b[0] then IsSubsequence(a[1..], b[1..]) else IsSubsequence(a, b[1..])))
  }

  lemma {:induction false} FilterIsSubsequence<T>(xs: seq<T>, p: T -> bool)
    ensures IsSubsequence(Filter(xs, p), xs)
  {
    if |xs| > 0 {
      FilterIsSubsequence(xs[1..], p);
      var r := Filter(xs[1..], p);
      if p(xs[0]) {
        assert ([xs[0]] + r)[1..] == r;
      }
    }
  }

  /** Filtering twice keeps exactly what satisfies both predicates: the order of the filters does not matter. */
  lemma {:induction false} FilterTwice<T>(xs: seq<T>, p: T -> bool, q: T -> bool, both: T -> bool)
    requires forall x :: both(x) == (p(x) && q(x))
    ensures Filter(Filter(xs, p), q) == Filter(xs, both)
  {
    if |xs| > 0 {
      FilterTwice(xs[1..], p, q, both);
      if p(xs[0]) {
        assert Filter(xs, p) == [xs[0]] + Filter(xs[1..], p);
        assert ([xs[0]] + Filter(xs[1..], p))[1..] == Filter(xs[1..], p);
      }
    }
  }

  /** A filter every element passes keeps the whole sequence. */
  lemma {:induction false} FilterAll<T>(xs: seq<T>, p: T -> bool)
    requires forall i :: 0 <= i < |xs| ==> p(xs[i])
    ensures Filter(xs, p) == xs
  {
    if |xs| > 0 {
      FilterAll(xs[1..], p);
      assert [xs[0]] + xs[1..] == xs;
    }
  }

  /** A filter no element passes keeps nothing. */
  lemma {:induction false} FilterNone<T>(xs: seq<T>, p: T -> bool)
    requires forall i :: 0 <= i < |xs| ==> !p(xs[i])
    ensures Filter(xs, p) == []
  {
    if |xs| > 0 {
      FilterNone(xs[1..], p);
    }
  }

  /** Filtering commutes with appending. */
  lemma {:induction false} FilterAppend<T>(xs: seq<T>, ys: seq<T>, p: T -> bool)
    ensures Filter(xs + ys, p) == Filter(xs, p) + Filter(ys, p)
  {
    if |xs| == 0 {
      assert xs + ys == ys;
    } else {
      assert (xs + ys)[1..] == xs[1..] + ys;
      FilterAppend(xs[1..], ys, p);
    }
  }

  /** Key order, largest first; equal keys may appear in either order. */
  predicate SortedDesc<T>(xs: seq<T>, key: T -> int) {
    forall i, j :: 0 <= i < j < |xs| ==> key(xs[i]) >= key(xs[j])
  }

  /** Inserts `x` into a descending sequence in front of the first element with a smaller key. */
  function InsertDesc<T>(x: T, xs: seq<T>, key: T -> int): (r: seq<T>)
    requires SortedDesc(xs, key)
    ensures |r| == |xs| + 1
    ensures SortedDesc(r, key)
    ensures multiset(r) == multiset(xs) + multiset{x}
  {
    if |xs| == 0 then [x]
    else if key(x) >= key(xs[0]) then
      assert multiset([x] + xs) == multiset{x} + multiset(xs);
      [x] + xs
    else
      var rest := InsertDesc(x, xs[1..], key);
      InsertBehindHead(x, xs, rest, key);
      [xs[0]] + rest
  }

  /** Keeping the head of `xs` in front of the insertion into its tail stays sorted. */
  lemma InsertBehindHead<T>(x: T, xs: seq<T>, rest: seq<T>, key: T -> int)
    requires |xs| > 0 && SortedDesc(xs, key) && key(x) < key(xs[0])
    requires SortedDesc(rest, key)
    requires multiset(rest) == multiset(xs[1..]) + multiset{x}
    ensures SortedDesc([xs[0]] + rest, key)
    ensures multiset([xs[0]] + rest) == multiset(xs) + multiset{x}
  {
    forall i | 0 <= i < |rest|
      ensures key(rest[i]) <= key(xs[0])
    {
      assert rest[i] in multiset(rest);
      if rest[i] != x {
        assert rest[i] in multiset(xs[1..]);
        var k :| 0 <= k < |xs[1..]| && xs[1..][k] == rest[i];
        assert xs[k + 1] == rest[i];
      }
    }
    var r := [xs[0]] + rest;
    forall i, j | 0 <= i < j < |r|
      ensures key(r[i]) >= key(r[j])
    {
      if i > 0 {
        assert r[i] == rest[i - 1] && r[j] == rest[j - 1];
      } else {
        assert r[j] == rest[j - 1];
      }
    }
    assert xs == [xs[0]] + xs[1..];
  }

  /** Sorts by `key`, largest first; the result is a permutation of `xs`. */
  function SortDesc<T>(xs: seq<T>, key: T -> int): (r: seq<T>)
    ensures |r| == |xs|
    ensures SortedDesc(r, key)
    ensures multiset(r) == multiset(xs)
  {
    if |xs| == 0 then []
    else
      assert xs == [xs[0]] + xs[1..];
      InsertDesc(xs[0], SortDesc(xs[1..], key), key)
  }

  /** Mongo's `skip(s).limit(n)` on an already ordered result: at most `n` elements starting at `s`. */
  function Page<T>(xs: seq<T>, skip: nat, n: nat): (r: seq<T>)
    ensures |r| == if skip >= |xs| then 0 else Min(n, |xs| - skip)
    ensures skip < |xs| ==> r == xs[skip..skip + |r|]
  {
    if skip >= |xs| then [] else xs[skip..skip + Min(n, |xs| - skip)]
  }

  /** A page of a sorted sequence is sorted and holds only elements of the sequence. */
  lemma PageOfSorted<T>(xs: seq<T>, skip: nat, n: nat, key: T -> int)
    requires SortedDesc(xs, key)
    ensures SortedDesc(Page(xs, skip, n), key)
    ensures forall i :: 0 <= i < |Page(xs, skip, n)| ==> Page(xs, skip, n)[i] == xs[skip + i]
  {
  }
}
