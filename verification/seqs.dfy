/** Records, runs and the in-memory sort used for each chunk.

    A record is an `int`; a run is a `seq<int>`; a list of runs is a
    `seq<seq<int>>`. `SortSeq` is the reference sort: the model of
    `chunk.sort()` and, because a sorted permutation is unique, the
    reference every later phase is compared against.
 */
module Seqs {

  /** Non-decreasing order: the invariant every run keeps. */
  predicate Sorted(s: seq<int>) {
    forall i, j :: 0 <= i < j < |s| ==> s[i] <= s[j]
  }

  /** True iff every run of the list is sorted. */
  predicate AllSorted(ss: seq<seq<int>>) {
    forall k :: 0 <= k < |ss| ==> Sorted(ss[k])
  }

  /** Concatenation of a list of sequences, in list order. */
  function Flatten<T>(ss: seq<seq<T>>): seq<T> {
    if |ss| == 0 then [] else Flatten(ss[..|ss| - 1]) + ss[|ss| - 1]
  }

  lemma {:induction false} FlattenAppend<T>(a: seq<seq<T>>, b: seq<seq<T>>)
    ensures Flatten(a + b) == Flatten(a) + Flatten(b)
    decreases |b|
  {
    if |b| == 0 {
      assert a + b == a;
    } else {
      var ab := a + b;
      assert ab[..|ab| - 1] == a + b[..|b| - 1];
      FlattenAppend(a, b[..|b| - 1]);
    }
  }

  /** Flattening a list that starts with `x` starts with `x`. */
  lemma FlattenCons<T>(x: seq<T>, rest: seq<seq<T>>)
    ensures Flatten([x] + rest) == x + Flatten(rest)
  {
    FlattenAppend([x], rest);
    assert [x][..0] == [];
  }

  /** Putting `h` in front of `t` keeps it sorted when `h` is at most `x`
      and at most every element of the sorted `u`, and `t` holds `u` and `x`. */
  lemma PrependLeast(h: int, t: seq<int>, u: seq<int>, x: int)
    requires Sorted(t) && Sorted([h] + u) && h <= x
    requires multiset(t) == multiset(u) + multiset{x}
    ensures Sorted([h] + t)
  {
    forall k | 0 <= k < |t|
      ensures h <= t[k]
    {
      assert t[k] in multiset(t);
      if t[k] != x {
        assert t[k] in multiset(u);
        var j :| 0 <= j < |u| && u[j] == t[k];
        var hu := [h] + u;
        assert hu[0] == h && hu[j + 1] == u[j];
        assert hu[0] <= hu[j + 1];
      }
    }
  }

  /** `s` with `x` put in its place; `s` must be sorted. */
  function Insert(x: int, s: seq<int>): (r: seq<int>)
    requires Sorted(s)
    ensures Sorted(r)
    ensures multiset(r) == multiset(s) + multiset{x}
    ensures |r| == |s| + 1
  {
    if |s| == 0 then [x]
    else if x <= s[0] then [x] + s
    else
      var tail := Insert(x, s[1..]);
      assert s == [s[0]] + s[1..];
      PrependLeast(s[0], tail, s[1..], x);
      [s[0]] + tail
  }

  /** Insertion sort: the reference definition of sorting a chunk. */
  function SortSeq(s: seq<int>): (r: seq<int>)
    ensures Sorted(r)
    ensures multiset(r) == multiset(s)
    ensures |r| == |s|
  {
    if |s| == 0 then []
    else
      assert s == [s[0]] + s[1..];
      Insert(s[0], SortSeq(s[1..]))
  }

  /** The head of a sorted sequence is a lower bound of its elements. */
  lemma SortedHeadIsMin(a: seq<int>, x: int)
    requires Sorted(a) && x in multiset(a)
    ensures |a| > 0 && a[0] <= x
  {
    var i :| 0 <= i < |a| && a[i] == x;
  }

  /** Dropping the head of a sorted sequence keeps it sorted. */
  lemma SortedTail(a: seq<int>)
    requires Sorted(a) && |a| > 0
    ensures Sorted(a[1..])
  {
    forall i, j | 0 <= i < j < |a| - 1
      ensures a[1..][i] <= a[1..][j]
    {
      assert a[1..][i] == a[i + 1] && a[1..][j] == a[j + 1];
    }
  }

  /** Two sorted sequences with the same elements are equal: the output of
      any correct sort is determined by its input multiset. */
  lemma {:induction false} SortedUnique(a: seq<int>, b: seq<int>)
    requires Sorted(a) && Sorted(b)
    requires multiset(a) == multiset(b)
    ensures a == b
    decreases |a|
  {
    assert |a| == |multiset(a)| == |multiset(b)| == |b|;
    if |a| > 0 {
      assert b[0] in multiset(b);
      SortedHeadIsMin(a, b[0]);
      assert a[0] in multiset(a);
      SortedHeadIsMin(b, a[0]);
      var x := a[0];
      assert b[0] == x;
      var ta, tb := a[1..], b[1..];
      assert a == [x] + ta;
      assert b == [x] + tb;
      assert multiset(a) == multiset{x} + multiset(ta);
      assert multiset(b) == multiset{x} + multiset(tb);
      assert multiset(ta) == multiset(a) - multiset{x};
      assert multiset(tb) == multiset(b) - multiset{x};
      SortedTail(a);
      SortedTail(b);
      SortedUnique(ta, tb);
    }
  }

  /** Any sorted permutation of `s` is `SortSeq(s)`. */
  lemma SortedPermutationIsSortSeq(s: seq<int>, r: seq<int>)
    requires Sorted(r) && multiset(r) == multiset(s)
    ensures r == SortSeq(s)
  {
    SortedUnique(r, SortSeq(s));
  }
}
