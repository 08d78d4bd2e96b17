/** Python's `sorted` on a list of integers. The result of any correct sort
    is the unique ascending permutation of its input (`AscendingPermutationUnique`),
    so an insertion sort describes it exactly. */
module Sorting {

  predicate Ascending(s: seq<int>) {
    forall i, j :: 0 <= i < j < |s| ==> s[i] <= s[j]
  }

  predicate StrictlyAscending(s: seq<int>) {
    forall i, j :: 0 <= i < j < |s| ==> s[i] < s[j]
  }

  /** Places `x` into an ascending sequence. */
  function Insert(x: int, s: seq<int>): (r: seq<int>)
    requires Ascending(s)
    ensures Ascending(r)
    ensures multiset(r) == multiset(s) + multiset{x}
    decreases |s|
  {
    if s == [] || x <= s[0] then
      ConsAscending(x, s);
      [x] + s
    else
      var rest := Insert(x, s[1..]);
      assert s == [s[0]] + s[1..];
      BoundsElements(s[0], rest, x, s[1..]);
      ConsAscending(s[0], rest);
      [s[0]] + rest
  }

  /** A value no greater than the head of an ascending sequence can go in front of it. */
  lemma ConsAscending(x: int, s: seq<int>)
    requires Ascending(s) && (s == [] || x <= s[0])
    ensures Ascending([x] + s)
  {
  }

  /** What bounds `x` and every element of `s` bounds every element of a
      sequence holding `s` and `x`. */
  lemma BoundsElements(h: int, r: seq<int>, x: int, s: seq<int>)
    requires h <= x && forall k :: 0 <= k < |s| ==> h <= s[k]
    requires multiset(r) == multiset(s) + multiset{x}
    ensures forall k :: 0 <= k < |r| ==> h <= r[k]
  {
    forall k | 0 <= k < |r|
      ensures h <= r[k]
    {
      assert r[k] in multiset(r);
      if r[k] != x {
        assert r[k] in multiset(s);
        var j :| 0 <= j < |s| && s[j] == r[k];
      }
    }
  }

  /** `sorted(s)`. */
  function Sort(s: seq<int>): (r: seq<int>)
    ensures Ascending(r)
    ensures multiset(r) == multiset(s)
    decreases |s|
  {
    if s == [] then []
    else
      assert s == [s[0]] + s[1..];
      Insert(s[0], Sort(s[1..]))
  }

  /** The head of an ascending sequence is its least element. */
  lemma HeadIsLeast(s: seq<int>, x: int)
    requires Ascending(s) && x in multiset(s)
    ensures s[0] <= x
  {
    var i :| 0 <= i < |s| && s[i] == x;
  }

  /** Two ascending sequences with the same elements are equal. */
  lemma {:induction false} AscendingPermutationUnique(a: seq<int>, b: seq<int>)
    requires Ascending(a) && Ascending(b)
    requires multiset(a) == multiset(b)
    ensures a == b
    decreases |a|
  {
    if a == [] {
      assert |b| == |multiset(b)| == 0;
    } else {
      assert |b| == |multiset(b)| == |a|;
      assert a[0] in multiset(b) && b[0] in multiset(a);
      HeadIsLeast(a, b[0]);
      HeadIsLeast(b, a[0]);
      MultisetTail(a, b);
      AscendingPermutationUnique(a[1..], b[1..]);
      assert a == [a[0]] + a[1..] && b == [b[0]] + b[1..];
    }
  }

  /** Removing equal heads from sequences with the same elements leaves
      tails with the same elements. */
  lemma MultisetTail(a: seq<int>, b: seq<int>)
    requires a != [] && b != [] && a[0] == b[0] && multiset(a) == multiset(b)
    ensures multiset(a[1..]) == multiset(b[1..])
  {
    assert a == [a[0]] + a[1..] && b == [b[0]] + b[1..];
    forall y
      ensures multiset(a[1..])[y] == multiset(b[1..])[y]
    {
      assert multiset(a)[y] == multiset{a[0]}[y] + multiset(a[1..])[y];
      assert multiset(b)[y] == multiset{a[0]}[y] + multiset(b[1..])[y];
    }
  }

  /** Sorting leaves an ascending sequence as it is. */
  lemma SortAscending(s: seq<int>)
    requires Ascending(s)
    ensures Sort(s) == s
  {
    AscendingPermutationUnique(Sort(s), s);
  }
}
