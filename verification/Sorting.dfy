/** Sorting by a total preorder, as Go's sort package leaves a slice: an ordered
    rearrangement of what was there. */
module Sorting {
  import opened Common

  ghost predicate TotalPreorder<T(!new)>(le: (T, T) -> bool) {
    && (forall a, b :: le(a, b) || le(b, a))
    && (forall a, b, c :: le(a, b) && le(b, c) ==> le(a, c))
  }

  predicate Ordered<T>(le: (T, T) -> bool, s: seq<T>) {
    forall i, j :: 0 <= i < j < |s| ==> le(s[i], s[j])
  }

  /** Puts `x` behind the last element of the ordered list `s` that is not after it. */
  function Insert<T(!new)>(le: (T, T) -> bool, s: seq<T>, x: T): (r: seq<T>)
    requires TotalPreorder(le) && Ordered(le, s)
    ensures Ordered(le, r)
    ensures multiset(r) == multiset(s) + multiset{x}
    ensures |r| == |s| + 1
  {
    if s == [] || le(s[|s| - 1], x) then s + [x]
    else
      var n := |s| - 1;
      var r := Insert(le, s[..n], x);
      assert s == s[..n] + [s[n]];
      assert forall i :: 0 <= i < |r| ==> le(r[i], s[n]) by {
        forall i | 0 <= i < |r| ensures le(r[i], s[n]) {
          assert r[i] in multiset(r);
          assert r[i] == x || r[i] in s[..n];
        }
      }
      r + [s[n]]
  }

  function Sort<T(!new)>(le: (T, T) -> bool, s: seq<T>): (r: seq<T>)
    requires TotalPreorder(le)
    ensures Ordered(le, r)
    ensures multiset(r) == multiset(s)
    ensures |r| == |s|
  {
    if s == [] then []
    else
      assert s == s[..|s| - 1] + [s[|s| - 1]];
      Insert(le, Sort(le, s[..|s| - 1]), s[|s| - 1])
  }

  /** Rearranged lists have the same elements. */
  lemma SameElements<T>(s: seq<T>, t: seq<T>)
    requires multiset(s) == multiset(t)
    ensures forall x :: x in s <==> x in t
  {
    assert forall x :: x in s <==> x in multiset(s);
    assert forall x :: x in t <==> x in multiset(t);
  }

  /** Rearranged lists have equal sums of any measure. */
  function SumBy<T>(f: T -> int, s: seq<T>): int {
    if s == [] then 0 else SumBy(f, s[..|s| - 1]) + f(s[|s| - 1])
  }

  lemma {:induction false} SumByIsSum<T>(f: T -> int, s: seq<T>, xs: seq<int>)
    requires |xs| == |s| && forall i :: 0 <= i < |s| ==> xs[i] == f(s[i])
    ensures SumBy(f, s) == Sum(xs)
  {
    if s != [] {
      var n := |s| - 1;
      SumByIsSum(f, s[..n], xs[..n]);
    }
  }

  lemma {:induction false} SumByRemove<T>(f: T -> int, s: seq<T>, k: int)
    requires 0 <= k < |s|
    ensures SumBy(f, s) == SumBy(f, s[..k] + s[k + 1..]) + f(s[k])
  {
    var n := |s| - 1;
    if k == n {
      assert s[..k] + s[k + 1..] == s[..n];
    } else {
      var t := s[..k] + s[k + 1..];
      assert t[..|t| - 1] == s[..n][..k] + s[..n][k + 1..];
      SumByRemove(f, s[..n], k);
    }
  }

  lemma {:induction false} SumByRearranged<T>(f: T -> int, s: seq<T>, t: seq<T>)
    requires multiset(s) == multiset(t)
    ensures SumBy(f, s) == SumBy(f, t)
    decreases |s|
  {
    if s == [] {
      assert |multiset(t)| == 0;
    } else {
      var n := |s| - 1;
      assert s == s[..n] + [s[n]];
      assert s[n] in multiset(t);
      var k :| 0 <= k < |t| && t[k] == s[n];
      var rest := t[..k] + t[k + 1..];
      assert t == t[..k] + [t[k]] + t[k + 1..];
      assert multiset(t) == multiset(rest) + multiset{t[k]};
      assert multiset(s[..n]) == multiset(s) - multiset{s[n]};
      SumByRearranged(f, s[..n], rest);
      SumByRemove(f, t, k);
    }
  }
}
