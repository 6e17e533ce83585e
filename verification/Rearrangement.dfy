/** In-place rearrangement of a stretch of an array: what every sorting step here keeps. */
module Rearrangement {

  /** t is s with the elements at positions lo..hi-1 permuted and all others untouched. */
  ghost predicate Rearranged<T>(s: seq<T>, t: seq<T>, lo: int, hi: int)
  {
    && 0 <= lo <= hi <= |s| == |t|
    && multiset(s) == multiset(t)
    && (forall k :: 0 <= k < lo || hi <= k < |s| ==> t[k] == s[k])
  }

  lemma RearrangedStretch<T>(s: seq<T>, t: seq<T>, lo: int, hi: int)
    requires Rearranged(s, t, lo, hi)
    ensures multiset(s[lo..hi]) == multiset(t[lo..hi])
  {
    assert s == s[..lo] + s[lo..hi] + s[hi..];
    assert t == t[..lo] + t[lo..hi] + t[hi..];
    assert s[..lo] == t[..lo] && s[hi..] == t[hi..];
    assert multiset(s) == multiset(s[..lo]) + multiset(s[lo..hi]) + multiset(s[hi..]);
    assert multiset(t) == multiset(t[..lo]) + multiset(t[lo..hi]) + multiset(t[hi..]);
    assert multiset(s[lo..hi]) == multiset(s) - multiset(s[..lo]) - multiset(s[hi..]);
  }

  /** Whatever now lies in the stretch came from the stretch. */
  lemma RearrangedFrom<T>(s: seq<T>, t: seq<T>, lo: int, hi: int, k: int) returns (j: int)
    requires Rearranged(s, t, lo, hi) && lo <= k < hi
    ensures lo <= j < hi && s[j] == t[k]
  {
    RearrangedStretch(s, t, lo, hi);
    assert t[lo..hi][k - lo] in multiset(t[lo..hi]);
    assert t[k] in s[lo..hi];
    var i :| 0 <= i < hi - lo && s[lo..hi][i] == t[k];
    j := lo + i;
  }

  /** A property that held of every element of the stretch still does. */
  lemma RearrangedKeeps<T>(s: seq<T>, t: seq<T>, lo: int, hi: int, p: T -> bool)
    requires Rearranged(s, t, lo, hi)
    requires forall k :: lo <= k < hi ==> p(s[k])
    ensures forall k :: lo <= k < hi ==> p(t[k])
  {
    forall k | lo <= k < hi
      ensures p(t[k])
    {
      var j := RearrangedFrom(s, t, lo, hi, k);
    }
  }

  lemma RearrangedWider<T>(s: seq<T>, t: seq<T>, lo: int, hi: int, lo': int, hi': int)
    requires Rearranged(s, t, lo, hi) && 0 <= lo' <= lo && hi <= hi' <= |s|
    ensures Rearranged(s, t, lo', hi')
  {
  }

  ghost predicate Distinct(s: seq<int>) {
    forall j, k :: 0 <= j < k < |s| ==> s[j] != s[k]
  }

  /** A listing of 0..n-1, each number once. */
  ghost predicate IsPermutation(s: seq<int>, n: nat)
  {
    && |s| == n
    && (forall k :: 0 <= k < n ==> 0 <= s[k] < n)
    && (forall j, k :: 0 <= j < k < n ==> s[j] != s[k])
  }

  lemma {:induction false} DistinctCount<T>(s: seq<T>, x: T)
    requires forall j, k :: 0 <= j < k < |s| ==> s[j] != s[k]
    ensures multiset(s)[x] <= 1
  {
    if s != [] {
      var n := |s| - 1;
      assert s == s[..n] + [s[n]];
      DistinctCount(s[..n], x);
      assert s[n] !in s[..n];
    }
  }

  /** An element at two positions counts at least twice. */
  lemma TwiceCounts<T>(s: seq<T>, j: nat, k: nat)
    requires j < k < |s| && s[j] == s[k]
    ensures multiset(s)[s[j]] >= 2
  {
    assert s == s[..j] + [s[j]] + s[j+1..k] + [s[k]] + s[k+1..];
  }

  lemma RearrangedPermutation(s: seq<int>, t: seq<int>, n: nat)
    requires IsPermutation(s, n) && |t| == n && multiset(s) == multiset(t)
    ensures IsPermutation(t, n)
  {
    forall k | 0 <= k < n
      ensures 0 <= t[k] < n
    {
      assert t[k] in multiset(s);
    }
    forall j, k | 0 <= j < k < n
      ensures t[j] != t[k]
    {
      DistinctCount(s, t[j]);
      if t[j] == t[k] { TwiceCounts(t, j, k); }
    }
  }

  ghost function UpTo(n: nat): (r: set<int>)
    ensures forall x :: x in r <==> 0 <= x < n
    ensures |r| == n
  {
    if n == 0 then {} else UpTo(n - 1) + {n - 1}
  }

  lemma {:induction false} DistinctCardinality(s: seq<int>)
    requires forall j, k :: 0 <= j < k < |s| ==> s[j] != s[k]
    ensures |set x | x in s| == |s|
  {
    if s != [] {
      var n := |s| - 1;
      DistinctCardinality(s[..n]);
      assert (set x | x in s) == (set x | x in s[..n]) + {s[n]};
    }
  }

  /** n distinct numbers below n are all the numbers below n. */
  lemma PermutationHits(s: seq<int>, n: nat, x: int) returns (k: nat)
    requires IsPermutation(s, n) && 0 <= x < n
    ensures k < n && s[k] == x
  {
    var elems, all := (set y | y in s), UpTo(n);
    DistinctCardinality(s);
    assert elems + (all - elems) == all;
    assert all - elems == {};
    assert x in all - elems || x in s;
    k :| 0 <= k < n && s[k] == x;
  }
}
