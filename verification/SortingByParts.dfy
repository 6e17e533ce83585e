/** Sortedness of a stretch of pointers under a key, and sorting by parts: what is known
    about an array while some of its stretches are still to be sorted. */
module SortingByParts {
  import opened Rearrangement
  import opened ThreeWayPartition

  ghost predicate SortedByKey(s: seq<int>, key: seq<int>, lo: int, hi: int)
  {
    hi < |s| && forall p, q :: 0 <= p && lo <= p < q <= hi ==> Key(key, s[p]) <= Key(key, s[q])
  }

  lemma SwapKeepsMultiset<T>(t: seq<T>, i: int, j: int)
    requires 0 <= i < |t| && 0 <= j < |t|
    ensures multiset(t[i := t[j]][j := t[i]]) == multiset(t)
  {
    var u := t[i := t[j]];
    assert multiset(u) == multiset(t) - multiset{t[i]} + multiset{t[j]};
    assert multiset(u[j := t[i]]) == multiset(u) - multiset{u[j]} + multiset{t[i]};
  }

  /** Element tmp has been lifted out of s0; position hole of s is free to be overwritten. */
  ghost predicate HasHole(s0: seq<int>, s: seq<int>, hole: int, tmp: int, lo: int, hi: int) {
    lo <= hole <= hi && 0 <= hole < |s| && Rearranged(s0, s[hole := tmp], lo, hi + 1)
  }

  /** Moving the element at j into the hole moves the hole to j. */
  lemma HoleMoves(s0: seq<int>, s: seq<int>, hole: int, j: int, tmp: int, lo: int, hi: int)
    requires HasHole(s0, s, hole, tmp, lo, hi) && lo <= j <= hi
    ensures HasHole(s0, s[hole := s[j]], j, tmp, lo, hi)
  {
    var t := s[hole := tmp];
    assert s[hole := s[j]][j := tmp] == t[hole := t[j]][j := t[hole]];
    SwapKeepsMultiset(t, hole, j);
  }

  method MoveIntoHole(a: array<int>, hole: int, j: int, ghost tmp: int, ghost s0: seq<int>, ghost lo: int,
                      ghost hi: int)
    requires HasHole(s0, a[..], hole, tmp, lo, hi) && lo <= j <= hi
    modifies a
    ensures HasHole(s0, a[..], j, tmp, lo, hi)
    ensures a[..] == old(a[..])[hole := old(a[j])]
  {
    HoleMoves(s0, a[..], hole, j, tmp, lo, hi);
    a[hole] := a[j];
  }

  method FillHole(a: array<int>, hole: int, tmp: int, ghost s0: seq<int>, ghost lo: int, ghost hi: int)
    requires HasHole(s0, a[..], hole, tmp, lo, hi)
    modifies a
    ensures Rearranged(s0, a[..], lo, hi + 1)
    ensures a[..] == old(a[..])[hole := tmp]
  {
    a[hole] := tmp;
  }

  /** s with its element at i reinserted just below position j. */
  function Reinserted(s: seq<int>, i: int, j: int): (t: seq<int>)
    requires 0 <= i < j <= |s|
    ensures |t| == |s|
  {
    s[..i] + s[i+1..j] + [s[i]] + s[j..]
  }

  lemma ReinsertedRearranged(s: seq<int>, i: int, j: int)
    requires 0 <= i < j <= |s|
    ensures Rearranged(s, Reinserted(s, i, j), i, j)
  {
    assert s == s[..i] + [s[i]] + s[i+1..j] + s[j..];
  }

  lemma ReinsertedSorted(s: seq<int>, key: seq<int>, i: int, j: int, hi: int)
    requires 0 <= i < j <= hi + 1 <= |s| && SortedByKey(s, key, i + 1, hi)
    requires forall k :: i < k < j ==> Key(key, s[k]) < Key(key, s[i])
    requires j <= hi ==> Key(key, s[i]) <= Key(key, s[j])
    ensures SortedByKey(Reinserted(s, i, j), key, i, hi)
  {
    var t := Reinserted(s, i, j);
    forall p | i <= p < hi
      ensures Key(key, t[p]) <= Key(key, t[p+1])
    {
    }
    AdjacentSorted(t, key, i, hi);
  }

  lemma {:induction false} AdjacentSorted(s: seq<int>, key: seq<int>, lo: int, hi: int)
    requires 0 <= lo && hi < |s| && forall p :: lo <= p < hi ==> Key(key, s[p]) <= Key(key, s[p+1])
    ensures SortedByKey(s, key, lo, hi)
    decreases hi - lo
  {
    if lo < hi {
      AdjacentSorted(s, key, lo, hi - 1);
      assert Key(key, s[hi-1]) <= Key(key, s[hi-1+1]);
    }
  }

  // ----- the stack of stretches still to be sorted -----

  type Stretches = seq<(int, int)>

  ghost predicate Covered(stk: Stretches, p: int, q: int) {
    exists k :: 0 <= k < |stk| && stk[k].0 <= p && q <= stk[k].1
  }

  /** Every pair not inside one pending stretch is already in order. */
  ghost predicate SortedExcept(s: seq<int>, key: seq<int>, stk: Stretches, lo: int, hi: int) {
    0 <= lo && hi < |s| &&
    forall p, q :: lo <= p < q <= hi ==> Key(key, s[p]) <= Key(key, s[q]) || Covered(stk, p, q)
  }

  ghost predicate Pending(stk: Stretches, lo: int, hi: int) {
    && (forall k :: 0 <= k < |stk| ==> lo <= stk[k].0 <= stk[k].1 + 1 <= hi + 1)
    && (forall j, k :: 0 <= j < k < |stk| ==> stk[j].1 < stk[k].0 || stk[k].1 < stk[j].0)
  }

  lemma Refine(s: seq<int>, t: seq<int>, key: seq<int>, stk: Stretches, more: Stretches, lo: int, hi: int, loSt: int,
               hiSt: int)
    requires Pending(stk + [(lo, hi)], loSt, hiSt) && SortedExcept(s, key, stk + [(lo, hi)], loSt, hiSt)
    requires Rearranged(s, t, lo, hi + 1)
    requires forall p, q :: lo <= p < q <= hi ==> Key(key, t[p]) <= Key(key, t[q]) || Covered(more, p, q)
    ensures SortedExcept(t, key, stk + more, loSt, hiSt)
  {
    var old1, new1 := stk + [(lo, hi)], stk + more;
    assert old1[|stk|] == (lo, hi);
    forall p, q | loSt <= p < q <= hiSt
      ensures Key(key, t[p]) <= Key(key, t[q]) || Covered(new1, p, q)
    {
      if lo <= p && q <= hi {
        if Covered(more, p, q) {
          var k :| 0 <= k < |more| && more[k].0 <= p && q <= more[k].1;
          assert new1[|stk| + k] == more[k];
        }
      } else {
        var p', q' := p, q;
        if lo <= p <= hi { p' := RearrangedFrom(s, t, lo, hi + 1, p); }
        if lo <= q <= hi { q' := RearrangedFrom(s, t, lo, hi + 1, q); }
        assert Key(key, s[p']) <= Key(key, s[q']) || Covered(old1, p', q');
        if Covered(old1, p', q') {
          var k :| 0 <= k < |old1| && old1[k].0 <= p' && q' <= old1[k].1;
          assert k < |stk| && stk[k] == new1[k];
          assert stk[k].1 < lo || hi < stk[k].0;
          assert p' == p && q' == q;
        }
      }
    }
  }

  lemma PendingRest(stk: Stretches, lo: int, hi: int, more: Stretches, loSt: int, hiSt: int)
    requires Pending(stk + [(lo, hi)], loSt, hiSt)
    requires Pending(more, lo, hi)
    ensures Pending(stk + more, loSt, hiSt)
  {
    var s0, s1 := stk + [(lo, hi)], stk + more;
    assert s0[|stk|] == (lo, hi);
    assert forall k :: 0 <= k < |stk| ==> s0[k] == s1[k] == stk[k];
    assert forall k :: |stk| <= k < |s1| ==> s1[k] == more[k - |stk|];
  }
}
