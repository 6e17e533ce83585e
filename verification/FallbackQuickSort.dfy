/** fallbackSimpleSort and fallbackQSort3 of blocksort.c: sort a stretch of fmap by the
    equivalence class of each pointer, with an explicit stack of 100 entries. */
module FallbackQuickSort {
  import opened BoundedStack
  import opened KeyBits
  import opened Rearrangement
  import opened SortingByParts
  import opened ThreeWayPartition

  const SMALL_THRESH := 10
  const STACK_SIZE := 100

  /** The pass with gap 4: brings small classes forward, promises no order. */
  method GapPass(fmap: array<int>, eclass: seq<int>, lo: int, hi: int)
    requires 0 <= lo && lo + 3 < hi
    requires Pointers(fmap[..], |eclass|, lo, hi)
    modifies fmap
    ensures Rearranged(old(fmap[..]), fmap[..], lo, hi + 1) && Pointers(fmap[..], |eclass|, lo, hi)
  {
    var i := hi - 4;
    while i >= lo
      invariant lo - 1 <= i <= hi - 4
      invariant Rearranged(old(fmap[..]), fmap[..], lo, hi + 1) && Pointers(fmap[..], |eclass|, lo, hi)
    {
      InsertByFours(fmap, eclass, lo, i, hi);
      i := i - 1;
    }
  }

  /** Lifting the element at i out leaves a hole there. */
  lemma Lifted(s: seq<int>, i: int, lo: int, hi: int)
    requires 0 <= lo <= i <= hi < |s|
    ensures HasHole(s, s, i, s[i], lo, hi)
  {
    assert s == s[i := s[i]];
  }

  /** Slide fmap[i] up in steps of four past smaller classes. */
  method InsertByFours(fmap: array<int>, eclass: seq<int>, lo: int, i: int, hi: int)
    requires 0 <= lo <= i <= hi - 4
    requires Pointers(fmap[..], |eclass|, lo, hi)
    modifies fmap
    ensures Rearranged(old(fmap[..]), fmap[..], lo, hi + 1) && Pointers(fmap[..], |eclass|, lo, hi)
  {
    hide Rearranged, HasHole;
    hide Reinserted;
    ghost var s := fmap[..];
    var tmp := fmap[i];
    var ecTmp := eclass[tmp];
    var j := i + 4;
    Lifted(s, i, lo, hi);
    while j <= hi && ecTmp > eclass[fmap[j]]
      invariant i + 4 <= j <= hi + 4 && HasHole(s, fmap[..], j - 4, tmp, lo, hi)
      invariant Pointers(fmap[..], |eclass|, lo, hi)
    {
      MoveIntoHole(fmap, j - 4, j, tmp, s, lo, hi);
      j := j + 4;
    }
    FillHole(fmap, j - 4, tmp, s, lo, hi);
  }

  /** Everything between i and j has moved down by one place; place j - 1 is free. */
  ghost predicate SlidUp(s: seq<int>, now: seq<int>, i: int, j: int) {
    && 0 <= i < j <= |s| == |now|
    && (forall k :: 0 <= k < i ==> now[k] == s[k]) && (forall k :: i <= k < j - 1 ==> now[k] == s[k + 1]) &&
         (forall k :: j <= k < |s| ==> now[k] == s[k])
  }

  lemma SlideStep(s: seq<int>, now: seq<int>, i: int, j: int)
    requires SlidUp(s, now, i, j) && j < |s|
    ensures now[j] == s[j] && SlidUp(s, now[j - 1 := now[j]], i, j + 1)
  {
  }

  lemma SlideDone(s: seq<int>, now: seq<int>, i: int, j: int)
    requires SlidUp(s, now, i, j)
    ensures now[j - 1 := s[i]] == Reinserted(s, i, j)
  {
  }

  /** Slide fmap[i] up past every smaller class in the sorted stretch above it. */
  method Slide(fmap: array<int>, eclass: seq<int>, i: int, hi: int) returns (j: int)
    requires 0 <= i < hi && Pointers(fmap[..], |eclass|, i, hi)
    modifies fmap
    ensures i < j <= hi + 1 && fmap[..] == Reinserted(old(fmap[..]), i, j)
    ensures forall k :: i < k < j ==> Key(eclass, old(fmap[k])) < Key(eclass, old(fmap[i]))
    ensures j <= hi ==> Key(eclass, old(fmap[i])) <= Key(eclass, old(fmap[j]))
  {
    hide Reinserted;
    ghost var s := fmap[..];
    var tmp := fmap[i];
    var ecTmp := eclass[tmp];
    j := i + 1;
    while j <= hi && ecTmp > eclass[fmap[j]]
      invariant i + 1 <= j <= hi + 1
      invariant SlidUp(s, fmap[..], i, j) && (j <= hi ==> fmap[j] == s[j])
      invariant forall k :: i < k < j ==> Key(eclass, s[k]) < ecTmp
    {
      SlideStep(s, fmap[..], i, j);
      fmap[j - 1] := fmap[j];
      j := j + 1;
    }
    SlideDone(s, fmap[..], i, j);
    fmap[j - 1] := tmp;
  }

  method Insert(fmap: array<int>, eclass: seq<int>, i: int, hi: int)
    requires 0 <= i < hi
    requires Pointers(fmap[..], |eclass|, i, hi)
    requires SortedByKey(fmap[..], eclass, i + 1, hi)
    modifies fmap
    ensures Rearranged(old(fmap[..]), fmap[..], i, hi + 1) && Pointers(fmap[..], |eclass|, i, hi)
    ensures SortedByKey(fmap[..], eclass, i, hi)
  {
    ghost var s := fmap[..];
    var j := Slide(fmap, eclass, i, hi);
    ReinsertedRearranged(s, i, j);
    RearrangedKeeps(s, fmap[..], i, j, x => 0 <= x < |eclass|);
    ReinsertedSorted(s, eclass, i, j, hi);
  }

  method InsertionPass(fmap: array<int>, eclass: seq<int>, lo: int, hi: int)
    requires 0 <= lo <= hi + 1
    requires Pointers(fmap[..], |eclass|, lo, hi)
    modifies fmap
    ensures Rearranged(old(fmap[..]), fmap[..], lo, hi + 1)
    ensures SortedByKey(fmap[..], eclass, lo, hi)
  {
    var i := hi - 1;
    while i >= lo
      invariant i < hi && (i >= lo - 1 || i == hi - 1)
      invariant Rearranged(old(fmap[..]), fmap[..], lo, hi + 1) && Pointers(fmap[..], |eclass|, lo, hi)
      invariant SortedByKey(fmap[..], eclass, i + 1, hi)
    {
      ghost var before := fmap[..];
      Insert(fmap, eclass, i, hi);
      RearrangedWider(before, fmap[..], i, hi + 1, lo, hi + 1);
      i := i - 1;
    }
  }

  method SimpleSort(fmap: array<int>, eclass: seq<int>, lo: int, hi: int)
    requires 0 <= lo <= hi + 1
    requires Pointers(fmap[..], |eclass|, lo, hi)
    modifies fmap
    ensures Rearranged(old(fmap[..]), fmap[..], lo, hi + 1)
    ensures SortedByKey(fmap[..], eclass, lo, hi)
  {
    if lo == hi { return; }
    if hi - lo > 3 {
      GapPass(fmap, eclass, lo, hi);
    }
    InsertionPass(fmap, eclass, lo, hi);
  }

  /** A stretch of this length may sit at depth k of a stack that began with size. */
  ghost predicate Fits(k: nat, length: int, size: nat) {
    Pow2(k) * length <= size
  }

  lemma FitsShorter(k: nat, length: int, shorter: int, size: nat)
    requires Fits(k, length, size) && shorter <= length
    ensures Fits(k, shorter, size)
  {
    assert Pow2(k) * shorter <= Pow2(k) * length;
  }

  lemma FitsHalf(k: nat, length: int, half: int, size: nat)
    requires Fits(k, length, size) && 2 * half <= length
    ensures Fits(k + 1, half, size)
  {
    FitsShorter(k, length, 2 * half, size);
  }

  /** An entry at depth k is at most 1/2^k of the whole, and exists only below a stretch
      that was itself too long for the simple sort. */
  ghost predicate Shallow(stk: Stretches, size: nat) {
    forall k {:trigger stk[k]} :: 0 <= k < |stk| ==>
      Fits(k, stk[k].1 - stk[k].0 + 1, size) && (k > 0 ==> Fits(k - 1, SMALL_THRESH + 1, size))
  }

  lemma Pow2At31()
    ensures Pow2(31) == 0x8000_0000
  {
    assert Pow2(8) == 0x100;
    assert Pow2(16) == 0x1_0000;
    assert Pow2(24) == 0x100_0000;
  }

  /** The assertion on the stack pointer holds for every stretch an Int32 can index. */
  lemma DepthBound(stk: Stretches, size: nat)
    requires Shallow(stk, size) && size < 0x8000_0000
    ensures |stk| < STACK_SIZE - 1
  {
    if |stk| > 32 {
      var entry := stk[32];
      assert Fits(31, SMALL_THRESH + 1, size);
      Pow2At31();
    }
  }

  lemma PushSmallerLast(stk: Stretches, lo: int, hi: int, big: (int, int), small: (int, int), size: nat)
    requires Shallow(stk + [(lo, hi)], size) && hi - lo >= SMALL_THRESH
    requires 0 <= small.1 - small.0 + 1 <= big.1 - big.0 + 1
    requires (big.1 - big.0 + 1) + (small.1 - small.0 + 1) <= hi - lo
    ensures Shallow(stk + [big, small], size)
  {
    hide Fits;
    var d, s0, s1 := |stk|, stk + [(lo, hi)], stk + [big, small];
    assert s0[d] == (lo, hi);
    EntryShallow(s0, d, size);
    FitsShorter(d, hi - lo + 1, big.1 - big.0 + 1, size);
    FitsHalf(d, hi - lo + 1, small.1 - small.0 + 1, size);
    FitsShorter(d, hi - lo + 1, SMALL_THRESH + 1, size);
    forall k {:trigger s1[k]} | 0 <= k < |s1|
      ensures Fits(k, s1[k].1 - s1[k].0 + 1, size) && (k > 0 ==> Fits(k - 1, SMALL_THRESH + 1, size))
    {
      if k < d {
        EntryShallow(s0, k, size);
        assert s1[k] == s0[k];
      } else if k == d {
        assert s1[k] == big;
      } else {
        assert k - 1 == d && s1[k] == small;
      }
    }
  }

  lemma ShallowRest(rest: Stretches, top: (int, int), size: nat)
    requires Shallow(rest + [top], size)
    ensures Shallow(rest, size)
  {
    var whole := rest + [top];
    forall k {:trigger rest[k]} | 0 <= k < |rest|
      ensures Fits(k, rest[k].1 - rest[k].0 + 1, size) && (k > 0 ==> Fits(k - 1, SMALL_THRESH + 1, size))
    {
      EntryShallow(whole, k, size);
      assert whole[k] == rest[k];
    }
  }

  lemma EntryShallow(stk: Stretches, k: nat, size: nat)
    requires Shallow(stk, size) && k < |stk|
    ensures Fits(k, stk[k].1 - stk[k].0 + 1, size) && (k > 0 ==> Fits(k - 1, SMALL_THRESH + 1, size))
  {
    var entry := stk[k];
  }

  /** What is left to do, as a measure that every step of the sort brings down. */
  ghost function Work(stk: Stretches): int {
    if stk == [] then 0
    else Work(stk[..|stk|-1]) + 2 * (stk[|stk|-1].1 - stk[|stk|-1].0 + 1) + 1
  }

  lemma WorkPush(stk: Stretches, a: (int, int))
    ensures Work(stk + [a]) == Work(stk) + 2 * (a.1 - a.0 + 1) + 1
  {
    assert (stk + [a])[..|stk|] == stk;
  }

  lemma {:induction false} WorkNat(stk: Stretches, lo: int, hi: int)
    requires Pending(stk, lo, hi)
    ensures Work(stk) >= 0
  {
    if stk != [] {
      WorkNat(stk[..|stk|-1], lo, hi);
    }
  }

  lemma SplitCovers(t: seq<int>, key: seq<int>, med: int, lo: int, n: int, m: int, hi: int, more: Stretches)
    requires Split(t, key, med, lo, n, m, hi)
    requires more == [(lo, n), (m, hi)] || more == [(m, hi), (lo, n)]
    ensures forall p, q :: lo <= p < q <= hi ==> Key(key, t[p]) <= Key(key, t[q]) || Covered(more, p, q)
  {
    forall p, q | lo <= p < q <= hi
      ensures Key(key, t[p]) <= Key(key, t[q]) || Covered(more, p, q)
    {
      var a, b := more[0], more[1];
    }
  }

  /** Choose a pivot by the pseudo-random sequence and partition about it. */
  method SplitStretch(fmap: array<int>, eclass: seq<int>, lo: int, hi: int, r: nat)
    returns (n: int, m: int, allEqual: bool, ghost med: int)
    requires lo <= hi && Pointers(fmap[..], |eclass|, lo, hi)
    modifies fmap
    ensures Rearranged(old(fmap[..]), fmap[..], lo, hi + 1)
    ensures allEqual ==> SortedByKey(fmap[..], eclass, lo, hi)
    ensures !allEqual ==> Split(fmap[..], eclass, med, lo, n, m, hi)
  {
    var r3 := r % 3;
    var mid := if r3 == 0 then lo else if r3 == 1 then (lo + hi) / 2 else hi;
    var pivot := eclass[fmap[mid]];
    assert Key(eclass, fmap[mid]) == pivot;
    n, m, allEqual := Partition(fmap, eclass, pivot, lo, hi);
    med := pivot;
  }

  ghost predicate Progress(s0: seq<int>, s: seq<int>, key: seq<int>, stk: Stretches, loSt: int, hiSt: int) {
    && Rearranged(s0, s, loSt, hiSt + 1)
    && Pointers(s, |key|, loSt, hiSt)
    && Pending(stk, loSt, hiSt)
    && SortedExcept(s, key, stk, loSt, hiSt)
    && Shallow(stk, hiSt - loSt + 1)
  }

  /** Rearranging one pending stretch, and replacing it by what is left of it. */
  lemma ProgressStep(s0: seq<int>, s: seq<int>, t: seq<int>, key: seq<int>, stk: Stretches, more: Stretches, lo: int,
                     hi: int, loSt: int, hiSt: int)
    requires Progress(s0, s, key, stk + [(lo, hi)], loSt, hiSt)
    requires Rearranged(s, t, lo, hi + 1)
    requires forall p, q :: lo <= p < q <= hi ==> Key(key, t[p]) <= Key(key, t[q]) || Covered(more, p, q)
    requires Pending(stk + more, loSt, hiSt) && Shallow(stk + more, hiSt - loSt + 1)
    ensures Progress(s0, t, key, stk + more, loSt, hiSt)
  {
    Refine(s, t, key, stk, more, lo, hi, loSt, hiSt);
    assert (stk + [(lo, hi)])[|stk|] == (lo, hi);
    RearrangedWider(s, t, lo, hi + 1, loSt, hiSt + 1);
    RearrangedKeeps(s, t, loSt, hiSt + 1, x => 0 <= x < |key|);
  }

  lemma Finished(s0: seq<int>, s: seq<int>, t: seq<int>, key: seq<int>, rest: Stretches, lo: int, hi: int, loSt: int,
                 hiSt: int)
    requires Progress(s0, s, key, rest + [(lo, hi)], loSt, hiSt)
    requires Rearranged(s, t, lo, hi + 1) && SortedByKey(t, key, lo, hi)
    ensures Progress(s0, t, key, rest, loSt, hiSt)
  {
    PendingRest(rest, lo, hi, [], loSt, hiSt);
    assert rest + [] == rest;
    ShallowRest(rest, (lo, hi), hiSt - loSt + 1);
    ProgressStep(s0, s, t, key, rest, [], lo, hi, loSt, hiSt);
  }

  lemma Halved(s0: seq<int>, s: seq<int>, t: seq<int>, key: seq<int>, med: int, rest: Stretches, lo: int, n: int,
               m: int, hi: int, big: (int, int), small: (int, int), loSt: int, hiSt: int)
    requires Progress(s0, s, key, rest + [(lo, hi)], loSt, hiSt) && hi - lo >= SMALL_THRESH
    requires Rearranged(s, t, lo, hi + 1) && Split(t, key, med, lo, n, m, hi)
    requires if n - lo > hi - m then big == (lo, n) && small == (m, hi) else big == (m, hi) && small == (lo, n)
    ensures Progress(s0, t, key, rest + [big, small], loSt, hiSt)
    ensures Work(rest + [big, small]) < Work(rest + [(lo, hi)])
  {
    var more := [big, small];
    PendingRest(rest, lo, hi, more, loSt, hiSt);
    PushSmallerLast(rest, lo, hi, big, small, hiSt - loSt + 1);
    SplitCovers(t, key, med, lo, n, m, hi, more);
    ProgressStep(s0, s, t, key, rest, more, lo, hi, loSt, hiSt);
    WorkPush(rest, big);
    WorkPush(rest + [big], small);
    assert rest + more == (rest + [big]) + [small];
    WorkPush(rest, (lo, hi));
  }

  /** Sort or partition one stretch popped off the stack. When it is partitioned, the two
      parts still to be sorted come back, the longer first. */
  method HandleStretch(fmap: array<int>, eclass: seq<int>, lo: int, hi: int, r0: nat, ghost s0: seq<int>,
                       ghost rest: Stretches, ghost loSt: int, ghost hiSt: int)
    returns (r: nat, again: bool, big: (int, int), small: (int, int))
    requires Progress(s0, fmap[..], eclass, rest + [(lo, hi)], loSt, hiSt)
    modifies fmap
    ensures !again ==> Progress(s0, fmap[..], eclass, rest, loSt, hiSt)
    ensures again ==> Progress(s0, fmap[..], eclass, rest + [big, small], loSt, hiSt)
    ensures again ==> Work(rest + [big, small]) < Work(rest + [(lo, hi)])
  {
    ghost var s := fmap[..];
    assert (rest + [(lo, hi)])[|rest|] == (lo, hi);
    r, again, big, small := r0, false, (lo, hi), (lo, hi);
    if hi - lo < SMALL_THRESH {
      SimpleSort(fmap, eclass, lo, hi);
      Finished(s0, s, fmap[..], eclass, rest, lo, hi, loSt, hiSt);
      return;
    }
    r := (r * 7621 + 1) % 32768;
    var n, m, allEqual, med := SplitStretch(fmap, eclass, lo, hi, r);
    if allEqual {
      Finished(s0, s, fmap[..], eclass, rest, lo, hi, loSt, hiSt);
      return;
    }
    again := true;
    if n - lo > hi - m {
      big, small := (lo, n), (m, hi);
    } else {
      big, small := (m, hi), (lo, n);
    }
    Halved(s0, s, fmap[..], eclass, med, rest, lo, n, m, hi, big, small, loSt, hiSt);
  }

  /** Sort fmap[loSt..hiSt] by class. The assertion on the stack pointer never fails. */
  method QSort3(fmap: array<int>, eclass: seq<int>, loSt: int, hiSt: int)
    requires 0 <= loSt <= hiSt && hiSt - loSt + 1 < 0x8000_0000
    requires Pointers(fmap[..], |eclass|, loSt, hiSt)
    modifies fmap
    ensures Rearranged(old(fmap[..]), fmap[..], loSt, hiSt + 1)
    ensures SortedByKey(fmap[..], eclass, loSt, hiSt)
  {
    hide Progress, Work, Rearranged, SortedByKey;
    var stack := new Stack<(int, int)>(STACK_SIZE);
    stack.Push((loSt, hiSt));
    var r: nat := 0;
    ghost var s0 := fmap[..];
    Begin(s0, eclass, loSt, hiSt);
    assert stack.Contents() == [(loSt, hiSt)];
    while stack.sp > 0
      invariant stack.Valid() && stack.items.Length == STACK_SIZE
      invariant fresh(stack) && fresh(stack.items)
      invariant Progress(s0, fmap[..], eclass, stack.Contents(), loSt, hiSt)
      decreases Work(stack.Contents())
    {
      r := OneStretch(stack, fmap, eclass, r, s0, loSt, hiSt);
    }
    assert stack.Contents() == [];
    NothingPending(s0, fmap[..], eclass, loSt, hiSt);
  }

  lemma NothingPending(s0: seq<int>, s: seq<int>, key: seq<int>, loSt: int, hiSt: int)
    requires Progress(s0, s, key, [], loSt, hiSt)
    ensures Rearranged(s0, s, loSt, hiSt + 1) && SortedByKey(s, key, loSt, hiSt)
  {
  }

  lemma Begin(s: seq<int>, key: seq<int>, loSt: int, hiSt: int)
    requires loSt <= hiSt && Pointers(s, |key|, loSt, hiSt)
    ensures Progress(s, s, key, [(loSt, hiSt)], loSt, hiSt)
  {
    var stk := [(loSt, hiSt)];
    assert stk[0] == (loSt, hiSt);
  }

  /** One turn of the sort's main loop. */
  method OneStretch(stack: Stack<(int, int)>, fmap: array<int>, eclass: seq<int>, r0: nat, ghost s0: seq<int>,
                    ghost loSt: int, ghost hiSt: int)
    returns (r: nat)
    requires stack.Valid() && stack.items.Length == STACK_SIZE && stack.sp > 0
    requires Progress(s0, fmap[..], eclass, stack.Contents(), loSt, hiSt)
    requires hiSt - loSt + 1 < 0x8000_0000
    modifies fmap, stack, stack.items
    ensures stack.Valid()
    ensures Progress(s0, fmap[..], eclass, stack.Contents(), loSt, hiSt)
    ensures 0 <= Work(stack.Contents()) < old(Work(stack.Contents()))
  {
    DepthBound(stack.Contents(), hiSt - loSt + 1);
    assert stack.sp < STACK_SIZE - 1;  // assertion 1004
    var top := stack.Pop();
    ghost var rest := stack.Contents();
    WorkPush(rest, top);
    var again, big, small;
    r, again, big, small := HandleStretch(fmap, eclass, top.0, top.1, r0, s0, rest, loSt, hiSt);
    if again {
      stack.Push(big);
      stack.Push(small);
      assert stack.Contents() == rest + [big, small];
    }
    WorkNat(stack.Contents(), loSt, hiSt);
  }
}
