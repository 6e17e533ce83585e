/** mainQSort3 of blocksort.c: three-way radix quicksort of rotations on the byte at depth d,
    with an explicit stack of 100 entries and a work budget. */
module MainQuickSort {
  import opened BoundedStack
  import opened MainCompare
  import opened MainSimpleSort
  import opened Rearrangement
  import opened Rotations
  import opened SortingByParts
  import opened ThreeWayPartition

  const SMALL_THRESH := 20
  const DEPTH_THRESH := 14  // BZ_N_RADIX + BZ_N_QSORT
  const STACK_SIZE := 100

  /** A stretch of pointers whose rotations share their first depth bytes. */
  datatype Stretch = Stretch(lo: int, hi: int, depth: nat) {
    function Size(): int { hi - lo + 1 }
  }

  /** mmed3: the median of three bytes. */
  function Median3(a: int, b: int, c: int): (r: int)
    ensures r == a || r == b || r == c
    ensures (a <= r <= b || b <= r <= a) || (a <= r <= c || c <= r <= a)
    ensures (b <= r <= a || a <= r <= b) || (b <= r <= c || c <= r <= b)
    ensures (c <= r <= a || a <= r <= c) || (c <= r <= b || b <= r <= c)
  {
    var (a, b) := if a > b then (b, a) else (a, b);
    if b > c then (if a > c then a else c) else b
  }

  // ----- what the byte at depth d says about two rotations that tie on d bytes -----

  lemma ByteDecides(b: seq<int>, x: nat, y: nat, d: nat)
    requires x < |b| && y < |b| && d < |b| && Cmp(b, x, y, d) == 0
    ensures b[Advance(|b|, x, d)] < b[Advance(|b|, y, d)] ==> Ranks(b)[x] <= Ranks(b)[y]
    ensures b[Advance(|b|, x, d)] == b[Advance(|b|, y, d)] ==> Cmp(b, x, y, d + 1) == 0
  {
    CmpSplit(b, x, y, d, |b| - d);
    CmpSplit(b, x, y, d, 1);
    RankOrder(b, x, y);
  }

  /** The key table for depth d: the byte d places after each pointer. */
  ghost predicate BytesAtDepth(b: seq<int>, key: seq<int>, d: nat) {
    d < |b| == |key| && forall x :: 0 <= x < |b| ==> key[x] == b[Advance(|b|, x, d)]
  }

  lemma SplitOrders(b: seq<int>, t: seq<int>, key: seq<int>, med: int, lo: int, n: int, m: int, hi: int, d: nat,
                    more: Stretches)
    requires BytesAtDepth(b, key, d) && Split(t, key, med, lo, n, m, hi) && SharesPrefix(b, t, lo, hi, d)
    requires forall part :: part == (lo, n) || part == (m, hi) || part == (n + 1, m - 1) ==> part in more
    ensures forall p, q :: lo <= p < q <= hi ==> Key(Ranks(b), t[p]) <= Key(Ranks(b), t[q]) || Covered(more, p, q)
  {
    forall p, q | lo <= p < q <= hi
      ensures Key(Ranks(b), t[p]) <= Key(Ranks(b), t[q]) || Covered(more, p, q)
    {
      PrefixShared(b, t, lo, hi, d, p, q);
      ByteDecides(b, t[p], t[q], d);
      if Key(key, t[p]) >= Key(key, t[q]) {
        var part := if q <= n then (lo, n) else if m <= p then (m, hi) else (n + 1, m - 1);
        assert part in more;
        var k :| 0 <= k < |more| && more[k] == part;
      }
    }
  }

  lemma SharesWithin(b: seq<int>, t: seq<int>, lo: int, hi: int, d: nat, lo': int, hi': int)
    requires SharesPrefix(b, t, lo, hi, d) && lo <= lo' && hi' <= hi
    ensures SharesPrefix(b, t, lo', hi', d)
  {
    forall p {:trigger Ties(b, t, lo', p, d)} | lo' <= p <= hi' ensures Ties(b, t, lo', p, d) {
      PrefixShared(b, t, lo, hi, d, lo', p);
    }
  }

  lemma SharesDeeper(b: seq<int>, t: seq<int>, key: seq<int>, med: int, lo: int, hi: int, d: nat)
    requires BytesAtDepth(b, key, d) && SharesPrefix(b, t, lo, hi, d)
    requires forall k :: lo <= k <= hi ==> Key(key, t[k]) == med
    ensures SharesPrefix(b, t, lo, hi, d + 1)
  {
    forall p {:trigger Ties(b, t, lo, p, d + 1)} | lo <= p <= hi ensures Ties(b, t, lo, p, d + 1) {
      PrefixShared(b, t, lo, hi, d, lo, p);
      ByteDecides(b, t[lo], t[p], d);
    }
  }

  // ----- how deep the stack can get -----

  function Weight(k: nat): (r: nat)
    ensures r >= 1
  {
    if k == 0 then 1 else if k == 1 then 2 else 3 * Weight(k - 2)
  }

  lemma {:induction false} WeightStep(k: nat)
    ensures Weight(k) <= Weight(k + 1) <= 2 * Weight(k)
  {
    if k >= 2 { WeightStep(k - 2); }
  }

  ghost predicate Fits(k: nat, length: int, size: nat) {
    Weight(k) * length <= size
  }

  ghost predicate Shallow(stk: seq<Stretch>, size: nat) {
    forall k {:trigger stk[k]} :: 0 <= k < |stk| ==>
      Fits(k, stk[k].Size(), size) && (k > 1 ==> Fits(k - 2, SMALL_THRESH + 1, size))
  }

  lemma WeightAt40()
    ensures Weight(40) > 0x8000_0000
  {
    assert Weight(10) == 243;
    assert Weight(20) == 243 * 243;
    assert Weight(30) == 243 * 243 * 243;
  }

  /** The assertion on the stack pointer holds for every stretch an Int32 can index. */
  lemma DepthBound(stk: seq<Stretch>, size: nat)
    requires Shallow(stk, size) && size < 0x8000_0000
    ensures |stk| < STACK_SIZE - 2
  {
    if |stk| > 42 {
      var entry := stk[42];
      assert Fits(40, SMALL_THRESH + 1, size);
      WeightAt40();
    }
  }

  lemma ScaleUp(w: nat, x: int, y: int)
    requires x <= y
    ensures w * x <= w * y
  {
  }

  lemma FitsHere(k: nat, length: int, length': int, size: nat)
    requires Fits(k, length, size) && length' <= length
    ensures Fits(k, length', size)
  {
    ScaleUp(Weight(k), length', length);
  }

  lemma FitsNext(k: nat, length: int, length': nat, size: nat)
    requires Fits(k, length, size) && 2 * length' <= length
    ensures Fits(k + 1, length', size)
  {
    WeightStep(k);
    ScaleUp(length', Weight(k + 1), 2 * Weight(k));
    ScaleUp(Weight(k), 2 * length', length);
    assert length' * (2 * Weight(k)) == Weight(k) * (2 * length');
  }

  lemma FitsAfterNext(k: nat, length: int, length': nat, size: nat)
    requires Fits(k, length, size) && 3 * length' <= length
    ensures Fits(k + 2, length', size)
  {
    ScaleUp(Weight(k), 3 * length', length);
    assert (3 * Weight(k)) * length' == Weight(k) * (3 * length');
  }

  lemma PushThree(stk: seq<Stretch>, e: Stretch, x: Stretch, y: Stretch, z: Stretch, size: nat)
    requires Shallow(stk + [e], size) && e.Size() > SMALL_THRESH
    requires x.Size() >= y.Size() >= z.Size() >= 0 && x.Size() + y.Size() + z.Size() == e.Size()
    ensures Shallow(stk + [x, y, z], size)
  {
    var d, s0, s1 := |stk|, stk + [e], stk + [x, y, z];
    assert s0[d] == e;
    FitsHere(d, e.Size(), x.Size(), size);
    FitsNext(d, e.Size(), y.Size(), size);
    FitsAfterNext(d, e.Size(), z.Size(), size);
    FitsHere(d, e.Size(), SMALL_THRESH + 1, size);
    if d > 0 { FitsPrevious(d - 1, SMALL_THRESH + 1, size); }
    forall k {:trigger s1[k]} | 0 <= k < |s1|
      ensures Fits(k, s1[k].Size(), size) && (k > 1 ==> Fits(k - 2, SMALL_THRESH + 1, size))
    {
      if k <= d { var entry := s0[k]; }
    }
  }

  lemma FitsPrevious(k: nat, length: nat, size: nat)
    requires Fits(k + 1, length, size)
    ensures Fits(k, length, size)
  {
    WeightStep(k);
    ScaleUp(length, Weight(k), Weight(k + 1));
  }

  // ----- termination -----

  ghost function Work(stk: seq<Stretch>): int {
    if stk == [] then 0
    else Work(stk[..|stk|-1]) + Cost(stk[|stk|-1])
  }

  ghost function Cost(e: Stretch): int { (16 - e.depth) * (40 * e.Size() + 1) }

  lemma WorkPush(stk: seq<Stretch>, e: Stretch)
    ensures Work(stk + [e]) == Work(stk) + Cost(e)
  {
    assert (stk + [e])[..|stk|] == stk;
  }

  lemma CostOfParts(e: Stretch, x: Stretch, y: Stretch, z: Stretch)
    requires e.depth <= DEPTH_THRESH && x.depth == y.depth == e.depth && z.depth == e.depth + 1
    requires x.Size() >= 0 && y.Size() >= 0 && z.Size() >= 1 && x.Size() + y.Size() + z.Size() == e.Size()
    ensures Cost(x) + Cost(y) + Cost(z) < Cost(e)
  {
    var g, c := 16 - e.depth, 40 * z.Size() + 1;
    assert Cost(z) == (g - 1) * c == g * c - c;
    assert Cost(e) == g * (40 * x.Size() + 1) + g * (40 * y.Size() + 1) + g * c - 2 * g;
  }

  // ----- what the pending stretches may still cost -----

  /** Comparisons of the simple sorts still to come, at most. */
  ghost function Due(stk: seq<Stretch>): (r: int)
    ensures r >= 0
  {
    if stk == [] then 0 else Due(stk[..|stk|-1]) + MostCompares(stk[|stk|-1].Size())
  }

  lemma DuePush(stk: seq<Stretch>, e: Stretch)
    ensures Due(stk + [e]) == Due(stk) + MostCompares(e.Size())
  {
    hide MostCompares;
    assert (stk + [e])[..|stk|] == stk;
  }

  lemma DueDeeper(rest: seq<Stretch>, e: Stretch)
    ensures Due(rest + [Deeper(e)]) == Due(rest + [e])
  {
    DuePush(rest, e);
    DuePush(rest, Deeper(e));
  }

  lemma DueOfParts(rest: seq<Stretch>, e: Stretch, x: Stretch, y: Stretch, z: Stretch)
    requires x.Size() >= 0 && y.Size() >= 0 && z.Size() >= 0 && x.Size() + y.Size() + z.Size() == e.Size()
    ensures Due(rest + [x, y, z]) <= Due(rest + [e])
  {
    DuePush(rest, e);
    DuePush(rest, x);
    DuePush(rest + [x], y);
    DuePush(rest + [x] + [y], z);
    assert rest + [x, y, z] == rest + [x] + [y] + [z];
    ApartIsCheaper(x.Size(), y.Size());
    ApartIsCheaper(x.Size() + y.Size(), z.Size());
  }

  // ----- the state of the sort between two turns of its main loop -----

  ghost function Bare(stk: seq<Stretch>): (r: Stretches)
    ensures |r| == |stk| && forall k :: 0 <= k < |stk| ==> r[k] == (stk[k].lo, stk[k].hi)
  {
    seq(|stk|, k requires 0 <= k < |stk| => (stk[k].lo, stk[k].hi))
  }

  ghost predicate EntryOk(b: seq<int>, s: seq<int>, e: Stretch) {
    e.depth <= MAX_DEPTH && SharesPrefix(b, s, e.lo, e.hi, e.depth)
  }

  ghost predicate EntriesOk(b: seq<int>, s: seq<int>, stk: seq<Stretch>) {
    forall k {:trigger stk[k]} :: 0 <= k < |stk| ==> EntryOk(b, s, stk[k])
  }

  ghost predicate Progress(b: seq<int>, s0: seq<int>, s: seq<int>, stk: seq<Stretch>, loSt: int, hiSt: int) {
    && Rearranged(s0, s, loSt, hiSt + 1)
    && Pending(Bare(stk), loSt, hiSt)
    && SortedExcept(s, Ranks(b), Bare(stk), loSt, hiSt)
    && EntriesOk(b, s, stk)
    && Shallow(stk, hiSt - loSt + 1)
  }

  lemma EntryUndisturbed(b: seq<int>, s: seq<int>, t: seq<int>, lo: int, hi: int, e: Stretch)
    requires EntryOk(b, s, e) && Rearranged(s, t, lo, hi + 1)
    requires e.hi < lo || hi < e.lo
    ensures EntryOk(b, t, e)
  {
    forall p {:trigger Ties(b, t, e.lo, p, e.depth)} | e.lo <= p <= e.hi ensures Ties(b, t, e.lo, p, e.depth) {
      assert Ties(b, s, e.lo, p, e.depth);
    }
  }

  /** Rearranging one pending stretch, and replacing it by what is left of it. */
  lemma ProgressStep(b: seq<int>, s0: seq<int>, s: seq<int>, t: seq<int>, rest: seq<Stretch>, e: Stretch,
                     more: seq<Stretch>, loSt: int, hiSt: int)
    requires Progress(b, s0, s, rest + [e], loSt, hiSt)
    requires Rearranged(s, t, e.lo, e.hi + 1)
    requires forall p, q ::
               e.lo <= p < q <= e.hi ==> Key(Ranks(b), t[p]) <= Key(Ranks(b), t[q]) || Covered(Bare(more), p, q)
    requires Pending(Bare(more), e.lo, e.hi) && EntriesOk(b, t, more)
    requires Shallow(rest + more, hiSt - loSt + 1)
    ensures Progress(b, s0, t, rest + more, loSt, hiSt)
  {
    assert Bare(rest + [e]) == Bare(rest) + [(e.lo, e.hi)];
    assert Bare(rest + more) == Bare(rest) + Bare(more);
    assert (Bare(rest) + [(e.lo, e.hi)])[|rest|] == (e.lo, e.hi);
    RearrangedWider(s, t, e.lo, e.hi + 1, loSt, hiSt + 1);
    PendingRest(Bare(rest), e.lo, e.hi, Bare(more), loSt, hiSt);
    Refine(s, t, Ranks(b), Bare(rest), Bare(more), e.lo, e.hi, loSt, hiSt);
    EntriesAfter(b, s, t, rest, e, more, loSt, hiSt);
  }

  lemma EntriesAfter(b: seq<int>, s: seq<int>, t: seq<int>, rest: seq<Stretch>, e: Stretch, more: seq<Stretch>,
                     loSt: int, hiSt: int)
    requires EntriesOk(b, s, rest + [e]) && Pending(Bare(rest) + [(e.lo, e.hi)], loSt, hiSt)
    requires Rearranged(s, t, e.lo, e.hi + 1) && EntriesOk(b, t, more)
    ensures EntriesOk(b, t, rest + more)
  {
    var all, bare := rest + more, Bare(rest) + [(e.lo, e.hi)];
    forall k {:trigger all[k]} | 0 <= k < |all| ensures EntryOk(b, t, all[k]) {
      if k < |rest| {
        assert (rest + [e])[k] == rest[k];
        assert bare[k] == (rest[k].lo, rest[k].hi) && bare[|rest|] == (e.lo, e.hi);
        EntryUndisturbed(b, s, t, e.lo, e.hi, rest[k]);
      } else {
        assert all[k] == more[k - |rest|];
      }
    }
  }

  // ----- one turn -----

  /** The three parts, longest first, as the compare-and-swaps on nextLo/nextHi/nextD leave them. */
  method OrderParts(a: Stretch, b: Stretch, c: Stretch) returns (x: Stretch, y: Stretch, z: Stretch)
    ensures x.Size() >= y.Size() >= z.Size()
    ensures multiset{x, y, z} == multiset{a, b, c}
  {
    x, y, z := a, b, c;
    if x.Size() < y.Size() { x, y := y, x; }
    if y.Size() < z.Size() { y, z := z, y; }
    if x.Size() < y.Size() { x, y := y, x; }
  }

  /** Partition a stretch by the byte at its depth. */
  method SplitStretch(ptr: array<int>, block: seq<int>, nblock: nat, e: Stretch, ghost b: seq<int>)
    returns (n: int, m: int, allEqual: bool, ghost med: int, ghost key: seq<int>)
    requires nblock == |b| && Extended(block, nblock) && block[..nblock] == b
    requires EntryOk(b, ptr[..], e) && e.lo <= e.hi && e.depth <= DEPTH_THRESH
    modifies ptr
    ensures Rearranged(old(ptr[..]), ptr[..], e.lo, e.hi + 1)
    ensures SharesPrefix(b, ptr[..], e.lo, e.hi, e.depth) && BytesAtDepth(b, key, e.depth)
    ensures allEqual ==> forall k :: e.lo <= k <= e.hi ==> Key(key, ptr[k]) == med
    ensures !allEqual ==> Split(ptr[..], key, med, e.lo, n, m, e.hi)
  {
    var lo, hi, d := e.lo, e.hi, e.depth;
    ghost var s := ptr[..];
    var byteAt := seq(nblock, x requires 0 <= x < nblock => block[x + d]);
    forall x | 0 <= x < nblock ensures byteAt[x] == b[Advance(nblock, x, d)] { WrappedByte(b, block, x + d); }
    var pivot := Median3(byteAt[ptr[lo]], byteAt[ptr[hi]], byteAt[ptr[(lo + hi) / 2]]);
    assert Key(byteAt, ptr[lo]) == pivot || Key(byteAt, ptr[hi]) == pivot || Key(byteAt, ptr[(lo + hi) / 2]) == pivot;
    n, m, allEqual := Partition(ptr, byteAt, pivot, lo, hi);
    PrefixKept(b, s, ptr[..], lo, hi, d);
    med, key := pivot, byteAt;
  }

  lemma ShallowPrefix(rest: seq<Stretch>, more: seq<Stretch>, size: nat)
    requires Shallow(rest + more, size)
    ensures Shallow(rest, size)
  {
    forall k {:trigger rest[k]} | 0 <= k < |rest|
      ensures Fits(k, rest[k].Size(), size) && (k > 1 ==> Fits(k - 2, SMALL_THRESH + 1, size))
    {
      ShallowAt(rest, more, size, k);
    }
  }

  lemma ShallowAt(rest: seq<Stretch>, more: seq<Stretch>, size: nat, k: nat)
    requires Shallow(rest + more, size) && k < |rest|
    ensures Fits(k, rest[k].Size(), size) && (k > 1 ==> Fits(k - 2, SMALL_THRESH + 1, size))
  {
    var e := (rest + more)[k];
  }

  lemma Finished(b: seq<int>, s0: seq<int>, s: seq<int>, t: seq<int>, rest: seq<Stretch>, e: Stretch, loSt: int,
                 hiSt: int)
    requires Progress(b, s0, s, rest + [e], loSt, hiSt)
    requires Rearranged(s, t, e.lo, e.hi + 1) && SortedByKey(t, Ranks(b), e.lo, e.hi)
    ensures Progress(b, s0, t, rest + [], loSt, hiSt)
  {
    assert rest + [] == rest && Bare([]) == [] && EntriesOk(b, t, []);
    ShallowPrefix(rest, [e], hiSt - loSt + 1);
    ProgressStep(b, s0, s, t, rest, e, [], loSt, hiSt);
  }

  function Deeper(e: Stretch): Stretch { Stretch(e.lo, e.hi, e.depth + 1) }

  lemma DeeperWork(rest: seq<Stretch>, e: Stretch)
    requires e.Size() >= 0
    ensures Work(rest + [Deeper(e)]) < Work(rest + [e])
  {
    WorkPush(rest, e);
    WorkPush(rest, Deeper(e));
    assert Cost(Deeper(e)) == Cost(e) - (40 * e.Size() + 1);
  }

  lemma DeeperShallow(rest: seq<Stretch>, e: Stretch, size: nat)
    requires Shallow(rest + [e], size)
    ensures Shallow(rest + [Deeper(e)], size)
  {
    var s0, s1 := rest + [e], rest + [Deeper(e)];
    forall k {:trigger s1[k]} | 0 <= k < |s1|
      ensures Fits(k, s1[k].Size(), size) && (k > 1 ==> Fits(k - 2, SMALL_THRESH + 1, size))
    {
      assert s1[k].Size() == s0[k].Size();
    }
  }

  lemma WhollyCovered(e: Stretch)
    ensures forall p, q :: e.lo <= p < q <= e.hi ==> Covered(Bare([Deeper(e)]), p, q)
    ensures e.Size() >= 0 ==> Pending(Bare([Deeper(e)]), e.lo, e.hi)
  {
    assert Bare([Deeper(e)])[0] == (e.lo, e.hi);
  }

  /** All bytes at this depth are equal: the same stretch, one byte deeper. */
  lemma Deepened(b: seq<int>, s0: seq<int>, s: seq<int>, t: seq<int>, key: seq<int>, med: int, rest: seq<Stretch>,
                 e: Stretch, loSt: int, hiSt: int)
    requires Progress(b, s0, s, rest + [e], loSt, hiSt) && e.depth <= DEPTH_THRESH && e.lo <= e.hi
    requires Rearranged(s, t, e.lo, e.hi + 1) && SharesPrefix(b, t, e.lo, e.hi, e.depth)
    requires BytesAtDepth(b, key, e.depth) && forall k :: e.lo <= k <= e.hi ==> Key(key, t[k]) == med
    ensures Progress(b, s0, t, rest + [Deeper(e)], loSt, hiSt)
    ensures Work(rest + [Deeper(e)]) < Work(rest + [e])
  {
    SharesDeeper(b, t, key, med, e.lo, e.hi, e.depth);
    DeeperShallow(rest, e, hiSt - loSt + 1);
    WhollyCovered(e);
    ProgressStep(b, s0, s, t, rest, e, [Deeper(e)], loSt, hiSt);
    DeeperWork(rest, e);
  }

  ghost predicate PartsOf(e: Stretch, n: int, m: int, x: Stretch, y: Stretch, z: Stretch) {
    && e.lo <= n + 1 < m <= e.hi + 1
    && multiset{x, y, z} ==
         multiset{Stretch(e.lo, n, e.depth), Stretch(m, e.hi, e.depth), Stretch(n + 1, m - 1, e.depth + 1)}
  }

  /** The three parts, in whatever order they were put. */
  lemma PartsCases(e: Stretch, n: int, m: int, x: Stretch, y: Stretch, z: Stretch)
    requires PartsOf(e, n, m, x, y, z)
    ensures var l, r, c := Stretch(e.lo, n, e.depth), Stretch(m, e.hi, e.depth), Stretch(n + 1, m - 1, e.depth + 1);
            (x == l && y == r && z == c) || (x == l && y == c && z == r) || (x == r && y == l && z == c) ||
            (x == r && y == c && z == l) || (x == c && y == l && z == r) || (x == c && y == r && z == l)
  {
    var l, r, c := Stretch(e.lo, n, e.depth), Stretch(m, e.hi, e.depth), Stretch(n + 1, m - 1, e.depth + 1);
    assert l != c && r != c && l != r;
    assert x in multiset{l, r, c} && y in multiset{l, r, c} && z in multiset{l, r, c};
    assert multiset{x, y, z}[l] == 1 && multiset{x, y, z}[r] == 1 && multiset{x, y, z}[c] == 1;
  }

  lemma PartsPending(e: Stretch, n: int, m: int, x: Stretch, y: Stretch, z: Stretch)
    requires PartsOf(e, n, m, x, y, z)
    ensures Pending(Bare([x, y, z]), e.lo, e.hi)
    ensures forall part :: part == (e.lo, n) || part == (m, e.hi) || part == (n + 1, m - 1) ==> part in Bare([x, y, z])
    ensures x.Size() + y.Size() + z.Size() == e.Size() && x.Size() >= 0 && y.Size() >= 0 && z.Size() >= 0
  {
    hide Pending, Bare;
    PartsCases(e, n, m, x, y, z);
    ThreePending(x, y, z, e.lo, e.hi);
  }

  ghost predicate Inside(x: Stretch, lo: int, hi: int) {
    lo <= x.lo <= x.hi + 1 <= hi + 1
  }

  ghost predicate Disjoint(x: Stretch, y: Stretch) {
    x.hi < y.lo || y.hi < x.lo
  }

  lemma ThreePending(x: Stretch, y: Stretch, z: Stretch, lo: int, hi: int)
    requires Inside(x, lo, hi) && Inside(y, lo, hi) && Inside(z, lo, hi)
    requires Disjoint(x, y) && Disjoint(x, z) && Disjoint(y, z)
    ensures Pending(Bare([x, y, z]), lo, hi)
    ensures (x.lo, x.hi) in Bare([x, y, z]) && (y.lo, y.hi) in Bare([x, y, z]) && (z.lo, z.hi) in Bare([x, y, z])
  {
    var bare := Bare([x, y, z]);
    assert bare[0] == (x.lo, x.hi) && bare[1] == (y.lo, y.hi) && bare[2] == (z.lo, z.hi);
  }

  lemma PartsWork(rest: seq<Stretch>, e: Stretch, n: int, m: int, x: Stretch, y: Stretch, z: Stretch)
    requires PartsOf(e, n, m, x, y, z) && e.depth <= DEPTH_THRESH
    ensures Work(rest + [x, y, z]) < Work(rest + [e])
  {
    PartsCases(e, n, m, x, y, z);
    CostOfParts(e, Stretch(e.lo, n, e.depth), Stretch(m, e.hi, e.depth), Stretch(n + 1, m - 1, e.depth + 1));
    WorkPush(rest, e);
    WorkPush(rest, x);
    WorkPush(rest + [x], y);
    WorkPush(rest + [x] + [y], z);
    assert rest + [x, y, z] == rest + [x] + [y] + [z];
  }

  lemma PartsOk(b: seq<int>, t: seq<int>, key: seq<int>, med: int, e: Stretch, n: int, m: int, x: Stretch, y: Stretch,
                z: Stretch)
    requires PartsOf(e, n, m, x, y, z) && e.depth <= DEPTH_THRESH
    requires SharesPrefix(b, t, e.lo, e.hi, e.depth) && BytesAtDepth(b, key, e.depth)
    requires Split(t, key, med, e.lo, n, m, e.hi)
    ensures EntriesOk(b, t, [x, y, z])
  {
    SharesWithin(b, t, e.lo, e.hi, e.depth, e.lo, n);
    SharesWithin(b, t, e.lo, e.hi, e.depth, m, e.hi);
    SharesWithin(b, t, e.lo, e.hi, e.depth, n + 1, m - 1);
    SharesDeeper(b, t, key, med, n + 1, m - 1, e.depth);
    PartsCases(e, n, m, x, y, z);
  }

  lemma InThree(b: seq<int>, s0: seq<int>, s: seq<int>, t: seq<int>, key: seq<int>, med: int, rest: seq<Stretch>,
                e: Stretch, n: int, m: int, x: Stretch, y: Stretch, z: Stretch, loSt: int, hiSt: int)
    requires Progress(b, s0, s, rest + [e], loSt, hiSt) && e.depth <= DEPTH_THRESH && e.Size() > SMALL_THRESH
    requires Rearranged(s, t, e.lo, e.hi + 1) && SharesPrefix(b, t, e.lo, e.hi, e.depth)
    requires BytesAtDepth(b, key, e.depth) && Split(t, key, med, e.lo, n, m, e.hi)
    requires PartsOf(e, n, m, x, y, z) && x.Size() >= y.Size() >= z.Size()
    ensures Progress(b, s0, t, rest + [x, y, z], loSt, hiSt)
    ensures Work(rest + [x, y, z]) < Work(rest + [e])
  {
    var more := [x, y, z];
    PartsPending(e, n, m, x, y, z);
    PartsOk(b, t, key, med, e, n, m, x, y, z);
    PartsWork(rest, e, n, m, x, y, z);
    PushThree(rest, e, x, y, z, hiSt - loSt + 1);
    SplitOrders(b, t, key, med, e.lo, n, m, e.hi, e.depth, Bare(more));
    ProgressStep(b, s0, s, t, rest, e, more, loSt, hiSt);
  }

  lemma WorkNat(b: seq<int>, s: seq<int>, stk: seq<Stretch>, lo: int, hi: int)
    requires EntriesOk(b, s, stk) && Pending(Bare(stk), lo, hi)
    ensures Work(stk) >= 0
  {
    assert forall k :: 0 <= k < |stk| ==> stk[k].depth <= MAX_DEPTH && Bare(stk)[k].0 <= Bare(stk)[k].1 + 1;
    WorkOfSmall(stk);
  }

  lemma {:induction false} WorkOfSmall(stk: seq<Stretch>)
    requires forall k :: 0 <= k < |stk| ==> stk[k].depth <= MAX_DEPTH && stk[k].Size() >= 0
    ensures Work(stk) >= 0
  {
    if stk != [] {
      WorkOfSmall(stk[..|stk|-1]);
      ScaleUp(16 - stk[|stk|-1].depth, 0, 40 * stk[|stk|-1].Size() + 1);
    }
  }

  lemma TopEntry(b: seq<int>, s0: seq<int>, s: seq<int>, rest: seq<Stretch>, e: Stretch, loSt: int, hiSt: int)
    requires Progress(b, s0, s, rest + [e], loSt, hiSt)
    ensures EntryOk(b, s, e) && loSt <= e.lo <= e.hi + 1 <= hiSt + 1
    ensures Work(rest) < Work(rest + [e])
  {
    assert (rest + [e])[|rest|] == e && Bare(rest + [e])[|rest|] == (e.lo, e.hi);
    WorkPush(rest, e);
    ScaleUp(16 - e.depth, 1, 40 * e.Size() + 1);
  }

  /** The budget has paid for no more than what was due for the stretches done with. */
  ghost predicate Paid(b: seq<int>, s0: seq<int>, budget0: int, budget: int, m: nat, stk: seq<Stretch>,
                       stk': seq<Stretch>)
  {
    Cheap(b, s0, m) ==> Charged(budget0, budget, m, Due(stk) - Due(stk'))
  }

  lemma PaidOn(b: seq<int>, s0: seq<int>, budget0: int, budget1: int, budget2: int, m: nat, stk0: seq<Stretch>,
               stk1: seq<Stretch>, stk2: seq<Stretch>)
    requires Paid(b, s0, budget0, budget1, m, stk0, stk1) && Paid(b, s0, budget1, budget2, m, stk1, stk2)
    ensures Paid(b, s0, budget0, budget2, m, stk0, stk2)
  {
    hide Cheap, Charged, Due;
    if Cheap(b, s0, m) {
      ChargedBoth(budget0, budget1, budget2, m, Due(stk0) - Due(stk1), Due(stk1) - Due(stk2));
    }
  }

  lemma SmallPaid(b: seq<int>, s0: seq<int>, budget0: int, budget: int, m: nat, rest: seq<Stretch>, e: Stretch)
    requires Cheap(b, s0, m) ==> Charged(budget0, budget, m, MostCompares(e.Size()))
    ensures Paid(b, s0, budget0, budget, m, rest + [e], rest) && Paid(b, s0, budget0, budget, m, rest + [e], [])
  {
    hide Cheap, Charged, MostCompares;
    DuePush(rest, e);
    if Cheap(b, s0, m) { ChargedLess(budget0, budget, m, MostCompares(e.Size()), Due(rest + [e])); }
  }

  lemma LargePaid(b: seq<int>, s0: seq<int>, budget: int, m: nat, stk: seq<Stretch>, stk': seq<Stretch>)
    requires Due(stk') <= Due(stk)
    ensures Paid(b, s0, budget, budget, m, stk, stk')
  {
    NotCharged(budget, m, Due(stk) - Due(stk'));
  }

  lemma AllPaid(b: seq<int>, s0: seq<int>, budget0: int, budget: int, m: nat, e: Stretch)
    requires Paid(b, s0, budget0, budget, m, [e], [])
    ensures Cheap(b, s0, m) ==> Charged(budget0, budget, m, MostCompares(e.Size()))
  {
    hide Cheap, Charged, MostCompares;
    DuePush([], e);
    assert [] + [e] == [e];
  }

  lemma ProgressHas(b: seq<int>, s0: seq<int>, s: seq<int>, stk: seq<Stretch>, loSt: int, hiSt: int)
    requires Progress(b, s0, s, stk, loSt, hiSt)
    ensures Rearranged(s0, s, loSt, hiSt + 1) && Work(stk) >= 0
    ensures hiSt - loSt + 1 < 0x8000_0000 ==> |stk| < STACK_SIZE - 2
  {
    hide EntriesOk, Pending, Shallow, SortedExcept;
    WorkNat(b, s, stk, loSt, hiSt);
    if hiSt - loSt + 1 < 0x8000_0000 { DepthBound(stk, hiSt - loSt + 1); }
  }

  /** A short or deep stretch goes to the simple sort, which may run out of budget. */
  method HandleSmall(ptr: array<int>, block: seq<int>, quadrant: seq<int>, nblock: nat, e: Stretch, budget0: int,
                     ghost b: seq<int>, ghost s0: seq<int>, ghost rest: seq<Stretch>, ghost loSt: int,
                     ghost hiSt: int, ghost m: nat)
    returns (budget: int)
    requires nblock == |b| && Tables(b, block, quadrant) && hiSt - loSt + 1 <= INCS[13]
    requires Progress(b, s0, ptr[..], rest + [e], loSt, hiSt)
    modifies ptr
    ensures budget <= budget0 && Rearranged(s0, ptr[..], loSt, hiSt + 1)
    ensures budget >= 0 ==> Progress(b, s0, ptr[..], rest + [], loSt, hiSt)
    ensures Cheap(b, s0, m) ==> Charged(budget0, budget, m, MostCompares(e.Size()))
  {
    hide Cheap, Charged, MostCompares, Tables;
    ghost var s := ptr[..];
    TopEntry(b, s0, s, rest, e, loSt, hiSt);
    if Cheap(b, s0, m) { CheapKept(b, s0, s, loSt, hiSt + 1, m); }
    budget := SimpleSort(ptr, block, quadrant, nblock, e.lo, e.hi, e.depth, budget0, b, m);
    RearrangedWider(s, ptr[..], e.lo, e.hi + 1, loSt, hiSt + 1);
    if budget >= 0 { Finished(b, s0, s, ptr[..], rest, e, loSt, hiSt); }
  }

  /** A longer stretch is deepened or partitioned; what is left comes back in pushing order. */
  method HandleLarge(ptr: array<int>, block: seq<int>, nblock: nat, e: Stretch, ghost b: seq<int>, ghost s0: seq<int>,
                     ghost rest: seq<Stretch>, ghost loSt: int, ghost hiSt: int)
    returns (more: seq<Stretch>)
    requires nblock == |b| && Extended(block, nblock) && block[..nblock] == b
    requires Progress(b, s0, ptr[..], rest + [e], loSt, hiSt)
    requires e.Size() > SMALL_THRESH && e.depth <= DEPTH_THRESH
    modifies ptr
    ensures |more| <= 3 && Progress(b, s0, ptr[..], rest + more, loSt, hiSt)
    ensures Work(rest + more) < Work(rest + [e]) && Due(rest + more) <= Due(rest + [e])
  {
    hide Due, Work, Progress, Pending, Bare, BytesAtDepth, SharesPrefix, Extended, Rearranged;
    ghost var s := ptr[..];
    TopEntry(b, s0, s, rest, e, loSt, hiSt);
    var n, m, allEqual, med, key := SplitStretch(ptr, block, nblock, e, b);
    if allEqual {
      Deepened(b, s0, s, ptr[..], key, med, rest, e, loSt, hiSt);
      DueDeeper(rest, e);
      more := [Deeper(e)];
    } else {
      var x, y, z := OrderParts(Stretch(e.lo, n, e.depth), Stretch(m, e.hi, e.depth),
          Stretch(n + 1, m - 1, e.depth + 1));
      InThree(b, s0, s, ptr[..], key, med, rest, e, n, m, x, y, z, loSt, hiSt);
      PartsPending(e, n, m, x, y, z);
      DueOfParts(rest, e, x, y, z);
      more := [x, y, z];
    }
  }

  /** One turn of the sort's main loop. */
  method OneTurn(stack: Stack<Stretch>, ptr: array<int>, block: seq<int>, quadrant: seq<int>, nblock: nat,
                 budget0: int, ghost b: seq<int>, ghost s0: seq<int>, ghost loSt: int, ghost hiSt: int,
                 ghost m: nat)
    returns (budget: int, gaveUp: bool)
    requires stack.Valid() && stack.items.Length == STACK_SIZE && stack.sp > 0
    requires nblock == |b| && Tables(b, block, quadrant) && hiSt - loSt + 1 <= INCS[13]
    requires Progress(b, s0, ptr[..], stack.Contents(), loSt, hiSt)
    modifies ptr, stack, stack.items
    ensures stack.Valid() && budget <= budget0 && Rearranged(s0, ptr[..], loSt, hiSt + 1)
    ensures gaveUp ==> budget < 0
    ensures !gaveUp ==> Progress(b, s0, ptr[..], stack.Contents(), loSt, hiSt)
    ensures !gaveUp ==> 0 <= Work(stack.Contents()) < old(Work(stack.Contents()))
    ensures Paid(b, s0, budget0, budget, m, old(stack.Contents()), if gaveUp then [] else stack.Contents())
  {
    hide Paid, Cheap, Charged, Due, MostCompares, Work, Progress, Tables, EntryOk, Rearranged, Extended;
    ghost var stk := stack.Contents();
    TablesHave(b, block, quadrant);
    ProgressHas(b, s0, ptr[..], stk, loSt, hiSt);
    assert stack.sp < STACK_SIZE - 2;  // assertion 1001
    var e := stack.Pop();
    ghost var rest := stack.Contents();
    assert stk == rest + [e];
    TopEntry(b, s0, ptr[..], rest, e, loSt, hiSt);
    budget, gaveUp := budget0, false;
    if e.hi - e.lo < SMALL_THRESH || e.depth > DEPTH_THRESH {
      budget := HandleSmall(ptr, block, quadrant, nblock, e, budget, b, s0, rest, loSt, hiSt, m);
      gaveUp := budget < 0;
      assert rest + [] == rest;
      SmallPaid(b, s0, budget0, budget, m, rest, e);
      if gaveUp { return; }
    } else {
      var more := HandleLarge(ptr, block, nblock, e, b, s0, rest, loSt, hiSt);
      PushAll(stack, more);
      LargePaid(b, s0, budget0, m, stk, rest + more);
    }
    ProgressHas(b, s0, ptr[..], stack.Contents(), loSt, hiSt);
  }

  method PushAll(stack: Stack<Stretch>, more: seq<Stretch>)
    requires stack.Valid() && stack.sp + |more| <= stack.items.Length
    modifies stack, stack.items
    ensures stack.Valid() && stack.Contents() == old(stack.Contents()) + more
  {
    var i := 0;
    while i < |more|
      invariant 0 <= i <= |more| && stack.Valid() && stack.Contents() == old(stack.Contents()) + more[..i]
    {
      stack.Push(more[i]);
      i := i + 1;
    }
    assert more[..i] == more;
  }

  /** Sorts the stretch by rotation unless the budget runs out; rearranges it in any case,
      and never trips the assertion on the stack pointer. */
  method QSort3(ptr: array<int>, block: seq<int>, quadrant: seq<int>, nblock: nat, loSt: int, hiSt: int, dSt: nat,
                budget0: int, ghost b: seq<int>, ghost m: nat)
    returns (budget: int)
    requires nblock == |b| && Tables(b, block, quadrant)
    requires 0 <= loSt <= hiSt && hiSt - loSt + 1 <= INCS[13] && dSt <= MAX_DEPTH
    requires SharesPrefix(b, ptr[..], loSt, hiSt, dSt)
    modifies ptr
    ensures Rearranged(old(ptr[..]), ptr[..], loSt, hiSt + 1) && budget <= budget0
    ensures budget >= 0 ==> SortedRotations(b, ptr[..], loSt, hiSt)
    ensures Cheap(b, old(ptr[..]), m) ==> Charged(budget0, budget, m, MostCompares(hiSt - loSt + 1))
  {
    hide Cheap, Charged, Due, MostCompares, Paid, Progress, Work, Tables;
    ghost var s0 := ptr[..];
    var stack := new Stack<Stretch>(STACK_SIZE);
    stack.Push(Stretch(loSt, hiSt, dSt));
    Begin(b, s0, loSt, hiSt, dSt);
    ghost var stk0 := stack.Contents();
    assert stk0 == [Stretch(loSt, hiSt, dSt)];
    LargePaid(b, s0, budget0, m, stk0, stk0);
    budget := budget0;
    var gaveUp := false;
    while stack.sp > 0
      invariant stack.Valid() && stack.items.Length == STACK_SIZE && fresh(stack) && fresh(stack.items)
      invariant budget <= budget0 && Progress(b, s0, ptr[..], stack.Contents(), loSt, hiSt)
      invariant Paid(b, s0, budget0, budget, m, stk0, stack.Contents())
      decreases Work(stack.Contents())
    {
      ghost var before, stk := budget, stack.Contents();
      budget, gaveUp := OneTurn(stack, ptr, block, quadrant, nblock, budget, b, s0, loSt, hiSt, m);
      PaidOn(b, s0, budget0, before, budget, m, stk0, stk, if gaveUp then [] else stack.Contents());
      if gaveUp {
        AllPaid(b, s0, budget0, budget, m, Stretch(loSt, hiSt, dSt));
        return;
      }
    }
    assert stack.Contents() == [];
    ProgressHas(b, s0, ptr[..], [], loSt, hiSt);
    AllPaid(b, s0, budget0, budget, m, Stretch(loSt, hiSt, dSt));
    AllSorted(b, s0, ptr[..], loSt, hiSt, dSt);
  }

  lemma Begin(b: seq<int>, s: seq<int>, loSt: int, hiSt: int, dSt: nat)
    requires loSt <= hiSt && dSt <= MAX_DEPTH && SharesPrefix(b, s, loSt, hiSt, dSt)
    ensures Progress(b, s, s, [Stretch(loSt, hiSt, dSt)], loSt, hiSt)
  {
    var stk := [Stretch(loSt, hiSt, dSt)];
    assert Bare(stk)[0] == (loSt, hiSt);
  }

  lemma AllSorted(b: seq<int>, s0: seq<int>, s: seq<int>, loSt: int, hiSt: int, dSt: nat)
    requires Progress(b, s0, s, [], loSt, hiSt) && SharesPrefix(b, s0, loSt, hiSt, dSt)
    ensures SortedRotations(b, s, loSt, hiSt)
  {
    PrefixKept(b, s0, s, loSt, hiSt, dSt);
    forall p, q | loSt <= p < q <= hiSt
      ensures LexLeq(Rotation(b, s[p]), Rotation(b, s[q]))
    {
      RankOrder(b, s[p], s[q]);
      CmpIsLexicographic(b, s[p], s[q]);
    }
  }
}
