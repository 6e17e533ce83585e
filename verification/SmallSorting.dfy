/** Step 1 of mainSort: the frequency table with its mark for finished small buckets, and the
    sorting of one small bucket. */
module SmallSorting {
  import opened BucketSynthesis
  import opened BytePairs
  import opened Counting
  import opened MainCompare
  import opened MainQuickSort
  import opened MainSimpleSort
  import opened Rearrangement
  import opened Rotations
  import opened SmallBuckets

  // ----- the table -----

  const SETMASK := 0x20_0000  // bit 21

  predicate IsSet(x: nat) {
    (x / SETMASK) % 2 == 1
  }

  function Clear(x: nat): nat {
    if IsSet(x) then x - SETMASK else x
  }

  function Set(x: nat): nat {
    if IsSet(x) then x else x + SETMASK
  }

  /** Every entry says where its small bucket begins, and whether it is done. */
  ghost predicate Marks(b: seq<int>, ftab: seq<int>, done: seq<bool>) {
    && |b| < SETMASK && |ftab| == |done| == 65537
    && forall v {:trigger ftab[v]} :: 0 <= v < 65537 ==> ftab[v] == Start(b, v) + if done[v] then SETMASK else 0
  }

  lemma MarkAt(b: seq<int>, ftab: seq<int>, done: seq<bool>, v: int)
    requires Marks(b, ftab, done) && 0 <= v < 65537
    ensures ftab[v] >= 0 && (IsSet(ftab[v]) <==> done[v]) && Clear(ftab[v]) == Start(b, v)
    ensures Marks(b, ftab[v := Set(ftab[v])], done[v := true])
  {
    hide Start;
    assert Start(b, v) < SETMASK by { StartAscends(b, v, v); }
  }

  // ----- one small bucket -----

  lemma PermutationGrouped(b: seq<int>, ptr: seq<int>)
    requires Grouped(b, ptr)
    ensures IsPermutation(ptr, |b|)
  {
    forall k | 0 <= k < |b| ensures 0 <= ptr[k] < |b| { assert InBucket(b, ptr[k], k); }
  }

  /** The rotations of a small bucket agree on two bytes. */
  lemma BucketShares(b: seq<int>, ptr: seq<int>, v: int)
    requires IsBytes(b) && Grouped(b, ptr) && 0 <= v < 65536 && Start(b, v) < Start(b, v + 1)
    ensures SharesPrefix(b, ptr, Start(b, v), Start(b, v + 1) - 1, 2)
  {
    hide Start, Pairs;
    var lo, hi := Start(b, v), Start(b, v + 1) - 1;
    StartAscends(b, v + 1, 65536);
    PairAt(b, ptr, lo, v, v + 1);
    forall p | lo <= p <= hi ensures 0 <= ptr[p] < |b| && Ties(b, ptr, lo, p, 2) {
      PairAt(b, ptr, p, v, v + 1);
      TwoBytes(b, ptr[lo], ptr[p], v);
    }
  }

  lemma TwoBytes(b: seq<int>, x: nat, y: nat, v: int)
    requires IsBytes(b) && x < |b| && y < |b| && Pairs(b)[x] == Pairs(b)[y] == v
    ensures Cmp(b, x, y, 2) == 0
  {
    PairIs(b, x, b[x], b[Next(|b|, x)]);
    assert b[x] == b[y] && b[Next(|b|, x)] == b[Next(|b|, y)];
    var x', y' := Next(|b|, x), Next(|b|, y);
    assert Cmp(b, Advance(|b|, x', 1), Advance(|b|, y', 1), 0) == 0;
    assert Cmp(b, x', y', 1) == 0;
  }

  /** Rearranging one small bucket keeps the grouping and the order of the others. */
  lemma BucketRearranged(b: seq<int>, rank: seq<int>, s: seq<int>, t: seq<int>, done: seq<bool>, v: int)
    requires IsBytes(b) && Grouped(b, s) && DoneOrdered(b, rank, s, done) && 0 <= v < 65536 && !done[v]
    requires Rearranged(s, t, Start(b, v), Start(b, v + 1))
    ensures Grouped(b, t) && DoneOrdered(b, rank, t, done)
  {
    hide Start, Pairs;
    PermutationGrouped(b, s);
    RearrangedPermutation(s, t, |b|);
    forall p {:trigger InBucket(b, t[p], p)} | 0 <= p < |b| ensures InBucket(b, t[p], p) {
      if Start(b, v) <= p < Start(b, v + 1) {
        var j := RearrangedFrom(s, t, Start(b, v), Start(b, v + 1), p);
        PairAt(b, s, j, v, v + 1);
      } else {
        assert InBucket(b, s[p], p);
      }
    }
    forall u {:trigger OrderedBucket(b, rank, t, u)} | 0 <= u < 65536 && done[u] ensures OrderedBucket(b, rank, t, u) {
      assert OrderedBucket(b, rank, s, u);
      if u < v { StartAscends(b, u + 1, v); } else { StartAscends(b, v + 1, u); }
      forall p, q {:trigger AtMost(rank, t[p], t[q])} | Start(b, u) <= p < q < Start(b, u + 1)
        ensures AtMost(rank, t[p], t[q])
      {
        assert AtMost(rank, s[p], s[q]);
      }
    }
  }

  lemma SortedIsOrdered(b: seq<int>, ptr: seq<int>, v: int)
    requires SortedRotations(b, ptr, Start(b, v), Start(b, v + 1) - 1)
    ensures OrderedBucket(b, Ranks(b), ptr, v)
  {
    hide Start, Ranks, LexLeq;
    forall p, q {:trigger AtMost(Ranks(b), ptr[p], ptr[q])} | Start(b, v) <= p < q < Start(b, v + 1)
      ensures AtMost(Ranks(b), ptr[p], ptr[q])
    {
      CmpIsLexicographic(b, ptr[p], ptr[q]);
      RankOrder(b, ptr[p], ptr[q]);
    }
  }

  /** What step 1 works on. */
  ghost predicate Sorting(b: seq<int>, ptr: seq<int>, done: seq<bool>) {
    34 < |b| < SETMASK && IsBytes(b) && Grouped(b, ptr) && DoneOrdered(b, Ranks(b), ptr, done)
  }

  // ----- what that costs -----

  /** The budget has paid for what it takes to sort size rotations of b. */
  ghost predicate PaidFor(b: seq<int>, budget0: int, budget: int, m: nat, size: int) {
    CostsAtMost(b, m) ==> Charged(budget0, budget, m, MostCompares(size))
  }

  lemma PaidNothing(b: seq<int>, budget: int, m: nat, size: int)
    ensures PaidFor(b, budget, budget, m, size)
  {
    hide CostsAtMost, Charged, MostCompares;
    NotCharged(budget, m, MostCompares(size));
  }

  lemma PaidTogether(b: seq<int>, budget0: int, budget1: int, budget2: int, m: nat, size1: nat, size2: nat)
    requires PaidFor(b, budget0, budget1, m, size1) && PaidFor(b, budget1, budget2, m, size2)
    ensures PaidFor(b, budget0, budget2, m, size1 + size2)
  {
    hide CostsAtMost, Charged, MostCompares;
    if CostsAtMost(b, m) {
      ChargedBoth(budget0, budget1, budget2, m, MostCompares(size1), MostCompares(size2));
      ApartIsCheaper(size1, size2);
      ChargedLess(budget0, budget2, m, MostCompares(size1) + MostCompares(size2), MostCompares(size1 + size2));
    }
  }

  lemma GroupedDistinct(b: seq<int>, ptr: seq<int>)
    requires Grouped(b, ptr)
    ensures Distinct(ptr)
  {
    PermutationGrouped(b, ptr);
  }

  method SortOne(ptr: array<int>, block: seq<int>, quadrant: seq<int>, nblock: nat, lo: int, hi: int, budget0: int,
                 ghost b: seq<int>, ghost done: seq<bool>, ghost v: int, ghost m: nat)
    returns (budget: int)
    requires nblock == |b| && Tables(b, block, quadrant) && Sorting(b, ptr[..], done) && 0 <= v < 65536 && !done[v]
    requires lo == Start(b, v) && hi == Start(b, v + 1) - 1 && lo < hi
    modifies ptr
    ensures budget <= budget0 && Sorting(b, ptr[..], if budget >= 0 then done[v := true] else done)
    ensures PaidFor(b, budget0, budget, m, Start(b, v + 1) - Start(b, v))
  {
    hide Start, Ranks, Grouped, DoneOrdered, SharesPrefix, SortedRotations, CostsAtMost, Charged, MostCompares,
      Distinct;
    GroupedDistinct(b, ptr[..]);
    ghost var s := ptr[..];
    BucketShares(b, s, v);
    StartAscends(b, v + 1, 65536);
    budget := QSort3(ptr, block, quadrant, nblock, lo, hi, 2, budget0, b, m);
    BucketRearranged(b, Ranks(b), s, ptr[..], done, v);
    if budget >= 0 {
      SortedIsOrdered(b, ptr[..], v);
      OneMoreDone(b, Ranks(b), ptr[..], done, v);
    }
  }

  lemma OneMoreDone(b: seq<int>, rank: seq<int>, ptr: seq<int>, done: seq<bool>, v: int)
    requires DoneOrdered(b, rank, ptr, done) && 0 <= v < 65536 && OrderedBucket(b, rank, ptr, v)
    ensures DoneOrdered(b, rank, ptr, done[v := true])
  {
  }

  lemma AtMostOne(b: seq<int>, rank: seq<int>, ptr: seq<int>, v: int)
    requires |ptr| == |b| && Start(b, v + 1) - 1 <= Start(b, v)
    ensures OrderedBucket(b, rank, ptr, v)
  {
    StartAscends(b, v + 1, v + 1);
  }

  /** Small bucket [ss, j]: sorted if it has not been, and marked. */
  method CompleteOne(ptr: array<int>, block: seq<int>, quadrant: seq<int>, nblock: nat, ftab: array<int>, sb: nat,
                     budget0: int, ghost b: seq<int>, ghost done: seq<bool>, ghost m: nat)
    returns (budget: int, gaveUp: bool)
    requires nblock == |b| && Tables(b, block, quadrant) && Sorting(b, ptr[..], done) && Marks(b, ftab[..], done) &&
             sb < 65536 && budget0 >= 0 && ptr != ftab
    modifies ptr, ftab
    ensures budget <= budget0 && (gaveUp <==> budget < 0)
    ensures gaveUp ==> Sorting(b, ptr[..], done)
    ensures !gaveUp ==> Sorting(b, ptr[..], done[sb := true]) && Marks(b, ftab[..], done[sb := true])
    ensures PaidFor(b, budget0, budget, m, Start(b, sb + 1) - Start(b, sb))
  {
    hide Start, Ranks, Grouped, DoneOrdered, Tables, OrderedBucket, PaidFor;
    PaidNothing(b, budget0, m, Start(b, sb + 1) - Start(b, sb));
    MarkAt(b, ftab[..], done, sb);
    MarkAt(b, ftab[..], done, sb + 1);
    budget := budget0;
    if !IsSet(ftab[sb]) {
      var lo := Clear(ftab[sb]);
      var hi := Clear(ftab[sb + 1]) - 1;
      if hi > lo {
        budget := SortOne(ptr, block, quadrant, nblock, lo, hi, budget0, b, done, sb, m);
        if budget < 0 { return budget, true; }
      } else {
        GroupedLength(b, ptr[..]);
        AtMostOne(b, Ranks(b), ptr[..], sb);
        OneMoreDone(b, Ranks(b), ptr[..], done, sb);
      }
    } else {
      assert done[sb := true] == done;
    }
    ftab[sb] := Set(ftab[sb]);
    gaveUp := false;
  }

  lemma GroupedLength(b: seq<int>, ptr: seq<int>)
    requires Grouped(b, ptr)
    ensures |ptr| == |b|
  {
  }

  /** The rotations that begin with byte c. */
  ghost function BigSize(b: seq<int>, c: nat): (r: nat)
    requires c < 256
  {
    StartAscends(b, 256 * c, 256 * c + 256);
    Start(b, 256 * c + 256) - Start(b, 256 * c)
  }

  lemma {:induction false} PairsBelow(d: seq<int>, firsts: seq<int>, c: int)
    requires |d| == |firsts| && forall i :: 0 <= i < |d| ==> d[i] / 256 == firsts[i]
    ensures Below(d, 256 * c + 256) == Below(d, 256 * c) + Count(firsts, c)
  {
    if d != [] { PairsBelow(d[..|d|-1], firsts[..|d|-1], c); }
  }

  lemma BigSizeCounts(b: seq<int>, c: nat)
    requires IsBytes(b) && c < 256
    ensures BigSize(b, c) == Count(b, c)
  {
    forall i | 0 <= i < |b| ensures Pairs(b)[i] / 256 == b[i] { PairIs(b, i, b[i], b[Next(|b|, i)]); }
    PairsBelow(Pairs(b), b, c);
  }

  lemma OneMorePaid(b: seq<int>, budget0: int, budget1: int, budget2: int, m: nat, ss: nat, j: nat)
    requires ss < 256 && j < 256
    requires PaidFor(b, budget0, budget1, m, Start(b, 256 * ss + j) - Start(b, 256 * ss))
    requires PaidFor(b, budget1, budget2, m, Start(b, 256 * ss + j + 1) - Start(b, 256 * ss + j))
    ensures PaidFor(b, budget0, budget2, m, Start(b, 256 * ss + j + 1) - Start(b, 256 * ss))
    ensures PaidFor(b, budget0, budget2, m, BigSize(b, ss))
  {
    hide PaidFor, Start;
    StartAscends(b, 256 * ss, 256 * ss + j);
    StartAscends(b, 256 * ss + j, 256 * ss + j + 1);
    StartAscends(b, 256 * ss + j + 1, 256 * ss + 256);
    var first, next, rest := Start(b, 256 * ss + j) - Start(b, 256 * ss),
      Start(b, 256 * ss + j + 1) - Start(b, 256 * ss + j), Start(b, 256 * ss + 256) - Start(b, 256 * ss + j + 1);
    PaidTogether(b, budget0, budget1, budget2, m, first, next);
    PaidNothing(b, budget2, m, rest);
    PaidTogether(b, budget0, budget2, budget2, m, first + next, rest);
  }

  /** Step 1 for big bucket ss. */
  method CompleteBig(ptr: array<int>, block: seq<int>, quadrant: seq<int>, nblock: nat, ftab: array<int>, ss: nat,
                     budget0: int, ghost b: seq<int>, ghost done0: seq<bool>, ghost m: nat)
    returns (budget: int, gaveUp: bool, ghost done: seq<bool>)
    requires nblock == |b| && Tables(b, block, quadrant) && Sorting(b, ptr[..], done0) && Marks(b, ftab[..], done0) &&
             ss < 256 && budget0 >= 0 && ptr != ftab
    modifies ptr, ftab
    ensures budget <= budget0 && (gaveUp <==> budget < 0) && Sorting(b, ptr[..], done)
    ensures !gaveUp ==>
            Marks(b, ftab[..], done) && SmallDone(done, ss) && forall v :: 0 <= v < 65537 && done0[v] ==> done[v]
    ensures PaidFor(b, budget0, budget, m, BigSize(b, ss))
  {
    hide Sorting, Marks, Tables, PaidFor, Start;
    MarksSize(b, ftab[..], done0);
    PaidNothing(b, budget0, m, 0);
    budget, gaveUp, done := budget0, false, done0;
    var j := 0;
    while j <= 255
      invariant 0 <= j <= 256 && 0 <= budget <= budget0 && !gaveUp && |done| == 65537
      invariant Sorting(b, ptr[..], done) && Marks(b, ftab[..], done) &&
                forall v :: 0 <= v < 65537 && done0[v] ==> done[v]
      invariant forall v :: 256 * ss <= v < 256 * ss + j && v != 256 * ss + ss ==> done[v]
      invariant PaidFor(b, budget0, budget, m, Start(b, 256 * ss + j) - Start(b, 256 * ss))
    {
      ghost var before := budget;
      if j != ss {
        var sb := 256 * ss + j;
        budget, gaveUp := CompleteOne(ptr, block, quadrant, nblock, ftab, sb, budget, b, done, m);
        OneMorePaid(b, budget0, before, budget, m, ss, j);
        if gaveUp { return; }
        done := done[sb := true];
      } else {
        PaidNothing(b, budget, m, Start(b, 256 * ss + j + 1) - Start(b, 256 * ss + j));
        OneMorePaid(b, budget0, before, budget, m, ss, j);
      }
      j := j + 1;
    }
  }

  lemma MarksSize(b: seq<int>, ftab: seq<int>, done: seq<bool>)
    requires Marks(b, ftab, done)
    ensures |ftab| == |done| == 65537
  {
  }
}
