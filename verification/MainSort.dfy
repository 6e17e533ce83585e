/** mainSort of blocksort.c: a radix sort on two bytes, quicksorts of small buckets, and
    whatever follows from them without comparing. Either the rotations end up sorted, or the
    budget has run out. */
module MainSort {
  import opened BucketScan
  import opened BucketSynthesis
  import opened BytePairs
  import opened Counting
  import opened InitialRadixSort
  import opened MainCompare
  import opened MainSimpleSort
  import opened Quadrants
  import opened Rearrangement
  import opened Rotations
  import opened SmallBuckets
  import opened SmallSorting
  import RunningOrder

  /** What every turn of the main loop keeps. */
  ghost predicate Kept(b: seq<int>, ptr: seq<int>, ftab: seq<int>, quadrant: seq<int>, done: seq<bool>,
                       big: seq<bool>)
  {
    Sorting(b, ptr, done) && Marks(b, ftab, done) && Cached(b, Ranks(b), quadrant, big) && BigDone(big, done)
  }

  /** The big buckets taken so far are those that are done. */
  ghost predicate Taken(order: seq<int>, i: nat, big: seq<bool>) {
    IsPermutation(order, 256) && |big| == 256 && i <= 256 && forall c :: 0 <= c < 256 ==> (big[c] <==> c in order[..i])
  }

  /** Assertion 1006: the next big bucket has not been done. */
  lemma NextIsNew(order: seq<int>, i: nat, big: seq<bool>)
    requires Taken(order, i, big) && i < 256
    ensures 0 <= order[i] < 256 && !big[order[i]] && Taken(order, i + 1, big[order[i] := true])
  {
    var ss := order[i];
    assert order[..i + 1] == order[..i] + [ss];
  }

  lemma AllTaken(order: seq<int>, big: seq<bool>)
    requires Taken(order, 256, big)
    ensures forall c :: 0 <= c < 256 ==> big[c]
  {
    forall c | 0 <= c < 256 ensures big[c] {
      var k := PermutationHits(order, 256, c);
      assert order[..256][k] == c;
    }
  }

  lemma StillBigDone(big: seq<bool>, done: seq<bool>, done': seq<bool>)
    requires BigDone(big, done) && |done'| == 65537 && forall v :: 0 <= v < 65537 && done[v] ==> done'[v]
    ensures BigDone(big, done')
  {
  }

  lemma OneMoreBig(big: seq<bool>, done: seq<bool>, ss: int)
    requires BigDone(big, done) && SmallDone(done, ss)
    ensures BigDone(big[ss := true], Added(done, ss)) &&
            forall v :: 256 * ss <= v < 256 * ss + 256 ==> Added(done, ss)[v]
  {
    forall v | 256 * ss <= v < 256 * ss + 256 ensures Added(done, ss)[v] {
      if v == 256 * ss + ss { assert v % 256 == ss; }
    }
    forall v | 0 <= v < 65536 && v / 256 == ss ensures 256 * ss <= v < 256 * ss + 256 {}
  }

  /** One big bucket: steps 1 to 3. */
  method TakeBig(ptr: array<int>, block: seq<int>, quadrant: array<int>, ftab: array<int>, bigDone: array<bool>,
                 nblock: nat, ss: nat, i: nat, budget0: int, ghost b: seq<int>, ghost done0: seq<bool>, ghost m: nat)
    returns (budget: int, gaveUp: bool, ghost done: seq<bool>, ghost shifts: nat)
    requires nblock == |b| && Extended(block, nblock) && block[..nblock] == b && ss < 256 && i < 256 && budget0 >= 0
    requires ptr != quadrant && ptr != ftab && quadrant != ftab && bigDone.Length == 256 && !bigDone[ss]
    requires Kept(b, ptr[..], ftab[..], quadrant[..], done0, bigDone[..])
    modifies ptr, quadrant, ftab, bigDone
    ensures budget <= budget0 && (gaveUp <==> budget < 0) && Sorting(b, ptr[..], done)
    ensures !gaveUp ==>
            bigDone[..] == old(bigDone[..])[ss := true] && Kept(b, ptr[..], ftab[..], quadrant[..], done, bigDone[..])
    ensures PaidFor(b, budget0, budget, m, BigSize(b, ss))
    ensures !gaveUp ==>
            if i < 255 then PlacesCached(b, ptr[..], old(quadrant[..]), quadrant[..], ss, shifts)
              else quadrant[..] == old(quadrant[..])
  {
    hide Sorting, Marks, Cached, BigDone, SmallDone, Added, Ranks, Tables, PaidFor, BigSize, PlacesCached;
    shifts := 0;
    CachedMeans(b, block, quadrant[..], bigDone[..]);
    ghost var big := bigDone[..];
    budget, gaveUp, done := CompleteBig(ptr, block, quadrant[..], nblock, ftab, ss, budget0, b, done0, m);
    if gaveUp { return; }
    MarksSize(b, ftab[..], done);
    StillBigDone(big, done0, done);
    SynthesiseBuckets(ptr, block, nblock, ftab, bigDone, ss, b, done);
    OneMoreBig(big, done, ss);
    done := Added(done, ss);
    bigDone[ss] := true;
    if i < 255 {
      shifts := UpdateQuadrants(quadrant, ptr, ftab, nblock, ss, b, done, big);
    } else {
      LastUncached(b, Ranks(b), quadrant[..], big, ss);
    }
  }

  /** Nothing need be cached for the last big bucket. */
  lemma LastUncached(b: seq<int>, rank: seq<int>, quadrant: seq<int>, big: seq<bool>, ss: int)
    requires Cached(b, rank, quadrant, big) && 0 <= ss < 256
    ensures Cached(b, rank, quadrant, big[ss := true])
  {
  }

  // ----- what all big buckets cost -----

  /** The rotations of the big buckets below c that are done. */
  ghost function BigSum(b: seq<int>, big: seq<bool>, c: nat): (r: nat)
    requires c <= |big| == 256
  {
    if c == 0 then 0 else BigSum(b, big, c - 1) + if big[c - 1] then BigSize(b, c - 1) else 0
  }

  lemma {:induction false} BigSumMore(b: seq<int>, big: seq<bool>, ss: nat, c: nat)
    requires c <= |big| == 256 && ss < 256 && !big[ss]
    ensures BigSum(b, big[ss := true], c) == BigSum(b, big, c) + if ss < c then BigSize(b, ss) else 0
  {
    hide BigSize;
    if c > 0 { BigSumMore(b, big, ss, c - 1); }
  }

  lemma {:induction false} BigSumFits(b: seq<int>, big: seq<bool>, c: nat)
    requires c <= |big| == 256
    ensures BigSum(b, big, c) <= Start(b, 256 * c) <= |b|
  {
    hide Start;
    StartAscends(b, 256 * c, 256 * c);
    if c > 0 {
      BigSumFits(b, big, c - 1);
      StartAscends(b, 256 * (c - 1), 256 * c);
    }
  }

  lemma {:induction false} NoneSummed(b: seq<int>, big: seq<bool>, c: nat)
    requires c <= |big| == 256 && forall c :: 0 <= c < 256 ==> !big[c]
    ensures BigSum(b, big, c) == 0
  {
    hide BigSize;
    if c > 0 { NoneSummed(b, big, c - 1); }
  }

  lemma BigPaid(b: seq<int>, budget0: int, budget1: int, budget2: int, m: nat, big: seq<bool>, ss: nat)
    requires |big| == 256 && ss < 256 && !big[ss]
    requires PaidFor(b, budget0, budget1, m, BigSum(b, big, 256)) && PaidFor(b, budget1, budget2, m, BigSize(b, ss))
    ensures PaidFor(b, budget0, budget2, m, BigSum(b, big[ss := true], 256))
  {
    hide PaidFor, BigSum, BigSize;
    BigSumMore(b, big, ss, 256);
    PaidTogether(b, budget0, budget1, budget2, m, BigSum(b, big, 256), BigSize(b, ss));
  }

  lemma WholePaid(b: seq<int>, budget0: int, budget: int, m: nat, big: seq<bool>)
    requires |big| == 256 && PaidFor(b, budget0, budget, m, BigSum(b, big, 256))
    ensures PaidFor(b, budget0, budget, m, |b|)
  {
    hide PaidFor, BigSum;
    BigSumFits(b, big, 256);
    PaidNothing(b, budget, m, |b| - BigSum(b, big, 256));
    PaidTogether(b, budget0, budget, budget, m, BigSum(b, big, 256), |b| - BigSum(b, big, 256));
  }

  /** The main sorting loop. */
  method MainLoop(ptr: array<int>, block: seq<int>, quadrant: array<int>, ftab: array<int>, nblock: nat, budget0: int,
                  ghost b: seq<int>, ghost m: nat)
    returns (budget: int)
    requires nblock == |b| && Extended(block, nblock) && block[..nblock] == b && budget0 >= 0 && ptr != quadrant &&
             ptr != ftab && quadrant != ftab
    requires Kept(b, ptr[..], ftab[..], quadrant[..], seq(65537, _ => false), seq(256, _ => false))
    modifies ptr, quadrant, ftab
    ensures budget <= budget0 && Grouped(b, ptr[..]) && (budget >= 0 ==> Ordered(Ranks(b), ptr[..], 0, nblock))
    ensures PaidFor(b, budget0, budget, m, nblock)
  {
    hide Marks, Sorting, Cached, BigDone, Ranks, Grouped, Ordered, Taken, PaidFor, BigSum, BigSize;
    MarksSize(b, ftab[..], seq(65537, _ => false));
    var runningOrder := RunningOrder.SmallestFirst(ftab);
    ghost var order := runningOrder[..];
    var bigDone := new bool[256](_ => false);
    ghost var done := seq(65537, _ => false);
    assert bigDone[..] == seq(256, _ => false);
    NoneTaken(order, bigDone[..]);
    NoneSummed(b, bigDone[..], 256);
    PaidNothing(b, budget0, m, 0);
    budget := budget0;
    var i := 0;
    while i <= 255
      invariant 0 <= i <= 256 && 0 <= budget <= budget0 && fresh(bigDone) && fresh(runningOrder) &&
                runningOrder[..] == order && bigDone.Length == 256
      invariant Taken(order, i, bigDone[..]) && Kept(b, ptr[..], ftab[..], quadrant[..], done, bigDone[..])
      invariant PaidFor(b, budget0, budget, m, BigSum(b, bigDone[..], 256))
    {
      NextIsNew(order, i, bigDone[..]);
      ghost var before, big := budget, bigDone[..];
      var ss := runningOrder[i];
      var gaveUp;
      ghost var shifts;
      budget, gaveUp, done, shifts := TakeBig(ptr, block, quadrant, ftab, bigDone, nblock, ss, i, budget, b, done, m);
      BigPaid(b, budget0, before, budget, m, big, ss);
      if gaveUp {
        WholePaid(b, budget0, budget, m, big[ss := true]);
        SortingHas(b, ptr[..], done);
        return;
      }
      i := i + 1;
    }
    AllTaken(order, bigDone[..]);
    WholePaid(b, budget0, budget, m, bigDone[..]);
    AllOrdered(b, ptr[..], done, bigDone[..]);
  }

  lemma NoneTaken(order: seq<int>, big: seq<bool>)
    requires IsPermutation(order, 256) && |big| == 256 && forall c :: 0 <= c < 256 ==> !big[c]
    ensures Taken(order, 0, big)
  {
  }

  lemma SortingHas(b: seq<int>, ptr: seq<int>, done: seq<bool>)
    requires Sorting(b, ptr, done)
    ensures Grouped(b, ptr)
  {
  }

  /** When all big buckets are done, everything is in order. */
  lemma AllOrdered(b: seq<int>, ptr: seq<int>, done: seq<bool>, big: seq<bool>)
    requires Sorting(b, ptr, done) && BigDone(big, done) && forall c :: 0 <= c < 256 ==> big[c]
    ensures Grouped(b, ptr) && Ordered(Ranks(b), ptr, 0, |b|)
  {
    hide Ranks, Start, Orders, Grouped, Ordered, DoneOrdered;
    RanksOrder(b);
    StartEnds(b);
    OrderedTogether(b, Ranks(b), ptr, done, 0, 65536);
  }

  lemma OrderedIsOrderedBy(b: seq<int>, ptr: seq<int>)
    requires IsPermutation(ptr, |b|) && Ordered(Ranks(b), ptr, 0, |b|)
    ensures OrderedBy(b, ptr, |b|)
  {
    hide Ranks, Cmp;
    forall p | 0 < p < |ptr| ensures Cmp(b, ptr[p - 1], ptr[p], |b|) <= 0 {
      assert AtMost(Ranks(b), ptr[p - 1], ptr[p]);
      RankOrder(b, ptr[p - 1], ptr[p]);
    }
  }

  /** What the running order goes by: how often each byte occurs in the block. */
  lemma FreqCounts(b: seq<int>, ftab: seq<int>, c: nat)
    requires IsBytes(b) && Marks(b, ftab, seq(65537, _ => false)) && c < 256
    ensures RunningOrder.BigFreq(ftab, c) == Count(b, c)
  {
    hide Start;
    var done := seq(65537, _ => false);
    MarkAt(b, ftab, done, 256 * c);
    MarkAt(b, ftab, done, 256 * c + 256);
    assert !done[256 * c] && !done[256 * c + 256];
    BigSizeCounts(b, c);
  }

  /** Everything is as the main loop needs it. */
  lemma KeptAtFirst(b: seq<int>, ptr: seq<int>, ftab: seq<int>, quadrant: seq<int>)
    requires N_OVERSHOOT < |b| < SETMASK && IsBytes(b) && Grouped(b, ptr) && Marks(b, ftab, seq(65537, _ => false))
    requires |quadrant| == |b| + N_OVERSHOOT && forall k :: 0 <= k < |quadrant| ==> quadrant[k] == 0
    ensures Kept(b, ptr, ftab, quadrant, seq(65537, _ => false), seq(256, _ => false))
  {
    hide Ranks, Start, Grouped, Marks;
  }

  /** The rotations sorted, or at least all listed if the budget has run out. The block is left
      as it was. If any two different rotations differ within their first 20 + 8 * m bytes, no
      comparison has cost more than m; with m = 0 the budget is not touched at all. */
  method MainSort(ptr: array<int>, block: array<int>, quadrant: array<int>, ftab: array<int>, nblock: nat,
                  budget0: int, ghost b: seq<int>, ghost m: nat)
    returns (budget: int)
    requires ptr != block && ptr != quadrant && ptr != ftab && block != quadrant && block != ftab && quadrant != ftab
    requires N_OVERSHOOT < nblock < SETMASK && nblock == |b| && IsBytes(b) && ptr.Length == nblock &&
             ftab.Length == 65537 && budget0 >= 0
    requires block.Length == quadrant.Length == nblock + N_OVERSHOOT && block[..nblock] == b
    modifies ptr, block, quadrant, ftab
    ensures block[..nblock] == b && IsPermutation(ptr[..], nblock) && budget <= budget0
    ensures budget >= 0 ==> OrderedBy(b, ptr[..], nblock)
    ensures CostsAtMost(b, m) ==> budget >= budget0 - m * MostCompares(nblock)
    ensures CostsAtMost(b, 0) && m == 0 ==> budget == budget0
  {
    hide CostsAtMost, MostCompares, Grouped, Marks, SummedUpTo, Counted, Kept, Ordered, IsPermutation, OrderedBy, Ranks,
      Pairs;
    CountPairs(block, quadrant, ftab, nblock, b);
    Overshoot(block, quadrant, nblock, b);
    SumUp(ftab, Pairs(b));
    RadixSort(block, ptr, ftab, nblock, b);
    KeptAtFirst(b, ptr[..], ftab[..], quadrant[..]);
    budget := MainLoop(ptr, block[..], quadrant, ftab, nblock, budget0, b, m);
    PermutationGrouped(b, ptr[..]);
    if budget >= 0 { OrderedIsOrderedBy(b, ptr[..]); }
  }
}
