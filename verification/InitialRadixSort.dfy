/** The beginning of mainSort: the overshoot of the block and of the quadrant table, the counts
    of byte pairs, and the radix sort on the first two bytes of every rotation. */
module InitialRadixSort {
  import opened BytePairs
  import opened Counting
  import opened MainCompare
  import opened Rotations
  import opened SmallBuckets
  import opened SmallSorting
  import StablePartition

  /** The counts of the pairs from i on. */
  ghost predicate Counted(ftab: seq<int>, d: seq<int>, i: nat) {
    |ftab| == 65537 && i <= |d| && (forall k :: 0 <= k < |d| ==> 0 <= d[k] < 65536) &&
      forall c {:trigger ftab[c]} :: 0 <= c < 65537 ==> ftab[c] == Count(d[i..], c)
  }

  lemma CountedStep(ftab: seq<int>, d: seq<int>, i: nat)
    requires i < |d| && Counted(ftab, d, i + 1)
    ensures Counted(ftab[d[i] := ftab[d[i]] + 1], d, i)
  {
    hide Count;
    assert d[i..] == [d[i]] + d[i + 1..];
    forall c ensures Count(d[i..], c) == Count(d[i + 1..], c) + if c == d[i] then 1 else 0 {
      CountAppend([d[i]], d[i + 1..], c);
      CountOfOne(d[i], c);
    }
  }

  lemma CountOfOne(x: int, c: int)
    ensures Count([x], c) == if x == c then 1 else 0
  {
    assert [x] == [] + [x];
    CountSnoc([], x, c);
  }

  /** The pair of rotation i, from that of the rotation behind it. */
  lemma ShiftIn(b: seq<int>, i: nat, before: int)
    requires IsBytes(b) && i < |b| && 0 <= before < 65536 && before / 256 == b[Next(|b|, i)]
    ensures before / 256 + 256 * b[i] == Pairs(b)[i] && Pairs(b)[i] / 256 == b[i] && 0 <= Pairs(b)[i] < 65536
  {
  }

  /** What is kept while the pairs are read from the last rotation to the first: the last pair
      read, of rotation i. */
  ghost predicate AtPair(b: seq<int>, block: seq<int>, i: int, j: int) {
    IsBytes(b) && |b| <= |block| && block[..|b|] == b && 0 <= i <= |b| && |b| > 0 && 0 <= j < 65536 &&
      j / 256 == b[if i == |b| then 0 else i]
  }

  lemma FirstPair(b: seq<int>, block: seq<int>)
    requires IsBytes(b) && 0 < |b| <= |block| && block[..|b|] == b
    ensures block[0] == b[0] && AtPair(b, block, |b|, 256 * block[0])
  {
    assert block[0] == block[..|b|][0];
  }

  lemma NextPair(b: seq<int>, block: seq<int>, i: nat, j: int)
    requires AtPair(b, block, i + 1, j) && i < |b|
    ensures i < |block| && block[i] == b[i] && j / 256 + 256 * block[i] == Pairs(b)[i] &&
            AtPair(b, block, i, Pairs(b)[i])
  {
    assert block[i] == block[..|b|][i];
    ShiftIn(b, i, j);
  }

  /** Count one pair. */
  method CountOne(block: array<int>, quadrant: array<int>, ftab: array<int>, i: nat, j0: int, ghost b: seq<int>)
    returns (j: int)
    requires block != quadrant && block != ftab && quadrant != ftab && i < |b| <= quadrant.Length &&
             AtPair(b, block[..], i + 1, j0) && Counted(ftab[..], Pairs(b), i + 1)
    modifies quadrant, ftab
    ensures AtPair(b, block[..], i, j) && Counted(ftab[..], Pairs(b), i)
    ensures quadrant[i] == 0 && forall k :: 0 <= k < quadrant.Length && k != i ==> quadrant[k] == old(quadrant[k])
  {
    hide Counted, AtPair, Pairs;
    quadrant[i] := 0;
    NextPair(b, block[..], i, j0);
    j := j0 / 256 + 256 * block[i];
    PairRange(b);
    CountedStep(ftab[..], Pairs(b), i);
    CountedLength(ftab[..], Pairs(b), i + 1);
    ftab[j] := ftab[j] + 1;
  }

  lemma CountedLength(ftab: seq<int>, d: seq<int>, i: nat)
    requires Counted(ftab, d, i)
    ensures |ftab| == 65537 && (forall k :: 0 <= k < |d| ==> 0 <= d[k] < 65536)
  {
  }

  /** The quadrants from i on have been cleared. */
  ghost predicate ClearedFrom(quadrant: seq<int>, i: int, n: nat) {
    n <= |quadrant| && forall k :: i <= k < n && 0 <= k ==> quadrant[k] == 0
  }

  lemma NothingCounted(b: seq<int>, ftab: seq<int>)
    requires IsBytes(b) && |ftab| == 65537 && forall c :: 0 <= c < 65537 ==> ftab[c] == 0
    ensures Counted(ftab, Pairs(b), |b|)
  {
    PairRange(b);
    assert Pairs(b)[|b|..] == [];
  }

  /** Count all pairs, four at a time while there are four, and clear the quadrants. */
  method CountPairs(block: array<int>, quadrant: array<int>, ftab: array<int>, nblock: nat, ghost b: seq<int>)
    requires block != quadrant && block != ftab && quadrant != ftab && ftab.Length == 65537
    requires IsBytes(b) && 0 < nblock == |b| <= block.Length && block[..nblock] == b && nblock <= quadrant.Length
    modifies quadrant, ftab
    ensures Counted(ftab[..], Pairs(b), 0) && ClearedFrom(quadrant[..], 0, nblock)
  {
    hide Counted, AtPair, Pairs;
    var i := 65536;
    while i >= 0
      invariant -1 <= i <= 65536 && forall c :: i < c < 65537 ==> ftab[c] == 0
    {
      ftab[i] := 0;
      i := i - 1;
    }
    NothingCounted(b, ftab[..]);
    FirstPair(b, block[..]);
    var j := 256 * block[0];
    i := nblock - 1;
    while i >= 3
      invariant -1 <= i < nblock && AtPair(b, block[..], i + 1, j) && Counted(ftab[..], Pairs(b), i + 1) &&
                ClearedFrom(quadrant[..], i + 1, nblock)
    {
      j := CountOne(block, quadrant, ftab, i, j, b);
      j := CountOne(block, quadrant, ftab, i - 1, j, b);
      j := CountOne(block, quadrant, ftab, i - 2, j, b);
      j := CountOne(block, quadrant, ftab, i - 3, j, b);
      i := i - 4;
    }
    while i >= 0
      invariant -1 <= i < nblock && AtPair(b, block[..], i + 1, j) && Counted(ftab[..], Pairs(b), i + 1) &&
                ClearedFrom(quadrant[..], i + 1, nblock)
    {
      j := CountOne(block, quadrant, ftab, i, j, b);
      i := i - 1;
    }
  }

  /** Repeat the beginning of the block behind its end; no quadrant is known yet. */
  method Overshoot(block: array<int>, quadrant: array<int>, nblock: nat, ghost b: seq<int>)
    requires block != quadrant && N_OVERSHOOT < nblock == |b| && block.Length == quadrant.Length == nblock + N_OVERSHOOT
    requires block[..nblock] == b && ClearedFrom(quadrant[..], 0, nblock)
    modifies block, quadrant
    ensures Extended(block[..], nblock) && block[..nblock] == b &&
            forall k :: 0 <= k < quadrant.Length ==> quadrant[k] == 0
  {
    var i := 0;
    while i < N_OVERSHOOT
      invariant 0 <= i <= N_OVERSHOOT && block[..nblock] == b
      invariant forall k :: nblock <= k < nblock + i ==> block[k] == block[k - nblock]
      invariant forall k :: 0 <= k < nblock + i ==> quadrant[k] == 0
    {
      block[nblock + i] := block[i];
      quadrant[nblock + i] := 0;
      i := i + 1;
    }
  }

  /** Entries below i are cumulative, the others still counts. */
  ghost predicate SummedUpTo(ftab: seq<int>, d: seq<int>, i: nat) {
    |ftab| == 65537 &&
      forall c {:trigger ftab[c]} :: 0 <= c < 65537 ==> ftab[c] == if c < i then Below(d, c + 1) else Count(d, c)
  }

  lemma SumStep(ftab: seq<int>, d: seq<int>, i: nat)
    requires SummedUpTo(ftab, d, i) && 1 <= i < 65537
    ensures SummedUpTo(ftab[i := ftab[i] + ftab[i - 1]], d, i + 1)
  {
    hide Below, Count;
    BelowNext(d, i);
  }

  lemma SumBegins(ftab: seq<int>, d: seq<int>)
    requires Counted(ftab, d, 0)
    ensures SummedUpTo(ftab, d, 1)
  {
    hide Below, Count;
    assert d[0..] == d;
    BelowNext(d, 0);
    BelowExtremes(d, 0, 65536);
  }

  method SumUp(ftab: array<int>, ghost d: seq<int>)
    requires ftab.Length == 65537 && Counted(ftab[..], d, 0)
    modifies ftab
    ensures SummedUpTo(ftab[..], d, 65537)
  {
    hide Counted, SummedUpTo;
    SumBegins(ftab[..], d);
    var i := 1;
    while i <= 65536
      invariant 1 <= i <= 65537 && SummedUpTo(ftab[..], d, i)
    {
      SumStep(ftab[..], d, i);
      ftab[i] := ftab[i] + ftab[i - 1];
      i := i + 1;
    }
  }

  // ----- the radix sort -----

  /** The rotations from i on have been put into their places; every entry says where the last
      of the others goes. */
  ghost predicate Scattered(ptr: seq<int>, ftab: seq<int>, d: seq<int>, i: nat) {
    && |ptr| == |d| && i <= |d| && |ftab| == 65537 && (forall k :: 0 <= k < |d| ==> 0 <= d[k] < 65536)
    && (forall c {:trigger ftab[c]} :: 0 <= c < 65537 ==> ftab[c] == Below(d, c) + Count(d[..i], c))
    && (forall k {:trigger Slot(d, k)} :: i <= k < |d| ==> 0 <= Slot(d, k) < |d| && ptr[Slot(d, k)] == k)
  }

  lemma ScatterStep(ptr: seq<int>, ftab: seq<int>, d: seq<int>, i: nat)
    requires i < |d| && Scattered(ptr, ftab, d, i + 1)
    ensures 0 <= d[i] < 65537 && 0 <= ftab[d[i]] - 1 < |ptr|
    ensures Scattered(ptr[ftab[d[i]] - 1 := i], ftab[d[i] := ftab[d[i]] - 1], d, i)
  {
    hide Slot, Count, Below;
    SlotIsThere(d, i);
    forall c ensures Count(d[..i + 1], c) == Count(d[..i], c) + if d[i] == c then 1 else 0 { CountPrefix(d, i, c); }
    var ptr' := ptr[ftab[d[i]] - 1 := i];
    forall k {:trigger Slot(d, k)} | i <= k < |d| ensures 0 <= Slot(d, k) < |d| && ptr'[Slot(d, k)] == k {
      if k > i { SlotOrder(d, i, k); }
    }
  }

  lemma SlotIsThere(d: seq<int>, i: nat)
    requires i < |d|
    ensures Slot(d, i) == Below(d, d[i]) + Count(d[..i], d[i]) && 0 <= Slot(d, i) < |d|
  {
    SlotInBucket(d, i);
  }

  method PlaceOne(block: array<int>, ptr: array<int>, ftab: array<int>, i: nat, s0: int, ghost b: seq<int>)
    returns (s: int)
    requires block != ptr && block != ftab && ptr != ftab && i < |b| && AtPair(b, block[..], i + 1, s0) &&
             Scattered(ptr[..], ftab[..], Pairs(b), i + 1)
    modifies ptr, ftab
    ensures AtPair(b, block[..], i, s) && Scattered(ptr[..], ftab[..], Pairs(b), i)
  {
    hide Scattered, AtPair, Pairs;
    NextPair(b, block[..], i, s0);
    s := s0 / 256 + 256 * block[i];
    ScatterStep(ptr[..], ftab[..], Pairs(b), i);
    ScatteredLength(ptr[..], ftab[..], Pairs(b), i + 1);
    ghost var p, f := ptr[..], ftab[..];
    var j := ftab[s] - 1;
    ftab[s] := j;
    ptr[j] := i;
    assert ptr[..] == p[f[s] - 1 := i] && ftab[..] == f[s := f[s] - 1];
  }

  lemma ScatteredLength(ptr: seq<int>, ftab: seq<int>, d: seq<int>, i: nat)
    requires Scattered(ptr, ftab, d, i)
    ensures |ftab| == 65537 && |ptr| == |d|
  {
  }

  lemma ScatterBegins(ptr: seq<int>, ftab: seq<int>, d: seq<int>)
    requires SummedUpTo(ftab, d, 65537) && |ptr| == |d| && forall k :: 0 <= k < |d| ==> 0 <= d[k] < 65536
    ensures Scattered(ptr, ftab, d, |d|)
  {
    hide Below, Count, Slot;
    assert d[..|d|] == d;
    forall c ensures Below(d, c + 1) == Below(d, c) + Count(d, c) { BelowNext(d, c); }
  }

  /** When all have been placed, every rotation is in its small bucket. */
  lemma ScatterEnds(b: seq<int>, ptr: seq<int>, ftab: seq<int>)
    requires Scattered(ptr, ftab, Pairs(b), 0) && |b| < SETMASK
    ensures Grouped(b, ptr) && Marks(b, ftab, seq(65537, _ => false))
  {
    hide Slot, Below, Pairs;
    var d := Pairs(b);
    assert d[..0] == [];
    forall p | 0 <= p < |d| ensures InBucket(b, ptr[p], p) && Slot(d, ptr[p]) == p {
      var i := StablePartition.SlotHit(d, p);
      SlotInBucket(d, i);
    }
  }

  method RadixSort(block: array<int>, ptr: array<int>, ftab: array<int>, nblock: nat, ghost b: seq<int>)
    requires block != ptr && block != ftab && ptr != ftab && ptr.Length == nblock && ftab.Length == 65537
    requires IsBytes(b) && 0 < nblock == |b| <= block.Length && nblock < SETMASK && block[..nblock] == b &&
             SummedUpTo(ftab[..], Pairs(b), 65537)
    modifies ptr, ftab
    ensures Grouped(b, ptr[..]) && Marks(b, ftab[..], seq(65537, _ => false))
  {
    hide Scattered, AtPair, Pairs, SummedUpTo;
    PairRange(b);
    ScatterBegins(ptr[..], ftab[..], Pairs(b));
    FirstPair(b, block[..]);
    var s := 256 * block[0];
    var i := nblock - 1;
    while i >= 3
      invariant -1 <= i < nblock && AtPair(b, block[..], i + 1, s) && Scattered(ptr[..], ftab[..], Pairs(b), i + 1)
    {
      s := PlaceOne(block, ptr, ftab, i, s, b);
      s := PlaceOne(block, ptr, ftab, i - 1, s, b);
      s := PlaceOne(block, ptr, ftab, i - 2, s, b);
      s := PlaceOne(block, ptr, ftab, i - 3, s, b);
      i := i - 4;
    }
    while i >= 0
      invariant -1 <= i < nblock && AtPair(b, block[..], i + 1, s) && Scattered(ptr[..], ftab[..], Pairs(b), i + 1)
    {
      s := PlaceOne(block, ptr, ftab, i, s, b);
      i := i - 1;
    }
    ScatterEnds(b, ptr[..], ftab[..]);
  }
}
