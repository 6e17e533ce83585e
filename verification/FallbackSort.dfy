/** fallbackSort of blocksort.c: sorts all rotations of a block by doubling the number of
    bytes the order is known for, with a bit per position marking where buckets begin. */
module FallbackSort {
  import opened Counting
  import opened Rearrangement
  import opened Rotations
  import opened SortingByParts
  import opened ThreeWayPartition
  import QuickSort = FallbackQuickSort

  ghost predicate IsBlock(b: seq<int>) {
    0 < |b| < 0x4000_0000 && IsBytes(b)
  }

  /** A header bit is set exactly where the first d bytes change. */
  ghost predicate HeaderBits(b: seq<int>, fmap: seq<int>, bh: seq<bool>, d: nat)
    requires IsPermutation(fmap, |b|)
  {
    && |bh| >= |b| && (|b| > 0 ==> bh[0])
    && forall p :: 0 < p < |b| ==> (bh[p] <==> Cmp(b, fmap[p-1], fmap[p], d) != 0)
  }

  /** Order and buckets are exactly those of the first d bytes. */
  ghost predicate Exact(b: seq<int>, fmap: seq<int>, bh: seq<bool>, d: nat) {
    IsPermutation(fmap, |b|) && OrderedBy(b, fmap, d) && HeaderBits(b, fmap, bh, d)
  }

  /** Alternating bits past the block, which stop both scans; whole words of 32 bits. */
  ghost predicate Sentinels(bh: seq<bool>, n: nat) {
    |bh| % 32 == 0 && n + 64 <= |bh| && forall k :: n <= k < n + 64 ==> (bh[k] <==> (k - n) % 2 == 0)
  }

  // ----- the initial one-byte radix sort -----

  /** Where position i lands: its byte's stretch is filled from the back. */
  function BackSlot(d: seq<int>, i: nat): int
    requires i < |d|
  {
    Below(d, d[i] + 1) - Count(d[..i+1], d[i])
  }

  lemma BackSlotInBucket(d: seq<int>, i: nat)
    requires i < |d|
    ensures Below(d, d[i]) <= BackSlot(d, i) < Below(d, d[i] + 1) <= |d|
  {
    CountPrefix(d, i, d[i]);
    CountWithin(d, i + 1, d[i]);
    BelowNext(d, d[i]);
  }

  lemma BackSlotDistinct(d: seq<int>, i: nat, j: nat)
    requires i < |d| && j < |d| && i != j
    ensures BackSlot(d, i) != BackSlot(d, j)
    ensures BackSlot(d, i) < BackSlot(d, j) ==> d[i] <= d[j]
  {
    BackSlotInBucket(d, i);
    BackSlotInBucket(d, j);
    if d[i] < d[j] {
      BelowMonotone(d, d[i] + 1, d[j]);
    } else if d[j] < d[i] {
      BelowMonotone(d, d[j] + 1, d[i]);
    } else if i < j {
      CountPrefix(d, j, d[i]);
      CountMonotone(d, i + 1, j, d[i]);
    } else {
      CountPrefix(d, i, d[i]);
      CountMonotone(d, j + 1, i, d[i]);
    }
  }

  method CountBytes(block: array<int>) returns (ftab: array<int>)
    requires IsBlock(block[..])
    ensures fresh(ftab) && ftab.Length == 257 && ftab[256] == 0
    ensures forall c :: 0 <= c < 256 ==> ftab[c] == Count(block[..], c)
  {
    ghost var b := block[..];
    ftab := new int[257](i => 0);
    var i := 0;
    while i < block.Length
      invariant 0 <= i <= |b| && ftab[256] == 0
      invariant forall c :: 0 <= c < 256 ==> ftab[c] == Count(b[..i], c)
    {
      var j := block[i];
      ftab[j] := ftab[j] + 1;
      forall c ensures Count(b[..i+1], c) == Count(b[..i], c) + if b[i] == c then 1 else 0 {
        CountPrefix(b, i, c);
      }
      i := i + 1;
    }
    assert b[..i] == b;
  }

  method PrefixSums(ftab: array<int>, ghost b: seq<int>)
    requires IsBlock(b) && ftab.Length == 257 && ftab[256] == 0
    requires forall c :: 0 <= c < 256 ==> ftab[c] == Count(b, c)
    modifies ftab
    ensures forall c :: 0 <= c < 256 ==> ftab[c] == Below(b, c + 1)
  {
    BelowExtremes(b, 0, 256);
    BelowNext(b, 0);
    var i := 1;
    while i < 257
      invariant 1 <= i <= 257 && (i < 257 ==> ftab[256] == 0)
      invariant forall c :: 0 <= c < i && c < 256 ==> ftab[c] == Below(b, c + 1)
      invariant forall c :: i <= c < 256 ==> ftab[c] == Count(b, c)
    {
      BelowNext(b, i);
      ftab[i] := ftab[i] + ftab[i-1];
      i := i + 1;
    }
  }

  method Scatter(block: array<int>, ftab: array<int>, fmap: array<int>)
    requires IsBlock(block[..]) && ftab.Length == 257 && fmap.Length == block.Length
    requires block != ftab && block != fmap && ftab != fmap
    requires forall c :: 0 <= c < 256 ==> ftab[c] == Below(block[..], c + 1)
    modifies ftab, fmap
    ensures forall c :: 0 <= c < 256 ==> ftab[c] == Below(block[..], c)
    ensures Scattered(block[..], fmap[..])
  {
    ghost var b := block[..];
    var i := 0;
    while i < block.Length
      invariant 0 <= i <= |b| && block[..] == b
      invariant forall c :: 0 <= c < 256 ==> ftab[c] == Below(b, c + 1) - Count(b[..i], c)
      invariant forall i' :: 0 <= i' < i ==> 0 <= BackSlot(b, i') < |b| && fmap[BackSlot(b, i')] == i'
    {
      var j := block[i];
      var k := ftab[j] - 1;
      forall c ensures Count(b[..i+1], c) == Count(b[..i], c) + if b[i] == c then 1 else 0 {
        CountPrefix(b, i, c);
      }
      assert k == BackSlot(b, i);
      BackSlotInBucket(b, i);
      forall i' | 0 <= i' < i ensures BackSlot(b, i') != k { BackSlotDistinct(b, i', i); }
      ftab[j] := k;
      fmap[k] := i;
      i := i + 1;
    }
    assert b[..i] == b;
    forall c | 0 <= c < 256 ensures ftab[c] == Below(b, c) { BelowNext(b, c); }
  }

  /** What the scatter leaves behind: position BackSlot(b, i) holds i. */
  ghost predicate Scattered(b: seq<int>, fmap: seq<int>) {
    |fmap| == |b| && forall i :: 0 <= i < |b| ==> 0 <= BackSlot(b, i) < |b| && fmap[BackSlot(b, i)] == i
  }

  lemma ScatteredAt(b: seq<int>, fmap: seq<int>, p: nat) returns (i: nat)
    requires Scattered(b, fmap) && p < |b|
    ensures i < |b| && BackSlot(b, i) == p && fmap[p] == i
  {
    var slots := seq(|b|, i requires 0 <= i < |b| => BackSlot(b, i));
    forall j, k | 0 <= j < k < |b| ensures slots[j] != slots[k] { BackSlotDistinct(b, j, k); }
    i := PermutationHits(slots, |b|, p);
  }

  lemma ScatteredIsPermutation(b: seq<int>, fmap: seq<int>)
    requires Scattered(b, fmap)
    ensures IsPermutation(fmap, |b|)
  {
    forall p | 0 <= p < |b| ensures 0 <= fmap[p] < |b| { var i := ScatteredAt(b, fmap, p); }
    forall p, q | 0 <= p < q < |b| ensures fmap[p] != fmap[q] {
      var i := ScatteredAt(b, fmap, p);
      var j := ScatteredAt(b, fmap, q);
    }
  }

  lemma CmpOneByte(b: seq<int>, i: nat, j: nat)
    requires i < |b| && j < |b|
    ensures Cmp(b, i, j, 1) == if b[i] < b[j] then -1 else if b[i] > b[j] then 1 else 0
  {
    assert Cmp(b, Advance(|b|, i, 1), Advance(|b|, j, 1), 0) == 0;
  }

  ghost predicate IsStart(b: seq<int>, p: int, n: int := 256) {
    exists c :: 0 <= c < n && Below(b, c) == p
  }

  /** Neighbours after the scatter: bytes never decrease, and change exactly at the starts. */
  lemma ScatteredNeighbours(b: seq<int>, fmap: seq<int>, p: nat)
    requires IsBlock(b) && Scattered(b, fmap) && IsPermutation(fmap, |b|) && 0 < p < |b|
    ensures Cmp(b, fmap[p-1], fmap[p], 1) <= 0
    ensures IsStart(b, p) <==> Cmp(b, fmap[p-1], fmap[p], 1) != 0
  {
    var i := ScatteredAt(b, fmap, p - 1);
    var j := ScatteredAt(b, fmap, p);
    CmpOneByte(b, i, j);
    BackSlotDistinct(b, i, j);
    BackSlotInBucket(b, i);
    BackSlotInBucket(b, j);
    if b[i] < b[j] {
      BelowMonotone(b, b[i] + 1, b[j]);
      assert Below(b, b[j]) == p;
    } else {
      forall c | 0 <= c < 256 ensures Below(b, c) != p {
        if c <= b[i] { BelowMonotone(b, c, b[i]); } else { BelowMonotone(b, b[i] + 1, c); }
      }
    }
  }

  lemma ScatteredIsExact(b: seq<int>, fmap: seq<int>, bh: seq<bool>)
    requires IsBlock(b) && Scattered(b, fmap) && |bh| >= |b| && bh[0]
    requires forall p :: 0 < p < |b| ==> (bh[p] <==> IsStart(b, p))
    ensures Exact(b, fmap, bh, 1)
  {
    ScatteredIsPermutation(b, fmap);
    forall p | 0 < p < |b|
      ensures Cmp(b, fmap[p-1], fmap[p], 1) <= 0 && (bh[p] <==> Cmp(b, fmap[p-1], fmap[p], 1) != 0)
    {
      ScatteredNeighbours(b, fmap, p);
    }
  }

  method MarkStarts(ftab: array<int>, bhtab: array<bool>, nblock: int, ghost b: seq<int>)
    requires IsBlock(b) && nblock == |b| && ftab.Length == 257
    requires bhtab.Length % 32 == 0 && nblock + 64 <= bhtab.Length
    requires forall c :: 0 <= c < 256 ==> ftab[c] == Below(b, c)
    modifies bhtab
    ensures Sentinels(bhtab[..], nblock) && bhtab[0]
    ensures forall p :: 0 < p < nblock ==> (bhtab[p] <==> IsStart(b, p))
  {
    var i, nBhtab := 0, 2 + nblock / 32;
    while i < 32 * nBhtab
      invariant 0 <= i <= 32 * nBhtab
      invariant forall p :: 0 <= p < i && p < bhtab.Length ==> !bhtab[p]
    {
      bhtab[i] := false;
      i := i + 1;
    }
    i := 0;
    while i < 256
      invariant 0 <= i <= 256 && (i > 0 ==> bhtab[0])
      invariant forall p :: 0 <= p < nblock ==> (bhtab[p] <==> IsStart(b, p, i))
    {
      if i == 0 { BelowExtremes(b, 0, 256); }
      forall p ensures IsStart(b, p, i + 1) <==> IsStart(b, p, i) || Below(b, i) == p {}
      bhtab[ftab[i]] := true;
      i := i + 1;
    }
    PlaceSentinels(bhtab, nblock);
  }

  method PlaceSentinels(bhtab: array<bool>, nblock: int)
    requires bhtab.Length % 32 == 0 && 0 < nblock && nblock + 64 <= bhtab.Length
    modifies bhtab
    ensures Sentinels(bhtab[..], nblock)
    ensures bhtab[..nblock] == old(bhtab[..nblock])
  {
    var i := 0;
    while i < 32
      invariant 0 <= i <= 32 && bhtab[..nblock] == old(bhtab[..nblock])
      invariant forall k :: nblock <= k < nblock + 2 * i ==> (bhtab[k] <==> (k - nblock) % 2 == 0)
    {
      bhtab[nblock + 2 * i] := true;
      bhtab[nblock + 2 * i + 1] := false;
      i := i + 1;
    }
  }

  // ----- equivalence classes -----

  /** Position d bytes before i, going round; undoes Advance. */
  function Back(n: nat, i: nat, d: nat): (r: nat)
    requires i < n && d <= n
    ensures r < n && Advance(n, r, d) == i
  {
    if i - d < 0 then i - d + n else i - d
  }

  /** The bucket position p lies in, named by its first position. */
  function BucketOf(bh: seq<bool>, p: nat): (r: nat)
    requires p < |bh|
    ensures r <= p
  {
    if p == 0 || bh[p] then p else BucketOf(bh, p - 1)
  }

  /** Classes compare as the rotations H bytes further on do, on their first H bytes. */
  ghost predicate Classes(b: seq<int>, eclass: seq<int>, H: nat)
    requires H <= |b|
  {
    && |eclass| == |b| && (forall x :: 0 <= x < |b| ==> eclass[x] >= 0)
    && forall x, y :: 0 <= x < |b| && 0 <= y < |b| ==>
         var c := Cmp(b, Advance(|b|, x, H), Advance(|b|, y, H), H);
         (eclass[x] < eclass[y] <==> c < 0) && (eclass[x] == eclass[y] <==> c == 0)
  }

  lemma {:induction false} BucketOrder(b: seq<int>, fmap: seq<int>, bh: seq<bool>, d: nat, p: nat, q: nat)
    requires Exact(b, fmap, bh, d) && p <= q < |b|
    ensures BucketOf(bh, p) <= BucketOf(bh, q) && Cmp(b, fmap[p], fmap[q], d) <= 0
    ensures BucketOf(bh, p) == BucketOf(bh, q) <==> Cmp(b, fmap[p], fmap[q], d) == 0
    decreases q
  {
    if p == q {
      CmpAntisymmetric(b, fmap[p], fmap[p], d);
    } else {
      BucketOrder(b, fmap, bh, d, p, q - 1);
      CmpTransitive(b, fmap[p], fmap[q-1], fmap[q], d);
    }
  }

  lemma BucketsAreClasses(b: seq<int>, fmap: seq<int>, bh: seq<bool>, eclass: seq<int>, H: nat)
    requires Exact(b, fmap, bh, H) && H <= |b| == |eclass|
    requires forall i :: 0 <= i < |b| ==> eclass[Back(|b|, fmap[i], H)] == BucketOf(bh, i)
    ensures Classes(b, eclass, H)
  {
    forall x | 0 <= x < |b|
      ensures exists i :: 0 <= i < |b| && fmap[i] == Advance(|b|, x, H) && eclass[x] == BucketOf(bh, i)
    {
      var i := PermutationHits(fmap, |b|, Advance(|b|, x, H));
      assert Back(|b|, fmap[i], H) == x;
    }
    forall x, y | 0 <= x < |b| && 0 <= y < |b|
      ensures var c := Cmp(b, Advance(|b|, x, H), Advance(|b|, y, H), H);
              (eclass[x] < eclass[y] <==> c < 0) && (eclass[x] == eclass[y] <==> c == 0)
    {
      var i :| 0 <= i < |b| && fmap[i] == Advance(|b|, x, H) && eclass[x] == BucketOf(bh, i);
      var j :| 0 <= j < |b| && fmap[j] == Advance(|b|, y, H) && eclass[y] == BucketOf(bh, j);
      CmpAntisymmetric(b, fmap[i], fmap[j], H);
      if i <= j { BucketOrder(b, fmap, bh, H, i, j); } else { BucketOrder(b, fmap, bh, H, j, i); }
    }
  }

  /** The rotations of the first i sorted positions have passed their bucket to the rotation
      H places before them. */
  ghost predicate Assigned(n: nat, fmap: seq<int>, bh: seq<bool>, eclass: seq<int>, H: nat, i: nat) {
    && n == |fmap| == |eclass| && i <= n && n <= |bh| && 0 < H <= n && IsPermutation(fmap, n)
    && forall k {:trigger fmap[k]} :: 0 <= k < i ==> eclass[Back(n, fmap[k], H)] == BucketOf(bh, k)
  }

  lemma BackDistinct(fmap: seq<int>, n: nat, H: nat, p: nat, i: nat)
    requires IsPermutation(fmap, n) && p < i < n && 0 < H <= n
    ensures Back(n, fmap[p], H) != Back(n, fmap[i], H)
  {
    assert Advance(n, Back(n, fmap[p], H), H) == fmap[p] != fmap[i] == Advance(n, Back(n, fmap[i], H), H);
  }

  lemma AssignStep(n: nat, fmap: seq<int>, bh: seq<bool>, eclass: seq<int>, H: nat, i: nat)
    requires Assigned(n, fmap, bh, eclass, H, i) && i < n
    ensures Assigned(n, fmap, bh, eclass[Back(n, fmap[i], H) := BucketOf(bh, i)], H, i + 1)
  {
    hide Back, BucketOf, Advance;
    forall k | 0 <= k < i ensures Back(n, fmap[k], H) != Back(n, fmap[i], H) { BackDistinct(fmap, n, H, k, i); }
  }

  lemma AssignBegins(b: seq<int>, fmap: seq<int>, bh: seq<bool>, eclass: seq<int>, H: nat)
    requires Exact(b, fmap, bh, H) && |eclass| == |b| && 0 < H <= |b|
    ensures Assigned(|b|, fmap, bh, eclass, H, 0) && bh[0]
    ensures forall i :: 0 <= i < |b| ==> 0 <= fmap[i] < |b|
  {
  }

  method AssignClasses(fmap: array<int>, bhtab: array<bool>, eclass: array<int>, nblock: int, H: int, ghost b: seq<int>)
    requires nblock == |b| == eclass.Length == fmap.Length && 0 < H <= nblock && fmap != eclass
    requires Exact(b, fmap[..], bhtab[..], H)
    modifies eclass
    ensures Classes(b, eclass[..], H)
  {
    hide Exact, Assigned, Classes;
    var i, j := 0, 0;
    AssignBegins(b, fmap[..], bhtab[..], eclass[..], H);
    while i < nblock
      invariant 0 <= i <= nblock && (i > 0 ==> j == BucketOf(bhtab[..], i - 1))
      invariant Assigned(nblock, fmap[..], bhtab[..], eclass[..], H, i)
    {
      if bhtab[i] { j := i; }
      assert j == BucketOf(bhtab[..], i);
      var k := fmap[i] - H;
      if k < 0 { k := k + nblock; }
      assert k == Back(nblock, fmap[i], H);
      AssignStep(nblock, fmap[..], bhtab[..], eclass[..], H, i);
      eclass[k] := j;
      i := i + 1;
    }
    AssignedAll(b, fmap[..], bhtab[..], eclass[..], H);
  }

  lemma AssignedAll(b: seq<int>, fmap: seq<int>, bh: seq<bool>, eclass: seq<int>, H: nat)
    requires Exact(b, fmap, bh, H) && 0 < H <= |b| && Assigned(|b|, fmap, bh, eclass, H, |b|)
    ensures Classes(b, eclass, H)
  {
    BucketsAreClasses(b, fmap, bh, eclass, H);
  }

  // ----- finding the next bucket -----

  /** First position from k0 on whose bit is not v; a stop exists, so the scan, which looks
      at whole words when it can, stays inside the table. */
  method SkipRun(bhtab: array<bool>, k0: nat, v: bool, ghost stop: nat) returns (k: nat)
    requires bhtab.Length % 32 == 0 && k0 <= stop < bhtab.Length && bhtab[stop] != v
    ensures k0 <= k <= stop && bhtab[k] != v
    ensures forall p :: k0 <= p < k ==> bhtab[p] == v
  {
    k := k0;
    while bhtab[k] == v && k % 32 != 0
      invariant k0 <= k <= stop
      invariant forall p :: k0 <= p < k ==> bhtab[p] == v
      decreases stop - k
    {
      k := k + 1;
    }
    if bhtab[k] == v {
      while forall z :: k <= z < k + 32 ==> bhtab[z] == v
        invariant k0 <= k <= stop && k % 32 == 0
        invariant forall p :: k0 <= p < k ==> bhtab[p] == v
        decreases stop - k
      {
        assert !(k <= stop < k + 32);
        k := k + 32;
      }
      while bhtab[k] == v
        invariant k0 <= k <= stop
        invariant forall p :: k0 <= p < k ==> bhtab[p] == v
        decreases stop - k
      {
        k := k + 1;
      }
    }
  }

  /** The next bucket of more than one position after r, if there is one. */
  method NextBucket(bhtab: array<bool>, nblock: int, r0: int) returns (found: bool, l: int, r: int)
    requires -1 <= r0 < nblock && Sentinels(bhtab[..], nblock) && bhtab[r0 + 1]
    ensures found ==> r0 < l < r < nblock && !(exists p :: l < p <= r && bhtab[p]) && bhtab[r + 1]
    ensures forall p :: r0 < p <= (if found then l else nblock - 1) ==> bhtab[p]
  {
    assert !bhtab[..][nblock + 1] && bhtab[..][nblock];
    var k := SkipRun(bhtab, r0 + 1, true, nblock + 1);
    l := k - 1;
    r := l;
    if l >= nblock {
      return false, l, r;
    }
    k := SkipRun(bhtab, k, false, nblock);
    r := k - 1;
    found := true;
  }

  // ----- one round: from H bytes to 2H bytes -----

  /** Part-way through a round: still exact for H bytes by the old bits, and exact for 2H
      bytes, by the new bits, up to position r. */
  ghost predicate Refined(b: seq<int>, fmap: seq<int>, bh: seq<bool>, bh0: seq<bool>, H: nat, r: int) {
    && Exact(b, fmap, bh0, H) && Sentinels(bh0, |b|)
    && -1 <= r < |b| && |bh| == |bh0| && bh[0]
    && (forall p :: r < p < |bh| ==> bh[p] == bh0[p])
    && (forall p ::
           0 < p <= r ==>
             Cmp(b, fmap[p-1], fmap[p], 2 * H) <= 0 && (bh[p] <==> Cmp(b, fmap[p-1], fmap[p], 2 * H) != 0))
  }

  lemma CmpDoubled(b: seq<int>, eclass: seq<int>, x: nat, y: nat, H: nat)
    requires x < |b| && y < |b| && H <= |b| && Classes(b, eclass, H)
    ensures Cmp(b, x, y, H) != 0 ==> Cmp(b, x, y, 2 * H) == Cmp(b, x, y, H)
    ensures Cmp(b, x, y, H) == 0 ==> (Cmp(b, x, y, 2 * H) <= 0 <==> eclass[x] <= eclass[y])
    ensures Cmp(b, x, y, H) == 0 ==> (Cmp(b, x, y, 2 * H) == 0 <==> eclass[x] == eclass[y])
  {
    hide Cmp;
    CmpSplit(b, x, y, H, H);
    assert H + H == 2 * H;
    var x', y' := Advance(|b|, x, H), Advance(|b|, y, H);
    assert eclass[x] < eclass[y] <==> Cmp(b, x', y', H) < 0;
  }

  /** All rotations of one bucket agree on H bytes. */
  lemma BucketTies(b: seq<int>, fmap: seq<int>, bh: seq<bool>, H: nat, l: nat, r: nat, p: nat, q: nat)
    requires Exact(b, fmap, bh, H) && l <= p <= r < |b| && l <= q <= r
    requires !exists k :: l < k <= r && bh[k]
    ensures Cmp(b, fmap[p], fmap[q], H) == 0
  {
    SameBucket(bh, l, r, p);
    SameBucket(bh, l, r, q);
    if p <= q { BucketOrder(b, fmap, bh, H, p, q); } else { BucketOrder(b, fmap, bh, H, q, p); }
    CmpAntisymmetric(b, fmap[p], fmap[q], H);
  }

  lemma {:induction false} SameBucket(bh: seq<bool>, l: nat, r: nat, p: nat)
    requires l <= p <= r < |bh| && !exists k :: l < k <= r && bh[k]
    ensures BucketOf(bh, p) == BucketOf(bh, l)
    decreases p
  {
    if l < p { SameBucket(bh, l, r, p - 1); }
  }

  /** Permuting rotations inside a bucket does not disturb what is known for H bytes. */
  lemma BucketPermuted(b: seq<int>, s: seq<int>, t: seq<int>, bh: seq<bool>, H: nat, l: nat, r: nat)
    requires Exact(b, s, bh, H) && Rearranged(s, t, l, r + 1) && l <= r
    requires !exists k :: l < k <= r && bh[k]
    ensures Exact(b, t, bh, H)
  {
    RearrangedPermutation(s, t, |b|);
    forall p | 0 < p < |b|
      ensures Cmp(b, t[p-1], t[p], H) <= 0 && (bh[p] <==> Cmp(b, t[p-1], t[p], H) != 0)
    {
      TiesWith(b, s, t, bh, H, l, r, p - 1);
      TiesWith(b, s, t, bh, H, l, r, p);
      CmpAntisymmetric(b, t[p-1], s[p-1], H);
      assert Cmp(b, s[p-1], s[p], H) <= 0;
      CmpTransitive(b, t[p-1], s[p-1], s[p], H);
      CmpTransitive(b, t[p-1], s[p], t[p], H);
    }
  }

  lemma TiesWith(b: seq<int>, s: seq<int>, t: seq<int>, bh: seq<bool>, H: nat, l: nat, r: nat, p: nat)
    requires Exact(b, s, bh, H) && Rearranged(s, t, l, r + 1) && l <= r && p < |b|
    requires IsPermutation(t, |b|)
    requires !exists k :: l < k <= r && bh[k]
    ensures Cmp(b, s[p], t[p], H) == 0
  {
    if l <= p <= r {
      var j := RearrangedFrom(s, t, l, r + 1, p);
      BucketTies(b, s, bh, H, l, r, p, j);
    } else {
      CmpAntisymmetric(b, s[p], s[p], H);
    }
  }

  /** Scan a sorted bucket and mark where the class changes. */
  method MarkClasses(fmap: array<int>, eclass: array<int>, bhtab: array<bool>, l: int, r: int)
    requires 0 <= l < r < fmap.Length && r < bhtab.Length
    requires forall p :: l <= p <= r ==> 0 <= fmap[p] < eclass.Length && eclass[fmap[p]] >= 0
    requires bhtab[l] && !exists k :: l < k <= r && bhtab[k]
    modifies bhtab
    ensures forall p :: l < p <= r ==> (bhtab[p] <==> eclass[fmap[p-1]] != eclass[fmap[p]])
    ensures forall p :: 0 <= p <= l || r < p < bhtab.Length ==> bhtab[p] == old(bhtab[p])
  {
    var cc, i := -1, l;
    while i <= r
      invariant l <= i <= r + 1 && (if i == l then cc == -1 else cc == eclass[fmap[i-1]])
      invariant forall p :: l < p < i ==> (bhtab[p] <==> eclass[fmap[p-1]] != eclass[fmap[p]])
      invariant forall p :: i <= p <= r && l < p ==> !bhtab[p]
      invariant forall p :: 0 <= p <= l || r < p < bhtab.Length ==> bhtab[p] == old(bhtab[p])
    {
      var cc1 := eclass[fmap[i]];
      if cc != cc1 {
        bhtab[i] := true;
        cc := cc1;
      }
      i := i + 1;
    }
  }

  /** Sort one bucket by class and mark its new headers. */
  method RefineBucket(fmap: array<int>, eclass: array<int>, bhtab: array<bool>, l: int, r: int, ghost r0: int,
                      ghost b: seq<int>, ghost bh0: seq<bool>, ghost H: nat)
    requires IsBlock(b) && H <= |b| && Classes(b, eclass[..], H) && fmap != eclass
    requires Refined(b, fmap[..], bhtab[..], bh0, H, r0) && r0 < l < r < |b|
    requires !(exists p :: l < p <= r && bhtab[p]) && forall p :: r0 < p <= l ==> bhtab[p]
    modifies fmap, bhtab
    ensures Refined(b, fmap[..], bhtab[..], bh0, H, r)
  {
    hide Cmp, Rotation, Rearranged, OrderedBy, HeaderBits;
    ghost var s, bh := fmap[..], bhtab[..];
    assert forall p :: l < p <= r ==> bh[p] == bh0[p];
    QuickSort.QSort3(fmap, eclass[..], l, r);
    BucketPermuted(b, s, fmap[..], bh0, H, l, r);
    MarkClasses(fmap, eclass, bhtab, l, r);
    RefinedFurther(b, s, fmap[..], bh, bhtab[..], bh0, eclass[..], H, r0, l, r);
  }

  lemma RefinedFurther(b: seq<int>, s: seq<int>, t: seq<int>, bh: seq<bool>, bh1: seq<bool>, bh0: seq<bool>,
                       eclass: seq<int>, H: nat, r0: int, l: int, r: int)
    requires H <= |b| && Classes(b, eclass, H) && Refined(b, s, bh, bh0, H, r0) && r0 < l < r < |b|
    requires forall p :: r0 < p <= l ==> bh0[p]
    requires Exact(b, t, bh0, H) && Rearranged(s, t, l, r + 1)
    requires !exists k :: l < k <= r && bh0[k]
    requires SortedByKey(t, eclass, l, r) && |bh1| == |bh|
    requires forall p :: l < p <= r ==> (bh1[p] <==> eclass[t[p-1]] != eclass[t[p]])
    requires forall p :: 0 <= p <= l || r < p < |bh| ==> bh1[p] == bh[p]
    ensures Refined(b, t, bh1, bh0, H, r)
  {
    forall p | 0 < p <= r
      ensures Cmp(b, t[p-1], t[p], 2 * H) <= 0 && (bh1[p] <==> Cmp(b, t[p-1], t[p], 2 * H) != 0)
    {
      CmpDoubled(b, eclass, t[p-1], t[p], H);
      if l < p {
        BucketTies(b, t, bh0, H, l, r, p - 1, p);
        assert Key(eclass, t[p-1]) <= Key(eclass, t[p]);
      }
    }
  }

  /** After the last bucket the round is complete. */
  lemma RoundComplete(b: seq<int>, fmap: seq<int>, bh: seq<bool>, bh0: seq<bool>, H: nat, r: int)
    requires 0 < H <= |b| && Refined(b, fmap, bh, bh0, H, r)
    requires forall p :: r < p < |b| ==> bh[p]
    ensures Exact(b, fmap, bh, 2 * H) && Sentinels(bh, |b|)
  {
    forall p | 0 < p < |b|
      ensures Cmp(b, fmap[p-1], fmap[p], 2 * H) <= 0 && (bh[p] <==> Cmp(b, fmap[p-1], fmap[p], 2 * H) != 0)
    {
      if r < p { CmpSplit(b, fmap[p-1], fmap[p], H, H); }
    }
  }

  /** No bucket of more than one rotation is left: the order is settled, not just on H bytes. */
  ghost predicate Settled(b: seq<int>, fmap: seq<int>, H: nat) {
    IsPermutation(fmap, |b|) && forall p :: 0 < p < |b| ==> Cmp(b, fmap[p-1], fmap[p], H) < 0
  }

  method Round(fmap: array<int>, eclass: array<int>, bhtab: array<bool>, nblock: int, H: int, ghost b: seq<int>)
    returns (nNotDone: int)
    requires IsBlock(b) && nblock == |b| == fmap.Length == eclass.Length && fmap != eclass
    requires 0 < H <= nblock && Exact(b, fmap[..], bhtab[..], H) && Sentinels(bhtab[..], nblock)
    modifies fmap, eclass, bhtab
    ensures Exact(b, fmap[..], bhtab[..], 2 * H) && Sentinels(bhtab[..], nblock)
    ensures nNotDone == 0 ==> Settled(b, fmap[..], H)
  {
    hide Cmp, Rotation, Rearranged, Settled, IsPermutation, OrderedBy;
    ghost var bh0, s0 := bhtab[..], fmap[..];
    AssignClasses(fmap, bhtab, eclass, nblock, H, b);
    nNotDone := 0;
    var r := -1;
    while true
      invariant -1 <= r < nblock && bhtab[r + 1] && Refined(b, fmap[..], bhtab[..], bh0, H, r)
      invariant Classes(b, eclass[..], H) && nNotDone >= 0
      invariant nNotDone == 0 ==> fmap[..] == s0 && r == -1
      decreases nblock - r
    {
      var found, l, r' := NextRefined(bhtab, nblock, r, b, fmap[..], bh0, H);
      if !found { break; }
      nNotDone := nNotDone + (r' - l + 1);
      RefineBucket(fmap, eclass, bhtab, l, r', r, b, bh0, H);
      r := r';
    }
    RoundComplete(b, fmap[..], bhtab[..], bh0, H, r);
    if nNotDone == 0 { NoneLeft(b, s0, bhtab[..], bh0, H); }
  }

  /** If no bucket was found, every rotation is its own bucket. */
  lemma NoneLeft(b: seq<int>, s: seq<int>, bh: seq<bool>, bh0: seq<bool>, H: nat)
    requires Refined(b, s, bh, bh0, H, -1) && Exact(b, s, bh0, H) && forall p :: 0 <= p < |b| ==> bh[p]
    ensures Settled(b, s, H)
  {
    forall p | 0 < p < |b| ensures bh0[p] && Cmp(b, s[p-1], s[p], H) != 0 {}
  }

  /** The scan in the middle of a round. */
  method NextRefined(bhtab: array<bool>, nblock: int, r0: int, ghost b: seq<int>, ghost fmap: seq<int>,
                     ghost bh0: seq<bool>, ghost H: nat)
    returns (found: bool, l: int, r: int)
    requires nblock == |b| && -1 <= r0 < nblock
    requires Refined(b, fmap, bhtab[..], bh0, H, r0) && bhtab[r0 + 1]
    ensures found ==> r0 < l < r < nblock && !(exists p :: l < p <= r && bhtab[p]) && bhtab[r + 1]
    ensures forall p :: r0 < p <= (if found then l else nblock - 1) ==> bhtab[p]
  {
    found, l, r := NextBucket(bhtab, nblock, r0);
  }

  lemma SettledIsSorted(b: seq<int>, fmap: seq<int>, H: nat)
    requires H <= |b| && Settled(b, fmap, H)
    ensures OrderedBy(b, fmap, |b|)
  {
    forall p | 0 < p < |b| ensures Cmp(b, fmap[p-1], fmap[p], |b|) <= 0 {
      CmpSplit(b, fmap[p-1], fmap[p], H, |b| - H);
    }
  }

  lemma LongEnoughIsSorted(b: seq<int>, fmap: seq<int>, bh: seq<bool>, H: nat)
    requires |b| <= H && Exact(b, fmap, bh, H)
    ensures OrderedBy(b, fmap, |b|)
  {
    forall p | 0 < p < |b| ensures Cmp(b, fmap[p-1], fmap[p], |b|) <= 0 {
      CmpSplit(b, fmap[p-1], fmap[p], |b|, H - |b|);
    }
  }

  /** The doubling loop: ends after at most log2(nblock) + 1 rounds, sorted on all bytes. */
  method DoublingLoop(fmap: array<int>, eclass: array<int>, bhtab: array<bool>, nblock: int, ghost b: seq<int>)
    requires IsBlock(b) && nblock == |b| == fmap.Length == eclass.Length && fmap != eclass
    requires Exact(b, fmap[..], bhtab[..], 1) && Sentinels(bhtab[..], nblock)
    modifies fmap, eclass, bhtab
    ensures IsPermutation(fmap[..], nblock) && OrderedBy(b, fmap[..], nblock)
  {
    var H := 1;
    while true
      invariant 1 <= H <= nblock
      invariant Exact(b, fmap[..], bhtab[..], H) && Sentinels(bhtab[..], nblock)
      decreases nblock - H
    {
      var nNotDone := Round(fmap, eclass, bhtab, nblock, H, b);
      if nNotDone == 0 { SettledIsSorted(b, fmap[..], H); }
      H := H * 2;
      if H > nblock { LongEnoughIsSorted(b, fmap[..], bhtab[..], H); }
      if H > nblock || nNotDone == 0 { break; }
    }
  }

  // ----- putting the block back -----

  /** First bytes of the rotations, in sorted order. */
  ghost function Column(b: seq<int>, fmap: seq<int>): (r: seq<int>)
    requires forall p :: 0 <= p < |fmap| ==> 0 <= fmap[p] < |b|
    ensures |r| == |fmap| && forall p :: 0 <= p < |fmap| ==> r[p] == b[fmap[p]]
  {
    seq(|fmap|, p requires 0 <= p < |fmap| => b[fmap[p]])
  }

  lemma {:induction false} CountByMultiset(s: seq<int>, c: int)
    ensures Count(s, c) == multiset(s)[c]
  {
    if s != [] {
      assert s == s[..|s|-1] + [s[|s|-1]];
      CountByMultiset(s[..|s|-1], c);
    }
  }

  /** A listing of 0..n without n. */
  lemma WithoutTop(fmap: seq<int>, n: nat, k: nat, rest: seq<int>)
    requires IsPermutation(fmap, n + 1) && k <= n && fmap[k] == n && rest == fmap[..k] + fmap[k+1..]
    ensures IsPermutation(rest, n)
  {
    forall p | 0 <= p < n ensures rest[p] == fmap[if p < k then p else p + 1] {}
  }

  lemma ColumnWithout(b: seq<int>, fmap: seq<int>, n: nat, k: nat, rest: seq<int>)
    requires |b| == n + 1 && IsPermutation(fmap, n + 1) && k <= n && fmap[k] == n &&
             rest == fmap[..k] + fmap[k+1..] && IsPermutation(rest, n)
    ensures Column(b, fmap)[k] == b[n] && Column(b[..n], rest) == Column(b, fmap)[..k] + Column(b, fmap)[k+1..]
  {
    var col, c := Column(b, fmap), Column(b[..n], rest);
    forall p | 0 <= p < n ensures c[p] == (col[..k] + col[k+1..])[p] {
      assert rest[p] == fmap[if p < k then p else p + 1];
    }
  }

  lemma MultisetWithout(s: seq<int>, k: nat)
    requires k < |s|
    ensures multiset(s) == multiset(s[..k] + s[k+1..]) + multiset{s[k]}
  {
    assert s == s[..k] + [s[k]] + s[k+1..];
  }

  lemma {:induction false} ColumnMultiset(b: seq<int>, fmap: seq<int>)
    requires IsPermutation(fmap, |b|)
    ensures multiset(Column(b, fmap)) == multiset(b)
    decreases |b|
  {
    if |b| > 0 {
      var n := |b| - 1;
      var k := PermutationHits(fmap, |b|, n);
      var rest := fmap[..k] + fmap[k+1..];
      WithoutTop(fmap, n, k, rest);
      ColumnMultiset(b[..n], rest);
      ColumnWithout(b, fmap, n, k, rest);
      MultisetWithout(Column(b, fmap), k);
      MultisetWithout(b, n);
      assert b[..n] + b[n+1..] == b[..n];
    }
  }

  lemma {:induction false} CountSuffix(s: seq<int>, i: nat, c: int)
    requires i < |s|
    ensures Count(s[i..], c) == Count(s[i+1..], c) + if s[i] == c then 1 else 0
  {
    assert s[i..] == [s[i]] + s[i+1..];
    CountAppend([s[i]], s[i+1..], c);
    assert [s[i]][..0] == [];
  }

  lemma {:induction false} CountPositive(s: seq<int>, c: int) returns (k: nat)
    requires Count(s, c) > 0
    ensures k < |s| && s[k] == c
  {
    var n := |s| - 1;
    if s[n] == c { k := n; } else { k := CountPositive(s[..n], c); }
  }

  /** What the loop of Rebuild knows before position i of a sorted column. */
  ghost predicate Remaining(ftabCopy: seq<int>, col: seq<int>, i: nat, j: int) {
    && |ftabCopy| == 256 && i <= |col| && 0 <= j < 256
    && (forall p :: i <= p < |col| ==> 0 <= j <= col[p] < 256)
    && forall c :: 0 <= c < 256 ==> ftabCopy[c] == Count(col[i..], c)
  }

  /** Skip exhausted bytes: the next one is the first byte at position i of the column. */
  method NextByte(ftabCopy: array<int>, j0: int, ghost col: seq<int>, ghost i: nat) returns (j: int)
    requires Remaining(ftabCopy[..], col, i, j0) && i < |col|
    requires forall p :: i <= p < |col| ==> col[i] <= col[p]
    ensures j == col[i]
  {
    CountSuffix(col, i, col[i]);
    j := j0;
    while ftabCopy[j] == 0
      invariant j0 <= j <= col[i]
      decreases col[i] - j
    {
      j := j + 1;
    }
    ghost var k := CountPositive(col[i..], j);
  }

  lemma RemainingStep(before: seq<int>, after: seq<int>, col: seq<int>, i: nat, j: int, j': int)
    requires Remaining(before, col, i, j) && i < |col| && j' == col[i]
    requires forall p :: i <= p < |col| ==> col[i] <= col[p]
    requires |after| == 256 && after == before[j' := before[j'] - 1]
    ensures Remaining(after, col, i + 1, j')
  {
    forall c | 0 <= c < 256 ensures after[c] == Count(col[i+1..], c) {
      CountSuffix(col, i, c);
    }
  }

  ghost predicate Restored(block: seq<int>, b: seq<int>, fmap: seq<int>, i: nat)
    requires IsPermutation(fmap, |b|) && |block| == |b|
  {
    i <= |b| && forall p :: 0 <= p < i ==> block[fmap[p]] == b[fmap[p]]
  }

  lemma RestoredStep(block: seq<int>, b: seq<int>, fmap: seq<int>, i: nat)
    requires IsPermutation(fmap, |b|) && |block| == |b| && i < |b| && Restored(block, b, fmap, i)
    ensures Restored(block[fmap[i] := b[fmap[i]]], b, fmap, i + 1)
  {
  }

  lemma RestoredAll(block: seq<int>, b: seq<int>, fmap: seq<int>)
    requires IsPermutation(fmap, |b|) && |block| == |b| && Restored(block, b, fmap, |b|)
    ensures block == b
  {
    forall x | 0 <= x < |b| ensures block[x] == b[x] {
      var p := PermutationHits(fmap, |b|, x);
    }
  }

  lemma ColumnFromHere(b: seq<int>, fmap: seq<int>, i: nat)
    requires IsPermutation(fmap, |b|) && OrderedBy(b, fmap, |b|)
    ensures forall p :: i <= p < |b| ==> Column(b, fmap)[i] <= Column(b, fmap)[p]
  {
    forall p | i <= p < |b| ensures Column(b, fmap)[i] <= Column(b, fmap)[p] { OrderedPairs(b, fmap, |b|, i, p); }
  }

  lemma RebuildBegins(ftabCopy: seq<int>, block: seq<int>, b: seq<int>, fmap: seq<int>)
    requires IsBlock(b) && IsPermutation(fmap, |b|) && |block| == |b| && |ftabCopy| == 256
    requires forall c :: 0 <= c < 256 ==> ftabCopy[c] == Count(Column(b, fmap), c)
    ensures Remaining(ftabCopy, Column(b, fmap), 0, 0) && Restored(block, b, fmap, 0)
  {
    hide Count;
    assert Column(b, fmap)[0..] == Column(b, fmap);
  }

  /** Rewrite the block from the counts of its bytes and the sorted order. */
  method Rebuild(fmap: array<int>, ftabCopy: array<int>, eclass8: array<int>, nblock: int, ghost b: seq<int>)
    requires IsBlock(b) && nblock == |b| == fmap.Length == eclass8.Length && ftabCopy.Length == 256
    requires fmap != eclass8 && ftabCopy != fmap && ftabCopy != eclass8
    requires IsPermutation(fmap[..], nblock) && OrderedBy(b, fmap[..], nblock)
    requires forall c :: 0 <= c < 256 ==> ftabCopy[c] == Count(b, c)
    modifies ftabCopy, eclass8
    ensures eclass8[..] == b
  {
    hide OrderedBy, Count, Remaining, Restored;
    ghost var f := fmap[..];
    ghost var col := Column(b, f);
    ColumnCounts(b, f);
    var i, j := 0, 0;
    RebuildBegins(ftabCopy[..], eclass8[..], b, f);
    while i < nblock
      invariant 0 <= i <= nblock && fmap[..] == f
      invariant Remaining(ftabCopy[..], col, i, j)
      invariant Restored(eclass8[..], b, f, i)
    {
      ColumnFromHere(b, f, i);
      ghost var before, j0 := ftabCopy[..], j;
      j := NextByte(ftabCopy, j, col, i);
      ftabCopy[j] := ftabCopy[j] - 1;
      RemainingStep(before, ftabCopy[..], col, i, j0, j);
      RestoredStep(eclass8[..], b, f, i);
      eclass8[fmap[i]] := j;
      i := i + 1;
    }
    RestoredAll(eclass8[..], b, f);
  }

  lemma ColumnCounts(b: seq<int>, fmap: seq<int>)
    requires IsPermutation(fmap, |b|)
    ensures forall c :: Count(Column(b, fmap), c) == Count(b, c)
  {
    ColumnMultiset(b, fmap);
    forall c ensures Count(Column(b, fmap), c) == Count(b, c) {
      CountByMultiset(Column(b, fmap), c);
      CountByMultiset(b, c);
    }
  }

  // ----- the whole sort -----

  /** The classes of the doubling loop are kept in the memory that held the block's bytes. */
  method Destroy(eclass8: array<int>)
    modifies eclass8
  {
  }

  /** Pre-condition as for bzip2: a non-empty block. Post-condition: the block is back in
      place and fmap lists its rotations in lexicographic order. */
  method FallbackSort(fmap: array<int>, eclass: array<int>, eclass8: array<int>, bhtab: array<bool>, nblock: int)
    requires IsBlock(eclass8[..]) && nblock == eclass8.Length == eclass.Length == fmap.Length
    requires fmap != eclass && fmap != eclass8 && eclass != eclass8
    requires bhtab.Length % 32 == 0 && nblock + 64 <= bhtab.Length
    modifies fmap, eclass, eclass8, bhtab
    ensures eclass8[..] == old(eclass8[..])
    ensures IsPermutation(fmap[..], nblock)
    ensures SortedRotations(eclass8[..], fmap[..], 0, nblock - 1)
  {
    hide Scattered, Cmp, Rotation, BackSlot, Below, Count, Exact, SortedRotations, IsPermutation, OrderedBy;
    ghost var b := eclass8[..];
    var ftab := CountBytes(eclass8);
    var ftabCopy := new int[256](i requires 0 <= i < 256 reads ftab => ftab[i]);
    PrefixSums(ftab, b);
    Scatter(eclass8, ftab, fmap);
    ghost var order := fmap[..];
    MarkStarts(ftab, bhtab, nblock, b);
    assert fmap[..] == order;
    ScatteredIsExact(b, order, bhtab[..]);
    Destroy(eclass8);
    DoublingLoop(fmap, eclass, bhtab, nblock, b);
    Rebuild(fmap, ftabCopy, eclass8, nblock, b);
    OrderedIsSorted(b, fmap[..]);
  }

  lemma OrderedIsSorted(b: seq<int>, fmap: seq<int>)
    requires IsPermutation(fmap, |b|) && OrderedBy(b, fmap, |b|)
    ensures SortedRotations(b, fmap, 0, |b| - 1)
  {
    forall p, q | 0 <= p < q < |b|
      ensures LexLeq(Rotation(b, fmap[p]), Rotation(b, fmap[q]))
    {
      OrderedPairs(b, fmap, |b|, p, q);
      CmpIsLexicographic(b, fmap[p], fmap[q]);
    }
  }
}
