/** mainGtU of blocksort.c: compares two rotations byte by byte and, from the thirteenth byte
    on, also by the orderings cached in the quadrant table. */
module MainCompare {
  import opened Rotations

  const N_OVERSHOOT := 34  // BZ_N_RADIX + BZ_N_QSORT + BZ_N_SHELL + 2
  const MAX_DEPTH := 15    // MAIN_QSORT_DEPTH_THRESH + 1

  /** A position that may have run past the end of the block, folded back into it. */
  function Wrap(n: nat, i: nat): (r: nat)
    requires i < 2 * n
    ensures r < n
  {
    if i >= n then i - n else i
  }

  /** block and quadrant continue for N_OVERSHOOT positions with a copy of their beginning. */
  ghost predicate Extended(s: seq<int>, n: nat) {
    N_OVERSHOOT < n && |s| == n + N_OVERSHOOT && forall i :: n <= i < |s| ==> s[i] == s[i - n]
  }

  /** The meaning of the quadrant table, weakly: where two positions hold the same byte,
      unequal quadrants never contradict the order of the rotations that start there. */
  ghost predicate QuadrantMeaning(b: seq<int>, quadrant: seq<int>) {
    |quadrant| >= |b| &&
    forall i, j :: 0 <= i < |b| && 0 <= j < |b| && b[i] == b[j] && quadrant[i] < quadrant[j] ==> Cmp(b, i, j, |b|) <= 0
  }

  ghost predicate Tables(b: seq<int>, block: seq<int>, quadrant: seq<int>) {
    Extended(block, |b|) && Extended(quadrant, |b|) && block[..|b|] == b && QuadrantMeaning(b, quadrant)
  }

  /** Comparing d + e bytes of r1 and r2 is comparing e bytes from p1 and p2 on. */
  ghost predicate SameFrom(b: seq<int>, r1: nat, r2: nat, p1: nat, p2: nat, d: nat, e: nat)
    requires r1 < |b| && r2 < |b| && p1 < |b| && p2 < |b|
  {
    Cmp(b, r1, r2, d + e) == Cmp(b, p1, p2, e)
  }

  /** The first d bytes from r1 and r2 on tie, so comparing them further is comparing from i1
      and i2 on. */
  ghost predicate Hangs(b: seq<int>, r1: nat, r2: nat, i1: nat, i2: nat, d: nat)
    requires r1 < |b| && r2 < |b| && i1 < 2 * |b| && i2 < 2 * |b|
  {
    forall e: nat :: SameFrom(b, r1, r2, Wrap(|b|, i1), Wrap(|b|, i2), d, e)
  }

  lemma {:induction false} TiePrefix(b: seq<int>, i: nat, j: nat, d: nat, m: nat)
    requires i < |b| && j < |b| && m <= d && Cmp(b, i, j, d) == 0
    ensures Cmp(b, i, j, m) == 0
    decreases m
  {
    if m > 0 { TiePrefix(b, Advance(|b|, i, 1), Advance(|b|, j, 1), d - 1, m - 1); }
  }

  lemma HangsTies(b: seq<int>, r1: nat, r2: nat, i1: nat, i2: nat, d: nat)
    requires r1 < |b| && r2 < |b| && i1 < 2 * |b| && i2 < 2 * |b| && Hangs(b, r1, r2, i1, i2, d)
    ensures Cmp(b, r1, r2, d) == 0
    ensures Cmp(b, r1, r2, |b|) ==
            if d < |b| then Cmp(b, Wrap(|b|, i1), Wrap(|b|, i2), |b| - d) else 0
  {
    assert SameFrom(b, r1, r2, Wrap(|b|, i1), Wrap(|b|, i2), d, 0);
    if d < |b| {
      assert SameFrom(b, r1, r2, Wrap(|b|, i1), Wrap(|b|, i2), d, |b| - d);
    } else {
      TiePrefix(b, r1, r2, d, |b|);
    }
  }

  lemma WrappedByte(b: seq<int>, block: seq<int>, i: nat)
    requires Extended(block, |b|) && block[..|b|] == b && i < |block|
    ensures block[i] == b[Wrap(|b|, i)]
  {
    if i >= |b| {
      assert block[i] == block[i - |b|] == block[..|b|][i - |b|];
    } else {
      assert block[i] == block[..|b|][i];
    }
  }

  lemma HangsByte(b: seq<int>, block: seq<int>, r1: nat, r2: nat, i1: nat, i2: nat, d: nat)
    requires Extended(block, |b|) && block[..|b|] == b && i1 < |block| && i2 < |block|
    requires r1 < |b| && r2 < |b| && Hangs(b, r1, r2, i1, i2, d)
    ensures block[i1] > block[i2] ==> Cmp(b, r1, r2, |b|) >= 0
    ensures block[i1] < block[i2] ==> Cmp(b, r1, r2, |b|) <= 0
    ensures block[i1] != block[i2] ==> Cmp(b, r1, r2, d + 1) != 0
  {
    WrappedByte(b, block, i1);
    WrappedByte(b, block, i2);
    HangsTies(b, r1, r2, i1, i2, d);
    var p1, p2 := Wrap(|b|, i1), Wrap(|b|, i2);
    assert SameFrom(b, r1, r2, p1, p2, d, 1);
  }

  lemma HangsOn(b: seq<int>, block: seq<int>, r1: nat, r2: nat, i1: nat, i2: nat, d: nat)
    requires Extended(block, |b|) && block[..|b|] == b && i1 < |block| && i2 < |block|
    requires r1 < |b| && r2 < |b| && Hangs(b, r1, r2, i1, i2, d)
    requires block[i1] == block[i2] && i1 + 1 < 2 * |b| && i2 + 1 < 2 * |b|
    ensures Hangs(b, r1, r2, i1 + 1, i2 + 1, d + 1)
  {
    WrappedByte(b, block, i1);
    WrappedByte(b, block, i2);
    var p1, p2, q1, q2, d' := Wrap(|b|, i1), Wrap(|b|, i2), Wrap(|b|, i1 + 1), Wrap(|b|, i2 + 1), d + 1;
    forall e: nat ensures SameFrom(b, r1, r2, q1, q2, d', e) {
      assert SameFrom(b, r1, r2, p1, p2, d, e + 1);
    }
  }

  lemma HangsQuadrant(b: seq<int>, block: seq<int>, quadrant: seq<int>, r1: nat, r2: nat, i1: nat, i2: nat, d: nat)
    requires Tables(b, block, quadrant) && i1 < |block| && i2 < |block|
    requires r1 < |b| && r2 < |b| && Hangs(b, r1, r2, i1, i2, d)
    requires block[i1] == block[i2]
    ensures quadrant[i1] > quadrant[i2] ==> Cmp(b, r1, r2, |b|) >= 0
    ensures quadrant[i1] < quadrant[i2] ==> Cmp(b, r1, r2, |b|) <= 0
  {
    WrappedByte(b, block, i1);
    WrappedByte(b, block, i2);
    HangsTies(b, r1, r2, i1, i2, d);
    var p1, p2 := Wrap(|b|, i1), Wrap(|b|, i2);
    assert quadrant[i1] == quadrant[p1] && quadrant[i2] == quadrant[p2];
    CmpAntisymmetric(b, p1, p2, |b|);
    if d < |b| {
      CmpSplit(b, p1, p2, |b| - d, d);
    }
  }

  // ----- what a comparison costs -----

  /** Nothing has been cached yet. */
  ghost predicate Uncached(quadrant: seq<int>) {
    forall k :: 0 <= k < |quadrant| ==> quadrant[k] == 0
  }

  /** What a comparison may have cost: one for each round of eight bytes that tie after the
      first twelve, and no more rounds than it takes to go once round the block. */
  ghost predicate Cost(b: seq<int>, r1: nat, r2: nat, spent: int)
    requires r1 < |b| && r2 < |b|
  {
    0 <= spent <= |b| / 8 + 2 && (spent > 0 ==> Cmp(b, r1, r2, 12 + 8 * spent) == 0)
  }

  /** While nothing is cached it costs no less. */
  ghost predicate FullCost(b: seq<int>, r1: nat, r2: nat, spent: int)
    requires r1 < |b| && r2 < |b|
  {
    spent >= 0 && (spent < |b| / 8 + 2 ==> Cmp(b, r1, r2, 12 + 8 * (spent + 1)) != 0)
  }

  /** The rotations differ within their first 20 + 8 * m bytes. */
  ghost predicate Apart(b: seq<int>, x: nat, y: nat, m: nat)
    requires x < |b| && y < |b|
  {
    Cmp(b, x, y, 20 + 8 * m) != 0
  }

  /** So a comparison of two different rotations never costs more than m. */
  ghost predicate CostsAtMost(b: seq<int>, m: nat) {
    m >= |b| / 8 + 2 ||
    forall x, y {:trigger Apart(b, x, y, m)} :: 0 <= x < |b| && 0 <= y < |b| && x != y ==> Apart(b, x, y, m)
  }

  lemma CostBound(b: seq<int>, x: nat, y: nat, spent: int, m: nat)
    requires x < |b| && y < |b| && Cost(b, x, y, spent)
    ensures Apart(b, x, y, m) ==> spent <= m
    ensures CostsAtMost(b, m) && x != y ==> spent <= m
  {
    if spent > m { TiePrefix(b, x, y, 12 + 8 * spent, 20 + 8 * m); }
  }

  /** The answer gt is consistent with the order of rotations r1 and r2. */
  ghost predicate Consistent(b: seq<int>, r1: nat, r2: nat, gt: bool)
    requires r1 < |b| && r2 < |b|
  {
    if gt then Cmp(b, r1, r2, |b|) >= 0 else Cmp(b, r1, r2, |b|) <= 0
  }

  lemma TablesHave(b: seq<int>, block: seq<int>, quadrant: seq<int>)
    requires Tables(b, block, quadrant)
    ensures Extended(block, |b|) && block[..|b|] == b && |b| > N_OVERSHOOT
  {
  }

  lemma HangsAtFirst(b: seq<int>, r1: nat, r2: nat, i1: nat, i2: nat)
    requires i1 < 2 * |b| && i2 < 2 * |b| && r1 == Wrap(|b|, i1) && r2 == Wrap(|b|, i2)
    ensures Hangs(b, r1, r2, i1, i2, 0)
  {
  }

  lemma ExtendedSize(s: seq<int>, n: nat)
    requires Extended(s, n)
    ensures N_OVERSHOOT < n && |s| == n + N_OVERSHOOT
  {
  }

  /** The first twelve bytes. */
  method FirstBytes(i1_: nat, i2_: nat, block: seq<int>, ghost b: seq<int>) returns (decided: bool, gt: bool)
    requires Extended(block, |b|) && block[..|b|] == b
    requires i1_ < |b| + MAX_DEPTH && i2_ < |b| + MAX_DEPTH
    ensures decided ==> Consistent(b, Wrap(|b|, i1_), Wrap(|b|, i2_), gt)
    ensures decided ==> Cmp(b, Wrap(|b|, i1_), Wrap(|b|, i2_), 12) != 0
    ensures !decided ==> Hangs(b, Wrap(|b|, i1_), Wrap(|b|, i2_), i1_ + 12, i2_ + 12, 12)
  {
    hide Extended, Hangs, Cmp;
    ExtendedSize(block, |b|);
    var step, i1, i2 := 0, i1_, i2_;
    ghost var r1, r2 := Wrap(|b|, i1_), Wrap(|b|, i2_);
    HangsAtFirst(b, r1, r2, i1, i2);
    while step < 12
      invariant 0 <= step <= 12 && i1 == i1_ + step && i2 == i2_ + step
      invariant Hangs(b, r1, r2, i1, i2, step)
    {
      HangsByte(b, block, r1, r2, i1, i2, step);
      var c1, c2 := block[i1], block[i2];
      if c1 != c2 {
        StillDiffer(b, r1, r2, step + 1, 12);
        return true, c1 > c2;
      }
      HangsOn(b, block, r1, r2, i1, i2, step);
      i1, i2, step := i1 + 1, i2 + 1, step + 1;
    }
    return false, false;
  }

  lemma StillDiffer(b: seq<int>, r1: nat, r2: nat, m: nat, d: nat)
    requires r1 < |b| && r2 < |b| && m <= d && Cmp(b, r1, r2, m) != 0
    ensures Cmp(b, r1, r2, d) != 0
  {
    if Cmp(b, r1, r2, d) == 0 { TiePrefix(b, r1, r2, d, m); }
  }

  /** One byte and, if it ties, its quadrant. */
  method OneCached(i1: nat, i2: nat, block: seq<int>, quadrant: seq<int>, ghost b: seq<int>, ghost r1: nat,
                   ghost r2: nat, ghost d: nat)
    returns (decided: bool, gt: bool)
    requires Tables(b, block, quadrant)
    requires i1 < |b| + N_OVERSHOOT && i2 < |b| + N_OVERSHOOT && i1 + 1 < 2 * |b| && i2 + 1 < 2 * |b|
    requires r1 < |b| && r2 < |b| && Hangs(b, r1, r2, i1, i2, d)
    ensures decided ==> Consistent(b, r1, r2, gt) && (Uncached(quadrant) ==> Cmp(b, r1, r2, d + 1) != 0)
    ensures !decided ==> Hangs(b, r1, r2, i1 + 1, i2 + 1, d + 1)
  {
    hide Hangs, Cmp;
    HangsByte(b, block, r1, r2, i1, i2, d);
    var c1, c2 := block[i1], block[i2];
    if c1 != c2 { return true, c1 > c2; }
    HangsOn(b, block, r1, r2, i1, i2, d);
    HangsQuadrant(b, block, quadrant, r1, r2, i1, i2, d);
    var s1, s2 := quadrant[i1], quadrant[i2];
    return s1 != s2, s1 > s2;
  }

  /** Eight bytes, each followed by its quadrant. */
  method EightCached(i1_: nat, i2_: nat, block: seq<int>, quadrant: seq<int>, ghost b: seq<int>, ghost r1: nat,
                     ghost r2: nat, ghost d: nat)
    returns (decided: bool, gt: bool)
    requires Tables(b, block, quadrant)
    requires i1_ < |b| + MAX_DEPTH + 12 && i2_ < |b| + MAX_DEPTH + 12
    requires r1 < |b| && r2 < |b| && Hangs(b, r1, r2, i1_, i2_, d)
    ensures decided ==> Consistent(b, r1, r2, gt) && (Uncached(quadrant) ==> Cmp(b, r1, r2, d + 8) != 0)
    ensures !decided ==> Hangs(b, r1, r2, i1_ + 8, i2_ + 8, d + 8)
  {
    hide Tables, Hangs, Cmp, Consistent, Uncached;
    TablesHave(b, block, quadrant);
    var step, i1, i2 := 0, i1_, i2_;
    while step < 8
      invariant 0 <= step <= 8 && i1 == i1_ + step && i2 == i2_ + step
      invariant Hangs(b, r1, r2, i1, i2, d + step)
    {
      decided, gt := OneCached(i1, i2, block, quadrant, b, r1, r2, d + step);
      if decided {
        if Cmp(b, r1, r2, d + step + 1) != 0 { StillDiffer(b, r1, r2, d + step + 1, d + 8); }
        return;
      }
      i1, i2, step := i1 + 1, i2 + 1, step + 1;
    }
    return false, false;
  }

  /** A full turn later the comparison hangs on the same positions. */
  lemma HangsFolded(b: seq<int>, r1: nat, r2: nat, i1: nat, i2: nat, d: nat)
    requires r1 < |b| && r2 < |b| && i1 < 2 * |b| && i2 < 2 * |b| && Hangs(b, r1, r2, i1, i2, d)
    ensures Hangs(b, r1, r2, if i1 >= |b| then i1 - |b| else i1, if i2 >= |b| then i2 - |b| else i2, d)
    ensures Cmp(b, r1, r2, d) == 0 && (d >= |b| ==> Cmp(b, r1, r2, |b|) == 0)
  {
    HangsTies(b, r1, r2, i1, i2, d);
    var i1' := if i1 >= |b| then i1 - |b| else i1;
    var i2' := if i2 >= |b| then i2 - |b| else i2;
    assert Wrap(|b|, i1') == Wrap(|b|, i1) && Wrap(|b|, i2') == Wrap(|b|, i2);
  }

  /** True only if rotation i1 is not before rotation i2, false only if it is not after it.
      Every table index stays below nblock + N_OVERSHOOT. The budget pays one for each round of
      eight bytes that tie. */
  method GtU(i1_: nat, i2_: nat, block: seq<int>, quadrant: seq<int>, nblock: nat, budget0: int, ghost b: seq<int>)
    returns (gt: bool, budget: int)
    requires nblock == |b| && Tables(b, block, quadrant)
    requires i1_ < nblock + MAX_DEPTH && i2_ < nblock + MAX_DEPTH
    ensures gt ==> Cmp(b, Wrap(nblock, i1_), Wrap(nblock, i2_), nblock) >= 0
    ensures !gt ==> Cmp(b, Wrap(nblock, i1_), Wrap(nblock, i2_), nblock) <= 0
    ensures Cost(b, Wrap(nblock, i1_), Wrap(nblock, i2_), budget0 - budget)
    ensures Uncached(quadrant) ==> FullCost(b, Wrap(nblock, i1_), Wrap(nblock, i2_), budget0 - budget)
  {
    hide Tables, Extended, Hangs, Cmp, Uncached;
    TablesHave(b, block, quadrant);
    ghost var r1, r2, rounds: nat := Wrap(nblock, i1_), Wrap(nblock, i2_), 0;
    budget := budget0;
    var decided;
    decided, gt := FirstBytes(i1_, i2_, block, b);
    if decided {
      StillDiffer(b, r1, r2, 12, 20);
      return;
    }
    var i1: nat, i2: nat, k: int := i1_ + 12, i2_ + 12, nblock + 8;
    while true
      invariant i1 < nblock + MAX_DEPTH + 12 && i2 < nblock + MAX_DEPTH + 12
      invariant k == nblock + 8 - 8 * rounds && k >= 0 && budget == budget0 - rounds
      invariant Hangs(b, r1, r2, i1, i2, 12 + 8 * rounds) && Cost(b, r1, r2, rounds)
      decreases k
    {
      decided, gt := EightCached(i1, i2, block, quadrant, b, r1, r2, 12 + 8 * rounds);
      if decided { return; }
      i1, i2 := i1 + 8, i2 + 8;
      HangsFolded(b, r1, r2, i1, i2, 20 + 8 * rounds);
      if i1 >= nblock { i1 := i1 - nblock; }
      if i2 >= nblock { i2 := i2 - nblock; }
      k := k - 8;
      budget := budget - 1;
      rounds := rounds + 1;
      if k < 0 { break; }
    }
    return false, budget;
  }
}
