/** serial_radix_partition of parallel_radix_join.c: what one thread does with one task of the
    second pass, one copied tuple at a time. */
module SerialPartition {
  import opened ClusterLayout
  import opened Counting
  import opened JoinSpec
  import opened KeyBits
  import opened RadixCluster
  import opened RadixTasks
  import opened StablePartition
  import opened TaskQueue

  ghost predicate Holds(out: Relation, start: int, rel: Relation) {
    0 <= start && start + |rel| <= |out| && out[start..start + |rel|] == rel
  }

  /** Every cluster of the second pass within cluster c of the first is where it belongs. */
  ghost predicate SubsInPlace(out: Relation, rel: Relation, l: Layout, c: nat) {
    forall i {:trigger Sub(rel, l, c, i)} ::
      0 <= i < Pow2(l.bits2) ==> Holds(out, SubStart(rel, l, c, i), Sub(rel, l, c, i))
  }

  /** Every cluster of the first pass is where it belongs. */
  ghost predicate PartsInPlace(out: Relation, rel: Relation, l: Layout) {
    forall c {:trigger Part(rel, l, c)} :: 0 <= c < Pow2(l.bits1) ==> Holds(out, PartStart(rel, l, c), Part(rel, l, c))
  }

  /** Where the region of cluster c ends: behind the gaps the second pass leaves. */
  ghost function RegionEnd(rel: Relation, l: Layout, c: nat): int {
    PartStart(rel, l, c) + |Part(rel, l, c)| + Pow2(l.bits2) * l.small
  }

  /** out and out' differ at most in the region of cluster c. */
  ghost predicate OnlyRegion(out: Relation, out': Relation, rel: Relation, l: Layout, c: nat) {
    && |out| == |out'|
    && forall q :: 0 <= q < |out| && (q < PartStart(rel, l, c) || RegionEnd(rel, l, c) <= q) ==> out'[q] == out[q]
  }

  lemma HoldsStill(out: Relation, out': Relation, start: int, rel: Relation, lo: int, hi: int)
    requires Holds(out, start, rel) && |out'| == |out| && (start + |rel| <= lo || hi <= start)
    requires forall q :: 0 <= q < |out| && (q < lo || hi <= q) ==> out'[q] == out[q]
    ensures Holds(out', start, rel)
  {
    forall k | 0 <= k < |rel| ensures out'[start + k] == rel[k] { assert out[start..start + |rel|][k] == rel[k]; }
  }

  /** Working on one cluster does not disturb another. */
  lemma OthersStay(out: Relation, out': Relation, rel: Relation, l: Layout, c: nat, k: nat)
    requires c < Pow2(l.bits1) && k < Pow2(l.bits1) && c != k
    requires OnlyRegion(out, out', rel, l, c) && SubsInPlace(out, rel, l, k)
    ensures SubsInPlace(out', rel, l, k)
  {
    hide PartStart, SubStart, Part, Sub, Pow2, Gap, Holds;
    GapHoldsSmallGaps(l);
    PartsApart(rel, l, c);
    PartsApart(rel, l, k);
    forall i {:trigger Sub(rel, l, k, i)} | 0 <= i < Pow2(l.bits2)
      ensures Holds(out', SubStart(rel, l, k, i), Sub(rel, l, k, i))
    {
      SubsInside(rel, l, k, i);
      HoldsStill(out, out', SubStart(rel, l, k, i), Sub(rel, l, k, i), PartStart(rel, l, c), RegionEnd(rel, l, c));
    }
  }

  /** What the scatter leaves, cluster by cluster. */
  lemma ClusteredHolds(out: Relation, rel: Relation, l: Layout, c: nat)
    requires c < Pow2(l.bits1) && |rel| + Pow2(l.bits1) * Gap(l) <= |out|
    requires Placed(Part(rel, l, c), out, Second(l), PartStart(rel, l, c), l.small)
    ensures SubsInPlace(out, rel, l, c)
  {
    hide PartStart, Part, Pow2, Gap, Placed, Digits, Filter;
    var part := Part(rel, l, c);
    KeyBitsInRange(part, l.bits1, l.bits2);
    PartsApart(rel, l, c);
    GapHoldsSmallGaps(l);
    forall i {:trigger Sub(rel, l, c, i)} | 0 <= i < Pow2(l.bits2)
      ensures Holds(out, SubStart(rel, l, c, i), Sub(rel, l, c, i))
    {
      SubsInside(rel, l, c, i);
      PlacedCluster(part, out, Second(l), PartStart(rel, l, c), l.small, i);
    }
  }

  /** The same for the first pass. */
  lemma PartitionedHolds(out: Relation, rel: Relation, l: Layout)
    requires |rel| + Pow2(l.bits1) * Gap(l) <= |out| && Placed(rel, out, First(l), 0, Gap(l))
    ensures PartsInPlace(out, rel, l)
  {
    hide Pow2, Gap, Placed, Digits, Filter;
    KeyBitsInRange(rel, 0, l.bits1);
    forall c {:trigger Part(rel, l, c)} | 0 <= c < Pow2(l.bits1)
      ensures Holds(out, PartStart(rel, l, c), Part(rel, l, c))
    {
      PartsApart(rel, l, c);
      PlacedCluster(rel, out, First(l), 0, Gap(l), c);
    }
  }

  // ----- clustering one region, tuple by tuple -----

  ghost function PartDigits(rel: Relation, l: Layout, c: nat): (d: seq<int>)
    ensures |d| == |Part(rel, l, c)|
  {
    Digits(Part(rel, l, c), Second(l))
  }

  /** Where the tuples of cluster c go. */
  ghost function PartPlaces(rel: Relation, l: Layout, c: nat): (pl: seq<int>)
    ensures |pl| == |Part(rel, l, c)|
  {
    Places(PartDigits(rel, l, c), PartStart(rel, l, c), l.small)
  }

  ghost function SubStarts(rel: Relation, l: Layout, c: nat): (start: seq<int>)
    ensures |start| == Pow2(l.bits2) && forall i :: 0 <= i < |start| ==> start[i] == SubStart(rel, l, c, i)
  {
    seq(Pow2(l.bits2), i requires 0 <= i < Pow2(l.bits2) => SubStart(rel, l, c, i))
  }

  /** Cluster c while it is being scattered: its first i tuples are at their places, and every
      cursor stands behind the tuples of its digit among them. */
  ghost predicate Scattering(out: Relation, rel: Relation, l: Layout, c: nat, dst: seq<int>, i: nat) {
    && ScatteredUpTo(Part(rel, l, c), PartPlaces(rel, l, c), out, out, PartStart(rel, l, c), RegionEnd(rel, l, c), i)
    && Cursors(dst, SubStarts(rel, l, c), PartDigits(rel, l, c), i)
  }

  /** hist holds the sizes of the clusters cluster c is divided into. */
  ghost predicate SubSizes(hist: seq<int>, rel: Relation, l: Layout, c: nat) {
    |hist| == Pow2(l.bits2) && forall i :: 0 <= i < |hist| ==> hist[i] == |Sub(rel, l, c, i)|
  }

  lemma RegionFits(rel: Relation, l: Layout, c: nat, room: nat)
    requires c < Pow2(l.bits1) && |rel| + Pow2(l.bits1) * Gap(l) <= room
    ensures 0 <= PartStart(rel, l, c) && PartStart(rel, l, c) + |Part(rel, l, c)| <= RegionEnd(rel, l, c) <= room
  {
    hide PartStart, Part, Pow2, Gap;
    PartsApart(rel, l, c);
    GapHoldsSmallGaps(l);
  }

  lemma RegionTargets(rel: Relation, l: Layout, c: nat)
    ensures Targets(PartPlaces(rel, l, c), PartStart(rel, l, c), RegionEnd(rel, l, c))
    ensures Starts(SubStarts(rel, l, c), PartDigits(rel, l, c), PartStart(rel, l, c), l.small)
    ensures Nonnegative(PartDigits(rel, l, c))
    ensures forall i :: 0 <= i < |PartDigits(rel, l, c)| ==> 0 <= PartDigits(rel, l, c)[i] < Pow2(l.bits2)
  {
    hide Part, Places, Pow2, PartStart, Below;
    KeyBitsInRange(Part(rel, l, c), l.bits1, l.bits2);
    PlacesAreTargets(PartDigits(rel, l, c), PartStart(rel, l, c), l.small, Pow2(l.bits2));
  }

  /** Count the tuples of one region and set the cursors. */
  method CountRegion(inp: array<Tuple>, off: int, n: nat, l: Layout, ghost out: Relation, ghost rel: Relation,
                     ghost c: nat)
    returns (hist: seq<int>, dst: seq<int>)
    requires c < Pow2(l.bits1) && off == PartStart(rel, l, c) && n == |Part(rel, l, c)|
    requires |rel| + Pow2(l.bits1) * Gap(l) <= |out| && Holds(inp[..], off, Part(rel, l, c))
    ensures SubSizes(hist, rel, l, c) && Scattering(out, rel, l, c, dst, 0)
  {
    hide PartStart, Part, Pow2, Gap, Digits, Filter, Places, Count, Below;
    RegionTargets(rel, l, c);
    RegionFits(rel, l, c, |out|);
    assert inp[off..off + n] == Part(rel, l, c);
    var sizes := CountDigits(inp, off, n, l.bits1, l.bits2);
    forall i | 0 <= i < sizes.Length
      ensures sizes[i] == |Sub(rel, l, c, i)|
    {
      FilterLength(Part(rel, l, c), Second(l), i);
    }
    var starts := ClusterStarts(sizes, off, l.small, PartDigits(rel, l, c));
    hist, dst := sizes[..], starts[..];
    StartsAreSubStarts(rel, l, c, dst);
    CursorsBegin(dst, PartDigits(rel, l, c));
  }

  lemma StartsAreSubStarts(rel: Relation, l: Layout, c: nat, dst: seq<int>)
    requires |dst| == Pow2(l.bits2) && Starts(dst, PartDigits(rel, l, c), PartStart(rel, l, c), l.small)
    ensures dst == SubStarts(rel, l, c)
  {
    hide Part, PartStart, Pow2, Below, Digits;
  }

  /** One tuple is written to where its cursor stands. */
  lemma ScatteringStep(out: Relation, rel: Relation, l: Layout, c: nat, dst: seq<int>, i: nat, idx: int)
    requires Scattering(out, rel, l, c, dst, i) && i < |Part(rel, l, c)| && idx == Second(l)(Part(rel, l, c)[i])
    ensures 0 <= idx < |dst| && 0 <= dst[idx] < |out|
    ensures var out' := out[dst[idx] := Part(rel, l, c)[i]];
            Scattering(out', rel, l, c, dst[idx := dst[idx] + 1], i + 1) && OnlyRegion(out, out', rel, l, c)
  {
    hide PartStart, Part, Pow2, Places, Below, Count, Digits;
    RegionTargets(rel, l, c);
    var d, pl, s := PartDigits(rel, l, c), PartPlaces(rel, l, c), Part(rel, l, c);
    assert d[i] == idx by { DigitIs(s, Second(l), i); }
    CursorIsPlace(dst, SubStarts(rel, l, c), d, PartStart(rel, l, c), l.small, i);
    CursorStep(dst, SubStarts(rel, l, c), d, i);
    ScatterStep(s, pl, out, out, PartStart(rel, l, c), RegionEnd(rel, l, c), i);
    ScatteredSelf(s, pl, out, out[pl[i] := s[i]], PartStart(rel, l, c), RegionEnd(rel, l, c), i + 1);
  }

  lemma DigitIs(s: Relation, f: Tuple -> int, i: nat)
    requires i < |s|
    ensures Digits(s, f)[i] == f(s[i])
  {
  }

  lemma ScatteredSelf(s: Relation, pl: seq<int>, out0: Relation, out: Relation, lo: int, hi: int, n: nat)
    requires ScatteredUpTo(s, pl, out0, out, lo, hi, n)
    ensures ScatteredUpTo(s, pl, out, out, lo, hi, n)
  {
  }

  /** Scattering one cluster does not disturb the scattering of another. */
  lemma ScatteringStays(out: Relation, out': Relation, rel: Relation, l: Layout, c: nat, k: nat, dst: seq<int>, i: nat)
    requires c < Pow2(l.bits1) && k < Pow2(l.bits1) && c != k
    requires OnlyRegion(out, out', rel, l, c) && Scattering(out, rel, l, k, dst, i)
    ensures Scattering(out', rel, l, k, dst, i)
  {
    hide PartStart, Part, Pow2, Gap, PartPlaces, PartDigits, Cursors;
    RegionTargets(rel, l, k);
    PartsApart(rel, l, c);
    PartsApart(rel, l, k);
    GapHoldsSmallGaps(l);
  }

  lemma ScatteringDone(out: Relation, rel: Relation, l: Layout, c: nat, dst: seq<int>)
    requires c < Pow2(l.bits1) && |rel| + Pow2(l.bits1) * Gap(l) <= |out| &&
             Scattering(out, rel, l, c, dst, |Part(rel, l, c)|)
    ensures SubsInPlace(out, rel, l, c)
  {
    hide PartStart, Part, Pow2, Gap, Places, Digits, Cursors, SubsInPlace;
    ScatterDone(Part(rel, l, c), Second(l), PartDigits(rel, l, c), out, out, PartStart(rel, l, c), l.small,
        PartStart(rel, l, c), RegionEnd(rel, l, c));
    ClusteredHolds(out, rel, l, c);
  }

  /** Copy tuple i of a region. */
  method CopyTuple(inp: array<Tuple>, out: array<Tuple>, off: int, i: nat, l: Layout, dst: seq<int>,
                   ghost rel: Relation, ghost c: nat)
    returns (dst': seq<int>)
    requires inp != out && off == PartStart(rel, l, c) && i < |Part(rel, l, c)| && Holds(inp[..], off, Part(rel, l, c))
    requires Scattering(out[..], rel, l, c, dst, i)
    modifies out
    ensures Scattering(out[..], rel, l, c, dst', i + 1) && OnlyRegion(old(out[..]), out[..], rel, l, c)
  {
    hide PartStart, Part, Scattering, OnlyRegion;
    var t := inp[off + i];
    assert t == inp[..][off..off + |Part(rel, l, c)|][i];
    var idx := Bits(l.bits1, l.bits2)(t.key);
    ScatteringStep(out[..], rel, l, c, dst, i, idx);
    out[dst[idx]] := t;
    dst' := dst[idx := dst[idx] + 1];
  }

  lemma OffsetStep(rel: Relation, l: Layout, c: nat, i: nat)
    ensures SubStart(rel, l, c, i + 1) == SubStart(rel, l, c, i) + |Sub(rel, l, c, i)| + l.small
    ensures SubStart(rel, l, c, 0) == PartStart(rel, l, c)
  {
    ClusterFollows(Part(rel, l, c), Second(l), PartStart(rel, l, c), l.small, i);
    KeyBitsInRange(Part(rel, l, c), l.bits1, l.bits2);
    BelowNone(Digits(Part(rel, l, c), Second(l)));
  }

  /** The join tasks for the clusters with these sizes. */
  method MakeTasks(t: Task, outputR: seq<int>, outputS: seq<int>, l: Layout, ghost R: Relation, ghost S: Relation)
    returns (subs: seq<Task>)
    requires IsPartTask(R, S, l, t)
    requires SubSizes(outputR, R, l, t.cluster) && SubSizes(outputS, S, l, t.cluster)
    ensures subs == SubTasks(R, S, l, t.cluster, Pow2(l.bits2))
  {
    hide PartStart, Part, SubStart, Sub, Pow2;
    subs := [];
    var i, offsetR, offsetS := 0, 0, 0;
    OffsetStep(R, l, t.cluster, 0);
    OffsetStep(S, l, t.cluster, 0);
    while i < |outputR|
      invariant 0 <= i <= |outputR|
      invariant t.offR + offsetR + i * l.small == SubStart(R, l, t.cluster, i)
      invariant t.offS + offsetS + i * l.small == SubStart(S, l, t.cluster, i)
      invariant subs == SubTasks(R, S, l, t.cluster, i)
    {
      OffsetStep(R, l, t.cluster, i);
      OffsetStep(S, l, t.cluster, i);
      assert (i + 1) * l.small == i * l.small + l.small;
      if outputR[i] > 0 && outputS[i] > 0 {
        subs := subs +
            [Task(t.offR + offsetR + i * l.small, outputR[i], t.offS + offsetS +
              i * l.small, outputS[i], t.cluster, i)];
      }
      offsetR, offsetS := offsetR + outputR[i], offsetS + outputS[i];
      i := i + 1;
    }
  }
}
