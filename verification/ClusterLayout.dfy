/** Where the clusters of both partitioning passes lie: a cluster of the first pass is followed
    by a gap that has room for the gaps the second pass puts between its own clusters. */
module ClusterLayout {
  import opened Counting
  import opened JoinSpec
  import opened KeyBits
  import opened StablePartition

  /** Radix bits of the two passes, and the gap between clusters of the second. */
  datatype Layout = Layout(bits1: nat, bits2: nat, small: nat)

  function First(l: Layout): Tuple -> int {
    ByKey(Bits(0, l.bits1))
  }

  function Second(l: Layout): Tuple -> int {
    ByKey(Bits(l.bits1, l.bits2))
  }

  /** PADDING_TUPLES. */
  function Gap(l: Layout): nat {
    l.small * (Pow2(l.bits2) + 1)
  }

  /** Start of cluster c when rel is clustered from base on with gaps of pad places. */
  ghost function ClusterStart(rel: Relation, f: Tuple -> int, base: int, pad: int, c: int): int {
    base + Below(Digits(rel, f), c) + c * pad
  }

  lemma ClusterFollows(rel: Relation, f: Tuple -> int, base: int, pad: int, c: int)
    ensures ClusterStart(rel, f, base, pad, c) + |Filter(rel, f, c)| + pad == ClusterStart(rel, f, base, pad, c + 1)
  {
    BelowNext(Digits(rel, f), c);
    FilterLength(rel, f, c);
    assert c * pad + pad == (c + 1) * pad;
  }

  lemma {:induction false} ClustersAscend(rel: Relation, f: Tuple -> int, base: int, pad: nat, c: int, k: int)
    requires c <= k
    ensures ClusterStart(rel, f, base, pad, c) <= ClusterStart(rel, f, base, pad, k)
    ensures c < k ==>
            ClusterStart(rel, f, base, pad, c) + |Filter(rel, f, c)| + pad <= ClusterStart(rel, f, base, pad, k)
    decreases k - c
  {
    hide ClusterStart, Filter;
    if c < k {
      ClusterFollows(rel, f, base, pad, c);
      ClustersAscend(rel, f, base, pad, c + 1, k);
    }
  }

  lemma ClusterEnds(rel: Relation, f: Tuple -> int, base: int, pad: int, k: nat)
    requires DigitsBelow(rel, f, k)
    ensures ClusterStart(rel, f, base, pad, 0) == base
    ensures ClusterStart(rel, f, base, pad, k) == base + |rel| + k * pad
  {
    hide Digits, Below;
    BelowExtremes(Digits(rel, f), 0, k);
    assert 0 * pad == 0;
  }

  lemma KeyBitsInRange(rel: Relation, R: nat, D: nat)
    ensures Nonnegative(Digits(rel, ByKey(Bits(R, D)))) && DigitsBelow(rel, ByKey(Bits(R, D)), Pow2(D))
  {
    forall i | 0 <= i < |rel| ensures 0 <= ByKey(Bits(R, D))(rel[i]) < Pow2(D) { BitsRange(R, D, rel[i].key); }
  }

  // ----- the clusters of the two passes -----

  ghost function Part(rel: Relation, l: Layout, c: int): Relation {
    Filter(rel, First(l), c)
  }

  ghost function PartStart(rel: Relation, l: Layout, c: int): int {
    ClusterStart(rel, First(l), 0, Gap(l), c)
  }

  ghost function Sub(rel: Relation, l: Layout, c: int, i: int): Relation {
    Filter(Part(rel, l, c), Second(l), i)
  }

  ghost function SubStart(rel: Relation, l: Layout, c: int, i: int): int {
    ClusterStart(Part(rel, l, c), Second(l), PartStart(rel, l, c), l.small, i)
  }

  /** The regions of the first pass, with the gaps behind them, fill the array one after the
      other. */
  lemma PartsApart(rel: Relation, l: Layout, c: nat)
    requires c < Pow2(l.bits1)
    ensures 0 <= PartStart(rel, l, c)
    ensures PartStart(rel, l, c) + |Part(rel, l, c)| + Gap(l) <= |rel| + Pow2(l.bits1) * Gap(l)
    ensures forall k :: c < k ==> PartStart(rel, l, c) + |Part(rel, l, c)| + Gap(l) <= PartStart(rel, l, k)
  {
    hide ClusterStart, Filter, Digits;
    KeyBitsInRange(rel, 0, l.bits1);
    ClusterEnds(rel, First(l), 0, Gap(l), Pow2(l.bits1));
    ClustersAscend(rel, First(l), 0, Gap(l), 0, c);
    forall k | c < k ensures PartStart(rel, l, c) + |Part(rel, l, c)| + Gap(l) <= PartStart(rel, l, k) {
      ClustersAscend(rel, First(l), 0, Gap(l), c, k);
    }
    assert PartStart(rel, l, c) + |Part(rel, l, c)| + Gap(l) <= PartStart(rel, l, Pow2(l.bits1));
  }

  /** Clusters of the second pass stay inside their region, one after the other. */
  lemma SubsInside(rel: Relation, l: Layout, c: nat, i: nat)
    requires c < Pow2(l.bits1) && i < Pow2(l.bits2)
    ensures PartStart(rel, l, c) <= SubStart(rel, l, c, i)
    ensures SubStart(rel, l, c, i) + |Sub(rel, l, c, i)| <=
            PartStart(rel, l, c) + |Part(rel, l, c)| + Pow2(l.bits2) * l.small
    ensures forall k :: i < k ==> SubStart(rel, l, c, i) + |Sub(rel, l, c, i)| <= SubStart(rel, l, c, k)
  {
    hide ClusterStart, Filter, Digits;
    var part, base := Part(rel, l, c), PartStart(rel, l, c);
    KeyBitsInRange(part, l.bits1, l.bits2);
    ClusterEnds(part, Second(l), base, l.small, Pow2(l.bits2));
    ClustersAscend(part, Second(l), base, l.small, 0, i);
    forall k | i < k ensures SubStart(rel, l, c, i) + |Sub(rel, l, c, i)| <= SubStart(rel, l, c, k) {
      ClustersAscend(part, Second(l), base, l.small, i, k);
    }
    assert SubStart(rel, l, c, i) + |Sub(rel, l, c, i)| <= SubStart(rel, l, c, Pow2(l.bits2));
  }

  lemma GapHoldsSmallGaps(l: Layout)
    ensures Gap(l) == Pow2(l.bits2) * l.small + l.small
  {
  }

  /** No two clusters of the second pass overlap, whether they come from the same cluster of
      the first pass or not: the padding is wide enough. */
  lemma RegionsDisjoint(rel: Relation, l: Layout, c: nat, i: nat, c': nat, i': nat)
    requires c < Pow2(l.bits1) && i < Pow2(l.bits2) && c' < Pow2(l.bits1) && i' < Pow2(l.bits2)
    requires c < c' || (c == c' && i < i')
    ensures SubStart(rel, l, c, i) + |Sub(rel, l, c, i)| <= SubStart(rel, l, c', i')
  {
    hide PartStart, SubStart, Part, Sub, Pow2, Gap;
    SubsInside(rel, l, c, i);
    SubsInside(rel, l, c', i');
    PartsApart(rel, l, c);
    GapHoldsSmallGaps(l);
  }
}
