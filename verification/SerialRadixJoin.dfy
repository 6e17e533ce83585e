/** RJ of parallel_radix_join.c: the single-threaded radix join. Two stable clusterings, low
    bits first, leave each relation stably sorted by all radix bits; running offsets then cut
    the clusters out, and equal clusters are joined. */
module SerialRadixJoin {
  import opened BucketChaining
  import opened Counting
  import opened JoinSpec
  import opened KeyBits
  import opened RadixCluster
  import opened StablePartition
  import opened TwoPasses

  /** Low bits first and high bits second comes to all bits at once. */
  lemma TwoClusterings(s: Relation, low: nat, high: nat)
    ensures Partition(Partition(s, ByKey(Bits(0, low)), Pow2(low)), ByKey(Bits(low, high)), Pow2(high)) ==
            Partition(s, ByKey(Bits(0, low + high)), Pow2(low + high))
  {
    var lo, hi := ByKey(Bits(0, low)), ByKey(Bits(low, high));
    forall i | 0 <= i < |s| ensures 0 <= lo(s[i]) < Pow2(low) { BitsRange(0, low, s[i].key); }
    LsdIsPartition(s, hi, lo, Pow2(low), Pow2(high));
    Pow2Sum(high, low);
    forall i | 0 <= i < |s|
      ensures Both(hi, lo, Pow2(low))(s[i]) == ByKey(Bits(0, low + high))(s[i])
    {
      BitsJoin(low, high, s[i].key);
    }
    PartitionSame(s, Both(hi, lo, Pow2(low)), ByKey(Bits(0, low + high)), Pow2(low + high));
  }

  /** The multi-pass partitioning of one relation, with one or two passes. Returns the array
      that holds the result. */
  method ClusterRelation(rel: array<Tuple>, outRel: array<Tuple>, radixBits: nat, passes: nat)
    returns (result: array<Tuple>)
    requires rel.Length == outRel.Length && rel != outRel && (passes == 1 || passes == 2)
    modifies rel, outRel
    ensures result == if passes == 1 then outRel else rel
    ensures result[..] == Partition(old(rel[..]), ByKey(Bits(0, radixBits)), Pow2(radixBits))
    ensures StableSort(old(rel[..]), result[..], ByKey(Bits(0, radixBits)))
  {
    hide StableSort;
    forall t: Tuple ensures 0 <= ByKey(Bits(0, radixBits))(t) < Pow2(radixBits) { BitsRange(0, radixBits, t.key); }
    if passes == 1 {
      ClusterNoPadding(outRel, rel, 0, radixBits);
      result := outRel;
    } else {
      var low := radixBits / 2;
      ClusterNoPadding(outRel, rel, 0, low);
      ClusterNoPadding(rel, outRel, low, radixBits - low);
      TwoClusterings(old(rel[..]), low, radixBits - low);
      result := rel;
    }
    StableSortIsPartition(old(rel[..]), result[..], ByKey(Bits(0, radixBits)), Pow2(radixBits));
  }

  /** The counts of a partition are the lengths of its clusters. */
  lemma ClusterCut(s: Relation, p: Relation, f: Tuple -> int, k: nat, h: nat, start: nat)
    requires p == Partition(s, f, k) && h < k && DigitsBelow(s, f, k)
    requires start == |Partition(s, f, h)|
    ensures Count(Digits(p, f), h) == |Filter(s, f, h)|
    ensures start + |Filter(s, f, h)| == |Partition(s, f, h + 1)| <= |p|
    ensures p[start..start + |Filter(s, f, h)|] == Filter(s, f, h)
  {
    hide Digits, Filter, Count;
    FilterLength(p, f, h);
    PartitionIsStable(s, f, k, h);
    PartitionPrefix(s, f, h + 1, k);
    assert p[..|Partition(s, f, h + 1)|] == Partition(s, f, h + 1) == Partition(s, f, h) + Filter(s, f, h);
  }

  /** A pair of clusters is joined only if neither is empty. */
  method JoinPair(tmpR: Relation, tmpS: Relation, radixBits: nat) returns (found: nat)
    requires radixBits <= 32
    ensures found == Matches(tmpR, tmpS)
  {
    if |tmpR| > 0 && |tmpS| > 0 {
      found := BucketChainingJoin(tmpR, tmpS, radixBits);
    } else {
      EmptyJoin(tmpR, tmpS);
      found := 0;
    }
  }

  lemma Nothing(r0: Relation, s0: Relation, f: Tuple -> int)
    ensures |Partition(r0, f, 0)| == |Partition(s0, f, 0)| == PartitionedMatches(r0, s0, f, 0) == 0
  {
  }

  lemma OneMore(r0: Relation, s0: Relation, f: Tuple -> int, i: nat)
    ensures PartitionedMatches(r0, s0, f, i + 1) ==
            PartitionedMatches(r0, s0, f, i) + Matches(Filter(r0, f, i), Filter(s0, f, i))
  {
  }

  /** Walk the clusters of both relations in step and add up their joins. */
  method JoinClusters(R: array<Tuple>, S: array<Tuple>, radixBits: nat, ghost r0: Relation, ghost s0: Relation)
    returns (result: nat)
    requires radixBits <= 32
    requires R[..] == Partition(r0, ByKey(Bits(0, radixBits)), Pow2(radixBits))
    requires S[..] == Partition(s0, ByKey(Bits(0, radixBits)), Pow2(radixBits))
    ensures result == Matches(r0, s0)
  {
    hide Digits, Filter, Count, Matches, Partition, PartitionedMatches, Pow2, Bits;
    ghost var f, k := ByKey(Bits(0, radixBits)), Pow2(radixBits);
    forall t: Tuple ensures 0 <= f(t) < k { BitsRange(0, radixBits, t.key); }
    var rCount := CountDigits(R, 0, R.Length, 0, radixBits);
    var sCount := CountDigits(S, 0, S.Length, 0, radixBits);
    assert R[0..R.Length] == R[..] && S[0..S.Length] == S[..];
    ghost var rp, sp, rc, sc := R[..], S[..], rCount[..], sCount[..];
    result := 0;
    var r, s, i := 0, 0, 0;
    Nothing(r0, s0, f);
    while i < Pow2(radixBits)
      invariant 0 <= i <= k && r == |Partition(r0, f, i)| && s == |Partition(s0, f, i)|
      invariant result == PartitionedMatches(r0, s0, f, i)
      invariant R[..] == rp && S[..] == sp && rCount[..] == rc && sCount[..] == sc
    {
      ClusterCut(r0, rp, f, k, i, r);
      ClusterCut(s0, sp, f, k, i, s);
      assert rc[i] == |Filter(r0, f, i)| && sc[i] == |Filter(s0, f, i)|;
      var tmpR, tmpS := R[r..r + rCount[i]], S[s..s + sCount[i]];
      assert tmpR == rp[r..r + rc[i]] && tmpS == sp[s..s + sc[i]];
      var found := JoinPair(tmpR, tmpS, radixBits);
      result := result + found;
      OneMore(r0, s0, f, i);
      r, s := r + rCount[i], s + sCount[i];
      i := i + 1;
    }
    PartitionedJoin(r0, s0, Bits(0, radixBits), k);
  }

  /** The whole join: its result is the number of pairs with equal keys. */
  method RJ(relR: array<Tuple>, relS: array<Tuple>, outRelR: array<Tuple>, outRelS: array<Tuple>, radixBits: nat,
            passes: nat)
    returns (result: nat)
    requires radixBits <= 32 && (passes == 1 || passes == 2)
    requires relR.Length == outRelR.Length && relS.Length == outRelS.Length
    requires relR != relS && relR != outRelR && relR != outRelS && relS != outRelR && relS != outRelS &&
             outRelR != outRelS
    modifies relR, relS, outRelR, outRelS
    ensures result == Matches(old(relR[..]), old(relS[..]))
  {
    var R := ClusterRelation(relR, outRelR, radixBits, passes);
    var S := ClusterRelation(relS, outRelS, radixBits, passes);
    result := JoinClusters(R, S, radixBits, old(relR[..]), old(relS[..]));
  }
}
