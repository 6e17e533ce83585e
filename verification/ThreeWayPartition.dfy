/** The split-end three-way partition that both quicksorts of blocksort.c perform on an
    array of pointers: pointers are compared through a key, equal keys are first parked at
    the two ends and then swapped into the middle. */
module ThreeWayPartition {
  import opened Rearrangement

  /** The key of pointer x; pointers outside the table never occur in a sorted stretch. */
  function Key(key: seq<int>, x: int): int {
    if 0 <= x < |key| then key[x] else 0
  }

  ghost predicate Pointers(s: seq<int>, n: nat, lo: int, hi: int) {
    0 <= lo && hi < |s| && forall k :: lo <= k <= hi ==> 0 <= s[k] < n
  }

  /** Positions lo..hi while partitioning:
      [= med | < med | unknown | > med | = med] */
  ghost predicate Zones(s: seq<int>, key: seq<int>, med: int, lo: int, ltLo: int, unLo: int, unHi: int, gtHi: int,
                        hi: int)
  {
    && 0 <= lo <= ltLo <= unLo <= unHi + 1
    && unHi <= gtHi <= hi < |s|
    && (forall k :: lo <= k < ltLo ==> Key(key, s[k]) == med)
    && (forall k :: ltLo <= k < unLo ==> Key(key, s[k]) < med)
    && (forall k :: unHi < k <= gtHi ==> Key(key, s[k]) > med)
    && (forall k :: gtHi < k <= hi ==> Key(key, s[k]) == med)
  }

  method Swap(a: array<int>, i: int, j: int)
    requires 0 <= i < a.Length && 0 <= j < a.Length
    modifies a
    ensures a[..] == old(a[..])[i := old(a[j])][j := old(a[i])]
    ensures multiset(a[..]) == multiset(old(a[..]))
  {
    a[i], a[j] := a[j], a[i];
  }

  /** An element equal to med is parked at the lower end. */
  method ParkLow(a: array<int>, key: seq<int>, med: int, lo: int, ltLo: int, unLo: int, unHi: int, gtHi: int, hi: int,
                 ghost s0: seq<int>)
    requires Rearranged(s0, a[..], lo, hi + 1) && Pointers(a[..], |key|, lo, hi)
    requires Zones(a[..], key, med, lo, ltLo, unLo, unHi, gtHi, hi) && unLo <= unHi && Key(key, a[unLo]) == med
    modifies a
    ensures Rearranged(s0, a[..], lo, hi + 1) && Pointers(a[..], |key|, lo, hi)
    ensures Zones(a[..], key, med, lo, ltLo + 1, unLo + 1, unHi, gtHi, hi)
  {
    Swap(a, unLo, ltLo);
  }

  /** And at the upper end. */
  method ParkHigh(a: array<int>, key: seq<int>, med: int, lo: int, ltLo: int, unLo: int, unHi: int, gtHi: int,
                  hi: int, ghost s0: seq<int>)
    requires Rearranged(s0, a[..], lo, hi + 1) && Pointers(a[..], |key|, lo, hi)
    requires Zones(a[..], key, med, lo, ltLo, unLo, unHi, gtHi, hi) && unLo < unHi && Key(key, a[unHi]) == med
    modifies a
    ensures Rearranged(s0, a[..], lo, hi + 1) && Pointers(a[..], |key|, lo, hi)
    ensures Zones(a[..], key, med, lo, ltLo, unLo, unHi - 1, gtHi - 1, hi) && a[unLo] == old(a[unLo])
  {
    Swap(a, unHi, gtHi);
  }

  method ScanUp(a: array<int>, key: seq<int>, med: int, lo: int, ltLo0: int, unLo0: int, unHi: int, gtHi: int,
                hi: int)
    returns (ltLo: int, unLo: int)
    requires Pointers(a[..], |key|, lo, hi)
    requires Zones(a[..], key, med, lo, ltLo0, unLo0, unHi, gtHi, hi)
    modifies a
    ensures Rearranged(old(a[..]), a[..], lo, hi + 1) && Pointers(a[..], |key|, lo, hi)
    ensures Zones(a[..], key, med, lo, ltLo, unLo, unHi, gtHi, hi) && unLo0 <= unLo
    ensures unLo <= unHi ==> Key(key, a[unLo]) > med
  {
    ltLo, unLo := ltLo0, unLo0;
    while unLo <= unHi
      invariant Rearranged(old(a[..]), a[..], lo, hi + 1) && Pointers(a[..], |key|, lo, hi)
      invariant Zones(a[..], key, med, lo, ltLo, unLo, unHi, gtHi, hi) && unLo0 <= unLo
    {
      var n := key[a[unLo]] - med;
      if n == 0 {
        ParkLow(a, key, med, lo, ltLo, unLo, unHi, gtHi, hi, old(a[..]));
        ltLo, unLo := ltLo + 1, unLo + 1;
        continue;
      }
      if n > 0 { break; }
      unLo := unLo + 1;
    }
  }

  method ScanDown(a: array<int>, key: seq<int>, med: int, lo: int, ltLo: int, unLo: int, unHi0: int, gtHi0: int,
                  hi: int)
    returns (unHi: int, gtHi: int)
    requires Pointers(a[..], |key|, lo, hi)
    requires Zones(a[..], key, med, lo, ltLo, unLo, unHi0, gtHi0, hi)
    requires unLo <= unHi0 ==> Key(key, a[unLo]) > med
    modifies a
    ensures Rearranged(old(a[..]), a[..], lo, hi + 1) && Pointers(a[..], |key|, lo, hi)
    ensures Zones(a[..], key, med, lo, ltLo, unLo, unHi, gtHi, hi) && unHi <= unHi0
    ensures unLo <= unHi ==> unLo < unHi && Key(key, a[unHi]) < med
    ensures unLo <= unHi ==> Key(key, a[unLo]) > med
  {
    unHi, gtHi := unHi0, gtHi0;
    while unLo <= unHi
      invariant Rearranged(old(a[..]), a[..], lo, hi + 1) && Pointers(a[..], |key|, lo, hi)
      invariant Zones(a[..], key, med, lo, ltLo, unLo, unHi, gtHi, hi) && unHi <= unHi0
      invariant unLo <= unHi ==> Key(key, a[unLo]) > med
    {
      var n := key[a[unHi]] - med;
      if n == 0 {
        ParkHigh(a, key, med, lo, ltLo, unLo, unHi, gtHi, hi, old(a[..]));
        unHi, gtHi := unHi - 1, gtHi - 1;
        continue;
      }
      if n < 0 { break; }
      unHi := unHi - 1;
    }
  }

  /** Swap the n elements from p1 with the n elements from p2; the stretches do not overlap. */
  method VectorSwap(a: array<int>, p1: int, p2: int, n: int)
    requires 0 <= n && 0 <= p1 && p1 + n <= p2 && p2 + n <= a.Length
    modifies a
    ensures multiset(a[..]) == multiset(old(a[..]))
    ensures forall k :: p1 <= k < p1 + n ==> a[k] == old(a[k - p1 + p2])
    ensures forall k :: p2 <= k < p2 + n ==> a[k] == old(a[k - p2 + p1])
    ensures forall k :: 0 <= k < a.Length && !(p1 <= k < p1 + n) && !(p2 <= k < p2 + n) ==> a[k] == old(a[k])
  {
    var yyn, yyp1, yyp2 := n, p1, p2;
    while yyn > 0
      invariant 0 <= yyn <= n && yyp1 == p1 + (n - yyn) && yyp2 == p2 + (n - yyn)
      invariant multiset(a[..]) == multiset(old(a[..]))
      invariant forall k :: p1 <= k < yyp1 ==> a[k] == old(a[k - p1 + p2])
      invariant forall k :: p2 <= k < yyp2 ==> a[k] == old(a[k - p2 + p1])
      invariant forall k :: 0 <= k < a.Length && !(p1 <= k < yyp1) && !(p2 <= k < yyp2) ==> a[k] == old(a[k])
    {
      Swap(a, yyp1, yyp2);
      yyp1, yyp2, yyn := yyp1 + 1, yyp2 + 1, yyn - 1;
    }
  }

  /** All of lo..hi, in the final order: lo..n below med, then equal to it, then m..hi above. */
  ghost predicate Split(s: seq<int>, key: seq<int>, med: int, lo: int, n: int, m: int, hi: int)
  {
    && 0 <= lo <= n + 1 < m <= hi + 1 <= |s|
    && (forall k :: lo <= k <= n ==> Key(key, s[k]) < med)
    && (forall k :: n < k < m ==> Key(key, s[k]) == med)
    && (forall k :: m <= k <= hi ==> Key(key, s[k]) > med)
  }

  /** Swap the run of equal keys at the low end up to the middle. */
  method GatherLow(a: array<int>, key: seq<int>, med: int, lo: int, ltLo: int, unLo: int) returns (n: int)
    requires 0 <= lo <= ltLo <= unLo <= a.Length
    requires forall k :: lo <= k < ltLo ==> Key(key, a[k]) == med
    requires forall k :: ltLo <= k < unLo ==> Key(key, a[k]) < med
    modifies a
    ensures Rearranged(old(a[..]), a[..], lo, unLo)
    ensures n == lo + unLo - ltLo - 1
    ensures forall k :: lo <= k <= n ==> Key(key, a[k]) < med
    ensures forall k :: n < k < unLo ==> Key(key, a[k]) == med
  {
    var c := if ltLo - lo < unLo - ltLo then ltLo - lo else unLo - ltLo;
    VectorSwap(a, lo, unLo - c, c);
    n := lo + unLo - ltLo - 1;
  }

  /** Swap the run of equal keys at the high end down to the middle. */
  method GatherHigh(a: array<int>, key: seq<int>, med: int, unLo: int, gtHi: int, hi: int) returns (m: int)
    requires 0 <= unLo <= gtHi + 1 <= hi + 1 <= a.Length
    requires forall k :: unLo <= k <= gtHi ==> Key(key, a[k]) > med
    requires forall k :: gtHi < k <= hi ==> Key(key, a[k]) == med
    modifies a
    ensures Rearranged(old(a[..]), a[..], unLo, hi + 1)
    ensures m == hi - (gtHi - (unLo - 1)) + 1
    ensures forall k :: unLo <= k < m ==> Key(key, a[k]) == med
    ensures forall k :: m <= k <= hi ==> Key(key, a[k]) > med
  {
    var d := if hi - gtHi < gtHi - (unLo - 1) then hi - gtHi else gtHi - (unLo - 1);
    VectorSwap(a, unLo, hi - d + 1, d);
    m := hi - (gtHi - (unLo - 1)) + 1;
  }

  /** Exchange the two elements the scans stopped at: both end up on their own side. */
  method SwapStopped(a: array<int>, key: seq<int>, med: int, lo: int, ltLo: int, unLo: int, unHi: int, gtHi: int,
                     hi: int)
    requires Pointers(a[..], |key|, lo, hi)
    requires Zones(a[..], key, med, lo, ltLo, unLo, unHi, gtHi, hi) && unLo < unHi
    requires Key(key, a[unLo]) > med > Key(key, a[unHi])
    modifies a
    ensures Rearranged(old(a[..]), a[..], lo, hi + 1) && Pointers(a[..], |key|, lo, hi)
    ensures Zones(a[..], key, med, lo, ltLo, unLo + 1, unHi - 1, gtHi, hi)
  {
    Swap(a, unLo, unHi);
  }

  /** Run the two scans towards each other until they cross. */
  method Sweep(a: array<int>, key: seq<int>, med: int, lo: int, hi: int) returns (ltLo: int, unLo: int, gtHi: int)
    requires Pointers(a[..], |key|, lo, hi) && lo <= hi
    modifies a
    ensures Rearranged(old(a[..]), a[..], lo, hi + 1)
    ensures Zones(a[..], key, med, lo, ltLo, unLo, unLo - 1, gtHi, hi)
  {
    var unHi;
    unLo, ltLo, unHi, gtHi := lo, lo, hi, hi;
    while true
      invariant Rearranged(old(a[..]), a[..], lo, hi + 1) && Pointers(a[..], |key|, lo, hi)
      invariant Zones(a[..], key, med, lo, ltLo, unLo, unHi, gtHi, hi)
      decreases unHi - unLo
    {
      ltLo, unLo := ScanUp(a, key, med, lo, ltLo, unLo, unHi, gtHi, hi);
      unHi, gtHi := ScanDown(a, key, med, lo, ltLo, unLo, unHi, gtHi, hi);
      if unLo > unHi { break; }
      SwapStopped(a, key, med, lo, ltLo, unLo, unHi, gtHi, hi);
      unLo, unHi := unLo + 1, unHi - 1;
    }
  }

  /** Partition lo..hi about med, which is the key of some pointer in it. */
  method Partition(a: array<int>, key: seq<int>, med: int, lo: int, hi: int) returns (n: int, m: int, allEqual: bool)
    requires Pointers(a[..], |key|, lo, hi)
    requires exists k :: lo <= k <= hi && Key(key, a[k]) == med
    modifies a
    ensures Rearranged(old(a[..]), a[..], lo, hi + 1)
    ensures allEqual ==> forall k :: lo <= k <= hi ==> Key(key, a[k]) == med
    ensures !allEqual ==> Split(a[..], key, med, lo, n, m, hi)
  {
    var ltLo, unLo, gtHi := Sweep(a, key, med, lo, hi);
    if gtHi < ltLo {
      return lo, hi, true;
    }
    if ltLo == lo && gtHi == hi {
      RearrangedKeeps(a[..], old(a[..]), lo, hi + 1, x => Key(key, x) != med);
    }
    ghost var swept := a[..];
    n := GatherLow(a, key, med, lo, ltLo, unLo);
    ghost var low := a[..];
    m := GatherHigh(a, key, med, unLo, gtHi, hi);
    RearrangedWider(swept, low, lo, unLo, lo, hi + 1);
    RearrangedWider(low, a[..], unLo, hi + 1, lo, hi + 1);
    allEqual := false;
  }
}
