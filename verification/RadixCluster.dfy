/** radix_cluster and radix_cluster_nopadding of parallel_radix_join.c: histogram, running
    offsets, scatter. */
module RadixCluster {
  import opened Counting
  import opened JoinSpec
  import opened KeyBits
  import opened StablePartition

  /** hist holds the number of occurrences of every digit. */
  ghost predicate Sizes(hist: seq<int>, d: seq<int>) {
    forall c :: 0 <= c < |hist| ==> hist[c] == Count(d, c)
  }

  /** Count the tuples of every cluster. */
  method CountDigits(rel: array<Tuple>, lo: nat, n: nat, R: nat, D: nat) returns (hist: array<int>)
    requires lo + n <= rel.Length
    ensures fresh(hist) && hist.Length == Pow2(D)
    ensures Sizes(hist[..], Digits(rel[lo..lo+n], ByKey(Bits(R, D))))
  {
    ghost var d := Digits(rel[lo..lo+n], ByKey(Bits(R, D)));
    hist := new int[Pow2(D)](i => 0);
    var i := 0;
    while i < n
      invariant 0 <= i <= n
      invariant forall c :: 0 <= c < hist.Length ==> hist[c] == Count(d[..i], c)
    {
      BitsRange(R, D, rel[lo + i].key);
      var idx := Bits(R, D)(rel[lo + i].key);
      assert idx == d[i];
      forall c ensures Count(d[..i+1], c) == Count(d[..i], c) + if d[i] == c then 1 else 0 { CountPrefix(d, i, c); }
      hist[idx] := hist[idx] + 1;
      i := i + 1;
    }
    assert d[..i] == d;
  }

  /** Where each cluster begins: after the smaller ones and their gaps. */
  method ClusterStarts(hist: array<int>, base: int, pad: nat, ghost d: seq<int>) returns (dst: array<int>)
    requires Nonnegative(d) && Sizes(hist[..], d)
    ensures fresh(dst) && dst.Length == hist.Length
    ensures Starts(dst[..], d, base, pad)
  {
    assert forall c :: 0 <= c < hist.Length ==> hist[..][c] == hist[c];
    dst := new int[hist.Length];
    var i, offset := 0, 0;
    BelowNone(d);
    while i < hist.Length
      invariant 0 <= i <= hist.Length && offset == Below(d, i)
      invariant forall c :: 0 <= c < i ==> dst[c] == base + Below(d, c) + c * pad
    {
      dst[i] := base + offset + i * pad;
      BelowNext(d, i);
      offset := offset + hist[i];
      i := i + 1;
    }
  }

  /** Copy one tuple to where its cluster's cursor stands. */
  method CopyOne(t: Tuple, R: nat, D: nat, out: array<Tuple>, dst: array<int>, ghost s: Relation, ghost d: seq<int>,
                 ghost out0: Relation, ghost start: seq<int>, ghost base: nat, ghost pad: nat, ghost hi: int,
                 ghost i: nat)
    requires i < |s| && s[i] == t && |d| == |s| && d[i] == Bits(R, D)(t.key) && dst.Length == Pow2(D)
    requires Targets(Places(d, base, pad), base, hi) && Starts(start, d, base, pad)
    requires ScatteredUpTo(s, Places(d, base, pad), out0, out[..], base, hi, i) && Cursors(dst[..], start, d, i)
    modifies out, dst
    ensures ScatteredUpTo(s, Places(d, base, pad), out0, out[..], base, hi, i + 1) && Cursors(dst[..], start, d, i + 1)
  {
    hide Places, Below, Count;
    var idx := Bits(R, D)(t.key);
    CursorIsPlace(dst[..], start, d, base, pad, i);
    CursorStep(dst[..], start, d, i);
    ScatterStep(s, Places(d, base, pad), out0, out[..], base, hi, i);
    out[dst[idx]] := t;
    dst[idx] := dst[idx] + 1;
  }

  /** Copy tuples to their clusters. */
  method Scatter(rel: array<Tuple>, lo: nat, n: nat, R: nat, D: nat, out: array<Tuple>, base: nat, pad: nat,
                 dst: array<int>)
    requires lo + n <= rel.Length && rel != out && base + n + Pow2(D) * pad <= out.Length
    requires dst.Length == Pow2(D)
    requires Starts(dst[..], Digits(rel[lo..lo+n], ByKey(Bits(R, D))), base, pad)
    modifies out, dst
    ensures Placed(rel[lo..lo+n], out[..], ByKey(Bits(R, D)), base, pad)
    ensures forall q :: 0 <= q < base || base + n + Pow2(D) * pad <= q < out.Length ==> out[q] == old(out[q])
  {
    hide Places, Below, Count, Placed, Starts, Pow2, Targets;
    ghost var s, f, out0, hi := rel[lo..lo+n], ByKey(Bits(R, D)), out[..], base + n + Pow2(D) * pad;
    ghost var d, start := Digits(s, f), dst[..];
    PlacesAreTargets(d, base, pad, Pow2(D));
    CursorsBegin(start, d);
    var i := 0;
    while i < n
      invariant 0 <= i <= n && rel[lo..lo+n] == s
      invariant ScatteredUpTo(s, Places(d, base, pad), out0, out[..], base, hi, i)
      invariant Cursors(dst[..], start, d, i)
    {
      assert rel[lo + i] == s[i];
      CopyOne(rel[lo + i], R, D, out, dst, s, d, out0, start, base, pad, hi, i);
      i := i + 1;
    }
    ScatterDone(s, f, d, out0, out[..], base, pad, base, hi);
  }

  /** Cluster the n tuples from lo on by bits R..R+D-1 of their keys, leaving a gap of pad
      places behind every cluster; hist receives the number of tuples of each. */
  method Cluster(out: array<Tuple>, base: nat, rel: array<Tuple>, lo: nat, n: nat, R: nat, D: nat, pad: nat)
    returns (hist: array<int>)
    requires lo + n <= rel.Length && rel != out && base + n + Pow2(D) * pad <= out.Length
    modifies out
    ensures fresh(hist) && hist.Length == Pow2(D)
    ensures Sizes(hist[..], Digits(rel[lo..lo+n], ByKey(Bits(R, D))))
    ensures Placed(rel[lo..lo+n], out[..], ByKey(Bits(R, D)), base, pad)
    ensures forall q :: 0 <= q < base || base + n + Pow2(D) * pad <= q < out.Length ==> out[q] == old(out[q])
  {
    hide Placed, Starts, Count, Below, Sizes, Digits, Pow2;
    hist := CountDigits(rel, lo, n, R, D);
    var dst := ClusterStarts(hist, base, pad, Digits(rel[lo..lo+n], ByKey(Bits(R, D))));
    Scatter(rel, lo, n, R, D, out, base, pad, dst);
  }

  /** The variant without gaps is the stable partition of the relation. */
  method ClusterNoPadding(outRel: array<Tuple>, inRel: array<Tuple>, R: nat, D: nat)
    requires outRel.Length == inRel.Length && outRel != inRel
    modifies outRel
    ensures outRel[..] == Partition(inRel[..], ByKey(Bits(R, D)), Pow2(D))
  {
    var hist := Cluster(outRel, 0, inRel, 0, inRel.Length, R, D, 0);
    assert inRel[0..inRel.Length] == inRel[..];
    forall t: Tuple ensures 0 <= ByKey(Bits(R, D))(t) < Pow2(D) { BitsRange(R, D, t.key); }
    ScatterIsPartition(inRel[..], outRel[..], ByKey(Bits(R, D)), Pow2(D));
  }
}
