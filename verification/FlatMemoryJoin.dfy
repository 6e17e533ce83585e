/** FlatMemoryJoiner of algo/flatmem.cpp: the partitioner's buffer is radix-partitioned, and
    every probe tuple is compared with the tuples of its bucket. */
module FlatMemoryJoin {
  import opened Chunks
  import opened HashFunctions
  import opened JoinSpec
  import opened RealSplit
  import opened StablePartition
  import opened TwoPasses

  type Pair = (Tuple, Tuple)

  /** The tuples of s that match p, in their order, each with p. */
  function Partners(s: Relation, p: Tuple): seq<Pair> {
    if s == [] then []
    else Partners(s[..|s|-1], p) + if s[|s|-1].key == p.key then [(s[|s|-1], p)] else []
  }

  /** The join as two nested loops, probe side outside. */
  function NestedLoop(s: Relation, probe: Relation): seq<Pair> {
    if probe == [] then []
    else NestedLoop(s, probe[..|probe|-1]) + Partners(s, probe[|probe|-1])
  }

  lemma PartnersSnoc(s: Relation, t: Tuple, p: Tuple)
    ensures Partners(s + [t], p) == Partners(s, p) + if t.key == p.key then [(t, p)] else []
  {
    assert (s + [t])[..|s|] == s;
  }

  lemma NestedLoopSnoc(s: Relation, probe: Relation, p: Tuple)
    ensures NestedLoop(s, probe + [p]) == NestedLoop(s, probe) + Partners(s, p)
  {
    assert (probe + [p])[..|probe|] == probe;
  }

  lemma {:induction false} NestedLoopAppend(s: Relation, a: Relation, b: Relation)
    ensures NestedLoop(s, a + b) == NestedLoop(s, a) + NestedLoop(s, b)
  {
    hide Partners;
    if b == [] {
      assert a + b == a;
    } else {
      var n := |b| - 1;
      NestedLoopAppend(s, a, b[..n]);
      assert a + b == (a + b[..n]) + [b[n]];
      NestedLoopSnoc(s, a + b[..n], b[n]);
      assert (NestedLoop(s, a) + NestedLoop(s, b[..n])) + Partners(s, b[n]) ==
          NestedLoop(s, a) + (NestedLoop(s, b[..n]) + Partners(s, b[n]));
    }
  }

  lemma {:induction false} PartnersCount(s: Relation, p: Tuple)
    ensures |Partners(s, p)| == KeyCount(s, p.key)
  {
    if s != [] { PartnersCount(s[..|s|-1], p); }
  }

  /** The nested loop meets as many pairs as the join has. */
  lemma {:induction false} NestedLoopCount(s: Relation, probe: Relation)
    ensures |NestedLoop(s, probe)| == Matches(s, probe)
  {
    if probe != [] {
      NestedLoopCount(s, probe[..|probe|-1]);
      PartnersCount(s, probe[|probe|-1]);
    }
  }

  /** All partners of a tuple are in the bucket of its hash, in their original order. */
  lemma {:induction false} PartnersInBucket(s: Relation, g: int -> int, p: Tuple)
    ensures Partners(Filter(s, ByKey(g), g(p.key)), p) == Partners(s, p)
  {
    if s != [] {
      var n := |s| - 1;
      PartnersInBucket(s[..n], g, p);
      var q := Filter(s[..n], ByKey(g), g(p.key));
      PartnersSnoc(q, s[n], p);
      assert q + [] == q;
    }
  }

  /** The inner loop: compare with every tuple of the bucket. */
  method ProbeBucket(buildpage: array<Tuple>, bstart: nat, bitems: nat, tup2: Tuple) returns (out: seq<Pair>)
    requires bstart + bitems <= buildpage.Length
    ensures out == Partners(buildpage[bstart..bstart + bitems], tup2)
  {
    out := [];
    var buildtid := bstart;
    assert buildpage[bstart..bstart] == [];
    while buildtid < bstart + bitems
      invariant bstart <= buildtid <= bstart + bitems && out == Partners(buildpage[bstart..buildtid], tup2)
    {
      var tup1 := buildpage[buildtid];
      PartnersSnoc(buildpage[bstart..buildtid], tup1, tup2);
      assert buildpage[bstart..buildtid + 1] == buildpage[bstart..buildtid] + [tup1];
      if tup1.key == tup2.key { out := out + [(tup1, tup2)]; }
      buildtid := buildtid + 1;
    }
  }

  /** Where a bucket is, read off the offsets row. */
  lemma BucketAt(s: Relation, p: Relation, f: Tuple -> int, k: nat, row: seq<int>, h: nat)
    requires p == Partition(s, f, k) && h < k == |row| && Ends(row, s, f)
    ensures var bstart := if h != 0 then row[h - 1] else 0;
            0 <= bstart <= row[h] <= |p| && p[bstart..row[h]] == Filter(s, f, h)
  {
    assert row[h] == |Partition(s, f, h + 1)|;
    if h != 0 { assert row[h - 1] == |Partition(s, f, h)|; }
    BlockAt(s, p, Hash(f, k), h);
    assert Partition(s, f, 0) == [];
  }

  /** The probe phase of one thread: it meets every matching pair of its share of the probe
      side exactly once, in the order of the nested loops. */
  method Probe(buildpage: array<Tuple>, histogram: array<int>, probepage: array<Tuple>, hashfn: ModuloHash,
               nthreads: nat, threadid: nat, ghost s: Relation)
    returns (ret: seq<Pair>)
    requires threadid < nthreads && histogram.Length == Buckets(hashfn)
    requires buildpage[..] == Partition(s, AsHash(hashfn).f, Buckets(hashfn)) &&
             Ends(histogram[..], s, AsHash(hashfn).f)
    ensures var start, end := ChunkStart(probepage.Length, nthreads, threadid),
                ChunkStart(probepage.Length, nthreads, threadid + 1);

            start <= end && ret == NestedLoop(s, probepage[start..end])
  {
    hide Partition, Filter, Partners, Ends, ChunkStart, ChunkLength;
    var start, items := ChunkStart(probepage.Length, nthreads, threadid),
        ChunkLength(probepage.Length, nthreads, threadid);
    ret := [];
    var probetid := start;
    assert probepage[start..start] == [];
    while probetid < start + items
      invariant start <= probetid <= start + items && ret == NestedLoop(s, probepage[start..probetid])
    {
      var out := ProbeOne(buildpage, histogram, probepage[probetid], hashfn, s);
      NestedLoopSnoc(s, probepage[start..probetid], probepage[probetid]);
      assert probepage[start..probetid + 1] == probepage[start..probetid] + [probepage[probetid]];
      ret := ret + out;
      probetid := probetid + 1;
    }
  }

  method ProbeOne(buildpage: array<Tuple>, histogram: array<int>, tup2: Tuple, hashfn: ModuloHash, ghost s: Relation)
    returns (out: seq<Pair>)
    requires histogram.Length == Buckets(hashfn)
    requires buildpage[..] == Partition(s, AsHash(hashfn).f, Buckets(hashfn)) &&
             Ends(histogram[..], s, AsHash(hashfn).f)
    ensures out == Partners(s, tup2)
  {
    hide Partition, Filter, Partners, Ends;
    AsHashProper(hashfn);
    var curbuc := Hashed(hashfn)(tup2.key);
    assert curbuc == AsHash(hashfn).f(tup2);
    BucketAt(s, buildpage[..], AsHash(hashfn).f, Buckets(hashfn), histogram[..], curbuc);
    var bstart := if curbuc != 0 then histogram[curbuc - 1] else 0;
    var bitems := histogram[curbuc] - bstart;
    assert buildpage[bstart..bstart + bitems] == buildpage[..][bstart..histogram[..][curbuc]];
    out := ProbeBucket(buildpage, bstart, bitems, tup2);
    PartnersInBucket(s, Hashed(hashfn), tup2);
  }

  /** Partitioning by all pass hashes is partitioning by the hash itself. */
  lemma PassesAreOne(s: Relation, h: ModuloHash, passes: nat, row: seq<int>)
    requires 1 <= passes <= h.bits
    requires var c := Combine(AsHashes(PassHashes(h, passes)), passes);
             |row| == c.buckets && Ends(row, s, c.f)
    ensures var c := Combine(AsHashes(PassHashes(h, passes)), passes);
            c.buckets == Buckets(h) && Partition(s, c.f, c.buckets) == Partition(s, AsHash(h).f, Buckets(h)) &&
              Ends(row, s, AsHash(h).f)
  {
    hide Partition, Combine;
    var c := Combine(AsHashes(PassHashes(h, passes)), passes);
    AllBits(h, passes, Tuple(0, []));
    forall t: Tuple ensures c.f(t) == AsHash(h).f(t) { AllBits(h, passes, t); }
    PartitionSame(s, c.f, AsHash(h).f, Buckets(h));
    forall j {:trigger row[j]} | 0 <= j < |row|
      ensures row[j] == |Partition(s, AsHash(h).f, j + 1)|
    {
      PartitionSame(s, c.f, AsHash(h).f, j + 1);
    }
  }

  /** Partitioning and probing, for whatever oldbuf holds: the results of the threads, one after
      the other, are the result of the nested loops over those tuples and the probe side, every
      matching pair exactly once. What oldbuf holds when custominit has prepared it is said in
      RadixBuffers; with a buffer that RadixPartitioner::split has filled it is the build side. */
  method Join(oldbuf: array<Tuple>, newbuf: array<Tuple>, probepage: array<Tuple>, hashfn: ModuloHash, passes: nat,
              nthreads: nat)
    returns (result: seq<seq<Pair>>)
    requires oldbuf != newbuf && oldbuf.Length == newbuf.Length && probepage != oldbuf && probepage != newbuf
    requires nthreads >= 1 && 1 <= passes <= hashfn.bits && hashfn.skip + hashfn.bits < WIDTH
    modifies oldbuf, newbuf
    ensures |result| == nthreads && Concat(result) == NestedLoop(old(oldbuf[..]), probepage[..])
    ensures |Concat(result)| == Matches(old(oldbuf[..]), probepage[..])
  {
    hide Partition, Ends, Combine, NestedLoop, PassHash, ChunkStart, ChunkLength, Matches;
    ghost var s, probe := oldbuf[..], probepage[..];
    var passhashes := Generate(hashfn, passes);
    assert passhashes == PassHashes(hashfn, passes);
    forall i | 0 <= i < passes ensures Proper(AsHashes(passhashes)[i]) { AsHashProper(passhashes[i]); }
    var buildpage, histogram := Run(oldbuf, newbuf, AsHashes(passhashes), nthreads);
    PassesAreOne(s, hashfn, passes, histogram[..]);
    result := [];
    var t := 0;
    NothingProbed(s, probe, nthreads);
    ghost var built, row := buildpage[..], histogram[..];
    while t < nthreads
      invariant buildpage[..] == built && histogram[..] == row
      invariant 0 <= t <= nthreads && |result| == t &&
                Concat(result) == NestedLoop(s, probe[..ChunkStart(|probe|, nthreads, t)])
    {
      var ret := Probe(buildpage, histogram, probepage, hashfn, nthreads, t, s);
      OneMoreThread(s, probe, nthreads, t, result, ret);
      result := result + [ret];
      t := t + 1;
    }
    AllProbed(probe, nthreads);
    NestedLoopCount(s, probe);
  }

  function Concat(parts: seq<seq<Pair>>): seq<Pair> {
    if parts == [] then [] else Concat(parts[..|parts|-1]) + parts[|parts|-1]
  }

  lemma OneMoreThread(s: Relation, probe: Relation, nthreads: nat, t: nat, result: seq<seq<Pair>>, ret: seq<Pair>)
    requires t < nthreads && Concat(result) == NestedLoop(s, probe[..ChunkStart(|probe|, nthreads, t)])
    requires var start, end := ChunkStart(|probe|, nthreads, t), ChunkStart(|probe|, nthreads, t + 1);
             start <= end && ret == NestedLoop(s, probe[start..end])
    ensures Concat(result + [ret]) == NestedLoop(s, probe[..ChunkStart(|probe|, nthreads, t + 1)])
  {
    hide NestedLoop, ChunkStart;
    var start, end := ChunkStart(|probe|, nthreads, t), ChunkStart(|probe|, nthreads, t + 1);
    assert (result + [ret])[..|result|] == result;
    assert probe[..end] == probe[..start] + probe[start..end];
    NestedLoopAppend(s, probe[..start], probe[start..end]);
  }

  lemma NothingProbed(s: Relation, probe: Relation, nthreads: nat)
    requires nthreads >= 1
    ensures NestedLoop(s, probe[..ChunkStart(|probe|, nthreads, 0)]) == []
  {
  }

  lemma AllProbed(probe: Relation, nthreads: nat)
    requires nthreads >= 1
    ensures probe[..ChunkStart(|probe|, nthreads, nthreads)] == probe
  {
  }
}
