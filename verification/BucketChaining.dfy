/** bucket_chaining_join of parallel_radix_join.c: a hash table of chains over one partition of
    R, probed with the tuples of the matching partition of S. */
module BucketChaining {
  import opened Counting
  import opened JoinSpec
  import opened KeyBits
  import opened StablePartition

  /** NEXT_POW_2 for a positive argument: the least power of two that is not smaller. */
  function Log2Ceil(n: nat): (m: nat)
    requires n >= 1
    ensures Pow2(m) >= n && (m > 0 ==> Pow2(m - 1) < n)
  {
    if n == 1 then 0 else Log2Ceil((n + 1) / 2) + 1
  }

  /** The hash of bucket_chaining_join. The mask (N-1) << bits is a 32-bit word, so for tables
      of more than 2^(32-bits) buckets its top bits are lost. */
  function BucketBits(n: nat, bits: nat): (D: nat)
    requires n >= 1 && bits <= 32
    ensures Pow2(D) <= Pow2(Log2Ceil(n))
  {
    var m := Log2Ceil(n);
    if m <= 32 - bits then m else (Pow2Grows(32 - bits, m); 32 - bits)
  }

  /** Positions with digit c, last one first. */
  function Positions(d: seq<int>, c: int): (r: seq<nat>)
    ensures |r| == Count(d, c)
  {
    if d == [] then []
    else (if d[|d|-1] == c then [|d|-1] else []) + Positions(d[..|d|-1], c)
  }

  lemma {:induction false} PositionsBelow(d: seq<int>, c: int)
    ensures forall i :: 0 <= i < |Positions(d, c)| ==> Positions(d, c)[i] < |d|
  {
    if d != [] { PositionsBelow(d[..|d|-1], c); }
  }

  lemma {:induction false} PositionsHit(d: seq<int>, c: int, p: int)
    ensures p in Positions(d, c) <==> 0 <= p < |d| && d[p] == c
  {
    if d != [] { PositionsHit(d[..|d|-1], c, p); }
  }

  lemma {:induction false} PositionsDescend(d: seq<int>, c: int)
    ensures forall i, j :: 0 <= i < j < |Positions(d, c)| ==> Positions(d, c)[i] > Positions(d, c)[j]
  {
    if d != [] {
      PositionsDescend(d[..|d|-1], c);
      PositionsBelow(d[..|d|-1], c);
    }
  }

  lemma PositionsAre(d: seq<int>, c: int)
    ensures forall p :: p in Positions(d, c) <==> 0 <= p < |d| && d[p] == c
    ensures forall i :: 0 <= i < |Positions(d, c)| ==> Positions(d, c)[i] < |d|
    ensures forall i, j :: 0 <= i < j < |Positions(d, c)| ==> Positions(d, c)[i] > Positions(d, c)[j]
  {
    hide Positions;
    PositionsBelow(d, c);
    PositionsDescend(d, c);
    forall p: int ensures p in Positions(d, c) <==> 0 <= p < |d| && d[p] == c { PositionsHit(d, c, p); }
  }

  /** Entries of next are one more than the position they point at; zero ends a chain. */
  ghost predicate Links(next: seq<int>) {
    forall p :: 0 <= p < |next| ==> 0 <= next[p] <= p
  }

  /** The positions met when following next from hit. */
  function Chain(next: seq<int>, hit: int): (r: seq<nat>)
    requires Links(next) && 0 <= hit <= |next|
    decreases hit
  {
    if hit == 0 then [] else [hit - 1] + Chain(next, next[hit - 1])
  }

  lemma {:induction false} ChainGrows(next: seq<int>, x: int, hit: int)
    requires Links(next) && Links(next + [x]) && 0 <= hit <= |next|
    ensures Chain(next + [x], hit) == Chain(next, hit)
    decreases hit
  {
    if hit > 0 {
      assert (next + [x])[hit - 1] == next[hit - 1];
      ChainGrows(next, x, next[hit - 1]);
    }
  }

  /** The table after inserting the tuples with digits d: every bucket's chain runs through
      exactly the positions of its digit. */
  ghost predicate Chained(next: seq<int>, bucket: seq<int>, d: seq<int>) {
    && |next| == |d| && Links(next)
    && (forall c :: 0 <= c < |bucket| ==> 0 <= bucket[c] <= |next|)
    && (forall c {:trigger bucket[c]} :: 0 <= c < |bucket| ==> Chain(next, bucket[c]) == Positions(d, c))
  }

  lemma NothingChained(bucket: seq<int>)
    requires forall c :: 0 <= c < |bucket| ==> bucket[c] == 0
    ensures Chained([], bucket, [])
  {
  }

  lemma ChainedInsert(next: seq<int>, bucket: seq<int>, d: seq<int>, x: int)
    requires Chained(next, bucket, d) && 0 <= x < |bucket|
    ensures Chained(next + [bucket[x]], bucket[x := |d| + 1], d + [x])
  {
    var next', bucket', d' := next + [bucket[x]], bucket[x := |d| + 1], d + [x];
    forall c {:trigger bucket'[c]} | 0 <= c < |bucket|
      ensures 0 <= bucket'[c] <= |next'| && Chain(next', bucket'[c]) == Positions(d', c)
    {
      assert d'[..|d'|-1] == d;
      ChainGrows(next, bucket[x], bucket[c]);
      assert [] + Positions(d, c) == Positions(d, c);
    }
  }

  /** Tuples of R at the given positions that carry the key. */
  function MatchesAlong(R: Relation, ps: seq<nat>, key: int): nat
    requires forall i :: 0 <= i < |ps| ==> ps[i] < |R|
  {
    if ps == [] then 0
    else (if R[ps[0]].key == key then 1 else 0) + MatchesAlong(R, ps[1..], key)
  }

  lemma {:induction false} MatchesAlongPrefix(R: Relation, m: nat, ps: seq<nat>, key: int)
    requires m <= |R| && forall i :: 0 <= i < |ps| ==> ps[i] < m
    ensures MatchesAlong(R, ps, key) == MatchesAlong(R[..m], ps, key)
  {
    if ps != [] { MatchesAlongPrefix(R, m, ps[1..], key); }
  }

  /** Every tuple with the key lies on the chain of the key's digit. */
  lemma {:induction false} ChainFindsAll(R: Relation, g: int -> int, key: int)
    ensures forall i ::
              0 <= i < |Positions(Digits(R, ByKey(g)), g(key))| ==> Positions(Digits(R, ByKey(g)), g(key))[i] < |R|
    ensures MatchesAlong(R, Positions(Digits(R, ByKey(g)), g(key)), key) == KeyCount(R, key)
  {
    var d := Digits(R, ByKey(g));
    PositionsAre(d, g(key));
    if R != [] {
      var n := |R| - 1;
      ChainFindsAll(R[..n], g, key);
      DigitsPrefix(R, ByKey(g), n);
      assert d[..n] == Digits(R[..n], ByKey(g));
      var ps := Positions(d[..n], g(key));
      MatchesAlongPrefix(R, n, ps, key);
      if d[n] == g(key) {
        assert ([n] + ps)[1..] == ps;
      } else {
        assert [] + ps == ps;
      }
    }
  }

  /** The build loop: link every tuple in front of its bucket's chain. */
  method Build(R: Relation, bits: nat, D: nat, N: nat) returns (next: array<int>, bucket: array<int>)
    requires Pow2(D) <= N
    ensures fresh(next) && fresh(bucket) && bucket.Length == N
    ensures Chained(next[..], bucket[..], Digits(R, ByKey(Bits(bits, D))))
  {
    hide Digits, Chained, Pow2;
    ghost var d := Digits(R, ByKey(Bits(bits, D)));
    next := new int[|R|];
    bucket := new int[N](i => 0);
    var i := 0;
    assert d[..0] == [] && next[..0] == [];
    NothingChained(bucket[..]);
    while i < |R|
      invariant 0 <= i <= |R|
      invariant Chained(next[..i], bucket[..], d[..i])
    {
      BitsRange(bits, D, R[i].key);
      var idx := Bits(bits, D)(R[i].key);
      assert idx == d[i];
      ChainedInsert(next[..i], bucket[..], d[..i], idx);
      next[i] := bucket[idx];
      i := i + 1;
      bucket[idx] := i;
      assert next[..i] == next[..i-1] + [next[i-1]] && d[..i] == d[..i-1] + [d[i-1]];
    }
    assert next[..i] == next[..] && d[..i] == d;
  }

  /** The probe of one key: walk its chain and count. */
  method Probe(R: Relation, next: array<int>, bucket: array<int>, idx: nat, key: int, ghost d: seq<int>)
    returns (matches: nat)
    requires Chained(next[..], bucket[..], d) && |d| == |R| && idx < bucket.Length
    ensures (forall i :: 0 <= i < |Positions(d, idx)| ==> Positions(d, idx)[i] < |R|) &&
            matches == MatchesAlong(R, Positions(d, idx), key)
  {
    PositionsAre(d, idx);
    matches := 0;
    var hit := bucket[idx];
    ghost var rest := Chain(next[..], hit);
    assert bucket[..][idx] == hit;
    while hit > 0
      invariant 0 <= hit <= |R| && rest == Chain(next[..], hit)
      invariant forall i :: 0 <= i < |rest| ==> rest[i] < |R|
      invariant matches + MatchesAlong(R, rest, key) == MatchesAlong(R, Positions(d, idx), key)
      decreases hit
    {
      if key == R[hit - 1].key { matches := matches + 1; }
      assert rest == [hit - 1] + Chain(next[..], next[hit - 1]);
      rest := rest[1..];
      hit := next[hit - 1];
    }
  }

  /** Counts every pair of tuples with equal keys. R must not be empty. */
  method BucketChainingJoin(R: Relation, S: Relation, bits: nat) returns (matches: nat)
    requires |R| >= 1 && bits <= 32
    ensures matches == Matches(R, S)
  {
    hide Digits, Chained, Positions;
    var N, D := Pow2(Log2Ceil(|R|)), BucketBits(|R|, bits);
    var next, bucket := Build(R, bits, D, N);
    ghost var nexts, heads := next[..], bucket[..];
    matches := 0;
    var i := 0;
    assert S[..0] == [];
    while i < |S|
      invariant 0 <= i <= |S| && matches == Matches(R, S[..i])
      invariant next[..] == nexts && bucket[..] == heads && |heads| == N
    {
      var idx := Bits(bits, D)(S[i].key);
      var found := Probe(R, next, bucket, idx, S[i].key, Digits(R, ByKey(Bits(bits, D))));
      ChainFindsAll(R, Bits(bits, D), S[i].key);
      MatchesSnoc(R, S[..i], S[i]);
      assert S[..i+1] == S[..i] + [S[i]];
      matches := matches + found;
      i := i + 1;
    }
    assert S[..i] == S;
  }
}
