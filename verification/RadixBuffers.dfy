/** What RadixPartitioner::init leaves in the buffers, and what that means for the flat-memory
    join, which partitions them without filling them again. */
module RadixBuffers {
  import opened FlatMemoryJoin
  import opened HashFunctions
  import opened JoinSpec

  /** A buffer of n tuples every byte of which has been set to the same value. */
  function Junk(n: nat, junk: Tuple): (r: Relation)
    ensures |r| == n && forall i :: 0 <= i < n ==> r[i] == junk
  {
    seq(n, _ => junk)
  }

  /** copyTuples, for one destination page. */
  method CopyTuples(t: Relation, p: array<Tuple>)
    requires p.Length == |t|
    modifies p
    ensures p[..] == t
  {
    var i := 0;
    while i < |t|
      invariant 0 <= i <= |t| && p[..i] == t[..i]
    {
      p[i] := t[i];
      i := i + 1;
    }
  }

  /** memset over all tuples of a page. */
  method Overwrite(p: array<Tuple>, junk: Tuple)
    modifies p
    ensures p[..] == Junk(p.Length, junk)
  {
    var i := 0;
    while i < p.Length
      invariant 0 <= i <= p.Length && forall k :: 0 <= k < i ==> p[k] == junk
    {
      p[i] := junk;
      i := i + 1;
    }
  }

  /** The buffers after init: the input has been copied into both, and then both have been
      overwritten. */
  method Init(t: Relation, junk: Tuple) returns (oldbuf: array<Tuple>, newbuf: array<Tuple>)
    ensures fresh(oldbuf) && fresh(newbuf) && oldbuf != newbuf
    ensures oldbuf[..] == newbuf[..] == Junk(|t|, junk)
  {
    oldbuf, newbuf := new Tuple[|t|](_ => junk), new Tuple[|t|](_ => junk);
    CopyTuples(t, newbuf);
    CopyTuples(t, oldbuf);
    Overwrite(oldbuf, junk);
    Overwrite(newbuf, junk);
  }

  /** custominit, build and probe, as they follow one another: what is joined is the junk. */
  method CustomInitAndJoin(build: Relation, probe: Relation, junk: Tuple, hashfn: ModuloHash, passes: nat,
                           nthreads: nat)
    returns (result: seq<seq<Pair>>)
    requires nthreads >= 1 && 1 <= passes <= hashfn.bits && hashfn.skip + hashfn.bits < WIDTH
    ensures |result| == nthreads && Concat(result) == NestedLoop(Junk(|build|, junk), probe)
  {
    var oldbuf, newbuf := Init(build, junk);
    var probetable := new Tuple[|probe|](_ => junk);
    CopyTuples(probe, probetable);
    result := Join(oldbuf, newbuf, probetable, hashfn, passes, nthreads);
  }

  // ----- when that is the join nevertheless -----

  /** How many pairs have p on the probe side. */
  function PairsOf(pairs: seq<Pair>, p: Tuple): nat {
    if pairs == [] then 0 else PairsOf(pairs[..|pairs|-1], p) + if pairs[|pairs|-1].1 == p then 1 else 0
  }

  lemma {:induction false} PairsOfAppend(a: seq<Pair>, b: seq<Pair>, p: Tuple)
    ensures PairsOf(a + b, p) == PairsOf(a, p) + PairsOf(b, p)
  {
    if b == [] {
      assert a + b == a;
    } else {
      PairsOfAppend(a, b[..|b|-1], p);
      assert (a + b)[..|a + b|-1] == a + b[..|b|-1];
    }
  }

  lemma {:induction false} PairsOfPartners(s: Relation, q: Tuple, p: Tuple)
    ensures PairsOf(Partners(s, q), p) == if p == q then |Partners(s, p)| else 0
  {
    if s != [] {
      var n := |s| - 1;
      PairsOfPartners(s[..n], q, p);
      var more: seq<Pair> := if s[n].key == q.key then [(s[n], q)] else [];
      PairsOfAppend(Partners(s[..n], q), more, p);
      OnePair(more, p);
    }
  }

  lemma OnePair(pairs: seq<Pair>, p: Tuple)
    requires |pairs| <= 1
    ensures PairsOf(pairs, p) == if pairs != [] && pairs[0].1 == p then 1 else 0
  {
    if pairs != [] { assert pairs[..0] == []; }
  }

  /** How often p is on the probe side. */
  function Times(probe: Relation, p: Tuple): nat {
    if probe == [] then 0 else Times(probe[..|probe|-1], p) + if probe[|probe|-1] == p then 1 else 0
  }

  lemma {:induction false} PairsOfLoop(s: Relation, probe: Relation, p: Tuple)
    ensures PairsOf(NestedLoop(s, probe), p) == Times(probe, p) * |Partners(s, p)|
  {
    hide Partners, PairsOf;
    if probe == [] {
      NoPairs(p);
    } else {
      var n := |probe| - 1;
      PairsOfLoop(s, probe[..n], p);
      PairsOfAppend(NestedLoop(s, probe[..n]), Partners(s, probe[n]), p);
      PairsOfPartners(s, probe[n], p);
      OnceMore(Times(probe[..n], p), probe[n] == p, |Partners(s, p)|);
    }
  }

  lemma NoPairs(p: Tuple)
    ensures PairsOf([], p) == 0
  {
  }

  lemma OnceMore(times: nat, again: bool, m: nat)
    ensures (times + if again then 1 else 0) * m == times * m + if again then m else 0
  {
  }

  lemma SameFactor(m: nat, x: nat, y: nat)
    requires m >= 1 && m * x == m * y
    ensures x == y
  {
    assert m * (x - y) == m * x - m * y;
  }

  lemma SplitEnd(a: seq<Pair>, b: seq<Pair>, x: seq<Pair>, y: seq<Pair>)
    requires a + x == b + y && |x| == |y|
    ensures a == b && x == y
  {
    assert (a + x)[..|a|] == a && (b + y)[..|b|] == b && (a + x)[|a|..] == x && (b + y)[|b|..] == y;
  }

  /** Two build sides give the same result if and only if every probe tuple has the same
      partners in both. */
  lemma {:induction false} SameResult(a: Relation, b: Relation, probe: Relation)
    ensures NestedLoop(a, probe) == NestedLoop(b, probe) <==>
            forall i :: 0 <= i < |probe| ==> Partners(a, probe[i]) == Partners(b, probe[i])
  {
    hide Partners, Times, PairsOf;
    if probe != [] {
      var n := |probe| - 1;
      var p := probe[n];
      SameResult(a, b, probe[..n]);
      if NestedLoop(a, probe) == NestedLoop(b, probe) {
        PairsOfLoop(a, probe, p);
        PairsOfLoop(b, probe, p);
        LastCounts(probe);
        SameFactor(Times(probe, p), |Partners(a, p)|, |Partners(b, p)|);
        SplitEnd(NestedLoop(a, probe[..n]), NestedLoop(b, probe[..n]), Partners(a, p), Partners(b, p));
        forall i | 0 <= i < |probe| ensures Partners(a, probe[i]) == Partners(b, probe[i]) {
          if i < n { assert probe[..n][i] == probe[i]; }
        }
      }
    }
  }

  lemma LastCounts(probe: Relation)
    requires probe != []
    ensures Times(probe, probe[|probe|-1]) >= 1
  {
  }

  /** A tuple whose key is nowhere has no partners, and one with the key of every tuple has them
      all. */
  lemma {:induction false} NoneOrAll(s: Relation, p: Tuple)
    ensures Partners(s, p) == [] <==> forall k :: 0 <= k < |s| ==> s[k].key != p.key
    ensures |Partners(s, p)| <= |s|
    ensures |Partners(s, p)| == |s| ==> forall k :: 0 <= k < |s| ==> s[k].key == p.key && Partners(s, p)[k] == (s[k], p)
    ensures (forall k :: 0 <= k < |s| ==> s[k].key == p.key) ==> |Partners(s, p)| == |s|
  {
    if s != [] {
      var n := |s| - 1;
      NoneOrAll(s[..n], p);
      forall k | 0 <= k < n ensures s[..n][k] == s[k] {}
    }
  }

  /** The probe tuples find in the build side what they find in junk: those with the junk's key
      find junk only, the others find nothing. */
  ghost predicate JunkWillDo(build: Relation, probe: Relation, junk: Tuple) {
    forall i {:trigger probe[i]} :: 0 <= i < |probe| ==>
      if probe[i].key == junk.key then forall k :: 0 <= k < |build| ==> build[k] == junk
      else forall k :: 0 <= k < |build| ==> build[k].key != probe[i].key
  }

  lemma JunkPartners(build: Relation, p: Tuple, junk: Tuple)
    ensures Partners(Junk(|build|, junk), p) == Partners(build, p) <==>
            if p.key == junk.key then forall k :: 0 <= k < |build| ==> build[k] == junk
            else forall k :: 0 <= k < |build| ==> build[k].key != p.key
  {
    hide Partners;
    var s := Junk(|build|, junk);
    NoneOrAll(s, p);
    NoneOrAll(build, p);
    if p.key == junk.key && Partners(s, p) == Partners(build, p) {
      forall k | 0 <= k < |build| ensures build[k] == junk { assert Partners(s, p)[k] == Partners(build, p)[k]; }
    }
    if forall k :: 0 <= k < |build| ==> build[k] == junk {
      assert build == s;
    }
    if |build| > 0 { assert s[0] == junk; }
  }

  /** The join of the junk is the join if and only if the junk will do. */
  lemma JoinsOnlyJunk(build: Relation, probe: Relation, junk: Tuple)
    ensures NestedLoop(Junk(|build|, junk), probe) == NestedLoop(build, probe) <==> JunkWillDo(build, probe, junk)
  {
    hide Partners, NestedLoop;
    SameResult(Junk(|build|, junk), build, probe);
    forall i | 0 <= i < |probe|
      ensures Partners(Junk(|build|, junk), probe[i]) == Partners(build, probe[i]) <==>
              if probe[i].key == junk.key then forall k :: 0 <= k < |build| ==> build[k] == junk
              else forall k :: 0 <= k < |build| ==> build[k].key != probe[i].key
    {
      JunkPartners(build, probe[i], junk);
    }
  }

  /** One tuple on each side, with the same key: the pair is lost. */
  lemma PairLost(t: Tuple, junk: Tuple)
    requires t.key != junk.key
    ensures NestedLoop([t], [t]) == [(t, t)] && Matches([t], [t]) == 1
    ensures NestedLoop(Junk(1, junk), [t]) == []
  {
    PartnersSnoc([], t, t);
    NestedLoopSnoc([t], [], t);
    assert [] + [t] == [t];
    NestedLoopCount([t], [t]);
    assert Junk(1, junk) == [] + [junk];
    PartnersSnoc([], junk, t);
    NestedLoopSnoc([junk], [], t);
  }
}
