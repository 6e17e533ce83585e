/** Relations and the number of pairs an equi-join of two of them has: the specification all
    join engines share. */
module JoinSpec {
  import opened StablePartition
  import opened TwoPasses

  datatype Tuple = Tuple(key: int, payload: seq<int>)

  type Relation = seq<Tuple>

  /** How many tuples of R carry this key. */
  function KeyCount(R: Relation, key: int): nat {
    if R == [] then 0
    else KeyCount(R[..|R|-1], key) + if R[|R|-1].key == key then 1 else 0
  }

  /** The size of the join: for every tuple of S, the tuples of R with the same key. */
  function Matches(R: Relation, S: Relation): nat {
    if S == [] then 0
    else Matches(R, S[..|S|-1]) + KeyCount(R, S[|S|-1].key)
  }

  /** Partitioners look at nothing but the key. */
  function ByKey(g: int -> int): Tuple -> int {
    (t: Tuple) => g(t.key)
  }

  /** f takes values below k only. */
  ghost predicate Hashes(f: Tuple -> int, k: nat) {
    forall t: Tuple :: 0 <= f(t) < k
  }

  lemma KeyCountSnoc(R: Relation, t: Tuple, key: int)
    ensures KeyCount(R + [t], key) == KeyCount(R, key) + if t.key == key then 1 else 0
  {
    assert (R + [t])[..|R|] == R;
  }

  lemma MatchesSnoc(R: Relation, S: Relation, t: Tuple)
    ensures Matches(R, S + [t]) == Matches(R, S) + KeyCount(R, t.key)
  {
    assert (S + [t])[..|S|] == S;
  }

  /** All tuples with a given key are in the partition of that key's digit. */
  lemma {:induction false} KeyCountFilter(R: Relation, g: int -> int, key: int)
    ensures KeyCount(Filter(R, ByKey(g), g(key)), key) == KeyCount(R, key)
  {
    if R != [] {
      var n := |R| - 1;
      KeyCountFilter(R[..n], g, key);
      var p := Filter(R[..n], ByKey(g), g(key));
      KeyCountSnoc(p, R[n], key);
      assert p + [] == p;
    }
  }

  /** Joining partition by partition. */
  function PartitionedMatches(R: Relation, S: Relation, f: Tuple -> int, k: nat): nat {
    if k == 0 then 0
    else PartitionedMatches(R, S, f, k - 1) + Matches(Filter(R, f, k - 1), Filter(S, f, k - 1))
  }

  /** The join of one pair of partitions when a tuple joins S. */
  lemma PartitionSnoc(R: Relation, S: Relation, t: Tuple, g: int -> int, h: int)
    ensures Matches(Filter(R, ByKey(g), h), Filter(S + [t], ByKey(g), h)) ==
            Matches(Filter(R, ByKey(g), h), Filter(S, ByKey(g), h)) + if g(t.key) == h then KeyCount(R, t.key) else 0
  {
    hide KeyCount, Matches, Filter;
    FilterAppend(S, [t], ByKey(g), h);
    FilterOne(t, ByKey(g), h);
    var p := Filter(S, ByKey(g), h);
    if g(t.key) == h {
      MatchesSnoc(Filter(R, ByKey(g), h), p, t);
      KeyCountFilter(R, g, t.key);
    } else {
      assert p + [] == p;
    }
  }

  lemma {:induction false} PartitionedSnoc(R: Relation, S: Relation, t: Tuple, g: int -> int, k: nat)
    requires 0 <= g(t.key)
    ensures PartitionedMatches(R, S + [t], ByKey(g), k) ==
            PartitionedMatches(R, S, ByKey(g), k) + if g(t.key) < k then KeyCount(R, t.key) else 0
  {
    hide KeyCount, Matches, Filter;
    if k > 0 {
      PartitionedSnoc(R, S, t, g, k - 1);
      PartitionSnoc(R, S, t, g, k - 1);
    }
  }

  lemma {:induction false} PartitionedEmpty(R: Relation, f: Tuple -> int, k: nat)
    ensures PartitionedMatches(R, [], f, k) == 0
  {
    if k > 0 {
      PartitionedEmpty(R, f, k - 1);
      FilterEmpty(f, k - 1);
    }
  }

  /** Partitioning both relations by a digit of the key loses no pair and counts none twice. */
  lemma {:induction false} PartitionedJoin(R: Relation, S: Relation, g: int -> int, k: nat)
    requires DigitsBelow(S, ByKey(g), k)
    ensures PartitionedMatches(R, S, ByKey(g), k) == Matches(R, S)
  {
    hide PartitionedMatches, KeyCount;
    if S == [] {
      PartitionedEmpty(R, ByKey(g), k);
    } else {
      var n := |S| - 1;
      PartitionedJoin(R, S[..n], g, k);
      PartitionedSnoc(R, S[..n], S[n], g, k);
      assert S == S[..n] + [S[n]];
    }
  }

  lemma {:induction false} EmptyJoin(R: Relation, S: Relation)
    requires R == [] || S == []
    ensures Matches(R, S) == 0
  {
    if S != [] { EmptyJoin(R, S[..|S|-1]); }
  }
}
