/** placecursors of partitioner.cpp: all threads together make table h of the result point to
    what lies in the buffer between the ends of clusters h - 1 and h. Every thread takes an equal
    share of the clusters, the last one what is left over, and the first one begins with the
    first cluster, which has no end before it. */
module CursorPlacement {
  import opened Chunks
  import opened Options
  import opened ThreadedScatter

  /** What a table of the result points to: items tuples of the page, from the one at start on. */
  datatype Placement = Placement(start: int, items: int)

  /** All tables have been placed, or not been reached, or an access has gone outside. */
  datatype Outcome = Placed(tables: seq<Option<Placement>>) | OutOfRange

  /** The first cluster of a thread. */
  function FirstOf(n: nat, nthreads: nat, t: nat): (i: nat)
    requires t < nthreads
    ensures i <= n
  {
    ChunkStart(n, nthreads, t)
  }

  /** Where a thread stops. Thread 0 treats cluster 0 before its loop, even if its share is
      empty. */
  function StopOf(n: nat, nthreads: nat, t: nat): (i: nat)
    requires t < nthreads
    ensures FirstOf(n, nthreads, t) <= i && (t == 0 ==> i >= 1)
  {
    ChunksAscend(n, nthreads, t, t + 1);
    if t == 0 && ChunkStart(n, nthreads, 1) == 0 then 1 else ChunkStart(n, nthreads, t + 1)
  }

  /** Thread t treats cluster i. */
  ghost predicate Treats(n: nat, nthreads: nat, t: nat, i: int) {
    t < nthreads && FirstOf(n, nthreads, t) <= i < StopOf(n, nthreads, t)
  }

  /** Thread t reads entry x of the ends: that of a cluster it treats, or the one before, except
      that for cluster 0 thread 0 does not look before it. */
  ghost predicate Reads(n: nat, nthreads: nat, t: nat, x: int) {
    Treats(n, nthreads, t, x) || (Treats(n, nthreads, t, x + 1) && !(t == 0 && x + 1 == 0))
  }

  // ----- which entries are read -----

  lemma FewerThanThreads(n: nat, nthreads: nat)
    requires n < nthreads
    ensures n / nthreads == 0
  {
  }

  lemma OneForEach(n: nat, nthreads: nat)
    requires 1 <= nthreads <= n
    ensures n / nthreads >= 1
  {
  }

  lemma FirstIsZero(n: nat, nthreads: nat, t: nat)
    requires t < nthreads
    ensures nthreads > n ==> FirstOf(n, nthreads, t) == 0
    ensures nthreads <= n && t > 0 ==> FirstOf(n, nthreads, t) >= t
  {
    if nthreads > n {
      FewerThanThreads(n, nthreads);
      assert t * 0 == 0;
    } else {
      OneForEach(n, nthreads);
      AtLeast(t, n / nthreads);
    }
  }

  lemma AtLeast(t: nat, share: nat)
    requires share >= 1
    ensures t * share >= t
  {
    assert t * (share - 1) >= 0;
    assert t * (share - 1) == t * share - t;
  }

  lemma StopInside(n: nat, nthreads: nat, t: nat)
    requires t < nthreads
    ensures StopOf(n, nthreads, t) <= if n == 0 then 1 else n
    ensures nthreads <= n ==> StopOf(n, nthreads, t) == ChunkStart(n, nthreads, t + 1)
  {
    ChunksAscend(n, nthreads, t + 1, nthreads);
    if nthreads <= n && t == 0 && nthreads >= 2 { FirstIsZero(n, nthreads, 1); }
  }

  /** The entry before the first is read exactly when there are more threads than clusters. */
  lemma EntryBeforeFirst(n: nat, nthreads: nat)
    requires n >= 1 && nthreads >= 1
    ensures (exists t: nat :: Reads(n, nthreads, t, -1)) <==> nthreads > n
  {
    hide FirstOf, StopOf;
    if nthreads > n {
      FirstIsZero(n, nthreads, nthreads - 1);
      LastStops(n, nthreads);
      assert Reads(n, nthreads, nthreads - 1, -1);
    }
    if t: nat :| Reads(n, nthreads, t, -1) {
      FirstIsZero(n, nthreads, t);
    }
  }

  lemma LastStops(n: nat, nthreads: nat)
    requires n >= 1 && nthreads >= 1
    ensures StopOf(n, nthreads, nthreads - 1) == n
  {
    if nthreads == 1 { assert ChunkStart(n, 1, 1) == n; }
  }

  /** No access goes outside: n ends, r tables. */
  ghost predicate AllInside(n: nat, r: nat, nthreads: nat) {
    && (forall t: nat, x: int :: Reads(n, nthreads, t, x) ==> 0 <= x < n)
    && (forall t: nat, i: int :: Treats(n, nthreads, t, i) ==> 0 <= i < r)
  }

  ghost predicate SomeoneTreats(n: nat, nthreads: nat, i: nat) {
    exists t: nat :: Treats(n, nthreads, t, i)
  }

  /** Every table is placed, and by one thread only. */
  ghost predicate EachOnce(n: nat, r: nat, nthreads: nat) {
    && (forall i: nat :: i < r ==> SomeoneTreats(n, nthreads, i))
    && (forall t: nat, u: nat, i: int :: Treats(n, nthreads, t, i) && Treats(n, nthreads, u, i) ==> t == u)
  }

  lemma Inside(n: nat, nthreads: nat)
    requires 1 <= nthreads <= n
    ensures AllInside(n, n, nthreads)
  {
    hide FirstOf, StopOf;
    forall t: nat, i: int | Treats(n, nthreads, t, i) ensures 0 <= i < n && (t > 0 ==> i >= 1) {
      StopInside(n, nthreads, t);
      FirstIsZero(n, nthreads, t);
    }
  }

  lemma TreatsItsShare(n: nat, nthreads: nat, t: nat, i: int)
    requires 1 <= nthreads <= n && t < nthreads
    ensures Treats(n, nthreads, t, i) <==> ChunkStart(n, nthreads, t) <= i < ChunkStart(n, nthreads, t + 1)
  {
    StopInside(n, nthreads, t);
  }

  lemma TheOneWho(n: nat, nthreads: nat, i: nat) returns (t: nat)
    requires 1 <= nthreads <= n && i < n
    ensures t < nthreads && Treats(n, nthreads, t, i)
  {
    hide Treats;
    ChunkEnd(n, nthreads);
    t := OwnerOf(n, nthreads, i, nthreads);
    TreatsItsShare(n, nthreads, t, i);
  }

  lemma Once(n: nat, nthreads: nat)
    requires 1 <= nthreads <= n
    ensures EachOnce(n, n, nthreads)
  {
    hide ChunkStart, ChunkLength, StopOf;
    forall i: nat | i < n ensures SomeoneTreats(n, nthreads, i) { var t := TheOneWho(n, nthreads, i); }
    forall t: nat, u: nat, i: int | Treats(n, nthreads, t, i) && Treats(n, nthreads, u, i) ensures t == u {
      TreatsItsShare(n, nthreads, t, i);
      TreatsItsShare(n, nthreads, u, i);
      OneOwner(n, nthreads, t, u, i);
    }
  }

  lemma OtherNumberOfTables(n: nat, r: nat, nthreads: nat)
    requires 1 <= nthreads <= n && n != r
    ensures !(AllInside(n, r, nthreads) && EachOnce(n, r, nthreads))
  {
    hide FirstOf, StopOf;
    if r < n {
      var t := TheOneWho(n, nthreads, n - 1);
    } else if SomeoneTreats(n, nthreads, n) {
      var t: nat :| Treats(n, nthreads, t, n);
      StopInside(n, nthreads, t);
    }
  }

  /** Every access stays inside and every table is placed once, if and only if there are no more
      threads than clusters and a table for each cluster. */
  lemma PlacedOnce(n: nat, r: nat, nthreads: nat)
    requires nthreads >= 1
    ensures AllInside(n, r, nthreads) && EachOnce(n, r, nthreads) <==> nthreads <= n == r
  {
    hide FirstOf, StopOf;
    if nthreads <= n {
      if n == r {
        Inside(n, nthreads);
        Once(n, nthreads);
      } else {
        OtherNumberOfTables(n, r, nthreads);
      }
    } else if n >= 1 {
      EntryBeforeFirst(n, nthreads);
    } else {
      FirstIsZero(0, nthreads, 0);
      assert Treats(0, nthreads, 0, 0) && Reads(0, nthreads, 0, 0);
    }
  }

  /** Two clusters and three threads: the last thread reads the entry before the first, and
      places both tables, the first of which thread 0 places too. */
  lemma TwoForThree()
    ensures Reads(2, 3, 2, -1) && Treats(2, 3, 2, 0) && Treats(2, 3, 2, 1) && Treats(2, 3, 0, 0)
  {
    FirstIsZero(2, 3, 2);
    FirstIsZero(2, 3, 0);
    LastStops(2, 3);
  }

  // ----- every run -----

  /** What table i is to point to. */
  function Wanted(location: seq<int>, i: nat): Placement
    requires i < |location|
  {
    if i == 0 then Placement(0, location[0]) else Placement(location[i - 1], location[i] - location[i - 1])
  }

  /** One turn of a thread at cluster i: inside if what it reads and writes is there. */
  predicate TurnInside(n: nat, r: nat, t: nat, i: nat) {
    i < n && i < r && (i == 0 ==> t == 0)
  }

  /** Every thread has treated the clusters from its first one to its next one; nothing it did
      went outside, and the tables it has treated point where they should. */
  ghost predicate SoFar(location: seq<int>, r: nat, nthreads: nat, next: seq<nat>, tables: seq<Option<Placement>>) {
    && |next| == nthreads && |tables| == r
    && (forall t {:trigger next[t]} :: 0 <= t < nthreads ==>
          FirstOf(|location|, nthreads, t) <= next[t] <= StopOf(|location|, nthreads, t))
    && (forall t: nat, i: nat {:trigger Treated(|location|, nthreads, next, t, i)} ::
          Treated(|location|, nthreads, next, t, i) ==>
            TurnInside(|location|, r, t, i) && tables[i] == Some(Wanted(location, i)))
    && (forall i: nat {:trigger tables[i]} :: i < r && tables[i].Some? ==> i < |location|)
  }

  ghost predicate Treated(n: nat, nthreads: nat, next: seq<nat>, t: nat, i: nat) {
    t < nthreads == |next| && FirstOf(n, nthreads, t) <= i < next[t]
  }

  lemma TurnKeeps(location: seq<int>, r: nat, nthreads: nat, next: seq<nat>, tables: seq<Option<Placement>>, t: nat)
    requires SoFar(location, r, nthreads, next, tables) && t < nthreads
    requires next[t] < StopOf(|location|, nthreads, t) && TurnInside(|location|, r, t, next[t])
    ensures SoFar(location, r, nthreads, next[t := next[t] + 1],
                  tables[next[t] := Some(Wanted(location, next[t]))])
  {
    hide FirstOf, StopOf;
    var n, i0 := |location|, next[t];
    var next', tables' := next[t := i0 + 1], tables[i0 := Some(Wanted(location, i0))];
    forall u: nat, i: nat {:trigger Treated(n, nthreads, next', u, i)} | Treated(n, nthreads, next', u, i)
      ensures TurnInside(n, r, u, i) && tables'[i] == Some(Wanted(location, i))
    {
      if !(u == t && i == i0) { assert Treated(n, nthreads, next, u, i); }
    }
  }

  /** A turn goes outside only if there are too many threads or too few tables. */
  lemma GoesOutside(n: nat, r: nat, nthreads: nat, t: nat, i: nat)
    requires t < nthreads && FirstOf(n, nthreads, t) <= i < StopOf(n, nthreads, t) && !TurnInside(n, r, t, i)
    ensures nthreads > n || n > r
  {
    StopInside(n, nthreads, t);
    FirstIsZero(n, nthreads, t);
  }

  /** When all threads are through without having gone outside, there were not too many
      threads, there were enough tables, and each table is placed. */
  lemma AllThrough(location: seq<int>, r: nat, nthreads: nat, next: seq<nat>, tables: seq<Option<Placement>>)
    requires SoFar(location, r, nthreads, next, tables) && nthreads >= 1
    requires forall t :: 0 <= t < nthreads ==> next[t] >= StopOf(|location|, nthreads, t)
    ensures nthreads <= |location| <= r
    ensures forall i :: 0 <= i < |location| ==> tables[i] == Some(Wanted(location, i))
    ensures forall i :: |location| <= i < r ==> tables[i] == None
  {
    hide FirstOf, StopOf;
    var n := |location|;
    EnoughClusters(location, r, nthreads, next, tables);
    ClusterPlaced(location, r, nthreads, next, tables, n - 1);
    forall i | 0 <= i < n ensures tables[i] == Some(Wanted(location, i)) {
      ClusterPlaced(location, r, nthreads, next, tables, i);
    }
  }

  lemma ClusterPlaced(location: seq<int>, r: nat, nthreads: nat, next: seq<nat>, tables: seq<Option<Placement>>, i: nat)
    requires SoFar(location, r, nthreads, next, tables) && 1 <= nthreads <= |location| && i < |location|
    requires forall t :: 0 <= t < nthreads ==> next[t] >= StopOf(|location|, nthreads, t)
    ensures i < r && tables[i] == Some(Wanted(location, i))
  {
    hide FirstOf, StopOf, Wanted;
    var t := TheOneWho(|location|, nthreads, i);
    assert Treated(|location|, nthreads, next, t, i);
  }

  lemma EnoughClusters(location: seq<int>, r: nat, nthreads: nat, next: seq<nat>, tables: seq<Option<Placement>>)
    requires SoFar(location, r, nthreads, next, tables) && nthreads >= 1
    requires forall t :: 0 <= t < nthreads ==> next[t] >= StopOf(|location|, nthreads, t)
    ensures nthreads <= |location|
  {
    var n := |location|;
    FirstIsZero(n, nthreads, 0);
    assert Treated(n, nthreads, next, 0, 0);
    if nthreads > n {
      FirstIsZero(n, nthreads, nthreads - 1);
      LastStops(n, nthreads);
      assert Treated(n, nthreads, next, nthreads - 1, 0);
    }
  }

  ghost function Ahead(n: nat, nthreads: nat, next: seq<nat>, m: nat): nat
    requires m <= nthreads == |next|
  {
    if m == 0 then 0
    else
      var stop := StopOf(n, nthreads, m - 1);
      Ahead(n, nthreads, next, m - 1) + if next[m - 1] < stop then stop - next[m - 1] else 0
  }

  lemma {:induction false} AheadShrinks(n: nat, nthreads: nat, next: seq<nat>, t: nat, m: nat)
    requires m <= nthreads == |next| && t < nthreads && next[t] < StopOf(n, nthreads, t)
    ensures Ahead(n, nthreads, next[t := next[t] + 1], m) == Ahead(n, nthreads, next, m) - if t < m then 1 else 0
  {
    hide StopOf;
    if m > 0 { AheadShrinks(n, nthreads, next, t, m - 1); }
  }

  /** All threads, one cluster at a time and in any order, up to the barrier or up to the first
      access outside. In every schedule an access goes outside if and only if there are more
      threads than clusters, or fewer tables than clusters; otherwise every cluster has its
      table. */
  method PlaceCursors(location: seq<int>, r: nat, nthreads: nat) returns (outcome: Outcome)
    requires nthreads >= 1
    ensures outcome.OutOfRange? <==> nthreads > |location| || |location| > r
    ensures outcome.Placed? ==> |outcome.tables| == r
    ensures outcome.Placed? ==> forall i :: 0 <= i < |location| ==> outcome.tables[i] == Some(Wanted(location, i))
    ensures outcome.Placed? ==> forall i :: |location| <= i < r ==> outcome.tables[i] == None
  {
    hide FirstOf, StopOf, SoFar, Wanted, Ahead;
    var n := |location|;
    var next: seq<nat> := seq(nthreads, t requires 0 <= t < nthreads => FirstOf(n, nthreads, t));
    var tables: seq<Option<Placement>> := seq(r, _ => None);
    NothingYet(location, r, nthreads, next, tables);
    while exists t :: 0 <= t < nthreads && next[t] < StopOf(n, nthreads, t)
      invariant |next| == nthreads && |tables| == r && SoFar(location, r, nthreads, next, tables)
      decreases Ahead(n, nthreads, next, nthreads)
    {
      var t :| 0 <= t < nthreads && next[t] < StopOf(n, nthreads, t);
      NotBefore(location, r, nthreads, next, tables, t);
      if !TurnInside(n, r, t, next[t]) {
        GoesOutside(n, r, nthreads, t, next[t]);
        return OutOfRange;
      }
      TurnKeeps(location, r, nthreads, next, tables, t);
      AheadShrinks(n, nthreads, next, t, nthreads);
      tables := tables[next[t] := Some(Wanted(location, next[t]))];
      next := next[t := next[t] + 1];
    }
    AllThrough(location, r, nthreads, next, tables);
    outcome := Placed(tables);
  }

  lemma NothingYet(location: seq<int>, r: nat, nthreads: nat, next: seq<nat>, tables: seq<Option<Placement>>)
    requires |next| == nthreads && forall t :: 0 <= t < nthreads ==> next[t] == FirstOf(|location|, nthreads, t)
    requires |tables| == r && forall i :: 0 <= i < r ==> tables[i] == None
    ensures SoFar(location, r, nthreads, next, tables)
  {
  }

  lemma NotBefore(location: seq<int>, r: nat, nthreads: nat, next: seq<nat>, tables: seq<Option<Placement>>, t: nat)
    requires SoFar(location, r, nthreads, next, tables) && t < nthreads
    ensures FirstOf(|location|, nthreads, t) <= next[t]
  {
  }
}
