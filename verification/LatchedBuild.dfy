/** build_hashtable_mt of no_partitioning_join.c: several threads insert their share of a
    relation into one table. A thread latches the head of the chain, reads the head and the
    bucket behind it, and then writes and releases; other threads may act between any two of
    these steps. */
module LatchedBuild {
  import opened BucketChains
  import opened Chunks
  import opened HashTable
  import opened JoinSpec
  import opened Options
  import opened StablePartition
  import opened Sums
  import opened ThreadedScatter
  import opened TwoPasses

  /** Where a thread is with its next tuple: before the latch, behind it, or with copies of
      what it has read. */
  datatype Stage = Unlocked | Locked | Loaded(head: Bucket, first: Option<Bucket>)

  datatype State = State(table: Table, stage: seq<Stage>, pc: seq<nat>, latch: seq<bool>, bufs: seq<Buffers>)

  // ----- what has been inserted -----

  /** The part of its share that a thread has inserted. */
  ghost function Done(R: Relation, nthreads: nat, pc: seq<nat>, t: nat): (s: Relation)
    requires Counters(|R|, nthreads, pc) && t < nthreads
    ensures |s| == pc[t]
  {
    ChunksAscend(|R|, nthreads, t + 1, nthreads);
    R[ChunkStart(|R|, nthreads, t)..ChunkStart(|R|, nthreads, t) + pc[t]]
  }

  ghost function Parts(R: Relation, nthreads: nat, pc: seq<nat>): (parts: seq<Relation>)
    requires Counters(|R|, nthreads, pc)
    ensures |parts| == nthreads && forall t :: 0 <= t < nthreads ==> parts[t] == Done(R, nthreads, pc, t)
  {
    seq(nthreads, t requires 0 <= t < nthreads => Done(R, nthreads, pc, t))
  }

  ghost function Bag(f: Tuple -> int, idx: int): Relation -> multiset<Tuple> {
    (s: Relation) => multiset(Filter(s, f, idx))
  }

  /** The tuples with hash idx that all threads have inserted. */
  ghost function Got(R: Relation, f: Tuple -> int, idx: int, nthreads: nat, pc: seq<nat>): multiset<Tuple>
    requires Counters(|R|, nthreads, pc)
  {
    Union(Parts(R, nthreads, pc), Bag(f, idx))
  }

  lemma PartsStep(R: Relation, nthreads: nat, pc: seq<nat>, t: nat)
    requires Counters(|R|, nthreads, pc) && t < nthreads && pc[t] < ChunkLength(|R|, nthreads, t)
    ensures Counters(|R|, nthreads, pc[t := pc[t] + 1])
    ensures Parts(R, nthreads, pc[t := pc[t] + 1]) ==
            Parts(R, nthreads, pc)[t := Done(R, nthreads, pc, t) + [R[NextItem(|R|, nthreads, pc, t)]]]
  {
    var pc' := pc[t := pc[t] + 1];
    CountersStep(|R|, nthreads, pc, t, t, 0);
    forall u | 0 <= u < nthreads && u != t ensures Done(R, nthreads, pc', u) == Done(R, nthreads, pc, u) {}
    assert Done(R, nthreads, pc', t) == Done(R, nthreads, pc, t) + [R[NextItem(|R|, nthreads, pc, t)]];
  }

  lemma GotStep(R: Relation, f: Tuple -> int, idx: int, nthreads: nat, pc: seq<nat>, t: nat)
    requires Counters(|R|, nthreads, pc) && t < nthreads && pc[t] < ChunkLength(|R|, nthreads, t)
    ensures Counters(|R|, nthreads, pc[t := pc[t] + 1])
    ensures var x := R[NextItem(|R|, nthreads, pc, t)];
            Got(R, f, idx, nthreads, pc[t := pc[t] + 1]) ==
              Got(R, f, idx, nthreads, pc) + if f(x) == idx then multiset{x} else multiset{}
  {
    hide Filter, ChunkStart, ChunkLength, Union;
    var x, s := R[NextItem(|R|, nthreads, pc, t)], Done(R, nthreads, pc, t);
    PartsStep(R, nthreads, pc, t);
    UnionUpdate(Parts(R, nthreads, pc), t, s + [x], Bag(f, idx));
    FilterAppend(s, [x], f, idx);
    FilterOne(x, f, idx);
    Cancel(Got(R, f, idx, nthreads, pc[t := pc[t] + 1]), Got(R, f, idx, nthreads, pc), multiset(Filter(s, f, idx)),
        if f(x) == idx then multiset{x} else multiset{});
  }

  lemma Cancel(after: multiset<Tuple>, before: multiset<Tuple>, part: multiset<Tuple>, more: multiset<Tuple>)
    requires after + part == before + (part + more)
    ensures after == before + more
  {
    forall t ensures after[t] == (before + more)[t] { assert (after + part)[t] == (before + (part + more))[t]; }
  }

  lemma GotNothing(R: Relation, f: Tuple -> int, idx: int, nthreads: nat, pc: seq<nat>)
    requires Counters(|R|, nthreads, pc) && forall t :: 0 <= t < nthreads ==> pc[t] == 0
    ensures Got(R, f, idx, nthreads, pc) == multiset{}
  {
    forall t | 0 <= t < nthreads
      ensures Bag(f, idx)(Parts(R, nthreads, pc)[t]) == multiset{}
    {
      assert Parts(R, nthreads, pc)[t] == [];
    }
    UnionEmpty(Parts(R, nthreads, pc), Bag(f, idx));
  }

  lemma {:induction false} GotUpTo(R: Relation, f: Tuple -> int, idx: int, nthreads: nat, pc: seq<nat>, m: nat)
    requires Counters(|R|, nthreads, pc) && m <= nthreads &&
             forall t :: 0 <= t < nthreads ==> pc[t] == ChunkLength(|R|, nthreads, t)
    ensures Union(Parts(R, nthreads, pc)[..m], Bag(f, idx)) ==
            multiset(Filter(R[..ChunkStart(|R|, nthreads, m)], f, idx))
  {
    hide Filter, Bag, Union, ChunkStart, Parts;
    var parts := Parts(R, nthreads, pc);
    if m == 0 {
      NothingYet(R, f, idx, nthreads, parts);
    } else {
      GotUpTo(R, f, idx, nthreads, pc, m - 1);
      WholeChunk(R, nthreads, pc, m - 1);
      var lo, hi := ChunkStart(|R|, nthreads, m - 1), ChunkStart(|R|, nthreads, m);
      OnePartMore(parts, f, idx, m - 1);
      FilterAppend(R[..lo], R[lo..hi], f, idx);
      BagIs(f, idx, R[lo..hi]);
    }
  }

  lemma NothingYet(R: Relation, f: Tuple -> int, idx: int, nthreads: nat, parts: seq<Relation>)
    requires nthreads >= 1
    ensures Union(parts[..0], Bag(f, idx)) == multiset(Filter(R[..ChunkStart(|R|, nthreads, 0)], f, idx))
  {
    hide Filter;
    assert R[..ChunkStart(|R|, nthreads, 0)] == [];
    FilterEmpty(f, idx);
  }

  /** The part of a thread that is through is its whole chunk. */
  lemma WholeChunk(R: Relation, nthreads: nat, pc: seq<nat>, t: nat)
    requires Counters(|R|, nthreads, pc) && t < nthreads && pc[t] == ChunkLength(|R|, nthreads, t)
    ensures var lo, hi := ChunkStart(|R|, nthreads, t), ChunkStart(|R|, nthreads, t + 1);
            lo <= hi <= |R| && Parts(R, nthreads, pc)[t] == R[lo..hi] && R[..hi] == R[..lo] + R[lo..hi]
  {
    hide ChunkStart;
    ChunksAscend(|R|, nthreads, t, t + 1);
    ChunksAscend(|R|, nthreads, t + 1, nthreads);
    ChunkEnd(|R|, nthreads);
  }

  lemma OnePartMore(parts: seq<Relation>, f: Tuple -> int, idx: int, t: nat)
    requires t < |parts|
    ensures Union(parts[..t + 1], Bag(f, idx)) == Union(parts[..t], Bag(f, idx)) + Bag(f, idx)(parts[t])
  {
    hide Bag;
    assert parts[..t + 1][..t] == parts[..t];
  }

  lemma BagIs(f: Tuple -> int, idx: int, s: Relation)
    ensures Bag(f, idx)(s) == multiset(Filter(s, f, idx))
  {
  }

  lemma GotAll(R: Relation, f: Tuple -> int, idx: int, nthreads: nat, pc: seq<nat>)
    requires Counters(|R|, nthreads, pc) && forall t :: 0 <= t < nthreads ==> pc[t] == ChunkLength(|R|, nthreads, t)
    ensures Got(R, f, idx, nthreads, pc) == multiset(Filter(R, f, idx))
  {
    hide Filter, Union;
    GotUpTo(R, f, idx, nthreads, pc, nthreads);
    ChunkEnd(|R|, nthreads);
    assert Parts(R, nthreads, pc)[..nthreads] == Parts(R, nthreads, pc) && R[..|R|] == R;
  }

  // ----- what holds at all times -----

  ghost predicate Sizes(R: Relation, s: State, num: nat) {
    && |s.stage| == |s.pc| == |s.bufs| >= 1 && |s.latch| == |s.table.heads| == num
    && Counters(|R|, |s.pc|, s.pc)
  }

  /** The head a thread's next tuple belongs to. */
  function Want(R: Relation, f: Tuple -> int, pc: seq<nat>, t: nat): int
    requires Counters(|R|, |pc|, pc) && t < |pc|
  {
    if pc[t] < ChunkLength(|R|, |pc|, t) then f(R[NextItem(|R|, |pc|, pc, t)]) else -1
  }

  predicate Busy(s: State, t: nat)
    requires t < |s.stage|
  {
    s.stage[t] != Unlocked
  }

  /** A latch is set exactly while one thread is busy at it. */
  ghost predicate Latching(R: Relation, f: Tuple -> int, s: State, num: nat)
    requires Sizes(R, s, num)
  {
    && (forall t {:trigger Busy(s, t)} ::
           0 <= t < |s.pc| && Busy(s, t) ==> 0 <= Want(R, f, s.pc, t) < num && s.latch[Want(R, f, s.pc, t)])
    && (forall t, u {:trigger Busy(s, t), Busy(s, u)} ::
           0 <= t < |s.pc| && 0 <= u < |s.pc| && t != u && Busy(s, t) && Busy(s, u) ==>
             Want(R, f, s.pc, t) != Want(R, f, s.pc, u))
    && (forall i {:trigger s.latch[i]} ::
           0 <= i < num && s.latch[i] ==> exists t :: 0 <= t < |s.pc| && Busy(s, t) && Want(R, f, s.pc, t) == i)
  }

  /** What a thread has read under its latch is still so. */
  ghost predicate Current(R: Relation, f: Tuple -> int, s: State, num: nat)
    requires Sizes(R, s, num)
  {
    forall t {:trigger s.stage[t]} :: 0 <= t < |s.pc| && s.stage[t].Loaded? ==>
      var i := Want(R, f, s.pc, t);
      0 <= i < num && s.stage[t].head == s.table.heads[i] && s.stage[t].first == First(s.table, i)
  }

  /** Overflow buckets in use have been handed out to their threads. */
  ghost predicate Handed(s: State) {
    && (forall t :: 0 <= t < |s.bufs| ==> s.bufs[t].count <= OVERFLOW_BUF_SIZE)
    && forall r :: r in s.table.mem ==> r.thread < |s.bufs| && r.n < HandedOut(s.bufs[r.thread])
  }

  /** Every chain holds exactly what has been inserted with its hash. */
  ghost predicate Filled(R: Relation, f: Tuple -> int, s: State, num: nat, p: Plan)
    requires Sizes(R, s, num) && TableOk(s.table, p)
  {
    forall idx {:trigger Contents(s.table, p, idx)} ::
      0 <= idx < num ==> Contents(s.table, p, idx) == Got(R, f, idx, |s.pc|, s.pc)
  }

  ghost predicate Inv(R: Relation, f: Tuple -> int, s: State, num: nat, p: Plan) {
    Sizes(R, s, num) && TableOk(s.table, p) && Latching(R, f, s, num) && Current(R, f, s, num) && Handed(s) &&
      Filled(R, f, s, num, p)
  }

  // ----- the steps of a thread -----

  /** lock: only if nobody holds the latch. */
  function LockStep(R: Relation, f: Tuple -> int, s: State, t: nat): State
    requires t < |s.stage| == |s.pc| && Counters(|R|, |s.pc|, s.pc) && 0 <= Want(R, f, s.pc, t) < |s.latch|
  {
    s.(stage := s.stage[t := Locked], latch := s.latch[Want(R, f, s.pc, t) := true])
  }

  lemma LockKeeps(R: Relation, f: Tuple -> int, s: State, num: nat, p: Plan, t: nat)
    requires Inv(R, f, s, num, p) && t < |s.pc| && !Busy(s, t) && 0 <= Want(R, f, s.pc, t) < num &&
             !s.latch[Want(R, f, s.pc, t)]
    ensures Inv(R, f, LockStep(R, f, s, t), num, p)
  {
    hide TableOk, Filled, Handed, Want, First, Counters;
    var s' := LockStep(R, f, s, t);
    assert Latching(R, f, s', num) by {
      forall u {:trigger Busy(s', u)} | 0 <= u < |s.pc| && Busy(s', u)
        ensures 0 <= Want(R, f, s.pc, u) < num && s'.latch[Want(R, f, s.pc, u)]
      {
        if u != t { assert Busy(s, u); }
      }
      forall u, v {:trigger Busy(s', u), Busy(s', v)}
        | 0 <= u < |s.pc| && 0 <= v < |s.pc| && u != v && Busy(s', u) && Busy(s', v)
        ensures Want(R, f, s.pc, u) != Want(R, f, s.pc, v)
      {
        if u != t { assert Busy(s, u); }
        if v != t { assert Busy(s, v); }
      }
      forall i {:trigger s'.latch[i]} | 0 <= i < num && s'.latch[i]
        ensures exists u :: 0 <= u < |s.pc| && Busy(s', u) && Want(R, f, s.pc, u) == i
      {
        if i == Want(R, f, s.pc, t) {
          assert Busy(s', t);
        } else {
          assert s.latch[i];
          var u :| 0 <= u < |s.pc| && Busy(s, u) && Want(R, f, s.pc, u) == i;
          assert Busy(s', u);
        }
      }
    }
    FilledSame(R, f, s, s', num, p);
  }

  lemma FilledSame(R: Relation, f: Tuple -> int, s: State, s': State, num: nat, p: Plan)
    requires Sizes(R, s, num) && TableOk(s.table, p) && Filled(R, f, s, num, p) && Handed(s)
    requires s'.table == s.table && s'.pc == s.pc && s'.bufs == s.bufs && |s'.stage| == |s.stage| &&
             |s'.latch| == |s.latch|
    ensures Sizes(R, s', num) && Filled(R, f, s', num, p) && Handed(s')
  {
    hide TableOk, Got;
  }

  /** Read the head and the first bucket behind it. */
  function LoadStep(R: Relation, f: Tuple -> int, s: State, t: nat): State
    requires t < |s.stage| == |s.pc| && Counters(|R|, |s.pc|, s.pc) && 0 <= Want(R, f, s.pc, t) < |s.table.heads|
  {
    var i := Want(R, f, s.pc, t);
    s.(stage := s.stage[t := Loaded(s.table.heads[i], First(s.table, i))])
  }

  lemma LoadKeeps(R: Relation, f: Tuple -> int, s: State, num: nat, p: Plan, t: nat)
    requires Inv(R, f, s, num, p) && t < |s.pc| && s.stage[t] == Locked
    ensures 0 <= Want(R, f, s.pc, t) < num && Inv(R, f, LoadStep(R, f, s, t), num, p)
  {
    hide TableOk, Filled, Handed, Want, First, Counters;
    assert Busy(s, t);
    var s' := LoadStep(R, f, s, t);
    forall u ensures 0 <= u < |s.pc| ==> (Busy(s', u) <==> Busy(s, u)) {}
    assert Latching(R, f, s', num) by {
      forall i {:trigger s'.latch[i]} | 0 <= i < num && s'.latch[i]
        ensures exists u :: 0 <= u < |s.pc| && Busy(s', u) && Want(R, f, s.pc, u) == i
      {
        assert s.latch[i];
      }
    }
    FilledSame(R, f, s, s', num, p);
  }

  /** Write the tuple where there was room, in a new bucket if there was none, and release. */
  function StoreStep(R: Relation, f: Tuple -> int, s: State, t: nat): State
    requires t < |s.stage| == |s.pc| == |s.bufs| && Counters(|R|, |s.pc|, s.pc) && pcLeft(R, s, t)
    requires 0 <= Want(R, f, s.pc, t) < |s.table.heads| == |s.latch| && s.stage[t].Loaded?
  {
    var i, x := Want(R, f, s.pc, t), R[NextItem(|R|, |s.pc|, s.pc, t)];
    var (b, buf') := GetNewBucket(t, s.bufs[t]);
    State(Store(s.table, i, s.stage[t].head, s.stage[t].first, x, b), s.stage[t := Unlocked],
          s.pc[t := s.pc[t] + 1], s.latch[i := false],
          if Room(s.stage[t].head, s.stage[t].first).InNew? then s.bufs[t := buf'] else s.bufs)
  }

  predicate pcLeft(R: Relation, s: State, t: nat)
    requires t < |s.pc| && Counters(|R|, |s.pc|, s.pc)
  {
    s.pc[t] < ChunkLength(|R|, |s.pc|, t)
  }

  lemma WantOthers(R: Relation, f: Tuple -> int, pc: seq<nat>, t: nat, u: nat)
    requires Counters(|R|, |pc|, pc) && t < |pc| && u < |pc| && u != t && pc[t] < ChunkLength(|R|, |pc|, t)
    ensures Counters(|R|, |pc|, pc[t := pc[t] + 1]) && Want(R, f, pc[t := pc[t] + 1], u) == Want(R, f, pc, u)
  {
    CountersStep(|R|, |pc|, pc, t, t, 0);
  }

  /** A thread with copies has a tuple to write, and its copies are what is there. */
  lemma LoadedHas(R: Relation, f: Tuple -> int, s: State, num: nat, p: Plan, t: nat)
    requires Inv(R, f, s, num, p) && t < |s.pc| && s.stage[t].Loaded?
    ensures pcLeft(R, s, t) && Counters(|R|, |s.pc|, s.pc[t := s.pc[t] + 1])
    ensures var i := Want(R, f, s.pc, t);
            0 <= i < num && s.latch[i] && s.stage[t].head == s.table.heads[i] && s.stage[t].first == First(s.table, i)
    ensures GetNewBucket(t, s.bufs[t]).0 !in s.table.mem
  {
    hide TableOk, Filled, First;
    assert Busy(s, t);
    CountersStep(|R|, |s.pc|, s.pc, t, t, 0);
    NewBucketIsNew(t, s.bufs[t]);
  }

  lemma StoreLatching(R: Relation, f: Tuple -> int, s: State, num: nat, p: Plan, t: nat)
    requires Inv(R, f, s, num, p) && t < |s.pc| && s.stage[t].Loaded? && pcLeft(R, s, t)
    requires 0 <= Want(R, f, s.pc, t) < num && Sizes(R, StoreStep(R, f, s, t), num)
    ensures Latching(R, f, StoreStep(R, f, s, t), num)
  {
    hide TableOk, Filled, Handed, Want, First, Counters, Store, Room, GetNewBucket, Current, ChunkLength;
    var s' := StoreStep(R, f, s, t);
    assert Busy(s, t) && !Busy(s', t);
    forall u | 0 <= u < |s.pc| && u != t
      ensures (Busy(s', u) <==> Busy(s, u)) && Want(R, f, s'.pc, u) == Want(R, f, s.pc, u)
    {
      WantOthers(R, f, s.pc, t, u);
    }
    forall i {:trigger s'.latch[i]} | 0 <= i < num && s'.latch[i]
      ensures exists u :: 0 <= u < |s.pc| && Busy(s', u) && Want(R, f, s'.pc, u) == i
    {
      assert s.latch[i];
      var u :| 0 <= u < |s.pc| && Busy(s, u) && Want(R, f, s.pc, u) == i;
      assert Busy(s', u);
    }
  }

  lemma StoreKeeps(R: Relation, f: Tuple -> int, s: State, num: nat, p: Plan, t: nat) returns (p': Plan)
    requires Inv(R, f, s, num, p) && t < |s.pc| && s.stage[t].Loaded?
    ensures pcLeft(R, s, t) && 0 <= Want(R, f, s.pc, t) < num && Inv(R, f, StoreStep(R, f, s, t), num, p')
  {
    hide TableOk, Want, First, Store, Room, GetNewBucket, ChunkLength, Got, Contents, PlanAfter, ChunkStart;
    LoadedHas(R, f, s, num, p, t);
    var i, x, b := Want(R, f, s.pc, t), R[NextItem(|R|, |s.pc|, s.pc, t)], GetNewBucket(t, s.bufs[t]).0;
    var s' := StoreStep(R, f, s, t);
    PlanFits(s.table, p);
    p' := PlanAfter(p, i, s.table.heads[i], First(s.table, i), b);
    HashTable.StoreStep(s.table, p, i, x, b);
    NewBucketIsNew(t, s.bufs[t]);
    StoreLatching(R, f, s, num, p, t);
    StoreHanded(R, f, s, num, p, t);
    assert Current(R, f, s', num) by {
      forall u {:trigger s'.stage[u]} | 0 <= u < |s.pc| && s'.stage[u].Loaded?
        ensures var k := Want(R, f, s'.pc, u);
                0 <= k < num && s'.stage[u].head == s'.table.heads[k] && s'.stage[u].first == First(s'.table, k)
      {
        WantOthers(R, f, s.pc, t, u);
        assert Busy(s, t) && Busy(s, u) && s.stage[u] == s'.stage[u];
      }
    }
    forall k {:trigger Contents(s'.table, p', k)} | 0 <= k < num
      ensures Contents(s'.table, p', k) == Got(R, f, k, |s'.pc|, s'.pc)
    {
      GotStep(R, f, k, |s.pc|, s.pc, t);
      WantIs(R, f, s.pc, t);
      assert Contents(s.table, p, k) == Got(R, f, k, |s.pc|, s.pc);
    }
  }

  lemma PlanFits(t: Table, p: Plan)
    requires TableOk(t, p)
    ensures |p.chains| == |t.heads|
  {
  }

  lemma WantIs(R: Relation, f: Tuple -> int, pc: seq<nat>, t: nat)
    requires Counters(|R|, |pc|, pc) && t < |pc| && pc[t] < ChunkLength(|R|, |pc|, t)
    ensures Want(R, f, pc, t) == f(R[NextItem(|R|, |pc|, pc, t)])
  {
  }

  lemma StoreHanded(R: Relation, f: Tuple -> int, s: State, num: nat, p: Plan, t: nat)
    requires Inv(R, f, s, num, p) && t < |s.pc| && s.stage[t].Loaded? && pcLeft(R, s, t) &&
             0 <= Want(R, f, s.pc, t) < num
    requires var i := Want(R, f, s.pc, t);
             s.stage[t].head == s.table.heads[i] && s.stage[t].first == First(s.table, i)
    ensures Handed(StoreStep(R, f, s, t))
  {
    hide TableOk, Want, ChunkLength, Got, Contents, ChunkStart, Filled, Latching, Current;
    NewBucketIsNew(t, s.bufs[t]);
  }

  // ----- every run -----

  predicate Unfinished(R: Relation, s: State, t: nat)
    requires t < |s.pc| == |s.stage| && Counters(|R|, |s.pc|, s.pc)
  {
    Busy(s, t) || pcLeft(R, s, t)
  }

  predicate CanMove(R: Relation, f: Tuple -> int, s: State, t: nat)
    requires t < |s.pc| == |s.stage| && Counters(|R|, |s.pc|, s.pc)
  {
    Busy(s, t) || (0 <= Want(R, f, s.pc, t) < |s.latch| && !s.latch[Want(R, f, s.pc, t)])
  }

  /** No state that can be reached is a deadlock: while there is something to do, some thread
      can take a step. */
  lemma SomeoneCanMove(R: Relation, f: Tuple -> int, s: State, num: nat, p: Plan, t: nat) returns (u: nat)
    requires Inv(R, f, s, num, p) && Hashes(f, num) && t < |s.pc| && Unfinished(R, s, t)
    ensures u < |s.pc| && CanMove(R, f, s, u)
  {
    u := t;
    if !Busy(s, t) {
      WantIs(R, f, s.pc, t);
      if s.latch[Want(R, f, s.pc, t)] {
        u :| 0 <= u < |s.pc| && Busy(s, u) && Want(R, f, s.pc, u) == Want(R, f, s.pc, t);
      }
    }
  }

  ghost function Rank(): Stage -> nat {
    (g: Stage) => if g.Unlocked? then 2 else if g.Locked? then 1 else 0
  }

  lemma RankStep(stage: seq<Stage>, t: nat, g: Stage)
    requires t < |stage| && Rank()(g) < Rank()(stage[t])
    ensures Sum(stage[t := g], Rank()) < Sum(stage, Rank())
  {
    SumUpdate(stage, t, g, Rank());
  }

  /** One step of a thread that can move. */
  method Step(R: Relation, f: Tuple -> int, s: State, num: nat, t: nat, ghost p: Plan)
    returns (s': State, ghost p': Plan)
    requires Inv(R, f, s, num, p) && t < |s.pc| && CanMove(R, f, s, t)
    ensures Inv(R, f, s', num, p') && |s'.pc| == |s.pc|
    ensures Left(|R|, |s.pc|, s'.pc, |s.pc|) < Left(|R|, |s.pc|, s.pc, |s.pc|) ||
            (s'.pc == s.pc && Sum(s'.stage, Rank()) < Sum(s.stage, Rank()))
  {
    hide TableOk, Filled, Want, First, Store, Room, GetNewBucket, ChunkLength, ChunkStart, Sum, Latching, Current,
         Handed, Left;
    match s.stage[t]
    case Unlocked =>
      LockKeeps(R, f, s, num, p, t);
      RankStep(s.stage, t, Locked);
      s', p' := LockStep(R, f, s, t), p;
    case Locked =>
      LoadKeeps(R, f, s, num, p, t);
      s', p' := LoadStep(R, f, s, t), p;
      RankStep(s.stage, t, s'.stage[t]);
    case Loaded(_, _) =>
      p' := StoreKeeps(R, f, s, num, p, t);
      s' := StoreStep(R, f, s, t);
      LeftShrinks(|R|, |s.pc|, s.pc, t, |s.pc|);
  }

  /** The whole build, for any schedule. In the end every chain has the right shape and holds
      exactly the tuples of its hash. */
  method Build(R: Relation, f: Tuple -> int, num: nat, nthreads: nat) returns (table: Table, ghost p: Plan)
    requires Hashes(f, num) && nthreads >= 1
    ensures |table.heads| == num && TableOk(table, p)
    ensures forall idx :: 0 <= idx < num ==> Contents(table, p, idx) == multiset(Filter(R, f, idx))
    ensures forall r :: r in table.mem ==> r.thread < nthreads
  {
    hide TableOk, Filled, Want, First, Store, Room, GetNewBucket, ChunkLength, ChunkStart, Sum, Latching, Current,
         Handed, Left, Filter, Counters;
    var t0;
    t0, p := Allocate(num);
    var s := State(t0, seq(nthreads, _ => Unlocked), seq(nthreads, _ => 0), seq(num, _ => false),
        seq(nthreads, _ => Buffers(0, 0)));
    Begin(R, f, s, num, p);
    while exists t :: 0 <= t < nthreads && Unfinished(R, s, t)
      invariant Inv(R, f, s, num, p) && |s.pc| == nthreads
      decreases Left(|R|, nthreads, s.pc, nthreads), Sum(s.stage, Rank())
    {
      ghost var todo :| 0 <= todo < nthreads && Unfinished(R, s, todo);
      ghost var able := SomeoneCanMove(R, f, s, num, p, todo);
      var t :| 0 <= t < nthreads && CanMove(R, f, s, t);
      s, p := Step(R, f, s, num, t, p);
    }
    table := s.table;
    End(R, f, s, num, p);
    Owners(R, f, s, num, p);
  }

  /** Every overflow bucket has been handed out by one of the threads. */
  lemma Owners(R: Relation, f: Tuple -> int, s: State, num: nat, p: Plan)
    requires Inv(R, f, s, num, p)
    ensures forall r :: r in s.table.mem ==> r.thread < |s.pc|
  {
    hide TableOk, Filled, Latching, Current;
  }

  lemma Begin(R: Relation, f: Tuple -> int, s: State, num: nat, p: Plan)
    requires |s.stage| == |s.pc| == |s.bufs| >= 1 && |s.latch| == |s.table.heads| == num && s.table.mem == map[] &&
             TableOk(s.table, p)
    requires forall t :: 0 <= t < |s.pc| ==> s.stage[t] == Unlocked && s.pc[t] == 0 && s.bufs[t] == Buffers(0, 0)
    requires forall i :: 0 <= i < num ==> !s.latch[i] && Contents(s.table, p, i) == multiset{}
    ensures Inv(R, f, s, num, p)
  {
    hide TableOk, Got, Contents;
    forall idx | 0 <= idx < num
      ensures Got(R, f, idx, |s.pc|, s.pc) == multiset{}
    {
      GotNothing(R, f, idx, |s.pc|, s.pc);
    }
  }

  lemma End(R: Relation, f: Tuple -> int, s: State, num: nat, p: Plan)
    requires Inv(R, f, s, num, p) && forall t :: 0 <= t < |s.pc| ==> !Unfinished(R, s, t)
    ensures forall idx :: 0 <= idx < num ==> Contents(s.table, p, idx) == multiset(Filter(R, f, idx))
  {
    hide TableOk, Got, Contents, Filter, Latching, Current;
    forall t | 0 <= t < |s.pc| ensures s.pc[t] == ChunkLength(|R|, |s.pc|, t) { assert !Unfinished(R, s, t); }
    forall idx | 0 <= idx < num
      ensures Contents(s.table, p, idx) == multiset(Filter(R, f, idx))
    {
      GotAll(R, f, idx, |s.pc|, s.pc);
    }
  }
}
