/** Several threads scattering one relation, each its own chunk, in any interleaving: what is
    true after every step, and that the end result does not depend on the schedule. */
module ThreadedScatter {
  import opened Chunks
  import opened StablePartition

  /** pc[t] items of thread t's chunk are done. */
  ghost predicate Counters(n: nat, nthreads: nat, pc: seq<nat>) {
    nthreads >= 1 && |pc| == nthreads && forall t :: 0 <= t < nthreads ==> pc[t] <= ChunkLength(n, nthreads, t)
  }

  ghost predicate AllDone(n: nat, nthreads: nat, pc: seq<nat>)
    requires Counters(n, nthreads, pc)
  {
    forall t :: 0 <= t < nthreads ==> pc[t] == ChunkLength(n, nthreads, t)
  }

  /** Item i has been handled by its thread. */
  ghost predicate Handled(n: nat, nthreads: nat, pc: seq<nat>, t: nat, i: nat)
    requires Counters(n, nthreads, pc)
  {
    t < nthreads && ChunkStart(n, nthreads, t) <= i < ChunkStart(n, nthreads, t) + pc[t]
  }

  /** Every handled item stands at its target; outside lo..hi nothing has changed. */
  ghost predicate Progressed<T>(s: seq<T>, pl: seq<int>, out0: seq<T>, out: seq<T>, lo: int, hi: int, nthreads: nat,
                                pc: seq<nat>)
  {
    && Counters(|s|, nthreads, pc) && |pl| == |s| && |out| == |out0| && 0 <= lo <= hi <= |out|
    && (forall t, i {:trigger Handled(|s|, nthreads, pc, t, i)} ::
           Handled(|s|, nthreads, pc, t, i) ==> WrittenAt(s, pl, out, i))
    && (forall q :: 0 <= q < lo || hi <= q < |out| ==> out[q] == out0[q])
  }

  ghost predicate WrittenAt<T>(s: seq<T>, pl: seq<int>, out: seq<T>, i: nat) {
    i < |s| && i < |pl| && 0 <= pl[i] < |out| && out[pl[i]] == s[i]
  }

  /** The next item of thread t. */
  function NextItem(n: nat, nthreads: nat, pc: seq<nat>, t: nat): (i: nat)
    requires Counters(n, nthreads, pc) && t < nthreads && pc[t] < ChunkLength(n, nthreads, t)
    ensures i < n
  {
    ChunksAscend(n, nthreads, t + 1, nthreads);
    ChunkStart(n, nthreads, t) + pc[t]
  }

  lemma CountersStep(n: nat, nthreads: nat, pc: seq<nat>, t: nat, u: nat, i: nat)
    requires Counters(n, nthreads, pc) && t < nthreads && pc[t] < ChunkLength(n, nthreads, t)
    ensures Counters(n, nthreads, pc[t := pc[t] + 1])
    ensures Handled(n, nthreads, pc[t := pc[t] + 1], u, i) <==>
            Handled(n, nthreads, pc, u, i) || (u == t && i == NextItem(n, nthreads, pc, t))
  {
  }

  /** The place thread t writes next has not been written by any thread. */
  lemma NoCollision(n: nat, pl: seq<int>, lo: int, hi: int, nthreads: nat, pc: seq<nat>, t: nat, u: nat, i: nat)
    requires Targets(pl, lo, hi) && |pl| == n && Counters(n, nthreads, pc)
    requires t < nthreads && pc[t] < ChunkLength(n, nthreads, t) && Handled(n, nthreads, pc, u, i)
    ensures i < n && i != NextItem(n, nthreads, pc, t) && pl[i] != pl[NextItem(n, nthreads, pc, t)]
  {
    hide ChunkStart, ChunkLength;
    var k := NextItem(n, nthreads, pc, t);
    ChunksAscend(n, nthreads, u + 1, nthreads);
    if i == k { OneOwner(n, nthreads, t, u, i); }
  }

  /** One write by any thread. */
  lemma ThreadStep<T>(s: seq<T>, pl: seq<int>, out0: seq<T>, out: seq<T>, lo: int, hi: int, nthreads: nat,
                      pc: seq<nat>, t: nat)
    requires Progressed(s, pl, out0, out, lo, hi, nthreads, pc) && Targets(pl, lo, hi)
    requires t < nthreads && pc[t] < ChunkLength(|s|, nthreads, t)
    ensures var k := NextItem(|s|, nthreads, pc, t);
            Progressed(s, pl, out0, out[pl[k] := s[k]], lo, hi, nthreads, pc[t := pc[t] + 1])
  {
    hide ChunkStart, ChunkLength;
    var k := NextItem(|s|, nthreads, pc, t);
    var pc', out' := pc[t := pc[t] + 1], out[pl[k] := s[k]];
    CountersStep(|s|, nthreads, pc, t, t, k);
    forall u, i {:trigger Handled(|s|, nthreads, pc', u, i)} | Handled(|s|, nthreads, pc', u, i)
      ensures WrittenAt(s, pl, out', i)
    {
      CountersStep(|s|, nthreads, pc, t, u, i);
      if Handled(|s|, nthreads, pc, u, i) {
        NoCollision(|s|, pl, lo, hi, nthreads, pc, t, u, i);
        assert WrittenAt(s, pl, out, i);
      }
    }
  }

  /** When all threads are through, everything has been written, whatever the schedule was. */
  lemma ThreadsDone<T>(s: seq<T>, pl: seq<int>, out0: seq<T>, out: seq<T>, lo: int, hi: int, nthreads: nat,
                       pc: seq<nat>)
    requires Progressed(s, pl, out0, out, lo, hi, nthreads, pc) && AllDone(|s|, nthreads, pc)
    ensures ScatteredUpTo(s, pl, out0, out, lo, hi, |s|)
  {
    hide ChunkStart, ChunkLength;
    forall i | 0 <= i < |s| ensures 0 <= pl[i] < |out| && out[pl[i]] == s[i] {
      ChunkEnd(|s|, nthreads);
      var t := OwnerOf(|s|, nthreads, i, nthreads);
      assert Handled(|s|, nthreads, pc, t, i);
    }
  }

  lemma ChunkEnd(n: nat, nthreads: nat)
    requires nthreads >= 1
    ensures ChunkStart(n, nthreads, nthreads) == n && ChunkStart(n, nthreads, 0) == 0
  {
  }

  lemma ThreadsBegin<T>(s: seq<T>, pl: seq<int>, out0: seq<T>, lo: int, hi: int, nthreads: nat, pc: seq<nat>)
    requires |pl| == |s| && 0 <= lo <= hi <= |out0| && nthreads >= 1
    requires |pc| == nthreads && forall t :: 0 <= t < nthreads ==> pc[t] == 0
    ensures Progressed(s, pl, out0, out0, lo, hi, nthreads, pc)
  {
  }

  /** What is still to do, as a measure for the scheduler loop. */
  ghost function Left(n: nat, nthreads: nat, pc: seq<nat>, m: nat): nat
    requires Counters(n, nthreads, pc) && m <= nthreads
  {
    if m == 0 then 0 else Left(n, nthreads, pc, m - 1) + (ChunkLength(n, nthreads, m - 1) - pc[m - 1])
  }

  lemma {:induction false} LeftShrinks(n: nat, nthreads: nat, pc: seq<nat>, t: nat, m: nat)
    requires Counters(n, nthreads, pc) && t < nthreads && pc[t] < ChunkLength(n, nthreads, t) && m <= nthreads
    requires Counters(n, nthreads, pc[t := pc[t] + 1])
    ensures Left(n, nthreads, pc[t := pc[t] + 1], m) == Left(n, nthreads, pc, m) - if t < m then 1 else 0
  {
    if m > 0 { LeftShrinks(n, nthreads, pc, t, m - 1); }
  }

  /** The digits of thread t's items. */
  function Chunk(d: seq<int>, nthreads: nat, t: nat): (c: seq<int>)
    requires t < nthreads
    ensures |c| == ChunkLength(|d|, nthreads, t)
  {
    ChunksAscend(|d|, nthreads, t + 1, nthreads);
    d[ChunkStart(|d|, nthreads, t)..ChunkStart(|d|, nthreads, t + 1)]
  }

  /** Threads that have not set their flag yet. */
  ghost function Unfinished(flags: seq<bool>): set<nat> {
    set t: nat | t < |flags| && !flags[t]
  }

  lemma FinishOne(flags: seq<bool>, t: nat)
    requires t < |flags| && !flags[t]
    ensures Unfinished(flags[t := true]) < Unfinished(flags)
  {
    assert t in Unfinished(flags) && t !in Unfinished(flags[t := true]);
  }

  lemma ChunkNonnegative(d: seq<int>, nthreads: nat, t: nat)
    requires Nonnegative(d) && t < nthreads
    ensures Nonnegative(Chunk(d, nthreads, t))
  {
  }
}
