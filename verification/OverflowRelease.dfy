/** The end of npo_thread in no_partitioning_join.c: a thread that has probed its share frees the
    overflow buckets it has handed out while building, although they stand in chains that other
    threads may still be walking along. With the barrier in front of it, which is there for the
    timing, this is safe; without that barrier it is safe only if nobody walks along buckets of
    others. */
module OverflowRelease {
  import opened BucketChains

  /** How many buckets each thread has read, and who has freed its own. */
  datatype State = State(read: seq<nat>, freed: set<nat>)

  /** Thread t reads the buckets trace[t], one after the other. */
  ghost predicate CanRead(trace: seq<seq<Ref>>, s: State, t: nat) {
    t < |trace| == |s.read| && s.read[t] < |trace[t]|
  }

  function ReadStep(s: State, t: nat): State
    requires t < |s.read|
  {
    s.(read := s.read[t := s.read[t] + 1])
  }

  ghost predicate Through(trace: seq<seq<Ref>>, s: State, t: nat) {
    t < |trace| == |s.read| && s.read[t] == |trace[t]|
  }

  /** A thread frees its buckets when it is through; with the barrier, when all are. */
  ghost predicate CanFree(trace: seq<seq<Ref>>, barrier: bool, s: State, t: nat) {
    Through(trace, s, t) && (barrier ==> forall u: nat :: u < |trace| ==> Through(trace, s, u))
  }

  function FreeStep(s: State, t: nat): State {
    s.(freed := s.freed + {t})
  }

  ghost predicate Next(trace: seq<seq<Ref>>, barrier: bool, s: State, s': State) {
    || (exists t: nat :: CanRead(trace, s, t) && s' == ReadStep(s, t))
    || (exists t: nat :: CanFree(trace, barrier, s, t) && s' == FreeStep(s, t))
  }

  function Initial(n: nat): State {
    State(seq(n, _ => 0), {})
  }

  ghost predicate IsRun(trace: seq<seq<Ref>>, barrier: bool, run: seq<State>) {
    && |run| >= 1 && run[0] == Initial(|trace|)
    && forall i {:trigger run[i]} :: 0 <= i < |run| - 1 ==> Next(trace, barrier, run[i], run[i + 1])
  }

  /** Some thread is about to read a bucket that has been freed. */
  ghost predicate Touches(trace: seq<seq<Ref>>, s: State) {
    exists t: nat :: CanRead(trace, s, t) && trace[t][s.read[t]].thread in s.freed
  }

  /** In no run does a thread read a bucket that has been freed. */
  ghost predicate Safe(trace: seq<seq<Ref>>, barrier: bool) {
    forall run :: IsRun(trace, barrier, run) ==> !Touches(trace, run[|run|-1])
  }

  /** Every thread reads buckets of its own only. */
  ghost predicate OwnOnly(trace: seq<seq<Ref>>) {
    forall t, k :: 0 <= t < |trace| && 0 <= k < |trace[t]| ==> trace[t][k].thread == t
  }

  // ----- runs -----

  /** Before the first is freed all are through, if there is the barrier; and otherwise those
      who have freed their buckets are. */
  ghost predicate Orderly(trace: seq<seq<Ref>>, barrier: bool, s: State) {
    && |s.read| == |trace|
    && (forall t: nat :: t in s.freed ==> Through(trace, s, t))
    && (barrier && s.freed != {} ==> forall t: nat :: t < |trace| ==> Through(trace, s, t))
  }

  lemma NextOrderly(trace: seq<seq<Ref>>, barrier: bool, s: State, s': State)
    requires Orderly(trace, barrier, s) && Next(trace, barrier, s, s')
    ensures Orderly(trace, barrier, s')
  {
    if t: nat :| CanRead(trace, s, t) && s' == ReadStep(s, t) {
      assert !Through(trace, s, t);
      forall u: nat | u in s'.freed ensures Through(trace, s', u) { assert Through(trace, s, u); }
    } else {
      var t: nat :| CanFree(trace, barrier, s, t) && s' == FreeStep(s, t);
      forall u: nat | u in s'.freed ensures Through(trace, s', u) { assert u in s.freed || u == t; }
      if barrier {
        forall u: nat | u < |trace| ensures Through(trace, s', u) { assert Through(trace, s, u); }
      }
    }
  }

  lemma {:induction false} RunOrderly(trace: seq<seq<Ref>>, barrier: bool, run: seq<State>)
    requires IsRun(trace, barrier, run)
    ensures Orderly(trace, barrier, run[|run|-1])
    decreases |run|
  {
    hide Next, Orderly;
    if |run| == 1 {
      BeginsOrderly(trace, barrier);
    } else {
      var n := |run| - 1;
      var before := run[..n];
      forall i {:trigger before[i]} | 0 <= i < |before| - 1 ensures Next(trace, barrier, before[i], before[i + 1]) {
        assert before[i] == run[i] && before[i + 1] == run[i + 1];
      }
      RunOrderly(trace, barrier, before);
      assert Next(trace, barrier, run[n - 1], run[n - 1 + 1]);
      NextOrderly(trace, barrier, run[n - 1], run[n]);
    }
  }

  lemma BeginsOrderly(trace: seq<seq<Ref>>, barrier: bool)
    ensures Orderly(trace, barrier, Initial(|trace|))
  {
  }

  lemma OrderlyIsSafe(trace: seq<seq<Ref>>, barrier: bool, s: State)
    requires Orderly(trace, barrier, s) && (barrier || OwnOnly(trace))
    ensures !Touches(trace, s)
  {
    forall t: nat | CanRead(trace, s, t) ensures trace[t][s.read[t]].thread !in s.freed {
      assert !Through(trace, s, t);
    }
  }

  /** With the barrier nobody reads a bucket that has been freed, whatever the schedule. */
  lemma SafeWithBarrier(trace: seq<seq<Ref>>)
    ensures Safe(trace, true)
  {
    forall run | IsRun(trace, true, run) ensures !Touches(trace, run[|run|-1]) {
      RunOrderly(trace, true, run);
      OrderlyIsSafe(trace, true, run[|run|-1]);
    }
  }

  lemma SafeOnOwn(trace: seq<seq<Ref>>)
    requires OwnOnly(trace)
    ensures Safe(trace, false)
  {
    forall run | IsRun(trace, false, run) ensures !Touches(trace, run[|run|-1]) {
      RunOrderly(trace, false, run);
      OrderlyIsSafe(trace, false, run[|run|-1]);
    }
  }

  // ----- a run that goes wrong -----

  lemma OneMoreStep(trace: seq<seq<Ref>>, run: seq<State>, s': State)
    requires IsRun(trace, false, run) && Next(trace, false, run[|run|-1], s')
    ensures IsRun(trace, false, run + [s'])
  {
    hide Next;
    var run' := run + [s'];
    forall i {:trigger run'[i]} | 0 <= i < |run'| - 1 ensures Next(trace, false, run'[i], run'[i + 1]) {
      if i < |run| - 1 {
        assert run'[i] == run[i] && run'[i + 1] == run[i + 1];
      } else {
        assert run'[i] == run[|run|-1] && run'[i + 1] == s';
      }
    }
  }

  /** Thread t goes on until it has read m buckets; nobody else moves. */
  lemma {:induction false} ReadUpTo(trace: seq<seq<Ref>>, run: seq<State>, t: nat, m: nat) returns (run': seq<State>)
    requires IsRun(trace, false, run) && t < |trace| && m <= |trace[t]|
    requires |run[|run|-1].read| == |trace| && run[|run|-1].read[t] <= m
    ensures IsRun(trace, false, run')
    ensures var s, s' := run[|run|-1], run'[|run'|-1];
            s' == s.(read := s.read[t := m])
    decreases m - run[|run|-1].read[t]
  {
    hide IsRun;
    RunNotEmpty(trace, run);
    var s := run[|run|-1];
    if s.read[t] == m {
      assert s.read[t := m] == s.read;
      run' := run;
    } else {
      assert CanRead(trace, s, t);
      OneMoreStep(trace, run, ReadStep(s, t));
      run' := ReadUpTo(trace, run + [ReadStep(s, t)], t, m);
      assert ReadStep(s, t).read[t := m] == s.read[t := m];
    }
  }

  lemma RunNotEmpty(trace: seq<seq<Ref>>, run: seq<State>)
    requires IsRun(trace, false, run)
    ensures |run| >= 1
  {
  }

  /** If u is to read a bucket of t, t may free it first. */
  lemma FreedFirst(trace: seq<seq<Ref>>, u: nat, k: nat) returns (run: seq<State>)
    requires u < |trace| && k < |trace[u]| && trace[u][k].thread < |trace| && trace[u][k].thread != u
    ensures IsRun(trace, false, run) && Touches(trace, run[|run|-1])
  {
    var t, start := trace[u][k].thread, [Initial(|trace|)];
    assert IsRun(trace, false, start);
    var first := ReadUpTo(trace, start, t, |trace[t]|);
    var s := first[|first|-1];
    assert CanFree(trace, false, s, t);
    OneMoreStep(trace, first, FreeStep(s, t));
    run := ReadUpTo(trace, first + [FreeStep(s, t)], u, k);
    var last := run[|run|-1];
    assert CanRead(trace, last, u) && trace[u][last.read[u]].thread in last.freed;
  }

  /** Without the barrier it is safe if and only if every thread walks along its own buckets
      only. */
  lemma SafeWithoutBarrier(trace: seq<seq<Ref>>)
    requires forall t, k :: 0 <= t < |trace| && 0 <= k < |trace[t]| ==> trace[t][k].thread < |trace|
    ensures Safe(trace, false) <==> OwnOnly(trace)
  {
    if OwnOnly(trace) {
      SafeOnOwn(trace);
    } else {
      var u, k :| 0 <= u < |trace| && 0 <= k < |trace[u]| && trace[u][k].thread != u;
      var run := FreedFirst(trace, u, k);
    }
  }
}
