/** The parallel radix join of parallel_radix_join.c from end to end: first pass by all threads
    together, tasks from the cluster boundaries, second pass and join phase from task queues. */
module ParallelRadixJoin {
  import opened ClusterLayout
  import opened Counting
  import opened JoinPhase
  import opened JoinSpec
  import opened KeyBits
  import opened ParallelPartition
  import opened RadixTasks
  import opened SecondPass
  import opened SerialPartition
  import opened StablePartition
  import opened Sums
  import opened TaskQueue

  /** The output row of thread 0: cluster starts, and where the next cluster would start. */
  ghost predicate Boundaries(output: seq<int>, rel: Relation, l: Layout) {
    |output| == Pow2(l.bits1) + 1 && forall c :: 0 <= c <= Pow2(l.bits1) ==> output[c] == PartStart(rel, l, c)
  }

  lemma OutputIsBoundaries(output: seq<int>, rel: Relation, l: Layout)
    requires |output| == Pow2(l.bits1) + 1 && output[Pow2(l.bits1)] == |rel| + Pow2(l.bits1) * Gap(l)
    requires forall c :: 0 <= c < Pow2(l.bits1) ==> output[c] == Below(Digits(rel, First(l)), c) + c * Gap(l)
    ensures Boundaries(output, rel, l)
  {
    hide Pow2, Gap, Digits, Below, PartStart, First;
    EndIs(rel, l);
    forall c | 0 <= c < Pow2(l.bits1) ensures output[c] == PartStart(rel, l, c) { StartIs(rel, l, c); }
  }

  lemma EndIs(rel: Relation, l: Layout)
    ensures PartStart(rel, l, Pow2(l.bits1)) == |rel| + Pow2(l.bits1) * Gap(l)
  {
    hide Pow2, Gap, Digits, Below, ClusterStart;
    KeyBitsInRange(rel, 0, l.bits1);
    ClusterEnds(rel, First(l), 0, Gap(l), Pow2(l.bits1));
  }

  lemma StartIs(rel: Relation, l: Layout, c: nat)
    ensures PartStart(rel, l, c) == Below(Digits(rel, First(l)), c) + c * Gap(l)
  {
  }

  /** The size of a cluster, read off the boundaries. */
  lemma BoundaryDifference(output: seq<int>, rel: Relation, l: Layout, c: nat)
    requires Boundaries(output, rel, l) && c < Pow2(l.bits1)
    ensures output[c + 1] - output[c] - Gap(l) == |Part(rel, l, c)|
  {
    hide ClusterStart, Gap, Filter;
    ClusterFollows(rel, First(l), 0, Gap(l), c);
  }

  /** Queued tasks, in any order. */
  ghost predicate Tasked(R: Relation, S: Relation, l: Layout, tasks: seq<Task>, k: nat) {
    && multiset(tasks) == multiset(PartTasks(R, S, l, k))
    && (forall i :: 0 <= i < |tasks| ==> IsPartTask(R, S, l, tasks[i]) && tasks[i].cluster < k)
    && (forall i, j :: 0 <= i < j < |tasks| ==> tasks[i].cluster != tasks[j].cluster)
  }

  lemma TaskedStep(R: Relation, S: Relation, l: Layout, tasks: seq<Task>, k: nat)
    requires Tasked(R, S, l, tasks, k) && k < Pow2(l.bits1)
    ensures var both := |Part(R, l, k)| > 0 && |Part(S, l, k)| > 0;
            Tasked(R, S, l, (if both then [PartTask(R, S, l, k)] else []) + tasks, k + 1)
  {
    hide Part, PartStart, PartTasks, Pow2;
    var both := |Part(R, l, k)| > 0 && |Part(S, l, k)| > 0;
    var more := if both then [PartTask(R, S, l, k)] else [];
    OneMorePart(R, S, l, k);
    EitherOrder(PartTasks(R, S, l, k), tasks, more);
  }

  lemma OneMorePart(R: Relation, S: Relation, l: Layout, k: nat)
    ensures PartTasks(R, S, l, k + 1) ==
            PartTasks(R, S, l, k) + if |Part(R, l, k)| > 0 && |Part(S, l, k)| > 0 then [PartTask(R, S, l, k)] else []
  {
  }

  lemma EitherOrder(a: seq<Task>, b: seq<Task>, more: seq<Task>)
    requires multiset(a) == multiset(b)
    ensures multiset(more + b) == multiset(a + more)
  {
  }

  /** Thread 0 makes a task of every pair of clusters neither of which is empty. */
  method MakePartTasks(outputR: seq<int>, outputS: seq<int>, queue: Queue, l: Layout, ghost R: Relation,
                       ghost S: Relation)
    requires Boundaries(outputR, R, l) && Boundaries(outputS, S, l) && queue.Valid() && queue.Tasks() == []
    modifies queue
    ensures queue.Valid() && Tasked(R, S, l, queue.Tasks(), Pow2(l.bits1))
  {
    hide Boundaries, Tasked, Pow2, Gap, Part, PartStart;
    NoTasksYet(R, S, l);
    var i := 0;
    while i < Pow2(l.bits1)
      invariant 0 <= i <= Pow2(l.bits1) && queue.Valid() && Tasked(R, S, l, queue.Tasks(), i)
    {
      BoundariesAt(outputR, R, l, i);
      BoundariesAt(outputS, S, l, i);
      var ntupR, ntupS := outputR[i + 1] - outputR[i] - Gap(l), outputS[i + 1] - outputS[i] - Gap(l);
      TaskedStep(R, S, l, queue.Tasks(), i);
      AddIfBoth(queue, outputR[i], ntupR, outputS[i], ntupS, i);
      i := i + 1;
    }
  }

  method AddIfBoth(queue: Queue, offR: int, ntupR: int, offS: int, ntupS: int, i: nat)
    requires queue.Valid()
    modifies queue
    ensures queue.Valid()
    ensures queue.Tasks() ==
            (if ntupR > 0 && ntupS > 0 then [Task(offR, ntupR, offS, ntupS, i, 0)] else []) + old(queue.Tasks())
  {
    ghost var before := queue.Tasks();
    assert [] + before == before;
    if ntupR > 0 && ntupS > 0 {
      var t := Task(offR, ntupR, offS, ntupS, i, 0);
      var slot := queue.GetSlot(t);
      queue.Fill(slot, t);
      queue.Add(slot);
    }
  }

  lemma BoundariesAt(output: seq<int>, rel: Relation, l: Layout, c: nat)
    requires Boundaries(output, rel, l) && c < Pow2(l.bits1)
    ensures |output| == Pow2(l.bits1) + 1 && output[c] == PartStart(rel, l, c)
    ensures output[c + 1] - output[c] - Gap(l) == |Part(rel, l, c)|
  {
    BoundaryDifference(output, rel, l, c);
  }

  lemma NoTasksYet(R: Relation, S: Relation, l: Layout)
    ensures Tasked(R, S, l, [], 0)
  {
  }

  /** The first pass over one relation. */
  method FirstPass(rel: array<Tuple>, n: nat, out: array<Tuple>, nthreads: nat, l: Layout) returns (output: seq<int>)
    requires n <= rel.Length && rel != out && nthreads >= 1 && n + Pow2(l.bits1) * Gap(l) <= out.Length
    modifies out
    ensures Boundaries(output, rel[..n], l) && PartsInPlace(out[..], rel[..n], l)
  {
    hide Digits, Below, Pow2, Placed, PartsInPlace, Boundaries, Gap;
    output := PartitionAll(rel, n, out, nthreads, 0, l.bits1, Gap(l));
    OutputIsBoundaries(output, rel[..n], l);
    PartitionedHolds(out[..], rel[..n], l);
  }

  // ----- what the tasks are worth -----

  lemma SliceHolds(out: Relation, start: int, rel: Relation)
    requires Holds(out, start, rel)
    ensures Slice(out, start, |rel|) == rel && 0 <= start && start + |rel| <= |out|
  {
  }

  lemma JoinsAreSubs(outR: Relation, outS: Relation, R: Relation, S: Relation, l: Layout, joins: seq<Task>)
    requires ReadyToJoin(outR, outS, R, S, l, joins)
    ensures forall i :: 0 <= i < |joins| ==> Joinable(|outR|, |outS|, joins[i])
    ensures Sum(joins, Value(outR, outS)) == Sum(joins, SubValue(R, S, l))
  {
    hide Holds, Sub, SubStart, Matches, Slice, Sum;
    forall i | 0 <= i < |joins|
      ensures Joinable(|outR|, |outS|, joins[i]) && Value(outR, outS)(joins[i]) == SubValue(R, S, l)(joins[i])
    {
      SliceHolds(outR, joins[i].offR, Sub(R, l, joins[i].cluster, joins[i].sub));
      SliceHolds(outS, joins[i].offS, Sub(S, l, joins[i].cluster, joins[i].sub));
    }
    SumSame(joins, Value(outR, outS), SubValue(R, S, l));
  }

  lemma JoinsAreParts(outR: Relation, outS: Relation, R: Relation, S: Relation, l: Layout, parts: seq<Task>)
    requires PartsInPlace(outR, R, l) && PartsInPlace(outS, S, l)
    requires forall i :: 0 <= i < |parts| ==> IsPartTask(R, S, l, parts[i])
    ensures forall i :: 0 <= i < |parts| ==> Joinable(|outR|, |outS|, parts[i])
    ensures Sum(parts, Value(outR, outS)) == Sum(parts, PartValue(R, S, l))
  {
    hide Holds, Part, PartStart, Matches, Slice, Sum;
    forall i | 0 <= i < |parts|
      ensures Joinable(|outR|, |outS|, parts[i]) && Value(outR, outS)(parts[i]) == PartValue(R, S, l)(parts[i])
    {
      SliceHolds(outR, parts[i].offR, Part(R, l, parts[i].cluster));
      SliceHolds(outS, parts[i].offS, Part(S, l, parts[i].cluster));
    }
    SumSame(parts, Value(outR, outS), PartValue(R, S, l));
  }

  /** The regions of two tasks of the first pass do not overlap. */
  lemma PartsDisjoint(R: Relation, S: Relation, l: Layout, a: Task, b: Task)
    requires IsPartTask(R, S, l, a) && IsPartTask(R, S, l, b) && a.cluster != b.cluster
    ensures Disjoint(a, b)
  {
    hide Part, PartStart, Pow2, Gap;
    PartsApart(R, l, a.cluster);
    PartsApart(R, l, b.cluster);
  }

  lemma PartTasksApart(R: Relation, S: Relation, l: Layout, parts: seq<Task>)
    requires Tasked(R, S, l, parts, Pow2(l.bits1))
    ensures Apart(parts)
  {
    hide IsPartTask, PartTasks, Disjoint, Pow2;
    forall i, j | 0 <= i < j < |parts|
      ensures Disjoint(parts[i], parts[j])
    {
      PartsDisjoint(R, S, l, parts[i], parts[j]);
    }
  }

  /** Neither do those of two tasks of the second pass. */
  lemma SubsDisjoint(R: Relation, S: Relation, l: Layout, a: Task, b: Task)
    requires IsSubTask(R, S, l, a) && IsSubTask(R, S, l, b) && a != b
    ensures Disjoint(a, b)
  {
    hide Sub, SubStart, Pow2;
    if a.cluster < b.cluster || (a.cluster == b.cluster && a.sub < b.sub) {
      RegionsDisjoint(R, l, a.cluster, a.sub, b.cluster, b.sub);
    } else {
      RegionsDisjoint(R, l, b.cluster, b.sub, a.cluster, a.sub);
    }
  }

  lemma JoinTasksApart(R: Relation, S: Relation, l: Layout, parts: seq<Task>, joins: seq<Task>)
    requires Tasked(R, S, l, parts, Pow2(l.bits1)) && multiset(joins) == Union(parts, Offspring(R, S, l))
    requires forall i :: 0 <= i < |joins| ==> IsSubTask(R, S, l, joins[i])
    ensures Apart(joins)
  {
    hide PartTasks, Disjoint, IsSubTask, PartTask, Pow2, Union, Offspring;
    forall i, j | 0 <= i < j < |joins| ensures Disjoint(joins[i], joins[j]) {
      JoinTasksDiffer(R, S, l, parts, joins, i, j);
      SubsDisjoint(R, S, l, joins[i], joins[j]);
    }
  }

  lemma ReadyAreSubs(outR: Relation, outS: Relation, R: Relation, S: Relation, l: Layout, joins: seq<Task>)
    requires ReadyToJoin(outR, outS, R, S, l, joins)
    ensures forall i :: 0 <= i < |joins| ==> IsSubTask(R, S, l, joins[i])
  {
    hide IsSubTask, Holds;
  }

  lemma PartsAreAll(R: Relation, S: Relation, l: Layout, parts: seq<Task>)
    requires Tasked(R, S, l, parts, Pow2(l.bits1))
    ensures Sum(parts, PartValue(R, S, l)) == Matches(R, S)
  {
    hide PartTasks, Sum, Matches, PartValue;
    SumOfMultiset(parts, PartTasks(R, S, l, Pow2(l.bits1)), PartValue(R, S, l));
    AllPartsValue(R, S, l);
  }

  /** With NUM_PASSES 1 the tasks of the first pass are joined as they are. */
  method JoinParts(partQueue: Queue, relR: array<Tuple>, tmpR: array<Tuple>, tmpS: array<Tuple>, nthreads: nat,
                   l: Layout, histogram: bool, radixBits: nat, ghost R: Relation, ghost S: Relation)
    returns (result: nat)
    requires partQueue.Valid() && relR != tmpR && relR != tmpS && tmpR.Length <= relR.Length && nthreads >= 1 &&
             radixBits <= 32
    requires Tasked(R, S, l, partQueue.Tasks(), Pow2(l.bits1)) && PartsInPlace(tmpR[..], R, l) &&
             PartsInPlace(tmpS[..], S, l)
    modifies partQueue, relR
    ensures result == Matches(R, S)
  {
    hide Pow2, PartTasks, Value, PartValue, Sum, Matches, PartsInPlace, IsPartTask, Apart;
    JoinsAreParts(tmpR[..], tmpS[..], R, S, l, partQueue.Tasks());
    PartsAreAll(R, S, l, partQueue.Tasks());
    PartTasksApart(R, S, l, partQueue.Tasks());
    var results := JoinTasks(nthreads, partQueue, tmpR, tmpS, relR, histogram, radixBits);
    result := Total(results);
  }

  /** With NUM_PASSES 2 they are partitioned once more, back into the original arrays. */
  method PartitionAndJoin(partQueue: Queue, joinQueue: Queue, relR: array<Tuple>, tmpR: array<Tuple>,
                          relS: array<Tuple>, tmpS: array<Tuple>, nthreads: nat, l: Layout, histogram: bool,
                          radixBits: nat, ghost R: Relation, ghost S: Relation)
    returns (result: nat)
    requires partQueue != joinQueue && partQueue.Valid() && joinQueue.Valid() && joinQueue.Tasks() == []
    requires relR != tmpR && relR != relS && relR != tmpS && relS != tmpR && relS != tmpS && tmpR != tmpS
    requires |R| + Pow2(l.bits1) * Gap(l) <= relR.Length <= tmpR.Length && |S| + Pow2(l.bits1) * Gap(l) <= relS.Length
    requires nthreads >= 1 && radixBits <= 32
    requires Tasked(R, S, l, partQueue.Tasks(), Pow2(l.bits1)) && PartsInPlace(tmpR[..], R, l) &&
             PartsInPlace(tmpS[..], S, l)
    modifies partQueue, joinQueue, relR, relS, tmpR
    ensures result == Matches(R, S)
  {
    hide Pow2, PartTasks, Value, Sum, Matches, PartsInPlace, IsPartTask, IsSubTask, Offspring, Union, ReadyToJoin,
         Gap, SubValue, Apart;
    ghost var parts := partQueue.Tasks();
    PartitionTasks(nthreads, partQueue, joinQueue, relR, tmpR, relS, tmpS, l, R, S);
    JoinTasksValue(R, S, l, parts, joinQueue.Tasks());
    JoinsAreSubs(relR[..], relS[..], R, S, l, joinQueue.Tasks());
    ReadyAreSubs(relR[..], relS[..], R, S, l, joinQueue.Tasks());
    JoinTasksApart(R, S, l, parts, joinQueue.Tasks());
    var results := JoinTasks(nthreads, joinQueue, relR, relS, tmpR, histogram, radixBits);
    result := Total(results);
  }

  /** The whole join. For any number of threads, either number of passes, either join function,
      any padding and any schedule, the result is the number of pairs with equal keys. */
  method Join(relR: array<Tuple>, nR: nat, tmpR: array<Tuple>, relS: array<Tuple>, nS: nat, tmpS: array<Tuple>,
              nthreads: nat, radixBits: nat, passes: nat, small: nat, histogram: bool, allocSize: nat)
    returns (result: nat)
    requires nthreads >= 1 && radixBits <= 32 && (passes == 1 || passes == 2) && allocSize >= 1
    requires relR != tmpR && relR != relS && relR != tmpS && relS != tmpR && relS != tmpS && tmpR != tmpS
    requires var l := Layout(radixBits / passes, radixBits - radixBits / passes, small);
             nR + Pow2(l.bits1) * Gap(l) <= relR.Length == tmpR.Length &&
               nS + Pow2(l.bits1) * Gap(l) <= relS.Length == tmpS.Length
    modifies relR, tmpR, relS, tmpS
    ensures result == Matches(old(relR[..nR]), old(relS[..nS]))
  {
    hide Pow2, Matches, PartsInPlace, IsPartTask, Gap, Boundaries, Tasked;
    ghost var R, S := relR[..nR], relS[..nS];
    var l := Layout(radixBits / passes, radixBits - radixBits / passes, small);
    var blank := Task(0, 0, 0, 0, 0, 0);
    var partQueue := new Queue(allocSize, blank);
    var joinQueue := new Queue(allocSize, blank);
    var outputR := FirstPass(relR, nR, tmpR, nthreads, l);
    var outputS := FirstPass(relS, nS, tmpS, nthreads, l);
    MakePartTasks(outputR, outputS, partQueue, l, R, S);
    TaskedTasks(R, S, l, partQueue.Tasks());
    if passes == 1 {
      result := JoinParts(partQueue, relR, tmpR, tmpS, nthreads, l, histogram, radixBits, R, S);
    } else {
      result := PartitionAndJoin(partQueue, joinQueue, relR, tmpR, relS, tmpS, nthreads, l, histogram, radixBits, R, S);
    }
  }

  lemma TaskedTasks(R: Relation, S: Relation, l: Layout, tasks: seq<Task>)
    requires Tasked(R, S, l, tasks, Pow2(l.bits1))
    ensures forall i :: 0 <= i < |tasks| ==> IsPartTask(R, S, l, tasks[i])
  {
  }
}
