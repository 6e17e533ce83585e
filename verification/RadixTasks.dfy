/** The tasks of the parallel radix join: pairs of non-empty clusters of the first pass to
    partition further, and pairs of non-empty clusters of the second pass to join. */
module RadixTasks {
  import opened ClusterLayout
  import opened JoinSpec
  import opened KeyBits
  import opened Rearrangement
  import opened StablePartition
  import opened Sums
  import opened TaskQueue

  ghost function PartTask(R: Relation, S: Relation, l: Layout, c: nat): Task {
    Task(PartStart(R, l, c), |Part(R, l, c)|, PartStart(S, l, c), |Part(S, l, c)|, c, 0)
  }

  ghost function SubTask(R: Relation, S: Relation, l: Layout, c: nat, i: nat): Task {
    Task(SubStart(R, l, c, i), |Sub(R, l, c, i)|, SubStart(S, l, c, i), |Sub(S, l, c, i)|, c, i)
  }

  /** The tasks for the first k clusters of the first pass. */
  ghost function PartTasks(R: Relation, S: Relation, l: Layout, k: nat): seq<Task> {
    if k == 0 then []
    else PartTasks(R, S, l, k - 1) +
         if |Part(R, l, k - 1)| > 0 && |Part(S, l, k - 1)| > 0 then [PartTask(R, S, l, k - 1)] else []
  }

  /** The tasks for the first k clusters into which the second pass divides cluster c. */
  ghost function SubTasks(R: Relation, S: Relation, l: Layout, c: nat, k: nat): seq<Task> {
    if k == 0 then []
    else SubTasks(R, S, l, c, k - 1) +
         if |Sub(R, l, c, k - 1)| > 0 && |Sub(S, l, c, k - 1)| > 0 then [SubTask(R, S, l, c, k - 1)] else []
  }

  /** All join tasks that come out of a partition task. */
  ghost function Offspring(R: Relation, S: Relation, l: Layout): Task -> multiset<Task> {
    (t: Task) => multiset(SubTasks(R, S, l, t.cluster, Pow2(l.bits2)))
  }

  /** How many result tuples a join task stands for. */
  ghost function SubValue(R: Relation, S: Relation, l: Layout): Task -> nat {
    (t: Task) => Matches(Sub(R, l, t.cluster, t.sub), Sub(S, l, t.cluster, t.sub))
  }

  ghost function PartValue(R: Relation, S: Relation, l: Layout): Task -> nat {
    (t: Task) => Matches(Part(R, l, t.cluster), Part(S, l, t.cluster))
  }

  lemma NoTasks(v: Task -> nat)
    ensures Sum([], v) == 0
  {
  }

  /** Join tasks of one cluster of the first pass, in either form. */
  lemma {:induction false} SubTasksValue(R: Relation, S: Relation, l: Layout, c: nat, k: nat)
    ensures Sum(SubTasks(R, S, l, c, k), SubValue(R, S, l)) ==
            PartitionedMatches(Part(R, l, c), Part(S, l, c), Second(l), k)
  {
    hide Filter, Matches, SubStart, Part, Second, Sum, Pow2;
    if k == 0 {
      NoTasks(SubValue(R, S, l));
    } else {
      SubTasksValue(R, S, l, c, k - 1);
      var x, y := Sub(R, l, c, k - 1), Sub(S, l, c, k - 1);
      if !(|x| > 0 && |y| > 0) { EmptyJoin(x, y); }
      SumPush(SubTasks(R, S, l, c, k - 1), |x| > 0 && |y| > 0, SubTask(R, S, l, c, k - 1), SubValue(R, S, l));
    }
  }

  /** The offspring of a partition task join what the task would join. */
  lemma OffspringValue(R: Relation, S: Relation, l: Layout, c: nat)
    ensures Sum(SubTasks(R, S, l, c, Pow2(l.bits2)), SubValue(R, S, l)) == Matches(Part(R, l, c), Part(S, l, c))
  {
    SubTasksValue(R, S, l, c, Pow2(l.bits2));
    KeyBitsInRange(Part(S, l, c), l.bits1, l.bits2);
    PartitionedJoin(Part(R, l, c), Part(S, l, c), Bits(l.bits1, l.bits2), Pow2(l.bits2));
  }

  lemma {:induction false} PartTasksValue(R: Relation, S: Relation, l: Layout, k: nat)
    ensures Sum(PartTasks(R, S, l, k), PartValue(R, S, l)) == PartitionedMatches(R, S, First(l), k)
  {
    hide Filter, Matches, PartStart, First, Sum, Pow2;
    if k == 0 {
      NoTasks(PartValue(R, S, l));
    } else {
      PartTasksValue(R, S, l, k - 1);
      var x, y := Part(R, l, k - 1), Part(S, l, k - 1);
      if !(|x| > 0 && |y| > 0) { EmptyJoin(x, y); }
      SumPush(PartTasks(R, S, l, k - 1), |x| > 0 && |y| > 0, PartTask(R, S, l, k - 1), PartValue(R, S, l));
    }
  }

  /** The partition tasks stand for the whole join. */
  lemma AllPartsValue(R: Relation, S: Relation, l: Layout)
    ensures Sum(PartTasks(R, S, l, Pow2(l.bits1)), PartValue(R, S, l)) == Matches(R, S)
  {
    PartTasksValue(R, S, l, Pow2(l.bits1));
    KeyBitsInRange(S, 0, l.bits1);
    PartitionedJoin(R, S, Bits(0, l.bits1), Pow2(l.bits1));
  }

  /** All offspring of a sequence of partition tasks, one after the other. */
  ghost function AllOffspring(R: Relation, S: Relation, l: Layout, tasks: seq<Task>): seq<Task> {
    if tasks == [] then []
    else AllOffspring(R, S, l, tasks[..|tasks|-1]) + SubTasks(R, S, l, tasks[|tasks|-1].cluster, Pow2(l.bits2))
  }

  lemma {:induction false} AllOffspringIs(R: Relation, S: Relation, l: Layout, tasks: seq<Task>)
    ensures multiset(AllOffspring(R, S, l, tasks)) == Union(tasks, Offspring(R, S, l))
    ensures Sum(AllOffspring(R, S, l, tasks), SubValue(R, S, l)) == Sum(tasks, PartValue(R, S, l))
  {
    hide SubTasks, Part, Sub;
    if tasks != [] {
      var n := |tasks| - 1;
      AllOffspringIs(R, S, l, tasks[..n]);
      var subs := SubTasks(R, S, l, tasks[n].cluster, Pow2(l.bits2));
      SumAppend(AllOffspring(R, S, l, tasks[..n]), subs, SubValue(R, S, l));
      OffspringValue(R, S, l, tasks[n].cluster);
    }
  }

  /** Whatever order the join tasks are queued in, together they stand for the whole join. */
  lemma JoinTasksValue(R: Relation, S: Relation, l: Layout, parts: seq<Task>, subs: seq<Task>)
    requires multiset(parts) == multiset(PartTasks(R, S, l, Pow2(l.bits1)))
    requires multiset(subs) == Union(parts, Offspring(R, S, l))
    ensures Sum(subs, SubValue(R, S, l)) == Matches(R, S)
  {
    AllOffspringIs(R, S, l, parts);
    SumOfMultiset(subs, AllOffspring(R, S, l, parts), SubValue(R, S, l));
    SumOfMultiset(parts, PartTasks(R, S, l, Pow2(l.bits1)), PartValue(R, S, l));
    AllPartsValue(R, S, l);
  }

  // ----- what the tasks look like -----

  ghost predicate IsPartTask(R: Relation, S: Relation, l: Layout, t: Task) {
    t.cluster < Pow2(l.bits1) && t == PartTask(R, S, l, t.cluster) && t.nR > 0 && t.nS > 0
  }

  ghost predicate IsSubTask(R: Relation, S: Relation, l: Layout, t: Task) {
    t.cluster < Pow2(l.bits1) && t.sub < Pow2(l.bits2) && t == SubTask(R, S, l, t.cluster, t.sub) && t.nR > 0 &&
      t.nS > 0
  }

  lemma {:induction false} SubTasksAre(R: Relation, S: Relation, l: Layout, c: nat, k: nat)
    requires c < Pow2(l.bits1) && k <= Pow2(l.bits2)
    ensures forall i ::
              0 <= i < |SubTasks(R, S, l, c, k)| ==>
                IsSubTask(R, S, l, SubTasks(R, S, l, c, k)[i]) && SubTasks(R, S, l, c, k)[i].cluster == c
    ensures forall i :: 0 <= i < |SubTasks(R, S, l, c, k)| ==> SubTasks(R, S, l, c, k)[i].sub < k
    ensures forall i, j ::
              0 <= i < j < |SubTasks(R, S, l, c, k)| ==>
                SubTasks(R, S, l, c, k)[i].sub < SubTasks(R, S, l, c, k)[j].sub
  {
    hide Sub, SubStart;
    if k > 0 { SubTasksAre(R, S, l, c, k - 1); }
  }

  /** A task comes at most once out of a partition task, and only out of that of its cluster. */
  lemma SubTasksOnce(R: Relation, S: Relation, l: Layout, c: nat, t: Task)
    requires c < Pow2(l.bits1)
    ensures multiset(SubTasks(R, S, l, c, Pow2(l.bits2)))[t] <= if t.cluster == c then 1 else 0
  {
    hide IsSubTask, SubTasks;
    var subs := SubTasks(R, S, l, c, Pow2(l.bits2));
    SubTasksAre(R, S, l, c, Pow2(l.bits2));
    DistinctCount(subs, t);
    if t in multiset(subs) { assert t in subs; }
  }

  lemma {:induction false} OffspringOnce(R: Relation, S: Relation, l: Layout, parts: seq<Task>, t: Task)
    requires forall i :: 0 <= i < |parts| ==> parts[i].cluster < Pow2(l.bits1)
    requires forall i, j :: 0 <= i < j < |parts| ==> parts[i].cluster != parts[j].cluster
    ensures Union(parts, Offspring(R, S, l))[t] <= 1
    ensures (forall i :: 0 <= i < |parts| ==> parts[i].cluster != t.cluster) ==>
            Union(parts, Offspring(R, S, l))[t] == 0
  {
    hide SubTasks, Pow2;
    if parts != [] {
      var n := |parts| - 1;
      OffspringOnce(R, S, l, parts[..n], t);
      SubTasksOnce(R, S, l, parts[n].cluster, t);
    }
  }

  /** No join task is queued twice. */
  lemma JoinTasksDiffer(R: Relation, S: Relation, l: Layout, parts: seq<Task>, subs: seq<Task>, i: nat, j: nat)
    requires forall k :: 0 <= k < |parts| ==> parts[k].cluster < Pow2(l.bits1)
    requires forall k, m :: 0 <= k < m < |parts| ==> parts[k].cluster != parts[m].cluster
    requires multiset(subs) == Union(parts, Offspring(R, S, l)) && i < j < |subs|
    ensures subs[i] != subs[j]
  {
    hide Union, Offspring;
    OffspringOnce(R, S, l, parts, subs[i]);
    if subs[i] == subs[j] { TwiceCounts(subs, i, j); }
  }
}
