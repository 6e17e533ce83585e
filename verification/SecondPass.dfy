/** The second partitioning pass of prj_thread: every thread takes partition tasks from one
    queue until it is empty, clusters their regions, and adds the join tasks that come out of
    them to another queue. Every queue operation and every copied tuple is a step of its own, and
    the threads take their steps in any order. */
module SecondPass {
  import opened ClusterLayout
  import opened JoinSpec
  import opened KeyBits
  import opened RadixTasks
  import opened SerialPartition
  import opened Sums
  import opened TaskQueue

  /** What a thread is about to do: take a task, start on the one it has, copy tuple i of one
      of its regions, get a slot for the next of the join tasks it has made, fill the slot, put it
      into the queue, or nothing, having found the queue empty. Histograms and cursors are the
      thread's own. */
  datatype Worker =
    | Idle
    | Holding(task: Task)
    | ScatterR(task: Task, histR: seq<int>, dst: seq<int>, i: nat)
    | ScatterS(task: Task, histR: seq<int>, histS: seq<int>, dst: seq<int>, i: nat)
    | Adding(pending: seq<Task>)
    | Filling(pending: seq<Task>, slot: nat)
    | Linking(pending: seq<Task>, slot: nat)
    | Finished

  /** A thread that works on a partition task. */
  predicate Busy(w: Worker) {
    w.Holding? || w.ScatterR? || w.ScatterS?
  }

  /** A thread with join tasks to add. */
  predicate Listing(w: Worker) {
    w.Adding? || w.Filling? || w.Linking?
  }

  predicate HasSlot(w: Worker) {
    w.Filling? || w.Linking?
  }

  /** Where the work on a cluster of the first pass stands: its task is in the queue, with
      the thread of that number, or done. */
  datatype Stage = Queued | With(thread: nat) | Done

  /** The join tasks a thread still owes. */
  ghost function Owed(R: Relation, S: Relation, l: Layout): Worker -> multiset<Task> {
    (w: Worker) =>
      if Busy(w) then Offspring(R, S, l)(w.task) else if Listing(w) then multiset(w.pending) else multiset{}
  }

  /** A bound on the steps a thread can take before it looks at the queue again. */
  ghost function Rank(l: Layout): Worker -> nat {
    (w: Worker) => match w
      case Finished => 0
      case Idle => 1
      case Linking(pending, _) => 3 * |pending|
      case Filling(pending, _) => 1 + 3 * |pending|
      case Adding(pending) => 2 + 3 * |pending|
      case ScatterS(task, _, _, _, i) => 3 + 3 * Pow2(l.bits2) + ToDo(task.nS, i)
      case ScatterR(task, _, _, i) => 4 + 3 * Pow2(l.bits2) + task.nS + ToDo(task.nR, i)
      case Holding(task) => 5 + 3 * Pow2(l.bits2) + task.nS + task.nR
  }

  function ToDo(n: nat, i: nat): nat {
    if i <= n then n - i else 0
  }

  ghost predicate PartsOk(R: Relation, S: Relation, l: Layout, parts: seq<Task>, stage: seq<Stage>) {
    && |stage| == Pow2(l.bits1)
    && (forall i ::
           0 <= i < |parts| ==>
             IsPartTask(R, S, l, parts[i]) && parts[i].cluster < |stage| && stage[parts[i].cluster] == Queued)
    && (forall i, j :: 0 <= i < j < |parts| ==> parts[i].cluster != parts[j].cluster)
  }

  ghost predicate SubsOk(R: Relation, S: Relation, l: Layout, subs: seq<Task>, stage: seq<Stage>) {
    && |stage| == Pow2(l.bits1)
    && forall i ::
           0 <= i < |subs| ==>
             IsSubTask(R, S, l, subs[i]) && subs[i].cluster < |stage| && stage[subs[i].cluster] == Done
  }

  ghost predicate WorkerOk(R: Relation, S: Relation, l: Layout, w: Worker, t: nat, stage: seq<Stage>) {
    && |stage| == Pow2(l.bits1)
    && (Busy(w) ==> IsPartTask(R, S, l, w.task) && w.task.cluster < |stage| && stage[w.task.cluster] == With(t))
    && (Listing(w) ==> SubsOk(R, S, l, w.pending, stage))
    && (HasSlot(w) ==> |w.pending| > 0)
  }

  ghost predicate WorkersOk(R: Relation, S: Relation, l: Layout, workers: seq<Worker>, stage: seq<Stage>) {
    forall t {:trigger workers[t]} :: 0 <= t < |workers| ==> WorkerOk(R, S, l, workers[t], t, stage)
  }

  /** Every join task is owed by a queued partition task or by one thread, or has been added:
      nothing is lost and nothing comes twice. */
  ghost predicate Balanced(R: Relation, S: Relation, l: Layout, parts: seq<Task>, workers: seq<Worker>,
                           joins: seq<Task>, goal: multiset<Task>)
  {
    Union(parts, Offspring(R, S, l)) + Union(workers, Owed(R, S, l)) + multiset(joins) == goal
  }

  ghost predicate State(R: Relation, S: Relation, l: Layout, parts: seq<Task>, workers: seq<Worker>, joins: seq<Task>,
                        stage: seq<Stage>, goal: multiset<Task>)
  {
    && PartsOk(R, S, l, parts, stage) && WorkersOk(R, S, l, workers, stage) && SubsOk(R, S, l, joins, stage)
    && Balanced(R, S, l, parts, workers, joins, goal)
  }

  /** Every thread that is filling or adding a slot has one of its own. */
  ghost predicate SlotsHeld(workers: seq<Worker>, lent: set<nat>, cells: seq<Cell>) {
    && (forall t {:trigger workers[t]} :: 0 <= t < |workers| && HasSlot(workers[t]) ==>
          SlotOk(workers[t], lent, cells))
    && (forall t, u {:trigger workers[t], workers[u]} ::
          0 <= t < u < |workers| && HasSlot(workers[t]) && HasSlot(workers[u]) ==> workers[t].slot != workers[u].slot)
  }

  /** What is to be added has been filled in. */
  ghost predicate SlotOk(w: Worker, lent: set<nat>, cells: seq<Cell>)
    requires HasSlot(w)
  {
    && w.slot in lent && w.slot < |cells|
    && (w.Linking? && |w.pending| > 0 ==> cells[w.slot].task == w.pending[0])
  }

  /** The clusters that are done are where they belong. */
  ghost predicate DoneInPlace(out: Relation, rel: Relation, l: Layout, stage: seq<Stage>) {
    forall c {:trigger stage[c]} ::
      0 <= c < |stage| && stage[c] == Done && c < Pow2(l.bits1) ==> SubsInPlace(out, rel, l, c)
  }

  /** How far a thread has got with the regions of its task. */
  ghost predicate Placing(outR: Relation, outS: Relation, R: Relation, S: Relation, l: Layout, w: Worker) {
    match w
    case ScatterR(task, histR, dst, i) =>
      SubSizes(histR, R, l, task.cluster) && Scattering(outR, R, l, task.cluster, dst, i)
    case ScatterS(task, histR, histS, dst, i) =>
      SubSizes(histR, R, l, task.cluster) && SubSizes(histS, S, l, task.cluster) &&
      SubsInPlace(outR, R, l, task.cluster) && Scattering(outS, S, l, task.cluster, dst, i)
    case _ => true
  }

  ghost predicate AllPlacing(outR: Relation, outS: Relation, R: Relation, S: Relation, l: Layout,
                             workers: seq<Worker>)
  {
    forall t {:trigger workers[t]} :: 0 <= t < |workers| ==> Placing(outR, outS, R, S, l, workers[t])
  }

  /** Both arrays: the clusters that are done and those being worked on. */
  ghost predicate Memory(outR: Relation, outS: Relation, R: Relation, S: Relation, l: Layout, workers: seq<Worker>,
                         stage: seq<Stage>)
  {
    && DoneInPlace(outR, R, l, stage) && DoneInPlace(outS, S, l, stage)
    && AllPlacing(outR, outS, R, S, l, workers)
  }

  // ----- what each step keeps -----

  /** Moving what one thread owes between the three places. */
  lemma Rebalance(p: multiset<Task>, p': multiset<Task>, w: multiset<Task>, w': multiset<Task>, j: multiset<Task>,
                  j': multiset<Task>, x: multiset<Task>, y: multiset<Task>)
    requires w' + x == w + y && p' + y + j' == p + x + j
    ensures p' + w' + j' == p + w + j
  {
    forall t ensures (p' + w' + j')[t] == (p + w + j)[t] {
      assert (w' + x)[t] == (w + y)[t] && (p' + y + j')[t] == (p + x + j)[t];
    }
  }

  lemma OwedIs(R: Relation, S: Relation, l: Layout, w: Worker)
    ensures Owed(R, S, l)(w) ==
            if Busy(w) then Offspring(R, S, l)(w.task) else if Listing(w) then multiset(w.pending) else multiset{}
  {
  }

  lemma TakeStep(R: Relation, S: Relation, l: Layout, parts: seq<Task>, workers: seq<Worker>, joins: seq<Task>,
                 stage: seq<Stage>, goal: multiset<Task>, t: nat)
    requires State(R, S, l, parts, workers, joins, stage, goal) && t < |workers| && workers[t] == Idle && |parts| > 0
    ensures parts[0].cluster < |stage|
    ensures State(R, S, l, parts[1..], workers[t := Holding(parts[0])], joins, stage[parts[0].cluster := With(t)], goal)
  {
    hide IsPartTask, IsSubTask, Union, Offspring, Owed;
    var task, rest := parts[0], parts[1..];
    var w', stage' := workers[t := Holding(task)], stage[task.cluster := With(t)];
    assert PartsOk(R, S, l, rest, stage');
    SubsElsewhere(R, S, l, joins, stage, task.cluster, With(t));
    forall u {:trigger w'[u]} | 0 <= u < |w'| ensures WorkerOk(R, S, l, w'[u], u, stage') {
      if u != t { WorkerElsewhere(R, S, l, workers[u], u, stage, task.cluster, With(t)); }
    }
    OwedIs(R, S, l, Idle);
    OwedIs(R, S, l, Holding(task));
    UnionUpdate(workers, t, Holding(task), Owed(R, S, l));
    UnionAppend([task], rest, Offspring(R, S, l));
    UnionOne(task, Offspring(R, S, l));
    assert [task] + rest == parts;
    Rebalance(Union(parts, Offspring(R, S, l)), Union(rest, Offspring(R, S, l)),
              Union(workers, Owed(R, S, l)), Union(w', Owed(R, S, l)),
              multiset(joins), multiset(joins), multiset{}, Offspring(R, S, l)(task));
  }

  /** Changing the stage of a cluster that is not done touches no join task. */
  lemma SubsElsewhere(R: Relation, S: Relation, l: Layout, subs: seq<Task>, stage: seq<Stage>, c: nat, x: Stage)
    requires SubsOk(R, S, l, subs, stage) && c < |stage| && stage[c] != Done
    ensures SubsOk(R, S, l, subs, stage[c := x])
  {
  }

  lemma WorkerElsewhere(R: Relation, S: Relation, l: Layout, w: Worker, u: nat, stage: seq<Stage>, c: nat, x: Stage)
    requires WorkerOk(R, S, l, w, u, stage) && c < |stage| && stage[c] != Done && stage[c] != With(u)
    ensures WorkerOk(R, S, l, w, u, stage[c := x])
  {
  }

  lemma ListStep(R: Relation, S: Relation, l: Layout, parts: seq<Task>, workers: seq<Worker>, joins: seq<Task>,
                 stage: seq<Stage>, goal: multiset<Task>, t: nat, subs: seq<Task>)
    requires State(R, S, l, parts, workers, joins, stage, goal) && t < |workers| && Busy(workers[t])
    requires subs == SubTasks(R, S, l, workers[t].task.cluster, Pow2(l.bits2))
    ensures var c := workers[t].task.cluster;
            c < |stage| && State(R, S, l, parts, workers[t := Adding(subs)], joins, stage[c := Done], goal)
  {
    hide IsPartTask, IsSubTask, Union, SubTasks;
    var task := workers[t].task;
    var c := task.cluster;
    assert WorkerOk(R, S, l, workers[t], t, stage);
    var w', stage' := workers[t := Adding(subs)], stage[c := Done];
    assert PartsOk(R, S, l, parts, stage');
    SubsElsewhere(R, S, l, joins, stage, c, Done);
    SubTasksAre(R, S, l, c, Pow2(l.bits2));
    assert SubsOk(R, S, l, subs, stage');
    forall u {:trigger w'[u]} | 0 <= u < |w'| ensures WorkerOk(R, S, l, w'[u], u, stage') {
      if u != t { WorkerElsewhere(R, S, l, workers[u], u, stage, c, Done); }
    }
    OwedIs(R, S, l, workers[t]);
    OwedIs(R, S, l, Adding(subs));
    UnionUpdate(workers, t, Adding(subs), Owed(R, S, l));
    var u, j, owed := Union(parts, Offspring(R, S, l)), multiset(joins), multiset(subs);
    Rebalance(u, u, Union(workers, Owed(R, S, l)), Union(w', Owed(R, S, l)), j, j, owed, owed);
  }

  lemma AddStep(R: Relation, S: Relation, l: Layout, parts: seq<Task>, workers: seq<Worker>, joins: seq<Task>,
                stage: seq<Stage>, goal: multiset<Task>, t: nat)
    requires State(R, S, l, parts, workers, joins, stage, goal) && t < |workers| && workers[t].Linking? &&
             |workers[t].pending| > 0
    ensures var p := workers[t].pending;
            State(R, S, l, parts, workers[t := Adding(p[1..])], [p[0]] + joins, stage, goal)
  {
    hide IsPartTask, IsSubTask, Union, Owed;
    var p := workers[t].pending;
    var w', joins' := workers[t := Adding(p[1..])], [p[0]] + joins;
    assert WorkerOk(R, S, l, workers[t], t, stage);
    forall u {:trigger w'[u]} | 0 <= u < |w'| ensures WorkerOk(R, S, l, w'[u], u, stage) {
      if u != t { assert WorkerOk(R, S, l, workers[u], u, stage); }
    }
    OwedIs(R, S, l, workers[t]);
    OwedIs(R, S, l, Adding(p[1..]));
    UnionUpdate(workers, t, Adding(p[1..]), Owed(R, S, l));
    assert p == [p[0]] + p[1..];
    var u := Union(parts, Offspring(R, S, l));
    Rebalance(u, u, Union(workers, Owed(R, S, l)), Union(w', Owed(R, S, l)), multiset(joins), multiset(joins'),
        multiset(p), multiset(p[1..]));
  }

  /** Getting a slot and filling it adds nothing yet. */
  lemma SlotStep(R: Relation, S: Relation, l: Layout, parts: seq<Task>, workers: seq<Worker>, joins: seq<Task>,
                 stage: seq<Stage>, goal: multiset<Task>, t: nat, w: Worker)
    requires State(R, S, l, parts, workers, joins, stage, goal) && t < |workers| && Listing(workers[t])
    requires Listing(w) && w.pending == workers[t].pending && |w.pending| > 0
    ensures State(R, S, l, parts, workers[t := w], joins, stage, goal)
  {
    hide IsPartTask, IsSubTask, Union, Owed;
    var w' := workers[t := w];
    assert WorkerOk(R, S, l, workers[t], t, stage);
    forall u {:trigger w'[u]} | 0 <= u < |w'| ensures WorkerOk(R, S, l, w'[u], u, stage) {
      if u != t { assert WorkerOk(R, S, l, workers[u], u, stage); }
    }
    OwedIs(R, S, l, workers[t]);
    OwedIs(R, S, l, w);
    UnionUpdate(workers, t, w, Owed(R, S, l));
    var u, j, owed := Union(parts, Offspring(R, S, l)), multiset(joins), multiset(w.pending);
    Rebalance(u, u, Union(workers, Owed(R, S, l)), Union(w', Owed(R, S, l)), j, j, owed, owed);
  }

  // ----- the slots -----

  /** Thread t has taken a step that has nothing to do with slots. */
  ghost predicate Stepped(workers: seq<Worker>, workers': seq<Worker>, t: nat) {
    t < |workers| == |workers'| && workers' == workers[t := workers'[t]] && !HasSlot(workers'[t])
  }

  lemma SlotsStay(workers: seq<Worker>, workers': seq<Worker>, t: nat, lent: set<nat>, cells: seq<Cell>)
    requires SlotsHeld(workers, lent, cells) && Stepped(workers, workers', t)
    ensures SlotsHeld(workers', lent, cells)
  {
    hide SlotOk;
  }

  /** A slot handed out now is nobody else's. */
  lemma SlotGot(workers: seq<Worker>, t: nat, slot: nat, lent: set<nat>, cells: seq<Cell>, cells': seq<Cell>)
    requires SlotsHeld(workers, lent, cells) && t < |workers| && workers[t].Adding?
    requires slot !in lent && slot < |cells'| && cells <= cells'
    ensures SlotsHeld(workers[t := Filling(workers[t].pending, slot)], lent + {slot}, cells')
  {
    var w' := workers[t := Filling(workers[t].pending, slot)];
    forall u {:trigger w'[u]} | 0 <= u < |w'| && HasSlot(w'[u]) ensures SlotOk(w'[u], lent + {slot}, cells') {
      if u != t { assert SlotOk(workers[u], lent, cells); }
    }
    forall u, v {:trigger w'[u], w'[v]} | 0 <= u < v < |w'| && HasSlot(w'[u]) && HasSlot(w'[v])
      ensures w'[u].slot != w'[v].slot
    {
      if u != t { assert SlotOk(workers[u], lent, cells); }
      if v != t { assert SlotOk(workers[v], lent, cells); }
    }
  }

  lemma SlotFilled(workers: seq<Worker>, t: nat, lent: set<nat>, cells: seq<Cell>, cells': seq<Cell>)
    requires SlotsHeld(workers, lent, cells) && t < |workers| && workers[t].Filling? && |workers[t].pending| > 0
    requires |cells'| == |cells| && workers[t].slot < |cells| && cells'[workers[t].slot].task == workers[t].pending[0]
    requires forall k :: 0 <= k < |cells| && k != workers[t].slot ==> cells'[k] == cells[k]
    ensures SlotsHeld(workers[t := Linking(workers[t].pending, workers[t].slot)], lent, cells')
  {
    var w' := workers[t := Linking(workers[t].pending, workers[t].slot)];
    assert SlotOk(workers[t], lent, cells);
    forall u {:trigger w'[u]} | 0 <= u < |w'| && HasSlot(w'[u]) ensures SlotOk(w'[u], lent, cells') {
      if u != t { OwnSlot(workers, t, u, lent, cells); }
    }
    forall u, v {:trigger w'[u], w'[v]} | 0 <= u < v < |w'| && HasSlot(w'[u]) && HasSlot(w'[v])
      ensures w'[u].slot != w'[v].slot
    {
      OwnSlot(workers, u, v, lent, cells);
    }
  }

  lemma OwnSlot(workers: seq<Worker>, t: nat, u: nat, lent: set<nat>, cells: seq<Cell>)
    requires SlotsHeld(workers, lent, cells) && t < |workers| && u < |workers| && t != u
    requires HasSlot(workers[t]) && HasSlot(workers[u])
    ensures workers[t].slot != workers[u].slot && SlotOk(workers[t], lent, cells) && SlotOk(workers[u], lent, cells)
  {
    hide SlotOk;
  }

  lemma SlotLinked(workers: seq<Worker>, t: nat, w: Worker, lent: set<nat>, cells: seq<Cell>, cells': seq<Cell>)
    requires SlotsHeld(workers, lent, cells) && t < |workers| && HasSlot(workers[t]) && !HasSlot(w)
    requires |cells'| == |cells| && forall k :: 0 <= k < |cells| && k != workers[t].slot ==> cells'[k] == cells[k]
    ensures SlotsHeld(workers[t := w], lent - {workers[t].slot}, cells')
  {
    var w' := workers[t := w];
    forall u {:trigger w'[u]} | 0 <= u < |w'| && HasSlot(w'[u])
      ensures SlotOk(w'[u], lent - {workers[t].slot}, cells')
    {
      OwnSlot(workers, t, u, lent, cells);
    }
    forall u, v {:trigger w'[u], w'[v]} | 0 <= u < v < |w'| && HasSlot(w'[u]) && HasSlot(w'[v])
      ensures w'[u].slot != w'[v].slot
    {
      OwnSlot(workers, u, v, lent, cells);
    }
  }

  lemma RestStep(R: Relation, S: Relation, l: Layout, parts: seq<Task>, workers: seq<Worker>, joins: seq<Task>,
                 stage: seq<Stage>, goal: multiset<Task>, t: nat, w: Worker)
    requires State(R, S, l, parts, workers, joins, stage, goal) && t < |workers| && (w == Idle || w == Finished)
    requires workers[t] == Adding([]) || workers[t] == Idle
    ensures State(R, S, l, parts, workers[t := w], joins, stage, goal)
  {
    hide IsPartTask, IsSubTask, Union, Owed;
    var w' := workers[t := w];
    forall u {:trigger w'[u]} | 0 <= u < |w'| ensures WorkerOk(R, S, l, w'[u], u, stage) {
      if u != t { assert WorkerOk(R, S, l, workers[u], u, stage); }
    }
    OwedIs(R, S, l, workers[t]);
    OwedIs(R, S, l, w);
    UnionUpdate(workers, t, w, Owed(R, S, l));
    var u, j := Union(parts, Offspring(R, S, l)), multiset(joins);
    Rebalance(u, u, Union(workers, Owed(R, S, l)), Union(w', Owed(R, S, l)), j, j, multiset{}, multiset{});
  }

  /** Going on with the same task. */
  lemma AdvanceStep(R: Relation, S: Relation, l: Layout, parts: seq<Task>, workers: seq<Worker>, joins: seq<Task>,
                    stage: seq<Stage>, goal: multiset<Task>, t: nat, w: Worker)
    requires State(R, S, l, parts, workers, joins, stage, goal) && t < |workers|
    requires Busy(workers[t]) && Busy(w) && w.task == workers[t].task
    ensures State(R, S, l, parts, workers[t := w], joins, stage, goal)
  {
    hide IsPartTask, IsSubTask, Union, Offspring;
    var w' := workers[t := w];
    assert WorkerOk(R, S, l, workers[t], t, stage);
    forall u {:trigger w'[u]} | 0 <= u < |w'| ensures WorkerOk(R, S, l, w'[u], u, stage) {
      if u != t { assert WorkerOk(R, S, l, workers[u], u, stage); }
    }
    UnionUpdate(workers, t, w, Owed(R, S, l));
    var u, j, owed := Union(parts, Offspring(R, S, l)), multiset(joins), Offspring(R, S, l)(w.task);
    Rebalance(u, u, Union(workers, Owed(R, S, l)), Union(w', Owed(R, S, l)), j, j, owed, owed);
  }

  // ----- what each step does to the arrays -----

  /** Two threads never work on the same cluster. */
  lemma OtherCluster(R: Relation, S: Relation, l: Layout, workers: seq<Worker>, stage: seq<Stage>, t: nat, u: nat)
    requires WorkersOk(R, S, l, workers, stage) && t < |workers| && u < |workers| && t != u && Busy(workers[t]) &&
             Busy(workers[u])
    ensures workers[t].task.cluster != workers[u].task.cluster
    ensures workers[t].task.cluster < Pow2(l.bits1) && workers[u].task.cluster < Pow2(l.bits1)
  {
    hide IsPartTask, SubsOk;
    assert WorkerOk(R, S, l, workers[t], t, stage) && WorkerOk(R, S, l, workers[u], u, stage);
  }

  /** A cluster being worked on is not done, so the done ones stay in place. */
  lemma DoneStays(out: Relation, out': Relation, rel: Relation, l: Layout, stage: seq<Stage>, c: nat)
    requires DoneInPlace(out, rel, l, stage) && |stage| == Pow2(l.bits1) && c < |stage| && stage[c] != Done
    requires OnlyRegion(out, out', rel, l, c)
    ensures DoneInPlace(out', rel, l, stage)
  {
    hide SubsInPlace, OnlyRegion, Pow2;
    forall k {:trigger stage[k]} | 0 <= k < |stage| && stage[k] == Done ensures SubsInPlace(out', rel, l, k) {
      OthersStay(out, out', rel, l, c, k);
    }
  }

  /** A write to one cluster of R does not disturb a thread that works on another. */
  lemma PlacingStaysR(outR: Relation, outR': Relation, outS: Relation, R: Relation, S: Relation, l: Layout, c: nat,
                      w: Worker)
    requires c < Pow2(l.bits1) && Placing(outR, outS, R, S, l, w) && OnlyRegion(outR, outR', R, l, c)
    requires Busy(w) ==> w.task.cluster != c && w.task.cluster < Pow2(l.bits1)
    ensures Placing(outR', outS, R, S, l, w)
  {
    hide SubsInPlace, Scattering, SubSizes, OnlyRegion, Pow2;
    if w.ScatterR? { ScatteringStays(outR, outR', R, l, c, w.task.cluster, w.dst, w.i); }
    if w.ScatterS? { OthersStay(outR, outR', R, l, c, w.task.cluster); }
  }

  lemma PlacingStaysS(outR: Relation, outS: Relation, outS': Relation, R: Relation, S: Relation, l: Layout, c: nat,
                      w: Worker)
    requires c < Pow2(l.bits1) && Placing(outR, outS, R, S, l, w) && OnlyRegion(outS, outS', S, l, c)
    requires Busy(w) ==> w.task.cluster != c && w.task.cluster < Pow2(l.bits1)
    ensures Placing(outR, outS', R, S, l, w)
  {
    hide SubsInPlace, Scattering, SubSizes, OnlyRegion, Pow2;
    if w.ScatterS? { ScatteringStays(outS, outS', S, l, c, w.task.cluster, w.dst, w.i); }
  }

  /** Thread t has written one tuple of R. */
  lemma WroteR(outR: Relation, outR': Relation, outS: Relation, R: Relation, S: Relation, l: Layout,
               workers: seq<Worker>, stage: seq<Stage>, t: nat, w: Worker)
    requires Memory(outR, outS, R, S, l, workers, stage) && WorkersOk(R, S, l, workers, stage) && t < |workers| &&
             Busy(workers[t])
    requires OnlyRegion(outR, outR', R, l, workers[t].task.cluster) && Placing(outR', outS, R, S, l, w)
    ensures Memory(outR', outS, R, S, l, workers[t := w], stage)
  {
    hide Placing, DoneInPlace, OnlyRegion, SubsOk, IsPartTask, Pow2;
    var c, w' := workers[t].task.cluster, workers[t := w];
    assert WorkerOk(R, S, l, workers[t], t, stage);
    DoneStays(outR, outR', R, l, stage, c);
    forall u {:trigger w'[u]} | 0 <= u < |w'| ensures Placing(outR', outS, R, S, l, w'[u]) {
      if u != t {
        assert Placing(outR, outS, R, S, l, workers[u]);
        if Busy(workers[u]) { OtherCluster(R, S, l, workers, stage, t, u); }
        PlacingStaysR(outR, outR', outS, R, S, l, c, workers[u]);
      }
    }
  }

  /** Thread t has written one tuple of S. */
  lemma WroteS(outR: Relation, outS: Relation, outS': Relation, R: Relation, S: Relation, l: Layout,
               workers: seq<Worker>, stage: seq<Stage>, t: nat, w: Worker)
    requires Memory(outR, outS, R, S, l, workers, stage) && WorkersOk(R, S, l, workers, stage) && t < |workers| &&
             Busy(workers[t])
    requires OnlyRegion(outS, outS', S, l, workers[t].task.cluster) && Placing(outR, outS', R, S, l, w)
    ensures Memory(outR, outS', R, S, l, workers[t := w], stage)
  {
    hide Placing, DoneInPlace, OnlyRegion, SubsOk, IsPartTask, Pow2;
    var c, w' := workers[t].task.cluster, workers[t := w];
    assert WorkerOk(R, S, l, workers[t], t, stage);
    DoneStays(outS, outS', S, l, stage, c);
    forall u {:trigger w'[u]} | 0 <= u < |w'| ensures Placing(outR, outS', R, S, l, w'[u]) {
      if u != t {
        assert Placing(outR, outS, R, S, l, workers[u]);
        if Busy(workers[u]) { OtherCluster(R, S, l, workers, stage, t, u); }
        PlacingStaysS(outR, outS, outS', R, S, l, c, workers[u]);
      }
    }
  }

  /** Thread t has written nothing. */
  lemma WroteNothing(outR: Relation, outS: Relation, R: Relation, S: Relation, l: Layout, workers: seq<Worker>,
                     stage: seq<Stage>, t: nat, w: Worker)
    requires Memory(outR, outS, R, S, l, workers, stage) && t < |workers| && Placing(outR, outS, R, S, l, w)
    ensures Memory(outR, outS, R, S, l, workers[t := w], stage)
  {
    hide Placing, DoneInPlace;
  }

  /** A cluster goes to a thread. */
  lemma ClusterTaken(outR: Relation, outS: Relation, R: Relation, S: Relation, l: Layout, workers: seq<Worker>,
                     stage: seq<Stage>, c: nat, x: Stage)
    requires Memory(outR, outS, R, S, l, workers, stage) && c < |stage|
    requires x != Done || (SubsInPlace(outR, R, l, c) && SubsInPlace(outS, S, l, c))
    ensures Memory(outR, outS, R, S, l, workers, stage[c := x])
  {
    hide SubsInPlace, AllPlacing, Pow2;
  }

  // ----- the steps themselves -----

  /** A thread gives up only when the queue is empty, and nothing refills it. */
  ghost predicate NoEarlyExit(parts: seq<Task>, workers: seq<Worker>) {
    |parts| > 0 ==> forall t :: 0 <= t < |workers| ==> workers[t] != Finished
  }

  lemma RankStep(l: Layout, workers: seq<Worker>, t: nat, w: Worker)
    requires t < |workers| && Rank(l)(w) < Rank(l)(workers[t])
    ensures Sum(workers[t := w], Rank(l)) < Sum(workers, Rank(l))
  {
    SumUpdate(workers, t, w, Rank(l));
  }

  /** Take a task, or give up. */
  method Take(t: nat, partQueue: Queue, workers: array<Worker>, l: Layout, ghost outR: Relation, ghost outS: Relation,
              ghost R: Relation, ghost S: Relation, ghost joins: seq<Task>, ghost stage: seq<Stage>,
              ghost goal: multiset<Task>)
    returns (ghost stage': seq<Stage>)
    requires partQueue.Valid() && t < workers.Length && workers[t] == Idle
    requires State(R, S, l, partQueue.Tasks(), workers[..], joins, stage, goal) &&
             NoEarlyExit(partQueue.Tasks(), workers[..])
    requires Memory(outR, outS, R, S, l, workers[..], stage)
    modifies partQueue, workers
    ensures partQueue.Valid() && State(R, S, l, partQueue.Tasks(), workers[..], joins, stage', goal) &&
            NoEarlyExit(partQueue.Tasks(), workers[..])
    ensures Memory(outR, outS, R, S, l, workers[..], stage')
    ensures |partQueue.Tasks()| < old(|partQueue.Tasks()|) ||
            (partQueue.Tasks() == old(partQueue.Tasks()) && Sum(workers[..], Rank(l)) < old(Sum(workers[..], Rank(l))))
    ensures Stepped(old(workers[..]), workers[..], t)
  {
    hide State, Rank, Sum, Memory;
    ghost var parts := partQueue.Tasks();
    var task := partQueue.Get();
    stage' := stage;
    if task.None? {
      RestStep(R, S, l, parts, workers[..], joins, stage, goal, t, Finished);
      WroteNothing(outR, outS, R, S, l, workers[..], stage, t, Finished);
      RankIs(l, Finished);
      RankIs(l, Idle);
      RankStep(l, workers[..], t, Finished);
      workers[t] := Finished;
    } else {
      assert parts[0] == task.value && parts[1..] == partQueue.Tasks();
      TakeStep(R, S, l, parts, workers[..], joins, stage, goal, t);
      WroteNothing(outR, outS, R, S, l, workers[..], stage, t, Holding(task.value));
      workers[t] := Holding(task.value);
      stage' := stage[task.value.cluster := With(t)];
      ClusterTaken(outR, outS, R, S, l, workers[..], stage, task.value.cluster, With(t));
    }
  }

  lemma RankIs(l: Layout, w: Worker)
    ensures Rank(l)(w) == match w
                          case Finished => 0
                          case Idle => 1
                          case Linking(pending, _) => 3 * |pending|
                          case Filling(pending, _) => 1 + 3 * |pending|
                          case Adding(pending) => 2 + 3 * |pending|
                          case ScatterS(task, _, _, _, i) => 3 + 3 * Pow2(l.bits2) + ToDo(task.nS, i)
                          case ScatterR(task, _, _, i) => 4 + 3 * Pow2(l.bits2) + task.nS + ToDo(task.nR, i)
                          case Holding(task) => 5 + 3 * Pow2(l.bits2) + task.nS + task.nR
  {
  }

  /** What the steps of a busy thread work with. */
  ghost predicate Ready(t: nat, workers: seq<Worker>, outR: Relation, inR: Relation, outS: Relation, inS: Relation,
                        l: Layout, R: Relation, S: Relation, parts: seq<Task>, joins: seq<Task>, stage: seq<Stage>,
                        goal: multiset<Task>)
  {
    && |R| + Pow2(l.bits1) * Gap(l) <= |outR| && |S| + Pow2(l.bits1) * Gap(l) <= |outS|
    && PartsInPlace(inR, R, l) && PartsInPlace(inS, S, l)
    && t < |workers| && Busy(workers[t])
    && State(R, S, l, parts, workers, joins, stage, goal) && NoEarlyExit(parts, workers)
    && Memory(outR, outS, R, S, l, workers, stage)
  }

  /** The task of a busy thread and its regions. */
  lemma HeldTask(t: nat, workers: seq<Worker>, outR: Relation, inR: Relation, outS: Relation, inS: Relation,
                 l: Layout, R: Relation, S: Relation, parts: seq<Task>, joins: seq<Task>, stage: seq<Stage>,
                 goal: multiset<Task>)
    requires Ready(t, workers, outR, inR, outS, inS, l, R, S, parts, joins, stage, goal)
    ensures var task := workers[t].task;
            && IsPartTask(R, S, l, task) && task.cluster < |stage| == Pow2(l.bits1) && stage[task.cluster] == With(t)
            && task.offR == PartStart(R, l, task.cluster) && task.nR == |Part(R, l, task.cluster)|
            && task.offS == PartStart(S, l, task.cluster) && task.nS == |Part(S, l, task.cluster)|
            && Holds(inR, task.offR, Part(R, l, task.cluster)) && Holds(inS, task.offS, Part(S, l, task.cluster))
    ensures WorkersOk(R, S, l, workers, stage) && Placing(outR, outS, R, S, l, workers[t])
  {
    hide Union, Part, PartStart, DoneInPlace, Placing, Gap, Pow2, Holds, PartsOk, SubsOk;
    assert WorkerOk(R, S, l, workers[t], t, stage);
    assert Placing(outR, outS, R, S, l, workers[t]);
  }

  /** Going on with the same task, with less left to do. */
  lemma Onward(t: nat, w: Worker, workers: seq<Worker>, outR: Relation, inR: Relation, outS: Relation, inS: Relation,
               l: Layout, R: Relation, S: Relation, parts: seq<Task>, joins: seq<Task>, stage: seq<Stage>,
               goal: multiset<Task>)
    requires Ready(t, workers, outR, inR, outS, inS, l, R, S, parts, joins, stage, goal)
    requires Busy(w) && w.task == workers[t].task && Rank(l)(w) < Rank(l)(workers[t])
    ensures State(R, S, l, parts, workers[t := w], joins, stage, goal) && NoEarlyExit(parts, workers[t := w])
    ensures Sum(workers[t := w], Rank(l)) < Sum(workers, Rank(l))
  {
    hide State, Rank, Sum, Gap, Pow2, PartsInPlace, Memory;
    AdvanceStep(R, S, l, parts, workers, joins, stage, goal, t, w);
    RankStep(l, workers, t, w);
  }

  /** Count the region of R and set the cursors: this reads what nobody writes during the pass
      and writes what nobody else can reach. */
  method BeginR(t: nat, workers: array<Worker>, outR: array<Tuple>, inR: array<Tuple>, outS: array<Tuple>,
                inS: array<Tuple>, l: Layout, ghost R: Relation, ghost S: Relation, ghost parts: seq<Task>,
                ghost joins: seq<Task>, ghost stage: seq<Stage>, ghost goal: multiset<Task>)
    requires Ready(t, workers[..], outR[..], inR[..], outS[..], inS[..], l, R, S, parts, joins, stage, goal) &&
             workers[t].Holding?
    modifies workers
    ensures State(R, S, l, parts, workers[..], joins, stage, goal) && NoEarlyExit(parts, workers[..])
    ensures Memory(outR[..], outS[..], R, S, l, workers[..], stage)
    ensures Sum(workers[..], Rank(l)) < old(Sum(workers[..], Rank(l)))
    ensures Stepped(old(workers[..]), workers[..], t)
  {
    hide State, Rank, Sum, Memory, PartsInPlace, NoEarlyExit, Part, PartStart, Gap, Pow2, Holds, SubSizes, Scattering,
         IsPartTask;
    ghost var w0 := workers[..];
    HeldTask(t, w0, outR[..], inR[..], outS[..], inS[..], l, R, S, parts, joins, stage, goal);
    var task := workers[t].task;
    var hist, dst := CountRegion(inR, task.offR, task.nR, l, outR[..], R, task.cluster);
    var w := ScatterR(task, hist, dst, 0);
    RankIs(l, w);
    RankIs(l, w0[t]);
    Onward(t, w, w0, outR[..], inR[..], outS[..], inS[..], l, R, S, parts, joins, stage, goal);
    WroteNothing(outR[..], outS[..], R, S, l, w0, stage, t, w);
    workers[t] := w;
    assert workers[..] == w0[t := w];
  }

  /** Copy one tuple of R. */
  method CopyR(t: nat, workers: array<Worker>, outR: array<Tuple>, inR: array<Tuple>, outS: array<Tuple>,
               inS: array<Tuple>, l: Layout, ghost R: Relation, ghost S: Relation, ghost parts: seq<Task>,
               ghost joins: seq<Task>, ghost stage: seq<Stage>, ghost goal: multiset<Task>)
    requires outR != inR && outR != outS && outR != inS
    requires Ready(t, workers[..], outR[..], inR[..], outS[..], inS[..], l, R, S, parts, joins, stage, goal)
    requires workers[t].ScatterR? && workers[t].i < workers[t].task.nR
    modifies workers, outR
    ensures State(R, S, l, parts, workers[..], joins, stage, goal) && NoEarlyExit(parts, workers[..])
    ensures Memory(outR[..], outS[..], R, S, l, workers[..], stage)
    ensures Sum(workers[..], Rank(l)) < old(Sum(workers[..], Rank(l)))
    ensures Stepped(old(workers[..]), workers[..], t)
  {
    hide State, Rank, Sum, Memory, PartsInPlace, NoEarlyExit, Part, PartStart, Gap, Pow2, Holds, SubSizes, Scattering,
         OnlyRegion, IsPartTask, WorkersOk;
    ghost var w0, outR0 := workers[..], outR[..];
    HeldTask(t, w0, outR[..], inR[..], outS[..], inS[..], l, R, S, parts, joins, stage, goal);
    var now := workers[t];
    var dst := CopyTuple(inR, outR, now.task.offR, now.i, l, now.dst, R, now.task.cluster);
    var w := ScatterR(now.task, now.histR, dst, now.i + 1);
    RankIs(l, w);
    RankIs(l, now);
    Onward(t, w, w0, outR0, inR[..], outS[..], inS[..], l, R, S, parts, joins, stage, goal);
    WroteR(outR0, outR[..], outS[..], R, S, l, w0, stage, t, w);
    workers[t] := w;
    assert workers[..] == w0[t := w];
  }

  /** R is done; count the region of S. */
  method BeginS(t: nat, workers: array<Worker>, outR: array<Tuple>, inR: array<Tuple>, outS: array<Tuple>,
                inS: array<Tuple>, l: Layout, ghost R: Relation, ghost S: Relation, ghost parts: seq<Task>,
                ghost joins: seq<Task>, ghost stage: seq<Stage>, ghost goal: multiset<Task>)
    requires Ready(t, workers[..], outR[..], inR[..], outS[..], inS[..], l, R, S, parts, joins, stage, goal)
    requires workers[t].ScatterR? && workers[t].i >= workers[t].task.nR
    modifies workers
    ensures State(R, S, l, parts, workers[..], joins, stage, goal) && NoEarlyExit(parts, workers[..])
    ensures Memory(outR[..], outS[..], R, S, l, workers[..], stage)
    ensures Sum(workers[..], Rank(l)) < old(Sum(workers[..], Rank(l)))
    ensures Stepped(old(workers[..]), workers[..], t)
  {
    hide State, Rank, Sum, Memory, PartsInPlace, NoEarlyExit, Part, PartStart, Gap, Pow2, Holds, SubSizes, Scattering,
         IsPartTask, SubsInPlace;
    ghost var w0 := workers[..];
    HeldTask(t, w0, outR[..], inR[..], outS[..], inS[..], l, R, S, parts, joins, stage, goal);
    var now := workers[t];
    ScatteringBound(outR[..], R, l, now.task.cluster, now.dst, now.i);
    ScatteringDone(outR[..], R, l, now.task.cluster, now.dst);
    var hist, dst := CountRegion(inS, now.task.offS, now.task.nS, l, outS[..], S, now.task.cluster);
    var w := ScatterS(now.task, now.histR, hist, dst, 0);
    RankIs(l, w);
    RankIs(l, now);
    Onward(t, w, w0, outR[..], inR[..], outS[..], inS[..], l, R, S, parts, joins, stage, goal);
    WroteNothing(outR[..], outS[..], R, S, l, w0, stage, t, w);
    workers[t] := w;
    assert workers[..] == w0[t := w];
  }

  lemma ScatteringBound(out: Relation, rel: Relation, l: Layout, c: nat, dst: seq<int>, i: nat)
    requires Scattering(out, rel, l, c, dst, i)
    ensures i <= |Part(rel, l, c)|
  {
  }

  /** Copy one tuple of S. */
  method CopyS(t: nat, workers: array<Worker>, outR: array<Tuple>, inR: array<Tuple>, outS: array<Tuple>,
               inS: array<Tuple>, l: Layout, ghost R: Relation, ghost S: Relation, ghost parts: seq<Task>,
               ghost joins: seq<Task>, ghost stage: seq<Stage>, ghost goal: multiset<Task>)
    requires outS != inR && outR != outS && outS != inS
    requires Ready(t, workers[..], outR[..], inR[..], outS[..], inS[..], l, R, S, parts, joins, stage, goal)
    requires workers[t].ScatterS? && workers[t].i < workers[t].task.nS
    modifies workers, outS
    ensures State(R, S, l, parts, workers[..], joins, stage, goal) && NoEarlyExit(parts, workers[..])
    ensures Memory(outR[..], outS[..], R, S, l, workers[..], stage)
    ensures Sum(workers[..], Rank(l)) < old(Sum(workers[..], Rank(l)))
    ensures Stepped(old(workers[..]), workers[..], t)
  {
    hide State, Rank, Sum, Memory, PartsInPlace, NoEarlyExit, Part, PartStart, Gap, Pow2, Holds, SubSizes, Scattering,
      OnlyRegion, IsPartTask, WorkersOk,
         SubsInPlace;
    ghost var w0, outS0 := workers[..], outS[..];
    HeldTask(t, w0, outR[..], inR[..], outS[..], inS[..], l, R, S, parts, joins, stage, goal);
    var now := workers[t];
    var dst := CopyTuple(inS, outS, now.task.offS, now.i, l, now.dst, S, now.task.cluster);
    var w := ScatterS(now.task, now.histR, now.histS, dst, now.i + 1);
    RankIs(l, w);
    RankIs(l, now);
    Onward(t, w, w0, outR[..], inR[..], outS0, inS[..], l, R, S, parts, joins, stage, goal);
    WroteS(outR[..], outS0, outS[..], R, S, l, w0, stage, t, w);
    workers[t] := w;
    assert workers[..] == w0[t := w];
  }

  /** Both regions are done; make the join tasks. */
  method ListTasks(t: nat, workers: array<Worker>, outR: array<Tuple>, inR: array<Tuple>, outS: array<Tuple>,
                   inS: array<Tuple>, l: Layout, ghost R: Relation, ghost S: Relation, ghost parts: seq<Task>,
                   ghost joins: seq<Task>, ghost stage: seq<Stage>, ghost goal: multiset<Task>)
    returns (ghost stage': seq<Stage>)
    requires Ready(t, workers[..], outR[..], inR[..], outS[..], inS[..], l, R, S, parts, joins, stage, goal)
    requires workers[t].ScatterS? && workers[t].i >= workers[t].task.nS
    modifies workers
    ensures State(R, S, l, parts, workers[..], joins, stage', goal) && NoEarlyExit(parts, workers[..])
    ensures Memory(outR[..], outS[..], R, S, l, workers[..], stage')
    ensures Sum(workers[..], Rank(l)) < old(Sum(workers[..], Rank(l)))
    ensures Stepped(old(workers[..]), workers[..], t)
  {
    hide State, Rank, Sum, Memory, PartsInPlace, Part, PartStart, Gap, Pow2, Holds, SubSizes, Scattering, IsPartTask,
         SubsInPlace, SubTasks;
    ghost var w0 := workers[..];
    HeldTask(t, w0, outR[..], inR[..], outS[..], inS[..], l, R, S, parts, joins, stage, goal);
    var now := workers[t];
    ScatteringBound(outS[..], S, l, now.task.cluster, now.dst, now.i);
    ScatteringDone(outS[..], S, l, now.task.cluster, now.dst);
    var subs := MakeTasks(now.task, now.histR, now.histS, l, R, S);
    ListStep(R, S, l, parts, w0, joins, stage, goal, t, subs);
    FewSubTasks(R, S, l, now.task.cluster, Pow2(l.bits2));
    RankIs(l, Adding(subs));
    RankIs(l, now);
    RankStep(l, w0, t, Adding(subs));
    WroteNothing(outR[..], outS[..], R, S, l, w0, stage, t, Adding(subs));
    ClusterTaken(outR[..], outS[..], R, S, l, w0[t := Adding(subs)], stage, now.task.cluster, Done);
    workers[t] := Adding(subs);
    assert workers[..] == w0[t := Adding(subs)];
    stage' := stage[now.task.cluster := Done];
  }

  lemma {:induction false} FewSubTasks(R: Relation, S: Relation, l: Layout, c: nat, k: nat)
    ensures |SubTasks(R, S, l, c, k)| <= k
  {
    if k > 0 { FewSubTasks(R, S, l, c, k - 1); }
  }

  /** All join tasks are added: go back for the next partition task. */
  method GoBack(t: nat, workers: array<Worker>, l: Layout, ghost outR: Relation, ghost outS: Relation,
                ghost R: Relation, ghost S: Relation, ghost parts: seq<Task>, ghost joins: seq<Task>,
                ghost stage: seq<Stage>, ghost goal: multiset<Task>)
    requires t < workers.Length && workers[t] == Adding([])
    requires State(R, S, l, parts, workers[..], joins, stage, goal) && NoEarlyExit(parts, workers[..])
    requires Memory(outR, outS, R, S, l, workers[..], stage)
    modifies workers
    ensures Memory(outR, outS, R, S, l, workers[..], stage)
    ensures State(R, S, l, parts, workers[..], joins, stage, goal) && NoEarlyExit(parts, workers[..])
    ensures Sum(workers[..], Rank(l)) < old(Sum(workers[..], Rank(l)))
    ensures Stepped(old(workers[..]), workers[..], t)
  {
    hide State, Rank, Sum, Memory;
    RestStep(R, S, l, parts, workers[..], joins, stage, goal, t, Idle);
    RankIs(l, Adding([]));
    RankIs(l, Idle);
    RankStep(l, workers[..], t, Idle);
    WroteNothing(outR, outS, R, S, l, workers[..], stage, t, Idle);
    workers[t] := Idle;
  }

  /** Get a slot for the next join task. */
  method GetSlot(t: nat, joinQueue: Queue, workers: array<Worker>, l: Layout, ghost outR: Relation,
                 ghost outS: Relation, ghost R: Relation, ghost S: Relation, ghost parts: seq<Task>,
                 ghost stage: seq<Stage>, ghost goal: multiset<Task>)
    requires joinQueue.Valid() && t < workers.Length && workers[t].Adding? && |workers[t].pending| > 0
    requires State(R, S, l, parts, workers[..], joinQueue.Tasks(), stage, goal) && NoEarlyExit(parts, workers[..])
    requires Memory(outR, outS, R, S, l, workers[..], stage)
    requires SlotsHeld(workers[..], joinQueue.lent, joinQueue.cells)
    modifies joinQueue, workers
    ensures Memory(outR, outS, R, S, l, workers[..], stage) && SlotsHeld(workers[..], joinQueue.lent, joinQueue.cells)
    ensures joinQueue.Valid() && State(R, S, l, parts, workers[..], joinQueue.Tasks(), stage, goal) &&
            NoEarlyExit(parts, workers[..])
    ensures Sum(workers[..], Rank(l)) < old(Sum(workers[..], Rank(l)))
  {
    hide State, Rank, Sum, Memory, SlotsHeld;
    ghost var w0, joins, lent0, cells0 := workers[..], joinQueue.Tasks(), joinQueue.lent, joinQueue.cells;
    var pending := workers[t].pending;
    var slot := joinQueue.GetSlot(pending[0]);
    var w := Filling(pending, slot);
    SlotStep(R, S, l, parts, w0, joins, stage, goal, t, w);
    SlotGot(w0, t, slot, lent0, cells0, joinQueue.cells);
    RankIs(l, Adding(pending));
    RankIs(l, w);
    RankStep(l, w0, t, w);
    WroteNothing(outR, outS, R, S, l, w0, stage, t, w);
    workers[t] := w;
    assert workers[..] == w0[t := w];
  }

  /** Fill it. */
  method FillSlot(t: nat, joinQueue: Queue, workers: array<Worker>, l: Layout, ghost outR: Relation,
                  ghost outS: Relation, ghost R: Relation, ghost S: Relation, ghost parts: seq<Task>,
                  ghost stage: seq<Stage>, ghost goal: multiset<Task>)
    requires joinQueue.Valid() && t < workers.Length && workers[t].Filling?
    requires State(R, S, l, parts, workers[..], joinQueue.Tasks(), stage, goal) && NoEarlyExit(parts, workers[..])
    requires Memory(outR, outS, R, S, l, workers[..], stage)
    requires SlotsHeld(workers[..], joinQueue.lent, joinQueue.cells)
    modifies joinQueue, workers
    ensures Memory(outR, outS, R, S, l, workers[..], stage) && SlotsHeld(workers[..], joinQueue.lent, joinQueue.cells)
    ensures joinQueue.Valid() && State(R, S, l, parts, workers[..], joinQueue.Tasks(), stage, goal) &&
            NoEarlyExit(parts, workers[..])
    ensures Sum(workers[..], Rank(l)) < old(Sum(workers[..], Rank(l)))
  {
    hide State, Rank, Sum, Memory, SlotsHeld;
    ghost var w0, joins, lent0, cells0 := workers[..], joinQueue.Tasks(), joinQueue.lent, joinQueue.cells;
    var pending, slot := workers[t].pending, workers[t].slot;
    SlotIs(R, S, l, parts, w0, joins, stage, goal, t, lent0, cells0);
    joinQueue.Fill(slot, pending[0]);
    var w := Linking(pending, slot);
    SlotStep(R, S, l, parts, w0, joins, stage, goal, t, w);
    SlotFilled(w0, t, lent0, cells0, joinQueue.cells);
    RankIs(l, Filling(pending, slot));
    RankIs(l, w);
    RankStep(l, w0, t, w);
    WroteNothing(outR, outS, R, S, l, w0, stage, t, w);
    workers[t] := w;
    assert workers[..] == w0[t := w];
  }

  lemma SlotIs(R: Relation, S: Relation, l: Layout, parts: seq<Task>, workers: seq<Worker>, joins: seq<Task>,
               stage: seq<Stage>, goal: multiset<Task>, t: nat, lent: set<nat>, cells: seq<Cell>)
    requires State(R, S, l, parts, workers, joins, stage, goal) && SlotsHeld(workers, lent, cells)
    requires t < |workers| && HasSlot(workers[t])
    ensures |workers[t].pending| > 0 && SlotOk(workers[t], lent, cells)
  {
    hide IsPartTask, SubsOk, PartsOk, Balanced;
    assert WorkerOk(R, S, l, workers[t], t, stage);
  }

  /** Put it into the queue. */
  method LinkSlot(t: nat, joinQueue: Queue, workers: array<Worker>, l: Layout, ghost outR: Relation,
                  ghost outS: Relation, ghost R: Relation, ghost S: Relation, ghost parts: seq<Task>,
                  ghost stage: seq<Stage>, ghost goal: multiset<Task>)
    requires joinQueue.Valid() && t < workers.Length && workers[t].Linking?
    requires State(R, S, l, parts, workers[..], joinQueue.Tasks(), stage, goal) && NoEarlyExit(parts, workers[..])
    requires Memory(outR, outS, R, S, l, workers[..], stage)
    requires SlotsHeld(workers[..], joinQueue.lent, joinQueue.cells)
    modifies joinQueue, workers
    ensures Memory(outR, outS, R, S, l, workers[..], stage) && SlotsHeld(workers[..], joinQueue.lent, joinQueue.cells)
    ensures joinQueue.Valid() && State(R, S, l, parts, workers[..], joinQueue.Tasks(), stage, goal) &&
            NoEarlyExit(parts, workers[..])
    ensures Sum(workers[..], Rank(l)) < old(Sum(workers[..], Rank(l)))
  {
    hide State, Rank, Sum, Memory, SlotsHeld;
    ghost var w0, joins, lent0, cells0 := workers[..], joinQueue.Tasks(), joinQueue.lent, joinQueue.cells;
    var pending, slot := workers[t].pending, workers[t].slot;
    SlotIs(R, S, l, parts, w0, joins, stage, goal, t, lent0, cells0);
    joinQueue.Add(slot);
    var w := Adding(pending[1..]);
    AddStep(R, S, l, parts, w0, joins, stage, goal, t);
    SlotLinked(w0, t, w, lent0, cells0, joinQueue.cells);
    RankIs(l, Linking(pending, slot));
    RankIs(l, w);
    RankStep(l, w0, t, w);
    WroteNothing(outR, outS, R, S, l, w0, stage, t, w);
    workers[t] := w;
    assert workers[..] == w0[t := w];
  }

  /** One step of thread t with its regions, or with the queue of partition tasks. */
  method PlainTurn(t: nat, partQueue: Queue, workers: array<Worker>, outR: array<Tuple>, inR: array<Tuple>,
                   outS: array<Tuple>, inS: array<Tuple>, l: Layout, ghost R: Relation, ghost S: Relation,
                   ghost joins: seq<Task>, ghost stage: seq<Stage>, ghost goal: multiset<Task>)
    returns (ghost stage': seq<Stage>)
    requires partQueue.Valid()
    requires outR != inR && outR != outS && outR != inS && outS != inR && outS != inS
    requires |R| + Pow2(l.bits1) * Gap(l) <= outR.Length && |S| + Pow2(l.bits1) * Gap(l) <= outS.Length
    requires PartsInPlace(inR[..], R, l) && PartsInPlace(inS[..], S, l)
    requires t < workers.Length && (workers[t] == Idle || Busy(workers[t]) || workers[t] == Adding([]))
    requires State(R, S, l, partQueue.Tasks(), workers[..], joins, stage, goal) &&
             NoEarlyExit(partQueue.Tasks(), workers[..])
    requires Memory(outR[..], outS[..], R, S, l, workers[..], stage)
    modifies partQueue, workers, outR, outS
    ensures partQueue.Valid() && Stepped(old(workers[..]), workers[..], t)
    ensures State(R, S, l, partQueue.Tasks(), workers[..], joins, stage', goal) &&
            NoEarlyExit(partQueue.Tasks(), workers[..])
    ensures Memory(outR[..], outS[..], R, S, l, workers[..], stage')
    ensures |partQueue.Tasks()| < old(|partQueue.Tasks()|) ||
            (partQueue.Tasks() == old(partQueue.Tasks()) && Sum(workers[..], Rank(l)) < old(Sum(workers[..], Rank(l))))
  {
    hide State, Rank, Sum, PartsInPlace, Gap, Pow2, NoEarlyExit, Memory, Stepped;
    ghost var parts := partQueue.Tasks();
    stage' := stage;
    match workers[t] {
      case Idle =>
        stage' := Take(t, partQueue, workers, l, outR[..], outS[..], R, S, joins, stage, goal);
      case Holding(_) =>
        BeginR(t, workers, outR, inR, outS, inS, l, R, S, parts, joins, stage, goal);
      case ScatterR(task, _, _, i) =>
        if i < task.nR {
          CopyR(t, workers, outR, inR, outS, inS, l, R, S, parts, joins, stage, goal);
        } else {
          BeginS(t, workers, outR, inR, outS, inS, l, R, S, parts, joins, stage, goal);
        }
      case ScatterS(task, _, _, _, i) =>
        if i < task.nS {
          CopyS(t, workers, outR, inR, outS, inS, l, R, S, parts, joins, stage, goal);
        } else {
          stage' := ListTasks(t, workers, outR, inR, outS, inS, l, R, S, parts, joins, stage, goal);
        }
      case Adding(_) =>
        GoBack(t, workers, l, outR[..], outS[..], R, S, parts, joins, stage, goal);
    }
  }

  /** One step of thread t with the queue of join tasks. */
  method SlotTurn(t: nat, joinQueue: Queue, workers: array<Worker>, l: Layout, ghost outR: Relation,
                  ghost outS: Relation, ghost R: Relation, ghost S: Relation, ghost parts: seq<Task>,
                  ghost stage: seq<Stage>, ghost goal: multiset<Task>)
    requires joinQueue.Valid() && t < workers.Length && Listing(workers[t]) && workers[t] != Adding([])
    requires State(R, S, l, parts, workers[..], joinQueue.Tasks(), stage, goal) && NoEarlyExit(parts, workers[..])
    requires Memory(outR, outS, R, S, l, workers[..], stage)
    requires SlotsHeld(workers[..], joinQueue.lent, joinQueue.cells)
    modifies joinQueue, workers
    ensures Memory(outR, outS, R, S, l, workers[..], stage) && SlotsHeld(workers[..], joinQueue.lent, joinQueue.cells)
    ensures joinQueue.Valid() && State(R, S, l, parts, workers[..], joinQueue.Tasks(), stage, goal) &&
            NoEarlyExit(parts, workers[..])
    ensures Sum(workers[..], Rank(l)) < old(Sum(workers[..], Rank(l)))
  {
    hide State, Rank, Sum, NoEarlyExit, Memory, SlotsHeld;
    match workers[t] {
      case Adding(_) =>
        GetSlot(t, joinQueue, workers, l, outR, outS, R, S, parts, stage, goal);
      case Filling(_, _) =>
        FillSlot(t, joinQueue, workers, l, outR, outS, R, S, parts, stage, goal);
      case Linking(_, _) =>
        LinkSlot(t, joinQueue, workers, l, outR, outS, R, S, parts, stage, goal);
    }
  }

  /** One step of thread t, whichever it is at. */
  method Turn(t: nat, partQueue: Queue, joinQueue: Queue, workers: array<Worker>, outR: array<Tuple>,
              inR: array<Tuple>, outS: array<Tuple>, inS: array<Tuple>, l: Layout, ghost R: Relation,
              ghost S: Relation, ghost stage: seq<Stage>, ghost goal: multiset<Task>)
    returns (ghost stage': seq<Stage>)
    requires partQueue != joinQueue && partQueue.Valid() && joinQueue.Valid()
    requires outR != inR && outR != outS && outR != inS && outS != inR && outS != inS
    requires |R| + Pow2(l.bits1) * Gap(l) <= outR.Length && |S| + Pow2(l.bits1) * Gap(l) <= outS.Length
    requires PartsInPlace(inR[..], R, l) && PartsInPlace(inS[..], S, l)
    requires t < workers.Length && workers[t] != Finished
    requires State(R, S, l, partQueue.Tasks(), workers[..], joinQueue.Tasks(), stage, goal) &&
             NoEarlyExit(partQueue.Tasks(), workers[..])
    requires Memory(outR[..], outS[..], R, S, l, workers[..], stage)
    requires SlotsHeld(workers[..], joinQueue.lent, joinQueue.cells)
    modifies partQueue, joinQueue, workers, outR, outS
    ensures partQueue.Valid() && joinQueue.Valid() && SlotsHeld(workers[..], joinQueue.lent, joinQueue.cells)
    ensures State(R, S, l, partQueue.Tasks(), workers[..], joinQueue.Tasks(), stage', goal) &&
            NoEarlyExit(partQueue.Tasks(), workers[..])
    ensures Memory(outR[..], outS[..], R, S, l, workers[..], stage')
    ensures |partQueue.Tasks()| < old(|partQueue.Tasks()|) ||
            (partQueue.Tasks() == old(partQueue.Tasks()) && Sum(workers[..], Rank(l)) < old(Sum(workers[..], Rank(l))))
  {
    hide State, Rank, Sum, PartsInPlace, Gap, Pow2, NoEarlyExit, Memory, SlotsHeld, Stepped;
    stage' := stage;
    if Listing(workers[t]) && workers[t] != Adding([]) {
      SlotTurn(t, joinQueue, workers, l, outR[..], outS[..], R, S, partQueue.Tasks(), stage, goal);
    } else {
      ghost var w0 := workers[..];
      stage' := PlainTurn(t, partQueue, workers, outR, inR, outS, inS, l, R, S, joinQueue.Tasks(), stage, goal);
      SlotsStay(w0, workers[..], t, joinQueue.lent, joinQueue.cells);
    }
  }

  /** The join tasks are in the queue and what they are to join is in place. */
  ghost predicate ReadyToJoin(outR: Relation, outS: Relation, R: Relation, S: Relation, l: Layout, joins: seq<Task>) {
    forall i :: 0 <= i < |joins| ==>
      IsSubTask(R, S, l, joins[i]) &&
      Holds(outR, joins[i].offR, Sub(R, l, joins[i].cluster, joins[i].sub)) &&
        Holds(outS, joins[i].offS, Sub(S, l, joins[i].cluster, joins[i].sub))
  }

  lemma Start(R: Relation, S: Relation, l: Layout, parts: seq<Task>, workers: seq<Worker>, outR: Relation,
              outS: Relation)
    returns (stage: seq<Stage>)
    requires forall i :: 0 <= i < |parts| ==> IsPartTask(R, S, l, parts[i])
    requires forall i, j :: 0 <= i < j < |parts| ==> parts[i].cluster != parts[j].cluster
    requires forall t :: 0 <= t < |workers| ==> workers[t] == Idle
    ensures State(R, S, l, parts, workers, [], stage, Union(parts, Offspring(R, S, l))) && NoEarlyExit(parts, workers)
    ensures Memory(outR, outS, R, S, l, workers, stage)
  {
    hide PartTask, Union, Offspring, Owed, SubsInPlace;
    stage := seq(Pow2(l.bits1), _ => Queued);
    forall t | 0 <= t < |workers| ensures Owed(R, S, l)(workers[t]) == multiset{} { OwedIs(R, S, l, Idle); }
    UnionEmpty(workers, Owed(R, S, l));
  }

  lemma End(R: Relation, S: Relation, l: Layout, parts: seq<Task>, workers: seq<Worker>, joins: seq<Task>,
            stage: seq<Stage>, goal: multiset<Task>, outR: Relation, outS: Relation)
    requires State(R, S, l, parts, workers, joins, stage, goal) && NoEarlyExit(parts, workers)
    requires Memory(outR, outS, R, S, l, workers, stage)
    requires |workers| >= 1 && forall t :: 0 <= t < |workers| ==> workers[t] == Finished
    ensures multiset(joins) == goal && parts == [] && ReadyToJoin(outR, outS, R, S, l, joins)
  {
    hide Pow2, Holds, Sub, SubStart, Offspring;
    assert workers[0] == Finished;
    forall t | 0 <= t < |workers| ensures Owed(R, S, l)(workers[t]) == multiset{} { OwedIs(R, S, l, workers[t]); }
    UnionEmpty(workers, Owed(R, S, l));
    forall i | 0 <= i < |joins|
      ensures IsSubTask(R, S, l, joins[i])
      ensures Holds(outR, joins[i].offR, Sub(R, l, joins[i].cluster, joins[i].sub)) &&
              Holds(outS, joins[i].offS, Sub(S, l, joins[i].cluster, joins[i].sub))
    {
      var c := joins[i].cluster;
      assert stage[c] == Done && SubsInPlace(outR, R, l, c) && SubsInPlace(outS, S, l, c);
    }
  }

  lemma NoSlots(workers: seq<Worker>, lent: set<nat>, cells: seq<Cell>)
    requires forall t :: 0 <= t < |workers| ==> workers[t] == Idle
    ensures SlotsHeld(workers, lent, cells)
  {
  }

  /** The whole pass, up to the barrier. Whatever the schedule, the join queue ends up with
      exactly the join tasks of all partition tasks. */
  method PartitionTasks(nthreads: nat, partQueue: Queue, joinQueue: Queue, outR: array<Tuple>, inR: array<Tuple>,
                        outS: array<Tuple>, inS: array<Tuple>, l: Layout, ghost R: Relation, ghost S: Relation)
    requires nthreads >= 1 && partQueue != joinQueue && partQueue.Valid() && joinQueue.Valid() &&
             joinQueue.Tasks() == []
    requires outR != inR && outR != outS && outR != inS && outS != inR && outS != inS
    requires |R| + Pow2(l.bits1) * Gap(l) <= outR.Length && |S| + Pow2(l.bits1) * Gap(l) <= outS.Length
    requires PartsInPlace(inR[..], R, l) && PartsInPlace(inS[..], S, l)
    requires forall i :: 0 <= i < |partQueue.Tasks()| ==> IsPartTask(R, S, l, partQueue.Tasks()[i])
    requires forall i, j ::
               0 <= i < j < |partQueue.Tasks()| ==> partQueue.Tasks()[i].cluster != partQueue.Tasks()[j].cluster
    modifies partQueue, joinQueue, outR, outS
    ensures joinQueue.Valid() && partQueue.Valid() && partQueue.Tasks() == []
    ensures multiset(joinQueue.Tasks()) == Union(old(partQueue.Tasks()), Offspring(R, S, l))
    ensures ReadyToJoin(outR[..], outS[..], R, S, l, joinQueue.Tasks())
  {
    hide State, Rank, Sum, PartsInPlace, Gap, Pow2, NoEarlyExit, Memory, SlotsHeld, IsPartTask, Offspring, Union,
         ReadyToJoin;
    var workers := new Worker[nthreads](_ => Idle);
    ghost var parts0 := partQueue.Tasks();
    ghost var goal := Union(parts0, Offspring(R, S, l));
    ghost var stage := Start(R, S, l, parts0, workers[..], outR[..], outS[..]);
    NoSlots(workers[..], joinQueue.lent, joinQueue.cells);
    while exists t :: 0 <= t < nthreads && workers[t] != Finished
      invariant fresh(workers) && partQueue.Valid() && joinQueue.Valid()
      invariant PartsInPlace(inR[..], R, l) && PartsInPlace(inS[..], S, l)
      invariant State(R, S, l, partQueue.Tasks(), workers[..], joinQueue.Tasks(), stage, goal) &&
                NoEarlyExit(partQueue.Tasks(), workers[..])
      invariant Memory(outR[..], outS[..], R, S, l, workers[..], stage)
      invariant SlotsHeld(workers[..], joinQueue.lent, joinQueue.cells)
      decreases |partQueue.Tasks()|, Sum(workers[..], Rank(l))
    {
      var t :| 0 <= t < nthreads && workers[t] != Finished;
      stage := Turn(t, partQueue, joinQueue, workers, outR, inR, outS, inS, l, R, S, stage, goal);
    }
    End(R, S, l, partQueue.Tasks(), workers[..], joinQueue.Tasks(), stage, goal, outR[..], outS[..]);
  }
}
