/** The join phase of prj_thread: every thread takes join tasks until the queue is empty, joins
    their regions, and adds what it finds to its own result. Every queue operation, every tuple
    reordered in the shared scratch array and every probed tuple is a step of its own, and the
    threads take their steps in any order. */
module JoinPhase {
  import BucketChaining
  import opened HistogramJoin
  import opened JoinSpec
  import opened KeyBits
  import opened Options
  import opened Sums
  import opened TaskQueue

  /** What a thread is about to do: take a task, start on the one it has, reorder tuple i of
      its R, probe with tuple j of its S, or nothing, having found the queue empty. Histograms
      are the thread's own. */
  datatype Joiner =
    | Idle
    | Holding(task: Task)
    | Reordering(task: Task, hist: seq<int>, i: nat)
    | Probing(task: Task, hist: seq<int>, j: nat, found: nat)
    | Finished

  predicate Busy(w: Joiner) {
    w.Holding? || w.Reordering? || w.Probing?
  }

  function Slice(rel: Relation, off: int, n: nat): Relation {
    if 0 <= off && off + n <= |rel| then rel[off..off + n] else []
  }

  /** What a task contributes to the result. */
  ghost function Value(R: Relation, S: Relation): Task -> nat {
    (t: Task) => Matches(Slice(R, t.offR, t.nR), Slice(S, t.offS, t.nS))
  }

  ghost function Owed(R: Relation, S: Relation): Joiner -> nat {
    (w: Joiner) => if Busy(w) then Matches(Slice(R, w.task.offR, w.task.nR), Slice(S, w.task.offS, w.task.nS)) else 0
  }

  function ToDo(n: nat, i: nat): nat {
    if i <= n then n - i else 0
  }

  ghost function Rank(): Joiner -> nat {
    (w: Joiner) => match w
      case Finished => 0
      case Idle => 1
      case Probing(task, _, j, _) => 2 + ToDo(task.nS, j)
      case Reordering(task, _, i) => 3 + task.nS + ToDo(task.nR, i)
      case Holding(task) => 4 + task.nS + task.nR
  }

  /** A task the join functions can work on. */
  predicate Joinable(lenR: nat, lenS: nat, t: Task) {
    0 <= t.offR && t.offR + t.nR <= lenR && 0 <= t.offS && t.offS + t.nS <= lenS && t.nR >= 1
  }

  /** The scratch regions of two tasks, which lie where their regions of R lie, do not overlap. */
  predicate Disjoint(a: Task, b: Task) {
    a.offR + a.nR <= b.offR || b.offR + b.nR <= a.offR
  }

  predicate Apart(tasks: seq<Task>) {
    forall i, j :: 0 <= i < j < |tasks| ==> Disjoint(tasks[i], tasks[j])
  }

  predicate ApartFrom(w: Joiner, task: Task) {
    Busy(w) ==> Disjoint(w.task, task)
  }

  /** No two tasks, queued or held, share scratch space. */
  ghost predicate NoOverlap(tasks: seq<Task>, workers: seq<Joiner>) {
    && Apart(tasks)
    && (forall t, i :: 0 <= t < |workers| && 0 <= i < |tasks| ==> ApartFrom(workers[t], tasks[i]))
    && (forall t, u ::
           0 <= t < |workers| && 0 <= u < |workers| && t != u && Busy(workers[u]) ==>
             ApartFrom(workers[t], workers[u].task))
  }

  /** Every task is in the queue, with one thread, or in one result. */
  ghost predicate State(R: Relation, S: Relation, tasks: seq<Task>, workers: seq<Joiner>, results: seq<nat>,
                        goal: nat)
  {
    && |results| == |workers|
    && (forall i :: 0 <= i < |tasks| ==> Joinable(|R|, |S|, tasks[i]))
    && (forall t :: 0 <= t < |workers| && Busy(workers[t]) ==> Joinable(|R|, |S|, workers[t].task))
    && (|tasks| > 0 ==> forall t :: 0 <= t < |workers| ==> workers[t] != Finished)
    && NoOverlap(tasks, workers)
    && Sum(tasks, Value(R, S)) + Sum(workers, Owed(R, S)) + Sum(results, Itself()) == goal
  }

  /** How far a thread has got with its task. */
  ghost predicate Working(R: Relation, S: Relation, tmp: Relation, bits: nat, w: Joiner)
    requires bits <= 32
  {
    match w
    case Reordering(task, hist, i) => Reordered(Slice(R, task.offR, task.nR), bits, task.offR, tmp, hist, i)
    case Probing(task, hist, j, found) =>
      && Delimited(Slice(R, task.offR, task.nR), bits, task.offR, tmp, hist)
      && j <= |Slice(S, task.offS, task.nS)|
      && found == Matches(Slice(R, task.offR, task.nR), Slice(S, task.offS, task.nS)[..j])
    case _ => true
  }

  ghost predicate AllWorking(R: Relation, S: Relation, tmp: Relation, bits: nat, workers: seq<Joiner>)
    requires bits <= 32
  {
    forall t {:trigger workers[t]} :: 0 <= t < |workers| ==> Working(R, S, tmp, bits, workers[t])
  }

  // ----- what each step keeps -----

  lemma OwedIs(R: Relation, S: Relation, w: Joiner)
    ensures Owed(R, S)(w) == if Busy(w) then Value(R, S)(w.task) else 0
  {
  }

  lemma TakenApart(tasks: seq<Task>, workers: seq<Joiner>, t: nat)
    requires NoOverlap(tasks, workers) && t < |workers| && |tasks| > 0
    ensures NoOverlap(tasks[1..], workers[t := Holding(tasks[0])])
  {
    var rest, w' := tasks[1..], workers[t := Holding(tasks[0])];
    forall u, i | 0 <= u < |w'| && 0 <= i < |rest| ensures ApartFrom(w'[u], rest[i]) {
      assert rest[i] == tasks[i + 1];
      if u == t { assert Disjoint(tasks[0], tasks[i + 1]); } else { assert ApartFrom(workers[u], tasks[i + 1]); }
    }
    forall u, v | 0 <= u < |w'| && 0 <= v < |w'| && u != v && Busy(w'[v]) ensures ApartFrom(w'[u], w'[v].task) {
      if v == t { assert ApartFrom(workers[u], tasks[0]); }
      if u == t { assert ApartFrom(workers[v], tasks[0]); }
    }
  }

  /** A thread that goes on with its task, or puts it away, overlaps no more than before. */
  lemma StaysApart(tasks: seq<Task>, workers: seq<Joiner>, t: nat, w: Joiner)
    requires NoOverlap(tasks, workers) && t < |workers| && (Busy(w) ==> Busy(workers[t]) && w.task == workers[t].task)
    ensures NoOverlap(tasks, workers[t := w])
  {
    var w' := workers[t := w];
    forall u, i | 0 <= u < |w'| && 0 <= i < |tasks|
      ensures ApartFrom(w'[u], tasks[i])
    {
      assert ApartFrom(workers[u], tasks[i]);
    }
    forall u, v | 0 <= u < |w'| && 0 <= v < |w'| && u != v && Busy(w'[v]) ensures ApartFrom(w'[u], w'[v].task) {
      assert ApartFrom(workers[u], workers[v].task);
    }
  }

  lemma TakeStep(R: Relation, S: Relation, tasks: seq<Task>, workers: seq<Joiner>, results: seq<nat>, goal: nat, t: nat)
    requires State(R, S, tasks, workers, results, goal) && t < |workers| && workers[t] == Idle && |tasks| > 0
    ensures State(R, S, tasks[1..], workers[t := Holding(tasks[0])], results, goal)
  {
    hide Sum, Value, Owed, NoOverlap;
    TakenApart(tasks, workers, t);
    OwedIs(R, S, Idle);
    OwedIs(R, S, Holding(tasks[0]));
    SumUpdate(workers, t, Holding(tasks[0]), Owed(R, S));
    SumAppend([tasks[0]], tasks[1..], Value(R, S));
    SumOne(tasks[0], Value(R, S));
    assert [tasks[0]] + tasks[1..] == tasks;
  }

  lemma FinishStep(R: Relation, S: Relation, workers: seq<Joiner>, results: seq<nat>, goal: nat, t: nat)
    requires State(R, S, [], workers, results, goal) && t < |workers| && workers[t] == Idle
    ensures State(R, S, [], workers[t := Finished], results, goal)
  {
    hide Sum, Value, Owed, NoOverlap;
    StaysApart([], workers, t, Finished);
    OwedIs(R, S, Idle);
    OwedIs(R, S, Finished);
    SumUpdate(workers, t, Finished, Owed(R, S));
  }

  /** Going on with the same task. */
  lemma AdvanceStep(R: Relation, S: Relation, tasks: seq<Task>, workers: seq<Joiner>, results: seq<nat>, goal: nat,
                    t: nat, w: Joiner)
    requires State(R, S, tasks, workers, results, goal) && t < |workers|
    requires Busy(workers[t]) && Busy(w) && w.task == workers[t].task
    ensures State(R, S, tasks, workers[t := w], results, goal)
  {
    hide Sum, Value, Owed, NoOverlap;
    StaysApart(tasks, workers, t, w);
    OwedIs(R, S, workers[t]);
    OwedIs(R, S, w);
    SumUpdate(workers, t, w, Owed(R, S));
  }

  lemma ReportStep(R: Relation, S: Relation, tasks: seq<Task>, workers: seq<Joiner>, results: seq<nat>, goal: nat,
                   t: nat, found: nat)
    requires State(R, S, tasks, workers, results, goal) && t < |workers| && Busy(workers[t]) &&
             found == Value(R, S)(workers[t].task)
    ensures State(R, S, tasks, workers[t := Idle], results[t := results[t] + found], goal)
  {
    hide Sum, Value, Owed, NoOverlap;
    StaysApart(tasks, workers, t, Idle);
    OwedIs(R, S, workers[t]);
    OwedIs(R, S, Idle);
    SumUpdate(workers, t, Idle, Owed(R, S));
    SumUpdate<nat>(results, t, results[t] + found, Itself());
  }

  lemma RankStep(workers: seq<Joiner>, t: nat, w: Joiner)
    requires t < |workers| && Rank()(w) < Rank()(workers[t])
    ensures Sum(workers[t := w], Rank()) < Sum(workers, Rank())
  {
    SumUpdate(workers, t, w, Rank());
  }

  /** Only the scratch region of one task has changed. */
  ghost predicate OnlyScratch(tmp: Relation, tmp': Relation, task: Task) {
    |tmp'| == |tmp| && forall q :: 0 <= q < |tmp| && (q < task.offR || task.offR + task.nR <= q) ==> tmp'[q] == tmp[q]
  }

  lemma WorkingStays(R: Relation, S: Relation, tmp: Relation, tmp': Relation, bits: nat, w: Joiner, task: Task)
    requires bits <= 32 && Working(R, S, tmp, bits, w) && OnlyScratch(tmp, tmp', task) && ApartFrom(w, task)
    requires Busy(w) ==> Joinable(|R|, |S|, w.task)
    ensures Working(R, S, tmp', bits, w)
  {
    hide Reordered, Delimited, Matches;
    if w.Reordering? {
      ReorderStays(Slice(R, w.task.offR, w.task.nR), bits, w.task.offR, tmp, tmp', w.hist, w.i);
    } else if w.Probing? {
      ReorderStays(Slice(R, w.task.offR, w.task.nR), bits, w.task.offR, tmp, tmp', w.hist, 0);
    }
  }

  /** A thread that writes to its own scratch region disturbs nobody else. */
  lemma Wrote(R: Relation, S: Relation, tmp: Relation, tmp': Relation, bits: nat, tasks: seq<Task>,
              workers: seq<Joiner>, results: seq<nat>, goal: nat, t: nat, w: Joiner)
    requires bits <= 32 && State(R, S, tasks, workers, results, goal) && AllWorking(R, S, tmp, bits, workers)
    requires t < |workers| && Busy(workers[t]) && OnlyScratch(tmp, tmp', workers[t].task) &&
             Working(R, S, tmp', bits, w)
    ensures AllWorking(R, S, tmp', bits, workers[t := w])
  {
    hide Sum, Value, Owed, Working, OnlyScratch, ApartFrom, Apart;
    var w' := workers[t := w];
    forall u {:trigger w'[u]} | 0 <= u < |w'| ensures Working(R, S, tmp', bits, w'[u]) {
      if u != t { WorkingStays(R, S, tmp, tmp', bits, workers[u], workers[t].task); }
    }
  }

  // ----- the steps themselves -----

  /** What the steps of a thread work with. */
  ghost predicate Ready(t: nat, R: Relation, S: Relation, tmp: Relation, bits: nat, tasks: seq<Task>,
                        workers: seq<Joiner>, results: seq<nat>, goal: nat)
  {
    && bits <= 32 && t < |workers| && |R| <= |tmp|
    && State(R, S, tasks, workers, results, goal) && AllWorking(R, S, tmp, bits, workers)
  }

  lemma HeldTask(t: nat, R: Relation, S: Relation, tmp: Relation, bits: nat, tasks: seq<Task>, workers: seq<Joiner>,
                 results: seq<nat>, goal: nat)
    requires Ready(t, R, S, tmp, bits, tasks, workers, results, goal) && Busy(workers[t])
    ensures |results| == |workers| && Working(R, S, tmp, bits, workers[t])
    ensures var task := workers[t].task;
            && Joinable(|R|, |S|, task) && task.offR + task.nR <= |tmp|
            && Slice(R, task.offR, task.nR) == R[task.offR..task.offR + task.nR]
            && Slice(S, task.offS, task.nS) == S[task.offS..task.offS + task.nS]
            && Value(R, S)(task) == Matches(Slice(R, task.offR, task.nR), Slice(S, task.offS, task.nS))
  {
    hide Sum, Owed, NoOverlap, Matches;
    assert Working(R, S, tmp, bits, workers[t]);
  }

  /** Going on with the same task, with less left to do; tmp has changed at most in its region. */
  lemma Onward(t: nat, w: Joiner, R: Relation, S: Relation, tmp: Relation, tmp': Relation, bits: nat,
               tasks: seq<Task>, workers: seq<Joiner>, results: seq<nat>, goal: nat)
    requires Ready(t, R, S, tmp, bits, tasks, workers, results, goal)
    requires Busy(workers[t]) && Busy(w) && w.task == workers[t].task && Rank()(w) < Rank()(workers[t])
    requires OnlyScratch(tmp, tmp', w.task) && Working(R, S, tmp', bits, w)
    ensures Ready(t, R, S, tmp', bits, tasks, workers[t := w], results, goal)
    ensures Sum(workers[t := w], Rank()) < Sum(workers, Rank())
  {
    hide State, AllWorking, Working, Rank, Sum;
    AdvanceStep(R, S, tasks, workers, results, goal, t, w);
    Wrote(R, S, tmp, tmp', bits, tasks, workers, results, goal, t, w);
    RankStep(workers, t, w);
  }

  /** The task is done: its pairs go to the result. */
  lemma Reported(t: nat, found: nat, R: Relation, S: Relation, tmp: Relation, bits: nat, tasks: seq<Task>,
                 workers: seq<Joiner>, results: seq<nat>, goal: nat)
    requires Ready(t, R, S, tmp, bits, tasks, workers, results, goal) && Busy(workers[t]) &&
             found == Value(R, S)(workers[t].task)
    ensures |results| == |workers|
    ensures Ready(t, R, S, tmp, bits, tasks, workers[t := Idle], results[t := results[t] + found], goal)
    ensures Sum(workers[t := Idle], Rank()) < Sum(workers, Rank())
  {
    hide AllWorking, Rank, Sum, Value, NoOverlap, Owed;
    ReportStep(R, S, tasks, workers, results, goal, t, found);
    Wrote(R, S, tmp, tmp, bits, tasks, workers, results, goal, t, Idle);
    RankIs(Idle);
    RankIs(workers[t]);
    RankStep(workers, t, Idle);
  }

  lemma RankIs(w: Joiner)
    ensures Rank()(w) == match w
                         case Finished => 0
                         case Idle => 1
                         case Probing(task, _, j, _) => 2 + ToDo(task.nS, j)
                         case Reordering(task, _, i) => 3 + task.nS + ToDo(task.nR, i)
                         case Holding(task) => 4 + task.nS + task.nR
  {
  }

  /** Take a task, or give up. */
  method Take(t: nat, queue: Queue, workers: array<Joiner>, ghost R: Relation, ghost S: Relation, ghost tmp: Relation,
              ghost bits: nat, ghost results: seq<nat>, ghost goal: nat)
    requires queue.Valid() && Ready(t, R, S, tmp, bits, queue.Tasks(), workers[..], results, goal) && workers[t] == Idle
    modifies queue, workers
    ensures queue.Valid() && Ready(t, R, S, tmp, bits, queue.Tasks(), workers[..], results, goal)
    ensures |queue.Tasks()| < old(|queue.Tasks()|) ||
            (queue.Tasks() == old(queue.Tasks()) && Sum(workers[..], Rank()) < old(Sum(workers[..], Rank())))
  {
    hide State, Sum, Rank;
    ghost var tasks := queue.Tasks();
    var task := queue.Get();
    if task.None? {
      FinishStep(R, S, workers[..], results, goal, t);
      RankIs(Idle);
      RankIs(Finished);
      RankStep(workers[..], t, Finished);
      workers[t] := Finished;
    } else {
      assert tasks[0] == task.value && tasks[1..] == queue.Tasks();
      TakeStep(R, S, tasks, workers[..], results, goal, t);
      workers[t] := Holding(task.value);
    }
  }

  /** Bucket chaining works on what nobody writes during the phase and on what nobody else can
      reach, so when its steps happen makes no difference. */
  method ChainTurn(t: nat, workers: array<Joiner>, results: array<nat>, relR: array<Tuple>, relS: array<Tuple>,
                   bits: nat, ghost tmp: Relation, ghost tasks: seq<Task>, ghost goal: nat)
    requires Ready(t, relR[..], relS[..], tmp, bits, tasks, workers[..], results[..], goal) && Busy(workers[t])
    modifies workers, results
    ensures Ready(t, relR[..], relS[..], tmp, bits, tasks, workers[..], results[..], goal)
    ensures Sum(workers[..], Rank()) < old(Sum(workers[..], Rank()))
  {
    hide State, AllWorking, Sum, Rank, Value, Matches, Working;
    ghost var w0, r0 := workers[..], results[..];
    HeldTask(t, relR[..], relS[..], tmp, bits, tasks, w0, r0, goal);
    var task := workers[t].task;
    var found := BucketChaining.BucketChainingJoin(relR[task.offR..task.offR + task.nR],
        relS[task.offS..task.offS + task.nS], bits);
    Reported(t, found, relR[..], relS[..], tmp, bits, tasks, w0, r0, goal);
    results[t] := results[t] + found;
    workers[t] := Idle;
    assert workers[..] == w0[t := Idle] && results[..] == r0[t := r0[t] + found];
  }

  /** Count the hashes of the task's R, into a histogram of the thread's own. */
  method BeginReorder(t: nat, workers: array<Joiner>, relR: array<Tuple>, bits: nat, ghost S: Relation,
                      ghost tmp: Relation, ghost tasks: seq<Task>, ghost results: seq<nat>, ghost goal: nat)
    requires Ready(t, relR[..], S, tmp, bits, tasks, workers[..], results, goal) && workers[t].Holding?
    modifies workers
    ensures Ready(t, relR[..], S, tmp, bits, tasks, workers[..], results, goal)
    ensures Sum(workers[..], Rank()) < old(Sum(workers[..], Rank()))
  {
    hide State, AllWorking, Sum, Rank, Value, Matches, Reordered, Summed;
    ghost var w0 := workers[..];
    HeldTask(t, relR[..], S, tmp, bits, tasks, w0, results, goal);
    var task := workers[t].task;
    var hist := CountAndSum(relR[task.offR..task.offR + task.nR], bits);
    ReorderBegin(Slice(relR[..], task.offR, task.nR), bits, task.offR, tmp, hist[..]);
    var w := Reordering(task, hist[..], 0);
    RankIs(w);
    RankIs(w0[t]);
    Onward(t, w, relR[..], S, tmp, tmp, bits, tasks, w0, results, goal);
    workers[t] := w;
    assert workers[..] == w0[t := w];
  }

  /** Reorder one tuple. */
  method ReorderTurn(t: nat, workers: array<Joiner>, relR: array<Tuple>, tmpR: array<Tuple>, bits: nat,
                     ghost S: Relation, ghost tasks: seq<Task>, ghost results: seq<nat>, ghost goal: nat)
    requires relR != tmpR && Ready(t, relR[..], S, tmpR[..], bits, tasks, workers[..], results, goal)
    requires workers[t].Reordering? && workers[t].i < workers[t].task.nR
    modifies workers, tmpR
    ensures Ready(t, relR[..], S, tmpR[..], bits, tasks, workers[..], results, goal)
    ensures Sum(workers[..], Rank()) < old(Sum(workers[..], Rank()))
  {
    hide State, AllWorking, Sum, Rank, Value, Matches, Reordered, Summed;
    ghost var w0, tmp0 := workers[..], tmpR[..];
    HeldTask(t, relR[..], S, tmp0, bits, tasks, w0, results, goal);
    var now := workers[t];
    var tuple := relR[now.task.offR + now.i];
    var idx := Hash(now.task.nR, bits)(tuple) + 1;
    ReorderStep(Slice(relR[..], now.task.offR, now.task.nR), bits, now.task.offR, tmp0, now.hist, now.i, idx);
    tmpR[now.task.offR + now.hist[idx]] := tuple;
    var w := Reordering(now.task, now.hist[idx := now.hist[idx] + 1], now.i + 1);
    RankIs(w);
    RankIs(now);
    Onward(t, w, relR[..], S, tmp0, tmpR[..], bits, tasks, w0, results, goal);
    workers[t] := w;
    assert workers[..] == w0[t := w];
  }

  /** Everything is reordered; the probe begins. */
  method BeginProbe(t: nat, workers: array<Joiner>, ghost R: Relation, ghost S: Relation, ghost tmp: Relation,
                    ghost bits: nat, ghost tasks: seq<Task>, ghost results: seq<nat>, ghost goal: nat)
    requires Ready(t, R, S, tmp, bits, tasks, workers[..], results, goal)
    requires workers[t].Reordering? && workers[t].i >= workers[t].task.nR
    modifies workers
    ensures Ready(t, R, S, tmp, bits, tasks, workers[..], results, goal)
    ensures Sum(workers[..], Rank()) < old(Sum(workers[..], Rank()))
  {
    hide State, AllWorking, Sum, Rank, Value, Matches, Reordered, Delimited;
    ghost var w0 := workers[..];
    HeldTask(t, R, S, tmp, bits, tasks, w0, results, goal);
    var now := workers[t];
    ReorderedBound(Slice(R, now.task.offR, now.task.nR), bits, now.task.offR, tmp, now.hist, now.i);
    ReorderDone(Slice(R, now.task.offR, now.task.nR), bits, now.task.offR, tmp, now.hist);
    MatchesNone(Slice(R, now.task.offR, now.task.nR), Slice(S, now.task.offS, now.task.nS));
    var w := Probing(now.task, now.hist, 0, 0);
    RankIs(w);
    RankIs(now);
    Onward(t, w, R, S, tmp, tmp, bits, tasks, w0, results, goal);
    workers[t] := w;
    assert workers[..] == w0[t := w];
  }

  lemma ReorderedBound(R: Relation, bits: nat, base: int, tmp: Relation, hist: seq<int>, i: nat)
    requires bits <= 32 && Reordered(R, bits, base, tmp, hist, i)
    ensures i <= |R|
  {
  }

  /** Probe with one tuple of S. */
  method ProbeTurn(t: nat, workers: array<Joiner>, relS: array<Tuple>, tmpR: array<Tuple>, bits: nat,
                   ghost R: Relation, ghost tasks: seq<Task>, ghost results: seq<nat>, ghost goal: nat)
    requires Ready(t, R, relS[..], tmpR[..], bits, tasks, workers[..], results, goal)
    requires workers[t].Probing? && workers[t].j < workers[t].task.nS
    modifies workers
    ensures Ready(t, R, relS[..], tmpR[..], bits, tasks, workers[..], results, goal)
    ensures Sum(workers[..], Rank()) < old(Sum(workers[..], Rank()))
  {
    hide State, AllWorking, Sum, Rank, Value, Matches, KeyCount, Delimited, HistBits, HistSize, HashDigits, HashPlaces;
    ghost var w0 := workers[..];
    HeldTask(t, R, relS[..], tmpR[..], bits, tasks, w0, results, goal);
    var now := workers[t];
    ghost var r, s := Slice(R, now.task.offR, now.task.nR), Slice(relS[..], now.task.offS, now.task.nS);
    var tuple := relS[now.task.offS + now.j];
    assert tuple == s[now.j];
    var idx := Bits(bits, HistBits(now.task.nR, bits))(tuple.key);
    StretchOf(r, bits, now.task.offR, tmpR[..], now.hist, tuple.key, idx);
    var lo, hi := now.task.offR + now.hist[idx], now.task.offR + now.hist[idx + 1];
    var found := ScanCluster(tmpR, lo, hi, tuple.key);
    assert tmpR[lo..hi] == tmpR[..][lo..hi];
    MatchesSnoc(r, s[..now.j], tuple);
    assert s[..now.j + 1] == s[..now.j] + [tuple];
    var w := Probing(now.task, now.hist, now.j + 1, now.found + found);
    RankIs(w);
    RankIs(now);
    Onward(t, w, R, relS[..], tmpR[..], tmpR[..], bits, tasks, w0, results, goal);
    workers[t] := w;
    assert workers[..] == w0[t := w];
  }

  /** The probe is over: add what was found to the thread's result. */
  method ReportTurn(t: nat, workers: array<Joiner>, results: array<nat>, ghost R: Relation, ghost S: Relation,
                    ghost tmp: Relation, ghost bits: nat, ghost tasks: seq<Task>, ghost goal: nat)
    requires Ready(t, R, S, tmp, bits, tasks, workers[..], results[..], goal)
    requires workers[t].Probing? && workers[t].j >= workers[t].task.nS
    modifies workers, results
    ensures Ready(t, R, S, tmp, bits, tasks, workers[..], results[..], goal)
    ensures Sum(workers[..], Rank()) < old(Sum(workers[..], Rank()))
  {
    hide State, AllWorking, Sum, Rank, Value, Matches, Delimited;
    ghost var w0, r0 := workers[..], results[..];
    HeldTask(t, R, S, tmp, bits, tasks, w0, r0, goal);
    var now := workers[t];
    assert Slice(S, now.task.offS, now.task.nS)[..now.j] == Slice(S, now.task.offS, now.task.nS);
    Reported(t, now.found, R, S, tmp, bits, tasks, w0, r0, goal);
    results[t] := results[t] + now.found;
    workers[t] := Idle;
    assert workers[..] == w0[t := Idle] && results[..] == r0[t := r0[t] + now.found];
  }

  /** One step of thread t, whichever it is at. */
  method Turn(t: nat, queue: Queue, workers: array<Joiner>, results: array<nat>, relR: array<Tuple>,
              relS: array<Tuple>, tmpR: array<Tuple>, histogram: bool, bits: nat, ghost goal: nat)
    requires queue.Valid() && relR != tmpR && relS != tmpR
    requires Ready(t, relR[..], relS[..], tmpR[..], bits, queue.Tasks(), workers[..], results[..], goal) &&
             workers[t] != Finished
    modifies queue, workers, results, tmpR
    ensures queue.Valid() && Ready(t, relR[..], relS[..], tmpR[..], bits, queue.Tasks(), workers[..], results[..], goal)
    ensures |queue.Tasks()| < old(|queue.Tasks()|) ||
            (queue.Tasks() == old(queue.Tasks()) && Sum(workers[..], Rank()) < old(Sum(workers[..], Rank())))
  {
    hide State, AllWorking, Sum, Rank;
    ghost var tasks := queue.Tasks();
    match workers[t] {
      case Idle =>
        Take(t, queue, workers, relR[..], relS[..], tmpR[..], bits, results[..], goal);
      case Holding(_) =>
        if histogram {
          BeginReorder(t, workers, relR, bits, relS[..], tmpR[..], tasks, results[..], goal);
        } else {
          ChainTurn(t, workers, results, relR, relS, bits, tmpR[..], tasks, goal);
        }
      case Reordering(task, _, i) =>
        if i < task.nR {
          ReorderTurn(t, workers, relR, tmpR, bits, relS[..], tasks, results[..], goal);
        } else {
          BeginProbe(t, workers, relR[..], relS[..], tmpR[..], bits, tasks, results[..], goal);
        }
      case Probing(task, _, j, _) =>
        if j < task.nS {
          ProbeTurn(t, workers, relS, tmpR, bits, relR[..], tasks, results[..], goal);
        } else {
          ReportTurn(t, workers, results, relR[..], relS[..], tmpR[..], bits, tasks, goal);
        }
    }
  }

  /** The whole phase: the thread results add up to the tasks' joins, for every schedule,
      provided no two tasks share scratch space. */
  method JoinTasks(nthreads: nat, queue: Queue, relR: array<Tuple>, relS: array<Tuple>, tmpR: array<Tuple>,
                   histogram: bool, radixBits: nat)
    returns (results: array<nat>)
    requires queue.Valid() && relR != tmpR && relS != tmpR && relR.Length <= tmpR.Length && nthreads >= 1 &&
             radixBits <= 32
    requires forall i :: 0 <= i < |queue.Tasks()| ==> Joinable(relR.Length, relS.Length, queue.Tasks()[i])
    requires Apart(queue.Tasks())
    modifies queue, tmpR
    ensures fresh(results) && results.Length == nthreads && queue.Valid() && queue.Tasks() == []
    ensures Sum(results[..], Itself()) == Sum(old(queue.Tasks()), Value(old(relR[..]), old(relS[..])))
  {
    hide Sum, Value, State, AllWorking;
    ghost var R, S, tasks := relR[..], relS[..], queue.Tasks();
    var workers := new Joiner[nthreads](_ => Idle);
    results := new nat[nthreads](_ => 0);
    ghost var goal := Sum(tasks, Value(R, S));
    Start(R, S, tmpR[..], radixBits, tasks, workers[..], results[..]);
    while exists t :: 0 <= t < nthreads && workers[t] != Finished
      invariant fresh(workers) && fresh(results) && queue.Valid() && relR[..] == R && relS[..] == S
      invariant Ready(0, R, S, tmpR[..], radixBits, queue.Tasks(), workers[..], results[..], goal)
      decreases |queue.Tasks()|, Sum(workers[..], Rank())
    {
      var t :| 0 <= t < nthreads && workers[t] != Finished;
      Turn(t, queue, workers, results, relR, relS, tmpR, histogram, radixBits, goal);
    }
    Finish(R, S, queue.Tasks(), workers[..], results[..], goal);
  }

  lemma NothingOwed(R: Relation, S: Relation, workers: seq<Joiner>)
    requires forall t :: 0 <= t < |workers| ==> !Busy(workers[t])
    ensures Sum(workers, Owed(R, S)) == 0
  {
    SumZero(workers, Owed(R, S));
  }

  lemma Start(R: Relation, S: Relation, tmp: Relation, bits: nat, tasks: seq<Task>, workers: seq<Joiner>,
              results: seq<nat>)
    requires bits <= 32 && |R| <= |tmp| && |workers| == |results| >= 1
    requires forall i :: 0 <= i < |tasks| ==> Joinable(|R|, |S|, tasks[i])
    requires Apart(tasks) && (forall t :: 0 <= t < |workers| ==> workers[t] == Idle) &&
             forall t :: 0 <= t < |workers| ==> results[t] == 0
    ensures Ready(0, R, S, tmp, bits, tasks, workers, results, Sum(tasks, Value(R, S)))
  {
    hide Sum, Value, Owed;
    NothingOwed(R, S, workers);
    SumZero(results, Itself());
  }

  lemma Finish(R: Relation, S: Relation, tasks: seq<Task>, workers: seq<Joiner>, results: seq<nat>, goal: nat)
    requires State(R, S, tasks, workers, results, goal) && |workers| >= 1
    requires forall t :: 0 <= t < |workers| ==> workers[t] == Finished
    ensures tasks == [] && Sum(results, Itself()) == goal
  {
    hide Value, NoOverlap, Owed;
    assert workers[0] == Finished;
    NothingOwed(R, S, workers);
  }

  /** join_init_run adds up what the threads have found. */
  method Total(results: array<nat>) returns (result: nat)
    ensures result == Sum(results[..], Itself())
  {
    result := 0;
    var i := 0;
    while i < results.Length
      invariant 0 <= i <= results.Length && result == Sum(results[..i], Itself())
    {
      assert results[..i+1][..i] == results[..i];
      result := result + results[i];
      i := i + 1;
    }
    assert results[..i] == results[..];
  }
}
