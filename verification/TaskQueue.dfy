/** The task queue of task_queue.h: a linked list with the newest task in front, whose cells
    come from blocks of allocSize slots that are handed out one after the other. */
module TaskQueue {
  import opened Options

  /** A pair of regions to work on: nR tuples at offR of one array, nS at offS of another.
      cluster and sub say which clusters of the two passes the regions hold; no step of the
      program looks at them. */
  datatype Task = Task(offR: int, nR: nat, offS: int, nS: nat, cluster: nat, sub: nat)

  /** A cell of the list; next is the number of the following cell. */
  datatype Cell = Cell(task: Task, next: int)

  /** The end of a list. */
  const NULL := -1

  ghost function Follower(chain: seq<nat>, i: nat): int
    requires i < |chain|
  {
    if i + 1 < |chain| then chain[i + 1] else NULL
  }

  /** head and the next fields run through exactly these cells, each once. */
  ghost predicate Linked(cells: seq<Cell>, head: int, chain: seq<nat>) {
    && (forall i :: 0 <= i < |chain| ==> chain[i] < |cells|)
    && head == (if |chain| == 0 then NULL else chain[0])
    && (forall i :: 0 <= i < |chain| ==> cells[chain[i]].next == Follower(chain, i))
    && (forall i, j :: 0 <= i < j < |chain| ==> chain[i] != chain[j])
  }

  ghost function TasksAlong(cells: seq<Cell>, chain: seq<nat>): (r: seq<Task>)
    requires forall i :: 0 <= i < |chain| ==> chain[i] < |cells|
    ensures |r| == |chain| && forall i :: 0 <= i < |chain| ==> r[i] == cells[chain[i]].task
  {
    seq(|chain|, i requires 0 <= i < |chain| => cells[chain[i]].task)
  }

  /** Slots below handedOut are in the list, lent to somebody, or used up. */
  ghost predicate Accounted(handedOut: nat, chain: seq<nat>, lent: set<nat>) {
    && (forall i :: 0 <= i < |chain| ==> chain[i] < handedOut && chain[i] !in lent)
    && (forall slot :: slot in lent ==> slot < handedOut)
  }

  lemma LinkInFront(cells: seq<Cell>, head: int, chain: seq<nat>, slot: nat, task: Task)
    requires Linked(cells, head, chain) && slot < |cells| && forall i :: 0 <= i < |chain| ==> chain[i] != slot
    ensures Linked(cells[slot := Cell(task, head)], slot, [slot] + chain)
    ensures TasksAlong(cells[slot := Cell(task, head)], [slot] + chain) == [task] + TasksAlong(cells, chain)
  {
    var cells', chain' := cells[slot := Cell(task, head)], [slot] + chain;
    forall i | 0 <= i < |chain'| ensures cells'[chain'[i]].next == Follower(chain', i) {
      if i > 0 { assert chain'[i] == chain[i - 1] && Follower(chain', i) == Follower(chain, i - 1); }
    }
  }

  lemma Unlink(cells: seq<Cell>, head: int, chain: seq<nat>)
    requires Linked(cells, head, chain) && |chain| > 0
    ensures Linked(cells, cells[head].next, chain[1..])
    ensures TasksAlong(cells, chain) == [cells[head].task] + TasksAlong(cells, chain[1..])
  {
    var rest := chain[1..];
    assert cells[chain[0]].next == Follower(chain, 0);
    forall i | 0 <= i < |rest|
      ensures cells[rest[i]].next == Follower(rest, i)
    {
      assert rest[i] == chain[i + 1] && Follower(rest, i) == Follower(chain, i + 1);
    }
  }

  lemma MoreCells(cells: seq<Cell>, more: seq<Cell>, head: int, chain: seq<nat>)
    requires Linked(cells, head, chain)
    ensures Linked(cells + more, head, chain) && TasksAlong(cells + more, chain) == TasksAlong(cells, chain)
  {
  }

  /** Writing a task into a cell that is not in the list. */
  lemma FillCell(cells: seq<Cell>, head: int, chain: seq<nat>, slot: nat, task: Task)
    requires Linked(cells, head, chain) && slot < |cells| && forall i :: 0 <= i < |chain| ==> chain[i] != slot
    ensures Linked(cells[slot := cells[slot].(task := task)], head, chain)
    ensures TasksAlong(cells[slot := cells[slot].(task := task)], chain) == TasksAlong(cells, chain)
  {
  }

  class Queue {
    const allocSize: nat
    /** All cells, oldest block first; curr counts the used ones of the newest block. */
    var cells: seq<Cell>
    var curr: nat
    var head: int
    var count: nat
    /** The cells of the list, first to last. */
    ghost var chain: seq<nat>
    /** Slots handed out that have not been added yet. */
    ghost var lent: set<nat>

    ghost predicate Valid()
      reads this
    {
      && allocSize >= 1 && curr <= allocSize <= |cells| && count == |chain|
      && Linked(cells, head, chain) && Accounted(HandedOut(), chain, lent)
    }

    /** Slots below this one have been handed out. */
    ghost function HandedOut(): nat
      requires allocSize <= |cells|
      reads this
    {
      |cells| - allocSize + curr
    }

    /** What is queued, first to last. */
    ghost function Tasks(): (r: seq<Task>)
      requires Valid()
      reads this
      ensures |r| == count
    {
      TasksAlong(cells, chain)
    }

    constructor (allocSize: nat, blank: Task)
      requires allocSize >= 1
      ensures Valid() && Tasks() == [] && lent == {}
    {
      this.allocSize := allocSize;
      curr := 0;
      cells := seq(allocSize, _ => Cell(blank, NULL));
      head := NULL;
      count := 0;
      chain := [];
      lent := {};
    }

    /** A slot nobody else has: not in the list, and not handed out before. */
    method GetSlot(blank: Task) returns (slot: nat)
      requires Valid()
      modifies this
      ensures Valid() && Tasks() == old(Tasks())
      ensures slot !in old(lent) && slot !in old(chain) && old(HandedOut()) <= slot && lent == old(lent) + {slot}
      ensures old(cells) <= cells && slot < |cells|
    {
      hide Linked, TasksAlong;
      slot := |cells| - allocSize + curr;
      if curr < allocSize {
        curr := curr + 1;
      } else {
        var block := seq(allocSize, _ => Cell(blank, NULL));
        MoreCells(cells, block, head, chain);
        cells := cells + block;
        curr := 1;
      }
      lent := lent + {slot};
    }

    /** Fill a slot. Nobody else knows of it, so no lock is needed. */
    method Fill(slot: nat, task: Task)
      requires Valid() && slot in lent
      modifies this
      ensures Valid() && Tasks() == old(Tasks()) && lent == old(lent)
      ensures slot < |cells| == |old(cells)| && cells == old(cells)[slot := old(cells)[slot].(task := task)]
    {
      FillCell(cells, head, chain, slot, task);
      hide Linked, TasksAlong;
      cells := cells[slot := cells[slot].(task := task)];
    }

    /** Put a filled slot in front. */
    method Add(slot: nat)
      requires Valid() && slot in lent
      modifies this
      ensures Valid() && lent == old(lent) - {slot}
      ensures slot < |cells| == |old(cells)| && Tasks() == [old(cells)[slot].task] + old(Tasks())
      ensures forall k :: 0 <= k < |cells| && k != slot ==> cells[k] == old(cells)[k]
    {
      LinkInFront(cells, head, chain, slot, cells[slot].task);
      hide Linked, TasksAlong;
      cells := cells[slot := Cell(cells[slot].task, head)];
      head := slot;
      count := count + 1;
      lent := lent - {slot};
      chain := [slot] + chain;
    }

    /** Take the first task, if there is one. */
    method Get() returns (task: Option<Task>)
      requires Valid()
      modifies this
      ensures Valid() && lent == old(lent)
      ensures task.None? <==> old(Tasks()) == []
      ensures task.None? ==> Tasks() == []
      ensures task.Some? ==> old(Tasks()) == [task.value] + Tasks()
    {
      task := None;
      if count > 0 {
        Unlink(cells, head, chain);
        task := Some(cells[head].task);
        head := cells[head].next;
        count := count - 1;
        chain := chain[1..];
      }
    }
  }
}
