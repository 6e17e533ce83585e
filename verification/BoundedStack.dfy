/** The fixed-size stack behind the fpush/fpop and mpush/mpop macros of blocksort.c. */
module BoundedStack {

  class Stack<T(0)> {
    const items: array<T>
    var sp: nat

    ghost predicate Valid() reads this, items { sp <= items.Length }

    ghost function Contents(): seq<T>
      requires Valid()
      reads this, items
    {
      items[..sp]
    }

    constructor (size: nat)
      ensures Valid() && fresh(items) && items.Length == size && Contents() == []
    {
      items := new T[size];
      sp := 0;
    }

    method Push(x: T)
      requires Valid() && sp < items.Length
      modifies this, items
      ensures Valid() && Contents() == old(Contents()) + [x]
    {
      items[sp] := x;
      sp := sp + 1;
    }

    method Pop() returns (x: T)
      requires Valid() && sp > 0
      modifies this
      ensures Valid() && old(Contents()) == Contents() + [x]
    {
      sp := sp - 1;
      x := items[sp];
    }
  }
}
