/** The decoder's move-to-front list of decompress.c: sixteen lists of sixteen entries, spread
    over a larger array so that moving an entry to the front shifts only one list and moves one
    entry on from each list before it. It behaves like one list of 256 entries. */
module DecoderLists {
  import opened MoveToFront

  const MTFL_SIZE := 16
  const LISTS := 16
  const MTFA_SIZE := 4096

  /** Where list i begins when all lists are at the end of the arena. */
  function Home(i: int): int {
    MTFA_SIZE - 256 + i * MTFL_SIZE
  }

  /** The lists lie one behind the other, and none behind its place at the end. */
  ghost predicate Spread(base: seq<int>) {
    && |base| == LISTS && 0 <= base[0]
    && (forall i :: 0 <= i < LISTS ==> base[i] <= Home(i))
    && (forall i, k :: 0 <= i < k < LISTS ==> base[i] + MTFL_SIZE <= base[k])
  }

  /** Entry j of list i of the one long list stands in the list that begins at b. */
  ghost predicate EntryAt(arena: seq<int>, b: int, list: seq<int>, i: int, j: int) {
    |list| == 256 && 0 <= i < LISTS && 0 <= j < MTFL_SIZE && 0 <= b + j < |arena| &&
      arena[b + j] == list[i * MTFL_SIZE + j]
  }

  /** Entries from..15 of list i do. */
  ghost predicate ListAt(arena: seq<int>, b: int, list: seq<int>, i: int, from: int) {
    forall j {:trigger EntryAt(arena, b, list, i, j)} :: from <= j < MTFL_SIZE ==> EntryAt(arena, b, list, i, j)
  }

  /** The sixteen lists make up the one long list. */
  ghost predicate IsList(arena: seq<int>, base: seq<int>, list: seq<int>) {
    |arena| == MTFA_SIZE && |list| == 256 && Spread(base) &&
      forall i {:trigger base[i]} :: 0 <= i < LISTS ==> ListAt(arena, base[i], list, i, 0)
  }

  lemma MovedEntries(list: seq<int>, nn: nat)
    requires nn < |list|
    ensures var f := MoveFront(list, nn);
            f[0] == list[nn] && (forall e :: 1 <= e <= nn ==> f[e] == list[e - 1]) &&
              forall e :: nn < e < |list| ==> f[e] == list[e]
  {
  }

  /** A list stays where it is if nothing is written to it. */
  lemma ListStays(arena: seq<int>, arena': seq<int>, b: int, list: seq<int>, f: seq<int>, i: int, from: int)
    requires ListAt(arena, b, list, i, from) && |arena'| == |arena| && |f| == |list|
    requires forall q :: b + from <= q < b + MTFL_SIZE && 0 <= q < |arena| ==> arena'[q] == arena[q]
    requires forall e :: i * MTFL_SIZE + from <= e < (i + 1) * MTFL_SIZE && 0 <= e < |list| ==> f[e] == list[e]
    ensures ListAt(arena', b, f, i, from)
  {
    forall j {:trigger EntryAt(arena', b, f, i, j)} | from <= j < MTFL_SIZE ensures EntryAt(arena', b, f, i, j) {
      assert EntryAt(arena, b, list, i, j);
    }
  }

  /** One more entry in front of those already there. */
  lemma ListGrows(arena: seq<int>, b: int, list: seq<int>, i: int, from: int)
    requires ListAt(arena, b, list, i, from + 1) && EntryAt(arena, b, list, i, from)
    ensures ListAt(arena, b, list, i, from)
  {
    forall j {:trigger EntryAt(arena, b, list, i, j)} | from <= j < MTFL_SIZE ensures EntryAt(arena, b, list, i, j) {}
  }

  // ----- an entry of the first list -----

  /** The entries before nn move up by one, four at a time while there are four. */
  method ShiftUp(mtfa: array<int>, pp: int, nn0: nat)
    requires 0 <= pp && pp + nn0 < mtfa.Length
    modifies mtfa
    ensures mtfa[pp] == old(mtfa[pp]) &&
            forall q :: 0 <= q < mtfa.Length ==> mtfa[q] == old(if pp < q <= pp + nn0 then mtfa[q - 1] else mtfa[q])
  {
    var nn := nn0;
    while nn > 3
      invariant 0 <= nn <= nn0
      invariant forall q ::
                  0 <= q < mtfa.Length ==> mtfa[q] == old(if pp + nn < q <= pp + nn0 then mtfa[q - 1] else mtfa[q])
    {
      var z := pp + nn;
      mtfa[z] := mtfa[z - 1];
      mtfa[z - 1] := mtfa[z - 2];
      mtfa[z - 2] := mtfa[z - 3];
      mtfa[z - 3] := mtfa[z - 4];
      nn := nn - 4;
    }
    while nn > 0
      invariant 0 <= nn <= nn0
      invariant forall q ::
                  0 <= q < mtfa.Length ==> mtfa[q] == old(if pp + nn < q <= pp + nn0 then mtfa[q - 1] else mtfa[q])
    {
      mtfa[pp + nn] := mtfa[pp + nn - 1];
      nn := nn - 1;
    }
  }

  /** Within one list: entries 0..off-1 move up by one place. */
  lemma ListShifted(arena: seq<int>, arena': seq<int>, b: int, list: seq<int>, i: int, off: nat, nn: nat)
    requires ListAt(arena, b, list, i, 0) && |list| == 256 && |arena'| == |arena| && 0 <= i < LISTS &&
             nn == i * MTFL_SIZE + off && off < MTFL_SIZE
    requires forall q {:trigger arena'[q]} ::
               b < q < b + MTFL_SIZE && 0 < q < |arena| ==>
                 arena'[q] == if q <= b + off then arena[q - 1] else arena[q]
    ensures ListAt(arena', b, MoveFront(list, nn), i, 1)
  {
    assert EntryAt(arena, b, list, i, 0) && EntryAt(arena, b, list, i, MTFL_SIZE - 1);
    MovedEntries(list, nn);
    var f := MoveFront(list, nn);
    forall j {:trigger EntryAt(arena', b, f, i, j)} | 1 <= j < MTFL_SIZE ensures EntryAt(arena', b, f, i, j) {
      assert EntryAt(arena, b, list, i, j - 1) && EntryAt(arena, b, list, i, j);
    }
  }

  lemma FirstListMoved(arena: seq<int>, arena': seq<int>, base: seq<int>, list: seq<int>, nn: nat)
    requires IsList(arena, base, list) && nn < MTFL_SIZE && |arena'| == |arena|
    requires arena'[base[0]] == arena[base[0] + nn]
    requires forall q {:trigger arena'[q]} ::
               0 <= q < |arena| && q != base[0] ==>
                 arena'[q] == if base[0] < q <= base[0] + nn then arena[q - 1] else arena[q]
    ensures IsList(arena', base, MoveFront(list, nn))
  {
    MovedEntries(list, nn);
    var f := MoveFront(list, nn);
    forall i {:trigger base[i]} | 0 <= i < LISTS ensures ListAt(arena', base[i], f, i, 0) {
      assert ListAt(arena, base[0], list, 0, 0) && ListAt(arena, base[i], list, i, 0);
      if i == 0 {
        var b := base[0];
        assert b <= Home(0);
        forall q | b < q < b + MTFL_SIZE && 0 < q < |arena|
          ensures arena'[q] == if q <= b + nn then arena[q - 1] else arena[q]
        {}
        ListShifted(arena, arena', b, list, 0, nn, nn);
        assert EntryAt(arena, base[0], list, 0, nn);
        assert EntryAt(arena', base[0], f, 0, 0);
        ListGrows(arena', base[0], f, 0, 0);
      } else {
        assert base[0] + MTFL_SIZE <= base[i];
        forall q | base[i] <= q < base[i] + MTFL_SIZE && 0 <= q < |arena| ensures arena'[q] == arena[q] {}
        ListStays(arena, arena', base[i], list, f, i, 0);
      }
    }
  }

  method TakeFromFirst(mtfa: array<int>, mtfbase: array<int>, nn: nat, ghost list: seq<int>) returns (uc: int)
    requires mtfa != mtfbase && IsList(mtfa[..], mtfbase[..], list) && nn < MTFL_SIZE
    modifies mtfa
    ensures uc == list[nn] && IsList(mtfa[..], mtfbase[..], MoveFront(list, nn))
  {
    ghost var arena := mtfa[..];
    assert ListAt(arena, mtfbase[..][0], list, 0, 0);
    assert EntryAt(arena, mtfbase[0], list, 0, nn) && EntryAt(arena, mtfbase[0], list, 0, 0);
    var pp := mtfbase[0];
    uc := mtfa[pp + nn];
    ShiftUp(mtfa, pp, nn);
    mtfa[pp] := uc;
    FirstListMoved(arena, mtfa[..], mtfbase[..], list, nn);
  }

  // ----- an entry of a later list -----

  /** List i begins one place earlier than before if it lies before list lno. */
  function NewBase(base0: seq<int>, lno: int, i: int): int
    requires 0 <= i < |base0|
  {
    if i < lno then base0[i] - 1 else base0[i]
  }

  /** List i is as it will be. */
  ghost predicate Settled(arena: seq<int>, base: seq<int>, base0: seq<int>, f: seq<int>, lno: int, i: int) {
    0 <= i < |base0| == |base| && base[i] == NewBase(base0, lno, i) && ListAt(arena, base[i], f, i, 0)
  }

  /** List i is as it was. */
  ghost predicate Waiting(arena: seq<int>, base: seq<int>, base0: seq<int>, list: seq<int>, i: int) {
    0 <= i < |base0| == |base| && base[i] == base0[i] && ListAt(arena, base[i], list, i, 0)
  }

  /** Half-way: the lists behind list k are as they will be, list k lacks its first entry, and
      the lists before it are as they were. */
  ghost predicate Passing(arena: seq<int>, base: seq<int>, base0: seq<int>, list: seq<int>, f: seq<int>, lno: int,
                          k: int)
  {
    && |arena| == MTFA_SIZE && |list| == |f| == 256 && Spread(base0) && base0[0] >= 1 && |base| == LISTS &&
         0 <= k <= lno < LISTS
    && (forall i {:trigger Waiting(arena, base, base0, list, i)} :: 0 <= i < k ==> Waiting(arena, base, base0, list, i))
    && base[k] == NewBase(base0, lno, k) + 1 && ListAt(arena, NewBase(base0, lno, k), f, k, 1)
    && (forall i {:trigger Settled(arena, base, base0, f, lno, i)} ::
           k < i < LISTS ==> Settled(arena, base, base0, f, lno, i))
  }

  /** The first fifteen entries of a list before the one the entry came from, seen as the last
      fifteen of the list that begins one place earlier. */
  lemma HandedOn(arena: seq<int>, b: int, list: seq<int>, i: int, nn: nat)
    requires ListAt(arena, b, list, i, 0) && |list| == 256 && 0 <= i && nn < 256 && i < nn / MTFL_SIZE
    ensures ListAt(arena, b - 1, MoveFront(list, nn), i, 1)
  {
    MovedEntries(list, nn);
    var f := MoveFront(list, nn);
    forall j {:trigger EntryAt(arena, b - 1, f, i, j)} | 1 <= j < MTFL_SIZE ensures EntryAt(arena, b - 1, f, i, j) {
      assert EntryAt(arena, b, list, i, j - 1);
    }
  }

  /** What that does to the two lists. */
  lemma PassedList(arena: seq<int>, c: int, arena': seq<int>, b: int, list: seq<int>, f: seq<int>, k: int, nn: nat)
    requires |list| == 256 && nn < 256 && f == MoveFront(list, nn) && 0 < k <= nn / MTFL_SIZE
    requires ListAt(arena, c, list, k - 1, 0) && ListAt(arena, b, f, k, 1) && c + MTFL_SIZE - 1 <= b
    requires 0 <= b < |arena| && 0 <= c + MTFL_SIZE - 1 < |arena| && arena' == arena[b := arena[c + MTFL_SIZE - 1]]
    ensures ListAt(arena', c - 1, f, k - 1, 1) && ListAt(arena', b, f, k, 0)
  {
    MovedEntries(list, nn);
    assert EntryAt(arena, c, list, k - 1, MTFL_SIZE - 1);
    ListStays(arena, arena', c, list, list, k - 1, 0);
    HandedOn(arena', c, list, k - 1, nn);
    ListStays(arena, arena', b, f, f, k, 1);
    assert EntryAt(arena', b, f, k, 0);
    ListGrows(arena', b, f, k, 0);
  }

  /** The last entry of the list before becomes the first of list k: the lists before k - 1 and
      those behind k are not touched. */
  lemma PassOn(arena: seq<int>, base: seq<int>, base0: seq<int>, list: seq<int>, f: seq<int>, lno: int, k: int,
               nn: nat, arena': seq<int>, base': seq<int>)
    requires |list| == 256 && nn < 256 && f == MoveFront(list, nn)
    requires Passing(arena, base, base0, list, f, lno, k) && 0 < k && nn / MTFL_SIZE == lno
    requires 0 <= base[k] - 1 < |arena| && 0 <= base[k - 1] + MTFL_SIZE - 1 < |arena|
    requires arena' == arena[base[k] - 1 := arena[base[k - 1] + MTFL_SIZE - 1]] && base' == base[k := base[k] - 1]
    ensures Passing(arena', base', base0, list, f, lno, k - 1)
  {
    MovedEntries(list, nn);
    var b := base[k] - 1;
    assert Waiting(arena, base, base0, list, k - 1) && base0[k - 1] + MTFL_SIZE <= base0[k];
    forall i {:trigger Waiting(arena', base', base0, list, i)} | 0 <= i < k - 1
      ensures Waiting(arena', base', base0, list, i)
    {
      assert Waiting(arena, base, base0, list, i) && base0[i] + MTFL_SIZE <= base0[k - 1];
      ListStays(arena, arena', base0[i], list, list, i, 0);
    }
    PassedList(arena, base0[k - 1], arena', b, list, f, k, nn);
    forall i {:trigger Settled(arena', base', base0, f, lno, i)} | k <= i < LISTS
      ensures Settled(arena', base', base0, f, lno, i)
    {
      if i > k {
        assert Settled(arena, base, base0, f, lno, i) && base0[k] + MTFL_SIZE <= base0[i];
        ListStays(arena, arena', base[i], f, f, i, 0);
      }
    }
  }

  /** The entries before the one taken have moved up within its list, and the list is about to
      begin one place later. */
  lemma TakenOut(arena: seq<int>, base0: seq<int>, list: seq<int>, f: seq<int>, lno: int, off: int, nn: nat,
                 arena': seq<int>, base': seq<int>)
    requires IsList(arena, base0, list) && base0[0] >= 1 && MTFL_SIZE <= nn < 256 && f == MoveFront(list, nn)
    requires lno == nn / MTFL_SIZE && off == nn % MTFL_SIZE && |arena'| == |arena| &&
             base' == base0[lno := base0[lno] + 1]
    requires forall q {:trigger arena'[q]} ::
               0 <= q < |arena| ==> arena'[q] == if base0[lno] < q <= base0[lno] + off then arena[q - 1] else arena[q]
    ensures Passing(arena', base', base0, list, f, lno, lno)
  {
    MovedEntries(list, nn);
    var b := base0[lno];
    assert ListAt(arena, b, list, lno, 0);
    ListShifted(arena, arena', b, list, lno, off, nn);
    forall i {:trigger Waiting(arena', base', base0, list, i)} | 0 <= i < lno
      ensures Waiting(arena', base', base0, list, i)
    {
      assert ListAt(arena, base0[i], list, i, 0) && base0[i] + MTFL_SIZE <= b;
      ListStays(arena, arena', base0[i], list, list, i, 0);
    }
    forall i {:trigger Settled(arena', base', base0, f, lno, i)} | lno < i < LISTS
      ensures Settled(arena', base', base0, f, lno, i)
    {
      assert ListAt(arena, base0[i], list, i, 0) && b + MTFL_SIZE <= base0[i];
      ListStays(arena, arena', base0[i], list, f, i, 0);
    }
  }

  /** The entry taken goes in front of the first list. */
  lemma PutInFront(arena: seq<int>, base: seq<int>, base0: seq<int>, list: seq<int>, f: seq<int>, lno: int, nn: nat,
                   arena': seq<int>, base': seq<int>)
    requires |list| == 256 && nn < 256 && f == MoveFront(list, nn) && Passing(arena, base, base0, list, f, lno, 0) &&
             0 < lno
    requires base' == base[0 := base[0] - 1] && 0 <= base'[0] < |arena| && arena' == arena[base'[0] := list[nn]]
    ensures IsList(arena', base', f)
  {
    forall i | 0 <= i < LISTS ensures base'[i] == NewBase(base0, lno, i) && ListAt(arena', base'[i], f, i, 0) {
      if i > 0 {
        assert Settled(arena, base, base0, f, lno, i) && base0[0] + MTFL_SIZE <= base0[i];
        ListStays(arena, arena', base[i], f, f, i, 0);
      } else {
        ListStays(arena, arena', base'[0], f, f, 0, 1);
        assert EntryAt(arena', base'[0], f, 0, 0);
        ListGrows(arena', base'[0], f, 0, 0);
      }
    }
    forall i, k | 0 <= i < k < LISTS ensures base'[i] + MTFL_SIZE <= base'[k] {
      assert base0[i] + MTFL_SIZE <= base0[k];
    }
  }

  /** The entries of the list before the one taken move up by one. */
  method ShiftWithin(mtfa: array<int>, b: int, pp0: int)
    requires 0 <= b <= pp0 < mtfa.Length
    modifies mtfa
    ensures forall q {:trigger mtfa[q]} ::
              0 <= q < mtfa.Length ==> mtfa[q] == old(if b < q <= pp0 then mtfa[q - 1] else mtfa[q])
  {
    var pp := pp0;
    while pp > b
      invariant b <= pp <= pp0
      invariant forall q {:trigger mtfa[q]} ::
                  0 <= q < mtfa.Length ==> mtfa[q] == old(if pp < q <= pp0 then mtfa[q - 1] else mtfa[q])
    {
      mtfa[pp] := mtfa[pp - 1];
      pp := pp - 1;
    }
  }

  /** Each list before passes its last entry on. */
  method PassAll(mtfa: array<int>, mtfbase: array<int>, lno0: nat, ghost base0: seq<int>, ghost list: seq<int>,
                 ghost nn: nat)
    requires mtfa != mtfbase && |list| == 256 && nn < 256 && lno0 == nn / MTFL_SIZE
    requires Passing(mtfa[..], mtfbase[..], base0, list, MoveFront(list, nn), lno0, lno0)
    modifies mtfa, mtfbase
    ensures Passing(mtfa[..], mtfbase[..], base0, list, MoveFront(list, nn), lno0, 0)
  {
    var lno := lno0;
    while lno > 0
      invariant 0 <= lno <= lno0
      invariant Passing(mtfa[..], mtfbase[..], base0, list, MoveFront(list, nn), lno0, lno)
    {
      ghost var arena, base := mtfa[..], mtfbase[..];
      Reachable(arena, base, base0, list, MoveFront(list, nn), lno0, lno);
      mtfbase[lno] := mtfbase[lno] - 1;
      mtfa[mtfbase[lno]] := mtfa[mtfbase[lno - 1] + MTFL_SIZE - 1];
      PassOn(arena, base, base0, list, MoveFront(list, nn), lno0, lno, nn, mtfa[..], mtfbase[..]);
      lno := lno - 1;
    }
  }

  /** The places read and written are inside the arena. */
  lemma Reachable(arena: seq<int>, base: seq<int>, base0: seq<int>, list: seq<int>, f: seq<int>, lno: int, k: int)
    requires Passing(arena, base, base0, list, f, lno, k) && 0 < k
    ensures 0 <= base[k] - 1 < |arena| && 0 <= base[k - 1] + MTFL_SIZE - 1 < |arena|
  {
    assert Waiting(arena, base, base0, list, k - 1) && base0[k - 1] + MTFL_SIZE <= base0[k];
    assert k > 1 ==> base0[0] + MTFL_SIZE <= base0[k - 1];
    assert base0[k] <= Home(k);
  }

  method TakeFromLater(mtfa: array<int>, mtfbase: array<int>, nn: nat, ghost list: seq<int>) returns (uc: int)
    requires mtfa != mtfbase && IsList(mtfa[..], mtfbase[..], list) && mtfbase[0] >= 1 && MTFL_SIZE <= nn < 256
    modifies mtfa, mtfbase
    ensures uc == list[nn] && IsList(mtfa[..], mtfbase[..], MoveFront(list, nn))
  {
    ghost var arena, base0, f := mtfa[..], mtfbase[..], MoveFront(list, nn);
    var lno, off := nn / MTFL_SIZE, nn % MTFL_SIZE;
    assert ListAt(arena, base0[lno], list, lno, 0) && EntryAt(arena, base0[lno], list, lno, off) &&
        EntryAt(arena, base0[lno], list, lno, 0);
    var pp := mtfbase[lno] + off;
    uc := mtfa[pp];
    ShiftWithin(mtfa, mtfbase[lno], pp);
    mtfbase[lno] := mtfbase[lno] + 1;
    TakenOut(arena, base0, list, f, lno, off, nn, mtfa[..], mtfbase[..]);
    PassAll(mtfa, mtfbase, lno, base0, list, nn);
    ghost var arena1, base1 := mtfa[..], mtfbase[..];
    mtfbase[0] := mtfbase[0] - 1;
    mtfa[mtfbase[0]] := uc;
    PutInFront(arena1, base1, base0, list, f, lno, nn, mtfa[..], mtfbase[..]);
  }

  // ----- when the first list has reached the beginning of the arena -----

  /** The first entries of list i, up to but not including entry to. */
  ghost predicate Beginning(arena: seq<int>, b: int, list: seq<int>, i: int, to: int) {
    forall j {:trigger EntryAt(arena, b, list, i, j)} :: 0 <= j < to ==> EntryAt(arena, b, list, i, j)
  }

  /** List i is back at the end of the arena. */
  ghost predicate AtHome(arena: seq<int>, base: seq<int>, list: seq<int>, i: int) {
    |base| == LISTS && 0 <= i < LISTS && base[i] == Home(i) && ListAt(arena, Home(i), list, i, 0)
  }

  /** The lists behind list k are back, those before it where they were. */
  ghost predicate Around(arena: seq<int>, base: seq<int>, base0: seq<int>, list: seq<int>, k: int) {
    && |arena| == MTFA_SIZE && |list| == 256 && Spread(base0) && |base| == LISTS && -1 <= k < LISTS
    && (forall i {:trigger Waiting(arena, base, base0, list, i)} :: 0 <= i < k ==> Waiting(arena, base, base0, list, i))
    && (forall i {:trigger AtHome(arena, base, list, i)} :: k < i < LISTS ==> AtHome(arena, base, list, i))
  }

  /** And of list k, the entries from to on are back too. */
  ghost predicate GoingHome(arena: seq<int>, base: seq<int>, base0: seq<int>, list: seq<int>, k: int, to: int) {
    && Around(arena, base, base0, list, k) && 0 <= k && base[k] == base0[k]
    && Beginning(arena, base0[k], list, k, to) && ListAt(arena, Home(k), list, k, to)
  }

  lemma SetOut(arena: seq<int>, base: seq<int>, base0: seq<int>, list: seq<int>, k: int)
    requires Around(arena, base, base0, list, k) && 0 <= k && Waiting(arena, base, base0, list, k)
    ensures GoingHome(arena, base, base0, list, k, MTFL_SIZE)
  {
    forall j {:trigger EntryAt(arena, base0[k], list, k, j)} | 0 <= j < MTFL_SIZE
      ensures EntryAt(arena, base0[k], list, k, j)
    {}
  }

  lemma EntryGoesHome(arena: seq<int>, base: seq<int>, base0: seq<int>, list: seq<int>, k: int, to: int,
                      arena': seq<int>)
    requires GoingHome(arena, base, base0, list, k, to) && 0 < to <= MTFL_SIZE
    requires 0 <= base0[k] + to - 1 < |arena| && arena' == arena[Home(k) + to - 1 := arena[base0[k] + to - 1]]
    ensures GoingHome(arena', base, base0, list, k, to - 1)
  {
    assert EntryAt(arena, base0[k], list, k, to - 1);
    forall i {:trigger Waiting(arena', base, base0, list, i)} | 0 <= i < k
      ensures Waiting(arena', base, base0, list, i)
    {
      assert Waiting(arena, base, base0, list, i) && base0[i] + MTFL_SIZE <= base0[k];
      ListStays(arena, arena', base0[i], list, list, i, 0);
    }
    forall i {:trigger AtHome(arena', base, list, i)} | k < i < LISTS ensures AtHome(arena', base, list, i) {
      assert AtHome(arena, base, list, i);
      ListStays(arena, arena', Home(i), list, list, i, 0);
    }
    forall j {:trigger EntryAt(arena', base0[k], list, k, j)} | 0 <= j < to - 1
      ensures EntryAt(arena', base0[k], list, k, j)
    {
      assert EntryAt(arena, base0[k], list, k, j);
    }
    ListStays(arena, arena', Home(k), list, list, k, to);
    assert EntryAt(arena', Home(k), list, k, to - 1);
    ListGrows(arena', Home(k), list, k, to - 1);
  }

  lemma Arrived(arena: seq<int>, base: seq<int>, base0: seq<int>, list: seq<int>, k: int, base': seq<int>)
    requires GoingHome(arena, base, base0, list, k, 0) && base' == base[k := Home(k)]
    ensures Around(arena, base', base0, list, k - 1) && (k > 0 ==> Waiting(arena, base', base0, list, k - 1))
  {
    forall i {:trigger Waiting(arena, base', base0, list, i)} | 0 <= i < k
      ensures Waiting(arena, base', base0, list, i)
    {
      assert Waiting(arena, base, base0, list, i);
    }
    forall i {:trigger AtHome(arena, base', list, i)} | k <= i < LISTS ensures AtHome(arena, base', list, i) {
      assert i > k ==> AtHome(arena, base, list, i);
    }
  }

  lemma AllHome(arena: seq<int>, base: seq<int>, base0: seq<int>, list: seq<int>)
    requires Around(arena, base, base0, list, -1)
    ensures IsList(arena, base, list) && base[0] == Home(0)
  {
    forall i | 0 <= i < LISTS ensures base[i] == Home(i) && ListAt(arena, base[i], list, i, 0) {
      assert AtHome(arena, base, list, i);
    }
  }

  method RebuildOne(mtfa: array<int>, mtfbase: array<int>, ii: nat, kk0: int, ghost base0: seq<int>,
                    ghost list: seq<int>)
    returns (kk: int)
    requires ii < LISTS && mtfa != mtfbase && GoingHome(mtfa[..], mtfbase[..], base0, list, ii, MTFL_SIZE) &&
             kk0 == Home(ii) + MTFL_SIZE - 1
    modifies mtfa
    ensures kk == Home(ii) - 1 && GoingHome(mtfa[..], mtfbase[..], base0, list, ii, 0)
  {
    kk := kk0;
    var jj := MTFL_SIZE - 1;
    while jj >= 0
      invariant -1 <= jj < MTFL_SIZE && kk == Home(ii) + jj
      invariant GoingHome(mtfa[..], mtfbase[..], base0, list, ii, jj + 1)
    {
      ghost var arena := mtfa[..];
      assert EntryAt(arena, base0[ii], list, ii, jj);
      mtfa[kk] := mtfa[mtfbase[ii] + jj];
      EntryGoesHome(arena, mtfbase[..], base0, list, ii, jj + 1, mtfa[..]);
      kk := kk - 1;
      jj := jj - 1;
    }
  }

  /** Every list goes back to the end of the arena, without a second arena: what is still to be
      moved never lies behind the place being written. */
  method Rebuild(mtfa: array<int>, mtfbase: array<int>, ghost list: seq<int>)
    requires mtfa != mtfbase && IsList(mtfa[..], mtfbase[..], list)
    modifies mtfa, mtfbase
    ensures IsList(mtfa[..], mtfbase[..], list) && mtfbase[0] == Home(0)
  {
    ghost var base0 := mtfbase[..];
    var kk := MTFA_SIZE - 1;
    var ii := LISTS - 1;
    assert forall i {:trigger Waiting(mtfa[..], base0, base0, list, i)} ::
          0 <= i < LISTS ==> base0[i] == base0[i] && Waiting(mtfa[..], base0, base0, list, i);
    while ii >= 0
      invariant -1 <= ii < LISTS && kk == Home(ii) + MTFL_SIZE - 1
      invariant Around(mtfa[..], mtfbase[..], base0, list, ii) &&
                (ii >= 0 ==> Waiting(mtfa[..], mtfbase[..], base0, list, ii))
    {
      SetOut(mtfa[..], mtfbase[..], base0, list, ii);
      kk := RebuildOne(mtfa, mtfbase, ii, kk, base0, list);
      ghost var base := mtfbase[..];
      mtfbase[ii] := kk + 1;
      Arrived(mtfa[..], base, base0, list, ii, mtfbase[..]);
      ii := ii - 1;
    }
    AllHome(mtfa[..], mtfbase[..], base0, list);
  }

  // ----- the list as a whole -----

  /** Between two codes there is room for one more entry in front of the first list. */
  ghost predicate Ready(arena: seq<int>, base: seq<int>, list: seq<int>) {
    IsList(arena, base, list) && base[0] >= 1
  }

  /** One code: the entry at position nn is returned and moved to the front of the list. */
  method Take(mtfa: array<int>, mtfbase: array<int>, nn: nat, ghost list: seq<int>) returns (uc: int)
    requires mtfa != mtfbase && Ready(mtfa[..], mtfbase[..], list) && nn < 256
    modifies mtfa, mtfbase
    ensures uc == list[nn] && Ready(mtfa[..], mtfbase[..], MoveFront(list, nn))
  {
    if nn < MTFL_SIZE {
      uc := TakeFromFirst(mtfa, mtfbase, nn, list);
    } else {
      uc := TakeFromLater(mtfa, mtfbase, nn, list);
      if mtfbase[0] == 0 {
        Rebuild(mtfa, mtfbase, MoveFront(list, nn));
      }
    }
  }

  /** The entry a run of zeros repeats. */
  method Front(mtfa: array<int>, mtfbase: array<int>, ghost list: seq<int>) returns (uc: int)
    requires Ready(mtfa[..], mtfbase[..], list)
    ensures uc == list[0]
  {
    assert ListAt(mtfa[..], mtfbase[..][0], list, 0, 0);
    assert EntryAt(mtfa[..], mtfbase[0], list, 0, 0);
    uc := mtfa[mtfbase[0]];
  }

  /** While the lists are being laid out: the places from kk on hold their own numbers. */
  ghost predicate LaidOut(arena: seq<int>, kk: int) {
    |arena| == MTFA_SIZE && forall q {:trigger arena[q]} :: kk < q < |arena| && 0 <= q ==> arena[q] == q - Home(0)
  }

  /** The identity list, at the end of the arena. */
  method Init(mtfa: array<int>, mtfbase: array<int>)
    requires mtfa != mtfbase && mtfa.Length == MTFA_SIZE && mtfbase.Length == LISTS
    modifies mtfa, mtfbase
    ensures Ready(mtfa[..], mtfbase[..], Identity(256))
  {
    var kk := MTFA_SIZE - 1;
    var ii := LISTS - 1;
    while ii >= 0
      invariant -1 <= ii < LISTS && kk == Home(ii) + MTFL_SIZE - 1 && LaidOut(mtfa[..], kk)
      invariant forall i :: ii < i < LISTS ==> mtfbase[i] == Home(i)
    {
      var jj := MTFL_SIZE - 1;
      while jj >= 0
        invariant -1 <= jj < MTFL_SIZE && kk == Home(ii) + jj && LaidOut(mtfa[..], kk)
        invariant forall i :: ii < i < LISTS ==> mtfbase[i] == Home(i)
      {
        mtfa[kk] := ii * MTFL_SIZE + jj;
        kk := kk - 1;
        jj := jj - 1;
      }
      mtfbase[ii] := kk + 1;
      ii := ii - 1;
    }
    InitList(mtfa[..], mtfbase[..]);
  }

  lemma InitList(arena: seq<int>, base: seq<int>)
    requires LaidOut(arena, Home(0) - 1) && |base| == LISTS && forall i :: 0 <= i < LISTS ==> base[i] == Home(i)
    ensures Ready(arena, base, Identity(256))
  {
    var list := Identity(256);
    forall i {:trigger base[i]} | 0 <= i < LISTS ensures ListAt(arena, base[i], list, i, 0) {
      forall j {:trigger EntryAt(arena, base[i], list, i, j)} | 0 <= j < MTFL_SIZE
        ensures EntryAt(arena, base[i], list, i, j)
      {}
    }
  }
}
