/** Table::atomicReadNext of table.h and the two partitioners built on it: threads take the
    pages of a table by compare-and-swap on the reading position, without a lock, and append
    the tuples of each page to the table of their hash. An append reserves a slot, under the lock
    if the table is shared, and copies the tuple into it later. With shared tables
    (ParallelPartitioner) there is one per hash; otherwise (IndependentPartitioner) every
    thread has its own, and they are linked together afterwards. */
module PageHandout {
  import opened JoinSpec
  import KeyBits
  import opened StablePartition
  import opened Sums
  import opened TwoPasses

  /** A thread is between pages, about to swap with the position it has read, about to append
      tuple i of a page, about to copy that tuple into the slot it has reserved, or through. */
  datatype Stage =
    | Idle
    | Trying(seen: nat)
    | Working(page: nat, i: nat)
    | Copying(page: nat, i: nat, slot: nat)
    | Finished

  /** A slot of a table: reserved, with arbitrary contents, or filled. */
  datatype Slot = Reserved(thread: nat) | Filled(tuple: Tuple)

  /** cur is the next page nobody has; log lists the pages handed out, each with the thread that
      got it, in the order of the successful swaps; stores[t][h] is thread t's table for hash
      h, the shared one being thread 0's. */
  datatype State = State(cur: nat, log: seq<(nat, nat)>, stage: seq<Stage>, stores: seq<seq<seq<Slot>>>)

  /** Whose tables thread t appends to. */
  function Home(shared: bool, t: nat): nat {
    if shared then 0 else t
  }

  /** The tuples that have been copied into a table. */
  function Tuples(slots: seq<Slot>): Relation {
    if slots == [] then []
    else Tuples(slots[..|slots|-1]) + if slots[|slots|-1].Filled? then [slots[|slots|-1].tuple] else []
  }

  lemma {:induction false} TuplesAppend(a: seq<Slot>, b: seq<Slot>)
    ensures Tuples(a + b) == Tuples(a) + Tuples(b)
  {
    if b == [] {
      assert a + b == a;
    } else {
      TuplesAppend(a, b[..|b|-1]);
      assert (a + b)[..|a + b|-1] == a + b[..|b|-1];
    }
  }

  lemma OneSlot(x: Slot)
    ensures Tuples([x]) == if x.Filled? then [x.tuple] else []
  {
    assert [x][..0] == [];
  }

  /** Copying a tuple into a reserved slot adds it to the table. */
  lemma FillSlot(slots: seq<Slot>, k: nat, x: Tuple)
    requires k < |slots| && slots[k].Reserved?
    ensures multiset(Tuples(slots[k := Filled(x)])) == multiset(Tuples(slots)) + multiset{x}
  {
    hide Tuples;
    var a, b := slots[..k], slots[k+1..];
    assert slots == a + [slots[k]] + b && slots[k := Filled(x)] == a + [Filled(x)] + b;
    TuplesAppend(a + [slots[k]], b);
    TuplesAppend(a, [slots[k]]);
    TuplesAppend(a + [Filled(x)], b);
    TuplesAppend(a, [Filled(x)]);
    OneSlot(slots[k]);
    OneSlot(Filled(x));
  }

  function Flat(pages: seq<Relation>): Relation {
    if pages == [] then [] else pages[0] + Flat(pages[1..])
  }

  ghost function Bag(f: Tuple -> int, h: int, s: Relation): multiset<Tuple> {
    multiset(Filter(s, f, h))
  }

  predicate OnPage(g: Stage) {
    g.Working? || g.Copying?
  }

  /** The tuples of hash h a thread still has in hand, and those in a thread's table. */
  ghost function InHand(pages: seq<Relation>, f: Tuple -> int, h: int): Stage -> multiset<Tuple> {
    (g: Stage) => if OnPage(g) && g.page < |pages| && g.i <= |pages[g.page]| then Bag(f, h,
      pages[g.page][g.i..]) else multiset{}
  }

  ghost function Stored(h: nat): seq<seq<Slot>> -> multiset<Tuple> {
    (store: seq<seq<Slot>>) => if h < |store| then multiset(Tuples(store[h])) else multiset{}
  }

  /** Every tuple of hash h is on a page nobody has, in one thread's hands, or stored. */
  ghost predicate Balanced(pages: seq<Relation>, f: Tuple -> int, s: State, h: nat) {
    s.cur <= |pages| &&
    Bag(f, h, Flat(pages[s.cur..])) + Union(s.stage, InHand(pages, f, h)) + Union(s.stores, Stored(h)) ==
      Bag(f, h, Flat(pages))
  }

  /** A page in hand is one the log says the thread got; page numbers read are never ahead. */
  ghost predicate StageOk(pages: seq<Relation>, s: State, t: nat, g: Stage) {
    match g
    case Trying(seen) => seen <= s.cur && seen < |pages|
    case Working(p, i) => p < s.cur <= |pages| && p < |s.log| && s.log[p].0 == t && i <= |pages[p]|
    case Copying(p, i, _) => p < s.cur <= |pages| && p < |s.log| && s.log[p].0 == t && i < |pages[p]|
    case Finished => s.cur == |pages|
    case Idle => true
  }

  ghost predicate Inv(pages: seq<Relation>, f: Tuple -> int, s: State, buckets: nat, shared: bool) {
    && s.cur == |s.log| <= |pages| && |s.stores| == |s.stage| >= 1
    && (forall t :: 0 <= t < |s.stage| ==> |s.stores[t]| == buckets && StageOk(pages, s, t, s.stage[t]))
    && (forall p :: 0 <= p < |s.log| ==> s.log[p].0 < |s.stage| && s.log[p].1 == p)
    && (forall t, h :: 0 <= t < |s.stage| && 0 <= h < buckets && shared && t > 0 ==> s.stores[t][h] == [])
    && (forall h {:trigger Balanced(pages, f, s, h)} :: 0 <= h < buckets ==> Balanced(pages, f, s, h))
  }

  /** Thread t is about to fill slot k of table h of thread u. */
  ghost predicate Pending(pages: seq<Relation>, f: Tuple -> int, stage: seq<Stage>, shared: bool, t: nat, u: nat,
                          h: nat, k: nat)
  {
    && t < |stage| && stage[t].Copying? && u == Home(shared, t) && k == stage[t].slot
    && stage[t].page < |pages| && stage[t].i < |pages[stage[t].page]| && h == f(pages[stage[t].page][stage[t].i])
  }

  predicate InStores(stores: seq<seq<seq<Slot>>>, u: int, h: int, k: int) {
    0 <= u < |stores| && 0 <= h < |stores[u]| && 0 <= k < |stores[u][h]|
  }

  /** Exactly the slots somebody is about to fill are reserved, each for that thread. */
  ghost predicate SlotsOk(pages: seq<Relation>, f: Tuple -> int, s: State, shared: bool) {
    && (forall u, h, k {:trigger s.stores[u][h][k]} | InStores(s.stores, u, h, k) && s.stores[u][h][k].Reserved? ::
          Pending(pages, f, s.stage, shared, s.stores[u][h][k].thread, u, h, k))
    && (forall t: nat, u: nat, h: nat, k: nat {:trigger Pending(pages, f, s.stage, shared, t, u, h, k)}
          | Pending(pages, f, s.stage, shared, t, u, h, k) ::
          InStores(s.stores, u, h, k) && s.stores[u][h][k] == Reserved(t))
  }

  lemma BagSnoc(f: Tuple -> int, h: int, a: Relation, b: Relation)
    ensures Bag(f, h, a + b) == Bag(f, h, a) + Bag(f, h, b)
  {
    FilterAppend(a, b, f, h);
  }

  lemma BagOne(f: Tuple -> int, h: int, x: Tuple)
    ensures Bag(f, h, [x]) == if f(x) == h then multiset{x} else multiset{}
  {
    FilterOne(x, f, h);
  }

  lemma BagNone(f: Tuple -> int, h: int)
    ensures Bag(f, h, []) == multiset{}
  {
    FilterEmpty(f, h);
  }

  /** What leaves one of the three places arrives in another. */
  lemma Moved(a: multiset<Tuple>, a': multiset<Tuple>, b: multiset<Tuple>, b': multiset<Tuple>, c: multiset<Tuple>,
              c': multiset<Tuple>, b0: multiset<Tuple>, b1: multiset<Tuple>, c0: multiset<Tuple>, c1: multiset<Tuple>)
    requires b' + b0 == b + b1 && c' + c0 == c + c1 && a' + b1 + c1 == a + b0 + c0
    ensures a' + b' + c' == a + b + c
  {
    forall x ensures (a' + b' + c')[x] == (a + b + c)[x] {
      assert (b' + b0)[x] == (b + b1)[x] && (c' + c0)[x] == (c + c1)[x] && (a' + b1 + c1)[x] == (a + b0 + c0)[x];
    }
  }

  lemma Regroup(a: multiset<Tuple>, b: multiset<Tuple>, c: multiset<Tuple>, b': multiset<Tuple>, c': multiset<Tuple>)
    requires b' + c' == b + c
    ensures a + b' + c' == a + b + c
  {
    assert a + b' + c' == a + (b' + c') && a + b + c == a + (b + c);
  }

  lemma Taken(whole: multiset<Tuple>, page: multiset<Tuple>, rest: multiset<Tuple>, c: multiset<Tuple>)
    requires whole == page + rest
    ensures rest + page + c == whole + multiset{} + c
  {
  }

  // ----- steps -----

  /** A change of one thread's stage and, possibly, of one of its tables. */
  lemma BalanceStep(pages: seq<Relation>, f: Tuple -> int, s: State, s': State, h: nat, t: nat, u: nat)
    requires Balanced(pages, f, s, h) && t < |s.stage| && u < |s.stores| && s'.cur <= |pages|
    requires |s'.stage| == |s.stage| && |s'.stores| == |s.stores| && s'.stage == s.stage[t := s'.stage[t]] &&
             s'.stores == s.stores[u := s'.stores[u]]
    requires Bag(f, h, Flat(pages[s'.cur..])) + InHand(pages, f, h)(s'.stage[t]) + Stored(h)(s'.stores[u]) ==
             Bag(f, h, Flat(pages[s.cur..])) + InHand(pages, f, h)(s.stage[t]) + Stored(h)(s.stores[u])
    ensures Balanced(pages, f, s', h)
  {
    hide Bag, Flat, InHand, Stored, Union;
    UnionUpdate(s.stage, t, s'.stage[t], InHand(pages, f, h));
    UnionUpdate(s.stores, u, s'.stores[u], Stored(h));
    Moved(Bag(f, h, Flat(pages[s.cur..])), Bag(f, h, Flat(pages[s'.cur..])),
          Union(s.stage, InHand(pages, f, h)), Union(s'.stage, InHand(pages, f, h)),
          Union(s.stores, Stored(h)), Union(s'.stores, Stored(h)),
          InHand(pages, f, h)(s.stage[t]), InHand(pages, f, h)(s'.stage[t]),
          Stored(h)(s.stores[u]), Stored(h)(s'.stores[u]));
  }

  /** Read the position: the end of the list means there is nothing left. */
  function ReadStep(pages: seq<Relation>, s: State, t: nat): State
    requires t < |s.stage|
  {
    s.(stage := s.stage[t := if s.cur == |pages| then Finished else Trying(s.cur)])
  }

  lemma ReadKeeps(pages: seq<Relation>, f: Tuple -> int, s: State, buckets: nat, shared: bool, t: nat)
    requires Inv(pages, f, s, buckets, shared) && t < |s.stage| && (s.stage[t] == Idle || s.stage[t].Trying?)
    ensures Inv(pages, f, ReadStep(pages, s, t), buckets, shared)
  {
    hide Balanced, Bag, Flat, InHand, Stored;
    var s' := ReadStep(pages, s, t);
    forall h {:trigger Balanced(pages, f, s', h)} | 0 <= h < buckets ensures Balanced(pages, f, s', h) {
      assert Balanced(pages, f, s, h);
      NothingInHand(pages, f, h, s.stage[t]);
      NothingInHand(pages, f, h, s'.stage[t]);
      BalanceStep(pages, f, s, s', h, t, t);
    }
  }

  /** The swap succeeds if nobody has moved the position since it was read; otherwise the
      thread goes on with the position it finds. */
  function SwapStep(pages: seq<Relation>, s: State, t: nat): State
    requires t < |s.stage| && s.stage[t].Trying?
  {
    if s.cur == s.stage[t].seen then s.(cur := s.cur + 1, log := s.log +
      [(t, s.stage[t].seen)], stage := s.stage[t := Working(s.cur, 0)])
    else ReadStep(pages, s, t)
  }

  lemma SwapKeeps(pages: seq<Relation>, f: Tuple -> int, s: State, buckets: nat, shared: bool, t: nat)
    requires Inv(pages, f, s, buckets, shared) && t < |s.stage| && s.stage[t].Trying?
    ensures Inv(pages, f, SwapStep(pages, s, t), buckets, shared)
  {
    hide Balanced, Bag, Flat, InHand, Stored;
    if s.cur != s.stage[t].seen {
      ReadKeeps(pages, f, s, buckets, shared, t);
    } else {
      var s' := SwapStep(pages, s, t);
      assert StageOk(pages, s, t, s.stage[t]);
      forall u | 0 <= u < |s.stage|
        ensures StageOk(pages, s', u, s'.stage[u])
      {
        assert StageOk(pages, s, u, s.stage[u]);
      }
      forall h {:trigger Balanced(pages, f, s', h)} | 0 <= h < buckets ensures Balanced(pages, f, s', h) {
        assert Balanced(pages, f, s, h);
        NextPage(pages, f, h, s.cur);
        NothingInHand(pages, f, h, s.stage[t]);
        Taken(Bag(f, h, Flat(pages[s.cur..])), Bag(f, h, pages[s.cur]), Bag(f, h, Flat(pages[s.cur + 1..])),
            Stored(h)(s.stores[t]));
        BalanceStep(pages, f, s, s', h, t, t);
      }
    }
  }

  lemma NothingInHand(pages: seq<Relation>, f: Tuple -> int, h: int, g: Stage)
    ensures !OnPage(g) ==> InHand(pages, f, h)(g) == multiset{}
  {
  }

  lemma NextPage(pages: seq<Relation>, f: Tuple -> int, h: int, p: nat)
    requires p < |pages|
    ensures Bag(f, h, Flat(pages[p..])) == Bag(f, h, pages[p]) + Bag(f, h, Flat(pages[p + 1..]))
    ensures InHand(pages, f, h)(Working(p, 0)) == Bag(f, h, pages[p])
  {
    hide Filter;
    assert pages[p..][0] == pages[p] && pages[p..][1..] == pages[p + 1..] && pages[p][0..] == pages[p];
    BagSnoc(f, h, pages[p], Flat(pages[p + 1..]));
  }

  /** Reserve a slot for the next tuple of the page, or go for another page. */
  function ReserveStep(pages: seq<Relation>, f: Tuple -> int, s: State, shared: bool, t: nat): State
    requires t < |s.stage| == |s.stores| && s.stage[t].Working? && s.stage[t].page < |pages|
    requires s.stage[t].i < |pages[s.stage[t].page]| ==>
             0 <= f(pages[s.stage[t].page][s.stage[t].i]) < |s.stores[Home(shared, t)]|
  {
    var (p, i, u) := (s.stage[t].page, s.stage[t].i, Home(shared, t));
    if i < |pages[p]| then
      var h := f(pages[p][i]);
      s.(stage := s.stage[t := Copying(p, i, |s.stores[u][h]|)],
        stores := s.stores[u := s.stores[u][h := s.stores[u][h] + [Reserved(t)]]])
    else s.(stage := s.stage[t := Idle])
  }

  /** Copy the tuple into its slot. */
  function CopyStep(pages: seq<Relation>, f: Tuple -> int, s: State, shared: bool, t: nat): State
    requires t < |s.stage| == |s.stores| && s.stage[t].Copying? && s.stage[t].page < |pages| &&
             s.stage[t].i < |pages[s.stage[t].page]|
    requires var h := f(pages[s.stage[t].page][s.stage[t].i]);
             0 <= h < |s.stores[Home(shared, t)]| && s.stage[t].slot < |s.stores[Home(shared, t)][h]|
  {
    var (p, i, k, u) := (s.stage[t].page, s.stage[t].i, s.stage[t].slot, Home(shared, t));
    var x := pages[p][i];
    s.(stage := s.stage[t := Working(p, i + 1)],
      stores := s.stores[u := s.stores[u][f(x) := s.stores[u][f(x)][k := Filled(x)]]])
  }

  lemma ReserveStores(h: nat, g: nat, store: seq<seq<Slot>>, t: nat)
    requires g < |store|
    ensures Stored(h)(store[g := store[g] + [Reserved(t)]]) == Stored(h)(store)
  {
    hide Tuples;
    TuplesAppend(store[g], [Reserved(t)]);
    OneSlot(Reserved(t));
  }

  lemma CopyMoves(pages: seq<Relation>, f: Tuple -> int, h: nat, p: nat, i: nat, k: nat, store: seq<seq<Slot>>)
    requires p < |pages| && i < |pages[p]| && h < |store| && 0 <= f(pages[p][i]) < |store|
    requires k < |store[f(pages[p][i])]| && store[f(pages[p][i])][k].Reserved?
    ensures var x := pages[p][i];
            InHand(pages, f, h)(Working(p, i + 1)) + Stored(h)(store[f(x) := store[f(x)][k := Filled(x)]]) ==
            InHand(pages, f, h)(Copying(p, i, k)) + Stored(h)(store)
  {
    hide Filter, Tuples;
    var x := pages[p][i];
    assert pages[p][i..] == [x] + pages[p][i + 1..];
    BagSnoc(f, h, [x], pages[p][i + 1..]);
    BagOne(f, h, x);
    FillSlot(store[f(x)], k, x);
  }

  lemma PageEnds(pages: seq<Relation>, f: Tuple -> int, h: nat, p: nat)
    requires p < |pages|
    ensures InHand(pages, f, h)(Working(p, |pages[p]|)) == multiset{} == InHand(pages, f, h)(Idle)
  {
    assert pages[p][|pages[p]|..] == [];
    BagNone(f, h);
  }

  lemma SameInHand(pages: seq<Relation>, f: Tuple -> int, h: nat, p: nat, i: nat, k: nat)
    ensures InHand(pages, f, h)(Copying(p, i, k)) == InHand(pages, f, h)(Working(p, i))
  {
  }

  /** The tuple at hand hashes to one of the tables. */
  lemma HashAtHand(pages: seq<Relation>, f: Tuple -> int, s: State, buckets: nat, shared: bool, t: nat)
    requires Inv(pages, f, s, buckets, shared) && Hashes(f, buckets) && t < |s.stage| && OnPage(s.stage[t])
    ensures s.stage[t].page < |pages| && s.stage[t].i <= |pages[s.stage[t].page]|
    ensures s.stage[t].Copying? ==> s.stage[t].i < |pages[s.stage[t].page]|
    ensures s.stage[t].i < |pages[s.stage[t].page]| ==>
            0 <= f(pages[s.stage[t].page][s.stage[t].i]) < |s.stores[Home(shared, t)]|
  {
    hide Balanced;
    assert StageOk(pages, s, t, s.stage[t]);
  }

  lemma ReserveKeeps(pages: seq<Relation>, f: Tuple -> int, s: State, buckets: nat, shared: bool, t: nat)
    requires Inv(pages, f, s, buckets, shared) && Hashes(f, buckets) && t < |s.stage| && s.stage[t].Working?
    ensures s.stage[t].page < |pages|
    ensures s.stage[t].i < |pages[s.stage[t].page]| ==>
            0 <= f(pages[s.stage[t].page][s.stage[t].i]) < |s.stores[Home(shared, t)]|
    ensures Inv(pages, f, ReserveStep(pages, f, s, shared, t), buckets, shared)
  {
    hide Balanced, Bag, Flat, InHand, Stored;
    HashAtHand(pages, f, s, buckets, shared, t);
    assert StageOk(pages, s, t, s.stage[t]);
    var s' := ReserveStep(pages, f, s, shared, t);
    var (p, i, u) := (s.stage[t].page, s.stage[t].i, Home(shared, t));
    forall h {:trigger Balanced(pages, f, s', h)} | 0 <= h < buckets ensures Balanced(pages, f, s', h) {
      assert Balanced(pages, f, s, h);
      SameCur(pages, f, s, h);
      if i < |pages[p]| {
        ReserveStores(h, f(pages[p][i]), s.stores[u], t);
        SameInHand(pages, f, h, p, i, s'.stage[t].slot);
      } else {
        PageEnds(pages, f, h, p);
      }
      BalanceStep(pages, f, s, s', h, t, u);
    }
  }

  lemma CopyKeeps(pages: seq<Relation>, f: Tuple -> int, s: State, buckets: nat, shared: bool, t: nat)
    requires Inv(pages, f, s, buckets, shared) && SlotsOk(pages, f, s, shared) && Hashes(f, buckets) &&
             t < |s.stage| && s.stage[t].Copying?
    ensures s.stage[t].page < |pages| && s.stage[t].i < |pages[s.stage[t].page]|
    ensures var h := f(pages[s.stage[t].page][s.stage[t].i]);
            0 <= h < |s.stores[Home(shared, t)]| && s.stage[t].slot < |s.stores[Home(shared, t)][h]|
    ensures Inv(pages, f, CopyStep(pages, f, s, shared, t), buckets, shared)
  {
    hide Balanced, Bag, Flat, InHand, Stored;
    HashAtHand(pages, f, s, buckets, shared, t);
    assert StageOk(pages, s, t, s.stage[t]);
    var (p, i, k, u) := (s.stage[t].page, s.stage[t].i, s.stage[t].slot, Home(shared, t));
    assert Pending(pages, f, s.stage, shared, t, u, f(pages[p][i]), k);
    var s' := CopyStep(pages, f, s, shared, t);
    forall h {:trigger Balanced(pages, f, s', h)} | 0 <= h < buckets ensures Balanced(pages, f, s', h) {
      assert Balanced(pages, f, s, h);
      SameCur(pages, f, s, h);
      CopyMoves(pages, f, h, p, i, k, s.stores[u]);
      Regroup(Bag(f, h, Flat(pages[s.cur..])), InHand(pages, f, h)(s.stage[t]), Stored(h)(s.stores[u]),
          InHand(pages, f, h)(s'.stage[t]), Stored(h)(s'.stores[u]));
      BalanceStep(pages, f, s, s', h, t, u);
    }
  }

  // ----- the slots -----

  /** A thread that neither had a slot nor gets one changes nothing about the slots. */
  lemma SlotsStay(pages: seq<Relation>, f: Tuple -> int, s: State, s': State, shared: bool, t: nat, g: Stage)
    requires SlotsOk(pages, f, s, shared) && t < |s.stage| && !s.stage[t].Copying? && !g.Copying?
    requires s'.stage == s.stage[t := g] && s'.stores == s.stores
    ensures SlotsOk(pages, f, s', shared)
  {
    forall v: nat, u: nat, h: nat, k: nat | Pending(pages, f, s'.stage, shared, v, u, h, k)
      ensures Pending(pages, f, s.stage, shared, v, u, h, k)
    {}
    forall u, h, k {:trigger s'.stores[u][h][k]} | InStores(s'.stores, u, h, k) && s'.stores[u][h][k].Reserved?
      ensures Pending(pages, f, s'.stage, shared, s'.stores[u][h][k].thread, u, h, k)
    {
      assert Pending(pages, f, s.stage, shared, s.stores[u][h][k].thread, u, h, k);
    }
  }

  lemma SlotReserved(pages: seq<Relation>, f: Tuple -> int, s: State, shared: bool, t: nat)
    requires SlotsOk(pages, f, s, shared) && t < |s.stage| == |s.stores| && s.stage[t].Working? &&
             s.stage[t].page < |pages|
    requires s.stage[t].i < |pages[s.stage[t].page]| &&
             0 <= f(pages[s.stage[t].page][s.stage[t].i]) < |s.stores[Home(shared, t)]|
    ensures SlotsOk(pages, f, ReserveStep(pages, f, s, shared, t), shared)
  {
    var s' := ReserveStep(pages, f, s, shared, t);
    var (p, i, u0) := (s.stage[t].page, s.stage[t].i, Home(shared, t));
    var h0 := f(pages[p][i]);
    forall v: nat, u: nat, h: nat, k: nat {:trigger Pending(pages, f, s'.stage, shared, v, u, h, k)}
      | Pending(pages, f, s'.stage, shared, v, u, h, k)
      ensures InStores(s'.stores, u, h, k) && s'.stores[u][h][k] == Reserved(v)
    {
      if v != t { assert Pending(pages, f, s.stage, shared, v, u, h, k); }
    }
    forall u, h, k {:trigger s'.stores[u][h][k]} | InStores(s'.stores, u, h, k) && s'.stores[u][h][k].Reserved?
      ensures Pending(pages, f, s'.stage, shared, s'.stores[u][h][k].thread, u, h, k)
    {
      if !(u == u0 && h == h0 && k == |s.stores[u0][h0]|) {
        assert s.stores[u][h][k] == s'.stores[u][h][k];
        assert Pending(pages, f, s.stage, shared, s.stores[u][h][k].thread, u, h, k);
      }
    }
  }

  lemma SlotFilled(pages: seq<Relation>, f: Tuple -> int, s: State, shared: bool, t: nat)
    requires SlotsOk(pages, f, s, shared) && t < |s.stage| == |s.stores| && s.stage[t].Copying? &&
             s.stage[t].page < |pages|
    requires s.stage[t].i < |pages[s.stage[t].page]|
    requires var h := f(pages[s.stage[t].page][s.stage[t].i]);
             0 <= h < |s.stores[Home(shared, t)]| && s.stage[t].slot < |s.stores[Home(shared, t)][h]|
    ensures SlotsOk(pages, f, CopyStep(pages, f, s, shared, t), shared)
  {
    var s' := CopyStep(pages, f, s, shared, t);
    var (p, i, k0, u0) := (s.stage[t].page, s.stage[t].i, s.stage[t].slot, Home(shared, t));
    var h0 := f(pages[p][i]);
    assert Pending(pages, f, s.stage, shared, t, u0, h0, k0);
    forall v: nat, u: nat, h: nat, k: nat {:trigger Pending(pages, f, s'.stage, shared, v, u, h, k)}
      | Pending(pages, f, s'.stage, shared, v, u, h, k)
      ensures InStores(s'.stores, u, h, k) && s'.stores[u][h][k] == Reserved(v)
    {
      assert Pending(pages, f, s.stage, shared, v, u, h, k);
    }
    forall u, h, k {:trigger s'.stores[u][h][k]} | InStores(s'.stores, u, h, k) && s'.stores[u][h][k].Reserved?
      ensures Pending(pages, f, s'.stage, shared, s'.stores[u][h][k].thread, u, h, k)
    {
      assert s.stores[u][h][k] == s'.stores[u][h][k];
      assert Pending(pages, f, s.stage, shared, s.stores[u][h][k].thread, u, h, k);
    }
  }

  lemma SlotOwner(pages: seq<Relation>, f: Tuple -> int, s: State, shared: bool, u: nat, h: nat, k: nat)
    requires SlotsOk(pages, f, s, shared) && u < |s.stores| && h < |s.stores[u]| && k < |s.stores[u][h]| &&
             s.stores[u][h][k].Reserved?
    ensures exists t :: 0 <= t < |s.stage| && s.stage[t].Copying?
  {
    assert Pending(pages, f, s.stage, shared, s.stores[u][h][k].thread, u, h, k);
  }

  /** When nobody is copying, every slot is filled. */
  lemma AllFilled(pages: seq<Relation>, f: Tuple -> int, s: State, shared: bool)
    requires SlotsOk(pages, f, s, shared) && forall t :: 0 <= t < |s.stage| ==> s.stage[t] == Finished
    ensures forall u, h, k :: InStores(s.stores, u, h, k) ==> s.stores[u][h][k].Filled?
  {
    forall u, h, k | InStores(s.stores, u, h, k) ensures s.stores[u][h][k].Filled? {
      if s.stores[u][h][k].Reserved? { SlotOwner(pages, f, s, shared, u, h, k); }
    }
  }

  lemma SameCur(pages: seq<Relation>, f: Tuple -> int, s: State, h: nat)
    requires Balanced(pages, f, s, h)
    ensures s.cur <= |pages|
  {
  }

  // ----- every run -----

  /** Bounds the steps before the position moves; a failed swap means somebody else moved it. */
  ghost function Rank(pages: seq<Relation>, cur: nat): Stage -> nat {
    (g: Stage) =>
      if g.Working? then (if g.page < |pages| && g.i <= |pages[g.page]| then 4 + 2 * (|pages[g.page]| - g.i) else 4)
      else if g.Copying? then (if g.page < |pages| && g.i < |pages[g.page]| then 3 + 2 * (|pages[g.page]| - g.i) else 4)
      else if g.Idle? then 3
      else if g.Trying? then (if g.seen == cur then 1 else 2)
      else 0
  }

  lemma RankStep(pages: seq<Relation>, cur: nat, stage: seq<Stage>, t: nat, g: Stage)
    requires t < |stage| && Rank(pages, cur)(g) < Rank(pages, cur)(stage[t])
    ensures Sum(stage[t := g], Rank(pages, cur)) < Sum(stage, Rank(pages, cur))
  {
    SumUpdate(stage, t, g, Rank(pages, cur));
  }

  /** A thread is about to reserve a slot for a tuple. */
  predicate AtTuple(pages: seq<Relation>, g: Stage) {
    g.Working? && g.page < |pages| && g.i < |pages[g.page]|
  }

  /** Nobody has appended anything, or is about to copy. */
  ghost predicate NoAppends(s: State) {
    && (forall t, h :: 0 <= t < |s.stores| && 0 <= h < |s.stores[t]| ==> s.stores[t][h] == [])
    && forall t :: 0 <= t < |s.stage| ==> !s.stage[t].Copying?
  }

  lemma {:induction false} TupleSomewhere(pages: seq<Relation>, p: nat, i: nat)
    requires p < |pages| && i < |pages[p]|
    ensures Flat(pages) != []
  {
    if p > 0 { TupleSomewhere(pages[1..], p - 1, i); }
  }

  /** If nothing has been appended although every thread is through, there was nothing. */
  lemma NothingThere(pages: seq<Relation>, f: Tuple -> int, s: State, buckets: nat)
    requires NoAppends(s) && Hashes(f, buckets) && forall t :: 0 <= t < |s.stores| ==> |s.stores[t]| == buckets
    requires forall h {:trigger Stored(h)} :: 0 <= h < buckets ==> Union(s.stores, Stored(h)) == Bag(f, h, Flat(pages))
    ensures Flat(pages) == []
  {
    hide Flat;
    if Flat(pages) != [] {
      var all := Flat(pages);
      var x, rest := all[0], all[1..];
      var h: nat := f(x);
      assert all == [x] + rest;
      BagSnoc(f, h, [x], rest);
      BagOne(f, h, x);
      assert x in Bag(f, h, all) && Bag(f, h, all) == Union(s.stores, Stored(h));
      UnionEmpty(s.stores, Stored(h));
    }
  }

  /** One step of a thread. */
  method Step(pages: seq<Relation>, f: Tuple -> int, s: State, buckets: nat, shared: bool, t: nat) returns (s': State)
    requires Inv(pages, f, s, buckets, shared) && SlotsOk(pages, f, s, shared)
    requires Hashes(f, buckets) && t < |s.stage| && s.stage[t] != Finished
    ensures Inv(pages, f, s', buckets, shared) && SlotsOk(pages, f, s', shared) && |s'.stage| == |s.stage| &&
            s.log <= s'.log
    ensures s'.cur > s.cur || (s'.cur == s.cur && Sum(s'.stage, Rank(pages, s.cur)) < Sum(s.stage, Rank(pages, s.cur)))
    ensures !AtTuple(pages, s.stage[t]) && !s.stage[t].Copying? && NoAppends(s) ==> NoAppends(s')
  {
    hide Balanced, Sum, SlotsOk;
    assert StageOk(pages, s, t, s.stage[t]);
    match s.stage[t] {
      case Idle =>
        ReadKeeps(pages, f, s, buckets, shared, t);
        s' := ReadStep(pages, s, t);
        SlotsStay(pages, f, s, s', shared, t, s'.stage[t]);
        RankStep(pages, s.cur, s.stage, t, s'.stage[t]);
      case Trying(seen) =>
        SwapKeeps(pages, f, s, buckets, shared, t);
        s' := SwapStep(pages, s, t);
        SlotsStay(pages, f, s, s', shared, t, s'.stage[t]);
        if s'.cur == s.cur { RankStep(pages, s.cur, s.stage, t, s'.stage[t]); }
      case Working(p, i) =>
        ReserveKeeps(pages, f, s, buckets, shared, t);
        s' := ReserveStep(pages, f, s, shared, t);
        if i < |pages[p]| {
          SlotReserved(pages, f, s, shared, t);
        } else {
          SlotsStay(pages, f, s, s', shared, t, Idle);
        }
        RankStep(pages, s.cur, s.stage, t, s'.stage[t]);
      case Copying(_, _, _) =>
        CopyKeeps(pages, f, s, buckets, shared, t);
        s' := CopyStep(pages, f, s, shared, t);
        SlotFilled(pages, f, s, shared, t);
        RankStep(pages, s.cur, s.stage, t, s'.stage[t]);
    }
  }

  lemma Begin(pages: seq<Relation>, f: Tuple -> int, s: State, buckets: nat, shared: bool, h: nat)
    requires s.cur == 0 && |s.stores| == |s.stage| && h < buckets
    requires forall t :: 0 <= t < |s.stage| ==> s.stage[t] == Idle && s.stores[t] == seq(buckets, _ => [])
    ensures Balanced(pages, f, s, h)
  {
    assert pages[0..] == pages;
    UnionEmpty(s.stage, InHand(pages, f, h));
    UnionEmpty(s.stores, Stored(h));
  }

  lemma End(pages: seq<Relation>, f: Tuple -> int, s: State, buckets: nat, shared: bool, h: nat)
    requires Inv(pages, f, s, buckets, shared) && h < buckets &&
             forall t :: 0 <= t < |s.stage| ==> s.stage[t] == Finished
    ensures s.cur == |pages| && Union(s.stores, Stored(h)) == Bag(f, h, Flat(pages))
  {
    hide Bag;
    assert StageOk(pages, s, 0, s.stage[0]);
    assert Balanced(pages, f, s, h) && pages[|pages|..] == [];
    UnionEmpty(s.stage, InHand(pages, f, h));
    BagNone(f, h);
  }

  lemma NothingReserved(pages: seq<Relation>, f: Tuple -> int, s: State, shared: bool)
    requires forall t :: 0 <= t < |s.stage| ==> s.stage[t] == Idle
    requires forall t, h :: 0 <= t < |s.stores| && 0 <= h < |s.stores[t]| ==> s.stores[t][h] == []
    ensures SlotsOk(pages, f, s, shared) && NoAppends(s)
  {
  }

  /** All threads, in any schedule, until every one has found the list at its end, or until an
      append finds that not even a new page has room for a tuple. That happens, in every schedule,
      if and only if tuples do not fit and there is one. Otherwise the log has every page, once,
      and each with a thread that exists; every slot has been filled; and the tables hold exactly
      the tuples of their hash. */
  method TakeAll(pages: seq<Relation>, f: Tuple -> int, buckets: nat, nthreads: nat, shared: bool, fits: bool)
    returns (ok: bool, log: seq<(nat, nat)>, stores: seq<seq<seq<Slot>>>)
    requires Hashes(f, buckets) && nthreads >= 1
    ensures ok <==> fits || Flat(pages) == []
    ensures ok ==> |log| == |pages| && forall p :: 0 <= p < |log| ==> log[p].0 < nthreads && log[p].1 == p
    ensures ok ==> |stores| == nthreads && forall t :: 0 <= t < nthreads ==> |stores[t]| == buckets
    ensures ok ==> forall t, h, k :: InStores(stores, t, h, k) ==> stores[t][h][k].Filled?
    ensures ok && shared ==> forall t, h :: 0 <= t < nthreads && 0 <= h < buckets && t > 0 ==> stores[t][h] == []
    ensures ok ==>
              forall h {:trigger Stored(h)} :: 0 <= h < buckets ==> Union(stores, Stored(h)) == Bag(f, h, Flat(pages))
  {
    hide Balanced, Sum, Union, Bag, Flat, SlotsOk, NoAppends;
    var s := State(0, [], seq(nthreads, _ => Idle), seq(nthreads, _ => seq(buckets, _ => [])));
    forall h {:trigger Balanced(pages, f, s, h)} | 0 <= h < buckets
      ensures Balanced(pages, f, s, h)
    {
      Begin(pages, f, s, buckets, shared, h);
    }
    NothingReserved(pages, f, s, shared);
    while exists t :: 0 <= t < nthreads && s.stage[t] != Finished
      invariant Inv(pages, f, s, buckets, shared) && SlotsOk(pages, f, s, shared) && |s.stage| == nthreads
      invariant !fits ==> NoAppends(s)
      decreases |pages| - s.cur, Sum(s.stage, Rank(pages, s.cur))
    {
      var t :| 0 <= t < nthreads && s.stage[t] != Finished;
      if !fits && AtTuple(pages, s.stage[t]) {
        TupleSomewhere(pages, s.stage[t].page, s.stage[t].i);
        return false, s.log, s.stores;
      }
      NotCopying(s, t);
      s := Step(pages, f, s, buckets, shared, t);
    }
    End0(pages, f, s, buckets, shared);
    AllFilled(pages, f, s, shared);
    forall h {:trigger Stored(h)} | 0 <= h < buckets
      ensures Union(s.stores, Stored(h)) == Bag(f, h, Flat(pages))
    {
      End(pages, f, s, buckets, shared, h);
    }
    if !fits { NothingThere(pages, f, s, buckets); }
    ok, log, stores := true, s.log, s.stores;
  }

  lemma NotCopying(s: State, t: nat)
    requires t < |s.stage|
    ensures NoAppends(s) ==> !s.stage[t].Copying?
  {
  }

  lemma End0(pages: seq<Relation>, f: Tuple -> int, s: State, buckets: nat, shared: bool)
    requires Inv(pages, f, s, buckets, shared) && forall t :: 0 <= t < |s.stage| ==> s.stage[t] == Finished
    ensures s.cur == |pages|
  {
    assert StageOk(pages, s, 0, s.stage[0]);
  }

  /** ParallelPartitioner::split: all threads append to the same tables, whose pages have
      pagesize bytes. */
  method ParallelSplit(pages: seq<Relation>, f: Tuple -> int, buckets: nat, nthreads: nat, pagesize: nat,
                       tuplesize: nat)
    returns (ok: bool, result: seq<Relation>)
    requires Hashes(f, buckets) && nthreads >= 1
    ensures ok <==> tuplesize <= pagesize || Flat(pages) == []
    ensures ok ==> |result| == buckets
    ensures ok ==> forall h :: 0 <= h < buckets ==> multiset(result[h]) == multiset(Filter(Flat(pages), f, h))
  {
    hide Union, Flat, Filter;
    var log, stores;
    ok, log, stores := TakeAll(pages, f, buckets, nthreads, true, tuplesize <= pagesize);
    if !ok { return false, []; }
    result := seq(buckets, h requires 0 <= h < buckets => Tuples(stores[0][h]));
    forall h | 0 <= h < buckets
      ensures multiset(result[h]) == multiset(Filter(Flat(pages), f, h))
    {
      OnlyFirst(stores, h);
    }
  }

  lemma OnlyFirst(stores: seq<seq<seq<Slot>>>, h: nat)
    requires |stores| >= 1 && h < |stores[0]| && forall t :: 0 < t < |stores| ==> h < |stores[t]| && stores[t][h] == []
    ensures Union(stores, Stored(h)) == multiset(Tuples(stores[0][h]))
  {
    hide Union;
    var rest := stores[1..];
    assert stores == [stores[0]] + rest;
    UnionAppend([stores[0]], rest, Stored(h));
    UnionOne(stores[0], Stored(h));
    UnionEmpty(rest, Stored(h));
  }

  lemma NoTables(stores: seq<seq<seq<Slot>>>, h: nat)
    ensures Union(stores[..0], Stored(h)) == multiset{}
  {
  }

  lemma OneMoreTable(stores: seq<seq<seq<Slot>>>, h: nat, j: nat)
    requires j < |stores| && h < |stores[j]|
    ensures Union(stores[..j + 1], Stored(h)) == Union(stores[..j], Stored(h)) + multiset(Tuples(stores[j][h]))
  {
    hide Tuples;
    assert stores[..j + 1][..j] == stores[..j];
  }

  /** The tables of all threads for one hash, linked one behind the other. */
  method Concatenate(stores: seq<seq<seq<Slot>>>, h: nat) returns (table: Relation)
    requires forall t :: 0 <= t < |stores| ==> h < |stores[t]|
    ensures multiset(table) == Union(stores, Stored(h))
  {
    hide Union, Tuples, Stored;
    table := [];
    var j := 0;
    NoTables(stores, h);
    while j < |stores|
      invariant 0 <= j <= |stores| && multiset(table) == Union(stores[..j], Stored(h))
    {
      OneMoreTable(stores, h, j);
      table := table + Tuples(stores[j][h]);
      j := j + 1;
    }
    assert stores[..j] == stores;
  }

  /** The tables a thread links are those whose number leaves its own as the remainder. */
  ghost predicate Linked(result: seq<Relation>, goal: seq<multiset<Tuple>>, next: seq<nat>) {
    && |result| == |goal| && |next| >= 1
    && (forall t :: 0 <= t < |next| ==> next[t] % |next| == t)
    && forall h {:trigger result[h]} :: 0 <= h < |result| && h < next[h % |next|] ==> multiset(result[h]) == goal[h]
  }

  lemma LinkStep(result: seq<Relation>, goal: seq<multiset<Tuple>>, next: seq<nat>, t: nat, table: Relation)
    requires Linked(result, goal, next) && t < |next| && next[t] < |result| && multiset(table) == goal[next[t]]
    ensures Linked(result[next[t] := table], goal, next[t := next[t] + |next|])
  {
    var n, next', result' := |next|, next[t := next[t] + |next|], result[next[t] := table];
    SameRemainder(next[t], n);
    forall h {:trigger result'[h]} | 0 <= h < |result| && h < next'[h % n] ensures multiset(result'[h]) == goal[h] {
      if h % n == t && h >= next[t] { NoneBetween(next[t], h, n); }
      assert h != next[t] ==> result'[h] == result[h];
    }
  }

  lemma SameRemainder(x: nat, n: nat)
    requires n >= 1
    ensures (x + n) % n == x % n
  {
    assert x + n == (x / n + 1) * n + x % n;
    KeyBits.RemainderUnique(x + n, n, x / n + 1, x % n);
  }

  lemma NoneBetween(x: nat, h: nat, n: nat)
    requires n >= 1 && x <= h < x + n && h % n == x % n
    ensures h == x
  {
    var r, d := x % n, h - x;
    assert x == (x / n) * n + r;
    if r + d < n {
      KeyBits.RemainderUnique(h, n, x / n, r + d);
    } else {
      KeyBits.RemainderUnique(h, n, x / n + 1, r + d - n);
    }
  }

  /** IndependentPartitioner::split: own tables first, and after the barrier every table is
      linked by one thread, in any schedule. The pages of the own tables have only
      pagesize / nthreads bytes. */
  method IndependentSplit(pages: seq<Relation>, f: Tuple -> int, buckets: nat, nthreads: nat, pagesize: nat,
                          tuplesize: nat)
    returns (ok: bool, result: seq<Relation>)
    requires Hashes(f, buckets) && nthreads >= 1
    ensures ok <==> tuplesize <= pagesize / nthreads || Flat(pages) == []
    ensures ok ==> |result| == buckets
    ensures ok ==> forall h :: 0 <= h < buckets ==> multiset(result[h]) == multiset(Filter(Flat(pages), f, h))
  {
    hide Union, Flat, Filter, Linked, Tuples, Stored, InStores;
    var log, stores;
    ok, log, stores := TakeAll(pages, f, buckets, nthreads, false, tuplesize <= pagesize / nthreads);
    if !ok { return false, []; }
    ghost var goal := seq(buckets, h requires 0 <= h => multiset(Filter(Flat(pages), f, h)));
    result := seq(buckets, _ => []);
    var next: seq<nat> := seq(nthreads, t requires 0 <= t => t);
    LinkBegin(result, goal, next);
    while exists t :: 0 <= t < nthreads && next[t] < buckets
      invariant |next| == nthreads && |result| == buckets && Linked(result, goal, next)
      decreases Sum(next, Behind(buckets))
    {
      var t :| 0 <= t < nthreads && next[t] < buckets;
      var table := Concatenate(stores, next[t]);
      assert multiset(table) == Union(stores, Stored(next[t]));
      LinkStep(result, goal, next, t, table);
      SumUpdate<nat>(next, t, next[t] + nthreads, Behind(buckets));
      result := result[next[t] := table];
      next := next[t := next[t] + nthreads];
    }
    LinkEnd(result, goal, next);
  }

  ghost function Behind(buckets: nat): nat -> nat {
    (x: nat) => if x < buckets then buckets - x else 0
  }

  lemma LinkBegin(result: seq<Relation>, goal: seq<multiset<Tuple>>, next: seq<nat>)
    requires |result| == |goal| && |next| >= 1 && forall t :: 0 <= t < |next| ==> next[t] == t
    ensures Linked(result, goal, next)
  {
    forall h | 0 <= h < |result| ensures !(h < next[h % |next|]) { RemainderAtMost(h, |next|); }
  }

  lemma RemainderAtMost(h: nat, n: nat)
    requires n >= 1
    ensures h % n <= h
  {
    assert h == (h / n) * n + h % n && (h / n) * n >= 0;
  }

  lemma LinkEnd(result: seq<Relation>, goal: seq<multiset<Tuple>>, next: seq<nat>)
    requires Linked(result, goal, next) && forall t :: 0 <= t < |next| ==> next[t] >= |result|
    ensures forall h :: 0 <= h < |result| ==> multiset(result[h]) == goal[h]
  {
    forall h | 0 <= h < |result| ensures multiset(result[h]) == goal[h] { assert next[h % |next|] >= |result|; }
  }
}
