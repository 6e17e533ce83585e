/** The table as a whole: which overflow bucket belongs to which head, where a tuple goes, and
    how a key is looked up. */
module HashTable {
  import opened BucketChains
  import opened JoinSpec
  import opened Options

  /** A table: its heads and the overflow buckets of all chains; chains and owner say, for the
      proofs, which overflow buckets stand behind which head. */
  datatype Table = Table(heads: seq<Bucket>, mem: Memory)

  datatype Plan = Plan(chains: seq<seq<Ref>>, owner: map<Ref, nat>)

  /** Every head has a chain of the right shape, and every overflow bucket is in one chain. */
  ghost predicate TableOk(t: Table, p: Plan) {
    && |p.chains| == |t.heads| && p.owner.Keys == t.mem.Keys
    && forall idx {:trigger p.chains[idx]} ::
           0 <= idx < |t.heads| ==> Shape(t.heads[idx], t.mem, p.chains[idx]) && Owned(p.owner, p.chains[idx], idx)
  }

  ghost predicate Owned(owner: map<Ref, nat>, chain: seq<Ref>, idx: nat) {
    forall i :: 0 <= i < |chain| ==> chain[i] in owner && owner[chain[i]] == idx
  }

  ghost function Contents(t: Table, p: Plan, idx: nat): multiset<Tuple>
    requires TableOk(t, p) && idx < |t.heads|
  {
    assert p.chains[idx] == p.chains[idx];
    Chained(t.heads[idx], t.mem, p.chains[idx])
  }

  /** Writing one tuple into the chain of idx, given what has been read of its head and of the
      first bucket behind it. */
  function Store(t: Table, idx: nat, head: Bucket, first: Option<Bucket>, x: Tuple, fresh_: Ref): Table
    requires idx < |t.heads|
  {
    match Room(head, first)
    case InHead => t.(heads := t.heads[idx := head.(tuples := head.tuples + [x])])
    case InFirst(r) =>
      if first.Some? then t.(mem := t.mem[r := first.value.(tuples := first.value.tuples + [x])]) else t
    case InNew => Table(t.heads[idx := head.(next := Some(fresh_))], t.mem[fresh_ := Bucket([x], head.next)])
  }

  function First(t: Table, idx: nat): Option<Bucket>
    requires idx < |t.heads|
  {
    var next := t.heads[idx].next;
    if next.Some? && next.value in t.mem then Some(t.mem[next.value]) else None
  }

  ghost function PlanAfter(p: Plan, idx: nat, head: Bucket, first: Option<Bucket>, fresh_: Ref): Plan
    requires idx < |p.chains|
  {
    if Room(head, first).InNew? then Plan(p.chains[idx := [fresh_] + p.chains[idx]], p.owner[fresh_ := idx]) else p
  }

  /** The chain of idx after a store, and what it then contains. */
  lemma StoreHere(t: Table, p: Plan, idx: nat, x: Tuple, fresh_: Ref)
    requires TableOk(t, p) && idx < |t.heads| && fresh_ !in t.mem
    ensures var t', p' := Store(t, idx, t.heads[idx], First(t, idx), x, fresh_),
                PlanAfter(p, idx, t.heads[idx], First(t, idx), fresh_);

            && |t'.heads| == |t.heads| && |p'.chains| == |p.chains| && p'.owner.Keys == t'.mem.Keys
            && Shape(t'.heads[idx], t'.mem, p'.chains[idx]) && Owned(p'.owner, p'.chains[idx], idx)
            && Chained(t'.heads[idx], t'.mem, p'.chains[idx]) == Contents(t, p, idx) + multiset{x}
  {
    hide Shape, Chained;
    var head, chain := t.heads[idx], p.chains[idx];
    ShapeHas(head, t.mem, chain);
    match Room(head, First(t, idx))
    case InHead =>
      InsertHead(head, t.mem, chain, x);
    case InFirst(r) =>
      InsertFirst(head, t.mem, chain, x);
    case InNew =>
      InsertNew(head, t.mem, chain, x, fresh_);
  }

  lemma ShapeHas(head: Bucket, mem: Memory, chain: seq<Ref>)
    requires Shape(head, mem, chain)
    ensures |head.tuples| <= BUCKET_SIZE && head.next == NextOf(chain, 0)
    ensures forall i :: 0 <= i < |chain| ==> chain[i] in mem && 1 <= |mem[chain[i]].tuples| <= BUCKET_SIZE
  {
  }

  /** The other chains after a store. */
  lemma StoreElsewhere(t: Table, p: Plan, idx: nat, x: Tuple, fresh_: Ref, k: nat)
    requires TableOk(t, p) && idx < |t.heads| && fresh_ !in t.mem && k < |t.heads| && k != idx
    ensures var t', p' := Store(t, idx, t.heads[idx], First(t, idx), x, fresh_),
                PlanAfter(p, idx, t.heads[idx], First(t, idx), fresh_);

            && |t'.heads| == |t.heads| && |p'.chains| == |p.chains| && t'.heads[k] == t.heads[k] &&
                 p'.chains[k] == p.chains[k]
            && Shape(t'.heads[k], t'.mem, p'.chains[k]) && Owned(p'.owner, p'.chains[k], k)
            && Chained(t'.heads[k], t'.mem, p'.chains[k]) == Contents(t, p, k)
            && First(t', k) == First(t, k)
  {
    hide Shape, Chained;
    var t' := Store(t, idx, t.heads[idx], First(t, idx), x, fresh_);
    var chain := p.chains[k];
    assert p.chains[idx] == p.chains[idx];
    ShapeHas(t.heads[idx], t.mem, p.chains[idx]);
    ShapeHas(t.heads[k], t.mem, chain);
    Untouched(t.heads[k], t.mem, t'.mem, chain);
  }

  /** One store into a table: the chain of idx has one more tuple, the others are as before. */
  lemma StoreStep(t: Table, p: Plan, idx: nat, x: Tuple, fresh_: Ref)
    requires TableOk(t, p) && idx < |t.heads| && fresh_ !in t.mem
    ensures var t', p' := Store(t, idx, t.heads[idx], First(t, idx), x, fresh_),
                PlanAfter(p, idx, t.heads[idx], First(t, idx), fresh_);

            && |t'.heads| == |t.heads| && TableOk(t', p')
            && (forall k ::
                   0 <= k < |t.heads| ==>
                     Contents(t', p', k) == Contents(t, p, k) + if k == idx then multiset{x} else multiset{})
            && (forall k :: 0 <= k < |t.heads| && k != idx ==> t'.heads[k] == t.heads[k] && First(t', k) == First(t, k))
            && (forall r :: r in t'.mem ==> r in t.mem || r == fresh_)
  {
    hide Shape, Chained, Owned, Room, PlanAfter, Store;
    StoreHere(t, p, idx, x, fresh_);
    var t', p' := Store(t, idx, t.heads[idx], First(t, idx), x, fresh_),
        PlanAfter(p, idx, t.heads[idx], First(t, idx), fresh_);
    forall k {:trigger p'.chains[k]} | 0 <= k < |t.heads|
      ensures Shape(t'.heads[k], t'.mem, p'.chains[k]) && Owned(p'.owner, p'.chains[k], k)
    {
      if k != idx { StoreElsewhere(t, p, idx, x, fresh_, k); }
    }
    forall k | 0 <= k < |t.heads|
      ensures Contents(t', p', k) == Contents(t, p, k) + if k == idx then multiset{x} else multiset{}
      ensures k != idx ==> t'.heads[k] == t.heads[k] && First(t', k) == First(t, k)
    {
      if k != idx { StoreElsewhere(t, p, idx, x, fresh_, k); }
    }
    StoreMemory(t, idx, x, fresh_);
  }

  lemma StoreMemory(t: Table, idx: nat, x: Tuple, fresh_: Ref)
    requires idx < |t.heads|
    ensures forall r :: r in Store(t, idx, t.heads[idx], First(t, idx), x, fresh_).mem ==> r in t.mem || r == fresh_
  {
  }

  // ----- allocation and lookup -----

  method Allocate(num: nat) returns (t: Table, ghost p: Plan)
    ensures |t.heads| == num && TableOk(t, p) && t.mem == map[] &&
            forall k :: 0 <= k < num ==> Contents(t, p, k) == multiset{}
  {
    t := Table(seq(num, _ => Bucket([], None)), map[]);
    p := Plan(seq(num, _ => []), map[]);
  }

  ghost predicate HasKey(s: multiset<Tuple>, key: int) {
    exists x :: x in s && x.key == key
  }

  /** Look through the tuples of one bucket. */
  method FindIn(tuples: seq<Tuple>, key: int) returns (flag: bool)
    ensures flag <==> HasKey(multiset(tuples), key)
  {
    flag := false;
    var j := 0;
    while j < |tuples|
      invariant 0 <= j <= |tuples| && !flag && forall i :: 0 <= i < j ==> tuples[i].key != key
    {
      if key == tuples[j].key {
        flag := true;
        assert tuples[j] in multiset(tuples);
        return;
      }
      j := j + 1;
    }
  }

  lemma HasKeyBehind(mem: Memory, chain: seq<Ref>, key: int)
    requires chain != [] && forall i :: 0 <= i < |chain| ==> chain[i] in mem
    ensures HasKey(Behind(mem, chain), key) <==>
            HasKey(multiset(mem[chain[0]].tuples), key) || HasKey(Behind(mem, chain[1..]), key)
  {
    HasKeySum(multiset(mem[chain[0]].tuples), Behind(mem, chain[1..]), key);
  }

  lemma HasKeySum(a: multiset<Tuple>, b: multiset<Tuple>, key: int)
    ensures HasKey(a + b, key) <==> HasKey(a, key) || HasKey(b, key)
  {
    if HasKey(a, key) { var x :| x in a && x.key == key; assert x in a + b; }
    if HasKey(b, key) { var x :| x in b && x.key == key; assert x in a + b; }
  }

  /** Following next from b leads through exactly these buckets. */
  ghost predicate Leads(mem: Memory, b: Option<Ref>, rest: seq<Ref>) {
    b == NextOf(rest, 0) && forall i :: 0 <= i < |rest| ==> rest[i] in mem && mem[rest[i]].next == NextOf(rest, i + 1)
  }

  lemma LeadsOn(mem: Memory, b: Option<Ref>, rest: seq<Ref>)
    requires Leads(mem, b, rest) && b.Some?
    ensures rest != [] && b.value == rest[0] && b.value in mem && Leads(mem, mem[b.value].next, rest[1..])
  {
    var rest' := rest[1..];
    forall i | 0 <= i < |rest'| ensures rest'[i] in mem && mem[rest'[i]].next == NextOf(rest', i + 1) {
      assert rest'[i] == rest[i + 1] && NextOf(rest', i + 1) == NextOf(rest, i + 2);
    }
  }

  /** What is still to be searched decides, unless the key has been found. */
  ghost predicate Undecided(mem: Memory, rest: seq<Ref>, key: int, flag: bool, answer: bool) {
    (forall i :: 0 <= i < |rest| ==> rest[i] in mem) && (answer <==> flag || HasKey(Behind(mem, rest), key))
  }

  /** The overflow buckets a search goes through: none if the head has the key, otherwise those
      of the chain up to the first that has it. */
  ghost function Walked(t: Table, p: Plan, idx: nat, key: int): seq<Ref>
    requires TableOk(t, p) && idx < |t.heads|
  {
    assert p.chains[idx] == p.chains[idx];
    if HasKey(multiset(t.heads[idx].tuples), key) then [] else WalkedBehind(t.mem, p.chains[idx], key)
  }

  ghost function WalkedBehind(mem: Memory, chain: seq<Ref>, key: int): seq<Ref>
    requires forall i :: 0 <= i < |chain| ==> chain[i] in mem
  {
    if chain == [] then []
    else if HasKey(multiset(mem[chain[0]].tuples), key) then [chain[0]]
    else [chain[0]] + WalkedBehind(mem, chain[1..], key)
  }

  lemma {:induction false} WalkedBehindInside(mem: Memory, chain: seq<Ref>, key: int)
    requires forall i :: 0 <= i < |chain| ==> chain[i] in mem
    ensures forall r :: r in WalkedBehind(mem, chain, key) ==> r in mem
  {
    if chain != [] { WalkedBehindInside(mem, chain[1..], key); }
  }

  lemma WalkedInside(t: Table, p: Plan, idx: nat, key: int)
    requires TableOk(t, p) && idx < |t.heads|
    ensures forall r :: r in Walked(t, p, idx, key) ==> r in t.mem
  {
    assert p.chains[idx] == p.chains[idx];
    WalkedBehindInside(t.mem, p.chains[idx], key);
  }

  /** What has been read, and what is still to be read unless the key has been found. */
  ghost predicate Reading(mem: Memory, rest: seq<Ref>, key: int, flag: bool, read: seq<Ref>, all: seq<Ref>) {
    && (forall i :: 0 <= i < |rest| ==> rest[i] in mem)
    && all == read + if flag then [] else WalkedBehind(mem, rest, key)
  }

  lemma ReadingOn(mem: Memory, rest: seq<Ref>, key: int, flag: bool, read: seq<Ref>, all: seq<Ref>)
    requires Reading(mem, rest, key, false, read, all) && rest != []
    requires flag == HasKey(multiset(mem[rest[0]].tuples), key)
    ensures Reading(mem, rest[1..], key, flag, read + [rest[0]], all)
  {
    hide HasKey;
    var more := WalkedBehind(mem, rest[1..], key);
    assert (read + [rest[0]]) + more == read + ([rest[0]] + more);
    assert (read + [rest[0]]) + [] == read + [rest[0]];
  }

  lemma ReadingBegins(t: Table, p: Plan, idx: nat, key: int)
    requires TableOk(t, p) && idx < |t.heads|
    ensures Reading(t.mem, p.chains[idx], key, HasKey(multiset(t.heads[idx].tuples), key), [], Walked(t, p, idx, key))
  {
    hide HasKey, WalkedBehind;
    assert p.chains[idx] == p.chains[idx];
    assert [] + Walked(t, p, idx, key) == Walked(t, p, idx, key);
  }

  lemma ReadingEnds(mem: Memory, rest: seq<Ref>, key: int, flag: bool, read: seq<Ref>, all: seq<Ref>)
    requires Reading(mem, rest, key, flag, read, all) && (flag || rest == [])
    ensures read == all
  {
  }

  /** The search of probe_hashtable for one key: it stops at the first tuple found. */
  method Lookup(t: Table, idx: nat, key: int, ghost p: Plan) returns (flag: bool, ghost read: seq<Ref>)
    requires TableOk(t, p) && idx < |t.heads|
    ensures flag <==> HasKey(Contents(t, p, idx), key)
    ensures read == Walked(t, p, idx, key)
  {
    hide HasKey, Behind, Reading, Walked, WalkedBehind;
    ghost var rest, answer := p.chains[idx], HasKey(Contents(t, p, idx), key);
    HasKeySum(multiset(t.heads[idx].tuples), Behind(t.mem, rest), key);
    flag := FindIn(t.heads[idx].tuples, key);
    var b := t.heads[idx].next;
    read := [];
    ghost var all := Walked(t, p, idx, key);
    ReadingBegins(t, p, idx, key);
    while !flag && b.Some?
      invariant Leads(t.mem, b, rest) && Undecided(t.mem, rest, key, flag, answer)
      invariant Reading(t.mem, rest, key, flag, read, all)
      decreases |rest|
    {
      LeadsOn(t.mem, b, rest);
      HasKeyBehind(t.mem, rest, key);
      flag := FindIn(t.mem[b.value].tuples, key);
      ReadingOn(t.mem, rest, key, flag, read, all);
      read := read + [b.value];
      b := t.mem[b.value].next;
      rest := rest[1..];
    }
    NothingBehind(t.mem, rest, key);
    ReadingEnds(t.mem, rest, key, flag, read, all);
  }

  lemma NothingBehind(mem: Memory, rest: seq<Ref>, key: int)
    ensures rest == [] ==> !HasKey(Behind(mem, rest), key)
  {
  }
}
