/** The parallel shuffle of random_unique_gen_thread in generator.c: every thread goes down its
    part of the relation and exchanges each key with one at a random smaller position anywhere
    in the relation, holding the locks of both positions. */
module LockedShuffle {
  import opened Sums

  /** A thread is about to draw a partner, holds the lock of its own position k, holds both
      locks, or has read both keys. */
  datatype Stage = Idle | First(j: nat) | Both(j: nat) | Read(j: nat, atK: int, atJ: int)

  /** Thread t is at position k[t]. */
  datatype State = State(keys: seq<int>, locks: seq<bool>, stage: seq<Stage>, k: seq<nat>)

  predicate Holds(s: State, t: nat, i: nat)
    requires t < |s.stage| == |s.k|
  {
    (s.stage[t] != Idle && i == s.k[t]) || ((s.stage[t].Both? || s.stage[t].Read?) && i == s.stage[t].j)
  }

  /** Where thread t stands, with lo[t] the first position of its part. */
  ghost predicate ThreadOk(s: State, lo: seq<nat>, t: nat)
    requires t < |s.stage| == |s.k| == |lo|
  {
    && lo[t] <= s.k[t] < |s.keys|
    && (s.stage[t] != Idle ==> lo[t] < s.k[t] && s.stage[t].j < s.k[t])
    && (s.stage[t].Read? ==> s.stage[t].atK == s.keys[s.k[t]] && s.stage[t].atJ == s.keys[s.stage[t].j])
  }

  const NOBODY := -1

  /** Every lock that is set is held by one thread, its owner. What a thread has read under
      its locks is still so. */
  ghost predicate Inv(s: State, lo: seq<nat>, owner: seq<int>) {
    && |s.stage| == |s.k| == |lo| && |owner| == |s.locks| == |s.keys|
    && (forall t {:trigger ThreadOk(s, lo, t)} :: 0 <= t < |lo| ==> ThreadOk(s, lo, t))
    && (forall t, i {:trigger Holds(s, t, i)} ::
           0 <= t < |lo| && 0 <= i < |owner| ==> (Holds(s, t, i) <==> owner[i] == t))
    && (forall i {:trigger owner[i]} ::
           0 <= i < |owner| ==> (s.locks[i] <==> owner[i] != NOBODY) && NOBODY <= owner[i] < |lo|)
  }

  // ----- what the exchanges come to -----

  /** keys with its elements at k and j swapped. */
  ghost function Swap(keys: seq<int>, k: nat, j: nat): (r: seq<int>)
    requires k < |keys| && j < |keys|
    ensures |r| == |keys| && r[k] == keys[j] && r[j] == keys[k]
    ensures forall i :: 0 <= i < |keys| && i != k && i != j ==> r[i] == keys[i]
  {
    keys[k := keys[j]][j := keys[k]]
  }

  /** Thread t has exchanged the keys at k and j. */
  datatype Exchanged = Exchanged(t: nat, k: nat, j: nat)

  /** Every thread exchanges with a smaller position. */
  ghost predicate Downwards(log: seq<Exchanged>, n: nat, threads: nat) {
    forall i :: 0 <= i < |log| ==> log[i].j < log[i].k < n && log[i].t < threads
  }

  /** The exchanges carried out one after the other. */
  ghost function Replayed(keys: seq<int>, log: seq<Exchanged>, threads: nat): (r: seq<int>)
    requires Downwards(log, |keys|, threads)
    ensures |r| == |keys|
  {
    if log == [] then keys
    else
      var last := log[|log|-1];
      Swap(Replayed(keys, log[..|log|-1], threads), last.k, last.j)
  }

  /** The positions thread t has been at, in this order. */
  ghost function Visited(log: seq<Exchanged>, t: nat): seq<nat> {
    if log == [] then []
    else Visited(log[..|log|-1], t) + if log[|log|-1].t == t then [log[|log|-1].k] else []
  }

  /** from, from - 1, ..., to + 1. */
  ghost function CountDown(from: nat, to: nat): (r: seq<nat>)
    requires to <= from
    ensures |r| == from - to && forall i :: 0 <= i < |r| ==> r[i] == from - i
  {
    seq(from - to, i requires 0 <= i < from - to => from - i)
  }

  /** The keys are the old ones after the exchanges so far, and thread t has come from the end
      of its part down to k[t]. */
  ghost predicate Logged(s: State, keys: seq<int>, hi: seq<nat>, log: seq<Exchanged>) {
    && |s.k| == |hi| && Downwards(log, |keys|, |hi|) && s.keys == Replayed(keys, log, |hi|)
    && forall t {:trigger s.k[t]} :: 0 <= t < |hi| ==> s.k[t] < hi[t] && Visited(log, t) == CountDown(hi[t] - 1, s.k[t])
  }

  lemma LoggedMore(s: State, s': State, keys: seq<int>, hi: seq<nat>, log: seq<Exchanged>, e: Exchanged)
    requires Logged(s, keys, hi, log) && e.t < |hi| && e.j < e.k == s.k[e.t] < |s.keys|
    requires s'.keys == Swap(s.keys, e.k, e.j) && s'.k == s.k[e.t := e.k - 1]
    ensures Logged(s', keys, hi, log + [e])
  {
    var log' := log + [e];
    assert log'[..|log|] == log;
    forall t {:trigger s'.k[t]} | 0 <= t < |hi|
      ensures s'.k[t] < hi[t] && Visited(log', t) == CountDown(hi[t] - 1, s'.k[t])
    {
      assert s.k[t] < hi[t] && Visited(log, t) == CountDown(hi[t] - 1, s.k[t]);
      if t == e.t { assert CountDown(hi[t] - 1, e.k - 1) == CountDown(hi[t] - 1, e.k) + [e.k]; }
    }
  }

  // ----- steps -----

  /** Draw a partner and take the lock of the own position, if it is free. */
  function LockFirst(s: State, t: nat, j: nat): State
    requires t < |s.stage| == |s.k| && s.k[t] < |s.locks|
  {
    s.(stage := s.stage[t := First(j)], locks := s.locks[s.k[t] := true])
  }

  lemma LockFirstKeeps(s: State, lo: seq<nat>, owner: seq<int>, t: nat, j: nat)
    requires Inv(s, lo, owner) && t < |lo| && s.stage[t] == Idle && lo[t] < s.k[t] && j < s.k[t] &&
             s.k[t] < |s.locks| && !s.locks[s.k[t]]
    ensures Inv(LockFirst(s, t, j), lo, owner[s.k[t] := t])
  {
    var s', owner' := LockFirst(s, t, j), owner[s.k[t] := t];
    forall u {:trigger ThreadOk(s', lo, u)} | 0 <= u < |lo| ensures ThreadOk(s', lo, u) { assert ThreadOk(s, lo, u); }
    forall u, i {:trigger Holds(s', u, i)} | 0 <= u < |lo| && 0 <= i < |owner|
      ensures Holds(s', u, i) <==> owner'[i] == u
    {
      assert Holds(s, u, i) <==> owner[i] == u;
    }
  }

  /** Take the lock of the partner, if it is free. */
  function LockSecond(s: State, t: nat): State
    requires t < |s.stage| == |s.k| && s.stage[t].First? && s.stage[t].j < |s.locks|
  {
    s.(stage := s.stage[t := Both(s.stage[t].j)], locks := s.locks[s.stage[t].j := true])
  }

  lemma LockSecondKeeps(s: State, lo: seq<nat>, owner: seq<int>, t: nat)
    requires Inv(s, lo, owner) && t < |lo| && s.stage[t].First? && s.stage[t].j < |s.locks| && !s.locks[s.stage[t].j]
    ensures Inv(LockSecond(s, t), lo, owner[s.stage[t].j := t])
  {
    var s', owner' := LockSecond(s, t), owner[s.stage[t].j := t];
    forall u {:trigger ThreadOk(s', lo, u)} | 0 <= u < |lo| ensures ThreadOk(s', lo, u) { assert ThreadOk(s, lo, u); }
    forall u, i {:trigger Holds(s', u, i)} | 0 <= u < |lo| && 0 <= i < |owner|
      ensures Holds(s', u, i) <==> owner'[i] == u
    {
      assert Holds(s, u, i) <==> owner[i] == u;
    }
  }

  function ReadBoth(s: State, t: nat): State
    requires t < |s.stage| == |s.k| && s.stage[t].Both? && s.stage[t].j < |s.keys| && s.k[t] < |s.keys|
  {
    s.(stage := s.stage[t := Read(s.stage[t].j, s.keys[s.k[t]], s.keys[s.stage[t].j])])
  }

  lemma ReadBothKeeps(s: State, lo: seq<nat>, owner: seq<int>, t: nat)
    requires Inv(s, lo, owner) && t < |lo| && s.stage[t].Both?
    ensures s.stage[t].j < |s.keys| && s.k[t] < |s.keys| && Inv(ReadBoth(s, t), lo, owner)
  {
    assert ThreadOk(s, lo, t);
    var s' := ReadBoth(s, t);
    forall u {:trigger ThreadOk(s', lo, u)} | 0 <= u < |lo| ensures ThreadOk(s', lo, u) { assert ThreadOk(s, lo, u); }
    forall u, i {:trigger Holds(s', u, i)} | 0 <= u < |lo| && 0 <= i < |owner|
      ensures Holds(s', u, i) <==> owner[i] == u
    {
      assert Holds(s, u, i) <==> owner[i] == u;
    }
  }

  /** Write both keys, release both locks, and go on to the next position down. */
  function Exchange(s: State, t: nat): State
    requires t < |s.stage| == |s.k| && s.stage[t].Read? && s.stage[t].j < |s.keys| == |s.locks| && 0 < s.k[t] < |s.keys|
  {
    var (k, j) := (s.k[t], s.stage[t].j);
    State(s.keys[k := s.stage[t].atJ][j := s.stage[t].atK], s.locks[j := false][k := false], s.stage[t := Idle],
      s.k[t := k - 1])
  }

  lemma ExchangeKeeps(s: State, lo: seq<nat>, owner: seq<int>, t: nat)
    requires Inv(s, lo, owner) && t < |lo| && s.stage[t].Read?
    ensures s.stage[t].j < s.k[t] < |s.keys| && Inv(Exchange(s, t), lo, owner[s.stage[t].j := NOBODY][s.k[t] := NOBODY])
    ensures Exchange(s, t).keys == Swap(s.keys, s.k[t], s.stage[t].j)
    ensures multiset(Exchange(s, t).keys) == multiset(s.keys)
  {
    assert ThreadOk(s, lo, t);
    var (k, j) := (s.k[t], s.stage[t].j);
    var s', owner' := Exchange(s, t), owner[j := NOBODY][k := NOBODY];
    forall u {:trigger ThreadOk(s', lo, u)} | 0 <= u < |lo| ensures ThreadOk(s', lo, u) {
      assert ThreadOk(s, lo, u);
      if u != t && s.stage[u].Read? {
        assert Holds(s, u, s.k[u]) && Holds(s, u, s.stage[u].j) && Holds(s, t, k) && Holds(s, t, j);
      }
    }
    forall u, i {:trigger Holds(s', u, i)} | 0 <= u < |lo| && 0 <= i < |owner|
      ensures Holds(s', u, i) <==> owner'[i] == u
    {
      assert Holds(s, u, i) <==> owner[i] == u;
      assert Holds(s, t, i) <==> owner[i] == t;
    }
    SwappedKeys(s.keys, k, j);
  }

  lemma SwappedKeys(keys: seq<int>, k: nat, j: nat)
    requires j < k < |keys|
    ensures multiset(Swap(keys, k, j)) == multiset(keys)
  {
    var front, middle, back := keys[..j], keys[j+1..k], keys[k+1..];
    assert keys == front + [keys[j]] + middle + [keys[k]] + back;
    assert Swap(keys, k, j) == front + [keys[k]] + middle + [keys[j]] + back;
    PartsOf(front, keys[j], middle, keys[k], back);
    PartsOf(front, keys[k], middle, keys[j], back);
  }

  lemma PartsOf(front: seq<int>, x: int, middle: seq<int>, y: int, back: seq<int>)
    ensures multiset(front + [x] + middle + [y] + back) ==
            multiset(front) + multiset(middle) + multiset(back) + multiset{x, y}
  {
    assert multiset(front + [x]) == multiset(front) + multiset{x};
    assert multiset(front + [x] + middle) == multiset(front + [x]) + multiset(middle);
    assert multiset(front + [x] + middle + [y]) == multiset(front + [x] + middle) + multiset{y};
  }

  // ----- no deadlock -----

  predicate Unfinished(s: State, lo: seq<nat>, t: nat)
    requires t < |s.stage| == |s.k| == |lo|
  {
    s.stage[t] != Idle || lo[t] < s.k[t]
  }

  predicate CanMove(s: State, lo: seq<nat>, t: nat)
    requires t < |s.stage| == |s.k| == |lo|
  {
    match s.stage[t]
    case Idle => lo[t] < s.k[t] < |s.locks| && !s.locks[s.k[t]]
    case First(j) => j < |s.locks| && !s.locks[j]
    case _ => true
  }

  /** A thread waiting for its second lock waits for a smaller position than the one it holds,
      so following whoever holds it ends at somebody who can move. */
  lemma {:induction false} FollowHolder(s: State, lo: seq<nat>, owner: seq<int>, t: nat) returns (u: nat)
    requires Inv(s, lo, owner) && t < |lo| && s.stage[t] != Idle
    ensures u < |lo| && CanMove(s, lo, u)
    decreases s.k[t]
  {
    assert ThreadOk(s, lo, t);
    u := t;
    if s.stage[t].First? && s.locks[s.stage[t].j] {
      var holder := owner[s.stage[t].j];
      assert Holds(s, holder, s.stage[t].j);
      if s.stage[holder].First? {
        u := FollowHolder(s, lo, owner, holder);
      } else {
        u := holder;
      }
    }
  }

  /** While any thread has something to do, some thread can take a step. */
  lemma SomeoneCanMove(s: State, lo: seq<nat>, owner: seq<int>, t: nat) returns (u: nat)
    requires Inv(s, lo, owner) && t < |lo| == |s.stage| == |s.k| && Unfinished(s, lo, t)
    ensures u < |lo| && CanMove(s, lo, u)
  {
    assert ThreadOk(s, lo, t);
    u := t;
    if s.stage[t] != Idle {
      u := FollowHolder(s, lo, owner, t);
    } else if s.locks[s.k[t]] {
      var holder := owner[s.k[t]];
      assert Holds(s, holder, s.k[t]);
      u := FollowHolder(s, lo, owner, holder);
    }
  }

  // ----- every run -----

  ghost function Rank(): Stage -> nat {
    (g: Stage) => if g.Idle? then 3 else if g.First? then 2 else if g.Both? then 1 else 0
  }

  lemma RankStep(stage: seq<Stage>, t: nat, g: Stage)
    requires t < |stage| && Rank()(g) < Rank()(stage[t])
    ensures Sum(stage[t := g], Rank()) < Sum(stage, Rank())
  {
    SumUpdate(stage, t, g, Rank());
  }

  /** One step of a thread that can move; the partner is any smaller position. */
  method Step(s: State, lo: seq<nat>, t: nat, ghost owner: seq<int>, ghost keys: seq<int>, ghost hi: seq<nat>,
              ghost log: seq<Exchanged>)
    returns (s': State, ghost owner': seq<int>, ghost log': seq<Exchanged>)
    requires Inv(s, lo, owner) && t < |lo| == |s.stage| == |s.k| && CanMove(s, lo, t) && Logged(s, keys, hi, log)
    ensures Inv(s', lo, owner') && multiset(s'.keys) == multiset(s.keys) && Logged(s', keys, hi, log')
    ensures Sum(s'.k, Itself()) < Sum(s.k, Itself()) || (s'.k == s.k && Sum(s'.stage, Rank()) < Sum(s.stage, Rank()))
  {
    hide Inv, Sum, Replayed, Visited, CountDown, Swap, Downwards;
    SameSizes(s, lo, owner);
    assert ThreadOk(s, lo, t);
    assert |hi| == |s.k|;
    log' := log;
    match s.stage[t] {
      case Idle =>
        var j :| 0 <= j < s.k[t];
        LockFirstKeeps(s, lo, owner, t, j);
        RankStep(s.stage, t, First(j));
        s', owner' := LockFirst(s, t, j), owner[s.k[t] := t];
      case First(j) =>
        LockSecondKeeps(s, lo, owner, t);
        RankStep(s.stage, t, Both(j));
        s', owner' := LockSecond(s, t), owner[j := t];
      case Both(j) =>
        ReadBothKeeps(s, lo, owner, t);
        s', owner' := ReadBoth(s, t), owner;
        RankStep(s.stage, t, s'.stage[t]);
      case Read(j, _, _) =>
        ExchangeKeeps(s, lo, owner, t);
        s', owner' := Exchange(s, t), owner[j := NOBODY][s.k[t] := NOBODY];
        log' := log + [Exchanged(t, s.k[t], j)];
        LoggedMore(s, s', keys, hi, log, Exchanged(t, s.k[t], j));
        SumUpdate<nat>(s.k, t, s.k[t] - 1, Itself());
    }
  }

  /** The whole shuffle. lo[t] and hi[t] are the ends of thread t's part, which must not be
      empty: ShuffleShares says when none is. Every run ends. The keys are the old ones after
      exchanges of two keys, the larger position of which goes down from hi[t] - 1 to lo[t] + 1
      in every thread t; so they are the old ones in another order. */
  method Shuffle(keys: seq<int>, lo: seq<nat>, hi: seq<nat>)
    returns (keys': seq<int>, ghost log: seq<Exchanged>)
    requires |lo| == |hi| && forall t :: 0 <= t < |lo| ==> lo[t] < hi[t] <= |keys|
    ensures Downwards(log, |keys|, |lo|) && keys' == Replayed(keys, log, |lo|)
    ensures forall t :: 0 <= t < |lo| ==> Visited(log, t) == CountDown(hi[t] - 1, lo[t])
    ensures multiset(keys') == multiset(keys)
  {
    hide Inv, Sum, Logged;
    var s := State(keys, seq(|keys|, _ => false), seq(|lo|, _ => Idle),
        seq(|lo|, t requires 0 <= t < |lo| => hi[t] - 1));
    ghost var owner := seq(|keys|, _ => NOBODY);
    Begin(s, lo, owner);
    log := [];
    NothingLogged(s, keys, hi);
    while exists t :: 0 <= t < |lo| && Unfinished(s, lo, t)
      invariant Inv(s, lo, owner) && |s.stage| == |s.k| == |lo| && multiset(s.keys) == multiset(keys)
      invariant Logged(s, keys, hi, log)
      decreases Sum(s.k, Itself()), Sum(s.stage, Rank())
    {
      ghost var todo :| 0 <= todo < |lo| && Unfinished(s, lo, todo);
      ghost var able := SomeoneCanMove(s, lo, owner, todo);
      var t :| 0 <= t < |lo| && CanMove(s, lo, t);
      s, owner, log := Step(s, lo, t, owner, keys, hi, log);
      SameSizes(s, lo, owner);
    }
    SameSizes(s, lo, owner);
    AllLogged(s, keys, lo, hi, log);
    keys' := s.keys;
  }

  lemma NothingLogged(s: State, keys: seq<int>, hi: seq<nat>)
    requires |s.k| == |hi| && s.keys == keys && forall t :: 0 <= t < |hi| ==> hi[t] > 0 && s.k[t] == hi[t] - 1
    ensures Logged(s, keys, hi, [])
  {
  }

  lemma AllLogged(s: State, keys: seq<int>, lo: seq<nat>, hi: seq<nat>, log: seq<Exchanged>)
    requires |s.stage| == |s.k| == |lo| == |hi| && Logged(s, keys, hi, log)
    requires forall t :: 0 <= t < |lo| ==> ThreadOk(s, lo, t) && !Unfinished(s, lo, t)
    ensures Downwards(log, |keys|, |lo|) && s.keys == Replayed(keys, log, |lo|)
    ensures forall t :: 0 <= t < |lo| ==> lo[t] < hi[t] && Visited(log, t) == CountDown(hi[t] - 1, lo[t])
  {
    hide Replayed, Visited, CountDown, Downwards;
    forall t | 0 <= t < |lo| ensures lo[t] < hi[t] && Visited(log, t) == CountDown(hi[t] - 1, lo[t]) {
      assert ThreadOk(s, lo, t) && !Unfinished(s, lo, t) && s.k[t] == lo[t];
    }
  }

  lemma SameSizes(s: State, lo: seq<nat>, owner: seq<int>)
    requires Inv(s, lo, owner)
    ensures |s.stage| == |s.k| == |lo| && |owner| == |s.locks| == |s.keys|
    ensures forall t :: 0 <= t < |lo| ==> ThreadOk(s, lo, t)
  {
  }

  lemma Begin(s: State, lo: seq<nat>, owner: seq<int>)
    requires |s.stage| == |s.k| == |lo| && |owner| == |s.locks| == |s.keys|
    requires forall t :: 0 <= t < |lo| ==> s.stage[t] == Idle && lo[t] <= s.k[t] < |s.keys|
    requires forall i :: 0 <= i < |owner| ==> owner[i] == NOBODY && !s.locks[i]
    ensures Inv(s, lo, owner)
  {
    forall t, i {:trigger Holds(s, t, i)} | 0 <= t < |lo| && 0 <= i < |owner|
      ensures !Holds(s, t, i) && owner[i] != t
    {}
  }
}
