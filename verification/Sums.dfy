/** Adding up over the elements of a sequence: numbers, and multisets. */
module Sums {

  ghost function Sum<T>(s: seq<T>, v: T -> nat): nat {
    if s == [] then 0 else Sum(s[..|s|-1], v) + v(s[|s|-1])
  }

  /** For adding up the elements themselves. */
  function Itself(): nat -> nat {
    n => n
  }

  lemma {:induction false} SumAppend<T>(s: seq<T>, t: seq<T>, v: T -> nat)
    ensures Sum(s + t, v) == Sum(s, v) + Sum(t, v)
  {
    if t == [] {
      assert s + t == s;
    } else {
      SumAppend(s, t[..|t|-1], v);
      assert (s + t)[..|s + t|-1] == s + t[..|t|-1];
    }
  }

  lemma SumOne<T>(x: T, v: T -> nat)
    ensures Sum([x], v) == v(x)
  {
    assert [x][..0] == [];
  }

  lemma SumPush<T>(s: seq<T>, c: bool, x: T, v: T -> nat)
    ensures Sum(s + if c then [x] else [], v) == Sum(s, v) + if c then v(x) else 0
  {
    if c {
      SumAppend(s, [x], v);
      SumOne(x, v);
    } else {
      assert s + [] == s;
    }
  }

  lemma SumUpdate<T>(s: seq<T>, i: nat, x: T, v: T -> nat)
    requires i < |s|
    ensures Sum(s[i := x], v) + v(s[i]) == Sum(s, v) + v(x)
  {
    hide Sum;
    assert s == s[..i] + [s[i]] + s[i+1..] && s[i := x] == s[..i] + [x] + s[i+1..];
    SumAppend(s[..i] + [s[i]], s[i+1..], v);
    SumAppend(s[..i], [s[i]], v);
    SumAppend(s[..i] + [x], s[i+1..], v);
    SumAppend(s[..i], [x], v);
    SumOne(s[i], v);
    SumOne(x, v);
  }

  lemma {:induction false} SumZero<T>(s: seq<T>, v: T -> nat)
    requires forall i :: 0 <= i < |s| ==> v(s[i]) == 0
    ensures Sum(s, v) == 0
  {
    if s != [] { SumZero(s[..|s|-1], v); }
  }

  lemma {:induction false} SumSame<T>(s: seq<T>, v: T -> nat, w: T -> nat)
    requires forall i :: 0 <= i < |s| ==> v(s[i]) == w(s[i])
    ensures Sum(s, v) == Sum(s, w)
  {
    if s != [] { SumSame(s[..|s|-1], v, w); }
  }

  /** The order does not matter. */
  lemma {:induction false} SumOfMultiset<T>(s: seq<T>, t: seq<T>, v: T -> nat)
    requires multiset(s) == multiset(t)
    ensures Sum(s, v) == Sum(t, v)
    decreases |s|
  {
    if s == [] {
      assert |multiset(t)| == 0;
    } else {
      var n := |s| - 1;
      assert s[n] in multiset(t);
      var i :| 0 <= i < |t| && t[i] == s[n];
      MultisetWithout(t, i);
      MultisetWithout(s, n);
      assert s[..n] + s[n+1..] == s[..n];
      SumOfMultiset(s[..n], t[..i] + t[i+1..], v);
      SumWithout(t, i, v);
    }
  }

  lemma MultisetWithout<T>(t: seq<T>, i: nat)
    requires i < |t|
    ensures multiset(t[..i] + t[i+1..]) == multiset(t) - multiset{t[i]}
  {
    assert t == t[..i] + [t[i]] + t[i+1..];
  }

  lemma SumWithout<T>(t: seq<T>, i: nat, v: T -> nat)
    requires i < |t|
    ensures Sum(t, v) == Sum(t[..i] + t[i+1..], v) + v(t[i])
  {
    hide Sum;
    assert t == t[..i] + [t[i]] + t[i+1..];
    SumAppend(t[..i] + [t[i]], t[i+1..], v);
    SumAppend(t[..i], [t[i]], v);
    SumAppend(t[..i], t[i+1..], v);
    SumOne(t[i], v);
  }

  ghost function Union<S, T>(s: seq<S>, v: S -> multiset<T>): multiset<T> {
    if s == [] then multiset{} else Union(s[..|s|-1], v) + v(s[|s|-1])
  }

  lemma {:induction false} UnionAppend<S, T>(s: seq<S>, t: seq<S>, v: S -> multiset<T>)
    ensures Union(s + t, v) == Union(s, v) + Union(t, v)
  {
    if t == [] {
      assert s + t == s;
    } else {
      UnionAppend(s, t[..|t|-1], v);
      assert (s + t)[..|s + t|-1] == s + t[..|t|-1];
    }
  }

  lemma UnionOne<S, T>(x: S, v: S -> multiset<T>)
    ensures Union([x], v) == v(x)
  {
    assert [x][..0] == [];
  }

  lemma UnionUpdate<S, T>(s: seq<S>, i: nat, x: S, v: S -> multiset<T>)
    requires i < |s|
    ensures Union(s[i := x], v) + v(s[i]) == Union(s, v) + v(x)
  {
    hide Union;
    assert s == s[..i] + [s[i]] + s[i+1..] && s[i := x] == s[..i] + [x] + s[i+1..];
    UnionAppend(s[..i] + [s[i]], s[i+1..], v);
    UnionAppend(s[..i], [s[i]], v);
    UnionAppend(s[..i] + [x], s[i+1..], v);
    UnionAppend(s[..i], [x], v);
    UnionOne(s[i], v);
    UnionOne(x, v);
  }

  lemma {:induction false} UnionEmpty<S, T>(s: seq<S>, v: S -> multiset<T>)
    requires forall i :: 0 <= i < |s| ==> v(s[i]) == multiset{}
    ensures Union(s, v) == multiset{}
  {
    if s != [] { UnionEmpty(s[..|s|-1], v); }
  }
}
