/** The few shapes every other module shares. */
module Basics {
  datatype Option<T> = None | Some(value: T)

  datatype Result<T> = Ok(value: T) | Fail(why: string)

  type Id = nat

  predicate Distinct<T(==)>(s: seq<T>) {
    forall i, j :: 0 <= i < j < |s| ==> s[i] != s[j]
  }

  /** Adding one element that was not there makes a set larger by exactly one. */
  lemma CardInsert<T>(s: set<T>, x: T)
    requires x !in s
    ensures |s + {x}| == |s| + 1
  {}

  lemma CardSubset<T>(a: set<T>, b: set<T>)
    requires a <= b
    ensures |a| <= |b|
    decreases |a|
  {
    if a != {} {
      var x :| x in a;
      CardSubset(a - {x}, b - {x});
    }
  }

  lemma CardUnion<T>(a: set<T>, b: set<T>)
    requires a !! b
    ensures |a + b| == |a| + |b|
  {}

  /** A set whose members are all equal has at most one of them. */
  lemma CardAtMostOne<T>(s: set<T>)
    requires forall x, y :: x in s && y in s ==> x == y
    ensures |s| <= 1
  {
    if s != {} {
      var x :| x in s;
      assert s == {x};
    }
  }

  lemma Assoc<T>(a: seq<T>, b: seq<T>, c: seq<T>)
    ensures a + (b + c) == (a + b) + c
  {}

  function Indices(n: nat): seq<nat> {
    seq(n, i requires 0 <= i < n => i)
  }

  lemma {:induction false} IndicesOnce(n: nat, x: nat)
    ensures multiset(Indices(n))[x] == if x < n then 1 else 0
  {
    if n > 0 {
      IndicesOnce(n - 1, x);
      assert Indices(n) == Indices(n - 1) + [n - 1];
    }
  }

  /** An element at two places is counted twice. */
  lemma TwiceInMultiset<T>(s: seq<T>, j: nat, k: nat)
    requires j < k < |s| && s[j] == s[k]
    ensures multiset(s)[s[j]] >= 2
  {
    assert s == s[..j] + [s[j]] + s[j + 1..k] + [s[k]] + s[k + 1..];
  }

  function HowMany<T>(s: seq<T>, p: T -> bool): nat {
    if s == [] then 0 else (if p(s[0]) then 1 else 0) + HowMany(s[1..], p)
  }

  lemma {:induction false} HowManyMore<T>(s: seq<T>, x: T, p: T -> bool)
    ensures HowMany(s + [x], p) == HowMany(s, p) + (if p(x) then 1 else 0)
  {
    if s == [] {
      assert s + [x] == [x] && [x][1..] == [];
    } else {
      assert (s + [x])[1..] == s[1..] + [x];
      HowManyMore(s[1..], x, p);
    }
  }
}
