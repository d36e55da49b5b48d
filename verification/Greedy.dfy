/**
 * Ranked choices: sort the candidates, then take them from the best down, skipping any that the ones
 * already taken rule out, until there are enough. Every list of alternatives in the system is one.
 */
module Greedy {
  ghost predicate Order<T(!new)>(le: (T, T) -> bool) {
    && (forall x, y :: le(x, y) || le(y, x))
    && (forall x, y, z :: le(x, y) && le(y, z) ==> le(x, z))
  }

  ghost predicate Sorted<T>(s: seq<T>, le: (T, T) -> bool) {
    forall i, j :: 0 <= i <= j < |s| && i != j ==> le(s[i], s[j])
  }

  function Insert<T>(x: T, s: seq<T>, le: (T, T) -> bool): seq<T> {
    if s == [] then [x]
    else if le(x, s[0]) then [x] + s
    else [s[0]] + Insert(x, s[1..], le)
  }

  /** A stable sort: the later of two equals is inserted first, so the earlier one lands before it. */
  function Sort<T>(s: seq<T>, le: (T, T) -> bool): seq<T> {
    if s == [] then [] else Insert(s[0], Sort(s[1..], le), le)
  }

  lemma {:induction false} InsertKeeps<T>(x: T, s: seq<T>, le: (T, T) -> bool)
    ensures multiset(Insert(x, s, le)) == multiset{x} + multiset(s)
  {
    if s != [] && !le(x, s[0]) {
      InsertKeeps(x, s[1..], le);
      assert s == [s[0]] + s[1..];
    }
  }

  lemma {:induction false} InsertSorted<T(!new)>(x: T, s: seq<T>, le: (T, T) -> bool)
    requires Order(le) && Sorted(s, le)
    ensures Sorted(Insert(x, s, le), le)
  {
    if s != [] && !le(x, s[0]) {
      var rest := Insert(x, s[1..], le);
      InsertSorted(x, s[1..], le);
      InsertKeeps(x, s[1..], le);
      forall j | 0 <= j < |rest| ensures le(s[0], rest[j]) {
        assert rest[j] in multiset(rest);
      }
    } else if s != [] {
      forall j | 0 <= j < |s| ensures le(x, s[j]) {}
    }
  }

  lemma {:induction false} SortKeeps<T>(s: seq<T>, le: (T, T) -> bool)
    ensures multiset(Sort(s, le)) == multiset(s)
  {
    if s != [] {
      SortKeeps(s[1..], le);
      InsertKeeps(s[0], Sort(s[1..], le), le);
      assert s == [s[0]] + s[1..];
    }
  }

  lemma {:induction false} SortSorts<T(!new)>(s: seq<T>, le: (T, T) -> bool)
    requires Order(le)
    ensures Sorted(Sort(s, le), le)
  {
    if s != [] {
      SortSorts(s[1..], le);
      InsertSorted(s[0], Sort(s[1..], le), le);
    }
  }

  lemma SortMembers<T>(s: seq<T>, le: (T, T) -> bool)
    ensures forall x :: x in Sort(s, le) <==> x in s
  {
    SortKeeps(s, le);
    forall x ensures x in Sort(s, le) <==> x in s {
      assert x in s <==> x in multiset(s);
      assert x in Sort(s, le) <==> x in multiset(Sort(s, le));
    }
  }

  // ------------------------------------------------------------------ the greedy pass

  /** `ruledOut(picked, c)`: what is already picked leaves no room for `c`. */
  function Pick<T>(ranked: seq<T>, max: nat, ruledOut: (seq<T>, T) -> bool, picked: seq<T>): seq<T> {
    if ranked == [] || |picked| >= max then picked
    else if ruledOut(picked, ranked[0]) then Pick(ranked[1..], max, ruledOut, picked)
    else Pick(ranked[1..], max, ruledOut, picked + [ranked[0]])
  }

  method PickLoop<T>(ranked: seq<T>, max: nat, ruledOut: (seq<T>, T) -> bool) returns (picked: seq<T>)
    ensures picked == Pick(ranked, max, ruledOut, [])
  {
    picked := [];
    var i := 0;
    while i < |ranked| && |picked| < max
      invariant 0 <= i <= |ranked|
      invariant Pick(ranked[i..], max, ruledOut, picked) == Pick(ranked, max, ruledOut, [])
    {
      assert ranked[i..][1..] == ranked[i + 1..];
      if !ruledOut(picked, ranked[i]) {
        picked := picked + [ranked[i]];
      }
      i := i + 1;
    }
  }

  /** Each pick had room when it was made, given the picks before it. */
  ghost predicate Compatible<T>(picked: seq<T>, ruledOut: (seq<T>, T) -> bool) {
    forall i :: 0 <= i < |picked| ==> !ruledOut(picked[..i], picked[i])
  }

  lemma {:induction false} PickSound<T>(ranked: seq<T>, max: nat, ruledOut: (seq<T>, T) -> bool, picked: seq<T>)
    requires |picked| <= max && Compatible(picked, ruledOut)
    ensures var out := Pick(ranked, max, ruledOut, picked);
      && |out| <= max && picked <= out && Compatible(out, ruledOut)
      && (forall x :: x in out ==> x in picked || x in ranked)
  {
    if ranked != [] && |picked| < max {
      if ruledOut(picked, ranked[0]) {
        PickSound(ranked[1..], max, ruledOut, picked);
      } else {
        var more := picked + [ranked[0]];
        forall i | 0 <= i < |more| ensures !ruledOut(more[..i], more[i]) {
          if i < |picked| { assert more[..i] == picked[..i]; } else { assert more[..i] == picked; }
        }
        PickSound(ranked[1..], max, ruledOut, more);
        assert picked <= Pick(ranked[1..], max, ruledOut, more);
      }
    }
  }

  /** `c` was left out for a reason: picks at least as good left it no room, or they filled the list. */
  ghost predicate PassedOver<T>(out: seq<T>, c: T, max: nat, ruledOut: (seq<T>, T) -> bool, le: (T, T) -> bool) {
    exists k :: 0 <= k <= |out| && (forall i :: 0 <= i < k ==> le(out[i], c))
                && (ruledOut(out[..k], c) || k == |out| == max)
  }

  /** No candidate is passed over for a worse one. */
  lemma {:induction false} PickBest<T(!new)>(
      ranked: seq<T>, max: nat, ruledOut: (seq<T>, T) -> bool, picked: seq<T>, le: (T, T) -> bool, c: T)
    requires Order(le) && Sorted(ranked, le) && (forall x, y :: x in picked && y in ranked ==> le(x, y))
    requires |picked| <= max && Compatible(picked, ruledOut) && c in ranked
    ensures c in Pick(ranked, max, ruledOut, picked)
         || PassedOver(Pick(ranked, max, ruledOut, picked), c, max, ruledOut, le)
  {
    var out := Pick(ranked, max, ruledOut, picked);
    PickSound(ranked, max, ruledOut, picked);
    if |picked| == max {
      assert out[..|out|] == out;
    } else if ruledOut(picked, ranked[0]) {
      if c == ranked[0] {
        assert out[..|picked|] == picked;
      } else {
        PickBest(ranked[1..], max, ruledOut, picked, le, c);
      }
    } else {
      var more := picked + [ranked[0]];
      forall i | 0 <= i < |more| ensures !ruledOut(more[..i], more[i]) {
        if i < |picked| { assert more[..i] == picked[..i]; } else { assert more[..i] == picked; }
      }
      PickSound(ranked[1..], max, ruledOut, more);
      if c == ranked[0] {
        assert more[|picked|] == c && more <= out;
        assert out[|picked|] == c;
      } else {
        PickBest(ranked[1..], max, ruledOut, more, le, c);
      }
    }
  }

  /** What a pass picks stands in the order it was ranked in. */
  lemma {:induction false} PickSorted<T(!new)>(
      ranked: seq<T>, max: nat, ruledOut: (seq<T>, T) -> bool, picked: seq<T>, le: (T, T) -> bool)
    requires Sorted(ranked, le) && Sorted(picked, le) && (forall x, y :: x in picked && y in ranked ==> le(x, y))
    ensures Sorted(Pick(ranked, max, ruledOut, picked), le)
  {
    if ranked != [] && |picked| < max {
      if ruledOut(picked, ranked[0]) {
        PickSorted(ranked[1..], max, ruledOut, picked, le);
      } else {
        PickSorted(ranked[1..], max, ruledOut, picked + [ranked[0]], le);
      }
    }
  }
}
