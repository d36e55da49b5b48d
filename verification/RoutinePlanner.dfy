/** The days of a DAILY routine: a window of days is loaded and widened until the plan fits in it. */
module RoutinePlanner {
  const PLAN_SEARCH_DAYS := 366
  const DAILY_SEARCH_DAYS := 60

  function Min(a: nat, b: nat): nat { if a <= b then a else b }

  function Max(a: nat, b: nat): nat { if a <= b then b else a }

  /** Every open day among `first + from` .. `first + to`, in order. */
  function OpenIn(first: int, from: nat, to: nat, isOpen: int -> bool): seq<int>
    decreases if from < to then to - from else 0
  {
    if from >= to then []
    else (if isOpen(first + from) then [first + from] else []) + OpenIn(first, from + 1, to, isOpen)
  }

  function Take<T>(s: seq<T>, n: nat): seq<T> {
    s[..Min(n, |s|)]
  }

  /** The walk of the planner itself: day by day, until it has enough or has looked `limit` days ahead. */
  method OpenDays(first: int, count: nat, limit: nat, isOpen: int -> bool) returns (days: seq<int>)
    ensures days == Take(OpenIn(first, 0, limit, isOpen), count)
  {
    days := [];
    var i: nat := 0;
    while i < limit && |days| < count
      invariant i <= limit && |days| <= count
      invariant days + OpenIn(first, i, limit, isOpen) == OpenIn(first, 0, limit, isOpen)
    {
      ghost var rest := OpenIn(first, i + 1, limit, isOpen);
      if isOpen(first + i) {
        assert days + ([first + i] + rest) == (days + [first + i]) + rest;
        days := days + [first + i];
      } else {
        assert [] + rest == rest;
      }
      i := i + 1;
    }
  }

  /** A day that was not loaded counts as closed. */
  function Loaded(first: int, window: nat, isOpen: int -> bool): int -> bool {
    d => first <= d < first + window && isOpen(d)
  }

  lemma {:induction false} OpenInLoaded(first: int, from: nat, to: nat, window: nat, isOpen: int -> bool)
    ensures OpenIn(first, from, to, Loaded(first, window, isOpen)) == OpenIn(first, from, Min(to, window), isOpen)
    decreases if from < to then to - from else 0
  {
    if from < to { OpenInLoaded(first, from + 1, to, window, isOpen); }
  }

  lemma {:induction false} OpenInWider(first: int, from: nat, mid: nat, to: nat, isOpen: int -> bool)
    requires mid <= to
    ensures OpenIn(first, from, mid, isOpen) <= OpenIn(first, from, to, isOpen)
    decreases if from < to then to - from else 0
  {
    if from < mid { OpenInWider(first, from + 1, mid, to, isOpen); }
  }

  /**
   * The window loop, on the salon's own open days. It refines the simple search: what comes back is
   * what reading the whole final range at once would have given, however often the window grew.
   */
  method PlanDaily(first: int, count: nat, isOpen: int -> bool) returns (plan: seq<int>)
    ensures plan == Take(OpenIn(first, 0, Range(count), isOpen), count)
  {
    var window := count + 7;
    while true
      invariant count + 7 <= window <= Max(DAILY_SEARCH_DAYS, count + 7)
      decreases DAILY_SEARCH_DAYS - window
    {
      plan := OpenDays(first, count, PLAN_SEARCH_DAYS, Loaded(first, window, isOpen));
      OpenInLoaded(first, 0, PLAN_SEARCH_DAYS, window, isOpen);
      OpenInWider(first, 0, Min(PLAN_SEARCH_DAYS, window), Range(count), isOpen);
      if |plan| == count || window >= DAILY_SEARCH_DAYS {
        return;
      }
      window := Min(window * 2, DAILY_SEARCH_DAYS);
    }
  }

  /** The days the loop may ever look at: 60, or count + 7 when that is more, and never past a year. */
  function Range(count: nat): nat {
    Min(PLAN_SEARCH_DAYS, Max(DAILY_SEARCH_DAYS, count + 7))
  }

  ghost predicate Ascending(days: seq<int>) {
    forall i, j :: 0 <= i < j < |days| ==> days[i] < days[j]
  }

  /** The open days of a range: all of them, only them, each once and in order. */
  lemma {:induction false} OpenInExact(first: int, from: nat, to: nat, isOpen: int -> bool)
    ensures forall d :: d in OpenIn(first, from, to, isOpen) <==> first + from <= d < first + to && isOpen(d)
    ensures Ascending(OpenIn(first, from, to, isOpen))
    decreases if from < to then to - from else 0
  {
    if from < to {
      var rest := OpenIn(first, from + 1, to, isOpen);
      OpenInExact(first, from + 1, to, isOpen);
      assert forall i :: 0 <= i < |rest| ==> rest[i] in rest;
    }
  }

  /** The first `count` of an ascending list: short only when the list is, and nothing smaller is left out. */
  lemma TakeFirst(all: seq<int>, count: nat)
    requires Ascending(all)
    ensures var plan := Take(all, count);
      && Ascending(plan)
      && (forall d :: d in plan ==> d in all)
      && (forall d :: d in all && d !in plan ==> |plan| == count && forall p :: p in plan ==> p < d)
  {
    var plan := Take(all, count);
    forall d | d in all && d !in plan ensures |plan| == count && forall p :: p in plan ==> p < d {
      var k :| 0 <= k < |all| && all[k] == d;
      assert k >= |plan|;
      forall p | p in plan ensures p < d {
        var i :| 0 <= i < |plan| && plan[i] == p;
        assert all[i] == p;
      }
    }
  }

  /** The plan is the first `count` open days of the range, and short only when the range has too few. */
  lemma PlanIsFirstOpenDays(first: int, count: nat, isOpen: int -> bool, plan: seq<int>)
    requires plan == Take(OpenIn(first, 0, Range(count), isOpen), count)
    ensures |plan| <= count && Ascending(plan) && (forall d :: d in plan ==> first <= d < first + Range(count) && isOpen(d))
    ensures forall d :: first <= d < first + Range(count) && isOpen(d) && d !in plan ==>
      |plan| == count && forall p :: p in plan ==> p < d
  {
    var range := Range(count);
    OpenInExact(first, 0, range, isOpen);
    TakeFirst(OpenIn(first, 0, range, isOpen), count);
  }
}
