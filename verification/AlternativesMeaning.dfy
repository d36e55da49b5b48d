/**
 * What a customer is shown for a session that is not free, said of the choices themselves: which ones
 * may be shown at all, in what order they come, and what keeps one from being shown.
 */
module AlternativesMeaning {
  import opened Basics
  import opened Greedy
  import opened RoutinePreview

  function Apart(a: int, b: int): int {
    if a < b then b - a else a - b
  }

  // ------------------------------------------------------------------ anybody, near the day

  /** The four kinds of alternative, best first. */
  function Kind(wanted: Choice, c: Choice): int {
    if c.day != wanted.day then 2
    else if c.staff == wanted.staff then 0
    else if c.startMin == wanted.startMin then 1
    else 3
  }

  /** How far from what was wanted, within its kind. */
  function Away(wanted: Choice, c: Choice): int {
    if c.day != wanted.day then Apart(c.day, wanted.day) else Apart(c.startMin, wanted.startMin)
  }

  predicate NoWorse(wanted: Choice, a: Choice, b: Choice) {
    Kind(wanted, a) < Kind(wanted, b) || (Kind(wanted, a) == Kind(wanted, b) && Away(wanted, a) <= Away(wanted, b))
  }

  /**
   * Free, another slot, in opening hours, on no other session's day, and near: on the same day, or with
   * the same stylist at the same time.
   */
  predicate Qualifies(engine: Engine, rows: Rows, wanted: Choice, blocked: set<int>, today: int, far: bool, c: Choice) {
    && Free(engine, rows, c) && c != wanted && 600 <= c.startMin < 1320 && c.day !in blocked
    && Apart(c.day, wanted.day) <= 2 && today <= c.day && (far || c.day - today <= 90)
    && (far ==> c.staff == wanted.staff)
    && (c.day == wanted.day || (c.staff == wanted.staff && c.startMin == wanted.startMin))
  }

  lemma DaysAroundExact(day: int, today: int, far: bool, d: int)
    ensures d in DaysAround(ALTERNATIVE_DAYS, day, today, far) <==> Apart(d, day) <= 2 && today <= d && (far || d - today <= 90)
  {
    var offsets := ALTERNATIVE_DAYS;
    InDaysAround(offsets, day, today, far, d);
    if Apart(d, day) <= 2 { assert offsets[d - day + 2] == d - day; }
  }

  lemma {:induction false} InDaysAround(offsets: seq<int>, day: int, today: int, far: bool, d: int)
    ensures d in DaysAround(offsets, day, today, far) <==> d - day in offsets && today <= d && (far || d - today <= 90)
  {
    if offsets != [] { InDaysAround(offsets[1..], day, today, far, d); }
  }

  lemma RankTells(wanted: Choice, c: Choice)
    ensures RankOf(wanted, c).Some? <==>
      c != wanted && (c.day == wanted.day || (c.staff == wanted.staff && c.startMin == wanted.startMin))
    ensures RankOf(wanted, c).Some? ==>
      RankOf(wanted, c).value.choice == c && RankOf(wanted, c).value.rung == Kind(wanted, c)
      && RankOf(wanted, c).value.distance == Away(wanted, c)
  {}

  ghost predicate RankedFor(wanted: Choice, picked: seq<Ranked>) {
    forall x :: x in picked ==> RankOf(wanted, x.choice) == Some(x)
  }

  predicate Shows(picked: seq<Ranked>, c: Choice) {
    exists i :: 0 <= i < |picked| && picked[i].choice == c
  }

  /** A shown one that is no worse and within twenty-five minutes of it, with its stylist on its day; or three no worse. */
  ghost predicate LeftOut(wanted: Choice, picked: seq<Ranked>, c: Choice) {
    || (exists i :: 0 <= i < |picked| && NoWorse(wanted, picked[i].choice, c) && picked[i].choice.day == c.day
          && picked[i].choice.staff == c.staff && Apart(picked[i].choice.startMin, c.startMin) < 25)
    || (|picked| == 3 && forall i :: 0 <= i < |picked| ==> NoWorse(wanted, picked[i].choice, c))
  }

  /**
   * The alternatives are choices that qualify, best kind and nearest first; and every choice that
   * qualifies is shown, unless one that is no worse stands too close to it or three that are no worse
   * are shown.
   */
  lemma AlternativesMean(
      engine: Engine, rows: Rows, wanted: Choice, blocked: set<int>, today: int, far: bool)
    ensures var picked := AlternativesOf(engine, rows, wanted, blocked, today, far);
      && (forall x :: x in picked ==> Qualifies(engine, rows, wanted, blocked, today, far, x.choice))
      && (forall i, j :: 0 <= i < j < |picked| ==> NoWorse(wanted, picked[i].choice, picked[j].choice))
      && (forall c :: Qualifies(engine, rows, wanted, blocked, today, far, c) ==>
            Shows(picked, c) || LeftOut(wanted, picked, c))
  {
    var picked := AlternativesOf(engine, rows, wanted, blocked, today, far);
    forall x | x in picked
      ensures Qualifies(engine, rows, wanted, blocked, today, far, x.choice) && RankOf(wanted, x.choice) == Some(x)
    {
      ShownQualifies(engine, rows, wanted, blocked, today, far, x);
    }
    ShownInOrder(engine, rows, wanted, blocked, today, far);
    forall i, j | 0 <= i < j < |picked| ensures NoWorse(wanted, picked[i].choice, picked[j].choice) {
      assert RankLe(picked[i], picked[j]);
      RankTells(wanted, picked[i].choice);
      RankTells(wanted, picked[j].choice);
    }
    forall c | Qualifies(engine, rows, wanted, blocked, today, far, c) ensures Shows(picked, c) || LeftOut(wanted, picked, c) {
      QualifiedIsShown(engine, rows, wanted, blocked, today, far, c, picked);
    }
  }

  lemma ShownQualifies(
      engine: Engine, rows: Rows, wanted: Choice, blocked: set<int>, today: int, far: bool, x: Ranked)
    requires x in AlternativesOf(engine, rows, wanted, blocked, today, far)
    ensures Qualifies(engine, rows, wanted, blocked, today, far, x.choice) && RankOf(wanted, x.choice) == Some(x)
  {
    var free := FreeAround(engine, rows, wanted, today, far);
    PickSound(Sort(Candidates(wanted, free, blocked), RankLe), MAX_ALTERNATIVES, TooClose, []);
    SortMembers(Candidates(wanted, free, blocked), RankLe);
    CandidatesExact(wanted, free, blocked, x);
    FreeAroundExact(engine, rows, wanted, today, far, x.choice);
    DaysAroundExact(wanted.day, today, far, x.choice.day);
    RankTells(wanted, x.choice);
  }

  lemma ShownInOrder(engine: Engine, rows: Rows, wanted: Choice, blocked: set<int>, today: int, far: bool)
    ensures Sorted(AlternativesOf(engine, rows, wanted, blocked, today, far), RankLe)
  {
    var candidates := Candidates(wanted, FreeAround(engine, rows, wanted, today, far), blocked);
    RankOrder();
    SortSorts(candidates, RankLe);
    PickSorted(Sort(candidates, RankLe), MAX_ALTERNATIVES, TooClose, [], RankLe);
  }

  lemma QualifiedIsShown(
      engine: Engine, rows: Rows, wanted: Choice, blocked: set<int>, today: int, far: bool, c: Choice, picked: seq<Ranked>)
    requires picked == AlternativesOf(engine, rows, wanted, blocked, today, far) && RankedFor(wanted, picked)
    requires Qualifies(engine, rows, wanted, blocked, today, far, c)
    ensures Shows(picked, c) || LeftOut(wanted, picked, c)
  {
    RankTells(wanted, c);
    DaysAroundExact(wanted.day, today, far, c.day);
    var x := RankOf(wanted, c).value;
    AlternativesAreBest(engine, rows, wanted, blocked, today, far, x);
    if x in picked {
      var i :| 0 <= i < |picked| && picked[i] == x;
      assert picked[i].choice == c;
    } else {
      PassedIsLeftOut(wanted, picked, x);
    }
  }

  lemma PassedIsLeftOut(wanted: Choice, picked: seq<Ranked>, x: Ranked)
    requires RankedFor(wanted, picked) && RankOf(wanted, x.choice) == Some(x)
    requires PassedOver(picked, x, MAX_ALTERNATIVES, TooClose, RankLe)
    ensures LeftOut(wanted, picked, x.choice)
  {
    var k :| 0 <= k <= |picked| && (forall i :: 0 <= i < k ==> RankLe(picked[i], x))
             && (TooClose(picked[..k], x) || k == |picked| == MAX_ALTERNATIVES);
    RankTells(wanted, x.choice);
    forall i | 0 <= i < k ensures NoWorse(wanted, picked[i].choice, x.choice) {
      assert picked[i] in picked;
      RankTells(wanted, picked[i].choice);
    }
    if TooClose(picked[..k], x) {
      var i :| 0 <= i < k && picked[..k][i].choice.day == x.choice.day && picked[..k][i].choice.staff == x.choice.staff
               && Abs(picked[..k][i].choice.startMin - x.choice.startMin) < OFFER_SPACING_MIN;
      assert picked[..k][i] == picked[i];
    }
  }

  // ------------------------------------------------------------------ the same stylist, going forward

  /** Free with her own stylist, another slot, in opening hours, on the day or in the week after it. */
  predicate QualifiesForward(
      engine: Engine, rows: Rows, on: seq<int>, wanted: Choice, blocked: set<int>, today: int, pastHorizon: bool, c: Choice)
  {
    && c.day in on && Free(engine, rows, c) && c.staff == wanted.staff && c != wanted && 600 <= c.startMin < 1320
    && 0 <= c.day - wanted.day <= 7 && today <= c.day && c.day !in blocked && (pastHorizon || c.day - today <= 90)
  }

  /** Earlier days first, and on one day the nearest time. */
  predicate SoonerOrNearer(wanted: Choice, a: Choice, b: Choice) {
    a.day < b.day || (a.day == b.day && Apart(a.startMin, wanted.startMin) <= Apart(b.startMin, wanted.startMin))
  }

  function RankedForward(wanted: Choice, c: Choice): Ranked
    requires c.day >= wanted.day
  {
    Ranked(c.day - wanted.day, Abs(c.startMin - wanted.startMin), c)
  }

  ghost predicate AllForward(wanted: Choice, picked: seq<Ranked>) {
    forall x :: x in picked ==> x.choice.day >= wanted.day && x == RankedForward(wanted, x.choice)
  }

  lemma {:induction false} ForwardExact(
      wanted: Choice, free: seq<Choice>, blocked: set<int>, today: int, pastHorizon: bool, x: Ranked)
    ensures x in ForwardCandidates(wanted, free, blocked, today, pastHorizon) <==>
      x.choice in free && Forward(wanted, x.choice, blocked, today, pastHorizon) && x == RankedForward(wanted, x.choice)
  {
    if free != [] { ForwardExact(wanted, free[1..], blocked, today, pastHorizon, x); }
  }

  function ShownOn(picked: seq<Ranked>, day: int): nat {
    |set i | 0 <= i < |picked| && picked[i].choice.day == day|
  }

  lemma {:induction false} OnDayCounts(picked: seq<Ranked>, day: int)
    ensures OnDay(picked, day) == ShownOn(picked, day)
  {
    var here := set i | 0 <= i < |picked| && picked[i].choice.day == day;
    if picked != [] {
      var n, init := |picked| - 1, picked[..|picked| - 1];
      OnDayCounts(init, day);
      var before := set i | 0 <= i < |init| && init[i].choice.day == day;
      if picked[n].choice.day == day {
        assert here == before + {n};
      } else {
        assert here == before;
      }
    }
  }

  /**
   * A shown one that is no worse, on its day and within twenty-five minutes of it; or two on its day that
   * are no worse; or as many as were asked for, all no worse.
   */
  ghost predicate LeftOutForward(wanted: Choice, picked: seq<Ranked>, max: nat, c: Choice) {
    exists k :: 0 <= k <= |picked| && (forall i :: 0 <= i < k ==> SoonerOrNearer(wanted, picked[i].choice, c))
      && (ShownOn(picked[..k], c.day) >= 2 || k == |picked| == max || CloseByOn(picked[..k], c))
  }

  predicate CloseByOn(picked: seq<Ranked>, c: Choice) {
    exists i :: 0 <= i < |picked| && picked[i].choice.day == c.day && Apart(picked[i].choice.startMin, c.startMin) < 25
  }

  lemma ForwardShown(
      engine: Engine, rows: Rows, on: seq<int>, wanted: Choice, blocked: set<int>, today: int, pastHorizon: bool, max: nat,
      x: Ranked)
    requires x in RoutineAlternatives(wanted, ChoicesOn(engine, rows, on), blocked, today, pastHorizon, max)
    ensures QualifiesForward(engine, rows, on, wanted, blocked, today, pastHorizon, x.choice)
    ensures x == RankedForward(wanted, x.choice)
  {
    var free := ChoicesOn(engine, rows, on);
    var candidates := ForwardCandidates(wanted, free, blocked, today, pastHorizon);
    PickSound(Sort(candidates, RankLe), max, DayIsFull, []);
    SortMembers(candidates, RankLe);
    ForwardExact(wanted, free, blocked, today, pastHorizon, x);
    ChoicesOnFree(engine, rows, on, x.choice);
  }

  lemma ForwardIsShown(
      engine: Engine, rows: Rows, on: seq<int>, wanted: Choice, blocked: set<int>, today: int, pastHorizon: bool, max: nat,
      c: Choice, picked: seq<Ranked>)
    requires picked == RoutineAlternatives(wanted, ChoicesOn(engine, rows, on), blocked, today, pastHorizon, max)
    requires AllForward(wanted, picked) && QualifiesForward(engine, rows, on, wanted, blocked, today, pastHorizon, c)
    ensures Shows(picked, c) || LeftOutForward(wanted, picked, max, c)
  {
    var free, x := ChoicesOn(engine, rows, on), RankedForward(wanted, c);
    var candidates := ForwardCandidates(wanted, free, blocked, today, pastHorizon);
    ChoicesOnFree(engine, rows, on, c);
    ForwardExact(wanted, free, blocked, today, pastHorizon, x);
    SortMembers(candidates, RankLe);
    RankOrder();
    SortSorts(candidates, RankLe);
    PickBest(Sort(candidates, RankLe), max, DayIsFull, [], RankLe, x);
    if x in picked {
      var i :| 0 <= i < |picked| && picked[i] == x;
      assert picked[i].choice == c;
    } else {
      PassedForward(wanted, picked, max, x);
    }
  }

  lemma PassedForward(wanted: Choice, picked: seq<Ranked>, max: nat, x: Ranked)
    requires AllForward(wanted, picked) && x.choice.day >= wanted.day && x == RankedForward(wanted, x.choice)
    requires PassedOver(picked, x, max, DayIsFull, RankLe)
    ensures LeftOutForward(wanted, picked, max, x.choice)
  {
    var k :| 0 <= k <= |picked| && (forall i :: 0 <= i < k ==> RankLe(picked[i], x))
             && (DayIsFull(picked[..k], x) || k == |picked| == max);
    OnDayCounts(picked[..k], x.choice.day);
    forall i | 0 <= i < k ensures SoonerOrNearer(wanted, picked[i].choice, x.choice) { assert picked[i] in picked; }
    if DayIsFull(picked[..k], x) && OnDay(picked[..k], x.choice.day) < 2 {
      var i :| 0 <= i < k && picked[..k][i].choice.day == x.choice.day
               && Abs(picked[..k][i].choice.startMin - x.choice.startMin) < OFFER_SPACING_MIN;
      assert CloseByOn(picked[..k], x.choice);
    }
  }

  /** The same of the other rule: her own stylist only, the day itself and then the days after it. */
  lemma RoutineAlternativesMean(
      engine: Engine, rows: Rows, on: seq<int>, wanted: Choice, blocked: set<int>, today: int, pastHorizon: bool, max: nat)
    ensures var picked := RoutineAlternatives(wanted, ChoicesOn(engine, rows, on), blocked, today, pastHorizon, max);
      && |picked| <= max
      && (forall x :: x in picked ==> QualifiesForward(engine, rows, on, wanted, blocked, today, pastHorizon, x.choice))
      && (forall i, j :: 0 <= i < j < |picked| ==> SoonerOrNearer(wanted, picked[i].choice, picked[j].choice))
      && (forall c :: QualifiesForward(engine, rows, on, wanted, blocked, today, pastHorizon, c) ==>
            Shows(picked, c) || LeftOutForward(wanted, picked, max, c))
  {
    var candidates := ForwardCandidates(wanted, ChoicesOn(engine, rows, on), blocked, today, pastHorizon);
    var picked := RoutineAlternatives(wanted, ChoicesOn(engine, rows, on), blocked, today, pastHorizon, max);
    PickSound(Sort(candidates, RankLe), max, DayIsFull, []);
    RankOrder();
    SortSorts(candidates, RankLe);
    PickSorted(Sort(candidates, RankLe), max, DayIsFull, [], RankLe);
    forall x | x in picked
      ensures QualifiesForward(engine, rows, on, wanted, blocked, today, pastHorizon, x.choice)
      ensures x == RankedForward(wanted, x.choice)
    {
      ForwardShown(engine, rows, on, wanted, blocked, today, pastHorizon, max, x);
    }
    forall i, j | 0 <= i < j < |picked| ensures SoonerOrNearer(wanted, picked[i].choice, picked[j].choice) {
      assert RankLe(picked[i], picked[j]) && picked[i] in picked && picked[j] in picked;
    }
    forall c | QualifiesForward(engine, rows, on, wanted, blocked, today, pastHorizon, c)
      ensures Shows(picked, c) || LeftOutForward(wanted, picked, max, c)
    {
      ForwardIsShown(engine, rows, on, wanted, blocked, today, pastHorizon, max, c, picked);
    }
  }
}
