/**
 * The preview of a routine. The engine answers for one day from what is taken on that day: which starts
 * it offers, and with which stylists. Nothing here chooses for the customer: a session that is not free
 * comes with alternatives.
 */
module RoutinePreview {
  import opened Basics
  import opened Greedy
  import opened RoutineBooking
  import Diary
  import opened DiaryDays

  const MAX_ALTERNATIVES := 3
  const ALTERNATIVES_PER_DAY := 2
  const ALTERNATIVE_DAYS: seq<int> := [-2, -1, 0, 1, 2]
  const ROUTINE_ALTERNATIVE_DAYS := 7
  const OFFER_SPACING_MIN := 25
  const DAY_START_MIN := 600
  const DAY_END_MIN := 1320

  datatype Choice = Choice(day: int, startMin: int, staff: Id)

  datatype Offer = Offer(startMin: int, staff: seq<Id>)

  datatype View = View(closed: bool, offers: seq<Offer>)

  /** The diary's reservations; the engine reads one day of them at a time. */
  type Rows = map<Id, Diary.Reservation>

  /** The availability engine: what it makes of what is taken on a day. */
  datatype Engine = Engine(view: (int, map<Id, Busy>) -> View)

  // ------------------------------------------------------------------ one request's answers

  /** One engine call per day at most; every later question about a day is answered from the first. */
  class DayOffers {
    const engine: Engine
    const rows: Rows
    var seen: map<int, View>
    ghost var calls: nat

    constructor (engine: Engine, rows: Rows)
      ensures this.engine == engine && this.rows == rows && Valid() && calls == 0
    {
      this.engine, this.rows := engine, rows;
      seen, calls := map[], 0;
    }

    ghost predicate Valid()
      reads this
    {
      calls == |seen| && forall d :: d in seen ==> seen[d] == engine.view(d, DayView(rows, d))
    }

    method Get(day: int) returns (view: View)
      requires Valid()
      modifies this
      ensures Valid() && view == engine.view(day, DayView(rows, day))
      ensures seen.Keys == old(seen.Keys) + {day}
      ensures calls == old(calls) + (if day in old(seen) then 0 else 1)
    {
      if day in seen {
        view := seen[day];
      } else {
        view := engine.view(day, DayView(rows, day));
        seen, calls := seen[day := view], calls + 1;
      }
    }

    method IsFree(c: Choice) returns (free: bool)
      requires Valid()
      modifies this
      ensures Valid() && free == Free(engine, rows, c)
    {
      var view := Get(c.day);
      free := !view.closed && OfferedIn(view.offers, c);
    }

    method ChoicesOf(day: int) returns (free: seq<Choice>)
      requires Valid()
      modifies this
      ensures Valid() && free == Choices(engine, rows, day)
    {
      var view := Get(day);
      free := if view.closed then [] else OfferChoices(day, view.offers);
    }
  }

  predicate OfferedIn(offers: seq<Offer>, c: Choice) {
    exists i :: 0 <= i < |offers| && offers[i].startMin == c.startMin && c.staff in offers[i].staff
  }

  predicate Free(engine: Engine, rows: Rows, c: Choice) {
    var view := engine.view(c.day, DayView(rows, c.day));
    !view.closed && OfferedIn(view.offers, c)
  }

  function StaffChoices(day: int, startMin: int, staff: seq<Id>): seq<Choice> {
    seq(|staff|, i requires 0 <= i < |staff| => Choice(day, startMin, staff[i]))
  }

  function OfferChoices(day: int, offers: seq<Offer>): seq<Choice> {
    if offers == [] then []
    else StaffChoices(day, offers[0].startMin, offers[0].staff) + OfferChoices(day, offers[1..])
  }

  /** Every free start of the day with every stylist who could take it; a closed day has none. */
  function Choices(engine: Engine, rows: Rows, day: int): seq<Choice> {
    var view := engine.view(day, DayView(rows, day));
    if view.closed then [] else OfferChoices(day, view.offers)
  }

  lemma {:induction false} OfferChoicesExact(day: int, offers: seq<Offer>, c: Choice)
    ensures c in OfferChoices(day, offers) <==> c.day == day && OfferedIn(offers, c)
  {
    if offers != [] {
      OfferChoicesExact(day, offers[1..], c);
      var head := StaffChoices(day, offers[0].startMin, offers[0].staff);
      assert c in head <==> c.day == day && c.startMin == offers[0].startMin && c.staff in offers[0].staff by {
        if k :| 0 <= k < |offers[0].staff| && offers[0].staff[k] == c.staff && c.day == day && c.startMin == offers[0].startMin {
          assert head[k] == c;
        }
      }
      if OfferedIn(offers, c) {
        var i :| 0 <= i < |offers| && offers[i].startMin == c.startMin && c.staff in offers[i].staff;
        if i > 0 { assert offers[1..][i - 1] == offers[i]; }
      }
      if OfferedIn(offers[1..], c) {
        var i :| 0 <= i < |offers[1..]| && offers[1..][i].startMin == c.startMin && c.staff in offers[1..][i].staff;
        assert offers[i + 1] == offers[1..][i];
      }
    }
  }

  /** The list of choices and the yes-or-no question are one answer. */
  lemma ChoicesAreFree(engine: Engine, rows: Rows, day: int, c: Choice)
    ensures c in Choices(engine, rows, day) <==> c.day == day && Free(engine, rows, c)
  {
    OfferChoicesExact(day, engine.view(day, DayView(rows, day)).offers, c);
  }

  function ChoicesOn(engine: Engine, rows: Rows, on: seq<int>): seq<Choice> {
    if on == [] then [] else Choices(engine, rows, on[0]) + ChoicesOn(engine, rows, on[1..])
  }

  lemma {:induction false} ChoicesOnFree(engine: Engine, rows: Rows, on: seq<int>, c: Choice)
    ensures c in ChoicesOn(engine, rows, on) <==> c.day in on && Free(engine, rows, c)
  {
    if on != [] {
      ChoicesAreFree(engine, rows, on[0], c);
      ChoicesOnFree(engine, rows, on[1..], c);
    }
  }

  // ------------------------------------------------------------------ alternatives

  function Abs(x: int): nat { if x < 0 then -x else x }

  datatype Ranked = Ranked(rung: nat, distance: nat, choice: Choice)

  /** The same stylist the same day; another stylist the same time; another day; another of both. */
  function RankOf(wanted: Choice, c: Choice): Option<Ranked> {
    var minutes := Abs(c.startMin - wanted.startMin);
    var sameStaff := c.staff == wanted.staff;
    var sameDay := c.day == wanted.day;
    var sameTime := c.startMin == wanted.startMin;
    if sameStaff && sameDay && sameTime then None
    else if sameStaff && sameDay then Some(Ranked(0, minutes, c))
    else if sameDay && sameTime then Some(Ranked(1, 0, c))
    else if sameStaff && sameTime then Some(Ranked(2, Abs(c.day - wanted.day), c))
    else if sameDay then Some(Ranked(3, minutes, c))
    else None
  }

  predicate RankLe(a: Ranked, b: Ranked) {
    if a.rung != b.rung then a.rung < b.rung
    else if a.distance != b.distance then a.distance < b.distance
    else if a.choice.startMin != b.choice.startMin then a.choice.startMin < b.choice.startMin
    else if a.choice.day != b.choice.day then a.choice.day < b.choice.day
    else a.choice.staff <= b.choice.staff
  }

  predicate InsideHours(minute: int) { DAY_START_MIN <= minute < DAY_END_MIN }

  function Candidates(wanted: Choice, free: seq<Choice>, blocked: set<int>): seq<Ranked> {
    if free == [] then []
    else
      var rest := Candidates(wanted, free[1..], blocked);
      var c := free[0];
      if InsideHours(c.startMin) && c.day !in blocked && RankOf(wanted, c).Some?
      then [RankOf(wanted, c).value] + rest else rest
  }

  lemma {:induction false} CandidatesExact(wanted: Choice, free: seq<Choice>, blocked: set<int>, x: Ranked)
    ensures x in Candidates(wanted, free, blocked) <==>
      x.choice in free && InsideHours(x.choice.startMin) && x.choice.day !in blocked && RankOf(wanted, x.choice) == Some(x)
  {
    if free != [] { CandidatesExact(wanted, free[1..], blocked, x); }
  }

  /** The same stylist on the same day within 25 minutes of one already offered. */
  predicate TooClose(picked: seq<Ranked>, x: Ranked) {
    exists i :: 0 <= i < |picked| && picked[i].choice.day == x.choice.day && picked[i].choice.staff == x.choice.staff
                && Abs(picked[i].choice.startMin - x.choice.startMin) < OFFER_SPACING_MIN
  }

  function PickAlternatives(wanted: Choice, free: seq<Choice>, blocked: set<int>): seq<Ranked> {
    Pick(Sort(Candidates(wanted, free, blocked), RankLe), MAX_ALTERNATIVES, TooClose, [])
  }

  /** The days around the session's own that are neither past nor, for a near session, past the horizon. */
  function DaysAround(offsets: seq<int>, day: int, today: int, far: bool): seq<int> {
    if offsets == [] then []
    else
      var d := day + offsets[0];
      (if d >= today && (far || !BeyondHorizon(d, today)) then [d] else []) + DaysAround(offsets[1..], day, today, far)
  }

  function Own(free: seq<Choice>, staff: Id): seq<Choice> {
    if free == [] then [] else (if free[0].staff == staff then [free[0]] else []) + Own(free[1..], staff)
  }

  /** What is free around a session; a far one is offered its own stylist only. */
  function FreeAround(engine: Engine, rows: Rows, wanted: Choice, today: int, far: bool): seq<Choice> {
    var free := ChoicesOn(engine, rows, DaysAround(ALTERNATIVE_DAYS, wanted.day, today, far));
    if far then Own(free, wanted.staff) else free
  }

  function AlternativesOf(
      engine: Engine, rows: Rows, wanted: Choice, blocked: set<int>, today: int, far: bool): seq<Ranked> {
    PickAlternatives(wanted, FreeAround(engine, rows, wanted, today, far), blocked)
  }

  /** Day by day, each read once, then ranked and picked. */
  method AlternativesFor(offers: DayOffers, wanted: Choice, blocked: set<int>, today: int, far: bool)
    returns (picked: seq<Ranked>)
    requires offers.Valid()
    modifies offers
    ensures offers.Valid()
    ensures picked == AlternativesOf(offers.engine, offers.rows, wanted, blocked, today, far)
  {
    var on := DaysAround(ALTERNATIVE_DAYS, wanted.day, today, far);
    var choices: seq<Choice> := [];
    assert on[0..] == on;
    assert [] + ChoicesOn(offers.engine, offers.rows, on) == ChoicesOn(offers.engine, offers.rows, on);
    for i := 0 to |on|
      invariant offers.Valid()
      invariant choices + ChoicesOn(offers.engine, offers.rows, on[i..]) == ChoicesOn(offers.engine, offers.rows, on)
    {
      assert on[i..][1..] == on[i + 1..];
      var free := offers.ChoicesOf(on[i]);
      Assoc(choices, free, ChoicesOn(offers.engine, offers.rows, on[i + 1..]));
      choices := choices + free;
    }
    assert on[|on|..] == [] && choices + [] == choices;
    var free := if far then Own(choices, wanted.staff) else choices;
    picked := PickLoop(Sort(Candidates(wanted, free, blocked), RankLe), MAX_ALTERNATIVES, TooClose);
  }

  lemma {:induction false} OwnExact(free: seq<Choice>, staff: Id)
    ensures forall c :: c in Own(free, staff) <==> c in free && c.staff == staff
  {
    if free != [] { OwnExact(free[1..], staff); }
  }

  lemma FreeAroundExact(engine: Engine, rows: Rows, wanted: Choice, today: int, far: bool, c: Choice)
    ensures c in FreeAround(engine, rows, wanted, today, far) <==>
      c.day in DaysAround(ALTERNATIVE_DAYS, wanted.day, today, far) && Free(engine, rows, c)
      && (far ==> c.staff == wanted.staff)
  {
    var on := DaysAround(ALTERNATIVE_DAYS, wanted.day, today, far);
    ChoicesOnFree(engine, rows, on, c);
    OwnExact(ChoicesOn(engine, rows, on), wanted.staff);
  }

  lemma RankOrder()
    ensures Order(RankLe)
  {}

  /**
   * Every alternative shown is free on the same snapshot, is not the slot that was refused, is on no
   * other session's day, and two with one stylist on one day are at least 25 minutes apart.
   */
  lemma AlternativesAreFree(engine: Engine, rows: Rows, wanted: Choice, blocked: set<int>, today: int, far: bool)
    ensures var picked := AlternativesOf(engine, rows, wanted, blocked, today, far);
      && |picked| <= 3
      && (forall x :: x in picked ==> Free(engine, rows, x.choice) && x.choice != wanted
                                      && x.choice.day !in blocked && InsideHours(x.choice.startMin)
                                      && (far ==> x.choice.staff == wanted.staff))
      && (forall i, j :: 0 <= i < j < |picked|
            && picked[i].choice.day == picked[j].choice.day && picked[i].choice.staff == picked[j].choice.staff
            ==> Abs(picked[i].choice.startMin - picked[j].choice.startMin) >= 25)
  {
    var free := FreeAround(engine, rows, wanted, today, far);
    var ranked := Sort(Candidates(wanted, free, blocked), RankLe);
    var picked := PickAlternatives(wanted, free, blocked);
    PickSound(ranked, MAX_ALTERNATIVES, TooClose, []);
    forall x | x in picked
      ensures Free(engine, rows, x.choice) && x.choice != wanted && x.choice.day !in blocked
           && InsideHours(x.choice.startMin) && (far ==> x.choice.staff == wanted.staff)
    {
      SortMembers(Candidates(wanted, free, blocked), RankLe);
      CandidatesExact(wanted, free, blocked, x);
      FreeAroundExact(engine, rows, wanted, today, far, x.choice);
    }
    forall i, j | 0 <= i < j < |picked| && picked[i].choice.day == picked[j].choice.day
                  && picked[i].choice.staff == picked[j].choice.staff
      ensures Abs(picked[i].choice.startMin - picked[j].choice.startMin) >= 25
    {
      assert !TooClose(picked[..j], picked[j]);
      assert picked[..j][i] == picked[i];
    }
  }

  /** And they are the best there are: a free choice that ranks is shown, or was passed over for better ones. */
  lemma AlternativesAreBest(
      engine: Engine, rows: Rows, wanted: Choice, blocked: set<int>, today: int, far: bool, x: Ranked)
    requires x.choice.day in DaysAround(ALTERNATIVE_DAYS, wanted.day, today, far) && Free(engine, rows, x.choice)
    requires RankOf(wanted, x.choice) == Some(x) && (far ==> x.choice.staff == wanted.staff)
    requires InsideHours(x.choice.startMin) && x.choice.day !in blocked
    ensures var picked := AlternativesOf(engine, rows, wanted, blocked, today, far);
      x in picked || PassedOver(picked, x, MAX_ALTERNATIVES, TooClose, RankLe)
  {
    var free := FreeAround(engine, rows, wanted, today, far);
    FreeAroundExact(engine, rows, wanted, today, far, x.choice);
    CandidatesExact(wanted, free, blocked, x);
    SortMembers(Candidates(wanted, free, blocked), RankLe);
    RankOrder();
    SortSorts(Candidates(wanted, free, blocked), RankLe);
    PickBest(Sort(Candidates(wanted, free, blocked), RankLe), MAX_ALTERNATIVES, TooClose, [], RankLe, x);
  }

  // ------------------------------------------------------------------ the same stylist, going forward

  /** The session's own stylist, its day and the seven after it, nothing before today or past the horizon. */
  predicate Forward(wanted: Choice, c: Choice, blocked: set<int>, today: int, pastHorizon: bool) {
    && c.staff == wanted.staff && InsideHours(c.startMin)
    && wanted.day <= c.day <= wanted.day + ROUTINE_ALTERNATIVE_DAYS && c != wanted
    && c.day >= today && c.day !in blocked && (pastHorizon || !BeyondHorizon(c.day, today))
  }

  function ForwardCandidates(wanted: Choice, free: seq<Choice>, blocked: set<int>, today: int, pastHorizon: bool): seq<Ranked> {
    if free == [] then []
    else
      var rest := ForwardCandidates(wanted, free[1..], blocked, today, pastHorizon);
      if Forward(wanted, free[0], blocked, today, pastHorizon)
      then [Ranked(free[0].day - wanted.day, Abs(free[0].startMin - wanted.startMin), free[0])] + rest else rest
  }

  function OnDay(picked: seq<Ranked>, day: int): nat {
    if picked == [] then 0 else (if picked[|picked| - 1].choice.day == day then 1 else 0) + OnDay(picked[..|picked| - 1], day)
  }

  /** Two of one day are enough, and two of one day are at least 25 minutes apart. */
  predicate DayIsFull(picked: seq<Ranked>, x: Ranked) {
    || OnDay(picked, x.choice.day) >= ALTERNATIVES_PER_DAY
    || exists i :: 0 <= i < |picked| && picked[i].choice.day == x.choice.day
                   && Abs(picked[i].choice.startMin - x.choice.startMin) < OFFER_SPACING_MIN
  }

  function RoutineAlternatives(
      wanted: Choice, free: seq<Choice>, blocked: set<int>, today: int, pastHorizon: bool, max: nat): seq<Ranked>
  {
    Pick(Sort(ForwardCandidates(wanted, free, blocked, today, pastHorizon), RankLe), max, DayIsFull, [])
  }

  lemma {:induction false} ForwardCandidatesSound(
      wanted: Choice, free: seq<Choice>, blocked: set<int>, today: int, pastHorizon: bool, x: Ranked)
    requires x in ForwardCandidates(wanted, free, blocked, today, pastHorizon)
    ensures x.choice in free && Forward(wanted, x.choice, blocked, today, pastHorizon)
  {
    if !(Forward(wanted, free[0], blocked, today, pastHorizon)
         && x == Ranked(free[0].day - wanted.day, Abs(free[0].startMin - wanted.startMin), free[0])) {
      ForwardCandidatesSound(wanted, free[1..], blocked, today, pastHorizon, x);
    }
  }

  /** What is free already picked never fills a day past its cap: a prefix that is compatible has at most two. */
  lemma {:induction false} NoDayOverfull(picked: seq<Ranked>, day: int)
    requires Compatible(picked, DayIsFull)
    ensures OnDay(picked, day) <= 2
  {
    if picked != [] {
      var init := picked[..|picked| - 1];
      forall i | 0 <= i < |init| ensures !DayIsFull(init[..i], init[i]) {
        assert init[..i] == picked[..i] && init[i] == picked[i];
      }
      NoDayOverfull(init, day);
      assert !DayIsFull(picked[..|picked| - 1], picked[|picked| - 1]);
    }
  }

  /** The other rule keeps the same promises: every offer free, the stylist's own, at most two a day, 25 minutes apart. */
  lemma RoutineAlternativesAreFree(
      engine: Engine, rows: Rows, wanted: Choice, on: seq<int>, blocked: set<int>, today: int, pastHorizon: bool,
      max: nat, day: int)
    ensures var picked := RoutineAlternatives(wanted, ChoicesOn(engine, rows, on), blocked, today, pastHorizon, max);
      && |picked| <= max && OnDay(picked, day) <= 2
      && (forall x :: x in picked ==> Free(engine, rows, x.choice) && Forward(wanted, x.choice, blocked, today, pastHorizon))
      && (forall i, j :: 0 <= i < j < |picked| && picked[i].choice.day == picked[j].choice.day
            ==> Abs(picked[i].choice.startMin - picked[j].choice.startMin) >= 25)
  {
    var free := ChoicesOn(engine, rows, on);
    var candidates := ForwardCandidates(wanted, free, blocked, today, pastHorizon);
    var picked := RoutineAlternatives(wanted, free, blocked, today, pastHorizon, max);
    PickSound(Sort(candidates, RankLe), max, DayIsFull, []);
    NoDayOverfull(picked, day);
    forall x | x in picked ensures Free(engine, rows, x.choice) && Forward(wanted, x.choice, blocked, today, pastHorizon) {
      SortMembers(candidates, RankLe);
      ForwardCandidatesSound(wanted, free, blocked, today, pastHorizon, x);
      ChoicesOnFree(engine, rows, on, x.choice);
    }
    forall i, j | 0 <= i < j < |picked| && picked[i].choice.day == picked[j].choice.day
      ensures Abs(picked[i].choice.startMin - picked[j].choice.startMin) >= 25
    {
      assert !DayIsFull(picked[..j], picked[j]);
      assert picked[..j][i] == picked[i];
    }
  }
}
