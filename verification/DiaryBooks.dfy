/**
 * What every step writes down beside the rows: when a hold runs out, who serves a booking and where it
 * stands, which key answers with what, and what was taken for it. Said of the step and of what was there
 * before it; and, over runs, of what is still true of a hold and of a booking later on.
 */
module DiaryBooks {
  import opened Basics
  import opened Lifecycle
  import opened Chain
  import opened Diary
  import opened DiaryProofs
  import opened DiaryRuns
  import opened DiaryCalendar
  import Materialiser
  import S = SeriesDiary

  // ------------------------------------------------------------------ holds

  /** The steps that use a hold up. */
  predicate Spends(d: Diary, s: Step, h: Id)
    requires h in d.holds
  {
    match s
    case DoRelease(g) => g == h
    case DoSweep(now) => d.holds[h] <= now
    case DoConfirm(q, _) => q.hold == h
    case DoMove(_, g, _, _) => g == h
    case _ => false
  }

  /** A hold runs out when its place said, and goes with a step that uses it up. */
  lemma StepHolds(d: Diary, s: Step, units: Units, h: Id)
    requires Sound(d)
    ensures h in d.holds ==>
      var e := Apply(d, s, units);
      && (h in e.holds <==> !(Accepted(d, s, units) && Spends(d, s, h)))
      && (h in e.holds ==> e.holds[h] == d.holds[h])
    ensures h !in d.holds ==>
      var e := Apply(d, s, units);
      && (h in e.holds <==> s.DoPlace? && PlaceVerdict(d, s.place, units) == Placed(h))
      && (h in e.holds ==> e.holds[h] == s.place.expiresAt)
  {}

  /** As long as a hold is there it runs out when it did, whatever else is done. */
  lemma {:induction false} HoldKeepsItsTerm(d: Diary, steps: seq<Step>, units: Units, h: Id)
    requires Sound(d) && h in d.holds && h in Run(d, steps, units).holds
    ensures Run(d, steps, units).holds[h] == d.holds[h]
    decreases |steps|
  {
    if steps != [] {
      var e := Apply(d, steps[0], units);
      ApplySound(d, steps[0], units);
      StepHolds(d, steps[0], units, h);
      HoldOnlyGoes(d, steps[0], units, h);
      if h !in e.holds { HoldStaysGone(e, steps[1..], units, h); }
      HoldKeepsItsTerm(e, steps[1..], units, h);
    }
  }

  /** So a sweep takes a hold if and only if it was placed to run out by then, however long ago. */
  lemma SweptWhenDue(d: Diary, q: PlaceRequest, steps: seq<Step>, units: Units, now: int)
    requires Sound(d) && PlaceVerdict(d, q, units).Placed?
    ensures var h := PlaceVerdict(d, q, units).hold; var e := Run(Apply(d, DoPlace(q), units), steps, units);
      h in e.holds ==> (h in Apply(e, DoSweep(now), units).holds <==> now < q.expiresAt)
  {
    var h, placed := PlaceVerdict(d, q, units).hold, Apply(d, DoPlace(q), units);
    var e := Run(placed, steps, units);
    ApplySound(d, DoPlace(q), units);
    RunSound(placed, steps, units);
    StepHolds(d, DoPlace(q), units, h);
    if h in e.holds {
      HoldKeepsItsTerm(placed, steps, units, h);
      StepHolds(e, DoSweep(now), units, h);
    }
  }

  // ------------------------------------------------------------------ bookings

  /** Where a booking stands after an accepted step. */
  function StandsAfter(v: Booking, b: Id, s: Step): Status {
    match s
    case DoTransition(c, to, _, _) => if c == b then to else v.status
    case DoMove(c, _, owes, _) => if c == b && owes then PendingPayment else v.status
    case DoSendLink(c) => if c == b && (v.status == Confirmed || v.status == PendingPayment) then PendingPayment else v.status
    case _ => v.status
  }

  /** What no step changes of a booking. */
  ghost predicate SameVisit(v: Booking, w: Booking) {
    w.durationMin == v.durationMin && w.branch == v.branch && w.station == v.station && w.origin == v.origin
  }

  ghost predicate ServedAfter(d: Diary, s: Step, units: Units, b: Id, staff: Id)
    requires b in d.bookings
  {
    if Accepted(d, s, units) && s.DoMove? && s.moved == b then Keeps(d, s.onto, staff) else staff == d.bookings[b].staff
  }

  /** A booking's length, place and origin never change; its status and its professional change by their own steps. */
  lemma StepBooking(d: Diary, s: Step, units: Units, b: Id)
    requires Sound(d) && b in d.bookings
    ensures b in Apply(d, s, units).bookings && SameVisit(d.bookings[b], Apply(d, s, units).bookings[b])
    ensures Apply(d, s, units).bookings[b].status
      == if Accepted(d, s, units) then StandsAfter(d.bookings[b], b, s) else d.bookings[b].status
    ensures ServedAfter(d, s, units, b, Apply(d, s, units).bookings[b].staff)
  {
    match s
    case DoMove(c, h, owes, when) => MovedBooking(d, c, h, owes, when, units, b);
    case DoConfirm(q, at) => OldBookingsStay(d, q, at, b);
    case DoPlace(_) =>
    case DoRelease(_) =>
    case DoSweep(_) =>
    case DoShift(_, _, _) =>
    case DoTransition(_, _, _, _) => TransitionedBooking(d, s, units, b);
    case DoSendLink(_) =>
    case DoMaterialise(_, _, _) =>
  }

  lemma TransitionedBooking(d: Diary, s: Step, units: Units, b: Id)
    requires b in d.bookings && s.DoTransition?
    ensures b in Apply(d, s, units).bookings
    ensures Apply(d, s, units).bookings[b] == if Accepted(d, s, units) && s.booking == b
                                              then d.bookings[b].(status := s.to) else d.bookings[b]
  {}

  lemma MovedBooking(d: Diary, c: Id, h: Id, owes: bool, when: int, units: Units, b: Id)
    requires Sound(d) && b in d.bookings
    ensures var s := DoMove(c, h, owes, when); var e := Apply(d, s, units);
      && b in e.bookings && SameVisit(d.bookings[b], e.bookings[b]) && ServedAfter(d, s, units, b, e.bookings[b].staff)
      && e.bookings[b].status == if Accepted(d, s, units) then StandsAfter(d.bookings[b], b, s) else d.bookings[b].status
  {
    if MoveVerdict(d, c, h, when).Changed? { HeldIsKept(d, h); }
  }

  lemma OldBookingsStay(d: Diary, q: ConfirmRequest, at: int, b: Id)
    requires Sound(d) && b in d.bookings
    ensures b in Confirm(d, q, at).bookings && Confirm(d, q, at).bookings[b] == d.bookings[b]
  {}

  lemma HeldIsKept(d: Diary, hold: Id)
    requires Sound(d) && HoldHasPerson(d, hold)
    ensures Keeps(d, hold, HeldPerson(d, hold))
  {
    var i: Id :| HoldsPerson(d, hold, i) && d.rows[i].subject.staff == HeldPerson(d, hold);
    assert Owned(d, d.rows[i]);
    assert UsesBy(d.rows, i, ByHold(hold), d.rows[i].subject, d.rows[i].from);
    assert Uses(d.rows, ByHold(hold), Person(HeldPerson(d, hold)), d.rows[i].from);
  }

  /** A visit of a series as it is written. */
  ghost predicate IsVisitOf(v: Booking, series: S.Standing, c: Materialiser.Candidate) {
    v.status == series.birth && v.branch == series.branch && v.station == series.station
    && v.staff == c.staff && v.durationMin == series.durationMin
  }

  /** Bookings come of confirms, as `ConfirmSays` has it, and of the visits of a series; of nothing else. */
  lemma StepNewBookings(d: Diary, s: Step, units: Units, b: Id)
    requires Sound(d) && b !in d.bookings
    ensures var e := Apply(d, s, units);
      && (b in e.bookings ==> Accepted(d, s, units) && (s.DoConfirm? || s.DoMaterialise?))
      && (b in e.bookings && s.DoConfirm? ==> ConfirmVerdict(d, s.confirm, s.at) == Booked(b))
      && (b in e.bookings && s.DoMaterialise? ==> IsVisitOf(e.bookings[b], s.series, s.slot))
  {}

  /** A visit of a series that is accepted is written, once. */
  lemma SeatedOnce(d: Diary, v: S.Standing, day: int, c: Materialiser.Candidate, units: Units)
    requires Sound(d) && Accepted(d, DoMaterialise(v, day, c), units)
    ensures var e := Apply(d, DoMaterialise(v, day, c), units);
      exists b :: b !in d.bookings && e.bookings.Keys == d.bookings.Keys + {b} && IsVisitOf(e.bookings[b], v, c)
  {
    var e, b := Apply(d, DoMaterialise(v, day, c), units), d.next + 1;
    assert b !in d.bookings && e.bookings.Keys == d.bookings.Keys + {b} && IsVisitOf(e.bookings[b], v, c);
  }

  // ------------------------------------------------------------------ keys and money

  /** A key is stored by the confirm that books under it, and by nothing else. */
  lemma StepKeys(d: Diary, s: Step, units: Units, key: string)
    requires Sound(d)
    ensures var e := Apply(d, s, units); var mine := s.DoConfirm? && s.confirm.key == key && Accepted(d, s, units);
      && (key in e.keys <==> key in d.keys || mine)
      && (key in e.keys ==> e.keys[key] == if mine then ConfirmVerdict(d, s.confirm, s.at).booking else d.keys[key])
  {}

  /** Money is taken by the confirm that books with a payment, in full, for its own booking; by nothing else. */
  lemma StepTakes(d: Diary, s: Step, units: Units)
    requires Sound(d)
    ensures var e := Apply(d, s, units);
      if s.DoConfirm? && Accepted(d, s, units) && s.confirm.payment.Tender? then
        && |e.captures| == |d.captures| + 1 && e.captures[..|d.captures|] == d.captures
        && var taken := e.captures[|d.captures|]; var p := s.confirm.payment;
          ConfirmVerdict(d, s.confirm, s.at) == Booked(taken.booking) && taken.amountFils == p.amountFils && taken.ref == p.ref
      else e.captures == d.captures
  {}

  // ------------------------------------------------------------------ over runs

  /** What a step may make of a status: a legal transition, or a wait for money. */
  ghost predicate MayBecome(from: Status, to: Status) {
    from == to || Follows(from, to) || (to == PendingPayment && from in {Confirmed, PendingConfirmation})
  }

  lemma StepStatus(d: Diary, s: Step, units: Units, b: Id)
    requires Sound(d) && b in d.bookings
    ensures b in Apply(d, s, units).bookings && MayBecome(d.bookings[b].status, Apply(d, s, units).bookings[b].status)
  {
    StepBooking(d, s, units, b);
    match s
    case DoTransition(c, to, actor, hasReason) =>
      if c == b && Accepted(d, s, units) { assert Check(d.bookings[b].status, to, actor, hasReason).Allowed?; }
    case _ =>
  }

  lemma EndedStep(d: Diary, s: Step, units: Units, b: Id)
    requires Sound(d) && b in d.bookings && d.bookings[b].status in TERMINAL
    ensures b in Apply(d, s, units).bookings && Apply(d, s, units).bookings[b] == d.bookings[b]
  {
    StepBooking(d, s, units, b);
    StepStatus(d, s, units, b);
    TerminalIff(d.bookings[b].status);
  }

  /**
   * Over every run a booking stays, with the length, the place and the origin it was written with, and
   * once it has ended it stays as it ended: no step of any kind touches it again.
   */
  lemma {:induction false} EndedStaysEnded(d: Diary, steps: seq<Step>, units: Units, b: Id)
    requires Sound(d) && b in d.bookings
    ensures b in Run(d, steps, units).bookings && SameVisit(d.bookings[b], Run(d, steps, units).bookings[b])
    ensures d.bookings[b].status in TERMINAL ==> Run(d, steps, units).bookings[b] == d.bookings[b]
    decreases |steps|
  {
    if steps != [] {
      ApplySound(d, steps[0], units);
      StepBooking(d, steps[0], units, b);
      if d.bookings[b].status in TERMINAL { EndedStep(d, steps[0], units, b); }
      EndedStaysEnded(Apply(d, steps[0], units), steps[1..], units, b);
    }
  }
}
