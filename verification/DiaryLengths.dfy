/**
 * How long a booking's professional is kept, against how long the booking says it takes. A hold is
 * placed for the services asked about then; a confirm takes its services from its own request and hands
 * the hold's rows over as they are.
 */
module DiaryLengths {
  import opened Basics
  import opened Lifecycle
  import opened Chain
  import opened Diary
  import opened DiaryProofs
  import opened DiaryRuns
  import Calendar = DiaryCalendar
  import Materialiser
  import S = SeriesDiary

  ghost predicate BlocksFor(d: Diary, i: Id, b: Id) {
    i in d.rows && d.rows[i].booking == Some(b) && d.rows[i].blocking && d.rows[i].subject.Person?
  }

  /** Every booking keeps its professional for as long as it says it takes. */
  ghost predicate FullLength(d: Diary) {
    forall i, b :: BlocksFor(d, i, b) ==> b in d.bookings && d.rows[i].to - d.rows[i].from == d.bookings[b].durationMin
  }

  ghost predicate HeldFor(d: Diary, hold: Id, minutes: int) {
    forall i :: HoldsPerson(d, hold, i) ==> d.rows[i].to - d.rows[i].from == minutes
  }

  /** A confirm, or a move, takes over a hold of the length that is booked. */
  ghost predicate StepFits(d: Diary, s: Step) {
    match s
    case DoConfirm(q, at) => ConfirmVerdict(d, q, at).Booked? ==> HeldFor(d, q.hold, TotalMinutes(q.services))
    case DoMove(b, h, _, when) => MoveVerdict(d, b, h, when).Changed? ==> HeldFor(d, h, d.bookings[b].durationMin)
    case _ => true
  }

  lemma ConfirmedRow(d: Diary, q: ConfirmRequest, i: Id)
    requires Sound(d) && HoldHasPerson(d, q.hold) && q.services != [] && i in d.rows
    ensures var e := ConfirmWrite(d, q);
      && i in e.rows && e.rows[i].from == d.rows[i].from && e.rows[i].to == d.rows[i].to
      && (HoldsPerson(d, q.hold, i) <==> BlocksFor(e, i, d.next))
      && (forall b :: b != d.next ==> (BlocksFor(e, i, b) <==> BlocksFor(d, i, b)))
  {
    assert Owned(d, d.rows[i]);
  }

  lemma ConfirmFull(d: Diary, q: ConfirmRequest, now: int)
    requires Sound(d) && FullLength(d) && ConfirmVerdict(d, q, now).Booked?
    ensures FullLength(Confirm(d, q, now)) <==> HeldFor(d, q.hold, TotalMinutes(q.services))
  {
    var e := ConfirmWrite(d, q);
    assert e.bookings[d.next].durationMin == TotalMinutes(q.services);
    if FullLength(e) {
      forall i | HoldsPerson(d, q.hold, i) ensures d.rows[i].to - d.rows[i].from == TotalMinutes(q.services) {
        ConfirmedRow(d, q, i);
      }
    }
    if HeldFor(d, q.hold, TotalMinutes(q.services)) {
      forall i, b | BlocksFor(e, i, b) ensures b in e.bookings && e.rows[i].to - e.rows[i].from == e.bookings[b].durationMin {
        ConfirmedRow(d, q, i);
      }
    }
  }

  lemma MoveFull(d: Diary, b: Id, hold: Id, owesDeposit: bool, now: int)
    requires Sound(d) && FullLength(d) && MoveVerdict(d, b, hold, now).Changed?
    ensures FullLength(Move(d, b, hold, owesDeposit, now)) <==> HeldFor(d, hold, d.bookings[b].durationMin)
  {
    var e := Move(d, b, hold, owesDeposit, now);
    forall i | i in d.rows ensures Owned(d, d.rows[i]) {}
    if FullLength(e) {
      forall i | HoldsPerson(d, hold, i) ensures d.rows[i].to - d.rows[i].from == d.bookings[b].durationMin {
        assert Owned(d, d.rows[i]) && BlocksFor(e, i, b);
      }
    }
    if HeldFor(d, hold, d.bookings[b].durationMin) {
      forall i, c | BlocksFor(e, i, c) ensures c in e.bookings && e.rows[i].to - e.rows[i].from == e.bookings[c].durationMin {
        if c == b { assert HoldsPerson(d, hold, i); } else { assert BlocksFor(d, i, c); }
      }
    }
  }

  /** Rows as they were, of bookings as long as they were. */
  ghost predicate NoNewRows(d: Diary, e: Diary) {
    && (forall i, b :: BlocksFor(e, i, b) ==>
          BlocksFor(d, i, b) && e.rows[i].from == d.rows[i].from && e.rows[i].to == d.rows[i].to)
    && (forall b :: b in d.bookings ==> b in e.bookings && e.bookings[b].durationMin == d.bookings[b].durationMin)
  }

  lemma NoNewRowsFull(d: Diary, e: Diary)
    requires FullLength(d) && NoNewRows(d, e)
    ensures FullLength(e)
  {}

  lemma PlaceFull(d: Diary, q: PlaceRequest)
    requires Sound(d) && FullLength(d)
    ensures FullLength(PlaceWrite(d, q))
  {
    PlacedRowsAreItsOwn(d, q);
    forall i | i in HeldRows(q, d.next) ensures HeldRows(q, d.next)[i].booking.None? { Calendar.HeldRowsAre(q, d.next, i); }
    assert NoNewRows(d, PlaceWrite(d, q));
  }

  lemma ShiftFull(d: Diary, b: Id, day: int, startMin: int)
    requires Sound(d) && FullLength(d) && b in d.bookings
    ensures FullLength(ShiftWrite(d, b, day, startMin))
  {
    var e := ShiftWrite(d, b, day, startMin);
    forall i, c | BlocksFor(e, i, c) ensures c in e.bookings && e.rows[i].to - e.rows[i].from == e.bookings[c].durationMin {
      if i != d.next && i != d.next + 1 { assert BlocksFor(d, i, c); }
    }
  }

  lemma SeatFull(d: Diary, v: S.Standing, day: int, c: Materialiser.Candidate)
    requires Sound(d) && FullLength(d)
    ensures FullLength(S.SeatWrite(d, v, day, c))
  {
    var e := S.SeatWrite(d, v, day, c);
    forall i, b | BlocksFor(e, i, b) ensures b in e.bookings && e.rows[i].to - e.rows[i].from == e.bookings[b].durationMin {
      if i in d.rows { assert BlocksFor(d, i, b); }
    }
  }

  /** Every other step writes a booking's row at its full length, or none. */
  lemma OthersFull(d: Diary, s: Step, units: Units)
    requires Sound(d) && FullLength(d) && !s.DoConfirm? && !s.DoMove?
    ensures FullLength(Apply(d, s, units))
  {
    match s
    case DoPlace(q) => PlaceFull(d, q);
    case DoShift(b, day, startMin) => if b in d.bookings { ShiftFull(d, b, day, startMin); }
    case DoMaterialise(v, day, c) => SeatFull(d, v, day, c);
    case DoTransition(b, to, actor, hasReason) => TransitionFull(d, b, to, actor, hasReason);
    case DoSendLink(b) => assert NoNewRows(d, SendLink(d, b));
    case DoRelease(h) => assert NoNewRows(d, Release(d, h));
    case DoSweep(now) => assert NoNewRows(d, Sweep(d, now));
    case _ =>
  }

  lemma TransitionFull(d: Diary, b: Id, to: Status, actor: Actor, hasReason: bool)
    requires FullLength(d)
    ensures FullLength(Transition(d, b, to, actor, hasReason))
  {
    NoNewRowsFull(d, Transition(d, b, to, actor, hasReason));
  }

  lemma StepFull(d: Diary, s: Step, units: Units)
    requires Sound(d) && FullLength(d)
    ensures FullLength(Apply(d, s, units)) <==> StepFits(d, s)
  {
    match s
    case DoConfirm(q, at) => if ConfirmVerdict(d, q, at).Booked? { ConfirmFull(d, q, at); }
    case DoMove(b, h, owes, when) => if MoveVerdict(d, b, h, when).Changed? { MoveFull(d, b, h, owes, when); }
    case _ => OthersFull(d, s, units);
  }

  ghost predicate AlwaysFull(d: Diary, steps: seq<Step>, units: Units)
    decreases |steps|
  {
    FullLength(d) && (steps != [] ==> AlwaysFull(Apply(d, steps[0], units), steps[1..], units))
  }

  ghost predicate StepsFit(d: Diary, steps: seq<Step>, units: Units)
    decreases |steps|
  {
    steps != [] ==> StepFits(d, steps[0]) && StepsFit(Apply(d, steps[0], units), steps[1..], units)
  }

  lemma {:induction false} FullIffFits(d: Diary, steps: seq<Step>, units: Units)
    requires Sound(d) && FullLength(d)
    ensures AlwaysFull(d, steps, units) <==> StepsFit(d, steps, units)
    decreases |steps|
  {
    if steps != [] {
      ApplySound(d, steps[0], units);
      StepFull(d, steps[0], units);
      if StepFits(d, steps[0]) { FullIffFits(Apply(d, steps[0], units), steps[1..], units); }
    }
  }

  /**
   * Over every run each booking keeps its professional for as long as it says it takes, if and only if
   * every confirm, and every move, took over a hold placed for that long.
   */
  lemma BookingsGetTheirMinutes(steps: seq<Step>, units: Units)
    ensures AlwaysFull(EMPTY, steps, units) <==> StepsFit(EMPTY, steps, units)
  {
    EmptySound();
    FullIffFits(EMPTY, steps, units);
  }

  // ------------------------------------------------------------------ a confirm of something longer

  /** Half an hour without a chair, and an hour and a half of the same. */
  const WASH: Service := RawService("wash", 30, Band(0, 30), true)

  const HALF_HOUR := PlaceRequest(0, 0, 7, 600, [WASH], 1000)

  const THREE_WASHES := ConfirmRequest(0, "key", 0, [WASH, WASH, WASH], NoPayment)

  lemma WashNeedsNoChair(start: int)
    ensures TotalMinutes([WASH]) == 30 && ResourceDemand([WASH], start) == []
  {
    assert Cut(WASH, 0) == [Segment(0, 30, None)];
    var whole := [Segment(0, 30, None)];
    assert [WASH][1..] == [] && Segments([WASH], 0) == whole && whole[1..] == [];
    assert DemandsOf(whole, start) == DemandsOf([], start);
  }

  /**
   * Placed for half an hour and confirmed for an hour and a half: the booking says ninety minutes, and
   * its professional is sold again after thirty.
   */
  lemma ConfirmedForLonger()
    ensures var e := Run(EMPTY, [DoPlace(HALF_HOUR), DoConfirm(THREE_WASHES, 0)], map[]);
      && 2 in e.bookings && e.bookings[2].durationMin == 90 && e.bookings[2].staff == 7
      && PlaceVerdict(e, HALF_HOUR.(startMin := 630), map[]).Placed?
  {
    var steps := [DoPlace(HALF_HOUR), DoConfirm(THREE_WASHES, 0)];
    var held := PlaceWrite(EMPTY, HALF_HOUR);
    var e := Confirm(held, THREE_WASHES, 0);
    WashNeedsNoChair(600);
    WashNeedsNoChair(630);
    assert steps[1..] == [steps[1]] && steps[1..][1..] == [];
    assert Place(EMPTY, HALF_HOUR, map[]) == held;
    assert Run(EMPTY, steps, map[]) == Run(held, steps[1..], map[]) == e;
    assert held.rows == map[1 := VisitRow(HALF_HOUR, 0)] && held.next == 2;
    assert HoldsPerson(held, 0, 1);
    assert TotalMinutes([WASH, WASH, WASH]) == 90 by {
      assert [WASH, WASH, WASH][1..] == [WASH, WASH] && [WASH, WASH][1..] == [WASH];
    }
  }
}
