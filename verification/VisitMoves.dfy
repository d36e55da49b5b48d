/**
 * Two callers of the same two steps, a hold on the new time and a move onto it. The desk's drag also
 * has a one-step form for a nudge; the customer's change of a session cleans up after a failed move.
 */
module VisitMoves {
  import opened Basics
  import opened Lifecycle
  import opened Chain
  import opened Diary
  import opened DiaryProofs
  import opened DiaryRuns
  import opened DiaryStore
  import Calendar = DiaryCalendar

  datatype Request = Request(
    booking: Id, place: PlaceRequest, sameDay: bool, owesDeposit: bool,
    throws: bool /* something fails before the move's transaction */)

  datatype Outcome = Shifted | Moved | NotThere | ShiftRefused(why: ChangeOutcome) | NotHeld(placed: PlaceOutcome) | MoveRefused

  predicate Success(o: Outcome) {
    o.Shifted? || o.Moved?
  }

  // ------------------------------------------------------------------ onto the hold

  ghost predicate MovesOnto(d: Diary, q: Request, now: int) {
    !q.throws && MoveVerdict(PlaceWrite(d, q.place), q.booking, d.next, now).Changed?
  }

  ghost function Onto(d: Diary, q: Request, now: int): Diary {
    Move(PlaceWrite(d, q.place), q.booking, d.next, q.owesDeposit, now)
  }

  // ------------------------------------------------------------------ the desk's drag

  predicate Nudge(d: Diary, q: Request) {
    q.booking in d.bookings && q.sameDay && q.place.staff == d.bookings[q.booking].staff
  }

  ghost function DeskOutcome(d: Diary, q: Request, units: Units, now: int): Outcome {
    if q.booking !in d.bookings then NotThere
    else if Nudge(d, q) then
      var v := ShiftVerdict(d, q.booking, q.place.day, q.place.startMin);
      if v.Changed? then Shifted else ShiftRefused(v)
    else if !PlaceVerdict(d, q.place, units).Placed? then NotHeld(PlaceVerdict(d, q.place, units))
    else if MovesOnto(d, q, now) then Moved
    else MoveRefused
  }

  ghost function DeskMove(d: Diary, q: Request, units: Units, now: int): Diary {
    match DeskOutcome(d, q, units, now)
    case Shifted => Shift(d, q.booking, q.place.day, q.place.startMin)
    case Moved => Onto(d, q, now)
    case MoveRefused => PlaceWrite(d, q.place)
    case _ => d
  }

  // ------------------------------------------------------------------ the customer's session

  ghost function SessionOutcome(d: Diary, q: Request, units: Units, now: int): Outcome {
    if !PlaceVerdict(d, q.place, units).Placed? then NotHeld(PlaceVerdict(d, q.place, units))
    else if MovesOnto(d, q, now) then Moved
    else MoveRefused
  }

  /** A dry run takes the hold and gives it straight back. */
  ghost function SessionMove(d: Diary, q: Request, units: Units, dryRun: bool, now: int): Diary {
    match SessionOutcome(d, q, units, now)
    case NotHeld(_) => d
    case Moved => if dryRun then Release(PlaceWrite(d, q.place), d.next) else Onto(d, q, now)
    case _ => Release(PlaceWrite(d, q.place), d.next)
  }

  // ------------------------------------------------------------------ as they run

  method HoldAndMove(store: Store, q: Request, now: int) returns (placed: PlaceOutcome, moved: bool)
    requires store.Valid()
    modifies store
    ensures store.Valid() && placed == PlaceVerdict(old(store.Contents()), q.place, store.units)
    ensures moved == (placed.Placed? && MovesOnto(old(store.Contents()), q, now))
    ensures placed.Placed? ==> placed.hold == old(store.Contents()).next
    ensures store.Contents() == if !placed.Placed? then old(store.Contents())
                                else if moved then Onto(old(store.Contents()), q, now)
                                else PlaceWrite(old(store.Contents()), q.place)
  {
    ghost var before := store.Contents();
    moved := false;
    placed := store.PlaceHold(q.place);
    if placed.Placed? && !q.throws {
      assert store.Contents() == PlaceWrite(before, q.place) && placed.hold == before.next;
      var change := store.MoveOnto(q.booking, placed.hold, q.owesDeposit, now);
      moved := change.Changed?;
    }
  }

  method RunDeskMove(store: Store, q: Request, now: int) returns (outcome: Outcome)
    requires store.Valid()
    modifies store
    ensures store.Valid() && store.Contents() == DeskMove(old(store.Contents()), q, store.units, now)
    ensures outcome == DeskOutcome(old(store.Contents()), q, store.units, now)
  {
    if q.booking !in store.bookings { return NotThere; }
    if q.sameDay && q.place.staff == store.bookings[q.booking].staff {
      var shifted := store.ShiftInPlace(q.booking, q.place.day, q.place.startMin);
      return if shifted.Changed? then Shifted else ShiftRefused(shifted);
    }
    var placed, moved := HoldAndMove(store, q, now);
    outcome := if !placed.Placed? then NotHeld(placed) else if moved then Moved else MoveRefused;
  }

  method RunSessionMove(store: Store, q: Request, now: int) returns (outcome: Outcome)
    requires store.Valid()
    modifies store
    ensures store.Valid() && store.Contents() == SessionMove(old(store.Contents()), q, store.units, false, now)
    ensures outcome == SessionOutcome(old(store.Contents()), q, store.units, now)
  {
    var placed, moved := HoldAndMove(store, q, now);
    if !placed.Placed? { return NotHeld(placed); }
    if moved { return Moved; }
    store.ReleaseHold(placed.hold);
    outcome := MoveRefused;
  }

  method AskAboutSession(store: Store, q: Request, now: int) returns (placed: PlaceOutcome)
    requires store.Valid()
    modifies store
    ensures store.Valid() && store.Contents() == SessionMove(old(store.Contents()), q, store.units, true, now)
    ensures placed == PlaceVerdict(old(store.Contents()), q.place, store.units)
  {
    placed := store.PlaceHold(q.place);
    if placed.Placed? { store.ReleaseHold(placed.hold); }
  }

  // ------------------------------------------------------------------ what a failure leaves

  /** A session that was not moved, or only asked about, leaves the diary with nothing but an id used up. */
  lemma FailedSessionLeavesNothing(d: Diary, q: Request, units: Units, dryRun: bool, now: int)
    requires Sound(d) && (dryRun || !Success(SessionOutcome(d, q, units, now)))
    ensures var e := SessionMove(d, q, units, dryRun, now); e == d.(next := e.next)
  {
    if PlaceVerdict(d, q.place, units).Placed? { ReleaseUndoesPlace(d, q.place, units); }
  }

  /**
   * A drag that fails leaves the diary as it was if and only if it failed before its hold was placed.
   * After that nobody gives the hold back: the new time stays taken until it lapses, and releasing it
   * is all that is missing.
   */
  lemma FailedDragKeepsItsHold(d: Diary, q: Request, units: Units, now: int)
    requires Sound(d) && !Success(DeskOutcome(d, q, units, now))
    ensures var e := DeskMove(d, q, units, now);
      && (e == d <==> !DeskOutcome(d, q, units, now).MoveRefused?)
      && (DeskOutcome(d, q, units, now).MoveRefused? ==>
            && e.holds == d.holds[d.next := q.place.expiresAt]
            && (forall subject, t ::
                  Calendar.Uses(e.rows, Calendar.ByHold(d.next), subject, t) <==> Calendar.Wanted(q.place, subject, t))
            && Release(e, d.next) == d.(next := e.next))
  {
    if DeskOutcome(d, q, units, now).MoveRefused? {
      var e := PlaceWrite(d, q.place);
      ReleaseUndoesPlace(d, q.place, units);
      forall subject, t
        ensures Calendar.Uses(e.rows, Calendar.ByHold(d.next), subject, t) <==> Calendar.Wanted(q.place, subject, t)
      {
        Calendar.PlaceMeans(d, q.place, Calendar.ByHold(d.next), subject, t);
      }
      assert d.next !in d.holds;
    }
  }

  // ------------------------------------------------------------------ what a success changes

  /** Everybody else's rows and bookings are the ones there were, and no hold is left or lost. */
  ghost predicate OthersUntouched(d: Diary, e: Diary, b: Id) {
    && e.holds == d.holds && e.bookings.Keys == d.bookings.Keys
    && (forall c :: c in d.bookings && c != b ==> e.bookings[c] == d.bookings[c])
    && (forall i :: i in d.rows && d.rows[i].booking != Some(b) ==> i in e.rows && e.rows[i] == d.rows[i])
    && (forall i :: i in e.rows && e.rows[i].booking != Some(b) ==> i in d.rows)
  }

  /** The booking keeps no time but the new one, and has that one with the professional it was moved to. */
  ghost predicate OnlyThere(d: Diary, e: Diary, b: Id, visit: Reservation) {
    && (forall i :: i in e.rows && e.rows[i].booking == Some(b) && e.rows[i].blocking ==> i !in d.rows)
    && (exists i :: i in e.rows && e.rows[i] == visit.(hold := None, booking := Some(b)))
    && b in e.bookings && visit.subject == Person(e.bookings[b].staff)
  }

  /** One row through a move: somebody's as it was, the booking's old one freed, the hold's one handed over. */
  lemma RowThroughMove(rows: map<Id, Reservation>, held: map<Id, Reservation>, hold: Id, b: Id, i: Id)
    requires i in held
    requires i in rows ==> held[i] == rows[i] && rows[i].hold != Some(hold)
    requires i !in rows ==> held[i].hold == Some(hold) && held[i].booking.None?
    ensures i in Repoint(Unblock(held, b), hold, b)
    ensures Repoint(Unblock(held, b), hold, b)[i]
         == if i !in rows then held[i].(hold := None, booking := Some(b))
            else if rows[i].booking == Some(b) then rows[i].(blocking := false) else rows[i]
  {}

  lemma HeldRowsOnly(d: Diary, q: PlaceRequest, i: Id)
    requires Sound(d) && i in PlaceWrite(d, q).rows
    ensures i in d.rows ==> PlaceWrite(d, q).rows[i] == d.rows[i] && d.rows[i].hold != Some(d.next)
    ensures i !in d.rows ==> PlaceWrite(d, q).rows[i].hold == Some(d.next) && PlaceWrite(d, q).rows[i].booking.None?
  {
    if i in d.rows { assert Owned(d, d.rows[i]); }
  }

  lemma MovedRows(d: Diary, q: Request, now: int)
    requires Sound(d) && MovesOnto(d, q, now)
    ensures var held, rows := PlaceWrite(d, q.place).rows, Onto(d, q, now).rows;
      && rows.Keys == held.Keys
      && forall i :: i in rows ==>
           rows[i] == if i !in d.rows then held[i].(hold := None, booking := Some(q.booking))
                      else if d.rows[i].booking == Some(q.booking) then d.rows[i].(blocking := false) else d.rows[i]
  {
    var held := PlaceWrite(d, q.place).rows;
    forall i | i in held ensures
      Repoint(Unblock(held, q.booking), d.next, q.booking)[i]
      == if i !in d.rows then held[i].(hold := None, booking := Some(q.booking))
         else if d.rows[i].booking == Some(q.booking) then d.rows[i].(blocking := false) else d.rows[i]
    {
      HeldRowsOnly(d, q.place, i);
      RowThroughMove(d.rows, held, d.next, q.booking, i);
    }
  }

  lemma MovedStaff(d: Diary, q: Request, now: int)
    requires Sound(d) && OneVisitRow(d) && MovesOnto(d, q, now)
    ensures Onto(d, q, now).bookings[q.booking].staff == q.place.staff
  {
    var held := PlaceWrite(d, q.place);
    PlaceOneVisitRow(d, q.place);
    assert HoldsPerson(held, d.next, d.next + 1);
    TheHeldPerson(held, d.next, d.next + 1);
  }

  lemma MovedHolds(d: Diary, q: Request, now: int)
    requires d.next !in d.holds && MovesOnto(d, q, now)
    ensures Onto(d, q, now).holds == d.holds && Onto(d, q, now).bookings.Keys == d.bookings.Keys
  {
    assert d.holds[d.next := q.place.expiresAt] - {d.next} == d.holds;
  }

  lemma PlacedBeside(d: Diary, q: PlaceRequest)
    requires forall i :: i in d.rows ==> i < d.next
    ensures var rows := PlaceWrite(d, q).rows;
      d.rows.Keys <= rows.Keys && d.next + 1 in rows && d.next + 1 !in d.rows && rows[d.next + 1] == VisitRow(q, d.next)
  {}

  lemma MovedMinute(d: Diary, q: Request, units: Units, now: int, subject: Subject, t: int)
    requires Sound(d) && PlaceVerdict(d, q.place, units).Placed? && MovesOnto(d, q, now)
    ensures Calendar.Uses(Onto(d, q, now).rows, Calendar.ByBooking(q.booking), subject, t)
      <==> Calendar.Wanted(q.place, subject, t)
  {
    var held := PlaceWrite(d, q.place);
    PlaceSound(d, q.place, units);
    assert held == Place(d, q.place, units);
    Calendar.MoveMeans(held, q.booking, d.next, q.owesDeposit, Calendar.ByBooking(q.booking), subject, t);
    Calendar.PlaceMeans(d, q.place, Calendar.ByHold(d.next), subject, t);
  }

  /**
   * Moved by hold, by either caller: the booking keeps the professional that was asked for, and each
   * chair, busy at exactly the minutes of the new time; it waits for its deposit if it owes one; and
   * nothing else in the diary changed.
   */
  lemma MovedOntoTheHold(d: Diary, q: Request, units: Units, now: int)
    requires Sound(d) && OneVisitRow(d) && PlaceVerdict(d, q.place, units).Placed? && MovesOnto(d, q, now)
    ensures var e := Onto(d, q, now); var v := d.bookings[q.booking];
      && OthersUntouched(d, e, q.booking) && OnlyThere(d, e, q.booking, VisitRow(q.place, d.next))
      && e.bookings[q.booking] == v.(staff := q.place.staff, status := if q.owesDeposit then PendingPayment else v.status)
      && forall subject, t ::
           Calendar.Uses(e.rows, Calendar.ByBooking(q.booking), subject, t) <==> Calendar.Wanted(q.place, subject, t)
  {
    forall subject, t
      ensures Calendar.Uses(Onto(d, q, now).rows, Calendar.ByBooking(q.booking), subject, t) <==> Calendar.Wanted(q.place, subject, t)
    {
      MovedMinute(d, q, units, now, subject, t);
    }
    MovedRows(d, q, now);
    MovedStaff(d, q, now);
    MovedHolds(d, q, now);
    PlacedBeside(d, q.place);
    MovedHangsTogether(d, Onto(d, q, now), q.booking, PlaceWrite(d, q.place).rows, VisitRow(q.place, d.next));
  }

  lemma MovedHangsTogether(d: Diary, e: Diary, b: Id, held: map<Id, Reservation>, visit: Reservation)
    requires e.holds == d.holds && e.bookings.Keys == d.bookings.Keys && b in e.bookings
    requires forall c :: c in d.bookings && c != b ==> e.bookings[c] == d.bookings[c]
    requires visit.subject == Person(e.bookings[b].staff) && e.rows.Keys == held.Keys && d.rows.Keys <= held.Keys
    requires d.next + 1 in held && d.next + 1 !in d.rows && held[d.next + 1] == visit
    requires forall i :: i in e.rows ==>
      e.rows[i] == if i !in d.rows then held[i].(hold := None, booking := Some(b))
                   else if d.rows[i].booking == Some(b) then d.rows[i].(blocking := false) else d.rows[i]
    ensures OthersUntouched(d, e, b) && OnlyThere(d, e, b, visit)
  {
    assert e.rows[d.next + 1] == visit.(hold := None, booking := Some(b));
  }

  lemma ShiftedRows(d: Diary, b: Id, day: int, startMin: int)
    requires b in d.bookings && forall i :: i in d.rows ==> i < d.next
    ensures var rows := ShiftWrite(d, b, day, startMin).rows; var v := d.bookings[b];
      && rows.Keys == d.rows.Keys + {d.next, d.next + 1} && d.next !in d.rows && d.next + 1 !in d.rows
      && rows[d.next] == ShiftedVisit(v, b, day, startMin) && rows[d.next + 1] == ShiftedChair(v, b, day, startMin)
      && forall i :: i in d.rows ==>
           rows[i] == if d.rows[i].booking == Some(b) then d.rows[i].(blocking := false) else d.rows[i]
  {}

  /**
   * Nudged in place: the booking is as it was, and keeps the professional and the station it had busy
   * for its whole length from the minute it was nudged to, and at no other.
   */
  lemma NudgedInPlace(d: Diary, b: Id, day: int, startMin: int)
    requires Sound(d) && ShiftVerdict(d, b, day, startMin).Changed?
    ensures var e := Shift(d, b, day, startMin);
      && OthersUntouched(d, e, b) && OnlyThere(d, e, b, ShiftedVisit(d.bookings[b], b, day, startMin))
      && e.bookings == d.bookings
      && forall subject, t ::
           Calendar.Uses(e.rows, Calendar.ByBooking(b), subject, t)
           <==> Calendar.Nudged(d.bookings[b], day, startMin, subject, t)
  {
    forall subject, t
      ensures Calendar.Uses(Shift(d, b, day, startMin).rows, Calendar.ByBooking(b), subject, t)
        <==> Calendar.Nudged(d.bookings[b], day, startMin, subject, t)
    {
      Calendar.ShiftMeans(d, b, day, startMin, Calendar.ByBooking(b), subject, t);
    }
    ShiftedRows(d, b, day, startMin);
    assert Shift(d, b, day, startMin) == ShiftWrite(d, b, day, startMin);
    var visit := ShiftedVisit(d.bookings[b], b, day, startMin);
    assert visit == visit.(hold := None, booking := Some(b));
  }

  // ------------------------------------------------------------------ when a move goes through

  predicate MayMove(d: Diary, q: Request, now: int) {
    && !q.throws && q.booking in d.bookings && now < q.place.expiresAt
    && d.bookings[q.booking].status in {Confirmed, PendingPayment, PendingConfirmation}
  }

  lemma MovesOntoIff(d: Diary, q: Request, units: Units, now: int)
    requires Sound(d) && PlaceVerdict(d, q.place, units).Placed?
    ensures MovesOnto(d, q, now) <==> MayMove(d, q, now)
  {
    var held := PlaceWrite(d, q.place);
    assert held.rows[d.next + 1] == VisitRow(q.place, d.next);
    assert HoldsPerson(held, d.next, d.next + 1);
  }

  /** A session is moved if and only if its new time is placed, nothing throws, and it may still be moved. */
  lemma SessionMovedIff(d: Diary, q: Request, units: Units, now: int)
    requires Sound(d)
    ensures SessionOutcome(d, q, units, now).Moved? <==> PlaceVerdict(d, q.place, units).Placed? && MayMove(d, q, now)
  {
    if PlaceVerdict(d, q.place, units).Placed? { MovesOntoIff(d, q, units, now); }
  }

  /**
   * A drag with the same professional on the same day is a nudge, and goes through exactly when a nudge
   * does; any other goes through exactly when a session's move would.
   */
  lemma DraggedIff(d: Diary, q: Request, units: Units, now: int)
    requires Sound(d) && q.booking in d.bookings
    ensures var nudge := q.sameDay && q.place.staff == d.bookings[q.booking].staff;
      && (DeskOutcome(d, q, units, now).Shifted? <==> nudge && ShiftVerdict(d, q.booking, q.place.day, q.place.startMin).Changed?)
      && (DeskOutcome(d, q, units, now).Moved? <==> !nudge && PlaceVerdict(d, q.place, units).Placed? && MayMove(d, q, now))
  {
    if PlaceVerdict(d, q.place, units).Placed? { MovesOntoIff(d, q, units, now); }
  }
}
