/**
 * One day of the diary. Whoever answers for a day reads that day's blocking reservations and nothing
 * else; a create for another day changes none of them, so it changes none of the answers.
 */
module DiaryDays {
  import opened Basics
  import opened Lifecycle
  import opened Chain
  import opened Diary
  import opened DiaryProofs
  import opened DiaryRuns
  import opened MobileCreate

  datatype Busy = Busy(subject: Subject, from: int, to: int)

  predicate OnDay(r: Reservation, day: int) {
    match r.subject
    case Person(_) => r.from < Instant(day + 1, 0) && Instant(day, 0) < r.to
    case Chair(_, _, chairDay) => chairDay == day
  }

  /** What is taken on a day, as it is read: by whom is not asked. */
  function DayView(rows: map<Id, Reservation>, day: int): map<Id, Busy> {
    map i | i in rows && rows[i].blocking && OnDay(rows[i], day) :: Busy(rows[i].subject, rows[i].from, rows[i].to)
  }

  /** Between the day's first minute and its last. */
  predicate InsideDay(q: PlaceRequest) {
    0 <= q.startMin && q.startMin + TotalMinutes(q.services) <= DAY_MINUTES
  }

  predicate RowInside(r: Reservation, day: int) {
    match r.subject
    case Person(_) => Instant(day, 0) <= r.from < r.to <= Instant(day + 1, 0)
    case Chair(_, _, chairDay) => chairDay == day
  }

  predicate SameTime(a: Reservation, b: Reservation) {
    a.subject == b.subject && a.from == b.from && a.to == b.to && a.blocking == b.blocking
  }

  /** The rows there were take the time they took, and a new one that blocks lies inside the day. */
  ghost predicate OnlyDay(rows: map<Id, Reservation>, after: map<Id, Reservation>, day: int) {
    && (forall i :: i in rows ==> i in after && SameTime(rows[i], after[i]))
    && (forall i :: i in after && i !in rows && after[i].blocking ==> RowInside(after[i], day))
  }

  lemma InsideIsNowhereElse(r: Reservation, day: int, other: int)
    requires RowInside(r, day) && other != day
    ensures !OnDay(r, other)
  {}

  lemma OtherDaysRead(rows: map<Id, Reservation>, after: map<Id, Reservation>, day: int, other: int)
    requires OnlyDay(rows, after, day) && other != day
    ensures DayView(after, other) == DayView(rows, other)
  {
    forall i | i in after && i !in rows && after[i].blocking ensures !OnDay(after[i], other) {
      InsideIsNowhereElse(after[i], day, other);
    }
  }

  lemma OnlyDayTwice(a: map<Id, Reservation>, b: map<Id, Reservation>, c: map<Id, Reservation>, day: int)
    requires OnlyDay(a, b, day) && OnlyDay(b, c, day)
    ensures OnlyDay(a, c, day)
  {
    forall i | i in c && i !in a && c[i].blocking ensures RowInside(c[i], day) {
      if i in b { assert SameTime(b[i], c[i]); }
    }
  }

  // ------------------------------------------------------------------ what a place asks of its day

  function MeetingOn(view: map<Id, Busy>, subject: Subject, from: int, to: int): set<Id> {
    set i | i in view && view[i].subject == subject && view[i].from < to && from < view[i].to
  }

  /** A window inside the day is met only by what the day's reading shows. */
  lemma MeetingIsOnDay(rows: map<Id, Reservation>, day: int, subject: Subject, from: int, to: int)
    requires match subject
      case Person(_) => Instant(day, 0) <= from && to <= Instant(day + 1, 0)
      case Chair(_, _, chairDay) => chairDay == day
    ensures Meeting(rows, subject, from, to) == MeetingOn(DayView(rows, day), subject, from, to)
  {
    forall i | i in Meeting(rows, subject, from, to) ensures i in DayView(rows, day) {
      assert OnDay(rows[i], day);
    }
  }

  lemma {:induction false} FullOnDay(
      a: map<Id, Reservation>, b: map<Id, Reservation>, q: PlaceRequest, demands: seq<Demand>, units: Units)
    requires DayView(a, q.day) == DayView(b, q.day)
    ensures FirstFull(a, q, demands, units) == FirstFull(b, q, demands, units)
  {
    if demands != [] {
      var chair := Chair(q.branch, demands[0].station, q.day);
      MeetingIsOnDay(a, q.day, chair, demands[0].fromMin, demands[0].toMin);
      MeetingIsOnDay(b, q.day, chair, demands[0].fromMin, demands[0].toMin);
      FullOnDay(a, b, q, demands[1..], units);
    }
  }

  /** Two diaries that read the same on a day answer every place inside it alike. */
  lemma PlaceReadsItsDay(d: Diary, e: Diary, q: PlaceRequest, units: Units)
    requires InsideDay(q) && DayView(d.rows, q.day) == DayView(e.rows, q.day)
    ensures PlaceVerdict(d, q, units).Placed? <==> PlaceVerdict(e, q, units).Placed?
    ensures !PlaceVerdict(d, q, units).Placed? ==> PlaceVerdict(d, q, units) == PlaceVerdict(e, q, units)
  {
    var visit := VisitRow(q, d.next);
    FullOnDay(d.rows, e.rows, q, DemandsFor(q), units);
    MeetingIsOnDay(d.rows, q.day, Person(q.staff), visit.from, visit.to);
    MeetingIsOnDay(e.rows, q.day, Person(q.staff), visit.from, visit.to);
    BusyMeansMeeting(d.rows, q.staff, visit.from, visit.to);
    BusyMeansMeeting(e.rows, q.staff, visit.from, visit.to);
  }

  // ------------------------------------------------------------------ what a create changes

  lemma PlaceIsOnDay(d: Diary, q: PlaceRequest)
    requires RowsSound(d) && InsideDay(q) && q.services != []
    ensures OnlyDay(d.rows, PlaceWrite(d, q).rows, q.day)
  {
    var rows := PlaceWrite(d, q).rows;
    forall i | i in rows && i !in d.rows ensures RowInside(rows[i], q.day) {
      if i == d.next + 1 { assert rows[i] == VisitRow(q, d.next); }
    }
  }

  /** Rows of `d` belong neither to the new hold nor to the booking made of it. */
  lemma NobodysNew(d: Diary, held: Diary)
    requires RowsSound(d) && OneHoldMore(d, held)
    ensures forall i :: i in d.rows ==> d.rows[i].hold != Some(d.next) && d.rows[i].booking != Some(held.next)
  {
    forall i | i in d.rows ensures d.rows[i].hold != Some(d.next) && d.rows[i].booking != Some(held.next) {
      assert Owned(d, d.rows[i]);
    }
  }

  /** The four ways a create can leave its rows. */
  lemma RowsOnDay(rows: map<Id, Reservation>, held: map<Id, Reservation>, hold: Id, b: Id, day: int)
    requires OnlyDay(rows, held, day)
    requires forall i :: i in rows ==>
      held[i] == rows[i] && rows[i].hold != Some(hold) && rows[i].booking != Some(b)
    ensures OnlyDay(rows, Without(held, {hold}), day)
    ensures OnlyDay(rows, Repoint(held, hold, b), day)
    ensures OnlyDay(rows, Without(Repoint(held, hold, b), {hold}), day)
    ensures OnlyDay(rows, Unblock(Without(Repoint(held, hold, b), {hold}), b), day)
  {}

  lemma RowsAfterHold(held: Diary, c: ConfirmRequest, fault: Fault, now: int)
    requires c.key !in held.keys
    ensures var rows := AfterHold(held, c, fault, now).rows; var handed := Repoint(held.rows, c.hold, held.next);
      || rows == Without(held.rows, {c.hold}) || rows == handed || rows == Without(handed, {c.hold})
      || rows == Unblock(Without(handed, {c.hold}), held.next)
  {}

  lemma AfterHoldIsOnDay(d: Diary, held: Diary, c: ConfirmRequest, fault: Fault, now: int, day: int)
    requires RowsSound(d) && OneHoldMore(d, held) && c.hold == d.next && c.key !in d.keys
    requires OnlyDay(d.rows, held.rows, day)
    ensures OnlyDay(d.rows, AfterHold(held, c, fault, now).rows, day)
  {
    NobodysNew(d, held);
    RowsOnDay(d.rows, held.rows, d.next, held.next, day);
    RowsAfterHold(held, c, fault, now);
  }

  /** Whatever comes of it, a create with a key of its own changes its own day only. */
  lemma CreateIsOnDay(d: Diary, p: PlaceRequest, c: ConfirmRequest, units: Units, fault: Fault, now: int)
    requires Sound(d) && c.key !in d.keys && InsideDay(p)
    ensures OnlyDay(d.rows, Create(d, p, c, units, fault, now).rows, p.day)
  {
    if PlaceVerdict(d, p, units).Placed? {
      PlacedIsOneHoldMore(d, p);
      PlaceIsOnDay(d, p);
      AfterHoldIsOnDay(d, PlaceWrite(d, p), c.(hold := d.next), fault, now, p.day);
    }
  }

  /** So no place on another day is answered differently after it. */
  lemma CreateLeavesOtherDays(
      d: Diary, p: PlaceRequest, c: ConfirmRequest, units: Units, fault: Fault, now: int, q: PlaceRequest)
    requires Sound(d) && c.key !in d.keys && InsideDay(p) && InsideDay(q) && q.day != p.day
    ensures var e := Create(d, p, c, units, fault, now);
      && DayView(e.rows, q.day) == DayView(d.rows, q.day)
      && (PlaceVerdict(e, q, units).Placed? <==> PlaceVerdict(d, q, units).Placed?)
      && (!PlaceVerdict(d, q, units).Placed? ==> PlaceVerdict(e, q, units) == PlaceVerdict(d, q, units))
  {
    var e := Create(d, p, c, units, fault, now);
    CreateIsOnDay(d, p, c, units, fault, now);
    OtherDaysRead(d.rows, e.rows, p.day, q.day);
    PlaceReadsItsDay(d, e, q, units);
  }
}
