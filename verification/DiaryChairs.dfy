/**
 * Chairs. "Fewer than its units in use" is no property of one row, so a place counts under a lock
 * before it writes. Every step that does not write a chair row can only lower the count; a shift
 * writes one without counting, and this module says exactly when that is safe.
 */
module DiaryChairs {
  import opened Basics
  import opened Lifecycle
  import opened Chain
  import opened Diary
  import opened DiaryProofs

  /** Everything that blocks in `small` blocks in `large`, for the same subject and minutes. */
  ghost predicate NoMoreThan(small: map<Id, Reservation>, large: map<Id, Reservation>) {
    forall i :: i in small && small[i].blocking ==>
      i in large && large[i].blocking && large[i].subject == small[i].subject
      && large[i].from == small[i].from && large[i].to == small[i].to
  }

  lemma FewerInUse(small: map<Id, Reservation>, large: map<Id, Reservation>, subject: Subject, t: int)
    requires NoMoreThan(small, large)
    ensures InUse(small, subject, t) <= InUse(large, subject, t)
  {
    CardSubset(Using(small, subject, t), Using(large, subject, t));
  }

  lemma FewerWithinUnits(small: map<Id, Reservation>, large: map<Id, Reservation>, units: Units)
    requires NoMoreThan(small, large) && WithinUnits(large, units)
    ensures WithinUnits(small, units)
  {
    forall branch: Id, station: string, day: int, t: int
      ensures InUse(small, Chair(branch, station, day), t) <= UnitsOf(units, branch, station)
    {
      FewerInUse(small, large, Chair(branch, station, day), t);
    }
  }

  lemma InUseAtMostOverlapping(rows: map<Id, Reservation>, subject: Subject, from: int, to: int, t: int)
    requires from <= t < to
    ensures InUse(rows, subject, t) <= Overlapping(rows, subject, from, to)
  {
    CardSubset(Using(rows, subject, t), Meeting(rows, subject, from, to));
  }

  /** No demand was refused, so each found fewer rows in its window than the station has units. */
  lemma {:induction false} NoneFull(rows: map<Id, Reservation>, q: PlaceRequest, demands: seq<Demand>, units: Units, k: nat)
    requires FirstFull(rows, q, demands, units).None? && k < |demands|
    ensures Overlapping(rows, Chair(q.branch, demands[k].station, q.day), demands[k].fromMin, demands[k].toMin)
            < UnitsOf(units, q.branch, demands[k].station)
  {
    if k > 0 { NoneFull(rows, q, demands[1..], units, k - 1); }
  }

  lemma UsingInsert(rows: map<Id, Reservation>, k: Id, r: Reservation, subject: Subject, t: int)
    requires k !in rows
    ensures InUse(rows[k := r], subject, t) == InUse(rows, subject, t) + (if Covers(r, subject, t) then 1 else 0)
  {
    if Covers(r, subject, t) {
      assert Using(rows[k := r], subject, t) == Using(rows, subject, t) + {k};
    } else {
      assert Using(rows[k := r], subject, t) == Using(rows, subject, t);
    }
  }

  lemma UsingJoin(a: map<Id, Reservation>, b: map<Id, Reservation>, subject: Subject, t: int)
    requires a.Keys !! b.Keys
    ensures InUse(a + b, subject, t) == InUse(a, subject, t) + InUse(b, subject, t)
  {
    assert Using(a + b, subject, t) == Using(a, subject, t) + Using(b, subject, t);
    CardUnion(Using(a, subject, t), Using(b, subject, t));
  }

  /** The new visit sits in at most one chair at any minute. */
  lemma OneNewChair(q: PlaceRequest, hold: Id, first: Id, subject: Subject, t: int)
    ensures InUse(ChairRows(q, hold, first), subject, t) <= 1
  {
    var rows := ChairRows(q, hold, first);
    ResourceDemandDisjoint(q.services, Instant(q.day, q.startMin));
    forall i, j | i in Using(rows, subject, t) && j in Using(rows, subject, t) ensures i == j {}
    CardAtMostOne(Using(rows, subject, t));
  }

  lemma PlaceAdds(d: Diary, q: PlaceRequest, subject: Subject, t: int)
    requires RowsSound(d) && subject.Chair?
    ensures InUse(PlaceWrite(d, q).rows, subject, t)
            == InUse(d.rows, subject, t) + InUse(ChairRows(q, d.next, d.next + 2), subject, t)
  {
    UsingInsert(ChairRows(q, d.next, d.next + 2), d.next + 1, VisitRow(q, d.next), subject, t);
    UsingJoin(d.rows, HeldRows(q, d.next), subject, t);
  }

  lemma PlaceInUse(d: Diary, q: PlaceRequest, units: Units, branch: Id, station: string, day: int, t: int)
    requires RowsSound(d) && PlaceVerdict(d, q, units).Placed?
    requires InUse(d.rows, Chair(branch, station, day), t) <= UnitsOf(units, branch, station)
    ensures InUse(PlaceWrite(d, q).rows, Chair(branch, station, day), t) <= UnitsOf(units, branch, station)
  {
    var subject := Chair(branch, station, day);
    PlaceAdds(d, q, subject, t);
    OneNewChair(q, d.next, d.next + 2, subject, t);
    var added := Using(ChairRows(q, d.next, d.next + 2), subject, t);
    if added != {} {
      var i :| i in added;
      NewChairHadRoom(d, q, units, subject, i, t);
    }
  }

  lemma NewChairHadRoom(d: Diary, q: PlaceRequest, units: Units, subject: Subject, i: Id, t: int)
    requires PlaceVerdict(d, q, units).Placed?
    requires i in Using(ChairRows(q, d.next, d.next + 2), subject, t)
    ensures subject.Chair? && InUse(d.rows, subject, t) < UnitsOf(units, subject.branch, subject.station)
  {
    var k: nat := i - (d.next + 2);
    NoneFull(d.rows, q, DemandsFor(q), units, k);
    InUseAtMostOverlapping(d.rows, subject, DemandsFor(q)[k].fromMin, DemandsFor(q)[k].toMin, t);
  }

  /** A place never seats more visits at a minute than the station has units, whatever the services. */
  lemma PlaceWithinUnits(d: Diary, q: PlaceRequest, units: Units)
    requires RowsSound(d) && WithinUnits(d.rows, units)
    ensures WithinUnits(Place(d, q, units).rows, units)
  {
    if PlaceVerdict(d, q, units).Placed? {
      forall branch: Id, station: string, day: int, t: int
        ensures InUse(PlaceWrite(d, q).rows, Chair(branch, station, day), t) <= UnitsOf(units, branch, station)
      {
        PlaceInUse(d, q, units, branch, station, day, t);
      }
    }
  }

  // ------------------------------------------------------------------ the shift

  /** One unit to spare at every minute of the new window, counting everyone but the booking itself. */
  ghost predicate RoomToShift(d: Diary, b: Id, day: int, startMin: int, units: Units)
    requires b in d.bookings
  {
    var v := d.bookings[b];
    forall t :: Instant(day, startMin) <= t < Instant(day, startMin) + v.durationMin ==>
      InUse(Freed(d, b).rows, Chair(v.branch, v.station, day), t) < UnitsOf(units, v.branch, v.station)
  }

  lemma ShiftInUse(d: Diary, b: Id, day: int, startMin: int, branch: Id, station: string, onDay: int, t: int)
    requires RowsSound(d) && b in d.bookings
    ensures var v := d.bookings[b]; var from := Instant(day, startMin);
      InUse(ShiftWrite(d, b, day, startMin).rows, Chair(branch, station, onDay), t)
      == InUse(Freed(d, b).rows, Chair(branch, station, onDay), t)
         + (if v.branch == branch && v.station == station && day == onDay && from <= t < from + v.durationMin
            then 1 else 0)
  {
    var subject := Chair(branch, station, onDay);
    var freed := Freed(d, b).rows;
    var v := d.bookings[b];
    UsingInsert(freed, d.next, ShiftedVisit(v, b, day, startMin), subject, t);
    UsingInsert(freed[d.next := ShiftedVisit(v, b, day, startMin)], d.next + 1,
                ShiftedChair(v, b, day, startMin), subject, t);
  }

  /**
   * A shift that goes through keeps every station within its units if and only if the target window
   * had a unit to spare throughout. The source never asks: it takes the lock a count would need and
   * does not count.
   */
  lemma ShiftWithinUnits(d: Diary, b: Id, day: int, startMin: int, units: Units)
    requires RowsSound(d) && WithinUnits(d.rows, units) && ShiftVerdict(d, b, day, startMin).Changed?
    ensures WithinUnits(Shift(d, b, day, startMin).rows, units) <==> RoomToShift(d, b, day, startMin, units)
  {
    var v := d.bookings[b];
    var now := ShiftWrite(d, b, day, startMin).rows;
    FewerWithinUnits(Freed(d, b).rows, d.rows, units);
    if RoomToShift(d, b, day, startMin, units) {
      forall branch: Id, station: string, onDay: int, t: int
        ensures InUse(now, Chair(branch, station, onDay), t) <= UnitsOf(units, branch, station)
      {
        ShiftInUse(d, b, day, startMin, branch, station, onDay, t);
      }
    }
    if WithinUnits(now, units) {
      forall t | Instant(day, startMin) <= t < Instant(day, startMin) + v.durationMin
        ensures InUse(Freed(d, b).rows, Chair(v.branch, v.station, day), t) < UnitsOf(units, v.branch, v.station)
      {
        ShiftInUse(d, b, day, startMin, v.branch, v.station, day, t);
        assert InUse(now, Chair(v.branch, v.station, day), t) <= UnitsOf(units, v.branch, v.station);
      }
    }
  }

  /** The count a place makes would have been enough: refusing on it keeps every station within its units. */
  lemma CountingWouldDo(d: Diary, b: Id, day: int, startMin: int, units: Units)
    requires b in d.bookings
    requires var v := d.bookings[b];
      Overlapping(Freed(d, b).rows, Chair(v.branch, v.station, day),
                  Instant(day, startMin), Instant(day, startMin) + v.durationMin) < UnitsOf(units, v.branch, v.station)
    ensures RoomToShift(d, b, day, startMin, units)
  {
    var v := d.bookings[b];
    var from := Instant(day, startMin);
    forall t | from <= t < from + v.durationMin
      ensures InUse(Freed(d, b).rows, Chair(v.branch, v.station, day), t) < UnitsOf(units, v.branch, v.station)
    {
      InUseAtMostOverlapping(Freed(d, b).rows, Chair(v.branch, v.station, day), from, from + v.durationMin, t);
    }
  }

  // ------------------------------------------------------------------ the shift that oversells

  function Visit(staff: Id, b: Id, from: int): Reservation {
    Reservation(Person(staff), None, Some(b), from, from + 60, true)
  }

  function Seat(b: Id, from: int): Reservation {
    Reservation(Chair(0, "colour", 0), None, Some(b), from, from + 60, true)
  }

  /** Two one-hour visits, two professionals, one colour station, one after the other. */
  const TWO_VISITS := Diary(
    map[2 := Visit(7, 0, 600), 3 := Seat(0, 600), 4 := Visit(8, 1, 660), 5 := Seat(1, 660)],
    map[], map[0 := Booking(Confirmed, 0, "colour", 7, 60, 6), 1 := Booking(Confirmed, 0, "colour", 8, 60, 7)],
    map[], [], 8)

  const ONE_STATION: Units := map[(0, "colour") := 1]

  lemma TwoVisitsSound()
    ensures Sound(TWO_VISITS)
  {
    TwoVisitsRows();
    TwoVisitsProtected();
  }

  lemma TwoVisitsProtected()
    ensures Protected(TWO_VISITS)
  {
    assert LivePerson(TWO_VISITS, 0, 2);
    assert LivePerson(TWO_VISITS, 1, 4);
  }

  lemma TwoVisitsRows()
    ensures RowsSound(TWO_VISITS)
  {}

  lemma TwoVisitsWithinUnits()
    ensures WithinUnits(TWO_VISITS.rows, ONE_STATION)
  {
    forall branch: Id, station: string, day: int, t: int
      ensures InUse(TWO_VISITS.rows, Chair(branch, station, day), t) <= UnitsOf(ONE_STATION, branch, station)
    {
      var used := Using(TWO_VISITS.rows, Chair(branch, station, day), t);
      if used != {} {
        var i :| i in used;
        assert i == 3 || i == 5;
        CardAtMostOne(used);
      }
    }
  }

  /** Dragging the second visit onto the first one's hour is accepted, and the one station then seats two. */
  lemma ShiftOversells()
    ensures Sound(TWO_VISITS) && WithinUnits(TWO_VISITS.rows, ONE_STATION)
    ensures ShiftVerdict(TWO_VISITS, 1, 0, 600).Changed?
    ensures InUse(Shift(TWO_VISITS, 1, 0, 600).rows, Chair(0, "colour", 0), 600) == 2
  {
    TwoVisitsSound();
    TwoVisitsWithinUnits();
    SecondVisitMayMove();
    ShiftInUse(TWO_VISITS, 1, 0, 600, 0, "colour", 0, 600);
    OneStillSits();
  }

  lemma SecondVisitMayMove()
    ensures ShiftVerdict(TWO_VISITS, 1, 0, 600).Changed?
  {}

  lemma OneStillSits()
    ensures InUse(Freed(TWO_VISITS, 1).rows, Chair(0, "colour", 0), 600) == 1
  {
    assert Using(Freed(TWO_VISITS, 1).rows, Chair(0, "colour", 0), 600) == {3};
  }
}
