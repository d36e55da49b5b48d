/**
 * The write of a standing series' occurrence. It goes straight onto the diary, with no hold before it:
 * a booking, its visit row and one chair row, refused only when the professional is taken. It takes the
 * lock a chair count needs and makes none.
 */
module SeriesDiary {
  import opened Basics
  import opened Lifecycle
  import opened Diary
  import opened DiaryProofs
  import opened DiaryChairs
  import opened Materialiser

  /** What every visit of the series has in common; `birth` is where its bookings start. */
  datatype Standing = Standing(branch: Id, station: string, durationMin: int, birth: Status)

  predicate Sellable(v: Standing) {
    v.durationMin > 0 && v.birth in MOVABLE
  }

  predicate Taken(rows: map<Id, Reservation>, v: Standing, day: int, c: Candidate) {
    StaffBusy(rows, c.staff, Instant(day, c.startMin), Instant(day, c.startMin) + v.durationMin)
  }

  function SeatVisit(v: Standing, day: int, c: Candidate, b: Id): Reservation {
    Reservation(Person(c.staff), None, Some(b), Instant(day, c.startMin), Instant(day, c.startMin) + v.durationMin, true)
  }

  function SeatChair(v: Standing, day: int, c: Candidate, b: Id): Reservation {
    SeatVisit(v, day, c, b).(subject := Chair(v.branch, v.station, day))
  }

  /** No hold became this booking: its origin is an id of its own. */
  function SeatWrite(d: Diary, v: Standing, day: int, c: Candidate): Diary {
    var b := d.next + 1;
    d.(rows := d.rows[d.next + 2 := SeatVisit(v, day, c, b)][d.next + 3 := SeatChair(v, day, c, b)],
       bookings := d.bookings[b := Booking(v.birth, v.branch, v.station, c.staff, v.durationMin, d.next)],
       next := d.next + 4)
  }

  function Materialise(d: Diary, v: Standing, day: int, c: Candidate): Diary {
    if Sellable(v) && !Taken(d.rows, v, day, c) then SeatWrite(d, v, day, c) else d
  }

  // ------------------------------------------------------------------ what it keeps

  lemma SeatRows(d: Diary, v: Standing, day: int, c: Candidate)
    requires RowsSound(d) && Sellable(v) && !Taken(d.rows, v, day, c) && (forall b :: b in d.bookings ==> b < d.next)
    ensures RowsSound(SeatWrite(d, v, day, c))
  {
    var e := SeatWrite(d, v, day, c);
    var visit := SeatVisit(v, day, c, d.next + 1);
    forall i | i in e.rows ensures i < e.next && Owned(e, e.rows[i]) {
      if i in d.rows { assert Owned(d, d.rows[i]); }
    }
    forall i, j | i in e.rows && j in e.rows && i != j ensures !Clash(e.rows[i], e.rows[j]) {
      if i in d.rows && j in d.rows {
        assert !Clash(d.rows[i], d.rows[j]);
      } else if i == d.next + 2 && j in d.rows {
        assert !Meets(d.rows[j], Person(c.staff), visit.from, visit.to);
      } else if j == d.next + 2 && i in d.rows {
        assert !Meets(d.rows[i], Person(c.staff), visit.from, visit.to);
      }
    }
  }

  lemma SeatProtected(d: Diary, v: Standing, day: int, c: Candidate)
    requires RowsSound(d) && Protected(d)
    ensures Protected(SeatWrite(d, v, day, c))
  {
    var e := SeatWrite(d, v, day, c);
    KeepsPeople(d, e);
    assert LivePerson(e, d.next + 1, d.next + 2);
  }

  lemma SeatOnce(bookings: map<Id, Booking>, holds: map<Id, int>, next: Id, b: Booking)
    requires Once(bookings, holds, next) && b.durationMin > 0 && b.origin == next && next !in holds
    ensures Once(bookings[next + 1 := b], holds, next + 4)
  {}

  /** The write keeps the diary sound, so nobody is in two places, and adds one booking. */
  lemma SeatSound(d: Diary, v: Standing, day: int, c: Candidate)
    requires Sound(d) && Sellable(v) && !Taken(d.rows, v, day, c)
    ensures Sound(SeatWrite(d, v, day, c))
    ensures |SeatWrite(d, v, day, c).bookings| == |d.bookings| + 1
  {
    var e := SeatWrite(d, v, day, c);
    SeatRows(d, v, day, c);
    SeatProtected(d, v, day, c);
    SeatOnce(d.bookings, d.holds, d.next, e.bookings[d.next + 1]);
    assert d.next + 1 !in d.bookings;
  }

  // ------------------------------------------------------------------ the chair nobody counts

  ghost predicate RoomToSit(rows: map<Id, Reservation>, v: Standing, day: int, c: Candidate, units: Units) {
    forall t :: Instant(day, c.startMin) <= t < Instant(day, c.startMin) + v.durationMin ==>
      InUse(rows, Chair(v.branch, v.station, day), t) < UnitsOf(units, v.branch, v.station)
  }

  lemma SeatInUse(d: Diary, v: Standing, day: int, c: Candidate, branch: Id, station: string, onDay: int, t: int)
    requires RowsSound(d)
    ensures var from := Instant(day, c.startMin);
      InUse(SeatWrite(d, v, day, c).rows, Chair(branch, station, onDay), t)
      == InUse(d.rows, Chair(branch, station, onDay), t)
         + (if v.branch == branch && v.station == station && day == onDay && from <= t < from + v.durationMin
            then 1 else 0)
  {
    var subject, b := Chair(branch, station, onDay), d.next + 1;
    UsingInsert(d.rows, d.next + 2, SeatVisit(v, day, c, b), subject, t);
    UsingInsert(d.rows[d.next + 2 := SeatVisit(v, day, c, b)], d.next + 3, SeatChair(v, day, c, b), subject, t);
  }

  /**
   * A write that goes through keeps every station within its units if and only if the station had a
   * unit to spare at every minute of the visit.
   */
  lemma SeatWithinUnits(d: Diary, v: Standing, day: int, c: Candidate, units: Units)
    requires RowsSound(d) && WithinUnits(d.rows, units)
    ensures WithinUnits(SeatWrite(d, v, day, c).rows, units) <==> RoomToSit(d.rows, v, day, c, units)
  {
    var now := SeatWrite(d, v, day, c).rows;
    if RoomToSit(d.rows, v, day, c, units) {
      forall branch: Id, station: string, onDay: int, t: int
        ensures InUse(now, Chair(branch, station, onDay), t) <= UnitsOf(units, branch, station)
      {
        SeatInUse(d, v, day, c, branch, station, onDay, t);
      }
    }
    if WithinUnits(now, units) {
      forall t | Instant(day, c.startMin) <= t < Instant(day, c.startMin) + v.durationMin
        ensures InUse(d.rows, Chair(v.branch, v.station, day), t) < UnitsOf(units, v.branch, v.station)
      {
        SeatInUse(d, v, day, c, v.branch, v.station, day, t);
        assert InUse(now, Chair(v.branch, v.station, day), t) <= UnitsOf(units, v.branch, v.station);
      }
    }
  }

  const WEEKLY := Standing(0, "colour", 60, Confirmed)

  /** A third professional is free at 600 and the one station is not: the write goes through and two are seated. */
  lemma SeatOversells()
    ensures Sound(TWO_VISITS) && WithinUnits(TWO_VISITS.rows, ONE_STATION) && Sellable(WEEKLY)
    ensures !Taken(TWO_VISITS.rows, WEEKLY, 0, Candidate(600, 9))
    ensures InUse(SeatWrite(TWO_VISITS, WEEKLY, 0, Candidate(600, 9)).rows, Chair(0, "colour", 0), 600) == 2
  {
    TwoVisitsSound();
    TwoVisitsWithinUnits();
    NineIsFree();
    SeatInUse(TWO_VISITS, WEEKLY, 0, Candidate(600, 9), 0, "colour", 0, 600);
    OneSitsAlready();
  }

  lemma NineIsFree()
    ensures !Taken(TWO_VISITS.rows, WEEKLY, 0, Candidate(600, 9))
  {}

  lemma OneSitsAlready()
    ensures InUse(TWO_VISITS.rows, Chair(0, "colour", 0), 600) == 1
  {
    assert Using(TWO_VISITS.rows, Chair(0, "colour", 0), 600) == {3};
  }
}
