/**
 * What the rows of the diary mean, minute by minute: who keeps whom, or which chair, busy. A visit is
 * told by the service that is being done at each of its minutes, and every step by what it does to
 * everybody's minutes; the rows are proved to say exactly that.
 */
module DiaryCalendar {
  import opened Basics
  import opened Lifecycle
  import opened Chain
  import opened Diary
  import opened DiaryProofs
  import opened DiaryRuns
  import Materialiser
  import S = SeriesDiary

  // ------------------------------------------------------------------ the minutes of a visit

  /** The service that is being done, and how far into it. */
  datatype Moment = Moment(service: Service, minute: int)

  function MomentAt(services: seq<Service>, m: int): Option<Moment> {
    if services == [] || m < 0 then None
    else if m < services[0].durationMin then Some(Moment(services[0], m))
    else MomentAt(services[1..], m - services[0].durationMin)
  }

  /** The client leaves the chair during the band of a service that lets her. */
  predicate HandsFree(x: Moment) {
    x.service.releasesChair && x.service.band.Band? && x.service.band.fromMin <= x.minute < x.service.band.toMin
  }

  predicate Sits(services: seq<Service>, m: int, station: string) {
    var at := MomentAt(services, m);
    at.Some? && at.value.service.station == station && !HandsFree(at.value)
  }

  lemma {:induction false} MomentsFillTheVisit(services: seq<Service>, m: int)
    ensures MomentAt(services, m).Some? <==> 0 <= m < TotalMinutes(services)
  {
    if services != [] && m >= services[0].durationMin {
      MomentsFillTheVisit(services[1..], m - services[0].durationMin);
    }
  }

  /** Some stretch of the station reaches over the minute. */
  ghost predicate Demanded(demands: seq<Demand>, station: string, t: int) {
    exists k :: 0 <= k < |demands| && demands[k].station == station && demands[k].fromMin <= t < demands[k].toMin
  }

  lemma DemandedJoin(a: seq<Demand>, b: seq<Demand>, station: string, t: int)
    ensures Demanded(a + b, station, t) <==> Demanded(a, station, t) || Demanded(b, station, t)
  {
    if k :| 0 <= k < |a| && a[k].station == station && a[k].fromMin <= t < a[k].toMin { assert (a + b)[k] == a[k]; }
    if k :| 0 <= k < |b| && b[k].station == station && b[k].fromMin <= t < b[k].toMin { assert (a + b)[|a| + k] == b[k]; }
  }

  lemma {:induction false} DemandsJoin(a: seq<Segment>, b: seq<Segment>, start: int)
    ensures DemandsOf(a + b, start) == DemandsOf(a, start) + DemandsOf(b, start)
  {
    if a == [] {
      assert a + b == b;
    } else {
      assert (a + b)[1..] == a[1..] + b;
      DemandsJoin(a[1..], b, start);
    }
  }

  lemma OneDemand(s: Segment, start: int, station: string, t: int)
    ensures Demanded(DemandsOf([s], start), station, t) <==>
      s.station == Some(station) && start + s.offset <= t < start + s.offset + s.duration
  {
    assert [s][1..] == [];
    if s.station.Some? { assert DemandsOf([s], start)[0].station == s.station.value; }
  }

  /** One service asks for its station at all its minutes but the hands-free ones. */
  lemma CutMeans(s: Service, offset: int, start: int, station: string, t: int)
    ensures var m := t - start - offset;
      Demanded(DemandsOf(Cut(s, offset), start), station, t) <==>
        0 <= m < s.durationMin && s.station == station && !HandsFree(Moment(s, m))
  {
    if s.band.Band? && s.releasesChair {
      var head := Segment(offset, s.band.fromMin, Some(s.station));
      var middle := Segment(offset + s.band.fromMin, s.band.toMin - s.band.fromMin, None);
      var tail := Segment(offset + s.band.toMin, s.durationMin - s.band.toMin, Some(s.station));
      var first := if s.band.fromMin > 0 then [head] else [];
      var last := if s.band.toMin < s.durationMin then [tail] else [];
      assert Cut(s, offset) == first + ([middle] + last);
      DemandsJoin(first, [middle] + last, start);
      DemandsJoin([middle], last, start);
      DemandedJoin(DemandsOf(first, start), DemandsOf([middle] + last, start), station, t);
      DemandedJoin(DemandsOf([middle], start), DemandsOf(last, start), station, t);
      OneDemand(head, start, station, t);
      OneDemand(middle, start, station, t);
      OneDemand(tail, start, station, t);
    } else {
      OneDemand(Segment(offset, s.durationMin, Some(s.station)), start, station, t);
    }
  }

  lemma {:induction false} SegmentsMean(services: seq<Service>, offset: int, start: int, station: string, t: int)
    ensures Demanded(DemandsOf(Segments(services, offset), start), station, t) <==> Sits(services, t - start - offset, station)
  {
    if services != [] {
      var s, rest := services[0], Segments(services[1..], offset + services[0].durationMin);
      DemandsJoin(Cut(s, offset), rest, start);
      DemandedJoin(DemandsOf(Cut(s, offset), start), DemandsOf(rest, start), station, t);
      CutMeans(s, offset, start, station, t);
      SegmentsMean(services[1..], offset + s.durationMin, start, station, t);
    }
  }

  /** A visit asks for a chair of a station at exactly the minutes the client sits in one. */
  lemma ChairsAsTheClientSits(services: seq<Service>, start: int, station: string, t: int)
    ensures Demanded(ResourceDemand(services, start), station, t) <==> Sits(services, t - start, station)
  {
    SegmentsMean(services, 0, start, station, t);
  }

  // ------------------------------------------------------------------ whose minutes

  datatype Owner = ByHold(hold: Id) | ByBooking(booking: Id)

  predicate Owns(r: Reservation, o: Owner) {
    match o
    case ByHold(h) => r.hold == Some(h)
    case ByBooking(b) => r.booking == Some(b)
  }

  ghost predicate UsesBy(rows: map<Id, Reservation>, i: Id, o: Owner, subject: Subject, t: int) {
    i in rows && Owns(rows[i], o) && Covers(rows[i], subject, t)
  }

  /** The owner keeps the subject busy at the minute. */
  ghost predicate Uses(rows: map<Id, Reservation>, o: Owner, subject: Subject, t: int) {
    exists i :: UsesBy(rows, i, o, subject, t)
  }

  /** What the visit a hold is asked for will keep busy. */
  predicate Wanted(q: PlaceRequest, subject: Subject, t: int) {
    var m := t - (q.day * 1440 + q.startMin);
    match subject
    case Person(staff) => staff == q.staff && MomentAt(q.services, m).Some?
    case Chair(branch, station, day) => branch == q.branch && day == q.day && Sits(q.services, m, station)
  }

  /** A booking that is nudged keeps its professional, and its one chair, busy for its whole length. */
  predicate Nudged(v: Booking, day: int, startMin: int, subject: Subject, t: int) {
    && 0 <= t - (day * 1440 + startMin) < v.durationMin
    && match subject
       case Person(staff) => staff == v.staff
       case Chair(branch, station, onDay) => branch == v.branch && station == v.station && onDay == day
  }

  predicate Seated(v: S.Standing, day: int, c: Materialiser.Candidate, subject: Subject, t: int) {
    && 0 <= t - (day * 1440 + c.startMin) < v.durationMin
    && match subject
       case Person(staff) => staff == c.staff
       case Chair(branch, station, onDay) => branch == v.branch && station == v.station && onDay == day
  }

  /** Somebody's minute after a step that was accepted, told from the minutes before it. */
  ghost predicate MinuteAfter(d: Diary, s: Step, o: Owner, subject: Subject, t: int) {
    var before := Uses(d.rows, o, subject, t);
    match s
    case DoPlace(q) => if o == ByHold(d.next) then Wanted(q, subject, t) else before
    case DoRelease(h) => before && o != ByHold(h)
    case DoSweep(now) => before && !(o.ByHold? && o.hold in d.holds && d.holds[o.hold] <= now)
    case DoConfirm(q, _) =>
      if o == ByBooking(d.next) then Uses(d.rows, ByHold(q.hold), subject, t) else before && o != ByHold(q.hold)
    case DoTransition(b, to, _, _) => before && !(o == ByBooking(b) && to in {Cancelled, NoShow, Expired, Skipped})
    case DoShift(b, day, startMin) =>
      if o == ByBooking(b) then b in d.bookings && Nudged(d.bookings[b], day, startMin, subject, t) else before
    case DoMove(b, h, _, _) =>
      if o == ByBooking(b) then Uses(d.rows, ByHold(h), subject, t) else before && o != ByHold(h)
    case DoMaterialise(v, day, c) => if o == ByBooking(d.next + 1) then Seated(v, day, c, subject, t) else before
    case DoSendLink(_) => before
  }

  // ------------------------------------------------------------------ when a step is accepted

  /** Nobody keeps the professional busy at any minute from `from` up to, not including, `to`. */
  ghost predicate FreeThroughout(rows: map<Id, Reservation>, staff: Id, from: int, to: int) {
    forall i, t :: i in rows && from <= t < to ==> !Covers(rows[i], Person(staff), t)
  }

  ghost predicate Positive(rows: map<Id, Reservation>) {
    forall i :: i in rows ==> rows[i].from < rows[i].to
  }

  /** Two stretches meet exactly when they share a minute. */
  lemma BusyIsAMinute(rows: map<Id, Reservation>, staff: Id, from: int, to: int)
    requires Positive(rows) && from < to
    ensures StaffBusy(rows, staff, from, to) <==> !FreeThroughout(rows, staff, from, to)
  {
    if StaffBusy(rows, staff, from, to) {
      var i :| i in rows && Meets(rows[i], Person(staff), from, to);
      var t := if rows[i].from > from then rows[i].from else from;
      assert Covers(rows[i], Person(staff), t);
    }
    if !FreeThroughout(rows, staff, from, to) {
      var i, t :| i in rows && from <= t < to && Covers(rows[i], Person(staff), t);
      assert Meets(rows[i], Person(staff), from, to);
    }
  }

  lemma SoundIsPositive(d: Diary)
    requires RowsSound(d)
    ensures Positive(d.rows)
  {
    forall i | i in d.rows ensures d.rows[i].from < d.rows[i].to { assert Owned(d, d.rows[i]); }
  }

  /** For each stretch in a chair, fewer reservations of that station meet it than there are units. */
  ghost predicate ChairsToSpare(rows: map<Id, Reservation>, q: PlaceRequest, units: Units) {
    var demands := ResourceDemand(q.services, q.day * 1440 + q.startMin);
    forall k :: 0 <= k < |demands| ==>
      |set i | i in rows && Meets(rows[i], Chair(q.branch, demands[k].station, q.day), demands[k].fromMin, demands[k].toMin)|
      < UnitsOf(units, q.branch, demands[k].station)
  }

  lemma {:induction false} FirstFullNone(rows: map<Id, Reservation>, q: PlaceRequest, demands: seq<Demand>, units: Units)
    ensures FirstFull(rows, q, demands, units).None? <==>
      forall k :: 0 <= k < |demands| ==>
        Overlapping(rows, Chair(q.branch, demands[k].station, q.day), demands[k].fromMin, demands[k].toMin)
        < UnitsOf(units, q.branch, demands[k].station)
  {
    if demands != [] {
      FirstFullNone(rows, q, demands[1..], units);
      assert forall k :: 0 < k < |demands| ==> demands[k] == demands[1..][k - 1];
    }
  }

  lemma ChairsToSpareExact(rows: map<Id, Reservation>, q: PlaceRequest, units: Units)
    ensures FirstFull(rows, q, DemandsFor(q), units).None? <==> ChairsToSpare(rows, q, units)
  {
    var demands := ResourceDemand(q.services, q.day * 1440 + q.startMin);
    FirstFullNone(rows, q, demands, units);
    forall k | 0 <= k < |demands|
      ensures Overlapping(rows, Chair(q.branch, demands[k].station, q.day), demands[k].fromMin, demands[k].toMin)
        == |set i | i in rows && Meets(rows[i], Chair(q.branch, demands[k].station, q.day), demands[k].fromMin, demands[k].toMin)|
    {
      assert Meeting(rows, Chair(q.branch, demands[k].station, q.day), demands[k].fromMin, demands[k].toMin)
        == set i | i in rows && Meets(rows[i], Chair(q.branch, demands[k].station, q.day), demands[k].fromMin, demands[k].toMin);
    }
  }

  /** The minutes the visit lasts. */
  predicate During(q: PlaceRequest, t: int) {
    MomentAt(q.services, t - (q.day * 1440 + q.startMin)).Some?
  }

  ghost predicate FreeDuring(rows: map<Id, Reservation>, q: PlaceRequest) {
    forall i, t :: i in rows && During(q, t) ==> !Covers(rows[i], Person(q.staff), t)
  }

  lemma DuringExact(q: PlaceRequest)
    ensures forall t :: During(q, t) <==>
      q.day * 1440 + q.startMin <= t < q.day * 1440 + q.startMin + TotalMinutes(q.services)
  {
    forall t ensures During(q, t) <==>
      q.day * 1440 + q.startMin <= t < q.day * 1440 + q.startMin + TotalMinutes(q.services)
    {
      MomentsFillTheVisit(q.services, t - (q.day * 1440 + q.startMin));
    }
  }

  lemma FreeDuringExact(rows: map<Id, Reservation>, q: PlaceRequest)
    ensures FreeDuring(rows, q) <==>
      FreeThroughout(rows, q.staff, q.day * 1440 + q.startMin, q.day * 1440 + q.startMin + TotalMinutes(q.services))
  {
    var start := q.day * 1440 + q.startMin;
    DuringExact(q);
    if FreeDuring(rows, q) {
      forall i, t | i in rows && start <= t < start + TotalMinutes(q.services) ensures !Covers(rows[i], Person(q.staff), t) {
        assert During(q, t);
      }
    }
    if FreeThroughout(rows, q.staff, start, start + TotalMinutes(q.services)) {
      forall i, t | i in rows && During(q, t) ensures !Covers(rows[i], Person(q.staff), t) {
        assert start <= t < start + TotalMinutes(q.services);
      }
    }
  }

  /**
   * A place is accepted if and only if there is a visit to place, its professional is free at every
   * minute of it, and each of its stretches finds a chair; chairs are looked at first.
   */
  lemma PlacedIff(d: Diary, q: PlaceRequest, units: Units)
    requires RowsSound(d)
    ensures PlaceVerdict(d, q, units).Placed? <==>
      q.services != [] && ChairsToSpare(d.rows, q, units) && FreeDuring(d.rows, q)
    ensures PlaceVerdict(d, q, units).NoChair? <==> !ChairsToSpare(d.rows, q, units)
    ensures PlaceVerdict(d, q, units).StaffTaken? <==>
      ChairsToSpare(d.rows, q, units) && q.services != [] && !FreeDuring(d.rows, q)
  {
    var start := q.day * 1440 + q.startMin;
    SoundIsPositive(d);
    ChairsToSpareExact(d.rows, q, units);
    FreeDuringExact(d.rows, q);
    if q.services != [] { BusyIsAMinute(d.rows, q.staff, start, start + TotalMinutes(q.services)); }
  }

  /** Nobody but the booking itself needs the professional at any minute of the stretch. */
  ghost predicate OthersLeave(rows: map<Id, Reservation>, b: Id, staff: Id, from: int, to: int) {
    forall o: Owner, t :: from <= t < to && Uses(rows, o, Person(staff), t) ==> o == ByBooking(b)
  }

  function OwnerOf(r: Reservation): Owner
    requires r.hold.Some? || r.booking.Some?
  {
    if r.hold.Some? then ByHold(r.hold.value) else ByBooking(r.booking.value)
  }

  lemma CoveredByAnother(d: Diary, b: Id, staff: Id, i: Id, t: int)
    requires RowsSound(d) && i in d.rows
    ensures (d.rows[i].hold.Some? || d.rows[i].booking.Some?)
    ensures Covers(Freed(d, b).rows[i], Person(staff), t) ==>
      Uses(d.rows, OwnerOf(d.rows[i]), Person(staff), t) && OwnerOf(d.rows[i]) != ByBooking(b)
  {
    assert Owned(d, d.rows[i]);
    var o := OwnerOf(d.rows[i]);
    assert Covers(d.rows[i], Person(staff), t) ==> UsesBy(d.rows, i, o, Person(staff), t);
  }

  lemma FreedIsOthers(d: Diary, b: Id, staff: Id, from: int, to: int)
    requires RowsSound(d)
    ensures FreeThroughout(Freed(d, b).rows, staff, from, to) <==> OthersLeave(d.rows, b, staff, from, to)
  {
    var freed := Freed(d, b).rows;
    if OthersLeave(d.rows, b, staff, from, to) {
      forall i, t | i in freed && from <= t < to ensures !Covers(freed[i], Person(staff), t) {
        CoveredByAnother(d, b, staff, i, t);
      }
    }
    if FreeThroughout(freed, staff, from, to) {
      forall o: Owner, t | from <= t < to && Uses(d.rows, o, Person(staff), t) ensures o == ByBooking(b) {
        var i: Id :| UsesBy(d.rows, i, o, Person(staff), t);
        assert Owned(d, d.rows[i]);
        assert !Covers(freed[i], Person(staff), t);
      }
    }
  }

  lemma FreedIsPositive(d: Diary, b: Id)
    requires RowsSound(d)
    ensures Positive(Freed(d, b).rows)
  {
    SoundIsPositive(d);
  }

  /** A nudge is accepted if and only if nobody else needs the professional at any minute of the new time. */
  lemma ShiftedIff(d: Diary, b: Id, day: int, startMin: int)
    requires Sound(d)
    ensures ShiftVerdict(d, b, day, startMin).Changed? <==>
      && b in d.bookings && d.bookings[b].status in {Confirmed, PendingPayment, PendingConfirmation}
      && OthersLeave(d.rows, b, d.bookings[b].staff, day * 1440 + startMin, day * 1440 + startMin + d.bookings[b].durationMin)
  {
    if b in d.bookings {
      var v, from := d.bookings[b], day * 1440 + startMin;
      FreedIsPositive(d, b);
      BusyIsAMinute(Freed(d, b).rows, v.staff, from, from + v.durationMin);
      FreedIsOthers(d, b, v.staff, from, from + v.durationMin);
    }
  }

  /**
   * A confirm books if and only if its hold is still alive, it names a service, and neither its payment
   * nor its key was seen before.
   */
  lemma ConfirmedIff(d: Diary, q: ConfirmRequest, now: int)
    requires Sound(d)
    ensures ConfirmVerdict(d, q, now).Booked? <==>
      && q.hold in d.holds && now < d.holds[q.hold] && q.services != [] && q.key !in d.keys
      && !(q.payment.Tender? && q.payment.ref.Some? && Recorded(d.captures, q.payment.ref.value))
  {}

  /** A move goes through if and only if the booking has not happened yet and the hold is still alive. */
  lemma MovedIff(d: Diary, b: Id, hold: Id, now: int)
    requires Sound(d)
    ensures MoveVerdict(d, b, hold, now).Changed? <==>
      && b in d.bookings && d.bookings[b].status in {Confirmed, PendingPayment, PendingConfirmation}
      && hold in d.holds && now < d.holds[hold]
  {}

  // ------------------------------------------------------------------ what each step does to everybody's minutes

  /** Rows of other owners that stay, and stay as they are, leave those owners' minutes alone. */
  lemma SameMinutes(rows: map<Id, Reservation>, after: map<Id, Reservation>, o: Owner, subject: Subject, t: int)
    requires forall i :: i in rows && Owns(rows[i], o) && rows[i].blocking ==> i in after && after[i] == rows[i]
    requires forall i :: i in after && Owns(after[i], o) && after[i].blocking ==> i in rows && after[i] == rows[i]
    ensures Uses(rows, o, subject, t) <==> Uses(after, o, subject, t)
  {
    if i: Id :| UsesBy(rows, i, o, subject, t) { assert UsesBy(after, i, o, subject, t); }
    if i: Id :| UsesBy(after, i, o, subject, t) { assert UsesBy(rows, i, o, subject, t); }
  }

  lemma NoMinutes(rows: map<Id, Reservation>, o: Owner, subject: Subject, t: int)
    requires forall i :: i in rows && Owns(rows[i], o) ==> !rows[i].blocking
    ensures !Uses(rows, o, subject, t)
  {}

  lemma HeldRowsAre(q: PlaceRequest, hold: Id, i: Id)
    requires i in HeldRows(q, hold)
    ensures i == hold + 1 || hold + 2 <= i < hold + 2 + |DemandsFor(q)|
    ensures i == hold + 1 ==> HeldRows(q, hold)[i] == VisitRow(q, hold)
    ensures i != hold + 1 ==> HeldRows(q, hold)[i] == ChairRow(q, hold, hold + 2, i)
  {}

  lemma HeldPersonMeans(q: PlaceRequest, hold: Id, staff: Id, t: int)
    ensures Uses(HeldRows(q, hold), ByHold(hold), Person(staff), t) <==> staff == q.staff && During(q, t)
  {
    var rows := HeldRows(q, hold);
    DuringExact(q);
    assert rows[hold + 1] == VisitRow(q, hold);
    if staff == q.staff && During(q, t) { assert UsesBy(rows, hold + 1, ByHold(hold), Person(staff), t); }
    if i: Id :| UsesBy(rows, i, ByHold(hold), Person(staff), t) { HeldRowsAre(q, hold, i); }
  }

  lemma DemandedIsHeld(q: PlaceRequest, hold: Id, station: string, t: int)
    requires Demanded(DemandsFor(q), station, t)
    ensures Uses(HeldRows(q, hold), ByHold(hold), Chair(q.branch, station, q.day), t)
  {
    var demands := DemandsFor(q);
    var k: nat :| k < |demands| && demands[k].station == station && demands[k].fromMin <= t < demands[k].toMin;
    HeldRowsAre(q, hold, hold + 2 + k);
    assert UsesBy(HeldRows(q, hold), hold + 2 + k, ByHold(hold), Chair(q.branch, station, q.day), t);
  }

  lemma HeldIsDemanded(q: PlaceRequest, hold: Id, branch: Id, station: string, day: int, t: int)
    requires Uses(HeldRows(q, hold), ByHold(hold), Chair(branch, station, day), t)
    ensures branch == q.branch && day == q.day && Demanded(DemandsFor(q), station, t)
  {
    var i: Id :| UsesBy(HeldRows(q, hold), i, ByHold(hold), Chair(branch, station, day), t);
    HeldRowsAre(q, hold, i);
    assert DemandsFor(q)[i - (hold + 2)].station == station;
  }

  lemma HeldChairMeans(q: PlaceRequest, hold: Id, branch: Id, station: string, day: int, t: int)
    ensures Uses(HeldRows(q, hold), ByHold(hold), Chair(branch, station, day), t) <==>
      branch == q.branch && day == q.day && Demanded(DemandsFor(q), station, t)
  {
    if Demanded(DemandsFor(q), station, t) { DemandedIsHeld(q, hold, station, t); }
    if Uses(HeldRows(q, hold), ByHold(hold), Chair(branch, station, day), t) { HeldIsDemanded(q, hold, branch, station, day, t); }
  }

  /** The rows of a hold are its visit's. */
  lemma HeldMeans(q: PlaceRequest, hold: Id, subject: Subject, t: int)
    ensures Uses(HeldRows(q, hold), ByHold(hold), subject, t) <==> Wanted(q, subject, t)
  {
    match subject {
      case Person(staff) => HeldPersonMeans(q, hold, staff, t);
      case Chair(branch, station, day) =>
        HeldChairMeans(q, hold, branch, station, day, t);
        ChairsAsTheClientSits(q.services, q.day * 1440 + q.startMin, station, t);
    }
  }

  lemma PlaceMeans(d: Diary, q: PlaceRequest, o: Owner, subject: Subject, t: int)
    requires Sound(d)
    ensures Uses(PlaceWrite(d, q).rows, o, subject, t) <==>
      if o == ByHold(d.next) then Wanted(q, subject, t) else Uses(d.rows, o, subject, t)
  {
    var rows := PlaceWrite(d, q).rows;
    PlacedRowsAreItsOwn(d, q);
    forall i | i in d.rows ensures d.rows[i].hold != Some(d.next) { assert Owned(d, d.rows[i]); }
    if o == ByHold(d.next) {
      HeldMeans(q, d.next, subject, t);
      SameMinutes(HeldRows(q, d.next), rows, o, subject, t);
    } else {
      SameMinutes(d.rows, rows, o, subject, t);
    }
  }

  lemma DropMeans(d: Diary, gone: set<Id>, o: Owner, subject: Subject, t: int)
    ensures Uses(DropHolds(d, gone).rows, o, subject, t) <==>
      Uses(d.rows, o, subject, t) && !(o.ByHold? && o.hold in gone)
    requires RowsSound(d)
  {
    var rows := DropHolds(d, gone).rows;
    forall i | i in d.rows ensures d.rows[i].hold.Some? != d.rows[i].booking.Some? { assert Owned(d, d.rows[i]); }
    if o.ByHold? && o.hold in gone { NoMinutes(rows, o, subject, t); } else { SameMinutes(d.rows, rows, o, subject, t); }
  }

  /** Rows handed over keep their minutes for their new owner. */
  lemma RepointMeans(d: Diary, hold: Id, b: Id, o: Owner, subject: Subject, t: int)
    requires RowsSound(d) && forall i :: i in d.rows && d.rows[i].booking == Some(b) ==> !d.rows[i].blocking
    ensures Uses(Repoint(d.rows, hold, b), o, subject, t) <==>
      if o == ByBooking(b) then Uses(d.rows, ByHold(hold), subject, t) else Uses(d.rows, o, subject, t) && o != ByHold(hold)
  {
    var rows := Repoint(d.rows, hold, b);
    forall i | i in d.rows ensures d.rows[i].hold.Some? != d.rows[i].booking.Some? { assert Owned(d, d.rows[i]); }
    if o == ByBooking(b) {
      if i: Id :| UsesBy(d.rows, i, ByHold(hold), subject, t) { assert UsesBy(rows, i, o, subject, t); }
      if i: Id :| UsesBy(rows, i, o, subject, t) { assert UsesBy(d.rows, i, ByHold(hold), subject, t); }
    } else if o == ByHold(hold) {
      NoMinutes(rows, o, subject, t);
    } else {
      SameMinutes(d.rows, rows, o, subject, t);
    }
  }

  lemma UnblockMeans(d: Diary, b: Id, o: Owner, subject: Subject, t: int)
    requires RowsSound(d)
    ensures Uses(Unblock(d.rows, b), o, subject, t) <==> Uses(d.rows, o, subject, t) && o != ByBooking(b)
  {
    var rows := Unblock(d.rows, b);
    forall i | i in d.rows ensures d.rows[i].hold.Some? != d.rows[i].booking.Some? { assert Owned(d, d.rows[i]); }
    if o == ByBooking(b) { NoMinutes(rows, o, subject, t); } else { SameMinutes(d.rows, rows, o, subject, t); }
  }

  lemma OneRowMore(rows: map<Id, Reservation>, k: Id, r: Reservation, o: Owner, subject: Subject, t: int)
    requires k !in rows
    ensures Uses(rows[k := r], o, subject, t) <==> Uses(rows, o, subject, t) || (Owns(r, o) && Covers(r, subject, t))
  {
    var more := rows[k := r];
    if i: Id :| UsesBy(rows, i, o, subject, t) { assert UsesBy(more, i, o, subject, t); }
    if Owns(r, o) && Covers(r, subject, t) { assert UsesBy(more, k, o, subject, t); }
    if i: Id :| UsesBy(more, i, o, subject, t) { assert i != k ==> UsesBy(rows, i, o, subject, t); }
  }

  lemma ShiftMeans(d: Diary, b: Id, day: int, startMin: int, o: Owner, subject: Subject, t: int)
    requires Sound(d) && b in d.bookings
    ensures Uses(ShiftWrite(d, b, day, startMin).rows, o, subject, t) <==>
      if o == ByBooking(b) then Nudged(d.bookings[b], day, startMin, subject, t) else Uses(d.rows, o, subject, t)
  {
    var v := d.bookings[b];
    var visit, chair := ShiftedVisit(v, b, day, startMin), ShiftedChair(v, b, day, startMin);
    UnblockMeans(d, b, o, subject, t);
    TwoRowsMore(Freed(d, b).rows, d.next, visit, chair, o, subject, t);
    NudgedRows(v, b, day, startMin, o, subject, t);
  }

  lemma TwoRowsMore(
      rows: map<Id, Reservation>, k: Id, visit: Reservation, chair: Reservation, o: Owner, subject: Subject, t: int)
    requires k !in rows && k + 1 !in rows
    ensures Uses(rows[k := visit][k + 1 := chair], o, subject, t) <==>
      || Uses(rows, o, subject, t)
      || (Owns(visit, o) && Covers(visit, subject, t)) || (Owns(chair, o) && Covers(chair, subject, t))
  {
    OneRowMore(rows, k, visit, o, subject, t);
    OneRowMore(rows[k := visit], k + 1, chair, o, subject, t);
  }

  lemma NudgedRows(v: Booking, b: Id, day: int, startMin: int, o: Owner, subject: Subject, t: int)
    ensures var visit := ShiftedVisit(v, b, day, startMin); var chair := ShiftedChair(v, b, day, startMin);
      (Owns(visit, o) && Covers(visit, subject, t)) || (Owns(chair, o) && Covers(chair, subject, t))
      <==> o == ByBooking(b) && Nudged(v, day, startMin, subject, t)
  {
  }

  lemma SeatMeans(d: Diary, v: S.Standing, day: int, c: Materialiser.Candidate, o: Owner, subject: Subject, t: int)
    requires Sound(d)
    ensures Uses(S.SeatWrite(d, v, day, c).rows, o, subject, t) <==>
      if o == ByBooking(d.next + 1) then Seated(v, day, c, subject, t) else Uses(d.rows, o, subject, t)
  {
    var b := d.next + 1;
    forall i | i in d.rows ensures i < d.next && d.rows[i].booking != Some(b) { assert Owned(d, d.rows[i]); }
    TwoRowsMore(d.rows, d.next + 2, S.SeatVisit(v, day, c, b), S.SeatChair(v, day, c, b), o, subject, t);
  }

  // ------------------------------------------------------------------ every step

  ghost predicate Accepted(d: Diary, s: Step, units: Units) {
    match s
    case DoPlace(q) => PlaceVerdict(d, q, units).Placed?
    case DoConfirm(q, at) => ConfirmVerdict(d, q, at).Booked?
    case DoTransition(b, to, actor, hasReason) => TransitionVerdict(d, b, to, actor, hasReason).Changed?
    case DoShift(b, day, startMin) => ShiftVerdict(d, b, day, startMin).Changed?
    case DoMove(b, h, _, when) => MoveVerdict(d, b, h, when).Changed?
    case DoMaterialise(v, day, c) => S.Sellable(v) && !S.Taken(d.rows, v, day, c)
    case _ => true
  }

  lemma ConfirmMeans(d: Diary, q: ConfirmRequest, now: int, o: Owner, subject: Subject, t: int)
    requires Sound(d) && ConfirmVerdict(d, q, now).Booked?
    ensures Uses(Confirm(d, q, now).rows, o, subject, t) <==>
      if o == ByBooking(d.next) then Uses(d.rows, ByHold(q.hold), subject, t)
      else Uses(d.rows, o, subject, t) && o != ByHold(q.hold)
  {
    forall i | i in d.rows ensures d.rows[i].booking != Some(d.next) { assert Owned(d, d.rows[i]); }
    RepointMeans(d, q.hold, d.next, o, subject, t);
  }

  lemma MoveMeans(d: Diary, b: Id, hold: Id, owesDeposit: bool, o: Owner, subject: Subject, t: int)
    requires Sound(d) && b in d.bookings && HoldHasPerson(d, hold)
    ensures Uses(MoveWrite(d, b, hold, owesDeposit).rows, o, subject, t) <==>
      if o == ByBooking(b) then Uses(d.rows, ByHold(hold), subject, t) else Uses(d.rows, o, subject, t) && o != ByHold(hold)
  {
    FreedKeeps(d, b);
    RepointMeans(Freed(d, b), hold, b, o, subject, t);
    UnblockMeans(d, b, o, subject, t);
    UnblockMeans(d, b, ByHold(hold), subject, t);
  }

  lemma TransitionMeans(d: Diary, b: Id, to: Status, actor: Actor, hasReason: bool, o: Owner, subject: Subject, t: int)
    requires RowsSound(d) && TransitionVerdict(d, b, to, actor, hasReason).Changed?
    ensures Uses(Transition(d, b, to, actor, hasReason).rows, o, subject, t) <==>
      Uses(d.rows, o, subject, t) && !(o == ByBooking(b) && to in {Cancelled, NoShow, Expired, Skipped})
  {
    UnblockMeans(d, b, o, subject, t);
  }

  predicate OfHolds(s: Step) {
    s.DoPlace? || s.DoRelease? || s.DoSweep? || s.DoConfirm?
  }

  lemma HoldStepMeans(d: Diary, s: Step, units: Units, o: Owner, subject: Subject, t: int)
    requires Sound(d) && Accepted(d, s, units) && OfHolds(s)
    ensures Uses(Apply(d, s, units).rows, o, subject, t) <==> MinuteAfter(d, s, o, subject, t)
  {
    match s
    case DoPlace(q) => PlaceMeans(d, q, o, subject, t);
    case DoRelease(h) => DropMeans(d, {h}, o, subject, t);
    case DoSweep(now) => DropMeans(d, (set h | h in d.holds && d.holds[h] <= now), o, subject, t);
    case DoConfirm(q, at) => ConfirmMeans(d, q, at, o, subject, t);
  }

  lemma BookingStepMeans(d: Diary, s: Step, units: Units, o: Owner, subject: Subject, t: int)
    requires Sound(d) && Accepted(d, s, units) && !OfHolds(s)
    ensures Uses(Apply(d, s, units).rows, o, subject, t) <==> MinuteAfter(d, s, o, subject, t)
  {
    match s
    case DoTransition(b, to, actor, hasReason) => TransitionMeans(d, b, to, actor, hasReason, o, subject, t);
    case DoShift(b, day, startMin) => ShiftMeans(d, b, day, startMin, o, subject, t);
    case DoMove(b, h, owes, _) => MoveMeans(d, b, h, owes, o, subject, t);
    case DoMaterialise(v, day, c) => SeatMeans(d, v, day, c, o, subject, t);
    case DoSendLink(_) =>
  }

  /**
   * The rows and the minutes agree at every step: a step that is accepted does to everybody's minutes,
   * of every professional and every chair, exactly what `MinuteAfter` says, and one that is not accepted
   * does nothing.
   */
  lemma StepMeans(d: Diary, s: Step, units: Units, o: Owner, subject: Subject, t: int)
    requires Sound(d)
    ensures Uses(Apply(d, s, units).rows, o, subject, t) <==>
      if Accepted(d, s, units) then MinuteAfter(d, s, o, subject, t) else Uses(d.rows, o, subject, t)
  {
    if Accepted(d, s, units) {
      if OfHolds(s) { HoldStepMeans(d, s, units, o, subject, t); } else { BookingStepMeans(d, s, units, o, subject, t); }
    }
  }

  // ------------------------------------------------------------------ a visit through its life

  lemma HoldStep(d: Diary, s: Step, units: Units, h: Id, subject: Subject, t: int)
    requires Sound(d) && h in d.holds && h in Apply(d, s, units).holds
    ensures Uses(Apply(d, s, units).rows, ByHold(h), subject, t) <==> Uses(d.rows, ByHold(h), subject, t)
  {
    HoldOnlyGoes(d, s, units, h);
    StepMeans(d, s, units, ByHold(h), subject, t);
  }

  /** As long as a hold is there its minutes are the ones it was placed with, whatever else happens. */
  lemma {:induction false} HoldKeepsItsMinutes(d: Diary, steps: seq<Step>, units: Units, h: Id, subject: Subject, t: int)
    requires Sound(d) && h in d.holds && h in Run(d, steps, units).holds
    ensures Uses(Run(d, steps, units).rows, ByHold(h), subject, t) <==> Uses(d.rows, ByHold(h), subject, t)
    decreases |steps|
  {
    if steps != [] {
      var e := Apply(d, steps[0], units);
      ApplySound(d, steps[0], units);
      HoldOnlyGoes(d, steps[0], units, h);
      if h !in e.holds { HoldStaysGone(e, steps[1..], units, h); }
      HoldStep(d, steps[0], units, h, subject, t);
      HoldKeepsItsMinutes(e, steps[1..], units, h, subject, t);
    }
  }

  lemma HoldOnlyGoes(d: Diary, s: Step, units: Units, h: Id)
    requires Sound(d) && h in d.holds
    ensures h < d.next <= Apply(d, s, units).next
    ensures h in Apply(d, s, units).holds ==>
      match s
      case DoRelease(g) => g != h
      case DoSweep(now) => d.holds[h] > now
      case DoConfirm(q, at) => q.hold == h ==> !ConfirmVerdict(d, q, at).Booked?
      case DoMove(b, g, _, when) => g == h ==> !MoveVerdict(d, b, g, when).Changed?
      case _ => true
  {}

  /** Nobody ends the booking's claim or gives it another time. */
  ghost predicate LeftAlone(steps: seq<Step>, b: Id) {
    forall k :: 0 <= k < |steps| ==> !Touches(steps[k], b)
  }

  predicate Touches(s: Step, b: Id) {
    match s
    case DoTransition(c, to, _, _) => c == b && to in {Cancelled, NoShow, Expired, Skipped}
    case DoShift(c, _, _) => c == b
    case DoMove(c, _, _, _) => c == b
    case _ => false
  }

  lemma BookingStep(d: Diary, s: Step, units: Units, b: Id, subject: Subject, t: int)
    requires Sound(d) && b in d.bookings && !Touches(s, b)
    ensures Uses(Apply(d, s, units).rows, ByBooking(b), subject, t) <==> Uses(d.rows, ByBooking(b), subject, t)
  {
    BookingStays(d, s, units, b);
    StepMeans(d, s, units, ByBooking(b), subject, t);
  }

  lemma LeftAloneRest(steps: seq<Step>, b: Id)
    requires steps != [] && LeftAlone(steps, b)
    ensures !Touches(steps[0], b) && LeftAlone(steps[1..], b)
  {
    forall k | 0 <= k < |steps| - 1 ensures !Touches(steps[1..][k], b) { assert steps[1..][k] == steps[k + 1]; }
  }

  lemma {:induction false} BookingKeepsItsMinutes(d: Diary, steps: seq<Step>, units: Units, b: Id, subject: Subject, t: int)
    requires Sound(d) && b in d.bookings && LeftAlone(steps, b)
    ensures Uses(Run(d, steps, units).rows, ByBooking(b), subject, t) <==> Uses(d.rows, ByBooking(b), subject, t)
    decreases |steps|
  {
    if steps != [] {
      LeftAloneRest(steps, b);
      ApplySound(d, steps[0], units);
      BookingStays(d, steps[0], units, b);
      BookingStep(d, steps[0], units, b, subject, t);
      BookingKeepsItsMinutes(Apply(d, steps[0], units), steps[1..], units, b, subject, t);
    }
  }

  lemma BookingStays(d: Diary, s: Step, units: Units, b: Id)
    requires Sound(d) && b in d.bookings
    ensures b < d.next && b in Apply(d, s, units).bookings
  {}

  /** A minute somebody keeps a professional busy is not to be had by a visit that needs her then. */
  lemma BusyIsRefused(d: Diary, p: PlaceRequest, units: Units, o: Owner, t: int)
    requires RowsSound(d) && Uses(d.rows, o, Person(p.staff), t) && During(p, t)
    ensures !PlaceVerdict(d, p, units).Placed?
  {
    PlacedIff(d, p, units);
    var i: Id :| UsesBy(d.rows, i, o, Person(p.staff), t);
  }

  /**
   * A visit keeps its time. After a place that was accepted, and as long as its hold is there, the hold
   * keeps the professional busy at exactly the minutes of the visit, each chair at exactly the minutes
   * the client sits in one, and no place that needs the professional at one of them is accepted.
   */
  lemma HeldTimeIsKept(d: Diary, q: PlaceRequest, units: Units, steps: seq<Step>, p: PlaceRequest, subject: Subject, t: int)
    requires Sound(d) && PlaceVerdict(d, q, units).Placed?
    requires d.next in Run(Place(d, q, units), steps, units).holds
    ensures var e := Run(Place(d, q, units), steps, units);
      && (Uses(e.rows, ByHold(d.next), subject, t) <==> Wanted(q, subject, t))
      && (p.staff == q.staff && During(q, t) && During(p, t) ==> !PlaceVerdict(e, p, units).Placed?)
  {
    var held := Place(d, q, units);
    var e := Run(held, steps, units);
    PlaceSound(d, q, units);
    RunSound(held, steps, units);
    PlaceMeans(d, q, ByHold(d.next), subject, t);
    HoldKeepsItsMinutes(held, steps, units, d.next, subject, t);
    PlaceMeans(d, q, ByHold(d.next), Person(q.staff), t);
    HoldKeepsItsMinutes(held, steps, units, d.next, Person(q.staff), t);
    if p.staff == q.staff && During(q, t) && During(p, t) { BusyIsRefused(e, p, units, ByHold(d.next), t); }
  }

  /** And so after the hold became a booking, for as long as nobody moves the booking or ends it. */
  lemma BookedTimeIsKept(
      d: Diary, q: PlaceRequest, units: Units, steps: seq<Step>, c: ConfirmRequest, now: int, later: seq<Step>,
      p: PlaceRequest, subject: Subject, t: int)
    requires Sound(d) && PlaceVerdict(d, q, units).Placed? && c.hold == d.next
    requires ConfirmVerdict(Run(Place(d, q, units), steps, units), c, now).Booked?
    requires LeftAlone(later, Run(Place(d, q, units), steps, units).next)
    ensures var held := Run(Place(d, q, units), steps, units); var e := Run(Confirm(held, c, now), later, units);
      && held.next in e.bookings
      && (Uses(e.rows, ByBooking(held.next), subject, t) <==> Wanted(q, subject, t))
      && (p.staff == q.staff && During(q, t) && During(p, t) ==> !PlaceVerdict(e, p, units).Placed?)
  {
    var held := Run(Place(d, q, units), steps, units);
    PlaceSound(d, q, units);
    RunSound(Place(d, q, units), steps, units);
    BookedMinutes(d, q, units, steps, c, now, later, subject, t);
    BookedMinutes(d, q, units, steps, c, now, later, Person(q.staff), t);
    ConfirmSound(held, c, now);
    RunSound(Confirm(held, c, now), later, units);
    RunKeepsBooking(Confirm(held, c, now), later, units, held.next);
    var e := Run(Confirm(held, c, now), later, units);
    if p.staff == q.staff && During(q, t) && During(p, t) { BusyIsRefused(e, p, units, ByBooking(held.next), t); }
  }

  lemma BookedMinutes(
      d: Diary, q: PlaceRequest, units: Units, steps: seq<Step>, c: ConfirmRequest, now: int, later: seq<Step>,
      subject: Subject, t: int)
    requires Sound(d) && PlaceVerdict(d, q, units).Placed? && c.hold == d.next
    requires ConfirmVerdict(Run(Place(d, q, units), steps, units), c, now).Booked?
    requires LeftAlone(later, Run(Place(d, q, units), steps, units).next)
    ensures var held := Run(Place(d, q, units), steps, units);
      Uses(Run(Confirm(held, c, now), later, units).rows, ByBooking(held.next), subject, t) <==> Wanted(q, subject, t)
  {
    var held := Run(Place(d, q, units), steps, units);
    PlaceSound(d, q, units);
    RunSound(Place(d, q, units), steps, units);
    HeldTimeIsKept(d, q, units, steps, q, subject, t);
    ConfirmSound(held, c, now);
    ConfirmMeans(held, c, now, ByBooking(held.next), subject, t);
    BookingKeepsItsMinutes(Confirm(held, c, now), later, units, held.next, subject, t);
  }

  lemma {:induction false} RunKeepsBooking(d: Diary, steps: seq<Step>, units: Units, b: Id)
    requires Sound(d) && b in d.bookings
    ensures b in Run(d, steps, units).bookings
    decreases |steps|
  {
    if steps != [] {
      ApplySound(d, steps[0], units);
      BookingStays(d, steps[0], units, b);
      RunKeepsBooking(Apply(d, steps[0], units), steps[1..], units, b);
    }
  }

  // ------------------------------------------------------------------ what a booking says

  /** A professional whom the hold keeps busy at some minute. */
  ghost predicate Keeps(d: Diary, hold: Id, staff: Id) {
    exists t :: Uses(d.rows, ByHold(hold), Person(staff), t)
  }

  /**
   * What a confirm writes down: the key and the hold it was made of, the professional the hold kept, the
   * status and length the request stands for, one booking more and one hold less.
   */
  lemma ConfirmSays(d: Diary, q: ConfirmRequest, now: int)
    requires Sound(d) && ConfirmVerdict(d, q, now).Booked?
    ensures var e := Confirm(d, q, now); var b := ConfirmVerdict(d, q, now).booking;
      && b !in d.bookings && e.bookings.Keys == d.bookings.Keys + {b} && q.key in e.keys && e.keys[q.key] == b
      && e.holds.Keys == d.holds.Keys - {q.hold}
      && e.bookings[b].status == (if q.payment.Link? then PendingPayment else Confirmed)
      && e.bookings[b].durationMin == TotalMinutes(q.services) && e.bookings[b].origin == q.hold
      && e.bookings[b].branch == q.branch && e.bookings[b].station == q.services[0].station
      && Keeps(d, q.hold, e.bookings[b].staff)
  {
    var i: Id :| HoldsPerson(d, q.hold, i) && d.rows[i].subject.staff == HeldPerson(d, q.hold);
    assert Owned(d, d.rows[i]);
    assert UsesBy(d.rows, i, ByHold(q.hold), d.rows[i].subject, d.rows[i].from);
    assert Uses(d.rows, ByHold(q.hold), Person(HeldPerson(d, q.hold)), d.rows[i].from);
  }
}
