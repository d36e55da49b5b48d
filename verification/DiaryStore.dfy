/**
 * The diary as the handlers change it: one object, each method one transaction that either writes all
 * of it or leaves it alone, and the mobile create as a run of those transactions.
 */
module DiaryStore {
  import opened Basics
  import opened Lifecycle
  import opened Chain
  import opened Diary
  import opened DiaryProofs
  import opened DiaryRuns
  import Materialiser
  import S = SeriesDiary
  import Mobile = MobileCreate

  /** A hold has one visit row, so "its professional" means something. */
  ghost predicate OneVisitRow(d: Diary) {
    forall h: Id, i, j :: HoldsPerson(d, h, i) && HoldsPerson(d, h, j) ==> i == j
  }

  lemma ApplyOneVisitRow(d: Diary, s: Step, units: Units)
    requires Sound(d) && OneVisitRow(d)
    ensures OneVisitRow(Apply(d, s, units))
  {
    if s.DoPlace? {
      if PlaceVerdict(d, s.place, units).Placed? { PlaceOneVisitRow(d, s.place); }
    } else {
      var e := Apply(d, s, units);
      forall h, i | HoldsPerson(e, h, i) ensures HoldsPerson(d, h, i) { OnlyPlacesHold(d, s, units, h, i); }
    }
  }

  lemma OnlyPlacesHold(d: Diary, s: Step, units: Units, h: Id, i: Id)
    requires RowsSound(d) && !s.DoPlace? && HoldsPerson(Apply(d, s, units), h, i)
    ensures HoldsPerson(d, h, i)
  {}

  lemma PlaceOneVisitRow(d: Diary, q: PlaceRequest)
    requires RowsSound(d) && Once(d.bookings, d.holds, d.next) && OneVisitRow(d)
    ensures OneVisitRow(PlaceWrite(d, q))
  {
    var e := PlaceWrite(d, q);
    forall h, i | HoldsPerson(e, h, i) ensures if h == d.next then i == d.next + 1 else HoldsPerson(d, h, i) {
      if i in d.rows { assert Owned(d, d.rows[i]); }
    }
  }

  lemma TheHeldPerson(d: Diary, hold: Id, i: Id)
    requires OneVisitRow(d) && HoldsPerson(d, hold, i)
    ensures HoldHasPerson(d, hold) && HeldPerson(d, hold) == d.rows[i].subject.staff
  {}

  function VisitRowsOf(rows: map<Id, Reservation>, hold: Id): set<Id> {
    set i | i in rows && rows[i].hold == Some(hold) && rows[i].subject.Person?
  }

  function WithChairs(q: PlaceRequest, hold: Id, first: Id, n: nat): map<Id, Reservation>
    requires n <= |DemandsFor(q)|
  {
    if n == 0 then map[hold + 1 := VisitRow(q, hold)]
    else WithChairs(q, hold, first, n - 1)[first + n - 1 := ChairRow(q, hold, first, first + n - 1)]
  }

  lemma {:induction false} WithChairsExact(q: PlaceRequest, hold: Id, first: Id, n: nat)
    requires n <= |DemandsFor(q)| && hold + 1 < first
    ensures forall i :: i in WithChairs(q, hold, first, n) <==> i == hold + 1 || first <= i < first + n
    ensures forall i :: i in WithChairs(q, hold, first, n) ==>
      WithChairs(q, hold, first, n)[i] == if i == hold + 1 then VisitRow(q, hold) else ChairRow(q, hold, first, i)
  {
    if n > 0 { WithChairsExact(q, hold, first, n - 1); }
  }

  lemma WithAllChairs(q: PlaceRequest, hold: Id, first: Id)
    requires first == hold + 2
    ensures WithChairs(q, hold, first, |DemandsFor(q)|) == HeldRows(q, hold)
  {
    WithChairsExact(q, hold, first, |DemandsFor(q)|);
    var mine, held := WithChairs(q, hold, first, |DemandsFor(q)|), HeldRows(q, hold);
    assert mine.Keys == held.Keys;
    forall i | i in held ensures mine[i] == held[i] {}
  }

  /** How a create ends, put as the handler runs it. */
  lemma AfterConfirm(held: Diary, q: ConfirmRequest, fault: Mobile.Fault, now: int, v: ConfirmOutcome, confirmed: Diary)
    requires v == Mobile.Verdict(held, q, fault, now) && confirmed == Mobile.Confirmed(held, q, v, now)
    ensures var e := Mobile.AfterHold(held, q, fault, now); var created := Mobile.AnswerAfterHold(held, q, fault, now);
      if !v.Booked? && !v.Replayed? then
        created == Mobile.Failed(Mobile.ConfirmThrows) && confirmed == held && e == Release(held, q.hold)
      else if fault.StoreThrows? && v.Booked? then
        created == Mobile.Failed(Mobile.StoreThrows) && e == Release(confirmed, q.hold)
      else if q.payment.Link? && (fault.LinkThrows? || LinkRefused(confirmed, v.booking)) then
        && created == Mobile.Failed(Mobile.LinkThrows)
        && e == Transition(Release(confirmed, q.hold), v.booking, Expired, System, true)
      else
        && created == (if fault.PresentThrows? then Mobile.Failed(Mobile.PresentThrows) else Mobile.Made(v.booking))
        && e == if q.payment.Link? then SendLink(confirmed, v.booking) else confirmed
  {}

  class Store {
    var rows: map<Id, Reservation>
    var holds: map<Id, int>
    var bookings: map<Id, Booking>
    var keys: map<string, Id>
    var captures: seq<Capture>
    var next: Id
    const units: Units

    ghost function Contents(): Diary
      reads this
    {
      Diary(rows, holds, bookings, keys, captures, next)
    }

    ghost predicate Valid()
      reads this
    {
      Sound(Contents()) && OneVisitRow(Contents())
    }

    constructor (units: Units)
      ensures Valid() && Contents() == EMPTY && this.units == units
    {
      this.units := units;
      rows, holds, bookings, keys, captures, next := map[], map[], map[], map[], [], 0;
      new;
      EmptySound();
    }

    /** What one step keeps, said once for all of them. */
    ghost method Keep(before: Diary, s: Step)
      requires Sound(before) && OneVisitRow(before) && Contents() == Apply(before, s, units)
      ensures Valid()
    {
      ApplySound(before, s, units);
      ApplyOneVisitRow(before, s, units);
    }

    /** Counts every chair first, then the professional, and writes only when both are free. */
    method PlaceHold(q: PlaceRequest) returns (outcome: PlaceOutcome)
      requires Valid()
      modifies this
      ensures Valid()
      ensures Contents() == Place(old(Contents()), q, units) && outcome == PlaceVerdict(old(Contents()), q, units)
    {
      ghost var before := Contents();
      var demands := DemandsFor(q);
      assert demands[0..] == demands;
      for i := 0 to |demands|
        invariant Contents() == before
        invariant FirstFull(rows, q, demands[i..], units) == FirstFull(rows, q, demands, units)
      {
        assert demands[i..][1..] == demands[i + 1..];
        if Overlapping(rows, Chair(q.branch, demands[i].station, q.day), demands[i].fromMin, demands[i].toMin)
           >= UnitsOf(units, q.branch, demands[i].station) {
          return NoChair(demands[i].station);
        }
      }
      var visit := VisitRow(q, next);
      if q.services == [] { return PlaceFailed; }
      if StaffBusy(rows, q.staff, visit.from, visit.to) { return StaffTaken; }
      outcome := Placed(next);
      WriteHold(q);
      Keep(before, DoPlace(q));
    }

    method WriteHold(q: PlaceRequest)
      modifies this`rows, this`holds, this`next
      ensures Contents() == PlaceWrite(old(Contents()), q)
    {
      var written := NewRows(q, next);
      rows, holds, next := rows + written, holds[next := q.expiresAt], next + 2 + |DemandsFor(q)|;
    }

    static method NewRows(q: PlaceRequest, hold: Id) returns (written: map<Id, Reservation>)
      ensures written == HeldRows(q, hold)
    {
      written := map[hold + 1 := VisitRow(q, hold)];
      for i := 0 to |DemandsFor(q)|
        invariant written == WithChairs(q, hold, hold + 2, i)
      {
        written := written[hold + 2 + i := ChairRow(q, hold, hold + 2, hold + 2 + i)];
      }
      WithAllChairs(q, hold, hold + 2);
    }

    method ReleaseHold(hold: Id)
      requires Valid()
      modifies this
      ensures Valid() && Contents() == Release(old(Contents()), hold)
    {
      ghost var before := Contents();
      rows, holds := Without(rows, {hold}), holds - {hold};
      Keep(before, DoRelease(hold));
    }

    method SweepHolds(now: int)
      requires Valid()
      modifies this
      ensures Valid() && Contents() == Sweep(old(Contents()), now)
    {
      ghost var before := Contents();
      var gone := set h | h in holds && holds[h] <= now;
      rows, holds := Without(rows, gone), holds - gone;
      Keep(before, DoSweep(now));
    }

    method ConfirmHold(q: ConfirmRequest, now: int) returns (outcome: ConfirmOutcome)
      requires Valid()
      modifies this
      ensures Valid()
      ensures Contents() == Confirm(old(Contents()), q, now) && outcome == ConfirmVerdict(old(Contents()), q, now)
    {
      ghost var before := Contents();
      var visits := VisitRowsOf(rows, q.hold);
      if q.hold !in holds || holds[q.hold] <= now || visits == {} {
        assert HoldHasPerson(before, q.hold) ==> visits != {} by {
          if i :| HoldsPerson(before, q.hold, i) { assert i in visits; }
        }
        return HoldExpired;
      }
      var i :| i in visits;
      assert HoldsPerson(before, q.hold, i);
      TheHeldPerson(before, q.hold, i);
      if q.services == [] { return ConfirmFailed; }
      if q.payment.Tender? && q.payment.ref.Some? && Recorded(captures, q.payment.ref.value) { return PaymentAlreadyRecorded; }
      if q.key in keys { return Replayed(keys[q.key]); }
      outcome := Booked(next);
      WriteConfirm(q, rows[i].subject.staff);
      Keep(before, DoConfirm(q, now));
    }

    method WriteConfirm(q: ConfirmRequest, staff: Id)
      requires q.services != [] && HoldHasPerson(Contents(), q.hold) && staff == HeldPerson(Contents(), q.hold)
      modifies this
      ensures Contents() == ConfirmWrite(old(Contents()), q)
    {
      var visit := Booking(StatusFor(q.payment), q.branch, q.services[0].station, staff, TotalMinutes(q.services), q.hold);
      bookings, keys := bookings[next := visit], keys[q.key := next];
      rows, holds := Repoint(rows, q.hold, next), holds - {q.hold};
      if q.payment.Tender? { captures := captures + [Capture(next, q.payment.amountFils, q.payment.ref)]; }
      next := next + 1;
    }

    method ChangeStatus(b: Id, to: Status, actor: Actor, hasReason: bool) returns (outcome: ChangeOutcome)
      requires Valid()
      modifies this
      ensures Valid() && Contents() == Transition(old(Contents()), b, to, actor, hasReason)
      ensures outcome == TransitionVerdict(old(Contents()), b, to, actor, hasReason)
    {
      ghost var before := Contents();
      if b !in bookings { return NotFound; }
      var verdict := Check(bookings[b].status, to, actor, hasReason);
      if !verdict.Allowed? { return Refused(verdict); }
      WriteStatus(b, to);
      assert Contents() == Transition(before, b, to, actor, hasReason);
      Keep(before, DoTransition(b, to, actor, hasReason));
      outcome := Changed;
    }

    /** The status and the capacity it gives back change together. */
    method WriteStatus(b: Id, to: Status)
      requires b in bookings
      modifies this`bookings, this`rows
      ensures bookings == old(bookings)[b := old(bookings)[b].(status := to)]
      ensures rows == if to in RELEASING then Unblock(old(rows), b) else old(rows)
    {
      bookings := bookings[b := bookings[b].(status := to)];
      if to in RELEASING { rows := Unblock(rows, b); }
    }

    /** The same professional at another time: the old rows go first, so they cannot stand in the way. */
    method ShiftInPlace(b: Id, day: int, startMin: int) returns (outcome: ChangeOutcome)
      requires Valid()
      modifies this
      ensures Valid() && Contents() == Shift(old(Contents()), b, day, startMin)
      ensures outcome == ShiftVerdict(old(Contents()), b, day, startMin)
    {
      ghost var before := Contents();
      if b !in bookings { return NotFound; }
      if bookings[b].status !in MOVABLE { return Refused(Illegal); }
      var freed, v := Unblock(rows, b), bookings[b];
      if StaffBusy(freed, v.staff, Instant(day, startMin), Instant(day, startMin) + v.durationMin) { return SlotTaken; }
      WriteShift(b, day, startMin);
      Keep(before, DoShift(b, day, startMin));
      outcome := Changed;
    }

    method WriteShift(b: Id, day: int, startMin: int)
      requires b in bookings
      modifies this`rows, this`next
      ensures Contents() == ShiftWrite(old(Contents()), b, day, startMin)
    {
      var v := bookings[b];
      rows := Unblock(rows, b);
      rows := rows[next := ShiftedVisit(v, b, day, startMin)][next + 1 := ShiftedChair(v, b, day, startMin)];
      next := next + 2;
    }

    /** A visit of a series: its booking and rows at once, refused only when the professional is taken. */
    method SeatVisit(v: S.Standing, day: int, c: Materialiser.Candidate) returns (seated: bool)
      requires Valid() && S.Sellable(v)
      modifies this`rows, this`bookings, this`next
      ensures Valid() && seated == !S.Taken(old(rows), v, day, c)
      ensures Contents() == S.Materialise(old(Contents()), v, day, c)
    {
      if S.Taken(rows, v, day, c) { return false; }
      ghost var before := Contents();
      var b := next + 1;
      bookings := bookings[b := Booking(v.birth, v.branch, v.station, c.staff, v.durationMin, next)];
      rows := rows[next + 2 := S.SeatVisit(v, day, c, b)];
      rows := rows[next + 3 := S.SeatChair(v, day, c, b)];
      next := next + 4;
      Keep(before, DoMaterialise(v, day, c));
      seated := true;
    }

    method MoveOnto(b: Id, hold: Id, owesDeposit: bool, now: int) returns (outcome: ChangeOutcome)
      requires Valid()
      modifies this
      ensures Valid() && Contents() == Move(old(Contents()), b, hold, owesDeposit, now)
      ensures outcome == MoveVerdict(old(Contents()), b, hold, now)
    {
      ghost var before := Contents();
      if b !in bookings { return NotFound; }
      if bookings[b].status !in MOVABLE { return Refused(Illegal); }
      var visits := VisitRowsOf(rows, hold);
      if hold !in holds || holds[hold] <= now || visits == {} {
        assert HoldHasPerson(before, hold) ==> visits != {} by {
          if i :| HoldsPerson(before, hold, i) { assert i in visits; }
        }
        return HoldGone;
      }
      var i :| i in visits;
      assert HoldsPerson(before, hold, i);
      TheHeldPerson(before, hold, i);
      WriteMove(b, hold, owesDeposit, rows[i].subject.staff);
      Keep(before, DoMove(b, hold, owesDeposit, now));
      outcome := Changed;
    }

    method WriteMove(b: Id, hold: Id, owesDeposit: bool, staff: Id)
      requires b in bookings && HoldHasPerson(Contents(), hold) && staff == HeldPerson(Contents(), hold)
      modifies this`rows, this`holds, this`bookings
      ensures Contents() == MoveWrite(old(Contents()), b, hold, owesDeposit)
    {
      var v := bookings[b].(staff := staff);
      bookings := bookings[b := if owesDeposit then v.(status := PendingPayment) else v];
      rows, holds := Repoint(Unblock(rows, b), hold, b), holds - {hold};
    }

    /** Hold, confirm, link, answer; a failure after the hold gives back what it can reach. */
    method Create(p: PlaceRequest, c: ConfirmRequest, fault: Mobile.Fault, now: int) returns (created: Mobile.Created)
      requires Valid()
      modifies this
      ensures Valid()
      ensures Contents() == Mobile.Create(old(Contents()), p, c, units, fault, now)
      ensures created == Mobile.Outcome(old(Contents()), p, c, units, fault, now)
    {
      ghost var before := Contents();
      var placed := PlaceHold(p);
      if placed.Placed? {
        assert Contents() == PlaceWrite(before, p) && placed.hold == before.next;
        created := FinishCreate(c.(hold := placed.hold), fault, now);
      } else {
        created := Mobile.NotPlaced(placed);
      }
    }

    method FinishCreate(q: ConfirmRequest, fault: Mobile.Fault, now: int) returns (created: Mobile.Created)
      requires Valid()
      modifies this
      ensures Valid()
      ensures Contents() == Mobile.AfterHold(old(Contents()), q, fault, now)
      ensures created == Mobile.AnswerAfterHold(old(Contents()), q, fault, now)
    {
      ghost var held := Contents();
      var confirmed := TryConfirm(q, fault, now);
      AfterConfirm(held, q, fault, now, confirmed, Contents());
      if !confirmed.Booked? && !confirmed.Replayed? {
        Compensate(q.hold, None);
        return Mobile.Failed(Mobile.ConfirmThrows);
      }
      if fault.StoreThrows? && confirmed.Booked? {
        Compensate(q.hold, None);
        return Mobile.Failed(Mobile.StoreThrows);
      }
      created := LinkAndAnswer(q, confirmed.booking, fault);
    }

    /** The link, if one is wanted, and the answer; a link that is not sent takes everything back. */
    method LinkAndAnswer(q: ConfirmRequest, b: Id, fault: Mobile.Fault) returns (created: Mobile.Created)
      requires Valid()
      modifies this
      ensures Valid()
      ensures var before := old(Contents());
        if q.payment.Link? && (fault.LinkThrows? || LinkRefused(before, b)) then
          && created == Mobile.Failed(Mobile.LinkThrows)
          && Contents() == Transition(Release(before, q.hold), b, Expired, System, true)
        else
          && created == (if fault.PresentThrows? then Mobile.Failed(Mobile.PresentThrows) else Mobile.Made(b))
          && Contents() == if q.payment.Link? then SendLink(before, b) else before
    {
      if q.payment.Link? {
        var sent := SendPaymentLink(b, fault.LinkThrows?);
        if !sent {
          Compensate(q.hold, Some(b));
          return Mobile.Failed(Mobile.LinkThrows);
        }
      }
      created := if fault.PresentThrows? then Mobile.Failed(Mobile.PresentThrows) else Mobile.Made(b);
    }

    /** A stored key first; then the transaction. */
    method TryConfirm(q: ConfirmRequest, fault: Mobile.Fault, now: int) returns (outcome: ConfirmOutcome)
      requires Valid()
      modifies this
      ensures Valid() && outcome == Mobile.Verdict(old(Contents()), q, fault, now)
      ensures Contents() == Mobile.Confirmed(old(Contents()), q, outcome, now)
    {
      if fault.ConfirmThrows? { return ConfirmFailed; }
      if q.key in keys { return Replayed(keys[q.key]); }
      outcome := ConfirmHold(q, now);
    }

    /** Refused unless the booking waits on money or may; sending it makes the booking wait. */
    method SendPaymentLink(b: Id, throws: bool) returns (sent: bool)
      requires Valid()
      modifies this`bookings
      ensures Valid() && sent == (!throws && !LinkRefused(old(Contents()), b))
      ensures Contents() == if sent then SendLink(old(Contents()), b) else old(Contents())
    {
      if throws || b !in bookings || bookings[b].status !in SENDABLE { return false; }
      ghost var before := Contents();
      bookings := bookings[b := bookings[b].(status := PendingPayment)];
      assert Contents() == SendLink(before, b);
      Keep(before, DoSendLink(b));
      sent := true;
    }

    method Compensate(hold: Id, orphan: Option<Id>)
      requires Valid()
      modifies this
      ensures Valid()
      ensures var released := Release(old(Contents()), hold);
        Contents() == if orphan.Some? then Transition(released, orphan.value, Expired, System, true) else released
    {
      ReleaseHold(hold);
      if orphan.Some? {
        var _ := ChangeStatus(orphan.value, Expired, System, true);
      }
    }
  }
}
