/**
 * The diary: who and what is taken, when, and by whom. A reservation row belongs to a hold (a
 * customer deciding) or to a booking; the two tables of the database, staff and chairs, are one map
 * here and the subject of a row tells them apart. Each function is one transaction: it returns the
 * diary it leaves, which is the diary it was given whenever the transaction rolls back.
 */
module Diary {
  import opened Basics
  import opened Lifecycle
  import opened Chain

  const DAY_MINUTES := 1440

  datatype Subject =
    | Person(staff: Id)
    | Chair(branch: Id, station: string, day: int)

  datatype Reservation = Reservation(
    subject: Subject, hold: Option<Id>, booking: Option<Id>, from: int, to: int, blocking: bool)

  datatype Booking = Booking(
    status: Status, branch: Id, station: string, staff: Id, durationMin: int,
    origin: Id /* the hold that became it */)

  /** Money taken for a booking, under the gateway's reference when there is one. */
  datatype Capture = Capture(booking: Id, amountFils: int, ref: Option<string>)

  datatype Diary = Diary(
    rows: map<Id, Reservation>, holds: map<Id, int> /* when each expires */, bookings: map<Id, Booking>,
    keys: map<string, Id> /* idempotency key to the booking it answered with */,
    captures: seq<Capture>, next: Id)

  const EMPTY := Diary(map[], map[], map[], map[], [], 0)

  type Units = map<(Id, string), nat>

  function UnitsOf(units: Units, branch: Id, station: string): nat {
    if (branch, station) in units then units[(branch, station)] else 0
  }

  /** The instant of a minute of a trading day. */
  function Instant(day: int, minute: int): int {
    day * DAY_MINUTES + minute
  }

  // ------------------------------------------------------------------ what the rows say

  predicate Covers(r: Reservation, subject: Subject, t: int) {
    r.blocking && r.subject == subject && r.from <= t < r.to
  }

  predicate Meets(r: Reservation, subject: Subject, from: int, to: int) {
    r.blocking && r.subject == subject && r.from < to && from < r.to
  }

  function Using(rows: map<Id, Reservation>, subject: Subject, t: int): set<Id> {
    set i | i in rows && Covers(rows[i], subject, t)
  }

  function Meeting(rows: map<Id, Reservation>, subject: Subject, from: int, to: int): set<Id> {
    set i | i in rows && Meets(rows[i], subject, from, to)
  }

  function InUse(rows: map<Id, Reservation>, subject: Subject, t: int): nat {
    |Using(rows, subject, t)|
  }

  function Overlapping(rows: map<Id, Reservation>, subject: Subject, from: int, to: int): nat {
    |Meeting(rows, subject, from, to)|
  }

  /** The exclusion constraint: one person's blocking rows never meet. */
  predicate Clash(a: Reservation, b: Reservation) {
    a.blocking && a.subject.Person? && Meets(b, a.subject, a.from, a.to)
  }

  ghost predicate Exclusive(rows: map<Id, Reservation>) {
    forall i, j :: i in rows && j in rows && i != j ==> !Clash(rows[i], rows[j])
  }

  ghost predicate WithinUnits(rows: map<Id, Reservation>, units: Units) {
    forall branch: Id, station: string, day: int, t: int ::
      InUse(rows, Chair(branch, station, day), t) <= UnitsOf(units, branch, station)
  }

  // ------------------------------------------------------------------ the row updates

  function Repoint(rows: map<Id, Reservation>, hold: Id, booking: Id): map<Id, Reservation> {
    map i | i in rows :: if rows[i].hold == Some(hold) then rows[i].(hold := None, booking := Some(booking)) else rows[i]
  }

  /** The old slot goes back: the row stays for the history and stops blocking. */
  function Unblock(rows: map<Id, Reservation>, booking: Id): map<Id, Reservation> {
    map i | i in rows :: if rows[i].booking == Some(booking) then rows[i].(blocking := false) else rows[i]
  }

  /** Deleting holds takes their rows with them. */
  function Without(rows: map<Id, Reservation>, holds: set<Id>): map<Id, Reservation> {
    map i | i in rows && !(rows[i].hold.Some? && rows[i].hold.value in holds) :: rows[i]
  }

  // ------------------------------------------------------------------ place, release, sweep

  datatype PlaceRequest = PlaceRequest(
    branch: Id, day: int, staff: Id, startMin: int, services: seq<Service>, expiresAt: int)

  datatype PlaceOutcome = Placed(hold: Id) | NoChair(station: string) | StaffTaken | PlaceFailed

  function DemandsFor(q: PlaceRequest): seq<Demand> {
    ResourceDemand(q.services, Instant(q.day, q.startMin))
  }

  /** The first chair demand that finds no unit left, counted before anything is written. */
  function FirstFull(rows: map<Id, Reservation>, q: PlaceRequest, demands: seq<Demand>, units: Units): Option<string> {
    if demands == [] then None
    else if Overlapping(rows, Chair(q.branch, demands[0].station, q.day), demands[0].fromMin, demands[0].toMin)
            >= UnitsOf(units, q.branch, demands[0].station) then Some(demands[0].station)
    else FirstFull(rows, q, demands[1..], units)
  }

  function VisitRow(q: PlaceRequest, hold: Id): Reservation {
    Reservation(Person(q.staff), Some(hold), None, Instant(q.day, q.startMin),
                Instant(q.day, q.startMin) + TotalMinutes(q.services), true)
  }

  function ChairRow(q: PlaceRequest, hold: Id, first: Id, i: Id): Reservation
    requires first <= i < first + |DemandsFor(q)|
  {
    var demand := DemandsFor(q)[i - first];
    Reservation(Chair(q.branch, demand.station, q.day), Some(hold), None, demand.fromMin, demand.toMin, true)
  }

  function ChairRows(q: PlaceRequest, hold: Id, first: Id): map<Id, Reservation> {
    map i: Id | first <= i < first + |DemandsFor(q)| :: ChairRow(q, hold, first, i)
  }

  predicate StaffBusy(rows: map<Id, Reservation>, staff: Id, from: int, to: int) {
    exists i :: i in rows && Meets(rows[i], Person(staff), from, to)
  }

  ghost function PlaceVerdict(d: Diary, q: PlaceRequest, units: Units): PlaceOutcome {
    var full := FirstFull(d.rows, q, DemandsFor(q), units);
    var visit := VisitRow(q, d.next);
    if full.Some? then NoChair(full.value)
    else if q.services == [] then PlaceFailed
    else if StaffBusy(d.rows, q.staff, visit.from, visit.to) then StaffTaken
    else Placed(d.next)
  }

  /** The visit's own row, then the chairs'. */
  function HeldRows(q: PlaceRequest, hold: Id): map<Id, Reservation> {
    ChairRows(q, hold, hold + 2)[hold + 1 := VisitRow(q, hold)]
  }

  function PlaceWrite(d: Diary, q: PlaceRequest): Diary {
    d.(rows := d.rows + HeldRows(q, d.next),
       holds := d.holds[d.next := q.expiresAt],
       next := d.next + 2 + |DemandsFor(q)|)
  }

  ghost function Place(d: Diary, q: PlaceRequest, units: Units): Diary {
    if PlaceVerdict(d, q, units).Placed? then PlaceWrite(d, q) else d
  }

  function DropHolds(d: Diary, gone: set<Id>): Diary {
    d.(rows := Without(d.rows, gone), holds := d.holds - gone)
  }

  function Release(d: Diary, hold: Id): Diary {
    DropHolds(d, {hold})
  }

  function Sweep(d: Diary, now: int): Diary {
    DropHolds(d, set h | h in d.holds && d.holds[h] <= now)
  }

  // ------------------------------------------------------------------ confirm

  datatype Payment = NoPayment | Link | Tender(amountFils: int, ref: Option<string>)

  datatype ConfirmRequest = ConfirmRequest(
    hold: Id, key: string, branch: Id, services: seq<Service>, payment: Payment)

  datatype ConfirmOutcome =
    | Booked(booking: Id) | Replayed(booking: Id) | HoldExpired | PaymentAlreadyRecorded | ConfirmFailed

  predicate Alive(d: Diary, hold: Id, now: int) {
    hold in d.holds && d.holds[hold] > now
  }

  ghost predicate HoldsPerson(d: Diary, hold: Id, i: Id) {
    i in d.rows && d.rows[i].hold == Some(hold) && d.rows[i].subject.Person?
  }

  ghost predicate HoldHasPerson(d: Diary, hold: Id) {
    exists i :: HoldsPerson(d, hold, i)
  }

  ghost function HeldPerson(d: Diary, hold: Id): Id
    requires HoldHasPerson(d, hold)
  {
    var i :| HoldsPerson(d, hold, i); d.rows[i].subject.staff
  }

  /** The ledger takes a reference once. */
  predicate Recorded(captures: seq<Capture>, ref: string) {
    exists i :: 0 <= i < |captures| && captures[i].ref == Some(ref)
  }

  function StatusFor(p: Payment): Status {
    if p.Link? then PendingPayment else Confirmed
  }

  /** The transaction of a confirm, without the replay look-ups that come before it. */
  ghost function ConfirmVerdict(d: Diary, q: ConfirmRequest, now: int): ConfirmOutcome {
    if !Alive(d, q.hold, now) || !HoldHasPerson(d, q.hold) then HoldExpired
    else if q.services == [] then ConfirmFailed
    else if q.payment.Tender? && q.payment.ref.Some? && Recorded(d.captures, q.payment.ref.value) then PaymentAlreadyRecorded
    else if q.key in d.keys then Replayed(d.keys[q.key])
    else Booked(d.next)
  }

  ghost function BookingFrom(d: Diary, q: ConfirmRequest): Booking
    requires HoldHasPerson(d, q.hold) && q.services != []
  {
    Booking(StatusFor(q.payment), q.branch, q.services[0].station, HeldPerson(d, q.hold),
            TotalMinutes(q.services), q.hold)
  }

  ghost function ConfirmWrite(d: Diary, q: ConfirmRequest): Diary
    requires HoldHasPerson(d, q.hold) && q.services != []
  {
    Diary(Repoint(d.rows, q.hold, d.next), d.holds - {q.hold}, d.bookings[d.next := BookingFrom(d, q)],
          d.keys[q.key := d.next],
          if q.payment.Tender? then d.captures + [Capture(d.next, q.payment.amountFils, q.payment.ref)] else d.captures,
          d.next + 1)
  }

  ghost function Confirm(d: Diary, q: ConfirmRequest, now: int): Diary {
    if ConfirmVerdict(d, q, now).Booked? then ConfirmWrite(d, q) else d
  }

  // ------------------------------------------------------------------ transition, shift, move

  datatype ChangeOutcome = Changed | NotFound | Refused(verdict: Verdict) | SlotTaken | HoldGone

  function TransitionVerdict(d: Diary, b: Id, to: Status, actor: Actor, hasReason: bool): ChangeOutcome {
    if b !in d.bookings then NotFound
    else
      var verdict := Check(d.bookings[b].status, to, actor, hasReason);
      if verdict.Allowed? then Changed else Refused(verdict)
  }

  function Transition(d: Diary, b: Id, to: Status, actor: Actor, hasReason: bool): Diary {
    if TransitionVerdict(d, b, to, actor, hasReason).Changed? then
      d.(bookings := d.bookings[b := d.bookings[b].(status := to)],
         rows := if to in RELEASING then Unblock(d.rows, b) else d.rows)
    else d
  }

  function Freed(d: Diary, b: Id): Diary {
    d.(rows := Unblock(d.rows, b))
  }

  /** Same professional, same day: the old rows stop blocking and one of each kind is written. */
  ghost function ShiftVerdict(d: Diary, b: Id, day: int, startMin: int): ChangeOutcome {
    if b !in d.bookings then NotFound
    else if d.bookings[b].status !in MOVABLE then Refused(Illegal)
    else if StaffBusy(Freed(d, b).rows, d.bookings[b].staff, Instant(day, startMin),
                      Instant(day, startMin) + d.bookings[b].durationMin) then SlotTaken
    else Changed
  }

  function ShiftedVisit(v: Booking, b: Id, day: int, startMin: int): Reservation {
    Reservation(Person(v.staff), None, Some(b), Instant(day, startMin), Instant(day, startMin) + v.durationMin, true)
  }

  function ShiftedChair(v: Booking, b: Id, day: int, startMin: int): Reservation {
    ShiftedVisit(v, b, day, startMin).(subject := Chair(v.branch, v.station, day))
  }

  function ShiftWrite(d: Diary, b: Id, day: int, startMin: int): Diary
    requires b in d.bookings
  {
    d.(rows := Freed(d, b).rows[d.next := ShiftedVisit(d.bookings[b], b, day, startMin)]
                               [d.next + 1 := ShiftedChair(d.bookings[b], b, day, startMin)],
       next := d.next + 2)
  }

  ghost function Shift(d: Diary, b: Id, day: int, startMin: int): Diary {
    if ShiftVerdict(d, b, day, startMin).Changed? then ShiftWrite(d, b, day, startMin) else d
  }

  /** Onto a hold that is still alive: the old rows stop blocking, the hold's rows become the booking's. */
  ghost function MoveVerdict(d: Diary, b: Id, hold: Id, now: int): ChangeOutcome {
    if b !in d.bookings then NotFound
    else if d.bookings[b].status !in MOVABLE then Refused(Illegal)
    else if !Alive(d, hold, now) || !HoldHasPerson(d, hold) then HoldGone
    else Changed
  }

  ghost function MoveWrite(d: Diary, b: Id, hold: Id, owesDeposit: bool): Diary
    requires b in d.bookings && HoldHasPerson(d, hold)
  {
    var v := d.bookings[b];
    d.(rows := Repoint(Freed(d, b).rows, hold, b), holds := d.holds - {hold},
       bookings := d.bookings[b := v.(staff := HeldPerson(d, hold),
                                      status := if owesDeposit then PendingPayment else v.status)])
  }

  ghost function Move(d: Diary, b: Id, hold: Id, owesDeposit: bool, now: int): Diary {
    if MoveVerdict(d, b, hold, now).Changed? then MoveWrite(d, b, hold, owesDeposit) else d
  }

  // ------------------------------------------------------------------ payment links

  const SENDABLE: set<Status> := {Confirmed, PendingPayment}

  /** Only a booking that waits on money, or may, can be sent a link. */
  predicate LinkRefused(d: Diary, b: Id) {
    b !in d.bookings || d.bookings[b].status !in SENDABLE
  }

  /** Sending it makes the booking wait, also one that had been confirmed. */
  function SendLink(d: Diary, b: Id): Diary {
    if LinkRefused(d, b) then d else d.(bookings := d.bookings[b := d.bookings[b].(status := PendingPayment)])
  }
}
