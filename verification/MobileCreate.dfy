/**
 * The mobile create: hold, confirm, payment link, answer, with compensation when a step fails. The
 * answer is built after the `try` returned its promise without waiting for it, so a failure there
 * is the one the compensation never sees.
 */
module MobileCreate {
  import opened Basics
  import opened Lifecycle
  import opened Chain
  import opened Diary
  import opened DiaryProofs
  import opened DiaryChairs
  import opened DiaryRuns
  import Calendar = DiaryCalendar

  /** The step that throws, if any; StoreThrows is confirm's own write after its transaction. */
  datatype Fault = NoFault | ConfirmThrows | StoreThrows | LinkThrows | PresentThrows

  datatype Created = Made(booking: Id) | NotPlaced(why: PlaceOutcome) | Failed(at: Fault)

  // What follows the hold, on the diary that has it.

  /** A key that is stored is answered from the store, before anything is looked at. */
  ghost function Verdict(held: Diary, c: ConfirmRequest, fault: Fault, now: int): ConfirmOutcome {
    if fault.ConfirmThrows? then ConfirmFailed
    else if c.key in held.keys then Replayed(held.keys[c.key])
    else ConfirmVerdict(held, c, now)
  }

  /** The diary once confirm has answered. */
  ghost function Confirmed(held: Diary, c: ConfirmRequest, v: ConfirmOutcome, now: int): Diary {
    if v.Booked? then Confirm(held, c, now) else held
  }

  /** The fault that ends the create once the hold is placed. */
  ghost function Ends(held: Diary, c: ConfirmRequest, fault: Fault, now: int): Fault {
    var v := Verdict(held, c, fault, now);
    if !v.Booked? && !v.Replayed? then ConfirmThrows
    else if fault.StoreThrows? && v.Booked? then StoreThrows
    else if c.payment.Link? && (fault.LinkThrows? || LinkRefused(Confirmed(held, c, v, now), v.booking)) then LinkThrows
    else if fault.PresentThrows? then PresentThrows
    else NoFault
  }

  ghost function AfterHold(held: Diary, c: ConfirmRequest, fault: Fault, now: int): Diary {
    var v := Verdict(held, c, fault, now);
    var confirmed := Confirmed(held, c, v, now);
    match Ends(held, c, fault, now)
    case ConfirmThrows => Release(held, c.hold)
    case StoreThrows => Release(confirmed, c.hold)
    case LinkThrows =>
      if v.Booked? || v.Replayed? then Transition(Release(confirmed, c.hold), v.booking, Expired, System, true)
      else confirmed
    case _ => if c.payment.Link? && (v.Booked? || v.Replayed?) then SendLink(confirmed, v.booking) else confirmed
  }

  ghost function AnswerAfterHold(held: Diary, c: ConfirmRequest, fault: Fault, now: int): Created {
    var v := Verdict(held, c, fault, now);
    var ends := Ends(held, c, fault, now);
    if !ends.NoFault? then Failed(ends)
    else if v.Booked? || v.Replayed? then Made(v.booking) else Failed(ConfirmThrows)
  }

  ghost function Create(d: Diary, p: PlaceRequest, c: ConfirmRequest, units: Units, fault: Fault, now: int): Diary {
    if PlaceVerdict(d, p, units).Placed? then AfterHold(PlaceWrite(d, p), c.(hold := d.next), fault, now) else d
  }

  ghost function Outcome(d: Diary, p: PlaceRequest, c: ConfirmRequest, units: Units, fault: Fault, now: int): Created {
    var placed := PlaceVerdict(d, p, units);
    if placed.Placed? then AnswerAfterHold(PlaceWrite(d, p), c.(hold := d.next), fault, now) else NotPlaced(placed)
  }

  // ------------------------------------------------------------------ what "given back" means

  /** The same rows block the same subjects at the same minutes, whoever owns them. */
  ghost predicate SameBlocking(a: map<Id, Reservation>, b: map<Id, Reservation>) {
    NoMoreThan(a, b) && NoMoreThan(b, a)
  }

  ghost predicate NoNewLive(d: Diary, e: Diary) {
    forall b :: b in e.bookings && b !in d.bookings ==> e.bookings[b].status in RELEASING
  }

  ghost predicate GivenBack(d: Diary, e: Diary) {
    SameBlocking(d.rows, e.rows) && NoNewLive(d, e)
  }

  lemma SameBlockingSameMeeting(a: map<Id, Reservation>, b: map<Id, Reservation>, subject: Subject, from: int, to: int)
    requires SameBlocking(a, b)
    ensures Meeting(a, subject, from, to) == Meeting(b, subject, from, to)
  {}

  lemma {:induction false} SameBlockingSameFull(
      a: map<Id, Reservation>, b: map<Id, Reservation>, q: PlaceRequest, demands: seq<Demand>, units: Units)
    requires SameBlocking(a, b)
    ensures FirstFull(a, q, demands, units) == FirstFull(b, q, demands, units)
  {
    if demands != [] {
      SameBlockingSameMeeting(a, b, Chair(q.branch, demands[0].station, q.day), demands[0].fromMin, demands[0].toMin);
      SameBlockingSameFull(a, b, q, demands[1..], units);
    }
  }

  /** What is given back can be sold again: every place is answered as it would have been before. */
  lemma GivenBackCanBeSold(d: Diary, e: Diary, q: PlaceRequest, units: Units)
    requires GivenBack(d, e)
    ensures PlaceVerdict(d, q, units).Placed? <==> PlaceVerdict(e, q, units).Placed?
    ensures PlaceVerdict(d, q, units).StaffTaken? <==> PlaceVerdict(e, q, units).StaffTaken?
    ensures PlaceVerdict(d, q, units).NoChair? <==> PlaceVerdict(e, q, units).NoChair?
  {
    var visit := VisitRow(q, d.next);
    SameBlockingSameFull(d.rows, e.rows, q, DemandsFor(q), units);
    SameBlockingSameMeeting(d.rows, e.rows, Person(q.staff), visit.from, visit.to);
    BusyMeansMeeting(d.rows, q.staff, visit.from, visit.to);
    BusyMeansMeeting(e.rows, q.staff, visit.from, visit.to);
  }

  lemma BusyMeansMeeting(rows: map<Id, Reservation>, staff: Id, from: int, to: int)
    ensures StaffBusy(rows, staff, from, to) <==> Meeting(rows, Person(staff), from, to) != {}
  {
    if StaffBusy(rows, staff, from, to) {
      var i :| i in rows && Meets(rows[i], Person(staff), from, to);
      assert i in Meeting(rows, Person(staff), from, to);
    }
    if Meeting(rows, Person(staff), from, to) != {} {
      var i :| i in Meeting(rows, Person(staff), from, to);
      assert Meets(rows[i], Person(staff), from, to);
    }
  }

  // ------------------------------------------------------------------ the compensation

  /** Around the rows of `d`, the diary `held` has the rows of one new hold and nothing else. */
  ghost predicate OneHoldMore(d: Diary, held: Diary) {
    && d.next < held.next && held.bookings == d.bookings && held.captures == d.captures && held.keys == d.keys
    && d.next !in d.holds && held.holds.Keys == d.holds.Keys + {d.next} && held.holds - {d.next} == d.holds
    && (forall b :: b in d.bookings ==> b < d.next)
    && (forall i :: i in held.rows && i !in d.rows ==> held.rows[i].hold == Some(d.next) && held.rows[i].blocking)
    && (forall i :: i in d.rows ==> i in held.rows && held.rows[i] == d.rows[i])
  }

  lemma PlacedIsOneHoldMore(d: Diary, p: PlaceRequest)
    requires RowsSound(d) && Once(d.bookings, d.holds, d.next)
    ensures OneHoldMore(d, PlaceWrite(d, p))
  {
    PlacedRowsAreItsOwn(d, p);
  }

  lemma ReleasedHold(d: Diary, held: Diary)
    requires RowsSound(d) && OneHoldMore(d, held)
    ensures GivenBack(d, Release(held, d.next))
  {
    forall i | i in d.rows ensures held.rows[i].hold != Some(d.next) { assert Owned(d, d.rows[i]); }
  }

  /** After the expiry the create's own rows no longer block and everybody else's are as they were. */
  lemma RowsOfTheOrphan(d: Diary, held: Diary)
    requires RowsSound(d) && OneHoldMore(d, held)
    ensures SameBlocking(d.rows, Unblock(Without(Repoint(held.rows, d.next, held.next), {d.next}), held.next))
  {
    var left := Unblock(Without(Repoint(held.rows, d.next, held.next), {d.next}), held.next);
    forall i | i in d.rows ensures i in left && left[i] == d.rows[i] {
      assert Owned(d, d.rows[i]);
    }
    forall i | i in left && i !in d.rows ensures !left[i].blocking {
      assert held.rows[i].hold == Some(d.next);
    }
  }

  /** What the compensation of a failed link leaves, and that the expiry is legal at that point. */
  lemma OrphanExpires(held: Diary, c: ConfirmRequest)
    requires HoldHasPerson(held, c.hold) && c.services != [] && c.payment.Link?
    ensures var e := Transition(Release(ConfirmWrite(held, c), c.hold), held.next, Expired, System, true);
      && e.rows == Unblock(Without(Repoint(held.rows, c.hold, held.next), {c.hold}), held.next)
      && e.bookings.Keys == held.bookings.Keys + {held.next} && e.bookings[held.next].status == Expired
      && c.key in e.keys && e.keys[c.key] == held.next
      && e.next == held.next + 1
  {}

  lemma LinkUndone(d: Diary, held: Diary, c: ConfirmRequest, fault: Fault, now: int)
    requires RowsSound(d) && OneHoldMore(d, held) && c.hold == d.next && c.key !in d.keys
    requires Ends(held, c, fault, now).LinkThrows?
    ensures var e := AfterHold(held, c, fault, now);
      && GivenBack(d, e) && held.next in e.bookings && e.bookings[held.next].status == Expired
      && c.key in e.keys && e.keys[c.key] == held.next && c.payment.Link? && c.services != []
  {
    RowsOfTheOrphan(d, held);
    OrphanExpires(held, c);
    assert AfterHold(held, c, fault, now)
        == Transition(Release(ConfirmWrite(held, c), c.hold), held.next, Expired, System, true);
  }

  /** A booking that was written and not expired is live, whatever was done about its hold. */
  lemma BookingStays(d: Diary, held: Diary, c: ConfirmRequest, now: int)
    requires ConfirmVerdict(held, c, now).Booked? && held.next !in d.bookings
    ensures var e := Confirm(held, c, now);
      && !GivenBack(d, e) && !GivenBack(d, Release(e, c.hold)) && !GivenBack(d, SendLink(e, held.next))
  {
    assert held.next in Confirm(held, c, now).bookings;
  }

  /** A hold that nobody gave back still blocks. */
  lemma HoldStays(d: Diary, e: Diary, held: Diary)
    requires OneHoldMore(d, held) && e.rows == held.rows && exists i :: i in held.rows && i !in d.rows
    ensures !GivenBack(d, e)
  {
    var i :| i in held.rows && i !in d.rows;
    assert e.rows[i].blocking;
  }

  // ------------------------------------------------------------------ a key that is stored already

  /** The booking stored under the key is an older one, and the system may expire it from where it stands. */
  predicate OlderExpires(d: Diary, key: string) {
    key in d.keys && d.keys[key] in d.bookings && Check(d.bookings[d.keys[key]].status, Expired, System, true).Allowed?
  }

  /** Releasing the new hold leaves the diary there was; expiring the older booking may follow. */
  lemma ReplayUndone(d: Diary, held: Diary, c: ConfirmRequest)
    requires Sound(d) && OneHoldMore(d, held) && c.hold == d.next && c.key in d.keys
    ensures var e := Transition(Release(held, d.next), d.keys[c.key], Expired, System, true);
      && e.keys == d.keys && e.bookings.Keys == d.bookings.Keys && e.holds == d.holds
      && (GivenBack(d, e) <==> !OlderExpires(d, c.key))
      && (forall b :: b in d.bookings && (b != d.keys[c.key] || !OlderExpires(d, c.key)) ==> e.bookings[b] == d.bookings[b])
  {
    ReleasedHold(d, held);
    assert d.keys[c.key] in d.bookings;
    if OlderExpires(d, c.key) { OlderLosesItsTime(d, held, d.keys[c.key]); }
  }

  /** The older booking's own professional was blocked, and after the expiry is not. */
  lemma OlderLosesItsTime(d: Diary, held: Diary, b: Id)
    requires Sound(d) && OneHoldMore(d, held) && b in d.bookings
    requires Check(d.bookings[b].status, Expired, System, true).Allowed?
    ensures !GivenBack(d, Transition(Release(held, d.next), b, Expired, System, true))
  {
    CapacityFollowsStatus(d.bookings[b].status, Expired, System, true);
    assert HasPerson(d, b);
    var i :| LivePerson(d, b, i);
    assert held.rows[i] == d.rows[i] && Owned(d, d.rows[i]);
    var e := Transition(Release(held, d.next), b, Expired, System, true);
    assert i in e.rows && !e.rows[i].blocking;
  }

  /** After a place: the hold's own visit row, and it alone among the new rows holds somebody. */
  ghost predicate HasNewRow(d: Diary, held: Diary) {
    exists i :: i in held.rows && i !in d.rows
  }

  lemma FailedAfterHold(d: Diary, held: Diary, c: ConfirmRequest, fault: Fault, now: int)
    requires Sound(d) && OneHoldMore(d, held) && HasNewRow(d, held) && c.hold == d.next
    requires AnswerAfterHold(held, c, fault, now).Failed?
    ensures GivenBack(d, AfterHold(held, c, fault, now)) <==>
      var at := AnswerAfterHold(held, c, fault, now).at;
      at.ConfirmThrows? || (at.LinkThrows? && !OlderExpires(d, c.key))
  {
    var v := Verdict(held, c, fault, now);
    match Ends(held, c, fault, now) {
      case ConfirmThrows => ReleasedHold(d, held);
      case StoreThrows => BookingStays(d, held, c, now);
      case LinkThrows =>
        if v.Replayed? && c.key in d.keys { ReplayUndone(d, held, c); } else { LinkUndone(d, held, c, fault, now); }
      case _ =>
        if v.Booked? { BookingStays(d, held, c, now); }
        else { HoldStays(d, AfterHold(held, c, fault, now), held); }
    }
  }

  lemma PlacedHasNewRow(d: Diary, p: PlaceRequest)
    requires RowsSound(d)
    ensures HasNewRow(d, PlaceWrite(d, p))
  {
    assert d.next + 1 in PlaceWrite(d, p).rows && d.next + 1 !in d.rows;
  }

  /**
   * A create that fails once its hold is placed gives everything back, and leaves no new live booking,
   * if and only if the step that failed is one its compensation reaches, not the write confirm makes
   * after its transaction and not the building of the answer; and, for a key that was stored already,
   * the booking it stands for was not one the compensation expires in its place.
   */
  lemma FailedCreateGivesBack(d: Diary, p: PlaceRequest, c: ConfirmRequest, units: Units, fault: Fault, now: int)
    requires Sound(d) && Outcome(d, p, c, units, fault, now).Failed?
    ensures GivenBack(d, Create(d, p, c, units, fault, now)) <==>
      var at := Outcome(d, p, c, units, fault, now).at;
      at.ConfirmThrows? || (at.LinkThrows? && !OlderExpires(d, c.key))
  {
    PlacedIsOneHoldMore(d, p);
    PlacedHasNewRow(d, p);
    FailedAfterHold(d, PlaceWrite(d, p), c.(hold := d.next), fault, now);
  }

  // ------------------------------------------------------------------ success

  /** Beside the rows there were, only rows of `b`, all blocking, its professional's own among them. */
  ghost predicate OwnsTheSlot(d: Diary, rows: map<Id, Reservation>, visit: Reservation, b: Id) {
    && d.next + 1 in rows && rows[d.next + 1] == visit.(hold := None, booking := Some(b))
    && (forall i :: i in d.rows ==> i in rows && rows[i] == d.rows[i])
    && (forall i :: i in rows && i !in d.rows ==> rows[i].booking == Some(b) && rows[i].blocking)
  }

  lemma MadeAfterHold(d: Diary, held: Diary, c: ConfirmRequest, fault: Fault, now: int, visit: Reservation)
    requires RowsSound(d) && OneHoldMore(d, held) && c.hold == d.next && c.key !in d.keys
    requires d.next + 1 in held.rows && held.rows[d.next + 1] == visit && visit.hold == Some(d.next)
    requires AnswerAfterHold(held, c, fault, now).Made?
    ensures var e := AfterHold(held, c, fault, now); var b := AnswerAfterHold(held, c, fault, now).booking;
      && b !in d.bookings && e.bookings.Keys == d.bookings.Keys + {b} && e.bookings[b].status == StatusFor(c.payment)
      && e.holds == d.holds && OwnsTheSlot(d, e.rows, visit, b)
  {
    forall i | i in d.rows ensures held.rows[i].hold != Some(d.next) { assert Owned(d, d.rows[i]); }
  }

  /** A replayed success: the older booking, waiting again if a link was sent, and the new hold still there. */
  ghost predicate OlderAnswered(d: Diary, held: Diary, e: Diary, b: Id, link: bool) {
    && e.rows == held.rows && e.holds == held.holds && e.keys == d.keys && e.bookings.Keys == d.bookings.Keys
    && b in d.bookings && e.bookings[b] == (if link then d.bookings[b].(status := PendingPayment) else d.bookings[b])
    && (link ==> d.bookings[b].status in SENDABLE)
    && (forall a :: a in d.bookings && a != b ==> e.bookings[a] == d.bookings[a])
  }

  /** The rows of a create that made a booking are its hold's, handed over. */
  lemma MadeRows(held: Diary, c: ConfirmRequest, fault: Fault, now: int)
    requires c.key !in held.keys && AnswerAfterHold(held, c, fault, now).Made?
    ensures AnswerAfterHold(held, c, fault, now).booking == held.next
    ensures AfterHold(held, c, fault, now).rows == Repoint(held.rows, c.hold, held.next)
  {}

  /** So the booking keeps the professional and each chair busy at exactly the minutes the visit needs them. */
  lemma CreatedKeepsItsTime(
      d: Diary, p: PlaceRequest, c: ConfirmRequest, units: Units, fault: Fault, now: int, subject: Subject, t: int)
    requires Sound(d) && c.key !in d.keys && Outcome(d, p, c, units, fault, now).Made?
    ensures Calendar.Uses(Create(d, p, c, units, fault, now).rows,
                          Calendar.ByBooking(Outcome(d, p, c, units, fault, now).booking), subject, t)
      <==> Calendar.Wanted(p, subject, t)
  {
    var held := PlaceWrite(d, p);
    PlaceSound(d, p, units);
    assert held == Place(d, p, units);
    MadeRows(held, c.(hold := d.next), fault, now);
    forall i | i in held.rows ensures held.rows[i].booking != Some(held.next) { assert Owned(held, held.rows[i]); }
    Calendar.RepointMeans(held, d.next, held.next, Calendar.ByBooking(held.next), subject, t);
    Calendar.PlaceMeans(d, p, Calendar.ByHold(d.next), subject, t);
  }

  ghost predicate KeepsTimeOf(rows: map<Id, Reservation>, b: Id, p: PlaceRequest) {
    forall subject, t :: Calendar.Uses(rows, Calendar.ByBooking(b), subject, t) <==> Calendar.Wanted(p, subject, t)
  }

  lemma CreatedKeepsAllItsTime(d: Diary, p: PlaceRequest, c: ConfirmRequest, units: Units, fault: Fault, now: int)
    requires Sound(d) && c.key !in d.keys && Outcome(d, p, c, units, fault, now).Made?
    ensures KeepsTimeOf(Create(d, p, c, units, fault, now).rows, Outcome(d, p, c, units, fault, now).booking, p)
  {
    forall subject, t
      ensures Calendar.Uses(Create(d, p, c, units, fault, now).rows,
                            Calendar.ByBooking(Outcome(d, p, c, units, fault, now).booking), subject, t)
        <==> Calendar.Wanted(p, subject, t)
    {
      CreatedKeepsItsTime(d, p, c, units, fault, now, subject, t);
    }
  }

  /**
   * A create that succeeds with a key nobody had used made one booking, live, that alone owns the rows
   * the hold had. With a key that was stored it makes none: it is answered with the older booking,
   * whatever has become of that one, and its own hold stays behind, blocking the slot.
   */
  lemma SuccessfulCreateOwnsTheSlot(d: Diary, p: PlaceRequest, c: ConfirmRequest, units: Units, fault: Fault, now: int)
    requires Sound(d) && Outcome(d, p, c, units, fault, now).Made?
    ensures var e := Create(d, p, c, units, fault, now); var b := Outcome(d, p, c, units, fault, now).booking;
      && (b !in d.bookings <==> c.key !in d.keys)
      && (c.key !in d.keys ==>
            && e.bookings.Keys == d.bookings.Keys + {b}
            && e.bookings[b].status == (if c.payment.Link? then PendingPayment else Status.Confirmed)
            && e.holds == d.holds && OwnsTheSlot(d, e.rows, VisitRow(p, d.next), b)
            && KeepsTimeOf(e.rows, b, p))
      && (c.key in d.keys ==> b == d.keys[c.key] && OlderAnswered(d, PlaceWrite(d, p), e, b, c.payment.Link?))
  {
    var held := PlaceWrite(d, p);
    PlacedIsOneHoldMore(d, p);
    assert d.next + 1 in held.rows && held.rows[d.next + 1] == VisitRow(p, d.next);
    if c.key !in d.keys {
      MadeAfterHold(d, held, c.(hold := d.next), fault, now, VisitRow(p, d.next));
      CreatedKeepsAllItsTime(d, p, c, units, fault, now);
    } else {
      ReplayMade(d, held, c.(hold := d.next), fault, now);
    }
  }

  lemma ReplayMade(d: Diary, held: Diary, c: ConfirmRequest, fault: Fault, now: int)
    requires OneHoldMore(d, held) && c.key in d.keys && d.keys[c.key] in d.bookings
    requires AnswerAfterHold(held, c, fault, now).Made?
    ensures AnswerAfterHold(held, c, fault, now) == Made(d.keys[c.key])
    ensures OlderAnswered(d, held, AfterHold(held, c, fault, now), d.keys[c.key], c.payment.Link?)
  {}

  /** Nothing throws that ends the create: a link is looked at only by a create that wants one. */
  predicate NothingThrows(c: ConfirmRequest, fault: Fault) {
    fault.NoFault? || (fault.LinkThrows? && !c.payment.Link?)
  }

  lemma HeldMadeIff(held: Diary, c: ConfirmRequest, fault: Fault, now: int)
    requires c.key !in held.keys && HoldHasPerson(held, c.hold) && c.hold in held.holds
    ensures AnswerAfterHold(held, c, fault, now).Made? <==>
      && NothingThrows(c, fault) && now < held.holds[c.hold] && c.services != []
      && (c.payment.Tender? && c.payment.ref.Some? ==> !Recorded(held.captures, c.payment.ref.value))
  {}

  /**
   * A create with a new key makes its booking if and only if its place is taken, nothing throws, its
   * hold lives to be confirmed, and no payment it carries was taken before.
   */
  lemma CreateMadeIff(d: Diary, p: PlaceRequest, c: ConfirmRequest, units: Units, fault: Fault, now: int)
    requires Sound(d) && c.key !in d.keys
    ensures Outcome(d, p, c, units, fault, now).Made? <==>
      && PlaceVerdict(d, p, units).Placed? && NothingThrows(c, fault) && now < p.expiresAt && c.services != []
      && (c.payment.Tender? && c.payment.ref.Some? ==> !Recorded(d.captures, c.payment.ref.value))
  {
    var held := PlaceWrite(d, p);
    PlacedIsOneHoldMore(d, p);
    assert HoldsPerson(held, d.next, d.next + 1) by { assert held.rows[d.next + 1] == VisitRow(p, d.next); }
    HeldMadeIff(held, c.(hold := d.next), fault, now);
  }

  // ------------------------------------------------------------------ a key that is spoiled

  /** Stored with a booking no link can be sent for and nobody can expire again. */
  predicate Spoiled(d: Diary, key: string) {
    key in d.keys && d.keys[key] in d.bookings && d.bookings[d.keys[key]].status == Expired
  }

  /** After a failed link the key is spoiled: the compensation expired the booking and kept the key. */
  lemma FailedLinkSpoilsTheKey(d: Diary, p: PlaceRequest, c: ConfirmRequest, units: Units, fault: Fault, now: int)
    requires Sound(d) && c.key !in d.keys && Outcome(d, p, c, units, fault, now) == Failed(LinkThrows)
    ensures Spoiled(Create(d, p, c, units, fault, now), c.key) && GivenBack(d, Create(d, p, c, units, fault, now))
  {
    PlacedIsOneHoldMore(d, p);
    LinkUndone(d, PlaceWrite(d, p), c.(hold := d.next), fault, now);
  }

  lemma ApplySpoiled(d: Diary, s: Step, units: Units, key: string)
    requires Spoiled(d, key) && d.keys[key] < d.next
    ensures Spoiled(Apply(d, s, units), key) && Apply(d, s, units).keys[key] < Apply(d, s, units).next
  {}

  lemma {:induction false} RunSpoiled(d: Diary, steps: seq<Step>, units: Units, key: string)
    requires Spoiled(d, key) && d.keys[key] < d.next
    ensures Spoiled(Run(d, steps, units), key)
    decreases |steps|
  {
    if steps != [] {
      ApplySpoiled(d, steps[0], units, key);
      RunSpoiled(Apply(d, steps[0], units), steps[1..], units, key);
    }
  }

  lemma SpoiledAfterHold(held: Diary, c: ConfirmRequest, fault: Fault, now: int)
    requires Spoiled(held, c.key) && c.payment.Link?
    ensures AnswerAfterHold(held, c, fault, now) == Failed(if fault.ConfirmThrows? then ConfirmThrows else LinkThrows)
    ensures AfterHold(held, c, fault, now) == Release(held, c.hold)
  {}

  lemma ReleasedKeepsSpoiled(e: Diary, held: Diary, key: string)
    requires OneHoldMore(e, held) && Spoiled(e, key)
    ensures Spoiled(held, key) && Spoiled(Release(held, e.next), key)
  {}

  /** A create under a spoiled key that wants a link: refused at the link, everything given back, key as it was. */
  lemma SpoiledKeyFails(e: Diary, p: PlaceRequest, c: ConfirmRequest, units: Units, fault: Fault, now: int)
    requires Sound(e) && Spoiled(e, c.key) && c.payment.Link?
    ensures !Outcome(e, p, c, units, fault, now).Made?
    ensures PlaceVerdict(e, p, units).Placed? && !fault.ConfirmThrows? ==>
      Outcome(e, p, c, units, fault, now) == Failed(LinkThrows)
    ensures GivenBack(e, Create(e, p, c, units, fault, now)) && Spoiled(Create(e, p, c, units, fault, now), c.key)
  {
    var held := PlaceWrite(e, p);
    if PlaceVerdict(e, p, units).Placed? {
      PlacedIsOneHoldMore(e, p);
      ReleasedKeepsSpoiled(e, held, c.key);
      SpoiledAfterHold(held, c.(hold := e.next), fault, now);
      ReleasedHold(e, held);
      assert Create(e, p, c, units, fault, now) == Release(held, e.next);
    }
  }

  /**
   * A customer whose link failed can never book with that key again. Whatever happens in between and
   * whatever they then ask for, as long as it is paid by link: the slot may be free, they hold it, the
   * key is answered with the booking the first try expired, the link is refused, and the hold is given
   * back, every time.
   */
  lemma KeyedRetryNeverSucceeds(
      d: Diary, p: PlaceRequest, c: ConfirmRequest, units: Units, fault: Fault, now: int, steps: seq<Step>,
      again: PlaceRequest, retry: ConfirmRequest, later: Fault, when: int)
    requires Sound(d) && c.key !in d.keys && Outcome(d, p, c, units, fault, now) == Failed(LinkThrows)
    requires retry.key == c.key && retry.payment.Link? && !later.ConfirmThrows?
    ensures var e := Run(Create(d, p, c, units, fault, now), steps, units);
      && (PlaceVerdict(e, again, units).Placed? ==> Outcome(e, again, retry, units, later, when) == Failed(LinkThrows))
      && !Outcome(e, again, retry, units, later, when).Made?
      && GivenBack(e, Create(e, again, retry, units, later, when))
  {
    var first := Create(d, p, c, units, fault, now);
    FailedLinkSpoilsTheKey(d, p, c, units, fault, now);
    CreateSound(d, p, c, units, fault, now);
    RunSpoiled(first, steps, units, c.key);
    RunSound(first, steps, units);
    SpoiledKeyFails(Run(first, steps, units), again, retry, units, later, when);
  }

  /** A create keeps the diary sound however it ends. */
  lemma CreateSound(d: Diary, p: PlaceRequest, c: ConfirmRequest, units: Units, fault: Fault, now: int)
    requires Sound(d)
    ensures Sound(Create(d, p, c, units, fault, now))
  {
    if PlaceVerdict(d, p, units).Placed? {
      var held, q := PlaceWrite(d, p), c.(hold := d.next);
      var v := Verdict(held, q, fault, now);
      PlaceSound(d, p, units);
      assert held == Place(d, p, units);
      ConfirmSound(held, q, now);
      AfterSound(held, q, fault, now);
    }
  }

  lemma AfterSound(held: Diary, c: ConfirmRequest, fault: Fault, now: int)
    requires Sound(held) && Sound(Confirm(held, c, now))
    ensures Sound(AfterHold(held, c, fault, now))
  {
    var v := Verdict(held, c, fault, now);
    var confirmed := Confirmed(held, c, v, now);
    var e := AfterHold(held, c, fault, now);
    assert Sound(confirmed);
    var ends := Ends(held, c, fault, now);
    if ends.ConfirmThrows? {
      DropHoldsSound(held, {c.hold});
      assert e == DropHolds(held, {c.hold});
    } else if ends.StoreThrows? {
      DropHoldsSound(confirmed, {c.hold});
      assert e == DropHolds(confirmed, {c.hold});
    } else {
      LaterSound(confirmed, e, c, v, ends);
    }
  }

  lemma LaterSound(confirmed: Diary, e: Diary, c: ConfirmRequest, v: ConfirmOutcome, ends: Fault)
    requires Sound(confirmed) && (v.Booked? || v.Replayed?)
    requires e == if ends.LinkThrows? then Transition(Release(confirmed, c.hold), v.booking, Expired, System, true)
                  else if c.payment.Link? then SendLink(confirmed, v.booking) else confirmed
    ensures Sound(e)
  {
    if ends.LinkThrows? {
      DropHoldsSound(confirmed, {c.hold});
      TransitionSound(Release(confirmed, c.hold), v.booking, Expired, System, true);
    } else if c.payment.Link? {
      SendLinkSound(confirmed, v.booking);
    }
  }
}
