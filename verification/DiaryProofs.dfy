/** What every step of the diary keeps. */
module DiaryProofs {
  import opened Basics
  import opened Lifecycle
  import opened Chain
  import opened Diary

  /** Exactly one owner, the owner exists, and a row blocks only while its owner still wants the slot. */
  ghost predicate Owned(d: Diary, r: Reservation) {
    && (r.hold.Some? != r.booking.Some?)
    && (r.hold.Some? ==> r.hold.value in d.holds && r.blocking)
    && (r.booking.Some? ==> r.booking.value in d.bookings)
    && (r.booking.Some? && r.blocking ==> d.bookings[r.booking.value].status !in RELEASING)
    && r.from < r.to
  }

  ghost predicate RowsSound(d: Diary) {
    && Exclusive(d.rows)
    && (forall i :: i in d.rows ==> i < d.next && Owned(d, d.rows[i]))
  }

  ghost predicate LivePerson(d: Diary, b: Id, i: Id) {
    i in d.rows && d.rows[i].booking == Some(b) && d.rows[i].blocking && d.rows[i].subject.Person?
  }

  ghost predicate HasPerson(d: Diary, b: Id) { exists i :: LivePerson(d, b, i) }

  /** A live hold keeps its professional's time, and so does a booking until it reaches a releasing state. */
  ghost predicate Protected(d: Diary) {
    && (forall h :: h in d.holds ==> HoldHasPerson(d, h))
    && (forall b :: b in d.bookings && d.bookings[b].status !in RELEASING ==> HasPerson(d, b))
  }

  /** One hold becomes at most one booking, and a hold that became one is gone for good. */
  ghost predicate Once(bookings: map<Id, Booking>, holds: map<Id, int>, next: Id) {
    && (forall h :: h in holds ==> h < next)
    && (forall b :: b in bookings ==>
          b < next && bookings[b].durationMin > 0 && bookings[b].origin < next && bookings[b].origin !in holds)
    && (forall b, c :: b in bookings && c in bookings && bookings[b].origin == bookings[c].origin ==> b == c)
  }

  /** A key answers with a booking that exists, no booking is charged twice, and no reference is taken twice. */
  ghost predicate Charged(keys: map<string, Id>, captures: seq<Capture>, bookings: map<Id, Booking>) {
    && (forall k :: k in keys ==> keys[k] in bookings)
    && (forall i :: 0 <= i < |captures| ==> captures[i].booking in bookings)
    && (forall i, j :: 0 <= i < j < |captures| ==> captures[i].booking != captures[j].booking)
    && (forall i, j :: 0 <= i < j < |captures| && captures[i].ref.Some? ==> captures[i].ref != captures[j].ref)
  }

  ghost predicate Sound(d: Diary) {
    && RowsSound(d) && Protected(d)
    && Once(d.bookings, d.holds, d.next) && Charged(d.keys, d.captures, d.bookings)
  }

  /** A hold that is gone has left no row behind under its name. */
  lemma GoneHoldHasNobody(d: Diary, hold: Id)
    requires RowsSound(d) && hold !in d.holds
    ensures !HoldHasPerson(d, hold)
  {
    forall k | k in d.rows ensures d.rows[k].hold != Some(hold) { assert Owned(d, d.rows[k]); }
  }

  lemma EmptySound()
    ensures Sound(EMPTY)
  {}

  // ------------------------------------------------------------------ place

  lemma PlaceRows(d: Diary, q: PlaceRequest)
    requires RowsSound(d) && q.services != []
    requires !StaffBusy(d.rows, q.staff, VisitRow(q, d.next).from, VisitRow(q, d.next).to)
    ensures RowsSound(PlaceWrite(d, q))
  {
    var e := PlaceWrite(d, q);
    var visit := VisitRow(q, d.next);
    ResourceDemandDisjoint(q.services, Instant(q.day, q.startMin));
    forall i | i in e.rows ensures i < e.next && Owned(e, e.rows[i]) {
      if i in d.rows { assert Owned(d, d.rows[i]); }
    }
    forall i, j | i in e.rows && j in e.rows && i != j ensures !Clash(e.rows[i], e.rows[j]) {
      if i in d.rows && j in d.rows {
        assert !Clash(d.rows[i], d.rows[j]);
      } else if i == d.next + 1 && j in d.rows {
        assert !Meets(d.rows[j], Person(q.staff), visit.from, visit.to);
      } else if j == d.next + 1 && i in d.rows {
        assert !Meets(d.rows[i], Person(q.staff), visit.from, visit.to);
      }
    }
  }

  /** Rows that stay as they are go on protecting whoever they protected. */
  lemma KeepsPeople(d: Diary, e: Diary)
    requires forall i :: i in d.rows ==> i in e.rows && e.rows[i] == d.rows[i]
    ensures forall h :: HoldHasPerson(d, h) ==> HoldHasPerson(e, h)
    ensures forall b :: HasPerson(d, b) ==> HasPerson(e, b)
  {
    forall h | HoldHasPerson(d, h) ensures HoldHasPerson(e, h) {
      var i :| HoldsPerson(d, h, i);
      assert HoldsPerson(e, h, i);
    }
    forall b | HasPerson(d, b) ensures HasPerson(e, b) {
      var i :| LivePerson(d, b, i);
      assert LivePerson(e, b, i);
    }
  }

  lemma PlaceProtected(d: Diary, q: PlaceRequest)
    requires RowsSound(d) && Protected(d)
    ensures Protected(PlaceWrite(d, q))
  {
    KeepsPeople(d, PlaceWrite(d, q));
    assert HoldsPerson(PlaceWrite(d, q), d.next, d.next + 1);
  }

  lemma PlaceOnce(bookings: map<Id, Booking>, holds: map<Id, int>, next: Id, expiresAt: int, later: Id)
    requires Once(bookings, holds, next) && next < later
    ensures Once(bookings, holds[next := expiresAt], later)
  {}

  lemma PlaceSound(d: Diary, q: PlaceRequest, units: Units)
    requires Sound(d)
    ensures Sound(Place(d, q, units))
  {
    if PlaceVerdict(d, q, units).Placed? {
      PlaceRows(d, q);
      PlaceProtected(d, q);
      PlaceOnce(d.bookings, d.holds, d.next, q.expiresAt, PlaceWrite(d, q).next);
    }
  }

  // ------------------------------------------------------------------ release and sweep

  lemma DropHoldsSound(d: Diary, gone: set<Id>)
    requires Sound(d)
    ensures Sound(DropHolds(d, gone))
  {
    var e := DropHolds(d, gone);
    forall i | i in e.rows ensures Owned(e, e.rows[i]) { assert Owned(d, d.rows[i]); }
    forall h | h in e.holds ensures HoldHasPerson(e, h) {
      var i :| HoldsPerson(d, h, i);
      assert HoldsPerson(e, h, i);
    }
    forall b | b in e.bookings && e.bookings[b].status !in RELEASING ensures HasPerson(e, b) {
      var i :| LivePerson(d, b, i);
      assert Owned(d, d.rows[i]);
      assert LivePerson(e, b, i);
    }
  }

  // ------------------------------------------------------------------ confirm

  /** Rows handed from a hold to a booking, as confirm and move do it. */
  lemma RepointRows(d: Diary, e: Diary, hold: Id, b: Id)
    requires RowsSound(d)
    requires e.rows == Repoint(d.rows, hold, b) && e.holds == d.holds - {hold} && e.next >= d.next
    requires b in e.bookings && e.bookings[b].status !in RELEASING
    requires forall c :: c in d.bookings ==> c in e.bookings && (c != b ==> e.bookings[c] == d.bookings[c])
    ensures RowsSound(e)
  {
    forall i | i in e.rows ensures i < e.next && Owned(e, e.rows[i]) { assert Owned(d, d.rows[i]); }
    forall i, j | i in e.rows && j in e.rows && i != j ensures !Clash(e.rows[i], e.rows[j]) {
      assert !Clash(d.rows[i], d.rows[j]);
    }
  }

  lemma RepointProtected(d: Diary, e: Diary, hold: Id, b: Id)
    requires RowsSound(d) && HoldHasPerson(d, hold)
    requires e.rows == Repoint(d.rows, hold, b)
    ensures HasPerson(e, b)
    ensures forall h :: h != hold && HoldHasPerson(d, h) ==> HoldHasPerson(e, h)
    ensures forall c :: HasPerson(d, c) ==> HasPerson(e, c)
  {
    var k :| HoldsPerson(d, hold, k);
    assert Owned(d, d.rows[k]);
    assert LivePerson(e, b, k);
    forall h | h != hold && HoldHasPerson(d, h) ensures HoldHasPerson(e, h) {
      var i :| HoldsPerson(d, h, i);
      assert HoldsPerson(e, h, i);
    }
    forall c | HasPerson(d, c) ensures HasPerson(e, c) {
      var i :| LivePerson(d, c, i);
      assert Owned(d, d.rows[i]);
      assert LivePerson(e, c, i);
    }
  }

  lemma OnceMore(bookings: map<Id, Booking>, holds: map<Id, int>, next: Id, v: Booking)
    requires Once(bookings, holds, next) && v.origin in holds && v.durationMin > 0
    ensures Once(bookings[next := v], holds - {v.origin}, next + 1)
  {}

  lemma ChargedOnce(d: Diary, q: ConfirmRequest)
    requires HoldHasPerson(d, q.hold) && q.services != [] && d.next !in d.bookings
    requires Charged(d.keys, d.captures, d.bookings)
    requires q.payment.Tender? && q.payment.ref.Some? ==> !Recorded(d.captures, q.payment.ref.value)
    ensures var e := ConfirmWrite(d, q); Charged(e.keys, e.captures, e.bookings)
  {}

  lemma ConfirmRowsSound(d: Diary, q: ConfirmRequest)
    requires RowsSound(d) && HoldHasPerson(d, q.hold) && q.services != [] && d.next !in d.bookings
    ensures RowsSound(ConfirmWrite(d, q))
  {
    RepointRows(d, ConfirmWrite(d, q), q.hold, d.next);
  }

  lemma ConfirmProtected(d: Diary, q: ConfirmRequest)
    requires RowsSound(d) && Protected(d) && HoldHasPerson(d, q.hold) && q.services != []
    ensures Protected(ConfirmWrite(d, q))
  {
    RepointProtected(d, ConfirmWrite(d, q), q.hold, d.next);
  }

  lemma ConfirmSound(d: Diary, q: ConfirmRequest, now: int)
    requires Sound(d)
    ensures Sound(Confirm(d, q, now))
  {
    if ConfirmVerdict(d, q, now).Booked? {
      assert d.next !in d.bookings;
      ConfirmRowsSound(d, q);
      ConfirmProtected(d, q);
      OnceMore(d.bookings, d.holds, d.next, BookingFrom(d, q));
      ChargedOnce(d, q);
    }
  }

  // ------------------------------------------------------------------ transition, shift, move

  /** Unblocking one booking's rows touches nobody else's protection. */
  lemma FreedKeeps(d: Diary, b: Id)
    requires RowsSound(d)
    ensures RowsSound(Freed(d, b))
    ensures forall h :: HoldHasPerson(d, h) ==> HoldHasPerson(Freed(d, b), h)
    ensures forall c :: c != b && HasPerson(d, c) ==> HasPerson(Freed(d, b), c)
  {
    var e := Freed(d, b);
    forall i | i in e.rows ensures Owned(e, e.rows[i]) { assert Owned(d, d.rows[i]); }
    forall i, j | i in e.rows && j in e.rows && i != j ensures !Clash(e.rows[i], e.rows[j]) {
      assert !Clash(d.rows[i], d.rows[j]);
    }
    forall h | HoldHasPerson(d, h) ensures HoldHasPerson(e, h) {
      var i :| HoldsPerson(d, h, i);
      assert Owned(d, d.rows[i]);
      assert HoldsPerson(e, h, i);
    }
    forall c | c != b && HasPerson(d, c) ensures HasPerson(e, c) {
      var i :| LivePerson(d, c, i);
      assert LivePerson(e, c, i);
    }
  }

  lemma OnceMoved(bookings: map<Id, Booking>, holds: map<Id, int>, next: Id, b: Id, v: Booking, hold: Id)
    requires Once(bookings, holds, next) && b in bookings
    requires v.origin == bookings[b].origin && v.durationMin == bookings[b].durationMin
    ensures Once(bookings[b := v], holds - {hold}, next)
  {}

  lemma TransitionRows(d: Diary, b: Id, to: Status, actor: Actor, hasReason: bool)
    requires RowsSound(d) && TransitionVerdict(d, b, to, actor, hasReason).Changed?
    ensures RowsSound(Transition(d, b, to, actor, hasReason))
  {
    var e := Transition(d, b, to, actor, hasReason);
    forall i | i in e.rows ensures Owned(e, e.rows[i]) { assert Owned(d, d.rows[i]); }
    forall i, j | i in e.rows && j in e.rows && i != j ensures !Clash(e.rows[i], e.rows[j]) {
      assert !Clash(d.rows[i], d.rows[j]);
    }
  }

  lemma TransitionProtected(d: Diary, b: Id, to: Status, actor: Actor, hasReason: bool)
    requires RowsSound(d) && Protected(d) && TransitionVerdict(d, b, to, actor, hasReason).Changed?
    ensures Protected(Transition(d, b, to, actor, hasReason))
  {
    var e := Transition(d, b, to, actor, hasReason);
    CapacityFollowsStatus(d.bookings[b].status, to, actor, hasReason);
    if to in RELEASING {
      FreedKeeps(d, b);
      KeepsPeople(Freed(d, b), e);
    } else {
      KeepsPeople(d, e);
    }
  }

  lemma TransitionSound(d: Diary, b: Id, to: Status, actor: Actor, hasReason: bool)
    requires Sound(d)
    ensures Sound(Transition(d, b, to, actor, hasReason))
  {
    if TransitionVerdict(d, b, to, actor, hasReason).Changed? {
      TransitionRows(d, b, to, actor, hasReason);
      TransitionProtected(d, b, to, actor, hasReason);
      OnceMoved(d.bookings, d.holds, d.next, b, d.bookings[b].(status := to), d.next);
      assert d.holds - {d.next} == d.holds;
    }
  }

  lemma ShiftRowsSound(d: Diary, b: Id, day: int, startMin: int)
    requires RowsSound(d) && ShiftVerdict(d, b, day, startMin).Changed? && d.bookings[b].durationMin > 0
    ensures RowsSound(ShiftWrite(d, b, day, startMin))
  {
    var e := ShiftWrite(d, b, day, startMin);
    var freed := Freed(d, b);
    var visit := ShiftedVisit(d.bookings[b], b, day, startMin);
    FreedKeeps(d, b);
    forall i | i in e.rows ensures i < e.next && Owned(e, e.rows[i]) {
      if i in d.rows { assert Owned(freed, freed.rows[i]); }
    }
    forall i, j | i in e.rows && j in e.rows && i != j ensures !Clash(e.rows[i], e.rows[j]) {
      if i in d.rows && j in d.rows {
        assert !Clash(freed.rows[i], freed.rows[j]);
      } else if i == d.next && j in d.rows {
        assert !Meets(freed.rows[j], visit.subject, visit.from, visit.to);
      } else if j == d.next && i in d.rows {
        assert !Meets(freed.rows[i], visit.subject, visit.from, visit.to);
      }
    }
  }

  lemma ShiftProtected(d: Diary, b: Id, day: int, startMin: int)
    requires RowsSound(d) && Protected(d) && b in d.bookings
    ensures Protected(ShiftWrite(d, b, day, startMin))
  {
    FreedKeeps(d, b);
    KeepsPeople(Freed(d, b), ShiftWrite(d, b, day, startMin));
    assert LivePerson(ShiftWrite(d, b, day, startMin), b, d.next);
  }

  lemma ShiftSound(d: Diary, b: Id, day: int, startMin: int)
    requires Sound(d)
    ensures Sound(Shift(d, b, day, startMin))
  {
    if ShiftVerdict(d, b, day, startMin).Changed? {
      ShiftRowsSound(d, b, day, startMin);
      ShiftProtected(d, b, day, startMin);
    }
  }

  lemma MoveRowsSound(d: Diary, b: Id, hold: Id, owesDeposit: bool)
    requires RowsSound(d) && b in d.bookings && d.bookings[b].status in MOVABLE && HoldHasPerson(d, hold)
    ensures RowsSound(MoveWrite(d, b, hold, owesDeposit))
  {
    FreedKeeps(d, b);
    RepointRows(Freed(d, b), MoveWrite(d, b, hold, owesDeposit), hold, b);
  }

  lemma MoveProtected(d: Diary, b: Id, hold: Id, owesDeposit: bool)
    requires RowsSound(d) && Protected(d)
    requires b in d.bookings && d.bookings[b].status in MOVABLE && HoldHasPerson(d, hold)
    ensures Protected(MoveWrite(d, b, hold, owesDeposit))
  {
    FreedKeeps(d, b);
    RepointProtected(Freed(d, b), MoveWrite(d, b, hold, owesDeposit), hold, b);
  }

  lemma MoveSound(d: Diary, b: Id, hold: Id, owesDeposit: bool, now: int)
    requires Sound(d)
    ensures Sound(Move(d, b, hold, owesDeposit, now))
  {
    if MoveVerdict(d, b, hold, now).Changed? {
      MoveRowsSound(d, b, hold, owesDeposit);
      MoveProtected(d, b, hold, owesDeposit);
      OnceMoved(d.bookings, d.holds, d.next, b, MoveWrite(d, b, hold, owesDeposit).bookings[b], hold);
    }
  }

  // ------------------------------------------------------------------ payment links

  lemma SendLinkSound(d: Diary, b: Id)
    requires Sound(d)
    ensures Sound(SendLink(d, b))
  {
    if !LinkRefused(d, b) {
      var e := SendLink(d, b);
      forall i | i in e.rows ensures Owned(e, e.rows[i]) { assert Owned(d, d.rows[i]); }
      forall c | c in e.bookings && e.bookings[c].status !in RELEASING ensures HasPerson(e, c) {
        var i :| LivePerson(d, c, i);
        assert LivePerson(e, c, i);
      }
      forall h | h in e.holds ensures HoldHasPerson(e, h) {
        var i :| HoldsPerson(d, h, i);
        assert HoldsPerson(e, h, i);
      }
    }
  }
}
