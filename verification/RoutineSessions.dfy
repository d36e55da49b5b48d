/**
 * What a run of creates leaves on the diary. Made, every session near enough is one booking of its own
 * on its slot; lost, everything is given back except what no cancel reaches and what a create wrote
 * before it threw. Told only how each single create was answered, the run is the plain one of
 * `RoutineBooking`.
 */
module RoutineSessions {
  import opened Basics
  import opened Lifecycle
  import opened Chain
  import opened Diary
  import opened DiaryProofs
  import opened DiaryChairs
  import opened DiaryDays
  import opened RoutineBooking
  import opened RoutineCreate
  import opened DiaryCalendar
  import M = MobileCreate

  // ------------------------------------------------------------------ one session

  /** What a session keeps busy: its stylist while it lasts, and each chair while the client sits in one. */
  predicate SessionWants(w: Salon, s: Slot, subject: Subject, t: int) {
    var m := t - (s.day * 1440 + s.startMin);
    match subject
    case Person(staff) => staff == s.staff && MomentAt(w.services, m).Some?
    case Chair(branch, station, day) => branch == w.branch && day == s.day && Sits(w.services, m, station)
  }

  ghost predicate HasItsTime(w: Salon, e: Diary, s: Slot, b: Id) {
    forall subject, t :: Uses(e.rows, ByBooking(b), subject, t) <==> SessionWants(w, s, subject, t)
  }

  /** A session's entry: its booking, with its stylist, and at its day and minute. */
  ghost predicate OnSlot(w: Salon, e: Diary, s: Slot, x: Entry) {
    && x.index == s.index && x.booking in e.bookings && e.bookings[x.booking].staff == s.staff
    && HasItsTime(w, e, s, x.booking)
  }

  predicate OwnedBy(r: Reservation, ids: seq<Id>) {
    r.hold.None? && r.booking.Some? && r.booking.value in ids
  }

  /** Between two diaries: everything as it was, and beside it only bookings of `ids`, confirmed, and their rows. */
  ghost predicate Grown(d: Diary, e: Diary, ids: seq<Id>) {
    && (forall i :: i in d.rows ==> i in e.rows && e.rows[i] == d.rows[i])
    && (forall i :: i in e.rows && i !in d.rows ==> OwnedBy(e.rows[i], ids))
    && (forall b :: b in d.bookings ==> b in e.bookings && e.bookings[b] == d.bookings[b])
    && (forall b :: b in ids <==> b in e.bookings && b !in d.bookings)
    && (forall b :: b in ids ==> e.bookings[b].status == Confirmed)
    && e.holds == d.holds
  }

  lemma MadeGrows(w: Salon, d: Diary, s: Slot)
    requires Kept(w, d) && Made(w, d, s)
    ensures var b := OutcomeFor(w, d, s).booking; var e := After(w, d, s);
      Grown(d, e, [b]) && OnSlot(w, e, s, Entry(s.index, b))
  {
    MadeIff(w, d, s);
    M.PlacedIsOneHoldMore(d, PlaceFor(w, s));
    ConfirmGrows(d, PlaceWrite(d, PlaceFor(w, s)), ConfirmFor(w, d));
    MadeOnSlot(w, d, s);
  }

  lemma ConfirmGrows(d: Diary, held: Diary, c: ConfirmRequest)
    requires RowsSound(d) && M.OneHoldMore(d, held) && c.hold == d.next && c.payment.NoPayment?
    requires HoldHasPerson(held, c.hold) && c.services != []
    ensures Grown(d, ConfirmWrite(held, c), [held.next])
  {
    forall i | i in d.rows ensures held.rows[i].hold != Some(d.next) { assert Owned(d, d.rows[i]); }
  }

  lemma ChairsHoldNobody(q: PlaceRequest, hold: Id, i: Id)
    requires i in HeldRows(q, hold) && i != hold + 1
    ensures HeldRows(q, hold)[i].subject.Chair?
  {
    assert i in ChairRows(q, hold, hold + 2);
    assert HeldRows(q, hold)[i] == ChairRow(q, hold, hold + 2, i);
  }

  lemma OnePersonHeld(d: Diary, q: PlaceRequest)
    requires RowsSound(d) && M.OneHoldMore(d, PlaceWrite(d, q)) && HoldHasPerson(PlaceWrite(d, q), d.next)
    ensures HeldPerson(PlaceWrite(d, q), d.next) == q.staff
  {
    var rows, held := HeldRows(q, d.next), PlaceWrite(d, q);
    NobodysNew(d, held);
    assert rows[d.next + 1] == VisitRow(q, d.next);
    forall i | HoldsPerson(PlaceWrite(d, q), d.next, i) ensures i == d.next + 1 {
      if i in rows && i != d.next + 1 { ChairsHoldNobody(q, d.next, i); }
    }
  }

  lemma MadeOnSlot(w: Salon, d: Diary, s: Slot)
    requires Kept(w, d) && Made(w, d, s) && M.OneHoldMore(d, PlaceWrite(d, PlaceFor(w, s)))
    ensures OnSlot(w, After(w, d, s), s, Entry(s.index, OutcomeFor(w, d, s).booking))
  {
    var q, fate := PlaceFor(w, s), w.fate(s.index);
    MadeIff(w, d, s);
    OnePersonHeld(d, q);
    FreshKey(w, d);
    M.CreatedKeepsAllItsTime(d, q, ConfirmFor(w, d), w.units, fate.fault, fate.now);
    SessionsTime(w, After(w, d, s), s, OutcomeFor(w, d, s).booking);
  }

  lemma SessionsTime(w: Salon, e: Diary, s: Slot, b: Id)
    requires M.KeepsTimeOf(e.rows, b, PlaceFor(w, s))
    ensures HasItsTime(w, e, s, b)
  {
    forall subject, t ensures Uses(e.rows, ByBooking(b), subject, t) <==> SessionWants(w, s, subject, t) {
      assert Uses(e.rows, ByBooking(b), subject, t) <==> Wanted(PlaceFor(w, s), subject, t);
    }
  }

  lemma GrownTwice(d: Diary, m: Diary, e: Diary, some: seq<Id>, more: seq<Id>)
    requires Grown(d, m, some) && Grown(m, e, more)
    ensures Grown(d, e, some + more)
  {}

  // ------------------------------------------------------------------ success

  ghost predicate AllOnSlots(w: Salon, e: Diary, near: seq<Slot>, booked: seq<Entry>) {
    |booked| == |near| && forall k :: 0 <= k < |near| ==> OnSlot(w, e, near[k], booked[k])
  }

  /** Each near session has a booking of its own, new, confirmed, with its stylist and at its time. */
  ghost predicate BookedOnSlots(w: Salon, d: Diary, e: Diary, near: seq<Slot>, booked: seq<Entry>) {
    AllOnSlots(w, e, near, booked) && Grown(d, e, Ids(booked)) && Distinct(Ids(booked))
  }

  lemma SlotKept(w: Salon, m: Diary, e: Diary, s: Slot, x: Entry, ids: seq<Id>)
    requires OnSlot(w, m, s, x) && Grown(m, e, ids)
    ensures OnSlot(w, e, s, x) && x.booking !in ids
  {
    forall subject, t ensures Uses(e.rows, ByBooking(x.booking), subject, t) <==> SessionWants(w, s, subject, t) {
      SameMinutes(m.rows, e.rows, ByBooking(x.booking), subject, t);
    }
  }

  lemma OneMoreSlot(w: Salon, e: Diary, s: Slot, x: Entry, near: seq<Slot>, booked: seq<Entry>)
    requires OnSlot(w, e, s, x) && AllOnSlots(w, e, near, booked)
    ensures AllOnSlots(w, e, [s] + near, [x] + booked)
  {}

  lemma OneMoreId(x: Entry, booked: seq<Entry>)
    requires Distinct(Ids(booked)) && x.booking !in Ids(booked)
    ensures Ids([x] + booked) == [x.booking] + Ids(booked) && Distinct(Ids([x] + booked))
  {
    var ids, all := Ids(booked), Ids([x] + booked);
    assert all == [x.booking] + ids;
    assert forall k :: 0 < k < |all| ==> all[k] == ids[k - 1];
  }

  lemma OneMoreOnItsSlot(w: Salon, d: Diary, m: Diary, e: Diary, s: Slot, x: Entry, near: seq<Slot>, booked: seq<Entry>)
    requires Grown(d, m, [x.booking]) && OnSlot(w, m, s, x) && BookedOnSlots(w, m, e, near, booked)
    ensures BookedOnSlots(w, d, e, [s] + near, [x] + booked)
  {
    var ids := Ids(booked);
    SlotKept(w, m, e, s, x, ids);
    GrownTwice(d, m, e, [x.booking], ids);
    OneMoreSlot(w, e, s, x, near, booked);
    OneMoreId(x, booked);
  }

  function EntryFor(s: Slot, made: M.Created): Entry {
    Entry(s.index, if made.Made? then made.booking else 0)
  }

  /** What a run that is not lost books, and the diary it leaves. */
  ghost function MadeBy(w: Salon, d: Diary, slots: seq<Slot>, today: int): (Diary, seq<Entry>)
    decreases |slots|
  {
    if slots == [] then (d, [])
    else if BeyondHorizon(slots[0].day, today) then MadeBy(w, d, slots[1..], today)
    else
      var rest := MadeBy(w, After(w, d, slots[0]), slots[1..], today);
      (rest.0, [EntryFor(slots[0], OutcomeFor(w, d, slots[0]))] + rest.1)
  }

  lemma {:induction false} CreateAdds(w: Salon, d: Diary, slots: seq<Slot>, today: int, booked: seq<Entry>)
    requires Create(w, d, slots, today, booked).Created?
    ensures var made := MadeBy(w, d, slots, today);
      Create(w, d, slots, today, booked) == Created(made.0, booked + made.1)
    decreases |slots|
  {
    if slots != [] {
      if BeyondHorizon(slots[0].day, today) {
        CreateAdds(w, d, slots[1..], today, booked);
      } else {
        var m, x := After(w, d, slots[0]), EntryFor(slots[0], OutcomeFor(w, d, slots[0]));
        assert Create(w, d, slots, today, booked) == Create(w, m, slots[1..], today, booked + [x]);
        CreateAdds(w, m, slots[1..], today, booked + [x]);
        Assoc(booked, [x], MadeBy(w, m, slots[1..], today).1);
      }
    }
  }

  lemma {:induction false} RunBooksNear(w: Salon, d: Diary, slots: seq<Slot>, today: int, booked: seq<Entry>)
    requires Kept(w, d) && Spells(w.text) && Create(w, d, slots, today, booked).Created?
    ensures var made := MadeBy(w, d, slots, today);
      BookedOnSlots(w, d, made.0, Near(slots, today), made.1)
    decreases |slots|
  {
    if slots != [] {
      if BeyondHorizon(slots[0].day, today) {
        RunBooksNear(w, d, slots[1..], today, booked);
      } else {
        var m, x := After(w, d, slots[0]), EntryFor(slots[0], OutcomeFor(w, d, slots[0]));
        AfterKept(w, d, slots[0]);
        MadeGrows(w, d, slots[0]);
        RunBooksNear(w, m, slots[1..], today, booked + [x]);
        var rest := MadeBy(w, m, slots[1..], today);
        OneMoreOnItsSlot(w, d, m, rest.0, slots[0], x, Near(slots[1..], today), rest.1);
      }
    }
  }

  /**
   * On success each session inside the horizon, in order, has one booking that is new and its own, that
   * keeps its stylist and its chairs busy at exactly its minutes; no other booking or row was made and
   * none was touched.
   */
  lemma CreateBooksNear(w: Salon, d: Diary, slots: seq<Slot>, today: int)
    requires Kept(w, d) && Spells(w.text) && Create(w, d, slots, today, []).Created?
    ensures var o := Create(w, d, slots, today, []);
      BookedOnSlots(w, d, o.diary, Near(slots, today), o.booked)
  {
    RunBooksNear(w, d, slots, today, []);
    CreateAdds(w, d, slots, today, []);
    assert [] + MadeBy(w, d, slots, today).1 == MadeBy(w, d, slots, today).1;
  }

  // ------------------------------------------------------------------ failure

  /** As `e`, with the bookings of `ids` that can be cancelled cancelled. */
  ghost predicate Undone(e: Diary, u: Diary, ids: set<Id>) {
    && (forall i :: i in e.rows <==> i in u.rows)
    && (forall i :: i in e.rows ==>
          u.rows[i] == if e.rows[i].booking.Some? && e.rows[i].booking.value in ids then e.rows[i].(blocking := false) else e.rows[i])
    && (forall b :: b in e.bookings <==> b in u.bookings)
    && (forall b :: b in e.bookings ==>
          u.bookings[b] == if b in ids then e.bookings[b].(status := Cancelled) else e.bookings[b])
  }

  lemma CancelUndoes(e: Diary, u: Diary, b: Id, ids: set<Id>)
    requires Undone(e, u, ids) && b in e.bookings && e.bookings[b].status == Confirmed && b !in ids
    ensures Undone(e, Transition(u, b, Cancelled, Customer, true), ids + {b})
  {}

  ghost function IdSet(ids: seq<Id>): set<Id> {
    set b | b in ids
  }

  lemma LastId(ids: seq<Id>, stuck: set<Id>)
    requires ids != []
    ensures var last, rest := ids[|ids| - 1], ids[..|ids| - 1];
      IdSet(ids) - stuck == (if last in stuck then {} else {last}) + (IdSet(rest) - stuck)
  {
    assert ids == ids[..|ids| - 1] + [ids[|ids| - 1]];
  }

  lemma {:induction false} ReleaseUndoes(e: Diary, u: Diary, ids: seq<Id>, stuck: set<Id>, gone: set<Id>)
    requires Undone(e, u, gone) && Distinct(ids)
    requires forall b :: b in ids ==> b in e.bookings && e.bookings[b].status == Confirmed && b !in gone
    ensures Undone(e, CancelAll(u, ids, stuck), gone + (IdSet(ids) - stuck))
    decreases |ids|
  {
    if ids == [] {
      assert gone + (IdSet(ids) - stuck) == gone;
    } else {
      var last, rest := ids[|ids| - 1], ids[..|ids| - 1];
      LastId(ids, stuck);
      if last in stuck {
        ReleaseUndoes(e, u, rest, stuck, gone);
        assert IdSet(ids) - stuck == IdSet(rest) - stuck;
      } else {
        CancelUndoes(e, u, last, gone);
        ReleaseUndoes(e, Transition(u, last, Cancelled, Customer, true), rest, stuck, gone + {last});
        assert gone + {last} + (IdSet(rest) - stuck) == gone + (IdSet(ids) - stuck);
      }
    }
  }

  lemma HeldUndone(d: Diary, held: Diary)
    requires RowsSound(d) && M.OneHoldMore(d, held)
    ensures Grown(d, Release(held, d.next), [])
  {
    NobodysNew(d, held);
  }

  /** A hold that became a booking has left nothing to give back. */
  lemma NothingToRelease(held: Diary, c: ConfirmRequest)
    requires HoldHasPerson(held, c.hold) && c.services != []
    ensures Release(ConfirmWrite(held, c), c.hold) == ConfirmWrite(held, c)
  {
    var e := ConfirmWrite(held, c);
    assert Without(e.rows, {c.hold}) == e.rows;
    assert e.holds - {c.hold} == e.holds;
  }

  /** A lost session leaves the diary as it was, or one booking more. */
  lemma LostLeaves(w: Salon, d: Diary, s: Slot)
    requires Kept(w, d) && !Made(w, d, s)
    ensures Grown(d, After(w, d, s), if Leaks(w, d, s) then [Leak(w, d, s).value] else [])
  {
    var held, c, e := PlaceWrite(d, PlaceFor(w, s)), ConfirmFor(w, d), After(w, d, s);
    LostIff(w, d, s);
    if e != d {
      M.PlacedIsOneHoldMore(d, PlaceFor(w, s));
      LostLeavesOne(d, held, c, e, Leaks(w, d, s));
    }
  }

  lemma LostLeavesOne(d: Diary, held: Diary, c: ConfirmRequest, e: Diary, leaks: bool)
    requires RowsSound(d) && M.OneHoldMore(d, held) && c.hold == d.next && c.payment.NoPayment?
    requires leaks ==> HoldHasPerson(held, c.hold) && c.services != []
    requires leaks ==> e == ConfirmWrite(held, c) || e == Release(ConfirmWrite(held, c), c.hold)
    requires !leaks ==> e == Release(held, c.hold)
    ensures Grown(d, e, if leaks then [held.next] else [])
  {
    HeldUndone(d, held);
    if leaks {
      NothingToRelease(held, c);
      ConfirmGrows(d, held, c);
    }
  }

  /** What the run had come to, then the cancels. */
  ghost predicate LeftOver(start: Diary, o: Ended, stuck: set<Id>) {
    && o.Lost? && Distinct(Ids(o.booked))
    && (forall b :: b in Leaked(o) ==> b !in Ids(o.booked))
    && exists e :: Grown(start, e, Ids(o.booked) + Leaked(o)) && Undone(e, o.diary, IdSet(Ids(o.booked)) - stuck)
  }

  function Leaked(o: Ended): seq<Id>
    requires o.Lost?
  {
    if o.leaked.Some? then [o.leaked.value] else []
  }

  lemma LostHere(w: Salon, start: Diary, d: Diary, s: Slot, booked: seq<Entry>)
    requires Kept(w, d) && Grown(start, d, Ids(booked)) && Distinct(Ids(booked)) && !Made(w, d, s)
    ensures LeftOver(start, Lost(s.index, booked, Leak(w, d, s), CancelAll(After(w, d, s), Ids(booked), w.stuck)), w.stuck)
  {
    var e := After(w, d, s);
    var o := Lost(s.index, booked, Leak(w, d, s), CancelAll(e, Ids(booked), w.stuck));
    LostLeaves(w, d, s);
    GrownTwice(start, d, e, Ids(booked), Leaked(o));
    ReleaseUndoes(e, e, Ids(booked), w.stuck, {});
    assert {} + (IdSet(Ids(booked)) - w.stuck) == IdSet(Ids(booked)) - w.stuck;
  }

  lemma MadeHere(w: Salon, start: Diary, d: Diary, s: Slot, booked: seq<Entry>)
    requires Kept(w, d) && Grown(start, d, Ids(booked)) && Distinct(Ids(booked)) && Made(w, d, s)
    ensures var more := booked + [Entry(s.index, OutcomeFor(w, d, s).booking)];
      Grown(start, After(w, d, s), Ids(more)) && Distinct(Ids(more))
  {
    var b := OutcomeFor(w, d, s).booking;
    MadeGrows(w, d, s);
    GrownTwice(start, d, After(w, d, s), Ids(booked), [b]);
    NewIsLast(start, d, After(w, d, s), Entry(s.index, b), booked);
  }

  lemma NewIsLast(start: Diary, d: Diary, e: Diary, x: Entry, booked: seq<Entry>)
    requires Grown(start, d, Ids(booked)) && Grown(d, e, [x.booking]) && Distinct(Ids(booked))
    ensures Ids(booked + [x]) == Ids(booked) + [x.booking] && Distinct(Ids(booked + [x]))
  {
    assert Ids(booked + [x]) == Ids(booked) + [x.booking];
    assert x.booking !in Ids(booked);
  }

  lemma {:induction false} RunLeaves(w: Salon, start: Diary, d: Diary, slots: seq<Slot>, today: int, booked: seq<Entry>)
    requires Kept(w, d) && Spells(w.text) && Grown(start, d, Ids(booked)) && Distinct(Ids(booked))
    requires Create(w, d, slots, today, booked).Lost?
    ensures LeftOver(start, Create(w, d, slots, today, booked), w.stuck)
    decreases |slots|
  {
    if BeyondHorizon(slots[0].day, today) {
      RunLeaves(w, start, d, slots[1..], today, booked);
    } else if Made(w, d, slots[0]) {
      AfterKept(w, d, slots[0]);
      MadeHere(w, start, d, slots[0], booked);
      RunLeaves(w, start, After(w, d, slots[0]), slots[1..], today,
                booked + [Entry(slots[0].index, OutcomeFor(w, d, slots[0]).booking)]);
    } else {
      LostHere(w, start, d, slots[0], booked);
    }
  }

  /** New bookings that still stand. */
  ghost function NewLive(d: Diary, u: Diary): set<Id> {
    set b | b in u.bookings && b !in d.bookings && u.bookings[b].status !in RELEASING
  }

  lemma OldStays(d: Diary, e: Diary, u: Diary, ids: seq<Id>, gone: set<Id>)
    requires RowsSound(d) && Grown(d, e, ids) && Undone(e, u, gone) && forall b :: b in gone ==> b in ids
    ensures forall b :: b in d.bookings ==> b in u.bookings && u.bookings[b] == d.bookings[b]
    ensures forall i :: i in d.rows ==> i in u.rows && u.rows[i] == d.rows[i]
  {
    forall i | i in d.rows ensures i in u.rows && u.rows[i] == d.rows[i] { assert Owned(d, d.rows[i]); }
  }

  lemma NewStands(d: Diary, e: Diary, u: Diary, ids: seq<Id>, gone: set<Id>)
    requires Grown(d, e, ids) && Undone(e, u, gone) && forall b :: b in gone ==> b in ids
    ensures NewLive(d, u) == IdSet(ids) - gone
    ensures IdSet(ids) - gone == {} ==> forall i :: i in u.rows && i !in d.rows ==> !u.rows[i].blocking
  {
    if IdSet(ids) - gone == {} {
      forall b | b in ids ensures b in gone { assert b !in IdSet(ids) - gone; }
    }
  }

  lemma WhatStands(d: Diary, e: Diary, u: Diary, ids: seq<Id>, gone: set<Id>)
    requires RowsSound(d) && Grown(d, e, ids) && Undone(e, u, gone) && forall b :: b in gone ==> b in ids
    ensures NewLive(d, u) == IdSet(ids) - gone
    ensures M.GivenBack(d, u) <==> NewLive(d, u) == {}
    ensures forall b :: b in d.bookings ==> b in u.bookings && u.bookings[b] == d.bookings[b]
    ensures forall i :: i in d.rows ==> i in u.rows && u.rows[i] == d.rows[i]
  {
    OldStays(d, e, u, ids, gone);
    NewStands(d, e, u, ids, gone);
    assert M.NoNewLive(d, u) <==> NewLive(d, u) == {} by {
      if NewLive(d, u) == {} {
        forall b | b in u.bookings && b !in d.bookings ensures u.bookings[b].status in RELEASING {
          assert b !in NewLive(d, u);
        }
      } else {
        var b :| b in NewLive(d, u);
      }
    }
  }

  /**
   * All or nothing, on the diary: after a run that lost a session the new bookings that stand are those
   * no cancel reached and the one its create wrote before it threw, everybody else's are untouched, and
   * all the time was given back if and only if there are none.
   */
  lemma CreateAllOrNothing(w: Salon, d: Diary, slots: seq<Slot>, today: int)
    requires Kept(w, d) && Spells(w.text) && Create(w, d, slots, today, []).Lost?
    ensures var o := Create(w, d, slots, today, []);
      && NewLive(d, o.diary) == (IdSet(Ids(o.booked)) * w.stuck) + IdSet(Leaked(o))
      && (M.GivenBack(d, o.diary) <==> NewLive(d, o.diary) == {})
      && (forall b :: b in d.bookings ==> b in o.diary.bookings && o.diary.bookings[b] == d.bookings[b])
      && (forall i :: i in d.rows ==> i in o.diary.rows && o.diary.rows[i] == d.rows[i])
  {
    RunLeaves(w, d, d, slots, today, []);
    LeftOverStands(d, Create(w, d, slots, today, []), w.stuck);
  }

  lemma LeftOverStands(d: Diary, o: Ended, stuck: set<Id>)
    requires RowsSound(d) && LeftOver(d, o, stuck)
    ensures NewLive(d, o.diary) == (IdSet(Ids(o.booked)) * stuck) + IdSet(Leaked(o))
    ensures M.GivenBack(d, o.diary) <==> NewLive(d, o.diary) == {}
    ensures forall b :: b in d.bookings ==> b in o.diary.bookings && o.diary.bookings[b] == d.bookings[b]
    ensures forall i :: i in d.rows ==> i in o.diary.rows && o.diary.rows[i] == d.rows[i]
  {
    var ids, leaked := Ids(o.booked), Leaked(o);
    StandingIds(ids, leaked, stuck);
    var e :| Grown(d, e, ids + leaked) && Undone(e, o.diary, IdSet(ids) - stuck);
    WhatStands(d, e, o.diary, ids + leaked, IdSet(ids) - stuck);
  }

  lemma StandingIds(ids: seq<Id>, leaked: seq<Id>, stuck: set<Id>)
    requires forall b :: b in leaked ==> b !in ids
    ensures IdSet(ids + leaked) - (IdSet(ids) - stuck) == (IdSet(ids) * stuck) + IdSet(leaked)
  {}

  // ------------------------------------------------------------------ the plain run

  ghost function ReplyOn(w: Salon, d: Diary, s: Slot): Reply {
    if Made(w, d, s) then Accepted else if Leaks(w, d, s) then ThrewAfterBooking else Reply.Refused
  }

  ghost predicate Answered(w: Salon, d: Diary, slots: seq<Slot>, luck: Luck) {
    forall i :: 0 <= i < |slots| ==> ReplyTo(luck, slots[i]) == ReplyOn(w, d, slots[i])
  }

  /** The two runs end alike: both made, or both lost at the same session, with as much to give back. */
  ghost predicate EndAlike(a: Outcome, o: Ended) {
    match o
    case Created(_, booked) => a.AllBooked? && SameIndexes(a.booked, booked)
    case Lost(at, booked, leaked, _) =>
      a.Failed? && a.at == at && |a.given| == |booked| && (a.leaked.Some? <==> leaked.Some?)
  }

  predicate SameIndexes(a: seq<Entry>, b: seq<Entry>) {
    |a| == |b| && forall i :: 0 <= i < |a| ==> a[i].index == b[i].index
  }

  lemma StillAnswered(w: Salon, d: Diary, slots: seq<Slot>, luck: Luck)
    requires Kept(w, d) && Spells(w.text) && slots != [] && DistinctDays(slots) && AllInside(w, slots)
    requires Answered(w, d, slots, luck)
    ensures Answered(w, After(w, d, slots[0]), slots[1..], luck)
  {
    RestOf(w, slots);
    var rest := slots[1..];
    forall i | 0 <= i < |rest| ensures ReplyTo(luck, rest[i]) == ReplyOn(w, After(w, d, slots[0]), rest[i]) {
      MadeOnAnotherDay(w, d, slots[0], rest[i]);
      assert ReplyTo(luck, slots[i + 1]) == ReplyOn(w, d, slots[i + 1]);
    }
  }

  lemma LostAlike(
      w: Salon, d: Diary, slots: seq<Slot>, today: int, booked: seq<Entry>, luck: Luck, s: Store, given: seq<Entry>)
    requires slots != [] && !BeyondHorizon(slots[0].day, today) && !Made(w, d, slots[0])
    requires ReplyTo(luck, slots[0]) == ReplyOn(w, d, slots[0]) && SameIndexes(given, booked)
    ensures EndAlike(BookFrom(s, slots, today, luck, given), Create(w, d, slots, today, booked))
  {}

  lemma MadeAlike(
      w: Salon, d: Diary, slots: seq<Slot>, today: int, booked: seq<Entry>, luck: Luck, s: Store, given: seq<Entry>)
      returns (x: Entry, y: Entry)
    requires slots != [] && !BeyondHorizon(slots[0].day, today) && Made(w, d, slots[0])
    requires ReplyTo(luck, slots[0]) == ReplyOn(w, d, slots[0]) && SameIndexes(given, booked)
    ensures Create(w, d, slots, today, booked) == Create(w, After(w, d, slots[0]), slots[1..], today, booked + [x])
    ensures BookFrom(s, slots, today, luck, given) == BookFrom(Add(s, slots[0]), slots[1..], today, luck, given + [y])
    ensures SameIndexes(given + [y], booked + [x])
  {
    x, y := Entry(slots[0].index, OutcomeFor(w, d, slots[0]).booking), Entry(slots[0].index, s.next);
  }

  /**
   * Answered session by session as the diary it starts from would answer each, the plain run ends where
   * the run on the diary ends: so what is proved of the one is true of the other.
   */
  lemma {:induction false} PlainRunAgrees(
      w: Salon, d: Diary, slots: seq<Slot>, today: int, booked: seq<Entry>, luck: Luck, s: Store, given: seq<Entry>)
    requires Kept(w, d) && Spells(w.text) && DistinctDays(slots) && AllInside(w, slots)
    requires Answered(w, d, slots, luck) && SameIndexes(given, booked)
    ensures EndAlike(BookFrom(s, slots, today, luck, given), Create(w, d, slots, today, booked))
    decreases |slots|
  {
    if slots != [] {
      RestOf(w, slots);
      if BeyondHorizon(slots[0].day, today) {
        assert Answered(w, d, slots[1..], luck);
        PlainRunAgrees(w, d, slots[1..], today, booked, luck, s, given);
      } else if Made(w, d, slots[0]) {
        AfterKept(w, d, slots[0]);
        StillAnswered(w, d, slots, luck);
        var x, y := MadeAlike(w, d, slots, today, booked, luck, s, given);
        PlainRunAgrees(w, After(w, d, slots[0]), slots[1..], today, booked + [x], luck, Add(s, slots[0]), given + [y]);
      } else {
        LostAlike(w, d, slots, today, booked, luck, s, given);
      }
    }
  }
}
