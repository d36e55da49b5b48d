/**
 * What the hourly job is for: one copy with nobody in its way and nothing failing. Every far visit that
 * is free gets a booking, every other one its event; a routine whose client stayed away twice is paused
 * and its movable visits are given back; and everybody due is reminded.
 */
module RoutineJobAlone {
  import opened Basics
  import opened RoutineJob
  import opened RoutineJobProofs
  import opened RoutineJobBookings

  // ------------------------------------------------------------------ which visits

  lemma {:induction false} FarExact(order: seq<Id>, visits: map<Id, Visit>, due: set<Id>)
    ensures forall v :: v in FarVisits(order, visits, due) <==>
      v in order && v in due && v in visits && visits[v].state.Planned? && visits[v].booking.None?
  {
    if order != [] { FarExact(order[1..], visits, due); }
  }

  lemma {:induction false} HeldExact(order: seq<Id>, visits: map<Id, Visit>, movable: set<Id>)
    ensures forall h :: h in HeldVisits(order, visits, movable) <==>
      h.visit in order && h.visit in movable && h.visit in visits && visits[h.visit].booking == Some(h.booking)
  {
    if order != [] { HeldExact(order[1..], visits, movable); }
  }

  lemma {:induction false} RemindersExact(order: seq<Id>, remind: set<Id>)
    ensures forall v :: v in Reminders(order, remind) <==> v in order && v in remind
  {
    if order != [] { RemindersExact(order[1..], remind); }
  }

  // ------------------------------------------------------------------ an hour in which nothing fails

  /** Whether the last two visits that count were missed, and whose time is still free. */
  datatype Hour = Hour(missed: bool, free: set<Id>)

  function LuckFor(p: Phase, hour: Hour): Luck {
    Luck(hour.missed, if p.Claimed? && p.visit !in hour.free then NotFree else Made, true, false, false)
  }

  function Once(s: Sys, w: nat, clock: Clock, hour: Hour): Sys
    requires w < |s.workers|
  {
    Step(s, w, clock, LuckFor(s.workers[w].phase, hour))
  }

  /** The copy moves `n` times. */
  function Go(s: Sys, w: nat, clock: Clock, hour: Hour, n: nat): Sys
    decreases n
  {
    if n == 0 || w >= |s.workers| then s else Go(Once(s, w, clock, hour), w, clock, hour, n - 1)
  }

  lemma {:induction false} GoOn(s: Sys, w: nat, clock: Clock, hour: Hour, a: nat, b: nat)
    ensures Go(s, w, clock, hour, a + b) == Go(Go(s, w, clock, hour, a), w, clock, hour, b)
    decreases a
  {
    if a > 0 && w < |s.workers| { GoOn(Once(s, w, clock, hour), w, clock, hour, a - 1, b); }
  }

  // ------------------------------------------------------------------ the far visits

  ghost predicate OldIds(s: Sys) {
    forall b :: b in s.live ==> b < s.next
  }

  /** Booked anew and linked, or needing somebody and said so. */
  ghost predicate Settled(s: Sys, e: Sys, hour: Hour, v: Id) {
    v in e.visits &&
      if v in hour.free then
        e.visits[v].state.Materialised? && e.visits[v].booking.Some? && e.visits[v].booking.value in e.live
        && e.visits[v].booking.value !in s.live
      else e.visits[v] == Visit(NeedsAttention, None) && NeedsAction(v) in e.events
  }

  ghost predicate SameOtherwise(s: Sys, e: Sys, touched: seq<Id>) {
    && e.visits.Keys == s.visits.Keys && (forall v :: v in s.visits && v !in touched ==> e.visits[v] == s.visits[v])
    && s.live <= e.live && (forall x :: x in s.events ==> x in e.events) && e.active == s.active && s.next <= e.next
    && |e.workers| == |s.workers|
  }

  lemma OnceKeepsWorkers(s: Sys, w: nat, clock: Clock, hour: Hour)
    requires w < |s.workers|
    ensures |Once(s, w, clock, hour).workers| == |s.workers|
  {
    var p := s.workers[w].phase;
    if p.Booking? || p.Claimed? || p.InHand? || p.GivingBack? { assert |Once(s, w, clock, hour).workers| == |s.workers|; }
  }

  lemma OneMove(s: Sys, w: nat, clock: Clock, hour: Hour, n: nat)
    requires w < |s.workers| && n > 0
    ensures Go(s, w, clock, hour, n) == Go(Once(s, w, clock, hour), w, clock, hour, n - 1)
  {}

  lemma ThreeMoves(s: Sys, w: nat, clock: Clock, hour: Hour)
    requires w < |s.workers|
    ensures var a := Once(s, w, clock, hour);
      w < |a.workers| && w < |Once(a, w, clock, hour).workers|
      && Go(s, w, clock, hour, 3) == Once(Once(a, w, clock, hour), w, clock, hour)
  {
    var a := Once(s, w, clock, hour);
    OnceKeepsWorkers(s, w, clock, hour);
    OnceKeepsWorkers(a, w, clock, hour);
    var b := Once(a, w, clock, hour);
    OneMove(s, w, clock, hour, 3);
    OneMove(a, w, clock, hour, 2);
    OneMove(b, w, clock, hour, 1);
  }

  /** Claimed, and then booked and linked or, when its time is taken, noted. */
  lemma FromClaim(s: Sys, w: nat, clock: Clock, hour: Hour, v: Id)
    requires w < |s.workers| && s.workers[w].phase == Phase.Claimed(v) && OldIds(s)
    requires v in s.visits && s.visits[v] == Visit(NeedsAttention, None)
    ensures var a := Once(s, w, clock, hour);
      w < |a.workers| && var e := Once(a, w, clock, hour);
      && SameOtherwise(s, e, [v]) && Settled(s, e, hour, v) && OldIds(e)
      && e.workers[w] == s.workers[w].(phase := Booking)
  {}

  /** One far visit takes three moves. */
  lemma OneFar(s: Sys, w: nat, clock: Clock, hour: Hour)
    requires w < |s.workers| && s.workers[w].phase.Booking? && s.workers[w].far != [] && OldIds(s)
    requires Claimable(s, s.workers[w].far[0])
    ensures var e := Go(s, w, clock, hour, 3); var me := s.workers[w];
      && SameOtherwise(s, e, [me.far[0]]) && Settled(s, e, hour, me.far[0]) && OldIds(e)
      && e.workers[w] == me.(far := me.far[1..])
  {
    var v, claimed := s.workers[w].far[0], Once(s, w, clock, hour);
    ThreeMoves(s, w, clock, hour);
    assert claimed.workers[w] == Worker(Phase.Claimed(v), s.workers[w].release, s.workers[w].far[1..], s.workers[w].remind);
    FromClaim(claimed, w, clock, hour, v);
  }

  lemma RestIsOpen(s: Sys, one: Sys, far: seq<Id>)
    requires far != [] && Distinct(far) && SameOtherwise(s, one, [far[0]]) && forall v :: v in far ==> Claimable(s, v)
    ensures Distinct(far[1..]) && forall v :: v in far[1..] ==> Claimable(one, v)
  {
    forall v | v in far[1..] ensures v != far[0] && v in far {
      var i :| 0 <= i < |far[1..]| && far[1..][i] == v;
      assert far[i + 1] == v;
    }
  }

  /** Every far visit on the list settled, and the copy on to its reminders. */
  ghost predicate DoneBooking(s: Sys, e: Sys, w: nat, hour: Hour) {
    && w < |s.workers| && w < |e.workers| && OldIds(e)
    && SameOtherwise(s, e, s.workers[w].far) && (forall v :: v in s.workers[w].far ==> Settled(s, e, hour, v))
    && e.workers[w] == Worker(Reminding, s.workers[w].release, [], s.workers[w].remind)
  }

  lemma NothingFar(s: Sys, w: nat, clock: Clock, hour: Hour)
    requires w < |s.workers| && s.workers[w].phase.Booking? && s.workers[w].far == [] && OldIds(s)
    ensures DoneBooking(s, Go(s, w, clock, hour, 1), w, hour)
  {
    OneMove(s, w, clock, hour, 1);
  }

  lemma {:induction false} AllFar(s: Sys, w: nat, clock: Clock, hour: Hour) returns (n: nat, e: Sys)
    requires w < |s.workers| && s.workers[w].phase.Booking? && OldIds(s)
    requires Distinct(s.workers[w].far) && forall v :: v in s.workers[w].far ==> Claimable(s, v)
    ensures e == Go(s, w, clock, hour, n) && DoneBooking(s, e, w, hour)
    decreases |s.workers[w].far|
  {
    var me := s.workers[w];
    if me.far == [] {
      n, e := 1, Go(s, w, clock, hour, 1);
      NothingFar(s, w, clock, hour);
    } else {
      var one := Go(s, w, clock, hour, 3);
      OneFar(s, w, clock, hour);
      RestIsOpen(s, one, me.far);
      n, e := AllFar(one, w, clock, hour);
      GoOn(s, w, clock, hour, 3, n);
      n := 3 + n;
      FarAfterOne(s, one, e, hour, me.far);
    }
  }

  lemma FarAfterOne(s: Sys, one: Sys, e: Sys, hour: Hour, far: seq<Id>)
    requires far != [] && Distinct(far) && SameOtherwise(s, one, [far[0]]) && SameOtherwise(one, e, far[1..])
    requires Settled(s, one, hour, far[0]) && forall v :: v in far[1..] ==> Settled(one, e, hour, v)
    ensures SameOtherwise(s, e, far) && forall v :: v in far ==> Settled(s, e, hour, v)
  {
    assert far == [far[0]] + far[1..];
    assert far[0] !in far[1..];
  }

  // ------------------------------------------------------------------ the pause

  /** Given back: the booking cancelled, its visit open again. */
  ghost predicate GivenUp(e: Sys, h: Held) {
    h.visit in e.visits && e.visits[h.visit] == OPEN && h.booking !in e.live
  }

  function VisitsOf(held: seq<Held>): set<Id> {
    set i | 0 <= i < |held| :: held[i].visit
  }

  function BookingsOf(held: seq<Held>): set<Id> {
    set i | 0 <= i < |held| :: held[i].booking
  }

  /** Visits and bookings apart, and every booking a live one. */
  ghost predicate AllHeld(s: Sys, held: seq<Held>) {
    && (forall h :: h in held ==> h.visit in s.visits && h.booking in s.live)
    && (forall i, j :: 0 <= i < j < |held| ==> held[i].visit != held[j].visit && held[i].booking != held[j].booking)
  }

  ghost predicate ReleasedOnly(s: Sys, e: Sys, held: seq<Held>) {
    && e.visits.Keys == s.visits.Keys && (forall v :: v in s.visits && v !in VisitsOf(held) ==> e.visits[v] == s.visits[v])
    && e.live == s.live - BookingsOf(held) && e.events == s.events && e.active == s.active && e.next == s.next
    && |e.workers| == |s.workers|
  }

  lemma OneHeld(s: Sys, w: nat, clock: Clock, hour: Hour)
    requires w < |s.workers| && s.workers[w].phase.Releasing? && s.workers[w].release != []
    requires AllHeld(s, s.workers[w].release)
    ensures var e := Go(s, w, clock, hour, 2); var me := s.workers[w];
      && ReleasedOnly(s, e, [me.release[0]]) && GivenUp(e, me.release[0])
      && e.workers[w] == me.(release := me.release[1..])
  {
    var me := s.workers[w];
    var h := me.release[0];
    var gone := Once(s, w, clock, hour);
    var e := Once(gone, w, clock, hour);
    assert h in me.release;
    assert gone.workers[w] == Worker(Unlinking(h), me.release[1..], me.far, me.remind);
    assert Go(s, w, clock, hour, 2) == Go(gone, w, clock, hour, 1) == e;
    assert [h][0] == h && VisitsOf([h]) == {h.visit} && BookingsOf([h]) == {h.booking};
  }

  lemma RestHeld(s: Sys, one: Sys, held: seq<Held>)
    requires held != [] && AllHeld(s, held) && ReleasedOnly(s, one, [held[0]])
    ensures AllHeld(one, held[1..])
  {
    var rest := held[1..];
    assert forall i :: 0 <= i < |rest| ==> rest[i] == held[i + 1];
    assert BookingsOf([held[0]]) == {held[0].booking} by { assert [held[0]][0] == held[0]; }
    forall h | h in rest ensures h.visit in one.visits && h.booking in one.live {
      var i :| 0 <= i < |rest| && rest[i] == h;
      assert held[i + 1] in held && held[0].booking != held[i + 1].booking;
    }
  }

  lemma FirstApart(s: Sys, held: seq<Held>)
    requires held != [] && AllHeld(s, held)
    ensures held[0].visit !in VisitsOf(held[1..]) && held[0].booking !in BookingsOf(held[1..])
    ensures VisitsOf(held) == {held[0].visit} + VisitsOf(held[1..])
    ensures BookingsOf(held) == {held[0].booking} + BookingsOf(held[1..])
  {
    var rest := held[1..];
    assert forall i :: 0 <= i < |rest| ==> rest[i] == held[i + 1];
    forall x ensures x in VisitsOf(held) <==> x == held[0].visit || x in VisitsOf(rest) {
      if i :| 0 <= i < |held| && held[i].visit == x { if i > 0 { assert rest[i - 1].visit == x; } }
      if i :| 0 <= i < |rest| && rest[i].visit == x { assert held[i + 1].visit == x; }
      assert held[0].visit in VisitsOf(held);
    }
    forall x ensures x in BookingsOf(held) <==> x == held[0].booking || x in BookingsOf(rest) {
      if i :| 0 <= i < |held| && held[i].booking == x { if i > 0 { assert rest[i - 1].booking == x; } }
      if i :| 0 <= i < |rest| && rest[i].booking == x { assert held[i + 1].booking == x; }
      assert held[0].booking in BookingsOf(held);
    }
  }

  ghost predicate AllGivenUp(s: Sys, e: Sys, held: seq<Held>) {
    ReleasedOnly(s, e, held) && forall h :: h in held ==> GivenUp(e, h)
  }

  /** Everything on the list given back, and the copy on to its reminders. */
  ghost predicate DoneReleasing(s: Sys, e: Sys, w: nat) {
    && w < |s.workers| && w < |e.workers| && AllGivenUp(s, e, s.workers[w].release)
    && e.workers[w] == Worker(Reminding, [], s.workers[w].far, s.workers[w].remind)
  }

  lemma NothingHeld(s: Sys, w: nat, clock: Clock, hour: Hour)
    requires w < |s.workers| && s.workers[w].phase.Releasing? && s.workers[w].release == []
    ensures DoneReleasing(s, Go(s, w, clock, hour, 1), w)
  {
    OneMove(s, w, clock, hour, 1);
    assert VisitsOf([]) == {} && BookingsOf([]) == {};
  }

  lemma {:induction false} AllReleased(s: Sys, w: nat, clock: Clock, hour: Hour) returns (n: nat, e: Sys)
    requires w < |s.workers| && s.workers[w].phase.Releasing? && AllHeld(s, s.workers[w].release)
    ensures e == Go(s, w, clock, hour, n) && DoneReleasing(s, e, w)
    decreases |s.workers[w].release|
  {
    if s.workers[w].release == [] {
      n, e := 1, Go(s, w, clock, hour, 1);
      NothingHeld(s, w, clock, hour);
    } else {
      var one := OneReleased(s, w, clock, hour);
      n, e := AllReleased(one, w, clock, hour);
      n := 2 + n;
      DoneAfterOne(s, one, e, w);
    }
  }

  lemma DoneAfterOne(s: Sys, one: Sys, e: Sys, w: nat)
    requires w < |s.workers| && s.workers[w].release != [] && AllHeld(s, s.workers[w].release) && w < |one.workers|
    requires one.workers[w] == Worker(Releasing, s.workers[w].release[1..], s.workers[w].far, s.workers[w].remind)
    requires ReleasedOnly(s, one, [s.workers[w].release[0]]) && GivenUp(one, s.workers[w].release[0])
    requires DoneReleasing(one, e, w)
    ensures DoneReleasing(s, e, w)
  {
    ReleasedTwice(s, one, e, s.workers[w].release);
  }

  lemma OneReleased(s: Sys, w: nat, clock: Clock, hour: Hour) returns (one: Sys)
    requires w < |s.workers| && s.workers[w].phase.Releasing? && s.workers[w].release != []
    requires AllHeld(s, s.workers[w].release)
    ensures var me := s.workers[w];
      && w < |one.workers| && one.workers[w] == Worker(Releasing, me.release[1..], me.far, me.remind)
      && AllHeld(one, me.release[1..]) && ReleasedOnly(s, one, [me.release[0]]) && GivenUp(one, me.release[0])
      && forall m: nat :: Go(s, w, clock, hour, 2 + m) == Go(one, w, clock, hour, m)
  {
    one := Go(s, w, clock, hour, 2);
    OneHeld(s, w, clock, hour);
    RestHeld(s, one, s.workers[w].release);
    forall m: nat ensures Go(s, w, clock, hour, 2 + m) == Go(one, w, clock, hour, m) { GoOn(s, w, clock, hour, 2, m); }
  }

  lemma ReleasedTwice(s: Sys, one: Sys, e: Sys, held: seq<Held>)
    requires held != [] && AllHeld(s, held) && ReleasedOnly(s, one, [held[0]]) && GivenUp(one, held[0])
    requires AllGivenUp(one, e, held[1..])
    ensures AllGivenUp(s, e, held)
  {
    FirstApart(s, held);
    assert VisitsOf([held[0]]) == {held[0].visit} && BookingsOf([held[0]]) == {held[0].booking} by { assert [held[0]][0] == held[0]; }
    assert held == [held[0]] + held[1..];
    assert held[0].visit in s.visits by { assert held[0] in held; }
  }

  // ------------------------------------------------------------------ the reminders

  lemma {:induction false} AllReminded(s: Sys, w: nat, clock: Clock, hour: Hour) returns (n: nat)
    requires w < |s.workers| && s.workers[w].phase.Reminding?
    ensures var e := Go(s, w, clock, hour, n);
      && e == s.(events := e.events, workers := e.workers)
      && |e.workers| == |s.workers| && e.workers[w].phase.Finished?
      && (forall x :: x in s.events ==> x in e.events) && (forall v :: v in s.workers[w].remind ==> Reminder(v) in e.events)
    decreases |s.workers[w].remind|
  {
    var me := s.workers[w];
    var one := Once(s, w, clock, hour);
    assert Go(s, w, clock, hour, 1) == Go(one, w, clock, hour, 0) == one;
    if me.remind == [] {
      n := 1;
    } else {
      var m := AllReminded(one, w, clock, hour);
      n := 1 + m;
      GoOn(s, w, clock, hour, 1, m);
      assert me.remind == [me.remind[0]] + me.remind[1..];
    }
  }

  // ------------------------------------------------------------------ the hour

  /** The copy has read the routine and its visits. */
  lemma TwoReads(s: Sys, w: nat, clock: Clock, hour: Hour)
    requires w < |s.workers| && s.workers[w].phase.Idle?
    ensures var e := Go(s, w, clock, hour, 2); var active := s.active || s.resumeDue;
      && e == s.(active := active, resumeDue := false, workers := e.workers) && |e.workers| == |s.workers|
      && e.workers[w] == Worker(if active then Ready else Reminding, HeldVisits(clock.order, s.visits, clock.movable),
                                FarVisits(clock.order, s.visits, clock.due), Reminders(clock.order, clock.remind))
  {
    var a := Once(s, w, clock, hour);
    OneMove(s, w, clock, hour, 2);
    OneMove(a, w, clock, hour, 1);
  }

  /** The two things a routine's visits may come to in an hour. */
  ghost predicate FarBooked(s: Sys, e: Sys, clock: Clock, hour: Hour) {
    && e.active && s.live <= e.live && e.visits.Keys == s.visits.Keys
    && forall v :: v in s.visits ==>
         if v in clock.order && v in clock.due && s.visits[v].state.Planned? && s.visits[v].booking.None?
         then Settled(s, e, hour, v) else e.visits[v] == s.visits[v]
  }

  ghost predicate GivenBackAndPaused(s: Sys, e: Sys, clock: Clock) {
    && !e.active && e.visits.Keys == s.visits.Keys && e.live <= s.live
    && (forall v :: v in s.visits ==>
          if v in clock.order && v in clock.movable && s.visits[v].booking.Some?
          then e.visits[v] == OPEN && s.visits[v].booking.value !in e.live else e.visits[v] == s.visits[v])
    && (forall b :: b in s.live && b !in e.live ==> exists v :: v in clock.movable && LinkedTo(s.visits, v, b))
  }

  ghost predicate EverybodyReminded(e: Sys, clock: Clock) {
    forall v :: v in clock.order && v in clock.remind ==> Reminder(v) in e.events
  }

  /** What a copy has read, when it is about to decide whether to pause. */
  ghost predicate HasRead(s: Sys, r: Sys, w: nat, clock: Clock) {
    && w < |r.workers| && r == s.(active := true, resumeDue := false, workers := r.workers)
    && r.workers[w] == Worker(Ready, HeldVisits(clock.order, s.visits, clock.movable),
                              FarVisits(clock.order, s.visits, clock.due), Reminders(clock.order, clock.remind))
  }

  lemma BookingHour(s: Sys, r: Sys, w: nat, clock: Clock, hour: Hour) returns (n: nat)
    requires HasRead(s, r, w, clock) && OldIds(s) && Distinct(clock.order) && !hour.missed
    ensures var e := Go(r, w, clock, hour, n);
      && w < |e.workers| && e.workers[w].phase.Finished?
      && FarBooked(s, e, clock, hour) && EverybodyReminded(e, clock)
  {
    var b := Once(r, w, clock, hour);
    OneMove(r, w, clock, hour, 1);
    FarExact(clock.order, s.visits, clock.due);
    FarVisitsOpen(clock.order, s.visits, clock.due);
    RemindersExact(clock.order, clock.remind);
    var k, f := AllFar(b, w, clock, hour);
    var m := AllReminded(f, w, clock, hour);
    GoOn(r, w, clock, hour, 1, k);
    GoOn(r, w, clock, hour, 1 + k, m);
    n := 1 + k + m;
    SettledStays(s, f, Go(f, w, clock, hour, m), hour);
  }

  lemma SettledStays(s: Sys, f: Sys, e: Sys, hour: Hour)
    requires e == f.(events := e.events, workers := e.workers) && forall x :: x in f.events ==> x in e.events
    ensures forall v :: Settled(s, f, hour, v) ==> Settled(s, e, hour, v)
  {}

  lemma HeldApart(s: Sys, order: seq<Id>, movable: set<Id>)
    requires Initial(s) && Distinct(order)
    ensures AllHeld(s, HeldVisits(order, s.visits, movable))
  {
    var held := HeldVisits(order, s.visits, movable);
    HeldVisitsLinked(order, s.visits, movable);
    forall i, j | 0 <= i < j < |held| ensures held[i].booking != held[j].booking {
      assert held[i] in held && held[j] in held && held[i].visit != held[j].visit;
    }
  }

  lemma HeldIsMovable(s: Sys, p: Sys, f: Sys, held: seq<Held>, clock: Clock)
    requires p.visits == s.visits && p.live == s.live && !p.active && ReleasedOnly(p, f, held)
    requires forall h :: h in held ==> GivenUp(f, h)
    requires forall h :: h in held <==>
      h.visit in clock.order && h.visit in clock.movable && h.visit in s.visits && s.visits[h.visit].booking == Some(h.booking)
    ensures GivenBackAndPaused(s, f, clock)
  {
    forall i | 0 <= i < |held|
      ensures held[i].visit in clock.order && held[i].visit in clock.movable && s.visits[held[i].visit].booking.Some?
    {
      assert held[i] in held;
    }
    forall v | v in s.visits
      ensures if v in clock.order && v in clock.movable && s.visits[v].booking.Some?
              then f.visits[v] == OPEN && s.visits[v].booking.value !in f.live else f.visits[v] == s.visits[v]
    {
      if v in clock.order && v in clock.movable && s.visits[v].booking.Some? {
        assert Held(v, s.visits[v].booking.value) in held;
      }
    }
    forall b | b in s.live && b !in f.live ensures exists v :: v in clock.movable && LinkedTo(s.visits, v, b) {
      var i :| 0 <= i < |held| && held[i].booking == b;
      assert held[i] in held && LinkedTo(s.visits, held[i].visit, b);
    }
  }

  lemma PausingHour(s: Sys, r: Sys, w: nat, clock: Clock, hour: Hour) returns (n: nat)
    requires HasRead(s, r, w, clock) && Initial(s) && Distinct(clock.order) && hour.missed
    ensures var e := Go(r, w, clock, hour, n);
      && w < |e.workers| && e.workers[w].phase.Finished?
      && GivenBackAndPaused(s, e, clock) && EverybodyReminded(e, clock)
  {
    var p := Once(r, w, clock, hour);
    var held := HeldVisits(clock.order, s.visits, clock.movable);
    OneMove(r, w, clock, hour, 1);
    HeldExact(clock.order, s.visits, clock.movable);
    RemindersExact(clock.order, clock.remind);
    HeldApart(s, clock.order, clock.movable);
    var k, f := AllReleased(p, w, clock, hour);
    var m := AllReminded(f, w, clock, hour);
    GoOn(r, w, clock, hour, 1, k);
    GoOn(r, w, clock, hour, 1 + k, m);
    n := 1 + k + m;
    HeldIsMovable(s, p, f, held, clock);
  }

  /**
   * One copy, nobody in its way and nothing failing, gets to the end of the routine. If the routine is
   * active, or its pause is over, and its client did not stay away twice: each far visit that is free
   * has a booking of its own, each that is not has its event, and no other visit changed. If she did:
   * the routine is paused, every movable visit has been given back, and no other. If it is not active:
   * nothing changed. And everybody due is reminded.
   */
  lemma OneCopyAlone(s: Sys, w: nat, clock: Clock, hour: Hour) returns (n: nat)
    requires Initial(s) && w < 2 && OldIds(s) && Distinct(clock.order)
    ensures var e := Go(s, w, clock, hour, n); var active := s.active || s.resumeDue;
      && w < |e.workers| && e.workers[w].phase.Finished? && EverybodyReminded(e, clock)
      && (active && !hour.missed ==> FarBooked(s, e, clock, hour))
      && (active && hour.missed ==> GivenBackAndPaused(s, e, clock))
      && (!active ==> !e.active && e.visits == s.visits && e.live == s.live)
  {
    var r := Go(s, w, clock, hour, 2);
    TwoReads(s, w, clock, hour);
    var k: nat;
    if !(s.active || s.resumeDue) {
      k := AllReminded(r, w, clock, hour);
      RemindersExact(clock.order, clock.remind);
    } else if hour.missed {
      k := PausingHour(s, r, w, clock, hour);
    } else {
      k := BookingHour(s, r, w, clock, hour);
    }
    n := 2 + k;
    GoOn(s, w, clock, hour, 2, k);
  }
}
