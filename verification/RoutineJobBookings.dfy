/** Every booking the hourly job makes ends linked, given back, or on record as one it could not give back. */
module RoutineJobBookings {
  import opened Basics
  import opened RoutineJob
  import opened RoutineJobProofs

  predicate LinkedTo(visits: map<Id, Visit>, v: Id, b: Id) {
    v in visits && visits[v].booking == Some(b)
  }

  ghost predicate Linked(visits: map<Id, Visit>, b: Id) {
    exists v :: LinkedTo(visits, v, b)
  }

  function Carried(p: Phase): Option<Id> {
    match p
    case InHand(h) => Some(h.booking)
    case GivingBack(h, _) => Some(h.booking)
    case _ => None
  }

  /** What a worker that may release still intends to release is linked as it read it. */
  ghost predicate ReleaseSound(me: Worker, w: nat, winner: Option<nat>, visits: map<Id, Visit>, live: set<Id>) {
    && (winner == Some(w) || (winner.None? && me.phase.Ready?) ==>
          && (forall h :: h in me.release ==> LinkedTo(visits, h.visit, h.booking))
          && (forall i, j :: 0 <= i < j < |me.release| ==> me.release[i].visit != me.release[j].visit))
    && (me.phase.Unlinking? ==>
          && winner == Some(w)
          && LinkedTo(visits, me.phase.gone.visit, me.phase.gone.booking) && me.phase.gone.booking !in live
          && (forall h :: h in me.release ==> h.visit != me.phase.gone.visit))
    && (me.phase.Releasing? ==> winner == Some(w))
  }

  ghost predicate CarrySound(s: Sys, w: nat)
    requires w < |s.workers|
  {
    var b := Carried(s.workers[w].phase);
    b.Some? ==> b.value in s.made && b.value in s.live && b.value !in s.residue && !Linked(s.visits, b.value)
  }

  ghost predicate LinksSound(s: Sys) {
    && (forall v: Id, b: Id :: LinkedTo(s.visits, v, b) ==> b < s.next)
    && (forall v: Id, u: Id, b: Id :: LinkedTo(s.visits, v, b) && LinkedTo(s.visits, u, b) ==> v == u)
    && (forall v: Id, b: Id :: LinkedTo(s.visits, v, b) ==>
          b in s.live || Held(v, b) in s.stale
          || (s.winner.Some? && s.winner.value < |s.workers|
              && s.workers[s.winner.value].phase == Unlinking(Held(v, b))))
  }

  /** A visit left showing a cancelled booking goes on showing it: the worker that left it so has ended. */
  ghost predicate StaleSound(s: Sys) {
    && (forall h :: h in s.stale ==> LinkedTo(s.visits, h.visit, h.booking) && h.booking !in s.live)
    && (s.stale != {} ==> s.winner.Some? && s.winner.value < |s.workers| && s.workers[s.winner.value].phase.Finished?)
  }

  /** A booking whose create threw is nobody's: live, on no visit, on no record and in nobody's hands. */
  ghost predicate LeakSound(s: Sys) {
    && |s.workers| == 2 && s.leaked <= s.made
    && forall b :: b in s.leaked ==>
         && b in s.live && b !in s.residue && !Linked(s.visits, b)
         && Carried(s.workers[0].phase) != Some(b) && Carried(s.workers[1].phase) != Some(b)
  }

  /** A live booking of the job's own is linked, on its way to be linked or given back, or on record. */
  ghost predicate MadeSound(s: Sys) {
    && |s.workers| == 2
    && (forall b :: b in s.made ==> b < s.next)
    && s.residue <= s.made
    && (forall b :: b in s.made && b in s.live ==>
          Linked(s.visits, b) || b in s.residue || b in s.leaked
          || Carried(s.workers[0].phase) == Some(b) || Carried(s.workers[1].phase) == Some(b))
    && CarrySound(s, 0) && CarrySound(s, 1)
    && (Carried(s.workers[0].phase).Some? ==> Carried(s.workers[0].phase) != Carried(s.workers[1].phase))
  }

  /** Visits are released by the pause's winner only; any other cancel undoes a booking of the job's own. */
  ghost predicate CancelsSound(s: Sys) {
    forall c :: c in s.cancels ==> s.winner == Some(c.worker) || c.booking in s.made
  }

  ghost predicate BookingsSound(s: Sys) {
    && MadeSound(s) && LinksSound(s) && CancelsSound(s) && StaleSound(s) && LeakSound(s)
    && (s.winner.Some? ==> s.winner.value < 2 && !s.active && !s.resumeDue)
    && ReleaseSound(s.workers[0], 0, s.winner, s.visits, s.live)
    && ReleaseSound(s.workers[1], 1, s.winner, s.visits, s.live)
  }

  // ------------------------------------------------------------------ the steps that matter

  lemma {:induction false} HeldVisitsLinked(order: seq<Id>, visits: map<Id, Visit>, movable: set<Id>)
    requires Distinct(order)
    ensures var held := HeldVisits(order, visits, movable);
      && (forall h :: h in held ==> h.visit in order && LinkedTo(visits, h.visit, h.booking))
      && (forall i, j :: 0 <= i < j < |held| ==> held[i].visit != held[j].visit)
  {
    if order != [] { HeldVisitsLinked(order[1..], visits, movable); }
  }

  /** Steps that touch no visit and no booking. */
  lemma PaperStep(s: Sys, e: Sys, w: nat)
    requires BookingsSound(s) && w < 2 && |e.workers| == 2 && e.workers[1 - w] == s.workers[1 - w]
    requires e.visits == s.visits && e.live == s.live && e.made == s.made && e.residue == s.residue
    requires e.leaked == s.leaked && e.stale == s.stale
    requires e.next == s.next && e.cancels == s.cancels && e.winner == s.winner
    requires e.winner.Some? ==> e.active == s.active && e.resumeDue == s.resumeDue
    requires Carried(e.workers[w].phase) == Carried(s.workers[w].phase)
    requires ReleaseSound(e.workers[w], w, e.winner, e.visits, e.live)
    requires !s.workers[w].phase.Unlinking? && !s.workers[w].phase.Finished?
    ensures BookingsSound(e)
  {
    assert CarrySound(s, w) && CarrySound(s, 1 - w);
    assert CarrySound(e, w) && CarrySound(e, 1 - w);
  }

  lemma PauseBookings(s: Sys, w: nat, missed: bool)
    requires BookingsSound(s) && w < 2 && s.workers[w].phase.Ready? && s.winner != Some(w)
    ensures BookingsSound(Pause(s, w, missed))
  {
    var e := Pause(s, w, missed);
    assert CarrySound(s, w) && CarrySound(s, 1 - w);
    assert CarrySound(e, w) && CarrySound(e, 1 - w);
  }

  lemma ReleaseBookings(s: Sys, w: nat)
    requires BookingsSound(s) && w < 2 && s.workers[w].phase.Releasing? && s.workers[w].release != []
    requires s.workers[w].release[0].booking in s.live
    ensures BookingsSound(ReleaseNext(s, w, true))
  {
    var e := ReleaseNext(s, w, true);
    var h := s.workers[w].release[0];
    assert LinkedTo(s.visits, h.visit, h.booking);
    assert CarrySound(s, 1 - w);
    assert CarrySound(e, w) && CarrySound(e, 1 - w);
  }

  lemma UnlinkBookings(s: Sys, w: nat)
    requires BookingsSound(s) && w < 2 && s.workers[w].phase.Unlinking?
    ensures BookingsSound(Unlink(s, w))
  {
    var e := Unlink(s, w);
    var h := s.workers[w].phase.gone;
    forall v, b ensures LinkedTo(e.visits, v, b) <==> LinkedTo(s.visits, v, b) && v != h.visit {}
    forall b | b != h.booking ensures Linked(e.visits, b) <==> Linked(s.visits, b) {
      if v :| LinkedTo(s.visits, v, b) { assert LinkedTo(e.visits, v, b); }
      if v :| LinkedTo(e.visits, v, b) { assert LinkedTo(s.visits, v, b); }
    }
    assert CarrySound(s, 1 - w);
    assert CarrySound(e, w) && CarrySound(e, 1 - w);
  }

  lemma ClaimBookings(s: Sys, w: nat)
    requires BookingsSound(s) && w < 2 && s.workers[w].phase.Booking? && s.winner != Some(w)
    requires s.workers[w].far != [] && Claimable(s, s.workers[w].far[0])
    ensures BookingsSound(ClaimNext(s, w))
  {
    var e := ClaimNext(s, w);
    SameLinks(s, e);
    assert CarrySound(s, 1 - w);
    assert CarrySound(e, w) && CarrySound(e, 1 - w);
  }

  lemma SameLinks(s: Sys, e: Sys)
    requires forall v, b :: LinkedTo(e.visits, v, b) <==> LinkedTo(s.visits, v, b)
    ensures forall b :: Linked(e.visits, b) <==> Linked(s.visits, b)
  {
    forall b ensures Linked(e.visits, b) <==> Linked(s.visits, b) {
      if v :| LinkedTo(s.visits, v, b) { assert LinkedTo(e.visits, v, b); }
      if v :| LinkedTo(e.visits, v, b) { assert LinkedTo(s.visits, v, b); }
    }
  }

  lemma BookBookings(s: Sys, w: nat)
    requires BookingsSound(s) && w < 2 && s.workers[w].phase.Claimed? && s.winner != Some(w)
    ensures BookingsSound(Book(s, w, Made))
  {
    var e := Book(s, w, Made);
    assert CarrySound(s, 1 - w);
    assert !Linked(s.visits, s.next);
    assert CarrySound(e, w) && CarrySound(e, 1 - w);
  }

  lemma LeakBookings(s: Sys, w: nat)
    requires BookingsSound(s) && w < 2 && s.workers[w].phase.Claimed? && s.winner != Some(w)
    ensures BookingsSound(Book(s, w, ThrewAfterWriting))
  {
    var e := Book(s, w, ThrewAfterWriting);
    assert CarrySound(s, 1 - w);
    assert !Linked(s.visits, s.next);
    assert CarrySound(e, w) && CarrySound(e, 1 - w);
  }

  lemma AbortBookings(s: Sys, w: nat)
    requires BookingsSound(s) && w < 2 && MayAbort(s.workers[w].phase)
    ensures BookingsSound(Abort(s, w))
  {
    var e := Abort(s, w);
    if s.workers[w].phase.Unlinking? {
      assert CarrySound(s, 1 - w);
      assert CarrySound(e, w) && CarrySound(e, 1 - w);
    } else {
      PaperStep(s, e, w);
    }
  }

  lemma OneMoreLink(visits: map<Id, Visit>, after: map<Id, Visit>, h: Held)
    requires h.visit in visits && visits[h.visit].booking.None?
    requires after == visits[h.visit := Visit(Materialised, Some(h.booking))]
    ensures forall v, b :: LinkedTo(after, v, b) <==> LinkedTo(visits, v, b) || (v == h.visit && b == h.booking)
    ensures forall b :: Linked(after, b) <==> Linked(visits, b) || b == h.booking
  {
    forall b ensures Linked(after, b) <==> Linked(visits, b) || b == h.booking {
      if v :| LinkedTo(visits, v, b) { assert LinkedTo(after, v, b); }
      assert LinkedTo(after, h.visit, h.booking);
      if v :| LinkedTo(after, v, b) { assert LinkedTo(visits, v, b) || b == h.booking; }
    }
  }

  lemma LinkBookings(s: Sys, w: nat)
    requires BookingsSound(s) && w < 2 && s.workers[w].phase.InHand? && s.winner != Some(w)
    requires Link(s, w, false).workers[w].phase.Booking?
    ensures BookingsSound(Link(s, w, false))
  {
    var e := Link(s, w, false);
    assert CarrySound(s, w) && CarrySound(s, 1 - w);
    OneMoreLink(s.visits, e.visits, s.workers[w].phase.made);
    assert CarrySound(e, w) && CarrySound(e, 1 - w);
  }

  lemma GiveBackBookings(s: Sys, w: nat, cancelled: bool)
    requires BookingsSound(s) && w < 2 && s.workers[w].phase.GivingBack? && s.winner != Some(w)
    ensures BookingsSound(GiveBack(s, w, cancelled))
  {
    var e := GiveBack(s, w, cancelled);
    var h := s.workers[w].phase.orphan;
    assert CarrySound(s, w) && CarrySound(s, 1 - w);
    forall v, b | LinkedTo(s.visits, v, b) ensures b != h.booking { assert Linked(s.visits, b); }
    assert CarrySound(e, w) && CarrySound(e, 1 - w);
  }

  lemma ReadBookings(s: Sys, w: nat, clock: Clock)
    requires BookingsSound(s) && w < 2 && s.workers[w].phase.Reading? && Distinct(clock.order)
    ensures BookingsSound(Read(s, w, clock))
  {
    HeldVisitsLinked(clock.order, s.visits, clock.movable);
    PaperStep(s, Read(s, w, clock), w);
  }

  lemma IdleBookings(s: Sys, w: nat)
    requires BookingsSound(s) && w < 2 && s.workers[w].phase.Idle? && s.winner != Some(w)
    ensures BookingsSound(Resume(s, w))
  {
    PaperStep(s, Resume(s, w), w);
  }

  lemma NoteBookings(s: Sys, w: nat, e: EventId)
    requires BookingsSound(s) && w < 2 && s.workers[w].phase.Noting? && s.winner != Some(w)
    ensures BookingsSound(With(s.(events := Write(s.events, e)), w, s.workers[w].(phase := Booking)))
  {
    PaperStep(s, With(s.(events := Write(s.events, e)), w, s.workers[w].(phase := Booking)), w);
  }

  lemma RemindBookings(s: Sys, w: nat)
    requires BookingsSound(s) && w < 2 && s.workers[w].phase.Reminding?
    ensures BookingsSound(Remind(s, w))
  {
    PaperStep(s, Remind(s, w), w);
  }

  // The calls that come back empty-handed: nothing cancelled, nothing claimed, nothing booked, no link.

  lemma NothingReleased(s: Sys, w: nat, cancelled: bool)
    requires BookingsSound(s) && w < 2 && s.workers[w].phase.Releasing?
    requires s.workers[w].release == [] || !cancelled || s.workers[w].release[0].booking !in s.live
    ensures BookingsSound(ReleaseNext(s, w, cancelled))
  {
    PaperStep(s, ReleaseNext(s, w, cancelled), w);
  }

  lemma NothingClaimed(s: Sys, w: nat)
    requires BookingsSound(s) && w < 2 && s.workers[w].phase.Booking? && s.winner != Some(w)
    requires s.workers[w].far == [] || !Claimable(s, s.workers[w].far[0])
    ensures BookingsSound(ClaimNext(s, w))
  {
    PaperStep(s, ClaimNext(s, w), w);
  }

  lemma NothingBooked(s: Sys, w: nat)
    requires BookingsSound(s) && w < 2 && s.workers[w].phase.Claimed? && s.winner != Some(w)
    ensures BookingsSound(Book(s, w, NotFree))
  {
    PaperStep(s, Book(s, w, NotFree), w);
  }

  lemma NothingLinked(s: Sys, w: nat, throws: bool)
    requires BookingsSound(s) && w < 2 && s.workers[w].phase.InHand? && s.winner != Some(w)
    requires !Link(s, w, throws).workers[w].phase.Booking?
    ensures BookingsSound(Link(s, w, throws))
  {
    PaperStep(s, Link(s, w, throws), w);
  }

  lemma ReleasingStep(s: Sys, w: nat, cancelled: bool)
    requires BookingsSound(s) && w < 2 && s.workers[w].phase.Releasing?
    ensures BookingsSound(ReleaseNext(s, w, cancelled))
  {
    var me := s.workers[w];
    if me.release != [] && cancelled && me.release[0].booking in s.live {
      ReleaseBookings(s, w);
    } else {
      NothingReleased(s, w, cancelled);
    }
  }

  lemma ClaimStep(s: Sys, w: nat)
    requires BookingsSound(s) && w < 2 && s.workers[w].phase.Booking? && s.winner != Some(w)
    ensures BookingsSound(ClaimNext(s, w))
  {
    var me := s.workers[w];
    if me.far != [] && Claimable(s, me.far[0]) { ClaimBookings(s, w); } else { NothingClaimed(s, w); }
  }

  lemma BookStep(s: Sys, w: nat, create: Create)
    requires BookingsSound(s) && w < 2 && s.workers[w].phase.Claimed? && s.winner != Some(w)
    ensures BookingsSound(Book(s, w, create))
  {
    match create
    case NotFree => NothingBooked(s, w);
    case Made => BookBookings(s, w);
    case ThrewAfterWriting => LeakBookings(s, w);
  }

  lemma LinkStep(s: Sys, w: nat, throws: bool)
    requires BookingsSound(s) && w < 2 && s.workers[w].phase.InHand? && s.winner != Some(w)
    ensures BookingsSound(Link(s, w, throws))
  {
    if Link(s, w, throws).workers[w].phase.Booking? { LinkBookings(s, w); } else { NothingLinked(s, w, throws); }
  }

  lemma FarStep(s: Sys, w: nat, clock: Clock, luck: Luck)
    requires BookingsSound(s) && w < 2 && s.winner != Some(w)
    requires var p := s.workers[w].phase; p.Booking? || p.Claimed? || p.InHand? || p.GivingBack? || p.Noting?
    requires luck.throws ==> !MayAbort(s.workers[w].phase)
    ensures BookingsSound(Step(s, w, clock, luck))
  {
    match s.workers[w].phase {
      case Booking => ClaimStep(s, w);
      case Claimed(_) => BookStep(s, w, luck.create);
      case InHand(_) => LinkStep(s, w, luck.linkThrows);
      case GivingBack(_, _) => GiveBackBookings(s, w, luck.cancelled);
      case Noting(v) => NoteBookings(s, w, NeedsAction(v));
    }
  }

  lemma StepBookings(s: Sys, w: nat, clock: Clock, luck: Luck)
    requires BookingsSound(s) && ClaimsSound(s) && Distinct(clock.order)
    ensures BookingsSound(Step(s, w, clock, luck))
  {
    if w < 2 && luck.throws && MayAbort(s.workers[w].phase) {
      AbortBookings(s, w);
    } else if w < 2 {
      assert WorkerSound(s.workers[w], w, s.winner, s.claims);
      match s.workers[w].phase {
        case Idle => IdleBookings(s, w);
        case Reading => ReadBookings(s, w, clock);
        case Ready => PauseBookings(s, w, luck.missed);
        case Releasing => ReleasingStep(s, w, luck.cancelled);
        case Unlinking(_) => UnlinkBookings(s, w);
        case Reminding => RemindBookings(s, w);
        case Finished =>
        case _ => FarStep(s, w, clock, luck);
      }
    }
  }

  // ------------------------------------------------------------------ events

  lemma WriteDistinct(events: seq<EventId>, e: EventId)
    requires Distinct(events)
    ensures Distinct(Write(events, e))
  {}

  lemma StepEvents(s: Sys, w: nat, clock: Clock, luck: Luck)
    requires Distinct(s.events)
    ensures Distinct(Step(s, w, clock, luck).events)
  {
    if w < |s.workers| {
      var me := s.workers[w];
      if me.phase.Noting? { WriteDistinct(s.events, NeedsAction(me.phase.lost)); }
      if me.phase.Reminding? && me.remind != [] { WriteDistinct(s.events, Reminder(me.remind[0])); }
    }
  }

  // ------------------------------------------------------------------ whole schedules

  const IDLE := Worker(Idle, [], [], [])

  /** The routine as two idle workers find it. */
  ghost predicate Initial(s: Sys) {
    && s.workers == [IDLE, IDLE] && s.winner.None? && s.claims == [] && s.cancels == [] && s.made == {} && s.residue == {}
    && s.leaked == {} && s.stale == {}
    && Distinct(s.events)
    && (forall v: Id, b: Id :: LinkedTo(s.visits, v, b) ==> b < s.next && b in s.live)
    && (forall v: Id, u: Id, b: Id :: LinkedTo(s.visits, v, b) && LinkedTo(s.visits, u, b) ==> v == u)
  }

  ghost predicate JobSound(s: Sys) {
    ClaimsSound(s) && BookingsSound(s) && Distinct(s.events)
  }

  lemma InitialSound(s: Sys)
    requires Initial(s)
    ensures JobSound(s)
  {
    assert s.workers[0] == IDLE && s.workers[1] == IDLE;
  }

  lemma {:induction false} RunSound(s: Sys, turns: seq<Turn>, clock: Clock)
    requires JobSound(s) && Distinct(clock.order)
    ensures JobSound(Run(s, turns, clock))
    decreases |turns|
  {
    if turns != [] {
      var w, luck := turns[0].worker, turns[0].luck;
      StepClaims(s, w, clock, luck);
      StepBookings(s, w, clock, luck);
      StepEvents(s, w, clock, luck);
      RunSound(Step(s, w, clock, luck), turns[1..], clock);
    }
  }

  /** What was cancelled is off, and was cancelled once. */
  ghost predicate CancelledOff(s: Sys) {
    && (forall c :: c in s.cancels ==> c.booking !in s.live && c.booking < s.next)
    && (forall i, j :: 0 <= i < j < |s.cancels| ==> s.cancels[i].booking != s.cancels[j].booking)
  }

  /** A step cancels nothing, or one live booking that was there; and brings none back. */
  ghost predicate CancelsAtMostOne(s: Sys, e: Sys, w: nat) {
    && s.next <= e.next && (forall b :: b in e.live ==> b in s.live || b == s.next)
    && (e.cancels == s.cancels
        || exists b: Id :: e.cancels == s.cancels + [Cancel(w, b)] && b in s.live && b !in e.live && b < s.next)
  }

  lemma ReleaseCancels(s: Sys, w: nat, cancelled: bool)
    requires BookingsSound(s) && w < 2 && s.workers[w].phase.Releasing?
    ensures CancelsAtMostOne(s, ReleaseNext(s, w, cancelled), w)
  {
    var me, e := s.workers[w], ReleaseNext(s, w, cancelled);
    if me.release != [] && cancelled && me.release[0].booking in s.live {
      assert LinkedTo(s.visits, me.release[0].visit, me.release[0].booking);
      assert e.cancels == s.cancels + [Cancel(w, me.release[0].booking)];
    }
  }

  lemma GiveBackCancels(s: Sys, w: nat, cancelled: bool)
    requires BookingsSound(s) && w < 2 && s.workers[w].phase.GivingBack?
    ensures CancelsAtMostOne(s, GiveBack(s, w, cancelled), w)
  {
    var e := GiveBack(s, w, cancelled);
    assert CarrySound(s, w);
    if cancelled { assert e.cancels == s.cancels + [Cancel(w, s.workers[w].phase.orphan.booking)]; }
  }

  /** No other call cancels anything. */
  lemma QuietCancels(s: Sys, w: nat, clock: Clock, luck: Luck)
    requires w < |s.workers|
    requires (luck.throws && MayAbort(s.workers[w].phase))
      || !(s.workers[w].phase.Releasing? || s.workers[w].phase.GivingBack?)
    ensures CancelsAtMostOne(s, Step(s, w, clock, luck), w)
  {}

  lemma StepCancels(s: Sys, w: nat, clock: Clock, luck: Luck)
    requires BookingsSound(s) && w < 2
    ensures CancelsAtMostOne(s, Step(s, w, clock, luck), w)
  {
    var p := s.workers[w].phase;
    if p.Releasing? {
      ReleaseCancels(s, w, luck.cancelled);
    } else if p.GivingBack? {
      GiveBackCancels(s, w, luck.cancelled);
    } else {
      QuietCancels(s, w, clock, luck);
    }
  }

  /** Over every schedule a booking is cancelled at most once, by whichever worker, and stays cancelled. */
  lemma {:induction false} CancelledOnce(s: Sys, turns: seq<Turn>, clock: Clock)
    requires JobSound(s) && CancelledOff(s) && Distinct(clock.order)
    ensures CancelledOff(Run(s, turns, clock))
    decreases |turns|
  {
    if turns != [] {
      var w, luck := turns[0].worker, turns[0].luck;
      RunSound(s, [turns[0]], clock);
      assert [turns[0]][1..] == [];
      assert Run(s, [turns[0]], clock) == Step(s, w, clock, luck);
      if w < 2 { StepCancels(s, w, clock, luck); }
      CancelledOnce(Step(s, w, clock, luck), turns[1..], clock);
    }
  }

  /**
   * Whatever the schedule and whatever fails: no visit is claimed twice, by either worker; only the
   * worker that won the pause cancels a visit's booking, any other cancel undoes one the job made, and
   * none is cancelled twice; and no event id is stored twice.
   */
  lemma TwoWorkersNeverDoItTwice(s: Sys, turns: seq<Turn>, clock: Clock)
    requires Initial(s) && Distinct(clock.order)
    ensures var e := Run(s, turns, clock);
      && (forall i, j :: 0 <= i < j < |e.claims| ==> e.claims[i].visit != e.claims[j].visit)
      && (forall c :: c in e.cancels ==> e.winner == Some(c.worker) || c.booking in e.made)
      && (forall i, j :: 0 <= i < j < |e.cancels| ==> e.cancels[i].booking != e.cancels[j].booking)
      && Distinct(e.events)
  {
    InitialSound(s);
    RunSound(s, turns, clock);
    CancelledOnce(s, turns, clock);
  }

  // ------------------------------------------------------------------ what is left over, and exactly when

  /** A create that threw once its booking was written. */
  predicate Leaks(s: Sys, t: Turn) {
    t.worker < |s.workers| && s.workers[t.worker].phase.Claimed? && t.luck.create.ThrewAfterWriting?
  }

  /** An unlink that threw once its booking was cancelled. */
  predicate Forgets(s: Sys, t: Turn) {
    t.worker < |s.workers| && s.workers[t.worker].phase.Unlinking? && t.luck.throws
  }

  predicate NeverLeaks(s: Sys, turns: seq<Turn>, clock: Clock)
    decreases |turns|
  {
    turns != [] ==>
      !Leaks(s, turns[0]) && NeverLeaks(Step(s, turns[0].worker, clock, turns[0].luck), turns[1..], clock)
  }

  predicate NeverForgets(s: Sys, turns: seq<Turn>, clock: Clock)
    decreases |turns|
  {
    turns != [] ==>
      !Forgets(s, turns[0]) && NeverForgets(Step(s, turns[0].worker, clock, turns[0].luck), turns[1..], clock)
  }

  lemma StepLeaves(s: Sys, t: Turn, clock: Clock)
    ensures var e := Step(s, t.worker, clock, t.luck);
      && (if Leaks(s, t) then e.leaked == s.leaked + {s.next} else e.leaked == s.leaked)
      && (if Forgets(s, t) then e.stale == s.stale + {s.workers[t.worker].phase.gone} else e.stale == s.stale)
  {}

  lemma {:induction false} LeavesExactly(s: Sys, turns: seq<Turn>, clock: Clock)
    requires JobSound(s) && Distinct(clock.order)
    ensures s.leaked <= Run(s, turns, clock).leaked && s.stale <= Run(s, turns, clock).stale
    ensures s.leaked == {} ==> (Run(s, turns, clock).leaked == {} <==> NeverLeaks(s, turns, clock))
    ensures s.stale == {} ==> (Run(s, turns, clock).stale == {} <==> NeverForgets(s, turns, clock))
    decreases |turns|
  {
    if turns != [] {
      var t := turns[0];
      StepClaims(s, t.worker, clock, t.luck);
      StepBookings(s, t.worker, clock, t.luck);
      StepEvents(s, t.worker, clock, t.luck);
      StepLeaves(s, t, clock);
      LeavesExactly(Step(s, t.worker, clock, t.luck), turns[1..], clock);
    }
  }

  /**
   * Once both workers are done, a booking the job made that still lives is on exactly one visit, or on
   * record as one that could not be given back, or is one whose create threw after writing it: those
   * are on no visit and on no record. There are none of them, and every booking is accounted for, if
   * and only if no create threw after writing.
   */
  lemma EveryBookingAccountedFor(s: Sys, turns: seq<Turn>, clock: Clock)
    requires Initial(s) && Distinct(clock.order)
    requires forall me :: me in Run(s, turns, clock).workers ==> me.phase.Finished?
    ensures var e := Run(s, turns, clock);
      && (forall b :: b in e.made && b in e.live ==> Linked(e.visits, b) || b in e.residue || b in e.leaked)
      && (forall b :: b in e.leaked ==> b in e.made && b in e.live && !Linked(e.visits, b) && b !in e.residue)
      && (forall v: Id, u: Id, b: Id :: LinkedTo(e.visits, v, b) && LinkedTo(e.visits, u, b) ==> v == u)
    ensures var e := Run(s, turns, clock);
      (forall b :: b in e.made && b in e.live ==> Linked(e.visits, b) || b in e.residue) <==> NeverLeaks(s, turns, clock)
  {
    InitialSound(s);
    RunSound(s, turns, clock);
    LeavesExactly(s, turns, clock);
    var e := Run(s, turns, clock);
    assert e.workers[0] in e.workers && e.workers[1] in e.workers;
    if !NeverLeaks(s, turns, clock) {
      var b :| b in e.leaked;
      assert b in e.made && b in e.live && !Linked(e.visits, b) && b !in e.residue;
    }
  }

  /** And every visit that shows a booking shows a live one, if and only if no unlink threw. */
  lemma VisitsShowLiveBookings(s: Sys, turns: seq<Turn>, clock: Clock)
    requires Initial(s) && Distinct(clock.order)
    requires forall me :: me in Run(s, turns, clock).workers ==> me.phase.Finished?
    ensures var e := Run(s, turns, clock);
      (forall v: Id, b: Id :: LinkedTo(e.visits, v, b) ==> b in e.live) <==> NeverForgets(s, turns, clock)
  {
    InitialSound(s);
    RunSound(s, turns, clock);
    LeavesExactly(s, turns, clock);
    var e := Run(s, turns, clock);
    assert e.workers[0] in e.workers && e.workers[1] in e.workers;
    if !NeverForgets(s, turns, clock) {
      var h :| h in e.stale;
      assert LinkedTo(e.visits, h.visit, h.booking) && h.booking !in e.live;
    }
  }
}
