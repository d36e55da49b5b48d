/**
 * The hourly job on one routine, run by two copies of the service at once. Each copy is a worker
 * that reads the routine once and then goes on from what it read; a schedule picks, store call by
 * store call, which worker moves next and how the calls that may fail turn out.
 */
module RoutineJob {
  import opened Basics

  datatype VisitState = Planned | NeedsAttention | Materialised

  datatype Visit = Visit(state: VisitState, booking: Option<Id>)

  /** The events the job writes under ids of its own. */
  datatype EventId = NeedsAction(visit: Id) | Reminder(of: Id)

  datatype Held = Held(visit: Id, booking: Id)

  /**
   * Where a worker is. In `Unlinking` it has given a visit's booking back and still has to unlink it;
   * in `Claimed` it owns the visit's mark; in `InHand` it has booked the visit and has to link it; in
   * `GivingBack` the link did not happen and the booking has to go.
   */
  datatype Phase =
    | Idle | Reading | Ready
    | Releasing | Unlinking(gone: Held)
    | Booking | Claimed(visit: Id) | InHand(made: Held) | GivingBack(orphan: Held, note: bool) | Noting(lost: Id)
    | Reminding | Finished

  datatype Worker = Worker(phase: Phase, release: seq<Held>, far: seq<Id>, remind: seq<Id>)

  /** How booking one session turns out. A create that wrote its booking may still throw after that. */
  datatype Create = NotFree | Made | ThrewAfterWriting

  /** What the outside world answers at one step. */
  datatype Luck = Luck(
    missed: bool /* the last two visits that count were both missed */, create: Create, cancelled: bool,
    linkThrows: bool, throws: bool /* a call nobody but the routine's own catch looks after */)

  datatype Claim = Claim(worker: nat, visit: Id)

  datatype Cancel = Cancel(worker: nat, booking: Id)

  datatype Sys = Sys(
    active: bool, resumeDue: bool, visits: map<Id, Visit>, live: set<Id>, next: Id, events: seq<EventId>,
    workers: seq<Worker>,
    // History, for the statements: who paused, claimed and cancelled what, which bookings the job
    // made, which of them it could not give back, which it never learned of, and which visits it
    // left showing a booking it had cancelled.
    winner: Option<nat>, claims: seq<Claim>, cancels: seq<Cancel>, made: set<Id>, residue: set<Id>,
    leaked: set<Id>, stale: set<Held>)

  /** Which visits the clock puts inside the horizon, past the 24 hour lock, and in reminder time. */
  datatype Clock = Clock(order: seq<Id>, due: set<Id>, movable: set<Id>, remind: set<Id>)

  const OPEN := Visit(Planned, None)

  predicate Claimable(s: Sys, v: Id) {
    v in s.visits && s.visits[v] == OPEN
  }

  function FarVisits(order: seq<Id>, visits: map<Id, Visit>, due: set<Id>): seq<Id> {
    if order == [] then []
    else
      var rest := FarVisits(order[1..], visits, due);
      var v := order[0];
      if v in visits && v in due && visits[v] == OPEN then [v] + rest else rest
  }

  function HeldVisits(order: seq<Id>, visits: map<Id, Visit>, movable: set<Id>): seq<Held> {
    if order == [] then []
    else
      var rest := HeldVisits(order[1..], visits, movable);
      var v := order[0];
      if v in visits && v in movable && visits[v].booking.Some? then [Held(v, visits[v].booking.value)] + rest else rest
  }

  function Reminders(order: seq<Id>, remind: set<Id>): seq<Id> {
    if order == [] then []
    else (if order[0] in remind then [order[0]] else []) + Reminders(order[1..], remind)
  }

  /** An id already in the outbox is skipped by the database. */
  function Write(events: seq<EventId>, e: EventId): seq<EventId> {
    if e in events then events else events + [e]
  }

  function With(s: Sys, w: nat, worker: Worker): Sys
    requires w < |s.workers|
  {
    s.(workers := s.workers[w := worker])
  }

  /** A pause whose date has come ends by itself, claimed in one update. */
  function Resume(s: Sys, w: nat): Sys
    requires w < |s.workers|
  {
    With(s.(active := s.active || s.resumeDue, resumeDue := false), w, s.workers[w].(phase := Reading))
  }

  function Read(s: Sys, w: nat, clock: Clock): Sys
    requires w < |s.workers|
  {
    With(s, w, Worker(if s.active then Ready else Reminding, HeldVisits(clock.order, s.visits, clock.movable),
                      FarVisits(clock.order, s.visits, clock.due), Reminders(clock.order, clock.remind)))
  }

  /** Only an active routine pauses, and only once; the loser goes on to the far visits. */
  function Pause(s: Sys, w: nat, missed: bool): Sys
    requires w < |s.workers|
  {
    if missed && s.active then
      With(s.(active := false, resumeDue := false, winner := Some(w)), w, s.workers[w].(phase := Releasing, far := []))
    else With(s, w, s.workers[w].(phase := Booking))
  }

  function ReleaseNext(s: Sys, w: nat, cancelled: bool): Sys
    requires w < |s.workers|
  {
    var me := s.workers[w];
    if me.release == [] then With(s, w, me.(phase := Reminding))
    else
      var h := me.release[0];
      if cancelled && h.booking in s.live then
        With(s.(live := s.live - {h.booking}, cancels := s.cancels + [Cancel(w, h.booking)]), w,
             me.(phase := Unlinking(h), release := me.release[1..]))
      else With(s, w, me.(release := me.release[1..]))
  }

  function Unlink(s: Sys, w: nat): Sys
    requires w < |s.workers| && s.workers[w].phase.Unlinking?
  {
    var v := s.workers[w].phase.gone.visit;
    With(if v in s.visits then s.(visits := s.visits[v := OPEN]) else s, w, s.workers[w].(phase := Releasing))
  }

  function ClaimNext(s: Sys, w: nat): Sys
    requires w < |s.workers|
  {
    var me := s.workers[w];
    if me.far == [] then With(s, w, me.(phase := Reminding))
    else
      var v := me.far[0];
      if Claimable(s, v) then
        With(s.(visits := s.visits[v := Visit(NeedsAttention, None)], claims := s.claims + [Claim(w, v)]), w,
             me.(phase := Claimed(v), far := me.far[1..]))
      else With(s, w, me.(far := me.far[1..]))
  }

  /** A create that throws is taken for a slot that was not free, whatever it had written by then. */
  function Book(s: Sys, w: nat, create: Create): Sys
    requires w < |s.workers| && s.workers[w].phase.Claimed?
  {
    var me := s.workers[w];
    var written := s.(live := s.live + {s.next}, made := s.made + {s.next}, next := s.next + 1);
    match create
    case NotFree => With(s, w, me.(phase := Noting(me.phase.visit)))
    case Made => With(written, w, me.(phase := InHand(Held(me.phase.visit, s.next))))
    case ThrewAfterWriting => With(written.(leaked := s.leaked + {s.next}), w, me.(phase := Noting(me.phase.visit)))
  }

  /** Linked only if the visit still has nothing booked; otherwise the booking goes back. */
  function Link(s: Sys, w: nat, throws: bool): Sys
    requires w < |s.workers| && s.workers[w].phase.InHand?
  {
    var me := s.workers[w];
    var h := me.phase.made;
    if !throws && h.visit in s.visits && s.visits[h.visit].booking.None? && !s.visits[h.visit].state.Materialised? then
      With(s.(visits := s.visits[h.visit := Visit(Materialised, Some(h.booking))]), w, me.(phase := Booking))
    else With(s, w, me.(phase := GivingBack(h, throws)))
  }

  function GiveBack(s: Sys, w: nat, cancelled: bool): Sys
    requires w < |s.workers| && s.workers[w].phase.GivingBack?
  {
    var me := s.workers[w];
    var h := me.phase.orphan;
    var after := me.(phase := if me.phase.note then Noting(h.visit) else Booking);
    if cancelled then
      With(s.(live := s.live - {h.booking}, cancels := s.cancels + [Cancel(w, h.booking)]), w, after)
    else With(s.(residue := s.residue + {h.booking}), w, after)
  }

  function Remind(s: Sys, w: nat): Sys
    requires w < |s.workers|
  {
    var me := s.workers[w];
    if me.remind == [] then With(s, w, me.(phase := Finished))
    else With(s.(events := Write(s.events, Reminder(me.remind[0]))), w, me.(remind := me.remind[1..]))
  }

  /** The phases whose call only the routine's own catch looks after. */
  predicate MayAbort(p: Phase) {
    p.Idle? || p.Reading? || p.Ready? || p.Unlinking? || p.Booking? || p.Noting? || p.Reminding?
  }

  /** The catch ends the routine for this copy; a booking cancelled but not yet unlinked stays on its visit. */
  function Abort(s: Sys, w: nat): Sys
    requires w < |s.workers|
  {
    var p := s.workers[w].phase;
    With(if p.Unlinking? then s.(stale := s.stale + {p.gone}) else s, w, s.workers[w].(phase := Finished))
  }

  /** One store call of worker `w`. */
  function Step(s: Sys, w: nat, clock: Clock, luck: Luck): Sys {
    if w >= |s.workers| then s
    else if luck.throws && MayAbort(s.workers[w].phase) then Abort(s, w)
    else
      match s.workers[w].phase
      case Idle => Resume(s, w)
      case Reading => Read(s, w, clock)
      case Ready => Pause(s, w, luck.missed)
      case Releasing => ReleaseNext(s, w, luck.cancelled)
      case Unlinking(_) => Unlink(s, w)
      case Booking => ClaimNext(s, w)
      case Claimed(_) => Book(s, w, luck.create)
      case InHand(_) => Link(s, w, luck.linkThrows)
      case GivingBack(_, _) => GiveBack(s, w, luck.cancelled)
      case Noting(v) => With(s.(events := Write(s.events, NeedsAction(v))), w, s.workers[w].(phase := Booking))
      case Reminding => Remind(s, w)
      case Finished => s
  }

  datatype Turn = Turn(worker: nat, luck: Luck)

  function Run(s: Sys, turns: seq<Turn>, clock: Clock): Sys
    decreases |turns|
  {
    if turns == [] then s else Run(Step(s, turns[0].worker, clock, turns[0].luck), turns[1..], clock)
  }
}
