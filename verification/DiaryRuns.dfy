/** Whole runs of the diary: any steps, in any order, by anybody, at any time. */
module DiaryRuns {
  import opened Basics
  import opened Lifecycle
  import opened Chain
  import opened Diary
  import opened DiaryProofs
  import opened DiaryChairs
  import Materialiser
  import S = SeriesDiary

  datatype Step =
    | DoPlace(place: PlaceRequest)
    | DoRelease(hold: Id)
    | DoSweep(now: int)
    | DoConfirm(confirm: ConfirmRequest, at: int)
    | DoTransition(booking: Id, to: Status, actor: Actor, hasReason: bool)
    | DoShift(shifted: Id, day: int, startMin: int)
    | DoMove(moved: Id, onto: Id, owesDeposit: bool, when: int)
    | DoMaterialise(series: S.Standing, seatDay: int, slot: Materialiser.Candidate)
    | DoSendLink(linked: Id)

  ghost function Apply(d: Diary, s: Step, units: Units): Diary {
    match s
    case DoPlace(q) => Place(d, q, units)
    case DoRelease(h) => Release(d, h)
    case DoSweep(now) => Sweep(d, now)
    case DoConfirm(q, at) => Confirm(d, q, at)
    case DoTransition(b, to, actor, hasReason) => Transition(d, b, to, actor, hasReason)
    case DoShift(b, day, startMin) => Shift(d, b, day, startMin)
    case DoMove(b, h, owes, when) => Move(d, b, h, owes, when)
    case DoMaterialise(v, day, c) => S.Materialise(d, v, day, c)
    case DoSendLink(b) => SendLink(d, b)
  }

  ghost function Run(d: Diary, steps: seq<Step>, units: Units): Diary
    decreases |steps|
  {
    if steps == [] then d else Run(Apply(d, steps[0], units), steps[1..], units)
  }

  lemma ApplySound(d: Diary, s: Step, units: Units)
    requires Sound(d)
    ensures Sound(Apply(d, s, units))
  {
    match s
    case DoPlace(q) => PlaceSound(d, q, units);
    case DoRelease(h) => DropHoldsSound(d, {h});
    case DoSweep(now) => DropHoldsSound(d, set h | h in d.holds && d.holds[h] <= now);
    case DoConfirm(q, at) => ConfirmSound(d, q, at);
    case DoTransition(b, to, actor, hasReason) => TransitionSound(d, b, to, actor, hasReason);
    case DoShift(b, day, startMin) => ShiftSound(d, b, day, startMin);
    case DoMove(b, h, owes, when) => MoveSound(d, b, h, owes, when);
    case DoMaterialise(v, day, c) => if S.Sellable(v) && !S.Taken(d.rows, v, day, c) { S.SeatSound(d, v, day, c); }
    case DoSendLink(b) => SendLinkSound(d, b);
  }

  lemma {:induction false} RunSound(d: Diary, steps: seq<Step>, units: Units)
    requires Sound(d)
    ensures Sound(Run(d, steps, units))
    decreases |steps|
  {
    if steps != [] {
      ApplySound(d, steps[0], units);
      RunSound(Apply(d, steps[0], units), steps[1..], units);
    }
  }

  /**
   * Over every run: no professional is ever in two places at one minute; every row has exactly one
   * owner, which exists; a visit that has not been released still holds its professional; and no
   * hold became two bookings.
   */
  lemma NobodyInTwoPlaces(steps: seq<Step>, units: Units, staff: Id, t: int)
    ensures var d := Run(EMPTY, steps, units);
      && InUse(d.rows, Person(staff), t) <= 1
      && (forall i :: i in d.rows ==> (d.rows[i].hold.Some? != d.rows[i].booking.Some?))
      && (forall i :: i in d.rows ==> (d.rows[i].hold.Some? ==> d.rows[i].hold.value in d.holds))
      && (forall i :: i in d.rows ==> (d.rows[i].booking.Some? ==> d.rows[i].booking.value in d.bookings))
      && (forall b :: b in d.bookings && d.bookings[b].status !in RELEASING ==> HasPerson(d, b))
      && (forall b, c :: b in d.bookings && c in d.bookings && d.bookings[b].origin == d.bookings[c].origin ==> b == c)
  {
    EmptySound();
    RunSound(EMPTY, steps, units);
    var d := Run(EMPTY, steps, units);
    SoundMeansOnePlace(d, staff, t);
    forall i | i in d.rows ensures Owned(d, d.rows[i]) {}
  }

  lemma SoundMeansOnePlace(d: Diary, staff: Id, t: int)
    requires RowsSound(d)
    ensures InUse(d.rows, Person(staff), t) <= 1
  {
    var here := Using(d.rows, Person(staff), t);
    forall i, j | i in here && j in here ensures i == j {
      assert Clash(d.rows[i], d.rows[j]);
    }
    CardAtMostOne(here);
  }

  // ------------------------------------------------------------------ chairs

  /** The two steps that count no chair: did they have one to spare? */
  ghost predicate StepHasRoom(d: Diary, s: Step, units: Units) {
    && (s.DoShift? && ShiftVerdict(d, s.shifted, s.day, s.startMin).Changed? ==>
          RoomToShift(d, s.shifted, s.day, s.startMin, units))
    && (s.DoMaterialise? && S.Sellable(s.series) && !S.Taken(d.rows, s.series, s.seatDay, s.slot) ==>
          S.RoomToSit(d.rows, s.series, s.seatDay, s.slot, units))
  }

  lemma ApplyWithinUnits(d: Diary, s: Step, units: Units)
    requires Sound(d) && WithinUnits(d.rows, units)
    ensures WithinUnits(Apply(d, s, units).rows, units) <==> StepHasRoom(d, s, units)
  {
    match s
    case DoPlace(q) => PlaceWithinUnits(d, q, units);
    case DoShift(b, day, startMin) =>
      if ShiftVerdict(d, b, day, startMin).Changed? { ShiftWithinUnits(d, b, day, startMin, units); }
    case DoMaterialise(v, day, c) =>
      if S.Sellable(v) && !S.Taken(d.rows, v, day, c) { S.SeatWithinUnits(d, v, day, c, units); }
    case _ =>
      NothingNewBlocks(d, s, units);
      FewerWithinUnits(Apply(d, s, units).rows, d.rows, units);
  }

  /** Only these three write rows; everything else hands over, unblocks or deletes. */
  lemma NothingNewBlocks(d: Diary, s: Step, units: Units)
    requires !s.DoPlace? && !s.DoShift? && !s.DoMaterialise?
    ensures NoMoreThan(Apply(d, s, units).rows, d.rows)
  {}

  /** Every diary the run passes through keeps every station within its units. */
  ghost predicate AlwaysWithin(d: Diary, steps: seq<Step>, units: Units)
    decreases |steps|
  {
    WithinUnits(d.rows, units) && (steps != [] ==> AlwaysWithin(Apply(d, steps[0], units), steps[1..], units))
  }

  /** Every shift and every materialised visit of the run had a unit to spare over its whole window. */
  ghost predicate StepsHaveRoom(d: Diary, steps: seq<Step>, units: Units)
    decreases |steps|
  {
    steps != [] ==> StepHasRoom(d, steps[0], units) && StepsHaveRoom(Apply(d, steps[0], units), steps[1..], units)
  }

  lemma {:induction false} WithinUnitsIffRoom(d: Diary, steps: seq<Step>, units: Units)
    requires Sound(d) && WithinUnits(d.rows, units)
    ensures AlwaysWithin(d, steps, units) <==> StepsHaveRoom(d, steps, units)
    decreases |steps|
  {
    if steps != [] {
      var e := Apply(d, steps[0], units);
      ApplySound(d, steps[0], units);
      ApplyWithinUnits(d, steps[0], units);
      if WithinUnits(e.rows, units) {
        WithinUnitsIffRoom(e, steps[1..], units);
      }
    }
  }

  /**
   * No station ever seats more than its units over a run, if and only if every shift, and every visit of
   * a series, had room.
   */
  lemma ChairsNeverOversold(steps: seq<Step>, units: Units)
    ensures AlwaysWithin(EMPTY, steps, units) <==> StepsHaveRoom(EMPTY, steps, units)
  {
    EmptySound();
    forall branch: Id, station: string, day: int, t: int
      ensures InUse(EMPTY.rows, Chair(branch, station, day), t) <= UnitsOf(units, branch, station)
    {
      assert Using(EMPTY.rows, Chair(branch, station, day), t) == {};
    }
    WithinUnitsIffRoom(EMPTY, steps, units);
  }

  // ------------------------------------------------------------------ what a shift is judged against

  /** A shift is refused only by somebody else's time: the booking's own rows never stand in its way. */
  lemma ShiftJudgedAgainstOthers(d: Diary, b: Id, day: int, startMin: int)
    requires Sound(d) && b in d.bookings && d.bookings[b].status in MOVABLE
    ensures ShiftVerdict(d, b, day, startMin).SlotTaken? <==>
      exists i :: i in d.rows && d.rows[i].booking != Some(b)
        && Meets(d.rows[i], Person(d.bookings[b].staff), Instant(day, startMin),
                 Instant(day, startMin) + d.bookings[b].durationMin)
  {
    var v := d.bookings[b];
    var from := Instant(day, startMin);
    var freed := Freed(d, b).rows;
    if i :| i in d.rows && d.rows[i].booking != Some(b) && Meets(d.rows[i], Person(v.staff), from, from + v.durationMin) {
      assert Meets(freed[i], Person(v.staff), from, from + v.durationMin);
    }
    if StaffBusy(freed, v.staff, from, from + v.durationMin) {
      var i :| i in freed && Meets(freed[i], Person(v.staff), from, from + v.durationMin);
      assert freed[i] == d.rows[i];
    }
  }

  /** After a place and a release, or an expiry, the rows are the very rows there were. */
  lemma ReleaseUndoesPlace(d: Diary, q: PlaceRequest, units: Units)
    requires Sound(d) && PlaceVerdict(d, q, units).Placed?
    ensures Release(Place(d, q, units), d.next) == d.(next := Place(d, q, units).next)
  {
    WithoutPlaced(d, q);
    assert d.next !in d.holds;
    assert d.holds[d.next := q.expiresAt] - {d.next} == d.holds;
  }

  lemma WithoutPlaced(d: Diary, q: PlaceRequest)
    requires RowsSound(d) && Fresh(d)
    ensures Without(PlaceWrite(d, q).rows, {d.next}) == d.rows
  {
    var left := Without(PlaceWrite(d, q).rows, {d.next});
    PlacedRowsAreItsOwn(d, q);
    forall i | i in d.rows ensures i in left && left[i] == d.rows[i] {
      assert Owned(d, d.rows[i]);
    }
    assert left.Keys == d.rows.Keys;
  }

  lemma PlacedRowsAreItsOwn(d: Diary, q: PlaceRequest)
    requires Fresh(d)
    ensures var e := PlaceWrite(d, q);
      && (forall i :: i in e.rows && i !in d.rows ==> e.rows[i].hold == Some(d.next))
      && (forall i :: i in d.rows ==> i in e.rows && e.rows[i] == d.rows[i])
  {}

  /** Ids are handed out in order, so the next one belongs to nothing yet. */
  ghost predicate Fresh(d: Diary) {
    (forall i :: i in d.rows ==> i < d.next) && d.next !in d.holds
  }

  // ------------------------------------------------------------------ keys

  lemma {:induction false} KeysNeverChange(d: Diary, steps: seq<Step>, units: Units, key: string)
    requires key in d.keys
    ensures key in Run(d, steps, units).keys && Run(d, steps, units).keys[key] == d.keys[key]
    decreases |steps|
  {
    if steps != [] {
      KeysNeverChange(Apply(d, steps[0], units), steps[1..], units, key);
    }
  }

  lemma HoldGoneStep(d: Diary, s: Step, units: Units, hold: Id)
    requires hold < d.next && hold !in d.holds
    ensures hold < Apply(d, s, units).next && hold !in Apply(d, s, units).holds
  {}

  /** A hold that a confirm spent, or that was deleted, never comes back: its id is never given out again. */
  lemma {:induction false} HoldStaysGone(d: Diary, steps: seq<Step>, units: Units, hold: Id)
    requires hold < d.next && hold !in d.holds
    ensures hold < Run(d, steps, units).next && hold !in Run(d, steps, units).holds
    decreases |steps|
  {
    if steps != [] {
      HoldGoneStep(d, steps[0], units, hold);
      HoldStaysGone(Apply(d, steps[0], units), steps[1..], units, hold);
    }
  }
}
