/**
 * A party, lane by lane. Checking in raises each lane on its own; cancelling first checks every lane
 * and only then cancels them, each in its own transaction. Either may be cut short after any lane, and
 * sending it again finishes the job.
 */
module Parties {
  import opened Basics
  import opened Lifecycle
  import opened CheckIn

  type Lanes = map<Id, Visit>

  // ------------------------------------------------------------------ which lanes

  function FirstUnknown(wanted: seq<Id>, lanes: seq<Id>): Option<Id> {
    if wanted == [] then None
    else if wanted[0] !in lanes then Some(wanted[0])
    else FirstUnknown(wanted[1..], lanes)
  }

  function Wanted(lanes: seq<Id>, wanted: seq<Id>): seq<Id> {
    if lanes == [] then []
    else (if lanes[0] in wanted then [lanes[0]] else []) + Wanted(lanes[1..], wanted)
  }

  /** Every lane when none are named; otherwise the named ones in party order, or nothing at all on a stranger. */
  function Pick(lanes: seq<Id>, wanted: seq<Id>): Result<seq<Id>> {
    if wanted == [] then Ok(lanes)
    else if FirstUnknown(wanted, lanes).Some? then Fail("Not a booking of this party")
    else Ok(Wanted(lanes, wanted))
  }

  lemma {:induction false} FirstUnknownExact(wanted: seq<Id>, lanes: seq<Id>)
    ensures FirstUnknown(wanted, lanes).None? <==> forall id :: id in wanted ==> id in lanes
  {
    if wanted != [] { FirstUnknownExact(wanted[1..], lanes); }
  }

  lemma {:induction false} WantedExact(lanes: seq<Id>, wanted: seq<Id>)
    ensures forall id :: id in Wanted(lanes, wanted) <==> id in lanes && id in wanted
  {
    if lanes != [] { WantedExact(lanes[1..], wanted); }
  }

  ghost predicate Before(s: seq<Id>, a: Id, b: Id) {
    exists i, j :: 0 <= i < j < |s| && s[i] == a && s[j] == b
  }

  lemma BeforeCons(x: Id, rest: seq<Id>, a: Id, b: Id)
    ensures Before([x] + rest, a, b) <==> (x == a && b in rest) || Before(rest, a, b)
  {
    var all := [x] + rest;
    if Before(all, a, b) {
      var i, j :| 0 <= i < j < |all| && all[i] == a && all[j] == b;
      assert rest[j - 1] == b;
      if i > 0 { assert rest[i - 1] == a; }
    }
    if x == a && b in rest {
      var j :| 0 <= j < |rest| && rest[j] == b;
      assert all[0] == a && all[j + 1] == b;
    }
    if Before(rest, a, b) {
      var i, j :| 0 <= i < j < |rest| && rest[i] == a && rest[j] == b;
      assert all[i + 1] == a && all[j + 1] == b;
    }
  }

  lemma {:induction false} WantedInOrder(lanes: seq<Id>, wanted: seq<Id>, a: Id, b: Id)
    requires Before(Wanted(lanes, wanted), a, b)
    ensures Before(lanes, a, b)
  {
    if lanes != [] {
      var rest := Wanted(lanes[1..], wanted);
      assert lanes == [lanes[0]] + lanes[1..];
      BeforeCons(lanes[0], lanes[1..], a, b);
      if lanes[0] in wanted {
        assert Wanted(lanes, wanted) == [lanes[0]] + rest;
        BeforeCons(lanes[0], rest, a, b);
        WantedExact(lanes[1..], wanted);
      } else {
        assert Wanted(lanes, wanted) == rest;
      }
      if Before(rest, a, b) { WantedInOrder(lanes[1..], wanted, a, b); }
    }
  }

  /**
   * Every lane when none are named; else exactly those named, in party order; or a refusal exactly when
   * one of them is not the party's.
   */
  lemma PickExact(lanes: seq<Id>, wanted: seq<Id>)
    ensures Pick(lanes, wanted).Ok? <==> forall id :: id in wanted ==> id in lanes
    ensures wanted == [] ==> Pick(lanes, wanted) == Ok(lanes)
    ensures Pick(lanes, wanted).Ok? ==> forall a, b :: Before(Pick(lanes, wanted).value, a, b) ==> Before(lanes, a, b)
    ensures Pick(lanes, wanted).Ok? && wanted != [] ==> forall id :: id in Pick(lanes, wanted).value <==> id in wanted
  {
    FirstUnknownExact(wanted, lanes);
    WantedExact(lanes, wanted);
    forall a, b | Before(Wanted(lanes, wanted), a, b) ensures Before(lanes, a, b) { WantedInOrder(lanes, wanted, a, b); }
  }

  // ------------------------------------------------------------------ checking in

  datatype LaneOutcome = Raised | StillWaiting | InAlready | Left | LaneRefused(why: RaiseVerdict)

  const ARRIVED: set<Status> := {CheckedIn, InService, Completed, Settled}
  const GONE: set<Status> := {Cancelled, NoShow, Rescheduled, Expired, Skipped}

  function OutcomeOf(v: Visit, now: int): LaneOutcome {
    match RaiseRule(v, now)
    case DoRaise => Raised
    case AlreadyWaiting => StillWaiting
    case NotConfirmed =>
      if v.status in ARRIVED then InAlready else if v.status in GONE then Left else LaneRefused(NotConfirmed)
    case why => LaneRefused(why)
  }

  /** A request's id is its place in the lane's list: lanes never share a booking, so that is new within one. */
  function RaiseLane(v: Visit, now: int): Visit {
    Step(v, Raise(|v.requests|, now))
  }

  function RaiseLanes(lanes: Lanes, order: seq<Id>, now: int): Lanes
    decreases |order|
  {
    if order == [] then lanes
    else if order[0] !in lanes then RaiseLanes(lanes, order[1..], now)
    else RaiseLanes(lanes[order[0] := RaiseLane(lanes[order[0]], now)], order[1..], now)
  }

  method RaiseParty(start: Lanes, order: seq<Id>, now: int) returns (lanes: Lanes, outcomes: seq<LaneOutcome>)
    requires forall id :: id in order ==> id in start
    requires forall i, j :: 0 <= i < j < |order| ==> order[i] != order[j]
    ensures lanes == RaiseLanes(start, order, now)
    ensures |outcomes| == |order| && forall i :: 0 <= i < |order| ==> outcomes[i] == OutcomeOf(start[order[i]], now)
  {
    lanes, outcomes := start, [];
    assert order[0..] == order;
    for i := 0 to |order|
      invariant |outcomes| == i && lanes.Keys == start.Keys
      invariant forall k :: 0 <= k < i ==> outcomes[k] == OutcomeOf(start[order[k]], now)
      invariant forall k :: i <= k < |order| ==> lanes[order[k]] == start[order[k]]
      invariant RaiseLanes(lanes, order[i..], now) == RaiseLanes(start, order, now)
    {
      assert order[i..][1..] == order[i + 1..];
      outcomes := outcomes + [OutcomeOf(lanes[order[i]], now)];
      lanes := lanes[order[i] := RaiseLane(lanes[order[i]], now)];
    }
    assert order[|order|..] == [];
  }

  /** Each lane is raised on its own: what happens to one depends on that lane and the clock alone. */
  lemma {:induction false} LaneByLane(lanes: Lanes, order: seq<Id>, now: int, id: Id)
    requires Distinct(order)
    ensures RaiseLanes(lanes, order, now).Keys == lanes.Keys
    ensures id in lanes ==>
      RaiseLanes(lanes, order, now)[id] == if id in order then RaiseLane(lanes[id], now) else lanes[id]
    decreases |order|
  {
    if order != [] {
      var rest := order[1..];
      assert Distinct(rest) by {
        forall i, j | 0 <= i < j < |rest| ensures rest[i] != rest[j] { assert order[i + 1] != order[j + 1]; }
      }
      assert order[0] !in rest by {
        forall i | 0 <= i < |rest| ensures rest[i] != order[0] { assert order[i + 1] != order[0]; }
      }
      LaneByLane(if order[0] in lanes then lanes[order[0] := RaiseLane(lanes[order[0]], now)] else lanes, rest, now, id);
    }
  }

  /** The same lane, but for the instants its requests were raised at. */
  ghost predicate SameLane(a: Visit, b: Visit) {
    && (a.status, a.startAt, a.endAt, a.desk, a.checkedInFor) == (b.status, b.startAt, b.endAt, b.desk, b.checkedInFor)
    && |a.requests| == |b.requests|
    && forall i :: 0 <= i < |a.requests| ==>
         a.requests[i].id == b.requests[i].id && a.requests[i].state == b.requests[i].state
  }

  /** Nothing but the clock stands in the way of a request. */
  predicate MayRaise(v: Visit) {
    var latest := Latest(v.requests);
    && v.status == Confirmed && WaitingAt(v.requests).None?
    && (latest.Some? ==> latest.value.state != Waiting && latest.value.state != Rejected)
  }

  predicate InWindow(v: Visit, now: int) {
    v.startAt - OPENS_BEFORE <= now < v.endAt
  }

  lemma RaiseLaneExact(v: Visit, now: int)
    ensures RaiseLane(v, now) ==
      if MayRaise(v) && InWindow(v, now) then v.(requests := v.requests + [Request(|v.requests|, now, Waiting)]) else v
  {}

  lemma RaisedMayNot(v: Visit, now: int)
    requires MayRaise(v) && InWindow(v, now)
    ensures !MayRaise(RaiseLane(v, now))
  {
    assert RaiseLane(v, now).requests[|v.requests|].state == Waiting;
  }

  /** A second tap changes nothing, unless the window opened, or the clock came into it, after the first. */
  lemma RaiseTwiceIsOnce(v: Visit, now: int, later: int)
    ensures RaiseLane(RaiseLane(v, now), later) == RaiseLane(v, now)
      <==> !(MayRaise(v) && !InWindow(v, now) && InWindow(v, later))
  {
    RaiseLaneExact(v, now);
    RaiseLaneExact(RaiseLane(v, now), later);
    if MayRaise(v) && InWindow(v, now) { RaisedMayNot(v, now); }
  }

  /**
   * A party check-in cut short after any lane and sent again, with nobody else acting: a lane ends in
   * the state it would have had without the cut if and only if the window did not open for it between
   * the two tries nor, for a lane the first try did not reach, close.
   */
  lemma InterruptedCheckInFinishes(lanes: Lanes, order: seq<Id>, cut: nat, now: int, later: int, id: Id)
    requires Distinct(order) && cut <= |order| && id in lanes
    ensures var half := RaiseLanes(lanes, order[..cut], now); var v := lanes[id];
      && id in half && id in RaiseLanes(half, order, later) && id in RaiseLanes(lanes, order, now)
      && (SameLane(RaiseLanes(half, order, later)[id], RaiseLanes(lanes, order, now)[id]) <==>
            (id in order && MayRaise(v) ==>
               && (InWindow(v, later) ==> InWindow(v, now))
               && (id !in order[..cut] && InWindow(v, now) ==> InWindow(v, later))))
  {
    var half, v := RaiseLanes(lanes, order[..cut], now), lanes[id];
    LaneByLane(lanes, order[..cut], now, id);
    LaneByLane(half, order, later, id);
    LaneByLane(lanes, order, now, id);
    RaiseLaneExact(v, now);
    RaiseLaneExact(v, later);
    if id in order[..cut] {
      assert id in order;
      RaiseLaneExact(RaiseLane(v, now), later);
      if MayRaise(v) && InWindow(v, now) { RaisedMayNot(v, now); }
    }
  }

  // ------------------------------------------------------------------ the party's one answer

  datatype PartyAnswer = Created | AllWaiting | PartyRefused(why: RaiseVerdict) | NothingDone

  predicate Has(outcomes: seq<LaneOutcome>, o: LaneOutcome) { o in outcomes }

  function AnswerOf(outcomes: seq<LaneOutcome>): PartyAnswer {
    if Has(outcomes, Raised) then Created
    else if Has(outcomes, StillWaiting) then AllWaiting
    else if outcomes != [] && outcomes[0].LaneRefused? && (forall i :: 0 <= i < |outcomes| ==> outcomes[i] == outcomes[0])
    then PartyRefused(outcomes[0].why)
    else NothingDone
  }

  /** A lane is told what is so: new, waiting already, in, gone, or why not. */
  lemma OutcomeMeans(v: Visit, now: int)
    requires Sound(v) && InOrder(v.requests)
    ensures var o := OutcomeOf(v, now); var latest := Latest(v.requests);
      var waits := latest.Some? && latest.value.state == Waiting;
      var refused := latest.Some? && latest.value.state == Rejected;
      && (o == Raised <==> v.status == Confirmed && !waits && !refused && v.startAt - 30 <= now < v.endAt)
      && (o == StillWaiting <==> v.status == Confirmed && waits)
      && (o == InAlready <==> v.status in {CheckedIn, InService, Completed, Settled})
      && (o == Left <==> v.status in {Cancelled, NoShow, Rescheduled, Expired, Skipped})
      && (o == LaneRefused(RejectedBefore) <==> v.status == Confirmed && refused)
      && (o == LaneRefused(TooEarly) <==> v.status == Confirmed && !waits && !refused && now < v.startAt - 30)
      && (o == LaneRefused(NotConfirmed) <==> v.status in {Draft, Held, PendingPayment, PendingConfirmation})
  {}

  ghost predicate AllRefusedFor(outcomes: seq<LaneOutcome>, why: RaiseVerdict) {
    outcomes != [] && forall o :: o in outcomes ==> o == LaneRefused(why)
  }

  /**
   * The party hears of something new if a lane raised; else that it waits if one does; else the one
   * reason all its lanes were refused for; and else that there was nothing to do.
   */
  lemma AnswerMeans(outcomes: seq<LaneOutcome>)
    ensures var a := AnswerOf(outcomes);
      && (a == Created <==> Raised in outcomes)
      && (a == AllWaiting <==> Raised !in outcomes && StillWaiting in outcomes)
      && (a.PartyRefused? <==> exists why :: AllRefusedFor(outcomes, why))
      && (a.PartyRefused? ==> AllRefusedFor(outcomes, a.why))
      && (a == NothingDone <==> !(a == Created || a == AllWaiting || a.PartyRefused?))
  {
    var a := AnswerOf(outcomes);
    if a.PartyRefused? { assert AllRefusedFor(outcomes, a.why); }
    if why :| AllRefusedFor(outcomes, why) {
      assert outcomes[0] in outcomes;
      forall i | 0 <= i < |outcomes| ensures outcomes[i] == outcomes[0] { assert outcomes[i] in outcomes; }
    }
  }

  /** The party is told of something new exactly when some lane has a new request for the desk. */
  lemma CreatedMeansNewRequest(start: Lanes, order: seq<Id>, now: int, outcomes: seq<LaneOutcome>)
    requires Distinct(order) && (forall id :: id in order ==> id in start && Sound(start[id]))
    requires |outcomes| == |order| && forall i :: 0 <= i < |order| ==> outcomes[i] == OutcomeOf(start[order[i]], now)
    requires forall id :: id in order ==> InOrder(start[id].requests)
    ensures AnswerOf(outcomes).Created? <==>
      exists i :: 0 <= i < |order| && |RaiseLane(start[order[i]], now).requests| > |start[order[i]].requests|
  {
    forall i | 0 <= i < |order|
      ensures outcomes[i] == Raised <==> |RaiseLane(start[order[i]], now).requests| > |start[order[i]].requests|
    {
      var v := start[order[i]];
      WaitingAtExact(v.requests);
    }
    if Has(outcomes, Raised) {
      var i :| 0 <= i < |outcomes| && outcomes[i] == Raised;
      assert |RaiseLane(start[order[i]], now).requests| > |start[order[i]].requests|;
    }
  }

  // ------------------------------------------------------------------ cancelling

  type Statuses = map<Id, Status>

  predicate MayCancel(s: Status) {
    Check(s, Cancelled, Customer, true).Allowed?
  }

  /** The lanes still in the party, as the request finds them. */
  function LiveLanes(statuses: Statuses, order: seq<Id>): seq<Id> {
    if order == [] then []
    else
      (if order[0] in statuses && statuses[order[0]] !in GONE then [order[0]] else []) + LiveLanes(statuses, order[1..])
  }

  function FirstStuck(statuses: Statuses, live: seq<Id>): Option<Id> {
    if live == [] then None
    else if live[0] in statuses && !MayCancel(statuses[live[0]]) then Some(live[0])
    else FirstStuck(statuses, live[1..])
  }

  function CancelLanes(statuses: Statuses, live: seq<Id>): Statuses
    decreases |live|
  {
    if live == [] then statuses
    else
      CancelLanes(if live[0] in statuses && MayCancel(statuses[live[0]]) then statuses[live[0] := Cancelled] else statuses,
                  live[1..])
  }

  datatype CancelAnswer = CancelledAll | RefusedWhole(lane: Id) | CutShort

  /** One request: refused whole, or every live lane up to where it is cut short. */
  method CancelParty(start: Statuses, order: seq<Id>, cut: Option<nat>) returns (statuses: Statuses, answer: CancelAnswer)
    ensures var live := LiveLanes(start, order);
      if FirstStuck(start, live).Some? then statuses == start && answer == RefusedWhole(FirstStuck(start, live).value)
      else if cut.Some? && cut.value < |live| then statuses == CancelLanes(start, live[..cut.value]) && answer == CutShort
      else statuses == CancelLanes(start, live) && answer == CancelledAll
  {
    var live := LiveLanes(start, order);
    statuses := start;
    for i := 0 to |live|
      invariant FirstStuck(start, live) == FirstStuck(start, live[i..])
    {
      assert live[i..][1..] == live[i + 1..];
      if live[i] in start && !MayCancel(start[live[i]]) {
        return start, RefusedWhole(live[i]);
      }
    }
    for i := 0 to |live|
      invariant cut.Some? ==> i <= cut.value
      invariant CancelLanes(start, live[..i]) == statuses
    {
      if cut == Some(i) { return statuses, CutShort; }
      CancelOneMore(start, live, i);
      if live[i] in statuses && MayCancel(statuses[live[i]]) {
        statuses := statuses[live[i] := Cancelled];
      }
    }
    assert live[..|live|] == live;
    answer := CancelledAll;
  }

  lemma {:induction false} CancelOneMore(statuses: Statuses, live: seq<Id>, i: nat)
    requires i < |live|
    ensures var s := CancelLanes(statuses, live[..i]);
      CancelLanes(statuses, live[..i + 1])
      == if live[i] in s && MayCancel(s[live[i]]) then s[live[i] := Cancelled] else s
    decreases i
  {
    if i > 0 {
      var next := if live[0] in statuses && MayCancel(statuses[live[0]]) then statuses[live[0] := Cancelled] else statuses;
      assert live[..i][1..] == live[1..][..i - 1] && live[..i + 1][1..] == live[1..][..i];
      CancelOneMore(next, live[1..], i - 1);
    }
  }

  lemma {:induction false} CancelLanesExact(statuses: Statuses, live: seq<Id>, id: Id)
    ensures CancelLanes(statuses, live).Keys == statuses.Keys
    ensures id in statuses ==>
      CancelLanes(statuses, live)[id] == if id in live && MayCancel(statuses[id]) then Cancelled else statuses[id]
    decreases |live|
  {
    if live != [] {
      var next := if live[0] in statuses && MayCancel(statuses[live[0]]) then statuses[live[0] := Cancelled] else statuses;
      CancelLanesExact(next, live[1..], id);
    }
  }

  lemma {:induction false} LiveLanesExact(statuses: Statuses, order: seq<Id>, id: Id)
    ensures id in LiveLanes(statuses, order) <==> id in order && id in statuses && statuses[id] !in GONE
  {
    if order != [] { LiveLanesExact(statuses, order[1..], id); }
  }

  lemma {:induction false} FirstStuckExact(statuses: Statuses, live: seq<Id>)
    ensures FirstStuck(statuses, live).None? <==> forall id :: id in live && id in statuses ==> MayCancel(statuses[id])
  {
    if live != [] { FirstStuckExact(statuses, live[1..]); }
  }

  /** What a whole cancel leaves: every lane of the party gone, by this request or before it. */
  function WholeCancel(statuses: Statuses, order: seq<Id>): Statuses {
    CancelLanes(statuses, LiveLanes(statuses, order))
  }

  lemma MayCancelIff(s: Status)
    ensures MayCancel(s) <==> s in {Confirmed, PendingPayment}
  {}

  /** A lane that is not gone and is past what its customer may cancel. */
  predicate PastCancelling(s: Status) {
    s !in {Cancelled, NoShow, Rescheduled, Expired, Skipped} && s !in {Confirmed, PendingPayment}
  }

  /** A cancel is refused whole if and only if some lane that is not gone is past cancelling. */
  lemma RefusedWholeIff(statuses: Statuses, order: seq<Id>)
    ensures FirstStuck(statuses, LiveLanes(statuses, order)).Some? <==>
      exists id :: id in order && id in statuses && PastCancelling(statuses[id])
  {
    var live := LiveLanes(statuses, order);
    FirstStuckExact(statuses, live);
    forall id | id in statuses ensures id in live && !MayCancel(statuses[id]) <==> id in order && PastCancelling(statuses[id]) {
      LiveLanesExact(statuses, order, id);
      MayCancelIff(statuses[id]);
    }
  }

  lemma WholeCancelEmptiesTheParty(statuses: Statuses, order: seq<Id>, id: Id)
    requires FirstStuck(statuses, LiveLanes(statuses, order)).None? && id in order && id in statuses
    ensures id in WholeCancel(statuses, order) && WholeCancel(statuses, order)[id] in GONE
    ensures WholeCancel(statuses, order)[id] == if statuses[id] in GONE then statuses[id] else Cancelled
  {
    LiveLanesExact(statuses, order, id);
    FirstStuckExact(statuses, LiveLanes(statuses, order));
    CancelLanesExact(statuses, LiveLanes(statuses, order), id);
  }

  /**
   * A cancel cut short after any lane and sent again is not refused, and leaves exactly what one that
   * was never cut short leaves.
   */
  lemma InterruptedCancelFinishes(statuses: Statuses, order: seq<Id>, cut: nat)
    requires FirstStuck(statuses, LiveLanes(statuses, order)).None? && cut <= |LiveLanes(statuses, order)|
    ensures var half := CancelLanes(statuses, LiveLanes(statuses, order)[..cut]);
      && FirstStuck(half, LiveLanes(half, order)).None?
      && WholeCancel(half, order) == WholeCancel(statuses, order)
  {
    var live := LiveLanes(statuses, order);
    var half := CancelLanes(statuses, live[..cut]);
    FirstStuckExact(statuses, live);
    FirstStuckExact(half, LiveLanes(half, order));
    CancelLanesExact(statuses, live[..cut], 0);
    CancelLanesExact(statuses, live, 0);
    CancelLanesExact(half, LiveLanes(half, order), 0);
    forall id | id in statuses
      ensures id in LiveLanes(half, order) ==> MayCancel(half[id])
      ensures WholeCancel(half, order)[id] == WholeCancel(statuses, order)[id]
    {
      LiveLanesExact(statuses, order, id);
      LiveLanesExact(half, order, id);
      CancelLanesExact(statuses, live[..cut], id);
      CancelLanesExact(statuses, live, id);
      CancelLanesExact(half, LiveLanes(half, order), id);
      if id in live[..cut] { assert id in live; }
    }
  }
}
