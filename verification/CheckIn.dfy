/**
 * "I have arrived": a customer's check-in requests on one booking, and everything that can happen to
 * them. An approval first runs the ordinary check-in, in a transaction of its own, and only then marks
 * the request; it holds the request's row meanwhile, so nothing else can answer it.
 */
module CheckIn {
  import opened Basics
  import opened Lifecycle

  const OPENS_BEFORE := 30

  datatype RequestState = Waiting | Approved | Rejected | LapsedExpired | LapsedClosed | Withdrawn

  datatype Request = Request(id: Id, raisedAt: int, state: RequestState)

  /** An approval between its check-in and its mark, on the request at an index. */
  datatype Desk = Free | Marking(index: nat)

  datatype Visit = Visit(
    status: Status, startAt: int, endAt: int, requests: seq<Request>, desk: Desk,
    checkedInFor: set<nat> /* the requests an approval's own check-in went through for */)

  // ------------------------------------------------------------------ the rules

  predicate Newer(a: Request, b: Request) {
    a.raisedAt > b.raisedAt || (a.raisedAt == b.raisedAt && a.id > b.id)
  }

  /** The latest by the clock, ties by id: what the row lock reads, not what was written last. */
  function Latest(requests: seq<Request>): Option<Request> {
    if requests == [] then None
    else
      var rest := Latest(requests[..|requests| - 1]);
      var last := requests[|requests| - 1];
      if rest.Some? && Newer(rest.value, last) then rest else Some(last)
  }

  datatype RaiseVerdict = DoRaise | AlreadyWaiting | NotConfirmed | RejectedBefore | TooEarly | TooLate

  function RaiseRule(v: Visit, now: int): RaiseVerdict {
    var latest := Latest(v.requests);
    if v.status != Confirmed then NotConfirmed
    else if latest.Some? && latest.value.state == Waiting then AlreadyWaiting
    else if latest.Some? && latest.value.state == Rejected then RejectedBefore
    else if now < v.startAt - OPENS_BEFORE then TooEarly
    else if now >= v.endAt then TooLate
    else DoRaise
  }

  function Lapse(v: Visit, now: int): Option<RequestState> {
    if v.status != Confirmed then Some(LapsedClosed)
    else if now >= v.endAt then Some(LapsedExpired)
    else None
  }

  function WaitingAt(requests: seq<Request>): Option<nat> {
    if requests == [] then None
    else if requests[|requests| - 1].state == Waiting then Some(|requests| - 1)
    else WaitingAt(requests[..|requests| - 1])
  }

  lemma {:induction false} WaitingAtExact(requests: seq<Request>)
    ensures WaitingAt(requests).None? <==> forall i :: 0 <= i < |requests| ==> requests[i].state != Waiting
    ensures WaitingAt(requests).Some? ==>
      WaitingAt(requests).value < |requests| && requests[WaitingAt(requests).value].state == Waiting
  {
    if requests != [] && requests[|requests| - 1].state != Waiting {
      WaitingAtExact(requests[..|requests| - 1]);
    }
  }

  function SetState(requests: seq<Request>, i: nat, state: RequestState): seq<Request>
    requires i < |requests|
  {
    requests[i := requests[i].(state := state)]
  }

  // ------------------------------------------------------------------ the steps

  datatype Event =
    | Raise(id: Id, now: int)
    | LapseJob(at: int)
    | ApproveCheckIn(when: int, chairFree: bool)
    | ApproveMark
    | ApproveLost
    | Reject(hasReason: bool)
    | Withdraw(moment: int)
    | Move(to: Status, actor: Actor, reason: bool)

  /** Ends the waiting request, if there is one and no approval holds it. */
  function EndWaiting(v: Visit, state: RequestState): Visit {
    var w := WaitingAt(v.requests);
    WaitingAtExact(v.requests);
    if w.None? || v.desk.Marking? then v else v.(requests := SetState(v.requests, w.value, state))
  }

  function Step(v: Visit, e: Event): Visit {
    match e
    case Raise(id, now) =>
      // The unique index on waiting requests has the last word.
      if RaiseRule(v, now).DoRaise? && WaitingAt(v.requests).None? then
        v.(requests := v.requests + [Request(id, now, Waiting)])
      else v
    case LapseJob(at) => if Lapse(v, at).Some? then EndWaiting(v, Lapse(v, at).value) else v
    case ApproveCheckIn(when, chairFree) =>
      var w := WaitingAt(v.requests);
      if w.None? || v.desk.Marking? || !chairFree then v
      else if v.status != Confirmed || when < v.startAt - OPENS_BEFORE then v
      else v.(status := CheckedIn, desk := Marking(w.value), checkedInFor := v.checkedInFor + {w.value})
    case ApproveMark =>
      if v.desk.Marking? && v.desk.index < |v.requests| then
        v.(requests := SetState(v.requests, v.desk.index, Approved), desk := Free)
      else v
    case ApproveLost => v.(desk := Free)
    case Reject(hasReason) => if hasReason then EndWaiting(v, Rejected) else v
    case Withdraw(moment) =>
      EndWaiting(v, if Lapse(v, moment).Some? then Lapse(v, moment).value else Withdrawn)
    case Move(to, actor, reason) =>
      if Check(v.status, to, actor, reason).Allowed? then v.(status := to) else v
  }

  function Run(v: Visit, events: seq<Event>): Visit
    decreases |events|
  {
    if events == [] then v else Run(Step(v, events[0]), events[1..])
  }

  // ------------------------------------------------------------------ what every run keeps

  ghost predicate Sound(v: Visit) {
    && (forall i, j :: 0 <= i < j < |v.requests| ==> !(v.requests[i].state == Waiting && v.requests[j].state == Waiting))
    && (forall i :: 0 <= i < |v.requests| && v.requests[i].state == Approved ==> i in v.checkedInFor)
    && (v.desk.Marking? ==> v.desk.index < |v.requests| && v.requests[v.desk.index].state == Waiting
                            && v.desk.index in v.checkedInFor)
  }

  lemma StepSound(v: Visit, e: Event)
    requires Sound(v)
    ensures Sound(Step(v, e))
  {
    WaitingAtExact(v.requests);
  }

  /** At most one request waits, and a request is approved only after its own check-in went through. */
  lemma {:induction false} RunSound(v: Visit, events: seq<Event>)
    requires Sound(v)
    ensures Sound(Run(v, events))
    decreases |events|
  {
    if events != [] {
      StepSound(v, events[0]);
      RunSound(Step(v, events[0]), events[1..]);
    }
  }

  /** An answered request never changes, and requests are never lost or reordered. */
  lemma {:induction false} AnswersStand(v: Visit, events: seq<Event>, i: nat)
    requires Sound(v) && i < |v.requests| && v.requests[i].state != Waiting
    ensures i < |Run(v, events).requests| && Run(v, events).requests[i] == v.requests[i]
    decreases |events|
  {
    if events != [] {
      WaitingAtExact(v.requests);
      StepSound(v, events[0]);
      AnswersStand(Step(v, events[0]), events[1..], i);
    }
  }

  // ------------------------------------------------------------------ no second try after a rejection

  predicate NobodyWaits(requests: seq<Request>) {
    forall i :: 0 <= i < |requests| ==> requests[i].state != Waiting
  }

  lemma {:induction false} LatestIsNewest(requests: seq<Request>)
    ensures requests == [] <==> Latest(requests).None?
    ensures requests != [] ==>
      Latest(requests).value in requests && forall i :: 0 <= i < |requests| ==> !Newer(requests[i], Latest(requests).value)
  {
    if requests != [] { LatestIsNewest(requests[..|requests| - 1]); }
  }

  lemma LatestOfMore(requests: seq<Request>, r: Request)
    ensures Latest(requests + [r]) ==
      if Latest(requests).Some? && Newer(Latest(requests).value, r) then Latest(requests) else Some(r)
  {
    assert (requests + [r])[..|requests|] == requests;
  }

  /** Once the latest is a rejected one, no run ever adds a request or changes one, whatever the clock does. */
  lemma {:induction false} RejectionStands(v: Visit, events: seq<Event>)
    requires Sound(v) && NobodyWaits(v.requests) && Latest(v.requests).Some? && Latest(v.requests).value.state == Rejected
    ensures Run(v, events).requests == v.requests
    decreases |events|
  {
    if events != [] {
      WaitingAtExact(v.requests);
      StepSound(v, events[0]);
      assert Step(v, events[0]).requests == v.requests;
      RejectionStands(Step(v, events[0]), events[1..]);
    }
  }

  /** The visit after its customer raised a request that was then rejected. */
  function RaisedAndRejected(v: Visit, id: Id, now: int): Visit {
    Step(Step(v, Raise(id, now)), Reject(true))
  }

  lemma RaisedThenRejected(v: Visit, id: Id, now: int)
    requires RaiseRule(v, now).DoRaise? && NobodyWaits(v.requests) && v.desk.Free?
    ensures RaisedAndRejected(v, id, now) == v.(requests := v.requests + [Request(id, now, Rejected)])
  {
    WaitingAtExact(v.requests);
    var more := v.requests + [Request(id, now, Waiting)];
    WaitingAtExact(more);
    assert WaitingAt(more) == Some(|v.requests|);
    assert more[|v.requests| := Request(id, now, Rejected)] == v.requests + [Request(id, now, Rejected)];
  }

  /**
   * A rejection is final if and only if the request it answered was not older, by the clock and then by
   * id, than the one before it: only then is it the one the next raise reads.
   */
  lemma RejectionIsFinal(v: Visit, id: Id, now: int)
    requires Sound(v) && RaiseRule(v, now).DoRaise? && NobodyWaits(v.requests) && v.desk.Free?
    ensures var w := RaisedAndRejected(v, id, now);
      (forall events :: Run(w, events).requests == w.requests)
      <==> !(Latest(v.requests).Some? && Newer(Latest(v.requests).value, Request(id, now, Rejected)))
  {
    var w := RaisedAndRejected(v, id, now);
    RaisedThenRejected(v, id, now);
    LatestOfMore(v.requests, Request(id, now, Rejected));
    StepSound(v, Raise(id, now));
    StepSound(Step(v, Raise(id, now)), Reject(true));
    if Latest(v.requests).Some? && Newer(Latest(v.requests).value, Request(id, now, Rejected)) {
      RaisedAgain(w, now);
    } else {
      forall events ensures Run(w, events).requests == w.requests { RejectionStands(w, events); }
    }
  }

  lemma RaisedAgain(w: Visit, now: int)
    requires RaiseRule(w, now).DoRaise? && NobodyWaits(w.requests)
    ensures exists events :: Run(w, events).requests != w.requests
  {
    WaitingAtExact(w.requests);
    var again := [Raise(0, now)];
    assert again[1..] == [];
    assert Run(w, again) == Run(Step(w, again[0]), []);
    assert |Run(w, again).requests| == |w.requests| + 1;
  }

  /** Every raise is no older, by the clock and then by id, than the requests there are. */
  ghost predicate ClockKeepsUp(v: Visit, events: seq<Event>)
    decreases |events|
  {
    events != [] ==>
      (events[0].Raise? && Latest(v.requests).Some? ==>
         !Newer(Latest(v.requests).value, Request(events[0].id, events[0].now, Waiting)))
      && ClockKeepsUp(Step(v, events[0]), events[1..])
  }

  /** The last is the latest, and only the last may be waiting. */
  ghost predicate InOrder(requests: seq<Request>) {
    && (requests != [] ==> Latest(requests) == Some(requests[|requests| - 1]))
    && (forall i :: 0 <= i < |requests| - 1 ==> requests[i].state != Waiting)
  }

  ghost predicate OnlyLastRejected(requests: seq<Request>) {
    forall i :: 0 <= i < |requests| - 1 ==> requests[i].state != Rejected
  }

  lemma {:induction false} LatestWithState(requests: seq<Request>, state: RequestState)
    requires requests != [] && Latest(requests) == Some(requests[|requests| - 1])
    ensures Latest(SetState(requests, |requests| - 1, state)) == Some(requests[|requests| - 1].(state := state))
  {
    var n := |requests| - 1;
    assert SetState(requests, n, state) == requests[..n] + [requests[n].(state := state)];
    assert requests == requests[..n] + [requests[n]];
    LatestOfMore(requests[..n], requests[n]);
    LatestOfMore(requests[..n], requests[n].(state := state));
    LatestIsNewest(requests[..n]);
    SelfOlder(requests[..n], requests[n]);
  }

  /** If the last is the latest, the one before it is not newer. */
  lemma SelfOlder(requests: seq<Request>, r: Request)
    requires Latest(requests + [r]) == Some(r)
    ensures Latest(requests).Some? ==> !Newer(Latest(requests).value, r)
  {
    LatestOfMore(requests, r);
  }

  lemma EndedInOrder(v: Visit, state: RequestState)
    requires InOrder(v.requests) && Sound(v)
    ensures InOrder(EndWaiting(v, state).requests)
    ensures OnlyLastRejected(v.requests) ==> OnlyLastRejected(EndWaiting(v, state).requests)
  {
    WaitingAtExact(v.requests);
    if v.requests != [] { LatestWithState(v.requests, state); }
  }

  lemma RaisedInOrder(v: Visit, id: Id, now: int)
    requires InOrder(v.requests) && Sound(v) && ClockKeepsUp(v, [Raise(id, now)])
    ensures InOrder(Step(v, Raise(id, now)).requests)
    ensures OnlyLastRejected(v.requests) ==> OnlyLastRejected(Step(v, Raise(id, now)).requests)
  {
    WaitingAtExact(v.requests);
    LatestOfMore(v.requests, Request(id, now, Waiting));
  }

  lemma MarkedInOrder(v: Visit)
    requires InOrder(v.requests) && Sound(v)
    ensures InOrder(Step(v, ApproveMark).requests)
    ensures OnlyLastRejected(v.requests) ==> OnlyLastRejected(Step(v, ApproveMark).requests)
  {
    if v.requests != [] { LatestWithState(v.requests, Approved); }
  }

  lemma StepInOrder(v: Visit, e: Event)
    requires InOrder(v.requests) && Sound(v) && ClockKeepsUp(v, [e])
    ensures InOrder(Step(v, e).requests)
    ensures OnlyLastRejected(v.requests) ==> OnlyLastRejected(Step(v, e).requests)
  {
    match e
    case Raise(id, now) => RaisedInOrder(v, id, now);
    case LapseJob(at) => if Lapse(v, at).Some? { EndedInOrder(v, Lapse(v, at).value); }
    case ApproveCheckIn(_, _) => assert Step(v, e).requests == v.requests;
    case ApproveMark => MarkedInOrder(v);
    case ApproveLost => assert Step(v, e).requests == v.requests;
    case Reject(hasReason) => if hasReason { EndedInOrder(v, Rejected); }
    case Withdraw(moment) => EndedInOrder(v, if Lapse(v, moment).Some? then Lapse(v, moment).value else Withdrawn);
    case Move(_, _, _) => assert Step(v, e).requests == v.requests;
  }

  /** While the clock keeps up, nothing is ever raised after a rejection, in any run. */
  lemma {:induction false} NothingAfterARejection(v: Visit, events: seq<Event>)
    requires Sound(v) && InOrder(v.requests) && OnlyLastRejected(v.requests) && ClockKeepsUp(v, events)
    ensures InOrder(Run(v, events).requests) && OnlyLastRejected(Run(v, events).requests)
    decreases |events|
  {
    if events != [] {
      StepSound(v, events[0]);
      assert ClockKeepsUp(v, [events[0]]) by { assert [events[0]][1..] == []; }
      StepInOrder(v, events[0]);
      NothingAfterARejection(Step(v, events[0]), events[1..]);
    }
  }

  /**
   * Two requests raised at the same instant, the first withdrawn and the second rejected: if the first
   * has the higher id it is the one that is read, and the customer raises again after the desk said no.
   */
  lemma SameInstantForgetsTheRejection(now: int)
    ensures var start := Visit(Confirmed, now, now + 60, [], Free, {});
      Run(start, [Raise(5, now), Withdraw(now), Raise(3, now), Reject(true), Raise(9, now)]).requests
      == [Request(5, now, Withdrawn), Request(3, now, Rejected), Request(9, now, Waiting)]
  {
    var start := Visit(Confirmed, now, now + 60, [], Free, {});
    var first := start.(requests := [Request(5, now, Withdrawn)]);
    var second := first.(requests := first.requests + [Request(3, now, Rejected)]);
    RaisedThenWithdrawn(start, now);
    RaisedThenRejected(first, 3, now);
    LatestOfMore([], Request(5, now, Withdrawn));
    assert [] + [Request(5, now, Withdrawn)] == first.requests;
    LatestOfMore(first.requests, Request(3, now, Rejected));
    WaitingAtExact(second.requests);
    var last := [Raise(9, now)];
    RunFirst(start, Raise(5, now), [Withdraw(now), Raise(3, now), Reject(true)] + last);
    RunFirst(Step(start, Raise(5, now)), Withdraw(now), [Raise(3, now), Reject(true)] + last);
    RunFirst(first, Raise(3, now), [Reject(true)] + last);
    RunFirst(Step(first, Raise(3, now)), Reject(true), last);
    RunFirst(second, Raise(9, now), []);
    var events := [Raise(5, now), Withdraw(now), Raise(3, now), Reject(true), Raise(9, now)];
    assert events == [Raise(5, now)] + ([Withdraw(now), Raise(3, now), Reject(true)] + last);
    assert [Withdraw(now), Raise(3, now), Reject(true)] + last == [Withdraw(now)] + ([Raise(3, now), Reject(true)] + last);
    assert [Raise(3, now), Reject(true)] + last == [Raise(3, now)] + ([Reject(true)] + last);
    assert last == last + [];
    assert Run(start, events) == Run(second, last);
    assert Run(second, last) == Step(second, Raise(9, now));
  }

  lemma RunFirst(v: Visit, e: Event, rest: seq<Event>)
    ensures Run(v, [e] + rest) == Run(Step(v, e), rest)
  {
    assert ([e] + rest)[1..] == rest;
  }

  lemma RaisedThenWithdrawn(start: Visit, now: int)
    requires start == Visit(Confirmed, now, now + 60, [], Free, {})
    ensures Step(Step(start, Raise(5, now)), Withdraw(now)) == start.(requests := [Request(5, now, Withdrawn)])
  {
    assert Step(start, Raise(5, now)).requests == [Request(5, now, Waiting)];
  }

  // ------------------------------------------------------------------ what each act does

  predicate Waits(v: Visit, i: nat) {
    i < |v.requests| && v.requests[i].state == Waiting
  }

  /** The request that waits, and it alone, is in this state now; nothing else changed. */
  predicate Ended(v: Visit, e: Visit, i: nat, state: RequestState)
    requires i < |v.requests|
  {
    e == v.(requests := v.requests[i := Request(v.requests[i].id, v.requests[i].raisedAt, state)])
  }

  lemma TheOneThatWaits(v: Visit, i: nat)
    requires Sound(v) && Waits(v, i)
    ensures WaitingAt(v.requests) == Some(i)
  {
    WaitingAtExact(v.requests);
  }

  /** A request is raised for a confirmed visit, within its window, when none waits and the last was not refused. */
  lemma RaiseMeans(v: Visit, id: Id, now: int)
    requires Sound(v)
    ensures var latest := Latest(v.requests);
      Step(v, Raise(id, now)) ==
        if v.status == Confirmed && v.startAt - 30 <= now < v.endAt && NobodyWaits(v.requests)
           && (latest.Some? ==> latest.value.state != Rejected)
        then v.(requests := v.requests + [Request(id, now, Waiting)]) else v
  {
    WaitingAtExact(v.requests);
    LatestIsNewest(v.requests);
  }

  /** A waiting request is closed when its visit moved on, expires when the visit is over, and else waits. */
  lemma LapseMeans(v: Visit, at: int, i: nat)
    requires Sound(v) && Waits(v, i) && v.desk.Free?
    ensures var e := Step(v, LapseJob(at));
      if v.status != Confirmed then Ended(v, e, i, LapsedClosed)
      else if at >= v.endAt then Ended(v, e, i, LapsedExpired) else e == v
  {
    TheOneThatWaits(v, i);
  }

  /** Taken back by the customer it is withdrawn, unless it had lapsed by then. */
  lemma WithdrawMeans(v: Visit, at: int, i: nat)
    requires Sound(v) && Waits(v, i) && v.desk.Free?
    ensures var e := Step(v, Withdraw(at));
      if v.status != Confirmed then Ended(v, e, i, LapsedClosed)
      else if at >= v.endAt then Ended(v, e, i, LapsedExpired) else Ended(v, e, i, Withdrawn)
  {
    TheOneThatWaits(v, i);
  }

  lemma RejectMeans(v: Visit, hasReason: bool, i: nat)
    requires Sound(v) && Waits(v, i) && v.desk.Free?
    ensures var e := Step(v, Reject(hasReason)); if hasReason then Ended(v, e, i, Rejected) else e == v
  {
    TheOneThatWaits(v, i);
  }

  /**
   * An approval checks the customer in if and only if the visit is confirmed, its window has opened and
   * the chair is free; then it marks the request, and nothing but that approval touches it in between.
   */
  lemma ApproveMeans(v: Visit, when: int, chairFree: bool, i: nat)
    requires Sound(v) && Waits(v, i) && v.desk.Free?
    ensures var e := Step(v, ApproveCheckIn(when, chairFree));
      if chairFree && v.status == Confirmed && when >= v.startAt - 30 then
        && e == v.(status := CheckedIn, desk := Marking(i), checkedInFor := v.checkedInFor + {i})
        && Ended(v.(status := CheckedIn, checkedInFor := v.checkedInFor + {i}), Step(e, ApproveMark), i, Approved)
      else e == v
  {
    TheOneThatWaits(v, i);
  }

  /** With nothing waiting, or an approval on its way, no answer and no lapse does anything. */
  lemma NothingToAnswer(v: Visit, e: Event)
    requires Sound(v) && (NobodyWaits(v.requests) || v.desk.Marking?)
    requires e.LapseJob? || e.Withdraw? || e.Reject? || e.ApproveCheckIn?
    ensures Step(v, e) == v
  {
    WaitingAtExact(v.requests);
  }

  predicate OpenApproval(e: Event, startAt: int) {
    e.ApproveCheckIn? && e.chairFree && e.when >= startAt - 30
  }

  lemma {:induction false} CheckedInForIsEarned(v: Visit, events: seq<Event>, i: nat)
    requires i in Run(v, events).checkedInFor && i !in v.checkedInFor
    ensures exists k :: 0 <= k < |events| && OpenApproval(events[k], v.startAt)
    decreases |events|
  {
    var e := Step(v, events[0]);
    if i in e.checkedInFor {
      assert OpenApproval(events[0], v.startAt);
    } else {
      CheckedInForIsEarned(e, events[1..], i);
      var k :| 0 <= k < |events[1..]| && OpenApproval(events[1..][k], e.startAt);
      assert OpenApproval(events[k + 1], v.startAt);
    }
  }

  /** Over every run a request is approved only by an approval that found a free chair and an open window. */
  lemma ApprovalNeedsAChair(v: Visit, events: seq<Event>, i: nat)
    requires Sound(v) && v.checkedInFor == {}
    requires i < |Run(v, events).requests| && Run(v, events).requests[i].state == Approved
    ensures exists k :: 0 <= k < |events| && OpenApproval(events[k], v.startAt)
  {
    RunSound(v, events);
    CheckedInForIsEarned(v, events, i);
  }
}
