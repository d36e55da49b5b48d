/** One booking's check-in requests as the handlers change them: rows read and written in place. */
module CheckInDesk {
  import opened Basics
  import opened Lifecycle
  import opened CheckIn

  class Booking {
    var status: Status
    var requests: seq<Request>
    var desk: Desk
    ghost var checkedInFor: set<nat>
    const startAt: int
    const endAt: int

    ghost function Contents(): Visit
      reads this
    {
      Visit(status, startAt, endAt, requests, desk, checkedInFor)
    }

    ghost predicate Valid()
      reads this
    {
      Sound(Contents())
    }

    constructor (startAt: int, endAt: int)
      ensures Valid() && Contents() == Visit(Confirmed, startAt, endAt, [], Free, {})
    {
      this.startAt, this.endAt := startAt, endAt;
      status, requests, desk, checkedInFor := Confirmed, [], Free, {};
    }

    /** What is waiting, found from the newest back. */
    method FindWaiting() returns (at: Option<nat>)
      ensures at == WaitingAt(requests)
      ensures at.Some? ==> at.value < |requests| && requests[at.value].state == Waiting
    {
      var i := |requests|;
      assert requests[..i] == requests;
      while i > 0
        invariant 0 <= i <= |requests| && WaitingAt(requests[..i]) == WaitingAt(requests)
      {
        i := i - 1;
        assert requests[..i + 1][..i] == requests[..i];
        if requests[i].state == Waiting { return Some(i); }
      }
      at := None;
    }

    /** The customer says they are here; the rules first, and the index on waiting requests last. */
    method RaiseRequest(id: Id, now: int) returns (verdict: RaiseVerdict)
      requires Valid()
      modifies this`requests
      ensures Valid() && Contents() == Step(old(Contents()), Raise(id, now)) && verdict == RaiseRule(old(Contents()), now)
    {
      ghost var before := Contents();
      verdict := RaiseRule(Visit(status, startAt, endAt, requests, desk, {}), now);
      var waiting := FindWaiting();
      if verdict.DoRaise? && waiting.None? {
        requests := requests + [Request(id, now, Waiting)];
      }
      StepSound(before, Raise(id, now));
    }

    method EndIt(state: RequestState)
      modifies this`requests
      ensures Contents() == EndWaiting(old(Contents()), state)
    {
      var waiting := FindWaiting();
      if waiting.Some? && !desk.Marking? {
        requests := SetState(requests, waiting.value, state);
      }
    }

    method RejectRequest(hasReason: bool)
      requires Valid()
      modifies this`requests
      ensures Valid() && Contents() == Step(old(Contents()), Reject(hasReason))
    {
      ghost var before := Contents();
      if hasReason { EndIt(Rejected); }
      StepSound(before, Reject(hasReason));
    }

    method WithdrawRequest(now: int)
      requires Valid()
      modifies this`requests
      ensures Valid() && Contents() == Step(old(Contents()), Withdraw(now))
    {
      ghost var before := Contents();
      var lapse := Lapse(Visit(status, startAt, endAt, requests, desk, {}), now);
      EndIt(if lapse.Some? then lapse.value else Withdrawn);
      StepSound(before, Withdraw(now));
    }

    /** The ordinary check-in, then the mark; a check-in that does not go through marks nothing. */
    method ApproveRequest(when: int, chairFree: bool) returns (marked: Option<nat>)
      requires Valid()
      modifies this
      ensures Valid()
      ensures var e := Step(old(Contents()), ApproveCheckIn(when, chairFree));
        Contents() == if e == old(Contents()) then e else Step(e, ApproveMark)
      ensures marked.Some? ==>
        && marked == WaitingAt(old(requests)) && old(status) == Confirmed && status == CheckedIn
        && marked.value < |requests| && requests[marked.value].state == Approved && marked.value in checkedInFor
      ensures marked.None? ==> requests == old(requests) && status == old(status)
    {
      ghost var before := Contents();
      StepSound(before, ApproveCheckIn(when, chairFree));
      StepSound(Step(before, ApproveCheckIn(when, chairFree)), ApproveMark);
      marked := FindWaiting();
      if marked.None? || desk.Marking? || !chairFree || status != Confirmed || when < startAt - OPENS_BEFORE {
        return None;
      }
      status, desk, checkedInFor := CheckedIn, Marking(marked.value), checkedInFor + {marked.value};
      requests := SetState(requests, marked.value, Approved);
      desk := Free;
    }
  }
}
