/** The routine handler as it runs: loops over creates and cancels that change the store as they go. */
module RoutineDesk {
  import opened Basics
  import opened RoutineBooking
  import opened RoutineMove

  class Desk {
    var bookings: map<Id, Visit>
    var next: Id
    var routine: Routine

    constructor (routine: Routine)
      ensures Contents() == Store(map[], 0) && this.routine == routine
    {
      bookings, next, this.routine := map[], 0, routine;
    }

    ghost function Contents(): Store
      reads this
    {
      Store(bookings, next)
    }

    method CancelOne(id: Id, stuck: set<Id>)
      modifies this`bookings
      ensures Contents() == Cancel(old(Contents()), id, stuck)
    {
      if id in bookings && id !in stuck {
        bookings := bookings[id := bookings[id].(live := false)];
      }
    }

    /** Newest first. */
    method ReleaseBooked(ids: seq<Id>, stuck: set<Id>)
      modifies this`bookings
      ensures Contents() == ReleaseAll(old(Contents()), ids, stuck)
    {
      var i := |ids|;
      assert ids[..i] == ids;
      while i > 0
        invariant 0 <= i <= |ids|
        invariant ReleaseAll(Contents(), ids[..i], stuck) == ReleaseAll(old(Contents()), ids, stuck)
      {
        i := i - 1;
        assert ids[..i + 1][..i] == ids[..i];
        CancelOne(ids[i], stuck);
      }
    }

    /** Every session inside the horizon, in order; the first failure undoes the ones before it. */
    method BookEach(slots: seq<Slot>, today: int, luck: Luck) returns (failedAt: Option<nat>, booked: seq<Entry>)
      modifies this`bookings, this`next
      ensures var o := BookAll(old(Contents()), slots, today, luck);
        && Contents() == o.store
        && (o.AllBooked? ==> failedAt == None && booked == o.booked)
        && (o.Failed? ==> failedAt == Some(o.at))
    {
      booked, failedAt := [], None;
      var i := 0;
      assert slots[0..] == slots;
      while i < |slots|
        invariant 0 <= i <= |slots| && failedAt == None
        invariant BookFrom(Contents(), slots[i..], today, luck, booked) == BookAll(old(Contents()), slots, today, luck)
      {
        var slot := slots[i];
        assert slots[i..][1..] == slots[i + 1..];
        if !BeyondHorizon(slot.day, today) {
          var reply := ReplyTo(luck, slot);
          if !reply.Refused? {
            bookings, next := bookings[next := Visit(slot.day, slot.startMin, slot.staff, true)], next + 1;
          }
          if !reply.Accepted? {
            ReleaseBooked(Ids(booked), luck.stuck);
            return Some(slot.index), booked;
          }
          booked := booked + [Entry(slot.index, next - 1)];
        }
        i := i + 1;
      }
    }

    method MoveSessions(q: MoveInput) returns (result: RoutineMove.Result)
      requires |q.sessions| == |q.targets|
      modifies this
      ensures RoutineMove.After(Contents(), routine, result) == RoutineMove.Move(old(Contents()), old(routine), q)
    {
      var keep, release := KeepPlan(q.sessions, q.targets);
      KeepLength(q.sessions, q.targets, {});
      var failedAt, booked := BookEach(ToBook(q.targets, keep), q.today, q.luck);
      if failedAt.Some? {
        return NotFree(failedAt.value);
      }
      if routine.status != q.fromStatus || q.saveThrows || !AllRows(routine.links, q.sessions) {
        ReleaseBooked(Ids(booked), q.luck.stuck);
        return if routine.status != q.fromStatus then StatusChanged else SaveThrew;
      }
      routine := Routine(q.after, Relink(routine.links, q.sessions, q.targets, keep, booked));
      ghost var saved := Contents();
      assert release[0..] == release;
      for i := 0 to |release|
        invariant routine == Routine(q.after, Relink(old(routine).links, q.sessions, q.targets, keep, booked))
        invariant RoutineMove.Release(Contents(), release[i..], q.luck.stuck) == RoutineMove.Release(saved, release, q.luck.stuck)
      {
        assert release[i..][1..] == release[i + 1..];
        CancelOne(release[i], q.luck.stuck);
      }
      assert release[|release|..] == [];
      result := Moved;
    }
  }
}
