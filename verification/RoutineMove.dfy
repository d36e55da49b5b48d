/**
 * PAUSE and RESUME: the movable sessions of a routine go onto new slots. A session already booked on
 * one of them keeps its booking; the others are booked, then all are relinked in one transaction that
 * still demands the status the move began with, and only then are the old bookings released.
 */
module RoutineMove {
  import opened Basics
  import opened RoutineBooking

  datatype Current = Current(occurrence: Id, booking: Option<Id>, day: int, startMin: int, staff: Id)

  datatype Link = Link(day: int, startMin: int, booking: Option<Id>)

  datatype RoutineStatus = Active | Paused | Ended

  datatype Routine = Routine(status: RoutineStatus, links: map<Id, Link>)

  /** Whether the transaction that relinks is reached, and what it answers. */
  datatype Result = Moved | NotFree(at: nat) | SaveThrew | StatusChanged

  // ------------------------------------------------------------------ which bookings stay

  predicate Matches(c: Current, t: Slot, used: set<Id>) {
    c.booking.Some? && c.booking.value !in used && c.day == t.day && c.startMin == t.startMin && c.staff == t.staff
  }

  /** The first current session booked on the slot and not kept already. */
  function FindMatch(current: seq<Current>, t: Slot, used: set<Id>): Option<Id> {
    if current == [] then None
    else if Matches(current[0], t, used) then current[0].booking
    else FindMatch(current[1..], t, used)
  }

  /** What each new slot keeps, slot by slot. */
  function Keep(current: seq<Current>, targets: seq<Slot>, used: set<Id>): seq<Option<Id>> {
    if targets == [] then []
    else
      var found := FindMatch(current, targets[0], used);
      [found] + Keep(current, targets[1..], if found.Some? then used + {found.value} else used)
  }

  function Kept(keep: seq<Option<Id>>): set<Id> {
    set i | 0 <= i < |keep| && keep[i].Some? :: keep[i].value
  }

  function ToRelease(current: seq<Current>, kept: set<Id>): seq<Id> {
    if current == [] then []
    else
      var rest := ToRelease(current[1..], kept);
      if current[0].booking.Some? && current[0].booking.value !in kept then [current[0].booking.value] + rest else rest
  }

  function Booked(current: seq<Current>): set<Id> {
    set i | 0 <= i < |current| && current[i].booking.Some? :: current[i].booking.value
  }

  method KeepPlan(current: seq<Current>, targets: seq<Slot>) returns (keep: seq<Option<Id>>, release: seq<Id>)
    ensures keep == Keep(current, targets, {}) && release == ToRelease(current, Kept(keep))
  {
    keep := [];
    var used := {};
    for i := 0 to |targets|
      invariant keep + Keep(current, targets[i..], used) == Keep(current, targets, {})
      invariant used == Kept(keep)
    {
      assert targets[i..][1..] == targets[i + 1..];
      var found := FindMatch(current, targets[i], used);
      ghost var before := keep;
      ghost var rest := Keep(current, targets[i + 1..], if found.Some? then used + {found.value} else used);
      assert before + ([found] + rest) == (before + [found]) + rest;
      keep := keep + [found];
      KeptMore(before, found);
      if found.Some? { used := used + {found.value}; }
    }
    assert keep + Keep(current, targets[|targets|..], used) == keep;
    release := [];
    for i := 0 to |current|
      invariant release + ToRelease(current[i..], used) == ToRelease(current, used)
    {
      assert current[i..][1..] == current[i + 1..];
      var c := current[i];
      ghost var rest := ToRelease(current[i + 1..], used);
      if c.booking.Some? && c.booking.value !in used {
        assert release + ([c.booking.value] + rest) == (release + [c.booking.value]) + rest;
        release := release + [c.booking.value];
      }
    }
    assert release + ToRelease(current[|current|..], used) == release;
  }

  lemma KeptMore(keep: seq<Option<Id>>, k: Option<Id>)
    ensures Kept(keep + [k]) == if k.Some? then Kept(keep) + {k.value} else Kept(keep)
  {
    var more := keep + [k];
    forall b ensures b in Kept(more) <==> b in Kept(keep) || k == Some(b) {
      if b in Kept(keep) {
        var i :| 0 <= i < |keep| && keep[i] == Some(b);
        assert more[i] == Some(b);
      }
      if k == Some(b) { assert more[|keep|] == Some(b); }
    }
  }

  lemma {:induction false} FindMatchSound(current: seq<Current>, t: Slot, used: set<Id>)
    ensures var m := FindMatch(current, t, used);
      m.Some? ==> exists i :: 0 <= i < |current| && current[i].booking == m && Matches(current[i], t, used)
  {
    if current != [] && !Matches(current[0], t, used) {
      FindMatchSound(current[1..], t, used);
      var m := FindMatch(current[1..], t, used);
      if m.Some? {
        var i :| 0 <= i < |current[1..]| && current[1..][i].booking == m && Matches(current[1..][i], t, used);
        assert current[i + 1] == current[1..][i];
      }
    }
  }

  /** A kept booking stands on its new slot already, and no booking is kept for two slots. */
  lemma {:induction false} KeepSound(current: seq<Current>, targets: seq<Slot>, used: set<Id>)
    ensures var keep := Keep(current, targets, used);
      && |keep| == |targets|
      && (forall k :: 0 <= k < |keep| && keep[k].Some? ==> keep[k].value !in used)
      && (forall k :: 0 <= k < |keep| && keep[k].Some? ==>
            exists i :: 0 <= i < |current| && current[i].booking == keep[k] && Matches(current[i], targets[k], {}))
      && (forall j, k :: 0 <= j < k < |keep| && keep[j].Some? ==> keep[j] != keep[k])
  {
    if targets != [] {
      var m := FindMatch(current, targets[0], used);
      FindMatchSound(current, targets[0], used);
      var more := if m.Some? then used + {m.value} else used;
      KeepSound(current, targets[1..], more);
      var keep := Keep(current, targets, used);
      var rest := Keep(current, targets[1..], more);
      forall k | 0 <= k < |keep| && keep[k].Some?
        ensures keep[k].value !in used
        ensures exists i :: 0 <= i < |current| && current[i].booking == keep[k] && Matches(current[i], targets[k], {})
      {
        if k == 0 {
          var i :| 0 <= i < |current| && current[i].booking == m && Matches(current[i], targets[0], used);
        } else {
          assert keep[k] == rest[k - 1] && targets[k] == targets[1..][k - 1];
        }
      }
      forall j, k | 0 <= j < k < |keep| && keep[j].Some? ensures keep[j] != keep[k] {
        assert keep[k] == rest[k - 1];
        if j > 0 { assert keep[j] == rest[j - 1]; }
      }
    }
  }

  predicate StandsOn(c: Current, t: Slot) {
    c.booking.Some? && c.day == t.day && c.startMin == t.startMin && c.staff == t.staff
  }

  lemma {:induction false} NoMatchLeft(current: seq<Current>, t: Slot, used: set<Id>)
    requires FindMatch(current, t, used).None?
    ensures forall c :: c in current && StandsOn(c, t) ==> c.booking.value in used
  {
    if current != [] { NoMatchLeft(current[1..], t, used); }
  }

  lemma {:induction false} KeepLeavesNone(current: seq<Current>, targets: seq<Slot>, used: set<Id>, k: nat, c: Current)
    requires k < |targets| && |Keep(current, targets, used)| == |targets| && Keep(current, targets, used)[k].None?
    requires c in current && StandsOn(c, targets[k])
    ensures c.booking.value in used || c.booking.value in Kept(Keep(current, targets, used))
    decreases |targets|
  {
    var keep, found := Keep(current, targets, used), FindMatch(current, targets[0], used);
    if k == 0 {
      NoMatchLeft(current, targets[0], used);
    } else {
      var more := if found.Some? then used + {found.value} else used;
      var rest := Keep(current, targets[1..], more);
      KeepLength(current, targets[1..], more);
      assert keep[k] == rest[k - 1];
      KeepLeavesNone(current, targets[1..], more, k - 1, c);
      if found.Some? { assert keep[0] == Some(found.value); }
      if c.booking.value in Kept(rest) {
        var i :| 0 <= i < |rest| && rest[i] == Some(c.booking.value);
        assert keep[i + 1] == Some(c.booking.value);
      }
    }
  }

  /**
   * No booking is given up that could stay: a slot keeps none only if every session booked at its day
   * and minute with its stylist is kept for another slot.
   */
  lemma KeepIsMaximal(current: seq<Current>, targets: seq<Slot>)
    ensures var keep := Keep(current, targets, {});
      && |keep| == |targets|
      && forall k, c :: 0 <= k < |targets| && keep[k].None? && c in current && StandsOn(c, targets[k]) ==>
           c.booking.value in Kept(keep)
  {
    var keep := Keep(current, targets, {});
    KeepLength(current, targets, {});
    forall k, c | 0 <= k < |targets| && keep[k].None? && c in current && StandsOn(c, targets[k])
      ensures c.booking.value in Kept(keep)
    {
      KeepLeavesNone(current, targets, {}, k, c);
    }
  }

  /** Kept and released are exactly the bookings the sessions had, and nothing is both. */
  lemma KeepPlanPartitions(current: seq<Current>, targets: seq<Slot>)
    ensures var keep := Keep(current, targets, {}); var released := set b | b in ToRelease(current, Kept(keep));
      Kept(keep) + released == Booked(current) && Kept(keep) !! released
  {
    var keep := Keep(current, targets, {});
    KeepSound(current, targets, {});
    forall b ensures b in ToRelease(current, Kept(keep)) <==> b in Booked(current) && b !in Kept(keep) {
      ToReleaseExact(current, Kept(keep), b);
    }
    forall b | b in Kept(keep) ensures b in Booked(current) {
      var k :| 0 <= k < |keep| && keep[k] == Some(b);
      var i :| 0 <= i < |current| && current[i].booking == keep[k] && Matches(current[i], targets[k], {});
    }
  }

  lemma BookedCons(c: Current, rest: seq<Current>, b: Id)
    ensures b in Booked([c] + rest) <==> c.booking == Some(b) || b in Booked(rest)
  {
    var all := [c] + rest;
    if b in Booked(rest) {
      var i :| 0 <= i < |rest| && rest[i].booking == Some(b);
      assert all[i + 1].booking == Some(b);
    }
    if c.booking == Some(b) { assert all[0].booking == Some(b); }
  }

  lemma {:induction false} ToReleaseExact(current: seq<Current>, kept: set<Id>, b: Id)
    ensures b in ToRelease(current, kept) <==> b in Booked(current) && b !in kept
  {
    if current != [] {
      assert current == [current[0]] + current[1..];
      BookedCons(current[0], current[1..], b);
      ToReleaseExact(current[1..], kept, b);
    }
  }

  // ------------------------------------------------------------------ the move

  /** The new slots that keep nothing, with their positions. */
  function ToBook(targets: seq<Slot>, keep: seq<Option<Id>>): seq<Slot>
    requires |targets| == |keep|
  {
    if targets == [] then []
    else if keep[0].Some? then ToBook(targets[1..], keep[1..])
    else [targets[0]] + ToBook(targets[1..], keep[1..])
  }

  function BookingAt(booked: seq<Entry>, index: nat): Option<Id> {
    if booked == [] then None
    else if booked[0].index == index then Some(booked[0].booking)
    else BookingAt(booked[1..], index)
  }

  function NewBooking(keep: Option<Id>, booked: seq<Entry>, index: nat): Option<Id> {
    if keep.Some? then keep else BookingAt(booked, index)
  }

  function NewLink(target: Slot, keep: Option<Id>, booked: seq<Entry>): Link {
    Link(target.day, target.startMin, NewBooking(keep, booked, target.index))
  }

  function RelinkFirst(
      links: map<Id, Link>, sessions: seq<Current>, targets: seq<Slot>, keep: seq<Option<Id>>, booked: seq<Entry>)
    : map<Id, Link>
    requires |sessions| == |targets| == |keep| && sessions != []
  {
    links[sessions[0].occurrence := NewLink(targets[0], keep[0], booked)]
  }

  /** The sessions onto their slots; every other row of the routine as it was. */
  function Relink(
      links: map<Id, Link>, sessions: seq<Current>, targets: seq<Slot>, keep: seq<Option<Id>>, booked: seq<Entry>)
    : map<Id, Link>
    requires |sessions| == |targets| == |keep|
    decreases |sessions|
  {
    if sessions == [] then links
    else Relink(RelinkFirst(links, sessions, targets, keep, booked), sessions[1..], targets[1..], keep[1..], booked)
  }

  predicate AllRows(links: map<Id, Link>, sessions: seq<Current>) {
    forall i :: 0 <= i < |sessions| ==> sessions[i].occurrence in links
  }

  datatype MoveInput = MoveInput(
    sessions: seq<Current>, targets: seq<Slot>, today: int, fromStatus: RoutineStatus, after: RoutineStatus,
    saveThrows: bool, luck: Luck)

  datatype After = After(store: Store, routine: Routine, result: Result)

  function Release(s: Store, ids: seq<Id>, stuck: set<Id>): Store
    decreases |ids|
  {
    if ids == [] then s else Release(Cancel(s, ids[0], stuck), ids[1..], stuck)
  }

  function Move(s: Store, r: Routine, q: MoveInput): After
    requires |q.sessions| == |q.targets|
  {
    KeepLength(q.sessions, q.targets, {});
    var keep := Keep(q.sessions, q.targets, {});
    match BookAll(s, ToBook(q.targets, keep), q.today, q.luck)
    case Failed(store, at, _, _) => After(store, r, NotFree(at))
    case AllBooked(store, booked) =>
      if r.status != q.fromStatus then After(ReleaseAll(store, Ids(booked), q.luck.stuck), r, StatusChanged)
      else if q.saveThrows || !AllRows(r.links, q.sessions) then
        After(ReleaseAll(store, Ids(booked), q.luck.stuck), r, SaveThrew)
      else
        After(Release(store, ToRelease(q.sessions, Kept(keep)), q.luck.stuck),
              Routine(q.after, Relink(r.links, q.sessions, q.targets, keep, booked)), Moved)
  }

  lemma {:induction false} KeepLength(current: seq<Current>, targets: seq<Slot>, used: set<Id>)
    ensures |Keep(current, targets, used)| == |targets|
  {
    if targets != [] {
      var m := FindMatch(current, targets[0], used);
      KeepLength(current, targets[1..], if m.Some? then used + {m.value} else used);
    }
  }

  // ------------------------------------------------------------------ before the relink is saved

  /** What may survive a move that was not saved: what could not be given back, and one half-made create. */
  ghost predicate OnlyResidue(s: Store, e: Store, q: MoveInput) {
    && Live(s) <= Live(e)
    && (forall b :: b in s.bookings ==> b in e.bookings && e.bookings[b] == s.bookings[b])
    && (forall b :: b in Live(e) - Live(s) ==> s.next <= b && (b in q.luck.stuck || b == e.next - 1))
  }

  lemma {:induction false} IdsOfEntries(near: seq<Slot>, next: Id)
    ensures forall b :: b in Ids(Entries(near, next)) ==> next <= b < next + |near|
  {
    forall b | b in Ids(Entries(near, next)) ensures next <= b < next + |near| {
      EntriesLength(near, next);
      var k :| 0 <= k < |Ids(Entries(near, next))| && Ids(Entries(near, next))[k] == b;
      EntriesAt(near, next, k);
    }
  }

  lemma EntriesLength(near: seq<Slot>, next: Id)
    ensures |Entries(near, next)| == |near|
  {
    if near != [] { EntriesAt(near, next, 0); }
  }

  ghost predicate NothingStuck(luck: Luck) {
    luck.stuck == {} && forall i :: i in luck.replies ==> !luck.replies[i].ThrewAfterBooking?
  }

  lemma NotBookedSafely(s: Store, q: MoveInput, slots: seq<Slot>)
    requires Numbered(s) && BookAll(s, slots, q.today, q.luck).Failed?
    ensures var e := BookAll(s, slots, q.today, q.luck).store;
      OnlyResidue(s, e, q) && (NothingStuck(q.luck) ==> Live(e) == Live(s))
  {
    BookAllOrNothing(s, slots, q.today, q.luck);
    LeakIsLast(s, slots, q.today, q.luck, []);
  }

  lemma NotSavedSafely(s: Store, q: MoveInput, near: seq<Slot>)
    requires Numbered(s)
    ensures var e := ReleaseAll(AddAll(s, near), Ids(Entries(near, s.next)), q.luck.stuck);
      OnlyResidue(s, e, q) && (NothingStuck(q.luck) ==> Live(e) == Live(s))
  {
    AddAllKeeps(s, near);
    IdsOfEntries(near, s.next);
    AddedIds(near, s.next);
    ReleaseAllLive(AddAll(s, near), Ids(Entries(near, s.next)), q.luck.stuck);
  }

  /**
   * A failure anywhere before the relink leaves the routine as it was, its old bookings and everybody
   * else's untouched; the only bookings that may be left over are new ones no cancel reached.
   */
  lemma MoveFailsSafely(s: Store, r: Routine, q: MoveInput)
    requires Numbered(s) && |q.sessions| == |q.targets| && !Move(s, r, q).result.Moved?
    ensures Move(s, r, q).routine == r
    ensures OnlyResidue(s, Move(s, r, q).store, q)
    ensures NothingStuck(q.luck) ==> Live(Move(s, r, q).store) == Live(s)
  {
    KeepLength(q.sessions, q.targets, {});
    var toBook := ToBook(q.targets, Keep(q.sessions, q.targets, {}));
    if BookAll(s, toBook, q.today, q.luck).Failed? {
      NotBookedSafely(s, q, toBook);
    } else {
      BookFromSuccess(s, toBook, q.today, q.luck, []);
      var near := Near(toBook, q.today);
      assert [] + Entries(near, s.next) == Entries(near, s.next);
      NotSavedSafely(s, q, near);
    }
  }

  lemma AddedIds(near: seq<Slot>, next: Id)
    ensures forall b :: next <= b < next + |near| ==> b in Ids(Entries(near, next))
  {
    EntriesLength(near, next);
    forall b | next <= b < next + |near| ensures b in Ids(Entries(near, next)) {
      EntriesAt(near, next, b - next);
      assert Ids(Entries(near, next))[b - next] == b;
    }
  }

  /** A create that threw after writing is the last booking written, and its reply says so. */
  lemma {:induction false} LeakIsLast(s: Store, slots: seq<Slot>, today: int, luck: Luck, booked: seq<Entry>)
    requires BookFrom(s, slots, today, luck, booked).Failed?
    ensures var o := BookFrom(s, slots, today, luck, booked);
      && o.store.next >= s.next
      && (o.leaked.Some? ==> o.leaked.value == o.store.next - 1 && s.next <= o.leaked.value)
      && (o.leaked.Some? ==> exists i :: i in luck.replies && luck.replies[i].ThrewAfterBooking?)
    decreases |slots|
  {
    if BeyondHorizon(slots[0].day, today) {
      LeakIsLast(s, slots[1..], today, luck, booked);
    } else if ReplyTo(luck, slots[0]).Accepted? {
      LeakIsLast(Add(s, slots[0]), slots[1..], today, luck, booked + [Entry(slots[0].index, s.next)]);
    } else {
      var t := if ReplyTo(luck, slots[0]).Refused? then s else Add(s, slots[0]);
      ReleaseAllLive(t, Ids(booked), luck.stuck);
    }
  }

  // ------------------------------------------------------------------ after it

  /** The sessions the move books: inside the horizon and keeping nothing. */
  function Chosen(targets: seq<Slot>, keep: seq<Option<Id>>, today: int): seq<Slot>
    requires |targets| == |keep|
  {
    Near(ToBook(targets, keep), today)
  }

  predicate Chosen1(t: Slot, keep: Option<Id>, today: int) {
    keep.None? && !BeyondHorizon(t.day, today)
  }

  lemma {:induction false} BookingAtNew(targets: seq<Slot>, keep: seq<Option<Id>>, today: int, next: Id, base: nat, k: nat)
    requires |targets| == |keep| && (forall i :: 0 <= i < |targets| ==> targets[i].index == base + i)
    requires k < |targets|
    ensures var at := BookingAt(Entries(Chosen(targets, keep, today), next), base + k);
      if Chosen1(targets[k], keep[k], today)
      then at.Some? && next <= at.value < next + |Chosen(targets, keep, today)|
           && Chosen(targets, keep, today)[at.value - next] == targets[k]
      else at.None?
  {
    var rest := Chosen(targets[1..], keep[1..], today);
    if Chosen1(targets[0], keep[0], today) {
      assert Chosen(targets, keep, today) == [targets[0]] + rest;
      assert Chosen(targets, keep, today)[1..] == rest;
      if k > 0 { BookingAtNew(targets[1..], keep[1..], today, next + 1, base + 1, k - 1); }
    } else {
      assert Chosen(targets, keep, today) == rest;
      if k > 0 {
        BookingAtNew(targets[1..], keep[1..], today, next, base + 1, k - 1);
      } else {
        NoEarlierIndex(targets[1..], keep[1..], today, next, base + 1, base);
      }
    }
  }

  lemma {:induction false} NoEarlierIndex(
      targets: seq<Slot>, keep: seq<Option<Id>>, today: int, next: Id, base: nat, index: nat)
    requires |targets| == |keep| && (forall i :: 0 <= i < |targets| ==> targets[i].index == base + i) && index < base
    ensures BookingAt(Entries(Chosen(targets, keep, today), next), index).None?
  {
    if targets != [] {
      var rest := Chosen(targets[1..], keep[1..], today);
      if Chosen1(targets[0], keep[0], today) {
        assert Chosen(targets, keep, today)[1..] == rest;
        NoEarlierIndex(targets[1..], keep[1..], today, next + 1, base + 1, index);
      } else {
        assert Chosen(targets, keep, today) == rest;
        NoEarlierIndex(targets[1..], keep[1..], today, next, base + 1, index);
      }
    }
  }

  predicate DistinctRows(sessions: seq<Current>) {
    forall i, j :: 0 <= i < j < |sessions| ==> sessions[i].occurrence != sessions[j].occurrence
  }

  lemma {:induction false} RelinkOthers(
      links: map<Id, Link>, sessions: seq<Current>, targets: seq<Slot>, keep: seq<Option<Id>>, booked: seq<Entry>, o: Id)
    requires |sessions| == |targets| == |keep|
    requires forall k :: 0 <= k < |sessions| ==> sessions[k].occurrence != o
    ensures var after := Relink(links, sessions, targets, keep, booked);
      (o in after <==> o in links) && (o in links ==> after[o] == links[o])
    decreases |sessions|
  {
    if sessions != [] {
      assert sessions[0].occurrence != o;
      RelinkOthers(RelinkFirst(links, sessions, targets, keep, booked), sessions[1..], targets[1..], keep[1..], booked, o);
    }
  }

  lemma {:induction false} RelinkRow(
      links: map<Id, Link>, sessions: seq<Current>, targets: seq<Slot>, keep: seq<Option<Id>>, booked: seq<Entry>, k: nat)
    requires |sessions| == |targets| == |keep| && DistinctRows(sessions) && k < |sessions|
    ensures var after := Relink(links, sessions, targets, keep, booked);
      sessions[k].occurrence in after && after[sessions[k].occurrence] == NewLink(targets[k], keep[k], booked)
    decreases |sessions|
  {
    var more := RelinkFirst(links, sessions, targets, keep, booked);
    if k == 0 {
      RelinkOthers(more, sessions[1..], targets[1..], keep[1..], booked, sessions[0].occurrence);
    } else {
      RelinkRow(more, sessions[1..], targets[1..], keep[1..], booked, k - 1);
    }
  }

  lemma {:induction false} ReleaseExact(s: Store, ids: seq<Id>, stuck: set<Id>)
    ensures var e := Release(s, ids, stuck);
      && e.next == s.next && e.bookings.Keys == s.bookings.Keys
      && (forall b :: b in s.bookings ==>
            e.bookings[b] == if b in ids && b !in stuck then s.bookings[b].(live := false) else s.bookings[b])
    decreases |ids|
  {
    if ids != [] { ReleaseExact(Cancel(s, ids[0], stuck), ids[1..], stuck); }
  }

  /** Each session is where its row says, on a live booking or on none. */
  predicate AsRecorded(s: Store, sessions: seq<Current>) {
    forall i :: 0 <= i < |sessions| && sessions[i].booking.Some? ==>
      sessions[i].booking.value in s.bookings
      && s.bookings[sessions[i].booking.value] == Visit(sessions[i].day, sessions[i].startMin, sessions[i].staff, true)
  }

  /** Session `k` after the move: on its new slot, with the live booking that slot has, or with none. */
  ghost predicate OnItsSlot(s: Store, e: After, q: MoveInput, keep: seq<Option<Id>>, k: nat)
    requires |q.sessions| == |q.targets| == |keep| && k < |keep|
  {
    var t := q.targets[k];
    var o := q.sessions[k].occurrence;
    && o in e.routine.links && e.routine.links[o].day == t.day && e.routine.links[o].startMin == t.startMin
    && match e.routine.links[o].booking
       case None => keep[k].None? && BeyondHorizon(t.day, q.today)
       case Some(b) =>
         && (keep[k] == Some(b) || (keep[k].None? && b >= s.next && !BeyondHorizon(t.day, q.today)))
         && b in e.store.bookings && e.store.bookings[b] == Visit(t.day, t.startMin, t.staff, true)
  }

  predicate LinkedTo(links: map<Id, Link>, o: Id, b: Id) {
    o in links && links[o].booking == Some(b)
  }

  /** No booking stands for two of the sessions. */
  ghost predicate OwnBookings(links: map<Id, Link>, sessions: seq<Current>) {
    forall j, k, b :: 0 <= j < k < |sessions| && LinkedTo(links, sessions[j].occurrence, b) ==>
      !LinkedTo(links, sessions[k].occurrence, b)
  }

  /** Exactly the old bookings that are not kept are released, except where no cancel reached. */
  ghost predicate OldBookingsSettled(s: Store, e: Store, current: set<Id>, kept: set<Id>, stuck: set<Id>) {
    forall b :: b in s.bookings ==>
      b in e.bookings && e.bookings[b] == if b in current - kept - stuck then s.bookings[b].(live := false) else s.bookings[b]
  }

  ghost predicate OtherRowsKept(before: map<Id, Link>, after: map<Id, Link>, sessions: seq<Current>) {
    && after.Keys == before.Keys
    && (forall o :: o in before && (forall k :: 0 <= k < |sessions| ==> sessions[k].occurrence != o) ==> after[o] == before[o])
  }

  /**
   * Once saved: the routine has the rows it had; every moved session stands on its new slot, each one
   * inside the horizon on one live booking of its own, kept or new; kept bookings and everybody else's are
   * untouched; and of the old ones exactly those not kept were released.
   */
  lemma MoveIsComplete(s: Store, r: Routine, q: MoveInput)
    requires Numbered(s) && |q.sessions| == |q.targets| && DistinctRows(q.sessions) && AsRecorded(s, q.sessions)
    requires forall i :: 0 <= i < |q.targets| ==> q.targets[i].index == i
    requires Move(s, r, q).result.Moved?
    ensures var e := Move(s, r, q); var keep := Keep(q.sessions, q.targets, {});
      && |keep| == |q.sessions|
      && e.routine.status == q.after
      && (forall k :: 0 <= k < |q.sessions| ==> OnItsSlot(s, e, q, keep, k))
      && OwnBookings(e.routine.links, q.sessions)
      && OtherRowsKept(r.links, e.routine.links, q.sessions)
      && OldBookingsSettled(s, e.store, Booked(q.sessions), Kept(keep), q.luck.stuck)
  {
    var keep := Keep(q.sessions, q.targets, {});
    KeepLength(q.sessions, q.targets, {});
    forall k: nat | k < |q.sessions| ensures OnItsSlot(s, Move(s, r, q), q, keep, k) {
      MovedOntoSlot(s, r, q, keep, k);
    }
    MovedApart(s, r, q, keep);
    MovedRows(s, r, q, keep);
    MovedStore(s, r, q, keep);
  }

  /** A session that kept nothing has a new booking, or none, and two of them never the same. */
  lemma NewOnesDiffer(targets: seq<Slot>, keep: seq<Option<Id>>, today: int, next: Id, j: nat, k: nat)
    requires |targets| == |keep| && (forall i :: 0 <= i < |targets| ==> targets[i].index == i)
    requires j < |targets| && k < |targets|
    ensures var booked := Entries(Chosen(targets, keep, today), next); var b := BookingAt(booked, j);
      b.Some? ==> b.value >= next && (j != k ==> b != BookingAt(booked, k))
  {
    BookingAtNew(targets, keep, today, next, 0, j);
    BookingAtNew(targets, keep, today, next, 0, k);
    assert targets[j].index == j && targets[k].index == k;
  }

  lemma KeptAreOlder(s: Store, q: MoveInput, keep: seq<Option<Id>>, k: nat)
    requires Numbered(s) && |q.sessions| == |q.targets| == |keep| && keep == Keep(q.sessions, q.targets, {})
    requires AsRecorded(s, q.sessions) && k < |keep| && keep[k].Some?
    ensures keep[k].value < s.next
  {
    KeptStands(s, q, keep, k);
  }

  /** Kept bookings differ, new ones differ, and a kept one is older than any new one. */
  lemma NewBookingsDiffer(s: Store, q: MoveInput, keep: seq<Option<Id>>, j: nat, k: nat)
    requires Numbered(s) && |q.sessions| == |q.targets| == |keep| && keep == Keep(q.sessions, q.targets, {})
    requires AsRecorded(s, q.sessions) && (forall i :: 0 <= i < |q.targets| ==> q.targets[i].index == i)
    requires j < k < |q.targets|
    ensures var booked := Entries(Chosen(q.targets, keep, q.today), s.next); var b := NewBooking(keep[j], booked, j);
      b.Some? ==> b != NewBooking(keep[k], booked, k)
  {
    NewOnesDiffer(q.targets, keep, q.today, s.next, j, k);
    NewOnesDiffer(q.targets, keep, q.today, s.next, k, j);
    if keep[j].Some? { KeptAreOlder(s, q, keep, j); }
    if keep[k].Some? { KeptAreOlder(s, q, keep, k); }
    if keep[j].Some? && keep[k].Some? { KeptDiffer(q.sessions, q.targets, j, k); }
  }

  lemma KeptDiffer(current: seq<Current>, targets: seq<Slot>, j: nat, k: nat)
    requires |Keep(current, targets, {})| == |targets| && j < k < |targets| && Keep(current, targets, {})[j].Some?
    ensures Keep(current, targets, {})[j] != Keep(current, targets, {})[k]
  {
    KeepSound(current, targets, {});
  }

  lemma MovedApart(s: Store, r: Routine, q: MoveInput, keep: seq<Option<Id>>)
    requires Numbered(s) && |q.sessions| == |q.targets| && keep == Keep(q.sessions, q.targets, {})
    requires Move(s, r, q).result.Moved? && DistinctRows(q.sessions) && AsRecorded(s, q.sessions)
    requires forall i :: 0 <= i < |q.targets| ==> q.targets[i].index == i
    ensures OwnBookings(Move(s, r, q).routine.links, q.sessions)
  {
    MovedParts(s, r, q, keep);
    var booked, links := Entries(Chosen(q.targets, keep, q.today), s.next), Move(s, r, q).routine.links;
    forall j, k, b | 0 <= j < k < |q.sessions| && LinkedTo(links, q.sessions[j].occurrence, b)
      ensures !LinkedTo(links, q.sessions[k].occurrence, b)
    {
      RelinkRow(r.links, q.sessions, q.targets, keep, booked, j);
      RelinkRow(r.links, q.sessions, q.targets, keep, booked, k);
      NewBookingsDiffer(s, q, keep, j, k);
    }
  }

  /** What a move that was saved is made of. */
  lemma MovedParts(s: Store, r: Routine, q: MoveInput, keep: seq<Option<Id>>)
    requires Numbered(s) && |q.sessions| == |q.targets| && keep == Keep(q.sessions, q.targets, {})
    requires Move(s, r, q).result.Moved?
    ensures |keep| == |q.targets| && AllRows(r.links, q.sessions)
    ensures var near := Chosen(q.targets, keep, q.today); var booked := Entries(near, s.next);
      && Move(s, r, q).store == Release(AddAll(s, near), ToRelease(q.sessions, Kept(keep)), q.luck.stuck)
      && Move(s, r, q).routine == Routine(q.after, Relink(r.links, q.sessions, q.targets, keep, booked))
  {
    KeepLength(q.sessions, q.targets, {});
    var near := Chosen(q.targets, keep, q.today);
    BookFromSuccess(s, ToBook(q.targets, keep), q.today, q.luck, []);
    assert [] + Entries(near, s.next) == Entries(near, s.next);
  }

  lemma MovedRows(s: Store, r: Routine, q: MoveInput, keep: seq<Option<Id>>)
    requires Numbered(s) && |q.sessions| == |q.targets| && keep == Keep(q.sessions, q.targets, {})
    requires Move(s, r, q).result.Moved? && DistinctRows(q.sessions)
    ensures Move(s, r, q).routine.status == q.after
    ensures OtherRowsKept(r.links, Move(s, r, q).routine.links, q.sessions)
  {
    MovedParts(s, r, q, keep);
    var booked := Entries(Chosen(q.targets, keep, q.today), s.next);
    var after := Move(s, r, q).routine.links;
    forall o ensures o in after <==> o in r.links
             ensures (o in r.links && forall k :: 0 <= k < |q.sessions| ==> q.sessions[k].occurrence != o) ==>
                       o in after && after[o] == r.links[o]
    {
      if k :| 0 <= k < |q.sessions| && q.sessions[k].occurrence == o {
        RelinkRow(r.links, q.sessions, q.targets, keep, booked, k);
      } else {
        RelinkOthers(r.links, q.sessions, q.targets, keep, booked, o);
      }
    }
  }

  lemma MovedStore(s: Store, r: Routine, q: MoveInput, keep: seq<Option<Id>>)
    requires Numbered(s) && |q.sessions| == |q.targets| && keep == Keep(q.sessions, q.targets, {})
    requires Move(s, r, q).result.Moved?
    ensures OldBookingsSettled(s, Move(s, r, q).store, Booked(q.sessions), Kept(keep), q.luck.stuck)
  {
    MovedParts(s, r, q, keep);
    var near := Chosen(q.targets, keep, q.today);
    var released := ToRelease(q.sessions, Kept(keep));
    AddAllKeeps(s, near);
    ReleaseExact(AddAll(s, near), released, q.luck.stuck);
    forall b ensures b in released <==> b in Booked(q.sessions) && b !in Kept(keep) {
      ToReleaseExact(q.sessions, Kept(keep), b);
    }
  }

  lemma MovedOntoSlot(s: Store, r: Routine, q: MoveInput, keep: seq<Option<Id>>, k: nat)
    requires Numbered(s) && |q.sessions| == |q.targets| && keep == Keep(q.sessions, q.targets, {}) && |keep| == |q.targets|
    requires Move(s, r, q).result.Moved? && DistinctRows(q.sessions) && AsRecorded(s, q.sessions)
    requires (forall i :: 0 <= i < |q.targets| ==> q.targets[i].index == i) && k < |q.sessions|
    ensures OnItsSlot(s, Move(s, r, q), q, keep, k)
  {
    MovedParts(s, r, q, keep);
    var near := Chosen(q.targets, keep, q.today);
    var released := ToRelease(q.sessions, Kept(keep));
    RelinkRow(r.links, q.sessions, q.targets, keep, Entries(near, s.next), k);
    BookingAtNew(q.targets, keep, q.today, s.next, 0, k);
    AddAllKeeps(s, near);
    ReleaseExact(AddAll(s, near), released, q.luck.stuck);
    if keep[k].Some? {
      KeptStands(s, q, keep, k);
      ToReleaseExact(q.sessions, Kept(keep), keep[k].value);
    } else if Chosen1(q.targets[k], keep[k], q.today) {
      var b := BookingAt(Entries(near, s.next), k).value;
      AddAllAt(s, near, b - s.next);
      ToReleaseExact(q.sessions, Kept(keep), b);
    }
  }

  /** A kept booking stands, live, on the slot it was kept for. */
  lemma KeptStands(s: Store, q: MoveInput, keep: seq<Option<Id>>, k: nat)
    requires |q.sessions| == |q.targets| == |keep| && keep == Keep(q.sessions, q.targets, {}) && k < |keep|
    requires AsRecorded(s, q.sessions) && keep[k].Some?
    ensures keep[k].value in s.bookings && keep[k].value in Kept(keep)
    ensures s.bookings[keep[k].value] == Visit(q.targets[k].day, q.targets[k].startMin, q.targets[k].staff, true)
  {
    KeepSound(q.sessions, q.targets, {});
    var i :| 0 <= i < |q.sessions| && q.sessions[i].booking == keep[k] && Matches(q.sessions[i], q.targets[k], {});
  }

  // ------------------------------------------------------------------ when it goes through

  lemma {:induction false} ToBookExact(targets: seq<Slot>, keep: seq<Option<Id>>, t: Slot)
    requires |targets| == |keep|
    ensures t in ToBook(targets, keep) <==> exists k :: 0 <= k < |targets| && targets[k] == t && keep[k].None?
  {
    if targets != [] {
      ToBookExact(targets[1..], keep[1..], t);
      if k :| 0 <= k < |targets| && targets[k] == t && keep[k].None? {
        if k > 0 { assert targets[1..][k - 1] == t && keep[1..][k - 1].None?; }
      }
      if k :| 0 <= k < |targets[1..]| && targets[1..][k] == t && keep[1..][k].None? {
        assert targets[k + 1] == t && keep[k + 1].None?;
      }
    }
  }

  /** Every session inside the horizon that keeps nothing gets its create. */
  predicate CreatesGoThrough(q: MoveInput, keep: seq<Option<Id>>)
    requires |q.targets| == |keep|
  {
    forall k :: 0 <= k < |keep| && keep[k].None? && q.targets[k].day - q.today <= 90 ==> ReplyTo(q.luck, q.targets[k]).Accepted?
  }

  /**
   * A move goes through if and only if every near session that keeps nothing can be booked, the routine
   * still has the status the move began with, and the save does not throw and finds every row; and it
   * says of the first of these that fails that it did.
   */
  lemma MovedIff(s: Store, r: Routine, q: MoveInput)
    requires |q.sessions| == |q.targets|
    ensures |Keep(q.sessions, q.targets, {})| == |q.targets|
    ensures var result := Move(s, r, q).result; var booked := CreatesGoThrough(q, Keep(q.sessions, q.targets, {}));
      && (result.NotFree? <==> !booked)
      && (result.StatusChanged? <==> booked && r.status != q.fromStatus)
      && (result.SaveThrew? <==> booked && r.status == q.fromStatus && (q.saveThrows || !AllRows(r.links, q.sessions)))
      && (result.Moved? <==> booked && r.status == q.fromStatus && !q.saveThrows && AllRows(r.links, q.sessions))
  {
    KeepLength(q.sessions, q.targets, {});
    var keep := Keep(q.sessions, q.targets, {});
    var slots := ToBook(q.targets, keep);
    BookFromIff(s, slots, q.today, q.luck, []);
    if CreatesGoThrough(q, keep) {
      forall i | 0 <= i < |slots| && !BeyondHorizon(slots[i].day, q.today) ensures ReplyTo(q.luck, slots[i]).Accepted? {
        ToBookExact(q.targets, keep, slots[i]);
      }
    }
    if forall i :: 0 <= i < |slots| && !BeyondHorizon(slots[i].day, q.today) ==> ReplyTo(q.luck, slots[i]).Accepted? {
      forall k | 0 <= k < |keep| && keep[k].None? && q.targets[k].day - q.today <= 90
        ensures ReplyTo(q.luck, q.targets[k]).Accepted?
      {
        ToBookExact(q.targets, keep, q.targets[k]);
        assert q.targets[k] in slots;
        var i :| 0 <= i < |slots| && slots[i] == q.targets[k];
      }
    }
  }
}
