/**
 * Booking the sessions of a routine: all of them or none, and moving a routine's sessions onto new
 * days by booking the new slots first, relinking in one transaction, and releasing the old ones last.
 * A single create either books, or is refused, or throws after its booking was written.
 */
module RoutineBooking {
  import opened Basics

  const HORIZON_DAYS := 90

  datatype Slot = Slot(index: nat, day: int, startMin: int, staff: Id)

  datatype Visit = Visit(day: int, startMin: int, staff: Id, live: bool)

  datatype Entry = Entry(index: nat, booking: Id)

  datatype Reply = Accepted | Refused | ThrewAfterBooking

  /** How the calls that may fail turn out: one reply per session, and the bookings no cancel reaches. */
  datatype Luck = Luck(replies: map<nat, Reply>, stuck: set<Id>)

  datatype Store = Store(bookings: map<Id, Visit>, next: Id)

  predicate BeyondHorizon(day: int, today: int) {
    day - today > HORIZON_DAYS
  }

  function ReplyTo(luck: Luck, slot: Slot): Reply {
    if slot.index in luck.replies then luck.replies[slot.index] else Accepted
  }

  function Add(s: Store, slot: Slot): Store {
    Store(s.bookings[s.next := Visit(slot.day, slot.startMin, slot.staff, true)], s.next + 1)
  }

  function Cancel(s: Store, id: Id, stuck: set<Id>): Store {
    if id in s.bookings && id !in stuck then s.(bookings := s.bookings[id := s.bookings[id].(live := false)]) else s
  }

  /** The newest first, each failure only logged. */
  function ReleaseAll(s: Store, ids: seq<Id>, stuck: set<Id>): Store
    decreases |ids|
  {
    if ids == [] then s else ReleaseAll(Cancel(s, ids[|ids| - 1], stuck), ids[..|ids| - 1], stuck)
  }

  function Ids(booked: seq<Entry>): seq<Id> {
    seq(|booked|, i requires 0 <= i < |booked| => booked[i].booking)
  }

  datatype Outcome =
    | AllBooked(store: Store, booked: seq<Entry>)
    | Failed(store: Store, at: nat, given: seq<Id>, leaked: Option<Id>)

  function BookFrom(s: Store, slots: seq<Slot>, today: int, luck: Luck, booked: seq<Entry>): Outcome
    decreases |slots|
  {
    if slots == [] then AllBooked(s, booked)
    else if BeyondHorizon(slots[0].day, today) then BookFrom(s, slots[1..], today, luck, booked)
    else
      match ReplyTo(luck, slots[0])
      case Accepted => BookFrom(Add(s, slots[0]), slots[1..], today, luck, booked + [Entry(slots[0].index, s.next)])
      case Refused => Failed(ReleaseAll(s, Ids(booked), luck.stuck), slots[0].index, Ids(booked), None)
      case ThrewAfterBooking =>
        Failed(ReleaseAll(Add(s, slots[0]), Ids(booked), luck.stuck), slots[0].index, Ids(booked), Some(s.next))
  }

  function BookAll(s: Store, slots: seq<Slot>, today: int, luck: Luck): Outcome {
    BookFrom(s, slots, today, luck, [])
  }

  function Near(slots: seq<Slot>, today: int): seq<Slot> {
    if slots == [] then []
    else if BeyondHorizon(slots[0].day, today) then Near(slots[1..], today)
    else [slots[0]] + Near(slots[1..], today)
  }

  ghost predicate InOrder(slots: seq<Slot>) {
    forall i, j :: 0 <= i < j < |slots| ==> slots[i].index < slots[j].index
  }

  lemma {:induction false} NearInOrder(slots: seq<Slot>, today: int)
    ensures forall s :: s in Near(slots, today) ==> s in slots
    ensures InOrder(slots) ==> InOrder(Near(slots, today))
  {
    if slots != [] {
      var rest := slots[1..];
      NearInOrder(rest, today);
      if InOrder(slots) {
        forall i, j | 0 <= i < j < |rest| ensures rest[i].index < rest[j].index {
          assert slots[i + 1].index < slots[j + 1].index;
        }
        forall s | s in Near(rest, today) ensures slots[0].index < s.index {
          var i :| 0 <= i < |rest| && rest[i] == s;
          assert slots[0].index < slots[i + 1].index;
        }
      }
    }
  }

  lemma {:induction false} NearCounted(slots: seq<Slot>, today: int, s: Slot)
    ensures multiset(Near(slots, today))[s] == if s.day - today <= 90 then multiset(slots)[s] else 0
  {
    if slots != [] {
      NearCounted(slots[1..], today, s);
      assert slots == [slots[0]] + slots[1..];
    }
  }

  /** The near sessions are those at most ninety days ahead, each as often as it was asked for, in order. */
  lemma NearExact(slots: seq<Slot>, today: int)
    ensures forall s :: multiset(Near(slots, today))[s] == if s.day - today <= 90 then multiset(slots)[s] else 0
    ensures InOrder(slots) ==> InOrder(Near(slots, today))
  {
    NearInOrder(slots, today);
    forall s ensures multiset(Near(slots, today))[s] == if s.day - today <= 90 then multiset(slots)[s] else 0 {
      NearCounted(slots, today, s);
    }
  }

  ghost function Live(s: Store): set<Id> {
    set b | b in s.bookings && s.bookings[b].live
  }

  predicate Numbered(s: Store) {
    forall b :: b in s.bookings ==> b < s.next
  }

  // ------------------------------------------------------------------ release

  lemma {:induction false} ReleaseAllLive(s: Store, ids: seq<Id>, stuck: set<Id>)
    ensures var e := ReleaseAll(s, ids, stuck);
      && e.next == s.next && e.bookings.Keys == s.bookings.Keys
      && Live(e) == Live(s) - ((set b | b in ids) - stuck)
      && (forall b :: b in s.bookings && (b !in ids || b in stuck) ==> e.bookings[b] == s.bookings[b])
    decreases |ids|
  {
    if ids != [] {
      var last := ids[|ids| - 1];
      var rest := ids[..|ids| - 1];
      assert ids == rest + [last];
      var t := Cancel(s, last, stuck);
      ReleaseAllLive(t, rest, stuck);
      assert Live(t) == Live(s) - ({last} - stuck);
      assert (set b | b in ids) == (set b | b in rest) + {last};
    }
  }

  // ------------------------------------------------------------------ all or nothing

  function Entries(near: seq<Slot>, next: Id): seq<Entry> {
    if near == [] then [] else [Entry(near[0].index, next)] + Entries(near[1..], next + 1)
  }

  function AddAll(s: Store, near: seq<Slot>): Store
    decreases |near|
  {
    if near == [] then s else AddAll(Add(s, near[0]), near[1..])
  }

  lemma {:induction false} BookFromSuccess(s: Store, slots: seq<Slot>, today: int, luck: Luck, booked: seq<Entry>)
    requires BookFrom(s, slots, today, luck, booked).AllBooked?
    ensures BookFrom(s, slots, today, luck, booked)
            == AllBooked(AddAll(s, Near(slots, today)), booked + Entries(Near(slots, today), s.next))
    decreases |slots|
  {
    if slots != [] {
      if BeyondHorizon(slots[0].day, today) {
        BookFromSuccess(s, slots[1..], today, luck, booked);
      } else {
        var more := booked + [Entry(slots[0].index, s.next)];
        var rest := Near(slots[1..], today);
        BookFromSuccess(Add(s, slots[0]), slots[1..], today, luck, more);
        assert Near(slots, today)[1..] == rest;
        assert more + Entries(rest, s.next + 1) == booked + Entries(Near(slots, today), s.next);
      }
    }
  }

  lemma {:induction false} EntriesAt(near: seq<Slot>, next: Id, k: nat)
    requires k < |near|
    ensures |Entries(near, next)| == |near| && Entries(near, next)[k] == Entry(near[k].index, next + k)
  {
    if k > 0 {
      EntriesAt(near[1..], next + 1, k - 1);
    } else if |near| > 1 {
      EntriesAt(near[1..], next + 1, 0);
    }
  }

  lemma {:induction false} AddAllAt(s: Store, near: seq<Slot>, k: nat)
    requires Numbered(s) && k < |near|
    ensures var id := s.next + k;
      id in AddAll(s, near).bookings
      && AddAll(s, near).bookings[id] == Visit(near[k].day, near[k].startMin, near[k].staff, true)
    decreases |near|
  {
    if k > 0 {
      AddAllAt(Add(s, near[0]), near[1..], k - 1);
    } else {
      AddAllKeeps(Add(s, near[0]), near[1..]);
    }
  }

  lemma {:induction false} AddAllKeeps(s: Store, near: seq<Slot>)
    requires Numbered(s)
    ensures var e := AddAll(s, near);
      && e.next == s.next + |near| && Numbered(e)
      && (forall b :: b in s.bookings ==> b in e.bookings && e.bookings[b] == s.bookings[b])
      && (forall b :: b in e.bookings && b !in s.bookings ==> s.next <= b)
    decreases |near|
  {
    if near != [] { AddAllKeeps(Add(s, near[0]), near[1..]); }
  }

  /**
   * On success every session inside the horizon, and none beyond it, has one new live booking at
   * exactly its day, minute and stylist; the ids are new and distinct, and nothing else changed.
   */
  ghost predicate BookedExactly(s: Store, e: Store, near: seq<Slot>, booked: seq<Entry>) {
    && |booked| == |near| && e.next == s.next + |near|
    && (forall k :: 0 <= k < |near| ==>
          && booked[k].index == near[k].index && booked[k].booking == s.next + k
          && booked[k].booking in e.bookings
          && e.bookings[booked[k].booking] == Visit(near[k].day, near[k].startMin, near[k].staff, true))
    && (forall b :: b in s.bookings ==> b in e.bookings && e.bookings[b] == s.bookings[b])
    && (forall b :: b in e.bookings && b !in s.bookings ==> s.next <= b < e.next)
  }

  lemma BookAllExact(s: Store, slots: seq<Slot>, today: int, luck: Luck)
    requires Numbered(s) && BookAll(s, slots, today, luck).AllBooked?
    ensures var o := BookAll(s, slots, today, luck);
      BookedExactly(s, o.store, Near(slots, today), o.booked)
  {
    var near := Near(slots, today);
    BookFromSuccess(s, slots, today, luck, []);
    AddAllKeeps(s, near);
    var booked := Entries(near, s.next);
    assert [] + booked == booked;
    forall k | 0 <= k < |near|
      ensures |booked| == |near| && booked[k].index == near[k].index && booked[k].booking == s.next + k
      ensures booked[k].booking in AddAll(s, near).bookings
        && AddAll(s, near).bookings[booked[k].booking] == Visit(near[k].day, near[k].startMin, near[k].staff, true)
    {
      EntriesAt(near, s.next, k);
      AddAllAt(s, near, k);
    }
  }

  /** It succeeds if and only if every create of a session inside the horizon does. */
  lemma {:induction false} BookFromIff(s: Store, slots: seq<Slot>, today: int, luck: Luck, booked: seq<Entry>)
    ensures BookFrom(s, slots, today, luck, booked).AllBooked? <==>
      forall i :: 0 <= i < |slots| && !BeyondHorizon(slots[i].day, today) ==> ReplyTo(luck, slots[i]).Accepted?
    decreases |slots|
  {
    if slots != [] {
      if BeyondHorizon(slots[0].day, today) {
        BookFromIff(s, slots[1..], today, luck, booked);
      } else if ReplyTo(luck, slots[0]).Accepted? {
        BookFromIff(Add(s, slots[0]), slots[1..], today, luck, booked + [Entry(slots[0].index, s.next)]);
      }
      assert forall i :: 0 < i < |slots| ==> slots[i] == slots[1..][i - 1];
    }
  }

  /** A near session that is not accepted, when all the near ones before it are. */
  predicate FirstLost(slots: seq<Slot>, today: int, luck: Luck, i: nat) {
    && i < |slots| && slots[i].day - today <= 90 && !ReplyTo(luck, slots[i]).Accepted?
    && forall j :: 0 <= j < i && slots[j].day - today <= 90 ==> ReplyTo(luck, slots[j]).Accepted?
  }

  /** A run that fails names the first session it lost. */
  lemma {:induction false} FailsAtTheFirst(s: Store, slots: seq<Slot>, today: int, luck: Luck, booked: seq<Entry>)
    requires BookFrom(s, slots, today, luck, booked).Failed?
    ensures exists i: nat :: FirstLost(slots, today, luck, i) && slots[i].index == BookFrom(s, slots, today, luck, booked).at
    decreases |slots|
  {
    var o := BookFrom(s, slots, today, luck, booked);
    if BeyondHorizon(slots[0].day, today) {
      FailsAtTheFirst(s, slots[1..], today, luck, booked);
      LaterLost(slots, today, luck, o.at);
    } else if ReplyTo(luck, slots[0]).Accepted? {
      FailsAtTheFirst(Add(s, slots[0]), slots[1..], today, luck, booked + [Entry(slots[0].index, s.next)]);
      LaterLost(slots, today, luck, o.at);
    } else {
      assert FirstLost(slots, today, luck, 0);
    }
  }

  lemma LaterLost(slots: seq<Slot>, today: int, luck: Luck, at: nat)
    requires slots != [] && (slots[0].day - today <= 90 ==> ReplyTo(luck, slots[0]).Accepted?)
    requires exists i: nat :: FirstLost(slots[1..], today, luck, i) && slots[1..][i].index == at
    ensures exists i: nat :: FirstLost(slots, today, luck, i) && slots[i].index == at
  {
    var i: nat :| FirstLost(slots[1..], today, luck, i) && slots[1..][i].index == at;
    forall j | 0 <= j < i + 1 && slots[j].day - today <= 90 ensures ReplyTo(luck, slots[j]).Accepted? {
      if j > 0 { assert slots[j] == slots[1..][j - 1]; }
    }
    assert FirstLost(slots, today, luck, i + 1) && slots[i + 1].index == at;
  }

  ghost function Since(booked: seq<Entry>): set<Id> {
    set b | b in Ids(booked)
  }

  /** On failure what lives is what lived, less nothing, plus only what could not be given back. */
  ghost predicate LeavesOnly(start: Store, o: Outcome, stuck: set<Id>) {
    && o.Failed?
    && Live(o.store) == Live(start) + ((set b | b in o.given) * stuck) + (if o.leaked.Some? then {o.leaked.value} else {})
    && (forall b :: b in o.given ==> start.next <= b < o.store.next)
    && (forall b :: b in start.bookings ==> b in o.store.bookings && o.store.bookings[b] == start.bookings[b])
  }

  lemma {:induction false} BookFromFailure(
      start: Store, s: Store, slots: seq<Slot>, today: int, luck: Luck, booked: seq<Entry>)
    requires Numbered(start) && Numbered(s) && start.next <= s.next
    requires BookFrom(s, slots, today, luck, booked).Failed?
    requires Live(s) == Live(start) + Since(booked)
    requires forall b :: b in Ids(booked) ==> start.next <= b < s.next && b in s.bookings
    requires forall b :: b in start.bookings ==> b in s.bookings && s.bookings[b] == start.bookings[b]
    ensures LeavesOnly(start, BookFrom(s, slots, today, luck, booked), luck.stuck)
    decreases |slots|
  {
    if BeyondHorizon(slots[0].day, today) {
      BookFromFailure(start, s, slots[1..], today, luck, booked);
    } else if ReplyTo(luck, slots[0]).Accepted? {
      var t := Add(s, slots[0]);
      var more := booked + [Entry(slots[0].index, s.next)];
      assert Ids(more) == Ids(booked) + [s.next];
      assert Live(t) == Live(s) + {s.next};
      BookFromFailure(start, t, slots[1..], today, luck, more);
    } else {
      var t := if ReplyTo(luck, slots[0]).Refused? then s else Add(s, slots[0]);
      assert Live(t) == Live(s) + (if ReplyTo(luck, slots[0]).Refused? then {} else {s.next});
      ReleaseAllLive(t, Ids(booked), luck.stuck);
    }
  }

  /** All or nothing, up to the bookings whose release failed and one a create wrote before it threw. */
  lemma BookAllOrNothing(s: Store, slots: seq<Slot>, today: int, luck: Luck)
    requires Numbered(s) && BookAll(s, slots, today, luck).Failed?
    ensures LeavesOnly(s, BookAll(s, slots, today, luck), luck.stuck)
  {
    BookFromFailure(s, s, slots, today, luck, []);
  }
}
