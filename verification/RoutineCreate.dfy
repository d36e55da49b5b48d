/**
 * From a preview to its create: the customer's picks laid over the plan, and the sessions booked one
 * after another on the diary, each by the single create. Sessions of a routine never share a day, and a
 * create changes only its own day's reading, so each is answered as it would have been at the start;
 * whether the write agrees with the engine is the one thing a preview cannot promise.
 */
module RoutineCreate {
  import opened Basics
  import opened Lifecycle
  import opened Chain
  import opened Diary
  import opened DiaryProofs
  import opened DiaryDays
  import opened RoutineBooking
  import C = Confirming
  import M = MobileCreate
  import P = RoutinePreview

  datatype PickChoice = PickChoice(index: nat, day: int, startMin: int, staff: Option<Id>)

  datatype Laid = Slots(slots: seq<Slot>) | InvalidPick(at: nat) | DayTaken(of: nat)

  // ------------------------------------------------------------------ picks

  predicate Plans(planned: seq<Slot>, index: nat) {
    exists i :: 0 <= i < |planned| && planned[i].index == index
  }

  function FirstUnknown(picks: seq<PickChoice>, planned: seq<Slot>, at: nat): Option<nat> {
    if picks == [] then None
    else if !Plans(planned, picks[0].index) then Some(at)
    else FirstUnknown(picks[1..], planned, at + 1)
  }

  /** The last pick that names the session is the one that counts. */
  function PickFor(picks: seq<PickChoice>, index: nat): Option<PickChoice>
    decreases |picks|
  {
    if picks == [] then None
    else if picks[|picks| - 1].index == index then Some(picks[|picks| - 1])
    else PickFor(picks[..|picks| - 1], index)
  }

  function Lay(slot: Slot, picks: seq<PickChoice>): Slot {
    match PickFor(picks, slot.index)
    case None => slot
    case Some(p) => Slot(slot.index, p.day, p.startMin, if p.staff.Some? then p.staff.value else slot.staff)
  }

  function FirstTaken(slots: seq<Slot>, taken: set<int>): Option<nat> {
    if slots == [] then None
    else if slots[0].day in taken then Some(slots[0].index)
    else FirstTaken(slots[1..], taken + {slots[0].day})
  }

  /** The planned sessions are given in the order of their numbers, so the first taken day is the lowest number's. */
  function ApplyPicks(planned: seq<Slot>, picks: seq<PickChoice>, otherDays: set<int>): Laid {
    var unknown := FirstUnknown(picks, planned, 0);
    if unknown.Some? then InvalidPick(unknown.value)
    else
      var slots := seq(|planned|, i requires 0 <= i < |planned| => Lay(planned[i], picks));
      var taken := FirstTaken(slots, otherDays);
      if taken.Some? then DayTaken(taken.value) else Slots(slots)
  }

  predicate DistinctDays(slots: seq<Slot>) {
    forall i, j :: 0 <= i < j < |slots| ==> slots[i].day != slots[j].day
  }

  lemma {:induction false} FirstTakenExact(slots: seq<Slot>, taken: set<int>)
    ensures FirstTaken(slots, taken).None? <==>
      DistinctDays(slots) && forall i :: 0 <= i < |slots| ==> slots[i].day !in taken
  {
    if slots != [] {
      var rest := slots[1..];
      FirstTakenExact(rest, taken + {slots[0].day});
      assert forall i :: 0 < i < |slots| ==> slots[i] == rest[i - 1];
      if DistinctDays(slots) {
        forall i, j | 0 <= i < j < |rest| ensures rest[i].day != rest[j].day {
          assert slots[i + 1].day != slots[j + 1].day;
        }
        forall i | 0 <= i < |rest| ensures rest[i].day != slots[0].day { assert slots[i + 1] == rest[i]; }
      }
      if FirstTaken(slots, taken).None? {
        forall i, j | 0 <= i < j < |slots| ensures slots[i].day != slots[j].day {
          if i > 0 { assert rest[i - 1].day != rest[j - 1].day; }
        }
      }
    }
  }

  lemma {:induction false} FirstUnknownExact(picks: seq<PickChoice>, planned: seq<Slot>, at: nat)
    ensures match FirstUnknown(picks, planned, at)
      case None => forall i :: 0 <= i < |picks| ==> Plans(planned, picks[i].index)
      case Some(k) =>
        && at <= k < at + |picks| && !Plans(planned, picks[k - at].index)
        && forall i :: 0 <= i < k - at ==> Plans(planned, picks[i].index)
  {
    if picks != [] {
      FirstUnknownExact(picks[1..], planned, at + 1);
      assert forall i :: 0 < i < |picks| ==> picks[i] == picks[1..][i - 1];
    }
  }

  /**
   * Picks are accepted exactly when each names a planned session and the sessions they leave share no
   * day with one another or with the days already held; each session is then its own pick, or as planned.
   */
  lemma PicksAccepted(planned: seq<Slot>, picks: seq<PickChoice>, otherDays: set<int>)
    ensures var laid := seq(|planned|, i requires 0 <= i < |planned| => Lay(planned[i], picks));
      && (ApplyPicks(planned, picks, otherDays).Slots? <==>
            && (forall i :: 0 <= i < |picks| ==> Plans(planned, picks[i].index))
            && DistinctDays(laid) && (forall i :: 0 <= i < |laid| ==> laid[i].day !in otherDays))
      && (ApplyPicks(planned, picks, otherDays).Slots? ==> ApplyPicks(planned, picks, otherDays).slots == laid)
  {
    FirstUnknownExact(picks, planned, 0);
    FirstTakenExact(seq(|planned|, i requires 0 <= i < |planned| => Lay(planned[i], picks)), otherDays);
  }

  /** Slot `k` is the first whose day is held already, or is an earlier slot's. */
  ghost predicate FirstClash(slots: seq<Slot>, taken: set<int>, k: nat)
    requires k < |slots|
  {
    && (slots[k].day in taken || exists j :: 0 <= j < k && slots[j].day == slots[k].day)
    && DistinctDays(slots[..k]) && (forall j :: 0 <= j < k ==> slots[j].day !in taken)
  }

  lemma {:induction false} TakenNamesTheFirst(slots: seq<Slot>, taken: set<int>)
    requires FirstTaken(slots, taken).Some?
    ensures exists k :: 0 <= k < |slots| && slots[k].index == FirstTaken(slots, taken).value && FirstClash(slots, taken, k)
  {
    if slots[0].day in taken {
      assert FirstClash(slots, taken, 0);
    } else {
      var rest, more := slots[1..], taken + {slots[0].day};
      TakenNamesTheFirst(rest, more);
      var k :| 0 <= k < |rest| && rest[k].index == FirstTaken(rest, more).value && FirstClash(rest, more, k);
      ClashBehind(slots, taken, k);
    }
  }

  lemma ClashBehind(slots: seq<Slot>, taken: set<int>, k: nat)
    requires slots != [] && slots[0].day !in taken && k < |slots| - 1
    requires FirstClash(slots[1..], taken + {slots[0].day}, k)
    ensures FirstClash(slots, taken, k + 1)
  {
    var rest := slots[1..];
    assert forall j :: 0 <= j < |rest| ==> rest[j] == slots[j + 1];
    if exists j :: 0 <= j < k && rest[j].day == rest[k].day {
      var j :| 0 <= j < k && rest[j].day == rest[k].day;
      assert slots[j + 1].day == slots[k + 1].day;
    }
    forall i, j | 0 <= i < j < k + 1 ensures slots[i].day != slots[j].day {
      assert slots[j] == rest[j - 1];
      if i > 0 { assert rest[..k][i - 1].day != rest[..k][j - 1].day; }
    }
    assert DistinctDays(slots[..k + 1]);
    forall j | 0 <= j < k + 1 ensures slots[j].day !in taken {
      if j > 0 { assert slots[j] == rest[j - 1]; }
    }
  }

  /** A refusal names the first pick of a session that is not planned, or the first session whose day is taken. */
  lemma RefusalNames(planned: seq<Slot>, picks: seq<PickChoice>, otherDays: set<int>)
    ensures var laid := seq(|planned|, i requires 0 <= i < |planned| => Lay(planned[i], picks));
      match ApplyPicks(planned, picks, otherDays)
      case InvalidPick(at) =>
        && at < |picks| && !Plans(planned, picks[at].index)
        && (forall i :: 0 <= i < at ==> Plans(planned, picks[i].index))
      case DayTaken(of) => exists k :: 0 <= k < |laid| && laid[k].index == of && FirstClash(laid, otherDays, k)
      case Slots(_) => true
  {
    var laid := seq(|planned|, i requires 0 <= i < |planned| => Lay(planned[i], picks));
    FirstUnknownExact(picks, planned, 0);
    if FirstTaken(laid, otherDays).Some? { TakenNamesTheFirst(laid, otherDays); }
  }

  /** Pick `k` is the last that names the session. */
  ghost predicate LastFor(picks: seq<PickChoice>, index: nat, k: nat)
    requires k < |picks|
  {
    picks[k].index == index && forall j :: k < j < |picks| ==> picks[j].index != index
  }

  lemma {:induction false} PickForIsLast(picks: seq<PickChoice>, index: nat)
    ensures match PickFor(picks, index)
      case None => forall k :: 0 <= k < |picks| ==> picks[k].index != index
      case Some(p) => exists k :: 0 <= k < |picks| && picks[k] == p && LastFor(picks, index, k)
    decreases |picks|
  {
    if picks != [] {
      var last := |picks| - 1;
      if picks[last].index == index {
        assert LastFor(picks, index, last);
      } else {
        PickForIsLast(picks[..last], index);
        if PickFor(picks, index).Some? {
          var k :| 0 <= k < last && picks[..last][k] == PickFor(picks, index).value && LastFor(picks[..last], index, k);
          forall j | k < j < |picks| ensures picks[j].index != index {
            if j < last { assert picks[j] == picks[..last][j]; }
          }
          assert LastFor(picks, index, k);
        }
      }
    }
  }

  /** The session as the pick has it: its day and minute, and its professional when it names one. */
  ghost predicate AsPicked(laid: Slot, planned: Slot, p: PickChoice) {
    && laid.index == planned.index && laid.day == p.day && laid.startMin == p.startMin
    && (p.staff.Some? ==> laid.staff == p.staff.value) && (p.staff.None? ==> laid.staff == planned.staff)
  }

  /** Each session is as its last pick has it, or as planned when no pick names it. */
  lemma LaidAsPicked(planned: seq<Slot>, picks: seq<PickChoice>, otherDays: set<int>, i: nat)
    requires ApplyPicks(planned, picks, otherDays).Slots? && i < |planned|
    ensures |ApplyPicks(planned, picks, otherDays).slots| == |planned|
    ensures var laid := ApplyPicks(planned, picks, otherDays).slots[i];
      && (forall k :: 0 <= k < |picks| && LastFor(picks, planned[i].index, k) ==> AsPicked(laid, planned[i], picks[k]))
      && ((forall k :: 0 <= k < |picks| ==> picks[k].index != planned[i].index) ==> laid == planned[i])
  {
    PicksAccepted(planned, picks, otherDays);
    PickForIsLast(picks, planned[i].index);
    var found := PickFor(picks, planned[i].index);
    if found.Some? {
      var k :| 0 <= k < |picks| && picks[k] == found.value && LastFor(picks, planned[i].index, k);
      assert forall j :: 0 <= j < |picks| && LastFor(picks, planned[i].index, j) ==> j == k;
    }
  }

  // ------------------------------------------------------------------ one session on the diary

  function ChoiceOf(s: Slot): P.Choice {
    P.Choice(s.day, s.startMin, s.staff)
  }

  /** How the create of a session fares: what fails, when it confirms, how long its hold lives. */
  datatype Fate = Fate(fault: M.Fault, now: int, expiresAt: int)

  datatype Salon = Salon(
    engine: P.Engine, branch: Id, services: seq<Service>, units: Units, text: Id -> string,
    fate: nat -> Fate, stuck: set<Id> /* bookings no cancel reaches */)

  function PlaceFor(w: Salon, s: Slot): PlaceRequest {
    PlaceRequest(w.branch, s.day, s.staff, s.startMin, w.services, w.fate(s.index).expiresAt)
  }

  /** Paid at the salon, and no key sent: confirm derives one from the hold. */
  function ConfirmFor(w: Salon, d: Diary): ConfirmRequest {
    ConfirmRequest(d.next, C.PREFIX + w.text(d.next), w.branch, w.services, NoPayment)
  }

  ghost function OutcomeFor(w: Salon, d: Diary, s: Slot): M.Created {
    M.Outcome(d, PlaceFor(w, s), ConfirmFor(w, d), w.units, w.fate(s.index).fault, w.fate(s.index).now)
  }

  /** The hold asks the engine afresh, on the diary as it is by then. */
  ghost predicate Made(w: Salon, d: Diary, s: Slot) {
    P.Free(w.engine, d.rows, ChoiceOf(s)) && OutcomeFor(w, d, s).Made?
  }

  ghost function After(w: Salon, d: Diary, s: Slot): Diary {
    if P.Free(w.engine, d.rows, ChoiceOf(s)) then
      M.Create(d, PlaceFor(w, s), ConfirmFor(w, d), w.units, w.fate(s.index).fault, w.fate(s.index).now)
    else d
  }

  /** The create threw, and the booking it had written stays. */
  ghost predicate Leaks(w: Salon, d: Diary, s: Slot) {
    P.Free(w.engine, d.rows, ChoiceOf(s)) && OutcomeFor(w, d, s).Failed?
    && (OutcomeFor(w, d, s).at.StoreThrows? || OutcomeFor(w, d, s).at.PresentThrows?)
  }

  ghost function Leak(w: Salon, d: Diary, s: Slot): Option<Id> {
    if Leaks(w, d, s) then Some(PlaceWrite(d, PlaceFor(w, s)).next) else None
  }

  ghost predicate Spells(text: Id -> string) {
    forall h, g :: text(h) == text(g) ==> h == g
  }

  /** A diary as the service keeps it. */
  ghost predicate Kept(w: Salon, d: Diary) {
    Sound(d) && C.DerivedKeysHonest(d, w.text)
  }

  lemma FreshKey(w: Salon, d: Diary)
    requires Kept(w, d)
    ensures ConfirmFor(w, d).key !in d.keys
  {
    assert C.PREFIX + w.text(d.next) == ConfirmFor(w, d).key;
  }

  predicate Lucky(w: Salon, s: Slot) {
    (w.fate(s.index).fault.NoFault? || w.fate(s.index).fault.LinkThrows?) && w.fate(s.index).now < w.fate(s.index).expiresAt
  }

  /** A hold just placed confirms unless it has lapsed. */
  lemma FreshHoldConfirms(d: Diary, q: PlaceRequest, c: ConfirmRequest, now: int)
    requires q.services != [] && c.hold == d.next && c.key !in d.keys && c.payment.NoPayment? && c.services == q.services
    ensures HoldHasPerson(PlaceWrite(d, q), d.next)
    ensures ConfirmVerdict(PlaceWrite(d, q), c, now) == if now < q.expiresAt then Booked(PlaceWrite(d, q).next) else HoldExpired
  {
    var held := PlaceWrite(d, q);
    assert held.rows[d.next + 1] == VisitRow(q, d.next);
    assert HoldsPerson(held, d.next, d.next + 1);
  }

  lemma FreshHoldMakes(held: Diary, c: ConfirmRequest, fault: M.Fault, now: int)
    requires c.key !in held.keys && c.payment.NoPayment? && HoldHasPerson(held, c.hold) && c.services != []
    requires ConfirmVerdict(held, c, now) == Booked(held.next) || ConfirmVerdict(held, c, now).HoldExpired?
    ensures var made := M.AnswerAfterHold(held, c, fault, now); var e := M.AfterHold(held, c, fault, now);
      if fault.ConfirmThrows? || ConfirmVerdict(held, c, now).HoldExpired? then
        made == M.Failed(M.ConfirmThrows) && e == Release(held, c.hold)
      else
        match fault
        case StoreThrows => made == M.Failed(fault) && e == Release(ConfirmWrite(held, c), c.hold)
        case PresentThrows => made == M.Failed(fault) && e == ConfirmWrite(held, c)
        case _ => made == M.Made(held.next) && e == ConfirmWrite(held, c)
  {}

  /** A session is made exactly when its place is taken, nothing fails and its hold lives to be confirmed. */
  lemma MadeIff(w: Salon, d: Diary, s: Slot)
    requires Kept(w, d)
    ensures OutcomeFor(w, d, s).Made? <==> PlaceVerdict(d, PlaceFor(w, s), w.units).Placed? && Lucky(w, s)
    ensures Made(w, d, s) ==>
      && OutcomeFor(w, d, s) == M.Made(PlaceWrite(d, PlaceFor(w, s)).next) && w.services != []
      && HoldHasPerson(PlaceWrite(d, PlaceFor(w, s)), d.next)
      && After(w, d, s) == ConfirmWrite(PlaceWrite(d, PlaceFor(w, s)), ConfirmFor(w, d))
  {
    var q, c, fate := PlaceFor(w, s), ConfirmFor(w, d), w.fate(s.index);
    if PlaceVerdict(d, q, w.units).Placed? {
      FreshKey(w, d);
      FreshHoldConfirms(d, q, c, fate.now);
      FreshHoldMakes(PlaceWrite(d, q), c, fate.fault, fate.now);
      assert c.(hold := d.next) == c;
    }
  }

  predicate Cursed(w: Salon, s: Slot) {
    var fate := w.fate(s.index);
    (fate.fault.StoreThrows? || fate.fault.PresentThrows?) && fate.now < fate.expiresAt
  }

  /** A session that is not made is lost without a trace, or its create threw after writing the booking. */
  lemma LostIff(w: Salon, d: Diary, s: Slot)
    requires Kept(w, d)
    ensures Leaks(w, d, s) <==>
      P.Free(w.engine, d.rows, ChoiceOf(s)) && PlaceVerdict(d, PlaceFor(w, s), w.units).Placed? && Cursed(w, s)
    ensures var held := PlaceWrite(d, PlaceFor(w, s)); var c := ConfirmFor(w, d); var e := After(w, d, s);
      && (Leaks(w, d, s) ==>
            && w.services != [] && HoldHasPerson(held, c.hold)
            && (e == ConfirmWrite(held, c) || e == Release(ConfirmWrite(held, c), c.hold)))
      && (!Leaks(w, d, s) && !Made(w, d, s) ==> e == d || e == Release(held, c.hold))
  {
    var q, c, fate := PlaceFor(w, s), ConfirmFor(w, d), w.fate(s.index);
    if PlaceVerdict(d, q, w.units).Placed? {
      FreshKey(w, d);
      FreshHoldConfirms(d, q, c, fate.now);
      FreshHoldMakes(PlaceWrite(d, q), c, fate.fault, fate.now);
      assert c.(hold := d.next) == c;
    }
  }

  // ------------------------------------------------------------------ what a session leaves

  lemma KeysAfterHold(held: Diary, c: ConfirmRequest, fault: M.Fault, now: int)
    requires c.key !in held.keys && held.next !in held.bookings
    ensures var e := M.AfterHold(held, c, fault, now);
      && (e.keys == held.keys
          || (e.keys == held.keys[c.key := held.next] && held.next in e.bookings && e.bookings[held.next].origin == c.hold))
      && (forall b :: b in held.bookings ==> b in e.bookings && e.bookings[b] == held.bookings[b])
  {}

  lemma CreateHonest(w: Salon, d: Diary, s: Slot)
    requires Kept(w, d) && Spells(w.text)
    ensures C.DerivedKeysHonest(After(w, d, s), w.text)
  {
    var c, e := ConfirmFor(w, d), After(w, d, s);
    FreshKey(w, d);
    if e != d {
      var held := PlaceWrite(d, PlaceFor(w, s));
      KeysAfterHold(held, c, w.fate(s.index).fault, w.fate(s.index).now);
      forall h: Id | C.PREFIX + w.text(h) in e.keys
        ensures e.keys[C.PREFIX + w.text(h)] in e.bookings && e.bookings[e.keys[C.PREFIX + w.text(h)]].origin == h
      {
        assert (C.PREFIX + w.text(h))[|C.PREFIX|..] == w.text(h) && c.key[|C.PREFIX|..] == w.text(d.next);
      }
    }
  }

  lemma AfterKept(w: Salon, d: Diary, s: Slot)
    requires Kept(w, d) && Spells(w.text)
    ensures Kept(w, After(w, d, s))
  {
    CreateHonest(w, d, s);
    M.CreateSound(d, PlaceFor(w, s), ConfirmFor(w, d), w.units, w.fate(s.index).fault, w.fate(s.index).now);
  }

  /** What another day's session would come to is what it would have come to before. */
  lemma MadeOnAnotherDay(w: Salon, d: Diary, s: Slot, other: Slot)
    requires Kept(w, d) && Spells(w.text) && other.day != s.day
    requires InsideDay(PlaceFor(w, s)) && InsideDay(PlaceFor(w, other))
    ensures Made(w, After(w, d, s), other) <==> Made(w, d, other)
    ensures Leaks(w, After(w, d, s), other) <==> Leaks(w, d, other)
  {
    var e, q := After(w, d, s), PlaceFor(w, other);
    FreshKey(w, d);
    AfterKept(w, d, s);
    CreateLeavesOtherDays(
      d, PlaceFor(w, s), ConfirmFor(w, d), w.units, w.fate(s.index).fault, w.fate(s.index).now, q);
    MadeIff(w, d, other);
    MadeIff(w, e, other);
    LostIff(w, d, other);
    LostIff(w, e, other);
  }

  // ------------------------------------------------------------------ the run

  /** Newest first; a cancel that does not go through is passed over. */
  function CancelAll(d: Diary, ids: seq<Id>, stuck: set<Id>): Diary
    decreases |ids|
  {
    if ids == [] then d
    else
      var last := ids[|ids| - 1];
      CancelAll(if last in stuck then d else Transition(d, last, Cancelled, Customer, true), ids[..|ids| - 1], stuck)
  }

  /** A run that lost a session says which, what was booked by then, and what the lost one wrote before it threw. */
  datatype Ended =
    | Created(diary: Diary, booked: seq<Entry>)
    | Lost(at: nat, booked: seq<Entry>, leaked: Option<Id>, diary: Diary)

  /** Each session inside the horizon on the diary as it is by then; the first that is lost undoes the others. */
  ghost function Create(w: Salon, d: Diary, slots: seq<Slot>, today: int, booked: seq<Entry>): Ended
    decreases |slots|
  {
    if slots == [] then Created(d, booked)
    else if BeyondHorizon(slots[0].day, today) then Create(w, d, slots[1..], today, booked)
    else if Made(w, d, slots[0]) then
      Create(w, After(w, d, slots[0]), slots[1..], today, booked + [Entry(slots[0].index, OutcomeFor(w, d, slots[0]).booking)])
    else
      Lost(slots[0].index, booked, Leak(w, d, slots[0]), CancelAll(After(w, d, slots[0]), Ids(booked), w.stuck))
  }

  predicate AllInside(w: Salon, slots: seq<Slot>) {
    forall i :: 0 <= i < |slots| ==> InsideDay(PlaceFor(w, slots[i]))
  }

  lemma RestOf(w: Salon, slots: seq<Slot>)
    requires slots != [] && DistinctDays(slots) && AllInside(w, slots)
    ensures var rest := slots[1..];
      && DistinctDays(rest) && AllInside(w, rest)
      && (forall i :: 0 <= i < |rest| ==> rest[i] == slots[i + 1] && rest[i].day != slots[0].day)
      && (forall i :: 0 < i < |slots| ==> slots[i] == rest[i - 1])
  {
    var rest := slots[1..];
    forall i, j | 0 <= i < j < |rest| ensures rest[i].day != rest[j].day {
      assert slots[i + 1].day != slots[j + 1].day;
    }
    forall i | 0 <= i < |rest| ensures rest[i].day != slots[0].day && InsideDay(PlaceFor(w, rest[i])) {
      assert rest[i] == slots[i + 1];
    }
  }

  /**
   * Sessions on distinct days, each inside its day: the run books them all if and only if each near one
   * would be made on the diary the run starts from, the write and the chairs included.
   */
  lemma {:induction false} CreateIff(w: Salon, d: Diary, slots: seq<Slot>, today: int, booked: seq<Entry>)
    requires Kept(w, d) && Spells(w.text) && DistinctDays(slots) && AllInside(w, slots)
    ensures Create(w, d, slots, today, booked).Created? <==>
      forall i :: 0 <= i < |slots| && !BeyondHorizon(slots[i].day, today) ==> Made(w, d, slots[i])
    decreases |slots|
  {
    if slots != [] {
      var rest := slots[1..];
      RestOf(w, slots);
      if BeyondHorizon(slots[0].day, today) {
        CreateIff(w, d, rest, today, booked);
      } else if Made(w, d, slots[0]) {
        AfterKept(w, d, slots[0]);
        CreateIff(w, After(w, d, slots[0]), rest, today, booked + [Entry(slots[0].index, OutcomeFor(w, d, slots[0]).booking)]);
        forall i | 0 <= i < |rest| ensures Made(w, After(w, d, slots[0]), rest[i]) <==> Made(w, d, rest[i]) {
          MadeOnAnotherDay(w, d, slots[0], rest[i]);
        }
      }
    }
  }

  /** A session past the horizon is saved, not checked. */
  predicate AllFree(engine: P.Engine, rows: P.Rows, slots: seq<Slot>, today: int) {
    forall i :: 0 <= i < |slots| && !BeyondHorizon(slots[i].day, today) ==> P.Free(engine, rows, ChoiceOf(slots[i]))
  }

  /**
   * A preview that says all are free is honoured. With nobody else writing, the create with the same
   * picks books every session inside the horizon if and only if, on the diary that was previewed, the
   * write has room for each of them, and none of their creates fails of itself.
   */
  lemma PreviewHonoured(
      w: Salon, d: Diary, planned: seq<Slot>, picks: seq<PickChoice>, otherDays: set<int>, today: int)
    requires Kept(w, d) && Spells(w.text) && ApplyPicks(planned, picks, otherDays).Slots?
    requires AllInside(w, ApplyPicks(planned, picks, otherDays).slots)
    requires AllFree(w.engine, d.rows, ApplyPicks(planned, picks, otherDays).slots, today)
    ensures var slots := ApplyPicks(planned, picks, otherDays).slots;
      Create(w, d, slots, today, []).Created? <==>
        forall i :: 0 <= i < |slots| && !BeyondHorizon(slots[i].day, today) ==>
          PlaceVerdict(d, PlaceFor(w, slots[i]), w.units).Placed? && Lucky(w, slots[i])
  {
    var slots := ApplyPicks(planned, picks, otherDays).slots;
    PicksAccepted(planned, picks, otherDays);
    CreateIff(w, d, slots, today, []);
    forall i | 0 <= i < |slots| && !BeyondHorizon(slots[i].day, today)
      ensures Made(w, d, slots[i]) <==> PlaceVerdict(d, PlaceFor(w, slots[i]), w.units).Placed? && Lucky(w, slots[i])
    {
      MadeIff(w, d, slots[i]);
    }
  }

  /** Picking an alternative shown for a busy session makes that session free on the next preview. */
  lemma PickedAlternativeIsFree(
      engine: P.Engine, rows: P.Rows, slot: Slot, blocked: set<int>, today: int, far: bool, x: P.Ranked,
      picks: seq<PickChoice>)
    requires x in P.AlternativesOf(engine, rows, ChoiceOf(slot), blocked, today, far)
    requires PickFor(picks, slot.index) == Some(PickChoice(slot.index, x.choice.day, x.choice.startMin, Some(x.choice.staff)))
    ensures P.Free(engine, rows, ChoiceOf(Lay(slot, picks)))
  {
    P.AlternativesAreFree(engine, rows, ChoiceOf(slot), blocked, today, far);
  }
}
