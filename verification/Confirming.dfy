/**
 * The confirm handler, store call by store call. A request looks its key up, reads what its hold
 * reserved, looks its key up once more, and only then opens its transaction; between any two of these
 * anything may happen to the diary, another confirm of the same hold included.
 */
module Confirming {
  import opened Basics
  import opened Lifecycle
  import opened Chain
  import opened Diary
  import opened DiaryProofs
  import opened DiaryRuns

  /** What a caller sends, and what the pure steps before the transaction make of it. */
  datatype Call = Call(
    hold: Id, given: Option<string>, branch: Id, services: seq<Service>, payment: Payment,
    missing: bool /* an id of the basket is unknown */, requiredFils: int, depositDeferred: bool,
    linkTooLate: bool)

  datatype Answer =
    | BookedNow(booking: Id) | ReplayedFrom(booking: Id)
    | Unknown | Gone | PaymentRequired | TooLate | Conflict | Failed

  /** The last call that was made: the first look-up, the reading of the hold, the second look-up. */
  datatype Phase = Waiting | Looked | HasRead | Sought | Done(answer: Answer)

  datatype World = World(diary: Diary, phases: seq<Phase>)

  const PREFIX := "hold:"

  /** The caller's key, or one derived from the hold: a hold produces exactly one booking. */
  function KeyOf(c: Call, text: Id -> string): string {
    if c.given.Some? then c.given.value else PREFIX + text(c.hold)
  }

  function Tendered(p: Payment, linkFils: int): int {
    match p
    case NoPayment => 0
    case Link => linkFils
    case Tender(amount, _) => amount
  }

  function RequestOf(c: Call, text: Id -> string): ConfirmRequest {
    ConfirmRequest(c.hold, KeyOf(c, text), c.branch, c.services, c.payment)
  }

  datatype Event =
    | Look(call: nat)
    | Read(reader: nat, linkFils: int)
    | LookAgain(seeker: nat)
    | Transact(caller: nat, now: int)
    | Other(step: Step)

  /** What the steps before the write make of a call whose hold reserves something, or no longer does. */
  function ReadAnswer(c: Call, held: bool, linkFils: int): Phase {
    if c.missing then Done(Unknown)
    else if !held then Done(Gone)
    else if Tendered(c.payment, linkFils) < c.requiredFils && !c.depositDeferred then Done(PaymentRequired)
    else if c.payment.Link? && c.linkTooLate then Done(TooLate)
    else HasRead
  }

  /** The transaction, which answers a key stored meanwhile under another hold from the store. */
  function TransactAnswer(v: ConfirmOutcome): Answer {
    match v
    case Booked(b) => BookedNow(b)
    case Replayed(b) => ReplayedFrom(b)
    case HoldExpired => Gone
    case PaymentAlreadyRecorded => Conflict
    case ConfirmFailed => Failed
  }

  predicate At(w: World, calls: seq<Call>, i: nat, p: Phase) {
    i < |calls| && i < |w.phases| && w.phases[i] == p
  }

  function Advance(w: World, i: nat, p: Phase): World
    requires i < |w.phases|
  {
    w.(phases := w.phases[i := p])
  }

  function LookUp(d: Diary, key: string, otherwise: Phase): Phase {
    if key in d.keys then Done(ReplayedFrom(d.keys[key])) else otherwise
  }

  ghost function Next(w: World, calls: seq<Call>, text: Id -> string, e: Event, units: Units): World {
    match e
    case Look(i) => if At(w, calls, i, Waiting) then Advance(w, i, LookUp(w.diary, KeyOf(calls[i], text), Looked)) else w
    case Read(i, linkFils) =>
      if At(w, calls, i, Looked) then
        Advance(w, i, ReadAnswer(calls[i], HoldHasPerson(w.diary, calls[i].hold), linkFils))
      else w
    case LookAgain(i) => if At(w, calls, i, HasRead) then Advance(w, i, LookUp(w.diary, KeyOf(calls[i], text), Sought)) else w
    case Transact(i, now) =>
      if At(w, calls, i, Sought) then
        var q := RequestOf(calls[i], text);
        World(Confirm(w.diary, q, now), w.phases[i := Done(TransactAnswer(ConfirmVerdict(w.diary, q, now)))])
      else w
    case Other(s) => if s.DoConfirm? then w else w.(diary := Apply(w.diary, s, units))
  }

  ghost function Schedule(w: World, calls: seq<Call>, text: Id -> string, events: seq<Event>, units: Units): World
    decreases |events|
  {
    if events == [] then w else Schedule(Next(w, calls, text, events[0], units), calls, text, events[1..], units)
  }

  // ------------------------------------------------------------------ one key, one booking

  ghost predicate AnsweredBy(w: World, i: nat, booking: Id) {
    i < |w.phases| && (w.phases[i] == Done(BookedNow(booking)) || w.phases[i] == Done(ReplayedFrom(booking)))
  }

  /** Whatever booking an answered call was given is the one its key is stored with. */
  ghost predicate Faithful(w: World, calls: seq<Call>, text: Id -> string) {
    forall i: nat, b: Id :: i < |calls| && AnsweredBy(w, i, b) ==>
      KeyOf(calls[i], text) in w.diary.keys && w.diary.keys[KeyOf(calls[i], text)] == b
  }

  lemma NextFaithful(w: World, calls: seq<Call>, text: Id -> string, e: Event, units: Units)
    requires Faithful(w, calls, text)
    ensures Faithful(Next(w, calls, text, e, units), calls, text)
  {
    var v := Next(w, calls, text, e, units);
    KeysKept(w, calls, text, e, units);
    forall i: nat, b: Id | i < |calls| && AnsweredBy(v, i, b)
      ensures KeyOf(calls[i], text) in v.diary.keys && v.diary.keys[KeyOf(calls[i], text)] == b
    {
      if AnsweredBy(w, i, b) {
        assert KeyOf(calls[i], text) in w.diary.keys;
      }
    }
  }

  lemma KeysKept(w: World, calls: seq<Call>, text: Id -> string, e: Event, units: Units)
    ensures var v := Next(w, calls, text, e, units);
      forall k :: k in w.diary.keys ==> k in v.diary.keys && v.diary.keys[k] == w.diary.keys[k]
  {}

  lemma {:induction false} ScheduleFaithful(w: World, calls: seq<Call>, text: Id -> string, events: seq<Event>, units: Units)
    requires Faithful(w, calls, text)
    ensures Faithful(Schedule(w, calls, text, events, units), calls, text)
    decreases |events|
  {
    if events != [] {
      NextFaithful(w, calls, text, events[0], units);
      ScheduleFaithful(Next(w, calls, text, events[0], units), calls, text, events[1..], units);
    }
  }

  function Start(calls: seq<Call>): World {
    World(EMPTY, seq(|calls|, i => Waiting))
  }

  /** Confirms with the same key, given or derived, answer with the same booking, however they interleave. */
  lemma SameKeySameBooking(
      calls: seq<Call>, text: Id -> string, events: seq<Event>, units: Units, i: nat, j: nat, a: Id, b: Id)
    requires i < |calls| && j < |calls| && KeyOf(calls[i], text) == KeyOf(calls[j], text)
    requires AnsweredBy(Schedule(Start(calls), calls, text, events, units), i, a)
    requires AnsweredBy(Schedule(Start(calls), calls, text, events, units), j, b)
    ensures a == b
  {
    ScheduleFaithful(Start(calls), calls, text, events, units);
  }

  // ------------------------------------------------------------------ one hold, one booking, one capture

  lemma {:induction false} ScheduleSound(w: World, calls: seq<Call>, text: Id -> string, events: seq<Event>, units: Units)
    requires Sound(w.diary)
    ensures Sound(Schedule(w, calls, text, events, units).diary)
    decreases |events|
  {
    if events != [] {
      NextSound(w, calls, text, events[0], units);
      ScheduleSound(Next(w, calls, text, events[0], units), calls, text, events[1..], units);
    }
  }

  /** Whatever keys callers send: a hold yields at most one booking, and a booking at most one capture. */
  lemma OneBookingPerHold(calls: seq<Call>, text: Id -> string, events: seq<Event>, units: Units)
    ensures var d := Schedule(Start(calls), calls, text, events, units).diary;
      && (forall a, b :: a in d.bookings && b in d.bookings && d.bookings[a].origin == d.bookings[b].origin ==> a == b)
      && (forall i, j :: 0 <= i < j < |d.captures| ==> d.captures[i].booking != d.captures[j].booking)
  {
    EmptySound();
    ScheduleSound(Start(calls), calls, text, events, units);
  }

  // ------------------------------------------------------------------ replay or refusal

  /** Nobody sends a key that spells a derived one. */
  ghost predicate NoForgedKeys(calls: seq<Call>) {
    forall i :: 0 <= i < |calls| && calls[i].given.Some? ==> !(PREFIX <= calls[i].given.value)
  }

  /** A derived key is stored only with the booking its own hold became. */
  ghost predicate DerivedKeysHonest(d: Diary, text: Id -> string) {
    forall h: Id :: PREFIX + text(h) in d.keys ==>
      d.keys[PREFIX + text(h)] in d.bookings && d.bookings[d.keys[PREFIX + text(h)]].origin == h
  }

  ghost predicate Numbered(d: Diary) {
    forall b :: b in d.bookings ==> b < d.next
  }

  lemma ApplyKeepsOrigins(d: Diary, s: Step, units: Units)
    requires !s.DoConfirm? && Numbered(d)
    ensures Apply(d, s, units).keys == d.keys
    ensures forall b :: b in d.bookings ==>
      b in Apply(d, s, units).bookings && Apply(d, s, units).bookings[b].origin == d.bookings[b].origin
  {}

  lemma ConfirmKeepsHonest(d: Diary, c: Call, text: Id -> string, now: int)
    requires DerivedKeysHonest(d, text) && Sound(d)
    requires forall h, g :: text(h) == text(g) ==> h == g
    requires c.given.Some? ==> !(PREFIX <= c.given.value)
    ensures DerivedKeysHonest(Confirm(d, RequestOf(c, text), now), text)
  {
    var e := Confirm(d, RequestOf(c, text), now);
    forall h: Id | PREFIX + text(h) in e.keys
      ensures e.keys[PREFIX + text(h)] in e.bookings && e.bookings[e.keys[PREFIX + text(h)]].origin == h
    {
      if PREFIX + text(h) !in d.keys {
        assert KeyOf(c, text) == PREFIX + text(h);
        assert c.given.None?;
        assert (PREFIX + text(h))[|PREFIX|..] == text(h) && (PREFIX + text(c.hold))[|PREFIX|..] == text(c.hold);
      }
    }
  }

  lemma NextHonest(w: World, calls: seq<Call>, text: Id -> string, e: Event, units: Units)
    requires DerivedKeysHonest(w.diary, text) && Sound(w.diary) && NoForgedKeys(calls)
    requires forall h, g :: text(h) == text(g) ==> h == g
    ensures DerivedKeysHonest(Next(w, calls, text, e, units).diary, text)
  {
    match e {
      case Transact(i, now) =>
        if i < |calls| { ConfirmKeepsHonest(w.diary, calls[i], text, now); }
      case Other(s) =>
        if !s.DoConfirm? { ApplyKeepsOrigins(w.diary, s, units); }
      case _ =>
    }
  }

  lemma NextSound(w: World, calls: seq<Call>, text: Id -> string, e: Event, units: Units)
    requires Sound(w.diary)
    ensures Sound(Next(w, calls, text, e, units).diary)
  {
    match e {
      case Transact(i, now) =>
        if i < |calls| { ConfirmSound(w.diary, RequestOf(calls[i], text), now); }
      case Other(s) => ApplySound(w.diary, s, units);
      case _ =>
    }
  }

  lemma {:induction false} ScheduleHonest(
      w: World, calls: seq<Call>, text: Id -> string, events: seq<Event>, units: Units)
    requires DerivedKeysHonest(w.diary, text) && Sound(w.diary) && NoForgedKeys(calls)
    requires forall h, g :: text(h) == text(g) ==> h == g
    ensures DerivedKeysHonest(Schedule(w, calls, text, events, units).diary, text)
    decreases |events|
  {
    if events != [] {
      NextHonest(w, calls, text, events[0], units);
      NextSound(w, calls, text, events[0], units);
      ScheduleHonest(Next(w, calls, text, events[0], units), calls, text, events[1..], units);
    }
  }

  // ------------------------------------------------------------------ a hold that is over

  /** It existed, and cannot be confirmed at `from` or later. */
  predicate Over(d: Diary, hold: Id, from: int) {
    hold < d.next && (hold in d.holds ==> d.holds[hold] <= from)
  }

  ghost predicate Unbooked(d: Diary, hold: Id) {
    forall b :: b in d.bookings ==> d.bookings[b].origin != hold
  }

  ghost predicate ClockFrom(events: seq<Event>, from: int) {
    forall i :: 0 <= i < |events| && events[i].Transact? ==> events[i].now >= from
  }

  lemma ApplyOver(d: Diary, s: Step, units: Units, hold: Id, from: int)
    requires !s.DoConfirm? && Over(d, hold, from)
    ensures Over(Apply(d, s, units), hold, from)
  {}

  lemma NextOver(w: World, calls: seq<Call>, text: Id -> string, e: Event, units: Units, hold: Id, from: int)
    requires Numbered(w.diary) && Over(w.diary, hold, from) && Unbooked(w.diary, hold) && (e.Transact? ==> e.now >= from)
    ensures var v := Next(w, calls, text, e, units);
      && Numbered(v.diary) && Over(v.diary, hold, from) && Unbooked(v.diary, hold) && |v.phases| == |w.phases|
      && forall i :: 0 <= i < |calls| && i < |v.phases| && calls[i].hold == hold && !w.phases[i].Done? ==>
           !(v.phases[i].Done? && v.phases[i].answer.BookedNow?)
  {
    match e {
      case Other(s) =>
        if !s.DoConfirm? {
          ApplyOver(w.diary, s, units, hold, from);
          ApplyUnbooked(w.diary, s, units, hold);
        }
      case _ =>
    }
  }

  lemma ApplyUnbooked(d: Diary, s: Step, units: Units, hold: Id)
    requires !s.DoConfirm? && Numbered(d) && hold < d.next && Unbooked(d, hold)
    ensures Numbered(Apply(d, s, units)) && Unbooked(Apply(d, s, units), hold)
  {}

  lemma NextKeepsDone(w: World, calls: seq<Call>, text: Id -> string, e: Event, units: Units, i: nat)
    requires i < |w.phases| && w.phases[i].Done?
    ensures i < |Next(w, calls, text, e, units).phases| && Next(w, calls, text, e, units).phases[i] == w.phases[i]
  {}

  lemma {:induction false} ScheduleKeepsDone(
      w: World, calls: seq<Call>, text: Id -> string, events: seq<Event>, units: Units, i: nat)
    requires i < |w.phases| && w.phases[i].Done?
    ensures var v := Schedule(w, calls, text, events, units); i < |v.phases| && v.phases[i] == w.phases[i]
    decreases |events|
  {
    if events != [] {
      NextKeepsDone(w, calls, text, events[0], units, i);
      ScheduleKeepsDone(Next(w, calls, text, events[0], units), calls, text, events[1..], units, i);
    }
  }

  /** No later schedule books it, whatever keys its callers send and whatever happens between their calls. */
  lemma {:induction false} OverStaysUnbooked(
      w: World, calls: seq<Call>, text: Id -> string, events: seq<Event>, units: Units, hold: Id, from: int, i: nat)
    requires Numbered(w.diary) && Over(w.diary, hold, from) && Unbooked(w.diary, hold) && ClockFrom(events, from)
    requires i < |calls| && i < |w.phases| && calls[i].hold == hold && !w.phases[i].Done?
    ensures var v := Schedule(w, calls, text, events, units);
      && Unbooked(v.diary, hold) && i < |v.phases| && !(v.phases[i].Done? && v.phases[i].answer.BookedNow?)
    decreases |events|
  {
    if events != [] {
      var next, rest := Next(w, calls, text, events[0], units), events[1..];
      NextOver(w, calls, text, events[0], units, hold, from);
      assert ClockFrom(rest, from) by {
        forall k | 0 <= k < |rest| && rest[k].Transact? ensures rest[k].now >= from { assert rest[k] == events[k + 1]; }
      }
      if next.phases[i].Done? {
        ScheduleKeepsDone(next, calls, text, rest, units, i);
        StaysUnbooked(next, calls, text, rest, units, hold, from);
      } else {
        OverStaysUnbooked(next, calls, text, rest, units, hold, from, i);
      }
    }
  }

  lemma {:induction false} StaysUnbooked(
      w: World, calls: seq<Call>, text: Id -> string, events: seq<Event>, units: Units, hold: Id, from: int)
    requires Numbered(w.diary) && Over(w.diary, hold, from) && Unbooked(w.diary, hold) && ClockFrom(events, from)
    ensures Unbooked(Schedule(w, calls, text, events, units).diary, hold)
    decreases |events|
  {
    if events != [] {
      var rest := events[1..];
      NextOver(w, calls, text, events[0], units, hold, from);
      assert ClockFrom(rest, from) by {
        forall k | 0 <= k < |rest| && rest[k].Transact? ensures rest[k].now >= from { assert rest[k] == events[k + 1]; }
      }
      StaysUnbooked(Next(w, calls, text, events[0], units), calls, text, rest, units, hold, from);
    }
  }

  lemma {:induction false} ScheduleJoin(
      w: World, calls: seq<Call>, text: Id -> string, a: seq<Event>, b: seq<Event>, units: Units)
    ensures Schedule(w, calls, text, a + b, units) == Schedule(Schedule(w, calls, text, a, units), calls, text, b, units)
    decreases |a|
  {
    if a == [] {
      assert a + b == b;
    } else {
      assert (a + b)[1..] == a[1..] + b;
      ScheduleJoin(Next(w, calls, text, a[0], units), calls, text, a[1..], b, units);
    }
  }

  lemma UnstoredKeyAnswersNobody(w: World, calls: seq<Call>, text: Id -> string, i: nat)
    requires DerivedKeysHonest(w.diary, text) && Faithful(w, calls, text)
    requires i < |calls| && calls[i].given.None? && Unbooked(w.diary, calls[i].hold)
    ensures i < |w.phases| && w.phases[i].Done? ==> !w.phases[i].answer.ReplayedFrom?
  {
    assert KeyOf(calls[i], text) !in w.diary.keys;
    if i < |w.phases| && w.phases[i].Done? {
      var answer := w.phases[i].answer;
      assert answer.ReplayedFrom? ==> AnsweredBy(w, i, answer.booking);
    }
  }

  /**
   * A hold that lapsed without becoming a booking is refused, never replayed. Once it is over, whatever
   * has run before and whatever runs after, as long as the clock does not go back: no call on it that was
   * not answered yet books it, and none with the key derived from it is answered with any booking.
   */
  lemma LapsedHoldRefused(
      calls: seq<Call>, text: Id -> string, before: seq<Event>, after: seq<Event>, units: Units, i: nat, from: int)
    requires NoForgedKeys(calls) && (forall h, g :: text(h) == text(g) ==> h == g) && ClockFrom(after, from)
    requires var w := Schedule(Start(calls), calls, text, before, units);
      && i < |calls| && i < |w.phases| && !w.phases[i].Done?
      && Over(w.diary, calls[i].hold, from) && Unbooked(w.diary, calls[i].hold)
    ensures var v := Schedule(Start(calls), calls, text, before + after, units);
      && i < |v.phases| && Unbooked(v.diary, calls[i].hold)
      && (v.phases[i].Done? ==> !v.phases[i].answer.BookedNow?)
      && (v.phases[i].Done? && calls[i].given.None? ==> !v.phases[i].answer.ReplayedFrom?)
  {
    var w := Schedule(Start(calls), calls, text, before, units);
    var v := Schedule(Start(calls), calls, text, before + after, units);
    ScheduleJoin(Start(calls), calls, text, before, after, units);
    EmptySound();
    ScheduleSound(Start(calls), calls, text, before, units);
    OverStaysUnbooked(w, calls, text, after, units, calls[i].hold, from, i);
    ScheduleHonest(Start(calls), calls, text, before + after, units);
    ScheduleFaithful(Start(calls), calls, text, before + after, units);
    if calls[i].given.None? { UnstoredKeyAnswersNobody(v, calls, text, i); }
  }

  // ------------------------------------------------------------------ a twin

  /** A retry that starts after the first confirm committed is answered with the first booking. */
  lemma RetryReplays(w: World, calls: seq<Call>, text: Id -> string, units: Units, i: nat, j: nat, b: Id)
    requires Faithful(w, calls, text) && i < |calls| && j < |calls|
    requires KeyOf(calls[i], text) == KeyOf(calls[j], text)
    requires AnsweredBy(w, i, b) && At(w, calls, j, Waiting)
    ensures Next(w, calls, text, Look(j), units).phases[j] == Done(ReplayedFrom(b))
    ensures Next(w, calls, text, Look(j), units).diary == w.diary
  {}

  /** What a call can still be answered once its twin has committed, by where it stood then. */
  function TwinAnswer(p: Phase, missing: bool, b: Id): Answer {
    match p
    case Waiting => ReplayedFrom(b)
    case Looked => if missing then Unknown else Gone
    case HasRead => ReplayedFrom(b)
    case Sought => Gone
    case Done(answer) => answer
  }

  /** The key is stored with `b` and the hold is spent. */
  ghost predicate Spent(d: Diary, key: string, hold: Id, b: Id) {
    && Sound(d) && key in d.keys && d.keys[key] == b && hold < d.next && hold !in d.holds
  }

  lemma NextSpent(w: World, calls: seq<Call>, text: Id -> string, e: Event, units: Units, key: string, hold: Id, b: Id)
    requires Spent(w.diary, key, hold, b)
    ensures Spent(Next(w, calls, text, e, units).diary, key, hold, b)
  {
    NextSound(w, calls, text, e, units);
    KeysKept(w, calls, text, e, units);
    NextGone(w, calls, text, e, units, hold);
  }

  lemma NextGone(w: World, calls: seq<Call>, text: Id -> string, e: Event, units: Units, hold: Id)
    requires hold < w.diary.next && hold !in w.diary.holds
    ensures hold < Next(w, calls, text, e, units).diary.next && hold !in Next(w, calls, text, e, units).diary.holds
  {}

  lemma TwinStep(w: World, calls: seq<Call>, text: Id -> string, e: Event, units: Units, j: nat, b: Id)
    requires j < |calls| && j < |w.phases| && Spent(w.diary, KeyOf(calls[j], text), calls[j].hold, b)
    ensures var v := Next(w, calls, text, e, units);
      j < |v.phases| && (v.phases[j] == w.phases[j] || v.phases[j] == Done(TwinAnswer(w.phases[j], calls[j].missing, b)))
  {
    GoneHoldHasNobody(w.diary, calls[j].hold);
  }

  lemma {:induction false} TwinRuns(
      w: World, calls: seq<Call>, text: Id -> string, events: seq<Event>, units: Units, j: nat, b: Id)
    requires j < |calls| && j < |w.phases| && Spent(w.diary, KeyOf(calls[j], text), calls[j].hold, b)
    ensures var v := Schedule(w, calls, text, events, units);
      j < |v.phases| && (v.phases[j].Done? ==> v.phases[j].answer == TwinAnswer(w.phases[j], calls[j].missing, b))
    decreases |events|
  {
    if events != [] {
      TwinStep(w, calls, text, events[0], units, j, b);
      NextSpent(w, calls, text, events[0], units, KeyOf(calls[j], text), calls[j].hold, b);
      TwinRuns(Next(w, calls, text, events[0], units), calls, text, events[1..], units, j, b);
    }
  }

  /**
   * A double tap. When one of two calls with the same key for the same hold commits, the other one's
   * answer is settled by where it stands. It is refused, although the booking exists, if and only if the
   * commit falls after its first look-up and before it reads the hold, or after its second look-up and
   * before its transaction; otherwise it is answered with the booking.
   */
  lemma TwinRefusedExactly(
      w: World, calls: seq<Call>, text: Id -> string, events: seq<Event>, units: Units, i: nat, j: nat, now: int, b: Id)
    requires Sound(w.diary) && i < |calls| && j < |calls| && i != j && i < |w.phases| && j < |w.phases|
    requires calls[i].hold == calls[j].hold && KeyOf(calls[i], text) == KeyOf(calls[j], text)
    requires w.phases[i].Sought? && !w.phases[j].Done?
    requires var first := Next(w, calls, text, Transact(i, now), units);
      && first.phases[i] == Done(BookedNow(b))
      && j < |Schedule(first, calls, text, events, units).phases|
      && Schedule(first, calls, text, events, units).phases[j].Done?
    ensures var first := Next(w, calls, text, Transact(i, now), units);
      var answer := Schedule(first, calls, text, events, units).phases[j].answer;
      && (answer == ReplayedFrom(b) <==> w.phases[j].Waiting? || w.phases[j].HasRead?)
      && (answer in {Gone, Unknown} <==> w.phases[j].Looked? || w.phases[j].Sought?)
  {
    var first := Next(w, calls, text, Transact(i, now), units);
    ConfirmSound(w.diary, RequestOf(calls[i], text), now);
    assert calls[i].hold in w.diary.holds && calls[i].hold !in first.diary.holds;
    assert Spent(first.diary, KeyOf(calls[j], text), calls[j].hold, b);
    TwinRuns(first, calls, text, events, units, j, b);
  }
}
