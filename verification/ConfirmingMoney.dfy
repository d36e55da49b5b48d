/**
 * The money of a confirm: what has to be tendered before anything is booked, what the ledger then says
 * was taken, and that one payment is never counted for two bookings, however confirms interleave.
 */
module ConfirmingMoney {
  import opened Basics
  import opened Lifecycle
  import opened Diary
  import opened DiaryProofs
  import opened DiaryRuns
  import opened Confirming

  // ------------------------------------------------------------------ the ledger

  ghost predicate Extends(some: seq<Capture>, more: seq<Capture>) {
    |some| <= |more| && more[..|some|] == some
  }

  lemma ApplyExtends(d: Diary, s: Step, units: Units)
    ensures Extends(d.captures, Apply(d, s, units).captures)
  {}

  /** What the ledger says was taken it says for ever, in the same order. */
  lemma {:induction false} LedgerOnlyGrows(d: Diary, steps: seq<Step>, units: Units)
    ensures Extends(d.captures, Run(d, steps, units).captures)
    decreases |steps|
  {
    if steps != [] {
      var e := Apply(d, steps[0], units);
      ApplyExtends(d, steps[0], units);
      LedgerOnlyGrows(e, steps[1..], units);
      ExtendsTwice(d.captures, e.captures, Run(d, steps, units).captures);
    }
  }

  lemma ExtendsTwice(a: seq<Capture>, b: seq<Capture>, c: seq<Capture>)
    requires Extends(a, b) && Extends(b, c)
    ensures Extends(a, c)
  {
    assert c[..|a|] == c[..|b|][..|a|];
  }

  lemma StillRecorded(some: seq<Capture>, more: seq<Capture>, ref: string)
    requires Extends(some, more) && Recorded(some, ref)
    ensures Recorded(more, ref)
  {
    var i :| 0 <= i < |some| && some[i].ref == Some(ref);
    assert more[..|some|][i] == some[i];
  }

  /** One entry for the booking with the amount and the reference tendered, or none if nothing was. */
  ghost predicate PaidFor(captures: seq<Capture>, b: Id, p: Payment) {
    match p
    case Tender(amountFils, ref) =>
      && (exists i :: 0 <= i < |captures| && captures[i] == Capture(b, amountFils, ref))
      && (forall i :: 0 <= i < |captures| && captures[i].booking == b ==> captures[i] == Capture(b, amountFils, ref))
    case _ => forall i :: 0 <= i < |captures| ==> captures[i].booking != b
  }

  lemma ConfirmTakes(d: Diary, q: ConfirmRequest, now: int)
    requires Sound(d) && ConfirmVerdict(d, q, now).Booked?
    ensures PaidFor(Confirm(d, q, now).captures, d.next, q.payment)
  {
    var e := Confirm(d, q, now);
    if q.payment.Tender? {
      assert e.captures[|d.captures|] == Capture(d.next, q.payment.amountFils, q.payment.ref);
    }
  }

  lemma ConfirmRecords(d: Diary, q: ConfirmRequest, now: int)
    requires Sound(d) && ConfirmVerdict(d, q, now).Booked? && q.payment.Tender? && q.payment.ref.Some?
    ensures Recorded(Confirm(d, q, now).captures, q.payment.ref.value)
  {
    ConfirmTakes(d, q, now);
  }

  lemma RecordedIsRefused(d: Diary, again: ConfirmRequest, now: int)
    requires again.payment.Tender? && again.payment.ref.Some? && Recorded(d.captures, again.payment.ref.value)
    ensures !ConfirmVerdict(d, again, now).Booked?
  {}

  /**
   * A reference pays once. After a confirm that booked with it, whatever runs, the reference stays in
   * the ledger, and no confirm that carries it books anything.
   */
  lemma ReferencePaysOnce(
      d: Diary, q: ConfirmRequest, at: int, steps: seq<Step>, units: Units, again: ConfirmRequest, now: int)
    requires Sound(d) && ConfirmVerdict(d, q, at).Booked? && q.payment.Tender? && q.payment.ref.Some?
    requires again.payment.Tender? && again.payment.ref == q.payment.ref
    ensures var e := Run(Confirm(d, q, at), steps, units);
      Recorded(e.captures, q.payment.ref.value) && !ConfirmVerdict(e, again, now).Booked?
  {
    var booked := Confirm(d, q, at);
    ConfirmRecords(d, q, at);
    LedgerOnlyGrows(booked, steps, units);
    StillRecorded(booked.captures, Run(booked, steps, units).captures, q.payment.ref.value);
    RecordedIsRefused(Run(booked, steps, units), again, now);
  }

  // ------------------------------------------------------------------ over every schedule

  ghost predicate BookedBy(w: World, calls: seq<Call>, i: nat, b: Id) {
    At(w, calls, i, Done(BookedNow(b)))
  }

  /** Every call that booked is paid for exactly as it tendered. */
  ghost predicate AllPaid(w: World, calls: seq<Call>) {
    forall i: nat, b: Id :: BookedBy(w, calls, i, b) ==> b in w.diary.bookings && PaidFor(w.diary.captures, b, calls[i].payment)
  }

  ghost predicate EachItsOwn(w: World, calls: seq<Call>) {
    forall i: nat, j: nat, b: Id :: BookedBy(w, calls, i, b) && BookedBy(w, calls, j, b) ==> i == j
  }

  ghost predicate JustBooked(w: World, calls: seq<Call>, text: Id -> string, e: Event, k: nat, b: Id) {
    && e.Transact? && e.caller == k && b == w.diary.next && At(w, calls, k, Sought)
    && ConfirmVerdict(w.diary, RequestOf(calls[k], text), e.now).Booked?
  }

  /** A call is answered with a new booking in its own transaction only. */
  lemma NewlyBooked(w: World, calls: seq<Call>, text: Id -> string, e: Event, units: Units, k: nat, b: Id)
    requires BookedBy(Next(w, calls, text, e, units), calls, k, b)
    ensures BookedBy(w, calls, k, b) || JustBooked(w, calls, text, e, k, b)
  {}

  lemma ConfirmAdds(d: Diary, q: ConfirmRequest, now: int)
    ensures var e := Confirm(d, q, now);
      && (forall b :: b in d.bookings ==> b in e.bookings)
      && (e.captures == d.captures
          || (|e.captures| == |d.captures| + 1 && Extends(d.captures, e.captures) && e.captures[|d.captures|].booking == d.next))
  {}

  /** One event adds at most one entry, for a booking that is new with it. */
  lemma NextTakes(w: World, calls: seq<Call>, text: Id -> string, e: Event, units: Units)
    requires Sound(w.diary)
    ensures var before := w.diary; var after := Next(w, calls, text, e, units).diary;
      && (forall b :: b in before.bookings ==> b in after.bookings && b != before.next)
      && (after.captures == before.captures
          || (|after.captures| == |before.captures| + 1 && Extends(before.captures, after.captures)
              && after.captures[|before.captures|].booking == before.next))
  {
    match e
    case Other(s) => if !s.DoConfirm? { ApplyKeepsOrigins(w.diary, s, units); ApplyTakes(w.diary, s, units); }
    case Transact(i, now) => if i < |calls| { ConfirmAdds(w.diary, RequestOf(calls[i], text), now); }
    case _ =>
  }

  lemma ApplyTakes(d: Diary, s: Step, units: Units)
    requires !s.DoConfirm?
    ensures Apply(d, s, units).captures == d.captures
  {
  }

  lemma StaysPaid(some: seq<Capture>, more: seq<Capture>, b: Id, p: Payment)
    requires PaidFor(some, b, p)
    requires more == some || (|more| == |some| + 1 && Extends(some, more) && more[|some|].booking != b)
    ensures PaidFor(more, b, p)
  {
    forall i | 0 <= i < |some| ensures more[i] == some[i] {
      if more != some { assert more[..|some|][i] == more[i]; }
    }
    if p.Tender? {
      var i :| 0 <= i < |some| && some[i] == Capture(b, p.amountFils, p.ref);
      assert more[i] == Capture(b, p.amountFils, p.ref);
    }
  }

  lemma NextPaid(w: World, calls: seq<Call>, text: Id -> string, e: Event, units: Units)
    requires Sound(w.diary) && AllPaid(w, calls) && EachItsOwn(w, calls)
    ensures AllPaid(Next(w, calls, text, e, units), calls)
  {
    var v := Next(w, calls, text, e, units);
    NextTakes(w, calls, text, e, units);
    forall k: nat, b: Id | BookedBy(v, calls, k, b)
      ensures b in v.diary.bookings && PaidFor(v.diary.captures, b, calls[k].payment)
    {
      NewlyBooked(w, calls, text, e, units, k, b);
      if BookedBy(w, calls, k, b) {
        StaysPaid(w.diary.captures, v.diary.captures, b, calls[k].payment);
      } else {
        ConfirmTakes(w.diary, RequestOf(calls[k], text), e.now);
      }
    }
  }

  lemma NextItsOwn(w: World, calls: seq<Call>, text: Id -> string, e: Event, units: Units)
    requires Sound(w.diary) && AllPaid(w, calls) && EachItsOwn(w, calls)
    ensures EachItsOwn(Next(w, calls, text, e, units), calls)
  {
    var v := Next(w, calls, text, e, units);
    forall i: nat, j: nat, b: Id | BookedBy(v, calls, i, b) && BookedBy(v, calls, j, b) ensures i == j {
      NewlyBooked(w, calls, text, e, units, i, b);
      NewlyBooked(w, calls, text, e, units, j, b);
    }
  }

  lemma {:induction false} SchedulePaid(w: World, calls: seq<Call>, text: Id -> string, events: seq<Event>, units: Units)
    requires Sound(w.diary) && AllPaid(w, calls) && EachItsOwn(w, calls)
    ensures var v := Schedule(w, calls, text, events, units); AllPaid(v, calls) && EachItsOwn(v, calls)
    decreases |events|
  {
    if events != [] {
      NextPaid(w, calls, text, events[0], units);
      NextItsOwn(w, calls, text, events[0], units);
      NextSound(w, calls, text, events[0], units);
      SchedulePaid(Next(w, calls, text, events[0], units), calls, text, events[1..], units);
    }
  }

  lemma NobodyBookedYet(calls: seq<Call>)
    ensures Sound(Start(calls).diary) && AllPaid(Start(calls), calls) && EachItsOwn(Start(calls), calls)
  {
    EmptySound();
    forall i: nat, b: Id ensures !BookedBy(Start(calls), calls, i, b) {}
  }

  /** Over every schedule: the ledger holds for each booking exactly what its call tendered. */
  lemma BookedIsPaid(calls: seq<Call>, text: Id -> string, events: seq<Event>, units: Units, i: nat, b: Id)
    requires BookedBy(Schedule(Start(calls), calls, text, events, units), calls, i, b)
    ensures var d := Schedule(Start(calls), calls, text, events, units).diary;
      b in d.bookings && PaidFor(d.captures, b, calls[i].payment)
  {
    NobodyBookedYet(calls);
    SchedulePaid(Start(calls), calls, text, events, units);
  }

  /** And two calls that tender one reference are never both booked. */
  lemma OneReferenceOneBooking(
      calls: seq<Call>, text: Id -> string, events: seq<Event>, units: Units, i: nat, j: nat, a: Id, b: Id)
    requires i < |calls| && j < |calls| && calls[i].payment.Tender? && calls[j].payment.Tender?
    requires calls[i].payment.ref.Some? && calls[i].payment.ref == calls[j].payment.ref
    requires BookedBy(Schedule(Start(calls), calls, text, events, units), calls, i, a)
    requires BookedBy(Schedule(Start(calls), calls, text, events, units), calls, j, b)
    ensures i == j
  {
    NobodyBookedYet(calls);
    SchedulePaid(Start(calls), calls, text, events, units);
    ScheduleSound(Start(calls), calls, text, events, units);
    NeverShared(Schedule(Start(calls), calls, text, events, units).diary, a, b, calls[i].payment, calls[j].payment);
  }

  lemma NeverShared(d: Diary, a: Id, b: Id, p: Payment, q: Payment)
    requires Charged(d.keys, d.captures, d.bookings) && PaidFor(d.captures, a, p) && PaidFor(d.captures, b, q)
    requires p.Tender? && q.Tender? && p.ref.Some? && p.ref == q.ref
    ensures a == b
  {
    var i :| 0 <= i < |d.captures| && d.captures[i] == Capture(a, p.amountFils, p.ref);
    var j :| 0 <= j < |d.captures| && d.captures[j] == Capture(b, q.amountFils, q.ref);
  }

  // ------------------------------------------------------------------ what has to be tendered

  /** Some read of the hold found a link worth at least the deposit. */
  ghost predicate LinkRead(events: seq<Event>, i: nat, atLeast: int) {
    exists k :: 0 <= k < |events| && events[k].Read? && events[k].reader == i && events[k].linkFils >= atLeast
  }

  ghost predicate LinkShort(events: seq<Event>, i: nat, below: int) {
    exists k :: 0 <= k < |events| && events[k].Read? && events[k].reader == i && events[k].linkFils < below
  }

  ghost predicate Enough(c: Call, events: seq<Event>, i: nat) {
    c.depositDeferred ||
      match c.payment
      case NoPayment => c.requiredFils <= 0
      case Tender(amountFils, _) => c.requiredFils <= amountFils
      case Link => LinkRead(events, i, c.requiredFils)
  }

  ghost predicate Short(c: Call, events: seq<Event>, i: nat) {
    !c.depositDeferred &&
      match c.payment
      case NoPayment => 0 < c.requiredFils
      case Tender(amountFils, _) => amountFils < c.requiredFils
      case Link => LinkShort(events, i, c.requiredFils)
  }

  /** What a call's phase says of it, after these events. */
  ghost predicate Deserved(c: Call, p: Phase, events: seq<Event>, i: nat) {
    var passed := !c.missing && Enough(c, events, i) && !(c.payment.Link? && c.linkTooLate);
    match p
    case HasRead => passed
    case Sought => passed
    case Done(BookedNow(_)) => passed
    case Done(Unknown) => c.missing
    case Done(PaymentRequired) => !c.missing && Short(c, events, i)
    case Done(TooLate) => !c.missing && Enough(c, events, i) && c.payment.Link? && c.linkTooLate
    case _ => true
  }

  lemma DeservedLater(c: Call, p: Phase, past: seq<Event>, e: Event, i: nat)
    requires Deserved(c, p, past, i)
    ensures Deserved(c, p, past + [e], i)
  {
    if LinkRead(past, i, c.requiredFils) {
      var k :| 0 <= k < |past| && past[k].Read? && past[k].reader == i && past[k].linkFils >= c.requiredFils;
      assert (past + [e])[k] == past[k];
    }
    if LinkShort(past, i, c.requiredFils) {
      var k :| 0 <= k < |past| && past[k].Read? && past[k].reader == i && past[k].linkFils < c.requiredFils;
      assert (past + [e])[k] == past[k];
    }
  }

  lemma ReadDeserves(c: Call, held: bool, linkFils: int, past: seq<Event>, i: nat)
    ensures Deserved(c, ReadAnswer(c, held, linkFils), past + [Read(i, linkFils)], i)
  {
    var events := past + [Read(i, linkFils)];
    assert events[|past|] == Read(i, linkFils);
  }

  ghost predicate AllDeserved(w: World, calls: seq<Call>, past: seq<Event>) {
    forall i: nat :: i < |calls| && i < |w.phases| ==> Deserved(calls[i], w.phases[i], past, i)
  }

  lemma NextDeserved(w: World, calls: seq<Call>, text: Id -> string, past: seq<Event>, e: Event, units: Units)
    requires AllDeserved(w, calls, past)
    ensures AllDeserved(Next(w, calls, text, e, units), calls, past + [e])
  {
    var v := Next(w, calls, text, e, units);
    forall i: nat | i < |calls| && i < |v.phases| ensures Deserved(calls[i], v.phases[i], past + [e], i) {
      DeservedLater(calls[i], w.phases[i], past, e, i);
      if e.Read? && e.reader == i { ReadDeserves(calls[i], HoldHasPerson(w.diary, calls[i].hold), e.linkFils, past, i); }
    }
  }

  lemma {:induction false} ScheduleDeserved(
      w: World, calls: seq<Call>, text: Id -> string, past: seq<Event>, events: seq<Event>, units: Units)
    requires AllDeserved(w, calls, past)
    ensures AllDeserved(Schedule(w, calls, text, events, units), calls, past + events)
    decreases |events|
  {
    if events == [] {
      assert past + events == past;
    } else {
      NextDeserved(w, calls, text, past, events[0], units);
      assert past + [events[0]] + events[1..] == past + events;
      ScheduleDeserved(Next(w, calls, text, events[0], units), calls, text, past + [events[0]], events[1..], units);
    }
  }

  /**
   * Over every schedule: a call is booked only if all its services exist, its link is not too late, and
   * it tenders the deposit or may owe it; and it is refused for any of the three only when that is so.
   */
  lemma EveryAnswerIsDeserved(calls: seq<Call>, text: Id -> string, events: seq<Event>, units: Units, i: nat)
    requires i < |calls|
    ensures var w := Schedule(Start(calls), calls, text, events, units);
      i < |w.phases| ==> Deserved(calls[i], w.phases[i], events, i)
  {
    ScheduleDeserved(Start(calls), calls, text, [], events, units);
    assert [] + events == events;
  }

  // ------------------------------------------------------------------ what the transaction's answers say

  /**
   * A call whose turn it is to write is told it is booked exactly when a booking of its own was written,
   * that its payment is known exactly when its reference was taken before, that its hold is gone exactly
   * when it is, and of an older booking exactly when that one is stored under its key.
   */
  lemma WriteTells(w: World, calls: seq<Call>, text: Id -> string, i: nat, now: int, units: Units)
    requires Sound(w.diary) && At(w, calls, i, Sought)
    ensures i < |Next(w, calls, text, Transact(i, now), units).phases|
    ensures var v := Next(w, calls, text, Transact(i, now), units); var d := w.diary;
      var c := calls[i]; var told := v.phases[i]; var key := KeyOf(c, text);
      var alive := c.hold in d.holds && now < d.holds[c.hold];
      var used := c.payment.Tender? && c.payment.ref.Some? && Recorded(d.captures, c.payment.ref.value);
      && told.Done?
      && (told.answer == Gone <==> !alive)
      && (told.answer == Failed <==> alive && c.services == [])
      && (told.answer == Conflict <==> alive && c.services != [] && used)
      && (told.answer.ReplayedFrom? <==> alive && c.services != [] && !used && key in d.keys)
      && (told.answer.ReplayedFrom? ==> d.keys[key] == told.answer.booking && v.diary == d)
      && (told.answer.BookedNow? ==>
            && told.answer.booking !in d.bookings && told.answer.booking in v.diary.bookings
            && v.diary.bookings[told.answer.booking].origin == c.hold
            && key in v.diary.keys && v.diary.keys[key] == told.answer.booking)
      && (!told.answer.BookedNow? ==> v.diary == d)
  {
    assert calls[i].hold in w.diary.holds ==> HoldHasPerson(w.diary, calls[i].hold);
  }

  /** A look-up answers from the store exactly when the key is stored, with the booking stored under it. */
  lemma LookUpTells(w: World, calls: seq<Call>, text: Id -> string, i: nat, units: Units)
    requires At(w, calls, i, Waiting) || At(w, calls, i, HasRead)
    ensures var e := if w.phases[i] == Waiting then Look(i) else LookAgain(i);
      var v := Next(w, calls, text, e, units); var key := KeyOf(calls[i], text);
      && v.diary == w.diary && i < |v.phases|
      && (v.phases[i].Done? <==> key in w.diary.keys)
      && (key in w.diary.keys ==> v.phases[i] == Done(ReplayedFrom(w.diary.keys[key])))
  {}
}
