/** One reminder row on one channel: whether it still should go, what its send came to, when to try again. */
module Delivery {
  import opened Basics
  import opened Lifecycle

  const MAX_ATTEMPTS := 6
  const MINUTE := 60000
  const DISPATCH_LEASE := 5 * MINUTE
  const RETRY_DELAYS := [1 * MINUTE, 5 * MINUTE, 15 * MINUTE, 30 * MINUTE, 60 * MINUTE]
  const REMINDER_LIVE: set<Status> := {Confirmed, PendingPayment, PendingConfirmation}

  datatype Channel = Push | Email | Hub

  /** What a row says and never changes: its channel, whose visit, which start it reminds of, and until when. */
  datatype Order = Order(channel: Channel, booking: Id, customer: Id, scheduledFor: int, expiresAt: int, isReminder: bool)

  datatype Visit = Visit(status: Status, startAt: int)

  datatype Contact =
    | Unavailable | NotFound
    | Found(reminders: bool, pushOn: bool, emailOn: bool, hasEmail: bool, verified: bool)

  datatype Outcome = Sent | Retry | FailedForGood | NotSent

  datatype Settlement = SentNow | TryAgain(at: int) | Failed | SkippedNow | Superseded

  /** What the outside world holds while a row is dispatched. */
  datatype Facts = Facts(visit: Option<Visit>, contact: Contact, configured: bool, sendResult: Outcome, hubSkips: bool)

  datatype Readiness = Go | Skip | Supersede | GiveUp

  function Ready(visit: Option<Visit>, o: Order, attempt: nat, now: int): Readiness {
    match visit
    case None => Skip
    case Some(v) =>
      if v.status !in REMINDER_LIVE then Skip
      else if v.startAt != o.scheduledFor then Supersede
      else if attempt > MAX_ATTEMPTS then GiveUp
      else if now >= o.expiresAt then (if attempt <= 1 then Skip else GiveUp)
      else Go
  }

  /** Push goes even when the preferences cannot be read; what can be read wins. */
  function PushOutcome(f: Facts): Outcome {
    if !f.configured then NotSent
    else if f.contact.Found? && (!f.contact.reminders || !f.contact.pushOn) then NotSent
    else f.sendResult
  }

  /** Email waits for an answer, and is written only to a verified address. */
  function EmailOutcome(f: Facts): Outcome {
    if !f.configured then NotSent
    else
      match f.contact
      case Unavailable => Retry
      case NotFound => NotSent
      case Found(reminders, _, emailOn, hasEmail, verified) =>
        if !reminders || !emailOn || !hasEmail || !verified then NotSent else f.sendResult
  }

  function DelayFor(attempt: nat): int {
    if attempt == 0 then 0 else RETRY_DELAYS[(if attempt < |RETRY_DELAYS| then attempt else |RETRY_DELAYS|) - 1]
  }

  function Settle(outcome: Outcome, attempt: nat, now: int, expiresAt: int): Settlement {
    match outcome
    case Sent => SentNow
    case NotSent => SkippedNow
    case FailedForGood => Failed
    case Retry =>
      if attempt >= MAX_ATTEMPTS || now + DelayFor(attempt) >= expiresAt then Failed
      else TryAgain(now + DelayFor(attempt))
  }

  /** What one attempt at one row comes to. */
  function Dispatch(o: Order, attempt: nat, f: Facts, now: int): Settlement {
    if o.channel.Hub? then
      if now >= o.expiresAt || f.hubSkips then SkippedNow else Settle(f.sendResult, attempt, now, o.expiresAt)
    else
      match Ready(f.visit, o, attempt, now)
      case Supersede => Superseded
      case Skip => SkippedNow
      case GiveUp => Failed
      case Go =>
        if !o.isReminder then SkippedNow
        else Settle(if o.channel.Push? then PushOutcome(f) else EmailOutcome(f), attempt, now, o.expiresAt)
  }

  /** Whether an attempt gets as far as its provider. */
  predicate ReachesProvider(o: Order, attempt: nat, f: Facts, now: int) {
    if o.channel.Hub? then now < o.expiresAt && !f.hubSkips
    else
      && Ready(f.visit, o, attempt, now).Go? && o.isReminder && f.configured
      && (o.channel.Push? ==> !(f.contact.Found? && (!f.contact.reminders || !f.contact.pushOn)))
      && (o.channel.Email? ==>
            f.contact.Found? && f.contact.reminders && f.contact.emailOn && f.contact.hasEmail && f.contact.verified)
  }

  /** Nothing is sent about a visit that is off or was moved, nor past the window, nor after six attempts. */
  lemma SendsOnlyWhatStillHolds(o: Order, attempt: nat, f: Facts, now: int)
    requires !o.channel.Hub? && ReachesProvider(o, attempt, f, now)
    ensures f.visit.Some? && f.visit.value.status in REMINDER_LIVE && f.visit.value.startAt == o.scheduledFor
    ensures attempt <= MAX_ATTEMPTS && now < o.expiresAt
  {}

  /** A retry is always within the window and the budget, so it ends. */
  lemma RetriesEnd(o: Order, attempt: nat, f: Facts, now: int)
    requires attempt >= 1 && Dispatch(o, attempt, f, now).TryAgain?
    ensures attempt < MAX_ATTEMPTS && now < Dispatch(o, attempt, f, now).at < o.expiresAt
  {
    assert forall i :: 0 <= i < |RETRY_DELAYS| ==> RETRY_DELAYS[i] > 0;
  }

  // ------------------------------------------------------------------ what a row comes to, and why

  predicate Live(v: Option<Visit>) {
    v.Some? && v.value.status in {Confirmed, PendingPayment, PendingConfirmation}
  }

  /** The visit is still on, at the time the reminder is about, and there is time and budget to say so. */
  predicate WorthSending(o: Order, attempt: nat, f: Facts, now: int) {
    Live(f.visit) && f.visit.value.startAt == o.scheduledFor && attempt <= 6 && now < o.expiresAt
  }

  /** The customer can be reached on the channel, as far as is known, and wants to be. */
  predicate Wanted(o: Order, f: Facts) {
    match o.channel
    case Hub => !f.hubSkips
    case Push => f.contact.Found? ==> f.contact.reminders && f.contact.pushOn
    case Email => f.contact.Found? && f.contact.reminders && f.contact.emailOn && f.contact.hasEmail && f.contact.verified
  }

  /** A row reaches its provider if and only if it is worth sending and wanted; a hand-over has only its window. */
  lemma ReachesIff(o: Order, attempt: nat, f: Facts, now: int)
    ensures ReachesProvider(o, attempt, f, now) <==>
      if o.channel.Hub? then now < o.expiresAt && Wanted(o, f)
      else WorthSending(o, attempt, f, now) && o.isReminder && f.configured && Wanted(o, f)
  {}

  /** One minute after the first attempt, then five, fifteen, thirty, and sixty from the fifth on. */
  function WaitMinutes(attempt: nat): int {
    match attempt
    case 0 => 0
    case 1 => 1
    case 2 => 5
    case 3 => 15
    case 4 => 30
    case _ => 60
  }

  predicate MayTryAgain(o: Order, attempt: nat, now: int) {
    attempt < 6 && now + WaitMinutes(attempt) * 60000 < o.expiresAt
  }

  /** What could not be done now: later if there is time, or never. */
  predicate Postponed(s: Settlement, o: Order, attempt: nat, now: int) {
    if MayTryAgain(o, attempt, now) then s == TryAgain(now + WaitMinutes(attempt) * 60000) else s == Failed
  }

  /** The provider's word is what the row comes to. */
  lemma ProviderDecides(o: Order, attempt: nat, f: Facts, now: int)
    requires ReachesProvider(o, attempt, f, now)
    ensures var s := Dispatch(o, attempt, f, now);
      match f.sendResult
      case Sent => s == SentNow
      case NotSent => s == SkippedNow
      case FailedForGood => s == Failed
      case Retry => Postponed(s, o, attempt, now)
  {
    DelaysAre(attempt);
  }

  lemma DelaysAre(attempt: nat)
    ensures DelayFor(attempt) == WaitMinutes(attempt) * 60000
  {}

  /** Without the provider a row is never sent, and what it comes to instead has one of these reasons. */
  lemma WithoutTheProvider(o: Order, attempt: nat, f: Facts, now: int)
    requires !ReachesProvider(o, attempt, f, now)
    ensures var s := Dispatch(o, attempt, f, now);
      && !s.SentNow?
      && (o.channel.Hub? ==> s == SkippedNow)
      && (!o.channel.Hub? && !Live(f.visit) ==> s == SkippedNow)
      && (!o.channel.Hub? && Live(f.visit) && f.visit.value.startAt != o.scheduledFor ==> s == Superseded)
      && (!o.channel.Hub? && Live(f.visit) && f.visit.value.startAt == o.scheduledFor && !WorthSending(o, attempt, f, now) ==>
            s == if attempt <= 1 then SkippedNow else Failed)
      && (!o.channel.Hub? && WorthSending(o, attempt, f, now) ==>
            if o.channel.Email? && o.isReminder && f.configured && f.contact.Unavailable? then Postponed(s, o, attempt, now)
            else s == SkippedNow)
  {
    DelaysAre(attempt);
  }
}
