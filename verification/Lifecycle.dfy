/** The states of a booking and the one gate every lifecycle command runs. */
module Lifecycle {
  import opened Basics

  datatype Status =
    | Draft | Held | PendingPayment | PendingConfirmation | Confirmed | CheckedIn | InService
    | Completed | Settled | Cancelled | NoShow | Rescheduled | Expired | Skipped

  datatype Actor = Customer | Staff | Manager | System

  datatype Rule = Rule(needsReason: bool, actors: set<Actor>)

  datatype Verdict = Allowed | Illegal | Forbidden | NeedsReason

  const BLOCKING: set<Status> :=
    {PendingPayment, PendingConfirmation, Confirmed, CheckedIn, InService, Completed, Settled}

  const RELEASING: set<Status> := {Cancelled, NoShow, Expired, Skipped}

  const TERMINAL: set<Status> := {Settled, Cancelled, NoShow, Rescheduled, Expired, Skipped}

  /** A move or a shift is only for a visit that has not happened yet. */
  const MOVABLE: set<Status> := {Confirmed, PendingPayment, PendingConfirmation}

  const ANY_STAFF: set<Actor> := {Staff, Manager}

  /** The complete legal set; a pair that is not listed is refused. */
  function RuleFor(from: Status, to: Status): Option<Rule> {
    match (from, to)
    case (Draft, Held) => Some(Rule(false, {Customer} + ANY_STAFF))
    case (Held, Confirmed) => Some(Rule(false, {Customer} + ANY_STAFF))
    case (Held, PendingPayment) => Some(Rule(false, ANY_STAFF))
    case (Held, Expired) => Some(Rule(false, {System}))
    case (PendingPayment, Confirmed) => Some(Rule(false, {Customer, System}))
    case (PendingPayment, Expired) => Some(Rule(false, {System}))
    case (PendingPayment, Cancelled) => Some(Rule(true, {Customer} + ANY_STAFF))
    case (PendingConfirmation, Confirmed) => Some(Rule(false, {Customer}))
    case (PendingConfirmation, Expired) => Some(Rule(false, {System}))
    case (PendingConfirmation, Skipped) => Some(Rule(true, {Customer} + ANY_STAFF))
    case (Confirmed, CheckedIn) => Some(Rule(false, ANY_STAFF))
    case (Confirmed, Cancelled) => Some(Rule(true, {Customer} + ANY_STAFF))
    case (Confirmed, NoShow) => Some(Rule(false, ANY_STAFF + {System}))
    case (Confirmed, Rescheduled) => Some(Rule(true, {Customer} + ANY_STAFF))
    case (CheckedIn, Confirmed) => Some(Rule(true, ANY_STAFF))
    case (CheckedIn, InService) => Some(Rule(false, ANY_STAFF))
    case (CheckedIn, Cancelled) => Some(Rule(true, ANY_STAFF))
    case (CheckedIn, NoShow) => Some(Rule(true, ANY_STAFF))
    case (InService, Completed) => Some(Rule(false, ANY_STAFF))
    case (Completed, Settled) => Some(Rule(false, ANY_STAFF))
    case _ => None
  }

  function Check(from: Status, to: Status, actor: Actor, hasReason: bool): Verdict {
    match RuleFor(from, to)
    case None => Illegal
    case Some(rule) =>
      if actor !in rule.actors then Forbidden
      else if rule.needsReason && !hasReason then NeedsReason
      else Allowed
  }

  /**
   * Nothing leaves a terminal state, and every legal step that ends a visit's claim on the diary
   * gives the capacity back, except the step to Rescheduled: that state neither blocks nor releases.
   */
  lemma CapacityFollowsStatus(from: Status, to: Status, actor: Actor, hasReason: bool)
    requires Check(from, to, actor, hasReason).Allowed?
    ensures from !in TERMINAL
    ensures from in BLOCKING ==> (to in RELEASING <==> to !in BLOCKING && to != Rescheduled)
    ensures from !in RELEASING
  {
    assert RuleFor(from, to).Some?;
  }

  /** A visit already confirmed cannot be expired by anybody: no rule leads there. */
  lemma ConfirmedNeverExpires(actor: Actor, hasReason: bool)
    ensures Check(Confirmed, Expired, actor, hasReason) == Illegal
  {}

  /** Who may call a booking off, from where, and when a reason is asked for. */
  lemma WhoMayCallItOff(from: Status, actor: Actor, hasReason: bool)
    ensures Check(from, Expired, actor, hasReason).Allowed? <==>
      actor == System && from in {Held, PendingPayment, PendingConfirmation}
    ensures Check(from, Cancelled, actor, hasReason).Allowed? <==>
      hasReason && ((actor in ANY_STAFF && from in {PendingPayment, Confirmed, CheckedIn})
                    || (actor == Customer && from in {PendingPayment, Confirmed}))
    ensures Check(from, Skipped, actor, hasReason).Allowed? <==> hasReason && actor != System && from == PendingConfirmation
  {}

  /** Who may say that the visit moved, that nobody came, or that it is paid. */
  lemma WhoMayCloseIt(from: Status, actor: Actor, hasReason: bool)
    ensures Check(from, Rescheduled, actor, hasReason).Allowed? <==> hasReason && actor != System && from == Confirmed
    ensures Check(from, NoShow, actor, hasReason).Allowed? <==>
      (actor != Customer && from == Confirmed) || (actor in ANY_STAFF && from == CheckedIn && hasReason)
    ensures Check(from, Settled, actor, hasReason).Allowed? <==> actor in ANY_STAFF && from == Completed
  {}

  /** Who may confirm it; the one step back is the undoing of a check-in, which says why. */
  lemma WhoMayConfirm(from: Status, actor: Actor, hasReason: bool)
    ensures Check(from, Confirmed, actor, hasReason).Allowed? <==>
      match from
      case Held => actor != System
      case PendingPayment => actor == Customer || actor == System
      case PendingConfirmation => actor == Customer
      case CheckedIn => actor in ANY_STAFF && hasReason
      case _ => false
  {}

  lemma WhoMayBringItOn(from: Status, actor: Actor, hasReason: bool)
    ensures Check(from, PendingPayment, actor, hasReason).Allowed? <==> actor in ANY_STAFF && from == Held
    ensures Check(from, Held, actor, hasReason).Allowed? <==> actor != System && from == Draft
    ensures !Check(from, Draft, actor, hasReason).Allowed? && !Check(from, PendingConfirmation, actor, hasReason).Allowed?
  {}

  lemma WhoMayServeIt(from: Status, actor: Actor, hasReason: bool)
    ensures Check(from, CheckedIn, actor, hasReason).Allowed? <==> actor in ANY_STAFF && from == Confirmed
    ensures Check(from, InService, actor, hasReason).Allowed? <==> actor in ANY_STAFF && from == CheckedIn
    ensures Check(from, Completed, actor, hasReason).Allowed? <==> actor in ANY_STAFF && from == InService
  {}

  // ------------------------------------------------------------------ a booking's whole life

  /** The states a booking went through, each step legal for somebody. */
  ghost predicate Life(path: seq<Status>) {
    path != [] && forall i :: 0 <= i < |path| - 1 ==> Follows(path[i], path[i + 1])
  }

  ghost predicate Follows(from: Status, to: Status) {
    exists actor, hasReason :: Check(from, to, actor, hasReason).Allowed?
  }

  /** The terminal states are exactly the ones no step leaves, whoever takes it. */
  lemma TerminalIff(s: Status)
    ensures s in TERMINAL <==> forall to :: !Follows(s, to)
  {
    forall to | s in TERMINAL ensures !Follows(s, to) {
      forall actor, hasReason ensures !Check(s, to, actor, hasReason).Allowed? { assert RuleFor(s, to).None?; }
    }
    if s !in TERMINAL {
      assert Check(s, NextOf(s), if s.PendingConfirmation? then Customer else Staff, true).Allowed?
        || Check(s, NextOf(s), Customer, true).Allowed?;
      assert Follows(s, NextOf(s));
    }
  }

  /** A state a booking can go on to from `s`. */
  function NextOf(s: Status): Status {
    match s
    case Draft => Held
    case Confirmed => CheckedIn
    case CheckedIn => InService
    case InService => Completed
    case Completed => Settled
    case _ => Confirmed
  }

  /** A booking claims its time from when it is written until it ends otherwise than by having happened. */
  lemma BlockingIff(s: Status)
    ensures s in BLOCKING <==> s !in {Draft, Held, Cancelled, NoShow, Rescheduled, Expired, Skipped}
    ensures s in RELEASING <==> s in TERMINAL && s !in {Settled, Rescheduled}
  {}

  /**
   * No visit is settled without having been served: whoever was behind each step, a booking that is
   * settled was confirmed, checked in, in service and completed in its last four steps.
   */
  lemma SettledWasServed(path: seq<Status>, k: nat)
    requires Life(path) && path[0] !in {CheckedIn, InService, Completed, Settled}
    requires k < |path| && path[k] == Settled
    ensures k >= 4 && path[k - 4..k] == [Confirmed, CheckedIn, InService, Completed]
  {
    assert Follows(path[k - 1], path[k]);
    assert Follows(path[k - 2], path[k - 1]);
    assert Follows(path[k - 3], path[k - 2]);
    assert Follows(path[k - 4], path[k - 3]);
  }

  /** Every legal step but the undoing of a check-in brings a booking nearer its end. */
  function StepsLeft(s: Status): nat {
    match s
    case Draft => 7
    case Held => 6
    case PendingPayment => 5
    case PendingConfirmation => 5
    case Confirmed => 4
    case CheckedIn => 3
    case InService => 2
    case Completed => 1
    case _ => 0
  }

  ghost predicate Undone(path: seq<Status>) {
    exists i :: 0 <= i < |path| - 1 && path[i] == CheckedIn && path[i + 1] == Confirmed
  }

  /** So a life in which no check-in is undone has at most eight states, and never comes back to one. */
  lemma {:induction false} LivesAreShort(path: seq<Status>)
    requires Life(path) && !Undone(path)
    ensures |path| <= 8 && forall i, j :: 0 <= i < j < |path| ==> path[i] != path[j]
  {
    if |path| > 1 { Nearer(path, 0, |path| - 1); }
    forall i, j | 0 <= i < j < |path| ensures StepsLeft(path[i]) >= StepsLeft(path[j]) + (j - i) {
      Nearer(path, i, j);
    }
  }

  lemma {:induction false} Nearer(path: seq<Status>, i: nat, j: nat)
    requires Life(path) && !Undone(path) && i < j < |path|
    ensures StepsLeft(path[i]) >= StepsLeft(path[j]) + (j - i)
  {
    assert Follows(path[j - 1], path[j]);
    if i < j - 1 { Nearer(path, i, j - 1); }
  }
}
