/**
 * What the pause of a routine stops, and what it does not. The worker that won it releases visits; the
 * other one is told nothing, and what it may still do depends on how far it had come.
 */
module RoutineJobPause {
  import opened Basics
  import opened RoutineJob
  import opened RoutineJobProofs
  import opened RoutineJobBookings

  // ------------------------------------------------------------------ what a worker has in its hands

  /** The visit a worker has claimed and not yet linked. */
  function Holding(p: Phase): Option<Id> {
    match p
    case Claimed(v) => Some(v)
    case InHand(h) => Some(h.visit)
    case _ => None
  }

  predicate By(claims: seq<Claim>, w: nat, v: Id) {
    Claim(w, v) in claims
  }

  /** What is still to be tried is open, unless the other worker claimed it; what is in hand is marked. */
  ghost predicate HandsSound(visits: map<Id, Visit>, claims: seq<Claim>, me: Worker, w: nat, other: nat) {
    && (forall v :: v in me.far ==> v in visits && (visits[v] == OPEN || By(claims, other, v)))
    && (Holding(me.phase).Some? ==>
          var v := Holding(me.phase).value;
          v in visits && visits[v] == Visit(NeedsAttention, None) && By(claims, w, v))
  }

  ghost predicate AllHands(s: Sys) {
    && |s.workers| == 2
    && HandsSound(s.visits, s.claims, s.workers[0], 0, 1) && HandsSound(s.visits, s.claims, s.workers[1], 1, 0)
  }

  ghost predicate PauseSound(s: Sys) {
    ClaimsSound(s) && BookingsSound(s) && AllHands(s)
  }

  /** A step that changes no visit and gives its worker nothing new. */
  lemma QuietHands(s: Sys, e: Sys, w: nat)
    requires AllHands(s) && w < 2 && |e.workers| == 2 && e.workers[1 - w] == s.workers[1 - w]
    requires e.visits == s.visits && e.claims == s.claims
    requires forall v :: v in e.workers[w].far ==> v in s.workers[w].far
    requires Holding(e.workers[w].phase).None? || Holding(e.workers[w].phase) == Holding(s.workers[w].phase)
    ensures AllHands(e)
  {}

  lemma ReadHands(s: Sys, w: nat, clock: Clock)
    requires AllHands(s) && w < 2 && s.workers[w].phase.Reading? && Distinct(clock.order)
    ensures AllHands(Read(s, w, clock))
  {
    FarVisitsOpen(clock.order, s.visits, clock.due);
  }

  lemma UnlinkHands(s: Sys, w: nat)
    requires PauseSound(s) && w < 2 && s.workers[w].phase.Unlinking?
    ensures AllHands(Unlink(s, w))
  {
    var h := s.workers[w].phase.gone;
    assert LinkedTo(s.visits, h.visit, h.booking);
  }

  lemma ClaimHands(s: Sys, w: nat)
    requires PauseSound(s) && w < 2 && s.workers[w].phase.Booking? && s.workers[w].far != []
    requires Claimable(s, s.workers[w].far[0])
    ensures AllHands(ClaimNext(s, w))
  {
    var v, e := s.workers[w].far[0], ClaimNext(s, w);
    assert Claim(w, v) in e.claims;
    forall k: nat, u | By(s.claims, k, u) ensures By(e.claims, k, u) {}
    assert WorkerSound(s.workers[w], w, s.winner, s.claims);
    forall u | u in e.workers[w].far ensures u != v {}
  }

  lemma LinkHands(s: Sys, w: nat)
    requires PauseSound(s) && w < 2 && s.workers[w].phase.InHand? && Link(s, w, false).workers[w].phase.Booking?
    ensures AllHands(Link(s, w, false))
  {
    var v := s.workers[w].phase.made.visit;
    assert By(s.claims, w, v);
    forall k: nat | k < 2 && By(s.claims, k, v) ensures k == w { SameClaim(s.claims, Claim(k, v), Claim(w, v)); }
    assert WorkerSound(s.workers[w], w, s.winner, s.claims);
  }

  lemma SameClaim(claims: seq<Claim>, a: Claim, b: Claim)
    requires forall i, j :: 0 <= i < j < |claims| ==> claims[i].visit != claims[j].visit
    requires a in claims && b in claims && a.visit == b.visit
    ensures a == b
  {}

  lemma ClaimStepHands(s: Sys, w: nat)
    requires PauseSound(s) && w < 2 && s.workers[w].phase.Booking?
    ensures AllHands(ClaimNext(s, w))
  {
    var me := s.workers[w];
    if me.far != [] && Claimable(s, me.far[0]) { ClaimHands(s, w); } else { QuietHands(s, ClaimNext(s, w), w); }
  }

  lemma LinkStepHands(s: Sys, w: nat, throws: bool)
    requires PauseSound(s) && w < 2 && s.workers[w].phase.InHand?
    ensures AllHands(Link(s, w, throws))
  {
    if Link(s, w, throws).workers[w].phase.Booking? { LinkHands(s, w); } else { QuietHands(s, Link(s, w, throws), w); }
  }

  lemma BookHands(s: Sys, w: nat, create: Create)
    requires AllHands(s) && w < 2 && s.workers[w].phase.Claimed?
    ensures AllHands(Book(s, w, create))
  {
    QuietHands(s, Book(s, w, create), w);
  }

  /** It looks at no visit, claims none and has none in hand afterwards. */
  ghost predicate Quiet(s: Sys, e: Sys, w: nat)
    requires |s.workers| == 2 && w < 2
  {
    && |e.workers| == 2 && e.workers[1 - w] == s.workers[1 - w] && e.visits == s.visits && e.claims == s.claims
    && (forall v :: v in e.workers[w].far ==> v in s.workers[w].far) && Holding(e.workers[w].phase).None?
  }

  lemma EarlyIsQuiet(s: Sys, w: nat, clock: Clock, luck: Luck)
    requires |s.workers| == 2 && w < 2
    requires var p := s.workers[w].phase; p.Idle? || p.Ready? || p.Releasing?
    ensures Quiet(s, Step(s, w, clock, luck), w)
  {}

  lemma LateIsQuiet(s: Sys, w: nat, clock: Clock, luck: Luck)
    requires |s.workers| == 2 && w < 2
    requires var p := s.workers[w].phase; p.GivingBack? || p.Noting? || p.Reminding? || p.Finished?
    ensures Quiet(s, Step(s, w, clock, luck), w)
  {}

  lemma RestHands(s: Sys, w: nat, clock: Clock, luck: Luck)
    requires AllHands(s) && w < 2
    requires var p := s.workers[w].phase; !(p.Reading? || p.Unlinking? || p.Booking? || p.InHand? || p.Claimed?)
    ensures AllHands(Step(s, w, clock, luck))
  {
    var e, p := Step(s, w, clock, luck), s.workers[w].phase;
    if p.Idle? || p.Ready? || p.Releasing? { EarlyIsQuiet(s, w, clock, luck); } else { LateIsQuiet(s, w, clock, luck); }
    QuietHands(s, e, w);
  }

  lemma StepHands(s: Sys, w: nat, clock: Clock, luck: Luck)
    requires PauseSound(s) && Distinct(clock.order)
    ensures AllHands(Step(s, w, clock, luck))
  {
    if w < 2 {
      if luck.throws && MayAbort(s.workers[w].phase) {
        QuietHands(s, Abort(s, w), w);
      } else {
        match s.workers[w].phase {
          case Reading => ReadHands(s, w, clock);
          case Unlinking(_) => UnlinkHands(s, w);
          case Booking => ClaimStepHands(s, w);
          case Claimed(_) => BookHands(s, w, luck.create);
          case InHand(_) => LinkStepHands(s, w, luck.linkThrows);
          case _ => RestHands(s, w, clock, luck);
        }
      }
    }
  }

  lemma StepPause(s: Sys, w: nat, clock: Clock, luck: Luck)
    requires PauseSound(s) && Distinct(clock.order)
    ensures PauseSound(Step(s, w, clock, luck))
  {
    StepClaims(s, w, clock, luck);
    StepBookings(s, w, clock, luck);
    StepHands(s, w, clock, luck);
  }

  lemma {:induction false} RunPause(s: Sys, turns: seq<Turn>, clock: Clock)
    requires PauseSound(s) && Distinct(clock.order)
    ensures PauseSound(Run(s, turns, clock))
    decreases |turns|
  {
    if turns != [] {
      StepPause(s, turns[0].worker, clock, turns[0].luck);
      RunPause(Step(s, turns[0].worker, clock, turns[0].luck), turns[1..], clock);
    }
  }

  lemma InitialPause(s: Sys)
    requires Initial(s)
    ensures PauseSound(s)
  {
    InitialSound(s);
    assert s.workers[0] == IDLE && s.workers[1] == IDLE;
  }

  // ------------------------------------------------------------------ what the other worker may still do

  /** A routine that worker `w` has paused. */
  ghost predicate PausedBy(s: Sys, w: nat) {
    PauseSound(s) && w < 2 && s.winner == Some(w)
  }

  /** It read the routine while it was active, and has a far visit left to try. */
  predicate MayClaim(me: Worker) {
    var p := me.phase;
    me.far != [] && (p.Ready? || p.Booking? || p.Claimed? || p.InHand? || p.GivingBack? || p.Noting?)
  }

  /** Or it has one claimed already. */
  predicate MayBook(me: Worker) {
    me.phase.Claimed? || MayClaim(me)
  }

  /** Or one booked and not yet linked. */
  predicate MayLink(me: Worker) {
    me.phase.InHand? || MayBook(me)
  }

  ghost predicate GainsLink(s: Sys, e: Sys) {
    exists v: Id, b: Id :: LinkedTo(e.visits, v, b) && !LinkedTo(s.visits, v, b)
  }

  ghost predicate NoNewLinks(s: Sys, e: Sys) {
    forall v: Id, b: Id :: LinkedTo(e.visits, v, b) ==> LinkedTo(s.visits, v, b)
  }

  /** No more than the other worker's place allows. */
  ghost predicate Allowed(s: Sys, e: Sys, w: nat)
    requires w < 2 && |s.workers| == 2
  {
    var me := s.workers[1 - w];
    && e.winner == Some(w) && |e.workers| == 2
    && (!MayClaim(me) ==> e.claims == s.claims && !MayClaim(e.workers[1 - w]))
    && (!MayBook(me) ==> e.made == s.made && !MayBook(e.workers[1 - w]))
    && (!MayLink(me) ==> NoNewLinks(s, e) && !MayLink(e.workers[1 - w]))
  }

  lemma WinnerAllows(s: Sys, w: nat, clock: Clock, luck: Luck)
    requires w < 2 && |s.workers| == 2 && s.winner == Some(w)
    requires var p := s.workers[w].phase; p.Releasing? || p.Unlinking? || p.Reminding? || p.Finished?
    ensures Allowed(s, Step(s, w, clock, luck), w)
  {}

  /** A paused routine is not read as active, and an end by date is off the table. */
  lemma OtherAllows(s: Sys, w: nat, clock: Clock, luck: Luck)
    requires w < 2 && |s.workers| == 2 && s.winner == Some(w) && !s.active && !s.resumeDue
    requires var p := s.workers[1 - w].phase; !(p.Booking? || p.Claimed? || p.InHand? || p.GivingBack? || p.Unlinking?)
    ensures Allowed(s, Step(s, 1 - w, clock, luck), w)
  {}

  lemma FarAllows(s: Sys, w: nat, clock: Clock, luck: Luck)
    requires w < 2 && |s.workers| == 2 && s.winner == Some(w)
    requires var p := s.workers[1 - w].phase; p.Booking? || p.Claimed? || p.InHand? || p.GivingBack? || p.Unlinking?
    ensures Allowed(s, Step(s, 1 - w, clock, luck), w)
  {}

  lemma StepAllows(s: Sys, w: nat, t: Turn, clock: Clock)
    requires PausedBy(s, w)
    ensures Allowed(s, Step(s, t.worker, clock, t.luck), w)
  {
    assert WorkerSound(s.workers[w], w, s.winner, s.claims);
    if t.worker == w {
      WinnerAllows(s, w, clock, t.luck);
    } else if t.worker < 2 {
      var p := s.workers[1 - w].phase;
      if p.Booking? || p.Claimed? || p.InHand? || p.GivingBack? || p.Unlinking? {
        FarAllows(s, w, clock, t.luck);
      } else {
        OtherAllows(s, w, clock, t.luck);
      }
    }
  }

  lemma {:induction false} RunAllows(s: Sys, w: nat, turns: seq<Turn>, clock: Clock)
    requires PausedBy(s, w) && Distinct(clock.order)
    ensures var e := Run(s, turns, clock); var me := s.workers[1 - w];
      && (!MayClaim(me) ==> e.claims == s.claims)
      && (!MayBook(me) ==> e.made == s.made)
      && (!MayLink(me) ==> NoNewLinks(s, e))
    decreases |turns|
  {
    if turns != [] {
      StepAllows(s, w, turns[0], clock);
      StepPause(s, turns[0].worker, clock, turns[0].luck);
      RunAllows(Step(s, turns[0].worker, clock, turns[0].luck), w, turns[1..], clock);
    }
  }

  // ------------------------------------------------------------------ and does, given the turns

  /** Nothing fails and every slot is free. */
  const GOOD := Luck(false, Made, true, false, false)

  function Onward(s: Sys, o: nat, clock: Clock): Sys {
    Step(s, o, clock, GOOD)
  }

  /** The next visit to try is open: the pause's winner has claimed nothing. */
  lemma NextIsOpen(s: Sys, w: nat)
    requires PausedBy(s, w) && s.workers[1 - w].far != []
    ensures Claimable(s, s.workers[1 - w].far[0])
  {
    assert s.workers[1 - w].far[0] in s.workers[1 - w].far;
    assert WorkerSound(s.workers[w], w, s.winner, s.claims);
    assert !By(s.claims, w, s.workers[1 - w].far[0]) by {
      assert !RoutineJobProofs.Claimed(s.claims, w, s.workers[1 - w].far[0]);
    }
  }

  /** How many good turns at most until the next visit is tried. */
  function Distance(p: Phase): nat {
    match p
    case Claimed(_) => 3
    case GivingBack(_, _) => 3
    case InHand(_) => 2
    case Ready => 2
    case Noting(_) => 2
    case _ => 1
  }

  lemma Nearer(s: Sys, w: nat, clock: Clock)
    requires PausedBy(s, w) && MayClaim(s.workers[1 - w]) && !s.workers[1 - w].phase.Booking?
    ensures var e := Onward(s, 1 - w, clock);
      && e.workers[1 - w].far == s.workers[1 - w].far && MayClaim(e.workers[1 - w])
      && Distance(e.workers[1 - w].phase) < Distance(s.workers[1 - w].phase)
      && e.claims == s.claims && e.winner == s.winner && s.made <= e.made
      && (forall v: Id, b: Id :: LinkedTo(s.visits, v, b) ==> LinkedTo(e.visits, v, b))
  {}

  lemma {:induction false} ReachesClaim(s: Sys, w: nat, clock: Clock) returns (turns: seq<Turn>)
    requires PausedBy(s, w) && MayClaim(s.workers[1 - w]) && Distinct(clock.order)
    ensures var e := Run(s, turns, clock);
      && PausedBy(e, w) && e.workers[1 - w].phase.Claimed? && |e.claims| > |s.claims| && s.made <= e.made
      && e.workers[1 - w].phase.visit in s.workers[1 - w].far
    decreases Distance(s.workers[1 - w].phase)
  {
    var t, e := Turn(1 - w, GOOD), Onward(s, 1 - w, clock);
    StepPause(s, 1 - w, clock, GOOD);
    if s.workers[1 - w].phase.Booking? {
      NextIsOpen(s, w);
      turns := [t];
      assert turns[1..] == [];
    } else {
      Nearer(s, w, clock);
      var rest := ReachesClaim(e, w, clock);
      turns := [t] + rest;
      assert turns[1..] == rest;
    }
  }

  lemma {:induction false} RunJoin(s: Sys, a: seq<Turn>, b: seq<Turn>, clock: Clock)
    ensures Run(s, a + b, clock) == Run(Run(s, a, clock), b, clock)
    decreases |a|
  {
    if a == [] {
      assert a + b == b;
    } else {
      assert (a + b)[1..] == a[1..] + b;
      RunJoin(Step(s, a[0].worker, clock, a[0].luck), a[1..], b, clock);
    }
  }

  lemma RunOne(s: Sys, t: Turn, clock: Clock)
    ensures Run(s, [t], clock) == Step(s, t.worker, clock, t.luck)
  {
    assert [t][1..] == [];
  }

  /** From a claim, two good turns book the visit and link it. */
  lemma ClaimedGoesThrough(s: Sys, w: nat, clock: Clock)
    requires PausedBy(s, w) && s.workers[1 - w].phase.Claimed? && Distinct(clock.order)
    ensures var booked := Onward(s, 1 - w, clock); var v := s.workers[1 - w].phase.visit;
      && s.next !in s.made && booked.made == s.made + {s.next} && booked.winner == s.winner
      && LinkedTo(Onward(booked, 1 - w, clock).visits, v, s.next) && Onward(booked, 1 - w, clock).winner == s.winner
      && !LinkedTo(s.visits, v, s.next) && !s.active && !Onward(booked, 1 - w, clock).active
  {
    assert HandsSound(s.visits, s.claims, s.workers[1 - w], 1 - w, w);
    var booked := Onward(s, 1 - w, clock);
    assert booked.workers[1 - w].phase == InHand(Held(s.workers[1 - w].phase.visit, s.next));
  }

  lemma {:induction false} ReachesBooking(s: Sys, w: nat, clock: Clock) returns (turns: seq<Turn>)
    requires PausedBy(s, w) && MayBook(s.workers[1 - w]) && Distinct(clock.order)
    ensures Run(s, turns, clock).made != s.made
  {
    var t := Turn(1 - w, GOOD);
    var before := [];
    if !s.workers[1 - w].phase.Claimed? { before := ReachesClaim(s, w, clock); }
    var c := Run(s, before, clock);
    ClaimedGoesThrough(c, w, clock);
    RunOne(c, t, clock);
    RunJoin(s, before, [t], clock);
    turns := before + [t];
  }

  lemma InHandLinks(s: Sys, w: nat, clock: Clock)
    requires PausedBy(s, w) && s.workers[1 - w].phase.InHand?
    ensures GainsLink(s, Onward(s, 1 - w, clock))
  {
    var h := s.workers[1 - w].phase.made;
    assert HandsSound(s.visits, s.claims, s.workers[1 - w], 1 - w, w);
    assert LinkedTo(Onward(s, 1 - w, clock).visits, h.visit, h.booking) && !LinkedTo(s.visits, h.visit, h.booking);
  }

  lemma ReachesLink(s: Sys, w: nat, clock: Clock) returns (turns: seq<Turn>)
    requires PausedBy(s, w) && MayLink(s.workers[1 - w]) && Distinct(clock.order)
    ensures GainsLink(s, Run(s, turns, clock)) && Run(s, turns, clock).winner == Some(w) && !Run(s, turns, clock).active
  {
    var t := Turn(1 - w, GOOD);
    if s.workers[1 - w].phase.InHand? {
      InHandLinks(s, w, clock);
      RunOne(s, t, clock);
      turns := [t];
    } else {
      var before := [];
      if !s.workers[1 - w].phase.Claimed? { before := ReachesClaim(s, w, clock); }
      var c := Run(s, before, clock);
      ClaimedGoesThrough(c, w, clock);
      RunOne(c, t, clock);
      RunOne(Onward(c, 1 - w, clock), t, clock);
      RunJoin(c, [t], [t], clock);
      RunJoin(s, before, [t] + [t], clock);
      turns := before + ([t] + [t]);
      RunPause(s, before, clock);
      MadeIsNew(s, before, clock);
      assert LinkedTo(Run(s, turns, clock).visits, c.workers[1 - w].phase.visit, c.next);
    }
  }

  /** A booking of a later moment is linked nowhere now: ids are handed out in order. */
  lemma MadeIsNew(s: Sys, turns: seq<Turn>, clock: Clock)
    requires PauseSound(s)
    ensures Run(s, turns, clock).next >= s.next
    ensures forall v: Id :: !LinkedTo(s.visits, v, Run(s, turns, clock).next)
  {
    NextGrows(s, turns, clock);
  }

  lemma StepNext(s: Sys, t: Turn, clock: Clock)
    ensures Step(s, t.worker, clock, t.luck).next >= s.next
  {}

  lemma {:induction false} NextGrows(s: Sys, turns: seq<Turn>, clock: Clock)
    ensures Run(s, turns, clock).next >= s.next
    decreases |turns|
  {
    if turns != [] {
      StepNext(s, turns[0], clock);
      NextGrows(Step(s, turns[0].worker, clock, turns[0].luck), turns[1..], clock);
    }
  }

  /**
   * Once a routine is paused, the worker that did not pause it can still claim a visit, book one, or put
   * one on the routine, if and only if it had read the routine while it was active and has a far visit
   * left to try; or, for a booking, has one claimed; or, for a link, has one in hand.
   */
  lemma PauseStopsExactly(s: Sys, w: nat, clock: Clock)
    requires PausedBy(s, w) && Distinct(clock.order)
    ensures (exists turns :: Run(s, turns, clock).claims != s.claims) <==> MayClaim(s.workers[1 - w])
    ensures (exists turns :: Run(s, turns, clock).made != s.made) <==> MayBook(s.workers[1 - w])
    ensures (exists turns :: GainsLink(s, Run(s, turns, clock))) <==> MayLink(s.workers[1 - w])
  {
    forall turns { RunAllows(s, w, turns, clock); }
    if MayClaim(s.workers[1 - w]) { var turns := ReachesClaim(s, w, clock); }
    if MayBook(s.workers[1 - w]) { var turns := ReachesBooking(s, w, clock); }
    if MayLink(s.workers[1 - w]) { var turns := ReachesLink(s, w, clock); }
  }

  // ------------------------------------------------------------------ it happens

  /** Every pause of a run from the start is one of these. */
  lemma EveryPauseIsSound(s: Sys, turns: seq<Turn>, clock: Clock, w: nat)
    requires Initial(s) && Distinct(clock.order) && Run(s, turns, clock).winner == Some(w)
    ensures PausedBy(Run(s, turns, clock), w)
  {
    InitialPause(s);
    RunPause(s, turns, clock);
  }

  /** Both copies read the routine, and the first of them pauses it. */
  const BOTH_READ: seq<Turn> :=
    [Turn(0, GOOD), Turn(0, GOOD), Turn(1, GOOD), Turn(1, GOOD), Turn(0, GOOD.(missed := true))]

  lemma BothReadThenPause(s: Sys, clock: Clock)
    requires Initial(s) && s.active
    ensures var e := Run(s, BOTH_READ, clock);
      e.winner == Some(0) && |e.workers| == 2 && e.workers[1].phase.Ready?
      && e.workers[1].far == FarVisits(clock.order, s.visits, clock.due)
  {
    var s1 := Onward(s, 0, clock);
    var s2 := Onward(s1, 0, clock);
    var s3 := Onward(s2, 1, clock);
    var s4 := Onward(s3, 1, clock);
    var t := BOTH_READ;
    assert t[1..][0] == t[1] && t[1..][1..] == t[2..] && t[2..][0] == t[2] && t[2..][1..] == t[3..];
    assert t[3..][0] == t[3] && t[3..][1..] == t[4..] && t[4..][0] == t[4] && t[4..][1..] == [];
    assert Run(s, t, clock) == Run(s1, t[1..], clock) == Run(s2, t[2..], clock);
    assert Run(s2, t[2..], clock) == Run(s3, t[3..], clock) == Run(s4, t[4..], clock);
    assert Run(s4, t[4..], clock) == Step(s4, 0, clock, GOOD.(missed := true));
  }

  /**
   * So an active routine with a far visit due can be paused by one copy and have a visit booked into it
   * by the other afterwards, while it stands paused: losing the claim of the pause tells it nothing.
   */
  lemma LoserStillBooks(s: Sys, clock: Clock)
    requires Initial(s) && s.active && Distinct(clock.order) && FarVisits(clock.order, s.visits, clock.due) != []
    ensures exists before, after ::
      var paused := Run(s, before, clock); var e := Run(paused, after, clock);
      paused.winner == Some(0) && !paused.active && GainsLink(paused, e) && !e.active
  {
    BothReadThenPause(s, clock);
    EveryPauseIsSound(s, BOTH_READ, clock, 0);
    var after := ReachesLink(Run(s, BOTH_READ, clock), 0, clock);
  }

  // ------------------------------------------------------------------ why two copies

  ghost predicate Reaches(s: Sys, e: Sys, clock: Clock) {
    exists turns :: Run(s, turns, clock) == e
  }

  lemma ReachesItself(s: Sys, clock: Clock)
    ensures Reaches(s, s, clock)
  {
    assert Run(s, [], clock) == s;
  }

  lemma Goes(s: Sys, e: Sys, w: nat, luck: Luck, clock: Clock)
    requires Reaches(s, e, clock)
    ensures Reaches(s, Step(e, w, clock, luck), clock)
  {
    var turns :| Run(s, turns, clock) == e;
    RunJoin(s, turns, [Turn(w, luck)], clock);
    RunOne(e, Turn(w, luck), clock);
  }

  function ThreeCopies(v: Id, b: Id): Sys {
    Sys(true, false, map[v := OPEN], {}, b, [], [IDLE, IDLE, IDLE], None, [], [], {}, {}, {}, {})
  }

  function Everything(v: Id): Clock {
    Clock([v], {v}, {v}, {})
  }

  /** Two copies have read the routine; one of them has booked the visit. */
  function OneHasBooked(v: Id, b: Id): Sys {
    Sys(true, false, map[v := Visit(Materialised, Some(b))], {b}, b + 1, [],
        [IDLE, Worker(Booking, [], [], []), Worker(Ready, [], [v], [])], None, [Claim(1, v)], [], {b}, {}, {}, {})
  }

  lemma OneVisitRead(v: Id, visits: map<Id, Visit>)
    requires v in visits
    ensures FarVisits([v], visits, {v}) == if visits[v] == OPEN then [v] else []
    ensures HeldVisits([v], visits, {v}) == if visits[v].booking.Some? then [Held(v, visits[v].booking.value)] else []
    ensures Reminders([v], {}) == []
  {
    assert [v][1..] == [];
  }

  function BothRead(v: Id, b: Id): Sys {
    ThreeCopies(v, b).(workers := [IDLE, Worker(Ready, [], [v], []), Worker(Ready, [], [v], [])])
  }

  lemma TwoRead(v: Id, b: Id)
    ensures Reaches(ThreeCopies(v, b), BothRead(v, b), Everything(v))
  {
    var clock, s0 := Everything(v), ThreeCopies(v, b);
    OneVisitRead(v, s0.visits);
    ReachesItself(s0, clock);
    var s1 := Onward(s0, 1, clock);
    Goes(s0, s0, 1, GOOD, clock);
    var s2 := Onward(s1, 1, clock);
    Goes(s0, s1, 1, GOOD, clock);
    var s3 := Onward(s2, 2, clock);
    Goes(s0, s2, 2, GOOD, clock);
    Goes(s0, s3, 2, GOOD, clock);
    assert Onward(s3, 2, clock) == BothRead(v, b);
  }

  function OneClaimed(v: Id, b: Id): Sys {
    BothRead(v, b).(visits := map[v := Visit(NeedsAttention, None)], claims := [Claim(1, v)],
      workers := [IDLE, Worker(Phase.Claimed(v), [], [], []), Worker(Ready, [], [v], [])])
  }

  lemma OneClaims(v: Id, b: Id)
    ensures Reaches(ThreeCopies(v, b), OneClaimed(v, b), Everything(v))
  {
    var clock, s, s4 := Everything(v), ThreeCopies(v, b), BothRead(v, b);
    TwoRead(v, b);
    var s5 := Onward(s4, 1, clock);
    Goes(s, s4, 1, GOOD, clock);
    Goes(s, s5, 1, GOOD, clock);
    assert [v][1..] == [];
    assert s5.workers == [IDLE, Worker(Booking, [], [v], []), Worker(Ready, [], [v], [])] && s5.visits == s4.visits;
    assert Onward(s5, 1, clock).workers == OneClaimed(v, b).workers;
    assert Onward(s5, 1, clock).claims == [Claim(1, v)];
  }

  lemma OneBooks(v: Id, b: Id)
    ensures Reaches(ThreeCopies(v, b), OneHasBooked(v, b), Everything(v))
  {
    var clock, s, s6 := Everything(v), ThreeCopies(v, b), OneClaimed(v, b);
    OneClaims(v, b);
    var s7 := Onward(s6, 1, clock);
    Goes(s, s6, 1, GOOD, clock);
    Goes(s, s7, 1, GOOD, clock);
    assert Onward(s7, 1, clock) == OneHasBooked(v, b);
  }

  /** The third reads, pauses and releases: the visit is open again, and its claim is history. */
  function ThirdReleased(v: Id, b: Id): Sys {
    Sys(false, false, map[v := OPEN], {}, b + 1, [],
        [Worker(Releasing, [], [], []), Worker(Booking, [], [], []), Worker(Ready, [], [v], [])],
        Some(0), [Claim(1, v)], [Cancel(0, b)], {b}, {}, {}, {})
  }

  function ThirdPaused(v: Id, b: Id): Sys {
    OneHasBooked(v, b).(active := false, winner := Some(0),
      workers := [Worker(Releasing, [Held(v, b)], [], []), Worker(Booking, [], [], []), Worker(Ready, [], [v], [])])
  }

  function ThirdRead(v: Id, b: Id): Sys {
    OneHasBooked(v, b).(workers :=
      [Worker(Ready, [Held(v, b)], [], []), Worker(Booking, [], [], []), Worker(Ready, [], [v], [])])
  }

  lemma ThirdReads(v: Id, b: Id)
    ensures Reaches(ThreeCopies(v, b), ThirdRead(v, b), Everything(v))
  {
    var clock, s, s0 := Everything(v), ThreeCopies(v, b), OneHasBooked(v, b);
    OneBooks(v, b);
    OneVisitRead(v, s0.visits);
    var s1 := Onward(s0, 0, clock);
    Goes(s, s0, 0, GOOD, clock);
    Goes(s, s1, 0, GOOD, clock);
    assert Onward(s1, 0, clock).workers == ThirdRead(v, b).workers;
  }

  lemma ThirdPauses(v: Id, b: Id)
    ensures Reaches(ThreeCopies(v, b), ThirdPaused(v, b), Everything(v))
  {
    var clock, s2 := Everything(v), ThirdRead(v, b);
    ThirdReads(v, b);
    Goes(ThreeCopies(v, b), s2, 0, GOOD.(missed := true), clock);
    assert Step(s2, 0, clock, GOOD.(missed := true)) == ThirdPaused(v, b);
  }

  lemma ThirdReleases(v: Id, b: Id)
    ensures Reaches(ThreeCopies(v, b), ThirdReleased(v, b), Everything(v))
  {
    var clock, s, s3 := Everything(v), ThreeCopies(v, b), ThirdPaused(v, b);
    ThirdPauses(v, b);
    var s4 := Onward(s3, 0, clock);
    Goes(s, s3, 0, GOOD, clock);
    assert [Held(v, b)][1..] == [];
    assert s4.workers[0] == Worker(Unlinking(Held(v, b)), [], [], []) && s4.live == {};
    Goes(s, s4, 0, GOOD, clock);
    assert Onward(s4, 0, clock).workers == ThirdReleased(v, b).workers;
    assert Onward(s4, 0, clock) == ThirdReleased(v, b);
  }

  /**
   * Two copies is what makes claims unique. With a third one that read the routine early, the visit the
   * first booked and the pause's winner released is open again, and the third claims it once more.
   */
  lemma ThirdCopyClaimsAgain(v: Id, b: Id)
    ensures exists turns :: Run(ThreeCopies(v, b), turns, Everything(v)).claims == [Claim(1, v), Claim(2, v)]
  {
    var clock, s, s0 := Everything(v), ThreeCopies(v, b), ThirdReleased(v, b);
    ThirdReleases(v, b);
    var s1 := Onward(s0, 2, clock);
    Goes(s, s0, 2, GOOD, clock);
    var s2 := Onward(s1, 2, clock);
    Goes(s, s1, 2, GOOD, clock);
    assert s2.claims == [Claim(1, v), Claim(2, v)];
    var turns :| Run(s, turns, clock) == s2;
  }
}
