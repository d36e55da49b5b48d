/** What two workers of the hourly job keep, however their store calls interleave. */
module RoutineJobProofs {
  import opened Basics
  import opened RoutineJob

  predicate Claimed(claims: seq<Claim>, w: nat, v: Id) { Claim(w, v) in claims }

  // ------------------------------------------------------------------ claims

  /** What ties a worker's phase to the claims it has made and to the pause. */
  ghost predicate WorkerSound(me: Worker, w: nat, winner: Option<nat>, claims: seq<Claim>) {
    && Distinct(me.far)
    && (forall v :: Claimed(claims, w, v) ==> v !in me.far)
    && (me.phase.Idle? || me.phase.Reading? || me.phase.Ready? ==>
          winner != Some(w) && forall v :: !Claimed(claims, w, v))
    && (me.phase.Idle? || me.phase.Reading? ==> me.far == [])
    && (me.phase.Releasing? || me.phase.Unlinking? ==> winner == Some(w))
    && (me.phase.Booking? || me.phase.Claimed? || me.phase.InHand? || me.phase.GivingBack? || me.phase.Noting? ==>
          winner != Some(w))
    && (winner == Some(w) ==> me.far == [] && forall v :: !Claimed(claims, w, v))
  }

  /** A claimed visit that stands open again was opened by the pause's winner, and nobody will try it again. */
  ghost predicate ClaimsSound(s: Sys) {
    && |s.workers| == 2
    && (s.winner.Some? ==> s.winner.value < 2 && !s.active && !s.resumeDue)
    && (forall w :: 0 <= w < 2 ==> WorkerSound(s.workers[w], w, s.winner, s.claims))
    && (forall c :: c in s.claims ==> c.worker < 2)
    && (forall c :: c in s.claims && Claimable(s, c.visit) ==>
          s.winner.Some? && forall w :: 0 <= w < 2 ==> c.visit !in s.workers[w].far)
    && (forall i, j :: 0 <= i < j < |s.claims| ==> s.claims[i].visit != s.claims[j].visit)
  }

  lemma {:induction false} FarVisitsOpen(order: seq<Id>, visits: map<Id, Visit>, due: set<Id>)
    requires Distinct(order)
    ensures Distinct(FarVisits(order, visits, due))
    ensures forall v :: v in FarVisits(order, visits, due) ==> v in order && v in visits && visits[v] == OPEN
  {
    if order != [] { FarVisitsOpen(order[1..], visits, due); }
  }

  /** A step that claims nothing, opens no visit and gives its worker nothing more to try. */
  lemma QuietClaims(s: Sys, e: Sys, w: nat)
    requires ClaimsSound(s) && w < 2 && |e.workers| == 2 && e.workers[1 - w] == s.workers[1 - w]
    requires e.winner == s.winner && e.claims == s.claims && e.active == s.active && e.resumeDue == s.resumeDue
    requires WorkerSound(e.workers[w], w, e.winner, e.claims) && (forall v :: v in e.workers[w].far ==> v in s.workers[w].far)
    requires forall v :: Claimable(e, v) ==> Claimable(s, v)
    ensures ClaimsSound(e)
  {
    assert WorkerSound(s.workers[1 - w], 1 - w, s.winner, s.claims);
    assert WorkerSound(e.workers[1 - w], 1 - w, e.winner, e.claims);
  }

  lemma ResumeClaims(s: Sys, w: nat)
    requires ClaimsSound(s) && w < 2 && s.workers[w].phase.Idle?
    ensures ClaimsSound(Resume(s, w))
  {
    var e := Resume(s, w);
    assert WorkerSound(s.workers[w], w, s.winner, s.claims) && WorkerSound(s.workers[1 - w], 1 - w, s.winner, s.claims);
    assert WorkerSound(e.workers[w], w, e.winner, e.claims) && WorkerSound(e.workers[1 - w], 1 - w, e.winner, e.claims);
  }

  lemma ReadClaims(s: Sys, w: nat, clock: Clock)
    requires ClaimsSound(s) && w < 2 && s.workers[w].phase.Reading? && Distinct(clock.order)
    ensures ClaimsSound(Read(s, w, clock))
  {
    var e := Read(s, w, clock);
    FarVisitsOpen(clock.order, s.visits, clock.due);
    assert WorkerSound(s.workers[w], w, s.winner, s.claims) && WorkerSound(s.workers[1 - w], 1 - w, s.winner, s.claims);
    assert WorkerSound(e.workers[w], w, e.winner, e.claims) && WorkerSound(e.workers[1 - w], 1 - w, e.winner, e.claims);
    forall c | c in e.claims && Claimable(e, c.visit)
      ensures e.winner.Some? && forall k :: 0 <= k < 2 ==> c.visit !in e.workers[k].far
    {
      assert Claimed(s.claims, c.worker, c.visit);
    }
  }

  lemma PauseClaims(s: Sys, w: nat, missed: bool)
    requires ClaimsSound(s) && w < 2 && s.workers[w].phase.Ready?
    ensures ClaimsSound(Pause(s, w, missed))
  {
    var e := Pause(s, w, missed);
    assert WorkerSound(s.workers[w], w, s.winner, s.claims) && WorkerSound(s.workers[1 - w], 1 - w, s.winner, s.claims);
    assert WorkerSound(e.workers[w], w, e.winner, e.claims);
    assert WorkerSound(e.workers[1 - w], 1 - w, e.winner, e.claims);
  }

  lemma UnlinkClaims(s: Sys, w: nat)
    requires ClaimsSound(s) && w < 2 && s.workers[w].phase.Unlinking?
    ensures ClaimsSound(Unlink(s, w))
  {
    var e := Unlink(s, w);
    assert WorkerSound(s.workers[w], w, s.winner, s.claims) && WorkerSound(s.workers[1 - w], 1 - w, s.winner, s.claims);
    assert WorkerSound(e.workers[w], w, e.winner, e.claims) && WorkerSound(e.workers[1 - w], 1 - w, e.winner, e.claims);
    forall c | c in e.claims ensures forall k :: 0 <= k < 2 ==> c.visit !in e.workers[k].far {
      assert Claimed(s.claims, c.worker, c.visit);
    }
  }

  lemma ClaimNextClaims(s: Sys, w: nat)
    requires ClaimsSound(s) && w < 2 && s.workers[w].phase.Booking? && s.workers[w].far != []
    requires Claimable(s, s.workers[w].far[0])
    ensures ClaimsSound(ClaimNext(s, w))
  {
    var e := ClaimNext(s, w);
    var v := s.workers[w].far[0];
    assert WorkerSound(s.workers[w], w, s.winner, s.claims) && WorkerSound(s.workers[1 - w], 1 - w, s.winner, s.claims);
    assert e.claims == s.claims + [Claim(w, v)];
    forall k: nat, u | Claimed(e.claims, k, u) ensures Claimed(s.claims, k, u) || (k == w && u == v) {}
    assert WorkerSound(e.workers[w], w, e.winner, e.claims) && WorkerSound(e.workers[1 - w], 1 - w, e.winner, e.claims);
    forall c | c in s.claims ensures c.visit != v {}
  }

  lemma BookClaims(s: Sys, w: nat, create: Create)
    requires ClaimsSound(s) && w < 2 && s.workers[w].phase.Claimed?
    ensures ClaimsSound(Book(s, w, create))
  {
    QuietClaims(s, Book(s, w, create), w);
  }

  lemma LinkClaims(s: Sys, w: nat, throws: bool)
    requires ClaimsSound(s) && w < 2 && s.workers[w].phase.InHand?
    ensures ClaimsSound(Link(s, w, throws))
  {
    QuietClaims(s, Link(s, w, throws), w);
  }

  lemma GiveBackClaims(s: Sys, w: nat, cancelled: bool)
    requires ClaimsSound(s) && w < 2 && s.workers[w].phase.GivingBack?
    ensures ClaimsSound(GiveBack(s, w, cancelled))
  {
    QuietClaims(s, GiveBack(s, w, cancelled), w);
  }

  lemma RestClaims(s: Sys, w: nat, clock: Clock, luck: Luck)
    requires ClaimsSound(s) && w < 2
    requires s.workers[w].phase.Releasing? || s.workers[w].phase.Noting? || s.workers[w].phase.Reminding?
          || s.workers[w].phase.Finished?
    ensures ClaimsSound(Step(s, w, clock, luck))
  {
    QuietClaims(s, Step(s, w, clock, luck), w);
  }

  lemma AbortClaims(s: Sys, w: nat)
    requires ClaimsSound(s) && w < 2 && MayAbort(s.workers[w].phase)
    ensures ClaimsSound(Abort(s, w))
  {
    var e := Abort(s, w);
    assert WorkerSound(s.workers[w], w, s.winner, s.claims);
    assert WorkerSound(e.workers[w], w, e.winner, e.claims);
    QuietClaims(s, e, w);
  }

  lemma SkipClaims(s: Sys, w: nat)
    requires ClaimsSound(s) && w < 2 && s.workers[w].phase.Booking?
    requires s.workers[w].far != [] ==> !Claimable(s, s.workers[w].far[0])
    ensures ClaimsSound(ClaimNext(s, w))
  {
    QuietClaims(s, ClaimNext(s, w), w);
  }

  lemma StepClaims(s: Sys, w: nat, clock: Clock, luck: Luck)
    requires ClaimsSound(s) && Distinct(clock.order)
    ensures ClaimsSound(Step(s, w, clock, luck))
  {
    if w < 2 && luck.throws && MayAbort(s.workers[w].phase) {
      AbortClaims(s, w);
    } else if w < 2 {
      var me := s.workers[w];
      match me.phase {
        case Idle => ResumeClaims(s, w);
        case Reading => ReadClaims(s, w, clock);
        case Ready => PauseClaims(s, w, luck.missed);
        case Unlinking(_) => UnlinkClaims(s, w);
        case Booking =>
          if me.far != [] && Claimable(s, me.far[0]) { ClaimNextClaims(s, w); } else { SkipClaims(s, w); }
        case Claimed(_) => BookClaims(s, w, luck.create);
        case InHand(_) => LinkClaims(s, w, luck.linkThrows);
        case GivingBack(_, _) => GiveBackClaims(s, w, luck.cancelled);
        case _ => RestClaims(s, w, clock, luck);
      }
    }
  }
}
