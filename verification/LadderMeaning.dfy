/**
 * What the ladder answers, said of the candidates it is given: their minutes and their professionals,
 * against the minute that was wanted and the professional who has been doing it.
 */
module LadderMeaning {
  import opened Basics
  import opened Greedy
  import opened Materialiser

  function Off(c: Candidate, wanted: int): int {
    if c.startMin < wanted then wanted - c.startMin else c.startMin - wanted
  }

  predicate AtOff(candidates: seq<Candidate>, wanted: int, off: int) {
    exists i :: 0 <= i < |candidates| && Off(candidates[i], wanted) == off
  }

  /** The client's own minute with her own professional. */
  predicate OwnSlot(candidates: seq<Candidate>, wanted: int, incumbent: Option<Id>) {
    incumbent.Some? && Candidate(wanted, incumbent.value) in candidates
  }

  lemma OfferOf(candidates: seq<Candidate>, wanted: int, incumbent: Option<Id>, i: nat)
    requires i < |candidates|
    ensures Offers(candidates, wanted, incumbent)[i]
      == Offer(candidates[i].startMin, candidates[i].staff, Off(candidates[i], wanted),
               candidates[i].startMin == wanted, incumbent == Some(candidates[i].staff))
  {}

  /** An offer says of its candidate what is so. */
  lemma OffersTellTheTruth(candidates: seq<Candidate>, wanted: int, incumbent: Option<Id>)
    ensures forall o :: o in Offers(candidates, wanted, incumbent) ==>
      && SlotOf(o) in candidates && o.distance == Off(SlotOf(o), wanted)
      && (o.keepsTime <==> o.startMin == wanted) && (o.keepsProfessional <==> incumbent == Some(o.staff))
    ensures forall c :: c in candidates ==> exists o :: o in Offers(candidates, wanted, incumbent) && SlotOf(o) == c
  {
    var offers := Offers(candidates, wanted, incumbent);
    forall o | o in offers
      ensures SlotOf(o) in candidates && o.distance == Off(SlotOf(o), wanted)
      ensures (o.keepsTime <==> o.startMin == wanted) && (o.keepsProfessional <==> incumbent == Some(o.staff))
    {
      var i :| 0 <= i < |offers| && offers[i] == o;
      OfferOf(candidates, wanted, incumbent, i);
      assert SlotOf(o) == candidates[i];
    }
    forall c | c in candidates ensures exists o :: o in offers && SlotOf(o) == c {
      var i :| 0 <= i < |candidates| && candidates[i] == c;
      OfferOf(candidates, wanted, incumbent, i);
      assert offers[i] in offers && SlotOf(offers[i]) == c;
    }
  }

  /** The slot taken on a shift: the incumbent's if she has one at that distance, and then the earliest. */
  ghost predicate BestShift(candidates: seq<Candidate>, wanted: int, incumbent: Option<Id>, slot: Candidate) {
    forall c :: c in candidates && Off(c, wanted) == Off(slot, wanted) ==>
      && (incumbent == Some(c.staff) ==> incumbent == Some(slot.staff))
      && ((incumbent == Some(c.staff) <==> incumbent == Some(slot.staff)) ==> slot.startMin <= c.startMin)
  }

  /** What a rung was taken for. */
  ghost predicate Deserves(candidates: seq<Candidate>, wanted: int, incumbent: Option<Id>, slot: Candidate, rung: Rung) {
    slot in candidates &&
      match rung
      case SameTimeSameProfessional => slot.startMin == wanted && incumbent == Some(slot.staff)
      case SameTimeAnyProfessional =>
        && slot.startMin == wanted && !OwnSlot(candidates, wanted, incumbent)
        && forall c :: c in candidates && c.startMin == wanted ==> slot.staff <= c.staff
      case SmallShift =>
        && !AtOff(candidates, wanted, 0) && BestShift(candidates, wanted, incumbent, slot)
        && Off(slot, wanted) == if AtOff(candidates, wanted, 15) then 15 else 30
  }

  lemma OffersTell(candidates: seq<Candidate>, wanted: int, incumbent: Option<Id>, c: Candidate) returns (o: Offer)
    requires c in candidates
    ensures o in Offers(candidates, wanted, incumbent) && SlotOf(o) == c
    ensures o == Offer(c.startMin, c.staff, Off(c, wanted), c.startMin == wanted, incumbent == Some(c.staff))
  {
    var i :| 0 <= i < |candidates| && candidates[i] == c;
    OfferOf(candidates, wanted, incumbent, i);
    o := Offers(candidates, wanted, incumbent)[i];
  }

  /**
   * Within the horizon the ladder keeps the client's minute and her professional whenever both are to be
   * had, and calls nothing else that; then her minute with anybody, the first by id; then the nearest
   * shift, fifteen minutes before thirty, with her professional if she can; and asks a human exactly
   * when none of these is free.
   */
  lemma LadderFromCandidates(wanted: int, incumbent: Option<Id>, candidates: seq<Candidate>, daysAhead: int)
    ensures var d := Repair(wanted, incumbent, candidates, daysAhead);
      && (d.TooFar? <==> daysAhead > 90)
      && (d.Repaired? ==> Deserves(candidates, wanted, incumbent, SlotOf(d.offer), d.rung))
      && (d.Repaired? <==>
            daysAhead <= 90
            && (AtOff(candidates, wanted, 0) || AtOff(candidates, wanted, 15) || AtOff(candidates, wanted, 30)))
      && (daysAhead <= 90 && OwnSlot(candidates, wanted, incumbent) ==>
            d.Repaired? && d.rung.SameTimeSameProfessional? && SlotOf(d.offer) == Candidate(wanted, incumbent.value))
  {
    var d, offers := Repair(wanted, incumbent, candidates, daysAhead), Offers(candidates, wanted, incumbent);
    OffersTellTheTruth(candidates, wanted, incumbent);
    LadderTakesTheBest(offers);
    if daysAhead <= 90 {
      forall c | c in candidates ensures d.Repaired? || (Off(c, wanted) != 0 && Off(c, wanted) != 15 && Off(c, wanted) != 30) {
        var o := OffersTell(candidates, wanted, incumbent, c);
      }
      if d.Repaired? { RungDeserved(wanted, incumbent, candidates, d.offer, d.rung); }
      if OwnSlot(candidates, wanted, incumbent) {
        var o := OffersTell(candidates, wanted, incumbent, Candidate(wanted, incumbent.value));
      }
    }
  }

  lemma RungDeserved(wanted: int, incumbent: Option<Id>, candidates: seq<Candidate>, offer: Offer, rung: Rung)
    requires BestOnLadder(Offers(candidates, wanted, incumbent), offer, rung)
    ensures Deserves(candidates, wanted, incumbent, SlotOf(offer), rung)
  {
    OffersTellTheTruth(candidates, wanted, incumbent);
    forall c | c in candidates
      ensures rung.SameTimeAnyProfessional? ==> (c.startMin == wanted ==> incumbent != Some(c.staff) && offer.staff <= c.staff)
      ensures rung.SmallShift? ==> c.startMin != wanted && (offer.distance == 30 ==> Off(c, wanted) != 15)
      ensures rung.SmallShift? && Off(c, wanted) == offer.distance ==>
        && (incumbent == Some(c.staff) ==> incumbent == Some(offer.staff))
        && ((incumbent == Some(c.staff) <==> incumbent == Some(offer.staff)) ==> offer.startMin <= c.startMin)
    {
      var o := OffersTell(candidates, wanted, incumbent, c);
    }
  }

  // ------------------------------------------------------------------ what a human is shown

  predicate Apart(a: int, b: int) {
    a - b >= 25 || b - a >= 25
  }

  lemma TwoPlaces<T>(s: seq<T>, x: T)
    requires multiset(s)[x] >= 2
    ensures exists i, j :: 0 <= i < j < |s| && s[i] == x && s[j] == x
  {
    var j :| 0 <= j < |s| && s[j] == x;
    assert s == s[..j] + [x] + s[j + 1..];
    if x in s[..j] {
      var i :| 0 <= i < j && s[..j][i] == x;
      assert s[i] == x;
    } else {
      assert multiset(s[..j])[x] == 0;
      assert x in multiset(s[j + 1..]);
      var k :| 0 <= k < |s[j + 1..]| && s[j + 1..][k] == x;
      assert s[j + 1 + k] == x;
    }
  }

  /** Sorting keeps things apart that were. */
  lemma SortedApart(chosen: seq<Offer>, sorted: seq<Offer>)
    requires multiset(chosen) == multiset(sorted)
    requires forall i, j :: 0 <= i < j < |chosen| ==> Apart(chosen[i].startMin, chosen[j].startMin)
    ensures forall i, j :: 0 <= i < j < |sorted| ==> Apart(sorted[i].startMin, sorted[j].startMin)
  {
    forall i, j | 0 <= i < j < |sorted| ensures Apart(sorted[i].startMin, sorted[j].startMin) {
      if sorted[i] == sorted[j] {
        TwiceInMultiset(sorted, i, j);
        TwoPlaces(chosen, sorted[i]);
      } else {
        assert sorted[i] in multiset(chosen) && sorted[j] in multiset(chosen);
        var a :| 0 <= a < |chosen| && chosen[a] == sorted[i];
        var b :| 0 <= b < |chosen| && chosen[b] == sorted[j];
        assert a != b;
      }
    }
  }

  /** Nearer ones that are close by, or three nearer ones, are why a candidate is not shown. */
  ghost predicate LeftOut(shown: seq<Offer>, c: Candidate, wanted: int) {
    || (exists o :: o in shown && !Apart(o.startMin, c.startMin) && Off(SlotOf(o), wanted) <= Off(c, wanted))
    || (|shown| == 3 && forall o :: o in shown ==> Off(SlotOf(o), wanted) <= Off(c, wanted))
  }

  /**
   * A human is shown at most three of the candidates, by start, twenty-five minutes apart, and no
   * candidate is left out for one farther from the minute that was wanted.
   */
  lemma AlternativesFromCandidates(wanted: int, incumbent: Option<Id>, candidates: seq<Candidate>)
    ensures var shown := Nearest(Offers(candidates, wanted, incumbent));
      && |shown| <= 3
      && (forall o :: o in shown ==> SlotOf(o) in candidates)
      && (forall i, j :: 0 <= i < j < |shown| ==>
            shown[i].startMin <= shown[j].startMin && Apart(shown[i].startMin, shown[j].startMin))
      && (forall c :: c in candidates ==> (exists o :: o in shown && SlotOf(o) == c) || LeftOut(shown, c, wanted))
  {
    var offers := Offers(candidates, wanted, incumbent);
    var shown, chosen := Nearest(offers), Chosen(offers);
    OffersTellTheTruth(candidates, wanted, incumbent);
    SortKeeps(chosen, ByStart);
    SortMembers(chosen, ByStart);
    if offers != [] {
      NearestAreBest(offers, offers[0]);
      SortedApart(chosen, shown);
    } else {
      NothingToShow(offers);
    }
    forall c | c in candidates ensures (exists o :: o in shown && SlotOf(o) == c) || LeftOut(shown, c, wanted) {
      var x := OffersTell(candidates, wanted, incumbent, c);
      NearestAreBest(offers, x);
      if x !in shown { ShownInstead(offers, x, c, wanted, candidates, incumbent); }
    }
  }

  lemma NothingToShow(offers: seq<Offer>)
    requires offers == []
    ensures Nearest(offers) == []
  {}

  /** The reason, said of the offers that were chosen. */
  lemma ChosenInstead(chosen: seq<Offer>, x: Offer)
    requires PassedOver(chosen, x, MAX_ALTERNATIVES, TooClose, ByDistance)
    ensures (exists o :: o in chosen && !Apart(o.startMin, x.startMin) && o.distance <= x.distance)
         || (|chosen| == 3 && forall o :: o in chosen ==> o.distance <= x.distance)
  {
    var k :| 0 <= k <= |chosen| && (forall i :: 0 <= i < k ==> ByDistance(chosen[i], x))
             && (TooClose(chosen[..k], x) || k == |chosen| == MAX_ALTERNATIVES);
    if TooClose(chosen[..k], x) {
      var i :| 0 <= i < k && Near(chosen[..k][i], x);
      assert chosen[i] in chosen && ByDistance(chosen[i], x);
    } else {
      forall o | o in chosen ensures o.distance <= x.distance {
        var i :| 0 <= i < |chosen| && chosen[i] == o;
      }
    }
  }

  lemma ShownAreChosen(offers: seq<Offer>)
    ensures |Nearest(offers)| == |Chosen(offers)|
    ensures forall o :: o in Nearest(offers) <==> o in Chosen(offers)
    ensures forall o :: o in Chosen(offers) ==> o in offers
  {
    var chosen, shown := Chosen(offers), Nearest(offers);
    SortKeeps(chosen, ByStart);
    SortMembers(chosen, ByStart);
    SortMembers(offers, ByDistance);
    PickSound(Sort(offers, ByDistance), MAX_ALTERNATIVES, TooClose, []);
    assert |shown| == |multiset(shown)| == |multiset(chosen)| == |chosen|;
  }

  lemma ShownInstead(
      offers: seq<Offer>, x: Offer, c: Candidate, wanted: int, candidates: seq<Candidate>, incumbent: Option<Id>)
    requires offers == Offers(candidates, wanted, incumbent)
    requires SlotOf(x) == c && x.distance == Off(c, wanted)
    requires PassedOver(Chosen(offers), x, MAX_ALTERNATIVES, TooClose, ByDistance)
    ensures LeftOut(Nearest(offers), c, wanted)
  {
    OffersTellTheTruth(candidates, wanted, incumbent);
    ShownAreChosen(offers);
    ChosenInstead(Chosen(offers), x);
  }

  // ------------------------------------------------------------------ one seating

  /** The candidates that were not refused. */
  ghost predicate Remaining(candidates: seq<Candidate>, refused: seq<Candidate>, left: seq<Candidate>) {
    forall c :: c in left <==> c in candidates && c !in refused
  }

  ghost predicate NothingNear(left: seq<Candidate>, wanted: int) {
    !AtOff(left, wanted, 0) && !AtOff(left, wanted, 15) && !AtOff(left, wanted, 30)
  }

  ghost predicate AllRefused(writes: Writes, refused: seq<Candidate>) {
    forall k :: 0 <= k < |refused| ==> !writes(k, refused[k])
  }

  /** How a seating may end, on what is left of the candidates by then. */
  ghost predicate EndsRightly(
      wanted: int, incumbent: Option<Id>, candidates: seq<Candidate>, daysAhead: int, writes: Writes, s: Seated) {
    match s
    case Deferred => daysAhead > 90
    case Booked(slot, rung, attempt, refused) =>
      && daysAhead <= 90 && |refused| == attempt < 3 && AllRefused(writes, refused) && writes(attempt, slot)
      && exists left :: Remaining(candidates, refused, left) && Deserves(left, wanted, incumbent, slot, rung)
    case Attention(shown, lost) =>
      && daysAhead <= 90 && |lost| <= 3 && AllRefused(writes, lost)
      && exists left :: Remaining(candidates, lost, left) && (|lost| == 3 || NothingNear(left, wanted))
           && shown == Nearest(Offers(left, wanted, incumbent))
  }

  /**
   * An occurrence is booked on what the ladder makes of the candidates the diary has not refused, when
   * the write goes through; a human is asked only after three refusals, or when nothing near is left;
   * and then is shown the nearest of what is left.
   */
  lemma {:induction false} SeatEndsRightly(
      wanted: int, incumbent: Option<Id>, candidates: seq<Candidate>, daysAhead: int, writes: Writes,
      attempt: nat, refused: seq<Candidate>)
    requires |refused| == attempt <= 3 && AllRefused(writes, refused) && (attempt > 0 ==> daysAhead <= 90)
    ensures EndsRightly(wanted, incumbent, candidates, daysAhead, writes,
                        SeatFrom(wanted, incumbent, candidates, daysAhead, writes, attempt, refused))
    decreases 3 - attempt
  {
    var left := Usable(candidates, Rejected(refused));
    UsableExact(candidates, Rejected(refused));
    RejectedExact(refused);
    assert Remaining(candidates, refused, left);
    LadderFromCandidates(wanted, incumbent, left, daysAhead);
    var d := Repair(wanted, incumbent, left, daysAhead);
    if attempt < 3 && d.NeedsHuman? { LadderTakesTheBest(Offers(left, wanted, incumbent)); }
    if attempt < 3 && d.Repaired? && !writes(attempt, SlotOf(d.offer)) {
      var more := refused + [SlotOf(d.offer)];
      SeatEndsRightly(wanted, incumbent, candidates, daysAhead, writes, attempt + 1, more);
    }
  }
}
