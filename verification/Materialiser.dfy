/**
 * The desk's standing series. The ladder decides where an occurrence goes: its own time with its own
 * professional, its own time with anybody, a small shift, or a human. The materialiser writes what the
 * ladder decided, and a slot refused at the write is taken off the list and the ladder run again.
 */
module Materialiser {
  import opened Basics
  import opened Greedy

  const BOOKING_HORIZON_DAYS := 90
  const OFFER_SPACING_MIN := 25
  const MAX_ALTERNATIVES := 3
  const MAX_WRITE_ATTEMPTS := 3

  datatype Candidate = Candidate(startMin: int, staff: Id)

  datatype Occurrence = Occurrence(id: Id, day: int, startMin: int)

  datatype Offer = Offer(startMin: int, staff: Id, distance: nat, keepsTime: bool, keepsProfessional: bool)

  datatype Rung = SameTimeSameProfessional | SameTimeAnyProfessional | SmallShift

  datatype Decision = Repaired(offer: Offer, rung: Rung) | NeedsHuman(alternatives: seq<Offer>) | TooFar

  // ------------------------------------------------------------------ the ladder

  function ToOffer(c: Candidate, wanted: int, incumbent: Option<Id>): Offer {
    var distance := if c.startMin < wanted then wanted - c.startMin else c.startMin - wanted;
    Offer(c.startMin, c.staff, distance, distance == 0, incumbent == Some(c.staff))
  }

  function Offers(candidates: seq<Candidate>, wanted: int, incumbent: Option<Id>): seq<Offer> {
    seq(|candidates|, i requires 0 <= i < |candidates| => ToOffer(candidates[i], wanted, incumbent))
  }

  function Keep(offers: seq<Offer>, p: Offer -> bool): seq<Offer> {
    if offers == [] then []
    else (if p(offers[0]) then [offers[0]] else []) + Keep(offers[1..], p)
  }

  predicate ByStaff(a: Offer, b: Offer) { a.staff <= b.staff }

  predicate KeepsFirst(a: Offer, b: Offer) {
    if a.keepsProfessional != b.keepsProfessional then a.keepsProfessional else a.startMin <= b.startMin
  }

  predicate ByDistance(a: Offer, b: Offer) {
    if a.distance != b.distance then a.distance < b.distance else KeepsFirst(a, b)
  }

  predicate ByStart(a: Offer, b: Offer) { a.startMin <= b.startMin }

  predicate Near(a: Offer, b: Offer) {
    -OFFER_SPACING_MIN < a.startMin - b.startMin < OFFER_SPACING_MIN
  }

  predicate TooClose(chosen: seq<Offer>, o: Offer) {
    exists i :: 0 <= i < |chosen| && Near(chosen[i], o)
  }

  function Chosen(offers: seq<Offer>): seq<Offer> {
    Pick(Sort(offers, ByDistance), MAX_ALTERNATIVES, TooClose, [])
  }

  function Nearest(offers: seq<Offer>): seq<Offer> {
    Sort(Chosen(offers), ByStart)
  }

  function OwnSlots(offers: seq<Offer>): seq<Offer> {
    Keep(offers, (o: Offer) => o.keepsTime && o.keepsProfessional)
  }

  function OwnTimes(offers: seq<Offer>): seq<Offer> {
    Sort(Keep(offers, (o: Offer) => o.keepsTime), ByStaff)
  }

  function ShiftedBy(offers: seq<Offer>, step: nat): seq<Offer> {
    Sort(Keep(offers, (o: Offer) => o.distance == step), KeepsFirst)
  }

  function Climb(offers: seq<Offer>): Decision {
    if OwnSlots(offers) != [] then Repaired(OwnSlots(offers)[0], SameTimeSameProfessional)
    else if OwnTimes(offers) != [] then Repaired(OwnTimes(offers)[0], SameTimeAnyProfessional)
    else if ShiftedBy(offers, 15) != [] then Repaired(ShiftedBy(offers, 15)[0], SmallShift)
    else if ShiftedBy(offers, 30) != [] then Repaired(ShiftedBy(offers, 30)[0], SmallShift)
    else NeedsHuman(Nearest(offers))
  }

  function Repair(wanted: int, incumbent: Option<Id>, candidates: seq<Candidate>, daysAhead: int): Decision {
    if daysAhead > BOOKING_HORIZON_DAYS then TooFar else Climb(Offers(candidates, wanted, incumbent))
  }

  lemma {:induction false} KeepExact(offers: seq<Offer>, p: Offer -> bool)
    ensures forall o :: o in Keep(offers, p) <==> o in offers && p(o)
  {
    if offers != [] { KeepExact(offers[1..], p); }
  }

  lemma Orders()
    ensures Order(ByStaff) && Order(KeepsFirst) && Order(ByDistance) && Order(ByStart)
  {}

  lemma {:induction false} SortedHead(offers: seq<Offer>, p: Offer -> bool, le: (Offer, Offer) -> bool)
    requires Order(le)
    ensures Sort(Keep(offers, p), le) == [] <==> forall o :: o in offers ==> !p(o)
    ensures Sort(Keep(offers, p), le) != [] ==>
      var head := Sort(Keep(offers, p), le)[0];
      head in offers && p(head) && forall o :: o in offers && p(o) ==> le(head, o)
  {
    KeepExact(offers, p);
    SortMembers(Keep(offers, p), le);
    SortSorts(Keep(offers, p), le);
    var sorted := Sort(Keep(offers, p), le);
    if sorted == [] {
      forall o | o in offers ensures !p(o) { assert o in Keep(offers, p) <==> o in sorted; }
    } else {
      var head := sorted[0];
      assert head in sorted && le(head, head);
      forall o | o in offers && p(o) ensures le(head, o) {
        assert o in sorted;
        var i :| 0 <= i < |sorted| && sorted[i] == o;
      }
    }
  }

  /** `o` is the offer of the lowest rung that holds, and the best of its rung. */
  ghost predicate BestOnLadder(offers: seq<Offer>, o: Offer, rung: Rung) {
    && o in offers
    && match rung
       case SameTimeSameProfessional => o.keepsTime && o.keepsProfessional
       case SameTimeAnyProfessional =>
         && o.keepsTime && (forall x :: x in offers && x.keepsTime ==> !x.keepsProfessional && o.staff <= x.staff)
       case SmallShift =>
         && (o.distance == 15 || o.distance == 30)
         && (forall x :: x in offers ==> !x.keepsTime && (o.distance == 30 ==> x.distance != 15))
         && (forall x :: x in offers && x.distance == o.distance ==> KeepsFirst(o, x))
  }

  /**
   * The ladder moves a standing visit as little as it can: the offer it takes is the best of the first
   * rung that holds, and it asks a human only when nothing at the time, or 15 or 30 minutes from it,
   * is free.
   */
  lemma LadderTakesTheBest(offers: seq<Offer>)
    ensures match Climb(offers)
      case TooFar => false
      case Repaired(o, rung) => BestOnLadder(offers, o, rung)
      case NeedsHuman(alternatives) =>
        && alternatives == Nearest(offers)
        && forall x :: x in offers ==> !x.keepsTime && x.distance != 15 && x.distance != 30
  {
    Orders();
    KeepExact(offers, (o: Offer) => o.keepsTime && o.keepsProfessional);
    if OwnSlots(offers) != [] { assert OwnSlots(offers)[0] in OwnSlots(offers); }
    SortedHead(offers, (o: Offer) => o.keepsTime, ByStaff);
    SortedHead(offers, (o: Offer) => o.distance == 15, KeepsFirst);
    SortedHead(offers, (o: Offer) => o.distance == 30, KeepsFirst);
  }

  /** Alternatives are candidates, at most three, 25 minutes apart, in order; no nearer one was passed over for a farther. */
  lemma NearestAreBest(offers: seq<Offer>, x: Offer)
    requires x in offers
    ensures |Nearest(offers)| <= 3 && Sorted(Nearest(offers), ByStart)
    ensures forall o :: o in Nearest(offers) ==> o in offers
    ensures forall i, j :: 0 <= i < j < |Chosen(offers)| ==>
      Chosen(offers)[i].startMin <= Chosen(offers)[j].startMin - 25
      || Chosen(offers)[j].startMin <= Chosen(offers)[i].startMin - 25
    ensures x in Nearest(offers) || PassedOver(Chosen(offers), x, MAX_ALTERNATIVES, TooClose, ByDistance)
  {
    Orders();
    SortMembers(offers, ByDistance);
    SortSorts(offers, ByDistance);
    PickSound(Sort(offers, ByDistance), MAX_ALTERNATIVES, TooClose, []);
    PickBest(Sort(offers, ByDistance), MAX_ALTERNATIVES, TooClose, [], ByDistance, x);
    var chosen := Chosen(offers);
    SortMembers(chosen, ByStart);
    SortSorts(chosen, ByStart);
    SortKeeps(chosen, ByStart);
    assert |Nearest(offers)| == |multiset(Nearest(offers))| == |multiset(chosen)| == |chosen|;
    forall i, j | 0 <= i < j < |chosen| ensures !Near(chosen[i], chosen[j]) {
      assert !TooClose(chosen[..j], chosen[j]);
      assert chosen[..j][i] == chosen[i];
    }
  }

  // ------------------------------------------------------------------ seating one occurrence

  datatype Read = NoService | Closed | Open(candidates: seq<Candidate>)

  datatype Seated =
    | Booked(slot: Candidate, rung: Rung, attempt: nat, refused: seq<Candidate>)
    | Attention(alternatives: seq<Offer>, lost: seq<Candidate>)
    | Deferred

  function SlotOf(o: Offer): Candidate { Candidate(o.startMin, o.staff) }

  function Usable(candidates: seq<Candidate>, rejected: set<Candidate>): seq<Candidate> {
    if candidates == [] then []
    else (if candidates[0] in rejected then [] else [candidates[0]]) + Usable(candidates[1..], rejected)
  }

  function Rejected(refused: seq<Candidate>): set<Candidate> {
    set i | 0 <= i < |refused| :: refused[i]
  }

  /** Whether the write of an attempt goes through; anything may happen to the diary between attempts. */
  type Writes = (nat, Candidate) -> bool

  function SeatFrom(
      wanted: int, incumbent: Option<Id>, candidates: seq<Candidate>, daysAhead: int, writes: Writes,
      attempt: nat, refused: seq<Candidate>): Seated
    decreases if attempt < MAX_WRITE_ATTEMPTS then MAX_WRITE_ATTEMPTS - attempt else 0
  {
    var usable := Usable(candidates, Rejected(refused));
    if attempt >= MAX_WRITE_ATTEMPTS then Attention(Nearest(Offers(usable, wanted, incumbent)), refused)
    else
      match Repair(wanted, incumbent, usable, daysAhead)
      case TooFar => Deferred
      case NeedsHuman(alternatives) => Attention(alternatives, refused)
      case Repaired(offer, rung) =>
        if writes(attempt, SlotOf(offer)) then Booked(SlotOf(offer), rung, attempt, refused)
        else SeatFrom(wanted, incumbent, candidates, daysAhead, writes, attempt + 1, refused + [SlotOf(offer)])
  }

  function Seat(occ: Occurrence, today: int, incumbent: Option<Id>, read: Read, writes: Writes): Seated {
    if occ.day - today > BOOKING_HORIZON_DAYS then Deferred
    else
      match read
      case NoService => Attention([], [])
      case Closed => Attention([], [])
      case Open(candidates) => SeatFrom(occ.startMin, incumbent, candidates, occ.day - today, writes, 0, [])
  }

  method SeatOne(occ: Occurrence, today: int, incumbent: Option<Id>, read: Read, writes: Writes) returns (seated: Seated)
    ensures seated == Seat(occ, today, incumbent, read, writes)
  {
    if occ.day - today > BOOKING_HORIZON_DAYS { return Deferred; }
    if !read.Open? { return Attention([], []); }
    seated := SeatLoop(occ.startMin, incumbent, read.candidates, occ.day - today, writes);
  }

  /** One attempt: an answer, or the slot somebody else took first. */
  method TryOnce(
      wanted: int, incumbent: Option<Id>, candidates: seq<Candidate>, rejected: set<Candidate>, daysAhead: int,
      writes: Writes, attempt: nat, refused: seq<Candidate>) returns (done: Option<Seated>, lost: Candidate)
    requires attempt < MAX_WRITE_ATTEMPTS && rejected == Rejected(refused)
    ensures SeatFrom(wanted, incumbent, candidates, daysAhead, writes, attempt, refused) ==
      if done.Some? then done.value
      else SeatFrom(wanted, incumbent, candidates, daysAhead, writes, attempt + 1, refused + [lost])
  {
    lost := Candidate(0, 0);
    match Repair(wanted, incumbent, Usable(candidates, rejected), daysAhead) {
      case TooFar => done := Some(Deferred);
      case NeedsHuman(alternatives) => done := Some(Attention(alternatives, refused));
      case Repaired(offer, rung) =>
        lost := SlotOf(offer);
        done := if writes(attempt, lost) then Some(Booked(lost, rung, attempt, refused)) else None;
    }
  }

  /** The bounded loop over attempts, with the set of rejected slots. */
  method SeatLoop(wanted: int, incumbent: Option<Id>, candidates: seq<Candidate>, daysAhead: int, writes: Writes)
    returns (seated: Seated)
    ensures seated == SeatFrom(wanted, incumbent, candidates, daysAhead, writes, 0, [])
  {
    var rejected: set<Candidate> := {};
    var refused: seq<Candidate> := [];
    var attempt := 0;
    while attempt < MAX_WRITE_ATTEMPTS
      invariant 0 <= attempt <= MAX_WRITE_ATTEMPTS && rejected == Rejected(refused)
      invariant SeatFrom(wanted, incumbent, candidates, daysAhead, writes, attempt, refused)
             == SeatFrom(wanted, incumbent, candidates, daysAhead, writes, 0, [])
    {
      var done, lost := TryOnce(wanted, incumbent, candidates, rejected, daysAhead, writes, attempt, refused);
      if done.Some? { return done.value; }
      RejectedMore(refused, lost);
      rejected, refused, attempt := rejected + {lost}, refused + [lost], attempt + 1;
    }
    seated := Attention(Nearest(Offers(Usable(candidates, rejected), wanted, incumbent)), refused);
  }

  lemma RejectedMore(refused: seq<Candidate>, c: Candidate)
    ensures Rejected(refused + [c]) == Rejected(refused) + {c}
  {
    RejectedExact(refused);
    RejectedExact(refused + [c]);
  }

  lemma RejectedExact(refused: seq<Candidate>)
    ensures forall c :: c in Rejected(refused) <==> c in refused
  {
    forall c | c in refused ensures c in Rejected(refused) {
      var i :| 0 <= i < |refused| && refused[i] == c;
    }
  }

  lemma {:induction false} UsableExact(candidates: seq<Candidate>, rejected: set<Candidate>)
    ensures forall c :: c in Usable(candidates, rejected) <==> c in candidates && c !in rejected
  {
    if candidates != [] { UsableExact(candidates[1..], rejected); }
  }

  lemma {:induction false} UsableShrinks(candidates: seq<Candidate>, rejected: set<Candidate>, c: Candidate)
    ensures |Usable(candidates, rejected + {c})| <= |Usable(candidates, rejected)|
    ensures c in candidates && c !in rejected ==> |Usable(candidates, rejected + {c})| < |Usable(candidates, rejected)|
  {
    if candidates != [] { UsableShrinks(candidates[1..], rejected, c); }
  }

  /** Whatever the ladder takes, or lists, is one of the candidates it was given. */
  lemma LadderStaysInside(wanted: int, incumbent: Option<Id>, candidates: seq<Candidate>, daysAhead: int)
    ensures match Repair(wanted, incumbent, candidates, daysAhead)
      case TooFar => daysAhead > BOOKING_HORIZON_DAYS
      case Repaired(o, _) => SlotOf(o) in candidates
      case NeedsHuman(alternatives) => forall o :: o in alternatives ==> SlotOf(o) in candidates
  {
    var offers := Offers(candidates, wanted, incumbent);
    LadderTakesTheBest(offers);
    NearestInside(candidates, wanted, incumbent);
    OffersInside(candidates, wanted, incumbent);
  }

  lemma OffersInside(candidates: seq<Candidate>, wanted: int, incumbent: Option<Id>)
    ensures forall o :: o in Offers(candidates, wanted, incumbent) ==> SlotOf(o) in candidates
  {
    forall o | o in Offers(candidates, wanted, incumbent) ensures SlotOf(o) in candidates {
      var i :| 0 <= i < |candidates| && Offers(candidates, wanted, incumbent)[i] == o;
      assert SlotOf(o) == candidates[i];
    }
  }

  lemma NearestInside(candidates: seq<Candidate>, wanted: int, incumbent: Option<Id>)
    ensures forall o :: o in Nearest(Offers(candidates, wanted, incumbent)) ==> SlotOf(o) in candidates
  {
    var offers := Offers(candidates, wanted, incumbent);
    OffersInside(candidates, wanted, incumbent);
    forall o | o in Nearest(offers) ensures SlotOf(o) in candidates {
      SortMembers(offers, ByDistance);
      PickSound(Sort(offers, ByDistance), MAX_ALTERNATIVES, TooClose, []);
      SortMembers(Chosen(offers), ByStart);
    }
  }

  /** The refusals of one seating: candidates, all different, never booked and never offered again. */
  ghost predicate Converged(candidates: seq<Candidate>, seated: Seated) {
    match seated
    case Deferred => true
    case Booked(slot, _, attempt, refused) =>
      && attempt < MAX_WRITE_ATTEMPTS && |refused| == attempt && Distinct(refused)
      && (forall c :: c in refused ==> c in candidates) && slot in candidates && slot !in refused
    case Attention(alternatives, lost) =>
      && |lost| <= MAX_WRITE_ATTEMPTS && Distinct(lost) && (forall c :: c in lost ==> c in candidates)
      && (forall o :: o in alternatives ==> SlotOf(o) in candidates && SlotOf(o) !in lost)
  }

  lemma {:induction false} SeatConverges(
      wanted: int, incumbent: Option<Id>, candidates: seq<Candidate>, daysAhead: int, writes: Writes,
      attempt: nat, refused: seq<Candidate>)
    requires |refused| == attempt <= MAX_WRITE_ATTEMPTS && Distinct(refused)
    requires forall c :: c in refused ==> c in candidates
    ensures Converged(candidates, SeatFrom(wanted, incumbent, candidates, daysAhead, writes, attempt, refused))
    decreases MAX_WRITE_ATTEMPTS - attempt
  {
    var usable := Usable(candidates, Rejected(refused));
    UsableExact(candidates, Rejected(refused));
    RejectedExact(refused);
    LadderStaysInside(wanted, incumbent, usable, daysAhead);
    NearestInside(usable, wanted, incumbent);
    if attempt < MAX_WRITE_ATTEMPTS {
      var d := Repair(wanted, incumbent, usable, daysAhead);
      if d.Repaired? && !writes(attempt, SlotOf(d.offer)) {
        SeatConverges(wanted, incumbent, candidates, daysAhead, writes, attempt + 1, refused + [SlotOf(d.offer)]);
      }
    }
  }

  /** Each lost race leaves strictly fewer slots to try. */
  lemma LostRaceShrinks(wanted: int, incumbent: Option<Id>, candidates: seq<Candidate>, daysAhead: int, refused: seq<Candidate>)
    requires Repair(wanted, incumbent, Usable(candidates, Rejected(refused)), daysAhead).Repaired?
    ensures var slot := SlotOf(Repair(wanted, incumbent, Usable(candidates, Rejected(refused)), daysAhead).offer);
      && slot !in Rejected(refused)
      && |Usable(candidates, Rejected(refused + [slot]))| < |Usable(candidates, Rejected(refused))|
  {
    var usable := Usable(candidates, Rejected(refused));
    var slot := SlotOf(Repair(wanted, incumbent, usable, daysAhead).offer);
    LadderStaysInside(wanted, incumbent, usable, daysAhead);
    UsableExact(candidates, Rejected(refused));
    UsableShrinks(candidates, Rejected(refused), slot);
    RejectedMore(refused, slot);
  }
}
