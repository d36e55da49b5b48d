/**
 * A whole run of the materialiser over a series, on the diary, and the preview that answers the same
 * question without writing. Both read a day through the same engine, which sees what is taken on it;
 * a visit written on one day changes no other day's reading.
 */
module SeriesRun {
  import opened Basics
  import opened Diary
  import opened DiaryProofs
  import opened DiaryDays
  import opened Materialiser
  import opened SeriesDiary
  import opened LadderMeaning
  import MobileCreate

  type Rows = map<Id, Reservation>

  /** The engine's answer for a day as it reads, and whether anything else gets in the way of a write. */
  datatype World = World(series: Standing, read: (int, map<Id, Busy>) -> Read, luck: (Id, nat, Candidate) -> bool)

  function ReadOn(w: World, rows: Rows, day: int): Read {
    w.read(day, DayView(rows, day))
  }

  datatype Counts = Counts(materialised: nat, repaired: nat, needsAttention: nat, deferred: nat, raced: nat)

  const NONE := Counts(0, 0, 0, 0, 0)

  /** A write goes through unless the professional is taken by then. */
  function WritesOn(w: World, rows: Rows, occ: Occurrence): Writes {
    (n: nat, c: Candidate) => w.luck(occ.id, n, c) && !Taken(rows, w.series, occ.day, c)
  }

  function SeatOn(w: World, rows: Rows, occ: Occurrence, today: int, incumbent: Option<Id>): Seated {
    Seat(occ, today, incumbent, ReadOn(w, rows, occ.day), WritesOn(w, rows, occ))
  }

  function After(w: World, d: Diary, occ: Occurrence, seated: Seated): Diary {
    if seated.Booked? then SeatWrite(d, w.series, occ.day, seated.slot) else d
  }

  /** `materialised` counts every occurrence that was booked, `repaired` those that moved. */
  function Count(c: Counts, seated: Seated): Counts {
    match seated
    case Booked(_, SameTimeSameProfessional, _, _) => c.(materialised := c.materialised + 1)
    case Booked(_, _, _, _) => c.(materialised := c.materialised + 1, repaired := c.repaired + 1)
    case Attention(_, _) => c.(needsAttention := c.needsAttention + 1)
    case Deferred => c.(deferred := c.deferred + 1)
  }

  /** What became of each occurrence so far, and which were booked. */
  datatype Report = Report(counts: Counts, diary: Diary, seats: seq<Seated>, booked: seq<Id>)

  function Advance(w: World, r: Report, occ: Occurrence, seated: Seated): Report {
    Report(Count(r.counts, seated), After(w, r.diary, occ, seated), r.seats + [seated],
           if seated.Booked? then r.booked + [occ.id] else r.booked)
  }

  function RunFrom(w: World, r: Report, planned: seq<Occurrence>, today: int, incumbent: Option<Id>): Report
    decreases |planned|
  {
    if planned == [] then r
    else
      RunFrom(w, Advance(w, r, planned[0], SeatOn(w, r.diary.rows, planned[0], today, incumbent)), planned[1..],
              today, incumbent)
  }

  function Run(w: World, d: Diary, planned: seq<Occurrence>, today: int, incumbent: Option<Id>): Report {
    RunFrom(w, Report(NONE, d, [], []), planned, today, incumbent)
  }

  method SeatDay(w: World, d: Diary, occ: Occurrence, today: int, incumbent: Option<Id>) returns (seated: Seated)
    ensures seated == SeatOn(w, d.rows, occ, today, incumbent)
  {
    seated := SeatOne(occ, today, incumbent, ReadOn(w, d.rows, occ.day), WritesOn(w, d.rows, occ));
  }

  lemma RunOneMore(w: World, r: Report, planned: seq<Occurrence>, i: nat, today: int, incumbent: Option<Id>)
    requires i < |planned|
    ensures RunFrom(w, r, planned[i..], today, incumbent)
         == RunFrom(w, Advance(w, r, planned[i], SeatOn(w, r.diary.rows, planned[i], today, incumbent)),
                    planned[i + 1..], today, incumbent)
  {
    assert planned[i..][1..] == planned[i + 1..];
  }

  method CountOne(c: Counts, seated: Seated) returns (counts: Counts)
    ensures counts == Count(c, seated)
  {
    counts := c;
    match seated {
      case Booked(_, rung, _, _) =>
        counts := counts.(materialised := counts.materialised + 1);
        if !rung.SameTimeSameProfessional? { counts := counts.(repaired := counts.repaired + 1); }
      case Attention(_, _) => counts := counts.(needsAttention := counts.needsAttention + 1);
      case Deferred => counts := counts.(deferred := counts.deferred + 1);
    }
  }

  /** The loop of the nightly run. */
  method RunSeries(w: World, start: Diary, planned: seq<Occurrence>, today: int, incumbent: Option<Id>)
    returns (report: Report)
    ensures report == Run(w, start, planned, today, incumbent)
  {
    report := Report(NONE, start, [], []);
    assert planned[0..] == planned;
    for i := 0 to |planned|
      invariant RunFrom(w, report, planned[i..], today, incumbent) == Run(w, start, planned, today, incumbent)
    {
      var seated := SeatDay(w, report.diary, planned[i], today, incumbent);
      RunOneMore(w, report, planned, i, today, incumbent);
      report := AdvanceOne(w, report, planned[i], seated);
    }
    assert planned[|planned|..] == [];
  }

  method AdvanceOne(w: World, r: Report, occ: Occurrence, seated: Seated) returns (report: Report)
    ensures report == Advance(w, r, occ, seated)
  {
    var counts := CountOne(r.counts, seated);
    report := r.(counts := counts, seats := r.seats + [seated]);
    if seated.Booked? {
      report := report.(diary := SeatWrite(r.diary, w.series, occ.day, seated.slot), booked := r.booked + [occ.id]);
    }
  }

  // ------------------------------------------------------------------ what every run adds up to

  /** Every occurrence is counted once, whatever the diary does; nothing is ever left as raced. */
  lemma {:induction false} RunAddsUp(w: World, r: Report, planned: seq<Occurrence>, today: int, incumbent: Option<Id>)
    requires r.counts.repaired <= r.counts.materialised
    ensures var c := RunFrom(w, r, planned, today, incumbent).counts;
      && c.materialised + c.needsAttention + c.deferred + c.raced
         == r.counts.materialised + r.counts.needsAttention + r.counts.deferred + r.counts.raced + |planned|
      && c.repaired <= c.materialised && c.raced == r.counts.raced
    decreases |planned|
  {
    if planned != [] {
      var seated := SeatOn(w, r.diary.rows, planned[0], today, incumbent);
      RunAddsUp(w, Advance(w, r, planned[0], seated), planned[1..], today, incumbent);
    }
  }

  predicate WasBooked(s: Seated) { s.Booked? }

  predicate WasMoved(s: Seated) { s.Booked? && !s.rung.SameTimeSameProfessional? }

  predicate NeedsSomebody(s: Seated) { s.Attention? }

  predicate WasDeferred(s: Seated) { s.Deferred? }

  /** What each number of the report stands for. */
  ghost predicate Counted(c: Counts, seats: seq<Seated>) {
    && c.materialised == HowMany(seats, WasBooked) && c.repaired == HowMany(seats, WasMoved)
    && c.needsAttention == HowMany(seats, NeedsSomebody) && c.deferred == HowMany(seats, WasDeferred) && c.raced == 0
  }

  lemma CountedMore(c: Counts, seats: seq<Seated>, seated: Seated)
    requires Counted(c, seats)
    ensures Counted(Count(c, seated), seats + [seated])
  {
    HowManyMore(seats, seated, WasBooked);
    HowManyMore(seats, seated, WasMoved);
    HowManyMore(seats, seated, NeedsSomebody);
    HowManyMore(seats, seated, WasDeferred);
  }

  /** However the diary changes meanwhile, the report counts what became of each occurrence. */
  lemma {:induction false} RunCountsSeats(w: World, r: Report, planned: seq<Occurrence>, today: int, incumbent: Option<Id>)
    requires Counted(r.counts, r.seats)
    ensures var e := RunFrom(w, r, planned, today, incumbent);
      Counted(e.counts, e.seats) && |e.seats| == |r.seats| + |planned|
    decreases |planned|
  {
    if planned != [] {
      var seated := SeatOn(w, r.diary.rows, planned[0], today, incumbent);
      CountedMore(r.counts, r.seats, seated);
      RunCountsSeats(w, Advance(w, r, planned[0], seated), planned[1..], today, incumbent);
    }
  }

  /**
   * An occurrence is deferred when it is too far, handed to a human when there is nothing to read, and
   * else ends as the ladder says.
   */
  lemma SeatedRightly(w: World, rows: Rows, occ: Occurrence, today: int, incumbent: Option<Id>)
    ensures var s := SeatOn(w, rows, occ, today, incumbent); var read := ReadOn(w, rows, occ.day);
      && (s.Deferred? <==> occ.day - today > 90)
      && (occ.day - today <= 90 && !read.Open? ==> s == Attention([], []))
      && (occ.day - today <= 90 && read.Open? ==>
            EndsRightly(occ.startMin, incumbent, read.candidates, occ.day - today, WritesOn(w, rows, occ), s))
  {
    SeatRightly(occ, today, incumbent, ReadOn(w, rows, occ.day), WritesOn(w, rows, occ));
  }

  lemma SeatRightly(occ: Occurrence, today: int, incumbent: Option<Id>, read: Read, writes: Writes)
    ensures var s := Seat(occ, today, incumbent, read, writes);
      && (s.Deferred? <==> occ.day - today > 90)
      && (occ.day - today <= 90 && !read.Open? ==> s == Attention([], []))
      && (occ.day - today <= 90 && read.Open? ==>
            EndsRightly(occ.startMin, incumbent, read.candidates, occ.day - today, writes, s))
  {
    if occ.day - today <= 90 && read.Open? {
      SeatClimbs(occ, today, incumbent, read, writes);
    }
  }

  lemma SeatClimbs(occ: Occurrence, today: int, incumbent: Option<Id>, read: Read, writes: Writes)
    requires occ.day - today <= 90 && read.Open?
    ensures var s := Seat(occ, today, incumbent, read, writes);
      !s.Deferred? && EndsRightly(occ.startMin, incumbent, read.candidates, occ.day - today, writes, s)
  {
    SeatEndsRightly(occ.startMin, incumbent, read.candidates, occ.day - today, writes, 0, []);
  }

  predicate DistinctIds(planned: seq<Occurrence>) {
    forall i, j :: 0 <= i < j < |planned| ==> planned[i].id != planned[j].id
  }

  /** At most one booking is written for an occurrence, and as many in all as the count says. */
  lemma {:induction false} OneBookingEach(w: World, r: Report, planned: seq<Occurrence>, today: int, incumbent: Option<Id>)
    requires DistinctIds(planned) && (forall i, j :: 0 <= i < j < |r.booked| ==> r.booked[i] != r.booked[j])
    requires forall i, j :: 0 <= i < |r.booked| && 0 <= j < |planned| ==> r.booked[i] != planned[j].id
    requires |r.booked| == r.counts.materialised
    ensures var e := RunFrom(w, r, planned, today, incumbent);
      |e.booked| == e.counts.materialised && forall i, j :: 0 <= i < j < |e.booked| ==> e.booked[i] != e.booked[j]
    decreases |planned|
  {
    if planned != [] {
      var seated := SeatOn(w, r.diary.rows, planned[0], today, incumbent);
      var rest := planned[1..];
      assert forall j :: 0 <= j < |rest| ==> rest[j] == planned[j + 1];
      OneBookingEach(w, Advance(w, r, planned[0], seated), rest, today, incumbent);
    }
  }

  ghost predicate Wrote(s: Seated, writes: Writes) {
    s.Booked? ==> writes(s.attempt, s.slot)
  }

  /** What is booked was written: the write went through, so the professional was free. */
  lemma {:induction false} BookedWasWritten(
      wanted: int, incumbent: Option<Id>, candidates: seq<Candidate>, daysAhead: int, writes: Writes,
      attempt: nat, refused: seq<Candidate>)
    ensures Wrote(SeatFrom(wanted, incumbent, candidates, daysAhead, writes, attempt, refused), writes)
    decreases if attempt < MAX_WRITE_ATTEMPTS then MAX_WRITE_ATTEMPTS - attempt else 0
  {
    var s := SeatFrom(wanted, incumbent, candidates, daysAhead, writes, attempt, refused);
    if attempt < MAX_WRITE_ATTEMPTS {
      match Repair(wanted, incumbent, Usable(candidates, Rejected(refused)), daysAhead)
      case TooFar => assert s.Deferred?;
      case NeedsHuman(_) => assert s.Attention?;
      case Repaired(offer, rung) =>
        BookedWasWritten(wanted, incumbent, candidates, daysAhead, writes, attempt + 1, refused + [SlotOf(offer)]);
        assert s == if writes(attempt, SlotOf(offer)) then Seated.Booked(SlotOf(offer), rung, attempt, refused)
                    else SeatFrom(wanted, incumbent, candidates, daysAhead, writes, attempt + 1, refused + [SlotOf(offer)]);
    }
  }

  lemma SeatedSound(w: World, d: Diary, occ: Occurrence, today: int, incumbent: Option<Id>)
    requires Sound(d) && Sellable(w.series)
    ensures var seated := SeatOn(w, d.rows, occ, today, incumbent);
      Sound(After(w, d, occ, seated)) && |After(w, d, occ, seated).bookings| == |d.bookings| + (if seated.Booked? then 1 else 0)
  {
    var read, seated := ReadOn(w, d.rows, occ.day), SeatOn(w, d.rows, occ, today, incumbent);
    if seated.Booked? {
      BookedWasWritten(occ.startMin, incumbent, read.candidates, occ.day - today, WritesOn(w, d.rows, occ), 0, []);
      SeatSound(d, w.series, occ.day, seated.slot);
    }
  }

  /** However the writes go, a run keeps the diary sound and writes as many bookings as it counts. */
  lemma {:induction false} RunSound(w: World, r: Report, planned: seq<Occurrence>, today: int, incumbent: Option<Id>)
    requires Sound(r.diary) && Sellable(w.series)
    ensures var e := RunFrom(w, r, planned, today, incumbent);
      Sound(e.diary) && |e.diary.bookings| == |r.diary.bookings| + e.counts.materialised - r.counts.materialised
    decreases |planned|
  {
    if planned != [] {
      SeatedSound(w, r.diary, planned[0], today, incumbent);
      RunSound(w, Advance(w, r, planned[0], SeatOn(w, r.diary.rows, planned[0], today, incumbent)), planned[1..],
               today, incumbent);
    }
  }

  // ------------------------------------------------------------------ the preview

  datatype Verdict = Exact(slot: Candidate) | Repairable(slot: Candidate) | Stuck(alternatives: seq<Offer>) | Far | Shut

  /** Exact means the same minute, whoever it is with. */
  function VerdictOf(d: Decision, wanted: int): Verdict {
    match d
    case TooFar => Far
    case NeedsHuman(alternatives) => Stuck(alternatives)
    case Repaired(offer, _) => if offer.startMin == wanted then Exact(SlotOf(offer)) else Repairable(SlotOf(offer))
  }

  /** What the preview says of one occurrence. */
  function Preview(occ: Occurrence, today: int, incumbent: Option<Id>, read: Read): Verdict {
    if occ.day - today > BOOKING_HORIZON_DAYS then Far
    else
      match read
      case NoService => Stuck([])
      case Closed => Shut
      case Open(candidates) => VerdictOf(Repair(occ.startMin, incumbent, candidates, occ.day - today), occ.startMin)
  }

  predicate Feasible(v: Verdict) { v.Exact? || v.Repairable? }

  datatype Tally = Tally(exact: nat, repairable: nat, needsAttention: nat, deferred: nat, closed: nat)

  function Add(t: Tally, v: Verdict): Tally {
    match v
    case Exact(_) => t.(exact := t.exact + 1)
    case Repairable(_) => t.(repairable := t.repairable + 1)
    case Stuck(_) => t.(needsAttention := t.needsAttention + 1)
    case Far => t.(deferred := t.deferred + 1)
    case Shut => t.(closed := t.closed + 1)
  }

  function PreviewOn(w: World, rows: Rows, occ: Occurrence, today: int, incumbent: Option<Id>): Verdict {
    Preview(occ, today, incumbent, ReadOn(w, rows, occ.day))
  }

  function TallyFrom(w: World, rows: Rows, occs: seq<Occurrence>, today: int, incumbent: Option<Id>, t: Tally): Tally
    decreases |occs|
  {
    if occs == [] then t
    else TallyFrom(w, rows, occs[1..], today, incumbent, Add(t, PreviewOn(w, rows, occs[0], today, incumbent)))
  }

  function Sum(t: Tally): nat {
    t.exact + t.repairable + t.needsAttention + t.deferred + t.closed
  }

  /** The verdicts so far are the preview's own, one occurrence after another. */
  ghost predicate AsPreviewed(
      w: World, rows: Rows, occs: seq<Occurrence>, today: int, incumbent: Option<Id>, verdicts: seq<Verdict>)
  {
    && |verdicts| <= |occs|
    && forall k :: 0 <= k < |verdicts| ==> verdicts[k] == PreviewOn(w, rows, occs[k], today, incumbent)
  }

  /** And the counts so far, with what is still to come, are the counts of them all. */
  ghost predicate AsCounted(
      w: World, rows: Rows, occs: seq<Occurrence>, i: nat, today: int, incumbent: Option<Id>, counts: Tally)
    requires i <= |occs|
  {
    && Sum(counts) == i
    && TallyFrom(w, rows, occs[i..], today, incumbent, counts)
       == TallyFrom(w, rows, occs, today, incumbent, Tally(0, 0, 0, 0, 0))
  }

  lemma OneMorePreviewed(
      w: World, rows: Rows, occs: seq<Occurrence>, today: int, incumbent: Option<Id>, verdicts: seq<Verdict>,
      counts: Tally, v: Verdict)
    requires |verdicts| < |occs| && v == PreviewOn(w, rows, occs[|verdicts|], today, incumbent)
    requires AsPreviewed(w, rows, occs, today, incumbent, verdicts)
    requires AsCounted(w, rows, occs, |verdicts|, today, incumbent, counts)
    ensures AsPreviewed(w, rows, occs, today, incumbent, verdicts + [v])
    ensures AsCounted(w, rows, occs, |verdicts| + 1, today, incumbent, Add(counts, v))
  {
    var i := |verdicts|;
    assert occs[i..][1..] == occs[i + 1..];
    assert TallyFrom(w, rows, occs[i..], today, incumbent, counts)
      == TallyFrom(w, rows, occs[i + 1..], today, incumbent, Add(counts, v));
    assert Sum(Add(counts, v)) == Sum(counts) + 1;
  }

  method PreviewSeries(w: World, rows: Rows, occs: seq<Occurrence>, today: int, incumbent: Option<Id>)
    returns (verdicts: seq<Verdict>, counts: Tally)
    ensures |verdicts| == |occs| && AsPreviewed(w, rows, occs, today, incumbent, verdicts)
    ensures counts == TallyFrom(w, rows, occs, today, incumbent, Tally(0, 0, 0, 0, 0)) && Sum(counts) == |occs|
  {
    verdicts, counts := [], Tally(0, 0, 0, 0, 0);
    assert occs[0..] == occs;
    for i := 0 to |occs|
      invariant |verdicts| == i && AsPreviewed(w, rows, occs, today, incumbent, verdicts)
      invariant AsCounted(w, rows, occs, i, today, incumbent, counts)
    {
      var v := PreviewOn(w, rows, occs[i], today, incumbent);
      OneMorePreviewed(w, rows, occs, today, incumbent, verdicts, counts, v);
      verdicts, counts := verdicts + [v], Add(counts, v);
    }
    assert occs[|occs|..] == [];
  }

  /** What a verdict says of the candidates it was given on. */
  ghost predicate SaysRightly(v: Verdict, occ: Occurrence, today: int, incumbent: Option<Id>, read: Read) {
    var near := occ.day - today <= 90;
    && (v.Far? <==> !near) && (v.Shut? <==> near && read.Closed?)
    && (v.Exact? <==> near && read.Open? && AtOff(read.candidates, occ.startMin, 0))
    && (v.Repairable? <==>
          && near && read.Open? && !AtOff(read.candidates, occ.startMin, 0)
          && (AtOff(read.candidates, occ.startMin, 15) || AtOff(read.candidates, occ.startMin, 30)))
    && (v.Exact? ==> v.slot.startMin == occ.startMin)
    && (Feasible(v) ==> exists rung :: Deserves(read.candidates, occ.startMin, incumbent, v.slot, rung))
    && (v.Stuck? && read.Open? ==> v.alternatives == Nearest(Offers(read.candidates, occ.startMin, incumbent)))
    && (v.Stuck? && !read.Open? ==> v.alternatives == [])
  }

  /**
   * The preview calls an occurrence exact when its own minute is free with anybody, repairable when the
   * nearest free start is a small shift away, stuck when there is neither, and names the slot the ladder
   * would take.
   */
  lemma PreviewSaysRightly(occ: Occurrence, today: int, incumbent: Option<Id>, read: Read)
    ensures SaysRightly(Preview(occ, today, incumbent, read), occ, today, incumbent, read)
  {
    if occ.day - today <= 90 && read.Open? {
      var wanted, candidates := occ.startMin, read.candidates;
      LadderFromCandidates(wanted, incumbent, candidates, occ.day - today);
      var d := Repair(wanted, incumbent, candidates, occ.day - today);
      if d.Repaired? { assert Deserves(candidates, wanted, incumbent, SlotOf(d.offer), d.rung); }
      if d.NeedsHuman? { LadderTakesTheBest(Offers(candidates, wanted, incumbent)); }
    }
  }

  predicate SaidExact(v: Verdict) { v.Exact? }

  predicate SaidRepairable(v: Verdict) { v.Repairable? }

  predicate SaidStuck(v: Verdict) { v.Stuck? }

  predicate SaidFar(v: Verdict) { v.Far? }

  predicate SaidShut(v: Verdict) { v.Shut? }

  /** What each number of a preview stands for. */
  ghost predicate Tallied(t: Tally, verdicts: seq<Verdict>) {
    && t.exact == HowMany(verdicts, SaidExact) && t.repairable == HowMany(verdicts, SaidRepairable)
    && t.needsAttention == HowMany(verdicts, SaidStuck)
    && t.deferred == HowMany(verdicts, SaidFar) && t.closed == HowMany(verdicts, SaidShut)
  }

  lemma TalliedMore(t: Tally, verdicts: seq<Verdict>, v: Verdict)
    requires Tallied(t, verdicts)
    ensures Tallied(Add(t, v), verdicts + [v])
  {
    HowManyMore(verdicts, v, SaidExact);
    HowManyMore(verdicts, v, SaidRepairable);
    HowManyMore(verdicts, v, SaidStuck);
    HowManyMore(verdicts, v, SaidFar);
    HowManyMore(verdicts, v, SaidShut);
  }

  lemma {:induction false} TalliedOn(
      w: World, rows: Rows, occs: seq<Occurrence>, today: int, incumbent: Option<Id>, t: Tally, done: seq<Verdict>,
      verdicts: seq<Verdict>)
    requires |verdicts| == |occs| && AsPreviewed(w, rows, occs, today, incumbent, verdicts) && Tallied(t, done)
    ensures Tallied(TallyFrom(w, rows, occs, today, incumbent, t), done + verdicts)
    decreases |occs|
  {
    if occs == [] {
      assert done + verdicts == done;
    } else {
      var v, rest := verdicts[0], verdicts[1..];
      TalliedMore(t, done, v);
      assert AsPreviewed(w, rows, occs[1..], today, incumbent, rest);
      TalliedOn(w, rows, occs[1..], today, incumbent, Add(t, v), done + [v], rest);
      assert done + [v] + rest == done + verdicts;
    }
  }

  /** The numbers of a preview are how many of its verdicts are of each kind. */
  lemma PreviewIsTallied(
      w: World, rows: Rows, occs: seq<Occurrence>, today: int, incumbent: Option<Id>, verdicts: seq<Verdict>)
    requires |verdicts| == |occs| && AsPreviewed(w, rows, occs, today, incumbent, verdicts)
    ensures Tallied(TallyFrom(w, rows, occs, today, incumbent, Tally(0, 0, 0, 0, 0)), verdicts)
  {
    TalliedOn(w, rows, occs, today, incumbent, Tally(0, 0, 0, 0, 0), [], verdicts);
    assert [] + verdicts == verdicts;
  }

  /** What seating answers, seen from what the preview said. */
  ghost predicate KeepsWord(v: Verdict, seated: Seated, writes: Writes) {
    && (Feasible(v) && writes(0, v.slot) <==> seated.Booked? && seated.attempt == 0)
    && (Feasible(v) && writes(0, v.slot) ==> seated.slot == v.slot)
    && (v.Far? <==> seated == Deferred)
    && (v.Stuck? ==> seated == Attention(v.alternatives, []))
    && (v.Shut? ==> seated == Attention([], []))
    && (seated.Booked? && seated.attempt == 0 && seated.rung.SameTimeSameProfessional? ==> v.Exact?)
  }

  /**
   * One occurrence, one diary: the preview calls it feasible, at a start and with a professional,
   * exactly when that slot is what seating it would try first; so it is booked there on the first
   * attempt if and only if the write takes it. The other verdicts are what seating answers too.
   */
  lemma PreviewIsTheFirstAttempt(occ: Occurrence, today: int, incumbent: Option<Id>, read: Read, writes: Writes)
    ensures KeepsWord(Preview(occ, today, incumbent, read), Seat(occ, today, incumbent, read, writes), writes)
  {
    if read.Open? && occ.day - today <= BOOKING_HORIZON_DAYS {
      var daysAhead := occ.day - today;
      FirstTry(occ.startMin, incumbent, read.candidates, daysAhead, writes);
      FirstTryKeepsWord(Repair(occ.startMin, incumbent, read.candidates, daysAhead),
                        SeatFrom(occ.startMin, incumbent, read.candidates, daysAhead, writes, 0, []), occ.startMin, writes);
    }
  }

  ghost predicate FirstTryOf(d: Decision, s: Seated, wanted: int, writes: Writes) {
    match d
    case TooFar => false
    case NeedsHuman(alternatives) => s == Attention(alternatives, [])
    case Repaired(offer, rung) =>
      && (rung.SameTimeSameProfessional? ==> offer.startMin == wanted)
      && if writes(0, SlotOf(offer)) then s == Seated.Booked(SlotOf(offer), rung, 0, [])
         else !s.Deferred? && (s.Booked? ==> s.attempt > 0)
  }

  lemma FirstTryKeepsWord(d: Decision, s: Seated, wanted: int, writes: Writes)
    requires FirstTryOf(d, s, wanted, writes)
    ensures KeepsWord(VerdictOf(d, wanted), s, writes)
  {}

  /** The first attempt, on all the candidates; a lost one is never made up for by a deferral. */
  lemma FirstTry(wanted: int, incumbent: Option<Id>, candidates: seq<Candidate>, daysAhead: int, writes: Writes)
    requires daysAhead <= BOOKING_HORIZON_DAYS
    ensures FirstTryOf(Repair(wanted, incumbent, candidates, daysAhead),
                       SeatFrom(wanted, incumbent, candidates, daysAhead, writes, 0, []), wanted, writes)
  {
    assert Rejected([]) == {};
    UsableAll(candidates);
    LadderTakesTheBest(Offers(candidates, wanted, incumbent));
    OffersKeepTime(candidates, wanted, incumbent);
    var d := Repair(wanted, incumbent, candidates, daysAhead);
    if d.Repaired? {
      assert [] + [SlotOf(d.offer)] == [SlotOf(d.offer)];
      LaterAttempts(wanted, incumbent, candidates, daysAhead, writes, 1, [SlotOf(d.offer)]);
    }
  }

  lemma {:induction false} UsableAll(candidates: seq<Candidate>)
    ensures Usable(candidates, {}) == candidates
  {
    if candidates != [] { UsableAll(candidates[1..]); }
  }

  lemma OffersKeepTime(candidates: seq<Candidate>, wanted: int, incumbent: Option<Id>)
    ensures forall o :: o in Offers(candidates, wanted, incumbent) ==> (o.keepsTime <==> o.startMin == wanted)
  {}

  lemma {:induction false} LaterAttempts(
      wanted: int, incumbent: Option<Id>, candidates: seq<Candidate>, daysAhead: int, writes: Writes,
      attempt: nat, refused: seq<Candidate>)
    requires attempt > 0 && daysAhead <= BOOKING_HORIZON_DAYS
    ensures var s := SeatFrom(wanted, incumbent, candidates, daysAhead, writes, attempt, refused);
      !s.Deferred? && (s.Booked? ==> s.attempt >= attempt)
    decreases if attempt < MAX_WRITE_ATTEMPTS then MAX_WRITE_ATTEMPTS - attempt else 0
  {
    if attempt < MAX_WRITE_ATTEMPTS {
      var d := Repair(wanted, incumbent, Usable(candidates, Rejected(refused)), daysAhead);
      if d.Repaired? {
        LaterAttempts(wanted, incumbent, candidates, daysAhead, writes, attempt + 1, refused + [SlotOf(d.offer)]);
      }
    }
  }

  // ------------------------------------------------------------------ one day at a time

  predicate InsideHours(v: Standing, c: Candidate) {
    0 <= c.startMin && c.startMin + v.durationMin <= DAY_MINUTES
  }

  /** A write inside its day changes no other day's reading. */
  lemma SeatLeavesOtherDays(d: Diary, v: Standing, day: int, c: Candidate, other: int)
    requires RowsSound(d) && Sellable(v) && InsideHours(v, c) && other != day
    ensures DayView(SeatWrite(d, v, day, c).rows, other) == DayView(d.rows, other)
  {
    OtherDaysRead(d.rows, SeatWrite(d, v, day, c).rows, day, other);
  }

  /** Whether a professional is taken is read off the day. */
  lemma TakenReadsItsDay(a: map<Id, Reservation>, b: map<Id, Reservation>, v: Standing, day: int, c: Candidate)
    requires InsideHours(v, c) && DayView(a, day) == DayView(b, day)
    ensures Taken(a, v, day, c) <==> Taken(b, v, day, c)
  {
    var from, to := Instant(day, c.startMin), Instant(day, c.startMin) + v.durationMin;
    MeetingIsOnDay(a, day, Person(c.staff), from, to);
    MeetingIsOnDay(b, day, Person(c.staff), from, to);
    MobileCreate.BusyMeansMeeting(a, c.staff, from, to);
    MobileCreate.BusyMeansMeeting(b, c.staff, from, to);
  }

  predicate DistinctDays(occs: seq<Occurrence>) {
    forall i, j :: 0 <= i < j < |occs| ==> occs[i].day != occs[j].day
  }

  /** Every start the engine offers fits its day. */
  ghost predicate OffersInside(w: World) {
    forall day: int, view: map<Id, Busy> :: w.read(day, view).Open? ==>
      forall c :: c in w.read(day, view).candidates ==> InsideHours(w.series, c)
  }

  ghost predicate SameOn(a: Rows, b: Rows, occs: seq<Occurrence>) {
    forall i :: 0 <= i < |occs| ==> DayView(a, occs[i].day) == DayView(b, occs[i].day)
  }

  ghost predicate Agree(candidates: seq<Candidate>, one: Writes, other: Writes) {
    forall n: nat, c :: c in candidates ==> one(n, c) == other(n, c)
  }

  /** Seating asks about writing candidates only. */
  lemma {:induction false} SeatSame(
      wanted: int, incumbent: Option<Id>, candidates: seq<Candidate>, daysAhead: int, one: Writes, other: Writes,
      attempt: nat, refused: seq<Candidate>)
    requires Agree(candidates, one, other)
    ensures SeatFrom(wanted, incumbent, candidates, daysAhead, one, attempt, refused)
         == SeatFrom(wanted, incumbent, candidates, daysAhead, other, attempt, refused)
    decreases if attempt < MAX_WRITE_ATTEMPTS then MAX_WRITE_ATTEMPTS - attempt else 0
  {
    if attempt < MAX_WRITE_ATTEMPTS {
      var usable := Usable(candidates, Rejected(refused));
      UsableExact(candidates, Rejected(refused));
      LadderStaysInside(wanted, incumbent, usable, daysAhead);
      var d := Repair(wanted, incumbent, usable, daysAhead);
      if d.Repaired? {
        assert SlotOf(d.offer) in candidates;
        SeatSame(wanted, incumbent, candidates, daysAhead, one, other, attempt + 1, refused + [SlotOf(d.offer)]);
      }
    }
  }

  lemma WritesAgree(w: World, a: Rows, b: Rows, occ: Occurrence, n: nat, c: Candidate)
    requires InsideHours(w.series, c) && DayView(a, occ.day) == DayView(b, occ.day)
    ensures WritesOn(w, a, occ)(n, c) == WritesOn(w, b, occ)(n, c)
  {
    TakenReadsItsDay(a, b, w.series, occ.day, c);
  }

  lemma AskedAlike(occ: Occurrence, today: int, incumbent: Option<Id>, read: Read, one: Writes, other: Writes)
    requires read.Open? ==> Agree(read.candidates, one, other)
    ensures Seat(occ, today, incumbent, read, one) == Seat(occ, today, incumbent, read, other)
  {
    if occ.day - today <= BOOKING_HORIZON_DAYS && read.Open? {
      var candidates, daysAhead := read.candidates, occ.day - today;
      SeatSame(occ.startMin, incumbent, candidates, daysAhead, one, other, 0, []);
      assert Seat(occ, today, incumbent, read, one) == SeatFrom(occ.startMin, incumbent, candidates, daysAhead, one, 0, []);
    }
  }

  /** Diaries that read the same on its day seat an occurrence alike. */
  lemma SeatReadsItsDay(w: World, a: Rows, b: Rows, occ: Occurrence, today: int, incumbent: Option<Id>)
    requires OffersInside(w) && DayView(a, occ.day) == DayView(b, occ.day)
    ensures SeatOn(w, a, occ, today, incumbent) == SeatOn(w, b, occ, today, incumbent)
  {
    var read, one, other := ReadOn(w, a, occ.day), WritesOn(w, a, occ), WritesOn(w, b, occ);
    if read.Open? {
      forall n: nat, c | c in read.candidates ensures one(n, c) == other(n, c) { WritesAgree(w, a, b, occ, n, c); }
    }
    AskedAlike(occ, today, incumbent, read, one, other);
  }

  /** What seating books is one of the candidates, so it lies inside its day. */
  lemma BookedInside(w: World, rows: Rows, occ: Occurrence, today: int, incumbent: Option<Id>)
    requires OffersInside(w)
    ensures var s := SeatOn(w, rows, occ, today, incumbent); s.Booked? ==> InsideHours(w.series, s.slot)
  {
    var read := ReadOn(w, rows, occ.day);
    if read.Open? {
      SeatConverges(occ.startMin, incumbent, read.candidates, occ.day - today, WritesOn(w, rows, occ), 0, []);
    }
  }

  /** Each occurrence as it would be seated if it were the only one. */
  function Alone(w: World, rows: Rows, occs: seq<Occurrence>, today: int, incumbent: Option<Id>): seq<Seated> {
    if occs == [] then []
    else [SeatOn(w, rows, occs[0], today, incumbent)] + Alone(w, rows, occs[1..], today, incumbent)
  }

  function BookedIds(occs: seq<Occurrence>, seats: seq<Seated>): seq<Id>
    requires |occs| == |seats|
  {
    if occs == [] then []
    else (if seats[0].Booked? then [occs[0].id] else []) + BookedIds(occs[1..], seats[1..])
  }

  lemma OtherDaysStay(w: World, d: Rows, r: Diary, occs: seq<Occurrence>, today: int, incumbent: Option<Id>)
    requires occs != [] && DistinctDays(occs) && SameOn(d, r.rows, occs)
    requires RowsSound(r) && Sellable(w.series) && OffersInside(w)
    ensures DistinctDays(occs[1..])
    ensures SameOn(d, After(w, r, occs[0], SeatOn(w, r.rows, occs[0], today, incumbent)).rows, occs[1..])
  {
    var seated, rest := SeatOn(w, r.rows, occs[0], today, incumbent), occs[1..];
    BookedInside(w, r.rows, occs[0], today, incumbent);
    forall i, j | 0 <= i < j < |rest| ensures rest[i].day != rest[j].day { assert occs[i + 1].day != occs[j + 1].day; }
    forall i | 0 <= i < |rest| ensures DayView(d, rest[i].day) == DayView(After(w, r, occs[0], seated).rows, rest[i].day) {
      assert rest[i] == occs[i + 1];
      if seated.Booked? { SeatLeavesOtherDays(r, w.series, occs[0].day, seated.slot, rest[i].day); }
    }
  }

  function CountAll(c: Counts, seats: seq<Seated>): Counts
    decreases |seats|
  {
    if seats == [] then c else CountAll(Count(c, seats[0]), seats[1..])
  }

  lemma {:induction false} AloneEach(w: World, rows: Rows, occs: seq<Occurrence>, today: int, incumbent: Option<Id>)
    ensures var seats := Alone(w, rows, occs, today, incumbent);
      |seats| == |occs| && forall i :: 0 <= i < |occs| ==> seats[i] == SeatOn(w, rows, occs[i], today, incumbent)
  {
    if occs != [] { AloneEach(w, rows, occs[1..], today, incumbent); }
  }

  /** The report of a run in which every occurrence was seated as if alone. */
  ghost predicate EachAlone(e: Report, r: Report, occs: seq<Occurrence>, seats: seq<Seated>) {
    && |seats| == |occs| && e.seats == r.seats + seats
    && e.booked == r.booked + BookedIds(occs, seats) && e.counts == CountAll(r.counts, seats)
  }

  lemma OneMoreAlone(w: World, e: Report, r: Report, occs: seq<Occurrence>, seated: Seated, seats: seq<Seated>)
    requires occs != [] && EachAlone(e, Advance(w, r, occs[0], seated), occs[1..], seats)
    ensures EachAlone(e, r, occs, [seated] + seats)
  {
    Assoc(r.seats, [seated], seats);
    Assoc(r.booked, if seated.Booked? then [occs[0].id] else [], BookedIds(occs[1..], seats));
    assert ([seated] + seats)[1..] == seats;
  }

  lemma {:induction false} RunFromAlone(w: World, d: Rows, r: Report, occs: seq<Occurrence>, today: int, incumbent: Option<Id>)
    requires DistinctDays(occs) && SameOn(d, r.diary.rows, occs)
    requires Sound(r.diary) && Sellable(w.series) && OffersInside(w)
    ensures EachAlone(RunFrom(w, r, occs, today, incumbent), r, occs, Alone(w, d, occs, today, incumbent))
    decreases |occs|
  {
    if occs == [] {
      assert EachAlone(r, r, occs, []);
    } else {
      var seated := SeatOn(w, r.diary.rows, occs[0], today, incumbent);
      SeatReadsItsDay(w, d, r.diary.rows, occs[0], today, incumbent);
      OtherDaysStay(w, d, r.diary, occs, today, incumbent);
      SeatedSound(w, r.diary, occs[0], today, incumbent);
      RunFromAlone(w, d, Advance(w, r, occs[0], seated), occs[1..], today, incumbent);
      OneMoreAlone(w, RunFrom(w, r, occs, today, incumbent), r, occs, seated, Alone(w, d, occs[1..], today, incumbent));
    }
  }

  /**
   * Occurrences on days of their own do not get in each other's way: a run seats each of them where it
   * would have been seated, had it been the only one, on the diary the run starts from.
   */
  lemma RunSeatsEachAlone(w: World, d: Diary, occs: seq<Occurrence>, today: int, incumbent: Option<Id>)
    requires Sound(d) && Sellable(w.series) && OffersInside(w) && DistinctDays(occs)
    ensures var e := Run(w, d, occs, today, incumbent);
      && |e.seats| == |occs| && e.booked == BookedIds(occs, e.seats) && e.counts == CountAll(NONE, e.seats)
      && forall i :: 0 <= i < |occs| ==> e.seats[i] == SeatOn(w, d.rows, occs[i], today, incumbent)
  {
    var seats := Alone(w, d.rows, occs, today, incumbent);
    RunFromAlone(w, d.rows, Report(NONE, d, [], []), occs, today, incumbent);
    AloneEach(w, d.rows, occs, today, incumbent);
    assert [] + seats == seats && [] + BookedIds(occs, seats) == BookedIds(occs, seats);
  }

  // ------------------------------------------------------------------ a whole run against its preview

  /** On every day the preview calls feasible, the slot it names is still to be had at the write. */
  ghost predicate WriteAgrees(w: World, rows: Rows, occs: seq<Occurrence>, today: int, incumbent: Option<Id>) {
    forall i :: 0 <= i < |occs| && Feasible(PreviewOn(w, rows, occs[i], today, incumbent)) ==>
      SlotStands(w, rows, occs[i], PreviewOn(w, rows, occs[i], today, incumbent).slot)
  }

  predicate SlotStands(w: World, rows: Rows, occ: Occurrence, slot: Candidate) {
    w.luck(occ.id, 0, slot) && !Taken(rows, w.series, occ.day, slot)
  }

  function FeasibleIds(w: World, rows: Rows, occs: seq<Occurrence>, today: int, incumbent: Option<Id>): seq<Id> {
    if occs == [] then []
    else
      (if Feasible(PreviewOn(w, rows, occs[0], today, incumbent)) then [occs[0].id] else [])
      + FeasibleIds(w, rows, occs[1..], today, incumbent)
  }

  /** The counts of a run and of its preview, side by side. */
  predicate Matching(c: Counts, t: Tally) {
    && c.materialised == t.exact + t.repairable
    && c.needsAttention == t.needsAttention + t.closed
    && c.deferred == t.deferred && c.repaired >= t.repairable
  }

  lemma SeatedAsPreviewed(w: World, rows: Rows, occ: Occurrence, today: int, incumbent: Option<Id>)
    ensures KeepsWord(PreviewOn(w, rows, occ, today, incumbent), SeatOn(w, rows, occ, today, incumbent), WritesOn(w, rows, occ))
  {
    PreviewIsTheFirstAttempt(occ, today, incumbent, ReadOn(w, rows, occ.day), WritesOn(w, rows, occ));
  }

  lemma {:induction false} AllAsPreviewed(
      w: World, rows: Rows, occs: seq<Occurrence>, seats: seq<Seated>, today: int, incumbent: Option<Id>,
      c: Counts, t: Tally)
    requires |seats| == |occs| && Matching(c, t) && WriteAgrees(w, rows, occs, today, incumbent)
    requires forall i :: 0 <= i < |occs| ==> seats[i] == SeatOn(w, rows, occs[i], today, incumbent)
    ensures BookedIds(occs, seats) == FeasibleIds(w, rows, occs, today, incumbent)
    ensures Matching(CountAll(c, seats), TallyFrom(w, rows, occs, today, incumbent, t))
    decreases |occs|
  {
    if occs != [] {
      var v, rest := PreviewOn(w, rows, occs[0], today, incumbent), occs[1..];
      SeatedAsPreviewed(w, rows, occs[0], today, incumbent);
      assert forall i :: 0 <= i < |rest| ==> rest[i] == occs[i + 1] && seats[1..][i] == seats[i + 1];
      assert Feasible(v) ==> WritesOn(w, rows, occs[0])(0, v.slot);
      AllAsPreviewed(w, rows, rest, seats[1..], today, incumbent, Count(c, seats[0]), Add(t, v));
    }
  }

  ghost predicate FirstTime(seats: seq<Seated>, w: World, rows: Rows, occs: seq<Occurrence>, today: int, incumbent: Option<Id>)
    requires |seats| == |occs|
  {
    forall i :: 0 <= i < |occs| && Feasible(PreviewOn(w, rows, occs[i], today, incumbent)) ==>
      seats[i].Booked? && seats[i].attempt == 0 && seats[i].slot == PreviewOn(w, rows, occs[i], today, incumbent).slot
  }

  /**
   * A preview against the run it foretells, on the same diary and with occurrences on days of their
   * own. Every occurrence is answered as the preview said, as far as the write of the slot it named
   * goes through; all of them are booked at the first attempt, on the slots named, if and only if every
   * named slot still stands; and then the run books those the preview called feasible, in order, and no
   * others, and the counts of the two agree.
   */
  lemma PreviewKeepsItsWord(w: World, d: Diary, occs: seq<Occurrence>, today: int, incumbent: Option<Id>)
    requires Sound(d) && Sellable(w.series) && OffersInside(w) && DistinctDays(occs)
    ensures var e := Run(w, d, occs, today, incumbent);
      && |e.seats| == |occs|
      && (forall i :: 0 <= i < |occs| ==>
            KeepsWord(PreviewOn(w, d.rows, occs[i], today, incumbent), e.seats[i], WritesOn(w, d.rows, occs[i])))
      && (FirstTime(e.seats, w, d.rows, occs, today, incumbent) <==> WriteAgrees(w, d.rows, occs, today, incumbent))
      && (WriteAgrees(w, d.rows, occs, today, incumbent) ==>
            && e.booked == FeasibleIds(w, d.rows, occs, today, incumbent)
            && Matching(e.counts, TallyFrom(w, d.rows, occs, today, incumbent, Tally(0, 0, 0, 0, 0))))
  {
    var e := Run(w, d, occs, today, incumbent);
    RunSeatsEachAlone(w, d, occs, today, incumbent);
    forall i | 0 <= i < |occs|
      ensures KeepsWord(PreviewOn(w, d.rows, occs[i], today, incumbent), e.seats[i], WritesOn(w, d.rows, occs[i]))
    {
      SeatedAsPreviewed(w, d.rows, occs[i], today, incumbent);
    }
    FirstTimeIff(w, d.rows, occs, e.seats, today, incumbent);
    if WriteAgrees(w, d.rows, occs, today, incumbent) {
      AllAsPreviewed(w, d.rows, occs, e.seats, today, incumbent, NONE, Tally(0, 0, 0, 0, 0));
    }
  }

  lemma FirstTimeIff(w: World, rows: Rows, occs: seq<Occurrence>, seats: seq<Seated>, today: int, incumbent: Option<Id>)
    requires |seats| == |occs|
    requires forall i :: 0 <= i < |occs| ==>
      KeepsWord(PreviewOn(w, rows, occs[i], today, incumbent), seats[i], WritesOn(w, rows, occs[i]))
    ensures FirstTime(seats, w, rows, occs, today, incumbent) <==> WriteAgrees(w, rows, occs, today, incumbent)
  {
    forall i | 0 <= i < |occs| && Feasible(PreviewOn(w, rows, occs[i], today, incumbent))
      ensures var v := PreviewOn(w, rows, occs[i], today, incumbent);
        SlotStands(w, rows, occs[i], v.slot) <==> seats[i].Booked? && seats[i].attempt == 0 && seats[i].slot == v.slot
    {
      var v := PreviewOn(w, rows, occs[i], today, incumbent);
      assert WritesOn(w, rows, occs[i])(0, v.slot) == SlotStands(w, rows, occs[i], v.slot);
    }
  }
}
