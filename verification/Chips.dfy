/**
 * The figures above the calendar. The day reads its bookings and counts them; the month and the agenda
 * ask the database for one total per status and never see a row. Both must say the same.
 */
module Chips {
  import opened Lifecycle

  // ------------------------------------------------------------------ totals and rows

  datatype Total<K> = Total(key: K, n: int, revenueFils: int)

  /** What the rows whose key is among `keys` measure together. */
  function Tally<R, K(==)>(rows: seq<R>, key: R -> K, measure: R -> int, keys: set<K>): int {
    if rows == [] then 0
    else (if key(rows[0]) in keys then measure(rows[0]) else 0) + Tally(rows[1..], key, measure, keys)
  }

  function SumOver<K(==)>(totals: seq<Total<K>>, figure: Total<K> -> int, keys: set<K>): int {
    if totals == [] then 0
    else (if totals[0].key in keys then figure(totals[0]) else 0) + SumOver(totals[1..], figure, keys)
  }

  /** One total per key that any row has, and each the measure of its own rows: what GROUP BY answers. */
  ghost predicate Groups<R, K>(totals: seq<Total<K>>, figure: Total<K> -> int, rows: seq<R>, key: R -> K, measure: R -> int) {
    && (forall i, j :: 0 <= i < j < |totals| ==> totals[i].key != totals[j].key)
    && (forall i :: 0 <= i < |totals| ==> figure(totals[i]) == Tally(rows, key, measure, {totals[i].key}))
    && (forall i :: 0 <= i < |rows| ==> exists j :: 0 <= j < |totals| && totals[j].key == key(rows[i]))
  }

  lemma {:induction false} TallySplits<R, K>(rows: seq<R>, key: R -> K, measure: R -> int, a: set<K>, b: set<K>)
    requires a !! b
    ensures Tally(rows, key, measure, a + b) == Tally(rows, key, measure, a) + Tally(rows, key, measure, b)
  {
    if rows != [] { TallySplits(rows[1..], key, measure, a, b); }
  }

  lemma {:induction false} TallyOfNothing<R, K>(rows: seq<R>, key: R -> K, measure: R -> int, keys: set<K>)
    requires forall i :: 0 <= i < |rows| ==> key(rows[i]) !in keys
    ensures Tally(rows, key, measure, keys) == 0
  {
    if rows != [] { TallyOfNothing(rows[1..], key, measure, keys); }
  }

  lemma {:induction false} SumSkips<K>(totals: seq<Total<K>>, figure: Total<K> -> int, keys: set<K>, k: K)
    requires forall i :: 0 <= i < |totals| ==> totals[i].key != k
    ensures SumOver(totals, figure, keys) == SumOver(totals, figure, keys - {k})
  {
    if totals != [] { SumSkips(totals[1..], figure, keys, k); }
  }

  lemma {:induction false} SumsAgree<R, K>(
      totals: seq<Total<K>>, figure: Total<K> -> int, rows: seq<R>, key: R -> K, measure: R -> int, keys: set<K>)
    requires forall i, j :: 0 <= i < j < |totals| ==> totals[i].key != totals[j].key
    requires forall i :: 0 <= i < |totals| ==> figure(totals[i]) == Tally(rows, key, measure, {totals[i].key})
    requires forall i :: 0 <= i < |rows| && key(rows[i]) in keys ==>
      exists j :: 0 <= j < |totals| && totals[j].key == key(rows[i])
    ensures SumOver(totals, figure, keys) == Tally(rows, key, measure, keys)
    decreases |totals|
  {
    if totals == [] {
      TallyOfNothing(rows, key, measure, keys);
    } else {
      var k, rest := totals[0].key, totals[1..];
      forall i | 0 <= i < |rest| ensures rest[i].key != k { assert totals[0].key != totals[i + 1].key; }
      forall i | 0 <= i < |rows| && key(rows[i]) in keys - {k}
        ensures exists j :: 0 <= j < |rest| && rest[j].key == key(rows[i])
      {
        var j :| 0 <= j < |totals| && totals[j].key == key(rows[i]);
        assert rest[j - 1].key == key(rows[i]);
      }
      SumsAgree(rest, figure, rows, key, measure, keys - {k});
      SumSkips(rest, figure, keys, k);
      if k in keys {
        TallySplits(rows, key, measure, {k}, keys - {k});
        assert {k} + (keys - {k}) == keys;
      } else {
        assert keys - {k} == keys;
      }
    }
  }

  /** Whichever keys are asked about, the totals answer what reading every row would. */
  lemma TotalsAnswerForRows<R, K>(
      totals: seq<Total<K>>, figure: Total<K> -> int, rows: seq<R>, key: R -> K, measure: R -> int, keys: set<K>)
    requires Groups(totals, figure, rows, key, measure)
    ensures SumOver(totals, figure, keys) == Tally(rows, key, measure, keys)
  {
    SumsAgree(totals, figure, rows, key, measure, keys);
  }

  // ------------------------------------------------------------------ the chips

  datatype Chip = Upcoming | InSalon | BeingServed | Done | Missed | CalledOff

  const CALENDAR_CHIPS: seq<Chip> := [Upcoming, InSalon, BeingServed, Done, Missed, CalledOff]

  const LIVE_STATUSES: set<Status> :=
    {PendingPayment, PendingConfirmation, Confirmed, CheckedIn, InService, Completed, Settled}

  function ChipMap(chip: Chip): set<Status> {
    match chip
    case Upcoming => {PendingConfirmation, Confirmed, PendingPayment}
    case InSalon => {CheckedIn}
    case BeingServed => {InService}
    case Done => {Completed, Settled}
    case Missed => {NoShow}
    case CalledOff => {Cancelled}
  }

  /** The statuses behind the chips picked; no chips is no filter, which the caller reads as the live ones. */
  function StatusesFor(chips: seq<Chip>): set<Status> {
    if chips == [] then {} else ChipMap(chips[0]) + StatusesFor(chips[1..])
  }

  const CHIP_STATUSES: set<Status> := StatusesFor(CALENDAR_CHIPS)

  lemma {:induction false} StatusesForExact(chips: seq<Chip>, s: Status)
    ensures s in StatusesFor(chips) <==> exists i :: 0 <= i < |chips| && s in ChipMap(chips[i])
  {
    if chips != [] {
      StatusesForExact(chips[1..], s);
      if s in StatusesFor(chips[1..]) {
        var i :| 0 <= i < |chips[1..]| && s in ChipMap(chips[1..][i]);
        assert s in ChipMap(chips[i + 1]);
      }
    }
  }

  /** A status sits behind one chip at most, and behind one exactly when the calendar can show it. */
  lemma ChipsDivideStatuses(s: Status, a: Chip, b: Chip)
    ensures s in ChipMap(a) && s in ChipMap(b) ==> a == b
    ensures s in CHIP_STATUSES <==> s in LIVE_STATUSES || s == NoShow || s == Cancelled
    ensures s in CHIP_STATUSES <==> s !in {Draft, Held, Expired, Skipped, Rescheduled}
  {
    StatusesForExact(CALENDAR_CHIPS, s);
    if s in CHIP_STATUSES {
      var i :| 0 <= i < |CALENDAR_CHIPS| && s in ChipMap(CALENDAR_CHIPS[i]);
    } else {
      assert s !in ChipMap(CALENDAR_CHIPS[0]) && s !in ChipMap(CALENDAR_CHIPS[1]) && s !in ChipMap(CALENDAR_CHIPS[2]);
      assert s !in ChipMap(CALENDAR_CHIPS[3]) && s !in ChipMap(CALENDAR_CHIPS[4]) && s !in ChipMap(CALENDAR_CHIPS[5]);
    }
  }

  /**
   * The chips follow a visit through its life: upcoming while it may still be moved; in the salon once
   * it was checked in and may be begun; being served while it may be completed; done once it may be, or
   * is, settled; called off by its customer; missed when it gave its time back otherwise.
   */
  lemma ChipsFollowTheVisit(s: Status)
    ensures s in ChipMap(Upcoming) <==> s in MOVABLE
    ensures s in ChipMap(InSalon) <==> Check(Confirmed, s, Staff, true).Allowed? && Check(s, InService, Staff, true).Allowed?
    ensures s in ChipMap(BeingServed) <==> Check(s, Completed, Staff, true).Allowed?
    ensures s in ChipMap(Done) <==> s == Settled || Check(s, Settled, Staff, true).Allowed?
    ensures s in ChipMap(CalledOff) <==> s in RELEASING && Check(Confirmed, s, Customer, true).Allowed?
    ensures s in ChipMap(Missed) <==>
      s in RELEASING && Check(CheckedIn, s, Staff, true).Allowed? && !Check(Confirmed, s, Customer, true).Allowed?
    ensures s in LIVE_STATUSES <==> s in BLOCKING
  {}

  // ------------------------------------------------------------------ the counts

  datatype Payment =
    | NoneRequired | Unpaid | DepositPaid | FullyPaid | PartiallyRefunded | Refunded | Forfeited | PaySettled

  datatype Row = Row(status: Status, payment: Payment, priceFils: int)

  function StatusOf(r: Row): Status { r.status }
  function One(r: Row): int { 1 }
  function PriceOf(r: Row): int { r.priceFils }
  function N(t: Total<Status>): int { t.n }
  function Revenue(t: Total<Status>): int { t.revenueFils }

  /** Rows as totals of one: how the day reaches the same loop. */
  function Singly(rows: seq<Row>): seq<Total<Status>> {
    seq(|rows|, i requires 0 <= i < |rows| => Total(rows[i].status, 1, rows[i].priceFils))
  }

  /** The bookings behind a chip, among the rows. */
  function Behind(rows: seq<Row>, chip: Chip): int {
    Tally(rows, StatusOf, One, ChipMap(chip))
  }

  method ChipCountsOf(totals: seq<Total<Status>>) returns (counts: map<Chip, int>)
    ensures forall chip :: chip in counts && counts[chip] == SumOver(totals, N, ChipMap(chip))
  {
    counts := map[];
    for i := 0 to |CALENDAR_CHIPS|
      invariant forall k :: 0 <= k < i ==>
        CALENDAR_CHIPS[k] in counts && counts[CALENDAR_CHIPS[k]] == SumOver(totals, N, ChipMap(CALENDAR_CHIPS[k]))
    {
      var statuses, sum := ChipMap(CALENDAR_CHIPS[i]), 0;
      for j := 0 to |totals|
        invariant sum + SumOver(totals[j..], N, statuses) == SumOver(totals, N, statuses)
      {
        assert totals[j..][1..] == totals[j + 1..];
        if totals[j].key in statuses { sum := sum + totals[j].n; }
      }
      counts := counts[CALENDAR_CHIPS[i] := sum];
    }
    forall chip: Chip
      ensures chip in counts && counts[chip] == SumOver(totals, N, ChipMap(chip))
    {
      assert chip == CALENDAR_CHIPS[0] || chip == CALENDAR_CHIPS[1] || chip == CALENDAR_CHIPS[2]
          || chip == CALENDAR_CHIPS[3] || chip == CALENDAR_CHIPS[4] || chip == CALENDAR_CHIPS[5];
    }
  }

  lemma {:induction false} SinglyIsTally(rows: seq<Row>, keys: set<Status>)
    ensures SumOver(Singly(rows), N, keys) == Tally(rows, StatusOf, One, keys)
    ensures SumOver(Singly(rows), Revenue, keys) == Tally(rows, StatusOf, PriceOf, keys)
  {
    if rows != [] {
      SinglyIsTally(rows[1..], keys);
      assert Singly(rows)[1..] == Singly(rows[1..]);
    }
  }

  ghost predicate TotalsOf(totals: seq<Total<Status>>, rows: seq<Row>) {
    Groups(totals, N, rows, StatusOf, One) && Groups(totals, Revenue, rows, StatusOf, PriceOf)
  }

  /** The day, counting rows, and the month, given totals, put the same number on every chip. */
  lemma DayAndMonthAgree(rows: seq<Row>, totals: seq<Total<Status>>, chip: Chip)
    requires TotalsOf(totals, rows)
    ensures SumOver(totals, N, ChipMap(chip)) == Behind(rows, chip) == SumOver(Singly(rows), N, ChipMap(chip))
  {
    TotalsAnswerForRows(totals, N, rows, StatusOf, One, ChipMap(chip));
    SinglyIsTally(rows, ChipMap(chip));
  }

  function BehindAll(rows: seq<Row>, chips: seq<Chip>): int {
    if chips == [] then 0 else Behind(rows, chips[0]) + BehindAll(rows, chips[1..])
  }

  ghost predicate NoneTwice(chips: seq<Chip>) {
    forall i, j :: 0 <= i < j < |chips| ==> chips[i] != chips[j]
  }

  /** Picking chips shows as many bookings as the chips said, added up: no row is behind two. */
  lemma {:induction false} PickedShowsCounted(rows: seq<Row>, chips: seq<Chip>)
    requires NoneTwice(chips)
    ensures Tally(rows, StatusOf, One, StatusesFor(chips)) == BehindAll(rows, chips)
    decreases |chips|
  {
    if chips == [] {
      TallyOfNothing(rows, StatusOf, One, {});
    } else {
      var rest := chips[1..];
      assert NoneTwice(rest) by {
        forall i, j | 0 <= i < j < |rest| ensures rest[i] != rest[j] { assert chips[i + 1] != chips[j + 1]; }
      }
      forall s | s in ChipMap(chips[0]) ensures s !in StatusesFor(rest) {
        StatusesForExact(rest, s);
        forall i | 0 <= i < |rest| ensures s !in ChipMap(rest[i]) {
          assert chips[0] != chips[i + 1];
          ChipsDivideStatuses(s, chips[0], rest[i]);
        }
      }
      TallySplits(rows, StatusOf, One, ChipMap(chips[0]), StatusesFor(rest));
      PickedShowsCounted(rows, rest);
    }
  }

  lemma {:induction false} TallyOfAll(rows: seq<Row>, keys: set<Status>)
    requires forall i :: 0 <= i < |rows| ==> rows[i].status in keys
    ensures Tally(rows, StatusOf, One, keys) == |rows|
  {
    if rows != [] { TallyOfAll(rows[1..], keys); }
  }

  /** All the chips together hold every booking the calendar read, each once. */
  lemma {:induction false} ChipsHoldEveryRow(rows: seq<Row>)
    requires forall i :: 0 <= i < |rows| ==> rows[i].status in CHIP_STATUSES
    ensures BehindAll(rows, CALENDAR_CHIPS) == |rows|
  {
    PickedShowsCounted(rows, CALENDAR_CHIPS);
    TallyOfAll(rows, CHIP_STATUSES);
  }

  // ------------------------------------------------------------------ the tiles

  datatype Kpis = Kpis(booked: int, revenueFils: int, pendingDeposits: int, conflicts: int)

  /** From totals: the live ones first, then the pending among them. */
  method WindowKpis(totals: seq<Total<Status>>, conflicts: int) returns (kpis: Kpis)
    ensures kpis == Kpis(SumOver(totals, N, LIVE_STATUSES), SumOver(totals, Revenue, LIVE_STATUSES),
                         SumOver(totals, N, {PendingPayment}), conflicts)
  {
    var booked, revenue, pending := 0, 0, 0;
    for i := 0 to |totals|
      invariant booked + SumOver(totals[i..], N, LIVE_STATUSES) == SumOver(totals, N, LIVE_STATUSES)
      invariant revenue + SumOver(totals[i..], Revenue, LIVE_STATUSES) == SumOver(totals, Revenue, LIVE_STATUSES)
      invariant pending + SumOver(totals[i..], N, {PendingPayment}) == SumOver(totals, N, {PendingPayment})
    {
      var t := totals[i];
      assert totals[i..][1..] == totals[i + 1..];
      if t.key in LIVE_STATUSES {
        booked, revenue := booked + t.n, revenue + t.revenueFils;
        if t.key == PendingPayment { pending := pending + t.n; }
      }
    }
    kpis := Kpis(booked, revenue, pending, conflicts);
  }

  function Live(rows: seq<Row>): seq<Row> {
    if rows == [] then [] else (if rows[0].status in LIVE_STATUSES then [rows[0]] else []) + Live(rows[1..])
  }

  function Pending(rows: seq<Row>): seq<Row> {
    if rows == [] then [] else (if rows[0].status == PendingPayment then [rows[0]] else []) + Pending(rows[1..])
  }

  function Prices(rows: seq<Row>): int {
    if rows == [] then 0 else rows[0].priceFils + Prices(rows[1..])
  }

  /** What the day grid reads off its own rows. */
  function DayKpis(rows: seq<Row>, conflicts: int): Kpis {
    Kpis(|Live(rows)|, Prices(Live(rows)), |Pending(Live(rows))|, conflicts)
  }

  lemma {:induction false} DayKpisTally(rows: seq<Row>)
    ensures |Live(rows)| == Tally(rows, StatusOf, One, LIVE_STATUSES)
    ensures Prices(Live(rows)) == Tally(rows, StatusOf, PriceOf, LIVE_STATUSES)
    ensures |Pending(Live(rows))| == Tally(rows, StatusOf, One, {PendingPayment})
  {
    if rows != [] {
      DayKpisTally(rows[1..]);
      if rows[0].status in LIVE_STATUSES {
        assert Live(rows)[1..] == Live(rows[1..]);
      } else {
        assert Live(rows) == Live(rows[1..]);
      }
    }
  }

  /** A month's tiles are the ones its rows would give, were they read; and the totals add up to the rows. */
  lemma TilesAgree(rows: seq<Row>, totals: seq<Total<Status>>, conflicts: int, all: set<Status>)
    requires TotalsOf(totals, rows) && forall i :: 0 <= i < |rows| ==> rows[i].status in all
    ensures Kpis(SumOver(totals, N, LIVE_STATUSES), SumOver(totals, Revenue, LIVE_STATUSES),
                 SumOver(totals, N, {PendingPayment}), conflicts) == DayKpis(rows, conflicts)
    ensures SumOver(totals, N, all) == |rows|
  {
    DayKpisTally(rows);
    TotalsAnswerForRows(totals, N, rows, StatusOf, One, LIVE_STATUSES);
    TotalsAnswerForRows(totals, Revenue, rows, StatusOf, PriceOf, LIVE_STATUSES);
    TotalsAnswerForRows(totals, N, rows, StatusOf, One, {PendingPayment});
    TotalsAnswerForRows(totals, N, rows, StatusOf, One, all);
    TallyOfAll(rows, all);
  }

  // ------------------------------------------------------------------ the payment chips

  datatype PaymentChip = OwesAll | PaidDeposit | PaidUp

  predicate MatchesPayment(chip: PaymentChip, payment: Payment, status: Status) {
    match chip
    case PaidUp => payment in {FullyPaid, Refunded, PartiallyRefunded, PaySettled} || status == Settled
    case PaidDeposit => payment == DepositPaid && status != Settled
    case OwesAll => status != Settled && payment in {Unpaid, NoneRequired, Forfeited}
  }

  /** Every booking is behind exactly one payment chip, so none disappears under a filter. */
  lemma PaymentChipsDivide(payment: Payment, status: Status)
    ensures exists chip :: MatchesPayment(chip, payment, status)
    ensures forall a, b :: MatchesPayment(a, payment, status) && MatchesPayment(b, payment, status) ==> a == b
  {
    var chip := if MatchesPayment(PaidUp, payment, status) then PaidUp
                else if MatchesPayment(PaidDeposit, payment, status) then PaidDeposit else OwesAll;
    assert MatchesPayment(chip, payment, status);
  }

  /** How much of the price was taken before the visit and not lost since. */
  datatype UpFront = Nothing | APart | AllOfIt

  function TakenUpFront(payment: Payment): UpFront {
    match payment
    case NoneRequired => Nothing
    case Unpaid => Nothing
    case Forfeited => Nothing
    case DepositPaid => APart
    case FullyPaid => AllOfIt
    case PartiallyRefunded => AllOfIt
    case Refunded => AllOfIt
    case PaySettled => AllOfIt
  }

  /** A settled visit is paid up whatever was taken before it; any other stands behind what was. */
  lemma PaymentChipTells(payment: Payment, status: Status)
    ensures MatchesPayment(PaidUp, payment, status) <==> status == Settled || TakenUpFront(payment) == AllOfIt
    ensures MatchesPayment(PaidDeposit, payment, status) <==> status != Settled && TakenUpFront(payment) == APart
    ensures MatchesPayment(OwesAll, payment, status) <==> status != Settled && TakenUpFront(payment) == Nothing
  {}
}
