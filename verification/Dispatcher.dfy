/**
 * The dispatchers: any number of workers claim due rows, send, and record. A claim counts the attempt
 * and leases the row; a result is written only if the row is still pending on that very attempt. A
 * worker that dies simply takes no further step.
 */
module Dispatcher {
  import opened Basics
  import opened Delivery
  import Lifecycle

  datatype RowStatus = Pending | WasSent | HasFailed | WasSkipped | WasSuperseded

  datatype Row = Row(order: Order, status: RowStatus, attempts: nat, nextAt: int)

  /** An attempt at a row: taken, decided, or over; `recorded` says whether its result was written. */
  datatype Flight = Taken | Decided(settlement: Settlement) | Over(recorded: bool)

  datatype Key = Key(row: Id, attempt: nat)

  datatype Sys = Sys(rows: map<Id, Row>, flights: map<Key, Flight>, sends: seq<Key>)

  datatype Event =
    | Claim(row: Id, now: int)
    | Decide(key: Key, facts: Facts, at: int)
    | Record(done: Key)

  function RowOf(e: Event): Id {
    match e
    case Claim(r, _) => r
    case Decide(k, _, _) => k.row
    case Record(k) => k.row
  }

  predicate Due(r: Row, now: int) {
    r.status.Pending? && r.nextAt <= now
  }

  function Written(r: Row, s: Settlement): Row {
    match s
    case SentNow => r.(status := WasSent)
    case TryAgain(at) => r.(nextAt := at)
    case Failed => r.(status := HasFailed)
    case SkippedNow => r.(status := WasSkipped)
    case Superseded => r.(status := WasSuperseded)
  }

  /** The fence: still pending, and still on the attempt the writer claimed. */
  predicate Holds(s: Sys, k: Key) {
    k.row in s.rows && s.rows[k.row].status.Pending? && s.rows[k.row].attempts == k.attempt
  }

  function Step(s: Sys, e: Event): Sys {
    match e
    case Claim(id, now) =>
      if id in s.rows && Due(s.rows[id], now) then
        var r := s.rows[id];
        s.(rows := s.rows[id := r.(attempts := r.attempts + 1, nextAt := now + DISPATCH_LEASE)],
           flights := s.flights[Key(id, r.attempts + 1) := Taken])
      else s
    case Decide(k, facts, now) =>
      if k in s.flights && s.flights[k].Taken? && k.row in s.rows then
        var o := s.rows[k.row].order;
        s.(flights := s.flights[k := Decided(Dispatch(o, k.attempt, facts, now))],
           sends := if ReachesProvider(o, k.attempt, facts, now) then s.sends + [k] else s.sends)
      else s
    case Record(k) =>
      if k in s.flights && s.flights[k].Decided? then
        if Holds(s, k) then
          s.(rows := s.rows[k.row := Written(s.rows[k.row], s.flights[k].settlement)], flights := s.flights[k := Over(true)])
        else s.(flights := s.flights[k := Over(false)])
      else s
  }

  function Run(s: Sys, events: seq<Event>): Sys
    decreases |events|
  {
    if events == [] then s else Run(Step(s, events[0]), events[1..])
  }

  // ------------------------------------------------------------------ invariant

  ghost predicate Sound(s: Sys) {
    && (forall k :: k in s.flights ==> k.row in s.rows && 1 <= k.attempt <= s.rows[k.row].attempts)
    && (forall k :: k in s.sends ==> k in s.flights && !s.flights[k].Taken?)
    && (forall i, j :: 0 <= i < j < |s.sends| ==> s.sends[i] != s.sends[j])
    && (forall k :: k in s.sends && !s.rows[k.row].order.channel.Hub? ==> k.attempt <= MAX_ATTEMPTS)
  }

  lemma DecideSound(s: Sys, k: Key, facts: Facts, now: int)
    requires Sound(s)
    ensures Sound(Step(s, Decide(k, facts, now)))
  {
    if k in s.flights && s.flights[k].Taken? {
      var o := s.rows[k.row].order;
      if ReachesProvider(o, k.attempt, facts, now) && !o.channel.Hub? { SendsOnlyWhatStillHolds(o, k.attempt, facts, now); }
    }
  }

  lemma StepSound(s: Sys, e: Event)
    requires Sound(s)
    ensures Sound(Step(s, e))
    ensures forall id :: id in s.rows ==> id in Step(s, e).rows && Step(s, e).rows[id].order == s.rows[id].order
  {
    match e
    case Claim(_, _) =>
    case Decide(k, facts, now) => DecideSound(s, k, facts, now);
    case Record(_) =>
  }

  lemma {:induction false} RunSound(s: Sys, events: seq<Event>)
    requires Sound(s)
    ensures Sound(Run(s, events))
    ensures forall id :: id in s.rows ==> id in Run(s, events).rows && Run(s, events).rows[id].order == s.rows[id].order
    decreases |events|
  {
    if events != [] {
      StepSound(s, events[0]);
      RunSound(Step(s, events[0]), events[1..]);
    }
  }

  // ------------------------------------------------------------------ the fence

  /** A terminal row never changes again, whoever still holds an old claim on it. */
  lemma {:induction false} TerminalIsFinal(s: Sys, events: seq<Event>, id: Id)
    requires id in s.rows && !s.rows[id].status.Pending?
    ensures id in Run(s, events).rows && Run(s, events).rows[id] == s.rows[id]
    decreases |events|
  {
    if events != [] { TerminalIsFinal(Step(s, events[0]), events[1..], id); }
  }

  /** A row's attempts never go down, so an attempt that lost the row never holds it again. */
  lemma {:induction false} OldAttemptNeverHolds(s: Sys, events: seq<Event>, k: Key)
    requires k.row in s.rows && s.rows[k.row].attempts > k.attempt
    ensures k.row in Run(s, events).rows && Run(s, events).rows[k.row].attempts > k.attempt
    ensures !Holds(Run(s, events), k)
    decreases |events|
  {
    if events != [] { OldAttemptNeverHolds(Step(s, events[0]), events[1..], k); }
  }

  /**
   * A result is written only by the attempt that still holds the row: after another claim of the same
   * row, whatever the slow worker decided is dropped, and the row is as the newer attempt left it.
   */
  lemma LateResultIsDropped(s: Sys, now: int, between: seq<Event>, k: Key)
    requires Sound(s) && k in s.flights && Due(s.rows[k.row], now) && k.attempt == s.rows[k.row].attempts
    ensures var later := Run(Step(s, Claim(k.row, now)), between);
      Step(later, Record(k)).rows == later.rows
  {
    var claimed := Step(s, Claim(k.row, now));
    OldAttemptNeverHolds(claimed, between, k);
  }

  /** Each attempt belongs to one claim, is decided once and recorded once: what is over stays over. */
  lemma {:induction false} OverIsOver(s: Sys, events: seq<Event>, k: Key)
    requires Sound(s) && k in s.flights && s.flights[k].Over?
    ensures k in Run(s, events).flights && Run(s, events).flights[k] == s.flights[k]
    decreases |events|
  {
    if events != [] {
      StepSound(s, events[0]);
      OverIsOver(Step(s, events[0]), events[1..], k);
    }
  }

  // ------------------------------------------------------------------ what a claim and a record write

  /** A due row is claimed for five minutes and its attempt counted; a row that is not due is left alone. */
  lemma ClaimMeans(s: Sys, id: Id, now: int)
    requires id in s.rows
    ensures var e := Step(s, Claim(id, now)); var r := s.rows[id];
      if r.status.Pending? && r.nextAt <= now then
        && e.rows == s.rows[id := Row(r.order, Pending, r.attempts + 1, now + 300000)]
        && Key(id, r.attempts + 1) in e.flights && e.flights[Key(id, r.attempts + 1)].Taken?
      else e == s
  {}

  /** The status a settlement leaves a row in; a row to be tried again is still pending. */
  function StatusOf(s: Settlement): RowStatus {
    match s
    case SentNow => WasSent
    case TryAgain(_) => Pending
    case Failed => HasFailed
    case SkippedNow => WasSkipped
    case Superseded => WasSuperseded
  }

  /** What an attempt came to is written if and only if the row is still pending on that attempt. */
  lemma RecordMeans(s: Sys, k: Key)
    requires k in s.flights && s.flights[k].Decided? && k.row in s.rows
    ensures var e := Step(s, Record(k)); var r := s.rows[k.row]; var came := s.flights[k].settlement;
      && (forall id :: id in s.rows && id != k.row ==> id in e.rows && e.rows[id] == s.rows[id])
      && k.row in e.rows
      && e.rows[k.row] == (if r.status.Pending? && r.attempts == k.attempt
           then Row(r.order, StatusOf(came), r.attempts, if came.TryAgain? then came.at else r.nextAt) else r)
      && k in e.flights && e.flights[k] == Over(r.status.Pending? && r.attempts == k.attempt)
  {}

  // ------------------------------------------------------------------ after the last word

  ghost function SendsOf(s: Sys, id: Id): set<Key> {
    set k | k in s.sends && k.row == id
  }

  /** An attempt that was claimed and has not been decided, by a worker that may be slow or dead. */
  predicate InTheAir(s: Sys, k: Key) {
    k in s.flights && s.flights[k].Taken?
  }

  predicate CouldSend(o: Order, attempt: nat) {
    o.channel.Hub? || (o.isReminder && attempt <= 6)
  }

  const WILLING := Found(true, true, true, true, true)

  lemma SendsIfItCould(o: Order, attempt: nat)
    ensures CouldSend(o, attempt) <==> exists f, now :: ReachesProvider(o, attempt, f, now)
  {
    var f := Facts(Some(Delivery.Visit(Lifecycle.Confirmed, o.scheduledFor)), WILLING, true, Sent, false);
    assert CouldSend(o, attempt) ==> ReachesProvider(o, attempt, f, o.expiresAt - 1);
  }

  ghost predicate NobodySends(s: Sys, id: Id) {
    id in s.rows && forall k :: InTheAir(s, k) && k.row == id ==> !CouldSend(s.rows[id].order, k.attempt)
  }

  lemma SettledStep(s: Sys, e: Event, id: Id)
    requires id in s.rows && !s.rows[id].status.Pending? && NobodySends(s, id)
    ensures var t := Step(s, e);
      && id in t.rows && t.rows[id] == s.rows[id] && NobodySends(t, id) && SendsOf(t, id) == SendsOf(s, id)
  {
    if e.Decide? && InTheAir(s, e.key) && e.key.row == id { SendsIfItCould(s.rows[id].order, e.key.attempt); }
  }

  lemma {:induction false} SettledSendsNoMore(s: Sys, events: seq<Event>, id: Id)
    requires id in s.rows && !s.rows[id].status.Pending? && NobodySends(s, id)
    ensures SendsOf(Run(s, events), id) == SendsOf(s, id)
    decreases |events|
  {
    if events != [] {
      SettledStep(s, events[0], id);
      SettledSendsNoMore(Step(s, events[0]), events[1..], id);
    }
  }

  /**
   * Once a row is settled, sent or otherwise, nothing is ever sent for it again, if and only if no
   * attempt that could still send is in the air: a worker slower than its lease is the one way a
   * reminder goes twice.
   */
  lemma SettledIsTheLast(s: Sys, id: Id)
    requires Sound(s) && id in s.rows && !s.rows[id].status.Pending?
    ensures (forall events :: SendsOf(Run(s, events), id) == SendsOf(s, id)) <==> NobodySends(s, id)
  {
    if NobodySends(s, id) {
      forall events ensures SendsOf(Run(s, events), id) == SendsOf(s, id) { SettledSendsNoMore(s, events, id); }
    } else {
      var events := SlowWorkerSends(s, id);
    }
  }

  lemma SlowWorkerSends(s: Sys, id: Id) returns (events: seq<Event>)
    requires Sound(s) && id in s.rows && !NobodySends(s, id)
    ensures SendsOf(Run(s, events), id) != SendsOf(s, id)
  {
    var k :| InTheAir(s, k) && k.row == id && CouldSend(s.rows[id].order, k.attempt);
    SendsIfItCould(s.rows[id].order, k.attempt);
    var f, now :| ReachesProvider(s.rows[id].order, k.attempt, f, now);
    events := [Decide(k, f, now)];
    assert events[1..] == [] && Run(s, events) == Run(Step(s, events[0]), []);
    assert k in SendsOf(Run(s, events), id) && k !in SendsOf(s, id);
  }

  /** So an attempt that was sent, recorded by the worker that still holds the row, is the last one. */
  lemma SentIsTheLast(s: Sys, k: Key, events: seq<Event>)
    requires Sound(s) && Holds(s, k) && k in s.flights && s.flights[k] == Decided(SentNow)
    requires forall g :: InTheAir(s, g) && g.row == k.row ==> !CouldSend(s.rows[k.row].order, g.attempt)
    ensures var recorded := Step(s, Record(k));
      && recorded.rows[k.row].status == WasSent
      && SendsOf(Run(recorded, events), k.row) == SendsOf(s, k.row)
  {
    SettledSendsNoMore(Step(s, Record(k)), events, k.row);
  }

  // ------------------------------------------------------------------ the retry budget

  /** However workers crash and interleave, a reminder row reaches its provider at most six times. */
  lemma AtMostSixSends(s: Sys, events: seq<Event>, id: Id)
    requires Sound(s) && s.sends == [] && id in s.rows && !s.rows[id].order.channel.Hub?
    ensures var e := Run(s, events);
      && (forall i, j :: 0 <= i < j < |e.sends| ==> e.sends[i] != e.sends[j])
      && |set k | k in e.sends && k.row == id| <= MAX_ATTEMPTS
  {
    RunSound(s, events);
    var e := Run(s, events);
    var mine := set k | k in e.sends && k.row == id;
    var all := set n: nat | 1 <= n <= MAX_ATTEMPTS :: Key(id, n);
    assert all == {Key(id, 1), Key(id, 2), Key(id, 3), Key(id, 4), Key(id, 5), Key(id, 6)};
    forall k | k in mine ensures k in all {}
    CardSubset(mine, all);
  }

  // ------------------------------------------------------------------ rows never affect each other

  function About(events: seq<Event>, id: Id): seq<Event> {
    if events == [] then []
    else (if RowOf(events[0]) == id then [events[0]] else []) + About(events[1..], id)
  }

  /** Everything the system holds about one row. */
  ghost predicate SameFor(s: Sys, t: Sys, id: Id) {
    && (id in s.rows <==> id in t.rows) && (id in s.rows ==> s.rows[id] == t.rows[id])
    && (forall n: nat :: (Key(id, n) in s.flights <==> Key(id, n) in t.flights)
                         && (Key(id, n) in s.flights ==> s.flights[Key(id, n)] == t.flights[Key(id, n)]))
  }

  lemma StepAbout(s: Sys, t: Sys, e: Event, id: Id)
    requires SameFor(s, t, id)
    ensures RowOf(e) == id ==> SameFor(Step(s, e), Step(t, e), id)
    ensures RowOf(e) != id ==> SameFor(Step(s, e), t, id)
  {}

  /**
   * Whatever happens to the other rows, of the same reminder or not, a row ends as if its own claims,
   * decisions and records had been the only ones: a push and an email never affect each other.
   */
  lemma {:induction false} RowsAreIndependent(s: Sys, t: Sys, events: seq<Event>, id: Id)
    requires SameFor(s, t, id)
    ensures SameFor(Run(s, events), Run(t, About(events, id)), id)
    decreases |events|
  {
    if events != [] {
      StepAbout(s, t, events[0], id);
      if RowOf(events[0]) == id {
        assert About(events, id)[1..] == About(events[1..], id);
        RowsAreIndependent(Step(s, events[0]), Step(t, events[0]), events[1..], id);
      } else {
        assert [] + About(events[1..], id) == About(events[1..], id);
        RowsAreIndependent(Step(s, events[0]), t, events[1..], id);
      }
    }
  }

  // ------------------------------------------------------------------ one batch

  datatype Claimed = Claimed(key: Key, order: Order)

  datatype Report = Report(claimed: nat, sent: nat, retrying: nat, failed: nat, skipped: nat, superseded: nat, lost: nat)

  /** How a row of the batch ended: its settlement, or lost when the record was refused. */
  datatype RowResult = Kept(settlement: Settlement) | Lost

  function Counted(r: Report, result: RowResult): Report {
    match result
    case Lost => r.(lost := r.lost + 1)
    case Kept(SentNow) => r.(sent := r.sent + 1)
    case Kept(TryAgain(_)) => r.(retrying := r.retrying + 1)
    case Kept(Failed) => r.(failed := r.failed + 1)
    case Kept(SkippedNow) => r.(skipped := r.skipped + 1)
    case Kept(Superseded) => r.(superseded := r.superseded + 1)
  }

  function Tally(results: seq<RowResult>, r: Report): Report {
    if results == [] then r else Tally(results[1..], Counted(r, results[0]))
  }

  /** Every row of a batch is counted once. */
  lemma {:induction false} TallyAddsUp(results: seq<RowResult>, r: Report)
    ensures var t := Tally(results, r);
      && t.claimed == r.claimed
      && t.sent + t.retrying + t.failed + t.skipped + t.superseded + t.lost
         == r.sent + r.retrying + r.failed + r.skipped + r.superseded + r.lost + |results|
  {
    if results != [] { TallyAddsUp(results[1..], Counted(r, results[0])); }
  }

  /** Answers asked for so far in this batch, and how often the contact service was asked. */
  class Asked {
    var answers: map<Id, Contact>
    var calls: nat

    constructor ()
      ensures answers == map[] && calls == 0
    {
      answers, calls := map[], 0;
    }

    /** One question per customer per batch; `current` is what the service would answer now. */
    method Lookup(customer: Id, current: Contact) returns (answer: Contact)
      requires calls == |answers|
      modifies this
      ensures calls == |answers| && customer in answers && answer == answers[customer]
      ensures answers == if customer in old(answers) then old(answers) else old(answers)[customer := current]
    {
      if customer in answers { return answers[customer]; }
      answers, calls := answers[customer := current], calls + 1;
      answer := current;
    }
  }

  /** Whether dispatching a row gets as far as asking who the customer is. */
  predicate Asks(o: Order, attempt: nat, f: Facts, now: int) {
    !o.channel.Hub? && Ready(f.visit, o, attempt, now).Go? && o.isReminder && f.configured
  }

  /** The question about the customer was asked for this row, and answered so. */
  ghost predicate AnsweredAt(claimed: seq<Claimed>, facts: seq<Facts>, now: int, customer: Id, answer: Contact, i: nat)
    requires |facts| == |claimed|
  {
    && i < |claimed| && claimed[i].order.customer == customer
    && Asks(claimed[i].order, claimed[i].key.attempt, facts[i], now) && facts[i].contact == answer
  }

  /**
   * A batch: each row's settlement is its own order, its own visit and its own customer's answer,
   * and nothing of the rows beside it; a customer with several rows is asked about once.
   */
  method RunBatch(claimed: seq<Claimed>, facts: seq<Facts>, now: int)
    returns (settled: seq<Settlement>, ghost answers: map<Id, Contact>, calls: nat)
    requires |facts| == |claimed|
    ensures |settled| == |claimed| && calls == |answers|
    ensures forall i :: 0 <= i < |claimed| ==>
      var c := claimed[i];
      && (Asks(c.order, c.key.attempt, facts[i], now) ==> c.order.customer in answers)
      && settled[i] == Dispatch(c.order, c.key.attempt,
           if Asks(c.order, c.key.attempt, facts[i], now) then facts[i].(contact := answers[c.order.customer]) else facts[i], now)
    ensures forall id :: id in answers ==> exists i: nat :: AnsweredAt(claimed, facts, now, id, answers[id], i)
  {
    var asked := new Asked();
    settled := [];
    for i := 0 to |claimed|
      invariant |settled| == i && asked.calls == |asked.answers|
      invariant forall k :: 0 <= k < i ==>
        var c := claimed[k];
        && (Asks(c.order, c.key.attempt, facts[k], now) ==> c.order.customer in asked.answers)
        && settled[k] == Dispatch(c.order, c.key.attempt,
             if Asks(c.order, c.key.attempt, facts[k], now) then facts[k].(contact := asked.answers[c.order.customer]) else facts[k], now)
      invariant forall id :: id in asked.answers ==>
        exists k: nat :: k < i && AnsweredAt(claimed, facts, now, id, asked.answers[id], k)
    {
      var c := claimed[i];
      var f := facts[i];
      if Asks(c.order, c.key.attempt, f, now) {
        ghost var before := asked.answers;
        var answer := asked.Lookup(c.order.customer, f.contact);
        assert c.order.customer !in before ==> AnsweredAt(claimed, facts, now, c.order.customer, f.contact, i);
        f := f.(contact := answer);
      }
      settled := settled + [Dispatch(c.order, c.key.attempt, f, now)];
    }
    answers, calls := asked.answers, asked.calls;
  }
}
