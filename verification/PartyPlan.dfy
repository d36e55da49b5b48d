/**
 * The party planner: a professional of their own for every guest, a start each, and chairs for all of
 * them at once, found by a backtracking search over the guests, the hardest to place first.
 */
module PartyPlan {
  import opened Basics
  import opened Greedy

  const SLOT_MIN := 5

  datatype Span = Span(fromMin: int, toMin: int)

  datatype Pro = Pro(id: Id, skills: set<string>, atCap: bool, busy: seq<Span>)

  datatype Taken = Taken(station: string, fromMin: int, toMin: int)

  datatype Context = Context(pros: seq<Pro>, counts: map<string, nat>, occupied: seq<Taken>)

  datatype Guest = Guest(skills: set<string>, durationMin: nat, station: string, preferred: Option<Id>)

  /** A guest is known by their place in the party. */
  datatype Lane = Lane(guest: nat, staff: Id, startMin: int, endMin: int, station: string)

  datatype Query = Query(
    guests: seq<Guest>, startMin: int, finishTogether: bool, finishWindow: nat, maxStagger: nat, ctx: Context)

  // ------------------------------------------------------------------ where a lane may go

  function Longest(guests: seq<Guest>): (n: nat)
    ensures forall i :: 0 <= i < |guests| ==> guests[i].durationMin <= n
    ensures guests != [] ==> exists i :: 0 <= i < |guests| && guests[i].durationMin == n
  {
    if guests == [] then 0
    else
      var rest := Longest(guests[1..]);
      assert forall i :: 0 < i < |guests| ==> guests[i] == guests[1..][i - 1];
      assert |guests| > 1 ==> exists i :: 0 <= i < |guests[1..]| && guests[1..][i].durationMin == rest;
      assert guests[0] in guests;
      if guests[0].durationMin >= rest then guests[0].durationMin else rest
  }

  function StartFor(q: Query, g: Guest): int {
    if q.finishTogether then q.startMin + Longest(q.guests) - g.durationMin else q.startMin
  }

  /** The anchor first; a finish window lets a lane end earlier, five minutes at a time, never later. */
  function StartsFor(q: Query, g: Guest): seq<int> {
    if !q.finishTogether || q.finishWindow == 0 then [StartFor(q, g)]
    else seq(q.finishWindow / SLOT_MIN + 1, k => StartFor(q, g) - k * SLOT_MIN)
  }

  predicate IsFree(busy: seq<Span>, fromMin: int, toMin: int) {
    forall i :: 0 <= i < |busy| ==> !(busy[i].fromMin < toMin && fromMin < busy[i].toMin)
  }

  predicate Suits(g: Guest, s: Pro) {
    !s.atCap && g.skills <= s.skills && (g.preferred.None? || g.preferred.value == s.id)
  }

  predicate Eligible(q: Query, g: Guest, s: Pro) {
    Suits(g, s) && exists start :: start in StartsFor(q, g) && IsFree(s.busy, start, start + g.durationMin)
  }

  function PoolAmong(q: Query, g: Guest, pros: seq<Pro>): seq<Id> {
    if pros == [] then []
    else (if Eligible(q, g, pros[0]) then [pros[0].id] else []) + PoolAmong(q, g, pros[1..])
  }

  function Pool(q: Query, g: Guest): seq<Id> {
    PoolAmong(q, g, q.ctx.pros)
  }

  /** As a map built from the roster reads it: the last of two equal ids. */
  function BusyOf(pros: seq<Pro>, staff: Id): seq<Span> {
    if pros == [] then []
    else if pros[|pros| - 1].id == staff then pros[|pros| - 1].busy
    else BusyOf(pros[..|pros| - 1], staff)
  }

  function LanesAt(guest: nat, g: Guest, start: int, pool: seq<Id>): seq<Lane> {
    seq(|pool|, i requires 0 <= i < |pool| => Lane(guest, pool[i], start, start + g.durationMin, g.station))
  }

  function LanesFrom(guest: nat, g: Guest, starts: seq<int>, pool: seq<Id>): seq<Lane> {
    if starts == [] then [] else LanesAt(guest, g, starts[0], pool) + LanesFrom(guest, g, starts[1..], pool)
  }

  /** Starts outside, professionals inside, in the order the search tries them. */
  function Choices(q: Query, i: nat): seq<Lane>
    requires i < |q.guests|
  {
    LanesFrom(i, q.guests[i], StartsFor(q, q.guests[i]), Pool(q, q.guests[i]))
  }

  // ------------------------------------------------------------------ chairs

  function Mine(lanes: set<Lane>, station: string, at: int): set<Lane> {
    set l | l in lanes && l.station == station && l.startMin <= at < l.endMin
  }

  function Theirs(occupied: seq<Taken>, station: string, at: int): nat {
    if occupied == [] then 0
    else (if occupied[0].station == station && occupied[0].fromMin <= at < occupied[0].toMin then 1 else 0)
         + Theirs(occupied[1..], station, at)
  }

  function CapOf(ctx: Context, station: string): nat {
    if station in ctx.counts then ctx.counts[station] else 0
  }

  predicate Room(ctx: Context, lanes: set<Lane>, station: string, at: int) {
    |Mine(lanes, station, at)| + Theirs(ctx.occupied, station, at) <= CapOf(ctx, station)
  }

  /** Counted at the ends of the lanes, and nowhere else. */
  predicate ChairsFit(ctx: Context, lanes: set<Lane>) {
    forall l :: l in lanes ==> Room(ctx, lanes, l.station, l.startMin) && Room(ctx, lanes, l.station, l.endMin)
  }

  function LaneSet(lanes: seq<Lane>): set<Lane> {
    set l | l in lanes
  }

  // ------------------------------------------------------------------ the search

  predicate Staggered(lanes: seq<Lane>, most: nat) {
    forall j, k :: 0 <= j < |lanes| && 0 <= k < |lanes| ==> lanes[j].startMin - lanes[k].startMin <= most
  }

  predicate StaffTaken(lanes: seq<Lane>, staff: Id) {
    exists k :: 0 <= k < |lanes| && lanes[k].staff == staff
  }

  predicate Fits(q: Query, lanes: seq<Lane>, lane: Lane) {
    && Staggered(lanes + [lane], q.maxStagger) && !StaffTaken(lanes, lane.staff)
    && IsFree(BusyOf(q.ctx.pros, lane.staff), lane.startMin, lane.endMin)
    && ChairsFit(q.ctx, LaneSet(lanes + [lane]))
  }

  predicate InParty(q: Query, order: seq<nat>) {
    forall k :: 0 <= k < |order| ==> order[k] < |q.guests|
  }

  function Search(q: Query, order: seq<nat>, lanes: seq<Lane>): Option<seq<Lane>>
    requires InParty(q, order)
    decreases |order|, 1, 0
  {
    if order == [] then Some(lanes) else Try(q, order, lanes, Choices(q, order[0]))
  }

  function Try(q: Query, order: seq<nat>, lanes: seq<Lane>, choices: seq<Lane>): Option<seq<Lane>>
    requires InParty(q, order) && order != []
    decreases |order|, 0, |choices|
  {
    if choices == [] then None
    else if Fits(q, lanes, choices[0]) then
      var deeper := Search(q, order[1..], lanes + [choices[0]]);
      if deeper.Some? then deeper else Try(q, order, lanes, choices[1..])
    else Try(q, order, lanes, choices[1..])
  }

  /** The search as the planner runs it: a lane is pushed, and popped again when nothing fits behind it. */
  class Planner {
    var lanes: seq<Lane>
    const q: Query

    constructor (q: Query)
      ensures lanes == [] && this.q == q
    {
      this.q := q;
      lanes := [];
    }

    method Place(order: seq<nat>) returns (ok: bool)
      requires InParty(q, order)
      modifies this`lanes
      ensures var found := Search(q, order, old(lanes));
        ok == found.Some? && lanes == if found.Some? then found.value else old(lanes)
      decreases |order|
    {
      if order == [] { return true; }
      var choices := Choices(q, order[0]);
      assert choices[0..] == choices;
      for c := 0 to |choices|
        invariant lanes == old(lanes)
        invariant Try(q, order, lanes, choices[c..]) == Search(q, order, lanes)
      {
        assert choices[c..][1..] == choices[c + 1..];
        if Fits(q, lanes, choices[c]) {
          lanes := lanes + [choices[c]];
          var seated := Place(order[1..]);
          if seated { return true; }
          assert lanes[..|lanes| - 1] == old(lanes);
          lanes := lanes[..|lanes| - 1];
        }
      }
      ok := false;
    }
  }

  /** A way down the tree: each lane is one of its guest's choices and fits those above it. */
  ghost predicate Path(q: Query, order: seq<nat>, lanes: seq<Lane>, out: seq<Lane>)
    requires InParty(q, order)
    decreases |order|
  {
    if order == [] then out == lanes
    else
      && |out| > |lanes| && out[|lanes|] in Choices(q, order[0]) && Fits(q, lanes, out[|lanes|])
      && Path(q, order[1..], lanes + [out[|lanes|]], out)
  }

  lemma {:induction false} SearchSound(q: Query, order: seq<nat>, lanes: seq<Lane>)
    requires InParty(q, order) && Search(q, order, lanes).Some?
    ensures Path(q, order, lanes, Search(q, order, lanes).value)
    decreases |order|, 1, 0
  {
    if order != [] { TrySound(q, order, lanes, Choices(q, order[0])); }
  }

  lemma {:induction false} PathExtends(q: Query, order: seq<nat>, lanes: seq<Lane>, out: seq<Lane>)
    requires InParty(q, order) && Path(q, order, lanes, out)
    ensures lanes <= out && |out| == |lanes| + |order|
    decreases |order|
  {
    if order != [] { PathExtends(q, order[1..], lanes + [out[|lanes|]], out); }
  }

  lemma {:induction false} TrySound(q: Query, order: seq<nat>, lanes: seq<Lane>, choices: seq<Lane>)
    requires InParty(q, order) && order != [] && Try(q, order, lanes, choices).Some?
    requires forall c :: c in choices ==> c in Choices(q, order[0])
    ensures Path(q, order, lanes, Try(q, order, lanes, choices).value)
    decreases |order|, 0, |choices|
  {
    var deeper := if Fits(q, lanes, choices[0]) then Search(q, order[1..], lanes + [choices[0]]) else None;
    if deeper.Some? {
      SearchSound(q, order[1..], lanes + [choices[0]]);
      PathExtends(q, order[1..], lanes + [choices[0]], deeper.value);
      assert deeper.value[|lanes|] == (lanes + [choices[0]])[|lanes|] == choices[0];
    } else {
      TrySound(q, order, lanes, choices[1..]);
    }
  }

  lemma {:induction false} SearchComplete(q: Query, order: seq<nat>, lanes: seq<Lane>, out: seq<Lane>)
    requires InParty(q, order) && Path(q, order, lanes, out)
    ensures Search(q, order, lanes).Some?
    decreases |order|, 1, 0
  {
    if order != [] { TryComplete(q, order, lanes, Choices(q, order[0]), out); }
  }

  lemma {:induction false} TryComplete(q: Query, order: seq<nat>, lanes: seq<Lane>, choices: seq<Lane>, out: seq<Lane>)
    requires InParty(q, order) && order != [] && Path(q, order, lanes, out) && out[|lanes|] in choices
    ensures Try(q, order, lanes, choices).Some?
    decreases |order|, 0, |choices|
  {
    if choices[0] == out[|lanes|] {
      SearchComplete(q, order[1..], lanes + [choices[0]], out);
    } else {
      TryComplete(q, order, lanes, choices[1..], out);
    }
  }
}
