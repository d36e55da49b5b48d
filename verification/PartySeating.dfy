/**
 * The planner as a whole: its quick refusals, its search, and what its answer is worth. It says yes
 * exactly when some plan meets its own rules; but its chair rule looks at the ends of its lanes only.
 */
module PartySeating {
  import opened Basics
  import opened Greedy
  import opened PartyPlan
  import opened PartyPlanProofs

  datatype Plan =
    | TooFew | NobodyFor(guest: nat) | TooFewPros | TooSpread | NoArrangement | Planned(lanes: seq<Lane>)

  // ------------------------------------------------------------------ the order of the search

  /** Smallest pool first, then the longest service, then the place in the party. */
  predicate Scarcer(q: Query, a: nat, b: nat) {
    if a >= |q.guests| || b >= |q.guests| then a <= b
    else
      var poolA, poolB := |Pool(q, q.guests[a])|, |Pool(q, q.guests[b])|;
      var longA, longB := q.guests[a].durationMin, q.guests[b].durationMin;
      poolA < poolB || (poolA == poolB && (longA > longB || (longA == longB && a <= b)))
  }

  function Order(q: Query): seq<nat> {
    Sort(Indices(|q.guests|), (a, b) => Scarcer(q, a, b))
  }

  lemma OrderIsEveryone(q: Query)
    ensures Everyone(Order(q), |q.guests|)
  {
    var n, order := |q.guests|, Order(q);
    SortKeeps(Indices(n), (a, b) => Scarcer(q, a, b));
    assert multiset(order) == multiset(Indices(n));
    assert |multiset(order)| == |order| && |multiset(Indices(n))| == n;
    forall x: nat ensures x in order <==> x < n {
      IndicesOnce(n, x);
      assert x in order <==> x in multiset(order);
    }
    forall k | 0 <= k < n ensures order[k] < n { assert order[k] in order; }
    forall j, k | 0 <= j < k < n ensures order[j] != order[k] {
      if order[j] == order[k] {
        TwiceInMultiset(order, j, k);
        IndicesOnce(n, order[j]);
      }
    }
  }

  /** Fewest professionals first; of those the longest service; of those the first of the party. */
  ghost predicate HarderOrEarlier(q: Query, a: nat, b: nat)
    requires a < |q.guests| && b < |q.guests|
  {
    var g, h := q.guests[a], q.guests[b];
    && |Pool(q, g)| <= |Pool(q, h)|
    && (|Pool(q, g)| == |Pool(q, h)| ==> g.durationMin >= h.durationMin)
    && (|Pool(q, g)| == |Pool(q, h)| && g.durationMin == h.durationMin ==> a < b)
  }

  lemma HardestFirst(q: Query)
    ensures Everyone(Order(q), |q.guests|)
    ensures forall j, k :: 0 <= j < k < |q.guests| ==> HarderOrEarlier(q, Order(q)[j], Order(q)[k])
  {
    OrderIsEveryone(q);
    SortSorts(Indices(|q.guests|), (a, b) => Scarcer(q, a, b));
    forall j, k | 0 <= j < k < |q.guests| ensures HarderOrEarlier(q, Order(q)[j], Order(q)[k]) {
      assert Scarcer(q, Order(q)[j], Order(q)[k]);
    }
  }

  // ------------------------------------------------------------------ the quick refusals

  function FirstEmptyPool(q: Query, i: nat): Option<nat>
    requires i <= |q.guests|
    decreases |q.guests| - i
  {
    if i == |q.guests| then None
    else if Pool(q, q.guests[i]) == [] then Some(i)
    else FirstEmptyPool(q, i + 1)
  }

  function Union(q: Query): set<Id> {
    set i, id | 0 <= i < |q.guests| && id in Pool(q, q.guests[i]) :: id
  }

  function Shortest(guests: seq<Guest>): (n: nat)
    requires guests != []
    ensures exists i :: 0 <= i < |guests| && guests[i].durationMin == n
    ensures forall i :: 0 <= i < |guests| ==> n <= guests[i].durationMin
  {
    if |guests| == 1 then guests[0].durationMin
    else
      var rest := Shortest(guests[1..]);
      assert forall i :: 0 < i < |guests| ==> guests[i] == guests[1..][i - 1];
      if guests[0].durationMin <= rest then guests[0].durationMin else rest
  }

  /** The least stagger any plan of the party could have, as reckoned before the search. */
  function BestStagger(q: Query): int
    requires q.guests != []
  {
    var slack := Longest(q.guests) - Shortest(q.guests) - q.finishWindow;
    if slack > 0 then slack else 0
  }

  function PlanParty(q: Query): Plan {
    if |q.guests| < 2 then TooFew
    else if FirstEmptyPool(q, 0).Some? then NobodyFor(FirstEmptyPool(q, 0).value)
    else if |Union(q)| < |q.guests| then TooFewPros
    else if q.finishTogether && BestStagger(q) > q.maxStagger then TooSpread
    else
      OrderIsEveryone(q);
      var found := Search(q, Order(q), []);
      if found.None? then NoArrangement
      else
        FoundSeatsAll(q, found.value);
        Planned(InPartyOrder(found.value, |q.guests|))
  }

  lemma FoundSeatsAll(q: Query, out: seq<Lane>)
    requires |q.guests| >= 2 && Everyone(Order(q), |q.guests|) && Search(q, Order(q), []) == Some(out)
    ensures SeatsAll(out, |q.guests|)
  {
    var order := Order(q);
    SearchSound(q, order, []);
    PathExtends(q, order, [], out);
    StepsArePath(q, order, out);
    forall i: nat | i < |q.guests| ensures Seats(out, i) {
      assert i in order;
      var k :| 0 <= k < |order| && order[k] == i;
      assert Step(q, order, out, k);
      LanesFromExact(i, q.guests[i], StartsFor(q, q.guests[i]), Pool(q, q.guests[i]), out[k]);
    }
  }

  /** As it runs, over the search that pushes and pops. */
  method RunPlanner(q: Query) returns (plan: Plan)
    ensures plan == PlanParty(q)
  {
    if |q.guests| < 2 { return TooFew; }
    var empty := FirstEmptyPool(q, 0);
    if empty.Some? { return NobodyFor(empty.value); }
    if |Union(q)| < |q.guests| { return TooFewPros; }
    if q.finishTogether && BestStagger(q) > q.maxStagger { return TooSpread; }
    OrderIsEveryone(q);
    var planner := new Planner(q);
    var ok := planner.Place(Order(q));
    if !ok { return NoArrangement; }
    FoundSeatsAll(q, planner.lanes);
    plan := Planned(InPartyOrder(planner.lanes, |q.guests|));
  }

  // ------------------------------------------------------------------ the refusals refuse nothing that could be done

  lemma {:induction false} FirstEmptyPoolExact(q: Query, i: nat)
    requires i <= |q.guests|
    ensures FirstEmptyPool(q, i).Some? ==>
      FirstEmptyPool(q, i).value < |q.guests| && Pool(q, q.guests[FirstEmptyPool(q, i).value]) == []
    decreases |q.guests| - i
  {
    if i < |q.guests| { FirstEmptyPoolExact(q, i + 1); }
  }

  lemma StaffInPool(q: Query, plan: seq<Lane>, i: nat)
    requires ValidPlan(q, plan) && UniquePros(q.ctx.pros) && i < |plan|
    ensures plan[i].staff in Pool(q, q.guests[i])
  {
    ChoiceIsValid(q, i, plan[i]);
    LanesFromExact(i, q.guests[i], StartsFor(q, q.guests[i]), Pool(q, q.guests[i]), plan[i]);
  }

  function StaffOf(plan: seq<Lane>): set<Id> {
    if plan == [] then {} else StaffOf(plan[..|plan| - 1]) + {plan[|plan| - 1].staff}
  }

  lemma {:induction false} StaffOfExact(plan: seq<Lane>)
    requires forall i, j :: 0 <= i < j < |plan| ==> plan[i].staff != plan[j].staff
    ensures |StaffOf(plan)| == |plan|
    ensures forall id :: id in StaffOf(plan) ==> exists i :: 0 <= i < |plan| && plan[i].staff == id
  {
    if plan != [] {
      var last := |plan| - 1;
      StaffOfExact(plan[..last]);
      assert plan[last].staff !in StaffOf(plan[..last]);
    }
  }

  lemma EnoughPros(q: Query, plan: seq<Lane>)
    requires ValidPlan(q, plan) && UniquePros(q.ctx.pros)
    ensures |Union(q)| >= |q.guests|
  {
    StaffOfExact(plan);
    forall id | id in StaffOf(plan) ensures id in Union(q) {
      var i :| 0 <= i < |plan| && plan[i].staff == id;
      StaffInPool(q, plan, i);
    }
    CardSubset(StaffOf(plan), Union(q));
  }

  lemma StartWithin(q: Query, g: Guest, start: int)
    requires start in StartsFor(q, g)
    ensures StartFor(q, g) - q.finishWindow <= start <= StartFor(q, g)
  {
    var k :| 0 <= k < |StartsFor(q, g)| && StartsFor(q, g)[k] == start;
  }

  lemma NotTooSpread(q: Query, plan: seq<Lane>)
    requires ValidPlan(q, plan) && q.finishTogether && q.guests != []
    ensures BestStagger(q) <= q.maxStagger
  {
    var i :| 0 <= i < |q.guests| && q.guests[i].durationMin == Longest(q.guests);
    var j :| 0 <= j < |q.guests| && q.guests[j].durationMin == Shortest(q.guests);
    assert ValidLane(q, i, plan[i]) && ValidLane(q, j, plan[j]);
    StartWithin(q, q.guests[i], plan[i].startMin);
    StartWithin(q, q.guests[j], plan[j].startMin);
  }

  /** The planner seats a party if and only if some plan would do, and what it answers is one. */
  lemma PlannedIffPossible(q: Query)
    requires UniquePros(q.ctx.pros)
    ensures PlanParty(q).Planned? <==> |q.guests| >= 2 && exists plan :: ValidPlan(q, plan)
    ensures PlanParty(q).Planned? ==> ValidPlan(q, PlanParty(q).lanes)
  {
    OrderIsEveryone(q);
    if PlanParty(q).Planned? {
      FoundIsValid(q, Order(q), Search(q, Order(q), []).value);
    }
    if plan :| |q.guests| >= 2 && ValidPlan(q, plan) {
      EnoughPros(q, plan);
      FirstEmptyPoolExact(q, 0);
      if FirstEmptyPool(q, 0).Some? { StaffInPool(q, plan, FirstEmptyPool(q, 0).value); }
      if q.finishTogether { NotTooSpread(q, plan); }
      ValidIsFound(q, Order(q), plan);
    }
  }

  // ------------------------------------------------------------------ what the chair rule is worth

  /** At every minute any lane is in a chair, the branch has that many. */
  ghost predicate SeatedAllAlong(ctx: Context, lanes: set<Lane>) {
    forall station: string, at: int :: Mine(lanes, station, at) != {} ==> Room(ctx, lanes, station, at)
  }

  /** There is room for every visit of the diary that sits down while a lane of its station is in progress. */
  ghost predicate LateSittersFit(ctx: Context, lanes: set<Lane>) {
    forall l, i :: l in lanes && 0 <= i < |ctx.occupied| && ctx.occupied[i].station == l.station
                   && l.startMin < ctx.occupied[i].fromMin < l.endMin
                   ==> Room(ctx, lanes, l.station, ctx.occupied[i].fromMin)
  }

  lemma {:induction false} TheirsBefore(occupied: seq<Taken>, station: string, at: int)
    requires forall i :: 0 <= i < |occupied| && occupied[i].station == station ==> occupied[i].fromMin != at
    ensures Theirs(occupied, station, at) <= Theirs(occupied, station, at - 1)
  {
    if occupied != [] { TheirsBefore(occupied[1..], station, at); }
  }

  /** A guest of the party sits down there at that minute. */
  ghost predicate LaneBegins(lanes: set<Lane>, station: string, at: int) {
    exists l :: l in lanes && l.station == station && l.startMin == at
  }

  ghost predicate VisitBegins(ctx: Context, station: string, at: int) {
    exists i :: 0 <= i < |ctx.occupied| && ctx.occupied[i].station == station && ctx.occupied[i].fromMin == at
  }

  /** Where nobody sits down, no more chairs are in use than a minute before. */
  lemma NobodySitsDown(ctx: Context, lanes: set<Lane>, station: string, at: int)
    requires Room(ctx, lanes, station, at - 1) && !LaneBegins(lanes, station, at) && !VisitBegins(ctx, station, at)
    ensures Room(ctx, lanes, station, at)
  {
    TheirsBefore(ctx.occupied, station, at);
    CardSubset(Mine(lanes, station, at), Mine(lanes, station, at - 1));
  }

  lemma RoomAtBegin(ctx: Context, lanes: set<Lane>, station: string, at: int)
    requires ChairsFit(ctx, lanes) && LaneBegins(lanes, station, at)
    ensures Room(ctx, lanes, station, at)
  {
    var l :| l in lanes && l.station == station && l.startMin == at;
    assert Room(ctx, lanes, l.station, l.startMin);
  }

  lemma RoomAtVisit(ctx: Context, lanes: set<Lane>, l: Lane, at: int)
    requires LateSittersFit(ctx, lanes) && l in lanes && l.startMin < at < l.endMin && VisitBegins(ctx, l.station, at)
    ensures Room(ctx, lanes, l.station, at)
  {
    var i :| 0 <= i < |ctx.occupied| && ctx.occupied[i].station == l.station && ctx.occupied[i].fromMin == at;
    assert Room(ctx, lanes, l.station, ctx.occupied[i].fromMin);
  }

  lemma {:induction false} RoomUpTo(ctx: Context, lanes: set<Lane>, l: Lane, at: int)
    requires ChairsFit(ctx, lanes) && LateSittersFit(ctx, lanes) && l in lanes && l.startMin <= at < l.endMin
    ensures Room(ctx, lanes, l.station, at)
    decreases at - l.startMin
  {
    if LaneBegins(lanes, l.station, at) {
      RoomAtBegin(ctx, lanes, l.station, at);
    } else {
      assert l.startMin < at;
      if VisitBegins(ctx, l.station, at) {
        RoomAtVisit(ctx, lanes, l, at);
      } else {
        RoomUpTo(ctx, lanes, l, at - 1);
        NobodySitsDown(ctx, lanes, l.station, at);
      }
    }
  }

  /** A plan that passes is seated at every minute if and only if nobody sits down beside it unnoticed. */
  lemma ChairRuleExact(ctx: Context, lanes: set<Lane>)
    requires ChairsFit(ctx, lanes)
    ensures SeatedAllAlong(ctx, lanes) <==> LateSittersFit(ctx, lanes)
  {
    if SeatedAllAlong(ctx, lanes) {
      forall l, i | l in lanes && 0 <= i < |ctx.occupied| && ctx.occupied[i].station == l.station
                    && l.startMin < ctx.occupied[i].fromMin < l.endMin
        ensures Room(ctx, lanes, l.station, ctx.occupied[i].fromMin)
      {
        assert l in Mine(lanes, l.station, ctx.occupied[i].fromMin);
      }
    }
    if LateSittersFit(ctx, lanes) {
      forall station: string, at: int | Mine(lanes, station, at) != {} ensures Room(ctx, lanes, station, at) {
        var l :| l in Mine(lanes, station, at);
        RoomUpTo(ctx, lanes, l, at);
      }
    }
  }

  // ------------------------------------------------------------------ and what it misses

  /** Two guests for an hour at ten, two chairs, and a visit that takes one of them at half past. */
  function HalfPast(): Query {
    var guest := Guest({}, 60, "chair", None);
    Query([guest, guest], 600, false, 0, 720,
          Context([Pro(1, {}, false, []), Pro(2, {}, false, [])], map["chair" := 2], [Taken("chair", 630, 660)]))
  }

  function HalfPastPlan(): seq<Lane> {
    [Lane(0, 1, 600, 660, "chair"), Lane(1, 2, 600, 660, "chair")]
  }

  lemma HalfPastValid()
    ensures ValidPlan(HalfPast(), HalfPastPlan())
  {
    var q, plan := HalfPast(), HalfPastPlan();
    assert q.ctx.pros[0] in q.ctx.pros && q.ctx.pros[1] in q.ctx.pros;
    HalfPastChairs(LaneSet(plan));
  }

  lemma HalfPastChairs(lanes: set<Lane>)
    requires lanes == LaneSet(HalfPastPlan())
    ensures ChairsFit(HalfPast().ctx, lanes)
  {
    var first, second := HalfPastPlan()[0], HalfPastPlan()[1];
    assert lanes == {first, second};
    assert Mine(lanes, "chair", 600) == {first, second} && Mine(lanes, "chair", 660) == {};
    HalfPastTheirs();
  }

  lemma HalfPastTheirs()
    ensures Theirs(HalfPast().ctx.occupied, "chair", 600) == Theirs(HalfPast().ctx.occupied, "chair", 660) == 0
    ensures Theirs(HalfPast().ctx.occupied, "chair", 630) == 1
  {
    assert HalfPast().ctx.occupied[1..] == [];
  }

  lemma HalfPastCrowded(plan: seq<Lane>)
    requires ValidPlan(HalfPast(), plan)
    ensures !SeatedAllAlong(HalfPast().ctx, LaneSet(plan))
  {
    assert ValidLane(HalfPast(), 0, plan[0]) && ValidLane(HalfPast(), 1, plan[1]);
    var two, here := {plan[0], plan[1]}, Mine(LaneSet(plan), "chair", 630);
    assert plan[0] in plan && plan[1] in plan;
    assert two <= here;
    CardSubset(two, here);
    HalfPastTheirs();
    assert !Room(HalfPast().ctx, LaneSet(plan), "chair", 630);
  }

  /** Any plan the planner makes of it puts three into two chairs at half past. */
  lemma PlanOversells()
    ensures PlanParty(HalfPast()).Planned?
    ensures !SeatedAllAlong(HalfPast().ctx, LaneSet(PlanParty(HalfPast()).lanes))
  {
    HalfPastValid();
    PlannedIffPossible(HalfPast());
    HalfPastCrowded(PlanParty(HalfPast()).lanes);
  }
}
