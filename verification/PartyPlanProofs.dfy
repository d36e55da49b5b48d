/** The planner seats a party exactly when the party can be seated, as far as the chairs it looks at go. */
module PartyPlanProofs {
  import opened Basics
  import opened Greedy
  import opened PartyPlan

  // ------------------------------------------------------------------ what a plan must be

  ghost predicate UniquePros(pros: seq<Pro>) {
    forall i, j :: 0 <= i < j < |pros| ==> pros[i].id != pros[j].id
  }

  /** Said of the roster itself, without pools and without the search. */
  ghost predicate ValidLane(q: Query, i: nat, l: Lane)
    requires i < |q.guests|
  {
    var g := q.guests[i];
    && l == Lane(i, l.staff, l.startMin, l.startMin + g.durationMin, g.station) && l.startMin in StartsFor(q, g)
    && exists s :: s in q.ctx.pros && s.id == l.staff && Suits(g, s) && IsFree(s.busy, l.startMin, l.endMin)
  }

  ghost predicate ValidPlan(q: Query, plan: seq<Lane>) {
    && |plan| == |q.guests| && (forall i :: 0 <= i < |plan| ==> ValidLane(q, i, plan[i]))
    && (forall i, j :: 0 <= i < j < |plan| ==> plan[i].staff != plan[j].staff)
    && Staggered(plan, q.maxStagger) && ChairsFit(q.ctx, LaneSet(plan))
  }

  // ------------------------------------------------------------------ choices

  lemma {:induction false} LanesFromExact(guest: nat, g: Guest, starts: seq<int>, pool: seq<Id>, l: Lane)
    ensures l in LanesFrom(guest, g, starts, pool) <==>
      l.startMin in starts && l.staff in pool && l == Lane(guest, l.staff, l.startMin, l.startMin + g.durationMin, g.station)
  {
    if starts != [] {
      LanesFromExact(guest, g, starts[1..], pool, l);
      if l.staff in pool {
        var i :| 0 <= i < |pool| && pool[i] == l.staff;
        assert LanesAt(guest, g, starts[0], pool)[i]
            == Lane(guest, l.staff, starts[0], starts[0] + g.durationMin, g.station);
      }
    }
  }

  lemma {:induction false} PoolExact(q: Query, g: Guest, pros: seq<Pro>, id: Id)
    ensures id in PoolAmong(q, g, pros) <==> exists s :: s in pros && s.id == id && Eligible(q, g, s)
  {
    if pros != [] {
      PoolExact(q, g, pros[1..], id);
      assert pros == [pros[0]] + pros[1..];
    }
  }

  lemma {:induction false} BusyOfIs(pros: seq<Pro>, s: Pro)
    requires UniquePros(pros) && s in pros
    ensures BusyOf(pros, s.id) == s.busy
  {
    var last := |pros| - 1;
    assert pros == pros[..last] + [pros[last]];
    if pros[last].id == s.id {
      var i :| 0 <= i < |pros| && pros[i] == s;
      assert i == last || pros[i].id != pros[last].id;
    } else {
      BusyOfIs(pros[..last], s);
    }
  }

  /** What the search may pick and finds free is exactly what the roster allows. */
  lemma ChoiceIsValid(q: Query, i: nat, l: Lane)
    requires i < |q.guests| && UniquePros(q.ctx.pros)
    ensures l in Choices(q, i) && IsFree(BusyOf(q.ctx.pros, l.staff), l.startMin, l.endMin) <==> ValidLane(q, i, l)
  {
    var g, pros := q.guests[i], q.ctx.pros;
    LanesFromExact(i, g, StartsFor(q, g), Pool(q, g), l);
    PoolExact(q, g, pros, l.staff);
    if l in Choices(q, i) {
      var s :| s in pros && s.id == l.staff && Eligible(q, g, s);
      BusyOfIs(pros, s);
    }
    if ValidLane(q, i, l) {
      var s :| s in pros && s.id == l.staff && Suits(g, s) && IsFree(s.busy, l.startMin, l.endMin);
      BusyOfIs(pros, s);
      assert Eligible(q, g, s);
    }
  }

  // ------------------------------------------------------------------ paths, lane by lane

  ghost predicate Step(q: Query, order: seq<nat>, out: seq<Lane>, k: nat)
    requires InParty(q, order)
  {
    k < |order| == |out| && out[k] in Choices(q, order[k]) && Fits(q, out[..k], out[k])
  }

  lemma {:induction false} PathSteps(q: Query, order: seq<nat>, done: nat, out: seq<Lane>)
    requires InParty(q, order) && done <= |order| == |out|
    ensures Path(q, order[done..], out[..done], out) <==> forall k :: done <= k < |order| ==> Step(q, order, out, k)
    decreases |order| - done
  {
    if done == |order| {
      assert out[..done] == out && order[done..] == [];
    } else {
      assert order[done..][1..] == order[done + 1..] && order[done..][0] == order[done];
      assert out[..done] + [out[done]] == out[..done + 1];
      assert Path(q, order[done..], out[..done], out)
        <==> Step(q, order, out, done) && Path(q, order[done + 1..], out[..done + 1], out);
      PathSteps(q, order, done + 1, out);
    }
  }

  lemma StepsArePath(q: Query, order: seq<nat>, out: seq<Lane>)
    requires InParty(q, order) && |out| == |order|
    ensures Path(q, order, [], out) <==> forall k :: 0 <= k < |order| ==> Step(q, order, out, k)
  {
    assert order[0..] == order && out[..0] == [];
    PathSteps(q, order, 0, out);
  }

  // ------------------------------------------------------------------ fewer lanes fit where more do

  lemma ChairsFitFewer(ctx: Context, some: set<Lane>, all: set<Lane>)
    requires some <= all && ChairsFit(ctx, all)
    ensures ChairsFit(ctx, some)
  {
    forall l | l in some
      ensures Room(ctx, some, l.station, l.startMin) && Room(ctx, some, l.station, l.endMin)
    {
      CardSubset(Mine(some, l.station, l.startMin), Mine(all, l.station, l.startMin));
      CardSubset(Mine(some, l.station, l.endMin), Mine(all, l.station, l.endMin));
    }
  }

  /** Everybody once. */
  ghost predicate Everyone(order: seq<nat>, n: nat) {
    && |order| == n && (forall k :: 0 <= k < n ==> order[k] < n)
    && (forall j, k :: 0 <= j < k < n ==> order[j] != order[k])
    && (forall i: nat :: i < n ==> i in order)
  }

  ghost predicate Seats(lanes: seq<Lane>, guest: nat) {
    exists k :: 0 <= k < |lanes| && lanes[k].guest == guest
  }

  ghost predicate SeatsAll(lanes: seq<Lane>, n: nat) {
    forall i: nat :: i < n ==> Seats(lanes, i)
  }

  function LaneOf(lanes: seq<Lane>, guest: nat): (l: Lane)
    requires Seats(lanes, guest)
    ensures l in lanes && l.guest == guest
  {
    if lanes[0].guest == guest then lanes[0]
    else
      assert Seats(lanes[1..], guest) by {
        var k :| 0 <= k < |lanes| && lanes[k].guest == guest;
        assert lanes[1..][k - 1] == lanes[k];
      }
      LaneOf(lanes[1..], guest)
  }

  /** Back into the party's own order. */
  function InPartyOrder(lanes: seq<Lane>, n: nat): seq<Lane>
    requires SeatsAll(lanes, n)
  {
    seq(n, i requires 0 <= i < n => LaneOf(lanes, i))
  }

  // ------------------------------------------------------------------ sound

  /** What a full way down the tree says of its lanes, in whatever order they stand. */
  ghost predicate Agree(q: Query, out: seq<Lane>) {
    && (forall l :: l in out ==> l.guest < |q.guests| && ValidLane(q, l.guest, l))
    && (forall l, m :: l in out && m in out && l.guest != m.guest ==> l.staff != m.staff)
    && (forall l, m :: l in out && m in out && l.guest == m.guest ==> l == m)
    && (forall l, m :: l in out && m in out ==> l.startMin - m.startMin <= q.maxStagger)
    && ChairsFit(q.ctx, LaneSet(out))
  }

  lemma StepLane(q: Query, order: seq<nat>, out: seq<Lane>, k: nat)
    requires InParty(q, order) && UniquePros(q.ctx.pros) && Step(q, order, out, k)
    ensures out[k].guest == order[k] && ValidLane(q, order[k], out[k])
    ensures forall j :: 0 <= j < k ==> out[j].staff != out[k].staff
  {
    ChoiceIsValid(q, order[k], out[k]);
    forall j | 0 <= j < k ensures out[j].staff != out[k].staff { assert out[..k][j] == out[j]; }
  }

  lemma PathAgrees(q: Query, order: seq<nat>, out: seq<Lane>)
    requires InParty(q, order) && Everyone(order, |q.guests|) && q.guests != [] && UniquePros(q.ctx.pros)
    requires |out| == |order| && forall k :: 0 <= k < |order| ==> Step(q, order, out, k)
    ensures Agree(q, out) && SeatsAll(out, |q.guests|)
  {
    var n := |out|;
    forall k | 0 <= k < n
      ensures out[k].guest == order[k] && ValidLane(q, order[k], out[k])
      ensures forall j :: 0 <= j < k ==> out[j].staff != out[k].staff
    {
      assert Step(q, order, out, k);
      StepLane(q, order, out, k);
    }
    assert Step(q, order, out, n - 1) && out[..n - 1] + [out[n - 1]] == out;
    forall i: nat | i < |q.guests| ensures Seats(out, i) {
      assert i in order;
      var k :| 0 <= k < |order| && order[k] == i;
      assert out[k].guest == i;
    }
  }

  lemma AgreeingPlan(q: Query, out: seq<Lane>)
    requires Agree(q, out) && SeatsAll(out, |q.guests|)
    ensures ValidPlan(q, InPartyOrder(out, |q.guests|))
  {
    var plan := InPartyOrder(out, |q.guests|);
    forall i | 0 <= i < |plan| ensures plan[i] in out && plan[i].guest == i {}
    forall l | l in out ensures l in plan { assert plan[l.guest] == l; }
    assert LaneSet(plan) == LaneSet(out);
  }

  /** What the search finds, put back in order, is a valid plan. */
  lemma FoundIsValid(q: Query, order: seq<nat>, out: seq<Lane>)
    requires InParty(q, order) && Everyone(order, |q.guests|) && q.guests != [] && UniquePros(q.ctx.pros)
    requires Search(q, order, []) == Some(out)
    ensures SeatsAll(out, |q.guests|) && ValidPlan(q, InPartyOrder(out, |q.guests|))
  {
    SearchSound(q, order, []);
    PathExtends(q, order, [], out);
    StepsArePath(q, order, out);
    PathAgrees(q, order, out);
    AgreeingPlan(q, out);
  }

  // ------------------------------------------------------------------ complete

  lemma PlanSteps(q: Query, order: seq<nat>, plan: seq<Lane>, out: seq<Lane>, k: nat)
    requires InParty(q, order) && Everyone(order, |q.guests|) && UniquePros(q.ctx.pros) && ValidPlan(q, plan)
    requires |out| == |order| && (forall j :: 0 <= j < |out| ==> out[j] == plan[order[j]]) && k < |order|
    ensures Step(q, order, out, k)
  {
    var prefix := out[..k] + [out[k]];
    ChoiceIsValid(q, order[k], out[k]);
    forall j | 0 <= j <= k ensures prefix[j] == plan[order[j]] {}
    assert LaneSet(prefix) <= LaneSet(plan);
    ChairsFitFewer(q.ctx, LaneSet(prefix), LaneSet(plan));
    forall j | 0 <= j < k ensures out[..k][j].staff != out[k].staff { assert order[j] != order[k]; }
  }

  /** Whatever the order it tries the guests in, the search misses no plan. */
  lemma ValidIsFound(q: Query, order: seq<nat>, plan: seq<Lane>)
    requires InParty(q, order) && Everyone(order, |q.guests|) && UniquePros(q.ctx.pros) && ValidPlan(q, plan)
    ensures Search(q, order, []).Some?
  {
    var out := seq(|order|, k requires 0 <= k < |order| => plan[order[k]]);
    forall k: nat | k < |order| ensures Step(q, order, out, k) { PlanSteps(q, order, plan, out, k); }
    StepsArePath(q, order, out);
    SearchComplete(q, order, [], out);
  }
}
