/**
 * What a planned party is promised, said of the guests, the roster and the clock: everyone leaves
 * together or arrives together, is served by somebody of their own who can and is free, and finds a
 * chair when they sit down and when they get up.
 */
module PartyRules {
  import opened Basics
  import opened PartyPlan
  import opened PartyPlanProofs
  import opened PartySeating

  /** The longest service of the party is `most` minutes. */
  ghost predicate LongestIs(guests: seq<Guest>, most: nat) {
    (forall i :: 0 <= i < |guests| ==> guests[i].durationMin <= most)
    && exists i :: 0 <= i < |guests| && guests[i].durationMin == most
  }

  /**
   * Arriving together, everyone starts at the hour asked for. Finishing together, everyone ends when
   * the longest service does, or earlier by steps of five minutes, but by no more than the window.
   */
  ghost predicate InTime(q: Query, l: Lane, most: nat) {
    if q.finishTogether then
      var early := q.startMin + most - l.endMin;
      0 <= early <= q.finishWindow && early % 5 == 0
    else l.startMin == q.startMin
  }

  /** Somebody who works the service, is asked for or free to choose, under the daily cap and not busy in it. */
  ghost predicate Serves(s: Pro, g: Guest, l: Lane) {
    && s.id == l.staff && !s.atCap && (forall skill :: skill in g.skills ==> skill in s.skills)
    && (g.preferred == None || g.preferred == Some(s.id))
    && (forall b :: b in s.busy ==> b.toMin <= l.startMin || l.endMin <= b.fromMin)
  }

  ghost predicate LaneByRules(q: Query, i: nat, l: Lane, most: nat)
    requires i < |q.guests|
  {
    && l.guest == i && l.station == q.guests[i].station && l.endMin - l.startMin == q.guests[i].durationMin
    && InTime(q, l, most) && exists s :: s in q.ctx.pros && Serves(s, q.guests[i], l)
  }

  /** How many of the plan's lanes, and of the diary's visits, are in a chair of the station at that minute. */
  ghost function InUse(ctx: Context, plan: seq<Lane>, station: string, at: int): nat {
    |set l | l in plan && l.station == station && l.startMin <= at < l.endMin|
    + HowMany(ctx.occupied, (o: Taken) => o.station == station && o.fromMin <= at < o.toMin)
  }

  ghost predicate Chaired(ctx: Context, plan: seq<Lane>, station: string, at: int) {
    InUse(ctx, plan, station, at) <= if station in ctx.counts then ctx.counts[station] else 0
  }

  ghost predicate PlanByRules(q: Query, plan: seq<Lane>, most: nat) {
    && |plan| == |q.guests| && (forall i :: 0 <= i < |plan| ==> LaneByRules(q, i, plan[i], most))
    && (forall i, j :: 0 <= i < j < |plan| ==> plan[i].staff != plan[j].staff)
    && (forall l, m :: l in plan && m in plan ==> l.startMin <= m.startMin + q.maxStagger)
    && (forall l :: l in plan ==> Chaired(q.ctx, plan, l.station, l.startMin) && Chaired(q.ctx, plan, l.station, l.endMin))
  }

  lemma {:induction false} TheirsCounted(occupied: seq<Taken>, station: string, at: int)
    ensures Theirs(occupied, station, at)
      == HowMany(occupied, (o: Taken) => o.station == station && o.fromMin <= at < o.toMin)
  {
    if occupied != [] { TheirsCounted(occupied[1..], station, at); }
  }

  lemma RoomIsChaired(ctx: Context, plan: seq<Lane>, station: string, at: int)
    ensures Room(ctx, LaneSet(plan), station, at) <==> Chaired(ctx, plan, station, at)
  {
    TheirsCounted(ctx.occupied, station, at);
    assert Mine(LaneSet(plan), station, at) == set l | l in plan && l.station == station && l.startMin <= at < l.endMin;
  }

  lemma ChairsIff(ctx: Context, plan: seq<Lane>)
    ensures ChairsFit(ctx, LaneSet(plan)) <==>
      forall l :: l in plan ==> Chaired(ctx, plan, l.station, l.startMin) && Chaired(ctx, plan, l.station, l.endMin)
  {
    forall l | l in plan
      ensures Room(ctx, LaneSet(plan), l.station, l.startMin) <==> Chaired(ctx, plan, l.station, l.startMin)
      ensures Room(ctx, LaneSet(plan), l.station, l.endMin) <==> Chaired(ctx, plan, l.station, l.endMin)
    {
      RoomIsChaired(ctx, plan, l.station, l.startMin);
      RoomIsChaired(ctx, plan, l.station, l.endMin);
    }
  }

  /** The starts the search tries are the ones in time. */
  lemma StartsInTime(q: Query, g: Guest, l: Lane, most: nat)
    requires LongestIs(q.guests, most) && l.endMin == l.startMin + g.durationMin
    ensures l.startMin in StartsFor(q, g) <==> InTime(q, l, most)
  {
    assert most == Longest(q.guests);
    if q.finishTogether && q.finishWindow > 0 {
      var starts, early := StartsFor(q, g), q.startMin + most - l.endMin;
      if 0 <= early <= q.finishWindow && early % 5 == 0 {
        assert starts[early / 5] == l.startMin;
      }
    }
  }

  lemma LaneIff(q: Query, i: nat, l: Lane, most: nat)
    requires i < |q.guests| && LongestIs(q.guests, most)
    ensures ValidLane(q, i, l) <==> LaneByRules(q, i, l, most)
  {
    var g := q.guests[i];
    if l.endMin == l.startMin + g.durationMin { StartsInTime(q, g, l, most); }
    forall s ensures Serves(s, g, l) <==> s.id == l.staff && Suits(g, s) && IsFree(s.busy, l.startMin, l.endMin) {
      assert forall b :: b in s.busy <==> exists k :: 0 <= k < |s.busy| && s.busy[k] == b;
    }
  }

  lemma PlanIff(q: Query, plan: seq<Lane>, most: nat)
    requires LongestIs(q.guests, most)
    ensures ValidPlan(q, plan) <==> PlanByRules(q, plan, most)
  {
    forall i | 0 <= i < |q.guests| && i < |plan| ensures ValidLane(q, i, plan[i]) <==> LaneByRules(q, i, plan[i], most) {
      LaneIff(q, i, plan[i], most);
    }
    ChairsIff(q.ctx, plan);
  }

  /**
   * A party of two or more is planned if and only if some arrangement keeps every promise, and the one
   * that is answered does.
   */
  lemma PlannedByTheRules(q: Query, most: nat)
    requires UniquePros(q.ctx.pros) && LongestIs(q.guests, most)
    ensures PlanParty(q).Planned? <==> |q.guests| >= 2 && exists plan :: PlanByRules(q, plan, most)
    ensures PlanParty(q).Planned? ==> PlanByRules(q, PlanParty(q).lanes, most)
  {
    PlannedIffPossible(q);
    forall plan ensures ValidPlan(q, plan) <==> PlanByRules(q, plan, most) { PlanIff(q, plan, most); }
  }

  /** So nobody who serves a guest is busy with anything else at any minute of it. */
  lemma NobodyServesTwo(q: Query, plan: seq<Lane>, most: nat, i: nat, at: int)
    requires PlanByRules(q, plan, most) && i < |plan| && plan[i].startMin <= at < plan[i].endMin
    requires UniquePros(q.ctx.pros)
    ensures forall s, b :: s in q.ctx.pros && s.id == plan[i].staff && b in s.busy ==> !(b.fromMin <= at < b.toMin)
    ensures forall j :: 0 <= j < |plan| && j != i ==> plan[j].staff != plan[i].staff
  {
    assert LaneByRules(q, i, plan[i], most);
    var s :| s in q.ctx.pros && Serves(s, q.guests[i], plan[i]);
    forall r | r in q.ctx.pros && r.id == plan[i].staff ensures r == s {
      var j :| 0 <= j < |q.ctx.pros| && q.ctx.pros[j] == r;
      var k :| 0 <= k < |q.ctx.pros| && q.ctx.pros[k] == s;
      assert j == k;
    }
  }
}
