/**
 * Which plan the planner answers with. The search is depth first, so each guest in turn, the hardest to
 * place first, ends as late as any plan allows that leaves the guests before them where they are. That
 * is not the same as keeping the party together: a party that fits exactly may be answered otherwise.
 */
module PartyTightest {
  import opened Basics
  import G = Greedy
  import opened PartyPlan
  import opened PartyPlanProofs
  import opened PartySeating

  // ------------------------------------------------------------------ the first way down the tree

  ghost predicate Descending(lanes: seq<Lane>) {
    forall a, b :: 0 <= a <= b < |lanes| ==> lanes[a].startMin >= lanes[b].startMin
  }

  ghost predicate Falling(starts: seq<int>) {
    forall a, b :: 0 <= a <= b < |starts| ==> starts[a] >= starts[b]
  }

  lemma {:induction false} LanesDescend(guest: nat, g: Guest, starts: seq<int>, pool: seq<Id>)
    requires Falling(starts)
    ensures Descending(LanesFrom(guest, g, starts, pool))
    ensures forall l :: l in LanesFrom(guest, g, starts, pool) ==> starts != [] && l.startMin <= starts[0]
  {
    if starts != [] {
      var first, rest := LanesAt(guest, g, starts[0], pool), LanesFrom(guest, g, starts[1..], pool);
      LanesDescend(guest, g, starts[1..], pool);
      assert forall b :: 0 <= b < |rest| ==> rest[b] in rest;
      assert LanesFrom(guest, g, starts, pool) == first + rest;
    }
  }

  lemma ChoicesDescend(q: Query, i: nat)
    requires i < |q.guests|
    ensures Descending(Choices(q, i))
  {
    LanesDescend(i, q.guests[i], StartsFor(q, q.guests[i]), Pool(q, q.guests[i]));
  }

  /** The lane tried last is the one that stands, and the rest of the answer is what was found behind it. */
  lemma {:induction false} TryStands(q: Query, order: seq<nat>, lanes: seq<Lane>, choices: seq<Lane>, out: seq<Lane>)
    requires InParty(q, order) && order != [] && Try(q, order, lanes, choices) == Some(out)
    ensures |out| > |lanes| && out[|lanes|] in choices && Search(q, order[1..], lanes + [out[|lanes|]]) == Some(out)
    decreases |choices|
  {
    var c := choices[0];
    if Fits(q, lanes, c) && Search(q, order[1..], lanes + [c]).Some? {
      SearchSound(q, order[1..], lanes + [c]);
      PathExtends(q, order[1..], lanes + [c], out);
      assert out[|lanes|] == (lanes + [c])[|lanes|];
    } else {
      TryStands(q, order, lanes, choices[1..], out);
    }
  }

  /** Nothing that could have been finished was passed over for a choice further down the list. */
  lemma {:induction false} TryLatest(
      q: Query, order: seq<nat>, lanes: seq<Lane>, choices: seq<Lane>, out: seq<Lane>, c: Lane)
    requires InParty(q, order) && order != [] && Try(q, order, lanes, choices) == Some(out)
    requires Descending(choices) && c in choices && Fits(q, lanes, c) && Search(q, order[1..], lanes + [c]).Some?
    ensures |out| > |lanes| && out[|lanes|].startMin >= c.startMin
    decreases |choices|
  {
    TryStands(q, order, lanes, choices, out);
    var first := choices[0];
    if Fits(q, lanes, first) && Search(q, order[1..], lanes + [first]).Some? {
      SearchSound(q, order[1..], lanes + [first]);
      PathExtends(q, order[1..], lanes + [first], out);
      assert out[|lanes|] == (lanes + [first])[|lanes|];
      var k :| 0 <= k < |choices| && choices[k] == c;
    } else {
      TryLatest(q, order, lanes, choices[1..], out, c);
    }
  }

  /** Two ways down that part at lane `m`: the one found starts it no earlier. */
  lemma {:induction false} FoundIsLatest(
      q: Query, order: seq<nat>, lanes: seq<Lane>, out: seq<Lane>, other: seq<Lane>, m: nat)
    requires InParty(q, order) && Search(q, order, lanes) == Some(out) && Path(q, order, lanes, other)
    requires |lanes| <= m < |out| == |other| == |lanes| + |order| && other[..m] == out[..m]
    ensures other[m].startMin <= out[m].startMin
    decreases |order|
  {
    var n := |lanes|;
    var choices := Choices(q, order[0]);
    TryStands(q, order, lanes, choices, out);
    if m == n {
      ChoicesDescend(q, order[0]);
      SearchComplete(q, order[1..], lanes + [other[n]], other);
      TryLatest(q, order, lanes, choices, out, other[n]);
    } else {
      assert other[..m][n] == out[..m][n];
      FoundIsLatest(q, order[1..], lanes + [out[n]], out, other, m);
    }
  }

  // ------------------------------------------------------------------ said of plans

  /** The same lanes for the first `k` guests in the planner's order. */
  ghost predicate SameBefore(order: seq<nat>, k: nat, one: seq<Lane>, other: seq<Lane>)
    requires k <= |order| && forall j :: 0 <= j < |order| ==> order[j] < |one| && order[j] < |other|
  {
    forall j :: 0 <= j < k ==> one[order[j]] == other[order[j]]
  }

  /** What the search found is the answer, in the order of the search. */
  lemma AnswerAsFound(q: Query) returns (out: seq<Lane>)
    requires UniquePros(q.ctx.pros) && PlanParty(q).Planned?
    ensures Everyone(Order(q), |q.guests|) && |out| == |PlanParty(q).lanes| == |q.guests|
    ensures Search(q, Order(q), []) == Some(out)
    ensures forall k :: 0 <= k < |out| ==> out[k] == PlanParty(q).lanes[Order(q)[k]]
  {
    OrderIsEveryone(q);
    var order, answer := Order(q), PlanParty(q).lanes;
    out := Search(q, order, []).value;
    SearchSound(q, order, []);
    PathExtends(q, order, [], out);
    StepsArePath(q, order, out);
    PathAgrees(q, order, out);
    forall k | 0 <= k < |out| ensures out[k] == answer[order[k]] {
      assert Step(q, order, out, k);
      StepLane(q, order, out, k);
      assert out[k] in out && answer[order[k]] in out;
    }
  }

  /** Any valid plan is a way down the tree. */
  lemma PlanIsPath(q: Query, plan: seq<Lane>) returns (other: seq<Lane>)
    requires UniquePros(q.ctx.pros) && ValidPlan(q, plan) && Everyone(Order(q), |q.guests|)
    ensures |other| == |q.guests| && (forall k :: 0 <= k < |other| ==> other[k] == plan[Order(q)[k]])
    ensures Path(q, Order(q), [], other)
  {
    var order := Order(q);
    other := seq(|order|, j requires 0 <= j < |order| => plan[order[j]]);
    forall j: nat | j < |order| ensures Step(q, order, other, j) { PlanSteps(q, order, plan, other, j); }
    StepsArePath(q, order, other);
  }

  /** Of all plans with the guests before where the answer has them, none starts the next guest later. */
  lemma AnswerIsLatest(q: Query, plan: seq<Lane>, k: nat)
    requires UniquePros(q.ctx.pros) && PlanParty(q).Planned? && ValidPlan(q, plan) && k < |q.guests|
    requires Everyone(Order(q), |q.guests|) && |PlanParty(q).lanes| == |q.guests|
    requires SameBefore(Order(q), k, plan, PlanParty(q).lanes)
    ensures plan[Order(q)[k]].startMin <= PlanParty(q).lanes[Order(q)[k]].startMin
  {
    var out := AnswerAsFound(q);
    var other := PlanIsPath(q, plan);
    assert other[..k] == out[..k];
    FoundIsLatest(q, Order(q), [], out, other, k);
  }

  /** The guest ends with the longest service, or starts with everyone else. */
  ghost predicate OnTime(q: Query, plan: seq<Lane>, guest: nat)
    requires guest < |plan| == |q.guests|
  {
    plan[guest].startMin == StartFor(q, q.guests[guest])
  }

  ghost predicate Together(q: Query, plan: seq<Lane>) {
    |plan| == |q.guests| && forall i :: 0 <= i < |plan| ==> OnTime(q, plan, i)
  }

  /** Some plan has the guests before where the answer has them, and the `k`-th of the order on time. */
  ghost predicate CouldBeOnTime(q: Query, answer: seq<Lane>, k: nat)
    requires k < |q.guests| == |answer|
  {
    exists plan :: ValidPlan(q, plan) && TakesTurns(q, plan, answer, k)
  }

  ghost predicate TakesTurns(q: Query, plan: seq<Lane>, answer: seq<Lane>, k: nat)
    requires k < |q.guests| == |answer|
  {
    OrderIsEveryone(q);
    |plan| == |q.guests| && SameBefore(Order(q), k, plan, answer) && OnTime(q, plan, Order(q)[k])
  }

  /** Each guest of the answer is on time if and only if, the guests before them placed as they are, they could be. */
  lemma OnTimeIff(q: Query, k: nat)
    requires UniquePros(q.ctx.pros) && PlanParty(q).Planned? && k < |q.guests|
    ensures Everyone(Order(q), |q.guests|) && |PlanParty(q).lanes| == |q.guests|
    ensures OnTime(q, PlanParty(q).lanes, Order(q)[k]) <==> CouldBeOnTime(q, PlanParty(q).lanes, k)
  {
    var order, answer := Order(q), PlanParty(q).lanes;
    OrderIsEveryone(q);
    PlannedIffPossible(q);
    if OnTime(q, answer, order[k]) {
      assert TakesTurns(q, answer, answer, k);
    }
    if CouldBeOnTime(q, answer, k) {
      var plan :| ValidPlan(q, plan) && TakesTurns(q, plan, answer, k);
      AnswerIsLatest(q, plan, k);
      assert ValidLane(q, order[k], plan[order[k]]) && ValidLane(q, order[k], answer[order[k]]);
      LatestStart(q, q.guests[order[k]], answer[order[k]].startMin);
    }
  }

  lemma LatestStart(q: Query, g: Guest, start: int)
    requires start in StartsFor(q, g)
    ensures start <= StartFor(q, g)
  {}

  /** The party is kept together exactly when every guest, in their turn, could still be on time. */
  lemma TogetherIff(q: Query)
    requires UniquePros(q.ctx.pros) && PlanParty(q).Planned?
    ensures |PlanParty(q).lanes| == |q.guests|
    ensures Together(q, PlanParty(q).lanes) <==>
      forall k :: 0 <= k < |q.guests| ==> CouldBeOnTime(q, PlanParty(q).lanes, k)
  {
    var order, answer := Order(q), PlanParty(q).lanes;
    OrderIsEveryone(q);
    PlannedIffPossible(q);
    forall k | 0 <= k < |q.guests| ensures OnTime(q, answer, order[k]) <==> CouldBeOnTime(q, answer, k) {
      OnTimeIff(q, k);
    }
    if forall k :: 0 <= k < |q.guests| ==> CouldBeOnTime(q, answer, k) {
      forall i: nat | i < |answer| ensures OnTime(q, answer, i) {
        assert i in order;
        var k :| 0 <= k < |order| && order[k] == i;
        assert CouldBeOnTime(q, answer, k);
      }
    }
  }

  // ------------------------------------------------------------------ asking without the window first

  lemma NarrowPlan(q: Query, plan: seq<Lane>)
    ensures ValidPlan(q.(finishWindow := 0), plan) <==> ValidPlan(q, plan) && Together(q, plan)
  {
    var narrow := q.(finishWindow := 0);
    forall i | 0 <= i < |plan| && |plan| == |q.guests|
      ensures ValidLane(narrow, i, plan[i]) <==> ValidLane(q, i, plan[i]) && OnTime(q, plan, i)
    {
      var g := q.guests[i];
      assert StartsFor(narrow, g) == [StartFor(q, g)];
      assert StartsFor(q, g)[0] == StartFor(q, g);
    }
  }

  /** A party fits exactly together if and only if the planner, given no window, seats it. */
  lemma FitsTogetherIff(q: Query)
    requires UniquePros(q.ctx.pros)
    ensures PlanParty(q.(finishWindow := 0)).Planned? <==>
      |q.guests| >= 2 && exists plan :: ValidPlan(q, plan) && Together(q, plan)
  {
    PlannedIffPossible(q.(finishWindow := 0));
    forall plan ensures ValidPlan(q.(finishWindow := 0), plan) <==> ValidPlan(q, plan) && Together(q, plan) {
      NarrowPlan(q, plan);
    }
  }

  // ------------------------------------------------------------------ a party that fits and is not kept together

  /**
   * An hour's cut and an hour and a half of colour, to end together at half past eleven or up to five
   * minutes sooner. Professional 1 does both, 2 cuts but is wanted from 685, 3 colours.
   */
  function CutAndColour(): Query {
    Query([Guest({"cut"}, 60, "chair", None), Guest({"colour"}, 90, "chair", None)], 600, true, 5, 720,
          Context([Pro(1, {"cut", "colour"}, false, []), Pro(2, {"cut"}, false, [Span(685, 690)]),
                   Pro(3, {"colour"}, false, [])], map["chair" := 2], []))
  }

  /** Both end at 690. */
  function Kept(): seq<Lane> {
    [Lane(0, 1, 630, 690, "chair"), Lane(1, 3, 600, 690, "chair")]
  }

  /** One of them ends at 685. */
  function Apart(): seq<Lane> {
    [Lane(0, 2, 625, 685, "chair"), Lane(1, 1, 600, 690, "chair")]
  }

  lemma CutAndColourStarts(q: Query)
    requires q == CutAndColour()
    ensures StartsFor(q, q.guests[0]) == [630, 625] && StartsFor(q, q.guests[1]) == [600, 595]
  {
    assert Longest(q.guests) == 90;
  }

  /** Two chairs are enough for any two. */
  lemma TwoChairsDo(ctx: Context, plan: seq<Lane>)
    requires ctx.occupied == [] && ctx.counts == map["chair" := 2]
    requires |plan| == 2 && plan[0].station == plan[1].station == "chair"
    ensures ChairsFit(ctx, LaneSet(plan))
  {
    forall at: int ensures Room(ctx, LaneSet(plan), "chair", at) {
      CardSubset(Mine(LaneSet(plan), "chair", at), {plan[0], plan[1]});
    }
  }

  /** Professional `p` of the roster may take guest `i` at `start`. */
  ghost predicate MayTake(q: Query, i: nat, p: nat, start: int)
    requires i < |q.guests| && p < |q.ctx.pros|
  {
    var g, s := q.guests[i], q.ctx.pros[p];
    Suits(g, s) && start in StartsFor(q, g) && IsFree(s.busy, start, start + g.durationMin)
  }

  lemma TakingIsValid(q: Query, i: nat, p: nat, start: int)
    requires i < |q.guests| && p < |q.ctx.pros| && MayTake(q, i, p, start)
    ensures Eligible(q, q.guests[i], q.ctx.pros[p])
    ensures ValidLane(q, i, Lane(i, q.ctx.pros[p].id, start, start + q.guests[i].durationMin, q.guests[i].station))
  {
    assert q.ctx.pros[p] in q.ctx.pros;
  }

  lemma WhoCuts(q: Query)
    requires q == CutAndColour()
    ensures MayTake(q, 0, 0, 630) && MayTake(q, 0, 1, 625) && !Suits(q.guests[0], q.ctx.pros[2])
  {
    CutAndColourStarts(q);
  }

  lemma WhoColours(q: Query)
    requires q == CutAndColour()
    ensures MayTake(q, 1, 0, 600) && MayTake(q, 1, 2, 600) && !Suits(q.guests[1], q.ctx.pros[1])
  {
    CutAndColourStarts(q);
  }

  lemma KeptIsValid(q: Query)
    requires q == CutAndColour()
    ensures ValidPlan(q, Kept())
  {
    TwoChairsDo(q.ctx, Kept());
    WhoCuts(q);
    WhoColours(q);
    TakingIsValid(q, 0, 0, 630);
    TakingIsValid(q, 1, 2, 600);
  }

  lemma KeptIsTogether(q: Query)
    requires q == CutAndColour()
    ensures Together(q, Kept())
  {
    assert Longest(q.guests) == 90;
  }

  lemma ApartIsValid(q: Query)
    requires q == CutAndColour()
    ensures ValidPlan(q, Apart())
  {
    TwoChairsDo(q.ctx, Apart());
    WhoCuts(q);
    WhoColours(q);
    TakingIsValid(q, 0, 1, 625);
    TakingIsValid(q, 1, 0, 600);
  }

  lemma PoolOfThree(q: Query, g: Guest, one: bool, two: bool, three: bool)
    requires |q.ctx.pros| == 3
    requires one == Eligible(q, g, q.ctx.pros[0]) && two == Eligible(q, g, q.ctx.pros[1])
    requires three == Eligible(q, g, q.ctx.pros[2])
    ensures var pros := q.ctx.pros;
      Pool(q, g) == (if one then [pros[0].id] else []) + (if two then [pros[1].id] else [])
                  + (if three then [pros[2].id] else [])
  {
    var pros := q.ctx.pros;
    assert pros[1..][1..] == pros[2..] && pros[2..][1..] == [] && pros[1..][0] == pros[1] && pros[2..][0] == pros[2];
    assert PoolAmong(q, g, pros[2..]) == if three then [pros[2].id] else [];
    assert PoolAmong(q, g, pros[1..]) == (if two then [pros[1].id] else []) + PoolAmong(q, g, pros[2..]);
  }

  lemma PoolOfTheCut(q: Query)
    requires q == CutAndColour()
    ensures Pool(q, q.guests[0]) == [1, 2]
  {
    WhoCuts(q);
    TakingIsValid(q, 0, 0, 630);
    TakingIsValid(q, 0, 1, 625);
    PoolOfThree(q, q.guests[0], true, true, false);
  }

  lemma PoolOfTheColour(q: Query)
    requires q == CutAndColour()
    ensures Pool(q, q.guests[1]) == [1, 3]
  {
    WhoColours(q);
    TakingIsValid(q, 1, 0, 600);
    TakingIsValid(q, 1, 2, 600);
    PoolOfThree(q, q.guests[1], true, false, true);
  }

  lemma OrderOfTwo(q: Query)
    requires |q.guests| == 2 && !Scarcer(q, 0, 1)
    ensures Order(q) == [1, 0]
  {
    assert Indices(2) == [0, 1] && Indices(2)[1..] == [1] && Indices(2)[1..][1..] == [];
  }

  lemma ColourIsFirst(q: Query)
    requires q == CutAndColour()
    ensures Order(q) == [1, 0]
  {
    PoolOfTheCut(q);
    PoolOfTheColour(q);
    OrderOfTwo(q);
  }

  lemma SecondIsFound(q: Query) returns (out: seq<Lane>)
    requires UniquePros(q.ctx.pros) && PlanParty(q).Planned? && Order(q) == [1, 0] && |q.guests| == 2
    ensures Everyone(Order(q), 2) && Search(q, Order(q), []) == Some(out) && |PlanParty(q).lanes| == |out| == 2
    ensures PlanParty(q).lanes[1] == out[0]
  {
    out := AnswerAsFound(q);
  }

  /** A plan that gives the first guest in turn their first choice makes it the answer's. */
  lemma FirstChoiceStands(q: Query, order: seq<nat>, out: seq<Lane>, other: seq<Lane>)
    requires InParty(q, order) && order != [] && Search(q, order, []) == Some(out) && Path(q, order, [], other)
    requires Choices(q, order[0]) != [] && other[0] == Choices(q, order[0])[0]
    ensures |out| > 0 && out[0] == other[0]
  {
    var c := other[0];
    SearchComplete(q, order[1..], [] + [c], other);
    SearchSound(q, order[1..], [] + [c]);
    PathExtends(q, order[1..], [] + [c], out);
    assert out[0] == ([] + [c])[0];
  }

  lemma FirstChoice(q: Query, i: nat)
    requires i < |q.guests| && StartsFor(q, q.guests[i]) != [] && Pool(q, q.guests[i]) != []
    ensures var g := q.guests[i]; var start := StartsFor(q, g)[0];
      Choices(q, i) != [] && Choices(q, i)[0] == Lane(i, Pool(q, g)[0], start, start + g.durationMin, g.station)
  {}

  /** The colour takes professional 1, first on the roster. */
  lemma ColourTakesTheFirst(q: Query, out: seq<Lane>)
    requires q == CutAndColour() && Everyone(Order(q), 2) && Search(q, Order(q), []) == Some(out)
    ensures |out| > 0 && out[0] == Apart()[1]
  {
    ColourIsFirst(q);
    CutAndColourStarts(q);
    PoolOfTheColour(q);
    FirstChoice(q, 1);
    ApartIsValid(q);
    var other := PlanIsPath(q, Apart());
    FirstChoiceStands(q, Order(q), out, other);
  }

  ghost predicate FindsFirst(q: Query, l: Lane)
    requires InParty(q, Order(q))
  {
    forall out :: Search(q, Order(q), []) == Some(out) ==> |out| > 0 && out[0] == l
  }

  /** The first guest cannot be on time without the professional of `l`. */
  ghost predicate LateWithout(q: Query, l: Lane)
    requires q.guests != []
  {
    forall m :: ValidLane(q, 0, m) && m.staff != l.staff ==> m.startMin != StartFor(q, q.guests[0])
  }

  /** When the second guest is served first, by the one professional the first could be on time with, the party is apart. */
  lemma FirstIsLate(q: Query, l: Lane, plan: seq<Lane>)
    requires UniquePros(q.ctx.pros) && |q.guests| == 2 && Order(q) == [1, 0] && ValidPlan(q, plan)
    requires FindsFirst(q, l) && LateWithout(q, l)
    ensures PlanParty(q).Planned? && !Together(q, PlanParty(q).lanes)
  {
    PlannedIffPossible(q);
    var answer := PlanParty(q).lanes;
    var out := SecondIsFound(q);
    assert answer[1] == l && ValidLane(q, 0, answer[0]) && answer[0].staff != l.staff;
    assert !OnTime(q, answer, 0);
  }

  lemma ColourFindsTheFirst(q: Query)
    requires q == CutAndColour()
    ensures Order(q) == [1, 0] && FindsFirst(q, Apart()[1])
  {
    ColourIsFirst(q);
    OrderIsEveryone(q);
    forall out | Search(q, Order(q), []) == Some(out) ensures |out| > 0 && out[0] == Apart()[1] {
      ColourTakesTheFirst(q, out);
    }
  }

  /** Without professional 1 the cut cannot end on time. */
  lemma CutIsLate(q: Query)
    requires q == CutAndColour()
    ensures LateWithout(q, Apart()[1])
  {
    CutAndColourStarts(q);
    assert StartFor(q, q.guests[0]) == StartsFor(q, q.guests[0])[0] == 630;
    forall m | ValidLane(q, 0, m) && m.staff != Apart()[1].staff ensures m.startMin != 630 {
      var s :| s in q.ctx.pros && s.id == m.staff && Suits(q.guests[0], s) && IsFree(s.busy, m.startMin, m.endMin);
      assert s == q.ctx.pros[1];
      assert s.busy[0] == Span(685, 690);
    }
  }

  /** A party that fits exactly together, and is answered five minutes apart. */
  lemma FitsButIsNotKeptTogether()
    ensures exists plan :: ValidPlan(CutAndColour(), plan) && Together(CutAndColour(), plan)
    ensures PlanParty(CutAndColour()).Planned? && !Together(CutAndColour(), PlanParty(CutAndColour()).lanes)
  {
    var q := CutAndColour();
    KeptIsValid(q);
    KeptIsTogether(q);
    ColourFindsTheFirst(q);
    CutIsLate(q);
    FirstIsLate(q, Apart()[1], Kept());
  }
}
