/**
 * A party's money. A member pays by the line, a package being one line at its price; a child pays half
 * of each line. The lane stores parts, so each line's charge is spread back over the parts it covers,
 * and the party's tax and deposit are shared among its members, without losing a fil.
 */
module PartyMoney {
  import opened Basics
  import opened Money
  import opened Packages
  import opened Basket

  const CHILD_SERVICE_PERCENT := 50
  const VAT_PERCENT := 5

  /** A percentage of whole fils, rounded half up. */
  function Percent(fils: int, p: int): int {
    (fils * p + 50) / 100
  }

  function ChargedLine(fils: int, child: bool): int {
    if child then Percent(fils, CHILD_SERVICE_PERCENT) else fils
  }

  // ------------------------------------------------------------------ one line over its parts

  predicate AllZero(s: seq<int>) {
    forall i :: 0 <= i < |s| ==> s[i] == 0
  }

  /** In proportion to what the parts carry at full price, or equally when they carry nothing. */
  function SpreadOverParts(charged: int, parts: seq<int>): Result<seq<int>> {
    if parts == [] then Fail("a line needs a part")
    else Allocate(charged, if AllZero(parts) then Ones(|parts|) else parts)
  }

  lemma {:induction false} SumPositive(s: seq<int>)
    requires NonNegative(s) && !AllZero(s)
    ensures Sum(s) > 0
  {
    SumNonNegative(s[1..]);
    if s[0] == 0 {
      assert !AllZero(s[1..]) by {
        var i :| 0 <= i < |s| && s[i] != 0;
        assert s[1..][i - 1] == s[i];
      }
      SumPositive(s[1..]);
    }
  }

  /** The nearest whole fil to the percentage, and the higher of two as near. */
  ghost predicate NearestPercent(share: int, fils: int, p: int) {
    -50 < 100 * share - fils * p <= 50
  }

  lemma PercentIsNearest(fils: int, p: int)
    ensures NearestPercent(Percent(fils, p), fils, p)
  {}

  /** An adult pays the list price; a child pays half of it, and never loses the odd half fil. */
  lemma ChildPaysHalf(fils: int, child: bool)
    ensures !child ==> ChargedLine(fils, child) == fils
    ensures child ==> 2 * ChargedLine(fils, child) == fils || 2 * ChargedLine(fils, child) == fils + 1
  {
    PercentIsNearest(fils, 50);
  }

  /** A line's charge is shared fairly by what its parts cost, or equally when they cost nothing. */
  lemma SpreadIsFair(charged: int, parts: seq<int>)
    requires parts != [] && NonNegative(parts)
    ensures SpreadOverParts(charged, parts).Ok? && SharedFairly(SpreadOverParts(charged, parts).value, charged, parts)
  {
    SumOnes(|parts|);
    if AllZero(parts) { AllZeroSum(parts); } else { SumPositive(parts); }
    AllocateIsFair(charged, if AllZero(parts) then Ones(|parts|) else parts);
  }

  /** Parts that carry nothing negative take any charge whole: one price each, adding up to the charge. */
  lemma SpreadExact(charged: int, parts: seq<int>)
    requires parts != [] && NonNegative(parts)
    ensures SpreadOverParts(charged, parts).Ok?
    ensures |SpreadOverParts(charged, parts).value| == |parts| && Sum(SpreadOverParts(charged, parts).value) == charged
  {
    SumOnes(|parts|);
    if !AllZero(parts) { SumPositive(parts); }
    AllocateSums(charged, if AllZero(parts) then Ones(|parts|) else parts);
  }

  // ------------------------------------------------------------------ a lane

  /** Every line's charge over its own slice, one line after another, by whatever split is given. */
  function LaneBy(
      lines: seq<Line>, charges: seq<int>, prices: seq<int>, split: (int, seq<int>) -> Result<seq<int>>): Result<seq<int>>
    requires |lines| == |charges|
  {
    if lines == [] then Ok([])
    else
      match split(charges[0], Slice(prices, lines[0].from, lines[0].to))
      case Fail(why) => Fail(why)
      case Ok(mine) =>
        match LaneBy(lines[1..], charges[1..], prices, split)
        case Fail(why) => Fail(why)
        case Ok(rest) => Ok(mine + rest)
  }

  /** The lane's part prices. */
  function LanePrices(lines: seq<Line>, charges: seq<int>, prices: seq<int>): Result<seq<int>>
    requires |lines| == |charges|
  {
    LaneBy(lines, charges, prices, SpreadOverParts)
  }

  /** Parts that carry nothing negative take the charge whole, one price each. */
  ghost predicate TakesWhole(split: (int, seq<int>) -> Result<seq<int>>, charge: int, parts: seq<int>) {
    parts != [] && NonNegative(parts) ==>
      split(charge, parts).Ok? && |split(charge, parts).value| == |parts| && Sum(split(charge, parts).value) == charge
  }

  ghost predicate SplitsExactly(split: (int, seq<int>) -> Result<seq<int>>) {
    forall charge, parts :: TakesWhole(split, charge, parts)
  }

  /** Line `l`'s own slice of a lane that begins at `at` adds up to what the line is charged. */
  ghost predicate LineKept(lane: seq<int>, l: Line, charge: int, at: nat) {
    at <= l.from <= l.to <= at + |lane| && Sum(lane[l.from - at..l.to - at]) == charge
  }

  /** One price per part, every line's slice its charge, and the lane all the charges. */
  ghost predicate Conserved(lane: seq<int>, lines: seq<Line>, charges: seq<int>, at: nat, to: nat)
    requires |lines| == |charges|
  {
    && |lane| == to - at && Sum(lane) == Sum(charges)
    && (forall j :: 0 <= j < |lines| ==> LineKept(lane, lines[j], charges[j], at))
  }

  lemma LaterLine(first: seq<int>, rest: seq<int>, l: Line, charge: int, at: nat)
    requires LineKept(rest, l, charge, at + |first|)
    ensures LineKept(first + rest, l, charge, at)
  {
    assert (first + rest)[l.from - at..l.to - at] == rest[l.from - at - |first|..l.to - at - |first|];
  }

  lemma FirstSplit(lines: seq<Line>, charge: int, prices: seq<int>, at: nat, split: (int, seq<int>) -> Result<seq<int>>)
      returns (first: seq<int>)
    requires SplitsExactly(split) && lines != [] && NonNegative(prices) && at <= |prices| && EndToEnd(lines, at, |prices|)
    ensures lines[0].from == at && lines[0].to == at + |first| <= |prices| && EndToEnd(lines[1..], lines[0].to, |prices|)
    ensures split(charge, Slice(prices, lines[0].from, lines[0].to)) == Ok(first) && Sum(first) == charge
  {
    EndToEndBounds(lines, at, |prices|);
    var mine := prices[at..lines[0].to];
    assert mine != [] && NonNegative(mine) && TakesWhole(split, charge, mine);
    first := split(charge, mine).value;
  }

  lemma {:induction false} LaneTotal(
      lines: seq<Line>, charges: seq<int>, prices: seq<int>, at: nat, split: (int, seq<int>) -> Result<seq<int>>)
    requires SplitsExactly(split)
    requires |lines| == |charges| && NonNegative(prices) && at <= |prices| && EndToEnd(lines, at, |prices|)
    ensures var lane := LaneBy(lines, charges, prices, split);
      lane.Ok? && |lane.value| == |prices| - at && Sum(lane.value) == Sum(charges)
    decreases |lines|
  {
    if lines != [] {
      var first := FirstSplit(lines, charges[0], prices, at, split);
      LaneTotal(lines[1..], charges[1..], prices, lines[0].to, split);
      SumJoin(first, LaneBy(lines[1..], charges[1..], prices, split).value);
    }
  }

  lemma {:induction false} LaneLine(
      lines: seq<Line>, charges: seq<int>, prices: seq<int>, at: nat, split: (int, seq<int>) -> Result<seq<int>>, j: nat)
    requires SplitsExactly(split) && j < |lines|
    requires |lines| == |charges| && NonNegative(prices) && at <= |prices| && EndToEnd(lines, at, |prices|)
    ensures LaneBy(lines, charges, prices, split).Ok?
    ensures LineKept(LaneBy(lines, charges, prices, split).value, lines[j], charges[j], at)
    decreases |lines|
  {
    var first := FirstSplit(lines, charges[0], prices, at, split);
    LaneTotal(lines[1..], charges[1..], prices, lines[0].to, split);
    var rest := LaneBy(lines[1..], charges[1..], prices, split).value;
    if j == 0 {
      assert (first + rest)[..|first|] == first;
    } else {
      LaneLine(lines[1..], charges[1..], prices, lines[0].to, split, j - 1);
      LaterLine(first, rest, lines[j], charges[j], at);
    }
  }

  lemma LaneConserved(lines: seq<Line>, charges: seq<int>, prices: seq<int>)
    requires |lines| == |charges| && NonNegative(prices) && EndToEnd(lines, 0, |prices|)
    ensures LanePrices(lines, charges, prices).Ok?
    ensures Conserved(LanePrices(lines, charges, prices).value, lines, charges, 0, |prices|)
  {
    forall charge, parts ensures TakesWhole(SpreadOverParts, charge, parts) {
      if parts != [] && NonNegative(parts) { SpreadExact(charge, parts); }
    }
    LaneTotal(lines, charges, prices, 0, SpreadOverParts);
    forall j: nat | j < |lines| ensures LineKept(LanePrices(lines, charges, prices).value, lines[j], charges[j], 0) {
      LaneLine(lines, charges, prices, 0, SpreadOverParts, j);
    }
  }

  lemma {:induction false} EndToEndBounds(lines: seq<Line>, from: nat, to: nat)
    requires EndToEnd(lines, from, to)
    ensures from <= to && (lines != [] ==> lines[0].from < lines[0].to <= to)
  {
    if lines != [] { EndToEndBounds(lines[1..], lines[0].to, to); }
  }

  // ------------------------------------------------------------------ the prices a basket can hold

  lemma ExpandNonNegative(p: Package, priceOf: string -> int)
    requires p.priceFils >= 0 && Expand(p, priceOf).Ok?
    ensures NonNegative(Expand(p, priceOf).value.partPrices)
  {
    var list := Prices(p.serviceIds, priceOf);
    var weights := if Sum(list) == 0 then Ones(|list|) else list;
    SharesNonNegative(p.priceFils, weights);
    SharesSum(p.priceFils, weights);
    var shares := Shares(p.priceFils, weights);
    assert forall i :: 0 <= i < |shares| ==> Signed(1, shares)[i] == shares[i];
  }

  lemma {:induction false} PicksNonNegative(ids: seq<string>, packages: seq<Package>, priceOf: string -> int, lower: Folding)
    requires Picks(ids, packages, priceOf, lower).Ok?
    requires (forall id :: priceOf(id) >= 0) && (forall p :: p in packages ==> p.priceFils >= 0)
    ensures NonNegative(AllOf(Picks(ids, packages, priceOf, lower).value, PriceBlock))
  {
    if ids != [] {
      PicksNonNegative(ids[1..], packages, priceOf, lower);
      FindPackageNone(packages, ids[0], lower);
      var p := FindPackage(packages, ids[0], lower);
      if p.Some? { ExpandNonNegative(p.value, priceOf); }
    }
  }

  lemma {:induction false} AmongSold(sold: seq<Package>, unknown: seq<string>, lower: Folding)
    ensures forall p :: p in PackagesAmong(sold, unknown, lower) ==> p in sold
  {
    if unknown != [] {
      AmongSold(sold, unknown[1..], lower);
      FindPackageNone(sold, unknown[0], lower);
    }
  }

  lemma BasketNonNegative(catalogue: Catalogue, sold: seq<Package>, ids: seq<string>, slug: Folding, lower: Folding)
    requires Resolved(catalogue, sold, ids, slug, lower).Ok? && Resolved(catalogue, sold, ids, slug, lower).value.missing == []
    requires forall p :: p in sold ==> p.priceFils >= 0
    ensures NonNegative(Resolved(catalogue, sold, ids, slug, lower).value.pricesFils)
  {
    var loaded, packages := Loaded(catalogue, sold, ids, slug, lower), InUse(catalogue, sold, ids, slug, lower);
    var priceOf := ListPrice(loaded, slug);
    var picks := Picks(ids, packages, priceOf, lower).value;
    AmongSold(sold, Unknown(ids, Restrict(catalogue, Folded(ids, slug)), slug), lower);
    PicksNonNegative(ids, packages, priceOf, lower);
    PicksWhole(ids, packages, priceOf, lower);
    ResolvedPrices(catalogue, sold, ids, slug, lower, picks);
  }

  lemma ResolvedPrices(
      catalogue: Catalogue, sold: seq<Package>, ids: seq<string>, slug: Folding, lower: Folding,
      picks: seq<Pick>)
    requires Resolved(catalogue, sold, ids, slug, lower).Ok? && Resolved(catalogue, sold, ids, slug, lower).value.missing == []
    requires AllWhole(picks)
    requires var loaded := Loaded(catalogue, sold, ids, slug, lower);
      Picks(ids, InUse(catalogue, sold, ids, slug, lower), ListPrice(loaded, slug), lower) == Ok(picks)
    ensures Resolved(catalogue, sold, ids, slug, lower).value.pricesFils == AllOf(picks, PriceBlock)
  {
    assert [] + PartsFrom(picks, 0) == PartsFrom(picks, 0);
    BasketArrays(picks, Loaded(catalogue, sold, ids, slug, lower), slug);
  }

  /**
   * Whatever each line is charged, spreading it over the member's own basket gives exactly one price
   * per service, each line's parts add up to that line's charge, and the lane to all of them.
   */
  lemma LaneOfBasketConserved(
      catalogue: Catalogue, sold: seq<Package>, ids: seq<string>, slug: Folding, lower: Folding, charges: seq<int>)
    requires Resolved(catalogue, sold, ids, slug, lower).Ok? && Resolved(catalogue, sold, ids, slug, lower).value.missing == []
    requires (forall p :: p in sold ==> p.priceFils >= 0) && |charges| == |ids|
    ensures var b := Resolved(catalogue, sold, ids, slug, lower).value; var lines := Lines(ids, b, lower);
      && |lines| == |charges| && LanePrices(lines, charges, b.pricesFils).Ok?
      && Conserved(LanePrices(lines, charges, b.pricesFils).value, lines, charges, 0, |b.services|)
  {
    var b := Resolved(catalogue, sold, ids, slug, lower).value;
    BasketLinesUndoResolve(catalogue, sold, ids, slug, lower);
    BasketNonNegative(catalogue, sold, ids, slug, lower);
    LaneConserved(Lines(ids, b, lower), charges, b.pricesFils);
  }

  // ------------------------------------------------------------------ shares of the party

  datatype Member = Member(child: bool, lineFils: seq<int>, productsFils: int)

  datatype Share = Share(serviceFils: seq<int>, netFils: int, vatFils: int, totalFils: int, depositFils: int)

  function Charges(m: Member): seq<int> {
    seq(|m.lineFils|, i requires 0 <= i < |m.lineFils| => ChargedLine(m.lineFils[i], m.child))
  }

  function NetOf(m: Member): int {
    Sum(Charges(m)) + m.productsFils
  }

  function Nets(members: seq<Member>): seq<int> {
    seq(|members|, i requires 0 <= i < |members| => NetOf(members[i]))
  }

  function Zeros(n: nat): seq<int> { seq(n, _ => 0) }

  /** A party that costs nothing has nothing to split. */
  function SpreadShares(amount: int, weights: seq<int>): Result<seq<int>> {
    if amount == 0 || AllZero(weights) then Ok(Zeros(|weights|)) else Allocate(amount, weights)
  }

  function Plus(a: seq<int>, b: seq<int>): seq<int>
    requires |a| == |b|
  {
    seq(|a|, i requires 0 <= i < |a| => a[i] + b[i])
  }

  datatype GroupMoney = GroupMoney(nets: seq<int>, vats: seq<int>, totals: seq<int>, deposits: seq<int>,
                                   netFils: int, vatFils: int, totalFils: int, depositFils: int)

  function MoneyOf(members: seq<Member>, depositPercent: int): Result<GroupMoney> {
    if members == [] then Fail("a party needs members")
    else if depositPercent < 0 || depositPercent > 100 then Fail("depositPercent must be 0 to 100")
    else
      var nets := Nets(members);
      var net := Sum(nets);
      var vat := Percent(net, VAT_PERCENT);
      match SpreadShares(vat, nets)
      case Fail(why) => Fail(why)
      case Ok(vats) =>
        if |vats| != |nets| then Fail("shares out of step")
        else
          var totals := Plus(nets, vats);
          var deposit := Percent(net + vat, depositPercent);
          match SpreadShares(deposit, totals)
          case Fail(why) => Fail(why)
          case Ok(deposits) => Ok(GroupMoney(nets, vats, totals, deposits, net, vat, net + vat, deposit))
  }

  lemma {:induction false} SumZeros(n: nat)
    ensures Sum(Zeros(n)) == 0
  {
    if n > 0 {
      assert Zeros(n)[1..] == Zeros(n - 1);
      SumZeros(n - 1);
    }
  }

  lemma {:induction false} AllZeroSum(s: seq<int>)
    requires AllZero(s)
    ensures Sum(s) == 0
  {
    if s != [] { AllZeroSum(s[1..]); }
  }

  lemma {:induction false} SumPlus(a: seq<int>, b: seq<int>)
    requires |a| == |b|
    ensures Sum(Plus(a, b)) == Sum(a) + Sum(b)
  {
    if a != [] {
      assert Plus(a, b)[1..] == Plus(a[1..], b[1..]);
      SumPlus(a[1..], b[1..]);
    }
  }

  /** Sharing never fails and never loses anything, when nothing is owed by a party that costs nothing. */
  lemma SharesAddUp(amount: int, weights: seq<int>)
    requires NonNegative(weights) && (AllZero(weights) ==> amount == 0)
    ensures SpreadShares(amount, weights).Ok?
    ensures |SpreadShares(amount, weights).value| == |weights| && Sum(SpreadShares(amount, weights).value) == amount
    ensures amount >= 0 ==> NonNegative(SpreadShares(amount, weights).value)
  {
    SumZeros(|weights|);
    if amount != 0 {
      SumPositive(weights);
      AllocateSums(amount, weights);
      SharesNonNegative(Magnitude(amount), weights);
      SharesSum(Magnitude(amount), weights);
      var shares := Shares(Magnitude(amount), weights);
      assert forall i :: 0 <= i < |shares| ==> Signed(1, shares)[i] == shares[i];
    }
  }

  lemma PercentBounds(fils: int, p: int)
    requires fils >= 0 && 0 <= p <= 100
    ensures 0 <= Percent(fils, p) <= fils && (fils == 0 ==> Percent(fils, p) == 0)
  {
    assert 0 <= fils * p <= fils * 100;
  }

  lemma {:induction false} ChargesNonNegative(m: Member)
    requires NonNegative(m.lineFils) && m.productsFils >= 0
    ensures NetOf(m) >= 0
  {
    forall i | 0 <= i < |m.lineFils| ensures Charges(m)[i] >= 0 {
      PercentBounds(m.lineFils[i], CHILD_SERVICE_PERCENT);
    }
    SumNonNegative(Charges(m));
  }

  /** The members' nets, taxes, totals and deposits add up to the party's, to the fil. */
  lemma PartyAddsUp(members: seq<Member>, depositPercent: int)
    requires members != [] && 0 <= depositPercent <= 100
    requires forall m :: m in members ==> NonNegative(m.lineFils) && m.productsFils >= 0
    ensures MoneyOf(members, depositPercent).Ok?
    ensures var g := MoneyOf(members, depositPercent).value;
      && |g.nets| == |g.vats| == |g.totals| == |g.deposits| == |members|
      && Sum(g.nets) == g.netFils && Sum(g.vats) == g.vatFils && Sum(g.totals) == g.totalFils
      && Sum(g.deposits) == g.depositFils && g.totalFils == g.netFils + g.vatFils && 0 <= g.depositFils <= g.totalFils
  {
    var nets := Nets(members);
    NetsNonNegative(members);
    PercentShared(nets, VAT_PERCENT);
    var totals := Plus(nets, SpreadShares(Percent(Sum(nets), VAT_PERCENT), nets).value);
    SumPlus(nets, SpreadShares(Percent(Sum(nets), VAT_PERCENT), nets).value);
    PercentShared(totals, depositPercent);
  }

  /** A percentage of a sum, shared by the parts of the sum, adds up again. */
  lemma PercentShared(weights: seq<int>, p: int)
    requires NonNegative(weights) && 0 <= p <= 100
    ensures var amount := Percent(Sum(weights), p);
      && 0 <= amount <= Sum(weights) && SpreadShares(amount, weights).Ok?
      && |SpreadShares(amount, weights).value| == |weights| && Sum(SpreadShares(amount, weights).value) == amount
      && NonNegative(SpreadShares(amount, weights).value)
  {
    SumNonNegative(weights);
    PercentBounds(Sum(weights), p);
    if AllZero(weights) { AllZeroSum(weights); }
    SharesAddUp(Percent(Sum(weights), p), weights);
  }

  lemma NetsNonNegative(members: seq<Member>)
    requires forall m :: m in members ==> NonNegative(m.lineFils) && m.productsFils >= 0
    ensures NonNegative(Nets(members)) && Sum(Nets(members)) >= 0
  {
    forall i | 0 <= i < |members| ensures Nets(members)[i] >= 0 { ChargesNonNegative(members[i]); }
    SumNonNegative(Nets(members));
  }

  /** Shared by the weights, or nobody owes anything. */
  ghost predicate SharedBy(shares: seq<int>, amount: int, weights: seq<int>) {
    if Sum(weights) > 0 && amount != 0 then Allocatable(weights) && FairParts(shares, amount, weights)
    else |shares| == |weights| && forall i :: 0 <= i < |shares| ==> shares[i] == 0
  }

  lemma SharesAreFair(amount: int, weights: seq<int>)
    requires weights != [] && NonNegative(weights)
    ensures SpreadShares(amount, weights).Ok? && SharedBy(SpreadShares(amount, weights).value, amount, weights)
  {
    if AllZero(weights) { AllZeroSum(weights); } else { SumPositive(weights); }
    if amount != 0 && !AllZero(weights) { AllocateIsFair(amount, weights); }
  }

  /** The five steps of the party's money, when nothing is refused. */
  function Figures(nets: seq<int>, depositPercent: int): GroupMoney {
    var net := Sum(nets);
    var vat := Percent(net, VAT_PERCENT);
    var vats := SpreadShares(vat, nets);
    if vats.Fail? || |vats.value| != |nets| then GroupMoney([], [], [], [], 0, 0, 0, 0)
    else
      var totals := Plus(nets, vats.value);
      var deposit := Percent(net + vat, depositPercent);
      var deposits := SpreadShares(deposit, totals);
      GroupMoney(nets, vats.value, totals, if deposits.Ok? then deposits.value else [], net, vat, net + vat, deposit)
  }

  lemma MoneyIsFigures(members: seq<Member>, depositPercent: int)
    requires MoneyOf(members, depositPercent).Ok?
    ensures MoneyOf(members, depositPercent).value == Figures(Nets(members), depositPercent)
  {}

  lemma FiguresAreFair(nets: seq<int>, depositPercent: int)
    requires nets != [] && NonNegative(nets) && 0 <= depositPercent <= 100
    ensures var g := Figures(nets, depositPercent);
      && |g.vats| == |g.totals| == |nets| && g.netFils == Sum(nets)
      && (forall i :: 0 <= i < |nets| ==> g.totals[i] == nets[i] + g.vats[i])
      && SharedBy(g.vats, g.vatFils, nets) && SharedBy(g.deposits, g.depositFils, g.totals)
  {
    PercentShared(nets, VAT_PERCENT);
    SharesAreFair(Percent(Sum(nets), VAT_PERCENT), nets);
    var vats := SpreadShares(Percent(Sum(nets), VAT_PERCENT), nets).value;
    SharesAreFair(Percent(Sum(nets) + Percent(Sum(nets), VAT_PERCENT), depositPercent), Plus(nets, vats));
  }

  lemma FiguresAreNearest(nets: seq<int>, depositPercent: int)
    requires nets != [] && NonNegative(nets)
    ensures var g := Figures(nets, depositPercent); NearestPercent(g.vatFils, g.netFils, 5)
    ensures var g := Figures(nets, depositPercent); NearestPercent(g.depositFils, g.totalFils, depositPercent)
  {
    PercentShared(nets, VAT_PERCENT);
    var net, vat := Sum(nets), Percent(Sum(nets), VAT_PERCENT);
    assert NearestPercent(vat, net, 5) by { PercentIsNearest(net, 5); }
    assert NearestPercent(Percent(net + vat, depositPercent), net + vat, depositPercent) by {
      PercentIsNearest(net + vat, depositPercent);
    }
  }

  /**
   * A party's figures: each member's net is what their lines are charged and their products cost; the
   * tax is five per cent of all the nets, shared by them; and the deposit is its percentage of the
   * whole, shared by what each member pays with tax.
   */
  lemma PartyIsCharged(members: seq<Member>, depositPercent: int)
    requires members != [] && 0 <= depositPercent <= 100
    requires forall m :: m in members ==> NonNegative(m.lineFils) && m.productsFils >= 0
    ensures MoneyOf(members, depositPercent).Ok?
    ensures var g := MoneyOf(members, depositPercent).value;
      && |g.nets| == |g.vats| == |g.totals| == |members|
      && (forall i :: 0 <= i < |members| ==> g.nets[i] == Sum(Charges(members[i])) + members[i].productsFils)
      && (forall i :: 0 <= i < |members| ==> g.totals[i] == g.nets[i] + g.vats[i])
      && SharedBy(g.vats, g.vatFils, g.nets) && SharedBy(g.deposits, g.depositFils, g.totals)
      && NearestPercent(g.vatFils, g.netFils, 5) && NearestPercent(g.depositFils, g.totalFils, depositPercent)
  {
    NetsNonNegative(members);
    PartyAddsUp(members, depositPercent);
    MoneyIsFigures(members, depositPercent);
    FiguresAreFair(Nets(members), depositPercent);
    FiguresAreNearest(Nets(members), depositPercent);
  }
}
