/**
 * Packages: one price for several services. A package stops existing when a selection is resolved
 * into priced parts; each part remembers which sale of which package it came from, and from that
 * alone the selection can be read back.
 */
module Packages {
  import opened Basics
  import opened Money

  /** How a spelling of an id becomes the key it is compared by. */
  type Folding = string -> string

  datatype Package = Package(id: string, priceFils: int, currency: string, serviceIds: seq<string>)

  /** Which sale of which package a part belongs to, counting sales from 0 in the order chosen. */
  datatype Origin = Origin(packageId: string, seqNo: nat)

  datatype Part = Part(serviceId: string, priceFils: int, origin: Option<Origin>)

  datatype Expansion = Expansion(packageId: string, serviceIds: seq<string>, partPrices: seq<int>, priceFils: int)

  datatype Selection = Selection(parts: seq<Part>, expansions: seq<Expansion>)

  function Prices(ids: seq<string>, priceOf: string -> int): seq<int> {
    seq(|ids|, i requires 0 <= i < |ids| => priceOf(ids[i]))
  }

  function Ones(n: nat): seq<int> {
    seq(n, _ => 1)
  }

  /** The package price over its parts by their own prices, or equally when the catalogue prices none. */
  function Expand(p: Package, priceOf: string -> int): Result<Expansion> {
    if p.serviceIds == [] then Fail("contains no services")
    else
      var list := Prices(p.serviceIds, priceOf);
      match Allocate(p.priceFils, if Sum(list) == 0 then Ones(|list|) else list)
      case Fail(why) => Fail(why)
      case Ok(shares) => Ok(Expansion(p.id, p.serviceIds, shares, p.priceFils))
  }

  /** Ids are compared in lower case: the first package that answers to the id. */
  function FindPackage(packages: seq<Package>, id: string, lower: Folding): Option<Package> {
    if packages == [] then None
    else if lower(packages[0].id) == lower(id) then Some(packages[0])
    else FindPackage(packages[1..], id, lower)
  }

  function PartsOf(e: Expansion, seqNo: nat): seq<Part>
    requires |e.partPrices| == |e.serviceIds|
  {
    seq(|e.serviceIds|, i requires 0 <= i < |e.serviceIds| =>
      Part(e.serviceIds[i], e.partPrices[i], Some(Origin(e.packageId, seqNo))))
  }

  lemma {:induction false} SumOnes(n: nat)
    ensures Sum(Ones(n)) == n && NonNegative(Ones(n))
  {
    if n > 0 {
      assert Ones(n)[1..] == Ones(n - 1);
      SumOnes(n - 1);
    }
  }

  /** The package's parts add up to the package's price, whatever the parts cost on their own. */
  lemma ExpansionExact(p: Package, priceOf: string -> int)
    ensures Expand(p, priceOf).Ok? ==>
      var e := Expand(p, priceOf).value;
      && e.packageId == p.id && e.serviceIds == p.serviceIds && e.serviceIds != [] && e.priceFils == p.priceFils
      && |e.partPrices| == |e.serviceIds| && Sum(e.partPrices) == p.priceFils
    ensures (p.serviceIds != [] && forall id :: id in p.serviceIds ==> priceOf(id) >= 0) ==> Expand(p, priceOf).Ok?
  {
    var list := Prices(p.serviceIds, priceOf);
    SumOnes(|list|);
    AllocateSums(p.priceFils, if Sum(list) == 0 then Ones(|list|) else list);
    if p.serviceIds != [] && forall id :: id in p.serviceIds ==> priceOf(id) >= 0 {
      assert NonNegative(list);
      SumNonNegative(list);
    }
  }

  /** By the prices, or equally when nothing costs anything. */
  ghost predicate SharedFairly(parts: seq<int>, fils: int, prices: seq<int>) {
    var weights := if Sum(prices) > 0 then prices else Ones(|prices|);
    Allocatable(weights) && FairParts(parts, fils, weights)
  }

  /** And they share it fairly by what they cost on their own, or equally when they cost nothing. */
  lemma ExpansionFair(p: Package, priceOf: string -> int, prices: seq<int>)
    requires p.serviceIds != [] && forall id :: id in p.serviceIds ==> priceOf(id) >= 0
    requires |prices| == |p.serviceIds| && forall i :: 0 <= i < |prices| ==> prices[i] == priceOf(p.serviceIds[i])
    ensures Expand(p, priceOf).Ok? && SharedFairly(Expand(p, priceOf).value.partPrices, p.priceFils, prices)
  {
    assert prices == Prices(p.serviceIds, priceOf);
    assert NonNegative(prices);
    SumNonNegative(prices);
    SumOnes(|prices|);
    var weights := if Sum(prices) == 0 then Ones(|prices|) else prices;
    AllocateIsFair(p.priceFils, weights);
    assert Expand(p, priceOf).value.partPrices == Allocate(p.priceFils, weights).value;
  }

  // ------------------------------------------------------------------ one pass over the ids

  datatype Pick = Hand(part: Part) | Sale(expansion: Expansion)

  function PickFor(
      id: string, packages: seq<Package>, priceOf: string -> int, lower: Folding): Result<Pick>
  {
    match FindPackage(packages, id, lower)
    case None => Ok(Hand(Part(id, priceOf(id), None)))
    case Some(p) =>
      match Expand(p, priceOf)
      case Fail(why) => Fail(why)
      case Ok(e) => Ok(Sale(e))
  }

  /** What each id stands for, in the order chosen. */
  function Picks(
      ids: seq<string>, packages: seq<Package>, priceOf: string -> int, lower: Folding): Result<seq<Pick>>
  {
    if ids == [] then Ok([])
    else
      match PickFor(ids[0], packages, priceOf, lower)
      case Fail(why) => Fail(why)
      case Ok(pick) =>
        match Picks(ids[1..], packages, priceOf, lower)
        case Fail(why) => Fail(why)
        case Ok(rest) => Ok([pick] + rest)
  }

  predicate Whole(pick: Pick) {
    pick.Hand? || |pick.expansion.partPrices| == |pick.expansion.serviceIds| > 0
  }

  predicate AllWhole(picks: seq<Pick>) {
    picks == [] || (Whole(picks[0]) && AllWhole(picks[1..]))
  }

  /** Each sale's parts add up to its package's price. */
  predicate AllPriced(picks: seq<Pick>) {
    picks == [] || (
      (picks[0].Hand? || Sum(picks[0].expansion.partPrices) == picks[0].expansion.priceFils) && AllPriced(picks[1..]))
  }

  function PartsAt(pick: Pick, sales: nat): seq<Part>
    requires Whole(pick)
  {
    match pick
    case Hand(part) => [part]
    case Sale(e) => PartsOf(e, sales)
  }

  function Bump(pick: Pick): nat { if pick.Sale? then 1 else 0 }

  /** All parts, the sales numbered from `sales` on. */
  function PartsFrom(picks: seq<Pick>, sales: nat): seq<Part>
    requires AllWhole(picks)
  {
    if picks == [] then [] else PartsAt(picks[0], sales) + PartsFrom(picks[1..], sales + Bump(picks[0]))
  }

  function Sales(picks: seq<Pick>): seq<Expansion> {
    if picks == [] then []
    else (if picks[0].Sale? then [picks[0].expansion] else []) + Sales(picks[1..])
  }

  lemma {:induction false} PicksWhole(ids: seq<string>, packages: seq<Package>, priceOf: string -> int, lower: Folding)
    requires Picks(ids, packages, priceOf, lower).Ok?
    ensures |Picks(ids, packages, priceOf, lower).value| == |ids| && AllWhole(Picks(ids, packages, priceOf, lower).value)
    ensures AllPriced(Picks(ids, packages, priceOf, lower).value)
  {
    if ids != [] {
      PicksWhole(ids[1..], packages, priceOf, lower);
      var p := FindPackage(packages, ids[0], lower);
      if p.Some? { ExpansionExact(p.value, priceOf); }
    }
  }

  /** What is pushed already, and the rest of the ids resolved behind it. */
  function Finish(
      parts: seq<Part>, expansions: seq<Expansion>, ids: seq<string>, packages: seq<Package>,
      priceOf: string -> int, lower: Folding): Result<Selection>
  {
    match Picks(ids, packages, priceOf, lower)
    case Fail(why) => Fail(why)
    case Ok(picks) =>
      PicksWhole(ids, packages, priceOf, lower);
      Ok(Selection(parts + PartsFrom(picks, |expansions|), expansions + Sales(picks)))
  }

  function Resolve(ids: seq<string>, packages: seq<Package>, priceOf: string -> int, lower: Folding): Result<Selection> {
    Finish([], [], ids, packages, priceOf, lower)
  }

  lemma FinishOne(
      parts: seq<Part>, expansions: seq<Expansion>, ids: seq<string>, packages: seq<Package>,
      priceOf: string -> int, lower: Folding, pick: Pick)
    requires ids != [] && PickFor(ids[0], packages, priceOf, lower) == Ok(pick) && Whole(pick)
    ensures Finish(parts, expansions, ids, packages, priceOf, lower)
      == Finish(parts + PartsAt(pick, |expansions|), expansions + (if pick.Sale? then [pick.expansion] else []),
                ids[1..], packages, priceOf, lower)
  {
    var rest := Picks(ids[1..], packages, priceOf, lower);
    if rest.Ok? {
      PicksWhole(ids, packages, priceOf, lower);
      PicksWhole(ids[1..], packages, priceOf, lower);
      assert ([pick] + rest.value)[1..] == rest.value;
      Assoc(parts, PartsAt(pick, |expansions|), PartsFrom(rest.value, |expansions| + Bump(pick)));
      Assoc(expansions, if pick.Sale? then [pick.expansion] else [], Sales(rest.value));
    }
  }

  /** The loop of the source: one pass that pushes parts and expansions as it goes. */
  method ResolveSelection(ids: seq<string>, packages: seq<Package>, priceOf: string -> int, lower: Folding)
    returns (r: Result<Selection>)
    ensures r == Resolve(ids, packages, priceOf, lower)
  {
    var parts: seq<Part> := [];
    var expansions: seq<Expansion> := [];
    assert ids[0..] == ids;
    for i := 0 to |ids|
      invariant Finish(parts, expansions, ids[i..], packages, priceOf, lower) == Resolve(ids, packages, priceOf, lower)
    {
      assert ids[i..][1..] == ids[i + 1..];
      match FindPackage(packages, ids[i], lower) {
        case None =>
          var part := Part(ids[i], priceOf(ids[i]), None);
          FinishOne(parts, expansions, ids[i..], packages, priceOf, lower, Hand(part));
          assert expansions + [] == expansions;
          parts := parts + [part];
        case Some(p) =>
          ExpansionExact(p, priceOf);
          match Expand(p, priceOf) {
            case Fail(why) =>
              return Fail(why);
            case Ok(e) =>
              FinishOne(parts, expansions, ids[i..], packages, priceOf, lower, Sale(e));
              parts, expansions := parts + PartsOf(e, |expansions|), expansions + [e];
          }
      }
    }
    assert ids[|ids|..] == [] && parts + [] == parts && expansions + [] == expansions;
    r := Ok(Selection(parts, expansions));
  }

  // ------------------------------------------------------------------ reading it back

  datatype Asked = AskedService(id: string) | AskedPackage(id: string)

  /** A sale as a line records it: the package's lower-case id and which sale of it. */
  function SaleKey(o: Origin, lower: Folding): (string, nat) {
    (lower(o.packageId), o.seqNo)
  }

  /** Each run of lines of one sale is the package once; a hand-picked line is itself. */
  function AskedFor(items: seq<Part>, last: Option<(string, nat)>, lower: Folding): seq<Asked> {
    if items == [] then []
    else
      match items[0].origin
      case None => [AskedService(items[0].serviceId)] + AskedFor(items[1..], None, lower)
      case Some(o) =>
        (if Some(SaleKey(o, lower)) == last then [] else [AskedPackage(o.packageId)])
        + AskedFor(items[1..], Some(SaleKey(o, lower)), lower)
  }

  method AskedForLoop(items: seq<Part>, lower: Folding) returns (out: seq<Asked>)
    ensures out == AskedFor(items, None, lower)
  {
    out := [];
    var last: Option<(string, nat)> := None;
    for i := 0 to |items|
      invariant out + AskedFor(items[i..], last, lower) == AskedFor(items, None, lower)
    {
      assert items[i..][1..] == items[i + 1..];
      match items[i].origin {
        case None =>
          assert out + ([AskedService(items[i].serviceId)] + AskedFor(items[i + 1..], None, lower))
              == (out + [AskedService(items[i].serviceId)]) + AskedFor(items[i + 1..], None, lower);
          out, last := out + [AskedService(items[i].serviceId)], None;
        case Some(o) =>
          var sale := Some(SaleKey(o, lower));
          ghost var rest := AskedFor(items[i + 1..], sale, lower);
          if sale != last {
            assert out + ([AskedPackage(o.packageId)] + rest) == (out + [AskedPackage(o.packageId)]) + rest;
            out := out + [AskedPackage(o.packageId)];
          } else {
            assert [] + rest == rest;
          }
          last := sale;
      }
    }
    assert out + AskedFor(items[|items|..], last, lower) == out;
  }

  function AskedOf(picks: seq<Pick>): seq<Asked> {
    seq(|picks|, i requires 0 <= i < |picks| =>
      if picks[i].Hand? then AskedService(picks[i].part.serviceId) else AskedPackage(picks[i].expansion.packageId))
  }

  /** A hand-picked part belongs to no sale. */
  predicate HandsFree(picks: seq<Pick>) {
    forall i :: 0 <= i < |picks| && picks[i].Hand? ==> picks[i].part.origin.None?
  }

  lemma {:induction false} RunOfOneSale(items: seq<Part>, rest: seq<Part>, o: Origin, lower: Folding)
    requires forall i :: 0 <= i < |items| ==> items[i].origin == Some(o)
    ensures AskedFor(items + rest, Some(SaleKey(o, lower)), lower) == AskedFor(rest, Some(SaleKey(o, lower)), lower)
  {
    if items == [] {
      assert items + rest == rest;
    } else {
      assert (items + rest)[1..] == items[1..] + rest;
      RunOfOneSale(items[1..], rest, o, lower);
    }
  }

  lemma OneSaleAsked(parts: seq<Part>, o: Origin, rest: seq<Part>, last: Option<(string, nat)>, lower: Folding)
    requires parts != [] && (forall i :: 0 <= i < |parts| ==> parts[i].origin == Some(o))
    requires last != Some(SaleKey(o, lower))
    ensures AskedFor(parts + rest, last, lower)
      == [AskedPackage(o.packageId)] + AskedFor(rest, Some(SaleKey(o, lower)), lower)
  {
    assert (parts + rest)[1..] == parts[1..] + rest;
    RunOfOneSale(parts[1..], rest, o, lower);
  }

  lemma {:induction false} AskedForParts(picks: seq<Pick>, sales: nat, last: Option<(string, nat)>, lower: Folding)
    requires AllWhole(picks) && HandsFree(picks) && (last.Some? ==> last.value.1 < sales)
    ensures AskedFor(PartsFrom(picks, sales), last, lower) == AskedOf(picks)
  {
    if picks != [] {
      var rest := PartsFrom(picks[1..], sales + Bump(picks[0]));
      assert AskedOf(picks)[1..] == AskedOf(picks[1..]);
      match picks[0] {
        case Hand(part) =>
          assert ([part] + rest)[1..] == rest;
          AskedForParts(picks[1..], sales, None, lower);
        case Sale(e) =>
          OneSaleAsked(PartsOf(e, sales), Origin(e.packageId, sales), rest, last, lower);
          AskedForParts(picks[1..], sales + 1, Some(SaleKey(Origin(e.packageId, sales), lower)), lower);
      }
    }
  }

  lemma {:induction false} PicksAnswer(
      ids: seq<string>, packages: seq<Package>, priceOf: string -> int, lower: Folding, i: nat)
    requires Picks(ids, packages, priceOf, lower).Ok? && i < |ids|
    ensures |Picks(ids, packages, priceOf, lower).value| == |ids|
    ensures Ok(Picks(ids, packages, priceOf, lower).value[i]) == PickFor(ids[i], packages, priceOf, lower)
  {
    if i > 0 {
      PicksAnswer(ids[1..], packages, priceOf, lower, i - 1);
    } else if |ids| > 1 {
      PicksAnswer(ids[1..], packages, priceOf, lower, 0);
    }
  }

  /**
   * Reading back undoes resolving: from the stored parts alone, in any selection, each package comes
   * back once per sale, in its own place, even when the same package was chosen twice in a row.
   */
  lemma AskedForUndoesResolve(ids: seq<string>, packages: seq<Package>, priceOf: string -> int, lower: Folding)
    requires Resolve(ids, packages, priceOf, lower).Ok?
    ensures var asked := AskedFor(Resolve(ids, packages, priceOf, lower).value.parts, None, lower);
      && |asked| == |ids|
      && (forall i :: 0 <= i < |ids| ==>
            match FindPackage(packages, ids[i], lower)
            case None => asked[i] == AskedService(ids[i])
            case Some(p) => asked[i] == AskedPackage(p.id))
  {
    var picks := Picks(ids, packages, priceOf, lower).value;
    PicksWhole(ids, packages, priceOf, lower);
    forall i: nat | i < |ids|
      ensures Ok(picks[i]) == PickFor(ids[i], packages, priceOf, lower)
      ensures match FindPackage(packages, ids[i], lower)
        case None => AskedOf(picks)[i] == AskedService(ids[i])
        case Some(p) => AskedOf(picks)[i] == AskedPackage(p.id)
    {
      PicksAnswer(ids, packages, priceOf, lower, i);
    }
    AskedForParts(picks, 0, None, lower);
    assert [] + PartsFrom(picks, 0) == PartsFrom(picks, 0);
  }

  // ------------------------------------------------------------------ what was sold

  datatype Sold = Sold(sale: (string, nat), prices: seq<int>, serviceIds: seq<string>)

  /** One line more, under its sale: an entry of its own the first time, the same entry after that. */
  function AddLine(entries: seq<Sold>, sale: (string, nat), line: Part): seq<Sold> {
    if entries == [] then [Sold(sale, [line.priceFils], [line.serviceId])]
    else if entries[0].sale == sale then
      [Sold(sale, entries[0].prices + [line.priceFils], entries[0].serviceIds + [line.serviceId])] + entries[1..]
    else [entries[0]] + AddLine(entries[1..], sale, line)
  }

  function SoldFrom(items: seq<Part>, entries: seq<Sold>, lower: Folding): seq<Sold>
    decreases |items|
  {
    if items == [] then entries
    else if items[0].origin.None? then SoldFrom(items[1..], entries, lower)
    else SoldFrom(items[1..], AddLine(entries, SaleKey(items[0].origin.value, lower), items[0]), lower)
  }

  function SoldOf(picks: seq<Pick>, sales: nat, lower: Folding): seq<Sold> {
    if picks == [] then []
    else
      (match picks[0]
       case Hand(_) => []
       case Sale(e) => [Sold((lower(e.packageId), sales), e.partPrices, e.serviceIds)])
      + SoldOf(picks[1..], sales + Bump(picks[0]), lower)
  }

  lemma {:induction false} AddFresh(entries: seq<Sold>, sale: (string, nat), line: Part)
    requires forall i :: 0 <= i < |entries| ==> entries[i].sale != sale
    ensures AddLine(entries, sale, line) == entries + [Sold(sale, [line.priceFils], [line.serviceId])]
  {
    if entries != [] { AddFresh(entries[1..], sale, line); }
  }

  lemma {:induction false} AddToLast(entries: seq<Sold>, s: Sold, line: Part)
    requires forall i :: 0 <= i < |entries| ==> entries[i].sale != s.sale
    ensures AddLine(entries + [s], s.sale, line)
      == entries + [Sold(s.sale, s.prices + [line.priceFils], s.serviceIds + [line.serviceId])]
  {
    if entries != [] {
      assert (entries + [s])[1..] == entries[1..] + [s];
      AddToLast(entries[1..], s, line);
    }
  }

  /** The lines `from`.. of one sale, after an entry that holds the ones before. */
  lemma {:induction false} RunSold(e: Expansion, sales: nat, from: nat, rest: seq<Part>, entries: seq<Sold>, lower: Folding)
    requires |e.partPrices| == |e.serviceIds| && 0 < from <= |e.serviceIds|
    requires forall i :: 0 <= i < |entries| ==> entries[i].sale != (lower(e.packageId), sales)
    ensures SoldFrom(PartsOf(e, sales)[from..] + rest,
                     entries + [Sold((lower(e.packageId), sales), e.partPrices[..from], e.serviceIds[..from])], lower)
      == SoldFrom(rest, entries + [Sold((lower(e.packageId), sales), e.partPrices, e.serviceIds)], lower)
    decreases |e.serviceIds| - from
  {
    var parts := PartsOf(e, sales);
    var s := Sold((lower(e.packageId), sales), e.partPrices[..from], e.serviceIds[..from]);
    if from == |e.serviceIds| {
      assert parts[from..] + rest == rest && e.partPrices[..from] == e.partPrices && e.serviceIds[..from] == e.serviceIds;
    } else {
      assert (parts[from..] + rest)[1..] == parts[from + 1..] + rest;
      AddToLast(entries, s, parts[from]);
      assert e.partPrices[..from] + [e.partPrices[from]] == e.partPrices[..from + 1];
      assert e.serviceIds[..from] + [e.serviceIds[from]] == e.serviceIds[..from + 1];
      RunSold(e, sales, from + 1, rest, entries, lower);
    }
  }

  lemma SaleSold(e: Expansion, sales: nat, rest: seq<Part>, entries: seq<Sold>, lower: Folding)
    requires |e.partPrices| == |e.serviceIds| > 0
    requires forall i :: 0 <= i < |entries| ==> entries[i].sale != (lower(e.packageId), sales)
    ensures SoldFrom(PartsOf(e, sales) + rest, entries, lower)
      == SoldFrom(rest, entries + [Sold((lower(e.packageId), sales), e.partPrices, e.serviceIds)], lower)
  {
    var parts := PartsOf(e, sales);
    assert (parts + rest)[1..] == parts[1..] + rest;
    AddFresh(entries, (lower(e.packageId), sales), parts[0]);
    assert e.partPrices[..1] == [e.partPrices[0]] && e.serviceIds[..1] == [e.serviceIds[0]];
    RunSold(e, sales, 1, rest, entries, lower);
  }

  lemma {:induction false} SoldParts(picks: seq<Pick>, sales: nat, entries: seq<Sold>, lower: Folding)
    requires AllWhole(picks) && HandsFree(picks)
    requires forall i :: 0 <= i < |entries| ==> entries[i].sale.1 < sales
    ensures SoldFrom(PartsFrom(picks, sales), entries, lower) == entries + SoldOf(picks, sales, lower)
    decreases |picks|
  {
    if picks == [] {
      assert entries + SoldOf(picks, sales, lower) == entries;
    } else {
      var rest := PartsFrom(picks[1..], sales + Bump(picks[0]));
      match picks[0] {
        case Hand(part) =>
          assert ([part] + rest)[1..] == rest;
          SoldParts(picks[1..], sales, entries, lower);
          assert [] + SoldOf(picks[1..], sales, lower) == SoldOf(picks, sales, lower);
        case Sale(e) =>
          var s := Sold((lower(e.packageId), sales), e.partPrices, e.serviceIds);
          SaleSold(e, sales, rest, entries, lower);
          SoldParts(picks[1..], sales + 1, entries + [s], lower);
          Assoc(entries, [s], SoldOf(picks[1..], sales + 1, lower));
      }
    }
  }

  /**
   * What a booking's lines say was sold is what was sold: every sale once, in the order chosen, with
   * all its services, and at its package's price; the same package twice is two sales.
   */
  lemma PackagesSoldExact(ids: seq<string>, packages: seq<Package>, priceOf: string -> int, lower: Folding)
    requires Resolve(ids, packages, priceOf, lower).Ok?
    ensures var r := Resolve(ids, packages, priceOf, lower).value; var sold := SoldFrom(r.parts, [], lower);
      && |sold| == |r.expansions|
      && (forall k :: 0 <= k < |sold| ==>
            && sold[k].sale == (lower(r.expansions[k].packageId), k)
            && sold[k].serviceIds == r.expansions[k].serviceIds
            && Sum(sold[k].prices) == r.expansions[k].priceFils)
  {
    var picks := Picks(ids, packages, priceOf, lower).value;
    PicksWhole(ids, packages, priceOf, lower);
    forall i: nat | i < |ids| ensures Ok(picks[i]) == PickFor(ids[i], packages, priceOf, lower) {
      PicksAnswer(ids, packages, priceOf, lower, i);
    }
    SoldParts(picks, 0, [], lower);
    assert [] + PartsFrom(picks, 0) == PartsFrom(picks, 0) && [] + Sales(picks) == Sales(picks);
    assert [] + SoldOf(picks, 0, lower) == SoldOf(picks, 0, lower);
    SoldOfSales(picks, 0, lower);
  }

  lemma {:induction false} SoldOfSales(picks: seq<Pick>, sales: nat, lower: Folding)
    requires AllPriced(picks)
    ensures |SoldOf(picks, sales, lower)| == |Sales(picks)|
    ensures forall k :: 0 <= k < |Sales(picks)| ==>
      && SoldOf(picks, sales, lower)[k] == Sold((lower(Sales(picks)[k].packageId), sales + k), Sales(picks)[k].partPrices, Sales(picks)[k].serviceIds)
      && Sum(Sales(picks)[k].partPrices) == Sales(picks)[k].priceFils
  {
    if picks != [] { SoldOfSales(picks[1..], sales + Bump(picks[0]), lower); }
  }
}
