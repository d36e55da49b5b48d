/**
 * A basket: ids of services and packages, as asked for, turned into priced services, and walked back
 * into the lines that were asked for.
 */
module Basket {
  import opened Basics
  import opened Money
  import opened Packages

  datatype Service = Service(id: string, priceFils: nat, currency: string)

  /** What the branch sells, by folded id. */
  type Catalogue = map<string, Service>

  predicate Keyed(catalogue: Catalogue, slug: Folding) {
    forall k :: k in catalogue ==> slug(catalogue[k].id) == k
  }

  datatype Basket = Basket(
    serviceIds: seq<string>, services: seq<Service>, pricesFils: seq<int>, origins: seq<Option<Origin>>,
    packages: seq<Expansion>, missing: seq<string>, totalFils: int)

  // ------------------------------------------------------------------ services as loaded

  function Find(catalogue: Catalogue, ids: seq<string>, slug: Folding): seq<Service> {
    if ids == [] then []
    else (if slug(ids[0]) in catalogue then [catalogue[slug(ids[0])]] else []) + Find(catalogue, ids[1..], slug)
  }

  /** Services answering to either spelling of an id, each with its own price. */
  class LoadedServices {
    const slug: Folding
    var byKey: map<string, Service>

    constructor (slug: Folding)
      ensures this.slug == slug && byKey == map[]
    {
      this.slug, byKey := slug, map[];
    }

    method Add(found: seq<Service>)
      modifies this
      ensures byKey == AddAll(old(byKey), found, slug)
    {
      assert found[0..] == found;
      for i := 0 to |found|
        invariant AddAll(byKey, found[i..], slug) == AddAll(old(byKey), found, slug)
      {
        assert found[i..][1..] == found[i + 1..];
        byKey := byKey[slug(found[i].id) := found[i]];
      }
      assert found[|found|..] == [];
    }
  }

  function AddAll(byKey: map<string, Service>, found: seq<Service>, slug: Folding): map<string, Service>
    decreases |found|
  {
    if found == [] then byKey else AddAll(byKey[slug(found[0].id) := found[0]], found[1..], slug)
  }

  function Folded(ids: seq<string>, slug: Folding): set<string> {
    set i | 0 <= i < |ids| :: slug(ids[i])
  }

  function Restrict(catalogue: Catalogue, keys: set<string>): Catalogue {
    map k | k in catalogue && k in keys :: catalogue[k]
  }

  /** Loading ids answers for exactly the ones the catalogue knows. */
  lemma {:induction false} AddFound(catalogue: Catalogue, keys: set<string>, ids: seq<string>, slug: Folding)
    requires Keyed(catalogue, slug)
    ensures AddAll(Restrict(catalogue, keys), Find(catalogue, ids, slug), slug)
      == Restrict(catalogue, keys + Folded(ids, slug))
    decreases |ids|
  {
    if ids == [] {
      assert keys + Folded(ids, slug) == keys;
    } else {
      var more := keys + {slug(ids[0])};
      assert more + Folded(ids[1..], slug) == keys + Folded(ids, slug) by {
        assert Folded(ids, slug) == {slug(ids[0])} + Folded(ids[1..], slug) by {
          forall k ensures k in Folded(ids, slug) <==> k in {slug(ids[0])} + Folded(ids[1..], slug) {
            if k in Folded(ids[1..], slug) {
              var i :| 0 <= i < |ids[1..]| && slug(ids[1..][i]) == k;
              assert ids[i + 1] == ids[1..][i];
            }
            if k in Folded(ids, slug) {
              var i :| 0 <= i < |ids| && slug(ids[i]) == k;
              if i > 0 { assert ids[1..][i - 1] == ids[i]; }
            }
          }
        }
      }
      AddFound(catalogue, more, ids[1..], slug);
      if slug(ids[0]) in catalogue {
        assert Restrict(catalogue, more) == Restrict(catalogue, keys)[slug(ids[0]) := catalogue[slug(ids[0])]];
        assert Find(catalogue, ids, slug)[1..] == Find(catalogue, ids[1..], slug);
      } else {
        assert Restrict(catalogue, more) == Restrict(catalogue, keys);
        assert Find(catalogue, ids, slug) == Find(catalogue, ids[1..], slug);
      }
    }
  }

  function ListPrice(loaded: map<string, Service>, slug: Folding): string -> int {
    id => if slug(id) in loaded then loaded[slug(id)].priceFils else 0
  }

  // ------------------------------------------------------------------ resolving

  function Unknown(ids: seq<string>, loaded: map<string, Service>, slug: Folding): seq<string> {
    if ids == [] then []
    else (if slug(ids[0]) in loaded then [] else [ids[0]]) + Unknown(ids[1..], loaded, slug)
  }

  /** The packages among the ids that are no service. */
  function PackagesAmong(sold: seq<Package>, unknown: seq<string>, lower: Folding): seq<Package> {
    if unknown == [] then []
    else
      var rest := PackagesAmong(sold, unknown[1..], lower);
      match FindPackage(sold, unknown[0], lower)
      case None => rest
      case Some(p) => [p] + rest
  }

  function AllParts(packages: seq<Package>): seq<string> {
    if packages == [] then [] else packages[0].serviceIds + AllParts(packages[1..])
  }

  function Currencies(found: seq<Service>): set<string> {
    set i | 0 <= i < |found| :: found[i].currency
  }

  /** Every currency that will be summed: each service's, each package's, each part's. */
  function AllCurrencies(ids: seq<string>, packages: seq<Package>, loaded: map<string, Service>, slug: Folding): set<string> {
    Currencies(Find(loaded, ids, slug)) + Currencies(Find(loaded, AllParts(packages), slug))
    + (set i | 0 <= i < |packages| :: packages[i].currency)
  }

  function Missing(parts: seq<Part>, loaded: map<string, Service>, slug: Folding): seq<string> {
    if parts == [] then []
    else (if slug(parts[0].serviceId) in loaded then [] else [parts[0].serviceId]) + Missing(parts[1..], loaded, slug)
  }

  function Present(parts: seq<Part>, loaded: map<string, Service>, slug: Folding): seq<Part> {
    if parts == [] then []
    else (if slug(parts[0].serviceId) in loaded then [parts[0]] else []) + Present(parts[1..], loaded, slug)
  }

  function PricesOf(parts: seq<Part>): seq<int> {
    seq(|parts|, i requires 0 <= i < |parts| => parts[i].priceFils)
  }

  function OriginsOf(parts: seq<Part>): seq<Option<Origin>> {
    seq(|parts|, i requires 0 <= i < |parts| => parts[i].origin)
  }

  function IdsOf(parts: seq<Part>): seq<string> {
    seq(|parts|, i requires 0 <= i < |parts| => parts[i].serviceId)
  }

  function Loaded(catalogue: Catalogue, sold: seq<Package>, ids: seq<string>, slug: Folding, lower: Folding)
    : map<string, Service>
  {
    var asked := Restrict(catalogue, Folded(ids, slug));
    Restrict(catalogue, Folded(ids, slug) + Folded(AllParts(PackagesAmong(sold, Unknown(ids, asked, slug), lower)), slug))
  }

  function InUse(catalogue: Catalogue, sold: seq<Package>, ids: seq<string>, slug: Folding, lower: Folding): seq<Package> {
    PackagesAmong(sold, Unknown(ids, Restrict(catalogue, Folded(ids, slug)), slug), lower)
  }

  function BasketOf(selection: Selection, loaded: map<string, Service>, slug: Folding): Basket {
    var present := Present(selection.parts, loaded, slug);
    Basket(IdsOf(selection.parts), Find(loaded, IdsOf(selection.parts), slug), PricesOf(present), OriginsOf(present),
           selection.expansions, Missing(selection.parts, loaded, slug), Sum(PricesOf(present)))
  }

  function Resolved(catalogue: Catalogue, sold: seq<Package>, ids: seq<string>, slug: Folding, lower: Folding): Result<Basket> {
    var loaded := Loaded(catalogue, sold, ids, slug, lower);
    var packages := InUse(catalogue, sold, ids, slug, lower);
    if |AllCurrencies(ids, packages, loaded, slug)| > 1 then Fail("BOOKING_CURRENCY_MIXED")
    else
      match Resolve(ids, packages, ListPrice(loaded, slug), lower)
      case Fail(why) => Fail(why)
      case Ok(selection) => Ok(BasketOf(selection, loaded, slug))
  }

  /** The packages are asked for only when some id is no service, and their parts only when there are any. */
  method ResolveBasket(catalogue: Catalogue, sold: seq<Package>, ids: seq<string>, slug: Folding, lower: Folding)
    returns (r: Result<Basket>)
    requires Keyed(catalogue, slug)
    ensures r == Resolved(catalogue, sold, ids, slug, lower)
  {
    var loaded := new LoadedServices(slug);
    AddFound(catalogue, {}, ids, slug);
    assert Restrict(catalogue, {}) == map[] && {} + Folded(ids, slug) == Folded(ids, slug);
    loaded.Add(Find(catalogue, ids, slug));
    var unknown := Unknown(ids, loaded.byKey, slug);
    var packages: seq<Package> := [];
    if |unknown| > 0 {
      packages := PackagesAmong(sold, unknown, lower);
      AddFound(catalogue, Folded(ids, slug), AllParts(packages), slug);
      loaded.Add(Find(catalogue, AllParts(packages), slug));
    } else {
      assert Folded(ids, slug) + Folded([], slug) == Folded(ids, slug);
    }
    if |AllCurrencies(ids, packages, loaded.byKey, slug)| > 1 {
      return Fail("BOOKING_CURRENCY_MIXED");
    }
    var selected := ResolveSelection(ids, packages, ListPrice(loaded.byKey, slug), lower);
    match selected {
      case Fail(why) =>
        return Fail(why);
      case Ok(selection) =>
        return Ok(BasketOf(selection, loaded.byKey, slug));
    }
  }

  // ------------------------------------------------------------------ the walk back

  /** One line as it was asked for: its parts are the basket's from `from` up to, not including, `to`. */
  datatype Line = Line(id: string, fils: int, from: nat, to: nat)

  datatype Span = Span(id: string, from: nat, to: nat)

  /** A slice that stops at the end, as the source's does. */
  function Slice<T>(s: seq<T>, from: nat, to: nat): seq<T> {
    var lo := if from <= |s| then from else |s|;
    var hi := if to <= |s| then to else |s|;
    if lo <= hi then s[lo..hi] else []
  }

  predicate IsNext(id: string, packages: seq<Expansion>, pkgAt: nat, lower: Folding) {
    pkgAt < |packages| && lower(packages[pkgAt].packageId) == lower(id)
  }

  function Width(id: string, packages: seq<Expansion>, pkgAt: nat, lower: Folding): nat {
    if IsNext(id, packages, pkgAt, lower) then |packages[pkgAt].serviceIds| else 1
  }

  function Walk(ids: seq<string>, packages: seq<Expansion>, at: nat, pkgAt: nat, lower: Folding): seq<Span> {
    if ids == [] then []
    else
      var to := at + Width(ids[0], packages, pkgAt, lower);
      [Span(ids[0], at, to)]
      + Walk(ids[1..], packages, to, if IsNext(ids[0], packages, pkgAt, lower) then pkgAt + 1 else pkgAt, lower)
  }

  function Charge(s: Span, prices: seq<int>): Line {
    Line(s.id, Sum(Slice(prices, s.from, s.to)), s.from, s.to)
  }

  function Charged(spans: seq<Span>, prices: seq<int>): seq<Line> {
    seq(|spans|, i requires 0 <= i < |spans| => Charge(spans[i], prices))
  }

  function Lines(ids: seq<string>, basket: Basket, lower: Folding): seq<Line> {
    Charged(Walk(ids, basket.packages, 0, 0, lower), basket.pricesFils)
  }

  method BasketLines(ids: seq<string>, basket: Basket, lower: Folding) returns (out: seq<Line>)
    ensures out == Lines(ids, basket, lower)
  {
    out := [];
    var at: nat, pkgAt: nat := 0, 0;
    ghost var done: seq<Span>, todo := [], Walk(ids, basket.packages, 0, 0, lower);
    assert ids[0..] == ids;
    for i := 0 to |ids|
      invariant todo == Walk(ids[i..], basket.packages, at, pkgAt, lower)
      invariant done + todo == Walk(ids, basket.packages, 0, 0, lower)
      invariant out == Charged(done, basket.pricesFils)
    {
      assert ids[i..][1..] == ids[i + 1..];
      var isPackage := IsNext(ids[i], basket.packages, pkgAt, lower);
      var width := if isPackage then |basket.packages[pkgAt].serviceIds| else 1;
      out := out + [Line(ids[i], Sum(Slice(basket.pricesFils, at, at + width)), at, at + width)];
      ghost var span := Span(ids[i], at, at + width);
      assert todo == [span] + todo[1..];
      Assoc(done, [span], todo[1..]);
      done, todo := done + [span], todo[1..];
      if isPackage { pkgAt := pkgAt + 1; }
      at := at + width;
    }
    assert todo == [] && done + [] == done;
  }

  // What one pick adds to the parallel arrays; nothing of it depends on which sale it is.

  function PriceBlock(pick: Pick): seq<int> {
    match pick
    case Hand(part) => [part.priceFils]
    case Sale(e) => e.partPrices
  }

  function IdBlock(pick: Pick): seq<string> {
    match pick
    case Hand(part) => [part.serviceId]
    case Sale(e) => e.serviceIds
  }

  /** What all the picks add to one of the arrays. */
  function AllOf<T>(picks: seq<Pick>, block: Pick -> seq<T>): seq<T> {
    if picks == [] then [] else block(picks[0]) + AllOf(picks[1..], block)
  }

  lemma {:induction false} BlocksOfParts(picks: seq<Pick>, sales: nat)
    requires AllWhole(picks)
    ensures PricesOf(PartsFrom(picks, sales)) == AllOf(picks, PriceBlock)
    ensures IdsOf(PartsFrom(picks, sales)) == AllOf(picks, IdBlock)
  {
    if picks != [] {
      var mine, rest := PartsAt(picks[0], sales), PartsFrom(picks[1..], sales + Bump(picks[0]));
      BlocksOfParts(picks[1..], sales + Bump(picks[0]));
      assert PricesOf(mine + rest) == PricesOf(mine) + PricesOf(rest) && IdsOf(mine + rest) == IdsOf(mine) + IdsOf(rest);
      assert PricesOf(mine) == PriceBlock(picks[0]) && IdsOf(mine) == IdBlock(picks[0]);
    }
  }

  /** The spans the picks make, laid end to end from `at`. */
  function SpansOf(ids: seq<string>, picks: seq<Pick>, at: nat): seq<Span>
    requires |ids| == |picks|
  {
    if ids == [] then []
    else
      var to := at + |PriceBlock(picks[0])|;
      [Span(ids[0], at, to)] + SpansOf(ids[1..], picks[1..], to)
  }

  lemma {:induction false} FindPackageNone(packages: seq<Package>, id: string, lower: Folding)
    ensures FindPackage(packages, id, lower).None? <==>
      forall i :: 0 <= i < |packages| ==> lower(packages[i].id) != lower(id)
    ensures FindPackage(packages, id, lower).Some? ==>
      FindPackage(packages, id, lower).value in packages && lower(FindPackage(packages, id, lower).value.id) == lower(id)
  {
    if packages != [] {
      FindPackageNone(packages[1..], id, lower);
      assert forall i :: 0 < i < |packages| ==> packages[i] == packages[1..][i - 1];
    }
  }

  ghost predicate FromPackages(e: Expansion, packages: seq<Package>) {
    exists i :: 0 <= i < |packages| && packages[i].id == e.packageId
  }

  lemma {:induction false} SalesFromPackages(
      ids: seq<string>, packages: seq<Package>, priceOf: string -> int, lower: Folding)
    requires Picks(ids, packages, priceOf, lower).Ok?
    ensures forall e :: e in Sales(Picks(ids, packages, priceOf, lower).value) ==> FromPackages(e, packages)
  {
    if ids != [] {
      SalesFromPackages(ids[1..], packages, priceOf, lower);
      FindPackageNone(packages, ids[0], lower);
      var p := FindPackage(packages, ids[0], lower);
      if p.Some? {
        ExpansionExact(p.value, priceOf);
        var i :| 0 <= i < |packages| && packages[i] == p.value;
        assert FromPackages(Expand(p.value, priceOf).value, packages);
      }
    }
  }

  /** A sale answers to its id, and a hand-picked id never to the sale that comes next. */
  ghost predicate Recognised(ids: seq<string>, picks: seq<Pick>, lower: Folding) {
    && |ids| == |picks|
    && (picks == [] || (
          && (picks[0].Sale? ==> lower(picks[0].expansion.packageId) == lower(ids[0]))
          && (picks[0].Hand? && Sales(picks) != [] ==> lower(Sales(picks)[0].packageId) != lower(ids[0]))
          && Recognised(ids[1..], picks[1..], lower)))
  }

  lemma {:induction false} PicksRecognised(ids: seq<string>, packages: seq<Package>, priceOf: string -> int, lower: Folding)
    requires Picks(ids, packages, priceOf, lower).Ok?
    ensures Recognised(ids, Picks(ids, packages, priceOf, lower).value, lower)
  {
    if ids != [] {
      var picks := Picks(ids, packages, priceOf, lower).value;
      PicksRecognised(ids[1..], packages, priceOf, lower);
      SalesFromPackages(ids, packages, priceOf, lower);
      FindPackageNone(packages, ids[0], lower);
      if picks[0].Sale? {
        ExpansionExact(FindPackage(packages, ids[0], lower).value, priceOf);
      } else if Sales(picks) != [] {
        assert FromPackages(Sales(picks)[0], packages);
      }
    }
  }

  lemma NextIsSale(ids: seq<string>, picks: seq<Pick>, packages: seq<Expansion>, pkgAt: nat, lower: Folding)
    requires ids != [] && Recognised(ids, picks, lower)
    requires pkgAt <= |packages| && packages[pkgAt..] == Sales(picks)
    ensures IsNext(ids[0], packages, pkgAt, lower) <==> picks[0].Sale?
  {
    if pkgAt < |packages| { assert packages[pkgAt] == packages[pkgAt..][0]; }
  }

  lemma Split<T>(all: seq<T>, at: nat, mine: seq<T>, rest: seq<T>)
    requires at <= |all| && all[at..] == mine + rest
    ensures at + |mine| <= |all| && all[at..at + |mine|] == mine && all[at + |mine|..] == rest
  {
    assert all[at..at + |mine|] == all[at..][..|mine|];
    assert all[at + |mine|..] == all[at..][|mine|..];
  }

  /** At every id the walk sees what the id's own pick is, and how wide. */
  ghost predicate Fits(ids: seq<string>, picks: seq<Pick>, packages: seq<Expansion>, pkgAt: nat, lower: Folding)
    decreases |ids|
  {
    && |ids| == |picks|
    && (ids == [] || (
          && (IsNext(ids[0], packages, pkgAt, lower) <==> picks[0].Sale?)
          && Width(ids[0], packages, pkgAt, lower) == |PriceBlock(picks[0])|
          && Fits(ids[1..], picks[1..], packages, pkgAt + Bump(picks[0]), lower)))
  }

  lemma {:induction false} PicksFit(ids: seq<string>, picks: seq<Pick>, packages: seq<Expansion>, pkgAt: nat, lower: Folding)
    requires Recognised(ids, picks, lower) && AllWhole(picks)
    requires pkgAt <= |packages| && packages[pkgAt..] == Sales(picks)
    ensures Fits(ids, picks, packages, pkgAt, lower)
    decreases |ids|
  {
    if ids != [] {
      FirstStep(ids, picks, packages, pkgAt, lower);
      PicksFit(ids[1..], picks[1..], packages, pkgAt + Bump(picks[0]), lower);
    }
  }

  /** The walk recognises every package where it stands, and nothing else as one. */
  lemma {:induction false} WalkExact(
      ids: seq<string>, picks: seq<Pick>, packages: seq<Expansion>, at: nat, pkgAt: nat, lower: Folding)
    requires Fits(ids, picks, packages, pkgAt, lower)
    ensures |ids| == |picks| && Walk(ids, packages, at, pkgAt, lower) == SpansOf(ids, picks, at)
    decreases |ids|
  {
    if ids != [] {
      WalkExact(ids[1..], picks[1..], packages, at + |PriceBlock(picks[0])|, pkgAt + Bump(picks[0]), lower);
    }
  }

  lemma FirstStep(ids: seq<string>, picks: seq<Pick>, packages: seq<Expansion>, pkgAt: nat, lower: Folding)
    requires ids != [] && Recognised(ids, picks, lower) && AllWhole(picks)
    requires pkgAt <= |packages| && packages[pkgAt..] == Sales(picks)
    ensures IsNext(ids[0], packages, pkgAt, lower) <==> picks[0].Sale?
    ensures Width(ids[0], packages, pkgAt, lower) == |PriceBlock(picks[0])|
    ensures pkgAt + Bump(picks[0]) <= |packages| && packages[pkgAt + Bump(picks[0])..] == Sales(picks[1..])
  {
    NextIsSale(ids, picks, packages, pkgAt, lower);
    Split(packages, pkgAt, if picks[0].Sale? then [picks[0].expansion] else [], Sales(picks[1..]));
    if picks[0].Sale? { assert packages[pkgAt..][0] == picks[0].expansion; }
  }

  // ------------------------------------------------------------------ what the lines are

  /** Nothing is missing: every part was found. */
  lemma {:induction false} NothingMissing(parts: seq<Part>, loaded: map<string, Service>, slug: Folding)
    requires Missing(parts, loaded, slug) == []
    ensures Present(parts, loaded, slug) == parts
    ensures |Find(loaded, IdsOf(parts), slug)| == |parts|
    ensures forall i :: 0 <= i < |parts| ==>
      slug(parts[i].serviceId) in loaded && Find(loaded, IdsOf(parts), slug)[i] == loaded[slug(parts[i].serviceId)]
  {
    if parts != [] {
      assert IdsOf(parts)[1..] == IdsOf(parts[1..]);
      NothingMissing(parts[1..], loaded, slug);
    }
  }

  /** Lines laid end to end: each begins where the one before it ended. */
  ghost predicate EndToEnd(lines: seq<Line>, from: nat, to: nat) {
    if lines == [] then from == to
    else lines[0].from == from < lines[0].to && EndToEnd(lines[1..], lines[0].to, to)
  }

  function TotalOf(lines: seq<Line>): int {
    if lines == [] then 0 else lines[0].fils + TotalOf(lines[1..])
  }

  /** Span `i` covers pick `i`'s own entries of any of the arrays. */
  lemma {:induction false} SpanCovers<T>(ids: seq<string>, picks: seq<Pick>, block: Pick -> seq<T>, all: seq<T>, at: nat, i: nat)
    requires |ids| == |picks| && AllWhole(picks) && i < |ids|
    requires forall p :: Whole(p) ==> |block(p)| == |PriceBlock(p)|
    requires at <= |all| && all[at..] == AllOf(picks, block)
    ensures |SpansOf(ids, picks, at)| == |ids|
    ensures var s := SpansOf(ids, picks, at)[i];
      s.id == ids[i] && s.from <= s.to <= |all| && all[s.from..s.to] == block(picks[i])
    decreases i
  {
    SpansLength(ids, picks, at);
    Split(all, at, block(picks[0]), AllOf(picks[1..], block));
    if i > 0 {
      SpanCovers(ids[1..], picks[1..], block, all, at + |block(picks[0])|, i - 1);
    }
  }

  lemma {:induction false} SpansLength(ids: seq<string>, picks: seq<Pick>, at: nat)
    requires |ids| == |picks|
    ensures |SpansOf(ids, picks, at)| == |ids|
  {
    if ids != [] { SpansLength(ids[1..], picks[1..], at + |PriceBlock(picks[0])|); }
  }

  lemma ChargedCons(span: Span, rest: seq<Span>, prices: seq<int>)
    ensures Charged([span] + rest, prices) == [Charge(span, prices)] + Charged(rest, prices)
  {}

  lemma {:induction false} LinesTile(ids: seq<string>, picks: seq<Pick>, prices: seq<int>, at: nat)
    requires |ids| == |picks| && AllWhole(picks) && at + |AllOf(picks, PriceBlock)| == |prices|
    ensures EndToEnd(Charged(SpansOf(ids, picks, at), prices), at, |prices|)
    decreases |ids|
  {
    if ids != [] {
      var to := at + |PriceBlock(picks[0])|;
      var rest := SpansOf(ids[1..], picks[1..], to);
      LinesTile(ids[1..], picks[1..], prices, to);
      ChargedCons(Span(ids[0], at, to), rest, prices);
      EndToEndCons(Charge(Span(ids[0], at, to), prices), Charged(rest, prices), |prices|);
    }
  }

  lemma EndToEndCons(first: Line, rest: seq<Line>, to: nat)
    requires first.from < first.to && EndToEnd(rest, first.to, to)
    ensures EndToEnd([first] + rest, first.from, to)
  {
    assert ([first] + rest)[1..] == rest;
  }

  lemma ChargeOfBlock(id: string, prices: seq<int>, at: nat, mine: seq<int>)
    requires at + |mine| <= |prices| && prices[at..at + |mine|] == mine
    ensures Charge(Span(id, at, at + |mine|), prices).fils == Sum(mine)
  {
    assert Slice(prices, at, at + |mine|) == prices[at..at + |mine|];
  }

  lemma {:induction false} LinesTotal(ids: seq<string>, picks: seq<Pick>, prices: seq<int>, at: nat)
    requires |ids| == |picks|
    requires at <= |prices| && prices[at..] == AllOf(picks, PriceBlock)
    ensures TotalOf(Charged(SpansOf(ids, picks, at), prices)) == Sum(AllOf(picks, PriceBlock))
    decreases |ids|
  {
    if ids != [] {
      var mine, rest := PriceBlock(picks[0]), AllOf(picks[1..], PriceBlock);
      Split(prices, at, mine, rest);
      LinesTotal(ids[1..], picks[1..], prices, at + |mine|);
      SumJoin(mine, rest);
      TotalCons(ids[0], at, mine, SpansOf(ids[1..], picks[1..], at + |mine|), prices);
    }
  }

  lemma TotalCons(id: string, at: nat, mine: seq<int>, rest: seq<Span>, prices: seq<int>)
    requires at + |mine| <= |prices| && prices[at..at + |mine|] == mine
    ensures TotalOf(Charged([Span(id, at, at + |mine|)] + rest, prices)) == Sum(mine) + TotalOf(Charged(rest, prices))
  {
    ChargedCons(Span(id, at, at + |mine|), rest, prices);
    ChargeOfBlock(id, prices, at, mine);
    var lines := [Charge(Span(id, at, at + |mine|), prices)] + Charged(rest, prices);
    assert lines[1..] == Charged(rest, prices);
  }

  /** Line `l` of a basket is exactly what its id stands for, expanded. */
  ghost predicate LineIsExpansion(
      l: Line, id: string, basket: Basket, packages: seq<Package>, priceOf: string -> int, lower: Folding)
  {
    && l.id == id && l.from <= l.to <= |basket.serviceIds| && l.to <= |basket.pricesFils|
    && match FindPackage(packages, id, lower)
       case None =>
         basket.serviceIds[l.from..l.to] == [id] && basket.pricesFils[l.from..l.to] == [priceOf(id)] && l.fils == priceOf(id)
       case Some(p) =>
         && Expand(p, priceOf).Ok?
         && basket.serviceIds[l.from..l.to] == p.serviceIds
         && basket.pricesFils[l.from..l.to] == Expand(p, priceOf).value.partPrices && l.fils == p.priceFils
  }

  /** The arrays of a basket with nothing missing are the picks' own entries, one after another. */
  lemma BasketArrays(picks: seq<Pick>, loaded: map<string, Service>, slug: Folding)
    requires AllWhole(picks) && Missing(PartsFrom(picks, 0), loaded, slug) == []
    ensures var b := BasketOf(Selection(PartsFrom(picks, 0), Sales(picks)), loaded, slug);
      && b.pricesFils == AllOf(picks, PriceBlock) && b.serviceIds == AllOf(picks, IdBlock)
      && |b.services| == |b.pricesFils| == |b.origins| == |b.serviceIds| && b.totalFils == Sum(AllOf(picks, PriceBlock))
  {
    BlocksOfParts(picks, 0);
    NothingMissing(PartsFrom(picks, 0), loaded, slug);
  }

  /**
   * Walking a basket back undoes resolving it. With nothing missing, for any mix of services and
   * packages, repeated or not: there is one line per id, in order; the lines are laid end to end over
   * all the services; line i is exactly the expansion of id i, a package at its own price; and the
   * lines add up to the basket's total.
   */
  lemma BasketLinesUndoResolve(catalogue: Catalogue, sold: seq<Package>, ids: seq<string>, slug: Folding, lower: Folding)
    requires Resolved(catalogue, sold, ids, slug, lower).Ok? && Resolved(catalogue, sold, ids, slug, lower).value.missing == []
    ensures var b := Resolved(catalogue, sold, ids, slug, lower).value; var lines := Lines(ids, b, lower);
      && |lines| == |ids| && |b.services| == |b.pricesFils| == |b.origins| == |b.serviceIds|
      && EndToEnd(lines, 0, |b.services|)
      && TotalOf(lines) == b.totalFils
      && (forall i :: 0 <= i < |ids| ==>
            LineIsExpansion(lines[i], ids[i], b, InUse(catalogue, sold, ids, slug, lower),
                            ListPrice(Loaded(catalogue, sold, ids, slug, lower), slug), lower))
  {
    var loaded, packages := Loaded(catalogue, sold, ids, slug, lower), InUse(catalogue, sold, ids, slug, lower);
    var priceOf := ListPrice(loaded, slug);
    var picks := Picks(ids, packages, priceOf, lower).value;
    PicksWhole(ids, packages, priceOf, lower);
    PicksRecognised(ids, packages, priceOf, lower);
    var b := Resolved(catalogue, sold, ids, slug, lower).value;
    assert b == BasketOf(Selection(PartsFrom(picks, 0), Sales(picks)), loaded, slug) by {
      assert [] + PartsFrom(picks, 0) == PartsFrom(picks, 0) && [] + Sales(picks) == Sales(picks);
    }
    BasketArrays(picks, loaded, slug);
    LinesOfArrays(ids, picks, b, lower);
    forall i: nat | i < |ids| ensures LineIsExpansion(Lines(ids, b, lower)[i], ids[i], b, packages, priceOf, lower) {
      PicksAnswer(ids, packages, priceOf, lower, i);
      OneLine(ids, packages, priceOf, lower, picks, b, i);
    }
  }

  lemma LinesOfArrays(ids: seq<string>, picks: seq<Pick>, b: Basket, lower: Folding)
    requires Recognised(ids, picks, lower) && AllWhole(picks)
    requires b.pricesFils == AllOf(picks, PriceBlock) && b.packages == Sales(picks)
    ensures |ids| == |picks| && Lines(ids, b, lower) == Charged(SpansOf(ids, picks, 0), b.pricesFils)
    ensures |Lines(ids, b, lower)| == |ids| && EndToEnd(Lines(ids, b, lower), 0, |b.pricesFils|)
    ensures TotalOf(Lines(ids, b, lower)) == Sum(AllOf(picks, PriceBlock))
  {
    assert b.pricesFils[0..] == b.pricesFils && b.packages[0..] == b.packages;
    PicksFit(ids, picks, b.packages, 0, lower);
    WalkExact(ids, picks, b.packages, 0, 0, lower);
    SpansLength(ids, picks, 0);
    LinesTile(ids, picks, b.pricesFils, 0);
    LinesTotal(ids, picks, b.pricesFils, 0);
  }

  lemma OneLine(
      ids: seq<string>, packages: seq<Package>, priceOf: string -> int, lower: Folding, picks: seq<Pick>, b: Basket, i: nat)
    requires |picks| == |ids| && AllWhole(picks) && i < |ids| && Ok(picks[i]) == PickFor(ids[i], packages, priceOf, lower)
    requires b.serviceIds == AllOf(picks, IdBlock) && b.pricesFils == AllOf(picks, PriceBlock)
    ensures |SpansOf(ids, picks, 0)| == |ids|
    ensures LineIsExpansion(Charge(SpansOf(ids, picks, 0)[i], b.pricesFils), ids[i], b, packages, priceOf, lower)
  {
    assert b.pricesFils[0..] == b.pricesFils && b.serviceIds[0..] == b.serviceIds;
    SpanCovers(ids, picks, PriceBlock, b.pricesFils, 0, i);
    SpanCovers(ids, picks, IdBlock, b.serviceIds, 0, i);
    WholeAt(picks, i);
    var p := FindPackage(packages, ids[i], lower);
    if p.Some? { ExpansionExact(p.value, priceOf); } else { assert Sum([priceOf(ids[i])]) == priceOf(ids[i]); }
  }

  lemma {:induction false} WholeAt(picks: seq<Pick>, i: nat)
    requires AllWhole(picks) && i < |picks|
    ensures Whole(picks[i])
  {
    if i > 0 { WholeAt(picks[1..], i - 1); }
  }

  // ------------------------------------------------------------------ why nothing may be missing

  /** A basket with an id missing is refused before it is walked: its missing line would take the next one's price. */
  lemma MissingShiftsTheLines()
    ensures var same := (id: string) => id;
      var parts := [Part("wax", 0, None), Part("cut", 100, None)];
      var b := BasketOf(Selection(parts, []), map["cut" := Service("cut", 100, "AED")], same);
      b.missing == ["wax"] && Lines(["wax", "cut"], b, same) == [Line("wax", 100, 0, 1), Line("cut", 0, 1, 2)]
  {
    var same := (id: string) => id;
    var loaded := map["cut" := Service("cut", 100, "AED")];
    var parts := [Part("wax", 0, None), Part("cut", 100, None)];
    assert parts[1..] == [parts[1]] && parts[1..][1..] == [];
    assert Present(parts, loaded, same) == [parts[1]];
    assert Missing(parts, loaded, same) == ["wax"];
    var b := BasketOf(Selection(parts, []), loaded, same);
    assert b.pricesFils == [100];
    WalkTwo("wax", "cut", same);
    assert Lines(["wax", "cut"], b, same) == Charged([Span("wax", 0, 1), Span("cut", 1, 2)], [100]);
  }

  lemma WalkTwo(one: string, other: string, lower: Folding)
    ensures Walk([one, other], [], 0, 0, lower) == [Span(one, 0, 1), Span(other, 1, 2)]
  {
    var ids := [one, other];
    assert ids[1..] == [other] && ids[1..][1..] == [];
    assert Walk(ids[1..], [], 1, 0, lower) == [Span(other, 1, 2)];
    assert Walk(ids, [], 0, 0, lower) == [Span(one, 0, 1)] + Walk(ids[1..], [], 1, 0, lower);
  }
}
