/**
 * When a basket is good, said of the catalogue, the packages sold and the ids alone: every id is a
 * service or a package, every package bought has parts and the branch has all of them, and everything
 * that is summed is in one currency.
 */
module BasketMeaning {
  import opened Basics
  import opened Money
  import opened Packages
  import opened Basket

  /** The first package sold under an id that is no service of the branch. */
  ghost predicate Bought(p: Package, catalogue: Catalogue, sold: seq<Package>, ids: seq<string>, slug: Folding, lower: Folding) {
    exists i :: 0 <= i < |ids| && slug(ids[i]) !in catalogue && FirstNamed(p, sold, ids[i], lower)
  }

  ghost predicate FirstNamed(p: Package, sold: seq<Package>, id: string, lower: Folding) {
    exists k :: 0 <= k < |sold| && sold[k] == p && lower(p.id) == lower(id) && NoneBefore(sold, k, id, lower)
  }

  ghost predicate NoneBefore(sold: seq<Package>, k: nat, id: string, lower: Folding)
    requires k <= |sold|
  {
    forall j :: 0 <= j < k ==> lower(sold[j].id) != lower(id)
  }

  ghost predicate NoneNamed(sold: seq<Package>, id: string, lower: Folding) {
    NoneBefore(sold, |sold|, id, lower)
  }

  lemma {:induction false} FindsFirst(sold: seq<Package>, id: string, lower: Folding)
    ensures FindPackage(sold, id, lower).None? ==> NoneNamed(sold, id, lower)
    ensures FindPackage(sold, id, lower).Some? ==> FirstNamed(FindPackage(sold, id, lower).value, sold, id, lower)
  {
    if sold != [] && lower(sold[0].id) != lower(id) {
      FindsFirst(sold[1..], id, lower);
      if FindPackage(sold, id, lower).Some? {
        var p := FindPackage(sold, id, lower).value;
        var k :| 0 <= k < |sold[1..]| && sold[1..][k] == p && NoneBefore(sold[1..], k, id, lower);
        forall j | 0 <= j < k + 1 ensures lower(sold[j].id) != lower(id) {
          if j > 0 { assert sold[j] == sold[1..][j - 1]; }
        }
        assert sold[k + 1] == p && NoneBefore(sold, k + 1, id, lower);
      } else {
        forall j | 0 <= j < |sold| ensures lower(sold[j].id) != lower(id) {
          if j > 0 { assert sold[j] == sold[1..][j - 1]; }
        }
      }
    } else if sold != [] {
      assert sold[0] == FindPackage(sold, id, lower).value && NoneBefore(sold, 0, id, lower);
    }
  }

  lemma FirstIsOne(p: Package, q: Package, sold: seq<Package>, id: string, lower: Folding)
    requires FirstNamed(p, sold, id, lower) && FirstNamed(q, sold, id, lower)
    ensures p == q
  {
    var k :| 0 <= k < |sold| && sold[k] == p && lower(p.id) == lower(id) && NoneBefore(sold, k, id, lower);
    var j :| 0 <= j < |sold| && sold[j] == q && lower(q.id) == lower(id) && NoneBefore(sold, j, id, lower);
    assert k == j;
  }

  /** The first package under an id is what a search for it finds. */
  lemma FindIff(p: Package, sold: seq<Package>, id: string, lower: Folding)
    ensures FindPackage(sold, id, lower) == Some(p) <==> FirstNamed(p, sold, id, lower)
  {
    FindsFirst(sold, id, lower);
    var found := FindPackage(sold, id, lower);
    if FirstNamed(p, sold, id, lower) {
      assert found.Some?;
      FirstIsOne(p, found.value, sold, id, lower);
    }
  }

  lemma {:induction false} UnknownExact(ids: seq<string>, loaded: map<string, Service>, slug: Folding, id: string)
    ensures id in Unknown(ids, loaded, slug) <==> id in ids && slug(id) !in loaded
  {
    if ids != [] { UnknownExact(ids[1..], loaded, slug, id); }
  }

  lemma {:induction false} AmongExact(sold: seq<Package>, unknown: seq<string>, lower: Folding, p: Package)
    ensures p in PackagesAmong(sold, unknown, lower) <==> exists id :: id in unknown && FirstNamed(p, sold, id, lower)
  {
    if unknown != [] {
      AmongExact(sold, unknown[1..], lower, p);
      FindIff(p, sold, unknown[0], lower);
      assert forall id :: id in unknown <==> id == unknown[0] || id in unknown[1..];
    }
  }

  /** The packages in use are the ones bought. */
  lemma InUseIsBought(catalogue: Catalogue, sold: seq<Package>, ids: seq<string>, slug: Folding, lower: Folding, p: Package)
    ensures p in InUse(catalogue, sold, ids, slug, lower) <==> Bought(p, catalogue, sold, ids, slug, lower)
  {
    var asked := Restrict(catalogue, Folded(ids, slug));
    AmongExact(sold, Unknown(ids, asked, slug), lower, p);
    forall i | 0 <= i < |ids| ensures slug(ids[i]) in asked <==> slug(ids[i]) in catalogue {
      assert slug(ids[i]) in Folded(ids, slug);
    }
    forall id ensures id in Unknown(ids, asked, slug) <==> id in ids && slug(id) !in catalogue {
      UnknownExact(ids, asked, slug, id);
    }
  }

  lemma {:induction false} AllPartsExact(packages: seq<Package>, id: string)
    ensures id in AllParts(packages) <==> exists p :: p in packages && id in p.serviceIds
  {
    if packages != [] {
      AllPartsExact(packages[1..], id);
      assert forall p :: p in packages <==> p == packages[0] || p in packages[1..];
    }
  }

  /** What is loaded for an id asked for, or a part of a package bought, is what the branch has. */
  lemma LoadedIsTheBranchs(catalogue: Catalogue, sold: seq<Package>, ids: seq<string>, slug: Folding, lower: Folding, id: string)
    requires id in ids || exists p :: Bought(p, catalogue, sold, ids, slug, lower) && id in p.serviceIds
    ensures var loaded := Loaded(catalogue, sold, ids, slug, lower);
      && (slug(id) in loaded <==> slug(id) in catalogue)
      && (slug(id) in loaded ==> loaded[slug(id)] == catalogue[slug(id)])
  {
    var packages := InUse(catalogue, sold, ids, slug, lower);
    if id in ids {
      assert slug(id) in Folded(ids, slug);
    } else {
      var p :| Bought(p, catalogue, sold, ids, slug, lower) && id in p.serviceIds;
      InUseIsBought(catalogue, sold, ids, slug, lower, p);
      AllPartsExact(packages, id);
      assert slug(id) in Folded(AllParts(packages), slug);
    }
  }

  // ------------------------------------------------------------------ the conditions

  /** Every id is a service of the branch or a package sold. */
  ghost predicate AllKnown(catalogue: Catalogue, sold: seq<Package>, ids: seq<string>, slug: Folding, lower: Folding) {
    forall i :: 0 <= i < |ids| ==> slug(ids[i]) in catalogue || !NoneNamed(sold, ids[i], lower)
  }

  ghost predicate HasAllParts(p: Package, catalogue: Catalogue, slug: Folding) {
    p.serviceIds != [] && forall id :: id in p.serviceIds ==> slug(id) in catalogue
  }

  ghost predicate PackagesWhole(catalogue: Catalogue, sold: seq<Package>, ids: seq<string>, slug: Folding, lower: Folding) {
    forall p :: Bought(p, catalogue, sold, ids, slug, lower) ==> HasAllParts(p, catalogue, slug)
  }

  /** The currency of a service asked for, of a package bought, or of a service that is its part. */
  ghost predicate Summed(
      c: string, catalogue: Catalogue, sold: seq<Package>, ids: seq<string>, slug: Folding, lower: Folding)
  {
    || (exists id :: id in ids && slug(id) in catalogue && catalogue[slug(id)].currency == c)
    || (exists p :: Bought(p, catalogue, sold, ids, slug, lower) && (p.currency == c || PartIn(p, c, catalogue, slug)))
  }

  ghost predicate PartIn(p: Package, c: string, catalogue: Catalogue, slug: Folding) {
    exists id :: id in p.serviceIds && slug(id) in catalogue && catalogue[slug(id)].currency == c
  }

  ghost predicate OneCurrency(catalogue: Catalogue, sold: seq<Package>, ids: seq<string>, slug: Folding, lower: Folding) {
    forall c, e :: Summed(c, catalogue, sold, ids, slug, lower) && Summed(e, catalogue, sold, ids, slug, lower) ==> c == e
  }

  lemma {:induction false} CurrenciesFound(loaded: map<string, Service>, ids: seq<string>, slug: Folding, c: string)
    ensures c in Currencies(Find(loaded, ids, slug)) <==>
      exists id :: id in ids && slug(id) in loaded && loaded[slug(id)].currency == c
  {
    var found := Find(loaded, ids, slug);
    assert c in Currencies(found) <==> exists s :: s in found && s.currency == c;
    FoundExact(loaded, ids, slug, c);
  }

  lemma {:induction false} FoundExact(loaded: map<string, Service>, ids: seq<string>, slug: Folding, c: string)
    ensures (exists s :: s in Find(loaded, ids, slug) && s.currency == c) <==>
      exists id :: id in ids && slug(id) in loaded && loaded[slug(id)].currency == c
  {
    if ids != [] {
      FoundExact(loaded, ids[1..], slug, c);
      var rest := Find(loaded, ids[1..], slug);
      assert forall id :: id in ids <==> id == ids[0] || id in ids[1..];
      if slug(ids[0]) in loaded {
        assert Find(loaded, ids, slug) == [loaded[slug(ids[0])]] + rest;
        assert forall s :: s in Find(loaded, ids, slug) <==> s == loaded[slug(ids[0])] || s in rest;
      } else {
        assert Find(loaded, ids, slug) == rest;
      }
    }
  }

  lemma SummedExact(catalogue: Catalogue, sold: seq<Package>, ids: seq<string>, slug: Folding, lower: Folding, c: string)
    ensures var loaded := Loaded(catalogue, sold, ids, slug, lower); var packages := InUse(catalogue, sold, ids, slug, lower);
      c in AllCurrencies(ids, packages, loaded, slug) <==> Summed(c, catalogue, sold, ids, slug, lower)
  {
    var loaded, packages := Loaded(catalogue, sold, ids, slug, lower), InUse(catalogue, sold, ids, slug, lower);
    CurrenciesFound(loaded, ids, slug, c);
    CurrenciesFound(loaded, AllParts(packages), slug, c);
    forall p ensures p in packages <==> Bought(p, catalogue, sold, ids, slug, lower) {
      InUseIsBought(catalogue, sold, ids, slug, lower, p);
    }
    forall id ensures id in AllParts(packages) <==> exists p :: p in packages && id in p.serviceIds {
      AllPartsExact(packages, id);
    }
    forall id | id in ids || id in AllParts(packages)
      ensures slug(id) in loaded <==> slug(id) in catalogue
      ensures slug(id) in loaded ==> loaded[slug(id)] == catalogue[slug(id)]
    {
      LoadedIsTheBranchs(catalogue, sold, ids, slug, lower, id);
    }
  }

  lemma AtMostOne<T>(all: set<T>)
    ensures |all| <= 1 <==> forall c, e :: c in all && e in all ==> c == e
  {
    if forall c, e :: c in all && e in all ==> c == e {
      CardAtMostOne(all);
    } else {
      var c, e :| c in all && e in all && c != e;
      CardSubset({c, e}, all);
    }
  }

  lemma MixedIff(catalogue: Catalogue, sold: seq<Package>, ids: seq<string>, slug: Folding, lower: Folding)
    ensures var loaded := Loaded(catalogue, sold, ids, slug, lower); var packages := InUse(catalogue, sold, ids, slug, lower);
      |AllCurrencies(ids, packages, loaded, slug)| <= 1 <==> OneCurrency(catalogue, sold, ids, slug, lower)
  {
    var loaded, packages := Loaded(catalogue, sold, ids, slug, lower), InUse(catalogue, sold, ids, slug, lower);
    AtMostOne(AllCurrencies(ids, packages, loaded, slug));
    forall c ensures c in AllCurrencies(ids, packages, loaded, slug) <==> Summed(c, catalogue, sold, ids, slug, lower) {
      SummedExact(catalogue, sold, ids, slug, lower, c);
    }
    OneIff(AllCurrencies(ids, packages, loaded, slug), catalogue, sold, ids, slug, lower);
  }

  lemma OneIff(
      all: set<string>, catalogue: Catalogue, sold: seq<Package>, ids: seq<string>, slug: Folding, lower: Folding)
    requires forall c :: c in all <==> Summed(c, catalogue, sold, ids, slug, lower)
    ensures (forall c, e :: c in all && e in all ==> c == e) <==> OneCurrency(catalogue, sold, ids, slug, lower)
  {}

  // ------------------------------------------------------------------ a good basket

  /** What an id stands for is all there. */
  ghost predicate GoodAt(
      id: string, catalogue: Catalogue, packages: seq<Package>, slug: Folding, lower: Folding)
  {
    match FindPackage(packages, id, lower)
    case None => slug(id) in catalogue
    case Some(p) => HasAllParts(p, catalogue, slug)
  }

  /** Under an id that is no service, the packages in use hold the one bought. */
  lemma FindInUse(
      catalogue: Catalogue, sold: seq<Package>, ids: seq<string>, slug: Folding, lower: Folding, id: string, p: Package)
    requires id in ids && slug(id) !in catalogue && FirstNamed(p, sold, id, lower)
    ensures FindPackage(InUse(catalogue, sold, ids, slug, lower), id, lower) == Some(p)
  {
    var packages := InUse(catalogue, sold, ids, slug, lower);
    InUseIsBought(catalogue, sold, ids, slug, lower, p);
    FindPackageNone(packages, id, lower);
    var q := FindPackage(packages, id, lower).value;
    InUseIsBought(catalogue, sold, ids, slug, lower, q);
    var i :| 0 <= i < |ids| && slug(ids[i]) !in catalogue && FirstNamed(q, sold, ids[i], lower);
    SameName(q, sold, ids[i], id, lower);
    FirstIsOne(p, q, sold, id, lower);
  }

  lemma SameName(p: Package, sold: seq<Package>, one: string, other: string, lower: Folding)
    requires FirstNamed(p, sold, one, lower) && lower(p.id) == lower(other)
    ensures FirstNamed(p, sold, other, lower) && !NoneNamed(sold, other, lower)
  {
    var k :| 0 <= k < |sold| && sold[k] == p && lower(p.id) == lower(one) && NoneBefore(sold, k, one, lower);
    assert NoneBefore(sold, k, other, lower);
  }

  lemma GoodIff(catalogue: Catalogue, sold: seq<Package>, ids: seq<string>, slug: Folding, lower: Folding)
    ensures (forall id :: id in ids ==> GoodAt(id, catalogue, InUse(catalogue, sold, ids, slug, lower), slug, lower)) <==>
      AllKnown(catalogue, sold, ids, slug, lower) && PackagesWhole(catalogue, sold, ids, slug, lower)
  {
    var packages := InUse(catalogue, sold, ids, slug, lower);
    if forall id :: id in ids ==> GoodAt(id, catalogue, packages, slug, lower) {
      forall i | 0 <= i < |ids| ensures slug(ids[i]) in catalogue || !NoneNamed(sold, ids[i], lower) {
        assert GoodAt(ids[i], catalogue, packages, slug, lower);
        FindPackageNone(packages, ids[i], lower);
        if slug(ids[i]) !in catalogue {
          var q := FindPackage(packages, ids[i], lower).value;
          InUseIsBought(catalogue, sold, ids, slug, lower, q);
          var j :| 0 <= j < |ids| && slug(ids[j]) !in catalogue && FirstNamed(q, sold, ids[j], lower);
          SameName(q, sold, ids[j], ids[i], lower);
        }
      }
      forall p | Bought(p, catalogue, sold, ids, slug, lower) ensures HasAllParts(p, catalogue, slug) {
        var i :| 0 <= i < |ids| && slug(ids[i]) !in catalogue && FirstNamed(p, sold, ids[i], lower);
        FindInUse(catalogue, sold, ids, slug, lower, ids[i], p);
        assert GoodAt(ids[i], catalogue, packages, slug, lower);
      }
    }
    if AllKnown(catalogue, sold, ids, slug, lower) && PackagesWhole(catalogue, sold, ids, slug, lower) {
      forall id | id in ids ensures GoodAt(id, catalogue, packages, slug, lower) {
        FindsFirst(sold, id, lower);
        FindPackageNone(packages, id, lower);
        var found := FindPackage(packages, id, lower);
        if found.Some? {
          InUseIsBought(catalogue, sold, ids, slug, lower, found.value);
        } else if slug(id) !in catalogue {
          FindInUse(catalogue, sold, ids, slug, lower, id, FindPackage(sold, id, lower).value);
        }
      }
    }
  }

  ghost predicate NotEmpty(id: string, packages: seq<Package>, lower: Folding) {
    match FindPackage(packages, id, lower)
    case None => true
    case Some(p) => p.serviceIds != []
  }

  lemma PickIff(id: string, packages: seq<Package>, priceOf: string -> int, lower: Folding)
    requires forall x :: priceOf(x) >= 0
    ensures PickFor(id, packages, priceOf, lower).Ok? <==> NotEmpty(id, packages, lower)
  {
    var p := FindPackage(packages, id, lower);
    if p.Some? { ExpansionExact(p.value, priceOf); }
  }

  /** A selection resolves exactly when no package in it is empty. */
  lemma {:induction false} PicksIff(ids: seq<string>, packages: seq<Package>, priceOf: string -> int, lower: Folding)
    requires forall x :: priceOf(x) >= 0
    ensures Picks(ids, packages, priceOf, lower).Ok? <==> forall id :: id in ids ==> NotEmpty(id, packages, lower)
  {
    if ids != [] {
      PicksIff(ids[1..], packages, priceOf, lower);
      PickIff(ids[0], packages, priceOf, lower);
      assert forall id :: id in ids <==> id == ids[0] || id in ids[1..];
    }
  }

  /** What an id stands for: itself, or its package's services. */
  function Stands(id: string, packages: seq<Package>, lower: Folding): seq<string> {
    match FindPackage(packages, id, lower)
    case None => [id]
    case Some(p) => p.serviceIds
  }

  /** What each id stands for, pick by pick. */
  ghost predicate Answers(ids: seq<string>, picks: seq<Pick>, packages: seq<Package>, priceOf: string -> int, lower: Folding) {
    |picks| == |ids| && forall i :: 0 <= i < |ids| ==> Ok(picks[i]) == PickFor(ids[i], packages, priceOf, lower)
  }

  lemma {:induction false} MissingIff(
      ids: seq<string>, picks: seq<Pick>, packages: seq<Package>, priceOf: string -> int, lower: Folding,
      loaded: map<string, Service>, slug: Folding, sales: nat)
    requires Answers(ids, picks, packages, priceOf, lower) && AllWhole(picks)
    ensures Missing(PartsFrom(picks, sales), loaded, slug) == [] <==>
      forall id :: id in ids ==> StandsIn(id, packages, lower, loaded, slug)
    decreases |ids|
  {
    if ids != [] {
      var mine, rest := PartsAt(picks[0], sales), PartsFrom(picks[1..], sales + Bump(picks[0]));
      MissingIff(ids[1..], picks[1..], packages, priceOf, lower, loaded, slug, sales + Bump(picks[0]));
      MissingJoin(mine, rest, loaded, slug);
      PickStands(ids[0], packages, priceOf, lower, loaded, slug, picks[0], sales);
      AllOrRest(ids, packages, lower, loaded, slug);
      assert PartsFrom(picks, sales) == mine + rest;
    }
  }

  ghost predicate StandsIn(id: string, packages: seq<Package>, lower: Folding, loaded: map<string, Service>, slug: Folding) {
    forall part :: part in Stands(id, packages, lower) ==> slug(part) in loaded
  }

  lemma PickStands(
      id: string, packages: seq<Package>, priceOf: string -> int, lower: Folding, loaded: map<string, Service>,
      slug: Folding, pick: Pick, sales: nat)
    requires PickFor(id, packages, priceOf, lower) == Ok(pick) && Whole(pick)
    ensures Missing(PartsAt(pick, sales), loaded, slug) == [] <==> StandsIn(id, packages, lower, loaded, slug)
  {
    MissingEach(PartsAt(pick, sales), loaded, slug);
    var p := FindPackage(packages, id, lower);
    if p.Some? { ExpansionExact(p.value, priceOf); }
    assert IdsOf(PartsAt(pick, sales)) == Stands(id, packages, lower);
  }

  lemma AllOrRest(ids: seq<string>, packages: seq<Package>, lower: Folding, loaded: map<string, Service>, slug: Folding)
    requires ids != []
    ensures (forall id :: id in ids ==> StandsIn(id, packages, lower, loaded, slug)) <==>
      StandsIn(ids[0], packages, lower, loaded, slug)
      && forall id :: id in ids[1..] ==> StandsIn(id, packages, lower, loaded, slug)
  {
    assert forall id :: id in ids <==> id == ids[0] || id in ids[1..];
  }

  lemma {:induction false} MissingJoin(a: seq<Part>, b: seq<Part>, loaded: map<string, Service>, slug: Folding)
    ensures Missing(a + b, loaded, slug) == Missing(a, loaded, slug) + Missing(b, loaded, slug)
  {
    if a == [] {
      assert a + b == b;
    } else {
      assert (a + b)[1..] == a[1..] + b;
      MissingJoin(a[1..], b, loaded, slug);
    }
  }

  lemma {:induction false} MissingEach(parts: seq<Part>, loaded: map<string, Service>, slug: Folding)
    ensures Missing(parts, loaded, slug) == [] <==> forall id :: id in IdsOf(parts) ==> slug(id) in loaded
  {
    if parts != [] {
      MissingEach(parts[1..], loaded, slug);
      assert IdsOf(parts) == [parts[0].serviceId] + IdsOf(parts[1..]);
    }
  }

  ghost predicate Good(r: Result<Basket>) {
    r.Ok? && r.value.missing == []
  }

  /** Nothing that was picked is missing exactly when everything it stands for is there. */
  lemma PickedIsThere(
      ids: seq<string>, packages: seq<Package>, priceOf: string -> int, lower: Folding, loaded: map<string, Service>,
      catalogue: Catalogue, slug: Folding)
    requires forall x :: priceOf(x) >= 0
    requires forall id, part :: id in ids && part in Stands(id, packages, lower) ==>
      (slug(part) in loaded <==> slug(part) in catalogue)
    ensures var picks := Picks(ids, packages, priceOf, lower);
      (picks.Ok? && AllWhole(picks.value) && Missing(PartsFrom(picks.value, 0), loaded, slug) == []) <==>
        forall id :: id in ids ==> GoodAt(id, catalogue, packages, slug, lower)
  {
    var picks := Picks(ids, packages, priceOf, lower);
    PicksIff(ids, packages, priceOf, lower);
    if picks.Ok? {
      PicksWhole(ids, packages, priceOf, lower);
      forall i: nat | i < |ids| ensures Ok(picks.value[i]) == PickFor(ids[i], packages, priceOf, lower) {
        PicksAnswer(ids, packages, priceOf, lower, i);
      }
      MissingIff(ids, picks.value, packages, priceOf, lower, loaded, slug, 0);
      forall id | id in ids
        ensures GoodAt(id, catalogue, packages, slug, lower) <==> StandsIn(id, packages, lower, loaded, slug)
      {
        assert NotEmpty(id, packages, lower);
        if FindPackage(packages, id, lower).None? { assert id in Stands(id, packages, lower); }
      }
    } else {
      var id :| id in ids && !NotEmpty(id, packages, lower);
      assert !GoodAt(id, catalogue, packages, slug, lower);
    }
  }

  lemma ResolvedIsPicked(catalogue: Catalogue, sold: seq<Package>, ids: seq<string>, slug: Folding, lower: Folding)
    ensures var loaded := Loaded(catalogue, sold, ids, slug, lower); var packages := InUse(catalogue, sold, ids, slug, lower);
      var picks := Picks(ids, packages, ListPrice(loaded, slug), lower);
      Good(Resolved(catalogue, sold, ids, slug, lower)) <==>
        && |AllCurrencies(ids, packages, loaded, slug)| <= 1
        && picks.Ok? && AllWhole(picks.value) && Missing(PartsFrom(picks.value, 0), loaded, slug) == []
  {
    var loaded, packages := Loaded(catalogue, sold, ids, slug, lower), InUse(catalogue, sold, ids, slug, lower);
    var picks := Picks(ids, packages, ListPrice(loaded, slug), lower);
    if picks.Ok? {
      PicksWhole(ids, packages, ListPrice(loaded, slug), lower);
      assert [] + PartsFrom(picks.value, 0) == PartsFrom(picks.value, 0);
    }
  }

  /**
   * A basket is resolved with nothing missing if and only if every id is a service of the branch or a
   * package sold, every package bought has parts and the branch has them all, and the services, the
   * packages and their parts are priced in one currency.
   */
  lemma BasketIff(catalogue: Catalogue, sold: seq<Package>, ids: seq<string>, slug: Folding, lower: Folding)
    ensures Good(Resolved(catalogue, sold, ids, slug, lower)) <==>
      && AllKnown(catalogue, sold, ids, slug, lower) && PackagesWhole(catalogue, sold, ids, slug, lower)
      && OneCurrency(catalogue, sold, ids, slug, lower)
  {
    var loaded, packages := Loaded(catalogue, sold, ids, slug, lower), InUse(catalogue, sold, ids, slug, lower);
    ResolvedIsPicked(catalogue, sold, ids, slug, lower);
    MixedIff(catalogue, sold, ids, slug, lower);
    GoodIff(catalogue, sold, ids, slug, lower);
    forall id, part | id in ids && part in Stands(id, packages, lower)
      ensures slug(part) in loaded <==> slug(part) in catalogue
    {
      StandsLoaded(catalogue, sold, ids, slug, lower, id, part);
    }
    PickedIsThere(ids, packages, ListPrice(loaded, slug), lower, loaded, catalogue, slug);
  }

  lemma StandsLoaded(
      catalogue: Catalogue, sold: seq<Package>, ids: seq<string>, slug: Folding, lower: Folding, id: string, part: string)
    requires id in ids && part in Stands(id, InUse(catalogue, sold, ids, slug, lower), lower)
    ensures slug(part) in Loaded(catalogue, sold, ids, slug, lower) <==> slug(part) in catalogue
  {
    var packages := InUse(catalogue, sold, ids, slug, lower);
    FindPackageNone(packages, id, lower);
    var p := FindPackage(packages, id, lower);
    if p.Some? { InUseIsBought(catalogue, sold, ids, slug, lower, p.value); }
    LoadedIsTheBranchs(catalogue, sold, ids, slug, lower, part);
  }

  // ------------------------------------------------------------------ what is charged

  /** A package in use also answers to the id. */
  ghost predicate BoughtAs(
      id: string, catalogue: Catalogue, sold: seq<Package>, ids: seq<string>, slug: Folding, lower: Folding)
  {
    exists p :: Bought(p, catalogue, sold, ids, slug, lower) && lower(p.id) == lower(id)
  }

  /** The line of an id: the package's price for its services, or the branch's price for the one service. */
  ghost predicate LineCharges(
      l: Line, id: string, b: Basket, catalogue: Catalogue, sold: seq<Package>, ids: seq<string>, slug: Folding,
      lower: Folding)
  {
    && l.id == id && l.from <= l.to <= |b.serviceIds|
    && (forall p :: slug(id) !in catalogue && FirstNamed(p, sold, id, lower) ==>
          l.fils == p.priceFils && b.serviceIds[l.from..l.to] == p.serviceIds)
    && (slug(id) in catalogue && !BoughtAs(id, catalogue, sold, ids, slug, lower) ==>
          l.fils == catalogue[slug(id)].priceFils && b.serviceIds[l.from..l.to] == [id])
  }

  lemma OneLineCharges(
      l: Line, id: string, b: Basket, catalogue: Catalogue, sold: seq<Package>, ids: seq<string>, slug: Folding,
      lower: Folding)
    requires id in ids
    requires LineIsExpansion(l, id, b, InUse(catalogue, sold, ids, slug, lower),
                             ListPrice(Loaded(catalogue, sold, ids, slug, lower), slug), lower)
    ensures LineCharges(l, id, b, catalogue, sold, ids, slug, lower)
  {
    var packages := InUse(catalogue, sold, ids, slug, lower);
    LoadedIsTheBranchs(catalogue, sold, ids, slug, lower, id);
    FindPackageNone(packages, id, lower);
    forall p | slug(id) !in catalogue && FirstNamed(p, sold, id, lower)
      ensures l.fils == p.priceFils && b.serviceIds[l.from..l.to] == p.serviceIds
    {
      FindInUse(catalogue, sold, ids, slug, lower, id, p);
    }
    if FindPackage(packages, id, lower).Some? {
      InUseIsBought(catalogue, sold, ids, slug, lower, FindPackage(packages, id, lower).value);
    }
  }

  /** One line per id, in order, each charged as the branch and its packages say. */
  lemma LinesCharge(catalogue: Catalogue, sold: seq<Package>, ids: seq<string>, slug: Folding, lower: Folding)
    requires Good(Resolved(catalogue, sold, ids, slug, lower))
    ensures var b := Resolved(catalogue, sold, ids, slug, lower).value; var lines := Lines(ids, b, lower);
      && |lines| == |ids|
      && (forall i :: 0 <= i < |ids| ==> LineCharges(lines[i], ids[i], b, catalogue, sold, ids, slug, lower))
  {
    var b := Resolved(catalogue, sold, ids, slug, lower).value;
    var lines := Lines(ids, b, lower);
    BasketLinesUndoResolve(catalogue, sold, ids, slug, lower);
    forall i | 0 <= i < |ids| ensures LineCharges(lines[i], ids[i], b, catalogue, sold, ids, slug, lower) {
      OneLineCharges(lines[i], ids[i], b, catalogue, sold, ids, slug, lower);
    }
  }
}
