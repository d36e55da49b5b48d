/**
 * A party's products. Every member's lines are put on one list, checked together, because stock is
 * counted per item and not per line, and handed back to their own members in order; a refusal names
 * the member and that member's own line.
 */
module PartyProducts {
  import opened Basics
  import opened Money

  const TOLERANCE_FILS := 1

  datatype Claim = Claim(id: string, amountFils: Option<int>, quantity: nat)

  datatype Offer = Offer(sellable: bool, currency: string, priceFils: int, tracked: bool, available: int)

  datatype Priced = Priced(productId: string, priceFils: int, quantity: nat)

  datatype Code = UnknownProduct | CurrencyMismatch | AmountMismatch | OutOfStock

  datatype Refusal = Refusal(line: nat, code: Code)

  /** A line of the whole party: whose it is, and which of theirs. */
  datatype Tagged = Tagged(member: nat, index: nat, claim: Claim)

  datatype MemberRefusal = MemberRefusal(member: nat, index: nat, code: Code)

  type Offers = map<string, Offer>

  // ------------------------------------------------------------------ one list, checked together

  function Wanted(lines: seq<Claim>, key: string, fold: string -> string): nat {
    if lines == [] then 0
    else (if fold(lines[0].id) == key then lines[0].quantity else 0) + Wanted(lines[1..], key, fold)
  }

  predicate Agree(expected: int, claimed: int) {
    -TOLERANCE_FILS <= expected - claimed <= TOLERANCE_FILS
  }

  /** Why a line is refused, if it is, given how much of its item the whole list wants. */
  function Judge(c: Claim, offers: Offers, currency: string, wanted: nat, fold: string -> string): Option<Code> {
    var key := fold(c.id);
    if key !in offers || !offers[key].sellable then Some(UnknownProduct)
    else if offers[key].currency != currency then Some(CurrencyMismatch)
    else if c.amountFils.None? || !Agree(offers[key].priceFils, c.amountFils.value) then Some(AmountMismatch)
    else if offers[key].tracked && offers[key].available < wanted then Some(OutOfStock)
    else None
  }

  /** What a line counts towards an item: its quantity, or nothing. */
  function Counted(line: Claim, key: string, fold: string -> string): nat {
    if fold(line.id) == key then line.quantity else 0
  }

  /** What is wanted of an item is its quantities over the whole list, added up. */
  lemma {:induction false} WantedIsSum(lines: seq<Claim>, key: string, fold: string -> string)
    ensures Wanted(lines, key, fold) == Sum(seq(|lines|, i requires 0 <= i < |lines| => Counted(lines[i], key, fold)))
  {
    if lines != [] {
      var all := seq(|lines|, i requires 0 <= i < |lines| => Counted(lines[i], key, fold) as int);
      var rest := lines[1..];
      WantedIsSum(rest, key, fold);
      assert all[1..] == seq(|rest|, i requires 0 <= i < |rest| => Counted(rest[i], key, fold) as int);
    }
  }

  /** The item is on sale here. */
  predicate OnSale(c: Claim, offers: Offers, fold: string -> string) {
    fold(c.id) in offers && offers[fold(c.id)].sellable
  }

  /** The customer saw the price, to the fil either way. */
  predicate SawThePrice(c: Claim, offers: Offers, fold: string -> string)
    requires OnSale(c, offers, fold)
  {
    c.amountFils.Some? && (c.amountFils.value == offers[fold(c.id)].priceFils
                           || c.amountFils.value == offers[fold(c.id)].priceFils + 1
                           || c.amountFils.value == offers[fold(c.id)].priceFils - 1)
  }

  /** A line passes exactly when its item is on sale, in the currency, at the price seen, and there is enough of it. */
  lemma JudgeIff(c: Claim, offers: Offers, currency: string, wanted: nat, fold: string -> string)
    ensures var v := Judge(c, offers, currency, wanted, fold);
      && (v.None? <==>
            && OnSale(c, offers, fold) && offers[fold(c.id)].currency == currency && SawThePrice(c, offers, fold)
            && (offers[fold(c.id)].tracked ==> wanted <= offers[fold(c.id)].available))
      && (v == Some(UnknownProduct) <==> !OnSale(c, offers, fold))
      && (v == Some(CurrencyMismatch) <==> OnSale(c, offers, fold) && offers[fold(c.id)].currency != currency)
      && (v == Some(AmountMismatch) <==>
            OnSale(c, offers, fold) && offers[fold(c.id)].currency == currency && !SawThePrice(c, offers, fold))
  {}

  /** The catalogue's own price; a line that passed has one. */
  function PriceOf(c: Claim, offers: Offers, fold: string -> string): Priced {
    var key := fold(c.id);
    Priced(key, if key in offers then offers[key].priceFils else 0, c.quantity)
  }

  /** A line as it is sold: its item, its quantity, and the catalogue's price whatever the customer sent. */
  predicate PricedAs(line: Priced, c: Claim, offers: Offers, fold: string -> string)
    requires OnSale(c, offers, fold)
  {
    line.productId == fold(c.id) && line.quantity == c.quantity && line.priceFils == offers[fold(c.id)].priceFils
  }

  datatype Checked = Accepted(lines: seq<Priced>) | Refused(errors: seq<Refusal>)

  function Verdict(lines: seq<Claim>, i: nat, offers: Offers, currency: string, fold: string -> string): Option<Code>
    requires i < |lines|
  {
    Judge(lines[i], offers, currency, Wanted(lines, fold(lines[i].id), fold), fold)
  }

  /** Every bad line, not only the first. */
  function ErrorsFrom(lines: seq<Claim>, i: nat, offers: Offers, currency: string, fold: string -> string): seq<Refusal>
    requires i <= |lines|
    decreases |lines| - i
  {
    if i == |lines| then []
    else
      var rest := ErrorsFrom(lines, i + 1, offers, currency, fold);
      var v := Verdict(lines, i, offers, currency, fold);
      if v.Some? then [Refusal(i, v.value)] + rest else rest
  }

  lemma {:induction false} ErrorsExact(lines: seq<Claim>, i: nat, offers: Offers, currency: string, fold: string -> string)
    requires i <= |lines|
    ensures var errors := ErrorsFrom(lines, i, offers, currency, fold);
      && (forall e :: e in errors <==> i <= e.line < |lines| && Verdict(lines, e.line, offers, currency, fold) == Some(e.code))
      && (forall a, b :: 0 <= a < b < |errors| ==> errors[a].line < errors[b].line)
    decreases |lines| - i
  {
    if i < |lines| { ErrorsExact(lines, i + 1, offers, currency, fold); }
  }

  /** Nothing is refused exactly when every line passes. */
  lemma NoErrorsMeansAllPass(lines: seq<Claim>, offers: Offers, currency: string, fold: string -> string)
    ensures ErrorsFrom(lines, 0, offers, currency, fold) == [] <==>
      forall i :: 0 <= i < |lines| ==> Verdict(lines, i, offers, currency, fold).None?
  {
    ErrorsExact(lines, 0, offers, currency, fold);
    var errors := ErrorsFrom(lines, 0, offers, currency, fold);
    if errors != [] { assert errors[0] in errors; }
    forall i | 0 <= i < |lines| && Verdict(lines, i, offers, currency, fold).Some? ensures errors != [] {
      assert Refusal(i, Verdict(lines, i, offers, currency, fold).value) in errors;
    }
  }

  function Check(lines: seq<Claim>, offers: Offers, currency: string, fold: string -> string): Checked {
    var errors := ErrorsFrom(lines, 0, offers, currency, fold);
    if errors != [] then Refused(errors)
    else Accepted(seq(|lines|, i requires 0 <= i < |lines| => PriceOf(lines[i], offers, fold)))
  }

  // ------------------------------------------------------------------ flattened and handed back

  function TagFrom(claims: seq<Claim>, member: nat, index: nat): seq<Tagged>
    requires index <= |claims|
    decreases |claims| - index
  {
    if index == |claims| then [] else [Tagged(member, index, claims[index])] + TagFrom(claims, member, index + 1)
  }

  function FlatFrom(members: seq<seq<Claim>>, m: nat): seq<Tagged>
    requires m <= |members|
    decreases |members| - m
  {
    if m == |members| then [] else TagFrom(members[m], m, 0) + FlatFrom(members, m + 1)
  }

  function Claims(flat: seq<Tagged>): seq<Claim> {
    seq(|flat|, i requires 0 <= i < |flat| => flat[i].claim)
  }

  /** What of a list belongs to member `m`, in order. */
  function Own<T>(flat: seq<Tagged>, lines: seq<T>, m: nat): seq<T>
    requires |flat| == |lines|
  {
    if flat == [] then []
    else (if flat[0].member == m then [lines[0]] else []) + Own(flat[1..], lines[1..], m)
  }

  lemma {:induction false} OwnJoin<T>(a: seq<Tagged>, b: seq<Tagged>, x: seq<T>, y: seq<T>, m: nat)
    requires |a| == |x| && |b| == |y|
    ensures Own(a + b, x + y, m) == Own(a, x, m) + Own(b, y, m)
  {
    if a == [] {
      assert a + b == b && x + y == y;
    } else {
      assert (a + b)[1..] == a[1..] + b && (x + y)[1..] == x[1..] + y;
      OwnJoin(a[1..], b, x[1..], y, m);
      Assoc(if a[0].member == m then [x[0]] else [], Own(a[1..], x[1..], m), Own(b, y, m));
    }
  }

  lemma {:induction false} OwnNone<T>(flat: seq<Tagged>, lines: seq<T>, m: nat)
    requires |flat| == |lines| && forall i :: 0 <= i < |flat| ==> flat[i].member != m
    ensures Own(flat, lines, m) == []
  {
    if flat != [] { OwnNone(flat[1..], lines[1..], m); }
  }

  lemma {:induction false} OwnAll<T>(flat: seq<Tagged>, lines: seq<T>, m: nat)
    requires |flat| == |lines| && forall i :: 0 <= i < |flat| ==> flat[i].member == m
    ensures Own(flat, lines, m) == lines
  {
    if flat != [] { OwnAll(flat[1..], lines[1..], m); }
  }

  lemma {:induction false} TagsExact(claims: seq<Claim>, member: nat, index: nat)
    requires index <= |claims|
    ensures var tags := TagFrom(claims, member, index);
      && |tags| == |claims| - index
      && (forall k :: 0 <= k < |tags| ==> tags[k] == Tagged(member, index + k, claims[index + k]))
    decreases |claims| - index
  {
    if index < |claims| {
      var rest := TagFrom(claims, member, index + 1);
      TagsExact(claims, member, index + 1);
      assert TagFrom(claims, member, index) == [Tagged(member, index, claims[index])] + rest;
    }
  }

  /** Every entry of the list names its own member and that member's own line. */
  lemma {:induction false} FlatTrue(members: seq<seq<Claim>>, m: nat)
    requires m <= |members|
    ensures forall t :: t in FlatFrom(members, m) <==>
      m <= t.member < |members| && t.index < |members[t.member]| && t.claim == members[t.member][t.index]
    decreases |members| - m
  {
    if m < |members| {
      FlatTrue(members, m + 1);
      TagsExact(members[m], m, 0);
      var tags := TagFrom(members[m], m, 0);
      forall t ensures t in tags <==> t.member == m && t.index < |members[m]| && t.claim == members[m][t.index] {
        if t.member == m && t.index < |members[m]| && t.claim == members[m][t.index] { assert tags[t.index] == t; }
      }
    }
  }

  function Mapped<T>(flat: seq<Tagged>, f: Claim -> T): seq<T> {
    seq(|flat|, i requires 0 <= i < |flat| => f(flat[i].claim))
  }

  /** Whatever is computed line by line over the list, each member gets back their own, in their order. */
  lemma {:induction false} OwnOfFlat<T>(members: seq<seq<Claim>>, from: nat, m: nat, f: Claim -> T)
    requires from <= m < |members|
    ensures var own := Own(FlatFrom(members, from), Mapped(FlatFrom(members, from), f), m);
      |own| == |members[m]| && forall i :: 0 <= i < |own| ==> own[i] == f(members[m][i])
    decreases |members| - from
  {
    var tags, rest := TagFrom(members[from], from, 0), FlatFrom(members, from + 1);
    assert Mapped(tags + rest, f) == Mapped(tags, f) + Mapped(rest, f);
    OwnJoin(tags, rest, Mapped(tags, f), Mapped(rest, f), m);
    TagsExact(members[from], from, 0);
    if from == m {
      OwnAll(tags, Mapped(tags, f), m);
      FlatTrue(members, from + 1);
      forall i | 0 <= i < |rest| ensures rest[i].member != m { assert rest[i] in rest; }
      OwnNone(rest, Mapped(rest, f), m);
    } else {
      OwnNone(tags, Mapped(tags, f), m);
      OwnOfFlat(members, from + 1, m, f);
    }
  }

  datatype Answer = Lines(own: seq<seq<Priced>>) | NotSold(member: nat) | Errors(errors: seq<MemberRefusal>)

  function Named(flat: seq<Tagged>, errors: seq<Refusal>): seq<MemberRefusal>
    requires forall e :: e in errors ==> e.line < |flat|
  {
    if errors == [] then []
    else
      assert errors[0] in errors;
      [MemberRefusal(flat[errors[0].line].member, flat[errors[0].line].index, errors[0].code)] + Named(flat, errors[1..])
  }

  function ProductsOf(
      members: seq<seq<Claim>>, enabled: bool, offers: Offers, currency: string, fold: string -> string): Answer
  {
    var flat := FlatFrom(members, 0);
    if flat == [] then Lines(seq(|members|, _ => []))
    else if !enabled then NotSold(flat[0].member)
    else
      ErrorsExact(Claims(flat), 0, offers, currency, fold);
      match Check(Claims(flat), offers, currency, fold)
      case Refused(errors) => Errors(Named(flat, errors))
      case Accepted(lines) => Lines(seq(|members|, m requires 0 <= m < |members| => Own(flat, lines, m)))
  }

  /** The loop that pushes each checked line back to its member. */
  method HandBack(count: nat, flat: seq<Tagged>, lines: seq<Priced>) returns (out: seq<seq<Priced>>)
    requires |flat| == |lines| && forall i :: 0 <= i < |flat| ==> flat[i].member < count
    ensures out == seq(count, m requires 0 <= m < count => Own(flat, lines, m))
  {
    out := seq(count, _ => []);
    for k := 0 to |flat|
      invariant |out| == count
      invariant forall m :: 0 <= m < count ==> out[m] + Own(flat[k..], lines[k..], m) == Own(flat, lines, m)
    {
      assert flat[k..][1..] == flat[k + 1..] && lines[k..][1..] == lines[k + 1..];
      var m := flat[k].member;
      Assoc(out[m], [lines[k]], Own(flat[k + 1..], lines[k + 1..], m));
      out := out[m := out[m] + [lines[k]]];
    }
    assert flat[|flat|..] == [] && lines[|flat|..] == [];
    assert forall m :: 0 <= m < count ==> out[m] + [] == out[m];
  }

  /**
   * When nothing is refused every member gets exactly their own lines, priced, in their own order;
   * when something is, the errors name exactly the refused lines, each by its member and its place in
   * that member's own list, and stock is judged against what the whole party wants.
   */
  lemma ProductsGoHome(
      members: seq<seq<Claim>>, offers: Offers, currency: string, fold: string -> string)
    requires FlatFrom(members, 0) != []
    ensures match ProductsOf(members, true, offers, currency, fold)
      case NotSold(_) => false
      case Lines(own) =>
        && |own| == |members|
        && (forall m :: 0 <= m < |members| ==>
              && |own[m]| == |members[m]|
              && (forall i :: 0 <= i < |members[m]| ==>
                    OnSale(members[m][i], offers, fold) && PricedAs(own[m][i], members[m][i], offers, fold)))
      case Errors(errors) =>
        errors != [] && forall e :: e in errors <==>
          && e.member < |members| && e.index < |members[e.member]|
          && Judge(members[e.member][e.index], offers, currency,
                   Wanted(Claims(FlatFrom(members, 0)), fold(members[e.member][e.index].id), fold), fold) == Some(e.code)
  {
    var flat := FlatFrom(members, 0);
    var claims := Claims(flat);
    FlatTrue(members, 0);
    ErrorsExact(claims, 0, offers, currency, fold);
    NoErrorsMeansAllPass(claims, offers, currency, fold);
    var errors := ErrorsFrom(claims, 0, offers, currency, fold);
    if errors == [] {
      PricedAtHome(members, offers, currency, fold);
    } else {
      NamedAtHome(members, errors, offers, currency, fold);
    }
  }

  lemma PricedAtHome(members: seq<seq<Claim>>, offers: Offers, currency: string, fold: string -> string)
    requires ErrorsFrom(Claims(FlatFrom(members, 0)), 0, offers, currency, fold) == []
    requires FlatFrom(members, 0) != []
    ensures var p := ProductsOf(members, true, offers, currency, fold);
      && p.Lines? && |p.own| == |members|
      && (forall m :: 0 <= m < |members| ==>
            && |p.own[m]| == |members[m]|
            && (forall i :: 0 <= i < |members[m]| ==>
                  OnSale(members[m][i], offers, fold) && PricedAs(p.own[m][i], members[m][i], offers, fold)))
  {
    var flat := FlatFrom(members, 0);
    var claims := Claims(flat);
    NoErrorsMeansAllPass(claims, offers, currency, fold);
    FlatTrue(members, 0);
    var f := (c: Claim) => PriceOf(c, offers, fold);
    var lines := Check(claims, offers, currency, fold).lines;
    assert lines == Mapped(flat, f);
    forall m | 0 <= m < |members|
      ensures |Own(flat, lines, m)| == |members[m]|
      ensures forall i :: 0 <= i < |members[m]| ==>
        OnSale(members[m][i], offers, fold) && PricedAs(Own(flat, lines, m)[i], members[m][i], offers, fold)
    {
      OwnOfFlat(members, 0, m, f);
      forall i | 0 <= i < |members[m]| ensures OnSale(members[m][i], offers, fold) {
        PassedHasOffer(members, offers, currency, fold, m, i);
      }
    }
  }

  lemma PassedHasOffer(members: seq<seq<Claim>>, offers: Offers, currency: string, fold: string -> string, m: nat, i: nat)
    requires ErrorsFrom(Claims(FlatFrom(members, 0)), 0, offers, currency, fold) == []
    requires m < |members| && i < |members[m]|
    ensures OnSale(members[m][i], offers, fold)
  {
    var flat := FlatFrom(members, 0);
    FlatTrue(members, 0);
    NoErrorsMeansAllPass(Claims(flat), offers, currency, fold);
    assert Tagged(m, i, members[m][i]) in flat;
    var k :| 0 <= k < |flat| && flat[k] == Tagged(m, i, members[m][i]);
    assert Verdict(Claims(flat), k, offers, currency, fold).None?;
  }

  lemma {:induction false} NamedExact(flat: seq<Tagged>, errors: seq<Refusal>, x: MemberRefusal)
    requires forall e :: e in errors ==> e.line < |flat|
    ensures x in Named(flat, errors) <==>
      exists e :: e in errors && flat[e.line].member == x.member && flat[e.line].index == x.index && e.code == x.code
  {
    if errors != [] {
      assert errors[0] in errors;
      NamedExact(flat, errors[1..], x);
    }
  }

  lemma NamedAtHome(members: seq<seq<Claim>>, errors: seq<Refusal>, offers: Offers, currency: string, fold: string -> string)
    requires errors == ErrorsFrom(Claims(FlatFrom(members, 0)), 0, offers, currency, fold) && errors != []
    ensures var p := ProductsOf(members, true, offers, currency, fold);
      && p.Errors? && p.errors != []
      && (forall e :: e in p.errors <==>
            && e.member < |members| && e.index < |members[e.member]|
            && Judge(members[e.member][e.index], offers, currency,
                     Wanted(Claims(FlatFrom(members, 0)), fold(members[e.member][e.index].id), fold), fold) == Some(e.code))
  {
    var flat := FlatFrom(members, 0);
    var claims := Claims(flat);
    FlatTrue(members, 0);
    ErrorsExact(claims, 0, offers, currency, fold);
    assert errors[0] in errors && flat != [];
    forall x: MemberRefusal
      ensures x in Named(flat, errors) <==>
        && x.member < |members| && x.index < |members[x.member]|
        && Judge(members[x.member][x.index], offers, currency,
                 Wanted(claims, fold(members[x.member][x.index].id), fold), fold) == Some(x.code)
    {
      NamedExact(flat, errors, x);
      if x in Named(flat, errors) {
        var e :| e in errors && flat[e.line].member == x.member && flat[e.line].index == x.index && e.code == x.code;
        assert flat[e.line] in flat;
      } else if x.member < |members| && x.index < |members[x.member]| {
        var t := Tagged(x.member, x.index, members[x.member][x.index]);
        assert t in flat;
        var k :| 0 <= k < |flat| && flat[k] == t;
        assert Refusal(k, x.code) !in errors;
      }
    }
  }

  /** The first to ask for anything, from member `from` on. */
  ghost predicate FirstAsks(members: seq<seq<Claim>>, from: nat, m: nat) {
    from <= m < |members| && members[m] != [] && forall k :: from <= k < m ==> members[k] == []
  }

  ghost predicate NobodyAsks(members: seq<seq<Claim>>, from: nat) {
    forall k :: from <= k < |members| ==> members[k] == []
  }

  lemma {:induction false} FirstOfFlat(members: seq<seq<Claim>>, from: nat, flat: seq<Tagged>)
    requires from <= |members| && flat == FlatFrom(members, from)
    ensures flat == [] <==> NobodyAsks(members, from)
    ensures flat != [] ==> FirstAsks(members, from, flat[0].member)
    decreases |members| - from
  {
    if from < |members| {
      var tags, rest := TagFrom(members[from], from, 0), FlatFrom(members, from + 1);
      TagsExact(members[from], from, 0);
      assert flat == tags + rest;
      if members[from] == [] {
        assert flat == rest;
        FirstOfFlat(members, from + 1, rest);
        assert NobodyAsks(members, from + 1) ==> NobodyAsks(members, from);
      } else {
        assert flat[0] == tags[0];
      }
    }
  }

  /** Where products are not sold, the first member who asked for any is told so; a party that asked for none is not. */
  lemma SwitchedOff(members: seq<seq<Claim>>, offers: Offers, currency: string, fold: string -> string)
    ensures match ProductsOf(members, false, offers, currency, fold)
      case Lines(own) =>
        NobodyAsks(members, 0) && own == seq(|members|, _ => [])
      case NotSold(m) => FirstAsks(members, 0, m)
      case Errors(_) => false
  {
    FirstOfFlat(members, 0, FlatFrom(members, 0));
  }
}
