/** The starts a refusal offers instead: at most three, read off the union mask from the left. */
module FreeStarts {
  const DAY_START_MIN := 600
  const SLOT_MIN := 5
  const OFFER_SPACING_MIN := 25
  const MAX_OFFERS := 3

  /** One bit per five minutes of the trading day. */
  type Mask = seq<bool>

  function ToMin(slot: nat): int {
    DAY_START_MIN + SLOT_MIN * slot
  }

  /** Free starts in order, any two at least 25 minutes apart. */
  ghost predicate Spaced(mask: Mask, slots: seq<nat>) {
    && (forall k :: 0 <= k < |slots| ==> slots[k] < |mask| && mask[slots[k]])
    && (forall j, k :: 0 <= j < k < |slots| ==> ToMin(slots[k]) - ToMin(slots[j]) >= 25)
  }

  function Starts(mask: Mask, from: nat, left: nat): seq<nat>
    decreases if from < |mask| then |mask| - from else 0
  {
    if from >= |mask| || left == 0 then []
    else if mask[from] then [from] + Starts(mask, from + OFFER_SPACING_MIN / SLOT_MIN, left - 1)
    else Starts(mask, from + 1, left)
  }

  method Offers(mask: Mask) returns (out: seq<int>)
    ensures |out| == |Starts(mask, 0, MAX_OFFERS)|
    ensures forall k :: 0 <= k < |out| ==> out[k] == ToMin(Starts(mask, 0, MAX_OFFERS)[k])
  {
    out := [];
    ghost var done: seq<nat> := [];
    var i := 0;
    while i < |mask| && |out| < MAX_OFFERS
      invariant |out| == |done| <= MAX_OFFERS && i >= 0
      invariant forall k :: 0 <= k < |out| ==> out[k] == ToMin(done[k])
      invariant done + Starts(mask, i, MAX_OFFERS - |out|) == Starts(mask, 0, MAX_OFFERS)
    {
      if mask[i] {
        ghost var rest := Starts(mask, i + OFFER_SPACING_MIN / SLOT_MIN, MAX_OFFERS - |out| - 1);
        assert done + ([i] + rest) == (done + [i]) + rest;
        out, done := out + [ToMin(i)], done + [i];
        i := i + OFFER_SPACING_MIN / SLOT_MIN - 1;
      }
      i := i + 1;
    }
    assert done + [] == done;
  }

  lemma {:induction false} StartsSpaced(mask: Mask, from: nat, left: nat)
    ensures Spaced(mask, Starts(mask, from, left)) && |Starts(mask, from, left)| <= left
    ensures forall k :: 0 <= k < |Starts(mask, from, left)| ==> from <= Starts(mask, from, left)[k]
    decreases if from < |mask| then |mask| - from else 0
  {
    if from < |mask| && left > 0 {
      if mask[from] {
        StartsSpaced(mask, from + OFFER_SPACING_MIN / SLOT_MIN, left - 1);
      } else {
        StartsSpaced(mask, from + 1, left);
      }
    }
  }

  /** Taking the earliest each time is never beaten: the k-th is no later than anybody's k-th. */
  lemma {:induction false} StartsEarliest(mask: Mask, from: nat, left: nat, other: seq<nat>)
    requires Spaced(mask, other) && (forall k :: 0 <= k < |other| ==> from <= other[k])
    ensures |Starts(mask, from, left)| >= if |other| < left then |other| else left
    ensures forall k :: 0 <= k < |other| && k < left ==>
      k < |Starts(mask, from, left)| && Starts(mask, from, left)[k] <= other[k]
    decreases if from < |mask| then |mask| - from else 0
  {
    if other != [] { assert from <= other[0] < |mask|; }
    if left > 0 && other != [] {
      if mask[from] {
        var next := from + OFFER_SPACING_MIN / SLOT_MIN;
        var rest := other[1..];
        forall k | 0 <= k < |rest| ensures next <= rest[k] {
          assert ToMin(other[k + 1]) - ToMin(other[0]) >= OFFER_SPACING_MIN;
        }
        forall j, k | 0 <= j < k < |rest| ensures ToMin(rest[k]) - ToMin(rest[j]) >= OFFER_SPACING_MIN {
          assert rest[j] == other[j + 1] && rest[k] == other[k + 1];
        }
        StartsEarliest(mask, next, left - 1, rest);
        forall k | 0 <= k < |other| && k < left
          ensures k < |Starts(mask, from, left)| && Starts(mask, from, left)[k] <= other[k]
        {
          if k > 0 { assert rest[k - 1] == other[k]; }
        }
      } else {
        StartsEarliest(mask, from + 1, left, other);
      }
    }
  }

  /**
   * For any mask: the offers are free, in order and 25 minutes apart; the k-th is no later than the
   * k-th of any other such choice; and there are three, or as many as the largest such choice has.
   */
  lemma OffersAreOptimal(mask: Mask, other: seq<nat>)
    requires Spaced(mask, other)
    ensures var starts := Starts(mask, 0, MAX_OFFERS);
      && Spaced(mask, starts) && |starts| <= 3
      && (|starts| < 3 ==> |other| <= |starts|)
      && (forall k :: 0 <= k < |other| && k < 3 ==> k < |starts| && ToMin(starts[k]) <= ToMin(other[k]))
  {
    StartsSpaced(mask, 0, MAX_OFFERS);
    StartsEarliest(mask, 0, MAX_OFFERS, other);
  }
}
