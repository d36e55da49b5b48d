/**
 * Splitting an amount of fils by weights, largest remainder first. Exact integers: every share is
 * the whole times its weight over the total, rounded down, and the fils left over go one each to the
 * largest fractions, ties to the lower index.
 */
module Money {
  import opened Basics
  import opened Greedy

  function Sum(s: seq<int>): int {
    if s == [] then 0 else s[0] + Sum(s[1..])
  }

  lemma {:induction false} SumJoin(a: seq<int>, b: seq<int>)
    ensures Sum(a + b) == Sum(a) + Sum(b)
  {
    if a == [] {
      assert a + b == b;
    } else {
      assert (a + b)[1..] == a[1..] + b;
      SumJoin(a[1..], b);
    }
  }

  lemma {:induction false} SumBump(s: seq<int>, i: nat)
    requires i < |s|
    ensures Sum(s[i := s[i] + 1]) == Sum(s) + 1
  {
    if i > 0 {
      assert s[i := s[i] + 1][1..] == s[1..][i - 1 := s[i] + 1];
      SumBump(s[1..], i - 1);
    }
  }

  predicate NonNegative(s: seq<int>) {
    forall i :: 0 <= i < |s| ==> s[i] >= 0
  }

  lemma {:induction false} SumNonNegative(s: seq<int>)
    requires NonNegative(s)
    ensures Sum(s) >= 0
  {
    if s != [] { SumNonNegative(s[1..]); }
  }

  // ------------------------------------------------------------------ floors and fractions

  function Floors(m: nat, weights: seq<int>, total: int): seq<int>
    requires total > 0
  {
    seq(|weights|, i requires 0 <= i < |weights| => m * weights[i] / total)
  }

  /** The fraction of share `i`, as a numerator over the total. */
  function Fraction(m: nat, weights: seq<int>, total: int, i: int): int
    requires total > 0
  {
    if 0 <= i < |weights| then m * weights[i] % total else 0
  }

  function Fractions(m: nat, weights: seq<int>, total: int): seq<int>
    requires total > 0
  {
    seq(|weights|, i requires 0 <= i < |weights| => m * weights[i] % total)
  }

  lemma {:induction false} FloorsAndFractions(m: nat, weights: seq<int>, total: int)
    requires total > 0
    ensures m * Sum(weights) == total * Sum(Floors(m, weights, total)) + Sum(Fractions(m, weights, total))
    ensures 0 <= Sum(Fractions(m, weights, total)) <= |weights| * (total - 1)
  {
    if weights != [] {
      var w, rest := weights[0], weights[1..];
      FloorsAndFractions(m, rest, total);
      assert Floors(m, weights, total)[1..] == Floors(m, rest, total);
      assert Fractions(m, weights, total)[1..] == Fractions(m, rest, total);
      OneMoreShare(m, w, total, Sum(rest), Sum(Floors(m, rest, total)), Sum(Fractions(m, rest, total)), |rest|);
    }
  }

  lemma OneMoreShare(m: nat, w: int, total: int, rest: int, floors: int, fractions: int, n: nat)
    requires total > 0 && m * rest == total * floors + fractions && 0 <= fractions <= n * (total - 1)
    ensures m * (w + rest) == total * (m * w / total + floors) + (m * w % total + fractions)
    ensures 0 <= m * w % total + fractions <= (n + 1) * (total - 1)
  {
    var exact := m * w;
    assert exact == total * (exact / total) + exact % total;
    Distribute(m, w, rest);
    Distribute(total, exact / total, floors);
    Distribute(total - 1, 1, n);
  }

  lemma Distribute(a: int, b: int, c: int)
    ensures a * (b + c) == a * b + a * c
  {}

  function Leftover(m: nat, weights: seq<int>, total: int): int
    requires total > 0
  {
    m - Sum(Floors(m, weights, total))
  }

  /** Fewer fils are left over than there are shares, so nobody is handed two. */
  lemma LeftoverSmall(m: nat, weights: seq<int>)
    requires NonNegative(weights) && Sum(weights) > 0
    ensures 0 <= Leftover(m, weights, Sum(weights)) < |weights|
  {
    var total := Sum(weights);
    FloorsAndFractions(m, weights, total);
    LeftoverBounds(total, m, Sum(Floors(m, weights, total)), Sum(Fractions(m, weights, total)), |weights|);
  }

  lemma LeftoverBounds(total: int, m: int, floors: int, fractions: int, n: nat)
    requires total > 0 && n > 0
    requires m * total == total * floors + fractions && 0 <= fractions <= n * (total - 1)
    ensures 0 <= m - floors < n
  {
    Distribute(total, m - floors, floors);
    if m < floors { Below(total, m - floors, 0); }
    if m - floors >= n {
      Below(total, n - 1, m - floors);
      Distribute(total, n - 1, 1);
      Distribute(n, total, -1);
    }
  }

  /** Multiplying by something positive keeps the order. */
  lemma Below(a: int, b: int, c: int)
    requires a > 0 && b < c
    ensures a * b + a <= a * c
  {
    assert a * (c - b - 1) >= 0;
    Distribute(a, b + 1, c - b - 1);
    Distribute(a, b, 1);
  }

  // ------------------------------------------------------------------ who gets the leftovers

  predicate Before(m: nat, weights: seq<int>, total: int, i: int, j: int)
    requires total > 0
  {
    var a, b := Fraction(m, weights, total, i), Fraction(m, weights, total, j);
    a > b || (a == b && i <= j)
  }

  /** The indices, largest fraction first, ties by index. */
  function Ranking(m: nat, weights: seq<int>, total: int): seq<int>
    requires total > 0
  {
    Sort<int>(Indices(|weights|), (i, j) => Before(m, weights, total, i, j))
  }

  predicate IsRanking(order: seq<int>, n: nat) {
    && |order| == n
    && (forall k :: 0 <= k < n ==> 0 <= order[k] < n)
    && (forall j, k :: 0 <= j < k < n ==> order[j] != order[k])
  }

  lemma RankingSound(m: nat, weights: seq<int>, total: int)
    requires total > 0
    ensures IsRanking(Ranking(m, weights, total), |weights|)
    ensures Sorted(Ranking(m, weights, total), (i, j) => Before(m, weights, total, i, j))
  {
    var le := (i, j) => Before(m, weights, total, i, j);
    var n := |weights|;
    var order := Sort<int>(Indices(n), le);
    SortKeeps<int>(Indices(n), le);
    SortMembers<int>(Indices(n), le);
    SortSorts<int>(Indices(n), le);
    assert |order| == |multiset(order)| == |multiset(Indices(n))| == n;
    forall k | 0 <= k < n ensures 0 <= order[k] < n { assert order[k] in order; }
    forall j, k | 0 <= j < k < n ensures order[j] != order[k] {
      if order[j] == order[k] {
        TwiceInMultiset(order, j, k);
        IndicesOnce(n, order[j]);
        assert false;
      }
    }
  }

  /** The floors, with one more for each of the first `k` of the ranking. */
  function Handed(floors: seq<int>, order: seq<int>, k: nat): seq<int>
    requires k <= |order|
  {
    seq(|floors|, i requires 0 <= i < |floors| => floors[i] + (if i in order[..k] then 1 else 0))
  }

  lemma HandNext(floors: seq<int>, order: seq<int>, k: nat)
    requires IsRanking(order, |floors|) && k < |order|
    ensures var parts := Handed(floors, order, k);
      Handed(floors, order, k + 1) == parts[order[k] := parts[order[k]] + 1]
  {
    assert order[..k + 1] == order[..k] + [order[k]];
    forall j | 0 <= j < k ensures order[..k][j] != order[k] {}
  }

  lemma {:induction false} HandedSum(floors: seq<int>, order: seq<int>, k: nat)
    requires IsRanking(order, |floors|) && k <= |order|
    ensures Sum(Handed(floors, order, k)) == Sum(floors) + k
  {
    if k == 0 {
      assert Handed(floors, order, 0) == floors;
    } else {
      HandNext(floors, order, k - 1);
      HandedSum(floors, order, k - 1);
      SumBump(Handed(floors, order, k - 1), order[k - 1]);
    }
  }

  // ------------------------------------------------------------------ allocate

  predicate Allocatable(weights: seq<int>) {
    weights != [] && NonNegative(weights) && Sum(weights) > 0
  }

  function Shares(m: nat, weights: seq<int>): seq<int>
    requires Allocatable(weights)
  {
    LeftoverSmall(m, weights);
    RankingSound(m, weights, Sum(weights));
    Handed(Floors(m, weights, Sum(weights)), Ranking(m, weights, Sum(weights)), Leftover(m, weights, Sum(weights)))
  }

  function Signed(sign: int, s: seq<int>): seq<int> {
    seq(|s|, i requires 0 <= i < |s| => sign * s[i])
  }

  function Magnitude(fils: int): nat { if fils < 0 then -fils else fils }

  /** The whole split across the weights; a negative whole is split as its magnitude is. */
  function Allocate(fils: int, weights: seq<int>): Result<seq<int>> {
    if weights == [] then Fail("allocate needs at least one weight")
    else if !NonNegative(weights) then Fail("weights must be finite and non-negative")
    else if Sum(weights) <= 0 then Fail("weights must sum to more than zero")
    else Ok(Signed(if fils < 0 then -1 else 1, Shares(Magnitude(fils), weights)))
  }

  lemma SmallModulo(k: nat, n: nat)
    requires k < n
    ensures k % n == k
  {}

  /** The loop that hands the leftover fils round the ranking. */
  method HandOut(floors: seq<int>, order: seq<int>, leftover: nat) returns (parts: seq<int>)
    requires IsRanking(order, |floors|) && (leftover < |order| || leftover == 0)
    ensures leftover <= |order| && parts == Handed(floors, order, leftover)
  {
    parts := floors;
    var remainder := leftover;
    var k := 0;
    assert Handed(floors, order, 0) == floors;
    while remainder > 0
      invariant 0 <= k <= leftover && remainder == leftover - k
      invariant parts == Handed(floors, order, k)
    {
      HandNext(floors, order, k);
      SmallModulo(k, |order|);
      var slot := order[k % |order|];
      parts := parts[slot := parts[slot] + 1];
      remainder, k := remainder - 1, k + 1;
    }
  }

  method AllocateFils(fils: int, weights: seq<int>) returns (shares: Result<seq<int>>)
    ensures shares == Allocate(fils, weights)
  {
    if weights == [] { return Fail("allocate needs at least one weight"); }
    if !NonNegative(weights) { return Fail("weights must be finite and non-negative"); }
    var total := Sum(weights);
    if total <= 0 { return Fail("weights must sum to more than zero"); }
    var sign, m := if fils < 0 then -1 else 1, Magnitude(fils);
    RankingSound(m, weights, total);
    LeftoverSmall(m, weights);
    var parts := HandOut(Floors(m, weights, total), Ranking(m, weights, total), Leftover(m, weights, total));
    shares := Ok(Signed(sign, parts));
  }

  /** The shares add back to the whole, exactly, for every whole and all weights. */
  lemma SharesSum(m: nat, weights: seq<int>)
    requires Allocatable(weights)
    ensures |Shares(m, weights)| == |weights| && Sum(Shares(m, weights)) == m
  {
    var total := Sum(weights);
    LeftoverSmall(m, weights);
    RankingSound(m, weights, total);
    HandedSum(Floors(m, weights, total), Ranking(m, weights, total), Leftover(m, weights, total));
  }

  lemma {:induction false} SignedSum(sign: int, s: seq<int>)
    ensures Sum(Signed(sign, s)) == sign * Sum(s)
  {
    if s != [] {
      assert Signed(sign, s)[1..] == Signed(sign, s[1..]);
      SignedSum(sign, s[1..]);
      Distribute(sign, s[0], Sum(s[1..]));
    }
  }

  lemma AllocateSums(fils: int, weights: seq<int>)
    ensures Allocate(fils, weights).Ok? <==> Allocatable(weights)
    ensures Allocate(fils, weights).Ok? ==>
      |Allocate(fils, weights).value| == |weights| && Sum(Allocate(fils, weights).value) == fils
  {
    if Allocatable(weights) {
      SharesSum(Magnitude(fils), weights);
      SignedSum(if fils < 0 then -1 else 1, Shares(Magnitude(fils), weights));
    }
  }

  /**
   * Fair: every share is its exact value rounded down or up, never by more; and where one share was
   * rounded up and another down, the first has the larger fraction, or the same and the lower index.
   */
  ghost predicate Fair(parts: seq<int>, m: nat, weights: seq<int>)
    requires Allocatable(weights)
  {
    var floors := Floors(m, weights, Sum(weights));
    && |parts| == |weights| && Sum(parts) == m
    && (forall i :: 0 <= i < |parts| ==> parts[i] == floors[i] || parts[i] == floors[i] + 1)
    && (forall i, j :: 0 <= i < |parts| && 0 <= j < |parts| && parts[i] == floors[i] + 1 && parts[j] == floors[j] ==>
          Before(m, weights, Sum(weights), i, j))
  }

  /** Whoever was handed one stands in the ranking before whoever was not. */
  lemma HandedBefore(floors: seq<int>, order: seq<int>, k: nat, i: nat, j: nat) returns (a: nat, b: nat)
    requires IsRanking(order, |floors|) && k <= |order| && i < |floors| && j < |floors|
    requires Handed(floors, order, k)[i] == floors[i] + 1 && Handed(floors, order, k)[j] == floors[j]
    requires j in order
    ensures a < b < |order| && order[a] == i && order[b] == j
  {
    a :| 0 <= a < k && order[..k][a] == i;
    assert order == order[..k] + order[k..] && j !in order[..k];
    var c :| 0 <= c < |order[k..]| && order[k..][c] == j;
    b := k + c;
  }

  lemma SharesFair(m: nat, weights: seq<int>)
    requires Allocatable(weights)
    ensures Fair(Shares(m, weights), m, weights)
  {
    var total := Sum(weights);
    var floors, order := Floors(m, weights, total), Ranking(m, weights, total);
    var parts := Shares(m, weights);
    SharesSum(m, weights);
    LeftoverSmall(m, weights);
    RankingSound(m, weights, total);
    SortMembers<int>(Indices(|weights|), (i, j) => Before(m, weights, total, i, j));
    forall i: nat, j: nat | i < |parts| && j < |parts| && parts[i] == floors[i] + 1 && parts[j] == floors[j]
      ensures Before(m, weights, total, i, j)
    {
      assert Indices(|weights|)[j] == j;
      var a, b := HandedBefore(floors, order, Leftover(m, weights, total), i, j);
    }
  }

  /** Non-negative weights never make a share of a non-negative whole negative. */
  lemma SharesNonNegative(m: nat, weights: seq<int>)
    requires Allocatable(weights)
    ensures NonNegative(Shares(m, weights))
  {
    forall i | 0 <= i < |weights| ensures Floors(m, weights, Sum(weights))[i] >= 0 {
      FloorNonNegative(m, weights[i], Sum(weights));
    }
  }

  lemma FloorNonNegative(m: nat, w: nat, total: int)
    requires total > 0
    ensures m * w / total >= 0
  {}

  lemma {:induction false} SumMonotone(a: seq<int>, b: seq<int>)
    requires |a| == |b| && forall i :: 0 <= i < |a| ==> a[i] <= b[i]
    ensures Sum(a) <= Sum(b) && (Sum(a) == Sum(b) ==> a == b)
  {
    if a != [] {
      SumMonotone(a[1..], b[1..]);
      assert a == [a[0]] + a[1..] && b == [b[0]] + b[1..];
    }
  }

  /** There is only one fair split, so being fair says exactly what each share is. */
  lemma FairIsUnique(a: seq<int>, b: seq<int>, m: nat, weights: seq<int>)
    requires Allocatable(weights) && Fair(a, m, weights) && Fair(b, m, weights)
    ensures a == b
  {
    if i :| 0 <= i < |a| && a[i] > b[i] {
      if j :| 0 <= j < |a| && a[j] < b[j] {
        assert false;
      } else {
        SumMonotone(b, a);
      }
    } else {
      SumMonotone(a, b);
    }
  }

  // ------------------------------------------------------------------ said in plain numbers

  /**
   * Each part is the whole times its weight over all the weights, rounded down or up; and one is rounded
   * up where another is rounded down only if what it would lose is more, or as much and it stands first.
   */
  lemma FairMeans(parts: seq<int>, m: nat, weights: seq<int>, i: nat, j: nat)
    requires Allocatable(weights) && Fair(parts, m, weights) && i < |parts| && j < |parts|
    ensures var total := Sum(weights);
      && (parts[i] == m * weights[i] / total || parts[i] == m * weights[i] / total + 1)
      && (parts[i] > m * weights[i] / total && parts[j] == m * weights[j] / total ==>
            || m * weights[i] % total > m * weights[j] % total
            || (m * weights[i] % total == m * weights[j] % total && i <= j))
  {}

  /** A fair split of any whole: a negative one is split as the positive one is. */
  ghost predicate FairParts(parts: seq<int>, fils: int, weights: seq<int>)
    requires Allocatable(weights)
  {
    exists sizes :: Fair(sizes, Magnitude(fils), weights) && parts == Signed(if fils < 0 then -1 else 1, sizes)
  }

  lemma AllocateIsFair(fils: int, weights: seq<int>)
    requires Allocatable(weights)
    ensures Allocate(fils, weights).Ok? && FairParts(Allocate(fils, weights).value, fils, weights)
  {
    SharesFair(Magnitude(fils), weights);
  }
}
