/**
 * The walk-in board. The engine is asked once per distinct list of services, the answers are kept
 * under the ids joined with '+', and every row reads its own from there.
 */
module WalkIn {
  import opened Basics
  import opened Greedy

  datatype Candidate = Candidate(startMin: int, staffId: Id)

  datatype Row = Row(id: Id, joinedMin: int, serviceIds: seq<string>)

  /** What asking about one list of services comes to. */
  datatype Lookup = Threw | SomeMissing | Feasible(candidates: seq<Candidate>)

  // ------------------------------------------------------------------ the key

  predicate PlusFree(id: string) {
    '+' !in id
  }

  function Join(ids: seq<string>): string {
    if ids == [] then ""
    else if |ids| == 1 then ids[0]
    else ids[0] + "+" + Join(ids[1..])
  }

  ghost predicate Plain(ids: seq<string>) {
    forall i :: 0 <= i < |ids| ==> PlusFree(ids[i])
  }

  predicate Blank(ids: seq<string>) {
    ids == [] || ids == [""]
  }

  lemma {:induction false} FirstPlus(a: string, x: string, b: string, y: string)
    requires PlusFree(a) && PlusFree(b) && a + "+" + x == b + "+" + y
    ensures a == b && x == y
    decreases |a|
  {
    var left, right := a + "+" + x, b + "+" + y;
    if a == [] || b == [] {
      assert left[0] == right[0];
      assert left[1..] == x && right[1..] == y;
    } else {
      assert left[0] == a[0] && right[0] == b[0];
      assert left[1..] == a[1..] + "+" + x && right[1..] == b[1..] + "+" + y;
      FirstPlus(a[1..], x, b[1..], y);
      assert a == [a[0]] + a[1..] && b == [b[0]] + b[1..];
    }
  }

  /** Two lists of ids without a '+' share a key exactly when they are the same list, or both spell nothing. */
  lemma {:induction false} JoinTells(a: seq<string>, b: seq<string>)
    requires Plain(a) && Plain(b)
    ensures Join(a) == Join(b) <==> a == b || (Blank(a) && Blank(b))
    decreases |a|
  {
    if |a| > 1 && |b| > 1 {
      JoinTells(a[1..], b[1..]);
      if Join(a) == Join(b) {
        FirstPlus(a[0], Join(a[1..]), b[0], Join(b[1..]));
        MoreThanNothing(a);
        MoreThanNothing(b);
        assert a == [a[0]] + a[1..] && b == [b[0]] + b[1..];
      }
    } else if |a| > 1 {
      HasPlus(a);
    } else if |b| > 1 {
      HasPlus(b);
    }
  }

  lemma HasPlus(ids: seq<string>)
    requires |ids| > 1
    ensures '+' in Join(ids)
  {
    assert Join(ids)[|ids[0]|] == '+';
  }

  lemma MoreThanNothing(ids: seq<string>)
    requires |ids| > 1
    ensures !Blank(ids)
  {}

  // ------------------------------------------------------------------ the nearest options

  const NOW_WINDOW_MIN := 15
  const OPTIONS_SHOWN := 3

  datatype Shown = Now(staffId: Id, startMin: int) | From(staffId: Id, startMin: int) | NextGap(startMin: int)

  predicate ByStart(a: Candidate, b: Candidate) {
    a.startMin < b.startMin || (a.startMin == b.startMin && a.staffId <= b.staffId)
  }

  predicate SameStaff(picked: seq<Candidate>, c: Candidate) {
    exists i :: 0 <= i < |picked| && picked[i].staffId == c.staffId
  }

  function StillAhead(candidates: seq<Candidate>, nowMin: int): seq<Candidate> {
    if candidates == [] then []
    else (if candidates[0].startMin >= nowMin then [candidates[0]] else []) + StillAhead(candidates[1..], nowMin)
  }

  function Usable(candidates: seq<Candidate>, nowMin: int): seq<Candidate> {
    Sort(StillAhead(candidates, nowMin), ByStart)
  }

  function Named(candidates: seq<Candidate>, nowMin: int): seq<Candidate> {
    Pick(Usable(candidates, nowMin), OPTIONS_SHOWN, SameStaff, [])
  }

  function FirstAfter(usable: seq<Candidate>, startMin: int): Option<Candidate> {
    if usable == [] then None
    else if usable[0].startMin > startMin then Some(usable[0])
    else FirstAfter(usable[1..], startMin)
  }

  function Gap(candidates: seq<Candidate>, nowMin: int): Option<Candidate> {
    var named := Named(candidates, nowMin);
    if 0 < |named| < OPTIONS_SHOWN then FirstAfter(Usable(candidates, nowMin), named[|named| - 1].startMin) else None
  }

  function Show(c: Candidate, nowMin: int): Shown {
    if c.startMin - nowMin <= NOW_WINDOW_MIN then Now(c.staffId, c.startMin) else From(c.staffId, c.startMin)
  }

  function NearestOptions(candidates: seq<Candidate>, nowMin: int): seq<Shown> {
    var named := Named(candidates, nowMin);
    var gap := Gap(candidates, nowMin);
    seq(|named|, i requires 0 <= i < |named| => Show(named[i], nowMin))
    + if gap.Some? then [NextGap(gap.value.startMin)] else []
  }

  lemma {:induction false} StillAheadExact(candidates: seq<Candidate>, nowMin: int)
    ensures forall c :: c in StillAhead(candidates, nowMin) <==> c in candidates && c.startMin >= nowMin
  {
    if candidates != [] { StillAheadExact(candidates[1..], nowMin); }
  }

  lemma UsableExact(candidates: seq<Candidate>, nowMin: int)
    ensures forall c :: c in Usable(candidates, nowMin) <==> c in candidates && c.startMin >= nowMin
    ensures Sorted(Usable(candidates, nowMin), ByStart)
  {
    StillAheadExact(candidates, nowMin);
    SortMembers(StillAhead(candidates, nowMin), ByStart);
    SortSorts(StillAhead(candidates, nowMin), ByStart);
  }

  /** At most three professionals, nobody twice, each at the first start they still have. */
  lemma NamedAreEarliest(candidates: seq<Candidate>, nowMin: int)
    ensures var named := Named(candidates, nowMin);
      && |named| <= 3
      && (forall i :: 0 <= i < |named| ==> named[i] in candidates && named[i].startMin >= nowMin)
      && (forall i, j :: 0 <= i < j < |named| ==> named[i].staffId != named[j].staffId)
      && (forall i, c :: 0 <= i < |named| && c in candidates && nowMin <= c.startMin < named[i].startMin ==>
            c.staffId != named[i].staffId)
  {
    var named, usable := Named(candidates, nowMin), Usable(candidates, nowMin);
    UsableExact(candidates, nowMin);
    PickSound(usable, OPTIONS_SHOWN, SameStaff, []);
    forall i, j | 0 <= i < j < |named| ensures named[i].staffId != named[j].staffId {
      assert !SameStaff(named[..j], named[j]);
      assert named[..j][i].staffId == named[i].staffId;
    }
    forall i, c | 0 <= i < |named| && c in candidates && nowMin <= c.startMin < named[i].startMin
      ensures c.staffId != named[i].staffId
    {
      NamedOrLater(candidates, nowMin, c);
    }
  }

  /** A candidate is named, or its professional is, no later; or three others are, no later. */
  lemma NamedOrLater(candidates: seq<Candidate>, nowMin: int, c: Candidate)
    requires c in candidates && c.startMin >= nowMin
    ensures var named := Named(candidates, nowMin);
      || (exists i :: 0 <= i < |named| && named[i].staffId == c.staffId && named[i].startMin <= c.startMin)
      || (|named| == 3 && forall i :: 0 <= i < |named| ==> named[i].startMin <= c.startMin)
  {
    var named := Named(candidates, nowMin);
    UsableExact(candidates, nowMin);
    PickSound(Usable(candidates, nowMin), OPTIONS_SHOWN, SameStaff, []);
    PickBest(Usable(candidates, nowMin), OPTIONS_SHOWN, SameStaff, [], ByStart, c);
    if c !in named {
      var k :| 0 <= k <= |named| && (forall i :: 0 <= i < k ==> ByStart(named[i], c))
               && (SameStaff(named[..k], c) || k == |named| == OPTIONS_SHOWN);
      if SameStaff(named[..k], c) {
        var i :| 0 <= i < k && named[..k][i].staffId == c.staffId;
        assert named[i].staffId == c.staffId && ByStart(named[i], c);
      }
    }
  }

  lemma {:induction false} FirstAfterExact(usable: seq<Candidate>, startMin: int)
    requires Sorted(usable, ByStart)
    ensures FirstAfter(usable, startMin).None? <==> forall c :: c in usable ==> c.startMin <= startMin
    ensures FirstAfter(usable, startMin).Some? ==>
      var gap := FirstAfter(usable, startMin).value;
      gap in usable && gap.startMin > startMin
      && forall c :: c in usable && c.startMin > startMin ==> gap.startMin <= c.startMin
  {
    if usable != [] {
      if usable[0].startMin > startMin {
        forall c | c in usable ensures usable[0].startMin <= c.startMin {
          var i :| 0 <= i < |usable| && usable[i] == c;
          assert i == 0 || ByStart(usable[0], usable[i]);
        }
      } else {
        FirstAfterExact(usable[1..], startMin);
      }
    }
  }

  /** With room left, the earliest start later than the last one named: only ever a second start of somebody named. */
  lemma GapIsNext(candidates: seq<Candidate>, nowMin: int)
    ensures var named, gap := Named(candidates, nowMin), Gap(candidates, nowMin);
      gap.Some? ==>
        && 0 < |named| < 3 && gap.value in candidates && gap.value.startMin > named[|named| - 1].startMin
        && (exists i :: 0 <= i < |named| && named[i].staffId == gap.value.staffId)
        && forall c :: c in candidates && c.startMin > named[|named| - 1].startMin ==> gap.value.startMin <= c.startMin
    ensures var named := Named(candidates, nowMin);
      Gap(candidates, nowMin).None? && 0 < |named| < 3 ==>
        forall c :: c in candidates ==> c.startMin <= named[|named| - 1].startMin
  {
    var named := Named(candidates, nowMin);
    if 0 < |named| < OPTIONS_SHOWN {
      UsableExact(candidates, nowMin);
      NamedAreEarliest(candidates, nowMin);
      FirstAfterExact(Usable(candidates, nowMin), named[|named| - 1].startMin);
      var gap := Gap(candidates, nowMin);
      if gap.Some? { NamedOrLater(candidates, nowMin, gap.value); }
    }
  }

  // ------------------------------------------------------------------ the board

  function Answer(lookup: Lookup): seq<Candidate> {
    match lookup
    case Feasible(candidates) => candidates
    case _ => []
  }

  predicate ByArrival(a: Row, b: Row) {
    a.joinedMin < b.joinedMin || (a.joinedMin == b.joinedMin && a.id <= b.id)
  }

  /** The list of services the engine is asked about under a key: that of the last row with it. */
  function AskedUnder(rows: seq<Row>, key: string): Option<seq<string>> {
    if rows == [] then None
    else
      var last := rows[|rows| - 1].serviceIds;
      if Join(last) == key then Some(last) else AskedUnder(rows[..|rows| - 1], key)
  }

  function CandidatesFor(rows: seq<Row>, closed: bool, ask: seq<string> -> Lookup, ids: seq<string>): seq<Candidate> {
    var asked := AskedUnder(rows, Join(ids));
    if closed || asked.None? then [] else Answer(ask(asked.value))
  }

  datatype BoardRow = BoardRow(row: Row, position: nat, waitingMin: int, options: seq<Shown>)

  function Seat(rows: seq<Row>, closed: bool, ask: seq<string> -> Lookup, nowMin: int, row: Row, i: nat): BoardRow {
    BoardRow(row, i + 1, if nowMin - row.joinedMin > 0 then nowMin - row.joinedMin else 0,
             NearestOptions(CandidatesFor(rows, closed, ask, row.serviceIds), nowMin))
  }

  /** The distinct keys in the order they first come up, each with the services of its last row. */
  method DistinctSets(rows: seq<Row>) returns (keys: seq<string>, sets: map<string, seq<string>>)
    ensures forall key :: key in sets <==> key in keys
    ensures forall j, k :: 0 <= j < k < |keys| ==> keys[j] != keys[k]
    ensures forall key :: AskedUnder(rows, key) == if key in sets then Some(sets[key]) else None
  {
    keys, sets := [], map[];
    assert rows[..0] == [];
    for i := 0 to |rows|
      invariant forall key :: key in sets <==> key in keys
      invariant forall j, k :: 0 <= j < k < |keys| ==> keys[j] != keys[k]
      invariant forall key :: AskedUnder(rows[..i], key) == if key in sets then Some(sets[key]) else None
    {
      var key := Join(rows[i].serviceIds);
      assert rows[..i + 1][..i] == rows[..i];
      if key !in sets { keys := keys + [key]; }
      sets := sets[key := rows[i].serviceIds];
    }
    assert rows[..|rows|] == rows;
  }

  /** One question per key, whatever its answer: trouble with one list leaves the others alone. */
  method Warm(keys: seq<string>, sets: map<string, seq<string>>, ask: seq<string> -> Lookup)
    returns (cache: map<string, seq<Candidate>>)
    requires forall key :: key in keys ==> key in sets
    ensures forall key :: key in cache <==> key in keys
    ensures forall key :: key in cache ==> cache[key] == Answer(ask(sets[key]))
  {
    cache := map[];
    for i := 0 to |keys|
      invariant forall key :: key in cache <==> key in keys[..i]
      invariant forall key :: key in cache ==> cache[key] == Answer(ask(sets[key]))
    {
      assert keys[..i + 1] == keys[..i] + [keys[i]] && keys[i] in keys;
      match ask(sets[keys[i]]) {
        case Feasible(found) => cache := cache[keys[i] := found];
        case Threw => cache := cache[keys[i] := []];
        case SomeMissing => cache := cache[keys[i] := []];
      }
    }
    assert keys[..|keys|] == keys;
  }

  method View(rows: seq<Row>, closed: bool, ask: seq<string> -> Lookup, nowMin: int) returns (board: seq<BoardRow>)
    ensures |board| == |Sort(rows, ByArrival)|
    ensures forall i :: 0 <= i < |board| ==> board[i] == Seat(rows, closed, ask, nowMin, Sort(rows, ByArrival)[i], i)
  {
    var cache: map<string, seq<Candidate>> := map[];
    if !closed {
      var keys, sets := DistinctSets(rows);
      cache := Warm(keys, sets, ask);
    }
    var queue := Sort(rows, ByArrival);
    board := [];
    for i := 0 to |queue|
      invariant |board| == i
      invariant forall k :: 0 <= k < i ==> board[k] == Seat(rows, closed, ask, nowMin, queue[k], k)
    {
      var key := Join(queue[i].serviceIds);
      var found := if key in cache then cache[key] else [];
      var waited := nowMin - queue[i].joinedMin;
      board := board + [BoardRow(queue[i], i + 1, if waited > 0 then waited else 0, NearestOptions(found, nowMin))];
    }
  }

  /** The queue accepts no empty list, and no id of a service or package holds a '+'. */
  ghost predicate Ordinary(rows: seq<Row>) {
    forall i :: 0 <= i < |rows| ==> Plain(rows[i].serviceIds) && rows[i].serviceIds != []
  }

  lemma {:induction false} AskedUnderItsKey(rows: seq<Row>, key: string)
    ensures AskedUnder(rows, key).Some? ==> Join(AskedUnder(rows, key).value) == key
    ensures AskedUnder(rows, key).Some? ==>
      exists i :: 0 <= i < |rows| && rows[i].serviceIds == AskedUnder(rows, key).value
    ensures AskedUnder(rows, key).None? ==> forall i :: 0 <= i < |rows| ==> Join(rows[i].serviceIds) != key
  {
    if rows != [] && Join(rows[|rows| - 1].serviceIds) != key {
      AskedUnderItsKey(rows[..|rows| - 1], key);
    }
  }

  /** Everyone in the queue gets the options their own services would get alone. */
  lemma OwnAnswer(rows: seq<Row>, closed: bool, ask: seq<string> -> Lookup, nowMin: int, row: Row, i: nat)
    requires Ordinary(rows) && row in rows
    ensures Seat(rows, closed, ask, nowMin, row, i).options
         == NearestOptions(if closed then [] else Answer(ask(row.serviceIds)), nowMin)
  {
    AskedUnderItsKey(rows, Join(row.serviceIds));
    JoinTells(AskedUnder(rows, Join(row.serviceIds)).value, row.serviceIds);
  }

  /** An id holding a '+' would be taken for two: the last row with the key decides for both. */
  lemma PlusMixesUpRows(ask: seq<string> -> Lookup)
    requires Answer(ask(["cut+dry"])) != Answer(ask(["cut", "dry"]))
    ensures var rows := [Row(1, 540, ["cut+dry"]), Row(2, 545, ["cut", "dry"])];
      CandidatesFor(rows, false, ask, rows[0].serviceIds) != Answer(ask(rows[0].serviceIds))
  {
    var two := ["cut", "dry"];
    assert two[1..] == ["dry"];
    assert Join(two) == "cut" + "+" + "dry";
    assert Join(["cut+dry"]) == "cut+dry";
    var rows := [Row(1, 540, ["cut+dry"]), Row(2, 545, two)];
    assert AskedUnder(rows, "cut+dry") == Some(two);
  }

  /** Everyone who waits is on the board once, in the order they came. */
  lemma BoardIsTheQueue(rows: seq<Row>)
    ensures multiset(Sort(rows, ByArrival)) == multiset(rows) && Sorted(Sort(rows, ByArrival), ByArrival)
  {
    SortKeeps(rows, ByArrival);
    SortSorts(rows, ByArrival);
  }

  /**
   * What a board says of the people on it: they stand in the order they came, numbered from one without
   * a gap, everybody once, and each has waited since they joined.
   */
  lemma BoardTells(rows: seq<Row>, closed: bool, ask: seq<string> -> Lookup, nowMin: int, board: seq<BoardRow>)
    requires |board| == |Sort(rows, ByArrival)|
    requires forall i :: 0 <= i < |board| ==> board[i] == Seat(rows, closed, ask, nowMin, Sort(rows, ByArrival)[i], i)
    ensures |board| == |rows| && multiset(seq(|board|, i requires 0 <= i < |board| => board[i].row)) == multiset(rows)
    ensures forall i :: 0 <= i < |board| ==> board[i].position == i + 1
    ensures forall i, j :: 0 <= i < j < |board| ==> board[i].row.joinedMin <= board[j].row.joinedMin
    ensures forall i :: 0 <= i < |board| ==>
      board[i].waitingMin == if board[i].row.joinedMin <= nowMin then nowMin - board[i].row.joinedMin else 0
  {
    var queue := Sort(rows, ByArrival);
    BoardIsTheQueue(rows);
    assert |queue| == |multiset(queue)| == |multiset(rows)| == |rows|;
    assert seq(|board|, i requires 0 <= i < |board| => board[i].row) == queue;
    forall i, j | 0 <= i < j < |board| ensures board[i].row.joinedMin <= board[j].row.joinedMin {
      assert ByArrival(queue[i], queue[j]);
    }
  }

  /**
   * An option says now when the start is at most a quarter of an hour away, and else from when; a bare
   * gap comes last.
   */
  lemma OptionsTell(candidates: seq<Candidate>, nowMin: int)
    ensures var named, gap, options := Named(candidates, nowMin), Gap(candidates, nowMin), NearestOptions(candidates, nowMin);
      && |options| == |named| + (if gap.Some? then 1 else 0)
      && (forall i :: 0 <= i < |named| ==>
            options[i] == if named[i].startMin <= nowMin + 15 then Now(named[i].staffId, named[i].startMin)
                          else From(named[i].staffId, named[i].startMin))
      && (gap.Some? ==> options[|named|] == NextGap(gap.value.startMin))
  {}
}
