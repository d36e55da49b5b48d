/**
 * A party's confirm and what undoes it. One hold covers the party; the confirm hands each lane its own
 * rows of it, or nothing to anybody. When the answer cannot be built afterwards the lanes are expired
 * one by one, so the create says.
 */
module PartyCreate {
  import opened Basics
  import opened Lifecycle
  import opened Diary

  datatype StaffRow = StaffRow(id: Id, staff: Id, startMin: int)

  datatype ChairKey = ChairKey(station: string, startMin: int, durationMin: int)

  datatype ChairRow = ChairRow(id: Id, key: ChairKey)

  datatype Lane = Lane(staff: Id, startMin: int, endMin: int, station: string)

  datatype Claim = Claim(staff: StaffRow, chair: ChairRow)

  function KeyOf(lane: Lane): ChairKey {
    ChairKey(lane.station, lane.startMin, lane.endMin - lane.startMin)
  }

  function FindStaff(rows: seq<StaffRow>, lane: Lane): Option<StaffRow> {
    if rows == [] then None
    else if rows[0].staff == lane.staff && rows[0].startMin == lane.startMin then Some(rows[0])
    else FindStaff(rows[1..], lane)
  }

  function FindChair(rows: seq<ChairRow>, key: ChairKey): (at: Option<nat>)
    ensures at.Some? ==> at.value < |rows| && rows[at.value].key == key
    ensures at.None? ==> forall i :: 0 <= i < |rows| ==> rows[i].key != key
  {
    if rows == [] then None
    else if rows[0].key == key then Some(0)
    else
      var rest := FindChair(rows[1..], key);
      if rest.Some? then Some(rest.value + 1)
      else
        assert forall i :: 0 < i < |rows| ==> rows[i] == rows[1..][i - 1];
        None
  }

  function Without(rows: seq<ChairRow>, at: nat): seq<ChairRow>
    requires at < |rows|
  {
    rows[..at] + rows[at + 1..]
  }

  /** A chair claimed is a chair spent; a professional's row is only looked up. */
  function ClaimAll(staff: seq<StaffRow>, chairs: seq<ChairRow>, lanes: seq<Lane>): Option<seq<Claim>>
    decreases |lanes|
  {
    if lanes == [] then Some([])
    else
      var row, at := FindStaff(staff, lanes[0]), FindChair(chairs, KeyOf(lanes[0]));
      if row.None? || at.None? then None
      else
        var rest := ClaimAll(staff, Without(chairs, at.value), lanes[1..]);
        if rest.None? then None else Some([Claim(row.value, chairs[at.value])] + rest.value)
  }

  method ClaimEach(staff: seq<StaffRow>, chairs: seq<ChairRow>, lanes: seq<Lane>) returns (made: Option<seq<Claim>>)
    ensures made == ClaimAll(staff, chairs, lanes)
  {
    var chairsLeft := chairs;
    var claims: seq<Claim> := [];
    assert lanes[0..] == lanes;
    AfterNone(ClaimAll(staff, chairs, lanes));
    for i := 0 to |lanes|
      invariant ClaimAll(staff, chairs, lanes) == After(claims, ClaimAll(staff, chairsLeft, lanes[i..]))
    {
      assert lanes[i..][1..] == lanes[i + 1..];
      var row := FindStaff(staff, lanes[i]);
      if row.None? { return None; }
      var at := FindChair(chairsLeft, KeyOf(lanes[i]));
      if at.None? { return None; }
      AfterOneMore(claims, Claim(row.value, chairsLeft[at.value]),
                   ClaimAll(staff, Without(chairsLeft, at.value), lanes[i + 1..]));
      claims := claims + [Claim(row.value, chairsLeft[at.value])];
      chairsLeft := Without(chairsLeft, at.value);
    }
    assert lanes[|lanes|..] == [] && claims + [] == claims;
    made := Some(claims);
  }

  function After(claims: seq<Claim>, rest: Option<seq<Claim>>): Option<seq<Claim>> {
    if rest.None? then None else Some(claims + rest.value)
  }

  lemma AfterNone(rest: Option<seq<Claim>>)
    ensures After([], rest) == rest
  {
    if rest.Some? { assert [] + rest.value == rest.value; }
  }

  lemma AfterOneMore(claims: seq<Claim>, c: Claim, rest: Option<seq<Claim>>)
    ensures After(claims, After([c], rest)) == After(claims + [c], rest)
  {
    if rest.Some? { Assoc(claims, [c], rest.value); }
  }

  // ------------------------------------------------------------------ exactly when, and exactly what

  function Keys(lanes: seq<Lane>): seq<ChairKey> {
    seq(|lanes|, i requires 0 <= i < |lanes| => KeyOf(lanes[i]))
  }

  function KeysHeld(chairs: seq<ChairRow>): seq<ChairKey> {
    seq(|chairs|, i requires 0 <= i < |chairs| => chairs[i].key)
  }

  function Chairs(claims: seq<Claim>): seq<ChairRow> {
    seq(|claims|, i requires 0 <= i < |claims| => claims[i].chair)
  }

  lemma WithoutOne(rows: seq<ChairRow>, at: nat)
    requires at < |rows|
    ensures multiset(rows) == multiset{rows[at]} + multiset(Without(rows, at))
    ensures multiset(KeysHeld(rows)) == multiset{rows[at].key} + multiset(KeysHeld(Without(rows, at)))
  {
    assert rows == rows[..at] + [rows[at]] + rows[at + 1..];
    var keys := KeysHeld(rows);
    assert keys == keys[..at] + [keys[at]] + keys[at + 1..];
    assert KeysHeld(Without(rows, at)) == keys[..at] + keys[at + 1..];
  }

  ghost predicate AllHeld(staff: seq<StaffRow>, lanes: seq<Lane>) {
    forall i :: 0 <= i < |lanes| ==> FindStaff(staff, lanes[i]).Some?
  }

  lemma AllHeldStep(staff: seq<StaffRow>, lanes: seq<Lane>)
    requires lanes != []
    ensures AllHeld(staff, lanes) <==> FindStaff(staff, lanes[0]).Some? && AllHeld(staff, lanes[1..])
  {
    assert forall i :: 0 < i < |lanes| ==> lanes[i] == lanes[1..][i - 1];
    if AllHeld(staff, lanes) {
      forall i | 0 <= i < |lanes[1..]| ensures FindStaff(staff, lanes[1..][i]).Some? {
        assert FindStaff(staff, lanes[i + 1]).Some?;
      }
    }
  }

  lemma OneMoreOnBothSides(key: ChairKey, asked: multiset<ChairKey>, held: multiset<ChairKey>)
    ensures multiset{key} + asked <= multiset{key} + held <==> asked <= held
  {
    if multiset{key} + asked <= multiset{key} + held {
      forall k ensures asked[k] <= held[k] {
        assert (multiset{key} + asked)[k] <= (multiset{key} + held)[k];
      }
    }
  }

  /**
   * The party is confirmed if and only if every lane's professional is held at its start, and the hold
   * has as many chairs of each kind, start and length as the lanes ask for: taking them first come,
   * first served never costs a lane its chair.
   */
  lemma {:induction false} ClaimIff(staff: seq<StaffRow>, chairs: seq<ChairRow>, lanes: seq<Lane>)
    ensures ClaimAll(staff, chairs, lanes).Some? <==>
      AllHeld(staff, lanes) && multiset(Keys(lanes)) <= multiset(KeysHeld(chairs))
    decreases |lanes|
  {
    if lanes != [] {
      var key, rest := KeyOf(lanes[0]), lanes[1..];
      AllHeldStep(staff, lanes);
      assert Keys(lanes) == [key] + Keys(rest);
      var at := FindChair(chairs, key);
      if at.Some? {
        WithoutOne(chairs, at.value);
        ClaimIff(staff, Without(chairs, at.value), rest);
        OneMoreOnBothSides(key, multiset(Keys(rest)), multiset(KeysHeld(Without(chairs, at.value))));
      } else {
        NoSuchKey(chairs, key);
        assert key in multiset(Keys(lanes));
      }
    }
  }

  lemma NoSuchKey(chairs: seq<ChairRow>, key: ChairKey)
    requires forall i :: 0 <= i < |chairs| ==> chairs[i].key != key
    ensures key !in multiset(KeysHeld(chairs))
  {
    assert forall k :: k in KeysHeld(chairs) ==> k != key;
  }

  /** Each lane gets a row of its own professional and a chair of its own, none of them given out twice. */
  lemma {:induction false} ClaimsExact(staff: seq<StaffRow>, chairs: seq<ChairRow>, lanes: seq<Lane>)
    requires ClaimAll(staff, chairs, lanes).Some?
    ensures var claims := ClaimAll(staff, chairs, lanes).value;
      && |claims| == |lanes| && multiset(Chairs(claims)) <= multiset(chairs)
      && forall i :: 0 <= i < |lanes| ==>
           Some(claims[i].staff) == FindStaff(staff, lanes[i]) && claims[i].chair.key == KeyOf(lanes[i])
    decreases |lanes|
  {
    if lanes != [] {
      var at := FindChair(chairs, KeyOf(lanes[0])).value;
      var claims := ClaimAll(staff, chairs, lanes).value;
      ClaimsExact(staff, Without(chairs, at), lanes[1..]);
      WithoutOne(chairs, at);
      assert claims[1..] == ClaimAll(staff, Without(chairs, at), lanes[1..]).value;
      assert Chairs(claims) == [chairs[at]] + Chairs(claims[1..]);
    }
  }

  /** The hold has this lane's professional, at its start. */
  ghost predicate Holds(staff: seq<StaffRow>, lane: Lane) {
    exists k :: 0 <= k < |staff| && staff[k].staff == lane.staff && staff[k].startMin == lane.startMin
  }

  lemma {:induction false} FindStaffExact(staff: seq<StaffRow>, lane: Lane)
    ensures FindStaff(staff, lane).Some? <==> Holds(staff, lane)
    ensures FindStaff(staff, lane).Some? ==>
      var row := FindStaff(staff, lane).value; row in staff && row.staff == lane.staff && row.startMin == lane.startMin
  {
    if staff != [] {
      FindStaffExact(staff[1..], lane);
      if Holds(staff[1..], lane) {
        var k :| 0 <= k < |staff[1..]| && staff[1..][k].staff == lane.staff && staff[1..][k].startMin == lane.startMin;
        assert staff[k + 1] == staff[1..][k];
      }
      if Holds(staff, lane) {
        var k :| 0 <= k < |staff| && staff[k].staff == lane.staff && staff[k].startMin == lane.startMin;
        if k > 0 { assert staff[1..][k - 1] == staff[k]; }
      }
    }
  }

  /** How many chairs a list has of a station, for a start and a length. */
  ghost function ChairsFor(chairs: seq<ChairRow>, station: string, startMin: int, minutes: int): nat {
    HowMany(chairs, (c: ChairRow) =>
      c.key.station == station && c.key.startMin == startMin && c.key.durationMin == minutes)
  }

  ghost function Asking(lanes: seq<Lane>, station: string, startMin: int, minutes: int): nat {
    HowMany(lanes, (l: Lane) => l.station == station && l.startMin == startMin && l.endMin - l.startMin == minutes)
  }

  lemma {:induction false} KeysCounted(chairs: seq<ChairRow>, k: ChairKey)
    ensures multiset(KeysHeld(chairs))[k] == ChairsFor(chairs, k.station, k.startMin, k.durationMin)
  {
    if chairs != [] {
      KeysCounted(chairs[1..], k);
      assert KeysHeld(chairs) == [chairs[0].key] + KeysHeld(chairs[1..]);
    }
  }

  lemma {:induction false} LanesCounted(lanes: seq<Lane>, k: ChairKey)
    ensures multiset(Keys(lanes))[k] == Asking(lanes, k.station, k.startMin, k.durationMin)
  {
    if lanes != [] {
      LanesCounted(lanes[1..], k);
      assert Keys(lanes) == [KeyOf(lanes[0])] + Keys(lanes[1..]);
    }
  }

  /**
   * A party is confirmed if and only if the hold has every lane's professional at that lane's start, and
   * for every station, start and length as many chairs as there are lanes that ask for it; each lane then
   * gets its own professional's row and a chair of its station for its very minutes.
   */
  lemma ConfirmedByRows(staff: seq<StaffRow>, chairs: seq<ChairRow>, lanes: seq<Lane>)
    ensures var made := ClaimAll(staff, chairs, lanes);
      && (made.Some? <==>
            && (forall i :: 0 <= i < |lanes| ==> Holds(staff, lanes[i]))
            && (forall station, startMin, minutes ::
                  Asking(lanes, station, startMin, minutes) <= ChairsFor(chairs, station, startMin, minutes)))
      && (made.Some? ==>
            |made.value| == |lanes| && forall i :: 0 <= i < |lanes| ==> OwnRows(made.value[i], lanes[i], staff, chairs))
  {
    ClaimIff(staff, chairs, lanes);
    HeldByRows(staff, lanes);
    AskedByRows(chairs, lanes);
    if ClaimAll(staff, chairs, lanes).Some? { ClaimedRows(staff, chairs, lanes); }
  }

  ghost predicate OwnRows(c: Claim, lane: Lane, staff: seq<StaffRow>, chairs: seq<ChairRow>) {
    && c.staff in staff && c.staff.staff == lane.staff && c.staff.startMin == lane.startMin
    && c.chair in chairs && c.chair.key.station == lane.station && c.chair.key.startMin == lane.startMin
    && c.chair.key.startMin + c.chair.key.durationMin == lane.endMin
  }

  lemma HeldByRows(staff: seq<StaffRow>, lanes: seq<Lane>)
    ensures AllHeld(staff, lanes) <==> forall i :: 0 <= i < |lanes| ==> Holds(staff, lanes[i])
  {
    forall i | 0 <= i < |lanes| ensures FindStaff(staff, lanes[i]).Some? <==> Holds(staff, lanes[i]) {
      FindStaffExact(staff, lanes[i]);
    }
  }

  lemma AskedByRows(chairs: seq<ChairRow>, lanes: seq<Lane>)
    ensures multiset(Keys(lanes)) <= multiset(KeysHeld(chairs)) <==>
      forall station, startMin, minutes ::
        Asking(lanes, station, startMin, minutes) <= ChairsFor(chairs, station, startMin, minutes)
  {
    var asked, held := multiset(Keys(lanes)), multiset(KeysHeld(chairs));
    forall k: ChairKey
      ensures asked[k] == Asking(lanes, k.station, k.startMin, k.durationMin)
      ensures held[k] == ChairsFor(chairs, k.station, k.startMin, k.durationMin)
    {
      KeysCounted(chairs, k);
      LanesCounted(lanes, k);
    }
    if asked <= held {
      forall station, startMin, minutes
        ensures Asking(lanes, station, startMin, minutes) <= ChairsFor(chairs, station, startMin, minutes)
      {
        var k := ChairKey(station, startMin, minutes);
        assert asked[k] <= held[k];
      }
    }
  }

  lemma ClaimedRows(staff: seq<StaffRow>, chairs: seq<ChairRow>, lanes: seq<Lane>)
    requires ClaimAll(staff, chairs, lanes).Some?
    ensures var claims := ClaimAll(staff, chairs, lanes).value;
      |claims| == |lanes| && forall i :: 0 <= i < |lanes| ==> OwnRows(claims[i], lanes[i], staff, chairs)
  {
    var claims := ClaimAll(staff, chairs, lanes).value;
    ClaimsExact(staff, chairs, lanes);
    forall i | 0 <= i < |lanes| ensures OwnRows(claims[i], lanes[i], staff, chairs) {
      FindStaffExact(staff, lanes[i]);
      assert Chairs(claims)[i] in multiset(Chairs(claims));
      assert claims[i].chair in multiset(chairs);
    }
  }

  // ------------------------------------------------------------------ the party's own hold

  /** What placing a plan wrote: a professional's row and a chair row for each lane, in order. */
  ghost predicate HoldOf(lanes: seq<Lane>, staff: seq<StaffRow>, chairs: seq<ChairRow>) {
    && |staff| == |lanes| && KeysHeld(chairs) == Keys(lanes)
    && forall i :: 0 <= i < |lanes| ==> staff[i].staff == lanes[i].staff && staff[i].startMin == lanes[i].startMin
  }

  lemma {:induction false} FindsItsOwn(staff: seq<StaffRow>, i: nat, lane: Lane)
    requires i < |staff| && staff[i].staff == lane.staff && staff[i].startMin == lane.startMin
    requires forall j :: 0 <= j < i ==> staff[j].staff != lane.staff
    ensures FindStaff(staff, lane) == Some(staff[i])
  {
    if i > 0 { FindsItsOwn(staff[1..], i - 1, lane); }
  }

  /** Confirming a party against its own hold always succeeds, and leaves the hold no row. */
  lemma OwnHoldIsEmptied(lanes: seq<Lane>, staff: seq<StaffRow>, chairs: seq<ChairRow>)
    requires HoldOf(lanes, staff, chairs)
    requires forall i, j :: 0 <= i < j < |lanes| ==> lanes[i].staff != lanes[j].staff
    ensures ClaimAll(staff, chairs, lanes).Some?
    ensures var claims := ClaimAll(staff, chairs, lanes).value;
      && |claims| == |staff| && (forall i :: 0 <= i < |staff| ==> claims[i].staff == staff[i])
      && multiset(Chairs(claims)) == multiset(chairs)
  {
    forall i | 0 <= i < |lanes| ensures FindStaff(staff, lanes[i]) == Some(staff[i]) {
      FindsItsOwn(staff, i, lanes[i]);
    }
    ClaimIff(staff, chairs, lanes);
    ClaimsExact(staff, chairs, lanes);
    var claims := ClaimAll(staff, chairs, lanes).value;
    assert |chairs| == |KeysHeld(chairs)| == |lanes| == |Chairs(claims)|;
    SameSize(multiset(Chairs(claims)), multiset(chairs));
  }

  lemma SameSize<T>(some: multiset<T>, all: multiset<T>)
    requires some <= all && |some| == |all|
    ensures some == all
  {
    assert all == some + (all - some);
    assert |all - some| == 0;
  }

  // ------------------------------------------------------------------ what undoes it

  /** What follows a party that was written but could not be read back. */
  function ExpireEach(d: Diary, lanes: seq<Id>): Diary
    decreases |lanes|
  {
    if lanes == [] then d else ExpireEach(Transition(d, lanes[0], Expired, System, true), lanes[1..])
  }

  /**
   * The lanes of such a party are confirmed, and nobody may expire a confirmed booking: every lane is
   * refused, the refusals are swallowed, and the party stays booked although the create has failed.
   */
  lemma {:induction false} UnreadablePartyStaysBooked(d: Diary, lanes: seq<Id>)
    requires forall i :: 0 <= i < |lanes| ==> lanes[i] in d.bookings && d.bookings[lanes[i]].status == Confirmed
    ensures ExpireEach(d, lanes) == d
    decreases |lanes|
  {
    if lanes != [] {
      ConfirmedNeverExpires(System, true);
      assert forall i :: 0 <= i < |lanes[1..]| ==> lanes[1..][i] == lanes[i + 1];
      UnreadablePartyStaysBooked(d, lanes[1..]);
    }
  }

  /** In general a lane is expired exactly when the system may expire it from where it stands. */
  lemma {:induction false} ExpiresExactly(d: Diary, lanes: seq<Id>, b: Id)
    requires b in d.bookings
    ensures b in ExpireEach(d, lanes).bookings
    ensures ExpireEach(d, lanes).bookings[b].status
         == if b in lanes && Check(d.bookings[b].status, Expired, System, true).Allowed? then Expired
            else d.bookings[b].status
    decreases |lanes|
  {
    if lanes != [] { ExpiresExactly(Transition(d, lanes[0], Expired, System, true), lanes[1..], b); }
  }
}
