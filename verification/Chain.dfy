/** Laying a visit's services end to end and cutting them into the stretches that hold a chair. */
module Chain {
  import opened Basics

  datatype Band = NoBand | Band(fromMin: int, toMin: int)

  datatype RawService = RawService(station: string, durationMin: int, band: Band, releasesChair: bool)

  /** A service of the catalogue takes time, and its hands-free band lies inside it. */
  type Service = s: RawService
    | 0 < s.durationMin && (s.band.Band? ==> 0 <= s.band.fromMin < s.band.toMin <= s.durationMin)
    witness RawService("", 1, NoBand, false)

  datatype Segment = Segment(offset: int, duration: int, station: Option<string>)

  datatype Demand = Demand(station: string, fromMin: int, toMin: int)

  function TotalMinutes(services: seq<Service>): (n: int)
    ensures n >= 0 && (services != [] ==> n > 0)
  {
    if services == [] then 0 else services[0].durationMin + TotalMinutes(services[1..])
  }

  /** One service: whole, or chair / no chair / chair when the client leaves it during the band. */
  function Cut(s: Service, offset: int): seq<Segment> {
    if s.band.Band? && s.releasesChair then
      (if s.band.fromMin > 0 then [Segment(offset, s.band.fromMin, Some(s.station))] else []) +
      [Segment(offset + s.band.fromMin, s.band.toMin - s.band.fromMin, None)] +
      (if s.band.toMin < s.durationMin
       then [Segment(offset + s.band.toMin, s.durationMin - s.band.toMin, Some(s.station))] else [])
    else
      [Segment(offset, s.durationMin, Some(s.station))]
  }

  function Segments(services: seq<Service>, offset: int): seq<Segment> {
    if services == [] then []
    else Cut(services[0], offset) + Segments(services[1..], offset + services[0].durationMin)
  }

  /** The segments follow one another without gap or overlap from `from` to `to`. */
  ghost predicate Tiles(segments: seq<Segment>, from: int, to: int) {
    if segments == [] then from == to
    else segments[0].offset == from && segments[0].duration > 0 &&
         Tiles(segments[1..], from + segments[0].duration, to)
  }

  lemma {:induction false} TilesJoin(a: seq<Segment>, b: seq<Segment>, from: int, mid: int, to: int)
    requires Tiles(a, from, mid) && Tiles(b, mid, to)
    ensures Tiles(a + b, from, to)
  {
    if a == [] {
      assert a + b == b;
    } else {
      assert (a + b)[1..] == a[1..] + b;
      TilesJoin(a[1..], b, from + a[0].duration, mid, to);
    }
  }

  lemma CutTiles(s: Service, offset: int)
    ensures Tiles(Cut(s, offset), offset, offset + s.durationMin)
  {
    if s.band.Band? && s.releasesChair {
      var rest := if s.band.toMin < s.durationMin
        then [Segment(offset + s.band.toMin, s.durationMin - s.band.toMin, Some(s.station))] else [];
      var middle := [Segment(offset + s.band.fromMin, s.band.toMin - s.band.fromMin, None)];
      var head := if s.band.fromMin > 0 then [Segment(offset, s.band.fromMin, Some(s.station))] else [];
      TilesJoin(head, middle, offset, offset + s.band.fromMin, offset + s.band.toMin);
      TilesJoin(head + middle, rest, offset, offset + s.band.toMin, offset + s.durationMin);
    }
  }

  /** The cut is exact: every minute of the visit belongs to one segment, whatever the services. */
  lemma {:induction false} SegmentsTile(services: seq<Service>, offset: int)
    ensures Tiles(Segments(services, offset), offset, offset + TotalMinutes(services))
  {
    if services != [] {
      CutTiles(services[0], offset);
      SegmentsTile(services[1..], offset + services[0].durationMin);
      TilesJoin(Cut(services[0], offset), Segments(services[1..], offset + services[0].durationMin),
                offset, offset + services[0].durationMin, offset + TotalMinutes(services));
    }
  }

  method PushService(out: seq<Segment>, s: Service, offset: int) returns (grown: seq<Segment>)
    ensures grown == out + Cut(s, offset)
  {
    grown := out;
    if s.band.Band? && s.releasesChair {
      if s.band.fromMin > 0 {
        grown := grown + [Segment(offset, s.band.fromMin, Some(s.station))];
      }
      grown := grown + [Segment(offset + s.band.fromMin, s.band.toMin - s.band.fromMin, None)];
      if s.band.toMin < s.durationMin {
        grown := grown + [Segment(offset + s.band.toMin, s.durationMin - s.band.toMin, Some(s.station))];
      }
    } else {
      grown := grown + [Segment(offset, s.durationMin, Some(s.station))];
    }
  }

  lemma SegmentsFrom(services: seq<Service>, i: nat, offset: int)
    requires i < |services|
    ensures Segments(services[i..], offset)
         == Cut(services[i], offset) + Segments(services[i + 1..], offset + services[i].durationMin)
  {
    assert services[i..][1..] == services[i + 1..];
  }

  method ExpandChain(services: seq<Service>) returns (out: seq<Segment>)
    ensures out == Segments(services, 0)
  {
    out := [];
    var offset := 0;
    for i := 0 to |services|
      invariant out + Segments(services[i..], offset) == Segments(services, 0)
    {
      SegmentsFrom(services, i, offset);
      Assoc(out, Cut(services[i], offset), Segments(services[i + 1..], offset + services[i].durationMin));
      out := PushService(out, services[i], offset);
      offset := offset + services[i].durationMin;
    }
    assert services[|services|..] == [];
  }

  /** The chair stretches of a visit that starts at `start`: the segments that hold a station. */
  function DemandsOf(segments: seq<Segment>, start: int): seq<Demand> {
    if segments == [] then []
    else
      var rest := DemandsOf(segments[1..], start);
      var first := segments[0];
      if first.station.None? then rest
      else [Demand(first.station.value, start + first.offset, start + first.offset + first.duration)] + rest
  }

  function ResourceDemand(services: seq<Service>, start: int): seq<Demand> {
    DemandsOf(Segments(services, 0), start)
  }

  /** In order, each of positive length, inside the window, and none overlapping a later one. */
  ghost predicate Disjoint(demands: seq<Demand>, from: int, to: int) {
    && (forall i :: 0 <= i < |demands| ==> from <= demands[i].fromMin < demands[i].toMin <= to)
    && (forall i, j :: 0 <= i < j < |demands| ==> demands[i].toMin <= demands[j].fromMin)
  }

  lemma {:induction false} DemandsDisjoint(segments: seq<Segment>, start: int, from: int, to: int)
    requires Tiles(segments, from, to)
    ensures from <= to
    ensures Disjoint(DemandsOf(segments, start), start + from, start + to)
  {
    if segments != [] {
      var mid := from + segments[0].duration;
      var rest := DemandsOf(segments[1..], start);
      DemandsDisjoint(segments[1..], start, mid, to);
      if segments[0].station.Some? {
        DisjointCons(Demand(segments[0].station.value, start + from, start + mid), rest, start + to);
      } else {
        DisjointWider(rest, start + from, start + mid, start + to);
      }
    }
  }

  lemma DisjointWider(rest: seq<Demand>, from: int, mid: int, to: int)
    requires from <= mid <= to && Disjoint(rest, mid, to)
    ensures Disjoint(rest, from, to)
  {}

  lemma DisjointCons(first: Demand, rest: seq<Demand>, to: int)
    requires first.fromMin < first.toMin <= to && Disjoint(rest, first.toMin, to)
    ensures Disjoint([first] + rest, first.fromMin, to)
  {}

  /** A visit never sits in two chairs at once, and its chairs never reach outside the visit. */
  lemma ResourceDemandDisjoint(services: seq<Service>, start: int)
    ensures Disjoint(ResourceDemand(services, start), start, start + TotalMinutes(services))
  {
    SegmentsTile(services, 0);
    DemandsDisjoint(Segments(services, 0), start, 0, TotalMinutes(services));
  }
}
