/** The transport catalogue of transport_catalogue.h/.cpp and the records of
    domain.h.

    Stops and buses live in append-only arenas (`std::deque` in the source,
    whose elements never move); a pointer to a stop or a bus becomes its
    index in the arena. Great-circle distance (`ComputeDistance` in geo.h)
    and floating-point division are parameters. */
module Catalogue {
  import opened Wrappers
  import opened Strings

  /** `geo::Coordinates`; geo.h is not part of this model. */
  datatype Coordinates = Coordinates(lat: real, lng: real)

  /** `geo::ComputeDistance`. */
  type Geo = (Coordinates, Coordinates) -> real

  /** Floating-point division, which gives a value even for 0/0. */
  type Divide = (real, real) -> real

  /** `domain::Stop`. */
  datatype Stop = Stop(name: string, coordinates: Coordinates)

  /** `domain::Bus`: the physical sequence of stops (arena indices) and the
      set of the names of its distinct stops. */
  datatype Bus = Bus(name: string, stops: seq<nat>, uniqueStops: set<string>, isRound: bool)

  /** `domain::RouteInfo`. The road length is a sum of integer distances and
      is kept exact. */
  datatype RouteInfo = RouteInfo(nStops: int, nUniqueStops: int, realLength: int, curvature: real)

  // -------------------------------------------------------------- distances

  /** The directed distance table, keyed by the ordered pair (from, to). */
  type DistanceTable = map<(nat, nat), int>

  /** `GetDistanceBetweenStops`: the entry A→B if there is one, else B→A,
      else 0. */
  function Distance(table: DistanceTable, a: nat, b: nat): (r: int)
    ensures (a, b) in table ==> r == table[(a, b)]
    ensures (a, b) !in table && (b, a) in table ==> r == table[(b, a)]
    ensures (a, b) !in table && (b, a) !in table ==> r == 0
  {
    if (a, b) in table then table[(a, b)]
    else if (b, a) in table then table[(b, a)]
    else 0
  }

  /** Setting A→B: A→B reads the new value; B→A reads it too unless B→A has
      an entry of its own; every pair not made of A and B reads as before. */
  lemma DistanceAfterSet(table: DistanceTable, a: nat, b: nat, d: int, x: nat, y: nat)
    ensures Distance(table[(a, b) := d], a, b) == d
    ensures (b, a) !in table ==> Distance(table[(a, b) := d], b, a) == d
    ensures (b, a) in table && a != b ==> Distance(table[(a, b) := d], b, a) == table[(b, a)]
    ensures (x, y) != (a, b) && (y, x) != (a, b) ==> Distance(table[(a, b) := d], x, y) == Distance(table, x, y)
  {
  }

  /** A distance given in one direction only serves both directions. */
  lemma OneWayDistanceIsSymmetric(table: DistanceTable, a: nat, b: nat)
    requires (a, b) !in table || (b, a) !in table
    ensures Distance(table, a, b) == Distance(table, b, a)
  {
  }

  /** The road length of a route: the sum of the distances between
      consecutive stops. */
  function RoadLength(table: DistanceTable, route: seq<nat>): int
    decreases |route|
  {
    if |route| < 2 then 0
    else RoadLength(table, route[..|route| - 1]) + Distance(table, route[|route| - 2], route[|route| - 1])
  }

  /** The great-circle length of a route, over the same pairs. */
  function GeoLength(stops: seq<Stop>, geo: Geo, route: seq<nat>): real
    requires forall k :: 0 <= k < |route| ==> route[k] < |stops|
    decreases |route|
  {
    if |route| < 2 then 0.0
    else GeoLength(stops, geo, route[..|route| - 1])
         + geo(stops[route[|route| - 2]].coordinates, stops[route[|route| - 1]].coordinates)
  }

  /** A route of one stop has no pair, so both lengths are 0. */
  lemma SingleStopHasZeroLength(table: DistanceTable, stops: seq<Stop>, geo: Geo, s: nat)
    requires s < |stops|
    ensures RoadLength(table, [s]) == 0 && GeoLength(stops, geo, [s]) == 0.0
  {
  }

  /** The road length of two routes run one after the other: both lengths
      and the leg between them. */
  lemma {:induction false} RoadLengthAppend(table: DistanceTable, a: seq<nat>, b: seq<nat>)
    requires a != [] && b != []
    ensures RoadLength(table, a + b)
            == RoadLength(table, a) + Distance(table, a[|a| - 1], b[0]) + RoadLength(table, b)
    decreases |b|
  {
    var ab := a + b;
    if |b| == 1 {
      assert ab[..|ab| - 1] == a;
    } else {
      var b' := b[..|b| - 1];
      assert ab[..|ab| - 1] == a + b';
      RoadLengthAppend(table, a, b');
      assert b[..|b| - 1] == b';
      assert b'[0] == b[0];
    }
  }

  /** One more stop adds the leg to it. */
  lemma RoadLengthStep(table: DistanceTable, route: seq<nat>, k: nat)
    requires k + 1 < |route|
    ensures RoadLength(table, route[..k + 2])
            == RoadLength(table, route[..k + 1]) + Distance(table, route[k], route[k + 1])
  {
    assert route[..k + 2][..k + 1] == route[..k + 1];
  }

  lemma GeoLengthStep(stops: seq<Stop>, geo: Geo, route: seq<nat>, k: nat)
    requires forall j :: 0 <= j < |route| ==> route[j] < |stops|
    requires k + 1 < |route|
    ensures GeoLength(stops, geo, route[..k + 2])
            == GeoLength(stops, geo, route[..k + 1]) + geo(stops[route[k]].coordinates, stops[route[k + 1]].coordinates)
  {
    assert route[..k + 2][..k + 1] == route[..k + 1];
  }

  // ------------------------------------------------------------ stop→buses

  /** The stops whose names the index resolves. */
  function Resolved(index: map<string, nat>, names: set<string>): set<nat> {
    set n | n in names && n in index :: index[n]
  }

  /** The stop→buses table once `bus` has been inserted into the set of each
      stop in `served`. */
  function WithBus(table: map<nat, set<string>>, served: set<nat>, bus: string): (r: map<nat, set<string>>)
    ensures r.Keys == table.Keys + served
  {
    map s | s in table.Keys + served :: (if s in table then table[s] else {}) + (if s in served then {bus} else {})
  }

  /** Inserting a bus touches only the stops it serves, adds it to each of
      them and removes nothing. */
  lemma WithBusServes(table: map<nat, set<string>>, served: set<nat>, bus: string, s: nat)
    ensures s in served ==> bus in WithBus(table, served, bus)[s]
    ensures s in table ==> table[s] <= WithBus(table, served, bus)[s]
    ensures s !in served && s in table ==> WithBus(table, served, bus)[s] == table[s]
    ensures s !in served && s !in table ==> s !in WithBus(table, served, bus)
  {
  }

  /** `stop_to_buses_[stop].insert(bus)`: creates the set when missing. */
  function InsertBus(table: map<nat, set<string>>, stop: nat, bus: string): map<nat, set<string>> {
    table[stop := (if stop in table then table[stop] else {}) + {bus}]
  }

  lemma WithBusStep(table: map<nat, set<string>>, index: map<string, nat>, done: set<string>, n: string, bus: string)
    ensures var before := WithBus(table, Resolved(index, done), bus);
            WithBus(table, Resolved(index, done + {n}), bus)
            == if n in index then InsertBus(before, index[n], bus) else before
  {
    var before := WithBus(table, Resolved(index, done), bus);
    var after := WithBus(table, Resolved(index, done + {n}), bus);
    if n in index {
      assert Resolved(index, done + {n}) == Resolved(index, done) + {index[n]};
      var expected := InsertBus(before, index[n], bus);
      assert after.Keys == expected.Keys;
      forall s | s in after.Keys ensures after[s] == expected[s] {
      }
    } else {
      assert Resolved(index, done + {n}) == Resolved(index, done);
    }
  }

  lemma ResolvedInArena(index: map<string, nat>, names: set<string>, size: nat)
    requires forall n :: n in index ==> index[n] < size
    ensures forall s :: s in Resolved(index, names) ==> s < size
  {
  }

  /** The empty set of names resolves to no stop. */
  lemma WithNoBus(table: map<nat, set<string>>, index: map<string, nat>, bus: string)
    ensures WithBus(table, Resolved(index, {}), bus) == table
  {
    assert Resolved(index, {}) == {};
    var r := WithBus(table, {}, bus);
    assert r.Keys == table.Keys;
    forall s | s in r.Keys ensures r[s] == table[s] {
    }
  }

  /** The loop of `AddBus` over the bus's distinct stop names: each name
      the index resolves gets the bus inserted into its set; the others are
      skipped. The iteration order does not matter. */
  method ServeStops(table: map<nat, set<string>>, index: map<string, nat>, names: set<string>, bus: string)
    returns (r: map<nat, set<string>>)
    ensures r == WithBus(table, Resolved(index, names), bus)
  {
    r := table;
    var rest := names;
    ghost var done: set<string> := {};
    WithNoBus(table, index, bus);
    while rest != {}
      invariant done + rest == names && done !! rest
      invariant r == WithBus(table, Resolved(index, done), bus)
      decreases |rest|
    {
      var name :| name in rest;
      WithBusStep(table, index, done, name, bus);
      if name in index {
        r := InsertBus(r, index[name], bus);
      }
      done := done + {name};
      rest := rest - {name};
    }
  }

  // -------------------------------------------------------------- the store

  /** The name index finds a stop of each indexed name, and every stop's
      name is indexed (a later stop of the same name takes it over). */
  ghost predicate StopsIndexed(stops: seq<Stop>, index: map<string, nat>) {
    && (forall n :: n in index ==> index[n] < |stops| && stops[index[n]].name == n)
    && (forall k :: 0 <= k < |stops| ==> stops[k].name in index)
  }

  ghost predicate BusesIndexed(buses: seq<Bus>, index: map<string, nat>) {
    forall n :: n in index ==> index[n] < |buses| && buses[index[n]].name == n
  }

  ghost predicate RoutesInArena(buses: seq<Bus>, nStops: nat) {
    forall b, k :: 0 <= b < |buses| && 0 <= k < |buses[b].stops| ==> buses[b].stops[k] < nStops
  }

  /** One route record per bus. */
  ghost predicate Cached(routesInfo: map<nat, RouteInfo>, nBuses: nat) {
    forall b: nat :: b in routesInfo <==> b < nBuses
  }

  lemma CachedAppend(routesInfo: map<nat, RouteInfo>, nBuses: nat, info: RouteInfo)
    requires Cached(routesInfo, nBuses)
    ensures Cached(routesInfo[nBuses := info], nBuses + 1)
  {
  }

  lemma StopsIndexedAppend(stops: seq<Stop>, index: map<string, nat>, stop: Stop)
    requires StopsIndexed(stops, index)
    ensures StopsIndexed(stops + [stop], index[stop.name := |stops|])
  {
  }

  lemma BusesIndexedAppend(buses: seq<Bus>, index: map<string, nat>, bus: Bus)
    requires BusesIndexed(buses, index)
    ensures BusesIndexed(buses + [bus], index[bus.name := |buses|])
  {
  }

  lemma RoutesInArenaAppend(buses: seq<Bus>, nStops: nat, bus: Bus)
    requires RoutesInArena(buses, nStops)
    requires forall k :: 0 <= k < |bus.stops| ==> bus.stops[k] < nStops
    ensures RoutesInArena(buses + [bus], nStops)
  {
    forall b, k | 0 <= b < |buses| + 1 && 0 <= k < |(buses + [bus])[b].stops|
      ensures (buses + [bus])[b].stops[k] < nStops
    {
      if b < |buses| {
        assert (buses + [bus])[b] == buses[b];
      }
    }
  }

  lemma RoutesInArenaGrows(buses: seq<Bus>, nStops: nat)
    requires RoutesInArena(buses, nStops)
    ensures RoutesInArena(buses, nStops + 1)
  {
  }

  /** `TransportCatalogue`. */
  class TransportCatalogue {
    var stops: seq<Stop>
    var buses: seq<Bus>
    var nameToBus: map<string, nat>
    var nameToStop: map<string, nat>
    var stopToBuses: map<nat, set<string>>
    var distances: DistanceTable
    var routesInfo: map<nat, RouteInfo>

    /** Each name index maps a name to an entry of that name, the buses'
        stops are in the stop arena, and there is exactly one cached route
        record per bus. */
    ghost predicate Valid()
      reads this
    {
      && StopsIndexed(stops, nameToStop)
      && BusesIndexed(buses, nameToBus)
      && (forall s :: s in stopToBuses ==> s < |stops|)
      && RoutesInArena(buses, |stops|)
      && Cached(routesInfo, |buses|)
    }

    constructor()
      ensures Valid()
      ensures stops == [] && buses == [] && nameToBus == map[] && nameToStop == map[]
      ensures stopToBuses == map[] && distances == map[] && routesInfo == map[]
    {
      stops := [];
      buses := [];
      nameToBus := map[];
      nameToStop := map[];
      stopToBuses := map[];
      distances := map[];
      routesInfo := map[];
    }

    /** `AddStop`: appends the stop; its name now finds the newest stop of
        that name. */
    method AddStop(name: string, coordinates: Coordinates)
      requires Valid()
      modifies this
      ensures Valid()
      ensures stops == old(stops) + [Stop(name, coordinates)]
      ensures nameToStop == old(nameToStop)[name := |old(stops)|]
      ensures buses == old(buses) && nameToBus == old(nameToBus) && stopToBuses == old(stopToBuses)
      ensures distances == old(distances) && routesInfo == old(routesInfo)
    {
      StopsIndexedAppend(stops, nameToStop, Stop(name, coordinates));
      RoutesInArenaGrows(buses, |stops|);
      stops := stops + [Stop(name, coordinates)];
      nameToStop := nameToStop[name := |stops| - 1];
    }

    /** `SearchStop`: the stop of that name, or nothing (a null pointer). */
    function SearchStop(name: string): (r: Option<nat>)
      reads this
      requires Valid()
      ensures r.Some? <==> name in nameToStop
      ensures r.Some? ==> r.value < |stops| && stops[r.value].name == name
    {
      if name in nameToStop then Some(nameToStop[name]) else None
    }

    /** `SearchBus`. */
    function SearchBus(name: string): (r: Option<nat>)
      reads this
      requires Valid()
      ensures r.Some? <==> name in nameToBus
      ensures r.Some? ==> r.value < |buses| && buses[r.value].name == name
    {
      if name in nameToBus then Some(nameToBus[name]) else None
    }

    /** `GetRouteInfo`: the record cached when the bus was added; `at`
        throws for a bus that is not registered. */
    function GetRouteInfo(bus: nat): (r: Result<RouteInfo>)
      reads this
      requires Valid()
      ensures r.Success? <==> bus < |buses|
      ensures r.Success? ==> r.value == routesInfo[bus]
    {
      if bus in routesInfo then Success(routesInfo[bus]) else Failure(OutOfRange("routes_info"))
    }

    /** `GetStopToBuses`: the names of the buses serving a stop, or nothing
        for a stop no bus serves. */
    function GetStopToBuses(stop: nat): (r: Option<set<string>>)
      reads this
      ensures r.Some? <==> stop in stopToBuses
      ensures r.Some? ==> r.value == stopToBuses[stop]
    {
      if stop in stopToBuses then Some(stopToBuses[stop]) else None
    }

    /** `SetDistanceBetweenStops`: writes the (a, b) entry only. */
    method SetDistance(a: nat, b: nat, distance: int)
      requires Valid()
      modifies this
      ensures Valid()
      ensures distances == old(distances)[(a, b) := distance]
      ensures stops == old(stops) && buses == old(buses) && nameToBus == old(nameToBus)
      ensures nameToStop == old(nameToStop) && stopToBuses == old(stopToBuses) && routesInfo == old(routesInfo)
    {
      distances := distances[(a, b) := distance];
    }

    /** The distance as the catalogue stores it: A→B, else B→A, else 0. */
    function GetDistance(a: nat, b: nat): (r: int)
      reads this
      ensures (a, b) in distances ==> r == distances[(a, b)]
      ensures (a, b) !in distances && (b, a) in distances ==> r == distances[(b, a)]
      ensures (a, b) !in distances && (b, a) !in distances ==> r == 0
    {
      Distance(distances, a, b)
    }

    /** The road and great-circle lengths of a route, over its consecutive
        pairs (the loop of `AddBus`). */
    method RouteLengths(route: seq<nat>, geo: Geo) returns (realLength: int, geoLength: real)
      requires forall k :: 0 <= k < |route| ==> route[k] < |stops|
      ensures realLength == RoadLength(distances, route)
      ensures geoLength == GeoLength(stops, geo, route)
    {
      geoLength := 0.0;
      realLength := 0;
      if |route| == 0 {
        return;
      }
      var k := 0;
      while k + 1 < |route|
        invariant k < |route|
        invariant realLength == RoadLength(distances, route[..k + 1])
        invariant geoLength == GeoLength(stops, geo, route[..k + 1])
      {
        RoadLengthStep(distances, route, k);
        GeoLengthStep(stops, geo, route, k);
        geoLength := geoLength + geo(stops[route[k]].coordinates, stops[route[k + 1]].coordinates);
        realLength := realLength + GetDistance(route[k], route[k + 1]);
        k := k + 1;
      }
      assert route[..k + 1] == route;
    }

    /** `AddBus`: appends the bus, inserts its name into the set of every
        distinct stop it visits, registers its name and caches its route
        record: the number of stops, the number of distinct stops, the road
        length over consecutive pairs as the distance table stands now, and
        the curvature. A route with no stop has no pair (see the findings). */
    method AddBus(name: string, route: seq<nat>, uniqueStops: set<string>, isRound: bool, geo: Geo, divide: Divide)
      requires Valid()
      requires forall k :: 0 <= k < |route| ==> route[k] < |stops|
      modifies this
      ensures stops == old(stops) && nameToStop == old(nameToStop) && distances == old(distances)
      ensures Valid()
      ensures buses == old(buses) + [Bus(name, route, uniqueStops, isRound)]
      ensures stopToBuses == WithBus(old(stopToBuses), Resolved(nameToStop, uniqueStops), name)
      ensures nameToBus == old(nameToBus)[name := |old(buses)|]
      ensures routesInfo == old(routesInfo)[|old(buses)| := RouteInfo(
                |route|, |uniqueStops|, RoadLength(distances, route),
                divide(RoadLength(distances, route) as real, GeoLength(stops, geo, route)))]
    {
      var bus := |buses|;
      ResolvedInArena(nameToStop, uniqueStops, |stops|);
      stopToBuses := ServeStops(stopToBuses, nameToStop, uniqueStops, name);
      var realLength, geoLength := RouteLengths(route, geo);
      BusesIndexedAppend(buses, nameToBus, Bus(name, route, uniqueStops, isRound));
      RoutesInArenaAppend(buses, |stops|, Bus(name, route, uniqueStops, isRound));
      buses := buses + [Bus(name, route, uniqueStops, isRound)];
      nameToBus := nameToBus[name := bus];
      var curvature := divide(realLength as real, geoLength);
      CachedAppend(routesInfo, bus, RouteInfo(|route|, |uniqueStops|, realLength, curvature));
      routesInfo := routesInfo[bus := RouteInfo(|route|, |uniqueStops|, realLength, curvature)];
    }
  }

  // -------------------------------------------------------------- findings

  /** The pair loop of `AddBus` as written, summing road distances from the
      iterator position `it`: it stops when `it` reaches `prev(end())`,
      position `|route| - 1`, and otherwise reads `*it` and `*next(it)`. For a
      route with no stop, `prev(end())` lies before `begin()`, so the first
      pass already reads past the end; that read is `EmptyAccess`. */
  function PairLoopAsWritten(table: DistanceTable, route: seq<nat>, it: nat): Result<int>
    requires it <= |route|
    decreases |route| - it
  {
    if it as int == |route| - 1 then Success(0)
    else if it + 1 >= |route| then Failure(EmptyAccess("stops"))
    else
      var rest :- PairLoopAsWritten(table, route, it + 1);
      Success(Distance(table, route[it], route[it + 1]) + rest)
  }

  /** From any position inside a route, the loop as written sums the legs of
      the rest of the route. */
  lemma {:induction false} PairLoopSumsLegs(table: DistanceTable, route: seq<nat>, it: nat)
    requires it < |route|
    ensures PairLoopAsWritten(table, route, it) == Success(RoadLength(table, route[it..]))
    decreases |route| - it
  {
    if it + 1 < |route| {
      PairLoopSumsLegs(table, route, it + 1);
      RoadLengthAppend(table, [route[it]], route[it + 1..]);
      assert [route[it]] + route[it + 1..] == route[it..];
    }
  }

  /** The loop as written agrees with the road length on every route that
      has a stop, and fails on exactly the route with none. */
  lemma AsWrittenFailsOnlyOnEmptyRoute(table: DistanceTable, route: seq<nat>)
    ensures PairLoopAsWritten(table, route, 0).Failure? <==> route == []
    ensures route == [] ==> PairLoopAsWritten(table, route, 0) == Failure(EmptyAccess("stops"))
    ensures route != [] ==> PairLoopAsWritten(table, route, 0) == Success(RoadLength(table, route))
  {
    if route != [] {
      PairLoopSumsLegs(table, route, 0);
      assert route[0..] == route;
    }
  }

  /** The pair loop of the model runs over `max(n - 1, 0)` pairs: a route
      with no stop, like one with a single stop, has length 0. */
  lemma EmptyRouteHasZeroLength(table: DistanceTable, stops: seq<Stop>, geo: Geo)
    ensures RoadLength(table, []) == 0 && GeoLength(stops, geo, []) == 0.0
  {
  }
}
