/** What loading the base requests of a JSON document does to the catalogue,
    stated on values: which requests describe stops and buses, how a bus's
    stop list is resolved and mirrored, and the catalogue state the three
    loading phases (stops, road distances, buses) leave behind. The
    `JsonReader` module performs these phases step by step and is proved to
    produce what is stated here. */
module Ingest {
  import opened Wrappers
  import opened Strings
  import opened Json
  import opened Catalogue

  // ------------------------------------------------------- base requests

  /** `Queries`: the base requests that describe stops and buses, in
      document order. */
  datatype Queries = Queries(stopQueries: seq<Node>, busQueries: seq<Node>)

  /** A request whose `type` member is the string `t`. */
  predicate HasType(query: Node, t: string) {
    query.Dict? && "type" in query.entries && query.entries["type"] == String(t)
  }

  /** A bus request with a non-empty stop list and a string name. */
  predicate ListsStops(query: Node) {
    && HasType(query, "Bus")
    && "stops" in query.entries && query.entries["stops"].Array? && query.entries["stops"].items != []
    && "name" in query.entries && query.entries["name"].String?
  }

  /** One step of `ParseBaseRequests`: a bus request joins the bus queries
      and, when its stop list is non-empty, its name joins the valid buses;
      a stop request joins the stop queries; any other request is skipped.
      A request that is not an object, or has no `type`, fails. */
  function Classify(query: Node, queries: Queries, valid: set<string>): Result<(Queries, set<string>)> {
    var entries :- query.AsMap();
    var kind :- At(entries, "type");
    if kind == String("Bus") then
      var stopsNode :- At(entries, "stops");
      var stops :- stopsNode.AsArray();
      var withBus := queries.(busQueries := queries.busQueries + [query]);
      if stops == [] then Success((withBus, valid))
      else
        var nameNode :- At(entries, "name");
        var name :- nameNode.AsString();
        Success((withBus, valid + {name}))
    else if kind == String("Stop") then
      Success((queries.(stopQueries := queries.stopQueries + [query]), valid))
    else
      Success((queries, valid))
  }

  /** `ParseBaseRequests` over the requests still to read, from what the
      requests already read gave; the first failing request stops it. */
  function Classified(items: seq<Node>, queries: Queries, valid: set<string>): Result<(Queries, set<string>)>
    decreases |items|
  {
    if items == [] then Success((queries, valid))
    else
      var step :- Classify(items[0], queries, valid);
      Classified(items[1..], step.0, step.1)
  }

  /** The requests of type `t`, in order. */
  function OfType(items: seq<Node>, t: string): seq<Node>
    decreases |items|
  {
    if items == [] then []
    else (if HasType(items[0], t) then [items[0]] else []) + OfType(items[1..], t)
  }

  /** The names of the bus requests with a non-empty stop list. */
  function ListingNames(items: seq<Node>): set<string>
    decreases |items|
  {
    if items == [] then {}
    else (if ListsStops(items[0]) then {items[0].entries["name"].s} else {}) + ListingNames(items[1..])
  }

  /** A successful `ParseBaseRequests` keeps exactly the bus requests and
      exactly the stop requests, each in document order, and collects
      exactly the names of the buses that list at least one stop. */
  lemma {:induction false} ClassifiedSorts(items: seq<Node>, queries: Queries, valid: set<string>)
    requires Classified(items, queries, valid).Success?
    ensures Classified(items, queries, valid).value.0.busQueries == queries.busQueries + OfType(items, "Bus")
    ensures Classified(items, queries, valid).value.0.stopQueries == queries.stopQueries + OfType(items, "Stop")
    ensures Classified(items, queries, valid).value.1 == valid + ListingNames(items)
    decreases |items|
  {
    if items != [] {
      var step := Classify(items[0], queries, valid).value;
      ClassifiedSorts(items[1..], step.0, step.1);
    }
  }

  // ---------------------------------------------------------- stop lists

  /** A stop-list entry that is the name of a known stop. */
  predicate Known(node: Node, index: map<string, nat>) {
    node.String? && node.s in index
  }

  predicate AllKnown(nodes: seq<Node>, index: map<string, nat>) {
    forall j :: 0 <= j < |nodes| ==> Known(nodes[j], index)
  }

  /** The failure at an entry that is not a known stop name: `AsString`
      throws for a non-string, and a name of no stop gives a null stop
      whose `name` is then read. */
  function Unknown(node: Node): Error {
    if node.String? then NullDereference(node.s) else WrongType
  }

  /** The failure at the first entry that is not a known stop name. */
  function FirstUnknown(nodes: seq<Node>, index: map<string, nat>): Error
    requires !AllKnown(nodes, index)
    decreases |nodes|
  {
    if !Known(nodes[0], index) then Unknown(nodes[0])
    else
      assert forall j :: 0 <= j < |nodes| - 1 ==> nodes[1..][j] == nodes[j + 1];
      FirstUnknown(nodes[1..], index)
  }

  lemma {:induction false} FirstUnknownAt(nodes: seq<Node>, index: map<string, nat>, k: nat)
    requires k < |nodes| && AllKnown(nodes[..k], index) && !Known(nodes[k], index)
    ensures !AllKnown(nodes, index) && FirstUnknown(nodes, index) == Unknown(nodes[k])
    decreases k
  {
    assert nodes[..k + 1][k] == nodes[k];
    if k > 0 {
      assert Known(nodes[..k][0], index);
      assert nodes[1..][..k - 1] == nodes[1..k];
      assert forall j :: 0 <= j < k - 1 ==> nodes[1..k][j] == nodes[..k][j + 1];
      FirstUnknownAt(nodes[1..], index, k - 1);
    }
  }

  /** One more known entry extends the resolved stops and the declared
      names by that entry. */
  lemma KnownStep(nodes: seq<Node>, index: map<string, nat>, k: nat)
    requires k < |nodes| && AllKnown(nodes[..k], index) && Known(nodes[k], index)
    ensures AllKnown(nodes[..k + 1], index)
    ensures Resolve(nodes[..k + 1], index) == Resolve(nodes[..k], index) + [index[nodes[k].s]]
    ensures Declared(nodes[..k + 1]) == Declared(nodes[..k]) + {nodes[k].s}
  {
    assert nodes[..k + 1][..k] == nodes[..k];
  }

  /** The stops the entries name, in order. */
  function Resolve(nodes: seq<Node>, index: map<string, nat>): (r: seq<nat>)
    requires AllKnown(nodes, index)
    ensures |r| == |nodes|
    ensures forall j :: 0 <= j < |nodes| ==> r[j] == index[nodes[j].s]
    decreases |nodes|
  {
    if nodes == [] then []
    else
      assert AllKnown(nodes[..|nodes| - 1], index);
      Resolve(nodes[..|nodes| - 1], index) + [index[nodes[|nodes| - 1].s]]
  }

  /** The distinct names the entries give. */
  function Declared(nodes: seq<Node>): (r: set<string>)
    requires forall j :: 0 <= j < |nodes| ==> nodes[j].String?
    ensures forall j :: 0 <= j < |nodes| ==> nodes[j].s in r
    ensures forall x :: x in r ==> exists j :: 0 <= j < |nodes| && nodes[j].s == x
    decreases |nodes|
  {
    if nodes == [] then {}
    else
      var init := nodes[..|nodes| - 1];
      assert forall j :: 0 <= j < |init| ==> init[j] == nodes[j];
      Declared(init) + {nodes[|nodes| - 1].s}
  }

  /** The first `count` stops of the way back along a linear route: from
      the stop before the last one towards the first. */
  function WayBack(route: seq<nat>, count: nat): (r: seq<nat>)
    requires count < |route|
    ensures |r| == count
    ensures forall j :: 0 <= j < count ==> r[j] == route[|route| - 2 - j]
  {
    if count == 0 then [] else WayBack(route, count - 1) + [route[|route| - 1 - count]]
  }

  /** A linear route as the bus drives it: out along the listed stops and
      back again. A round route is driven as listed. The result visits the
      same stops, starts with the listed route and reads the same
      backwards. */
  function Mirror(route: seq<nat>, isRound: bool): (r: seq<nat>)
    ensures isRound ==> r == route
    ensures !isRound && route != [] ==> |r| == 2 * |route| - 1 && r[..|route|] == route
    ensures forall x :: x in r <==> x in route
    ensures !isRound ==> forall j :: 0 <= j < |r| ==> r[j] == r[|r| - 1 - j]
  {
    if isRound || route == [] then route
    else
      var back := WayBack(route, |route| - 1);
      var r := route + back;
      assert forall j :: |route| <= j < |r| ==> r[j] == route[2 * |route| - 2 - j];
      assert forall x :: x in route ==> x in r;
      assert forall x :: x in back ==> x in route;
      r
  }

  /** The middle stop of a mirrored route is the last listed stop, where the
      bus turns, and the mirrored route ends where it started. */
  lemma MirrorTurnsAtLastStop(route: seq<nat>)
    requires route != []
    ensures Mirror(route, false)[|Mirror(route, false)| / 2] == route[|route| - 1]
    ensures Mirror(route, false)[|Mirror(route, false)| - 1] == route[0]
  {
    var r := Mirror(route, false);
    assert r[|r| - 1] == r[0];
  }

  /** `GetStops`: the mirrored stop sequence and the set of distinct names,
      or the failure at the first entry that is not a known stop name. */
  function StopsOfBus(nodes: seq<Node>, isRound: bool, index: map<string, nat>): Result<(seq<nat>, set<string>)> {
    if AllKnown(nodes, index) then Success((Mirror(Resolve(nodes, index), isRound), Declared(nodes)))
    else Failure(FirstUnknown(nodes, index))
  }

  // --------------------------------------------------------------- stops

  type StopEntry = (Stop, map<string, Node>)

  /** One stop request: the stop it adds and its road distances. */
  function StopEntryOf(query: Node): Result<StopEntry> {
    var entries :- query.AsMap();
    var nameNode :- At(entries, "name");
    var name :- nameNode.AsString();
    var latNode :- At(entries, "latitude");
    var lat :- latNode.AsDouble();
    var lngNode :- At(entries, "longitude");
    var lng :- lngNode.AsDouble();
    var distancesNode :- At(entries, "road_distances");
    var distances :- distancesNode.AsMap();
    Success((Stop(name, Coordinates(lat, lng)), distances))
  }

  /** The stop requests still to read, after the entries already read; the
      first failing request stops it. */
  function StopEntries(queries: seq<Node>, done: seq<StopEntry>): Result<seq<StopEntry>>
    decreases |queries|
  {
    if queries == [] then Success(done)
    else
      var entry :- StopEntryOf(queries[0]);
      StopEntries(queries[1..], done + [entry])
  }

  function StopsOf(entries: seq<StopEntry>): (r: seq<Stop>)
    ensures |r| == |entries|
    decreases |entries|
  {
    if entries == [] then [] else StopsOf(entries[..|entries| - 1]) + [entries[|entries| - 1].0]
  }

  /** `name_to_stop_` once the entries are added at positions `base`,
      `base + 1`, ...: a later stop of a name takes it over. */
  function StopIndexAfter(index: map<string, nat>, base: nat, entries: seq<StopEntry>): map<string, nat>
    decreases |entries|
  {
    if entries == [] then index
    else StopIndexAfter(index, base, entries[..|entries| - 1])[entries[|entries| - 1].0.name := base + |entries| - 1]
  }

  /** `distances_info`: the road distances of the last stop of each name. */
  function DistancesInfo(entries: seq<StopEntry>): map<string, map<string, Node>>
    decreases |entries|
  {
    if entries == [] then map[]
    else DistancesInfo(entries[..|entries| - 1])[entries[|entries| - 1].0.name := entries[|entries| - 1].1]
  }

  /** Every stop with road distances is a stop of the index. */
  lemma {:induction false} DistancesOfIndexedStops(index: map<string, nat>, base: nat, entries: seq<StopEntry>)
    ensures forall n :: n in DistancesInfo(entries) ==> n in StopIndexAfter(index, base, entries)
    decreases |entries|
  {
    if entries != [] {
      DistancesOfIndexedStops(index, base, entries[..|entries| - 1]);
    }
  }

  /** The stops added are indexed: each name finds its last stop. */
  lemma {:induction false} StopsOfIndexed(stops: seq<Stop>, index: map<string, nat>, entries: seq<StopEntry>)
    requires StopsIndexed(stops, index)
    ensures StopsIndexed(stops + StopsOf(entries), StopIndexAfter(index, |stops|, entries))
    decreases |entries|
  {
    if entries != [] {
      var init := entries[..|entries| - 1];
      StopsOfIndexed(stops, index, init);
      StopsIndexedAppend(stops + StopsOf(init), StopIndexAfter(index, |stops|, init), entries[|entries| - 1].0);
      assert stops + StopsOf(entries) == stops + StopsOf(init) + [entries[|entries| - 1].0];
    }
  }

  // ------------------------------------------------------- road distances

  /** Every distance of the row is an integer. */
  ghost predicate IntsAt(dests: seq<string>, row: map<string, Node>) {
    forall j :: 0 <= j < |dests| ==> dests[j] in row && row[dests[j]].Int?
  }

  /** Every road distance of every stop is an integer. */
  ghost predicate AllInts(info: map<string, map<string, Node>>) {
    forall from, to :: from in info && to in info[from] ==> info[from][to].Int?
  }

  /** Every distance of the row is an integer. */
  ghost predicate RowInts(row: map<string, Node>) {
    forall to :: to in row ==> row[to].Int?
  }

  /** The rows to write belong to known stops and hold integers only. */
  ghost predicate RowsReady(froms: seq<string>, info: map<string, map<string, Node>>, index: map<string, nat>) {
    forall j :: 0 <= j < |froms| ==> froms[j] in info && froms[j] in index && RowInts(info[froms[j]])
  }

  lemma TableWrittenStep(table: DistanceTable, froms: seq<string>, info: map<string, map<string, Node>>,
                         index: map<string, nat>, k: nat)
    requires k < |froms| && RowsReady(froms[..k], info, index)
    requires froms[k] in info && froms[k] in index && RowInts(info[froms[k]])
    ensures RowsReady(froms[..k + 1], info, index)
    ensures IntsAt(SortedSeq(info[froms[k]].Keys), info[froms[k]])
    ensures TableWritten(table, froms[..k + 1], info, index)
         == RowWritten(TableWritten(table, froms[..k], info, index), index[froms[k]],
                       SortedSeq(info[froms[k]].Keys), info[froms[k]], index)
  {
    assert froms[..k + 1][..k] == froms[..k];
    SortedRowInts(info[froms[k]]);
  }

  lemma ReadyRowsAllInts(info: map<string, map<string, Node>>, index: map<string, nat>)
    requires RowsReady(SortedSeq(info.Keys), info, index)
    ensures AllInts(info)
  {
    var froms := SortedSeq(info.Keys);
    forall from | from in info ensures RowInts(info[from]) {
      var j :| 0 <= j < |froms| && froms[j] == from;
    }
  }

  lemma AllRowsReady(info: map<string, map<string, Node>>, index: map<string, nat>)
    requires AllInts(info) && forall n :: n in info ==> n in index
    ensures RowsReady(SortedSeq(info.Keys), info, index)
  {
  }

  /** The distance table once the row of stop `from` is written, entry by
      entry in the order given; a destination naming no stop is dropped. */
  function RowWritten(table: DistanceTable, from: nat, dests: seq<string>, row: map<string, Node>,
                      index: map<string, nat>): DistanceTable
    requires IntsAt(dests, row)
    decreases |dests|
  {
    if dests == [] then table
    else
      var to := dests[|dests| - 1];
      var t := RowWritten(table, from, dests[..|dests| - 1], row, index);
      if to in index then t[(from, index[to]) := row[to].i as int] else t
  }

  lemma SortedRowInts(row: map<string, Node>)
    requires RowInts(row)
    ensures IntsAt(SortedSeq(row.Keys), row)
  {
  }

  lemma RowWrittenStep(table: DistanceTable, from: nat, dests: seq<string>, row: map<string, Node>,
                       index: map<string, nat>, m: nat)
    requires m < |dests| && IntsAt(dests[..m], row) && dests[m] in row && row[dests[m]].Int?
    ensures IntsAt(dests[..m + 1], row)
    ensures RowWritten(table, from, dests[..m + 1], row, index)
         == (var t := RowWritten(table, from, dests[..m], row, index);
             if dests[m] in index then t[(from, index[dests[m]]) := row[dests[m]].i as int] else t)
  {
    assert dests[..m + 1][..m] == dests[..m];
  }

  lemma RowIntsFromSorted(row: map<string, Node>)
    requires IntsAt(SortedSeq(row.Keys), row)
    ensures RowInts(row)
  {
    var dests := SortedSeq(row.Keys);
    forall to | to in row ensures row[to].Int? {
      var j :| 0 <= j < |dests| && dests[j] == to;
    }
  }

  /** The distance table once the rows of the stops given are written, in
      that order. */
  function TableWritten(table: DistanceTable, froms: seq<string>, info: map<string, map<string, Node>>,
                        index: map<string, nat>): DistanceTable
    requires RowsReady(froms, info, index)
    decreases |froms|
  {
    if froms == [] then table
    else
      var from := froms[|froms| - 1];
      SortedRowInts(info[from]);
      RowWritten(TableWritten(table, froms[..|froms| - 1], info, index), index[from],
                 SortedSeq(info[from].Keys), info[from], index)
  }

  /** The name index maps distinct names to distinct stops. */
  ghost predicate Injective(index: map<string, nat>) {
    forall a, b :: a in index && b in index && a != b ==> index[a] != index[b]
  }

  lemma IndexedIsInjective(stops: seq<Stop>, index: map<string, nat>)
    requires StopsIndexed(stops, index)
    ensures Injective(index)
  {
  }

  ghost predicate Distinct(names: seq<string>) {
    forall i, j :: 0 <= i < j < |names| ==> names[i] != names[j]
  }

  lemma SortedIsDistinct(names: seq<string>)
    requires StrictlySorted(names)
    ensures Distinct(names)
  {
    forall i, j | 0 <= i < j < |names| ensures names[i] != names[j] {
      LessIrreflexive(names[i]);
    }
  }

  /** Each row entry records the distance to that stop. */
  lemma {:induction false} RowRecorded(table: DistanceTable, from: nat, dests: seq<string>, row: map<string, Node>,
                                       index: map<string, nat>)
    requires IntsAt(dests, row) && Distinct(dests) && Injective(index)
    ensures forall j :: 0 <= j < |dests| && dests[j] in index ==>
              (from, index[dests[j]]) in RowWritten(table, from, dests, row, index) &&
              RowWritten(table, from, dests, row, index)[(from, index[dests[j]])] == row[dests[j]].i as int
    decreases |dests|
  {
    if dests != [] {
      var init := dests[..|dests| - 1];
      RowRecorded(table, from, init, row, index);
    }
  }

  /** Writing the row of stop `from` changes no row of another stop. */
  lemma {:induction false} RowKeepsOtherRows(table: DistanceTable, from: nat, dests: seq<string>,
                                             row: map<string, Node>, index: map<string, nat>)
    requires IntsAt(dests, row)
    ensures forall a: nat, b: nat :: a != from ==>
              ((a, b) in RowWritten(table, from, dests, row, index) <==> (a, b) in table)
    ensures forall a: nat, b: nat :: a != from && (a, b) in table ==>
              RowWritten(table, from, dests, row, index)[(a, b)] == table[(a, b)]
    decreases |dests|
  {
    if dests != [] {
      var init := dests[..|dests| - 1];
      RowKeepsOtherRows(table, from, init, row, index);
    }
  }

  /** After the walk, the distance from each stop with road distances to
      each known stop it lists is the listed one: each stop writes its own
      row only, so the order in which the stops are walked does not
      matter. */
  lemma {:induction false} TableRecorded(table: DistanceTable, froms: seq<string>,
                                         info: map<string, map<string, Node>>, index: map<string, nat>)
    requires RowsReady(froms, info, index) && Distinct(froms) && Injective(index)
    ensures forall j, to :: 0 <= j < |froms| && to in info[froms[j]] && to in index ==>
              (index[froms[j]], index[to]) in TableWritten(table, froms, info, index) &&
              TableWritten(table, froms, info, index)[(index[froms[j]], index[to])] == info[froms[j]][to].i as int
    decreases |froms|
  {
    if froms != [] {
      var init := froms[..|froms| - 1];
      var from := froms[|froms| - 1];
      TableRecorded(table, init, info, index);
      var before := TableWritten(table, init, info, index);
      var dests := SortedSeq(info[from].Keys);
      SortedRowInts(info[from]);
      SortedIsDistinct(dests);
      RowRecorded(before, index[from], dests, info[from], index);
      RowKeepsOtherRows(before, index[from], dests, info[from], index);
      forall j, to | 0 <= j < |froms| && to in info[froms[j]] && to in index
        ensures (index[froms[j]], index[to]) in TableWritten(table, froms, info, index)
        ensures TableWritten(table, froms, info, index)[(index[froms[j]], index[to])] == info[froms[j]][to].i as int
      {
        if j == |froms| - 1 {
          var k :| 0 <= k < |dests| && dests[k] == to;
        } else {
          assert init[j] == froms[j];
          assert index[froms[j]] != index[from];
        }
      }
    }
  }

  /** The walk leaves the rows of the stops it does not visit as they
      were. */
  lemma {:induction false} TableKeepsOtherRows(table: DistanceTable, froms: seq<string>,
                                               info: map<string, map<string, Node>>, index: map<string, nat>)
    requires RowsReady(froms, info, index)
    ensures forall a: nat, b: nat :: (forall j :: 0 <= j < |froms| ==> index[froms[j]] != a) ==>
              ((a, b) in TableWritten(table, froms, info, index) <==> (a, b) in table) &&
              ((a, b) in table ==> TableWritten(table, froms, info, index)[(a, b)] == table[(a, b)])
    decreases |froms|
  {
    if froms != [] {
      var init := froms[..|froms| - 1];
      var from := froms[|froms| - 1];
      TableKeepsOtherRows(table, init, info, index);
      var before := TableWritten(table, init, info, index);
      var dests := SortedSeq(info[from].Keys);
      SortedRowInts(info[from]);
      RowKeepsOtherRows(before, index[from], dests, info[from], index);
      forall a: nat, b: nat | forall j :: 0 <= j < |froms| ==> index[froms[j]] != a
        ensures ((a, b) in TableWritten(table, froms, info, index) <==> (a, b) in table)
        ensures ((a, b) in table ==> TableWritten(table, froms, info, index)[(a, b)] == table[(a, b)])
      {
        assert forall j :: 0 <= j < |init| ==> index[init[j]] != a by {
          forall j | 0 <= j < |init| ensures index[init[j]] != a {
            assert init[j] == froms[j];
          }
        }
        assert index[froms[|froms| - 1]] != a;
      }
    }
  }

  // --------------------------------------------------------------- buses

  /** One bus request: the bus it adds, with its stops resolved and, for a
      linear route, mirrored. */
  function BusOf(query: Node, index: map<string, nat>): Result<Bus> {
    var entries :- query.AsMap();
    var nameNode :- At(entries, "name");
    var name :- nameNode.AsString();
    var roundNode :- At(entries, "is_roundtrip");
    var isRound :- roundNode.AsBool();
    var stopsNode :- At(entries, "stops");
    var nodes :- stopsNode.AsArray();
    var stops :- StopsOfBus(nodes, isRound, index);
    Success(Bus(name, stops.0, stops.1, isRound))
  }

  /** The bus requests still to read, after the buses already read; the
      first failing request stops it. */
  function BusesOf(queries: seq<Node>, index: map<string, nat>, done: seq<Bus>): Result<seq<Bus>>
    decreases |queries|
  {
    if queries == [] then Success(done)
    else
      var bus :- BusOf(queries[0], index);
      BusesOf(queries[1..], index, done + [bus])
  }

  /** The stops of the buses read are all stops of the index. */
  lemma {:induction false} BusesOfInArena(queries: seq<Node>, index: map<string, nat>, done: seq<Bus>, nStops: nat)
    requires forall n :: n in index ==> index[n] < nStops
    requires RoutesInArena(done, nStops)
    requires BusesOf(queries, index, done).Success?
    ensures RoutesInArena(BusesOf(queries, index, done).value, nStops)
    decreases |queries|
  {
    if queries != [] {
      var bus := BusOf(queries[0], index).value;
      assert forall k :: 0 <= k < |bus.stops| ==> bus.stops[k] in bus.stops;
      RoutesInArenaAppend(done, nStops, bus);
      BusesOfInArena(queries[1..], index, done + [bus], nStops);
    }
  }

  /** `name_to_bus_` once the buses are added at positions `base`, `base +
      1`, ...: a later bus of a name takes it over. */
  function BusIndexAfter(index: map<string, nat>, base: nat, buses: seq<Bus>): map<string, nat>
    decreases |buses|
  {
    if buses == [] then index
    else BusIndexAfter(index, base, buses[..|buses| - 1])[buses[|buses| - 1].name := base + |buses| - 1]
  }

  /** `stop_to_buses_` once the buses are added: each bus joins the set of
      every stop it names. */
  function Served(table: map<nat, set<string>>, buses: seq<Bus>, index: map<string, nat>): map<nat, set<string>>
    decreases |buses|
  {
    if buses == [] then table
    else
      var bus := buses[|buses| - 1];
      WithBus(Served(table, buses[..|buses| - 1], index), Resolved(index, bus.uniqueStops), bus.name)
  }

  /** The route record `AddBus` caches for a bus. */
  function RouteInfoOf(bus: Bus, table: DistanceTable, stops: seq<Stop>, geo: Geo, divide: Divide): RouteInfo
    requires forall k :: 0 <= k < |bus.stops| ==> bus.stops[k] < |stops|
  {
    RouteInfo(|bus.stops|, |bus.uniqueStops|, RoadLength(table, bus.stops),
              divide(RoadLength(table, bus.stops) as real, GeoLength(stops, geo, bus.stops)))
  }

  /** `routes_info_` once the buses are added at positions `base`, `base +
      1`, .... */
  function InfosAfter(infos: map<nat, RouteInfo>, base: nat, buses: seq<Bus>, table: DistanceTable,
                      stops: seq<Stop>, geo: Geo, divide: Divide): map<nat, RouteInfo>
    requires RoutesInArena(buses, |stops|)
    decreases |buses|
  {
    if buses == [] then infos
    else
      var bus := buses[|buses| - 1];
      assert forall b :: 0 <= b < |buses| - 1 ==> buses[..|buses| - 1][b] == buses[b];
      InfosAfter(infos, base, buses[..|buses| - 1], table, stops, geo, divide)[
        base + |buses| - 1 := RouteInfoOf(bus, table, stops, geo, divide)]
  }

  /** Every bus read is cached at its position with the record of its own
      route, measured on the final distance table. */
  lemma {:induction false} InfosCached(infos: map<nat, RouteInfo>, base: nat, buses: seq<Bus>, table: DistanceTable,
                                       stops: seq<Stop>, geo: Geo, divide: Divide, b: nat)
    requires RoutesInArena(buses, |stops|) && b < |buses|
    ensures base + b in InfosAfter(infos, base, buses, table, stops, geo, divide)
    ensures InfosAfter(infos, base, buses, table, stops, geo, divide)[base + b]
         == RouteInfoOf(buses[b], table, stops, geo, divide)
    decreases |buses|
  {
    if b < |buses| - 1 {
      var init := buses[..|buses| - 1];
      assert forall c :: 0 <= c < |init| ==> init[c] == buses[c];
      InfosCached(infos, base, init, table, stops, geo, divide, b);
    }
  }

  /** One more bus read: it takes over its name, joins its stops' sets and
      has its record cached at the next position. */
  lemma BusesStep(done: seq<Bus>, bus: Bus, index: map<string, nat>, names: map<string, nat>, base: nat,
                  served: map<nat, set<string>>, infos: map<nat, RouteInfo>, table: DistanceTable,
                  stops: seq<Stop>, geo: Geo, divide: Divide)
    requires RoutesInArena(done, |stops|)
    requires forall k :: 0 <= k < |bus.stops| ==> bus.stops[k] < |stops|
    ensures RoutesInArena(done + [bus], |stops|)
    ensures BusIndexAfter(names, base, done + [bus]) == BusIndexAfter(names, base, done)[bus.name := base + |done|]
    ensures Served(served, done + [bus], index)
         == WithBus(Served(served, done, index), Resolved(index, bus.uniqueStops), bus.name)
    ensures InfosAfter(infos, base, done + [bus], table, stops, geo, divide)
         == InfosAfter(infos, base, done, table, stops, geo, divide)[base + |done| := RouteInfoOf(bus, table, stops, geo, divide)]
  {
    RoutesInArenaAppend(done, |stops|, bus);
    assert (done + [bus])[..|done|] == done;
  }

  // ----------------------------------------------------------- the whole

  /** The catalogue's fields, as values. */
  datatype CatalogueState = CatalogueState(
    stops: seq<Stop>,
    buses: seq<Bus>,
    nameToBus: map<string, nat>,
    nameToStop: map<string, nat>,
    stopToBuses: map<nat, set<string>>,
    distances: DistanceTable,
    routesInfo: map<nat, RouteInfo>)

  ghost predicate StateValid(s: CatalogueState) {
    && StopsIndexed(s.stops, s.nameToStop)
    && RoutesInArena(s.buses, |s.stops|)
  }

  /** The stops of `entries` are added in turn to catalogue `s`, giving
      `t`: each is appended and takes over its name; nothing else
      changes. */
  ghost predicate StopsAdded(s: CatalogueState, entries: seq<StopEntry>, t: CatalogueState) {
    t == s.(stops := s.stops + StopsOf(entries), nameToStop := StopIndexAfter(s.nameToStop, |s.stops|, entries))
  }

  lemma StopsAddedStep(s: CatalogueState, entries: seq<StopEntry>, t: CatalogueState, entry: StopEntry,
                       u: CatalogueState)
    requires StopsAdded(s, entries, t)
    requires u == t.(stops := t.stops + [entry.0], nameToStop := t.nameToStop[entry.0.name := |t.stops|])
    ensures StopsAdded(s, entries + [entry], u)
  {
    assert (entries + [entry])[..|entries|] == entries;
  }

  /** `bus` is added to catalogue `s`, giving `t`: it takes over its name,
      joins the sets of its stops and has its record cached, measured on the
      distance table as it stands. */
  ghost predicate BusAdded(s: CatalogueState, bus: Bus, t: CatalogueState, geo: Geo, divide: Divide) {
    && (forall k :: 0 <= k < |bus.stops| ==> bus.stops[k] < |s.stops|)
    && t.stops == s.stops && t.nameToStop == s.nameToStop && t.distances == s.distances
    && t.buses == s.buses + [bus]
    && t.nameToBus == s.nameToBus[bus.name := |s.buses|]
    && t.stopToBuses == WithBus(s.stopToBuses, Resolved(s.nameToStop, bus.uniqueStops), bus.name)
    && t.routesInfo == s.routesInfo[|s.buses| := RouteInfoOf(bus, s.distances, s.stops, geo, divide)]
  }

  /** The buses `added` are added in turn to catalogue `s`, giving `t`. */
  ghost predicate BusesAdded(s: CatalogueState, added: seq<Bus>, t: CatalogueState, geo: Geo, divide: Divide) {
    && t.stops == s.stops && t.nameToStop == s.nameToStop && t.distances == s.distances
    && RoutesInArena(added, |s.stops|)
    && t.buses == s.buses + added
    && t.nameToBus == BusIndexAfter(s.nameToBus, |s.buses|, added)
    && t.stopToBuses == Served(s.stopToBuses, added, s.nameToStop)
    && t.routesInfo == InfosAfter(s.routesInfo, |s.buses|, added, s.distances, s.stops, geo, divide)
  }

  lemma BusesAddedStep(s: CatalogueState, added: seq<Bus>, t: CatalogueState, bus: Bus, u: CatalogueState,
                       geo: Geo, divide: Divide)
    requires BusesAdded(s, added, t, geo, divide) && BusAdded(t, bus, u, geo, divide)
    ensures BusesAdded(s, added + [bus], u, geo, divide)
  {
    BusesStep(added, bus, s.nameToStop, s.nameToBus, |s.buses|, s.stopToBuses, s.routesInfo, s.distances,
              s.stops, geo, divide);
  }

  /** `ParseRequests`: the catalogue once every stop, then every road
      distance, then every bus of the base requests is added, and the names
      of the buses that list stops. */
  ghost function Ingested(requests: map<string, Node>, s: CatalogueState, geo: Geo, divide: Divide)
    : Result<(CatalogueState, set<string>)>
    requires StateValid(s)
  {
    var baseNode :- At(requests, "base_requests");
    var items :- baseNode.AsArray();
    var base :- Classified(items, Queries([], []), {});
    var entries :- StopEntries(base.0.stopQueries, []);
    var stops := s.stops + StopsOf(entries);
    var stopIndex := StopIndexAfter(s.nameToStop, |s.stops|, entries);
    var info := DistancesInfo(entries);
    if !AllInts(info) then Failure(WrongType)
    else
      DistancesOfIndexedStops(s.nameToStop, |s.stops|, entries);
      AllRowsReady(info, stopIndex);
      var distances := TableWritten(s.distances, SortedSeq(info.Keys), info, stopIndex);
      var added :- BusesOf(base.0.busQueries, stopIndex, []);
      StopsOfIndexed(s.stops, s.nameToStop, entries);
      RoutesInArenaStops(s.buses, |s.stops|, |stops|);
      BusesOfInArena(base.0.busQueries, stopIndex, [], |stops|);
      Success((CatalogueState(
        stops,
        s.buses + added,
        BusIndexAfter(s.nameToBus, |s.buses|, added),
        stopIndex,
        Served(s.stopToBuses, added, stopIndex),
        distances,
        InfosAfter(s.routesInfo, |s.buses|, added, distances, stops, geo, divide)), base.1))
  }

  lemma RoutesInArenaStops(buses: seq<Bus>, n: nat, m: nat)
    requires RoutesInArena(buses, n) && n <= m
    ensures RoutesInArena(buses, m)
  {
  }
}
