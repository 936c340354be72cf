/** `json_reader::Reader`: reads the request document, loads its base
    requests into the catalogue — every stop, then every road distance, then
    every bus — and answers its stat requests.

    Each method is proved to do what the `Ingest` and `Replies` modules
    state on values. An exception of the source is a `Failure` here; it ends
    the run, so only the fields a failing call leaves untouched are
    described. */
module JsonReader {
  import opened Wrappers
  import opened Strings
  import opened Json
  import JsonLoad
  import JsonPrint
  import opened Catalogue
  import MapRenderer
  import RequestHandler
  import opened Ingest
  import opened Replies

  class Reader {
    const tc: TransportCatalogue
    var requests: map<string, Node>
    var validBuses: set<string>

    constructor(tc: TransportCatalogue)
      ensures this.tc == tc && requests == map[] && validBuses == {}
    {
      this.tc := tc;
      requests := map[];
      validBuses := {};
    }

    /** The catalogue's fields, as values. */
    ghost function Snapshot(): CatalogueState
      reads tc
    {
      CatalogueState(tc.stops, tc.buses, tc.nameToBus, tc.nameToStop, tc.stopToBuses, tc.distances, tc.routesInfo)
    }

    /** `ReadJSON`: the requests are the members of the document's root,
        which must be an object. */
    method ReadJSON(input: string, stod: JsonLoad.Stod) returns (r: Result<()>)
      modifies this
      ensures validBuses == old(validBuses)
      ensures r.Success? <==> JsonLoad.Parse(input, stod).Success? && JsonLoad.Parse(input, stod).value.Dict?
      ensures r.Success? ==> requests == JsonLoad.Parse(input, stod).value.entries
      ensures r.Failure? ==> requests == old(requests)
      ensures r.Failure? && JsonLoad.Parse(input, stod).Failure? ==> r.error == JsonLoad.Parse(input, stod).error
      ensures r.Failure? && JsonLoad.Parse(input, stod).Success? ==> r.error == WrongType
    {
      var root :- JsonLoad.Load(input, stod);
      var entries :- root.AsMap();
      requests := entries;
      return Success(());
    }

    /** `ParseBaseRequests`: sorts the base requests into stop and bus
        requests and adds the names of the buses that list stops to the
        valid buses. */
    method ParseBaseRequests(baseRequests: Node) returns (r: Result<Queries>)
      modifies this
      ensures requests == old(requests)
      ensures r.Success? <==> baseRequests.Array? && Classified(baseRequests.items, Queries([], []), {}).Success?
      ensures r.Success? ==>
                && r.value == Classified(baseRequests.items, Queries([], []), {}).value.0
                && validBuses == old(validBuses) + Classified(baseRequests.items, Queries([], []), {}).value.1
      ensures r.Failure? && !baseRequests.Array? ==> r.error == WrongType
      ensures r.Failure? && baseRequests.Array? ==>
                r.error == Classified(baseRequests.items, Queries([], []), {}).error
    {
      var items :- baseRequests.AsArray();
      var queries := Queries([], []);
      ghost var found: set<string> := {};
      var k := 0;
      while k < |items|
        invariant 0 <= k <= |items|
        invariant requests == old(requests)
        invariant Classified(items[k..], queries, found) == Classified(items, Queries([], []), {})
        invariant validBuses == old(validBuses) + found
      {
        var query := items[k];
        var entries :- query.AsMap();
        var kind :- At(entries, "type");
        if kind == String("Bus") {
          queries := queries.(busQueries := queries.busQueries + [query]);
          var stopsNode :- At(entries, "stops");
          var stops :- stopsNode.AsArray();
          if stops != [] {
            var nameNode :- At(entries, "name");
            var name :- nameNode.AsString();
            validBuses := validBuses + {name};
            found := found + {name};
          }
        } else if kind == String("Stop") {
          queries := queries.(stopQueries := queries.stopQueries + [query]);
        }
        assert items[k..][1..] == items[k + 1..];
        k := k + 1;
      }
      return Success(queries);
    }

    /** `GetStops`: the stops the list names, mirrored for a linear route,
        and the set of names it gives. */
    method GetStops(stopsArray: seq<Node>, isRound: bool) returns (r: Result<(seq<nat>, set<string>)>)
      requires tc.Valid()
      ensures r == StopsOfBus(stopsArray, isRound, tc.nameToStop)
    {
      var stops: seq<nat> := [];
      var uniqueStops: set<string> := {};
      var k := 0;
      while k < |stopsArray|
        invariant 0 <= k <= |stopsArray|
        invariant AllKnown(stopsArray[..k], tc.nameToStop)
        invariant stops == Resolve(stopsArray[..k], tc.nameToStop)
        invariant uniqueStops == Declared(stopsArray[..k])
      {
        var name := stopsArray[k].AsString();
        var stop := if name.Success? then tc.SearchStop(name.value) else None;
        if stop.None? {
          FirstUnknownAt(stopsArray, tc.nameToStop, k);
          return Failure(if name.Failure? then WrongType else NullDereference(name.value));
        }
        KnownStep(stopsArray, tc.nameToStop, k);
        stops := stops + [stop.value];
        uniqueStops := uniqueStops + {name.value};
        k := k + 1;
      }
      assert stopsArray[..k] == stopsArray;
      stops := MirrorStops(stops, isRound);
      return Success((stops, uniqueStops));
    }

    /** The tail of `GetStops`: a linear route is extended by the way back,
        from the stop before the last one to the first. */
    static method MirrorStops(route: seq<nat>, isRound: bool) returns (stops: seq<nat>)
      ensures stops == Mirror(route, isRound)
    {
      stops := route;
      if !isRound {
        var i: int := |stops| - 2;
        while i >= 0
          invariant -1 <= i <= |route| - 2 || route == []
          invariant route == [] ==> stops == []
          invariant route != [] ==> stops == route + WayBack(route, |route| - 2 - i)
          decreases i
        {
          stops := stops + [stops[i]];
          i := i - 1;
        }
      }
    }

    /** One stop request of `ParseRequests`: the stop is added, then its
        road distances are read. */
    method LoadStop(query: Node) returns (r: Result<StopEntry>)
      requires tc.Valid()
      modifies tc
      ensures tc.Valid()
      ensures r == StopEntryOf(query)
      ensures r.Success? ==>
                Snapshot() == old(Snapshot()).(stops := old(tc.stops) + [r.value.0],
                                               nameToStop := old(tc.nameToStop)[r.value.0.name := |old(tc.stops)|])
    {
      var entries :- query.AsMap();
      var nameNode :- At(entries, "name");
      var name :- nameNode.AsString();
      var latNode :- At(entries, "latitude");
      var lat :- latNode.AsDouble();
      var lngNode :- At(entries, "longitude");
      var lng :- lngNode.AsDouble();
      tc.AddStop(name, Coordinates(lat, lng));
      var distancesNode :- At(entries, "road_distances");
      var distances :- distancesNode.AsMap();
      return Success((Stop(name, Coordinates(lat, lng)), distances));
    }

    /** The stop requests of `ParseRequests`: each stop is added, and the
        road distances of the last stop of each name are kept. */
    method LoadStops(stopQueries: seq<Node>) returns (r: Result<map<string, map<string, Node>>>)
      requires tc.Valid()
      modifies tc
      ensures tc.Valid()
      ensures r.Success? <==> StopEntries(stopQueries, []).Success?
      ensures r.Failure? ==> r.error == StopEntries(stopQueries, []).error
      ensures r.Success? ==>
                && StopsAdded(old(Snapshot()), StopEntries(stopQueries, []).value, Snapshot())
                && r.value == DistancesInfo(StopEntries(stopQueries, []).value)
    {
      var info: map<string, map<string, Node>> := map[];
      ghost var done: seq<StopEntry> := [];
      var k := 0;
      while k < |stopQueries|
        invariant 0 <= k <= |stopQueries|
        invariant tc.Valid()
        invariant StopEntries(stopQueries[k..], done) == StopEntries(stopQueries, [])
        invariant StopsAdded(old(Snapshot()), done, Snapshot())
        invariant info == DistancesInfo(done)
      {
        ghost var before := Snapshot();
        var entry :- LoadStop(stopQueries[k]);
        StopsAddedStep(old(Snapshot()), done, before, entry, Snapshot());
        info := info[entry.0.name := entry.1];
        assert (done + [entry])[..|done|] == done;
        done := done + [entry];
        assert stopQueries[k..][1..] == stopQueries[k + 1..];
        k := k + 1;
      }
      assert stopQueries[k..] == [];
      return Success(info);
    }

    /** The catalogue's fields other than the distance table. */
    ghost function AllButDistances(): (seq<Stop>, map<string, nat>, seq<Bus>, map<string, nat>,
                                       map<nat, set<string>>, map<nat, RouteInfo>)
      reads tc
    {
      (tc.stops, tc.nameToStop, tc.buses, tc.nameToBus, tc.stopToBuses, tc.routesInfo)
    }

    /** One stop's road distances, written from stop `from` in name order;
        a distance that is not an integer fails. */
    method WriteRow(from: nat, row: map<string, Node>) returns (r: Result<()>)
      requires tc.Valid()
      modifies tc
      ensures tc.Valid() && AllButDistances() == old(AllButDistances())
      ensures r.Success? <==> RowInts(row)
      ensures r.Failure? ==> r.error == WrongType
      ensures r.Success? ==>
                && IntsAt(SortedSeq(row.Keys), row)
                && tc.distances == RowWritten(old(tc.distances), from, SortedSeq(row.Keys), row, tc.nameToStop)
    {
      var dests := SortedSeq(row.Keys);
      var m := 0;
      while m < |dests|
        invariant 0 <= m <= |dests|
        invariant tc.Valid() && AllButDistances() == old(AllButDistances())
        invariant IntsAt(dests[..m], row)
        invariant tc.distances == RowWritten(old(tc.distances), from, dests[..m], row, tc.nameToStop)
      {
        var distance := row[dests[m]].AsInt();
        if distance.Failure? {
          return Failure(WrongType);
        }
        RowWrittenStep(old(tc.distances), from, dests, row, tc.nameToStop, m);
        var to := tc.SearchStop(dests[m]);
        if to.Some? {
          tc.SetDistance(from, to.value, distance.value as int);
        }
        m := m + 1;
      }
      assert dests[..m] == dests;
      RowIntsFromSorted(row);
      return Success(());
    }

    /** The road distances of `ParseRequests`: each stop's distances are
        written from that stop, walking the stops in name order. */
    method SetDistances(info: map<string, map<string, Node>>) returns (r: Result<()>)
      requires tc.Valid()
      requires forall n :: n in info ==> n in tc.nameToStop
      modifies tc
      ensures tc.Valid() && AllButDistances() == old(AllButDistances())
      ensures r.Success? <==> AllInts(info)
      ensures r.Failure? ==> r.error == WrongType
      ensures r.Success? ==>
                && RowsReady(SortedSeq(info.Keys), info, tc.nameToStop)
                && tc.distances == TableWritten(old(tc.distances), SortedSeq(info.Keys), info, tc.nameToStop)
    {
      var froms := SortedSeq(info.Keys);
      var k := 0;
      while k < |froms|
        invariant 0 <= k <= |froms|
        invariant tc.Valid() && AllButDistances() == old(AllButDistances())
        invariant RowsReady(froms[..k], info, tc.nameToStop)
        invariant tc.distances == TableWritten(old(tc.distances), froms[..k], info, tc.nameToStop)
      {
        var from := tc.SearchStop(froms[k]).value;
        var written := WriteRow(from, info[froms[k]]);
        if written.Failure? {
          return Failure(WrongType);
        }
        TableWrittenStep(old(tc.distances), froms, info, tc.nameToStop, k);
        k := k + 1;
      }
      assert froms[..k] == froms;
      ReadyRowsAllInts(info, tc.nameToStop);
      return Success(());
    }

    /** The reading half of one bus request of `ParseRequests`: its name,
        whether it is a round route, and its stops as `GetStops` gives
        them. */
    method ReadBus(query: Node) returns (r: Result<Bus>)
      requires tc.Valid()
      ensures r == BusOf(query, tc.nameToStop)
      ensures r.Success? ==> forall k :: 0 <= k < |r.value.stops| ==> r.value.stops[k] < |tc.stops|
    {
      var entries :- query.AsMap();
      var nameNode :- At(entries, "name");
      var name :- nameNode.AsString();
      var roundNode :- At(entries, "is_roundtrip");
      var isRound :- roundNode.AsBool();
      var stopsNode :- At(entries, "stops");
      var nodes :- stopsNode.AsArray();
      var stops :- GetStops(nodes, isRound);
      assert forall k :: 0 <= k < |stops.0| ==> stops.0[k] in Resolve(nodes, tc.nameToStop);
      return Success(Bus(name, stops.0, stops.1, isRound));
    }

    /** One bus request of `ParseRequests`: the bus read is added. */
    method LoadBus(query: Node, geo: Geo, divide: Divide) returns (r: Result<Bus>)
      requires tc.Valid()
      modifies tc
      ensures tc.Valid() && tc.nameToStop == old(tc.nameToStop)
      ensures r == BusOf(query, tc.nameToStop)
      ensures r.Success? ==> BusAdded(old(Snapshot()), r.value, Snapshot(), geo, divide)
    {
      var bus :- ReadBus(query);
      tc.AddBus(bus.name, bus.stops, bus.uniqueStops, bus.isRound, geo, divide);
      return Success(bus);
    }

    /** The bus requests of `ParseRequests`: each bus is added in turn. */
    method LoadBuses(busQueries: seq<Node>, geo: Geo, divide: Divide) returns (r: Result<()>)
      requires tc.Valid()
      modifies tc
      ensures tc.Valid()
      ensures r.Success? <==> BusesOf(busQueries, old(tc.nameToStop), []).Success?
      ensures r.Failure? ==> r.error == BusesOf(busQueries, old(tc.nameToStop), []).error
      ensures r.Success? ==> BusesAdded(old(Snapshot()), BusesOf(busQueries, old(tc.nameToStop), []).value, Snapshot(), geo, divide)
    {
      ghost var done: seq<Bus> := [];
      var k := 0;
      while k < |busQueries|
        invariant 0 <= k <= |busQueries|
        invariant tc.Valid() && tc.nameToStop == old(tc.nameToStop)
        invariant BusesOf(busQueries[k..], old(tc.nameToStop), done) == BusesOf(busQueries, old(tc.nameToStop), [])
        invariant BusesAdded(old(Snapshot()), done, Snapshot(), geo, divide)
      {
        ghost var before := Snapshot();
        var bus :- LoadBus(busQueries[k], geo, divide);
        BusesAddedStep(old(Snapshot()), done, before, bus, Snapshot(), geo, divide);
        done := done + [bus];
        assert busQueries[k..][1..] == busQueries[k + 1..];
        k := k + 1;
      }
      assert busQueries[k..] == [];
      return Success(());
    }

    /** `ParseRequests`: the stops, then the road distances, then the buses
        of the base requests are added to the catalogue. */
    method ParseRequests(geo: Geo, divide: Divide) returns (r: Result<()>)
      requires tc.Valid()
      modifies this, tc
      ensures tc.Valid() && requests == old(requests)
      ensures r.Success? <==> Ingested(old(requests), old(Snapshot()), geo, divide).Success?
      ensures r.Failure? ==> r.error == Ingested(old(requests), old(Snapshot()), geo, divide).error
      ensures r.Success? ==>
                && Snapshot() == Ingested(old(requests), old(Snapshot()), geo, divide).value.0
                && validBuses == old(validBuses) + Ingested(old(requests), old(Snapshot()), geo, divide).value.1
    {
      var baseNode :- At(requests, "base_requests");
      var queries :- ParseBaseRequests(baseNode);
      ghost var s0 := Snapshot();
      var info :- LoadStops(queries.stopQueries);
      ghost var entries := StopEntries(queries.stopQueries, []).value;
      DistancesOfIndexedStops(s0.nameToStop, |s0.stops|, entries);
      var written :- SetDistances(info);
      ghost var s2 := Snapshot();
      var loaded :- LoadBuses(queries.busQueries, geo, divide);
      return Success(());
    }

    /** `ParseRenderSettings`: the settings of the document, the palette
        read colour by colour. */
    method ParseRenderSettings() returns (r: Result<MapRenderer.RenderSettings>)
      ensures r == RenderSettingsOf(requests)
    {
      if "render_settings" !in requests {
        return Success(MapRenderer.DefaultSettings);
      }
      var dict :- requests["render_settings"].AsMap();
      var settings :- ScalarSettingsOf(dict);
      var paletteNode :- At(dict, "color_palette");
      var nodes :- paletteNode.AsArray();
      ghost var scalars := settings;
      var k := 0;
      while k < |nodes|
        invariant 0 <= k <= |nodes|
        invariant settings == scalars.(colorPalette := settings.colorPalette)
        invariant PaletteOf(nodes[k..], settings.colorPalette) == PaletteOf(nodes, [])
      {
        var color :- GetColor(nodes[k]);
        settings := settings.(colorPalette := settings.colorPalette + [color]);
        assert nodes[k..][1..] == nodes[k + 1..];
        k := k + 1;
      }
      assert nodes[k..] == [];
      return Success(settings);
    }

    /** The bus names of a stop reply, one string node each, in order. */
    static method NameArray(names: seq<string>) returns (items: seq<Node>)
      ensures items == NameNodes(names)
    {
      items := [];
      var k := 0;
      while k < |names|
        invariant 0 <= k <= |names|
        invariant items == NameNodes(names[..k])
      {
        assert names[..k + 1][..k] == names[..k];
        items := items + [String(names[k])];
        k := k + 1;
      }
      assert names[..k] == names;
    }

    /** `ExecuteStopRequest`: the reply to a stop request, printed. */
    method ExecuteStopRequest(entries: map<string, Node>, handler: RequestHandler.RequestHandler, fmt: Fmt)
      returns (r: Result<string>)
      requires tc.Valid() && handler.db == tc
      ensures r == StopAnswer(tc, entries, fmt)
    {
      var idNode :- At(entries, "id");
      var id :- idNode.AsInt();
      var nameNode :- At(entries, "name");
      var name :- nameNode.AsString();
      var buses := handler.GetBusesByStop(name);
      var reply: Node;
      if tc.SearchStop(name).None? {
        reply := Dict(map["request_id" := Int(id), "error_message" := String("not found")]);
      } else {
        var names := if buses.Some? then SortedSeq(buses.value) else [];
        assert names == SortedSeq(BusesThrough(tc, name));
        var items := NameArray(names);
        reply := Dict(map["buses" := Array(items), "request_id" := Int(id)]);
      }
      var text := JsonPrint.Print(reply, ReplyIndent, fmt);
      return Success(text);
    }

    /** `ExecuteBusRequest`: the reply to a bus request, printed. */
    method ExecuteBusRequest(entries: map<string, Node>, handler: RequestHandler.RequestHandler, fmt: Fmt)
      returns (r: Result<string>)
      requires tc.Valid() && handler.db == tc
      ensures r == BusAnswer(tc, entries, fmt)
    {
      var idNode :- At(entries, "id");
      var id :- idNode.AsInt();
      var nameNode :- At(entries, "name");
      var name :- nameNode.AsString();
      var routeInfo := handler.GetRouteInfo(name);
      var reply: Node;
      if routeInfo.None? {
        reply := Dict(map["request_id" := Int(id), "error_message" := String("not found")]);
      } else {
        var info := routeInfo.value;
        reply := Dict(map[
          "curvature" := Double(info.curvature),
          "request_id" := Int(id),
          "route_length" := Double(info.realLength as real),
          "stop_count" := Int(Int32Of(info.nStops)),
          "unique_stop_count" := Int(Int32Of(info.nUniqueStops))]);
      }
      var text := JsonPrint.Print(reply, ReplyIndent, fmt);
      return Success(text);
    }

    /** `ExecuteMapRequest`: the map of the valid buses, drawn, rendered to
        SVG text and printed under the request id. */
    method ExecuteMapRequest(entries: map<string, Node>, handler: RequestHandler.RequestHandler, fmt: Fmt)
      returns (r: Result<string>)
      requires tc.Valid() && handler.db == tc
      ensures r == MapAnswer(tc, validBuses, handler.renderer.settings, entries, fmt)
    {
      var idNode :- At(entries, "id");
      var id :- idNode.AsInt();
      var unknown := FirstUnknownBus(SortedSeq(validBuses), tc.nameToBus);
      if unknown.Some? {
        return Failure(NullDereference(unknown.value));
      }
      if validBuses != {} && handler.renderer.settings.colorPalette == [] {
        return Failure(EmptyAccess("color_palette"));
      }
      if !MapDrawable(tc, validBuses, handler.renderer.settings) {
        return Failure(OutOfRange("bus_to_points"));
      }
      var doc := handler.RenderMap(validBuses);
      var mapText := doc.Render(fmt);
      var text := JsonPrint.Print(Dict(map["map" := String(mapText), "request_id" := Int(id)]), ReplyIndent, fmt);
      return Success(text);
    }

    /** One stat request of `ExecuteStatRequests`, dispatched on its type;
        a request of another type prints nothing. */
    method ExecuteRequest(query: Node, handler: RequestHandler.RequestHandler, fmt: Fmt) returns (r: Result<string>)
      requires tc.Valid() && handler.db == tc
      ensures r == Answer(tc, validBuses, handler.renderer.settings, query, fmt)
    {
      var entries :- query.AsMap();
      var kindNode :- At(entries, "type");
      var kind :- kindNode.AsString();
      if kind == "Stop" {
        r := ExecuteStopRequest(entries, handler, fmt);
      } else if kind == "Bus" {
        r := ExecuteBusRequest(entries, handler, fmt);
      } else if kind == "Map" {
        r := ExecuteMapRequest(entries, handler, fmt);
      } else {
        r := Success("");
      }
    }

    /** `ExecuteStatRequests`: the answers in request order, each after a
        separator but the first, between `[` and `]`. */
    method ExecuteStatRequests(statRequests: Node, handler: RequestHandler.RequestHandler, fmt: Fmt)
      returns (r: Result<string>)
      requires tc.Valid() && handler.db == tc
      ensures r == StatText(tc, validBuses, handler.renderer.settings, statRequests, fmt)
    {
      var items :- statRequests.AsArray();
      ghost var answers := AnswerList(tc, validBuses, handler.renderer.settings, items, fmt);
      ghost var parts: seq<string> := [];
      var out := "[\n";
      var isFirst := true;
      var k := 0;
      while k < |items|
        invariant 0 <= k <= |items|
        invariant Collect(answers[k..], parts) == Collect(answers, [])
        invariant isFirst <==> parts == []
        invariant out == "[\n" + Join(parts, ",\n")
      {
        if isFirst {
          isFirst := false;
        } else {
          out := out + ",\n";
        }
        var answer :- ExecuteRequest(items[k], handler, fmt);
        JoinAppend(parts, ",\n", answer);
        out := out + answer;
        parts := parts + [answer];
        assert answers[k..][1..] == answers[k + 1..];
        k := k + 1;
      }
      assert answers[k..] == [];
      out := out + "\n]";
      return Success(out);
    }

    /** `GetResponses`: the stat requests answered with a renderer of the
        document's render settings. */
    method GetResponses(fmt: Fmt) returns (r: Result<string>)
      requires tc.Valid()
      ensures RenderSettingsOf(requests).Failure? ==> r == Failure(RenderSettingsOf(requests).error)
      ensures RenderSettingsOf(requests).Success? ==> r == Responses(tc, requests, validBuses, RenderSettingsOf(requests).value, fmt)
    {
      var settings :- ParseRenderSettings();
      var renderer := new MapRenderer.MapRenderer(settings);
      var handler := new RequestHandler.RequestHandler(tc, renderer);
      var statRequests :- At(requests, "stat_requests");
      r := ExecuteStatRequests(statRequests, handler, fmt);
    }
  }
}
