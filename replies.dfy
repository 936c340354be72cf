/** The replies to stat requests — stop, bus and map queries — as JSON nodes
    and as the text the reader prints, and the decoding of colours in the
    render settings. */
module Replies {
  import opened Wrappers
  import opened Strings
  import opened Json
  import JsonPrint
  import Svg
  import opened Catalogue
  import MapRenderer
  import RequestHandler

  /** The indentation every reply is printed at. */
  const ReplyIndent: nat := 4

  /** `int` from a count: the value modulo 2^32, read as a signed number. */
  function Int32Of(n: int): (r: int32)
    ensures -0x8000_0000 <= n < 0x8000_0000 ==> r as int == n
    ensures (r as int - n) % 0x1_0000_0000 == 0
  {
    ((n + 0x8000_0000) % 0x1_0000_0000 - 0x8000_0000) as int32
  }

  /** The `id` of a request, an `int`. */
  function IdOf(entries: map<string, Node>): Result<int32> {
    var node :- At(entries, "id");
    node.AsInt()
  }

  /** The `name` of a request, a string. */
  function NameOf(entries: map<string, Node>): Result<string> {
    var node :- At(entries, "name");
    node.AsString()
  }

  /** The reply to a request for an unknown stop or bus. */
  function NotFound(id: int32): Node {
    Dict(map["request_id" := Int(id), "error_message" := String("not found")])
  }

  function NameNodes(names: seq<string>): (r: seq<Node>)
    ensures |r| == |names|
    ensures forall j :: 0 <= j < |names| ==> r[j] == String(names[j])
  {
    if names == [] then [] else NameNodes(names[..|names| - 1]) + [String(names[|names| - 1])]
  }

  /** The names of the buses through the stop of that name; none for a stop
      no bus serves. */
  function BusesThrough(db: TransportCatalogue, name: string): set<string>
    reads db
  {
    if name in db.nameToStop && db.nameToStop[name] in db.stopToBuses then db.stopToBuses[db.nameToStop[name]] else {}
  }

  /** `ExecuteStopRequest`'s document: not found for an unknown stop,
      otherwise the names of the buses through it, in ascending order. */
  function StopReply(db: TransportCatalogue, id: int32, name: string): Node
    reads db
  {
    if name !in db.nameToStop then NotFound(id)
    else Dict(map["buses" := Array(NameNodes(SortedSeq(BusesThrough(db, name)))), "request_id" := Int(id)])
  }

  /** The names of a set as string nodes, in ascending order. */
  lemma SortedNameNodes(names: set<string>)
    ensures forall j :: 0 <= j < |NameNodes(SortedSeq(names))| ==> NameNodes(SortedSeq(names))[j].String?
    ensures forall b :: String(b) in NameNodes(SortedSeq(names)) <==> b in names
    ensures forall i, j :: 0 <= i < j < |NameNodes(SortedSeq(names))| ==>
              Less(NameNodes(SortedSeq(names))[i].s, NameNodes(SortedSeq(names))[j].s)
  {
    var sorted := SortedSeq(names);
    var items := NameNodes(sorted);
    forall b ensures String(b) in items <==> b in names {
      if b in names {
        var j :| 0 <= j < |sorted| && sorted[j] == b;
        assert items[j] == String(b);
      }
    }
  }

  /** A known stop's reply lists, as strings and in ascending order, exactly
      the buses through it — none for a stop no bus serves — under its
      request id; an unknown stop's reply says it was not found. */
  lemma StopReplyLists(db: TransportCatalogue, id: int32, name: string)
    ensures name !in db.nameToStop ==> StopReply(db, id, name) == NotFound(id)
    ensures name in db.nameToStop ==>
              var reply := StopReply(db, id, name);
              && reply.entries.Keys == {"buses", "request_id"}
              && reply.entries["request_id"] == Int(id)
              && reply.entries["buses"].Array?
              && (forall j :: 0 <= j < |reply.entries["buses"].items| ==> reply.entries["buses"].items[j].String?)
              && (forall b :: String(b) in reply.entries["buses"].items <==>
                    db.nameToStop[name] in db.stopToBuses && b in db.stopToBuses[db.nameToStop[name]])
              && (forall i, j :: 0 <= i < j < |reply.entries["buses"].items| ==>
                    Less(reply.entries["buses"].items[i].s, reply.entries["buses"].items[j].s))
  {
    SortedNameNodes(BusesThrough(db, name));
  }

  /** `ExecuteBusRequest`'s document: not found for an unknown bus,
      otherwise the record cached when the bus was added. */
  function BusReply(db: TransportCatalogue, id: int32, name: string): Node
    reads db
    requires db.Valid()
  {
    if name !in db.nameToBus then NotFound(id)
    else
      var info := db.routesInfo[db.nameToBus[name]];
      Dict(map[
        "curvature" := Double(info.curvature),
        "request_id" := Int(id),
        "route_length" := Double(info.realLength as real),
        "stop_count" := Int(Int32Of(info.nStops)),
        "unique_stop_count" := Int(Int32Of(info.nUniqueStops))])
  }

  /** A known bus's reply gives the stop counts, road length and curvature
      its latest definition was cached with (the counts exactly while they
      fit in an `int`); an unknown bus's reply says it was not found. */
  lemma BusReplyReports(db: TransportCatalogue, id: int32, name: string)
    requires db.Valid()
    ensures name !in db.nameToBus ==> BusReply(db, id, name) == NotFound(id)
    ensures name in db.nameToBus ==>
              var info := db.GetRouteInfo(db.nameToBus[name]).value;
              var reply := BusReply(db, id, name);
              && reply.entries.Keys == {"curvature", "request_id", "route_length", "stop_count", "unique_stop_count"}
              && reply.entries["request_id"] == Int(id)
              && reply.entries["route_length"].AsDouble() == Success(info.realLength as real)
              && reply.entries["curvature"].AsDouble() == Success(info.curvature)
              && (0 <= info.nStops < 0x8000_0000 ==> reply.entries["stop_count"].AsInt().value as int == info.nStops)
              && (0 <= info.nUniqueStops < 0x8000_0000 ==>
                    reply.entries["unique_stop_count"].AsInt().value as int == info.nUniqueStops)
  {
  }

  /** Whether the map can be drawn from the valid buses: each names a bus
      whose latest definition has stops, and there is a palette when there
      is a bus. */
  predicate MapDrawable(db: TransportCatalogue, validBuses: set<string>, s: MapRenderer.RenderSettings)
    reads db
  {
    && (forall n :: n in validBuses ==>
          n in db.nameToBus && db.nameToBus[n] < |db.buses| && db.buses[db.nameToBus[n]].stops != [])
    && (validBuses != {} ==> s.colorPalette != [])
  }

  /** The first of `names` that `index` does not hold: the bus name whose
      `SearchBus` gives a null pointer first when the names are walked in
      this order. */
  function FirstUnknownBus(names: seq<string>, index: map<string, nat>): (r: Option<string>)
    ensures r.None? <==> forall k :: 0 <= k < |names| ==> names[k] in index
    ensures r.Some? ==> r.value in names && r.value !in index
  {
    if names == [] then None
    else if names[0] !in index then Some(names[0])
    else FirstUnknownBus(names[1..], index)
  }

  /** The SVG text of the map of the valid buses. */
  function MapText(db: TransportCatalogue, validBuses: set<string>, s: MapRenderer.RenderSettings, fmt: Fmt): string
    reads db
    requires db.Valid() && MapDrawable(db, validBuses, s)
  {
    var names := SortedSeq(validBuses);
    RequestHandler.RoutesDrawable(names, db.buses, db.nameToBus, db.stops, s.colorPalette);
    Svg.DocumentText(MapRenderer.DrawnAll(RequestHandler.MapPicture(
      RequestHandler.Routes(names, db.buses, db.nameToBus), db.stops, db.nameToStop, s)), fmt)
  }

  /** The fault `RenderMap` runs into first, if any, in the order its code
      meets them: a valid bus the catalogue does not know dereferences the
      null result of `SearchBus` in the first loop (request_handler.cpp:41);
      an empty palette is indexed in the second loop
      (request_handler.cpp:59); a bus whose latest definition has no stops
      gets no entry in `bus_to_points`, so `bus_to_points.at` in
      `RenderRouteLines` throws `std::out_of_range` (request_handler.cpp:87).
      That last bus was defined a second time with an empty stop list,
      which `AddBus` already ran into as the undefined pair loop of
      `Catalogue.PairLoopAsWritten`. */
  function MapFault(db: TransportCatalogue, validBuses: set<string>, s: MapRenderer.RenderSettings): (r: Option<Error>)
    reads db
    requires db.Valid()
    ensures r.None? <==> MapDrawable(db, validBuses, s)
    ensures (exists n :: n in validBuses && n !in db.nameToBus) ==>
              r.Some? && r.value.NullDereference? && r.value.name in validBuses && r.value.name !in db.nameToBus
    ensures (forall n :: n in validBuses ==> n in db.nameToBus) && validBuses != {} && s.colorPalette == [] ==>
              r == Some(EmptyAccess("color_palette"))
    ensures ((forall n :: n in validBuses ==> n in db.nameToBus) && (validBuses == {} || s.colorPalette != [])
             && !MapDrawable(db, validBuses, s)) ==> r == Some(OutOfRange("bus_to_points"))
  {
    var unknown := FirstUnknownBus(SortedSeq(validBuses), db.nameToBus);
    if unknown.Some? then Some(NullDereference(unknown.value))
    else if validBuses != {} && s.colorPalette == [] then Some(EmptyAccess("color_palette"))
    else if !MapDrawable(db, validBuses, s) then Some(OutOfRange("bus_to_points"))
    else None
  }

  /** The text one stat request prints: the reply of its type, printed at
      indentation 4, or nothing for a type that is neither `Stop`, `Bus`
      nor `Map`. */
  function Answer(db: TransportCatalogue, validBuses: set<string>, s: MapRenderer.RenderSettings, query: Node,
                  fmt: Fmt): Result<string>
    reads db
    requires db.Valid()
  {
    var entries :- query.AsMap();
    var kindNode :- At(entries, "type");
    var kind :- kindNode.AsString();
    if kind == "Stop" then StopAnswer(db, entries, fmt)
    else if kind == "Bus" then BusAnswer(db, entries, fmt)
    else if kind == "Map" then MapAnswer(db, validBuses, s, entries, fmt)
    else Success("")
  }

  /** The text of a stop request's reply. */
  function StopAnswer(db: TransportCatalogue, entries: map<string, Node>, fmt: Fmt): Result<string>
    reads db
  {
    var id :- IdOf(entries);
    var name :- NameOf(entries);
    Success(JsonPrint.Printed(StopReply(db, id, name), ReplyIndent, fmt))
  }

  /** The text of a bus request's reply. */
  function BusAnswer(db: TransportCatalogue, entries: map<string, Node>, fmt: Fmt): Result<string>
    reads db
    requires db.Valid()
  {
    var id :- IdOf(entries);
    var name :- NameOf(entries);
    Success(JsonPrint.Printed(BusReply(db, id, name), ReplyIndent, fmt))
  }

  /** The text of a map request's reply: the fault of `RenderMap`, or the
      SVG text of the map under `map` and the request id. */
  function MapAnswer(db: TransportCatalogue, validBuses: set<string>, s: MapRenderer.RenderSettings,
                     entries: map<string, Node>, fmt: Fmt): Result<string>
    reads db
    requires db.Valid()
  {
    var id :- IdOf(entries);
    var fault := MapFault(db, validBuses, s);
    if fault.Some? then Failure(fault.value)
    else
      var reply := Dict(map["map" := String(MapText(db, validBuses, s, fmt)), "request_id" := Int(id)]);
      Success(JsonPrint.Printed(reply, ReplyIndent, fmt))
  }

  /** The answers of the requests, one per request, in order. */
  function AnswerList(db: TransportCatalogue, validBuses: set<string>, s: MapRenderer.RenderSettings,
                      items: seq<Node>, fmt: Fmt): (r: seq<Result<string>>)
    reads db
    requires db.Valid()
    ensures |r| == |items|
    ensures forall j :: 0 <= j < |items| ==> r[j] == Answer(db, validBuses, s, items[j], fmt)
    decreases |items|
  {
    if items == [] then []
    else AnswerList(db, validBuses, s, items[..|items| - 1], fmt) + [Answer(db, validBuses, s, items[|items| - 1], fmt)]
  }

  /** The texts of the answers still to collect, after those already
      collected; the first failure stops it. */
  function Collect(results: seq<Result<string>>, done: seq<string>): Result<seq<string>>
    decreases |results|
  {
    if results == [] then Success(done)
    else
      var text :- results[0];
      Collect(results[1..], done + [text])
  }

  /** Collecting keeps the order: there is a result exactly when every
      answer succeeded, and then its k-th new part is the k-th answer. */
  lemma {:induction false} CollectInOrder(results: seq<Result<string>>, done: seq<string>)
    ensures Collect(results, done).Success? <==> forall j :: 0 <= j < |results| ==> results[j].Success?
    ensures Collect(results, done).Success? ==>
              && |Collect(results, done).value| == |done| + |results|
              && Collect(results, done).value[..|done|] == done
              && forall j :: 0 <= j < |results| ==> Collect(results, done).value[|done| + j] == results[j].value
    decreases |results|
  {
    if results != [] && results[0].Success? {
      var rest := results[1..];
      CollectInOrder(rest, done + [results[0].value]);
      assert forall j :: 1 <= j < |results| ==> rest[j - 1] == results[j];
      if Collect(results, done).Success? {
        var parts := Collect(results, done).value;
        assert parts[..|done| + 1][..|done|] == parts[..|done|];
      }
    }
  }

  /** `ExecuteStatRequests`: `[`, then the answers one per request
      separated by `,` and a line break — a request of unknown type still
      gets its separator — then `]`. */
  function StatText(db: TransportCatalogue, validBuses: set<string>, s: MapRenderer.RenderSettings,
                    statRequests: Node, fmt: Fmt): Result<string>
    reads db
    requires db.Valid()
  {
    var items :- statRequests.AsArray();
    var parts :- Collect(AnswerList(db, validBuses, s, items, fmt), []);
    Success("[\n" + Join(parts, ",\n") + "\n]")
  }

  /** `GetResponses`: the answers to the document's stat requests. */
  function Responses(db: TransportCatalogue, requests: map<string, Node>, validBuses: set<string>,
                     s: MapRenderer.RenderSettings, fmt: Fmt): Result<string>
    reads db
    requires db.Valid()
  {
    var statRequests :- At(requests, "stat_requests");
    StatText(db, validBuses, s, statRequests, fmt)
  }

  // -------------------------------------------------------------- colours

  /** `uint8_t` from `int`: the value modulo 256. */
  function ToUint8(v: int32): (r: Svg.uint8)
    ensures 0 <= v as int < 0x100 ==> r as int == v as int
    ensures (r as int - v as int) % 0x100 == 0
  {
    (v as int % 0x100) as Svg.uint8
  }

  /** `at(k).AsInt()` of a colour array, as a channel. */
  function Channel(items: seq<Node>, k: nat): Result<Svg.uint8> {
    if k < |items| then
      var v :- items[k].AsInt();
      Success(ToUint8(v))
    else Failure(OutOfRange(NatToString(k)))
  }

  /** An array whose first three elements are `int`s and whose fourth, when
      present, is a number. */
  predicate ColorArray(items: seq<Node>) {
    && |items| >= 3 && items[0].Int? && items[1].Int? && items[2].Int?
    && (|items| > 3 ==> items[3].IsDouble())
  }

  /** `GetColor`: an array gives an RGB colour, or an RGBA colour when it
      has more than three elements; a string gives a named colour; anything
      else gives no colour. */
  function GetColor(node: Node): (r: Result<Svg.Color>)
    ensures r.Failure? <==> node.Array? && !ColorArray(node.items)
    ensures node.String? ==> r == Success(Svg.Named(node.s))
    ensures !node.Array? && !node.String? ==> r == Success(Svg.NoColor)
    ensures r.Success? && node.Array? ==>
              && (r.value.Rgba? <==> |node.items| > 3)
              && (r.value.Rgb? <==> |node.items| == 3)
              && r.value.red == ToUint8(node.items[0].i)
              && r.value.green == ToUint8(node.items[1].i)
              && r.value.blue == ToUint8(node.items[2].i)
  {
    match node
    case Array(items) =>
      var red :- Channel(items, 0);
      var green :- Channel(items, 1);
      var blue :- Channel(items, 2);
      if |items| > 3 then
        var opacity :- items[3].AsDouble();
        Success(Svg.Rgba(red, green, blue, opacity))
      else
        Success(Svg.Rgb(red, green, blue))
    case String(name) => Success(Svg.Named(name))
    case _ => Success(Svg.NoColor)
  }

  /** How a colour is written in the render settings. */
  function ColorNode(c: Svg.Color): Node {
    match c
    case NoColor => Null
    case Named(name) => String(name)
    case Rgb(r, g, b) => Array([Int(r as int as int32), Int(g as int as int32), Int(b as int as int32)])
    case Rgba(r, g, b, o) => Array([Int(r as int as int32), Int(g as int as int32), Int(b as int as int32), Double(o)])
  }

  /** Every colour is decoded from the way it is written. */
  lemma ColorRoundTrip(c: Svg.Color)
    ensures GetColor(ColorNode(c)) == Success(c)
  {
  }

  /** Channels outside 0..255 wrap around instead of failing. */
  lemma ChannelsWrap()
    ensures GetColor(Array([Int(256), Int(-1), Int(300)])) == Success(Svg.Rgb(0, 255, 44))
  {
    assert ToUint8(256) == 0 && ToUint8(-1) == 255 && ToUint8(300) == 44;
  }

  // ------------------------------------------------------ render settings

  /** `at(k)` of an array: the element, or `out_of_range` past the end. */
  function Item(items: seq<Node>, k: nat): (r: Result<Node>)
    ensures r.Success? <==> k < |items|
    ensures r.Success? ==> r.value == items[k]
    ensures r.Failure? ==> r.error == OutOfRange(NatToString(k))
  {
    if k < |items| then Success(items[k]) else Failure(OutOfRange(NatToString(k)))
  }

  /** A number setting, `at(key).AsDouble()`. */
  function NumberOf(dict: map<string, Node>, key: string): Result<real> {
    var node :- At(dict, key);
    node.AsDouble()
  }

  /** A font size setting, `at(key).AsInt()`. */
  function SizeOf(dict: map<string, Node>, key: string): Result<int> {
    var node :- At(dict, key);
    var size :- node.AsInt();
    Success(size as int)
  }

  /** An offset setting: the first two elements of an array, as numbers. */
  function OffsetOf(dict: map<string, Node>, key: string): Result<Svg.Point> {
    var node :- At(dict, key);
    var items :- node.AsArray();
    var xNode :- Item(items, 0);
    var x :- xNode.AsDouble();
    var yNode :- Item(items, 1);
    var y :- yNode.AsDouble();
    Success(Svg.Point(x, y))
  }

  /** The settings other than the palette, read in the order the source
      reads them; the palette is left empty. */
  function ScalarSettingsOf(dict: map<string, Node>): Result<MapRenderer.RenderSettings> {
    var width :- NumberOf(dict, "width");
    var height :- NumberOf(dict, "height");
    var padding :- NumberOf(dict, "padding");
    var lineWidth :- NumberOf(dict, "line_width");
    var stopRadius :- NumberOf(dict, "stop_radius");
    var busLabelFontSize :- SizeOf(dict, "bus_label_font_size");
    var busLabelOffset :- OffsetOf(dict, "bus_label_offset");
    var stopLabelFontSize :- SizeOf(dict, "stop_label_font_size");
    var stopLabelOffset :- OffsetOf(dict, "stop_label_offset");
    var underlayerNode :- At(dict, "underlayer_color");
    var underlayerColor :- GetColor(underlayerNode);
    var underlayerWidth :- NumberOf(dict, "underlayer_width");
    Success(MapRenderer.RenderSettings(width, height, padding, lineWidth, stopRadius, busLabelFontSize,
                                       busLabelOffset, stopLabelFontSize, stopLabelOffset, underlayerColor,
                                       underlayerWidth, []))
  }

  /** The palette colours still to read, after those already read; the
      first colour that fails stops it. */
  function PaletteOf(nodes: seq<Node>, done: seq<Svg.Color>): Result<seq<Svg.Color>>
    decreases |nodes|
  {
    if nodes == [] then Success(done)
    else
      var color :- GetColor(nodes[0]);
      PaletteOf(nodes[1..], done + [color])
  }

  /** `ParseRenderSettings`: the default settings when the document has
      none, otherwise every setting read from its object, the palette last. */
  function RenderSettingsOf(requests: map<string, Node>): Result<MapRenderer.RenderSettings> {
    if "render_settings" !in requests then Success(MapRenderer.DefaultSettings)
    else
      var dict :- requests["render_settings"].AsMap();
      var scalars :- ScalarSettingsOf(dict);
      var paletteNode :- At(dict, "color_palette");
      var nodes :- paletteNode.AsArray();
      var palette :- PaletteOf(nodes, []);
      Success(scalars.(colorPalette := palette))
  }

  /** How render settings are written in a document. */
  function SettingsNode(s: MapRenderer.RenderSettings): Node
    requires -0x8000_0000 <= s.busLabelFontSize < 0x8000_0000
    requires -0x8000_0000 <= s.stopLabelFontSize < 0x8000_0000
  {
    Dict(map[
      "width" := Double(s.width),
      "height" := Double(s.height),
      "padding" := Double(s.padding),
      "line_width" := Double(s.lineWidth),
      "stop_radius" := Double(s.stopRadius),
      "bus_label_font_size" := Int(s.busLabelFontSize as int32),
      "bus_label_offset" := Array([Double(s.busLabelOffset.x), Double(s.busLabelOffset.y)]),
      "stop_label_font_size" := Int(s.stopLabelFontSize as int32),
      "stop_label_offset" := Array([Double(s.stopLabelOffset.x), Double(s.stopLabelOffset.y)]),
      "underlayer_color" := ColorNode(s.underlayerColor),
      "underlayer_width" := Double(s.underlayerWidth),
      "color_palette" := Array(PaletteNodes(s.colorPalette))])
  }

  /** How a palette is written: its colours in order. */
  function PaletteNodes(colors: seq<Svg.Color>): (r: seq<Node>)
    ensures |r| == |colors| && forall j :: 0 <= j < |colors| ==> r[j] == ColorNode(colors[j])
  {
    seq(|colors|, j requires 0 <= j < |colors| => ColorNode(colors[j]))
  }

  /** Every palette is read back from the way it is written, in order. */
  lemma {:induction false} PaletteRoundTrip(colors: seq<Svg.Color>, done: seq<Svg.Color>)
    ensures PaletteOf(PaletteNodes(colors), done) == Success(done + colors)
    decreases |colors|
  {
    var nodes := PaletteNodes(colors);
    if colors == [] {
      assert done + colors == done;
    } else {
      ColorRoundTrip(colors[0]);
      var rest := colors[1..];
      assert nodes[1..] == PaletteNodes(rest);
      PaletteRoundTrip(rest, done + [colors[0]]);
      assert done + [colors[0]] + rest == done + colors;
    }
  }

  /** The settings other than the palette are read back from the way they
      are written. */
  lemma ScalarsRoundTrip(s: MapRenderer.RenderSettings)
    requires -0x8000_0000 <= s.busLabelFontSize < 0x8000_0000
    requires -0x8000_0000 <= s.stopLabelFontSize < 0x8000_0000
    ensures ScalarSettingsOf(SettingsNode(s).entries) == Success(s.(colorPalette := []))
  {
    var d := SettingsNode(s).entries;
    ColorRoundTrip(s.underlayerColor);
    assert NumberOf(d, "width") == Success(s.width);
    assert NumberOf(d, "height") == Success(s.height);
    assert NumberOf(d, "padding") == Success(s.padding);
    assert NumberOf(d, "line_width") == Success(s.lineWidth);
    assert NumberOf(d, "stop_radius") == Success(s.stopRadius);
    assert SizeOf(d, "bus_label_font_size") == Success(s.busLabelFontSize);
    assert OffsetOf(d, "bus_label_offset") == Success(s.busLabelOffset);
    assert SizeOf(d, "stop_label_font_size") == Success(s.stopLabelFontSize);
    assert OffsetOf(d, "stop_label_offset") == Success(s.stopLabelOffset);
    assert At(d, "underlayer_color") == Success(ColorNode(s.underlayerColor));
    assert NumberOf(d, "underlayer_width") == Success(s.underlayerWidth);
  }

  /** Every render settings value whose font sizes fit in an `int` is read
      back from the way it is written. */
  lemma SettingsRoundTrip(s: MapRenderer.RenderSettings)
    requires -0x8000_0000 <= s.busLabelFontSize < 0x8000_0000
    requires -0x8000_0000 <= s.stopLabelFontSize < 0x8000_0000
    ensures RenderSettingsOf(map["render_settings" := SettingsNode(s)]) == Success(s)
  {
    ScalarsRoundTrip(s);
    PaletteRoundTrip(s.colorPalette, []);
    assert [] + s.colorPalette == s.colorPalette;
    var d := SettingsNode(s).entries;
    assert At(d, "color_palette") == Success(Array(PaletteNodes(s.colorPalette)));
  }

  /** A document without render settings is drawn with the defaults: no
      palette and every size 0. */
  lemma AbsentSettingsAreDefault(requests: map<string, Node>)
    requires "render_settings" !in requests
    ensures RenderSettingsOf(requests).Success?
    ensures RenderSettingsOf(requests).value.colorPalette == []
    ensures RenderSettingsOf(requests).value.width == 0.0 && RenderSettingsOf(requests).value.height == 0.0
  {
  }
}
