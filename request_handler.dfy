/** `RequestHandler`: the queries of the stat requests and the drawing of
    the map, over a catalogue and a renderer it reads and does not own. */
module RequestHandler {
  import opened Wrappers
  import opened Svg
  import opened Catalogue
  import Strings
  import MapRenderer

  // ---------------------------------------------------------------- palette

  /** The palette slot of the k-th route in name order: 0, 1, …, n - 1 and
      round again (k modulo n). */
  function Slot(k: nat, n: nat): (r: nat)
    requires n > 0
    ensures r < n
    decreases k
  {
    if k < n then k else Slot(k - n, n)
  }

  /** The rule of the colour loop of `RenderMap` — go back to 0 once the
      index reaches the palette size, then take that entry and step — walks
      the slots in order. */
  lemma {:induction false} SlotStep(k: nat, n: nat)
    requires n > 0
    ensures Slot(k + 1, n) == if Slot(k, n) + 1 >= n then 0 else Slot(k, n) + 1
    decreases k
  {
    if k + 1 < n {
    } else if k + 1 == n {
      assert Slot(k + 1, n) == Slot(0, n);
    } else {
      SlotStep(k - n, n);
    }
  }

  /** The colour of each of `count` routes in name order. */
  function Palette(count: nat, palette: seq<Color>): (r: seq<Color>)
    requires count > 0 ==> palette != []
    ensures |r| == count
    ensures forall k :: 0 <= k < count ==> r[k] == palette[Slot(k, |palette|)]
  {
    seq(count, k requires 0 <= k < count => palette[Slot(k, |palette|)])
  }

  /** Routes that follow each other in name order take consecutive palette
      entries, and the first route after the end of the palette starts it
      over. */
  lemma PaletteCycles(count: nat, palette: seq<Color>, k: nat)
    requires count > 0 ==> palette != []
    requires k + 1 < count
    ensures k < |palette| ==> Palette(count, palette)[k] == palette[k]
    ensures Slot(k, |palette|) + 1 < |palette| ==> Palette(count, palette)[k + 1] == palette[Slot(k, |palette|) + 1]
    ensures Slot(k, |palette|) + 1 == |palette| ==> Palette(count, palette)[k + 1] == palette[0]
  {
    SlotStep(k, |palette|);
  }

  // ------------------------------------------------------- the drawn routes

  /** Every stop position of the route is a stop of the catalogue. */
  ghost predicate OnStops(route: seq<nat>, stops: seq<Stop>) {
    forall j :: 0 <= j < |route| ==> route[j] < |stops|
  }

  /** Every route is on the catalogue's stops. */
  ghost predicate InArena(routes: seq<Bus>, stops: seq<Stop>) {
    forall b :: 0 <= b < |routes| ==> OnStops(routes[b].stops, stops)
  }

  /** Every route has a stop. */
  ghost predicate Stopping(routes: seq<Bus>) {
    forall b :: 0 <= b < |routes| ==> routes[b].stops != []
  }

  /** The entries of a table keyed by name, in the order of the names. */
  function ByName<T>(names: seq<string>, table: map<string, T>): (r: seq<T>)
    requires forall k :: 0 <= k < |names| ==> names[k] in table
    ensures |r| == |names|
    ensures forall k :: 0 <= k < |names| ==> r[k] == table[names[k]]
  {
    seq(|names|, k requires 0 <= k < |names| => table[names[k]])
  }

  /** `SearchBus(name)` for each name of the set, in its order. */
  function Routes(names: seq<string>, buses: seq<Bus>, index: map<string, nat>): (r: seq<Bus>)
    requires forall k :: 0 <= k < |names| ==> names[k] in index && index[names[k]] < |buses|
    ensures |r| == |names|
  {
    seq(|names|, k requires 0 <= k < |names| => buses[index[names[k]]])
  }

  /** The stop names on one route. */
  function StopNamesOn(route: seq<nat>, stops: seq<Stop>): set<string>
    requires OnStops(route, stops)
  {
    if route == [] then {}
    else StopNamesOn(route[..|route| - 1], stops) + {stops[route[|route| - 1]].name}
  }

  /** `valid_stops`: the names of the stops of the drawn routes. */
  function StopNamesOf(routes: seq<Bus>, stops: seq<Stop>): set<string>
    requires InArena(routes, stops)
  {
    if routes == [] then {}
    else StopNamesOf(routes[..|routes| - 1], stops) + StopNamesOn(routes[|routes| - 1].stops, stops)
  }

  lemma {:induction false} StopNamesOnExact(route: seq<nat>, stops: seq<Stop>, x: string)
    requires OnStops(route, stops)
    ensures x in StopNamesOn(route, stops) <==> exists j :: 0 <= j < |route| && stops[route[j]].name == x
  {
    if route != [] {
      var last := |route| - 1;
      StopNamesOnExact(route[..last], stops, x);
      if x in StopNamesOn(route[..last], stops) {
        var j :| 0 <= j < last && stops[route[..last][j]].name == x;
        assert stops[route[j]].name == x;
      }
      if exists j :: 0 <= j < |route| && stops[route[j]].name == x {
        var j :| 0 <= j < |route| && stops[route[j]].name == x;
        if j < last {
          assert stops[route[..last][j]].name == x;
        }
      }
    }
  }

  /** A name is a valid stop exactly when some drawn route stops at a stop
      of that name. */
  lemma {:induction false} StopNamesOfExact(routes: seq<Bus>, stops: seq<Stop>, x: string)
    requires InArena(routes, stops)
    ensures x in StopNamesOf(routes, stops)
            <==> exists b, j :: 0 <= b < |routes| && 0 <= j < |routes[b].stops| && stops[routes[b].stops[j]].name == x
  {
    if routes != [] {
      var last := |routes| - 1;
      assert InArena(routes[..last], stops);
      StopNamesOfExact(routes[..last], stops, x);
      StopNamesOnExact(routes[last].stops, stops, x);
      if x in StopNamesOf(routes[..last], stops) {
        var b, j :| 0 <= b < last && 0 <= j < |routes[..last][b].stops| && stops[routes[..last][b].stops[j]].name == x;
        assert routes[..last][b] == routes[b];
      }
      if exists b, j :: 0 <= b < |routes| && 0 <= j < |routes[b].stops| && stops[routes[b].stops[j]].name == x {
        var b, j :| 0 <= b < |routes| && 0 <= j < |routes[b].stops| && stops[routes[b].stops[j]].name == x;
        if b < last {
          assert routes[..last][b] == routes[b];
        }
      }
    }
  }

  /** The coordinates of one route's stops. */
  function RouteCoordinates(route: seq<nat>, stops: seq<Stop>): (r: seq<Coordinates>)
    requires OnStops(route, stops)
    ensures |r| == |route|
  {
    seq(|route|, j requires 0 <= j < |route| => stops[route[j]].coordinates)
  }

  /** `stops_coordinates`: the coordinates of the drawn routes' stops, route
      after route and with repeats; the projector is fitted to them. */
  function StopCoordinates(routes: seq<Bus>, stops: seq<Stop>): seq<Coordinates>
    requires InArena(routes, stops)
  {
    if routes == [] then []
    else StopCoordinates(routes[..|routes| - 1], stops) + RouteCoordinates(routes[|routes| - 1].stops, stops)
  }

  /** Every stop of every drawn route is among the coordinates the
      projector is fitted to. */
  lemma {:induction false} RouteStopIsFitted(routes: seq<Bus>, stops: seq<Stop>, b: nat, j: nat)
    requires InArena(routes, stops)
    requires b < |routes| && j < |routes[b].stops|
    ensures stops[routes[b].stops[j]].coordinates in StopCoordinates(routes, stops)
  {
    var last := |routes| - 1;
    assert InArena(routes[..last], stops);
    var head := StopCoordinates(routes[..last], stops);
    if b == last {
      assert StopCoordinates(routes, stops)[|head| + j] == stops[routes[b].stops[j]].coordinates;
    } else {
      assert routes[..last][b] == routes[b];
      RouteStopIsFitted(routes[..last], stops, b, j);
      var i :| 0 <= i < |head| && head[i] == stops[routes[b].stops[j]].coordinates;
      assert StopCoordinates(routes, stops)[i] == head[i];
    }
  }

  // ------------------------------------------------------------ the layers

  /** The projected stops of one route, in route order. */
  function RoutePoints(route: seq<nat>, stops: seq<Stop>, projector: MapRenderer.SphereProjector): (r: seq<Point>)
    requires OnStops(route, stops)
    ensures |r| == |route|
  {
    seq(|route|, j requires 0 <= j < |route| => projector.Project(stops[route[j]].coordinates))
  }

  /** `int` passed where `uint32_t` is expected: taken modulo 2^32. */
  function FontSize(size: int): (r: uint32)
    ensures 0 <= size < 0x1_0000_0000 ==> r as int == size
    ensures (r as int - size) % 0x1_0000_0000 == 0
  {
    (size % 0x1_0000_0000) as uint32
  }

  /** `RenderRouteLines`: one polyline per route, through its points, in its
      colour. */
  function RouteLines(points: seq<seq<Point>>, colors: seq<Color>, width: real): (r: seq<MapRenderer.Drawable>)
    requires |points| == |colors|
    ensures |r| == |points|
  {
    seq(|points|, k requires 0 <= k < |points| => MapRenderer.RoutePolyline(points[k], colors[k], width))
  }

  function RouteLabel(pos: Point, name: string, color: Color, s: MapRenderer.RenderSettings): MapRenderer.Drawable {
    MapRenderer.RouteName(pos, s.busLabelOffset, FontSize(s.busLabelFontSize), name, s.underlayerColor,
                          s.underlayerWidth, color)
  }

  /** The labels of one route: at its first stop, and for a route that is
      not round also at its middle position, unless that is the first stop
      again. */
  function RouteLabels(route: Bus, stops: seq<Stop>, projector: MapRenderer.SphereProjector, color: Color,
                       s: MapRenderer.RenderSettings): (r: seq<MapRenderer.Drawable>)
    requires route.stops != []
    requires OnStops(route.stops, stops)
    ensures |r| == 1 || |r| == 2
    ensures |r| == 2 <==> !route.isRound && route.stops[|route.stops| / 2] != route.stops[0]
    ensures forall d :: d in r ==> d.RouteName? && d.routeName == route.name && d.routeColor == color
    ensures r[0].pos == projector.Project(stops[route.stops[0]].coordinates)
    ensures |r| == 2 ==> r[1].pos == projector.Project(stops[route.stops[|route.stops| / 2]].coordinates)
  {
    var first := route.stops[0];
    var last := route.stops[|route.stops| / 2];
    var firstLabel := RouteLabel(projector.Project(stops[first].coordinates), route.name, color, s);
    if !route.isRound && first != last then
      [firstLabel, RouteLabel(projector.Project(stops[last].coordinates), route.name, color, s)]
    else [firstLabel]
  }

  /** `RenderRouteNames`: the labels of the routes, route after route. */
  function RouteNames(routes: seq<Bus>, stops: seq<Stop>, projector: MapRenderer.SphereProjector,
                      colors: seq<Color>, s: MapRenderer.RenderSettings): seq<MapRenderer.Drawable>
    requires |colors| == |routes|
    requires Stopping(routes)
    requires InArena(routes, stops)
  {
    if routes == [] then []
    else
      var last := |routes| - 1;
      RouteNames(routes[..last], stops, projector, colors[..last], s)
      + RouteLabels(routes[last], stops, projector, colors[last], s)
  }

  /** Each name of `names` is the name of a stop of the catalogue. */
  ghost predicate Named(names: seq<string>, stops: seq<Stop>, index: map<string, nat>) {
    forall k :: 0 <= k < |names| ==> names[k] in index && index[names[k]] < |stops|
  }

  /** `RenderStops`: a circle at each stop named, found by name. */
  function StopCircles(names: seq<string>, stops: seq<Stop>, index: map<string, nat>,
                       projector: MapRenderer.SphereProjector, radius: real): (r: seq<MapRenderer.Drawable>)
    requires Named(names, stops, index)
    ensures |r| == |names|
  {
    seq(|names|, k requires 0 <= k < |names| =>
      MapRenderer.StopCircle(projector.Project(stops[index[names[k]]].coordinates), radius))
  }

  /** `RenderStopsNames`: a label at each stop named, found by name. */
  function StopLabels(names: seq<string>, stops: seq<Stop>, index: map<string, nat>,
                      projector: MapRenderer.SphereProjector, s: MapRenderer.RenderSettings): (r: seq<MapRenderer.Drawable>)
    requires Named(names, stops, index)
    ensures |r| == |names|
  {
    seq(|names|, k requires 0 <= k < |names| =>
      MapRenderer.StopName(projector.Project(stops[index[names[k]]].coordinates), s.stopLabelOffset,
                           FontSize(s.stopLabelFontSize), names[k], s.underlayerColor, s.underlayerWidth))
  }

  /** What may be drawn: every route is in the arena and has a stop, and
      there is a colour when there is a route. */
  ghost predicate CanDraw(routes: seq<Bus>, stops: seq<Stop>, palette: seq<Color>) {
    && InArena(routes, stops)
    && Stopping(routes)
    && (routes != [] ==> palette != [])
  }

  /** The projector of the map: fitted to the stops of the drawn routes. */
  function Projector(routes: seq<Bus>, stops: seq<Stop>, s: MapRenderer.RenderSettings): MapRenderer.SphereProjector
    requires InArena(routes, stops)
  {
    MapRenderer.ProjectorOf(StopCoordinates(routes, stops), s.width, s.height, s.padding)
  }

  /** The polyline points of each route. */
  function AllRoutePoints(routes: seq<Bus>, stops: seq<Stop>, projector: MapRenderer.SphereProjector): (r: seq<seq<Point>>)
    requires InArena(routes, stops)
    ensures |r| == |routes|
  {
    seq(|routes|, k requires 0 <= k < |routes| => RoutePoints(routes[k].stops, stops, projector))
  }

  lemma ValidStopsNamed(routes: seq<Bus>, stops: seq<Stop>, index: map<string, nat>)
    requires InArena(routes, stops) && StopsIndexed(stops, index)
    ensures Named(Strings.SortedSeq(StopNamesOf(routes, stops)), stops, index)
  {
    var names := Strings.SortedSeq(StopNamesOf(routes, stops));
    forall k | 0 <= k < |names| ensures names[k] in index && index[names[k]] < |stops| {
      StopNamesOfExact(routes, stops, names[k]);
    }
  }

  /** The picture of `RenderMap`, in drawing order: the route lines and
      the route labels, routes in name order, then the stop circles and the
      stop labels of `stopNames`, all through one projector. */
  function Picture(routes: seq<Bus>, stopNames: seq<string>, stops: seq<Stop>, index: map<string, nat>,
                   projector: MapRenderer.SphereProjector, s: MapRenderer.RenderSettings): seq<MapRenderer.Drawable>
    requires CanDraw(routes, stops, s.colorPalette) && Named(stopNames, stops, index)
  {
    RouteLines(AllRoutePoints(routes, stops, projector), Palette(|routes|, s.colorPalette), s.lineWidth)
    + RouteNames(routes, stops, projector, Palette(|routes|, s.colorPalette), s)
    + StopCircles(stopNames, stops, index, projector, s.stopRadius)
    + StopLabels(stopNames, stops, index, projector, s)
  }

  /** The picture of the map of `routes`: fitted to their stops, with the
      valid stops in name order. */
  function MapPicture(routes: seq<Bus>, stops: seq<Stop>, index: map<string, nat>, s: MapRenderer.RenderSettings)
    : seq<MapRenderer.Drawable>
    requires CanDraw(routes, stops, s.colorPalette) && StopsIndexed(stops, index)
  {
    ValidStopsNamed(routes, stops, index);
    Picture(routes, Strings.SortedSeq(StopNamesOf(routes, stops)), stops, index, Projector(routes, stops, s), s)
  }

  // -------------------------------------------------- what the picture shows

  /** The k-th drawable is the line of the k-th route in name order: through
      its stops, in palette entry k modulo the palette size. */
  lemma RouteLineOf(routes: seq<Bus>, stopNames: seq<string>, stops: seq<Stop>, index: map<string, nat>,
                    projector: MapRenderer.SphereProjector, s: MapRenderer.RenderSettings, k: nat)
    requires CanDraw(routes, stops, s.colorPalette) && Named(stopNames, stops, index)
    requires k < |routes|
    ensures Picture(routes, stopNames, stops, index, projector, s)[k]
            == MapRenderer.RoutePolyline(RoutePoints(routes[k].stops, stops, projector),
                                         s.colorPalette[Slot(k, |s.colorPalette|)], s.lineWidth)
  {
  }

  /** Indexing into four layers drawn one after the other. */
  lemma LayerAt<T>(a: seq<T>, b: seq<T>, c: seq<T>, d: seq<T>, layer: nat, i: nat)
    requires layer == 2 ==> i < |c|
    requires layer == 3 ==> i < |d|
    ensures layer == 2 ==> (a + b + c + d)[|a| + |b| + i] == c[i]
    ensures layer == 3 ==> (a + b + c + d)[|a| + |b| + |c| + i] == d[i]
  {
  }

  /** The number of route lines and route labels, drawn before the stops. */
  function RouteMarks(routes: seq<Bus>, stops: seq<Stop>, projector: MapRenderer.SphereProjector,
                      s: MapRenderer.RenderSettings): nat
    requires CanDraw(routes, stops, s.colorPalette)
  {
    |routes| + |RouteNames(routes, stops, projector, Palette(|routes|, s.colorPalette), s)|
  }

  /** After the route lines and labels come the stop circles, one per stop
      name in order, at the stop the name finds; then the stop labels, one
      per name; nothing else follows. */
  lemma StopCircleOf(routes: seq<Bus>, stopNames: seq<string>, stops: seq<Stop>, index: map<string, nat>,
                     projector: MapRenderer.SphereProjector, s: MapRenderer.RenderSettings, k: nat)
    requires CanDraw(routes, stops, s.colorPalette) && Named(stopNames, stops, index)
    requires k < |stopNames|
    ensures |Picture(routes, stopNames, stops, index, projector, s)| == RouteMarks(routes, stops, projector, s) + 2 * |stopNames|
    ensures Picture(routes, stopNames, stops, index, projector, s)[RouteMarks(routes, stops, projector, s) + k]
            == MapRenderer.StopCircle(projector.Project(stops[index[stopNames[k]]].coordinates), s.stopRadius)
  {
    LayerAt(RouteLines(AllRoutePoints(routes, stops, projector), Palette(|routes|, s.colorPalette), s.lineWidth),
            RouteNames(routes, stops, projector, Palette(|routes|, s.colorPalette), s),
            StopCircles(stopNames, stops, index, projector, s.stopRadius),
            StopLabels(stopNames, stops, index, projector, s), 2, k);
  }

  /** Each stop's label carries its name and sits where its circle is. */
  lemma StopLabelOf(routes: seq<Bus>, stopNames: seq<string>, stops: seq<Stop>, index: map<string, nat>,
                    projector: MapRenderer.SphereProjector, s: MapRenderer.RenderSettings, k: nat)
    requires CanDraw(routes, stops, s.colorPalette) && Named(stopNames, stops, index)
    requires k < |stopNames|
    ensures Picture(routes, stopNames, stops, index, projector, s)[RouteMarks(routes, stops, projector, s) + |stopNames| + k]
            == MapRenderer.StopName(projector.Project(stops[index[stopNames[k]]].coordinates), s.stopLabelOffset,
                                    FontSize(s.stopLabelFontSize), stopNames[k], s.underlayerColor, s.underlayerWidth)
  {
    LayerAt(RouteLines(AllRoutePoints(routes, stops, projector), Palette(|routes|, s.colorPalette), s.lineWidth),
            RouteNames(routes, stops, projector, Palette(|routes|, s.colorPalette), s),
            StopCircles(stopNames, stops, index, projector, s.stopRadius),
            StopLabels(stopNames, stops, index, projector, s), 3, k);
  }

  /** The route labels are one or two per route: one more for each route
      that is not round and whose middle stop differs from its first. */
  lemma {:induction false} RouteNamesCount(routes: seq<Bus>, stops: seq<Stop>, projector: MapRenderer.SphereProjector,
                                           colors: seq<Color>, s: MapRenderer.RenderSettings)
    requires |colors| == |routes|
    requires Stopping(routes)
    requires InArena(routes, stops)
    ensures |routes| <= |RouteNames(routes, stops, projector, colors, s)| <= 2 * |routes|
    ensures (forall b :: 0 <= b < |routes| ==> routes[b].isRound)
            ==> |RouteNames(routes, stops, projector, colors, s)| == |routes|
  {
    if routes != [] {
      var last := |routes| - 1;
      assert InArena(routes[..last], stops);
      RouteNamesCount(routes[..last], stops, projector, colors[..last], s);
    }
  }

  /** With a canvas at least twice the padding each way and a spread of
      stops along both axes, every vertex of every route line is drawn
      inside the canvas less its padding. */
  lemma RouteVerticesInCanvas(routes: seq<Bus>, stops: seq<Stop>, s: MapRenderer.RenderSettings, b: nat, j: nat)
    requires InArena(routes, stops)
    requires b < |routes| && j < |routes[b].stops|
    requires 0.0 <= s.padding && 2.0 * s.padding <= s.width && 2.0 * s.padding <= s.height
    requires StopCoordinates(routes, stops) != []
    requires !MapRenderer.IsZero(MapRenderer.MaxOf(MapRenderer.Longitudes(StopCoordinates(routes, stops)))
                                 - MapRenderer.MinOf(MapRenderer.Longitudes(StopCoordinates(routes, stops))))
    requires !MapRenderer.IsZero(MapRenderer.MaxOf(MapRenderer.Latitudes(StopCoordinates(routes, stops)))
                                 - MapRenderer.MinOf(MapRenderer.Latitudes(StopCoordinates(routes, stops))))
    ensures s.padding <= RoutePoints(routes[b].stops, stops, Projector(routes, stops, s))[j].x <= s.width - s.padding
    ensures s.padding <= RoutePoints(routes[b].stops, stops, Projector(routes, stops, s))[j].y <= s.height - s.padding
  {
    RouteStopIsFitted(routes, stops, b, j);
    FittedInCanvas(StopCoordinates(routes, stops), s, stops[routes[b].stops[j]].coordinates);
  }

  /** The projector fitted to a range draws each of its coordinates inside
      the padded canvas. */
  lemma FittedInCanvas(points: seq<Coordinates>, s: MapRenderer.RenderSettings, c: Coordinates)
    requires c in points
    requires 0.0 <= s.padding && 2.0 * s.padding <= s.width && 2.0 * s.padding <= s.height
    requires !MapRenderer.IsZero(MapRenderer.MaxOf(MapRenderer.Longitudes(points)) - MapRenderer.MinOf(MapRenderer.Longitudes(points)))
    requires !MapRenderer.IsZero(MapRenderer.MaxOf(MapRenderer.Latitudes(points)) - MapRenderer.MinOf(MapRenderer.Latitudes(points)))
    ensures s.padding <= MapRenderer.ProjectorOf(points, s.width, s.height, s.padding).Project(c).x <= s.width - s.padding
    ensures s.padding <= MapRenderer.ProjectorOf(points, s.width, s.height, s.padding).Project(c).y <= s.height - s.padding
  {
    var i :| 0 <= i < |points| && points[i] == c;
    MapRenderer.ProjectionFitsCanvas(points, s.width, s.height, s.padding, i);
  }

  // ------------------------------------------------------------ the loops

  /** The first loop of `RenderMap`: the valid stop names and the
      coordinates to fit. */
  method CollectStops(routes: seq<Bus>, stops: seq<Stop>) returns (validStops: set<string>, coordinates: seq<Coordinates>)
    requires InArena(routes, stops)
    ensures validStops == StopNamesOf(routes, stops)
    ensures coordinates == StopCoordinates(routes, stops)
  {
    validStops := {};
    coordinates := [];
    var b := 0;
    while b < |routes|
      invariant 0 <= b <= |routes|
      invariant InArena(routes[..b], stops)
      invariant validStops == StopNamesOf(routes[..b], stops)
      invariant coordinates == StopCoordinates(routes[..b], stops)
    {
      var route := routes[b].stops;
      ghost var namesBefore := validStops;
      ghost var coordinatesBefore := coordinates;
      var j := 0;
      while j < |route|
        invariant 0 <= j <= |route|
        invariant validStops == namesBefore + StopNamesOn(route[..j], stops)
        invariant coordinates == coordinatesBefore + RouteCoordinates(route, stops)[..j]
      {
        assert route[..j + 1][..j] == route[..j];
        assert RouteCoordinates(route, stops)[..j + 1] == RouteCoordinates(route, stops)[..j] + [stops[route[j]].coordinates];
        validStops := validStops + {stops[route[j]].name};
        coordinates := coordinates + [stops[route[j]].coordinates];
        j := j + 1;
      }
      assert route[..j] == route;
      assert RouteCoordinates(route, stops)[..j] == RouteCoordinates(route, stops);
      assert routes[..b + 1][..b] == routes[..b];
      assert InArena(routes[..b + 1], stops);
      b := b + 1;
    }
    assert routes[..b] == routes;
  }

  /** The projected stops of one route (the inner loop of the second loop of
      `RenderMap`). */
  method ProjectRoute(route: seq<nat>, stops: seq<Stop>, projector: MapRenderer.SphereProjector) returns (points: seq<Point>)
    requires OnStops(route, stops)
    ensures points == RoutePoints(route, stops, projector)
  {
    points := [];
    var j := 0;
    while j < |route|
      invariant 0 <= j <= |route|
      invariant points == RoutePoints(route, stops, projector)[..j]
    {
      points := points + [projector.Project(stops[route[j]].coordinates)];
      j := j + 1;
    }
  }

  /** The second loop of `RenderMap`: the colour and the points of each
      route, keyed by its name. */
  method AssignColors(names: seq<string>, routes: seq<Bus>, stops: seq<Stop>, palette: seq<Color>,
                      projector: MapRenderer.SphereProjector)
    returns (colors: map<string, Color>, points: map<string, seq<Point>>)
    requires |names| == |routes|
    requires forall i, k :: 0 <= i < k < |names| ==> names[i] != names[k]
    requires names != [] ==> palette != []
    requires InArena(routes, stops)
    ensures forall k :: 0 <= k < |names| ==> names[k] in colors && colors[names[k]] == palette[Slot(k, |palette|)]
    ensures forall k :: 0 <= k < |names| ==> names[k] in points && points[names[k]] == RoutePoints(routes[k].stops, stops, projector)
    ensures colors.Keys == points.Keys == NamesUpTo(names, |names|)
  {
    ghost var wanted := Palette(|names|, palette);
    ghost var shapes := AllRoutePoints(routes, stops, projector);
    colors := map[];
    points := map[];
    var colorIndex := 0;
    var k := 0;
    while k < |names|
      invariant 0 <= k <= |names|
      invariant k == 0 ==> colorIndex == 0
      invariant k > 0 ==> colorIndex == Slot(k - 1, |palette|) + 1
      invariant Keyed(names, colors, wanted, k)
      invariant Keyed(names, points, shapes, k)
      invariant colors.Keys == NamesUpTo(names, k)
      invariant points.Keys == NamesUpTo(names, k)
    {
      if k > 0 {
        SlotStep(k - 1, |palette|);
      }
      if colorIndex >= |palette| {
        colorIndex := 0;
      }
      assert colorIndex == Slot(k, |palette|);
      KeyedStep(names, colors, wanted, k, palette[colorIndex]);
      KeysStep(names, colors, k, palette[colorIndex]);
      colors := colors[names[k] := palette[colorIndex]];
      colorIndex := colorIndex + 1;
      var routePoints := ProjectRoute(routes[k].stops, stops, projector);
      KeyedStep(names, points, shapes, k, routePoints);
      KeysStep(names, points, k, routePoints);
      points := points[names[k] := routePoints];
      k := k + 1;
    }
  }

  /** The first k names, as a set. */
  ghost function NamesUpTo(names: seq<string>, k: nat): set<string>
    requires k <= |names|
  {
    if k == 0 then {} else NamesUpTo(names, k - 1) + {names[k - 1]}
  }

  /** A name is among the first k exactly when one of the first k
      positions holds it. */
  lemma {:induction false} NamesUpToMembers(names: seq<string>, k: nat, x: string)
    requires k <= |names|
    ensures x in NamesUpTo(names, k) <==> exists i :: 0 <= i < k && names[i] == x
  {
    if k > 0 {
      NamesUpToMembers(names, k - 1, x);
    }
  }

  /** Keying the next name extends the key set by that name. */
  lemma KeysStep<T>(names: seq<string>, table: map<string, T>, k: nat, v: T)
    requires k < |names|
    requires table.Keys == NamesUpTo(names, k)
    ensures table[names[k] := v].Keys == NamesUpTo(names, k + 1)
  {
  }

  /** The first k names are keys of the table, each to its entry of `want`. */
  ghost predicate Keyed<T>(names: seq<string>, table: map<string, T>, want: seq<T>, k: nat)
    requires k <= |names| && k <= |want|
  {
    forall i :: 0 <= i < k ==> names[i] in table && table[names[i]] == want[i]
  }

  lemma KeyedStep<T>(names: seq<string>, table: map<string, T>, want: seq<T>, k: nat, v: T)
    requires k < |names| && k < |want| && v == want[k]
    requires forall i, j :: 0 <= i < j < |names| ==> names[i] != names[j]
    requires Keyed(names, table, want, k)
    ensures Keyed(names, table[names[k] := v], want, k + 1)
  {
  }

  /** `RenderRouteLines`: appends a polyline per name, through its points
      and in its colour. */
  method RenderRouteLines(picture: seq<MapRenderer.Drawable>, names: seq<string>, points: map<string, seq<Point>>,
                          colors: map<string, Color>, s: MapRenderer.RenderSettings)
    returns (out: seq<MapRenderer.Drawable>)
    requires forall k :: 0 <= k < |names| ==> names[k] in points && names[k] in colors
    ensures out == picture + RouteLines(ByName(names, points),
                                        ByName(names, colors), s.lineWidth)
  {
    ghost var lines := RouteLines(ByName(names, points),
                                  ByName(names, colors), s.lineWidth);
    out := picture;
    var k := 0;
    while k < |names|
      invariant 0 <= k <= |names|
      invariant out == picture + lines[..k]
    {
      assert lines[..k + 1] == lines[..k] + [lines[k]];
      out := out + [MapRenderer.RoutePolyline(points[names[k]], colors[names[k]], s.lineWidth)];
      k := k + 1;
    }
    assert lines[..k] == lines;
  }

  /** One step of `RouteNames`. */
  lemma RouteNamesStep(routes: seq<Bus>, stops: seq<Stop>, projector: MapRenderer.SphereProjector,
                       colors: seq<Color>, s: MapRenderer.RenderSettings, k: nat)
    requires |colors| == |routes| && k < |routes|
    requires Stopping(routes)
    requires InArena(routes, stops)
    ensures InArena(routes[..k], stops) && InArena(routes[..k + 1], stops)
    ensures RouteNames(routes[..k + 1], stops, projector, colors[..k + 1], s)
            == RouteNames(routes[..k], stops, projector, colors[..k], s) + RouteLabels(routes[k], stops, projector, colors[k], s)
  {
    assert routes[..k + 1][..k] == routes[..k];
    assert colors[..k + 1][..k] == colors[..k];
    assert InArena(routes[..k], stops);
  }

  /** `RenderStops`: appends a circle at each named stop. */
  method RenderStops(picture: seq<MapRenderer.Drawable>, names: seq<string>, stops: seq<Stop>, index: map<string, nat>,
                     projector: MapRenderer.SphereProjector, s: MapRenderer.RenderSettings)
    returns (out: seq<MapRenderer.Drawable>)
    requires Named(names, stops, index)
    ensures out == picture + StopCircles(names, stops, index, projector, s.stopRadius)
  {
    ghost var circles := StopCircles(names, stops, index, projector, s.stopRadius);
    out := picture;
    var k := 0;
    while k < |names|
      invariant 0 <= k <= |names|
      invariant out == picture + circles[..k]
    {
      assert circles[..k + 1] == circles[..k] + [circles[k]];
      out := out + [MapRenderer.StopCircle(projector.Project(stops[index[names[k]]].coordinates), s.stopRadius)];
      k := k + 1;
    }
    assert circles[..k] == circles;
  }

  /** `RenderStopsNames`: appends a label at each named stop. */
  method RenderStopsNames(picture: seq<MapRenderer.Drawable>, names: seq<string>, stops: seq<Stop>, index: map<string, nat>,
                          projector: MapRenderer.SphereProjector, s: MapRenderer.RenderSettings)
    returns (out: seq<MapRenderer.Drawable>)
    requires Named(names, stops, index)
    ensures out == picture + StopLabels(names, stops, index, projector, s)
  {
    ghost var labels := StopLabels(names, stops, index, projector, s);
    out := picture;
    var k := 0;
    while k < |names|
      invariant 0 <= k <= |names|
      invariant out == picture + labels[..k]
    {
      assert labels[..k + 1] == labels[..k] + [labels[k]];
      out := out + [MapRenderer.StopName(projector.Project(stops[index[names[k]]].coordinates), s.stopLabelOffset,
                                         FontSize(s.stopLabelFontSize), names[k], s.underlayerColor, s.underlayerWidth)];
      k := k + 1;
    }
    assert labels[..k] == labels;
  }

  /** Distinct names in a strictly sorted sequence. */
  lemma SortedDistinct(names: seq<string>)
    requires Strings.StrictlySorted(names)
    ensures forall i, k :: 0 <= i < k < |names| ==> names[i] != names[k]
  {
    forall i, k | 0 <= i < k < |names| ensures names[i] != names[k] {
      Strings.LessIrreflexive(names[i]);
    }
  }


  /** The labels of one route (the body of the loop of `RenderRouteNames`):
      at the first stop and, for a route that is not round, at the middle
      position when that is a different stop. */
  method LabelRoute(picture: seq<MapRenderer.Drawable>, route: Bus, name: string, color: Color, stops: seq<Stop>,
                    projector: MapRenderer.SphereProjector, s: MapRenderer.RenderSettings)
    returns (out: seq<MapRenderer.Drawable>)
    requires route.name == name && route.stops != []
    requires OnStops(route.stops, stops)
    ensures out == picture + RouteLabels(route, stops, projector, color, s)
  {
    var first := route.stops[0];
    var firstPoint := projector.Project(stops[first].coordinates);
    out := picture + [RouteLabel(firstPoint, name, color, s)];
    if !route.isRound {
      var last := route.stops[|route.stops| / 2];
      if first != last {
        var lastPoint := projector.Project(stops[last].coordinates);
        out := out + [RouteLabel(lastPoint, name, color, s)];
      }
    }
  }

  /** `RenderRouteNames`: appends the labels of each route, in name order;
      `routes[k]` is the bus `names[k]` finds. */
  method RenderRouteNames(picture: seq<MapRenderer.Drawable>, names: seq<string>, routes: seq<Bus>,
                          colors: map<string, Color>, stops: seq<Stop>,
                          s: MapRenderer.RenderSettings, projector: MapRenderer.SphereProjector)
    returns (out: seq<MapRenderer.Drawable>)
    requires |names| == |routes| && InArena(routes, stops)
    requires forall k :: 0 <= k < |names| ==> names[k] == routes[k].name && names[k] in colors
    requires Stopping(routes)
    ensures out == picture + RouteNames(routes, stops, projector,
                                        ByName(names, colors), s)
  {
    ghost var routeColors := ByName(names, colors);
    out := picture;
    var k := 0;
    while k < |names|
      invariant 0 <= k <= |names|
      invariant InArena(routes[..k], stops)
      invariant out == picture + RouteNames(routes[..k], stops, projector, routeColors[..k], s)
    {
      RouteNamesStep(routes, stops, projector, routeColors, s, k);
      out := LabelRoute(out, routes[k], names[k], colors[names[k]], stops, projector, s);
      k := k + 1;
    }
    assert routes[..k] == routes && routeColors[..k] == routeColors;
  }

  lemma ColorsByName(names: seq<string>, colors: map<string, Color>, palette: seq<Color>)
    requires names != [] ==> palette != []
    requires forall k :: 0 <= k < |names| ==> names[k] in colors && colors[names[k]] == palette[Slot(k, |palette|)]
    ensures ByName(names, colors) == Palette(|names|, palette)
  {
  }

  lemma PointsByName(names: seq<string>, routes: seq<Bus>, stops: seq<Stop>, projector: MapRenderer.SphereProjector,
                     points: map<string, seq<Point>>)
    requires |names| == |routes| && InArena(routes, stops)
    requires forall k :: 0 <= k < |names| ==> names[k] in points && points[names[k]] == RoutePoints(routes[k].stops, stops, projector)
    ensures ByName(names, points) == AllRoutePoints(routes, stops, projector)
  {
  }

  /** The body of `RenderMap` up to the drawing: the picture of the routes
      `names` finds, in name order. */
  method RenderPicture(names: seq<string>, routes: seq<Bus>, stops: seq<Stop>, index: map<string, nat>,
                       s: MapRenderer.RenderSettings)
    returns (picture: seq<MapRenderer.Drawable>)
    requires CanDraw(routes, stops, s.colorPalette) && StopsIndexed(stops, index)
    requires |names| == |routes| && Strings.StrictlySorted(names)
    requires forall k :: 0 <= k < |names| ==> names[k] == routes[k].name
    ensures picture == MapPicture(routes, stops, index, s)
  {
    var validStops, coordinates := CollectStops(routes, stops);
    var projector := MapRenderer.NewSphereProjector(coordinates, s.width, s.height, s.padding);
    SortedDistinct(names);
    var colors, points := AssignColors(names, routes, stops, s.colorPalette, projector);
    ColorsByName(names, colors, s.colorPalette);
    PointsByName(names, routes, stops, projector, points);
    picture := RenderRouteLines([], names, points, colors, s);
    assert picture == RouteLines(AllRoutePoints(routes, stops, projector), Palette(|routes|, s.colorPalette), s.lineWidth);
    picture := RenderRouteNames(picture, names, routes, colors, stops, s, projector);
    var stopNames := Strings.SortedSeq(validStops);
    ValidStopsNamed(routes, stops, index);
    picture := RenderStops(picture, stopNames, stops, index, projector, s);
    picture := RenderStopsNames(picture, stopNames, stops, index, projector, s);
    assert picture == Picture(routes, stopNames, stops, index, projector, s);
    assert projector == Projector(routes, stops, s);
  }

  /** `svg::Document doc; renderer::DrawMap(picture, doc);`: a new document
      holding the picture. */
  method DrawNew(picture: seq<MapRenderer.Drawable>) returns (doc: Document)
    ensures fresh(doc)
    ensures doc.objects == MapRenderer.DrawnAll(picture)
  {
    doc := new Document();
    MapRenderer.DrawMap(picture, doc);
  }

  /** The buses the valid names find can be drawn. */
  lemma RoutesDrawable(names: seq<string>, buses: seq<Bus>, busIndex: map<string, nat>, stops: seq<Stop>,
                       palette: seq<Color>)
    requires BusesIndexed(buses, busIndex) && RoutesInArena(buses, |stops|)
    requires forall k :: 0 <= k < |names| ==> names[k] in busIndex && buses[busIndex[names[k]]].stops != []
    requires names != [] ==> palette != []
    ensures CanDraw(Routes(names, buses, busIndex), stops, palette)
    ensures forall k :: 0 <= k < |names| ==> names[k] == Routes(names, buses, busIndex)[k].name
  {
    var routes := Routes(names, buses, busIndex);
    assert forall k :: 0 <= k < |names| ==> routes[k] == buses[busIndex[names[k]]];
  }

  // ------------------------------------------------------------- the handler

  /** `RequestHandler`: answers from a catalogue and draws with a renderer,
      changing neither. */
  class RequestHandler {
    const db: TransportCatalogue
    const renderer: MapRenderer.MapRenderer

    constructor(db: TransportCatalogue, renderer: MapRenderer.MapRenderer)
      ensures this.db == db && this.renderer == renderer
    {
      this.db := db;
      this.renderer := renderer;
    }

    /** `GetRouteInfo`: the record cached for the bus of that name, or
        nothing for an unknown bus. */
    function GetRouteInfo(busName: string): (r: Option<RouteInfo>)
      reads db
      requires db.Valid()
      ensures r.Some? <==> busName in db.nameToBus
      ensures r.Some? ==> r.value == db.routesInfo[db.nameToBus[busName]]
    {
      match db.SearchBus(busName)
      case None => None
      case Some(bus) => Some(db.GetRouteInfo(bus).value)
    }

    /** `GetBusesByStop`: the names of the buses through the stop of that
        name; nothing for an unknown stop and for a stop no bus serves. */
    function GetBusesByStop(stopName: string): (r: Option<set<string>>)
      reads db
      requires db.Valid()
      ensures r.Some? <==> stopName in db.nameToStop && db.nameToStop[stopName] in db.stopToBuses
      ensures r.Some? ==> r.value == db.stopToBuses[db.nameToStop[stopName]]
    {
      match db.SearchStop(stopName)
      case None => None
      case Some(stop) => db.GetStopToBuses(stop)
    }

    /** `RenderMap`: draws the buses named into a new document — the lines,
        then the route labels, then the stop circles, then the stop labels —
        fitted to the stops of those buses. */
    method RenderMap(validBuses: set<string>) returns (doc: Document)
      requires db.Valid()
      requires forall n :: n in validBuses ==> n in db.nameToBus && db.buses[db.nameToBus[n]].stops != []
      requires validBuses != {} ==> renderer.settings.colorPalette != []
      ensures fresh(doc)
      ensures CanDraw(Routes(Strings.SortedSeq(validBuses), db.buses, db.nameToBus), db.stops,
                      renderer.settings.colorPalette)
      ensures StopsIndexed(db.stops, db.nameToStop)
      ensures doc.objects == MapRenderer.DrawnAll(MapPicture(Routes(Strings.SortedSeq(validBuses), db.buses, db.nameToBus),
                                                          db.stops, db.nameToStop, renderer.settings))
    {
      var names := Strings.SortedSeq(validBuses);
      var routes := Routes(names, db.buses, db.nameToBus);
      RoutesDrawable(names, db.buses, db.nameToBus, db.stops, renderer.settings.colorPalette);
      var picture := RenderPicture(names, routes, db.stops, db.nameToStop, renderer.GetRenderSettings());
      doc := DrawNew(picture);
    }
  }
}
