/** The map renderer of map_renderer.h/.cpp: render settings, the
    projection of coordinates onto the canvas and the drawables that turn
    stops and routes into SVG objects. */
module MapRenderer {
  import opened Wrappers
  import opened Strings
  import opened Svg
  import Catalogue

  /** `EPSILON`. */
  const Epsilon: real := 0.000001

  /** `IsZero`: the absolute value is below `Epsilon`. */
  predicate IsZero(v: real) {
    -Epsilon < v < Epsilon
  }

  /** `IsZero` holds exactly when the magnitude of `v` is below `Epsilon`,
      so 0 is zero and `Epsilon` itself is not. */
  lemma IsZeroIsSmallMagnitude(v: real)
    ensures IsZero(v) <==> (if v < 0.0 then -v else v) < Epsilon
    ensures IsZero(0.0) && !IsZero(Epsilon) && !IsZero(-Epsilon)
  {
  }

  /** `RenderSettings`. A default-constructed one has every number at 0,
      both offsets at the origin, no underlayer colour and no palette. */
  datatype RenderSettings = RenderSettings(
    width: real,
    height: real,
    padding: real,
    lineWidth: real,
    stopRadius: real,
    busLabelFontSize: int,
    busLabelOffset: Point,
    stopLabelFontSize: int,
    stopLabelOffset: Point,
    underlayerColor: Color,
    underlayerWidth: real,
    colorPalette: seq<Color>)

  const DefaultSettings := RenderSettings(0.0, 0.0, 0.0, 0.0, 0.0, 0, Origin, 0, Origin, DefaultColor, 0.0, [])

  /** `MapRenderer`: holds the settings it was made with. */
  class MapRenderer {
    const settings: RenderSettings

    constructor(renderSettings: RenderSettings)
      ensures GetRenderSettings() == renderSettings
    {
      settings := renderSettings;
    }

    function GetRenderSettings(): RenderSettings {
      settings
    }
  }

  // ------------------------------------------------------------ projection

  function MinOf(s: seq<real>): (r: real)
    requires s != []
    ensures r in s && forall i :: 0 <= i < |s| ==> r <= s[i]
  {
    if |s| == 1 then s[0]
    else
      var m := MinOf(s[..|s| - 1]);
      assert forall i :: 0 <= i < |s| - 1 ==> s[..|s| - 1][i] == s[i];
      if s[|s| - 1] < m then s[|s| - 1] else m
  }

  function MaxOf(s: seq<real>): (r: real)
    requires s != []
    ensures r in s && forall i :: 0 <= i < |s| ==> s[i] <= r
  {
    if |s| == 1 then s[0]
    else
      var m := MaxOf(s[..|s| - 1]);
      assert forall i :: 0 <= i < |s| - 1 ==> s[..|s| - 1][i] == s[i];
      if m < s[|s| - 1] then s[|s| - 1] else m
  }

  function Longitudes(points: seq<Catalogue.Coordinates>): (r: seq<real>)
    ensures |r| == |points| && forall i :: 0 <= i < |points| ==> r[i] == points[i].lng
  {
    seq(|points|, i requires 0 <= i < |points| => points[i].lng)
  }

  function Latitudes(points: seq<Catalogue.Coordinates>): (r: seq<real>)
    ensures |r| == |points| && forall i :: 0 <= i < |points| ==> r[i] == points[i].lat
  {
    seq(|points|, i requires 0 <= i < |points| => points[i].lat)
  }

  /** The zoom of `SphereProjector`: the zoom that fits the width and the
      one that fits the height, each only when its span is not zero, and
      the smaller of the two when both exist. */
  function Zoom(minLon: real, maxLon: real, minLat: real, maxLat: real, maxWidth: real, maxHeight: real, padding: real): real {
    var widthZoom: Option<real> :=
      if IsZero(maxLon - minLon) then None else Some((maxWidth - 2.0 * padding) / (maxLon - minLon));
    var heightZoom: Option<real> :=
      if IsZero(maxLat - minLat) then None else Some((maxHeight - 2.0 * padding) / (maxLat - minLat));
    if widthZoom.Some? && heightZoom.Some? then
      (if widthZoom.value < heightZoom.value then widthZoom.value else heightZoom.value)
    else if widthZoom.Some? then widthZoom.value
    else if heightZoom.Some? then heightZoom.value
    else 0.0
  }

  /** The zoom rule: no larger than the zoom of each non-zero span and
      equal to one of them; 0 when both spans are zero. */
  lemma ZoomChoice(minLon: real, maxLon: real, minLat: real, maxLat: real, maxWidth: real, maxHeight: real, padding: real)
    ensures var r := Zoom(minLon, maxLon, minLat, maxLat, maxWidth, maxHeight, padding);
            && (!IsZero(maxLon - minLon) ==> r <= (maxWidth - 2.0 * padding) / (maxLon - minLon))
            && (!IsZero(maxLat - minLat) ==> r <= (maxHeight - 2.0 * padding) / (maxLat - minLat))
            && (!IsZero(maxLon - minLon) || !IsZero(maxLat - minLat) ==>
                  (!IsZero(maxLon - minLon) && r == (maxWidth - 2.0 * padding) / (maxLon - minLon))
                  || (!IsZero(maxLat - minLat) && r == (maxHeight - 2.0 * padding) / (maxLat - minLat)))
            && (IsZero(maxLon - minLon) && IsZero(maxLat - minLat) ==> r == 0.0)
  {
  }

  /** `SphereProjector`, once constructed. */
  datatype SphereProjector = SphereProjector(padding: real, minLon: real, maxLat: real, zoom: real) {
    /** `SphereProjector::operator()`. */
    function Project(c: Catalogue.Coordinates): Point {
      Point((c.lng - minLon) * zoom + padding, (maxLat - c.lat) * zoom + padding)
    }
  }

  /** With a zoom that is not negative, projecting keeps west-east order on
      x and turns south-north order around on y; the west edge on the north
      edge lands on (padding, padding). */
  lemma ProjectKeepsOrder(p: SphereProjector, a: Catalogue.Coordinates, b: Catalogue.Coordinates)
    requires p.zoom >= 0.0
    ensures a.lng <= b.lng ==> p.Project(a).x <= p.Project(b).x
    ensures a.lat <= b.lat ==> p.Project(a).y >= p.Project(b).y
    ensures a.lng == p.minLon && a.lat == p.maxLat ==> p.Project(a) == Point(p.padding, p.padding)
  {
    var pa, pb := p.Project(a), p.Project(b);
    assert pa.x == (a.lng - p.minLon) * p.zoom + p.padding && pb.x == (b.lng - p.minLon) * p.zoom + p.padding;
    assert pa.y == (p.maxLat - a.lat) * p.zoom + p.padding && pb.y == (p.maxLat - b.lat) * p.zoom + p.padding;
    if a.lng <= b.lng {
      ScaleKeepsOrder(a.lng - p.minLon, b.lng - p.minLon, p.zoom);
    }
    if a.lat <= b.lat {
      ScaleKeepsOrder(p.maxLat - b.lat, p.maxLat - a.lat, p.zoom);
    }
    if a.lng == p.minLon && a.lat == p.maxLat {
      assert a.lng - p.minLon == 0.0 && p.maxLat - a.lat == 0.0;
      ScaleOfZero(p.zoom);
    }
  }

  lemma ScaleOfZero(z: real)
    ensures 0.0 * z == 0.0
  {
  }

  /** Scaling by a factor that is not negative keeps order. */
  lemma ScaleKeepsOrder(u: real, v: real, z: real)
    requires u <= v && z >= 0.0
    ensures u * z <= v * z
  {
    assert v * z - u * z == (v - u) * z;
  }

  /** The projector made from a range of coordinates: the westmost
      longitude, the northmost latitude and the zoom; an empty range leaves
      all three at 0. */
  function ProjectorOf(points: seq<Catalogue.Coordinates>, maxWidth: real, maxHeight: real, padding: real): SphereProjector {
    if points == [] then SphereProjector(padding, 0.0, 0.0, 0.0)
    else
      var lngs := Longitudes(points);
      var lats := Latitudes(points);
      SphereProjector(padding, MinOf(lngs), MaxOf(lats),
        Zoom(MinOf(lngs), MaxOf(lngs), MinOf(lats), MaxOf(lats), maxWidth, maxHeight, padding))
  }

  lemma MinMaxStep(s: seq<real>, k: nat)
    requires 0 < k < |s|
    ensures MinOf(s[..k + 1]) == if s[k] < MinOf(s[..k]) then s[k] else MinOf(s[..k])
    ensures MaxOf(s[..k + 1]) == if MaxOf(s[..k]) < s[k] then s[k] else MaxOf(s[..k])
  {
    assert s[..k + 1][..k] == s[..k];
  }

  lemma ProjectorOfRange(points: seq<Catalogue.Coordinates>, maxWidth: real, maxHeight: real, padding: real)
    requires points != []
    ensures var lngs := Longitudes(points); var lats := Latitudes(points);
            ProjectorOf(points, maxWidth, maxHeight, padding)
            == SphereProjector(padding, MinOf(lngs), MaxOf(lats),
                 Zoom(MinOf(lngs), MaxOf(lngs), MinOf(lats), MaxOf(lats), maxWidth, maxHeight, padding))
  {
  }

  /** `std::minmax_element` over a non-empty range of values. */
  method MinMax(values: seq<real>) returns (lo: real, hi: real)
    requires values != []
    ensures lo == MinOf(values) && hi == MaxOf(values)
  {
    lo, hi := values[0], values[0];
    var k := 1;
    while k < |values|
      invariant 1 <= k <= |values|
      invariant lo == MinOf(values[..k]) && hi == MaxOf(values[..k])
    {
      MinMaxStep(values, k);
      if values[k] < lo {
        lo := values[k];
      }
      if hi < values[k] {
        hi := values[k];
      }
      k := k + 1;
    }
    assert values[..k] == values;
  }

  /** The zoom selection of the `SphereProjector` constructor. */
  method SelectZoom(minLon: real, maxLon: real, minLat: real, maxLat: real, maxWidth: real, maxHeight: real, padding: real)
    returns (zoom: real)
    ensures zoom == Zoom(minLon, maxLon, minLat, maxLat, maxWidth, maxHeight, padding)
  {
    var widthZoom: Option<real> := None;
    if !IsZero(maxLon - minLon) {
      widthZoom := Some((maxWidth - 2.0 * padding) / (maxLon - minLon));
    }
    var heightZoom: Option<real> := None;
    if !IsZero(maxLat - minLat) {
      heightZoom := Some((maxHeight - 2.0 * padding) / (maxLat - minLat));
    }
    zoom := 0.0;
    if widthZoom.Some? && heightZoom.Some? {
      zoom := if widthZoom.value < heightZoom.value then widthZoom.value else heightZoom.value;
    } else if widthZoom.Some? {
      zoom := widthZoom.value;
    } else if heightZoom.Some? {
      zoom := heightZoom.value;
    }
  }

  /** The `SphereProjector` constructor. */
  method NewSphereProjector(points: seq<Catalogue.Coordinates>, maxWidth: real, maxHeight: real, padding: real)
    returns (p: SphereProjector)
    ensures p == ProjectorOf(points, maxWidth, maxHeight, padding)
  {
    if points == [] {
      return SphereProjector(padding, 0.0, 0.0, 0.0);
    }
    var minLon, maxLon := MinMax(Longitudes(points));
    var minLat, maxLat := MinMax(Latitudes(points));
    var zoom := SelectZoom(minLon, maxLon, minLat, maxLat, maxWidth, maxHeight, padding);
    p := SphereProjector(padding, minLon, maxLat, zoom);
  }

  /** With no coordinates, or with all of them at one place, the zoom is 0
      and every point is drawn at (padding, padding). */
  lemma FlatRangeMapsToCorner(points: seq<Catalogue.Coordinates>, maxWidth: real, maxHeight: real, padding: real, c: Catalogue.Coordinates)
    requires forall i :: 0 <= i < |points| ==> points[i] == c
    ensures ProjectorOf(points, maxWidth, maxHeight, padding).zoom == 0.0
    ensures ProjectorOf(points, maxWidth, maxHeight, padding).Project(c) == Point(padding, padding)
  {
    if points != [] {
      var lngs := Longitudes(points);
      var lats := Latitudes(points);
      assert MinOf(lngs) == c.lng == MaxOf(lngs);
      assert MinOf(lats) == c.lat == MaxOf(lats);
    }
  }

  /** A zoom no larger than `room / span` keeps an offset within the span
      inside `room`. */
  lemma AxisFits(d: real, span: real, zoom: real, room: real)
    requires 0.0 <= d <= span && 0.0 < span && 0.0 <= room
    requires 0.0 <= zoom <= room / span
    ensures 0.0 <= d * zoom <= room
  {
    assert d * zoom <= span * zoom;
    assert span * zoom <= span * (room / span);
    assert span * (room / span) == room;
  }

  lemma QuotientNonNegative(room: real, span: real)
    requires 0.0 <= room && 0.0 < span
    ensures 0.0 <= room / span
  {
  }

  /** The zoom of a range whose two spans are not zero is non-negative
      and fits both spans into a canvas at least twice the padding. */
  lemma ZoomFitsBoth(minLon: real, maxLon: real, minLat: real, maxLat: real, maxWidth: real, maxHeight: real, padding: real)
    requires minLon < maxLon && minLat < maxLat
    requires !IsZero(maxLon - minLon) && !IsZero(maxLat - minLat)
    requires 2.0 * padding <= maxWidth && 2.0 * padding <= maxHeight
    ensures var zoom := Zoom(minLon, maxLon, minLat, maxLat, maxWidth, maxHeight, padding);
            && 0.0 <= zoom
            && zoom <= (maxWidth - 2.0 * padding) / (maxLon - minLon)
            && zoom <= (maxHeight - 2.0 * padding) / (maxLat - minLat)
  {
    ZoomChoice(minLon, maxLon, minLat, maxLat, maxWidth, maxHeight, padding);
    QuotientNonNegative(maxWidth - 2.0 * padding, maxLon - minLon);
    QuotientNonNegative(maxHeight - 2.0 * padding, maxLat - minLat);
  }

  /** A projector whose zoom fits the spans of a box draws every point of
      the box inside the padded canvas. */
  lemma ProjectFits(p: SphereProjector, c: Catalogue.Coordinates, maxLon: real, minLat: real, wRoom: real, hRoom: real)
    requires p.minLon <= c.lng <= maxLon && minLat <= c.lat <= p.maxLat
    requires p.minLon < maxLon && minLat < p.maxLat && 0.0 <= wRoom && 0.0 <= hRoom
    requires 0.0 <= p.zoom <= wRoom / (maxLon - p.minLon) && p.zoom <= hRoom / (p.maxLat - minLat)
    ensures p.padding <= p.Project(c).x <= wRoom + p.padding
    ensures p.padding <= p.Project(c).y <= hRoom + p.padding
  {
    AxisFits(c.lng - p.minLon, maxLon - p.minLon, p.zoom, wRoom);
    AxisFits(p.maxLat - c.lat, p.maxLat - minLat, p.zoom, hRoom);
  }

  /** The projector of a box whose spans are not zero draws every point of
      the box inside the padded canvas. */
  lemma BoxFits(p: SphereProjector, minLon: real, maxLon: real, minLat: real, maxLat: real, c: Catalogue.Coordinates,
                maxWidth: real, maxHeight: real, padding: real)
    requires p.padding == padding && p.minLon == minLon && p.maxLat == maxLat
    requires p.zoom == Zoom(minLon, maxLon, minLat, maxLat, maxWidth, maxHeight, padding)
    requires minLon <= c.lng <= maxLon && minLat <= c.lat <= maxLat
    requires !IsZero(maxLon - minLon) && !IsZero(maxLat - minLat)
    requires 0.0 <= padding && 2.0 * padding <= maxWidth && 2.0 * padding <= maxHeight
    ensures padding <= p.Project(c).x && p.Project(c).x <= maxWidth - padding
    ensures padding <= p.Project(c).y && p.Project(c).y <= maxHeight - padding
  {
    ZoomFitsBoth(minLon, maxLon, minLat, maxLat, maxWidth, maxHeight, padding);
    ProjectFits(p, c, maxLon, minLat, maxWidth - 2.0 * padding, maxHeight - 2.0 * padding);
  }

  /** The projector of a range draws every coordinate inside the range's
      bounds inside the padded canvas, when both spans are not zero. */
  lemma RangeFits(points: seq<Catalogue.Coordinates>, maxWidth: real, maxHeight: real, padding: real,
                  c: Catalogue.Coordinates)
    requires points != []
    requires MinOf(Longitudes(points)) <= c.lng <= MaxOf(Longitudes(points))
    requires MinOf(Latitudes(points)) <= c.lat <= MaxOf(Latitudes(points))
    requires 0.0 <= padding && 2.0 * padding <= maxWidth && 2.0 * padding <= maxHeight
    requires !IsZero(MaxOf(Longitudes(points)) - MinOf(Longitudes(points)))
    requires !IsZero(MaxOf(Latitudes(points)) - MinOf(Latitudes(points)))
    ensures padding <= ProjectorOf(points, maxWidth, maxHeight, padding).Project(c).x <= maxWidth - padding
    ensures padding <= ProjectorOf(points, maxWidth, maxHeight, padding).Project(c).y <= maxHeight - padding
  {
    ProjectorOfRange(points, maxWidth, maxHeight, padding);
    BoxFits(ProjectorOf(points, maxWidth, maxHeight, padding),
            MinOf(Longitudes(points)), MaxOf(Longitudes(points)), MinOf(Latitudes(points)), MaxOf(Latitudes(points)),
            c, maxWidth, maxHeight, padding);
  }

  /** When the canvas is at least twice the padding in each direction and
      both spans are non-zero, every coordinate of the range is drawn inside
      the canvas less its padding. */
  lemma ProjectionFitsCanvas(points: seq<Catalogue.Coordinates>, maxWidth: real, maxHeight: real, padding: real, i: nat)
    requires i < |points|
    requires 0.0 <= padding && 2.0 * padding <= maxWidth && 2.0 * padding <= maxHeight
    requires !IsZero(MaxOf(Longitudes(points)) - MinOf(Longitudes(points)))
    requires !IsZero(MaxOf(Latitudes(points)) - MinOf(Latitudes(points)))
    ensures padding <= ProjectorOf(points, maxWidth, maxHeight, padding).Project(points[i]).x <= maxWidth - padding
    ensures padding <= ProjectorOf(points, maxWidth, maxHeight, padding).Project(points[i]).y <= maxHeight - padding
  {
    assert Longitudes(points)[i] == points[i].lng && Latitudes(points)[i] == points[i].lat;
    RangeFits(points, maxWidth, maxHeight, padding, points[i]);
  }

  // ------------------------------------------------------------- drawables

  /** The four kinds of `svg::Drawable` of the map. */
  datatype Drawable =
    | RoutePolyline(points: seq<Point>, strokeColor: Color, strokeWidth: real)
    | StopCircle(center: Point, radius: real)
    | RouteName(pos: Point, offset: Point, fontSize: uint32, routeName: string,
                underlayerColor: Color, strokeWidth: real, routeColor: Color)
    | StopName(pos: Point, offset: Point, fontSize: uint32, stopName: string,
               underlayerColor: Color, strokeWidth: real)

  /** The attributes of a text underlay: fill and stroke in the underlayer
      colour, the stroke width, round caps and joins. */
  function UnderlayAttrs(color: Color, width: real): PathAttrs {
    PathAttrs(Some(color), Some(color), Some(width), Some(LineCap.Round), Some(LineJoin.Round))
  }

  /** The objects one drawable appends to the document, in order. */
  function Drawn(d: Drawable): (r: seq<Object>)
    ensures d.RoutePolyline? || d.StopCircle? ==> |r| == 1
    ensures d.RouteName? || d.StopName? ==> |r| == 2
  {
    match d
    case RoutePolyline(points, color, width) =>
      [PolylineTag(points, PathAttrs(Some(NoneColor), Some(color), Some(width), Some(LineCap.Round), Some(LineJoin.Round)))]
    case StopCircle(center, radius) =>
      [CircleTag(center, radius, NoAttrs.(fill := Some(Named("white"))))]
    case RouteName(pos, offset, size, name, under, width, color) =>
      [TextTag(pos, offset, size, "Verdana", "bold", XmlEscape(name), UnderlayAttrs(under, width)),
       TextTag(pos, offset, size, "Verdana", "bold", XmlEscape(name), NoAttrs.(fill := Some(color)))]
    case StopName(pos, offset, size, name, under, width) =>
      [TextTag(pos, offset, size, "Verdana", "", XmlEscape(name), UnderlayAttrs(under, width)),
       TextTag(pos, offset, size, "Verdana", "", XmlEscape(name), NoAttrs.(fill := Some(Named("black"))))]
  }

  /** The two texts of a label lie on top of each other: same place, size,
      font and data; only the attributes differ, the underlay first. */
  lemma LabelTextsCoincide(d: Drawable)
    requires d.RouteName? || d.StopName?
    ensures var r := Drawn(d);
            && r[0].TextTag? && r[1].TextTag?
            && r[0].pos == r[1].pos == d.pos && r[0].offset == r[1].offset == d.offset
            && r[0].size == r[1].size == d.fontSize && r[0].data == r[1].data
            && r[0].fontFamily == r[1].fontFamily == "Verdana" && r[0].fontWeight == r[1].fontWeight
            && r[0].attrs.fill == r[0].attrs.stroke == Some(d.underlayerColor)
            && r[1].attrs.stroke.None? && r[1].attrs.strokeWidth.None?
  {
  }

  /** The text of a label is the escaped name, so it reads back as the
      name. */
  lemma LabelDataIsName(d: Drawable, k: nat)
    requires d.RouteName? || d.StopName?
    requires k < 2
    ensures Drawn(d)[k].data == XmlEscape(if d.RouteName? then d.routeName else d.stopName)
    ensures XmlUnescape(Drawn(d)[k].data) == (if d.RouteName? then d.routeName else d.stopName)
  {
    XmlRoundTrip(if d.RouteName? then d.routeName else d.stopName);
  }

  /** `RoutePolyline::Draw`: one polyline of the given points. */
  method DrawRoutePolyline(points: seq<Point>, color: Color, width: real, doc: Document)
    modifies doc
    ensures doc.objects == old(doc.objects) + Drawn(RoutePolyline(points, color, width))
  {
    var polyline := new Polyline();
    var k := 0;
    while k < |points|
      invariant 0 <= k <= |points|
      invariant polyline.points == points[..k]
      invariant polyline.props.Attrs() == NoAttrs
      invariant doc.objects == old(doc.objects)
    {
      polyline.AddPoint(points[k]);
      assert points[..k + 1] == points[..k] + [points[k]];
      k := k + 1;
    }
    assert points[..k] == points;
    polyline.props.SetFillColor(NoneColor);
    polyline.props.SetStrokeColor(color);
    polyline.props.SetStrokeWidth(width);
    polyline.props.SetStrokeLineCap(LineCap.Round);
    polyline.props.SetStrokeLineJoin(LineJoin.Round);
    doc.Add(polyline.Object());
  }

  /** `StopCircle::Draw`. */
  method DrawStopCircle(center: Point, radius: real, doc: Document)
    modifies doc
    ensures doc.objects == old(doc.objects) + Drawn(StopCircle(center, radius))
  {
    var circle := new Circle();
    circle.SetCenter(center);
    circle.SetRadius(radius);
    circle.props.SetFillColor(Named("white"));
    doc.Add(circle.Object());
  }

  /** The text both label texts are copied from. */
  method BaseText(pos: Point, offset: Point, size: uint32, weight: string, name: string) returns (t: Text)
    ensures fresh(t) && fresh(t.props)
    ensures t.Object() == TextTag(pos, offset, size, "Verdana", weight, XmlEscape(name), NoAttrs)
  {
    t := new Text();
    t.SetPosition(pos);
    t.SetOffset(offset);
    t.SetFontSize(size);
    t.SetFontFamily("Verdana");
    if weight != "" {
      t.SetFontWeight(weight);
    }
    t.SetData(name);
  }

  /** A copy of `base` with the underlay attributes. */
  method Underlay(base: Text, color: Color, width: real) returns (t: Text)
    ensures fresh(t) && fresh(t.props)
    ensures t.Object() == base.Object().(attrs := UnderlayAttrs(color, width))
  {
    t := base.Copy();
    t.props.SetFillColor(color);
    t.props.SetStrokeColor(color);
    t.props.SetStrokeWidth(width);
    t.props.SetStrokeLineCap(LineCap.Round);
    t.props.SetStrokeLineJoin(LineJoin.Round);
  }

  /** `StopName::Draw` and `RouteName::Draw`: the underlay, then the text
      filled with `fill`. */
  method DrawLabel(pos: Point, offset: Point, size: uint32, weight: string, name: string,
                   under: Color, width: real, fill: Color, doc: Document)
    modifies doc
    ensures doc.objects == old(doc.objects) + [
              TextTag(pos, offset, size, "Verdana", weight, XmlEscape(name), UnderlayAttrs(under, width)),
              TextTag(pos, offset, size, "Verdana", weight, XmlEscape(name), NoAttrs.(fill := Some(fill)))]
  {
    var base := BaseText(pos, offset, size, weight, name);
    var underlay := Underlay(base, under, width);
    doc.Add(underlay.Object());
    var foreground := base.Copy();
    foreground.props.SetFillColor(fill);
    doc.Add(foreground.Object());
  }

  /** `Drawable::Draw`. */
  method Draw(d: Drawable, doc: Document)
    modifies doc
    ensures doc.objects == old(doc.objects) + Drawn(d)
  {
    match d
    case RoutePolyline(points, color, width) =>
      DrawRoutePolyline(points, color, width, doc);
    case StopCircle(center, radius) =>
      DrawStopCircle(center, radius, doc);
    case RouteName(pos, offset, size, name, under, width, color) =>
      DrawLabel(pos, offset, size, "bold", name, under, width, color, doc);
    case StopName(pos, offset, size, name, under, width) =>
      DrawLabel(pos, offset, size, "", name, under, width, Named("black"), doc);
  }

  /** The objects a list of drawables appends, in list order. */
  function DrawnAll(picture: seq<Drawable>): seq<Object> {
    if picture == [] then [] else DrawnAll(picture[..|picture| - 1]) + Drawn(picture[|picture| - 1])
  }

  /** Drawing two lists one after the other is drawing their
      concatenation. */
  lemma {:induction false} DrawnAllSplit(a: seq<Drawable>, b: seq<Drawable>)
    ensures DrawnAll(a + b) == DrawnAll(a) + DrawnAll(b)
    decreases |b|
  {
    if b == [] {
      assert a + b == a;
    } else {
      var b' := b[..|b| - 1];
      assert (a + b)[..|a + b| - 1] == a + b';
      DrawnAllSplit(a, b');
    }
  }

  /** `DrawMap`: draws each element once, in container order. */
  method DrawMap(picture: seq<Drawable>, doc: Document)
    modifies doc
    ensures doc.objects == old(doc.objects) + DrawnAll(picture)
  {
    var k := 0;
    while k < |picture|
      invariant 0 <= k <= |picture|
      invariant doc.objects == old(doc.objects) + DrawnAll(picture[..k])
    {
      assert picture[..k + 1][..k] == picture[..k];
      Draw(picture[k], doc);
      k := k + 1;
    }
    assert picture[..k] == picture;
  }
}
