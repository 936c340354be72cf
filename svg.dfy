/** The SVG scene model of svg.h and svg.cpp: colours, the optional path
    attributes shared by every shape, the three shapes (`circle`, `polyline`,
    `text`) and the document that renders them in insertion order.

    The shapes are classes whose setters update their fields, as in the
    source; the document keeps a copy of every shape added to it, so it holds
    `Object` values. The output stream becomes the returned text. */
module Svg {
  import opened Wrappers
  import opened Strings

  /** `uint8_t`, the type of a colour component. */
  newtype uint8 = x: int | 0 <= x < 0x100

  /** `uint32_t`, the type of a font size. */
  newtype uint32 = x: int | 0 <= x < 0x1_0000_0000

  /** `svg::Point`; a default point is the origin. */
  datatype Point = Point(x: real, y: real)

  const Origin := Point(0.0, 0.0)

  /** `svg::Color`: `std::monostate`, a colour name, `Rgb` or `Rgba`, in the
      variant's order. */
  datatype Color =
    | NoColor
    | Named(name: string)
    | Rgb(red: uint8, green: uint8, blue: uint8)
    | Rgba(red: uint8, green: uint8, blue: uint8, opacity: real)

  /** A default-constructed `Color` holds its first alternative. */
  const DefaultColor: Color := NoColor

  /** `NoneColor` is the colour NAME `none`, not the empty alternative. */
  const NoneColor: Color := Named("none")

  /** The opacity of a default-constructed `Rgba`. */
  const DefaultOpacity: real := 1.0

  /** `ColorPrinter`: components as decimal integers, the opacity as a
      floating-point number. */
  function ColorText(c: Color, fmt: Fmt): string {
    match c
    case NoColor => "none"
    case Named(name) => name
    case Rgb(r, g, b) =>
      "rgb(" + NatToString(r as nat) + "," + NatToString(g as nat) + "," + NatToString(b as nat) + ")"
    case Rgba(r, g, b, opacity) =>
      "rgba(" + NatToString(r as nat) + "," + NatToString(g as nat) + "," + NatToString(b as nat)
        + "," + fmt(opacity) + ")"
  }

  /** The empty colour and the colour named `none` are different values that
      print the same text. */
  lemma NoneColorPrintsAsDefault(fmt: Fmt)
    ensures NoneColor != DefaultColor
    ensures ColorText(NoneColor, fmt) == ColorText(DefaultColor, fmt) == "none"
  {
  }

  /** An `rgb(...)` text starts with the decimal text of the red component,
      which reads back as that component. */
  lemma RgbTextLeadsWithRed(r: uint8, g: uint8, b: uint8, fmt: Fmt)
    ensures var text := ColorText(Rgb(r, g, b), fmt);
            var red := NatToString(r as nat);
            && text[..4] == "rgb("
            && text[4..4 + |red|] == red
            && text[4 + |red|] == ','
            && AllDigits(red) && DigitsValue(red) == r as nat
  {
    var red := NatToString(r as nat);
    var text := ColorText(Rgb(r, g, b), fmt);
    var rest := "," + NatToString(g as nat) + "," + NatToString(b as nat) + ")";
    assert text == "rgb(" + red + rest;
    assert text[4 + |red|] == rest[0];
  }

  datatype LineCap = Butt | Round | Square

  datatype LineJoin = Arcs | Bevel | Miter | MiterClip | Round

  /** `operator<<(ostream&, StrokeLineCap)`. */
  function CapText(cap: LineCap): string {
    match cap
    case Butt => "butt"
    case Round => "round"
    case Square => "square"
  }

  /** `operator<<(ostream&, StrokeLineJoin)`. */
  function JoinText(join: LineJoin): string {
    match join
    case Arcs => "arcs"
    case Bevel => "bevel"
    case Miter => "miter"
    case MiterClip => "miter-clip"
    case Round => "round"
  }

  /** Different caps, and different joins, are written differently. */
  lemma CapAndJoinTextsDistinct(a: LineCap, b: LineCap, c: LineJoin, d: LineJoin)
    ensures CapText(a) == CapText(b) <==> a == b
    ensures JoinText(c) == JoinText(d) <==> c == d
  {
  }

  // ------------------------------------------------------------ path props

  /** The five optional attributes of `PathProps`. */
  datatype PathAttrs = PathAttrs(
    fill: Option<Color>,
    stroke: Option<Color>,
    strokeWidth: Option<real>,
    lineCap: Option<LineCap>,
    lineJoin: Option<LineJoin>)

  const NoAttrs := PathAttrs(None, None, None, None, None)

  /** One attribute ` name="value"`. */
  function Attr(name: string, value: string): string {
    " " + name + "=\"" + value + "\""
  }

  /** The attribute for an optional value, or nothing when it is unset. */
  function OptionalAttr(name: string, value: Option<string>): (r: string)
    ensures value.None? <==> r == ""
    ensures value.Some? ==> r == Attr(name, value.value)
  {
    if value.Some? then Attr(name, value.value) else ""
  }

  /** `RenderAttrs`: fill, stroke, stroke width, line cap, line join, in
      this order, each one only when set. */
  function AttrsText(a: PathAttrs, fmt: Fmt): string {
    OptionalAttr("fill", if a.fill.Some? then Some(ColorText(a.fill.value, fmt)) else None)
    + OptionalAttr("stroke", if a.stroke.Some? then Some(ColorText(a.stroke.value, fmt)) else None)
    + OptionalAttr("stroke-width", if a.strokeWidth.Some? then Some(fmt(a.strokeWidth.value)) else None)
    + OptionalAttr("stroke-linecap", if a.lineCap.Some? then Some(CapText(a.lineCap.value)) else None)
    + OptionalAttr("stroke-linejoin", if a.lineJoin.Some? then Some(JoinText(a.lineJoin.value)) else None)
  }

  /** No attribute set, no attribute written; only a fill set, only the
      fill written. */
  lemma AttrsTextOmitsUnset(c: Color, fmt: Fmt)
    ensures AttrsText(NoAttrs, fmt) == ""
    ensures AttrsText(NoAttrs.(fill := Some(c)), fmt) == " fill=\"" + ColorText(c, fmt) + "\""
  {
    var fill := OptionalAttr("fill", Some(ColorText(c, fmt)));
    assert OptionalAttr("stroke", None) == "";
    assert OptionalAttr("stroke-width", None) == "";
    assert OptionalAttr("stroke-linecap", None) == "";
    assert OptionalAttr("stroke-linejoin", None) == "";
    assert AttrsText(NoAttrs.(fill := Some(c)), fmt) == fill + "" + "" + "" + "";
    assert fill + "" + "" + "" + "" == fill;
  }

  /** `PathProps<Owner>`: each setter assigns its own field and leaves the
      other four alone; a later call overwrites an earlier one. */
  class PathProps {
    var fillColor: Option<Color>
    var strokeColor: Option<Color>
    var strokeWidth: Option<real>
    var strokeLineCap: Option<LineCap>
    var strokeLineJoin: Option<LineJoin>

    function Attrs(): PathAttrs
      reads this
    {
      PathAttrs(fillColor, strokeColor, strokeWidth, strokeLineCap, strokeLineJoin)
    }

    constructor()
      ensures Attrs() == NoAttrs
    {
      fillColor := None;
      strokeColor := None;
      strokeWidth := None;
      strokeLineCap := None;
      strokeLineJoin := None;
    }

    method SetFillColor(color: Color)
      modifies this
      ensures Attrs() == old(Attrs()).(fill := Some(color))
    {
      fillColor := Some(color);
    }

    method SetStrokeColor(color: Color)
      modifies this
      ensures Attrs() == old(Attrs()).(stroke := Some(color))
    {
      strokeColor := Some(color);
    }

    method SetStrokeWidth(width: real)
      modifies this
      ensures Attrs() == old(Attrs()).(strokeWidth := Some(width))
    {
      strokeWidth := Some(width);
    }

    method SetStrokeLineCap(cap: LineCap)
      modifies this
      ensures Attrs() == old(Attrs()).(lineCap := Some(cap))
    {
      strokeLineCap := Some(cap);
    }

    method SetStrokeLineJoin(join: LineJoin)
      modifies this
      ensures Attrs() == old(Attrs()).(lineJoin := Some(join))
    {
      strokeLineJoin := Some(join);
    }
  }

  // --------------------------------------------------------------- objects

  /** A shape as the document keeps it: the copy made by
      `ObjectContainer::Add`. */
  datatype Object =
    | CircleTag(center: Point, radius: real, attrs: PathAttrs)
    | PolylineTag(points: seq<Point>, attrs: PathAttrs)
    | TextTag(pos: Point, offset: Point, size: uint32, fontFamily: string, fontWeight: string,
              data: string, attrs: PathAttrs)

  /** `svg::Circle`: centre at the origin and radius 1 until set. */
  class Circle {
    var center: Point
    var radius: real
    const props: PathProps

    function Object(): Object
      reads this, props
    {
      CircleTag(center, radius, props.Attrs())
    }

    constructor()
      ensures fresh(props)
      ensures Object() == CircleTag(Origin, 1.0, NoAttrs)
    {
      center := Origin;
      radius := 1.0;
      props := new PathProps();
    }

    method SetCenter(p: Point)
      modifies this
      ensures center == p && radius == old(radius)
    {
      center := p;
    }

    method SetRadius(r: real)
      modifies this
      ensures radius == r && center == old(center)
    {
      radius := r;
    }
  }

  /** `svg::Polyline`: no points until some are added. */
  class Polyline {
    var points: seq<Point>
    const props: PathProps

    function Object(): Object
      reads this, props
    {
      PolylineTag(points, props.Attrs())
    }

    constructor()
      ensures fresh(props)
      ensures Object() == PolylineTag([], NoAttrs)
    {
      points := [];
      props := new PathProps();
    }

    method AddPoint(p: Point)
      modifies this
      ensures points == old(points) + [p]
    {
      points := points + [p];
    }
  }

  // ----------------------------------------------------------- text escaping

  /** The characters `SetData` replaces by an entity. */
  predicate IsMarkup(c: char) {
    c == '"' || c == '\'' || c == '<' || c == '>' || c == '&'
  }

  /** How `SetData` stores one character: one of the five predefined
      entities of section 4.6 of XML 1.0, or the character itself. */
  function XmlEscapeChar(c: char): (r: string)
    ensures |r| > 0
    ensures IsMarkup(c) <==> r[0] == '&'
    ensures !IsMarkup(c) ==> r == [c]
  {
    if c == '"' then "&quot;"
    else if c == '\'' then "&apos;"
    else if c == '<' then "&lt;"
    else if c == '>' then "&gt;"
    else if c == '&' then "&amp;"
    else [c]
  }

  /** The data `SetData` stores. */
  function XmlEscape(s: string): string {
    if s == [] then "" else XmlEscapeChar(s[0]) + XmlEscape(s[1..])
  }

  lemma {:induction false} XmlEscapeAppend(s: string, c: char)
    ensures XmlEscape(s + [c]) == XmlEscape(s) + XmlEscapeChar(c)
    decreases |s|
  {
    if s == [] {
      assert XmlEscape([c]) == XmlEscapeChar(c) + XmlEscape([]);
    } else {
      assert (s + [c])[1..] == s[1..] + [c];
      XmlEscapeAppend(s[1..], c);
    }
  }

  predicate StartsWith(s: string, prefix: string) {
    |prefix| <= |s| && s[..|prefix|] == prefix
  }

  /** What an XML reader makes of the stored data: each predefined entity
      becomes its character again. */
  function XmlUnescape(s: string): string
    decreases |s|
  {
    if s == [] then ""
    else if StartsWith(s, "&quot;") then "\"" + XmlUnescape(s[6..])
    else if StartsWith(s, "&apos;") then "'" + XmlUnescape(s[6..])
    else if StartsWith(s, "&lt;") then "<" + XmlUnescape(s[4..])
    else if StartsWith(s, "&gt;") then ">" + XmlUnescape(s[4..])
    else if StartsWith(s, "&amp;") then "&" + XmlUnescape(s[5..])
    else [s[0]] + XmlUnescape(s[1..])
  }

  /** Reading an entity, or a plain character, then the rest. */
  lemma XmlUnescapeStep(c: char, rest: string)
    ensures XmlUnescape(XmlEscapeChar(c) + rest) == [c] + XmlUnescape(rest)
  {
    var e := XmlEscapeChar(c);
    var s := e + rest;
    assert s[..|e|] == e && s[|e|..] == rest;
    if !IsMarkup(c) {
      assert s[0] == c && s[0] != '&';
      assert s != [];
      assert !StartsWith(s, "&quot;") && !StartsWith(s, "&apos;") && !StartsWith(s, "&lt;")
          && !StartsWith(s, "&gt;") && !StartsWith(s, "&amp;") by {
        assert forall p: string :: |p| > 0 && p[0] == '&' && StartsWith(s, p) ==> s[0] == '&';
      }
    } else if c == '\'' {
      assert !StartsWith(s, "&quot;") by { assert s[1] == 'a'; }
    } else if c == '<' {
      assert !StartsWith(s, "&quot;") by { assert s[1] == 'l'; }
      assert !StartsWith(s, "&apos;") by { assert s[1] == 'l'; }
    } else if c == '>' {
      assert !StartsWith(s, "&quot;") by { assert s[1] == 'g'; }
      assert !StartsWith(s, "&apos;") by { assert s[1] == 'g'; }
      assert !StartsWith(s, "&lt;") by { assert s[1] == 'g'; }
    } else if c == '&' {
      assert !StartsWith(s, "&quot;") by { assert s[1] == 'a' && s[2] == 'm'; }
      assert !StartsWith(s, "&apos;") by { assert s[1] == 'a' && s[2] == 'm'; }
      assert !StartsWith(s, "&lt;") by { assert s[1] == 'a'; }
      assert !StartsWith(s, "&gt;") by { assert s[1] == 'a'; }
    }
  }

  /** Escaping loses nothing: the reader gets the original text back. */
  lemma {:induction false} XmlRoundTrip(s: string)
    ensures XmlUnescape(XmlEscape(s)) == s
    decreases |s|
  {
    if s != [] {
      XmlRoundTrip(s[1..]);
      XmlUnescapeStep(s[0], XmlEscape(s[1..]));
      assert [s[0]] + s[1..] == s;
    }
  }

  /** The stored data holds no quote, apostrophe or angle bracket. (That
      each `&` it holds reads back as the character escaped is
      `XmlRoundTrip`.) */
  lemma {:induction false} XmlEscapeHasNoMarkup(s: string)
    ensures forall k :: 0 <= k < |XmlEscape(s)| ==> XmlEscape(s)[k] != '"' && XmlEscape(s)[k] != '\''
                                                     && XmlEscape(s)[k] != '<' && XmlEscape(s)[k] != '>'
    decreases |s|
  {
    if s != [] {
      XmlEscapeHasNoMarkup(s[1..]);
      var e := XmlEscapeChar(s[0]);
      var rest := XmlEscape(s[1..]);
      forall k | 0 <= k < |e + rest|
        ensures (e + rest)[k] != '"' && (e + rest)[k] != '\'' && (e + rest)[k] != '<' && (e + rest)[k] != '>'
      {
        if k >= |e| {
          assert (e + rest)[k] == rest[k - |e|];
        }
      }
    }
  }

  /** Escaping is not idempotent: escaping the stored text again escapes its
      `&` a second time. */
  lemma XmlEscapeTwice()
    ensures XmlEscape("&") == "&amp;"
    ensures XmlEscape(XmlEscape("&")) == "&amp;amp;"
  {
    assert XmlEscape("&") == XmlEscapeChar('&') + XmlEscape("");
    assert "&amp;"[1..] == "amp;";
    assert XmlEscape("amp;") == "amp;" by {
      assert "amp;"[1..] == "mp;" && "mp;"[1..] == "p;" && "p;"[1..] == ";" && ";"[1..] == "";
    }
    assert XmlEscape("&amp;") == XmlEscapeChar('&') + XmlEscape("amp;");
  }

  /** `svg::Text`: position and offset at the origin, font size 1, no font
      family, weight or data until set. */
  class Text {
    var pos: Point
    var offset: Point
    var size: uint32
    var fontFamily: string
    var fontWeight: string
    var data: string
    const props: PathProps

    function Object(): Object
      reads this, props
    {
      TextTag(pos, offset, size, fontFamily, fontWeight, data, props.Attrs())
    }

    constructor()
      ensures fresh(props)
      ensures Object() == TextTag(Origin, Origin, 1, "", "", "", NoAttrs)
    {
      pos := Origin;
      offset := Origin;
      size := 1;
      fontFamily := "";
      fontWeight := "";
      data := "";
      props := new PathProps();
    }

    /** `Text{ base_text }`: a copy with its own attributes. */
    method Copy() returns (t: Text)
      ensures fresh(t) && fresh(t.props)
      ensures t.Object() == Object()
    {
      t := new Text();
      t.pos, t.offset, t.size := pos, offset, size;
      t.fontFamily, t.fontWeight, t.data := fontFamily, fontWeight, data;
      t.props.fillColor, t.props.strokeColor, t.props.strokeWidth := props.fillColor, props.strokeColor, props.strokeWidth;
      t.props.strokeLineCap, t.props.strokeLineJoin := props.strokeLineCap, props.strokeLineJoin;
    }

    method SetPosition(p: Point)
      modifies this
      ensures Object() == TextTag(p, old(offset), old(size), old(fontFamily), old(fontWeight), old(data), props.Attrs())
    {
      pos := p;
    }

    method SetOffset(p: Point)
      modifies this
      ensures Object() == TextTag(old(pos), p, old(size), old(fontFamily), old(fontWeight), old(data), props.Attrs())
    {
      offset := p;
    }

    method SetFontSize(s: uint32)
      modifies this
      ensures Object() == TextTag(old(pos), old(offset), s, old(fontFamily), old(fontWeight), old(data), props.Attrs())
    {
      size := s;
    }

    method SetFontFamily(family: string)
      modifies this
      ensures Object() == TextTag(old(pos), old(offset), old(size), family, old(fontWeight), old(data), props.Attrs())
    {
      fontFamily := family;
    }

    method SetFontWeight(weight: string)
      modifies this
      ensures Object() == TextTag(old(pos), old(offset), old(size), old(fontFamily), weight, old(data), props.Attrs())
    {
      fontWeight := weight;
    }

    /** Replaces the data by the escaped form of `s`, one character at a
        time. */
    method SetData(s: string)
      modifies this
      ensures Object() == TextTag(old(pos), old(offset), old(size), old(fontFamily), old(fontWeight), XmlEscape(s), props.Attrs())
    {
      data := "";
      var k := 0;
      while k < |s|
        invariant 0 <= k <= |s|
        invariant data == XmlEscape(s[..k])
        invariant pos == old(pos) && offset == old(offset) && size == old(size)
        invariant fontFamily == old(fontFamily) && fontWeight == old(fontWeight)
      {
        XmlEscapeAppend(s[..k], s[k]);
        assert s[..k + 1] == s[..k] + [s[k]];
        data := data + XmlEscapeChar(s[k]);
        k := k + 1;
      }
      assert s[..k] == s;
    }
  }

  // ------------------------------------------------------------- rendering

  /** `RenderContext`: the indentation step and the current indentation. A
      context made from a stream alone has both at 0. */
  datatype RenderContext = RenderContext(indentStep: int, indent: int) {
    /** One level deeper: same step, indentation increased by the step. */
    function Indented(): (r: RenderContext)
      ensures r.indentStep == indentStep && r.indent == indent + indentStep
    {
      RenderContext(indentStep, indent + indentStep)
    }

    /** The number of spaces `RenderIndent` writes: none for a negative
        indentation. */
    function IndentWidth(): nat {
      if indent > 0 then indent else 0
    }
  }

  /** `RenderContext::RenderIndent`: one space per loop step. */
  method RenderIndent(ctx: RenderContext) returns (out: string)
    ensures out == Spaces(ctx.IndentWidth())
    ensures |out| == ctx.IndentWidth() && forall k :: 0 <= k < |out| ==> out[k] == ' '
  {
    out := "";
    var i := 0;
    while i < ctx.indent
      invariant 0 <= i == |out| <= ctx.IndentWidth()
      invariant out == Spaces(i)
      decreases ctx.indent - i
    {
      out := out + " ";
      i := i + 1;
    }
  }

  /** `x,y` of one polyline vertex. */
  function PointText(p: Point, fmt: Fmt): string {
    fmt(p.x) + "," + fmt(p.y)
  }

  function PointTexts(points: seq<Point>, fmt: Fmt): (r: seq<string>)
    ensures |r| == |points|
    ensures forall k :: 0 <= k < |points| ==> r[k] == PointText(points[k], fmt)
  {
    seq(|points|, k requires 0 <= k < |points| => PointText(points[k], fmt))
  }

  /** The `points` value: the vertices with one space between consecutive
      ones and none at either end. */
  function PointsText(points: seq<Point>, fmt: Fmt): string {
    Join(PointTexts(points, fmt), " ")
  }

  /** An empty polyline has an empty `points` value; each further vertex
      adds one space and its `x,y`. */
  lemma PointsTextGrows(points: seq<Point>, p: Point, fmt: Fmt)
    ensures PointsText([], fmt) == ""
    ensures PointsText([p], fmt) == PointText(p, fmt)
    ensures points != [] ==> PointsText(points + [p], fmt) == PointsText(points, fmt) + " " + PointText(p, fmt)
  {
    assert PointTexts(points + [p], fmt) == PointTexts(points, fmt) + [PointText(p, fmt)];
    JoinAppend(PointTexts(points, fmt), " ", PointText(p, fmt));
  }

  /** The vertex loop of `Polyline::RenderObject`. */
  method RenderPoints(points: seq<Point>, fmt: Fmt) returns (out: string)
    ensures out == PointsText(points, fmt)
  {
    ghost var texts := PointTexts(points, fmt);
    out := "";
    var isFirst := true;
    var k := 0;
    while k < |points|
      invariant 0 <= k <= |points|
      invariant isFirst <==> k == 0
      invariant out == Join(texts[..k], " ")
    {
      assert texts[..k + 1] == texts[..k] + [texts[k]];
      JoinAppend(texts[..k], " ", texts[k]);
      if !isFirst {
        out := out + " " + (fmt(points[k].x) + "," + fmt(points[k].y));
      } else {
        out := out + (fmt(points[k].x) + "," + fmt(points[k].y));
        isFirst := false;
      }
      k := k + 1;
    }
    assert texts[..k] == texts;
  }

  /** The text of a font attribute, only when the value is not empty. */
  function FontAttr(name: string, value: string): (r: string)
    ensures value == "" <==> r == ""
  {
    OptionalAttr(name, if value != "" then Some(value) else None)
  }

  /** `RenderObject` of each shape. */
  function ObjectText(obj: Object, fmt: Fmt): string {
    match obj
    case CircleTag(center, radius, attrs) =>
      "<circle cx=\"" + fmt(center.x) + "\" cy=\"" + fmt(center.y) + "\" " + "r=\"" + fmt(radius) + "\""
        + AttrsText(attrs, fmt) + "/>"
    case PolylineTag(points, attrs) =>
      "<polyline points=\"" + PointsText(points, fmt) + "\"" + AttrsText(attrs, fmt) + "/>"
    case TextTag(pos, offset, size, family, weight, data, attrs) =>
      "<text x=\"" + fmt(pos.x) + "\" y=\"" + fmt(pos.y) + "\""
        + " dx=\"" + fmt(offset.x) + "\" dy=\"" + fmt(offset.y) + "\""
        + " font-size=\"" + NatToString(size as nat) + "\""
        + FontAttr("font-family", family) + FontAttr("font-weight", weight)
        + AttrsText(attrs, fmt) + ">" + data + "</text>"
  }

  /** `Circle`, `Polyline` and `Text::RenderObject`. A circle and a text
      are written in one expression; the vertices of a polyline are written
      by a loop. */
  method RenderObject(obj: Object, fmt: Fmt) returns (out: string)
    ensures out == ObjectText(obj, fmt)
  {
    match obj
    case PolylineTag(points, attrs) =>
      var p := RenderPoints(points, fmt);
      out := "<polyline points=\"" + p + "\"" + AttrsText(attrs, fmt) + "/>";
    case _ =>
      out := ObjectText(obj, fmt);
  }

  /** `Object::Render`: the indentation, the element, a line break. */
  function ObjectLine(ctx: RenderContext, obj: Object, fmt: Fmt): string {
    Spaces(ctx.IndentWidth()) + ObjectText(obj, fmt) + "\n"
  }

  method RenderLine(ctx: RenderContext, obj: Object, fmt: Fmt) returns (out: string)
    ensures out == ObjectLine(ctx, obj, fmt)
  {
    out := RenderIndent(ctx);
    var element := RenderObject(obj, fmt);
    out := out + element + "\n";
  }

  const XmlDeclaration := "<?xml version=\"1.0\" encoding=\"UTF-8\" ?>"
  const SvgOpen := "<svg xmlns=\"http://www.w3.org/2000/svg\" version=\"1.1\">"
  const SvgClose := "</svg>"

  /** The context every object of a document is rendered in. */
  const ObjectContext := RenderContext(2, 2)

  function ObjectLines(objects: seq<Object>, fmt: Fmt): (r: seq<string>)
    ensures |r| == |objects|
    ensures forall k :: 0 <= k < |objects| ==> r[k] == ObjectLine(ObjectContext, objects[k], fmt)
  {
    seq(|objects|, k requires 0 <= k < |objects| => ObjectLine(ObjectContext, objects[k], fmt))
  }

  /** Everything `Document::Render` writes before `</svg>`: the XML
      declaration and the `<svg>` line, then each object on its own line in
      insertion order. */
  function DocumentHead(objects: seq<Object>, fmt: Fmt): string {
    XmlDeclaration + "\n" + SvgOpen + "\n" + Concat(ObjectLines(objects, fmt))
  }

  /** `Document::Render`: no line break after `</svg>`. */
  function DocumentText(objects: seq<Object>, fmt: Fmt): string {
    DocumentHead(objects, fmt) + SvgClose
  }

  /** An empty document is the two header lines; one more object adds
      exactly its line. */
  lemma DocumentHeadGrows(objects: seq<Object>, obj: Object, fmt: Fmt)
    ensures DocumentHead([], fmt) == XmlDeclaration + "\n" + SvgOpen + "\n"
    ensures DocumentHead(objects + [obj], fmt) == DocumentHead(objects, fmt) + ObjectLine(ObjectContext, obj, fmt)
  {
    var head := XmlDeclaration + "\n" + SvgOpen + "\n";
    assert ObjectLines([], fmt) == [];
    var lines := ObjectLines(objects + [obj], fmt);
    assert lines[..|objects|] == ObjectLines(objects, fmt);
    assert lines[..|objects| + 1] == lines;
    ConcatPrefix(head, lines, |objects|);
  }

  /** Every object line is indented by two spaces and ends the line. */
  lemma ObjectLineShape(obj: Object, fmt: Fmt)
    ensures var line := ObjectLine(ObjectContext, obj, fmt);
            |line| > 3 && line[0] == ' ' && line[1] == ' ' && line[2] == '<' && line[|line| - 1] == '\n'
  {
    var text := ObjectText(obj, fmt);
    ObjectTextIsTag(obj, fmt);
    var line := Spaces(2) + text + "\n";
    assert line[2] == text[0];
  }

  lemma ObjectTextIsTag(obj: Object, fmt: Fmt)
    ensures |ObjectText(obj, fmt)| > 0 && ObjectText(obj, fmt)[0] == '<'
  {
  }

  /** `svg::Document`: the objects in the order they were added. */
  class Document {
    var objects: seq<Object>

    constructor()
      ensures objects == []
    {
      objects := [];
    }

    /** `ObjectContainer::Add` and `Document::AddPtr`: a copy of the object
        goes to the end. */
    method Add(obj: Object)
      modifies this
      ensures objects == old(objects) + [obj]
    {
      objects := objects + [obj];
    }

    method Render(fmt: Fmt) returns (out: string)
      ensures out == DocumentText(objects, fmt)
    {
      ghost var lines := ObjectLines(objects, fmt);
      ghost var head := XmlDeclaration + "\n" + SvgOpen + "\n";
      out := XmlDeclaration + "\n";
      out := out + SvgOpen + "\n";
      var k := 0;
      while k < |objects|
        invariant 0 <= k <= |objects|
        invariant out == head + Concat(lines[..k])
      {
        var line := RenderLine(ObjectContext, objects[k], fmt);
        ConcatPrefix(head, lines, k);
        out := out + line;
        k := k + 1;
      }
      assert lines[..k] == lines;
      out := out + SvgClose;
    }
  }
}
