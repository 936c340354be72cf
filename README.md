# Transport catalogue, modelled in Dafny

This project models the core of a C++ transport catalogue. The program reads
one JSON document. Its `base_requests` describe stops, with coordinates and
road distances, and buses, with their stop lists. Its optional
`render_settings` describe a map. Its `stat_requests` ask about a stop, a bus
or the map. The program answers with a JSON array of replies; the map reply
holds an SVG picture of every bus route.

The model follows the program's four layers, one Dafny module per source
concern:

- `Json`, `JsonLoad`, `JsonLoadProperties`, `JsonPrint`: the value tree, the
  hand-written recursive-descent reader with its lenient dialect, and the
  pretty-printer. Each `Load*` reader is a method over the input text and a
  cursor, proved equal to a grammar function (`NodeAt`, `StringAt`, ...).
  The printer is a method proved equal to `Printed`, and every printed tree
  without doubles or keys that need escaping reads back as itself.
- `Svg`: colours, optional path attributes, the `circle`, `polyline` and
  `text` shapes as classes with setters, XML escaping, and the document that
  renders its objects in insertion order.
- `Catalogue`: the `TransportCatalogue` class. Its arenas are sequences and
  its pointers are indices into them. It has name indices, the stop→buses
  sets, the directed distance table and the route-record cache.
- `MapRenderer`, `RequestHandler`, `Ingest`, `Replies`, `JsonReader`: the
  sphere projector and the drawables, the map picture, the two-phase ingest of
  the base requests, the reply of each stat request, and the `Reader` class
  that drives them.

Some things are parameters rather than code:

- floating-point text conversion: `Stod` reads a number and `Fmt` writes one;
- the great-circle distance (`Geo`);
- the curvature division (`Divide`).

Integers are exact. A C++ `int` is the `int32` newtype, and `uint8_t` and
`uint32_t` conversions wrap explicitly. Stream output becomes returned
strings. An exception becomes the `Failure` of a `Result`.

## Model

All source paths are under `transport-catalogue/`.

| member | source | states |
|---|---|---|
| Json.AsArray | transport-catalogue/json.cpp:291-301 | succeeds exactly on an array and returns its elements; any other node is a wrong-type error |
| Json.AsMap | transport-catalogue/json.cpp:303-313 | succeeds exactly on a map and returns its entries; otherwise a wrong-type error |
| Json.AsBool | transport-catalogue/json.cpp:315-325 | succeeds exactly on a bool; otherwise a wrong-type error |
| Json.AsInt | transport-catalogue/json.cpp:327-337 | succeeds exactly on an int; otherwise a wrong-type error |
| Json.AsDouble | transport-catalogue/json.cpp:339-353 | succeeds on an int, widened, or on a double (exactly when `IsDouble`); otherwise a wrong-type error |
| Json.AsString | transport-catalogue/json.cpp:355-365 | succeeds exactly on a string; otherwise a wrong-type error |
| Json.At | transport-catalogue/json_reader.cpp:20 | `Dict::at`: succeeds exactly when the key is present and returns its value; otherwise an out-of-range error naming the key |
| Json.IntNeverEqualsDouble | transport-catalogue/json.cpp:281-284 | node equality is variant equality: an int node never equals a double node, although `AsDouble` widens the int |
| Json.IsNull | transport-catalogue/json.cpp:367-370 | true exactly for the null alternative (with the other tests, see `Json.TypeTestsPartition`) |
| Json.IsArray | transport-catalogue/json.cpp:372-375 | true exactly for an array |
| Json.IsMap | transport-catalogue/json.cpp:377-380 | true exactly for a dictionary |
| Json.IsBool | transport-catalogue/json.cpp:382-385 | true exactly for a boolean |
| Json.IsInt | transport-catalogue/json.cpp:387-390 | true exactly for an int |
| Json.IsDouble | transport-catalogue/json.cpp:392-395 | true for a double and also for an int |
| Json.IsPureDouble | transport-catalogue/json.cpp:397-400 | true exactly for a double, never for an int |
| Json.IsString | transport-catalogue/json.cpp:402-409 | true exactly for a string |
| Json.TypeTestsPartition | transport-catalogue/json.cpp:367-409 | every node passes exactly one of the seven alternative tests; `IsDouble` holds exactly when `IsInt` or `IsPureDouble` does |
| JsonLoad.RunEnd | transport-catalogue/json.cpp:38-41 | a character run stops at the first character outside the class, or at the end of input |
| JsonLoad.RunEndSpans | transport-catalogue/json.cpp:38-41 | every character before the end of the run is in the class |
| JsonLoad.SkipSpaces | transport-catalogue/json.cpp:249 | `>>` skips exactly the leading whitespace and stops at a non-space or at the end |
| JsonLoad.Consume | transport-catalogue/json.cpp:206 | `input >> c` skips whitespace and then consumes one character, unchecked |
| JsonLoad.DigitsAt | transport-catalogue/json.cpp:32-42 | `read_digits` succeeds exactly when a digit comes next and then consumes the whole digit run; otherwise "A digit is expected" |
| JsonLoad.IntPartAt | transport-catalogue/json.cpp:49-57 | the integer part consumes at least one character, or fails with "A digit is expected" |
| JsonLoad.FractionAt | transport-catalogue/json.cpp:61-66 | a `.` is never read alone: at least one digit after it is consumed |
| JsonLoad.ExponentAt | transport-catalogue/json.cpp:69-78 | an `e`/`E` is never read alone: at least one more character of the exponent is consumed |
| JsonLoad.ScanNumber | transport-catalogue/json.cpp:44-78 | a number lexeme is non-empty; the only lexing error is "A digit is expected" |
| JsonLoad.IntOrZero | transport-catalogue/json.cpp:85-93 | `stoi` of an int lexeme gives its value when it fits in an `int`, and 0 otherwise (the default `int` of `number`) |
| JsonLoad.NumberNode | transport-catalogue/json.cpp:80-117 | an int lexeme gives an int node and any other lexeme a double node; only `stod` can fail |
| JsonLoad.NumberAt | transport-catalogue/json.cpp:14-118 | a number that is read advances the cursor |
| JsonLoad.Unescaped | transport-catalogue/json.cpp:159-178 | the characters after `\` that decode (`n r t " \`) give one character each; every other escape gives nothing |
| JsonLoad.StringAt | transport-catalogue/json.cpp:142-186 | a string that is read ends just after a closing `"`; every failure is "Failed to read string from stream" |
| JsonLoad.LiteralAt | transport-catalogue/json.cpp:213-244 | succeeds exactly when the maximal letter run is `true`, `false` or `null`, giving that value; otherwise "Failed to read value from stream" |
| JsonLoad.NodeAt | transport-catalogue/json.cpp:246-277 | a value read starts at a character that can start a value (`[ { " t f n`, a digit or `-`) after whitespace |
| JsonLoad.ArrayAt | transport-catalogue/json.cpp:120-140 | an array that is read is an array node and the cursor stays in the input |
| JsonLoad.ItemsAt | transport-catalogue/json.cpp:130-137 | the cursor after the elements stays in the input |
| JsonLoad.EntriesAt | transport-catalogue/json.cpp:198-208 | the cursor after the entries stays in the input |
| JsonLoad.DictAt | transport-catalogue/json.cpp:188-211 | an object that is read is a map node and the cursor stays in the input |
| JsonLoad.MergeEntriesStep | transport-catalogue/json.cpp:207 | `map::insert` keeps the earlier value: a later entry is added only when its key is new |
| JsonLoad.ReadDigits | transport-catalogue/json.cpp:32-42 | the digit loop returns exactly `DigitsAt` |
| JsonLoad.ReadIntegerPart | transport-catalogue/json.cpp:49-57 | returns exactly `IntPartAt` |
| JsonLoad.ReadExponent | transport-catalogue/json.cpp:69-78 | returns exactly `ExponentAt` |
| JsonLoad.ReadNumberLexeme | transport-catalogue/json.cpp:44-78 | returns exactly `ScanNumber` |
| JsonLoad.LoadNumber | transport-catalogue/json.cpp:14-118 | `LoadNumber` returns exactly `NumberAt` |
| JsonLoad.StringAtStep | transport-catalogue/json.cpp:146-183 | one character of the string loop: a plain character is kept; an escape decodes its next character; `\` at the end of input fails |
| JsonLoad.LoadString | transport-catalogue/json.cpp:142-186 | the character loop of `LoadString` returns exactly `StringAt` |
| JsonLoad.LoadBoolNull | transport-catalogue/json.cpp:213-244 | the letter loop returns exactly `LiteralAt` |
| JsonLoad.LoadNode | transport-catalogue/json.cpp:246-277 | `LoadNode` returns exactly `NodeAt` |
| JsonLoad.LoadArray | transport-catalogue/json.cpp:120-140 | `LoadArray` returns exactly `ArrayAt` |
| JsonLoad.LoadItems | transport-catalogue/json.cpp:130-137 | the element loop returns exactly `ItemsAt` |
| JsonLoad.ItemsAtStep | transport-catalogue/json.cpp:130-137 | one step of the element grammar: `]` closes the array; otherwise an optional `,` then an element, whose error is the array's |
| JsonLoad.ItemsLoopStep | transport-catalogue/json.cpp:130-137 | one pass of the element loop keeps the elements read in front of the rest |
| JsonLoad.ItemsLoopEnd | transport-catalogue/json.cpp:130 | at `]` or at the end of input, the elements read are the whole array |
| JsonLoad.EntriesAtStep | transport-catalogue/json.cpp:198-207 | one step of the entry grammar: the key's error is the object's; otherwise the value follows |
| JsonLoad.ValueThenEntriesCases | transport-catalogue/json.cpp:206-207 | the value after a key: its error is the object's; otherwise it is inserted in front of the rest |
| JsonLoad.EntriesAtEnd | transport-catalogue/json.cpp:198 | at `}` or at the end of input, an object has no more entries |
| JsonLoad.LoadDict | transport-catalogue/json.cpp:188-211 | `LoadDict` returns exactly `DictAt` |
| JsonLoad.LoadEntries | transport-catalogue/json.cpp:198-208 | the entry loop returns exactly `EntriesAt` |
| JsonLoad.EntriesKeyStep | transport-catalogue/json.cpp:200-205 | the key of one pass of the entry loop: its error is the object's, or the entries go on with its value |
| JsonLoad.EntriesValueStep | transport-catalogue/json.cpp:206-207 | the value of one pass: its error is the object's, or the entry is inserted unless its key was read before |
| JsonLoad.EntriesLoopEnd | transport-catalogue/json.cpp:198 | at `}` or at the end of input, the entries read are the whole object |
| JsonLoad.Load | transport-catalogue/json.cpp:525-528 | `json::Load` returns exactly the root value of `Parse` |
| JsonLoadProperties.RawLineBreakFails | transport-catalogue/json.cpp:148-151 | a raw line feed or carriage return inside a string is an error |
| JsonLoadProperties.UnterminatedStringFails | transport-catalogue/json.cpp:180-183 | a string with no closing quote before the end of input is an error |
| JsonLoadProperties.SolidusAndUnicodeEscapesDropped | transport-catalogue/json.cpp:176-177 | `\/` and `\u` are dropped, unlike section 7 of RFC 8259 |
| JsonLoadProperties.RunEndAfter | transport-catalogue/json.cpp:38-41 | a run of exactly n class characters followed by a non-member ends after n characters |
| JsonLoadProperties.StoiReadsDecimal | transport-catalogue/json.cpp:87 | `stoi` reads back the decimal text of any integer |
| JsonLoadProperties.DigitRunIsIntegerPart | transport-catalogue/json.cpp:49-57 | a digit run with no leading zero, or a lone `0`, is exactly the integer part |
| JsonLoadProperties.DecimalIntegerPart | transport-catalogue/json.cpp:44-78 | the decimal text of an integer lexes as a sign and an integer part, with no fraction and no exponent |
| JsonLoadProperties.DecimalScan | transport-catalogue/json.cpp:44-78 | the decimal text of an integer is one int lexeme whose `stoi` is that integer |
| JsonLoadProperties.DecimalAt | transport-catalogue/json.cpp:80-108 | the decimal text of an `int` reads back as that int node |
| JsonLoadProperties.IntRoundTrip | transport-catalogue/json.cpp:486-489 | an `int` printed by the printer reads back as the same int node |
| JsonLoadProperties.OverflowReadsZero | transport-catalogue/json.cpp:85-93 | an integer outside the `int` range reads as int 0, not as a double |
| JsonLoadProperties.LeadingZeroEndsIntegerPart | transport-catalogue/json.cpp:49-53 | after a leading `0` further digits are left unread: `01` reads as 0 |
| JsonLoadProperties.DigitExpectedAfterPointOrExponent | transport-catalogue/json.cpp:61-78 | a `.`, or an `e`/`E` with its sign, followed by a non-digit fails with "A digit is expected" |
| JsonLoadProperties.IntLexemeIffNoMark | transport-catalogue/json.cpp:59-78 | a lexeme is an int exactly when it contains no `.`, `e` or `E` |
| JsonLoadProperties.SingleDigitNumber | transport-catalogue/json.cpp:14-118 | a lone digit reads as its int value |
| JsonLoadProperties.SingleDigitNode | transport-catalogue/json.cpp:268-272 | a lone digit dispatches to a number and reads as its int value |
| JsonLoadProperties.NodeAtNumber | transport-catalogue/json.cpp:268-272 | a digit or `-` dispatches to the number reader |
| JsonLoadProperties.NodeAtDict | transport-catalogue/json.cpp:255-258 | `{` dispatches to the object reader just after it |
| JsonLoadProperties.SkipSpacesIdempotent | transport-catalogue/json.cpp:249 | skipping whitespace twice is skipping it once |
| JsonLoadProperties.CommaIsSkipped | transport-catalogue/json.cpp:130-135 | a comma between elements is consumed and changes nothing |
| JsonLoadProperties.EndOfInputClosesArray | transport-catalogue/json.cpp:130 | worked example of the end-of-input rule: `[1` with no `]` reads as the array `[1]` |
| JsonLoadProperties.FirstEntryWins | transport-catalogue/json.cpp:207 | an object that is read holds its first key with the first value given for it |
| JsonLoadProperties.EqualsForColonEntries | transport-catalogue/json.cpp:206 | the character after a key is not checked: `{"a"=1}` has the entry `a: 1` |
| JsonLoadProperties.ColonIsNotChecked | transport-catalogue/json.cpp:206 | the whole document `{"a"=1}` reads as the map `{a: 1}` |
| JsonLoadProperties.OneCharString | transport-catalogue/json.cpp:145-185 | a plain character followed by `"` reads as a one-character string |
| JsonPrint.EscapeChar | transport-catalogue/json.cpp:501-520 | exactly the characters `\n \r \t \ "` are written as a backslash and a character that decodes back to them; every other character is written as itself |
| JsonPrint.EscapeAppend | transport-catalogue/json.cpp:499-521 | escaping a string is escaping each character in order |
| JsonPrint.EscapeCharStep | transport-catalogue/json.cpp:156-178 | the reader decodes one escaped character back to that character |
| JsonPrint.EscapeRoundTripStep | transport-catalogue/json.cpp:146-183 | decoding the first escaped character, then the rest, gives back the whole string |
| JsonPrint.ClosingQuote | transport-catalogue/json.cpp:146 | a `"` ends the string with nothing read |
| JsonPrint.EscapeRoundTrip | transport-catalogue/json.cpp:496-523 | for every string, the reader decodes the escaped body followed by `"` back to that string, ending after the quote |
| JsonPrint.StringValueRoundTrip | transport-catalogue/json.cpp:496-523 | a printed string value reads back as the same string node, whatever follows it |
| JsonPrint.LiteralNodeAt | transport-catalogue/json.cpp:213-240 | `null`, `true` or `false` written at a position and followed by a delimiter reads back as that literal, ending after the word |
| JsonPrint.IntNodeAt | transport-catalogue/json.cpp:486-489 | a printed `int` written at a position and followed by a delimiter reads back as the same int node, ending after its digits |
| JsonPrint.StringNodeAt | transport-catalogue/json.cpp:496-523 | a printed string written at a position reads back as the same string node, ending after the closing quote, whatever follows |
| JsonPrint.ArrayLines | transport-catalogue/json.cpp:445-457 | an array prints one line per element |
| JsonPrint.DictLines | transport-catalogue/json.cpp:465-477 | a map prints one line per entry |
| JsonPrint.DictLineAt | transport-catalogue/json.cpp:465-477 | the k-th line of a map is the k-th key in ascending order, then its value printed 4 spaces deeper |
| JsonPrint.SeparatorForms | transport-catalogue/json.cpp:447-455 | the first element is preceded by a line break and the indent; every later one also by a `,` |
| JsonPrint.KeyPrefixForms | transport-catalogue/json.cpp:467-475 | the first entry is preceded by a line break, the indent and `"key": `; every later one also by a `,` |
| JsonPrint.ArrayPrinted | transport-catalogue/json.cpp:441-459 | an array prints as `[`, its element lines, then a line break, the outer indent and `]` |
| JsonPrint.DictPrinted | transport-catalogue/json.cpp:461-479 | a map prints as the outer indent, `{`, its entry lines, then a line break, the outer indent and `}` |
| JsonPrint.PrintString | transport-catalogue/json.cpp:496-523 | the string printer writes `"`, the escaped string, `"` |
| JsonPrint.PrintNode | transport-catalogue/json.cpp:436-523 | the visitor writes exactly `Printed` for every node, and for a tree with no double and only plain keys that text parses back as the tree itself, arrays and maps included |
| JsonPrint.ArrayLineWritten | transport-catalogue/json.cpp:447-456 | the separator and element written for an array element are that element's line |
| JsonPrint.PrintElement | transport-catalogue/json.cpp:445-457 | one pass of the array loop writes exactly the k-th element line |
| JsonPrint.PrintArray | transport-catalogue/json.cpp:441-459 | the `is_first` loop writes exactly the array's `Printed` text |
| JsonPrint.DictLineStep | transport-catalogue/json.cpp:465-477 | the k-th key is a key of the map and its line is its prefix and its printed value |
| JsonPrint.SortedKeyIn | transport-catalogue/json.h:13 | every key in the sorted key sequence is a key of the map |
| JsonPrint.DictLineWritten | transport-catalogue/json.cpp:467-476 | the prefix and value written for an entry are that entry's line |
| JsonPrint.PrintEntry | transport-catalogue/json.cpp:465-477 | one pass of the map loop writes exactly the k-th entry line |
| JsonPrint.PrintDict | transport-catalogue/json.cpp:461-479 | the `is_first` loop writes exactly the map's `Printed` text |
| JsonPrint.ItemsFrom | transport-catalogue/json.cpp:130-137 | the array loop reads the printed element lines from the k-th on, then the closing line, as exactly the elements from the k-th on, ending after the `]` |
| JsonPrint.EntriesFrom | transport-catalogue/json.cpp:198-208 | the object loop reads the printed entry lines from the k-th on, then the closing line, as exactly the map of those keys to those values, ending after the `}` |
| JsonPrint.ArrayRoundTrip | transport-catalogue/json.cpp:441-459 | a printed array of representable elements, at any indentation, reads back as the same array, ending after its `]` |
| JsonPrint.DictRoundTrip | transport-catalogue/json.cpp:461-479 | a printed map with plain keys and representable values, at any indentation, reads back as the same map, ending after its `}` |
| JsonPrint.NodeRoundTrip | transport-catalogue/json.cpp:246-272 | every representable tree printed at a position and followed by a delimiter reads back as itself, ending exactly after its text |
| JsonPrint.PrintedReadsBack | transport-catalogue/json.cpp:436-523 | a representable tree's printed text reads back as the tree wherever it is written before a delimiter |
| JsonPrint.PrintedRoundTrip | transport-catalogue/json.cpp:525-534 | `Load` after `Print`: a representable tree printed at any indentation parses as itself, alone or followed by whitespace, a comma or a closing bracket |
| JsonPrint.ReadsBackWhole | transport-catalogue/json.cpp:525-534 | a representable tree's printed text parses as itself whatever text-to-double conversion the reader uses |
| JsonPrint.Print | transport-catalogue/json.cpp:530-534 | `json::Print` writes exactly `Printed` at the given indent, and a representable root parses back from that text as itself |
| Strings.Spaces | transport-catalogue/json.cpp:449 | `string(n, ' ')` is n spaces |
| Strings.JoinAppend | transport-catalogue/json_reader.cpp:103-110 | joining one more part adds the separator and the part, except after no part |
| Strings.ConcatAppend | transport-catalogue/json.cpp:445-457 | writing one more piece appends it |
| Strings.ConcatPrefix | transport-catalogue/json.cpp:445-457 | writing the k-th piece after the first k appends it |
| Strings.ConcatSplit | transport-catalogue/svg.cpp:221-225 | writing two runs of pieces is writing one run after the other |
| Strings.NatToString | transport-catalogue/svg.cpp:19-20 | `to_string` of a natural number: a digit string with no leading zero whose value is the number |
| Strings.IntToString | transport-catalogue/json.cpp:486-489 | `out << int`: a `-` exactly for a negative number, then the digits of its magnitude |
| Strings.LessIrreflexive | transport-catalogue/json.h:13 | the string order of `std::map` keys is irreflexive |
| Strings.LessTransitive | transport-catalogue/json.h:13 | the string order is transitive |
| Strings.LessTotal | transport-catalogue/json.h:13 | any two different strings are ordered |
| Strings.LessAsymmetric | transport-catalogue/json.h:13 | the string order is asymmetric |
| Strings.LeastExists | transport-catalogue/transport_catalogue.h:17 | every non-empty set of strings has a least element |
| Strings.LeastUnique | transport-catalogue/transport_catalogue.h:17 | the least element is unique |
| Strings.SortedSeq | transport-catalogue/transport_catalogue.h:17 | the iteration order of a `std::set` or `std::map`: exactly the elements, each once, in strictly ascending order |
| Strings.SortedSeqEmpty | transport-catalogue/transport_catalogue.h:17 | an empty set iterates over nothing |
| Svg.NoneColorPrintsAsDefault | transport-catalogue/svg.h:50-51 | `NoneColor` is the colour named `none`, different from the default (empty) colour, though both print `none` |
| Svg.RgbTextLeadsWithRed | transport-catalogue/svg.cpp:17-21 | `rgb(` is followed by the decimal red component, whose digits read back as the component, then `,` |
| Svg.CapAndJoinTextsDistinct | transport-catalogue/svg.cpp:29-71 | the line-cap and line-join names are one-to-one |
| Svg.ColorText | transport-catalogue/svg.cpp:7-27 | the text of a colour: `none` for the empty colour, the name of a named colour, `rgb(r,g,b)` and `rgba(r,g,b,o)` with decimal components (partners `Svg.NoneColorPrintsAsDefault`, `Svg.RgbTextLeadsWithRed`) |
| Svg.CapText | transport-catalogue/svg.cpp:29-46 | `butt`, `round` or `square`, one name per cap (one-to-one by `Svg.CapAndJoinTextsDistinct`) |
| Svg.JoinText | transport-catalogue/svg.cpp:48-71 | one name per join (one-to-one by `Svg.CapAndJoinTextsDistinct`) |
| Svg.OptionalAttr | transport-catalogue/svg.h:306-329 | an unset attribute writes nothing; a set one writes ` name="value"` |
| Svg.AttrsTextOmitsUnset | transport-catalogue/svg.h:301-330 | with no attribute set nothing is written; with only a fill, exactly ` fill="..."` |
| Svg.PathProps.constructor | transport-catalogue/svg.h:171-175 | a new shape has no path attribute set |
| Svg.PathProps.SetFillColor | transport-catalogue/svg.h:266-271 | sets the fill and nothing else |
| Svg.PathProps.SetStrokeColor | transport-catalogue/svg.h:273-278 | sets the stroke and nothing else |
| Svg.PathProps.SetStrokeWidth | transport-catalogue/svg.h:280-285 | sets the stroke width and nothing else |
| Svg.PathProps.SetStrokeLineCap | transport-catalogue/svg.h:287-292 | sets the line cap and nothing else |
| Svg.PathProps.SetStrokeLineJoin | transport-catalogue/svg.h:294-299 | sets the line join and nothing else |
| Svg.Circle.constructor | transport-catalogue/svg.h:192-193 | a new circle is at the origin with radius 1 |
| Svg.Circle.SetCenter | transport-catalogue/svg.cpp:84-88 | sets the centre and keeps the radius |
| Svg.Circle.SetRadius | transport-catalogue/svg.cpp:90-94 | sets the radius and keeps the centre |
| Svg.Polyline.constructor | transport-catalogue/svg.h:209 | a new polyline has no point |
| Svg.Polyline.AddPoint | transport-catalogue/svg.cpp:105-109 | appends the point |
| Svg.XmlEscapeChar | transport-catalogue/svg.cpp:168-188 | exactly the five markup characters become an entity starting with `&`; every other character is kept |
| Svg.XmlEscapeAppend | transport-catalogue/svg.cpp:166-189 | escaping is character by character, in order |
| Svg.XmlUnescapeStep | transport-catalogue/svg.cpp:168-188 | an escaped character, then anything, unescapes to the character and then the rest |
| Svg.XmlRoundTrip | transport-catalogue/svg.cpp:163-191 | replacing the five entities of section 4.6 of XML 1.0 undoes `SetData`'s escaping for every text |
| Svg.XmlEscapeHasNoMarkup | transport-catalogue/svg.cpp:163-191 | escaped text has no `" ' < >` |
| Svg.XmlEscapeTwice | transport-catalogue/svg.cpp:182-183 | escaping is not idempotent: `&` becomes `&amp;` and then `&amp;amp;` |
| Svg.Text.constructor | transport-catalogue/svg.h:240-245 | a new text is at the origin with no offset, font size 1, and no family, weight, data or attribute |
| Svg.Text.Copy | transport-catalogue/map_renderer.cpp:55 | `Text{ base_text }` is a fresh text with the same content |
| Svg.Text.SetPosition | transport-catalogue/svg.cpp:133-137 | sets the position and nothing else |
| Svg.Text.SetOffset | transport-catalogue/svg.cpp:139-143 | sets the offset and nothing else |
| Svg.Text.SetFontSize | transport-catalogue/svg.cpp:145-149 | sets the font size and nothing else |
| Svg.Text.SetFontFamily | transport-catalogue/svg.cpp:151-155 | sets the font family and nothing else |
| Svg.Text.SetFontWeight | transport-catalogue/svg.cpp:157-161 | sets the font weight and nothing else |
| Svg.Text.SetData | transport-catalogue/svg.cpp:163-191 | replaces the data with the XML-escaped text, by a loop over its characters |
| Svg.Indented | transport-catalogue/svg.h:100-103 | keeps the step and adds it to the indent |
| Svg.RenderIndent | transport-catalogue/svg.h:105-111 | writes exactly `indent` spaces (none for a negative indent) |
| Svg.PointTexts | transport-catalogue/svg.cpp:116-127 | one `x,y` text per point, in order |
| Svg.PointsTextGrows | transport-catalogue/svg.cpp:115-127 | no point gives the empty text; each later point adds one space and its `x,y`, with no trailing space |
| Svg.RenderPoints | transport-catalogue/svg.cpp:114-128 | the `is_first` loop writes exactly the points text |
| Svg.FontAttr | transport-catalogue/svg.cpp:199-206 | a font attribute is written exactly when its value is non-empty |
| Svg.RenderObject | transport-catalogue/svg.cpp:96-209 | writes exactly the tag of the shape: circle, polyline or text, with their attributes in the source's order |
| Svg.RenderLine | transport-catalogue/svg.cpp:74-82 | `Object::Render` writes the indent, the tag and a line break |
| Svg.ObjectLines | transport-catalogue/svg.cpp:221-225 | one line per object, in insertion order, each at indent 2 |
| Svg.DocumentHeadGrows | transport-catalogue/svg.cpp:216-228 | the document starts with the XML declaration and `<svg>` lines; each added object adds exactly its line |
| Svg.ObjectLineShape | transport-catalogue/svg.cpp:74-82 | every object line is two spaces, a tag starting with `<`, and a line break |
| Svg.ObjectTextIsTag | transport-catalogue/svg.cpp:96-103 | every tag starts with `<` |
| Svg.Document.constructor | transport-catalogue/svg.h:257 | a new document has no object |
| Svg.Document.Add | transport-catalogue/svg.h:260-264 | appends a copy of the object |
| Svg.Document.Render | transport-catalogue/svg.cpp:216-228 | writes the declaration, the `<svg>` line, every object line in insertion order, then `</svg>` |
| Catalogue.Distance | transport-catalogue/transport_catalogue.cpp:81-92 | the A→B entry if present, else the B→A entry, else 0 |
| Catalogue.DistanceAfterSet | transport-catalogue/transport_catalogue.cpp:76-79 | after setting A→B, A→B reads the new value; B→A reads it only when B→A was unset; every other pair reads as before |
| Catalogue.OneWayDistanceIsSymmetric | transport-catalogue/transport_catalogue.cpp:81-92 | a distance given in at most one direction reads the same both ways |
| Catalogue.SingleStopHasZeroLength | transport-catalogue/transport_catalogue.cpp:24-30 | a one-stop route has road and great-circle length 0 |
| Catalogue.RoadLengthAppend | transport-catalogue/transport_catalogue.cpp:22-30 | the road length of two joined routes is both lengths plus the distance across the joint |
| Catalogue.RoadLengthStep | transport-catalogue/transport_catalogue.cpp:24-30 | one more stop adds the distance from the stop before it |
| Catalogue.GeoLengthStep | transport-catalogue/transport_catalogue.cpp:24-30 | one more stop adds the great-circle distance from the stop before it |
| Catalogue.WithBus | transport-catalogue/transport_catalogue.cpp:14-17 | the stops in the table after adding a bus are those before and the ones it serves |
| Catalogue.WithBusServes | transport-catalogue/transport_catalogue.cpp:14-17 | every served stop lists the bus, no bus is removed, and the other stops are unchanged |
| Catalogue.WithBusStep | transport-catalogue/transport_catalogue.cpp:14-17 | one more unique stop name inserts the bus into that stop's set, or changes nothing for an unknown name |
| Catalogue.ResolvedInArena | transport-catalogue/transport_catalogue.cpp:16 | the stops of resolved names are in the arena |
| Catalogue.WithNoBus | transport-catalogue/transport_catalogue.cpp:14-17 | a bus with no stop name leaves the table unchanged |
| Catalogue.ServeStops | transport-catalogue/transport_catalogue.cpp:14-17 | the loop over the unique stop names gives exactly `WithBus` |
| Catalogue.CachedAppend | transport-catalogue/transport_catalogue.h:40 | one more cached record keeps exactly one record per bus |
| Catalogue.StopsIndexedAppend | transport-catalogue/transport_catalogue.cpp:35-40 | appending a stop and indexing its name keeps the name index exact |
| Catalogue.BusesIndexedAppend | transport-catalogue/transport_catalogue.cpp:12-18 | appending a bus and indexing its name keeps the name index exact |
| Catalogue.RoutesInArenaAppend | transport-catalogue/transport_catalogue.h:34-35 | a bus on known stops keeps every route in the stop arena |
| Catalogue.RoutesInArenaGrows | transport-catalogue/transport_catalogue.h:34 | a growing stop arena keeps every route in it |
| Catalogue.TransportCatalogue.constructor | transport-catalogue/transport_catalogue.h:34-40 | a new catalogue is empty and valid |
| Catalogue.TransportCatalogue.AddStop | transport-catalogue/transport_catalogue.cpp:35-40 | appends the stop and points its name at it (last write wins); nothing else changes |
| Catalogue.TransportCatalogue.SearchStop | transport-catalogue/transport_catalogue.cpp:52-60 | finds a stop exactly when the name is indexed, and it bears that name |
| Catalogue.TransportCatalogue.SearchBus | transport-catalogue/transport_catalogue.cpp:42-50 | finds a bus exactly when the name is indexed, and it bears that name |
| Catalogue.TransportCatalogue.GetRouteInfo | transport-catalogue/transport_catalogue.cpp:62-65 | returns the record cached for a bus in the arena; otherwise an error, as `at` throws |
| Catalogue.TransportCatalogue.GetStopToBuses | transport-catalogue/transport_catalogue.cpp:67-74 | returns the stop's bus set exactly when the stop has an entry in the stop→buses table |
| Catalogue.TransportCatalogue.SetDistance | transport-catalogue/transport_catalogue.cpp:76-79 | writes only the A→B entry; nothing else changes |
| Catalogue.TransportCatalogue.GetDistance | transport-catalogue/transport_catalogue.cpp:81-92 | the stored A→B entry if there is one, else the stored B→A entry, else 0 |
| Catalogue.TransportCatalogue.RouteLengths | transport-catalogue/transport_catalogue.cpp:20-30 | the pair loop sums exactly the road and great-circle lengths of the route |
| Catalogue.TransportCatalogue.AddBus | transport-catalogue/transport_catalogue.cpp:10-33 | appends the bus, adds it to the set of each unique stop, indexes its name, and caches its stop count, unique count, road length and curvature as the table stands now |
| Catalogue.PairLoopAsWritten | transport-catalogue/transport_catalogue.cpp:24-30 | the pair loop with its source bound `prev(end())`: on a route with no stop the first pass reads past the end (an empty-access failure) |
| Catalogue.PairLoopSumsLegs | transport-catalogue/transport_catalogue.cpp:24-30 | on a non-empty route the as-written loop from any position sums the legs of the rest, i.e. gives `RoadLength` of the suffix |
| Catalogue.AsWrittenFailsOnlyOnEmptyRoute | transport-catalogue/transport_catalogue.cpp:24-30 | the as-written loop fails exactly on the route with no stop, and agrees with `RoadLength` on every other route |
| Catalogue.EmptyRouteHasZeroLength | transport-catalogue/transport_catalogue.cpp:24-30 | in the corrected pair loop a route with no stop has length 0 |
| MapRenderer.MapRenderer.constructor | transport-catalogue/map_renderer.h:162-165 | `GetRenderSettings` returns the settings given |
| MapRenderer.MinOf | transport-catalogue/map_renderer.h:48-53 | the least value of a non-empty sequence, which is one of its values |
| MapRenderer.MaxOf | transport-catalogue/map_renderer.h:56-62 | the greatest value of a non-empty sequence, which is one of its values |
| MapRenderer.Longitudes | transport-catalogue/map_renderer.h:48-52 | the longitudes of the points, in order |
| MapRenderer.Latitudes | transport-catalogue/map_renderer.h:56-60 | the latitudes of the points, in order |
| MapRenderer.ZoomChoice | transport-catalogue/map_renderer.h:64-87 | the zoom is no larger than any available axis zoom and equals one of them; it is 0 when both spans are zero |
| MapRenderer.IsZero | transport-catalogue/map_renderer.h:31-33 | a value is zero when its magnitude is below `EPSILON` (see `MapRenderer.IsZeroIsSmallMagnitude`) |
| MapRenderer.IsZeroIsSmallMagnitude | transport-catalogue/map_renderer.h:31-33 | `IsZero(v)` exactly when the absolute value of `v` is below `EPSILON`; 0 is zero, ±`EPSILON` is not |
| MapRenderer.Zoom | transport-catalogue/map_renderer.h:64-87 | the zoom from the two axis spans: the smaller of the available axis zooms, 0 when neither span is non-zero (properties in `MapRenderer.ZoomChoice`) |
| MapRenderer.ProjectorOf | transport-catalogue/map_renderer.h:39-88 | the projector of a range: west edge, north edge and `Zoom` of its extremes; the empty range gives zeros (properties in `MapRenderer.ProjectorOfRange`) |
| MapRenderer.Project | transport-catalogue/map_renderer.cpp:92-96 | the canvas point of a coordinate: x grows eastward and y southward from the padding (see `MapRenderer.ProjectKeepsOrder`) |
| MapRenderer.ProjectKeepsOrder | transport-catalogue/map_renderer.cpp:92-96 | with a non-negative zoom, west-east order is kept on x, south-north order is reversed on y, and the north-west corner lands on (padding, padding) |
| MapRenderer.MinMaxStep | transport-catalogue/map_renderer.h:48-62 | the extremes of one more value are updated by comparison |
| MapRenderer.ProjectorOfRange | transport-catalogue/map_renderer.h:43-87 | a non-empty range sets the west edge, the north edge and the zoom from its extremes |
| MapRenderer.MinMax | transport-catalogue/map_renderer.h:48-62 | `minmax_element` returns exactly the least and greatest values |
| MapRenderer.SelectZoom | transport-catalogue/map_renderer.h:64-87 | the optional-zoom code returns exactly `Zoom` |
| MapRenderer.NewSphereProjector | transport-catalogue/map_renderer.h:39-88 | the constructor gives exactly `ProjectorOf`; an empty range leaves the west edge, north edge and zoom at 0 |
| MapRenderer.FlatRangeMapsToCorner | transport-catalogue/map_renderer.cpp:92-96 | when all points coincide the zoom is 0 and the point projects to (padding, padding) |
| MapRenderer.AxisFits | transport-catalogue/map_renderer.h:64-78 | a span scaled by a zoom no larger than room/span fits in the room |
| MapRenderer.QuotientNonNegative | transport-catalogue/map_renderer.h:67 | room over a positive span is not negative |
| MapRenderer.ZoomFitsBoth | transport-catalogue/map_renderer.h:64-87 | with two non-zero spans and room on the canvas, the zoom is non-negative and fits both axes |
| MapRenderer.ProjectFits | transport-catalogue/map_renderer.cpp:92-96 | a point inside the box projects within the padding and the room |
| MapRenderer.BoxFits | transport-catalogue/map_renderer.cpp:92-96 | a point inside the bounding box projects inside the canvas less its padding |
| MapRenderer.RangeFits | transport-catalogue/map_renderer.h:39-88 | any coordinate within the range's extremes projects inside the padded canvas |
| MapRenderer.ProjectionFitsCanvas | transport-catalogue/map_renderer.h:39-88 | every point of the range projects inside the canvas less its padding |
| MapRenderer.Drawn | transport-catalogue/map_renderer.cpp:12-90 | a route line and a stop circle draw one object each; a route name and a stop name draw two |
| MapRenderer.LabelTextsCoincide | transport-catalogue/map_renderer.cpp:46-90 | the underlay and the label share position, offset, size, data, Verdana and weight; the underlay is filled and stroked with the underlayer colour, the label is not stroked |
| MapRenderer.LabelDataIsName | transport-catalogue/map_renderer.cpp:72-90 | both texts hold the escaped name, which unescapes to the name |
| MapRenderer.DrawRoutePolyline | transport-catalogue/map_renderer.cpp:12-24 | appends one polyline with the points in order, fill `none`, the colour and width as stroke, round cap and join |
| MapRenderer.DrawStopCircle | transport-catalogue/map_renderer.cpp:31-36 | appends one circle with the centre, the radius and fill `white` |
| MapRenderer.BaseText | transport-catalogue/map_renderer.cpp:74-81 | a fresh Verdana text with position, offset, size, weight and escaped name, and no attribute |
| MapRenderer.Underlay | transport-catalogue/map_renderer.cpp:82-87 | a fresh copy of the base text with the underlayer colour as fill and stroke, the width, and round cap and join |
| MapRenderer.DrawLabel | transport-catalogue/map_renderer.cpp:72-90 | appends the underlay and then the label filled with the given colour |
| MapRenderer.Draw | transport-catalogue/map_renderer.cpp:12-90 | appends exactly what the drawable draws |
| MapRenderer.DrawnAllSplit | transport-catalogue/map_renderer.h:176-183 | drawing two runs of drawables is drawing one run after the other |
| MapRenderer.DrawMap | transport-catalogue/map_renderer.h:176-183 | draws every element once, in container order |
| RequestHandler.Slot | transport-catalogue/request_handler.cpp:51-60 | the colour index is within the palette |
| RequestHandler.SlotStep | transport-catalogue/request_handler.cpp:55-60 | the next bus takes the next colour, wrapping to the first after the last |
| RequestHandler.Palette | transport-catalogue/request_handler.cpp:51-60 | the i-th bus takes colour `Slot(i)`, one colour per bus |
| RequestHandler.PaletteCycles | transport-catalogue/request_handler.cpp:53-60 | the first buses take the palette in order, and after the last colour comes the first |
| RequestHandler.ByName | transport-catalogue/request_handler.cpp:87-88 | looks every name up in a table, in order |
| RequestHandler.Routes | transport-catalogue/request_handler.cpp:40-42 | one bus per valid name |
| RequestHandler.StopNamesOnExact | transport-catalogue/request_handler.cpp:42-45 | a name is collected from a route exactly when some stop on it has that name |
| RequestHandler.StopNamesOfExact | transport-catalogue/request_handler.cpp:36-47 | `valid_stops` holds exactly the names of the stops on the valid buses |
| RequestHandler.RouteCoordinates | transport-catalogue/request_handler.cpp:42-46 | one coordinate per stop of the route |
| RequestHandler.RouteStopIsFitted | transport-catalogue/request_handler.cpp:40-50 | every stop of every valid bus is among the points the projector is fitted to |
| RequestHandler.RoutePoints | transport-catalogue/request_handler.cpp:61-64 | one projected point per stop of the route |
| RequestHandler.FontSize | transport-catalogue/request_handler.cpp:104 | `int` to `uint32_t` keeps a value in range and otherwise wraps modulo 2^32 |
| RequestHandler.RouteLines | transport-catalogue/request_handler.cpp:85-89 | one route line per valid bus |
| RequestHandler.RouteLabels | transport-catalogue/request_handler.cpp:98-118 | a label at the first stop, and a second at `stops[size/2]` exactly for a non-round bus whose stop there differs from the first; all carry the bus name and colour |
| RequestHandler.StopCircles | transport-catalogue/request_handler.cpp:126-130 | one circle per valid stop |
| RequestHandler.StopLabels | transport-catalogue/request_handler.cpp:138-143 | one name label per valid stop |
| RequestHandler.AllRoutePoints | transport-catalogue/request_handler.cpp:53-65 | one point list per valid bus |
| RequestHandler.ValidStopsNamed | transport-catalogue/request_handler.cpp:126-128 | every valid stop name is found in the catalogue |
| RequestHandler.RouteLineOf | transport-catalogue/request_handler.cpp:67-90 | the k-th drawable is the k-th bus's polyline in its palette colour and the line width |
| RequestHandler.LayerAt | transport-catalogue/request_handler.cpp:69-72 | indexing into the third and fourth drawing layers |
| RequestHandler.StopCircleOf | transport-catalogue/request_handler.cpp:67-72 | the picture is the route layers then two per stop; after the route marks, the k-th is the k-th stop's circle |
| RequestHandler.StopLabelOf | transport-catalogue/request_handler.cpp:67-72 | the last layer holds the k-th stop's name label at its projected position |
| RequestHandler.RouteNamesCount | transport-catalogue/request_handler.cpp:98-118 | each bus gets one or two labels; all-round buses get exactly one each |
| RequestHandler.RouteVerticesInCanvas | transport-catalogue/request_handler.cpp:49-64 | every vertex of every route line lies inside the canvas less its padding |
| RequestHandler.FittedInCanvas | transport-catalogue/request_handler.cpp:49-50 | a fitted point projects inside the canvas less its padding |
| RequestHandler.CollectStops | transport-catalogue/request_handler.cpp:36-47 | the first loop collects exactly the stop names and coordinates of the valid buses |
| RequestHandler.ProjectRoute | transport-catalogue/request_handler.cpp:61-64 | the projection loop gives exactly the route's points |
| RequestHandler.AssignColors | transport-catalogue/request_handler.cpp:51-65 | the second loop gives each bus its palette colour and projected points; both maps have exactly the bus names as keys |
| RequestHandler.NamesUpToMembers | transport-catalogue/request_handler.cpp:53-65 | the key set built by the loop holds a name exactly when one of the first k buses has it |
| RequestHandler.KeyedStep | transport-catalogue/request_handler.cpp:59-63 | writing the next bus's entry keeps the earlier ones |
| RequestHandler.RenderRouteLines | transport-catalogue/request_handler.cpp:79-90 | appends the route lines of the valid buses in order |
| RequestHandler.RouteNamesStep | transport-catalogue/request_handler.cpp:98-118 | one more bus appends its labels |
| RequestHandler.RenderStops | transport-catalogue/request_handler.cpp:121-131 | appends one circle per valid stop in name order |
| RequestHandler.RenderStopsNames | transport-catalogue/request_handler.cpp:133-144 | appends one label per valid stop in name order |
| RequestHandler.SortedDistinct | transport-catalogue/transport_catalogue.h:17 | names iterated from a set are distinct |
| RequestHandler.LabelRoute | transport-catalogue/request_handler.cpp:100-117 | appends exactly the labels of one bus |
| RequestHandler.RenderRouteNames | transport-catalogue/request_handler.cpp:92-119 | appends the labels of the valid buses in order |
| RequestHandler.ColorsByName | transport-catalogue/request_handler.cpp:51-60 | the colour table read in name order is the cycled palette |
| RequestHandler.PointsByName | transport-catalogue/request_handler.cpp:61-64 | the point table read in name order is each bus's projected route |
| RequestHandler.RenderPicture | transport-catalogue/request_handler.cpp:67-72 | the picture is route lines, then route labels, then stop circles, then stop labels |
| RequestHandler.DrawNew | transport-catalogue/request_handler.cpp:74-76 | a new document holding the drawn picture |
| RequestHandler.RoutesDrawable | transport-catalogue/request_handler.cpp:40-47 | valid buses with stops and a palette can be drawn, and keep their names |
| RequestHandler.RequestHandler.constructor | transport-catalogue/request_handler.cpp:7-10 | keeps the catalogue and the renderer |
| RequestHandler.RequestHandler.GetRouteInfo | transport-catalogue/request_handler.cpp:12-21 | no record exactly for an unknown bus; otherwise the record cached for it |
| RequestHandler.RequestHandler.GetBusesByStop | transport-catalogue/request_handler.cpp:23-32 | the set of buses exactly when the stop is known and served; nothing for an unknown or unserved stop |
| RequestHandler.RequestHandler.RenderMap | transport-catalogue/request_handler.cpp:34-77 | a fresh document holding the map picture of the valid buses in name order |
| Ingest.ClassifiedSorts | transport-catalogue/json_reader.cpp:56-75 | the bus queries and stop queries are the requests of those types, in order; the valid buses are the buses listing stops |
| Ingest.FirstUnknownAt | transport-catalogue/json_reader.cpp:81-86 | the first stop name that is not a known stop decides the error |
| Ingest.KnownStep | transport-catalogue/json_reader.cpp:81-86 | one more known stop extends the resolved route and the declared names |
| Ingest.Resolve | transport-catalogue/json_reader.cpp:81-84 | each declared name resolves to its stop, in order |
| Ingest.Declared | transport-catalogue/json_reader.cpp:85 | the unique set is exactly the declared names |
| Ingest.WayBack | transport-catalogue/json_reader.cpp:89-92 | the way back lists the stops from the second-to-last down |
| Ingest.Mirror | transport-catalogue/json_reader.cpp:87-93 | a round route is unchanged; a non-empty linear route of n stops becomes 2n-1 stops, starts with the route, is a palindrome, and visits the same stops |
| Ingest.MirrorTurnsAtLastStop | transport-catalogue/json_reader.cpp:87-93 | the middle of a mirrored route is its last declared stop, and it ends at the first |
| Ingest.DistancesOfIndexedStops | transport-catalogue/json_reader.cpp:22-30 | every stop with road distances has been indexed |
| Ingest.StopsOfIndexed | transport-catalogue/json_reader.cpp:22-30 | adding the stops keeps the name index exact |
| Ingest.TableWrittenStep | transport-catalogue/json_reader.cpp:31-37 | one more defining stop writes its row on top of the earlier rows |
| Ingest.ReadyRowsAllInts | transport-catalogue/json_reader.cpp:31-37 | when every row was written, every distance was an int |
| Ingest.AllRowsReady | transport-catalogue/json_reader.cpp:31-37 | when every distance is an int, every row can be written |
| Ingest.SortedRowInts | transport-catalogue/json_reader.cpp:33-36 | a row of ints is ints in every key order |
| Ingest.RowWrittenStep | transport-catalogue/json_reader.cpp:33-36 | one more destination writes its from→to entry when the destination is a known stop |
| Ingest.RowIntsFromSorted | transport-catalogue/json_reader.cpp:33-36 | a row of ints in key order is a row of ints |
| Ingest.IndexedIsInjective | transport-catalogue/transport_catalogue.h:37 | different stop names index different stops |
| Ingest.SortedIsDistinct | transport-catalogue/json.h:13 | a sorted key sequence has no repeat |
| Ingest.RowRecorded | transport-catalogue/json_reader.cpp:33-36 | after a row, every known destination's entry holds its distance, whatever the order |
| Ingest.RowKeepsOtherRows | transport-catalogue/json_reader.cpp:33-36 | a row changes no entry from any other stop |
| Ingest.TableRecorded | transport-catalogue/json_reader.cpp:31-37 | after all rows, every known from→to entry holds the distance given by the defining stop, whatever the order of the rows |
| Ingest.TableKeepsOtherRows | transport-catalogue/json_reader.cpp:31-37 | entries from stops with no road distances are unchanged |
| Ingest.BusesOfInArena | transport-catalogue/json_reader.cpp:38-45 | every bus read runs on stops in the arena |
| Ingest.InfosCached | transport-catalogue/json_reader.cpp:38-45 | each added bus has exactly its own route record cached |
| Ingest.BusesStep | transport-catalogue/json_reader.cpp:38-45 | one more bus extends the name index, the stop→buses sets and the record cache |
| Ingest.StopsAddedStep | transport-catalogue/json_reader.cpp:22-30 | one more stop added extends the stops added so far |
| Ingest.BusesAddedStep | transport-catalogue/json_reader.cpp:38-45 | one more bus added extends the buses added so far |
| Ingest.RoutesInArenaStops | transport-catalogue/json_reader.cpp:22-45 | buses added after the stops stay on stops in the arena |
| Replies.Int32Of | transport-catalogue/json_reader.cpp:168-169 | a count stored as `int` keeps its value in range and otherwise wraps modulo 2^32 |
| Replies.NameNodes | transport-catalogue/json_reader.cpp:143-146 | one string node per bus name, in order |
| Replies.SortedNameNodes | transport-catalogue/json_reader.cpp:143-146 | the listed bus names are exactly the set, as strings, in ascending order |
| Replies.StopReplyLists | transport-catalogue/json_reader.cpp:128-150 | an unknown stop gives `request_id` and "not found"; a known stop gives `buses` and `request_id`, with exactly the buses serving it, sorted, and none when none does |
| Replies.BusReplyReports | transport-catalogue/json_reader.cpp:152-171 | an unknown bus gives "not found"; a known bus gives exactly the five keys, with its cached curvature and road length, and its stop counts whenever they fit in `int` |
| Replies.AnswerList | transport-catalogue/json_reader.cpp:101-124 | one answer per stat request, in order |
| Replies.CollectInOrder | transport-catalogue/json_reader.cpp:97-126 | there is output exactly when every request was answered, and then its parts are the answers in request order |
| Replies.ToUint8 | transport-catalogue/json_reader.cpp:219-221 | `int` to `uint8_t` keeps a value in range and otherwise wraps modulo 256 |
| Replies.GetColor | transport-catalogue/json_reader.cpp:214-239 | an array of more than three gives `Rgba` and of exactly three `Rgb`, from its wrapped components; fewer or ill-typed components fail; a string gives a named colour; anything else gives no colour |
| Replies.ColorRoundTrip | transport-catalogue/json_reader.cpp:214-239 | every colour written as a node decodes back to itself |
| Replies.ChannelsWrap | transport-catalogue/json_reader.cpp:219-221 | worked example of the narrowing to `uint8_t`: components 256, -1 and 300 wrap to 0, 255 and 44 |
| Replies.Item | transport-catalogue/json_reader.cpp:198-199 | `Array::at` succeeds exactly within the array and fails as out of range |
| Replies.PaletteNodes | transport-catalogue/json_reader.cpp:207-210 | one node per palette colour, in order |
| Replies.PaletteRoundTrip | transport-catalogue/json_reader.cpp:207-210 | a palette written as nodes is read back as the same colours, in order |
| Replies.ScalarsRoundTrip | transport-catalogue/json_reader.cpp:189-206 | the scalar settings written as a map are read back unchanged |
| Replies.SettingsRoundTrip | transport-catalogue/json_reader.cpp:183-212 | any settings whose font sizes fit in `int`, written as `render_settings`, are read back unchanged |
| Replies.AbsentSettingsAreDefault | transport-catalogue/json_reader.cpp:185-188 | with no `render_settings` the defaults are used: zero width and height and no palette |
| JsonReader.Reader.constructor | transport-catalogue/json_reader.h:20-23 | a reader over the catalogue with no requests and no valid bus |
| JsonReader.Reader.ReadJSON | transport-catalogue/json_reader.cpp:12-16 | succeeds exactly when the document reads and its root is a map, which becomes the requests; a reading error or a non-map root is the failure |
| JsonReader.Reader.ParseBaseRequests | transport-catalogue/json_reader.cpp:56-75 | the loop returns the classified queries and adds the buses listing stops to the valid buses; a non-array or a malformed request fails |
| JsonReader.Reader.GetStops | transport-catalogue/json_reader.cpp:77-95 | the loop returns exactly the mirrored resolved route and the declared names, or the error of the first name that is not a known stop |
| JsonReader.Reader.MirrorStops | transport-catalogue/json_reader.cpp:87-93 | the way-back loop gives exactly `Mirror` |
| JsonReader.Reader.LoadStop | transport-catalogue/json_reader.cpp:24-29 | reads one stop query and, on success, appends exactly that stop and indexes its name |
| JsonReader.Reader.LoadStops | transport-catalogue/json_reader.cpp:22-30 | succeeds exactly when every stop query is well formed; then adds every stop in order and returns each one's road distances |
| JsonReader.Reader.WriteRow | transport-catalogue/json_reader.cpp:33-36 | succeeds exactly when every distance of the row is an int; then writes exactly the row's entries; only the distances change |
| JsonReader.Reader.SetDistances | transport-catalogue/json_reader.cpp:31-37 | succeeds exactly when every distance is an int; then writes exactly every row; only the distances change |
| JsonReader.Reader.ReadBus | transport-catalogue/json_reader.cpp:40-43 | reads one bus query against the stop index |
| JsonReader.Reader.LoadBus | transport-catalogue/json_reader.cpp:40-44 | reads one bus query and, on success, adds exactly that bus |
| JsonReader.Reader.LoadBuses | transport-catalogue/json_reader.cpp:38-45 | succeeds exactly when every bus query is well formed and names known stops; then adds every bus in order |
| JsonReader.Reader.ParseRequests | transport-catalogue/json_reader.cpp:18-46 | the ingest adds the stops, then the distances, then the buses: the new catalogue and valid buses are exactly `Ingested`, and its errors are exactly `Ingested`'s |
| JsonReader.Reader.ParseRenderSettings | transport-catalogue/json_reader.cpp:183-212 | returns exactly the settings read from `render_settings` (see the round trip), or the defaults when absent |
| JsonReader.Reader.NameArray | transport-catalogue/json_reader.cpp:143-146 | the loop gives exactly one string node per bus name |
| JsonReader.Reader.ExecuteStopRequest | transport-catalogue/json_reader.cpp:128-150 | writes exactly the stop reply printed at indent 4 |
| JsonReader.Reader.ExecuteBusRequest | transport-catalogue/json_reader.cpp:152-171 | writes exactly the bus reply printed at indent 4 |
| JsonReader.Reader.ExecuteMapRequest | transport-catalogue/json_reader.cpp:173-181 | writes exactly the map reply: the rendered SVG under `map` and the request id, or the fault of `Replies.MapFault` |
| Replies.FirstUnknownBus | transport-catalogue/request_handler.cpp:39-42 | the first name, in walking order, that has no bus, or none exactly when every name has one |
| Replies.MapFault | transport-catalogue/request_handler.cpp:34-87 | no fault exactly when the map is drawable; otherwise, in the order the source meets them: a null dereference naming an unknown valid bus, an empty-palette access, then `OutOfRange("bus_to_points")` for a bus without stops |
| JsonReader.Reader.ExecuteRequest | transport-catalogue/json_reader.cpp:111-123 | dispatches on `type`; an unknown type writes nothing |
| JsonReader.Reader.ExecuteStatRequests | transport-catalogue/json_reader.cpp:97-126 | the `is_first` loop writes `[`, the answers separated by `,` and a line break, then `]` |
| JsonReader.Reader.GetResponses | transport-catalogue/json_reader.cpp:48-54 | reads the render settings, then answers the stat requests; a settings error is the failure |

## Left out

- Streams: reading from `istream` and writing to `ostream` are not modelled.
  The input is a string with a cursor, and the output is the returned text.
  Output written before an exception is not modelled: a failing step returns
  only its error.
- Floating point: doubles are `real`. Reading a number (`stod`) and writing
  one (`ostream << double`) are the parameters `Stod` and `Fmt`. The
  great-circle distance of `geo.h` is the parameter `Geo`, and the curvature
  division, including 0/0, is `Divide`. `geo.h` is not part of this model.
- `LoadNode` at the end of the input reads an uninitialised character. The
  model treats that case as the error "Failed to read value from stream".
- `std::unordered_map` order: the source applies the road distances in an
  unspecified order. The model applies them in ascending name order.
  `Ingest.TableRecorded` and `Ingest.TableKeepsOtherRows` show that the
  resulting table does not depend on the order, because every entry is
  written by exactly one defining stop.
- A road distance to a stop that does not exist is stored by the source under
  a null stop pointer, and nothing ever reads it. The model drops it.
  Likewise, `AddBus` with an unknown unique-stop name inserts under a null key
  that is never read. The model skips that name.
- The catalogue and reader state after a failure is not described. The
  source has already applied the steps before the failing one.
- `RequestHandler.RequestHandler.RenderMap` requires that every valid bus is
  known, that its latest definition has stops, and that the palette is
  non-empty when there are buses. The source faults otherwise.
  - An unknown bus is a null dereference in the first loop
    (request_handler.cpp:41).
  - An empty palette is indexed out of bounds (request_handler.cpp:59),
    which is undefined behaviour.
  - A bus without stops gets no `bus_to_points` entry, so
    `bus_to_points.at` throws `std::out_of_range` in `RenderRouteLines`
    (request_handler.cpp:87). Such a bus was listed with stops once and then
    redefined with none, and that redefinition already hit the undefined
    pair loop of the Findings row.

  At the request layer, `Replies.MapFault` turns these cases, in that order,
  into `NullDereference`, `EmptyAccess("color_palette")` and
  `OutOfRange("bus_to_points")`.
- `RouteInfo.realLength`: the source keeps the road length as a `double` and
  adds `int` distances into it (domain.h:29, transport_catalogue.cpp:23,29).
  The model keeps it as an exact integer. The two agree while every partial
  sum stays below 2^53 in magnitude.
- Pointers: the stop and bus arenas hold values, and every pointer is an
  index into them. The `StopsHasher` of `domain.cpp` is therefore not needed.
- `input_reader.cpp`, `stat_reader.cpp` and `main.cpp` are not part of this
  model. The first two are a legacy text front end that was written against
  a catalogue interface the header does not have. `main.cpp` only wires the
  streams.
- Number text: `Strings.IntToString` writes integers exactly. Writing doubles
  goes through `Fmt`, so doubles have no round-trip lemma.
- JsonPrint.Print: its read-back promise holds for trees with no `double`
  and with every object key free of `"`, `\`, line feed and carriage
  return (`Representable`). A double's text comes from the parameter `Fmt`,
  so nothing can be said about reading it back. The printer writes keys
  without escaping, so a key holding one of those characters does not read
  back as itself; the source behaves the same way.
- Characters: a C++ `std::string` holds bytes, and the model's `string`
  holds characters. No property here depends on the difference. The
  escapes are all ASCII. `std::map<std::string, ...>` compares keys as
  `unsigned char`, so byte order of UTF-8 text is code-point order, which
  is the order `Strings.SortedSeq` uses.

## Findings

| source | as written | input that shows it | evidently intended | confidence | as-written member | corrected member |
|---|---|---|---|---|---|---|
| transport-catalogue/transport_catalogue.cpp:24 | the pair loop runs until `prev(bus->stops.end())`; for a bus with no stops that is before `begin()`, which is undefined behaviour | a base request `{"type": "Bus", "name": "A", "stops": [], "is_roundtrip": true}`. `ParseBaseRequests` keeps it as a bus query (json_reader.cpp:61-63), so `ParseRequests` calls `AddBus` with an empty stop list (json_reader.cpp:38-45) | a route with no stop has no consecutive pair and road length 0, like a one-stop route | medium, not executed | Catalogue.PairLoopAsWritten, Catalogue.AsWrittenFailsOnlyOnEmptyRoute | Catalogue.EmptyRouteHasZeroLength |
