/** The pretty-printer of json.cpp (`NodePrinter` and `json::Print`).

    The output stream becomes the returned text. `Printed` says what the text
    of a node is; `PrintNode` writes it piece by piece under an `is_first`
    flag, as `NodePrinter` does, and is proved to write exactly that text. */
module JsonPrint {
  import opened Wrappers
  import opened Strings
  import opened Json
  import opened JsonLoad
  import JsonLoadProperties

  /** `indent_value`: each nesting level adds four spaces. */
  const IndentStep: nat := 4

  /** The characters the printer writes as a backslash escape. */
  predicate Escaped(c: char) {
    c == '\n' || c == '\r' || c == '\t' || c == '\\' || c == '"'
  }

  /** How one character of a string value is written. */
  function EscapeChar(c: char): (r: string)
    ensures Escaped(c) ==> |r| == 2 && r[0] == '\\' && Unescaped(r[1]) == [c]
    ensures !Escaped(c) ==> r == [c]
  {
    if c == '\n' then "\\n"
    else if c == '\r' then "\\r"
    else if c == '\t' then "\\t"
    else if c == '\\' then "\\\\"
    else if c == '"' then "\\\""
    else [c]
  }

  /** The body of a printed string value, between its quotes. */
  function Escape(s: string): string {
    if s == [] then "" else EscapeChar(s[0]) + Escape(s[1..])
  }

  lemma {:induction false} EscapeAppend(s: string, c: char)
    ensures Escape(s + [c]) == Escape(s) + EscapeChar(c)
    decreases |s|
  {
    if s == [] {
      assert Escape([c]) == EscapeChar(c) + Escape([]);
    } else {
      assert (s + [c])[1..] == s[1..] + [c];
      EscapeAppend(s[1..], c);
    }
  }

  /** The printed form of `e` stands in `input` from `pos` on. */
  predicate WrittenAt(input: string, pos: nat, e: string) {
    pos + |e| <= |input| && forall k {:trigger e[k]} :: 0 <= k < |e| ==> input[pos + k] == e[k]
  }

  lemma WrittenSplit(input: string, pos: nat, head: string, tail: string)
    requires WrittenAt(input, pos, head + tail)
    ensures WrittenAt(input, pos, head) && WrittenAt(input, pos + |head|, tail)
  {
    forall k | 0 <= k < |head| ensures input[pos + k] == head[k] {
      assert head[k] == (head + tail)[k];
    }
    forall k | 0 <= k < |tail| ensures input[pos + |head| + k] == tail[k] {
      assert tail[k] == (head + tail)[|head| + k];
    }
  }

  /** Reading the printed form of one character yields that character. */
  lemma EscapeCharStep(c: char, input: string, pos: nat)
    requires WrittenAt(input, pos, EscapeChar(c)) && pos + |EscapeChar(c)| < |input|
    ensures StringAt(input, pos) == PrependString([c], StringAt(input, pos + |EscapeChar(c)|))
  {
    assert input[pos + 0] == EscapeChar(c)[0];
    if Escaped(c) {
      assert input[pos + 1] == EscapeChar(c)[1];
    }
    StringAtStep(input, pos);
  }

  /** One step of the string round trip: a printed character in front of a
      text that reads back as `s[1..]` makes the whole read back as `s`. */
  lemma EscapeRoundTripStep(s: string, input: string, pos: nat, end: nat)
    requires s != []
    requires WrittenAt(input, pos, EscapeChar(s[0])) && pos + |EscapeChar(s[0])| < |input|
    requires StringAt(input, pos + |EscapeChar(s[0])|) == Success((s[1..], end))
    ensures StringAt(input, pos) == Success((s, end))
  {
    EscapeCharStep(s[0], input, pos);
    assert [s[0]] + s[1..] == s;
  }

  /** A quote closes the string. */
  lemma ClosingQuote(input: string, pos: nat)
    requires pos < |input| && input[pos] == '"'
    ensures StringAt(input, pos) == Success(("", pos + 1))
  {
  }

  lemma EscapeCons(s: string)
    requires s != []
    ensures Escape(s) == EscapeChar(s[0]) + Escape(s[1..])
  {
  }

  /** The escaped body of a non-empty string: its first character's escape,
      then the rest's. */
  lemma EscapeSplitAt(s: string, input: string, pos: nat)
    requires s != [] && WrittenAt(input, pos, Escape(s))
    ensures WrittenAt(input, pos, EscapeChar(s[0]))
    ensures WrittenAt(input, pos + |EscapeChar(s[0])|, Escape(s[1..]))
    ensures |Escape(s)| == |EscapeChar(s[0])| + |Escape(s[1..])|
  {
    EscapeCons(s);
    WrittenSplit(input, pos, EscapeChar(s[0]), Escape(s[1..]));
  }

  /** String round trip: the reader decodes the printed body of `s`, followed
      by the closing quote, back to `s`, wherever it stands in the input. */
  lemma {:induction false} EscapeRoundTrip(s: string, input: string, pos: nat, end: nat)
    requires WrittenAt(input, pos, Escape(s)) && pos + |Escape(s)| < |input|
    requires input[pos + |Escape(s)|] == '"' && end == pos + |Escape(s)| + 1
    ensures StringAt(input, pos) == Success((s, end))
    decreases |s|
  {
    if s != [] {
      var head := EscapeChar(s[0]);
      EscapeSplitAt(s, input, pos);
      EscapeRoundTrip(s[1..], input, pos + |head|, end);
      EscapeRoundTripStep(s, input, pos, end);
    } else {
      ClosingQuote(input, pos);
    }
  }

  /** The printed string value, quotes included, reads back as that string
      value. */
  lemma StringValueRoundTrip(s: string, rest: string, stod: Stod)
    ensures var text := "\"" + Escape(s) + "\"";
            NodeAt(text + rest, 0, stod) == Success((String(s), |text|))
  {
    var text := "\"" + Escape(s) + "\"";
    var input := text + rest;
    assert input[0] == '"';
    assert WrittenAt(input, 1, Escape(s)) by {
      forall k | 0 <= k < |Escape(s)| ensures input[1 + k] == Escape(s)[k] {
        assert input[1 + k] == text[1 + k];
      }
    }
    assert input[1 + |Escape(s)|] == text[1 + |Escape(s)|] == '"';
    EscapeRoundTrip(s, input, 1, |Escape(s)| + 2);
    assert SkipSpaces(input, 0) == 0;
  }

  // ------------------------------------------------------------- printing

  /** The text of a node printed at indentation `indent`. An array prints each
      element on its own line, `indent + 4` spaces in, with `,` between
      elements; an object prints `indent` spaces before its `{` and, on each
      line, the key between quotes WITHOUT escaping, then `": "`, then the
      value; both close on a new line at `indent` spaces. */
  function Printed(v: Node, indent: nat, fmt: Fmt): string
    decreases v, 1
  {
    match v
    case Null => "null"
    case Bool(b) => if b then "true" else "false"
    case Int(i) => IntToString(i as int)
    case Double(d) => fmt(d)
    case String(s) => "\"" + Escape(s) + "\""
    case Array(items) =>
      "[" + Concat(ArrayLines(v, indent, fmt)) + "\n" + Spaces(indent) + "]"
    case Dict(entries) =>
      Spaces(indent) + "{" + Concat(DictLines(v, indent, fmt)) + "\n" + Spaces(indent) + "}"
  }

  /** What precedes the `k`-th element: a line break, or `,` and a line
      break, then the deeper indentation. */
  function Separator(k: nat, indent: nat): string {
    (if k == 0 then "" else ",") + "\n" + Spaces(indent + IndentStep)
  }

  /** The lines of an array, one per element. */
  function ArrayLines(v: Node, indent: nat, fmt: Fmt): (r: seq<string>)
    requires v.Array?
    ensures |r| == |v.items|
    ensures forall k :: 0 <= k < |r| ==>
              r[k] == Separator(k, indent) + Printed(v.items[k], indent + IndentStep, fmt)
    decreases v, 0
  {
    ArrayLinesBefore(v, |v.items|, indent, fmt)
  }

  /** The lines of the first `n` elements of an array. */
  function ArrayLinesBefore(v: Node, n: nat, indent: nat, fmt: Fmt): (r: seq<string>)
    requires v.Array? && n <= |v.items|
    ensures |r| == n
    ensures forall k :: 0 <= k < n ==>
              r[k] == Separator(k, indent) + Printed(v.items[k], indent + IndentStep, fmt)
    decreases v, 0, n
  {
    if n == 0 then []
    else ArrayLinesBefore(v, n - 1, indent, fmt) + [Separator(n - 1, indent) + Printed(v.items[n - 1], indent + IndentStep, fmt)]
  }

  /** The opening of the line of the entry with key `key`. */
  function KeyPrefix(k: nat, indent: nat, key: string): string {
    Separator(k, indent) + "\"" + key + "\": "
  }

  /** The lines of an object, one per entry, in ascending key order. */
  function DictLines(v: Node, indent: nat, fmt: Fmt): (r: seq<string>)
    requires v.Dict?
    ensures |r| == |v.entries|
    decreases v, 0
  {
    var keys := SortedSeq(v.entries.Keys);
    DictLinesBefore(v, keys, |keys|, indent, fmt)
  }

  /** The lines of the entries under the first `n` of `keys`. */
  function DictLinesBefore(v: Node, keys: seq<string>, n: nat, indent: nat, fmt: Fmt): (r: seq<string>)
    requires v.Dict? && n <= |keys|
    requires forall k :: 0 <= k < |keys| ==> keys[k] in v.entries
    ensures |r| == n
    ensures forall k :: 0 <= k < n ==>
              r[k] == KeyPrefix(k, indent, keys[k]) + Printed(v.entries[keys[k]], indent + IndentStep, fmt)
    decreases v, 0, n
  {
    if n == 0 then []
    else
      DictLinesBefore(v, keys, n - 1, indent, fmt)
        + [KeyPrefix(n - 1, indent, keys[n - 1]) + Printed(v.entries[keys[n - 1]], indent + IndentStep, fmt)]
  }

  lemma DictLineAt(v: Node, indent: nat, fmt: Fmt, k: nat)
    requires v.Dict? && k < |v.entries|
    ensures var keys := SortedSeq(v.entries.Keys);
            keys[k] in v.entries
            && DictLines(v, indent, fmt)[k]
               == KeyPrefix(k, indent, keys[k]) + Printed(v.entries[keys[k]], indent + IndentStep, fmt)
  {
  }

  /** `NodePrinter` on a string value. */
  method PrintString(s: string) returns (out: string)
    ensures out == "\"" + Escape(s) + "\""
  {
    out := "\"";
    var k := 0;
    while k < |s|
      invariant 0 <= k <= |s|
      invariant out == "\"" + Escape(s[..k])
    {
      EscapeAppend(s[..k], s[k]);
      assert s[..k + 1] == s[..k] + [s[k]];
      out := out + EscapeChar(s[k]);
      k := k + 1;
    }
    assert s[..k] == s;
    out := out + "\"";
  }

  /** `NodePrinter`: visits the node and writes it. */
  method PrintNode(v: Node, indent: nat, fmt: Fmt) returns (out: string)
    ensures out == Printed(v, indent, fmt)
    ensures Representable(v) ==> forall stod: Stod :: Parse(out, stod) == Success(v)
    decreases v, 2
  {
    ReadsBackWhole(v, indent, fmt);
    match v
    case Null =>
      out := "null";
    case Bool(b) =>
      out := if b then "true" else "false";
    case Int(i) =>
      out := IntToString(i as int);
    case Double(d) =>
      out := fmt(d);
    case String(s) =>
      out := PrintString(s);
    case Array(items) =>
      out := PrintArray(v, indent, fmt);
    case Dict(entries) =>
      out := PrintDict(v, indent, fmt);
  }

  /** The two ways the printer writes the opening of an element's line. */
  lemma SeparatorForms(k: nat, indent: nat)
    ensures k == 0 ==> Separator(k, indent) == "\n" + Spaces(indent + IndentStep)
    ensures k != 0 ==> Separator(k, indent) == "," + "\n" + Spaces(indent + IndentStep)
  {
  }

  /** The two ways the printer writes the opening of an entry's line. */
  lemma KeyPrefixForms(k: nat, indent: nat, key: string)
    ensures k == 0 ==> KeyPrefix(k, indent, key) == "\n" + Spaces(indent + IndentStep) + "\"" + key + "\": "
    ensures k != 0 ==> KeyPrefix(k, indent, key) == "," + "\n" + Spaces(indent + IndentStep) + "\"" + key + "\": "
  {
    SeparatorForms(k, indent);
  }

  lemma ArrayPrinted(v: Node, indent: nat, fmt: Fmt)
    requires v.Array?
    ensures Printed(v, indent, fmt) == "[" + Concat(ArrayLines(v, indent, fmt)) + "\n" + Spaces(indent) + "]"
  {
  }

  lemma DictPrinted(v: Node, indent: nat, fmt: Fmt)
    requires v.Dict?
    ensures Printed(v, indent, fmt)
            == Spaces(indent) + "{" + Concat(DictLines(v, indent, fmt)) + "\n" + Spaces(indent) + "}"
  {
  }

  lemma ArrayLineWritten(v: Node, indent: nat, fmt: Fmt, k: nat, lines: seq<string>,
                         separator: string, element: string)
    requires v.Array? && k < |v.items| && lines == ArrayLines(v, indent, fmt)
    requires k == 0 ==> separator == "\n" + Spaces(indent + IndentStep)
    requires k != 0 ==> separator == "," + "\n" + Spaces(indent + IndentStep)
    requires element == Printed(v.items[k], indent + IndentStep, fmt)
    ensures k < |lines| && separator + element == lines[k]
  {
    SeparatorForms(k, indent);
  }

  /** One element of `PrintArray`: the separator and the printed element,
      which together are the `k`-th line of the array. */
  method PrintElement(v: Node, indent: nat, fmt: Fmt, k: nat, isFirst: bool) returns (text: string)
    requires v.Array? && k < |v.items|
    requires isFirst <==> k == 0
    ensures k < |ArrayLines(v, indent, fmt)| && text == ArrayLines(v, indent, fmt)[k]
    decreases v, 0
  {
    var separator;
    if isFirst {
      separator := "\n" + Spaces(indent + IndentStep);
    } else {
      separator := "," + "\n" + Spaces(indent + IndentStep);
    }
    var element := PrintNode(v.items[k], indent + IndentStep, fmt);
    ArrayLineWritten(v, indent, fmt, k, ArrayLines(v, indent, fmt), separator, element);
    text := separator + element;
  }

  /** `NodePrinter` on an array. */
  method PrintArray(v: Node, indent: nat, fmt: Fmt) returns (out: string)
    requires v.Array?
    ensures out == Printed(v, indent, fmt)
    decreases v, 1
  {
    ghost var lines := ArrayLines(v, indent, fmt);
    out := "[";
    var isFirst := true;
    var k := 0;
    while k < |v.items|
      invariant 0 <= k <= |v.items| == |lines|
      invariant isFirst <==> k == 0
      invariant out == "[" + Concat(lines[..k])
    {
      var text := PrintElement(v, indent, fmt, k, isFirst);
      isFirst := false;
      ConcatPrefix("[", lines, k);
      out := out + text;
      k := k + 1;
    }
    assert lines[..k] == lines;
    ArrayPrinted(v, indent, fmt);
    out := out + "\n" + Spaces(indent) + "]";
  }

  /** The `k`-th line of an object: its key prefix and its value. */
  lemma DictLineStep(v: Node, indent: nat, fmt: Fmt, k: nat, keys: seq<string>, lines: seq<string>)
    requires v.Dict? && k < |v.entries|
    requires keys == SortedSeq(v.entries.Keys) && lines == DictLines(v, indent, fmt)
    ensures k < |keys| && k < |lines| && keys[k] in v.entries
    ensures lines[k] == KeyPrefix(k, indent, keys[k]) + Printed(v.entries[keys[k]], indent + IndentStep, fmt)
  {
    DictLineAt(v, indent, fmt, k);
  }

  lemma SortedKeyIn(keySet: set<string>, keys: seq<string>, k: nat)
    requires keys == SortedSeq(keySet) && k < |keys|
    ensures keys[k] in keySet
  {
  }

  /** What the loop of `PrintDict` writes for the `k`-th entry is its line. */
  lemma DictLineWritten(v: Node, indent: nat, fmt: Fmt, k: nat, keys: seq<string>, lines: seq<string>,
                        prefix: string, value: string)
    requires v.Dict? && k < |v.entries|
    requires keys == SortedSeq(v.entries.Keys) && lines == DictLines(v, indent, fmt)
    requires k < |keys| && keys[k] in v.entries
    requires k == 0 ==> prefix == "\n" + Spaces(indent + IndentStep) + "\"" + keys[k] + "\": "
    requires k != 0 ==> prefix == "," + "\n" + Spaces(indent + IndentStep) + "\"" + keys[k] + "\": "
    requires value == Printed(v.entries[keys[k]], indent + IndentStep, fmt)
    ensures k < |lines| && prefix + value == lines[k]
  {
    DictLineStep(v, indent, fmt, k, keys, lines);
    KeyPrefixForms(k, indent, keys[k]);
  }

  /** One entry of `PrintDict`: the separator, the quoted key and the
      printed value, which together are the `k`-th line of the object. */
  method PrintEntry(v: Node, indent: nat, fmt: Fmt, k: nat, keys: seq<string>, isFirst: bool) returns (text: string)
    requires v.Dict? && k < |v.entries| && keys == SortedSeq(v.entries.Keys)
    requires isFirst <==> k == 0
    ensures k < |DictLines(v, indent, fmt)| && text == DictLines(v, indent, fmt)[k]
    decreases v, 0
  {
    SortedKeyIn(v.entries.Keys, keys, k);
    var prefix;
    if isFirst {
      prefix := "\n" + Spaces(indent + IndentStep) + "\"" + keys[k] + "\": ";
    } else {
      prefix := "," + "\n" + Spaces(indent + IndentStep) + "\"" + keys[k] + "\": ";
    }
    var value := PrintNode(v.entries[keys[k]], indent + IndentStep, fmt);
    DictLineWritten(v, indent, fmt, k, keys, DictLines(v, indent, fmt), prefix, value);
    text := prefix + value;
  }

  /** `NodePrinter` on an object: the entries in ascending key order. */
  method PrintDict(v: Node, indent: nat, fmt: Fmt) returns (out: string)
    requires v.Dict?
    ensures out == Printed(v, indent, fmt)
    decreases v, 1
  {
    var keys := SortedSeq(v.entries.Keys);
    ghost var lines := DictLines(v, indent, fmt);
    ghost var head := Spaces(indent) + "{";
    out := Spaces(indent) + "{";
    var isFirst := true;
    var k := 0;
    while k < |keys|
      invariant 0 <= k <= |keys| == |lines| == |v.entries|
      invariant isFirst <==> k == 0
      invariant out == head + Concat(lines[..k])
    {
      var text := PrintEntry(v, indent, fmt, k, keys, isFirst);
      isFirst := false;
      ConcatPrefix(head, lines, k);
      out := out + text;
      k := k + 1;
    }
    assert lines[..k] == lines;
    DictPrinted(v, indent, fmt);
    out := out + "\n" + Spaces(indent) + "}";
  }

  // ----------------------------------------------------------- round trip

  /** A key the reader gives back from its raw text: no quote, backslash,
      line feed or carriage return. The printer writes keys unescaped. */
  predicate PlainKey(key: string) {
    forall k :: 0 <= k < |key| ==> key[k] != '"' && key[k] != '\\' && key[k] != '\n' && key[k] != '\r'
  }

  /** A tree whose printed text reads back as itself: no `double` anywhere
      (its text is the parameter `Fmt`), and every object key plain. */
  predicate Representable(v: Node)
    decreases v, 1
  {
    match v
    case Double(_) => false
    case Array(items) => forall k :: 0 <= k < |items| ==> Representable(items[k])
    case Dict(_) => EntriesRepresentable(v)
    case _ => true
  }

  /** The object clause of `Representable`: every key plain and every value
      representable. */
  predicate EntriesRepresentable(v: Node)
    requires v.Dict?
    decreases v, 0
  {
    forall key :: key in v.entries ==> PlainKey(key) && Representable(v.entries[key])
  }

  /** What may follow a printed value without being read as part of it: the
      end of the input, whitespace, a comma or a closing bracket. */
  predicate Delimits(input: string, end: nat) {
    end >= |input| || IsSpace(input[end]) || input[end] == ',' || input[end] == ']' || input[end] == '}'
  }

  /** The line break, indentation and bracket that close a container. */
  function Closing(indent: nat, bracket: char): string {
    "\n" + Spaces(indent) + [bracket]
  }

  lemma AppendAssoc(a: string, b: string, c: string)
    ensures a + b + c == a + (b + c)
  {
  }

  lemma ConcatCons(parts: seq<string>)
    requires parts != []
    ensures Concat(parts) == parts[0] + Concat(parts[1..])
  {
    assert parts == [parts[0]] + parts[1..];
    ConcatSplit([parts[0]], parts[1..]);
    assert [parts[0]][..0] == [];
  }

  /** Skipping whitespace from anywhere inside a blank stretch ends at the
      same place. */
  lemma {:induction false} SkipAcross(input: string, p: nat, q: nat)
    requires p <= q <= |input|
    requires forall k :: p <= k < q ==> IsSpace(input[k])
    ensures SkipSpaces(input, p) == SkipSpaces(input, q)
    decreases q - p
  {
    if p < q {
      assert RunEnd(input, p, Space) == RunEnd(input, p + 1, Space);
      SkipAcross(input, p + 1, q);
    }
  }

  /** A written line break and indentation is a blank stretch of the input. */
  lemma WrittenBreak(input: string, p: nat, n: nat)
    requires WrittenAt(input, p, "\n" + Spaces(n))
    ensures forall k :: p <= k < p + 1 + n ==> IsSpace(input[k])
  {
    var e := "\n" + Spaces(n);
    forall k | p <= k < p + 1 + n
      ensures IsSpace(input[k])
    {
      assert input[p + (k - p)] == e[k - p];
      if k > p {
        assert e[k - p] == Spaces(n)[k - p - 1];
      }
    }
  }

  /** The closing of a container: skipping the blank stretch lands on the
      bracket. */
  lemma ClosingAt(input: string, p: nat, indent: nat, bracket: char)
    requires WrittenAt(input, p, Closing(indent, bracket)) && !IsSpace(bracket)
    ensures SkipSpaces(input, p) == p + 1 + indent && input[p + 1 + indent] == bracket
  {
    WrittenSplit(input, p, "\n" + Spaces(indent), [bracket]);
    WrittenBreak(input, p, indent);
    assert input[p + 1 + indent + 0] == [bracket][0];
    SkipAcross(input, p, p + 1 + indent);
  }

  /** The reader gives back a plain key from its raw text and the quote
      after it. */
  lemma {:induction false} RawKeyAt(key: string, input: string, pos: nat)
    requires PlainKey(key)
    requires WrittenAt(input, pos, key + "\"")
    ensures StringAt(input, pos) == Success((key, pos + |key| + 1))
    decreases |key|
  {
    assert input[pos + 0] == (key + "\"")[0];
    if key != [] {
      assert WrittenAt(input, pos + 1, key[1..] + "\"") by {
        forall k | 0 <= k < |key[1..] + "\""|
          ensures input[pos + 1 + k] == (key[1..] + "\"")[k]
        {
          assert (key[1..] + "\"")[k] == (key + "\"")[k + 1];
        }
      }
      RawKeyAt(key[1..], input, pos + 1);
      assert [key[0]] + key[1..] == key;
    }
  }

  /** `null`, `true` and `false` read back as the values they print. */
  lemma LiteralNodeAt(input: string, pos: nat, word: string, stod: Stod)
    requires word == "null" || word == "true" || word == "false"
    requires WrittenAt(input, pos, word) && Delimits(input, pos + |word|)
    ensures NodeAt(input, pos, stod) == Success((if word == "null" then Null else Bool(word == "true"), pos + |word|))
  {
    forall k | pos <= k < pos + |word|
      ensures IsAlpha(input[k])
    {
      assert input[pos + (k - pos)] == word[k - pos];
    }
    JsonLoadProperties.RunEndAfter(input, pos, |word|, Letter);
    assert input[pos..pos + |word|] == word;
    assert input[pos + 0] == word[0];
  }

  /** A printed `int` reads back as that `int`. */
  lemma IntNodeAt(i: int32, input: string, pos: nat, stod: Stod)
    requires WrittenAt(input, pos, IntToString(i as int)) && Delimits(input, pos + |IntToString(i as int)|)
    ensures NodeAt(input, pos, stod) == Success((Int(i), pos + |IntToString(i as int)|))
  {
    var s := IntToString(i as int);
    assert input[pos..pos + |s|] == s;
    assert input[pos + 0] == s[0];
    if i >= 0 {
      assert IsDigit(NatToString(i as int)[0]);
    }
    JsonLoadProperties.NodeAtNumber(input, pos, stod);
    JsonLoadProperties.DecimalAt(input, pos, i, stod);
  }

  /** A printed string value reads back as that string. */
  lemma StringNodeAt(s: string, input: string, pos: nat, stod: Stod)
    requires WrittenAt(input, pos, "\"" + Escape(s) + "\"")
    ensures NodeAt(input, pos, stod) == Success((String(s), pos + |Escape(s)| + 2))
  {
    var end := pos + |Escape(s)| + 2;
    QuotedTextAt(s, input, pos, end);
    QuoteSkipped(input, pos, s, end);
    QuoteNodeAt(input, pos, stod, s, end);
  }

  /** A printed string value starts with its quote, and the string read after
      that quote is the value's string. */
  lemma QuotedTextAt(s: string, input: string, pos: nat, end: nat)
    requires WrittenAt(input, pos, "\"" + Escape(s) + "\"") && end == pos + |Escape(s)| + 2
    ensures pos < |input| && input[pos] == '"'
    ensures StringAt(input, pos + 1) == Success((s, end))
  {
    QuotesAt(input, pos, Escape(s));
    EscapeRoundTrip(s, input, pos + 1, end);
  }

  /** A text between quotes: the opening quote, the text, the closing quote. */
  lemma QuotesAt(input: string, pos: nat, e: string)
    requires WrittenAt(input, pos, "\"" + e + "\"")
    ensures pos + 1 + |e| < |input| && input[pos] == '"' && input[pos + 1 + |e|] == '"'
    ensures WrittenAt(input, pos + 1, e)
  {
    WrittenSplit(input, pos, "\"" + e, "\"");
    WrittenSplit(input, pos, "\"", e);
    assert input[pos + 0] == "\""[0];
    assert input[pos + 1 + |e| + 0] == "\""[0];
  }

  /** At a quote the reader skips no whitespace. */
  lemma QuoteSkipped(input: string, pos: nat, s: string, end: nat)
    requires pos < |input| && input[pos] == '"'
    requires StringAt(input, pos + 1) == Success((s, end))
    ensures SkipSpaces(input, pos) < |input| && input[SkipSpaces(input, pos)] == '"'
    ensures StringAt(input, SkipSpaces(input, pos) + 1) == Success((s, end))
  {
    NoSpaceAt(input, pos);
  }

  /** Whitespace skipping stops at once on a character that is no space. */
  lemma NoSpaceAt(input: string, pos: nat)
    requires pos < |input| && !IsSpace(input[pos])
    ensures SkipSpaces(input, pos) == pos
  {
  }

  /** Past the whitespace, `"` sends the reader to a string. */
  lemma NodeAtString(input: string, pos: nat, stod: Stod)
    requires pos <= |input| && SkipSpaces(input, pos) < |input| && input[SkipSpaces(input, pos)] == '"'
    requires StringAt(input, SkipSpaces(input, pos) + 1).Success?
    ensures var s := StringAt(input, SkipSpaces(input, pos) + 1).value;
            NodeAt(input, pos, stod) == Success((String(s.0), s.1))
  {
  }

  /** A value that starts with a quote is the string read after it. */
  lemma QuoteNodeAt(input: string, pos: nat, stod: Stod, s: string, end: nat)
    requires pos <= |input| && SkipSpaces(input, pos) < |input| && input[SkipSpaces(input, pos)] == '"'
    requires StringAt(input, SkipSpaces(input, pos) + 1) == Success((s, end))
    ensures NodeAt(input, pos, stod) == Success((String(s), end))
  {
    NodeAtString(input, pos, stod);
  }

  /** After the `k`-th line of a container comes either the `,` of the next
      line or the line break of the closing. */
  lemma FollowerDelimits(input: string, next: nat, lines: seq<string>, k: nat, indent: nat, bracket: char)
    requires k < |lines|
    requires k + 1 < |lines| ==> lines[k + 1] != [] && lines[k + 1][0] == ','
    requires WrittenAt(input, next, Concat(lines[k + 1..]) + Closing(indent, bracket))
    ensures Delimits(input, next)
  {
    var restText := Concat(lines[k + 1..]) + Closing(indent, bracket);
    if k + 1 < |lines| {
      ConcatCons(lines[k + 1..]);
      assert restText[0] == lines[k + 1][0];
    } else {
      assert lines[k + 1..] == [];
      assert restText[0] == '\n';
    }
    assert input[next + 0] == restText[0];
  }

  /** The entries of `m` under the keys listed in `keys`. */
  function Restrict(m: map<string, Node>, keys: seq<string>): (r: map<string, Node>)
    ensures forall x :: x in r <==> x in m && x in keys
  {
    map x | x in m && x in keys :: m[x]
  }

  lemma RestrictCons(m: map<string, Node>, keys: seq<string>)
    requires keys != [] && keys[0] in m
    ensures Restrict(m, keys) == Restrict(m, keys[1..])[keys[0] := m[keys[0]]]
  {
    assert forall x :: x in keys <==> x == keys[0] || x in keys[1..];
  }

  /** Between `p` and `q` the reader passes a line's opening: either a blank
      stretch, or a comma and then a blank stretch. */
  predicate OpensLine(input: string, p: nat, q: nat)
    requires p <= |input| && q <= |input|
  {
    SkipSpaces(input, p) == SkipSpaces(input, q)
    || (p < |input| && input[p] == ',' && SkipSpaces(input, p) == p
        && SkipSpaces(input, p + 1) == SkipSpaces(input, q))
  }

  /** The separator the printer puts before a line opens that line. */
  lemma SeparatorSkip(input: string, p: nat, k: nat, indent: nat, tail: string)
    requires WrittenAt(input, p, Separator(k, indent) + tail)
    ensures p + |Separator(k, indent)| <= |input|
    ensures OpensLine(input, p, p + |Separator(k, indent)|)
    ensures WrittenAt(input, p + |Separator(k, indent)|, tail)
  {
    var sep := Separator(k, indent);
    WrittenSplit(input, p, sep, tail);
    var q := p + |sep|;
    SeparatorForms(k, indent);
    if k == 0 {
      WrittenBreak(input, p, indent + IndentStep);
      SkipAcross(input, p, q);
    } else {
      assert sep == "," + ("\n" + Spaces(indent + IndentStep));
      WrittenSplit(input, p, ",", "\n" + Spaces(indent + IndentStep));
      assert input[p + 0] == ","[0];
      WrittenBreak(input, p + 1, indent + IndentStep);
      SkipAcross(input, p + 1, q);
    }
  }

  /** The reader starts by skipping whitespace: from two places that skip to
      the same character it reads the same value. */
  lemma NodeAtSkips(input: string, p: nat, q: nat, stod: Stod)
    requires p <= |input| && q <= |input| && SkipSpaces(input, p) == SkipSpaces(input, q)
    ensures NodeAt(input, p, stod) == NodeAt(input, q, stod)
  {
  }

  /** One element read after a line's opening, then the rest of the array. */
  lemma ItemsCons(input: string, p: nat, q: nat, stod: Stod, items: seq<Node>, next: nat, end: nat)
    requires p <= |input| && q <= |input| && OpensLine(input, p, q) && items != []
    requires NodeAt(input, q, stod) == Success((items[0], next))
    requires next <= |input| && ItemsAt(input, next, stod) == Success((items[1..], end))
    ensures ItemsAt(input, p, stod) == Success((items, end))
  {
    assert [items[0]] + items[1..] == items;
    var i := SkipSpaces(input, p);
    JsonLoadProperties.SkipSpacesIdempotent(input, q);
    assert i < |input|;
    if input[i] == ',' {
      NodeAtSkips(input, p + 1, q, stod);
    } else {
      NodeAtSkips(input, i, q, stod);
    }
    ItemsAtStep(input, p, stod);
  }

  /** The closing of an array ends its elements. */
  lemma ItemsEnd(input: string, p: nat, indent: nat, stod: Stod, end: nat)
    requires WrittenAt(input, p, Closing(indent, ']')) && end == p + |Closing(indent, ']')|
    ensures ItemsAt(input, p, stod) == Success(([], end))
  {
    ClosingAt(input, p, indent, ']');
  }

  /** `text` reads back as `x` wherever it is written in `input` and followed
      by a delimiter. */
  ghost predicate ReadsBack(input: string, stod: Stod, text: string, x: Node) {
    forall q: nat {:trigger WrittenAt(input, q, text)} :: WrittenAt(input, q, text) && Delimits(input, q + |text|) ==>
      NodeAt(input, q, stod) == Success((x, q + |text|))
  }

  /** A text that reads back, written at `q` and delimited at `next`. */
  lemma ReadBackAt(input: string, stod: Stod, text: string, x: Node, q: nat, next: nat)
    requires ReadsBack(input, stod, text, x)
    requires WrittenAt(input, q, text) && next == q + |text| && Delimits(input, next)
    ensures NodeAt(input, q, stod) == Success((x, next))
  {
  }

  /** The `k`-th line of an array, its separator and then an element's text,
      seen from where it starts. */
  lemma ItemLineText(input: string, p: nat, texts: seq<string>, lines: seq<string>, k: nat, indent: nat)
    requires |texts| == |lines| && k < |lines|
    requires lines[k] == Separator(k, indent) + texts[k]
    requires k + 1 < |lines| ==> lines[k + 1] == Separator(k + 1, indent) + texts[k + 1]
    requires WrittenAt(input, p, Concat(lines[k..]) + Closing(indent, ']'))
    ensures var q := p + |Separator(k, indent)|;
            var next := q + |texts[k]|;
            next <= |input| && OpensLine(input, p, q)
            && WrittenAt(input, q, texts[k]) && Delimits(input, next)
            && WrittenAt(input, next, Concat(lines[k + 1..]) + Closing(indent, ']'))
            && next + |Concat(lines[k + 1..]) + Closing(indent, ']')| == p + |Concat(lines[k..]) + Closing(indent, ']')|
  {
    ItemLineSplit(texts, lines, k, indent);
    SeparatorSkip(input, p, k, indent, texts[k] + (Concat(lines[k + 1..]) + Closing(indent, ']')));
    if k + 1 < |lines| {
      SeparatorForms(k + 1, indent);
    }
    LineValueAt(input, p + |Separator(k, indent)|, texts[k], lines, k, indent, ']', p + |Separator(k, indent)| + |texts[k]|);
  }

  /** The lines of an array from the `k`-th on, with the closing, spelt out
      up to the text of the `k`-th element. */
  lemma ItemLineSplit(texts: seq<string>, lines: seq<string>, k: nat, indent: nat)
    requires |texts| == |lines| && k < |lines|
    requires lines[k] == Separator(k, indent) + texts[k]
    ensures Concat(lines[k..]) + Closing(indent, ']')
            == Separator(k, indent) + (texts[k] + (Concat(lines[k + 1..]) + Closing(indent, ']')))
  {
    ConcatCons(lines[k..]);
    assert lines[k..][1..] == lines[k + 1..];
  }

  /** From its `k`-th line on, each line of an array holds a separator and
      then the text of an element that reads back as that element. */
  ghost predicate ItemLines(input: string, stod: Stod, items: seq<Node>, texts: seq<string>,
                            lines: seq<string>, k: nat, indent: nat)
    decreases |lines| - k
  {
    && |items| == |texts| == |lines| && k <= |lines|
    && (k < |lines| ==>
          && lines[k] == Separator(k, indent) + texts[k]
          && ReadsBack(input, stod, texts[k], items[k])
          && ItemLines(input, stod, items, texts, lines, k + 1, indent))
  }

  /** Lines that each hold a separator and a text reading back as its
      element satisfy `ItemLines`. */
  lemma {:induction false} ItemLinesOfAll(input: string, stod: Stod, items: seq<Node>, texts: seq<string>,
                                          lines: seq<string>, k: nat, indent: nat)
    requires |items| == |texts| == |lines| && k <= |lines|
    requires forall j :: k <= j < |lines| ==> lines[j] == Separator(j, indent) + texts[j]
    requires forall j :: k <= j < |lines| ==> ReadsBack(input, stod, texts[j], items[j])
    ensures ItemLines(input, stod, items, texts, lines, k, indent)
    decreases |lines| - k
  {
    if k < |lines| {
      ItemLinesOfAll(input, stod, items, texts, lines, k + 1, indent);
    }
  }

  lemma ItemLinesNext(input: string, stod: Stod, items: seq<Node>, texts: seq<string>,
                      lines: seq<string>, k: nat, indent: nat)
    requires ItemLines(input, stod, items, texts, lines, k, indent) && k < |lines|
    ensures lines[k] == Separator(k, indent) + texts[k] && ReadsBack(input, stod, texts[k], items[k])
    ensures ItemLines(input, stod, items, texts, lines, k + 1, indent)
  {
  }

  /** The `k`-th line of an array opens a line, and from where the line
      opens reads back as the `k`-th element. */
  lemma ItemLineValue(input: string, p: nat, stod: Stod, items: seq<Node>, texts: seq<string>,
                      lines: seq<string>, k: nat, indent: nat, q: nat, next: nat)
    requires ItemLines(input, stod, items, texts, lines, k, indent) && k < |lines|
    requires WrittenAt(input, p, Concat(lines[k..]) + Closing(indent, ']'))
    requires q == p + |Separator(k, indent)| && next == q + |texts[k]|
    ensures p <= q <= |input| && next <= |input| && OpensLine(input, p, q)
    ensures NodeAt(input, q, stod) == Success((items[k], next))
  {
    ItemLineRest(input, p, stod, items, texts, lines, k, indent, next);
    ReadBackAt(input, stod, texts[k], items[k], q, next);
  }

  /** Past the `k`-th line of an array: where the next line starts, and what
      is written from there. */
  lemma ItemLineRest(input: string, p: nat, stod: Stod, items: seq<Node>, texts: seq<string>,
                     lines: seq<string>, k: nat, indent: nat, next: nat)
    requires ItemLines(input, stod, items, texts, lines, k, indent) && k < |lines|
    requires WrittenAt(input, p, Concat(lines[k..]) + Closing(indent, ']'))
    requires next == p + |Separator(k, indent)| + |texts[k]|
    ensures next <= |input| && OpensLine(input, p, p + |Separator(k, indent)|)
    ensures WrittenAt(input, p + |Separator(k, indent)|, texts[k]) && Delimits(input, next)
    ensures ReadsBack(input, stod, texts[k], items[k])
    ensures WrittenAt(input, next, Concat(lines[k + 1..]) + Closing(indent, ']'))
    ensures next + |Concat(lines[k + 1..]) + Closing(indent, ']')| == p + |Concat(lines[k..]) + Closing(indent, ']')|
    ensures ItemLines(input, stod, items, texts, lines, k + 1, indent)
  {
    ItemLinesNext(input, stod, items, texts, lines, k, indent);
    if k + 1 < |lines| {
      ItemLinesNext(input, stod, items, texts, lines, k + 1, indent);
    }
    ItemLineText(input, p, texts, lines, k, indent);
  }

  /** The element on the `k`-th line goes in front of the elements read
      after it. */
  lemma ItemThenItems(input: string, p: nat, next: nat, stod: Stod, items: seq<Node>, texts: seq<string>,
                      lines: seq<string>, k: nat, indent: nat, end: nat)
    requires ItemLines(input, stod, items, texts, lines, k, indent) && k < |lines|
    requires WrittenAt(input, p, Concat(lines[k..]) + Closing(indent, ']'))
    requires next == p + |Separator(k, indent)| + |texts[k]| && next <= |input|
    requires ItemsAt(input, next, stod) == Success((items[k + 1..], end))
    ensures ItemsAt(input, p, stod) == Success((items[k..], end))
  {
    var q := p + |Separator(k, indent)|;
    ItemLineValue(input, p, stod, items, texts, lines, k, indent, q, next);
    ItemsStep(input, p, q, stod, items, k, next, end);
  }

  lemma ItemsFromEnd(input: string, p: nat, stod: Stod, items: seq<Node>, lines: seq<string>, k: nat, indent: nat,
                      end: nat)
    requires |items| == |lines| && k == |lines|
    requires WrittenAt(input, p, Concat(lines[k..]) + Closing(indent, ']'))
    requires end == p + |Concat(lines[k..]) + Closing(indent, ']')|
    ensures ItemsAt(input, p, stod) == Success((items[k..], end))
  {
    assert lines[k..] == [] && items[k..] == [];
    assert Concat(lines[k..]) + Closing(indent, ']') == Closing(indent, ']');
    ItemsEnd(input, p, indent, stod, end);
  }

  lemma ItemsStep(input: string, p: nat, q: nat, stod: Stod, items: seq<Node>, k: nat, next: nat, end: nat)
    requires k < |items| && p <= q <= |input| && next <= |input| && OpensLine(input, p, q)
    requires NodeAt(input, q, stod) == Success((items[k], next))
    requires ItemsAt(input, next, stod) == Success((items[k + 1..], end))
    ensures ItemsAt(input, p, stod) == Success((items[k..], end))
  {
    assert items[k..][1..] == items[k + 1..];
    ItemsCons(input, p, q, stod, items[k..], next, end);
  }

  /** Read line by line, the lines of an array from the `k`-th on, with the
      closing, give back the elements whose texts they hold. */
  lemma {:induction false} ItemsFrom(input: string, p: nat, stod: Stod, items: seq<Node>, texts: seq<string>,
                                     lines: seq<string>, k: nat, indent: nat, end: nat)
    requires ItemLines(input, stod, items, texts, lines, k, indent)
    requires WrittenAt(input, p, Concat(lines[k..]) + Closing(indent, ']'))
    requires end == p + |Concat(lines[k..]) + Closing(indent, ']')|
    ensures ItemsAt(input, p, stod) == Success((items[k..], end))
    decreases |lines| - k
  {
    if k == |lines| {
      ItemsFromEnd(input, p, stod, items, lines, k, indent, end);
    } else {
      var next := p + |Separator(k, indent)| + |texts[k]|;
      ItemLineRest(input, p, stod, items, texts, lines, k, indent, next);
      ItemsFrom(input, next, stod, items, texts, lines, k + 1, indent, end);
      ItemThenItems(input, p, next, stod, items, texts, lines, k, indent, end);
    }
  }

  /** From `p` the reader finds `key`, ending at `keyEnd`, and then reads the
      value after it as if from `valueStart`. */
  predicate KeyThenValue(input: string, p: nat, key: string, keyEnd: nat, valueStart: nat) {
    p <= |input| && SkipSpaces(input, p) < |input| && input[SkipSpaces(input, p)] != '}'
    && StringAt(input, KeyStart(input, SkipSpaces(input, p))) == Success((key, keyEnd))
    && keyEnd <= |input| && valueStart <= |input|
    && SkipSpaces(input, Consume(input, keyEnd)) == SkipSpaces(input, valueStart)
  }

  /** `"key": ` written at `q0`, on a line opened at `p`: the reader finds
      the key, and then skips to where the value starts. */
  lemma QuotedKeyColonAt(input: string, p: nat, q0: nat, key: string, keyEnd: nat, tail: string)
    requires PlainKey(key)
    requires p <= q0 <= |input| && OpensLine(input, p, q0)
    requires WrittenAt(input, q0, "\"" + ((key + "\"") + (": " + tail)))
    requires keyEnd == q0 + |key| + 2
    ensures KeyThenValue(input, p, key, keyEnd, keyEnd + 2)
    ensures WrittenAt(input, keyEnd + 2, tail)
  {
    QuotedKeyAt(input, q0, key, ": " + tail);
    ColonAt(input, keyEnd, tail);
    KeyThenValueAt(input, p, q0, key, keyEnd);
  }

  /** A line opened at `p` whose key starts with the quote at `q0` and ends
      at `keyEnd`, followed by the colon and a space. */
  lemma KeyThenValueAt(input: string, p: nat, q0: nat, key: string, keyEnd: nat)
    requires p <= q0 < |input| && OpensLine(input, p, q0) && input[q0] == '"'
    requires StringAt(input, q0 + 1) == Success((key, keyEnd))
    requires keyEnd + 2 <= |input| && Consume(input, keyEnd) == keyEnd + 1
    requires SkipSpaces(input, keyEnd + 1) == SkipSpaces(input, keyEnd + 2)
    ensures KeyThenValue(input, p, key, keyEnd, keyEnd + 2)
  {
    KeyStartAt(input, p, q0);
  }

  /** On a line opened at `p`, the key read starts after the quote at
      `q0`. */
  lemma KeyStartAt(input: string, p: nat, q0: nat)
    requires p <= q0 < |input| && OpensLine(input, p, q0) && input[q0] == '"'
    ensures SkipSpaces(input, p) < |input| && input[SkipSpaces(input, p)] != '}'
    ensures KeyStart(input, SkipSpaces(input, p)) == q0 + 1
  {
    assert SkipSpaces(input, q0) == q0 by {
      assert !IsSpace(input[q0]);
    }
    if SkipSpaces(input, p) == q0 {
      assert KeyStart(input, q0) == q0 + 1;
    } else {
      assert KeyStart(input, p) == Consume(input, p + 1);
    }
  }

  /** A plain key between quotes reads back as itself. */
  lemma QuotedKeyAt(input: string, q0: nat, key: string, rest: string)
    requires PlainKey(key)
    requires WrittenAt(input, q0, "\"" + ((key + "\"") + rest))
    ensures q0 < |input| && input[q0] == '"'
    ensures StringAt(input, q0 + 1) == Success((key, q0 + |key| + 2))
    ensures WrittenAt(input, q0 + |key| + 2, rest)
  {
    WrittenSplit(input, q0, "\"", (key + "\"") + rest);
    WrittenSplit(input, q0 + 1, key + "\"", rest);
    assert input[q0 + 0] == "\""[0];
    RawKeyAt(key, input, q0 + 1);
  }

  /** The `: ` after a key: the reader consumes the colon and skips the
      space. */
  lemma ColonAt(input: string, q2: nat, tail: string)
    requires WrittenAt(input, q2, ": " + tail)
    ensures q2 + 2 <= |input| && Consume(input, q2) == q2 + 1
    ensures SkipSpaces(input, q2 + 1) == SkipSpaces(input, q2 + 2)
    ensures WrittenAt(input, q2 + 2, tail)
  {
    WrittenSplit(input, q2, ": ", tail);
    assert input[q2 + 0] == ": "[0] && input[q2 + 1] == ": "[1];
    SkipAcross(input, q2 + 1, q2 + 2);
  }

  /** The closing of an object ends its entries. */
  lemma EntriesEnd(input: string, p: nat, indent: nat, stod: Stod, end: nat)
    requires WrittenAt(input, p, Closing(indent, '}')) && end == p + |Closing(indent, '}')|
    ensures EntriesAt(input, p, stod) == Success((map[], end))
  {
    ClosingAt(input, p, indent, '}');
  }

  /** The map the reader builds from keys and values read in order. */
  function MapOf(keys: seq<string>, values: seq<Node>): map<string, Node>
    requires |keys| == |values|
  {
    if keys == [] then map[] else MapOf(keys[1..], values[1..])[keys[0] := values[0]]
  }

  /** The `k`-th line of an object, its key and then a value's text, seen from
      where it starts. */
  lemma EntryLineText(input: string, p: nat, keys: seq<string>, texts: seq<string>, lines: seq<string>,
                      k: nat, indent: nat, keyEnd: nat, next: nat)
    requires |keys| == |texts| == |lines| && k < |lines| && PlainKey(keys[k])
    requires lines[k] == KeyPrefix(k, indent, keys[k]) + texts[k]
    requires k + 1 < |lines| ==> lines[k + 1] == KeyPrefix(k + 1, indent, keys[k + 1]) + texts[k + 1]
    requires WrittenAt(input, p, Concat(lines[k..]) + Closing(indent, '}'))
    requires keyEnd == p + |Separator(k, indent)| + |keys[k]| + 2 && next == keyEnd + 2 + |texts[k]|
    ensures KeyThenValue(input, p, keys[k], keyEnd, keyEnd + 2)
    ensures WrittenAt(input, keyEnd + 2, texts[k]) && Delimits(input, next)
    ensures WrittenAt(input, next, Concat(lines[k + 1..]) + Closing(indent, '}'))
    ensures next + |Concat(lines[k + 1..]) + Closing(indent, '}')| == p + |Concat(lines[k..]) + Closing(indent, '}')|
  {
    EntryLineHead(input, p, keys, texts, lines, k, indent, keyEnd);
    if k + 1 < |lines| {
      KeyPrefixForms(k + 1, indent, keys[k + 1]);
    }
    LineValueAt(input, keyEnd + 2, texts[k], lines, k, indent, '}', next);
  }

  /** The `k`-th line of an object up to its value: the reader finds the key,
      and the value's text and the rest follow. */
  lemma EntryLineHead(input: string, p: nat, keys: seq<string>, texts: seq<string>, lines: seq<string>,
                      k: nat, indent: nat, keyEnd: nat)
    requires |keys| == |texts| == |lines| && k < |lines| && PlainKey(keys[k])
    requires lines[k] == KeyPrefix(k, indent, keys[k]) + texts[k]
    requires WrittenAt(input, p, Concat(lines[k..]) + Closing(indent, '}'))
    requires keyEnd == p + |Separator(k, indent)| + |keys[k]| + 2
    ensures KeyThenValue(input, p, keys[k], keyEnd, keyEnd + 2)
    ensures WrittenAt(input, keyEnd + 2, texts[k] + (Concat(lines[k + 1..]) + Closing(indent, '}')))
    ensures |Concat(lines[k..]) + Closing(indent, '}')|
            == |Separator(k, indent)| + |keys[k]| + 4 + |texts[k]| + |Concat(lines[k + 1..]) + Closing(indent, '}')|
  {
    var tail := texts[k] + (Concat(lines[k + 1..]) + Closing(indent, '}'));
    EntryLineSplit(keys, texts, lines, k, indent);
    SeparatorSkip(input, p, k, indent, "\"" + ((keys[k] + "\"") + (": " + tail)));
    QuotedKeyColonAt(input, p, p + |Separator(k, indent)|, keys[k], keyEnd, tail);
  }

  /** A value's text at the end of the `k`-th line, followed by the later
      lines and the closing: the text is delimited and the rest follows it. */
  lemma LineValueAt(input: string, q: nat, text: string, lines: seq<string>, k: nat, indent: nat, bracket: char,
                     next: nat)
    requires k < |lines|
    requires k + 1 < |lines| ==> lines[k + 1] != [] && lines[k + 1][0] == ','
    requires WrittenAt(input, q, text + (Concat(lines[k + 1..]) + Closing(indent, bracket)))
    requires next == q + |text|
    ensures WrittenAt(input, q, text) && Delimits(input, next)
    ensures WrittenAt(input, next, Concat(lines[k + 1..]) + Closing(indent, bracket))
  {
    WrittenSplit(input, q, text, Concat(lines[k + 1..]) + Closing(indent, bracket));
    FollowerDelimits(input, next, lines, k, indent, bracket);
  }

  /** The lines of an object from the `k`-th on, with the closing, spelt out
      up to the text of the `k`-th value. */
  lemma EntryLineSplit(keys: seq<string>, texts: seq<string>, lines: seq<string>, k: nat, indent: nat)
    requires |keys| == |texts| == |lines| && k < |lines|
    requires lines[k] == KeyPrefix(k, indent, keys[k]) + texts[k]
    ensures Concat(lines[k..]) + Closing(indent, '}')
            == Separator(k, indent) + ("\"" + ((keys[k] + "\"") + (": " + (texts[k] + (Concat(lines[k + 1..]) + Closing(indent, '}'))))))
  {
    ConcatCons(lines[k..]);
    assert lines[k..][1..] == lines[k + 1..];
  }

  /** A key and then a value that reads back: the entry the reader adds
      before the entries after it. */
  lemma EntryReadStep(input: string, p: nat, key: string, keyEnd: nat, q: nat, stod: Stod, x: Node, next: nat,
                      rest: map<string, Node>, end: nat)
    requires KeyThenValue(input, p, key, keyEnd, q)
    requires NodeAt(input, q, stod) == Success((x, next)) && next <= |input|
    requires EntriesAt(input, next, stod) == Success((rest, end))
    ensures EntriesAt(input, p, stod) == Success((rest[key := x], end))
  {
    NodeAtSkips(input, Consume(input, keyEnd), q, stod);
    EntriesAtStep(input, p, stod);
    ValueThenEntriesCases(input, key, keyEnd, stod);
  }

  /** From its `k`-th line on, each line of an object holds the key prefix
      and then the text of a value that reads back as the value for that key. */
  ghost predicate EntryLines(input: string, stod: Stod, keys: seq<string>, values: seq<Node>,
                             texts: seq<string>, lines: seq<string>, k: nat, indent: nat)
    decreases |lines| - k
  {
    && |keys| == |values| == |texts| == |lines| && k <= |lines|
    && (k < |lines| ==>
          && lines[k] == KeyPrefix(k, indent, keys[k]) + texts[k]
          && PlainKey(keys[k]) && ReadsBack(input, stod, texts[k], values[k])
          && EntryLines(input, stod, keys, values, texts, lines, k + 1, indent))
  }

  /** Lines that each hold a plain key's prefix and a text reading back as
      the value under it satisfy `EntryLines`. */
  lemma {:induction false} EntryLinesOfAll(input: string, stod: Stod, keys: seq<string>, values: seq<Node>,
                                           texts: seq<string>, lines: seq<string>, k: nat, indent: nat)
    requires |keys| == |values| == |texts| == |lines| && k <= |lines|
    requires forall j :: k <= j < |lines| ==> lines[j] == KeyPrefix(j, indent, keys[j]) + texts[j]
    requires forall j :: k <= j < |lines| ==> PlainKey(keys[j]) && ReadsBack(input, stod, texts[j], values[j])
    ensures EntryLines(input, stod, keys, values, texts, lines, k, indent)
    decreases |lines| - k
  {
    if k < |lines| {
      EntryLinesOfAll(input, stod, keys, values, texts, lines, k + 1, indent);
    }
  }

  lemma EntryLinesNext(input: string, stod: Stod, keys: seq<string>, values: seq<Node>,
                       texts: seq<string>, lines: seq<string>, k: nat, indent: nat)
    requires EntryLines(input, stod, keys, values, texts, lines, k, indent) && k < |lines|
    ensures lines[k] == KeyPrefix(k, indent, keys[k]) + texts[k]
    ensures PlainKey(keys[k]) && ReadsBack(input, stod, texts[k], values[k])
    ensures EntryLines(input, stod, keys, values, texts, lines, k + 1, indent)
  {
  }

  /** Past the `k`-th line of an object: where the next line starts, and
      what is written from there. */
  lemma EntryLineRest(input: string, p: nat, stod: Stod, keys: seq<string>, values: seq<Node>,
                      texts: seq<string>, lines: seq<string>, k: nat, indent: nat, keyEnd: nat, next: nat)
    requires EntryLines(input, stod, keys, values, texts, lines, k, indent) && k < |lines|
    requires WrittenAt(input, p, Concat(lines[k..]) + Closing(indent, '}'))
    requires keyEnd == p + |Separator(k, indent)| + |keys[k]| + 2 && next == keyEnd + 2 + |texts[k]|
    ensures next <= |input|
    ensures KeyThenValue(input, p, keys[k], keyEnd, keyEnd + 2)
    ensures WrittenAt(input, keyEnd + 2, texts[k]) && Delimits(input, next)
    ensures PlainKey(keys[k]) && ReadsBack(input, stod, texts[k], values[k])
    ensures WrittenAt(input, next, Concat(lines[k + 1..]) + Closing(indent, '}'))
    ensures next + |Concat(lines[k + 1..]) + Closing(indent, '}')| == p + |Concat(lines[k..]) + Closing(indent, '}')|
    ensures EntryLines(input, stod, keys, values, texts, lines, k + 1, indent)
  {
    EntryLinesNext(input, stod, keys, values, texts, lines, k, indent);
    if k + 1 < |lines| {
      EntryLinesNext(input, stod, keys, values, texts, lines, k + 1, indent);
    }
    EntryLineText(input, p, keys, texts, lines, k, indent, keyEnd, next);
  }

  lemma MapOfStep(keys: seq<string>, values: seq<Node>, k: nat)
    requires |keys| == |values| && k < |keys|
    ensures MapOf(keys[k..], values[k..]) == MapOf(keys[k + 1..], values[k + 1..])[keys[k] := values[k]]
  {
    assert keys[k..][1..] == keys[k + 1..] && values[k..][1..] == values[k + 1..];
  }

  /** Read entry by entry, the lines of an object from the `k`-th on, with the
      closing, give back the map of their keys to the values whose texts they
      hold. */
  lemma {:induction false} EntriesFrom(input: string, p: nat, stod: Stod, keys: seq<string>, values: seq<Node>,
                                       texts: seq<string>, lines: seq<string>, k: nat, indent: nat, end: nat)
    requires EntryLines(input, stod, keys, values, texts, lines, k, indent)
    requires WrittenAt(input, p, Concat(lines[k..]) + Closing(indent, '}'))
    requires end == p + |Concat(lines[k..]) + Closing(indent, '}')|
    ensures EntriesAt(input, p, stod) == Success((MapOf(keys[k..], values[k..]), end))
    decreases |lines| - k
  {
    if k == |lines| {
      EntriesFromEnd(input, p, stod, keys, values, lines, k, indent, end);
    } else {
      var keyEnd := p + |Separator(k, indent)| + |keys[k]| + 2;
      var next := keyEnd + 2 + |texts[k]|;
      EntryLineRest(input, p, stod, keys, values, texts, lines, k, indent, keyEnd, next);
      ReadBackAt(input, stod, texts[k], values[k], keyEnd + 2, next);
      EntriesFrom(input, next, stod, keys, values, texts, lines, k + 1, indent, end);
      EntryThenEntries(input, p, keyEnd, next, stod, keys, values, k, end);
    }
  }

  /** The entry on the `k`-th line goes in front of the entries read after
      it. */
  lemma EntryThenEntries(input: string, p: nat, keyEnd: nat, next: nat, stod: Stod, keys: seq<string>,
                         values: seq<Node>, k: nat, end: nat)
    requires |keys| == |values| && k < |keys|
    requires KeyThenValue(input, p, keys[k], keyEnd, keyEnd + 2)
    requires NodeAt(input, keyEnd + 2, stod) == Success((values[k], next)) && next <= |input|
    requires EntriesAt(input, next, stod) == Success((MapOf(keys[k + 1..], values[k + 1..]), end))
    ensures EntriesAt(input, p, stod) == Success((MapOf(keys[k..], values[k..]), end))
  {
    EntryReadStep(input, p, keys[k], keyEnd, keyEnd + 2, stod, values[k], next, MapOf(keys[k + 1..], values[k + 1..]), end);
    MapOfStep(keys, values, k);
  }

  lemma EntriesFromEnd(input: string, p: nat, stod: Stod, keys: seq<string>, values: seq<Node>,
                       lines: seq<string>, k: nat, indent: nat, end: nat)
    requires |keys| == |values| == |lines| && k == |lines|
    requires WrittenAt(input, p, Concat(lines[k..]) + Closing(indent, '}'))
    requires end == p + |Concat(lines[k..]) + Closing(indent, '}')|
    ensures EntriesAt(input, p, stod) == Success((MapOf(keys[k..], values[k..]), end))
  {
    assert lines[k..] == [] && keys[k..] == [];
    assert Concat(lines[k..]) + Closing(indent, '}') == Closing(indent, '}');
    assert MapOf(keys[k..], values[k..]) == map[];
    EntriesEnd(input, p, indent, stod, end);
  }

  /** Keys read with the values `m` holds for them make the part of `m` under
      those keys. */
  lemma {:induction false} MapOfEntries(m: map<string, Node>, keys: seq<string>, values: seq<Node>)
    requires |keys| == |values|
    requires forall j :: 0 <= j < |keys| ==> keys[j] in m && values[j] == m[keys[j]]
    ensures MapOf(keys, values) == Restrict(m, keys)
    decreases |keys|
  {
    if keys == [] {
      assert Restrict(m, keys) == map[];
    } else {
      MapOfEntries(m, keys[1..], values[1..]);
      RestrictCons(m, keys);
    }
  }

  /** Past the whitespace, `[` sends the reader to an array. */
  lemma NodeAtArray(input: string, pos: nat, stod: Stod)
    requires pos <= |input| && SkipSpaces(input, pos) < |input| && input[SkipSpaces(input, pos)] == '['
    ensures NodeAt(input, pos, stod) == ArrayAt(input, SkipSpaces(input, pos) + 1, stod)
  {
  }

  /** Past the whitespace, `{` sends the reader to an object. */
  lemma NodeAtDict(input: string, pos: nat, stod: Stod)
    requires pos <= |input| && SkipSpaces(input, pos) < |input| && input[SkipSpaces(input, pos)] == '{'
    ensures NodeAt(input, pos, stod) == DictAt(input, SkipSpaces(input, pos) + 1, stod)
  {
  }

  /** The printed elements of an array. */
  function ItemTexts(v: Node, indent: nat, fmt: Fmt): (r: seq<string>)
    requires v.Array?
    ensures |r| == |v.items|
  {
    ItemTextsBefore(v, |v.items|, indent, fmt)
  }

  /** The printed first `n` elements of an array. */
  function ItemTextsBefore(v: Node, n: nat, indent: nat, fmt: Fmt): (r: seq<string>)
    requires v.Array? && n <= |v.items|
    ensures |r| == n
    ensures forall j :: 0 <= j < n ==> r[j] == Printed(v.items[j], indent + IndentStep, fmt)
  {
    if n == 0 then [] else ItemTextsBefore(v, n - 1, indent, fmt) + [Printed(v.items[n - 1], indent + IndentStep, fmt)]
  }

  /** Every line of a printed array holds a text that reads back as the
      element it was printed from. */
  lemma {:induction false} ArrayChildrenReadBack(v: Node, indent: nat, fmt: Fmt, stod: Stod, input: string)
    requires v.Array? && Representable(v)
    ensures ItemLines(input, stod, v.items, ItemTexts(v, indent, fmt), ArrayLines(v, indent, fmt), 0, indent)
    decreases v, 0, 0
  {
    var texts := ItemTexts(v, indent, fmt);
    forall j | 0 <= j < |v.items|
      ensures ReadsBack(input, stod, texts[j], v.items[j])
    {
      PrintedReadsBack(v.items[j], indent + IndentStep, fmt, stod, input);
    }
    ItemLinesOfAll(input, stod, v.items, texts, ArrayLines(v, indent, fmt), 0, indent);
  }

  /** The text of an array after its `[` reads back as the array. */
  lemma {:induction false} ArrayBodyAt(v: Node, indent: nat, fmt: Fmt, stod: Stod, input: string, p: nat, end: nat)
    requires v.Array? && Representable(v)
    requires WrittenAt(input, p, Concat(ArrayLines(v, indent, fmt)) + Closing(indent, ']'))
    requires end == p + |Concat(ArrayLines(v, indent, fmt)) + Closing(indent, ']')|
    ensures ArrayAt(input, p, stod) == Success((v, end))
    decreases v, 1, 0
  {
    var lines := ArrayLines(v, indent, fmt);
    ArrayChildrenReadBack(v, indent, fmt, stod, input);
    assert lines[0..] == lines && v.items[0..] == v.items;
    ItemsFrom(input, p, stod, v.items, ItemTexts(v, indent, fmt), lines, 0, indent, end);
    assert p < |input| by {
      assert |Closing(indent, ']')| > 0;
    }
    ArrayAtItems(input, p, stod, v.items, end);
  }

  /** An array's elements read after its `[` make the array. */
  lemma ArrayAtItems(input: string, p: nat, stod: Stod, items: seq<Node>, end: nat)
    requires p < |input| && ItemsAt(input, p, stod) == Success((items, end))
    ensures ArrayAt(input, p, stod) == Success((Array(items), end))
  {
  }

  /** A printed array reads back as that array. */
  lemma {:induction false} ArrayRoundTrip(v: Node, indent: nat, fmt: Fmt, stod: Stod, input: string, pos: nat, end: nat)
    requires v.Array? && Representable(v)
    requires WrittenAt(input, pos, Printed(v, indent, fmt))
    requires end == pos + |Printed(v, indent, fmt)|
    ensures NodeAt(input, pos, stod) == Success((v, end))
    decreases v, 2, 0
  {
    ArrayTextAt(v, indent, fmt, input, pos);
    ArrayBodyAt(v, indent, fmt, stod, input, pos + 1, end);
    NodeAtBracket(input, pos, stod, v, end);
  }

  /** A printed array is a bracket and then its lines. */
  lemma ArrayTextAt(v: Node, indent: nat, fmt: Fmt, input: string, pos: nat)
    requires v.Array? && WrittenAt(input, pos, Printed(v, indent, fmt))
    ensures var body := Concat(ArrayLines(v, indent, fmt)) + Closing(indent, ']');
            && pos < |input| && input[pos] == '['
            && WrittenAt(input, pos + 1, body)
            && pos + |Printed(v, indent, fmt)| == pos + 1 + |body|
  {
    ArrayPrintedForm(v, indent, fmt);
    OpeningBracketAt(input, pos, Concat(ArrayLines(v, indent, fmt)) + Closing(indent, ']'));
  }

  /** A printed array: a bracket, then its lines and their closing. */
  lemma ArrayPrintedForm(v: Node, indent: nat, fmt: Fmt)
    requires v.Array?
    ensures Printed(v, indent, fmt) == "[" + (Concat(ArrayLines(v, indent, fmt)) + Closing(indent, ']'))
  {
    var c := Concat(ArrayLines(v, indent, fmt));
    calc {
      Printed(v, indent, fmt);
      "[" + c + "\n" + Spaces(indent) + "]";
      { AppendAssoc("[" + c, "\n" + Spaces(indent), "]"); }
      "[" + c + Closing(indent, ']');
      { AppendAssoc("[", c, Closing(indent, ']')); }
      "[" + (c + Closing(indent, ']'));
    }
  }

  lemma OpeningBracketAt(input: string, pos: nat, body: string)
    requires WrittenAt(input, pos, "[" + body)
    ensures pos < |input| && input[pos] == '[' && WrittenAt(input, pos + 1, body)
  {
    WrittenSplit(input, pos, "[", body);
    assert input[pos + 0] == "["[0];
  }

  /** An array read after a `[` at `pos` is the node read from `pos`. */
  lemma NodeAtBracket(input: string, pos: nat, stod: Stod, x: Node, end: nat)
    requires pos < |input| && input[pos] == '['
    requires ArrayAt(input, pos + 1, stod) == Success((x, end))
    ensures NodeAt(input, pos, stod) == Success((x, end))
  {
    NodeAtArray(input, pos, stod);
  }

  lemma RestrictAll(m: map<string, Node>)
    ensures Restrict(m, SortedSeq(m.Keys)) == m
  {
    var keys := SortedSeq(m.Keys);
    assert forall x :: x in m <==> x in keys;
  }

  /** The indentation before an object's brace is skipped onto the brace. */
  lemma OpeningBraceAt(input: string, pos: nat, indent: nat, body: string)
    requires WrittenAt(input, pos, Spaces(indent) + ("{" + body))
    ensures pos + indent < |input| && SkipSpaces(input, pos) == pos + indent && input[pos + indent] == '{'
    ensures WrittenAt(input, pos + indent + 1, body)
  {
    WrittenSplit(input, pos, Spaces(indent), "{" + body);
    WrittenSplit(input, pos + indent, "{", body);
    forall k | pos <= k < pos + indent
      ensures IsSpace(input[k])
    {
      assert input[pos + (k - pos)] == Spaces(indent)[k - pos];
    }
    assert input[pos + indent + 0] == "{"[0];
    SkipAcross(input, pos, pos + indent);
  }

  /** An object's entries read after its `{` make the object. */
  lemma DictAtEntries(input: string, p: nat, stod: Stod, entries: map<string, Node>, end: nat)
    requires p < |input| && EntriesAt(input, p, stod) == Success((entries, end))
    ensures DictAt(input, p, stod) == Success((Dict(entries), end))
  {
  }

  /** The values of an object, in ascending key order. */
  function EntryValues(v: Node): (r: seq<Node>)
    requires v.Dict?
    ensures |r| == |v.entries|
    ensures var keys := SortedSeq(v.entries.Keys);
            forall j :: 0 <= j < |r| ==> keys[j] in v.entries && r[j] == v.entries[keys[j]]
  {
    var keys := SortedSeq(v.entries.Keys);
    ValuesBefore(v.entries, keys, |keys|)
  }

  /** The values under the first `n` of `keys`. */
  function ValuesBefore(entries: map<string, Node>, keys: seq<string>, n: nat): (r: seq<Node>)
    requires n <= |keys| && forall j :: 0 <= j < |keys| ==> keys[j] in entries
    ensures |r| == n
    ensures forall j :: 0 <= j < n ==> r[j] == entries[keys[j]]
  {
    if n == 0 then [] else ValuesBefore(entries, keys, n - 1) + [entries[keys[n - 1]]]
  }

  /** The printed values of an object, in ascending key order. */
  function EntryTexts(v: Node, indent: nat, fmt: Fmt): (r: seq<string>)
    requires v.Dict?
    ensures |r| == |v.entries|
  {
    var keys := SortedSeq(v.entries.Keys);
    EntryTextsBefore(v, keys, |keys|, indent, fmt)
  }

  /** The printed values under the first `n` of `keys`. */
  function EntryTextsBefore(v: Node, keys: seq<string>, n: nat, indent: nat, fmt: Fmt): (r: seq<string>)
    requires v.Dict? && n <= |keys| && forall j :: 0 <= j < |keys| ==> keys[j] in v.entries
    ensures |r| == n
    ensures forall j :: 0 <= j < n ==> r[j] == Printed(v.entries[keys[j]], indent + IndentStep, fmt)
  {
    if n == 0 then [] else EntryTextsBefore(v, keys, n - 1, indent, fmt) + [Printed(v.entries[keys[n - 1]], indent + IndentStep, fmt)]
  }

  /** Every line of a printed object holds its key and a text that reads
      back as the value under that key. */
  lemma {:induction false} DictChildrenReadBack(v: Node, indent: nat, fmt: Fmt, stod: Stod, input: string)
    requires v.Dict? && Representable(v)
    ensures EntryLines(input, stod, SortedSeq(v.entries.Keys), EntryValues(v), EntryTexts(v, indent, fmt),
                       DictLines(v, indent, fmt), 0, indent)
    decreases v, 0, 1
  {
    var lines := DictLines(v, indent, fmt);
    var keys := SortedSeq(v.entries.Keys);
    var values := EntryValues(v);
    var texts := EntryTexts(v, indent, fmt);
    DictLinesTexts(v, indent, fmt);
    forall j | 0 <= j < |lines|
      ensures PlainKey(keys[j]) && ReadsBack(input, stod, texts[j], values[j])
    {
      DictChildReadBack(v, indent, fmt, stod, input, j);
    }
    EntryLinesOfAll(input, stod, keys, values, texts, lines, 0, indent);
  }

  /** The text of the `j`-th value of a printed object reads back as that
      value, and its key needs no escaping. */
  lemma {:induction false} DictChildReadBack(v: Node, indent: nat, fmt: Fmt, stod: Stod, input: string, j: nat)
    requires v.Dict? && Representable(v) && j < |v.entries|
    ensures PlainKey(SortedSeq(v.entries.Keys)[j])
    ensures ReadsBack(input, stod, EntryTexts(v, indent, fmt)[j], EntryValues(v)[j])
    decreases v, 0, 0
  {
    PrintedReadsBack(EntryValues(v)[j], indent + IndentStep, fmt, stod, input);
  }

  /** The lines of a printed object are its key prefixes followed by the
      printed values. */
  lemma DictLinesTexts(v: Node, indent: nat, fmt: Fmt)
    requires v.Dict?
    ensures forall j :: 0 <= j < |v.entries| ==>
      DictLines(v, indent, fmt)[j] == KeyPrefix(j, indent, SortedSeq(v.entries.Keys)[j]) + EntryTexts(v, indent, fmt)[j]
  {
    forall j | 0 <= j < |v.entries|
      ensures DictLines(v, indent, fmt)[j] == KeyPrefix(j, indent, SortedSeq(v.entries.Keys)[j]) + EntryTexts(v, indent, fmt)[j]
    {
      DictLineAt(v, indent, fmt, j);
    }
  }

  /** The text of an object after its `{` reads back as the object. */
  lemma {:induction false} DictBodyAt(v: Node, indent: nat, fmt: Fmt, stod: Stod, input: string, p: nat, end: nat)
    requires v.Dict? && Representable(v)
    requires WrittenAt(input, p, Concat(DictLines(v, indent, fmt)) + Closing(indent, '}'))
    requires end == p + |Concat(DictLines(v, indent, fmt)) + Closing(indent, '}')|
    ensures DictAt(input, p, stod) == Success((v, end))
    decreases v, 1, 0
  {
    var lines := DictLines(v, indent, fmt);
    var keys := SortedSeq(v.entries.Keys);
    var values := EntryValues(v);
    DictChildrenReadBack(v, indent, fmt, stod, input);
    assert lines[0..] == lines && keys[0..] == keys && values[0..] == values;
    EntriesFrom(input, p, stod, keys, values, EntryTexts(v, indent, fmt), lines, 0, indent, end);
    MapOfEntries(v.entries, keys, values);
    RestrictAll(v.entries);
    DictAtEntries(input, p, stod, v.entries, end);
  }

  /** A printed object reads back as that object. */
  lemma {:induction false} DictRoundTrip(v: Node, indent: nat, fmt: Fmt, stod: Stod, input: string, pos: nat, end: nat)
    requires v.Dict? && Representable(v)
    requires WrittenAt(input, pos, Printed(v, indent, fmt))
    requires end == pos + |Printed(v, indent, fmt)|
    ensures NodeAt(input, pos, stod) == Success((v, end))
    decreases v, 2, 0
  {
    var p := pos + indent + 1;
    DictTextAt(v, indent, fmt, input, pos);
    DictPrintedEnd(v, indent, fmt, pos);
    DictBodyAt(v, indent, fmt, stod, input, p, end);
    NodeAtBraceAt(input, pos, pos + indent, p, stod, v, end);
  }

  /** A printed object: its indentation, a brace, then its lines and their
      closing. */
  lemma DictPrintedForm(v: Node, indent: nat, fmt: Fmt)
    requires v.Dict?
    ensures Printed(v, indent, fmt)
            == Spaces(indent) + ("{" + (Concat(DictLines(v, indent, fmt)) + Closing(indent, '}')))
    ensures |Printed(v, indent, fmt)| == indent + 1 + |Concat(DictLines(v, indent, fmt)) + Closing(indent, '}')|
  {
    var s, c := Spaces(indent), Concat(DictLines(v, indent, fmt));
    calc {
      Printed(v, indent, fmt);
      s + "{" + c + "\n" + s + "}";
      { AppendAssoc(s + "{" + c, "\n" + s, "}"); }
      s + "{" + c + Closing(indent, '}');
      { AppendAssoc(s + "{", c, Closing(indent, '}')); AppendAssoc(s, "{", c + Closing(indent, '}')); }
      s + ("{" + (c + Closing(indent, '}')));
    }
  }

  /** Where a printed object ends: past its indentation, its brace, its lines
      and their closing. */
  lemma DictPrintedEnd(v: Node, indent: nat, fmt: Fmt, pos: nat)
    requires v.Dict?
    ensures pos + |Printed(v, indent, fmt)| == pos + indent + 1 + |Concat(DictLines(v, indent, fmt)) + Closing(indent, '}')|
  {
    DictPrintedForm(v, indent, fmt);
  }

  /** A printed object, seen from where it starts: the reader skips its
      indentation onto the brace, after which its lines are written. */
  lemma DictTextAt(v: Node, indent: nat, fmt: Fmt, input: string, pos: nat)
    requires v.Dict? && WrittenAt(input, pos, Printed(v, indent, fmt))
    ensures pos + indent < |input| && SkipSpaces(input, pos) == pos + indent && input[pos + indent] == '{'
    ensures WrittenAt(input, pos + indent + 1, Concat(DictLines(v, indent, fmt)) + Closing(indent, '}'))
  {
    DictPrintedForm(v, indent, fmt);
    OpeningBraceAt(input, pos, indent, Concat(DictLines(v, indent, fmt)) + Closing(indent, '}'));
  }

  /** Past the whitespace, a `{` at `brace` sends the reader to an object
      after it: what it reads there, ending at `end`, is the node read from
      `pos`. */
  lemma NodeAtBraceAt(input: string, pos: nat, brace: nat, p: nat, stod: Stod, x: Node, end: nat)
    requires pos <= brace < |input| && p == brace + 1
    requires SkipSpaces(input, pos) == brace && input[brace] == '{'
    requires DictAt(input, p, stod) == Success((x, end))
    ensures NodeAt(input, pos, stod) == Success((x, end))
  {
    NodeAtDict(input, pos, stod);
  }

  /** Wherever its text is written and delimited, a representable tree
      reads back as itself. */
  lemma {:induction false} PrintedReadsBack(v: Node, indent: nat, fmt: Fmt, stod: Stod, input: string)
    requires Representable(v)
    ensures ReadsBack(input, stod, Printed(v, indent, fmt), v)
    decreases v, 4, 0
  {
    var text := Printed(v, indent, fmt);
    forall q: nat | WrittenAt(input, q, text) && Delimits(input, q + |text|)
      ensures NodeAt(input, q, stod) == Success((v, q + |text|))
    {
      NodeRoundTrip(v, indent, fmt, stod, input, q, q + |text|);
    }
  }

  /** A representable tree printed at `pos`, and followed by a delimiter,
      reads back from `pos` as itself, ending exactly after its text. */
  lemma {:induction false} NodeRoundTrip(v: Node, indent: nat, fmt: Fmt, stod: Stod, input: string, pos: nat, end: nat)
    requires Representable(v)
    requires WrittenAt(input, pos, Printed(v, indent, fmt))
    requires end == pos + |Printed(v, indent, fmt)| && Delimits(input, end)
    ensures NodeAt(input, pos, stod) == Success((v, end))
    decreases v, 3, 0
  {
    match v
    case Null =>
      LiteralNodeAt(input, pos, "null", stod);
    case Bool(b) =>
      LiteralNodeAt(input, pos, if b then "true" else "false", stod);
    case Int(i) =>
      IntNodeAt(i, input, pos, stod);
    case Double(_) =>
      assert false;
    case String(s) =>
      StringNodeAt(s, input, pos, stod);
    case Array(_) =>
      ArrayRoundTrip(v, indent, fmt, stod, input, pos, end);
    case Dict(_) =>
      DictRoundTrip(v, indent, fmt, stod, input, pos, end);
  }

  /** `json::Load` after `json::Print`: a tree with no `double` and no key
      that needs escaping, printed at any indentation, reads back as itself,
      also when whitespace, a comma or a closing bracket follows it. */
  lemma PrintedRoundTrip(v: Node, indent: nat, fmt: Fmt, stod: Stod, rest: string)
    requires Representable(v)
    requires rest == [] || IsSpace(rest[0]) || rest[0] == ',' || rest[0] == ']' || rest[0] == '}'
    ensures NodeAt(Printed(v, indent, fmt) + rest, 0, stod) == Success((v, |Printed(v, indent, fmt)|))
    ensures Parse(Printed(v, indent, fmt), stod) == Success(v)
  {
    var text := Printed(v, indent, fmt);
    assert WrittenAt(text + rest, 0, text) by {
      forall k | 0 <= k < |text|
        ensures (text + rest)[0 + k] == text[k]
      {
      }
    }
    assert (text + rest)[|text|..] == rest;
    NodeRoundTrip(v, indent, fmt, stod, text + rest, 0, |text|);
    assert WrittenAt(text, 0, text);
    NodeRoundTrip(v, indent, fmt, stod, text, 0, |text|);
  }

  /** A representable tree's printed text parses as itself, whatever text
      to `double` conversion the reader uses. */
  lemma ReadsBackWhole(v: Node, indent: nat, fmt: Fmt)
    ensures Representable(v) ==> forall stod: Stod :: Parse(Printed(v, indent, fmt), stod) == Success(v)
  {
    if Representable(v) {
      forall stod: Stod
        ensures Parse(Printed(v, indent, fmt), stod) == Success(v)
      {
        PrintedRoundTrip(v, indent, fmt, stod, []);
      }
    }
  }

  /** `json::Print`: the root printed at the given indentation (0 by
      default). */
  method Print(root: Node, indent: nat, fmt: Fmt) returns (out: string)
    ensures out == Printed(root, indent, fmt)
    ensures Representable(root) ==> forall stod: Stod :: Parse(out, stod) == Success(root)
  {
    out := PrintNode(root, indent, fmt);
  }
}
