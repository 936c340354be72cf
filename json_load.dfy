/** The recursive-descent reader of the JSON dialect (`json::Load` and the
    `Load*` helpers of json.cpp).

    The `std::istream` becomes the whole input `input: string` and a cursor
    `pos`. Every reader returns the value it read and the cursor after it, or
    the error it throws. The grammar is given once, by the functions named
    `...At` (what the reader finds at a cursor); the methods named as in the
    source consume the input character by character, as the C++ does, and are
    proved to return exactly what the grammar says.

    Deviations from RFC 8259 that the source has, and this model keeps:
    unknown escapes (`\/`, `\u`, ...) are dropped, commas are optional, end of
    input closes an open array or object, the character before each key and the
    one after it (normally `"` and `:`) are consumed without being checked,
    duplicate keys keep their first value, and an integer that does not fit an
    `int` reads as `0`. */
module JsonLoad {
  import opened Wrappers
  import opened Strings
  import opened Json

  /** `std::stod` on a number lexeme: `None` when it throws (`out_of_range`).
      Floating-point conversion is outside the model, so the reader takes it
      as a parameter. */
  type Stod = string -> Option<real>

  const StringError := "Failed to read string from stream"
  const ValueError := "Failed to read value from stream"
  const ArrayError := "Failed to read array from stream"
  const DigitError := "A digit is expected"

  const Int32Min: int := -0x8000_0000
  const Int32Max: int := 0x7fff_ffff

  // ------------------------------------------------------------ scanning

  /** The classes of characters the reader skips over in runs. */
  datatype CharClass = Space | Digit | Letter

  predicate InClass(c: char, cls: CharClass) {
    match cls
    case Space => IsSpace(c)
    case Digit => IsDigit(c)
    case Letter => IsAlpha(c)
  }

  /** The first position at or after `pos` whose character is not in `cls`
      (the end of a run of digits, of letters, of whitespace). */
  function RunEnd(input: string, pos: nat, cls: CharClass): (r: nat)
    requires pos <= |input|
    ensures pos <= r <= |input|
    ensures r < |input| ==> !InClass(input[r], cls)
    decreases |input| - pos
  {
    if pos < |input| && InClass(input[pos], cls) then RunEnd(input, pos + 1, cls) else pos
  }

  /** Every character of the run is in `cls`. */
  lemma {:induction false} RunEndSpans(input: string, pos: nat, cls: CharClass)
    requires pos <= |input|
    ensures forall k :: pos <= k < RunEnd(input, pos, cls) ==> InClass(input[k], cls)
    decreases |input| - pos
  {
    if pos < |input| && InClass(input[pos], cls) {
      RunEndSpans(input, pos + 1, cls);
    }
  }

  /** Where `input >> c` finds its character: whitespace is skipped. */
  function SkipSpaces(input: string, pos: nat): (r: nat)
    requires pos <= |input|
    ensures pos <= r <= |input|
    ensures forall k :: pos <= k < r ==> IsSpace(input[k])
    ensures r < |input| ==> !IsSpace(input[r])
  {
    RunEndSpans(input, pos, Space);
    RunEnd(input, pos, Space)
  }

  /** The cursor after `input >> c`: the first non-space character, if
      there is one, is consumed. */
  function Consume(input: string, pos: nat): (r: nat)
    requires pos <= |input|
    ensures pos <= r <= |input|
    ensures r == |input| || (r > pos && r - 1 == SkipSpaces(input, pos))
  {
    var j := SkipSpaces(input, pos);
    if j < |input| then j + 1 else j
  }

  // ------------------------------------------------------------- numbers

  /** Where a number lexeme ends and whether it is an integer lexeme. */
  datatype Lexeme = Lexeme(end: nat, isInt: bool)

  predicate DigitAt(input: string, pos: nat) {
    pos < |input| && IsDigit(input[pos])
  }

  /** `read_digits`: one digit or more, else "A digit is expected". */
  function DigitsAt(input: string, pos: nat): (r: Result<nat>)
    requires pos <= |input|
    ensures r.Success? <==> DigitAt(input, pos)
    ensures r.Success? ==> r.value == RunEnd(input, pos, Digit) && pos < r.value
    ensures r.Failure? ==> r.error == ParsingError(DigitError)
  {
    if DigitAt(input, pos) then Success(RunEnd(input, pos, Digit))
    else Failure(ParsingError(DigitError))
  }

  /** The integer part at `p`: one `0` (any digits after it are left for the
      caller), or a run of digits. */
  function IntPartAt(input: string, p: nat): (r: Result<nat>)
    requires p <= |input|
    ensures r.Success? ==> p < r.value <= |input|
    ensures r.Failure? ==> r.error == ParsingError(DigitError)
  {
    if p < |input| && input[p] == '0' then Success(p + 1) else DigitsAt(input, p)
  }

  predicate HasFraction(input: string, p: nat) {
    p < |input| && input[p] == '.'
  }

  /** An optional fraction at `p`: `.` and one digit or more. */
  function FractionAt(input: string, p: nat): (r: Result<nat>)
    requires p <= |input|
    ensures r.Success? ==> p <= r.value <= |input| && (HasFraction(input, p) ==> p + 1 < r.value)
    ensures r.Failure? ==> r.error == ParsingError(DigitError)
  {
    if HasFraction(input, p) then DigitsAt(input, p + 1) else Success(p)
  }

  predicate HasExponent(input: string, p: nat) {
    p < |input| && (input[p] == 'e' || input[p] == 'E')
  }

  /** An optional exponent at `p`: `e` or `E`, at most one sign, and one
      digit or more. */
  function ExponentAt(input: string, p: nat): (r: Result<nat>)
    requires p <= |input|
    ensures r.Success? ==> p <= r.value <= |input| && (HasExponent(input, p) ==> p + 1 < r.value)
    ensures r.Failure? ==> r.error == ParsingError(DigitError)
  {
    if HasExponent(input, p) then
      var digits := if p + 1 < |input| && (input[p + 1] == '+' || input[p + 1] == '-') then p + 2 else p + 1;
      DigitsAt(input, digits)
    else Success(p)
  }

  /** The lexeme `LoadNumber` reads: an optional `-`, the integer part, an
      optional fraction and an optional exponent. A lexeme with a fraction or
      an exponent is not an integer. */
  function ScanNumber(input: string, pos: nat): (r: Result<Lexeme>)
    requires pos <= |input|
    ensures r.Success? ==> pos < r.value.end <= |input|
    ensures r.Failure? ==> r.error == ParsingError(DigitError)
  {
    var p1 := if pos < |input| && input[pos] == '-' then pos + 1 else pos;
    var p2 :- IntPartAt(input, p1);
    var p3 :- FractionAt(input, p2);
    var p4 :- ExponentAt(input, p3);
    Success(Lexeme(p4, !HasFraction(input, p2) && !HasExponent(input, p3)))
  }

  /** `std::stoi` on an integer lexeme: the signed decimal value, `None` when
      there is no digit to read. */
  function Stoi(lexeme: string): Option<int> {
    if |lexeme| > 0 && lexeme[0] == '-' then
      if |lexeme| > 1 && AllDigits(lexeme[1..]) then Some(-(DigitsValue(lexeme[1..]) as int)) else None
    else if |lexeme| > 0 && AllDigits(lexeme) then Some(DigitsValue(lexeme))
    else None
  }

  /** The `int` an integer lexeme yields: `stoi` throws on a value outside the
      `int` range, the empty `catch` swallows it, and `number` keeps its
      default, the `int` 0. */
  function IntOrZero(lexeme: string): (r: int32)
    ensures match Stoi(lexeme)
            case Some(v) => (Int32Min <= v <= Int32Max ==> r as int == v)
                         && (!(Int32Min <= v <= Int32Max) ==> r == 0)
            case None => r == 0
  {
    match Stoi(lexeme)
    case Some(v) => if Int32Min <= v <= Int32Max then v as int32 else 0
    case None => 0
  }

  /** What `LoadNumber` returns for a lexeme. */
  function NumberNode(lexeme: string, isInt: bool, stod: Stod): (r: Result<Node>)
    ensures r.Success? ==> (r.value.Int? <==> isInt) && (r.value.Double? <==> !isInt)
    ensures r.Failure? ==> !isInt && stod(lexeme).None?
  {
    if isInt then Success(Int(IntOrZero(lexeme)))
    else match stod(lexeme)
      case Some(d) => Success(Double(d))
      case None => Failure(ParsingError("Failed to convert " + lexeme + " to number"))
  }

  function NumberAt(input: string, pos: nat, stod: Stod): (r: Result<(Node, nat)>)
    requires pos <= |input|
    ensures r.Success? ==> pos < r.value.1 <= |input|
  {
    var lexeme :- ScanNumber(input, pos);
    var node :- NumberNode(input[pos..lexeme.end], lexeme.isInt, stod);
    Success((node, lexeme.end))
  }

  // ------------------------------------------------------------- strings

  /** What an escape `\c` contributes to the string: `\n \r \t \" \\` their
      character, any other `c` nothing at all. */
  function Unescaped(c: char): (r: string)
    ensures |r| <= 1
    ensures r == "" <==> !(c in "nrt\"\\")
  {
    if c == 'n' then "\n"
    else if c == 'r' then "\r"
    else if c == 't' then "\t"
    else if c == '"' then "\""
    else if c == '\\' then "\\"
    else ""
  }

  /** The string whose body starts at `pos` (just after the opening quote), and
      the cursor after its closing quote. A raw line feed or carriage return,
      or the end of input before the closing quote, is an error. */
  function StringAt(input: string, pos: nat): (r: Result<(string, nat)>)
    requires pos <= |input|
    ensures r.Success? ==> pos < r.value.1 <= |input| && input[r.value.1 - 1] == '"'
    ensures r.Failure? ==> r.error == ParsingError(StringError)
    decreases |input| - pos
  {
    if pos == |input| then Failure(ParsingError(StringError))
    else if input[pos] == '"' then Success(("", pos + 1))
    else if input[pos] == '\n' || input[pos] == '\r' then Failure(ParsingError(StringError))
    else if input[pos] != '\\' then
      var rest :- StringAt(input, pos + 1);
      Success(([input[pos]] + rest.0, rest.1))
    else if pos + 1 == |input| then Failure(ParsingError(StringError))
    else
      var rest :- StringAt(input, pos + 2);
      Success((Unescaped(input[pos + 1]) + rest.0, rest.1))
  }

  // ------------------------------------------------------------- literals

  /** `LoadBoolNull`: the maximal run of letters must be exactly `true`,
      `false` or `null`. */
  function LiteralAt(input: string, pos: nat): (r: Result<(Node, nat)>)
    requires pos <= |input|
    ensures var word := input[pos..RunEnd(input, pos, Letter)];
            && (r.Success? <==> word == "true" || word == "false" || word == "null")
            && (r.Success? ==> r.value.1 == RunEnd(input, pos, Letter))
            && (word == "true" ==> r.value.0 == Bool(true))
            && (word == "false" ==> r.value.0 == Bool(false))
            && (word == "null" ==> r.value.0 == Null)
    ensures r.Failure? ==> r.error == ParsingError(ValueError)
  {
    var end := RunEnd(input, pos, Letter);
    var word := input[pos..end];
    if word == "true" then Success((Bool(true), end))
    else if word == "false" then Success((Bool(false), end))
    else if word == "null" then Success((Null, end))
    else Failure(ParsingError(ValueError))
  }

  // ------------------------------------------------- values and containers

  /** A character that can start a value: `[ { "`, `t f n`, a digit, `-`. */
  predicate StartsValue(c: char) {
    c == '[' || c == '{' || c == '"' || c == 't' || c == 'f' || c == 'n' || IsDigit(c) || c == '-'
  }

  /** `LoadNode`: dispatch on the first non-space character. */
  function NodeAt(input: string, pos: nat, stod: Stod): (r: Result<(Node, nat)>)
    requires pos <= |input|
    ensures r.Success? ==> pos < r.value.1 <= |input|
    ensures r.Success? ==> SkipSpaces(input, pos) < |input| && StartsValue(input[SkipSpaces(input, pos)])
    decreases |input| - pos, 0
  {
    var i := SkipSpaces(input, pos);
    if i == |input| then Failure(ParsingError(ValueError))
    else if input[i] == '[' then ArrayAt(input, i + 1, stod)
    else if input[i] == '{' then DictAt(input, i + 1, stod)
    else if input[i] == '"' then
      var s :- StringAt(input, i + 1);
      Success((String(s.0), s.1))
    else if input[i] == 't' || input[i] == 'f' || input[i] == 'n' then LiteralAt(input, i)
    else if IsDigit(input[i]) || input[i] == '-' then NumberAt(input, i, stod)
    else Failure(ParsingError(ValueError))
  }

  /** `LoadArray`, entered just after `[`. */
  function ArrayAt(input: string, pos: nat, stod: Stod): (r: Result<(Node, nat)>)
    requires pos <= |input|
    ensures r.Success? ==> pos <= r.value.1 <= |input| && r.value.0.Array?
    decreases |input| - pos, 2
  {
    if pos == |input| then Failure(ParsingError(ArrayError))
    else
      var items :- ItemsAt(input, pos, stod);
      Success((Array(items.0), items.1))
  }

  /** The elements of an array from `pos` on: stop at `]` or at the end of
      input; a `,` before an element is skipped, and so is its absence. */
  function ItemsAt(input: string, pos: nat, stod: Stod): (r: Result<(seq<Node>, nat)>)
    requires pos <= |input|
    ensures r.Success? ==> pos <= r.value.1 <= |input|
    decreases |input| - pos, 1
  {
    var i := SkipSpaces(input, pos);
    if i == |input| then Success(([], i))
    else if input[i] == ']' then Success(([], i + 1))
    else
      var start := if input[i] == ',' then i + 1 else i;
      var first :- NodeAt(input, start, stod);
      var rest :- ItemsAt(input, first.1, stod);
      Success(([first.0] + rest.0, rest.1))
  }

  /** `LoadDict`, entered just after `{`. */
  function DictAt(input: string, pos: nat, stod: Stod): (r: Result<(Node, nat)>)
    requires pos <= |input|
    ensures r.Success? ==> pos <= r.value.1 <= |input| && r.value.0.Dict?
    decreases |input| - pos, 2
  {
    if pos == |input| then Failure(ParsingError(ArrayError))
    else
      var entries :- EntriesAt(input, pos, stod);
      Success((Dict(entries.0), entries.1))
  }

  /** The entries of an object from `pos` on. The character `input >> c`
      reads before a key (one more after a `,`) and the one it reads after the
      key are consumed unchecked; an earlier entry wins over a later one with
      the same key (`std::map::insert`). */
  function EntriesAt(input: string, pos: nat, stod: Stod): (r: Result<(map<string, Node>, nat)>)
    requires pos <= |input|
    ensures r.Success? ==> pos <= r.value.1 <= |input|
    decreases |input| - pos, 1
  {
    var i := SkipSpaces(input, pos);
    if i == |input| then Success((map[], i))
    else if input[i] == '}' then Success((map[], i + 1))
    else
      var keyStart := if input[i] == ',' then Consume(input, i + 1) else i + 1;
      var key :- StringAt(input, keyStart);
      var value :- NodeAt(input, Consume(input, key.1), stod);
      var rest :- EntriesAt(input, value.1, stod);
      Success((rest.0[key.0 := value.0], rest.1))
  }

  /** `json::Load`: the root value; whatever follows it is not read. */
  function Parse(input: string, stod: Stod): Result<Node> {
    var root :- NodeAt(input, 0, stod);
    Success(root.0)
  }

  // ------------------------------------------------------------- readers

  /** `s` in front of the string a reader returns. */
  function PrependString(s: string, r: Result<(string, nat)>): Result<(string, nat)> {
    match r
    case Success(v) => Success((s + v.0, v.1))
    case Failure(e) => Failure(e)
  }

  /** `items` in front of the elements a reader returns. */
  function PrependItems(items: seq<Node>, r: Result<(seq<Node>, nat)>): Result<(seq<Node>, nat)> {
    match r
    case Success(v) => Success((items + v.0, v.1))
    case Failure(e) => Failure(e)
  }

  lemma PrependStringStep(a: string, b: string, r: Result<(string, nat)>)
    ensures PrependString(a, PrependString(b, r)) == PrependString(a + b, r)
    ensures PrependString("", r) == r
  {
    match r
    case Success(v) =>
      assert a + (b + v.0) == (a + b) + v.0;
      assert "" + v.0 == v.0;
    case Failure(_) =>
  }

  lemma PrependItemsStep(a: seq<Node>, b: seq<Node>, r: Result<(seq<Node>, nat)>)
    ensures PrependItems(a, PrependItems(b, r)) == PrependItems(a + b, r)
    ensures PrependItems([], r) == r
  {
    match r
    case Success(v) =>
      assert a + (b + v.0) == (a + b) + v.0;
      assert [] + v.0 == v.0;
    case Failure(_) =>
  }

  /** The entries read so far win over the ones a reader returns later. */
  function MergeEntries(read: map<string, Node>, r: Result<(map<string, Node>, nat)>): Result<(map<string, Node>, nat)> {
    match r
    case Success(v) => Success((v.0 + read, v.1))
    case Failure(e) => Failure(e)
  }

  /** One more entry, inserted as `std::map::insert` does, then the rest. */
  lemma MergeEntriesStep(read: map<string, Node>, key: string, value: Node, r: Result<(map<string, Node>, nat)>)
    ensures MergeEntries(read, PrependEntry(key, value, r))
         == MergeEntries(if key in read then read else read[key := value], r)
    ensures MergeEntries(map[], r) == r
  {
    match r
    case Success(v) =>
      var read' := if key in read then read else read[key := value];
      assert v.0[key := value] + read == v.0 + read';
      assert v.0 + map[] == v.0;
    case Failure(_) =>
  }

  lemma MergeEntriesDone(read: map<string, Node>, end: nat)
    ensures MergeEntries(read, Success((map[], end))) == Success((read, end))
  {
    assert map[] + read == read;
  }

  /** The entries after one entry, with that entry added. */
  function PrependEntry(key: string, value: Node, r: Result<(map<string, Node>, nat)>): Result<(map<string, Node>, nat)> {
    match r
    case Success(v) => Success((v.0[key := value], v.1))
    case Failure(e) => Failure(e)
  }

  /** `read_digits`, advancing over the digits one at a time. */
  method ReadDigits(input: string, pos: nat) returns (r: Result<nat>)
    requires pos <= |input|
    ensures r == DigitsAt(input, pos)
  {
    if !DigitAt(input, pos) {
      return Failure(ParsingError(DigitError));
    }
    var p := pos;
    while p < |input| && IsDigit(input[p])
      invariant pos <= p <= |input|
      invariant RunEnd(input, pos, Digit) == RunEnd(input, p, Digit)
      decreases |input| - p
    {
      p := p + 1;
    }
    return Success(p);
  }

  /** The integer part: one `0`, or `read_digits`. */
  method ReadIntegerPart(input: string, p: nat) returns (r: Result<nat>)
    requires p <= |input|
    ensures r == IntPartAt(input, p)
  {
    if p < |input| && input[p] == '0' {
      r := Success(p + 1);
    } else {
      r := ReadDigits(input, p);
    }
  }

  /** The exponent, entered at the character after the number's fraction. */
  method ReadExponent(input: string, p: nat) returns (r: Result<nat>)
    requires p <= |input|
    ensures r == ExponentAt(input, p)
  {
    if p < |input| && (input[p] == 'e' || input[p] == 'E') {
      var q := p + 1;
      if q < |input| && (input[q] == '+' || input[q] == '-') {
        q := q + 1;
      }
      r := ReadDigits(input, q);
    } else {
      r := Success(p);
    }
  }

  /** The scanning half of `LoadNumber`: the sign, the integer part, the
      fraction and the exponent, in this order. */
  method ReadNumberLexeme(input: string, pos: nat) returns (r: Result<Lexeme>)
    requires pos <= |input|
    ensures r == ScanNumber(input, pos)
  {
    var p1 := pos;
    if p1 < |input| && input[p1] == '-' {
      p1 := p1 + 1;
    }
    var p2 :- ReadIntegerPart(input, p1);
    var isInt := true;
    var p3 := p2;
    if p2 < |input| && input[p2] == '.' {
      p3 :- ReadDigits(input, p2 + 1);
      isInt := false;
    }
    assert FractionAt(input, p2) == Success(p3);
    if p3 < |input| && (input[p3] == 'e' || input[p3] == 'E') {
      isInt := false;
    }
    var p4 :- ReadExponent(input, p3);
    return Success(Lexeme(p4, isInt));
  }

  /** `LoadNumber`: the characters consumed form `parsed_num`, which `stoi`
      or `stod` converts. */
  method LoadNumber(input: string, pos: nat, stod: Stod) returns (r: Result<(Node, nat)>)
    requires pos <= |input|
    ensures r == NumberAt(input, pos, stod)
  {
    var lexeme :- ReadNumberLexeme(input, pos);
    var parsedNum := input[pos..lexeme.end];
    if lexeme.isInt {
      var number: int32 := 0;
      match Stoi(parsedNum) {
        case Some(v) =>
          if Int32Min <= v <= Int32Max {
            number := v as int32;
          }
        case None =>
      }
      r := Success((Int(number), lexeme.end));
    } else {
      match stod(parsedNum) {
        case Some(d) => r := Success((Double(d), lexeme.end));
        case None => r := Failure(ParsingError("Failed to convert " + parsedNum + " to number"));
      }
    }
  }

  /** One step of `StringAt`: an ordinary character, or an escape. */
  lemma StringAtStep(input: string, q: nat)
    requires q < |input| && input[q] != '"' && input[q] != '\n' && input[q] != '\r'
    ensures input[q] != '\\' ==> StringAt(input, q) == PrependString([input[q]], StringAt(input, q + 1))
    ensures input[q] == '\\' && q + 1 < |input| ==>
              StringAt(input, q) == PrependString(Unescaped(input[q + 1]), StringAt(input, q + 2))
    ensures input[q] == '\\' && q + 1 == |input| ==> StringAt(input, q) == Failure(ParsingError(StringError))
  {
  }

  /** `LoadString`, entered just after the opening quote. */
  method LoadString(input: string, pos: nat) returns (r: Result<(string, nat)>)
    requires pos <= |input|
    ensures r == StringAt(input, pos)
  {
    if pos == |input| {
      return Failure(ParsingError(StringError));
    }
    var str := "";
    var c := input[pos];
    var p := pos + 1;
    PrependStringStep("", "", StringAt(input, pos));
    while c != '"'
      invariant pos < p <= |input| && c == input[p - 1]
      invariant StringAt(input, pos) == PrependString(str, StringAt(input, p - 1))
      decreases |input| - p
    {
      if c == '\n' || c == '\r' {
        return Failure(ParsingError(StringError));
      } else if c != '\\' {
        StringAtStep(input, p - 1);
        PrependStringStep(str, [c], StringAt(input, p));
        str := str + [c];
      } else {
        StringAtStep(input, p - 1);
        if p == |input| {
          return Failure(ParsingError(StringError));
        }
        PrependStringStep(str, Unescaped(input[p]), StringAt(input, p + 1));
        c := input[p];
        p := p + 1;
        str := str + Unescaped(c);
      }
      if p == |input| {
        return Failure(ParsingError(StringError));
      }
      c := input[p];
      p := p + 1;
    }
    assert str + "" == str;
    return Success((str, p));
  }

  /** `LoadBoolNull`: collect the letters, then compare the word. */
  method LoadBoolNull(input: string, pos: nat) returns (r: Result<(Node, nat)>)
    requires pos <= |input|
    ensures r == LiteralAt(input, pos)
  {
    var parsedValue := "";
    var p := pos;
    while p < |input| && IsAlpha(input[p])
      invariant pos <= p <= |input| && parsedValue == input[pos..p]
      invariant RunEnd(input, pos, Letter) == RunEnd(input, p, Letter)
      decreases |input| - p
    {
      parsedValue := parsedValue + [input[p]];
      p := p + 1;
    }
    if parsedValue == "true" {
      r := Success((Bool(true), p));
    } else if parsedValue == "false" {
      r := Success((Bool(false), p));
    } else if parsedValue == "null" {
      r := Success((Null, p));
    } else {
      r := Failure(ParsingError(ValueError));
    }
  }

  /** `LoadNode`. */
  method LoadNode(input: string, pos: nat, stod: Stod) returns (r: Result<(Node, nat)>)
    requires pos <= |input|
    ensures r == NodeAt(input, pos, stod)
    decreases |input| - pos, 0
  {
    var i := SkipSpaces(input, pos);
    if i == |input| {
      return Failure(ParsingError(ValueError));
    }
    var c := input[i];
    if c == '[' {
      r := LoadArray(input, i + 1, stod);
    } else if c == '{' {
      r := LoadDict(input, i + 1, stod);
    } else if c == '"' {
      var s :- LoadString(input, i + 1);
      r := Success((String(s.0), s.1));
    } else if c == 't' || c == 'f' || c == 'n' {
      r := LoadBoolNull(input, i);
    } else if IsDigit(c) || c == '-' {
      r := LoadNumber(input, i, stod);
    } else {
      r := Failure(ParsingError(ValueError));
    }
  }

  /** `LoadArray`, entered just after `[`. */
  method LoadArray(input: string, pos: nat, stod: Stod) returns (r: Result<(Node, nat)>)
    requires pos <= |input|
    ensures r == ArrayAt(input, pos, stod)
    decreases |input| - pos, 2
  {
    if pos == |input| {
      return Failure(ParsingError(ArrayError));
    }
    var items :- LoadItems(input, pos, stod);
    return Success((Array(items.0), items.1));
  }

  /** The element loop of `LoadArray`. */
  method LoadItems(input: string, pos: nat, stod: Stod) returns (r: Result<(seq<Node>, nat)>)
    requires pos <= |input|
    ensures r == ItemsAt(input, pos, stod)
    decreases |input| - pos, 1
  {
    var result: seq<Node> := [];
    var p := pos;
    var i := SkipSpaces(input, p);
    PrependItemsStep([], [], ItemsAt(input, pos, stod));
    while i < |input| && input[i] != ']'
      invariant pos <= p <= i <= |input| && i == SkipSpaces(input, p)
      invariant ItemsAt(input, pos, stod) == PrependItems(result, ItemsAt(input, p, stod))
      decreases |input| - p
    {
      var start := if input[i] == ',' then i + 1 else i;
      var element := LoadNode(input, start, stod);
      ItemsLoopStep(input, pos, p, stod, result, start, element);
      if element.Failure? {
        return Failure(element.error);
      }
      result := result + [element.value.0];
      p := element.value.1;
      i := SkipSpaces(input, p);
    }
    ItemsLoopEnd(input, pos, p, stod, result);
    return Success((result, if i < |input| then i + 1 else i));
  }

  /** One pass of the loop of `LoadItems`: the element read joins the
      elements before it, or its error is the array's. */
  lemma ItemsLoopStep(input: string, pos: nat, p: nat, stod: Stod, result: seq<Node>, start: nat,
                      first: Result<(Node, nat)>)
    requires pos <= p <= |input| && SkipSpaces(input, p) < |input| && input[SkipSpaces(input, p)] != ']'
    requires start == if input[SkipSpaces(input, p)] == ',' then SkipSpaces(input, p) + 1 else SkipSpaces(input, p)
    requires first == NodeAt(input, start, stod)
    requires ItemsAt(input, pos, stod) == PrependItems(result, ItemsAt(input, p, stod))
    ensures first.Failure? ==> ItemsAt(input, pos, stod) == Failure(first.error)
    ensures first.Success? ==>
              ItemsAt(input, pos, stod) == PrependItems(result + [first.value.0], ItemsAt(input, first.value.1, stod))
  {
    ItemsAtStep(input, p, stod);
    if first.Success? {
      PrependItemsStep(result, [first.value.0], ItemsAt(input, first.value.1, stod));
    }
  }

  /** The end of the loop of `LoadItems`: at `]`, or at the end of input,
      the elements read are the array's. */
  lemma ItemsLoopEnd(input: string, pos: nat, p: nat, stod: Stod, result: seq<Node>)
    requires pos <= p <= |input| && (SkipSpaces(input, p) == |input| || input[SkipSpaces(input, p)] == ']')
    requires ItemsAt(input, pos, stod) == PrependItems(result, ItemsAt(input, p, stod))
    ensures SkipSpaces(input, p) < |input| ==> ItemsAt(input, pos, stod) == Success((result, (SkipSpaces(input, p) + 1) as nat))
    ensures SkipSpaces(input, p) == |input| ==> ItemsAt(input, pos, stod) == Success((result, |input|))
  {
    if SkipSpaces(input, p) < |input| {
      ItemsAtStep(input, p, stod);
    }
    assert result + [] == result;
  }

  /** One step of `ItemsAt`: `]` closes the array; otherwise an element,
      then the rest. */
  lemma ItemsAtStep(input: string, p: nat, stod: Stod)
    requires p <= |input| && SkipSpaces(input, p) < |input|
    ensures var i := SkipSpaces(input, p);
            input[i] == ']' ==> ItemsAt(input, p, stod) == Success(([], (i + 1) as nat))
    ensures var i := SkipSpaces(input, p);
            var first := NodeAt(input, if input[i] == ',' then i + 1 else i, stod);
            input[i] != ']' && first.Failure? ==> ItemsAt(input, p, stod) == Failure(first.error)
    ensures var i := SkipSpaces(input, p);
            var first := NodeAt(input, if input[i] == ',' then i + 1 else i, stod);
            input[i] != ']' && first.Success? ==>
              ItemsAt(input, p, stod) == PrependItems([first.value.0], ItemsAt(input, first.value.1, stod))
  {
  }

  /** The key cursor of the entry that starts at the first non-space
      character `i`. */
  function KeyStart(input: string, i: nat): (r: nat)
    requires i < |input|
    ensures i < r <= |input|
  {
    if input[i] == ',' then Consume(input, i + 1) else i + 1
  }

  /** The entries from the value of key `key` on; the value is read after
      the character that follows the key. */
  function ValueThenEntries(input: string, key: string, keyEnd: nat, stod: Stod): Result<(map<string, Node>, nat)>
    requires keyEnd <= |input|
  {
    match NodeAt(input, Consume(input, keyEnd), stod)
    case Failure(e) => Failure(e)
    case Success(value) => PrependEntry(key, value.0, EntriesAt(input, value.1, stod))
  }

  /** One step of `EntriesAt`: the key, the value, then the rest. */
  lemma EntriesAtStep(input: string, p: nat, stod: Stod)
    requires p <= |input|
    requires SkipSpaces(input, p) < |input| && input[SkipSpaces(input, p)] != '}'
    ensures var key := StringAt(input, KeyStart(input, SkipSpaces(input, p)));
            key.Failure? ==> EntriesAt(input, p, stod) == Failure(key.error)
    ensures var key := StringAt(input, KeyStart(input, SkipSpaces(input, p)));
            key.Success? ==> EntriesAt(input, p, stod) == ValueThenEntries(input, key.value.0, key.value.1, stod)
  {
  }

  /** The value of an entry read, or its error. */
  lemma ValueThenEntriesCases(input: string, key: string, keyEnd: nat, stod: Stod)
    requires keyEnd <= |input|
    ensures var value := NodeAt(input, Consume(input, keyEnd), stod);
            value.Failure? ==> ValueThenEntries(input, key, keyEnd, stod) == Failure(value.error)
    ensures var value := NodeAt(input, Consume(input, keyEnd), stod);
            value.Success? ==> ValueThenEntries(input, key, keyEnd, stod)
                               == PrependEntry(key, value.value.0, EntriesAt(input, value.value.1, stod))
  {
  }

  /** The entries end at the end of the input or after `}`. */
  lemma EntriesAtEnd(input: string, p: nat, stod: Stod)
    requires p <= |input|
    requires var i := SkipSpaces(input, p); i == |input| || input[i] == '}'
    ensures var i: nat := SkipSpaces(input, p);
            EntriesAt(input, p, stod) == Success((map[], (if i < |input| then i + 1 else i) as nat))
  {
  }

  /** `LoadDict`, entered just after `{`. */
  method LoadDict(input: string, pos: nat, stod: Stod) returns (r: Result<(Node, nat)>)
    requires pos <= |input|
    ensures r == DictAt(input, pos, stod)
    decreases |input| - pos, 2
  {
    if pos == |input| {
      return Failure(ParsingError(ArrayError));
    }
    var entries :- LoadEntries(input, pos, stod);
    return Success((Dict(entries.0), entries.1));
  }

  /** The loop of `LoadDict`: reads `"key": value` entries until `}` or the
      end of the input. */
  method LoadEntries(input: string, pos: nat, stod: Stod) returns (r: Result<(map<string, Node>, nat)>)
    requires pos <= |input|
    ensures r == EntriesAt(input, pos, stod)
    decreases |input| - pos, 1
  {
    var result: map<string, Node> := map[];
    var p := pos;
    var i := SkipSpaces(input, p);
    MergeEntriesStep(map[], "", Null, EntriesAt(input, pos, stod));
    while i < |input| && input[i] != '}'
      invariant pos <= p <= i <= |input| && i == SkipSpaces(input, p)
      invariant EntriesAt(input, pos, stod) == MergeEntries(result, EntriesAt(input, p, stod))
      decreases |input| - p
    {
      var keyStart := if input[i] == ',' then Consume(input, i + 1) else i + 1;
      var key := LoadString(input, keyStart);
      EntriesKeyStep(input, pos, p, stod, result, keyStart, key);
      if key.Failure? {
        return Failure(key.error);
      }
      var keyRead := key.value;
      var value := LoadNode(input, Consume(input, keyRead.1), stod);
      EntriesValueStep(input, pos, stod, result, keyRead.0, keyRead.1, value);
      if value.Failure? {
        return Failure(value.error);
      }
      if keyRead.0 !in result {
        result := result[keyRead.0 := value.value.0];
      }
      p := value.value.1;
      i := SkipSpaces(input, p);
    }
    EntriesLoopEnd(input, pos, p, stod, result);
    return Success((result, if i < |input| then i + 1 else i));
  }

  /** The key of one pass of the loop of `LoadEntries`: its error is the
      object's, or the entries go on with its value. */
  lemma EntriesKeyStep(input: string, pos: nat, p: nat, stod: Stod, result: map<string, Node>, keyStart: nat,
                       key: Result<(string, nat)>)
    requires pos <= p <= |input| && SkipSpaces(input, p) < |input| && input[SkipSpaces(input, p)] != '}'
    requires keyStart == KeyStart(input, SkipSpaces(input, p))
    requires key == StringAt(input, keyStart)
    requires EntriesAt(input, pos, stod) == MergeEntries(result, EntriesAt(input, p, stod))
    ensures key.Failure? ==> EntriesAt(input, pos, stod) == Failure(key.error)
    ensures key.Success? ==>
              EntriesAt(input, pos, stod) == MergeEntries(result, ValueThenEntries(input, key.value.0, key.value.1, stod))
  {
    EntriesAtStep(input, p, stod);
  }

  /** The value of one pass of the loop of `LoadEntries`: its error is the
      object's, or the entry is inserted unless its key is already there. */
  lemma EntriesValueStep(input: string, pos: nat, stod: Stod, result: map<string, Node>, key: string, keyEnd: nat,
                         value: Result<(Node, nat)>)
    requires pos <= |input| && keyEnd <= |input|
    requires value == NodeAt(input, Consume(input, keyEnd), stod)
    requires EntriesAt(input, pos, stod) == MergeEntries(result, ValueThenEntries(input, key, keyEnd, stod))
    ensures value.Failure? ==> EntriesAt(input, pos, stod) == Failure(value.error)
    ensures value.Success? ==>
              EntriesAt(input, pos, stod)
              == MergeEntries(if key in result then result else result[key := value.value.0],
                              EntriesAt(input, value.value.1, stod))
  {
    ValueThenEntriesCases(input, key, keyEnd, stod);
    if value.Success? {
      MergeEntriesStep(result, key, value.value.0, EntriesAt(input, value.value.1, stod));
    }
  }

  /** The end of the loop of `LoadEntries`: at `}`, or at the end of input,
      the entries read are the object's. */
  lemma EntriesLoopEnd(input: string, pos: nat, p: nat, stod: Stod, result: map<string, Node>)
    requires pos <= p <= |input|
    requires SkipSpaces(input, p) == |input| || input[SkipSpaces(input, p)] == '}'
    requires EntriesAt(input, pos, stod) == MergeEntries(result, EntriesAt(input, p, stod))
    ensures var i: nat := SkipSpaces(input, p);
            EntriesAt(input, pos, stod) == Success((result, (if i < |input| then i + 1 else i) as nat))
  {
    EntriesAtEnd(input, p, stod);
    var i: nat := SkipSpaces(input, p);
    MergeEntriesDone(result, if i < |input| then i + 1 else i);
  }

  /** `json::Load`. */
  method Load(input: string, stod: Stod) returns (r: Result<Node>)
    ensures r == Parse(input, stod)
  {
    var root :- LoadNode(input, 0, stod);
    return Success(root.0);
  }
}
