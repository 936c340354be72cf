/** What the reader of json.cpp accepts and what it yields, stated over the
    grammar functions of `JsonLoad`. */
module JsonLoadProperties {
  import opened Wrappers
  import opened Strings
  import opened Json
  import opened JsonLoad

  // ------------------------------------------------------------- strings

  /** A raw line feed or carriage return before any quote or backslash makes
      the string unreadable. */
  lemma {:induction false} RawLineBreakFails(input: string, pos: nat, q: nat)
    requires pos <= q < |input|
    requires input[q] == '\n' || input[q] == '\r'
    requires forall k :: pos <= k < q ==> input[k] != '"' && input[k] != '\\'
    ensures StringAt(input, pos) == Failure(ParsingError(StringError))
    decreases q - pos
  {
    if pos < q {
      RawLineBreakFails(input, pos + 1, q);
    }
  }

  /** Without a closing quote the input ends inside the string: an error. */
  lemma {:induction false} UnterminatedStringFails(input: string, pos: nat)
    requires pos <= |input|
    requires forall k :: pos <= k < |input| ==> input[k] != '"'
    ensures StringAt(input, pos) == Failure(ParsingError(StringError))
    decreases |input| - pos
  {
    if pos < |input| && input[pos] != '\n' && input[pos] != '\r' {
      if input[pos] != '\\' {
        UnterminatedStringFails(input, pos + 1);
      } else if pos + 1 < |input| {
        UnterminatedStringFails(input, pos + 2);
      }
    }
  }

  /** `\/` and `\u` are not escapes of this dialect: both characters vanish,
      and the four hex digits after `\u` are read as ordinary characters. */
  lemma SolidusAndUnicodeEscapesDropped(input: string, pos: nat)
    requires pos + 1 < |input| && input[pos] == '\\' && (input[pos + 1] == '/' || input[pos + 1] == 'u')
    ensures StringAt(input, pos) == StringAt(input, pos + 2)
  {
    StringAtStep(input, pos);
    PrependStringStep("", "", StringAt(input, pos + 2));
  }

  // ------------------------------------------------------------- numbers

  /** A run of `n` characters in `cls` that is not followed by one ends `n`
      characters on. */
  lemma {:induction false} RunEndAfter(input: string, pos: nat, n: nat, cls: CharClass)
    requires pos + n <= |input|
    requires forall k :: pos <= k < pos + n ==> InClass(input[k], cls)
    requires pos + n == |input| || !InClass(input[pos + n], cls)
    ensures RunEnd(input, pos, cls) == pos + n
    decreases n
  {
    if n > 0 {
      RunEndAfter(input, pos + 1, n - 1, cls);
    }
  }

  /** What may follow a number without being read as part of it. */
  predicate EndsNumber(rest: string) {
    rest == [] || !(IsDigit(rest[0]) || rest[0] == '.' || rest[0] == 'e' || rest[0] == 'E')
  }

  /** `stoi` reads back the decimal text of every integer. */
  lemma StoiReadsDecimal(i: int)
    ensures Stoi(IntToString(i)) == Some(i)
  {
    var s := IntToString(i);
    if i < 0 {
      assert s[1..] == NatToString(-i);
    } else {
      assert s == NatToString(i);
    }
  }

  /** A run of digits that does not start with `0` unless it is the single
      digit `0`, and is not followed by a digit, is a whole integer part. */
  lemma DigitRunIsIntegerPart(input: string, p1: nat, end: nat)
    requires p1 < end <= |input| && AllDigits(input[p1..end])
    requires input[p1] == '0' ==> end == p1 + 1
    requires end == |input| || !IsDigit(input[end])
    ensures IntPartAt(input, p1) == Success(end)
  {
    if input[p1] != '0' {
      forall k | p1 <= k < end ensures IsDigit(input[k]) {
        assert input[k] == input[p1..end][k - p1];
      }
      RunEndAfter(input, p1, end - p1, Digit);
    }
  }

  /** The integer part of the decimal text of `i` at `pos` ends where the text
      ends, and neither a fraction nor an exponent follows. */
  lemma DecimalIntegerPart(input: string, pos: nat, i: int)
    requires var s := IntToString(i);
             pos + |s| <= |input| && input[pos..pos + |s|] == s && EndsNumber(input[pos + |s|..])
    ensures var end := pos + |IntToString(i)|;
            && (input[pos] == '-' <==> i < 0)
            && IntPartAt(input, if i < 0 then pos + 1 else pos) == Success(end)
            && !HasFraction(input, end) && !HasExponent(input, end)
  {
    var s := IntToString(i);
    var end := pos + |s|;
    var p1 := if i < 0 then pos + 1 else pos;
    var d := NatToString(if i < 0 then -i else i);
    assert s[p1 - pos..] == d;
    assert input[p1..end] == d by {
      assert input[p1..end] == input[pos..end][p1 - pos..];
    }
    assert input[pos] == s[0];
    assert end < |input| ==> input[end] == input[end..][0];
    DigitRunIsIntegerPart(input, p1, end);
  }

  /** The decimal text of an integer at `pos`, followed by a character that
      cannot continue a number, scans as an integer lexeme that `stoi` reads
      back. */
  lemma DecimalScan(input: string, pos: nat, i: int)
    requires var s := IntToString(i);
             pos + |s| <= |input| && input[pos..pos + |s|] == s && EndsNumber(input[pos + |s|..])
    ensures var s := IntToString(i);
            && ScanNumber(input, pos) == Success(Lexeme(pos + |s|, true))
            && Stoi(s) == Some(i)
  {
    var end := pos + |IntToString(i)|;
    DecimalIntegerPart(input, pos, i);
    assert FractionAt(input, end) == Success(end);
    assert ExponentAt(input, end) == Success(end);
    StoiReadsDecimal(i);
  }

  /** The reader yields the `int` whose decimal text stands at `pos`. */
  lemma DecimalAt(input: string, pos: nat, i: int32, stod: Stod)
    requires var s := IntToString(i as int);
             pos + |s| <= |input| && input[pos..pos + |s|] == s && EndsNumber(input[pos + |s|..])
    ensures NumberAt(input, pos, stod) == Success((Int(i), pos + |IntToString(i as int)|))
  {
    DecimalScan(input, pos, i as int);
  }

  /** Integer round trip: the reader gives back every `int` from its decimal
      text. */
  lemma IntRoundTrip(i: int32, rest: string, stod: Stod)
    requires EndsNumber(rest)
    ensures var s := IntToString(i as int);
            NumberAt(s + rest, 0, stod) == Success((Int(i), |s|))
  {
    var s := IntToString(i as int);
    assert (s + rest)[0..|s|] == s && (s + rest)[|s|..] == rest;
    DecimalAt(s + rest, 0, i, stod);
  }

  /** An integer lexeme out of the `int` range reads as the integer 0, not as
      a double. */
  lemma OverflowReadsZero(n: int, rest: string, stod: Stod)
    requires n < Int32Min || n > Int32Max
    requires EndsNumber(rest)
    ensures var s := IntToString(n);
            NumberAt(s + rest, 0, stod) == Success((Int(0), |s|))
  {
    var s := IntToString(n);
    assert (s + rest)[0..|s|] == s && (s + rest)[|s|..] == rest;
    DecimalScan(s + rest, 0, n);
  }

  /** After a leading `0` the integer part is over: in `0123` only the `0` is
      read. */
  lemma LeadingZeroEndsIntegerPart(input: string, pos: nat, stod: Stod)
    requires pos + 1 < |input| && input[pos] == '0' && IsDigit(input[pos + 1])
    ensures NumberAt(input, pos, stod) == Success((Int(0), pos + 1))
  {
    assert input[pos..pos + 1] == "0";
    assert Stoi("0") == Some(0) by {
      assert AllDigits("0");
      assert DigitsValue("0") == DigitsValue("") * 10 + DigitValue('0');
    }
  }

  /** A `.` with no digit after it, or an exponent mark with no digit after
      the optional sign, is "A digit is expected". */
  lemma DigitExpectedAfterPointOrExponent(input: string, pos: nat)
    requires pos <= |input|
    requires var p2 := IntPartAt(input, if pos < |input| && input[pos] == '-' then pos + 1 else pos);
             && p2.Success?
             && ((HasFraction(input, p2.value) && !DigitAt(input, p2.value + 1))
                 || (!HasFraction(input, p2.value) && HasExponent(input, p2.value)
                     && !DigitAt(input, p2.value + 1)
                     && !(p2.value + 1 < |input| && (input[p2.value + 1] == '+' || input[p2.value + 1] == '-'))))
    ensures ScanNumber(input, pos) == Failure(ParsingError(DigitError))
  {
  }

  predicate NotFractionOrExponentMark(c: char) {
    c != '.' && c != 'e' && c != 'E'
  }

  /** A lexeme is an integer lexeme exactly when it holds no `.`, `e` or `E`. */
  lemma IntLexemeIffNoMark(input: string, pos: nat)
    requires pos <= |input| && ScanNumber(input, pos).Success?
    ensures var lexeme := ScanNumber(input, pos).value;
            lexeme.isInt <==> forall k :: pos <= k < lexeme.end ==> NotFractionOrExponentMark(input[k])
  {
    var lexeme := ScanNumber(input, pos).value;
    var p1 := if pos < |input| && input[pos] == '-' then pos + 1 else pos;
    var p2 := IntPartAt(input, p1).value;
    var p3 := FractionAt(input, p2).value;
    if lexeme.isInt {
      assert lexeme.end == p2;
      if !(p1 < |input| && input[p1] == '0') {
        RunEndSpans(input, p1, Digit);
      }
      forall k | pos <= k < lexeme.end ensures NotFractionOrExponentMark(input[k]) {
        if k >= p1 {
          assert IsDigit(input[k]);
        }
      }
    } else if HasFraction(input, p2) {
      assert !NotFractionOrExponentMark(input[p2]);
    } else {
      assert HasExponent(input, p3);
      assert !NotFractionOrExponentMark(input[p3]);
    }
  }

  // ------------------------------------------------------- whole documents

  /** A single digit not followed by a digit, `.`, `e` or `E` is read as that
      digit's `int`. */
  lemma SingleDigitNode(input: string, pos: nat, stod: Stod)
    requires pos < |input| && IsDigit(input[pos]) && EndsNumber(input[pos + 1..])
    ensures NodeAt(input, pos, stod) == Success((Int(DigitValue(input[pos]) as int32), pos + 1))
  {
    SingleDigitNumber(input, pos, stod);
    RunEndAfter(input, pos, 0, Space);
    NodeAtNumber(input, pos, stod);
  }

  lemma SingleDigitNumber(input: string, pos: nat, stod: Stod)
    requires pos < |input| && IsDigit(input[pos]) && EndsNumber(input[pos + 1..])
    ensures NumberAt(input, pos, stod) == Success((Int(DigitValue(input[pos]) as int32), pos + 1))
  {
    var d := DigitValue(input[pos]);
    assert IntToString(d) == [DigitChar(d)] == [input[pos]];
    assert input[pos..pos + 1] == [input[pos]];
    DecimalAt(input, pos, d as int32, stod);
  }

  /** A value starting with a digit or `-` is a number. */
  lemma NodeAtNumber(input: string, pos: nat, stod: Stod)
    requires pos < |input| && SkipSpaces(input, pos) == pos && (IsDigit(input[pos]) || input[pos] == '-')
    ensures NodeAt(input, pos, stod) == NumberAt(input, pos, stod)
  {
  }

  /** A value starting with `{` is an object. */
  lemma NodeAtDict(input: string, pos: nat, stod: Stod)
    requires pos <= |input| && SkipSpaces(input, pos) < |input| && input[SkipSpaces(input, pos)] == '{'
    ensures NodeAt(input, pos, stod) == DictAt(input, SkipSpaces(input, pos) + 1, stod)
  {
  }

  /** `input >> c` skips whitespace only once: skipping again stays put. */
  lemma SkipSpacesIdempotent(input: string, pos: nat)
    requires pos <= |input|
    ensures SkipSpaces(input, SkipSpaces(input, pos)) == SkipSpaces(input, pos)
  {
    RunEndAfter(input, SkipSpaces(input, pos), 0, Space);
  }

  /** Commas are optional: a comma before an element reads exactly as if it
      were not there. */
  lemma CommaIsSkipped(input: string, p: nat, stod: Stod)
    requires p <= |input|
    requires var i := SkipSpaces(input, p);
             i < |input| && input[i] == ','
             && var j := SkipSpaces(input, i + 1);
             j < |input| && input[j] != ']' && input[j] != ','
    ensures ItemsAt(input, p, stod) == ItemsAt(input, SkipSpaces(input, p) + 1, stod)
  {
    var i := SkipSpaces(input, p);
    var j := SkipSpaces(input, i + 1);
    SkipSpacesIdempotent(input, i + 1);
    assert NodeAt(input, i + 1, stod) == NodeAt(input, j, stod);
    ItemsAtStep(input, p, stod);
    ItemsAtStep(input, i + 1, stod);
  }

  /** The end of input closes an open array: `[1` reads as `[1]`. */
  lemma EndOfInputClosesArray(stod: Stod)
    ensures Parse("[1", stod) == Success(Array([Int(1)]))
  {
    var a := "[1";
    SingleDigitNode(a, 1, stod);
    RunEndAfter(a, 0, 0, Space);
    RunEndAfter(a, 1, 0, Space);
    RunEndAfter(a, 2, 0, Space);
    assert ItemsAt(a, 2, stod) == Success(([], 2));
    assert [Int(1)] + [] == [Int(1)];
    assert ItemsAt(a, 1, stod) == Success(([Int(1)], 2));
  }

  /** Of two entries with the same key the first one is kept: the key of
      the first entry maps to that entry's value, whatever entries follow. */
  lemma FirstEntryWins(input: string, p: nat, stod: Stod)
    requires p <= |input|
    requires SkipSpaces(input, p) < |input| && input[SkipSpaces(input, p)] != '}'
    requires EntriesAt(input, p, stod).Success?
    ensures var key := StringAt(input, KeyStart(input, SkipSpaces(input, p)));
            && key.Success?
            && var value := NodeAt(input, Consume(input, key.value.1), stod);
            && value.Success?
            && key.value.0 in EntriesAt(input, p, stod).value.0
            && EntriesAt(input, p, stod).value.0[key.value.0] == value.value.0
  {
    EntriesAtStep(input, p, stod);
  }

  /** An object whose key is followed by `=` instead of `:`. */
  const EqualsForColon := "{\"a\"=1}"

  lemma EqualsForColonEntries(stod: Stod)
    ensures EntriesAt(EqualsForColon, 1, stod) == Success((map["a" := Int(1)], 7))
  {
    var a := EqualsForColon;
    OneCharString(a, 2);
    SingleDigitNode(a, 5, stod);
    RunEndAfter(a, 1, 0, Space);
    RunEndAfter(a, 4, 0, Space);
    RunEndAfter(a, 6, 0, Space);
    EntriesAtStep(a, 1, stod);
    assert EntriesAt(a, 6, stod) == Success((map[], 7));
  }

  /** The character after a key is consumed whatever it is: `{"a"=1}` reads
      as `{"a":1}`. */
  lemma ColonIsNotChecked(stod: Stod)
    ensures Parse(EqualsForColon, stod) == Success(Dict(map["a" := Int(1)]))
  {
    RunEndAfter(EqualsForColon, 0, 0, Space);
    NodeAtDict(EqualsForColon, 0, stod);
    EqualsForColonEntries(stod);
    assert DictAt(EqualsForColon, 1, stod) == Success((Dict(map["a" := Int(1)]), 7));
  }

  /** A one-character string body. */
  lemma OneCharString(input: string, pos: nat)
    requires pos + 1 < |input| && input[pos + 1] == '"'
    requires input[pos] != '"' && input[pos] != '\\' && input[pos] != '\n' && input[pos] != '\r'
    ensures StringAt(input, pos) == Success(([input[pos]], pos + 2))
  {
    StringAtStep(input, pos);
    assert [input[pos]] + "" == [input[pos]];
  }
}
