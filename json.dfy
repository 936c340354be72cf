/** The value tree of the JSON dialect (`json::Node`, `json::Dict`,
    `json::Array`) and its typed accessors. */
module Json {
  import opened Wrappers

  /** The C++ `int` held by an integer node. */
  newtype int32 = x: int | -0x8000_0000 <= x < 0x8000_0000

  /** `std::variant<std::nullptr_t, Array, Dict, bool, int, double, std::string>`,
      alternatives in the same order. `Dict` is a `std::map`, so its keys are
      unique; the order in which they are printed is the string order
      (`Strings.SortedSeq`). A `double` is a `real` here. */
  datatype Node =
    | Null
    | Array(items: seq<Node>)
    | Dict(entries: map<string, Node>)
    | Bool(b: bool)
    | Int(i: int32)
    | Double(d: real)
    | String(s: string)
  {
    predicate IsNull() { Null? }
    predicate IsArray() { Array? }
    predicate IsMap() { Dict? }
    predicate IsBool() { Bool? }
    predicate IsInt() { Int? }
    /** True for an `int` as well as for a `double`. */
    predicate IsDouble() { Int? || Double? }
    predicate IsPureDouble() { Double? }
    predicate IsString() { String? }

    function AsArray(): (r: Result<seq<Node>>)
      ensures r.Success? <==> IsArray()
      ensures r.Success? ==> this == Array(r.value)
      ensures r.Failure? ==> r.error == WrongType
    {
      if Array? then Success(items) else Failure(WrongType)
    }

    function AsMap(): (r: Result<map<string, Node>>)
      ensures r.Success? <==> IsMap()
      ensures r.Success? ==> this == Dict(r.value)
      ensures r.Failure? ==> r.error == WrongType
    {
      if Dict? then Success(entries) else Failure(WrongType)
    }

    function AsBool(): (r: Result<bool>)
      ensures r.Success? <==> IsBool()
      ensures r.Success? ==> this == Bool(r.value)
      ensures r.Failure? ==> r.error == WrongType
    {
      if Bool? then Success(b) else Failure(WrongType)
    }

    function AsInt(): (r: Result<int32>)
      ensures r.Success? <==> IsInt()
      ensures r.Success? ==> this == Int(r.value)
      ensures r.Failure? ==> r.error == WrongType
    {
      if Int? then Success(i) else Failure(WrongType)
    }

    /** Widens an `int`; fails on every non-number. */
    function AsDouble(): (r: Result<real>)
      ensures r.Success? <==> IsDouble()
      ensures r.Success? <==> IsInt() || IsPureDouble()
      ensures IsInt() ==> r == Success(i as real)
      ensures IsPureDouble() ==> r == Success(d)
      ensures r.Failure? ==> r.error == WrongType
    {
      if Int? then Success(i as real)
      else if Double? then Success(d)
      else Failure(WrongType)
    }

    function AsString(): (r: Result<string>)
      ensures r.Success? <==> IsString()
      ensures r.Success? ==> this == String(r.value)
      ensures r.Failure? ==> r.error == WrongType
    {
      if String? then Success(s) else Failure(WrongType)
    }
  }

  /** `std::map::at`: the value under `key`, or `std::out_of_range`. */
  function At(m: map<string, Node>, key: string): (r: Result<Node>)
    ensures r.Success? <==> key in m
    ensures r.Success? ==> r.value == m[key]
    ensures r.Failure? ==> r.error == OutOfRange(key)
  {
    if key in m then Success(m[key]) else Failure(OutOfRange(key))
  }

  /** Equality of nodes is equality of the variants: an `int` never equals a
      `double`, whatever their values. */
  lemma IntNeverEqualsDouble(i: int32, d: real)
    ensures Int(i) != Double(d)
    ensures Int(i).AsDouble() == Success(i as real)
  {
  }

  /** Every node answers yes to exactly one of the tests for the seven
      alternatives; `IsDouble` is the union of the two numeric ones. */
  lemma TypeTestsPartition(n: Node)
    ensures n.IsNull() || n.IsArray() || n.IsMap() || n.IsBool() || n.IsInt() || n.IsPureDouble() || n.IsString()
    ensures n.IsNull() ==> !(n.IsArray() || n.IsMap() || n.IsBool() || n.IsInt() || n.IsPureDouble() || n.IsString())
    ensures n.IsArray() ==> !(n.IsMap() || n.IsBool() || n.IsInt() || n.IsPureDouble() || n.IsString())
    ensures n.IsMap() ==> !(n.IsBool() || n.IsInt() || n.IsPureDouble() || n.IsString())
    ensures n.IsBool() ==> !(n.IsInt() || n.IsPureDouble() || n.IsString())
    ensures n.IsInt() ==> !(n.IsPureDouble() || n.IsString())
    ensures n.IsPureDouble() ==> !n.IsString()
    ensures n.IsDouble() <==> n.IsInt() || n.IsPureDouble()
  {
  }
}
