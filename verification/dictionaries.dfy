/**
 Foundation dictionaries as the players see them: string keys mapped to
 untyped values, read back with a conditional cast (`as? T`) that yields
 nothing when the key is absent or the value has another type.
 */
module Dictionaries {
  import opened Wrappers
  import opened Conversions

  /** The values that occur: strings, numbers (NSNumber), dates, and raw data. */
  datatype Value = Text(text: string) | Number(number: real) | Date(since1970: real) | Data(bytes: seq<bv8>)

  type Dict = map<string, Value>

  /** `dict[key] as? String` */
  function StringValue(d: Dict, key: string): (r: Option<string>)
    ensures r.Some? <==> key in d && d[key].Text?
    ensures r.Some? ==> d[key] == Text(r.value)
  {
    if key in d && d[key].Text? then Some(d[key].text) else None
  }

  /** `dict[key] as? TimeInterval`: any number bridges to a Double. */
  function DoubleValue(d: Dict, key: string): (r: Option<real>)
    ensures r.Some? <==> key in d && d[key].Number?
    ensures r.Some? ==> d[key] == Number(r.value)
  {
    if key in d && d[key].Number? then Some(d[key].number) else None
  }

  /** A number that `as? Int` accepts: integral and within the 64-bit range. */
  predicate IsInt64(x: real) {
    x == x.Floor as real && -0x8000_0000_0000_0000 <= x.Floor < 0x8000_0000_0000_0000
  }

  /** `dict[key] as? Int`: a number bridges to an Int only when it is integral and fits in 64 bits. */
  function IntValue(d: Dict, key: string): (r: Option<Int64>)
    ensures r.Some? <==> key in d && d[key].Number? && IsInt64(d[key].number)
    ensures r.Some? ==> d[key] == Number(r.value as real)
  {
    if key in d && d[key].Number? && IsInt64(d[key].number)
    then Some(d[key].number.Floor) else None
  }

  /** `dict[key] as? Date` */
  function DateValue(d: Dict, key: string): (r: Option<real>)
    ensures r.Some? <==> key in d && d[key].Date?
    ensures r.Some? ==> d[key] == Date(r.value)
  {
    if key in d && d[key].Date? then Some(d[key].since1970) else None
  }

  /** `dict[key] as? Data` */
  function DataValue(d: Dict, key: string): (r: Option<seq<bv8>>)
    ensures r.Some? <==> key in d && d[key].Data?
    ensures r.Some? ==> d[key] == Data(r.value)
  {
    if key in d && d[key].Data? then Some(d[key].bytes) else None
  }

  /** `mutableDict[key] = value` with an optional value: nil removes the key. */
  function Put(d: Dict, key: string, v: Option<Value>): (r: Dict)
    ensures key in r <==> v.Some?
    ensures v.Some? ==> r[key] == v.value
    ensures forall k :: k != key ==> (k in r <==> k in d)
    ensures forall k :: k != key && k in r ==> r[k] == d[k]
  {
    match v
    case Some(x) => d[key := x]
    case None => d - {key}
  }
}
