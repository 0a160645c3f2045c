/**
 * JSON values as `JSONSerialization` and the `Codable` keyed containers see them,
 * and the `decode(_:forKey:)` lookups the `init(from:)` implementations use.
 */
module Json {
  import opened Wrappers
  import opened Foundation

  datatype Json =
    | JNull
    | JBool(b: bool)
    | JInt(i: int)
    | JNumber(r: real)
    | JString(s: string)
    | JArray(items: seq<Json>)
    | JObject(fields: map<string, Json>)

  /** Every number in the document is a finite decimal, as a number read from JSON text is. */
  ghost predicate DecimalNumbers(j: Json) {
    match j
    case JNumber(r) => IsDecimal(r)
    case JArray(items) => forall i :: 0 <= i < |items| ==> DecimalNumbers(items[i])
    case JObject(fields) => forall k :: k in fields ==> DecimalNumbers(fields[k])
    case _ => true
  }

  /** The errors `JSONDecoder` reports from a keyed container. */
  datatype DecodingError =
    | KeyNotFound(key: string)
    | ValueNotFound(key: string)
    | TypeMismatch(key: string)
    | DataCorrupted(key: string, debugDescription: string)

  type Container = map<string, Json>

  /**
   * The integer a JSON number stands for when it is read as a Swift `Int` (by `as? Int` on
   * a `JSONSerialization` value, or by `decode(Int.self, forKey:)`): a whole number in
   * `Int` range, written with or without a fraction part (`5` and `5.0` alike).
   */
  function AsInt(j: Json): Option<Int64> {
    match j
    case JInt(i) => if INT64_MIN <= i <= INT64_MAX then Some(i) else None
    case JNumber(x) => if x.Floor as real == x && INT64_MIN <= x.Floor <= INT64_MAX then Some(x.Floor) else None
    case _ => None
  }

  /** `decode(Int.self, forKey:)`: a whole number that fits a 64-bit `Int`. */
  function DecodeInt(c: Container, key: string): (r: Result<Int64, DecodingError>)
    ensures r.Success? <==>
              && key in c
              && (|| (c[key].JInt? && INT64_MIN <= c[key].i <= INT64_MAX)
                  || (c[key].JNumber? && c[key].r == c[key].r.Floor as real && INT64_MIN <= c[key].r.Floor <= INT64_MAX))
    ensures r.Success? ==> c[key] == JInt(r.value) || c[key] == JNumber(r.value as real)
  {
    if key !in c then Failure(KeyNotFound(key))
    else if c[key].JNull? then Failure(ValueNotFound(key))
    else match AsInt(c[key])
      case Some(i) => Success(i)
      case None => Failure(TypeMismatch(key))
  }

  /** `decode(String.self, forKey:)`. */
  function DecodeString(c: Container, key: string): (r: Result<string, DecodingError>)
    ensures r.Success? <==> key in c && c[key].JString?
    ensures r.Success? ==> c[key] == JString(r.value)
  {
    if key !in c then Failure(KeyNotFound(key))
    else match c[key]
      case JNull => Failure(ValueNotFound(key))
      case JString(s) => Success(s)
      case _ => Failure(TypeMismatch(key))
  }

  /** `decode(Bool.self, forKey:)`. */
  function DecodeBool(c: Container, key: string): (r: Result<bool, DecodingError>)
    ensures r.Success? <==> key in c && c[key].JBool?
    ensures r.Success? ==> c[key] == JBool(r.value)
  {
    if key !in c then Failure(KeyNotFound(key))
    else match c[key]
      case JNull => Failure(ValueNotFound(key))
      case JBool(b) => Success(b)
      case _ => Failure(TypeMismatch(key))
  }

  /**
   * `decode(Date.self, forKey:)`: the default strategy reads a date as a number of seconds,
   * whole or fractional; a fractional number is rounded down to the whole second a `Date` is here.
   */
  function DecodeDate(c: Container, key: string): (r: Result<Date, DecodingError>)
    ensures r.Success? <==> key in c && (c[key].JInt? || c[key].JNumber?)
    ensures r.Success? && c[key].JInt? ==> r.value == c[key].i
    ensures r.Success? && c[key].JNumber? ==> r.value as real <= c[key].r < r.value as real + 1.0
  {
    if key !in c then Failure(KeyNotFound(key))
    else match c[key]
      case JNull => Failure(ValueNotFound(key))
      case JInt(i) => Success(i)
      case JNumber(x) => Success(x.Floor)
      case _ => Failure(TypeMismatch(key))
  }

  /** The key a decoding error names. */
  function ErrorKey(e: DecodingError): string {
    match e
    case KeyNotFound(k) => k
    case ValueNotFound(k) => k
    case TypeMismatch(k) => k
    case DataCorrupted(k, _) => k
  }
}
