/** The dynamically typed value tree the repository works on (serde_json's `Value`).
    It belongs to an external library; only its shape matters here. */
module Json {

  /** An unsigned 64-bit integer. */
  type U64 = x: int | 0 <= x < 0x1_0000_0000_0000_0000

  /** A negative signed 64-bit integer. */
  type NegI64 = x: int | -0x8000_0000_0000_0000 <= x < 0 witness -1

  const I64_MAX: int := 0x7FFF_FFFF_FFFF_FFFF

  /** serde_json keeps a number as a non-negative integer, a negative integer or a
      finite float; two numbers are equal only when they have the same representation. */
  datatype Number = PosInt(u: U64) | NegInt(i: NegI64) | Float(f: real)

  /** Arrays are ordered; objects map unique keys to values, key order is not significant. */
  datatype Value =
    | Null
    | Bool(b: bool)
    | Number(num: Number)
    | String(s: string)
    | Array(items: seq<Value>)
    | Object(fields: map<string, Value>)
}
