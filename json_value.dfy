/** The part of `serde_json::Value` the system inspects, with the accessors it calls.
    Objects are keyed maps (serde_json's default `Map` is ordered and holds each key once). */
module JsonValue {
  import opened Wrappers
  import opened Text

  const U64Limit: int := 0x1_0000_0000_0000_0000
  const I64Min: int := -0x8000_0000_0000_0000
  const I64Limit: int := 0x8000_0000_0000_0000

  /** `u64`, and `usize` on the 64-bit targets the system runs on. */
  type U64 = x: int | 0 <= x < U64Limit
  /** `i64` */
  type I64 = x: int | I64Min <= x < I64Limit

  /** A JSON number: an integer serde_json holds exactly (in `u64` or `i64` range), or a
      floating-point number known only by its display text. */
  datatype Number = Int(i: int) | Float(text: string)

  datatype Value =
    | Null
    | Bool(b: bool)
    | Num(n: Number)
    | Str(s: string)
    | Array(items: seq<Value>)
    | Object(fields: map<string, Value>)

  /** `value["key"]` on a `Value`: the field, or `Null` when the key is absent or `value`
      is not an object. It never panics. */
  function Field(v: Value, key: string): (r: Value)
    ensures v.Object? && key in v.fields ==> r == v.fields[key]
    ensures !(v.Object? && key in v.fields) ==> r == Null
  {
    if v.Object? && key in v.fields then v.fields[key] else Null
  }

  /** `map["key"]` on a `serde_json::Map`: panics when the key is absent. */
  function MapField(m: map<string, Value>, key: string): (r: Result<Value>)
    ensures r.Ok? <==> key in m
    ensures r.Ok? ==> r.value == m[key]
  {
    if key in m then Ok(m[key]) else Err("no entry found for key")
  }

  function AsStr(v: Value): Option<string> {
    if v.Str? then Some(v.s) else None
  }

  function AsArray(v: Value): Option<seq<Value>> {
    if v.Array? then Some(v.items) else None
  }

  function AsObject(v: Value): Option<map<string, Value>> {
    if v.Object? then Some(v.fields) else None
  }

  /** `as_u64`: only a non-negative integer in range. */
  function AsU64(v: Value): (r: Option<U64>)
    ensures r.Some? <==> v.Num? && v.n.Int? && 0 <= v.n.i < U64Limit
    ensures r.Some? ==> r.value == v.n.i
  {
    if v.Num? && v.n.Int? && 0 <= v.n.i < U64Limit then Some(v.n.i) else None
  }

  /** `as_i64`: only an integer in `i64` range. */
  function AsI64(v: Value): (r: Option<I64>)
    ensures r.Some? <==> v.Num? && v.n.Int? && I64Min <= v.n.i < I64Limit
    ensures r.Some? ==> r.value == v.n.i
  {
    if v.Num? && v.n.Int? && I64Min <= v.n.i < I64Limit then Some(v.n.i) else None
  }

  /** `value == "text"`: a `Value` equals a `&str` only when it is that string. */
  predicate EqualsStr(v: Value, s: string) {
    v == Str(s)
  }

  /** `Display` of a JSON number. */
  function NumberText(n: Number): string {
    match n
    case Int(i) => IntText(i)
    case Float(t) => t
  }

  /** `Display` of a `bool`. */
  function BoolText(b: bool): string {
    if b then "true" else "false"
  }
}
