/**
 * The parsed JSON tree the deserializer reads (Gson's `JsonElement`), with
 * the two accessors it uses, `asString` and `asInt`.
 */
module Json {
  import opened Options
  import opened Decimal

  /** A JSON value. Numbers are integers; an object maps each key to one value. */
  datatype Json =
    | JNull
    | JBool(b: bool)
    | JNumber(n: int)
    | JString(str: string)
    | JArray(elems: seq<Json>)
    | JObject(fields: map<string, Json>)

  /** `JsonObject.get(key)`: the member under `key`, or nothing when the key is absent. */
  function Get(fields: map<string, Json>, key: string): (r: Option<Json>)
    ensures r.Some? <==> key in fields
    ensures r.Some? ==> r.value == fields[key]
  {
    if key in fields then Some(fields[key]) else None
  }

  /** `asString` on a JSON string; every other kind of value is refused. */
  function AsString(e: Json): (r: Option<string>)
    ensures r.Some? <==> e.JString?
    ensures r.Some? ==> r.value == e.str
  {
    if e.JString? then Some(e.str) else None
  }

  /**
   * `Number.intValue()` on an integral JSON number: the low 32 bits of the
   * value read as a two's-complement `Int`.
   */
  function ToInt32(n: int): (r: Int32)
    ensures (r - n) % 0x1_0000_0000 == 0
    ensures -0x8000_0000 <= n < 0x8000_0000 ==> r == n
  {
    var low := (n + 0x8000_0000) % 0x1_0000_0000;
    low - 0x8000_0000
  }

  /** `asInt` on a JSON number; every other kind of value is refused. */
  function AsInt(e: Json): (r: Option<Int32>)
    ensures r.Some? <==> e.JNumber?
    ensures r.Some? ==> r.value == ToInt32(e.n)
  {
    if e.JNumber? then Some(ToInt32(e.n)) else None
  }
}
