/** Plain (already unmarshalled) JSON values, items and parsed request bodies. */
module Json {

  /** A JSON value as the handler sees it once parsed or unmarshalled. */
  datatype Value =
    | Null
    | Bool(b: bool)
    | Number(x: real)
    | Str(s: string)
    | Array(elements: seq<Value>)
    | Object(members: map<string, Value>)

  /** An item of the product table: field name to value. */
  type Item = map<string, Value>

  /** A JavaScript object with the order `Object.keys` reports its own properties in. */
  datatype ObjectData = ObjectData(keys: seq<string>, fields: map<string, Value>) {

    /** The key order lists every field exactly once. */
    predicate WellFormed() {
      && (forall i, j | 0 <= i < j < |keys| :: keys[i] != keys[j])
      && (forall i | 0 <= i < |keys| :: keys[i] in fields)
      && (forall k | k in fields :: k in keys)
    }
  }

  type JsObject = o: ObjectData | o.WellFormed() witness ObjectData([], map[])

  /** What `JSON.parse(event.body)` produces: a syntax error, or a top-level JSON value. */
  datatype Body =
    | Malformed(detail: string)
    | JsonNull
    | JsonBool(b: bool)
    | JsonNumber(x: real)
    | JsonObject(obj: JsObject)
}
