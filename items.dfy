/** The item shaping around the store calls: the created item and the results of the reads. */
module Items {
  import opened Wrappers
  import opened Json
  import opened Errors
  import opened Store

  /** What an operation hands back to the router. */
  datatype Payload =
    | ItemPayload(item: Item)
    | ItemList(items: seq<Item>)
    | Acknowledgment(reply: Reply)

  /** `requestBody.id = productId` on an object: the property is overwritten, or appended to the key order. */
  function AssignId(o: JsObject, id: string): (r: JsObject)
    ensures "id" in r.fields && r.fields["id"] == Str(id)
    ensures forall k | k != "id" :: k in r.fields <==> k in o.fields
    ensures forall k | k in o.fields && k != "id" :: r.fields[k] == o.fields[k]
    ensures r.keys == if "id" in o.fields then o.keys else o.keys + ["id"]
  {
    ObjectData(if "id" in o.fields then o.keys else o.keys + ["id"], o.fields["id" := Str(id)])
  }

  /**
   * The item `createProduct` puts: the parsed body with `id` set to the generated
   * id. Writing `id` on `null` or on a primitive throws (module code is strict).
   */
  function CreatedItem(body: Body, id: string): (r: Result<Item, Error>)
    ensures r.Success? <==> body.JsonObject?
    ensures r.Success? ==> "id" in r.value && r.value["id"] == Str(id)
    ensures r.Success? ==> forall k | k != "id" :: (k in r.value <==> k in body.obj.fields)
    ensures r.Success? ==> forall k | k in body.obj.fields && k != "id" :: r.value[k] == body.obj.fields[k]
    ensures body.Malformed? ==> r == Failure(MalformedBody(body.detail))
    ensures body.JsonNull? ==> r == Failure(WriteToNull("id"))
    ensures body.JsonBool? ==> r == Failure(WriteToPrimitive("id", "boolean"))
    ensures body.JsonNumber? ==> r == Failure(WriteToPrimitive("id", "number"))
  {
    match body
    case Malformed(detail) => Failure(MalformedBody(detail))
    case JsonNull => Failure(WriteToNull("id"))
    case JsonBool(_) => Failure(WriteToPrimitive("id", "boolean"))
    case JsonNumber(_) => Failure(WriteToPrimitive("id", "number"))
    case JsonObject(o) => Success(AssignId(o, id).fields)
  }

  /** A caller-supplied `id` is discarded: bodies that differ only in `id` create the same item. */
  lemma CreatedItemIgnoresCallerId(o1: JsObject, o2: JsObject, id: string)
    requires o1.fields - {"id"} == o2.fields - {"id"}
    ensures CreatedItem(JsonObject(o1), id) == CreatedItem(JsonObject(o2), id)
  {
    SetAbsorbsRemoval(o1.fields, o2.fields, "id", Str(id));
  }

  lemma SetAbsorbsRemoval<K, V>(m1: map<K, V>, m2: map<K, V>, k: K, v: V)
    requires m1 - {k} == m2 - {k}
    ensures m1[k := v] == m2[k := v]
  {
    forall j | j != k ensures (j in m1 <==> j in m2) && (j in m1 ==> m1[j] == m2[j]) {
      assert j in m1 <==> j in m1 - {k};
      assert j in m2 <==> j in m2 - {k};
      if j in m1 {
        assert m1[j] == (m1 - {k})[j];
      }
    }
  }

  /** `getProduct`: the stored item, or `{}` when the store has none. */
  function FetchedItem(item: Option<Item>): (r: Item)
    ensures item.Some? ==> r == item.value
    ensures item.None? ==> r == map[]
  {
    if item.Some? then item.value else map[]
  }

  /** `getAllProduct`: the scanned items, or the empty object `{}` (not a list) when `Items` is absent. */
  function ScannedItems(items: Option<seq<Item>>): (r: Payload)
    ensures items.Some? ==> r == ItemList(items.value)
    ensures items.None? ==> r == ItemPayload(map[])
  {
    if items.Some? then ItemList(items.value) else ItemPayload(map[])
  }

  /** `getProductByCategory`: the queried items; `Items.map` throws when `Items` is absent. */
  function QueriedItems(items: Option<seq<Item>>): (r: Result<Payload, Error>)
    ensures items.Some? ==> r == Success(ItemList(items.value))
    ensures items.None? ==> r == Failure(ReadOfUndefined("map"))
  {
    if items.Some? then Success(ItemList(items.value)) else Failure(ReadOfUndefined("map"))
  }
}
