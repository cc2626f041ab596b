/**
 * The request handler: it routes the event to one operation, builds the store
 * command, sends it, shapes the reply and wraps the outcome in the response
 * envelope.
 */
module Router {
  import opened Wrappers
  import opened Json
  import opened Errors
  import opened Store
  import opened Items
  import opened UpdateBuilder

  datatype Operation = ByCategory | One | All | Create | Delete | Update

  /** The HTTP method that selects each operation. */
  function MethodOf(op: Operation): string {
    match op
    case ByCategory => "GET"
    case One => "GET"
    case All => "GET"
    case Create => "POST"
    case Delete => "DELETE"
    case Update => "PUT"
  }

  const SupportedMethods: set<string> := {"GET", "POST", "DELETE", "PUT"}

  /**
   * The `switch` on `event.httpMethod`: a GET picks the category query when query
   * parameters are present, whatever the path, then get-one when the path is
   * present, then get-all; any method outside the four is an unsupported route.
   */
  function Route(httpMethod: string, hasQuery: bool, hasPath: bool): (r: Result<Operation, Error>)
    ensures r.Success? <==> httpMethod in SupportedMethods
    ensures r.Success? ==> MethodOf(r.value) == httpMethod
    ensures r.Failure? ==> r.error == UnsupportedRoute(httpMethod)
    ensures httpMethod == "GET" && hasQuery ==> r == Success(ByCategory)
    ensures httpMethod == "GET" && !hasQuery && hasPath ==> r == Success(One)
    ensures httpMethod == "GET" && !hasQuery && !hasPath ==> r == Success(All)
  {
    match httpMethod
    case "GET" =>
      if hasQuery then Success(ByCategory)
      else if hasPath then Success(One)
      else Success(All)
    case "POST" => Success(Create)
    case "DELETE" => Success(Delete)
    case "PUT" => Success(Update)
    case _ => Failure(UnsupportedRoute(httpMethod))
  }

  /** Every operation is reached by its own method and parameter presence. */
  lemma RouteReachesEvery(op: Operation)
    ensures Route(MethodOf(op), op == ByCategory, op == One) == Success(op)
  {
  }

  /** The inbound event; `null` parameter objects are `None`, and the body is what `JSON.parse` makes of it. */
  datatype Event = Event(
    httpMethod: string,
    pathParameters: Option<map<string, string>>,
    queryStringParameters: Option<map<string, string>>,
    body: Body)

  /** `params.name`: throws on a `null` parameter object, is absent when the object lacks the name. */
  function Parameter(params: Option<map<string, string>>, name: string): (r: Result<Option<string>, Error>)
    ensures params.None? <==> r.Failure?
    ensures r.Failure? ==> r.error == ReadOfNull(name)
    ensures r.Success? ==> (r.value.Some? <==> name in params.value)
    ensures r.Success? && r.value.Some? ==> r.value.value == params.value[name]
  {
    match params
    case None => Failure(ReadOfNull(name))
    case Some(m) => Success(if name in m then Some(m[name]) else None)
  }

  /** `Object.keys(requestBody)` with the body as a keyed object; throws on `null`, sees no keys on a boolean or number. */
  function BodyObject(body: Body): (r: Result<JsObject, Error>)
    ensures r.Success? <==> body.JsonBool? || body.JsonNumber? || body.JsonObject?
    ensures body.JsonObject? ==> r == Success(body.obj)
    ensures body.JsonBool? || body.JsonNumber? ==> r.Success? && r.value.keys == []
    ensures body.Malformed? ==> r == Failure(MalformedBody(body.detail))
    ensures body.JsonNull? ==> r == Failure(KeysOfNull)
  {
    match body
    case Malformed(detail) => Failure(MalformedBody(detail))
    case JsonNull => Failure(KeysOfNull)
    case JsonBool(_) => Success(ObjectData([], map[]))
    case JsonNumber(_) => Success(ObjectData([], map[]))
    case JsonObject(o) => Success(o)
  }

  /**
   * Whether the template literal `${requestBody}` of the log line throws: an
   * object whose own `toString` came from JSON cannot be called, and the
   * inherited `valueOf` returns the object itself, so no primitive results.
   * Booleans and numbers, and objects without a `toString` key, convert.
   */
  predicate StringConversionThrows(body: Body) {
    body.JsonObject? && "toString" in body.obj.fields
  }

  /**
   * The `UpdateItemCommand` of `updateProduct`: the body's keys are taken, the
   * body is converted to a string for the log line, and then the path is read.
   */
  function UpdateCommand(event: Event): Result<Command, Error> {
    var o :- BodyObject(event.body);
    if StringConversionThrows(event.body) then Failure(ObjectToPrimitive) else
    var id :- Parameter(event.pathParameters, "id");
    Success(UpdateItem(id, UpdateExpression(o.keys), NameMap(o.keys), ValueMap(o.keys, o.fields)))
  }

  /** The store command each operation sends, or the error it throws first. */
  function CommandFor(op: Operation, event: Event, newId: string): Result<Command, Error> {
    match op
    case ByCategory =>
      var id :- Parameter(event.pathParameters, "id");
      var category :- Parameter(event.queryStringParameters, "category");
      Success(Query(id, category))
    case One =>
      var id :- Parameter(event.pathParameters, "id");
      Success(GetItem(id))
    case All => Success(Scan)
    case Create =>
      var item :- CreatedItem(event.body, newId);
      Success(PutItem(item))
    case Delete =>
      var id :- Parameter(event.pathParameters, "id");
      Success(DeleteItem(id))
    case Update => UpdateCommand(event)
  }

  /** What each operation returns from the store's reply. */
  function Shape(op: Operation, reply: Reply): Result<Payload, Error> {
    match op
    case ByCategory => QueriedItems(reply.items)
    case One => Success(ItemPayload(FetchedItem(reply.item)))
    case All => Success(ScannedItems(reply.items))
    case Create => Success(Acknowledgment(reply))
    case Delete => Success(Acknowledgment(reply))
    case Update => Success(Acknowledgment(reply))
  }

  /** The body of the `try` block; `newId` stands for `uuidv4()` and `send` for the store client. */
  function Perform(event: Event, newId: string, send: Command -> Result<Reply, Error>): Result<Payload, Error> {
    var op :- Route(event.httpMethod, event.queryStringParameters.Some?, event.pathParameters.Some?);
    var command :- CommandFor(op, event, newId);
    var reply :- send(command);
    Shape(op, reply)
  }

  datatype ResponseBody =
    | Succeeded(message: string, body: Payload)
    | Failed(message: string, errorMsg: string)

  datatype Response = Response(statusCode: int, body: ResponseBody)

  /** The response of the `try` block and of the `catch` block. */
  function Envelope(httpMethod: string, outcome: Result<Payload, Error>): (r: Response)
    ensures r.statusCode == 200 <==> outcome.Success?
    ensures r.statusCode == 500 <==> outcome.Failure?
    ensures r.body.Succeeded? <==> outcome.Success?
    ensures outcome.Success? ==>
      r.body == Succeeded("Successfully finished operation \"" + httpMethod + "\"", outcome.value)
    ensures outcome.Failure? ==>
      r.body == Failed("Failed to perform operation!", Message(outcome.error))
  {
    match outcome
    case Success(payload) =>
      Response(200, Succeeded("Successfully finished operation \"" + httpMethod + "\"", payload))
    case Failure(e) =>
      Response(500, Failed("Failed to perform operation!", Message(e)))
  }

  /** `handler`: 200 exactly when the routed operation succeeds, 500 for every error. */
  function Handle(event: Event, newId: string, send: Command -> Result<Reply, Error>): (r: Response)
    ensures r.statusCode == 200 || r.statusCode == 500
    ensures r.statusCode == 200 <==> Perform(event, newId, send).Success?
    ensures r.statusCode == 200 ==> r.body.Succeeded? && Contains(r.body.message, event.httpMethod)
    ensures r.statusCode == 500 ==> r.body.Failed? && r.body.message == "Failed to perform operation!"
  {
    SuccessMessageNamesMethod(event.httpMethod);
    Envelope(event.httpMethod, Perform(event, newId, send))
  }

  lemma SuccessMessageNamesMethod(httpMethod: string)
    ensures Contains("Successfully finished operation \"" + httpMethod + "\"", httpMethod)
  {
    var prefix := "Successfully finished operation \"";
    assert httpMethod <= (prefix + httpMethod + "\"")[|prefix|..];
  }

  /** An unsupported method yields a 500 whose error message names it, without contacting the store. */
  lemma UnsupportedMethodResponse(event: Event, newId: string, send: Command -> Result<Reply, Error>)
    requires event.httpMethod !in SupportedMethods
    ensures Handle(event, newId, send).statusCode == 500
    ensures Handle(event, newId, send).body.Failed?
    ensures Contains(Handle(event, newId, send).body.errorMsg, event.httpMethod)
    ensures forall other: Command -> Result<Reply, Error> :: Handle(event, newId, other) == Handle(event, newId, send)
  {
    UnsupportedRouteNamesMethod(event.httpMethod);
  }

  /** GET with query parameters but a `null` path fails reading `id`, before any store call. */
  lemma CategoryQueryNeedsPath(event: Event, newId: string, send: Command -> Result<Reply, Error>)
    requires event.httpMethod == "GET" && event.queryStringParameters.Some? && event.pathParameters.None?
    ensures Handle(event, newId, send)
         == Response(500, Failed("Failed to perform operation!", "Cannot read properties of null (reading 'id')"))
  {
  }

  /** The category query is keyed by the path `id` and filtered by the query `category`. */
  lemma CategoryQueryCommand(event: Event, newId: string)
    requires event.httpMethod == "GET" && event.queryStringParameters.Some? && event.pathParameters.Some?
    ensures CommandFor(ByCategory, event, newId).Success?
    ensures var c := CommandFor(ByCategory, event, newId).value;
      var path, query := event.pathParameters.value, event.queryStringParameters.value;
      && c.Query?
      && c.id == (if "id" in path then Some(path["id"]) else None)
      && c.category == (if "category" in query then Some(query["category"]) else None)
  {
  }

  /** A get-one whose item is missing answers 200 with `{}`, not an error. */
  lemma MissingItemIsEmptyObject(event: Event, newId: string, send: Command -> Result<Reply, Error>)
    requires event.httpMethod == "GET" && event.queryStringParameters.None? && event.pathParameters.Some?
    requires var id := if "id" in event.pathParameters.value then Some(event.pathParameters.value["id"]) else None;
      send(GetItem(id)).Success? && send(GetItem(id)).value.item.None?
    ensures Handle(event, newId, send).statusCode == 200
    ensures Handle(event, newId, send).body == Succeeded("Successfully finished operation \"GET\"", ItemPayload(map[]))
  {
  }

  /** A get-all of an empty table answers 200 with the empty list. */
  lemma EmptyScanIsEmptyList(event: Event, newId: string, send: Command -> Result<Reply, Error>)
    requires event.httpMethod == "GET" && event.queryStringParameters.None? && event.pathParameters.None?
    requires send(Scan).Success? && send(Scan).value.items == Some([])
    ensures Handle(event, newId, send) == Response(200, Succeeded("Successfully finished operation \"GET\"", ItemList([])))
    ensures Handle(event, newId, send).body.body != ScannedItems(None)
  {
  }

  /** Get-one reads the item keyed by the path `id`; get-all scans the whole table. */
  lemma ReadCommands(event: Event, newId: string)
    requires event.pathParameters.Some?
    ensures var path := event.pathParameters.value;
      CommandFor(One, event, newId) == Success(GetItem(if "id" in path then Some(path["id"]) else None))
    ensures CommandFor(All, event, newId) == Success(Scan)
  {
  }

  /** Create, delete and update return the store's raw acknowledgment, not the item. */
  lemma WritesAcknowledge(op: Operation, reply: Reply)
    requires op == Create || op == Delete || op == Update
    ensures Shape(op, reply) == Success(Acknowledgment(reply))
  {
  }

  /**
   * A store fault is not caught by the operation: once the route and the
   * command are formed, a failing store call answers 500 with the fault's
   * message, and a succeeding one answers with the shaped reply.
   */
  lemma StoreOutcomePropagates(event: Event, newId: string, send: Command -> Result<Reply, Error>)
    requires Route(event.httpMethod, event.queryStringParameters.Some?, event.pathParameters.Some?).Success?
    requires CommandFor(Route(event.httpMethod, event.queryStringParameters.Some?, event.pathParameters.Some?).value,
                        event, newId).Success?
    ensures var op := Route(event.httpMethod, event.queryStringParameters.Some?, event.pathParameters.Some?).value;
      var c := CommandFor(op, event, newId).value;
      && (send(c).Failure? ==>
            Handle(event, newId, send) == Response(500, Failed("Failed to perform operation!", Message(send(c).error))))
      && (send(c).Success? ==> Perform(event, newId, send) == Shape(op, send(c).value))
  {
  }

  /**
   * An error thrown while forming the command is not caught by the operation:
   * it answers 500 with that error's message, and the store is not contacted.
   */
  lemma CommandErrorPropagates(event: Event, newId: string, send: Command -> Result<Reply, Error>)
    requires Route(event.httpMethod, event.queryStringParameters.Some?, event.pathParameters.Some?).Success?
    requires CommandFor(Route(event.httpMethod, event.queryStringParameters.Some?, event.pathParameters.Some?).value,
                        event, newId).Failure?
    ensures var op := Route(event.httpMethod, event.queryStringParameters.Some?, event.pathParameters.Some?).value;
      var e := CommandFor(op, event, newId).error;
      && Perform(event, newId, send) == Failure(e)
      && Handle(event, newId, send) == Response(500, Failed("Failed to perform operation!", Message(e)))
  {
  }

  /** GET and DELETE never read the body, so a malformed body does not affect them. */
  lemma ReadsIgnoreBody(event: Event, newId: string, send: Command -> Result<Reply, Error>, other: Body)
    requires event.httpMethod == "GET" || event.httpMethod == "DELETE"
    ensures Handle(event.(body := other), newId, send) == Handle(event, newId, send)
  {
  }

  /** A POST or PUT whose body is not valid JSON answers 500 with the parse error's message and sends nothing. */
  lemma MalformedBodyResponse(event: Event, newId: string, send: Command -> Result<Reply, Error>)
    requires event.httpMethod == "POST" || event.httpMethod == "PUT"
    requires event.body.Malformed?
    ensures Handle(event, newId, send) == Response(500, Failed("Failed to perform operation!", event.body.detail))
  {
  }

  /** DELETE with a `null` path fails reading `id`; otherwise it deletes the path `id` and acknowledges. */
  lemma DeleteCommand(event: Event, newId: string)
    requires event.httpMethod == "DELETE"
    ensures event.pathParameters.None? ==> CommandFor(Delete, event, newId) == Failure(ReadOfNull("id"))
    ensures event.pathParameters.Some? ==>
      var path := event.pathParameters.value;
      CommandFor(Delete, event, newId) == Success(DeleteItem(if "id" in path then Some(path["id"]) else None))
  {
  }

  /**
   * A POST with an object body puts that object with `id` replaced by the
   * generated id and every other field unchanged, and answers with the store's
   * acknowledgment.
   */
  lemma CreatePutsBodyWithNewId(event: Event, newId: string, send: Command -> Result<Reply, Error>)
    requires event.httpMethod == "POST" && event.body.JsonObject?
    ensures CommandFor(Create, event, newId).Success?
    ensures var c := CommandFor(Create, event, newId).value;
      && c.PutItem?
      && c.item["id"] == Str(newId)
      && (forall k | k != "id" :: k in c.item <==> k in event.body.obj.fields)
      && (forall k | k in event.body.obj.fields && k != "id" :: c.item[k] == event.body.obj.fields[k])
    ensures var c := CommandFor(Create, event, newId).value;
      send(c).Success? ==>
        Handle(event, newId, send)
        == Response(200, Succeeded("Successfully finished operation \"POST\"", Acknowledgment(send(c).value)))
  {
    var c := PutItem(AssignId(event.body.obj, newId).fields);
    assert CommandFor(Create, event, newId) == Success(c);
    if send(c).Success? {
      assert Perform(event, newId, send) == Success(Acknowledgment(send(c).value));
    }
  }

  /**
   * A PUT whose body has keys (an object without its own `toString`, or a
   * boolean or number, which have none) and a path issues one update keyed by
   * the path `id` whose expression lists one clause per body key, in key
   * order, and whose placeholders, substituted, assign exactly the body's
   * fields.
   */
  lemma UpdateSetsExactlyBody(event: Event)
    requires event.httpMethod == "PUT" && event.pathParameters.Some?
    requires BodyObject(event.body).Success? && !StringConversionThrows(event.body)
    ensures UpdateCommand(event).Success?
    ensures var c := UpdateCommand(event).value;
      var o := BodyObject(event.body).value;
      var path := event.pathParameters.value;
      && c.UpdateItem?
      && c.id == (if "id" in path then Some(path["id"]) else None)
      && (o.keys == [] ==> c.expression == "SET ")
      && (o.keys != [] ==> c.expression[..4] == "SET " && Split(c.expression[4..], ", ") == ClausesOf(o.keys))
      && |c.names| == |o.keys| && |c.values| == |o.keys|
      && RecoverKeys(c.names, |o.keys|) == o.keys
      && Substitute(c.names, c.values, |o.keys|) == o.fields
  {
    var o := BodyObject(event.body).value;
    var id := Parameter(event.pathParameters, "id").value;
    var c := UpdateItem(id, UpdateExpression(o.keys), NameMap(o.keys), ValueMap(o.keys, o.fields));
    assert UpdateCommand(event) == Success(c);
    ExpressionClauses(o.keys);
    NameMapContents(o.keys);
    ValueMapContents(o.keys, o.fields);
    RecoverKeysOfNameMap(o.keys);
    UpdateAssignsBody(o);
  }

  /** A boolean or number body has no keys, so the update sent is `SET ` with two empty maps. */
  lemma UpdateOfPrimitiveBody(event: Event)
    requires event.httpMethod == "PUT" && event.pathParameters.Some?
    requires event.body.JsonBool? || event.body.JsonNumber?
    ensures var path := event.pathParameters.value;
      UpdateCommand(event)
      == Success(UpdateItem(if "id" in path then Some(path["id"]) else None, "SET ", map[], map[]))
  {
    assert UpdateExpression([]) == "SET ";
  }

  /**
   * A PUT whose body has keys and converts to a string, but whose path is
   * `null`, fails reading `id` before any store call.
   */
  lemma UpdateNeedsPath(event: Event, newId: string, send: Command -> Result<Reply, Error>)
    requires event.httpMethod == "PUT" && event.pathParameters.None?
    requires BodyObject(event.body).Success? && !StringConversionThrows(event.body)
    ensures UpdateCommand(event) == Failure(ReadOfNull("id"))
    ensures Handle(event, newId, send)
         == Response(500, Failed("Failed to perform operation!", "Cannot read properties of null (reading 'id')"))
  {
  }

  /**
   * A PUT whose object body has its own `toString` key answers 500 with the
   * TypeError of the log line's string conversion, before the path is read and
   * before any store call.
   */
  lemma UpdateOfToStringBody(event: Event, newId: string, send: Command -> Result<Reply, Error>)
    requires event.httpMethod == "PUT" && event.body.JsonObject? && "toString" in event.body.obj.fields
    ensures UpdateCommand(event) == Failure(ObjectToPrimitive)
    ensures Handle(event, newId, send)
         == Response(500, Failed("Failed to perform operation!", "Cannot convert object to primitive value"))
  {
    assert BodyObject(event.body) == Success(event.body.obj);
  }

  /** A PUT whose body is `null` fails in `Object.keys`, before the path is read. */
  lemma UpdateOfNullBody(event: Event, newId: string, send: Command -> Result<Reply, Error>)
    requires event.httpMethod == "PUT" && event.body.JsonNull?
    ensures Handle(event, newId, send)
         == Response(500, Failed("Failed to perform operation!", "Cannot convert undefined or null to object"))
  {
  }

  /** A POST whose body is `null` fails writing `id`: the `|| {}` fallback is never reached. */
  lemma CreateOfNullBody(event: Event, newId: string, send: Command -> Result<Reply, Error>)
    requires event.httpMethod == "POST" && event.body.JsonNull?
    ensures Handle(event, newId, send)
         == Response(500, Failed("Failed to perform operation!", "Cannot set properties of null (setting 'id')"))
  {
  }
}
