/** The errors the handler can throw and the message text each one carries. */
module Errors {

  datatype Error =
    | UnsupportedRoute(httpMethod: string)
    /** The SyntaxError of `JSON.parse`; its message is given. */
    | MalformedBody(detail: string)
    /** TypeError: a property read on `null`, as in `event.pathParameters.id`. */
    | ReadOfNull(property: string)
    /** TypeError: a property read on `undefined`, as in `Items.map` with no `Items`. */
    | ReadOfUndefined(property: string)
    /** TypeError: a property write on `null` (strict mode). */
    | WriteToNull(property: string)
    /** TypeError: a property write on a primitive (strict mode); `typeName` is `boolean` or `number`. */
    | WriteToPrimitive(property: string, typeName: string)
    /** TypeError of `Object.keys(null)`. */
    | KeysOfNull
    /** TypeError of converting to a string an object whose `toString` is not callable. */
    | ObjectToPrimitive
    /** Any fault reported by the store client; its message is given. */
    | StoreFault(detail: string)

  /** The `message` property of the thrown error. */
  function Message(e: Error): string {
    match e
    case UnsupportedRoute(httpMethod) => "Unsupported route: \"" + httpMethod + "\""
    case MalformedBody(detail) => detail
    case ReadOfNull(p) => "Cannot read properties of null (reading '" + p + "')"
    case ReadOfUndefined(p) => "Cannot read properties of undefined (reading '" + p + "')"
    case WriteToNull(p) => "Cannot set properties of null (setting '" + p + "')"
    case WriteToPrimitive(p, typeName) => "Cannot create property '" + p + "' on " + typeName
    case KeysOfNull => "Cannot convert undefined or null to object"
    case ObjectToPrimitive => "Cannot convert object to primitive value"
    case StoreFault(detail) => detail
  }

  /** `sub` occurs in `s` as a contiguous substring. */
  predicate Contains(s: string, sub: string) {
    exists k | 0 <= k <= |s| :: sub <= s[k..]
  }

  /** The unsupported-route message quotes the offending httpMethod. */
  lemma UnsupportedRouteNamesMethod(httpMethod: string)
    ensures Contains(Message(UnsupportedRoute(httpMethod)), httpMethod)
  {
    var m := Message(UnsupportedRoute(httpMethod));
    var prefix := "Unsupported route: \"";
    assert m == prefix + httpMethod + "\"";
    assert httpMethod <= m[|prefix|..];
  }
}
