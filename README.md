# Product catalog request handler — Dafny model

This project models the one request handler of a serverless product-catalog API
(`index.mjs`). The handler receives a gateway event and routes it on the HTTP
method and on which parameter objects are `null`. It sends one command to the
product table (get-one, get-all, query-by-category, create, delete or update)
and wraps the outcome in a response envelope: status 200 with
`Successfully finished operation "<method>"` on success, status 500 with
`Failed to perform operation!` and the error's message on any error.

The model is pure functions over plain values:

- `Router` has the routing switch (`Route`), the command each operation sends
  (`CommandFor`, `UpdateCommand`), the whole `try` block (`Perform`), the
  envelope (`Envelope`) and the handler (`Handle`). The store client is a
  parameter `send: Command -> Result<Reply, Error>` and `uuidv4()` is the
  parameter `newId`. So each lemma holds for every store answer and every
  generated id.
- `UpdateBuilder` has the three update parameters built from the body's keys:
  `UpdateExpression`, `NameMap` and `ValueMap`. Beside them are an independent
  `Split` reading of the expression, `RecoverKeys` (the inverse of the name
  map) and `Substitute` (a reference reading of the placeholders).
- `Decimal` renders a placeholder index the way a template literal `${index}`
  does, and proves that this rendering can be read back.
- `Items` shapes items: the id override on create, `{}` for a missing item,
  `{}` for an absent scan list, and the `Items.map` fault on the category
  query.
- `Json`, `Errors`, `Store` and `Wrappers` hold the data types. The request
  body is what `JSON.parse` made of it: a syntax error, `null`, a boolean, a
  number, or an object together with its `Object.keys` order.

The model follows the code in four places where a reader might expect otherwise:

- A `null` body on create throws `Cannot set properties of null (setting 'id')`,
  because `requestBody.id = …` runs before the empty-object fallback. It does not store
  an item holding only `id`. Module code is strict, so a boolean or number body
  also throws.
- get-all returns the empty object `{}`, not an empty list, when the scan
  reply has no `Items`. An empty `Items` list is returned as the empty list.
- DELETE, and GET with query parameters, read `event.pathParameters.id`. When
  the path object is `null`, this throws a TypeError, which gives a 500.
- The update's log line converts the body to a string. A body with its own
  `toString` key cannot be converted, so such a PUT answers 500 before any
  store call.

## Model

| member | source | states |
|---|---|---|
| `Router.Route` | index.mjs:18-38 | a GET with query parameters routes to the category query whatever the path is; with no query but a path, to get-one; with neither, to get-all; POST, DELETE and PUT route to create, delete and update; it succeeds exactly for those four methods, the chosen operation's method is the input method, and any other method fails with the unsupported-route error for that method |
| `Router.RouteReachesEvery` | index.mjs:18-36 | every operation is selected by its own method and parameter presence |
| `Errors.UnsupportedRouteNamesMethod` | index.mjs:38 | the unsupported-route message contains the method string |
| `Router.SuccessMessageNamesMethod` | index.mjs:44 | the success message contains the method string |
| `Router.Envelope` | index.mjs:41-57 | status 200 with `Successfully finished operation "<method>"` and the payload exactly when the outcome succeeds; otherwise status 500 with `Failed to perform operation!` and the error's message |
| `Router.Handle` | index.mjs:13-59 | the status is 200 or 500, and 200 exactly when the routed operation succeeds; a 200 message names the method and a 500 carries the failure message |
| `Router.Parameter` | index.mjs:93 | the read `params.name` (also lines 32 and 184): it fails exactly when the parameter object is `null`; otherwise the value is present exactly when the object has the name, and it is the object's value |
| `Router.BodyObject` | index.mjs:178-179 | `Object.keys` of the parsed body: a syntax error propagates, `null` throws, a boolean or number has no keys, and an object is taken with its key order |
| `Router.UnsupportedMethodResponse` | index.mjs:37-57 | an unsupported method gives a 500 whose error message contains the method, whatever the store would answer |
| `Router.CategoryQueryNeedsPath` | index.mjs:20-21 | a GET with query parameters and a `null` path gives a 500 with the TypeError for reading `id` of `null` |
| `Router.CategoryQueryCommand` | index.mjs:91-105 | the query's key is the path object's `id` and its filter value is the query object's `category`, each absent exactly when its object lacks the name |
| `Router.MissingItemIsEmptyObject` | index.mjs:22-23 | a get-one whose item is missing answers 200 with the empty object |
| `Router.EmptyScanIsEmptyList` | index.mjs:24-25 | a get-all whose scan returns an empty list answers 200 with the empty list, which is not the `{}` given for an absent list |
| `Router.ReadCommands` | index.mjs:63-68 | get-one reads the item keyed by the path object's `id`; get-all sends a scan |
| `Router.WritesAcknowledge` | index.mjs:124-126 | create, delete and update return the store's raw acknowledgment |
| `Router.StoreOutcomePropagates` | index.mjs:71-73 | once the route and the command are formed, a failing store call answers 500 with the fault's message, and a succeeding one answers with the shaped reply |
| `Router.ReadsIgnoreBody` | index.mjs:18-33 | GET and DELETE responses do not depend on the body |
| `Router.MalformedBodyResponse` | index.mjs:116 | a POST or PUT with a body that is not JSON gives a 500 carrying the parse error's message |
| `Router.DeleteCommand` | index.mjs:31-32 | DELETE with a `null` path fails reading `id`; otherwise it deletes the path object's `id`, or the absent key when the object has no `id` |
| `Router.CreatePutsBodyWithNewId` | index.mjs:114-126 | a POST with an object body puts that body with `id` set to the generated id and every other field unchanged, and answers 200 with the store's acknowledgment when the put succeeds |
| `Router.CreateOfNullBody` | index.mjs:116-121 | a POST with body `null` gives a 500 for setting `id` on `null`; the empty-object fallback on line 121 is never reached |
| `Router.UpdateSetsExactlyBody` | index.mjs:178-194 | a PUT with a path and a body that has keys and converts to a string (an object without a `toString` key, or a boolean or number, which has no keys) issues one update whose key is the path object's `id`; its expression is `SET ` alone for no keys, and otherwise splits into one clause per key in key order; both maps have one entry per key; the name map gives back the key sequence, and substituting the placeholders assigns exactly the body's fields their values |
| `Router.UpdateOfToStringBody` | index.mjs:180 | a PUT whose object body has its own `toString` key answers 500 with the TypeError `Cannot convert object to primitive value`, before the path is read |
| `Router.UpdateOfNullBody` | index.mjs:179 | a PUT with body `null` gives a 500 from `Object.keys`, before the path is read |
| `Router.UpdateOfPrimitiveBody` | index.mjs:179-185 | a PUT with a path and a boolean or number body, which has no keys, sends the update keyed by the path `id` with expression `SET ` and two empty maps |
| `Router.UpdateNeedsPath` | index.mjs:184 | a PUT whose body has keys and converts to a string but whose path is `null` fails reading `id` and answers 500 with that TypeError |
| `Router.CommandErrorPropagates` | index.mjs:48-56 | an error thrown while forming the command of a routed operation answers 500 with that error's message, whatever the store would do |
| `Router.UpdateCommand` | index.mjs:178-194 | builds the update command; its contract is stated by `Router.UpdateSetsExactlyBody`, `Router.UpdateOfPrimitiveBody`, `Router.UpdateNeedsPath`, `Router.UpdateOfToStringBody`, `Router.UpdateOfNullBody` and `Router.MalformedBodyResponse` |
| `Router.CommandFor` | index.mjs:93-104 | builds the store command of each operation (also lines 63-66, 79-81, 116-122, 135-138 and 182-194); its contract is stated by `Router.CategoryQueryCommand`, `Router.ReadCommands`, `Router.CreatePutsBodyWithNewId`, `Router.DeleteCommand`, `Router.CreateOfNullBody`, `Router.CategoryQueryNeedsPath` and the `Router.UpdateCommand` lemmas |
| `Router.Shape` | index.mjs:70 | shapes the store's reply for each operation (also lines 84, 107, 126, 142 and 200); its contract is stated by `Items.FetchedItem`, `Items.ScannedItems`, `Items.QueriedItems` and `Router.WritesAcknowledge` |
| `Router.Perform` | index.mjs:15-39 | the `try` block: route, build the command, send it, shape the reply; its contract is stated by `Router.Handle`, `Router.UnsupportedMethodResponse`, `Router.CommandErrorPropagates` and `Router.StoreOutcomePropagates` |
| `Decimal.NatToString` | index.mjs:185 | the rendering of an index is a non-empty sequence of digits with no leading zero unless the index is zero |
| `Decimal.ParseOfNatToString` | index.mjs:185 | reading the rendered index back as a decimal numeral gives the index |
| `Decimal.NatToStringInjective` | index.mjs:185 | distinct indices render differently |
| `UpdateBuilder.Join` | index.mjs:185 | `Array.prototype.join`; its contract is stated by `UpdateBuilder.SplitJoin` and `UpdateBuilder.JoinSnoc` |
| `UpdateBuilder.UpdateExpression` | index.mjs:185 | the `UpdateExpression` parameter; its contract is stated by `UpdateBuilder.ExpressionClauses` and `UpdateBuilder.ExpressionSnoc` |
| `UpdateBuilder.NameMap` | index.mjs:186-189 | the `ExpressionAttributeNames` parameter; its contract is stated by `UpdateBuilder.NameMapContents` and `UpdateBuilder.RecoverKeysOfNameMap` |
| `UpdateBuilder.ValueMap` | index.mjs:190-193 | the `ExpressionAttributeValues` parameter; its contract is stated by `UpdateBuilder.ValueMapContents` and `UpdateBuilder.UpdateAssignsBody` |
| `UpdateBuilder.PlaceholdersDistinct` | index.mjs:185-193 | `#key<i>` values are pairwise distinct, `:value<i>` values are pairwise distinct, and no name placeholder equals a value placeholder |
| `UpdateBuilder.SplitJoin` | index.mjs:185 | splitting a `join` on its separator gives the parts back when no part contains the separator's first character |
| `UpdateBuilder.JoinSnoc` | index.mjs:185 | joining one more part appends the separator and that part |
| `UpdateBuilder.ExpressionClauses` | index.mjs:185 | the expression starts with `SET `; with no keys it is exactly `SET `; otherwise the rest splits on `, ` into clause i = `#key<i> = :value<i>` for each key index, in order |
| `UpdateBuilder.ExpressionSnoc` | index.mjs:185 | one more key appends `, ` (none for the first) and the next clause |
| `UpdateBuilder.KeyPlaceholdersExactly` | index.mjs:186-189 | the first n name placeholders are exactly `#key<i>` for i below n, and there are n of them |
| `UpdateBuilder.ValuePlaceholdersExactly` | index.mjs:190-193 | the first n value placeholders are exactly `:value<i>` for i below n, and there are n of them |
| `UpdateBuilder.NameMapContents` | index.mjs:186-189 | the name map's keys are the first n name placeholders, `#key<i>` maps to `keys[i]`, and it has n entries |
| `UpdateBuilder.ValueMapContents` | index.mjs:190-193 | the value map's keys are the first n value placeholders, `:value<i>` maps to the body's value for `keys[i]`, and it has n entries |
| `UpdateBuilder.RecoverKeysOfNameMap` | index.mjs:186-189 | looking up the name placeholders in index order gives back the key sequence |
| `UpdateBuilder.UpdateAssignsBody` | index.mjs:185-193 | substituting the two maps into the n clauses assigns exactly the body's fields their body values |
| `Items.AssignId` | index.mjs:118 | after the write, `id` holds the new id, every other property and value is unchanged, and `id` is appended to the key order only when it was absent |
| `Items.CreatedItem` | index.mjs:116-121 | an object body becomes the item with `id` set to the generated id and other fields unchanged; a syntax error propagates; `null`, booleans and numbers throw the strict-mode TypeError |
| `Items.CreatedItemIgnoresCallerId` | index.mjs:117-118 | bodies that differ only in `id` create the same item |
| `Items.FetchedItem` | index.mjs:70 | the stored item if one is present, otherwise `{}` |
| `Items.ScannedItems` | index.mjs:84 | the list of scanned items if the list is present, otherwise the empty object `{}` |
| `Items.QueriedItems` | index.mjs:107 | the list of queried items, or the TypeError for reading `map` of `undefined` when `Items` is absent |

## Left out

- The DynamoDB client and its command objects are not modelled. The store is the `send` parameter, and the model states what the handler sends and how it reads the reply.
- `marshall` and `unmarshall` are a foreign library. Items and values are plain maps, and a missing path `id` reaches the command as `None`, so what marshalling does with `undefined` is left to `send`.
- `uuidv4()` is random. The generated id is the parameter `newId`, and its uniqueness is not modelled.
- `JSON.parse` is taken as given: the event carries its outcome. `JSON.stringify` of the response is not modelled, and the envelope is kept structured.
- The error's `errorStack` is not modelled, because stack traces depend on the runtime.
- The output of `console.log`, the table name from the environment, and `async`/`await` are I/O and concurrency plumbing, so they are not modelled. The string conversion of the body on the update's log line is modelled, because it can throw.
- The commented-out update block (index.mjs:151-177) is dead code.
- Store-side behaviour is not modelled: rejecting `SET ` with no clauses, deleting a missing key, and the `contains` category filter. `Substitute` is a reference reading of the placeholders, not the store's behaviour.
- Top-level JSON strings and arrays as request bodies are not modelled, because their property semantics are those of JavaScript strings and arrays.
- Parameter objects that are `undefined` rather than `null` are not modelled. The gateway sends `null`.
- `Errors.Message`: the strict-mode TypeError for writing `id` on a primitive also quotes the value in V8. The model gives only the type name.
- JSON numbers are modelled as `real`, so double-precision rounding is not modelled. JavaScript strings are UTF-16, while Dafny strings are sequences of Unicode scalar values.
- The order of `Object.keys` is taken as given with the object. JavaScript lists integer-like keys first, and the model does not derive that order.
