/**
 * The requests the handler sends to the product table and the replies it reads.
 * The store itself is outside the model: the handler receives it as a function
 * from command to reply or fault.
 */
module Store {
  import opened Wrappers
  import opened Json

  /** One store request; a key's `id` is absent when the path carries none. */
  datatype Command =
    | GetItem(id: Option<string>)
    | Scan
    | Query(id: Option<string>, category: Option<string>)
    | PutItem(item: Item)
    | DeleteItem(id: Option<string>)
    | UpdateItem(id: Option<string>, expression: string, names: map<string, string>, values: map<string, Value>)

  /** The store's acknowledgment: the `Item` and `Items` fields and the rest of the response. */
  datatype Reply = Reply(item: Option<Item>, items: Option<seq<Item>>, metadata: Item)
}
