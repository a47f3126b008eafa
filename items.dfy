/** Attribute values and items as the Lambda handlers see them: parsed JSON
    request bodies and DynamoDB items under the document client's
    marshalling, plus the outcome of one call to the store. */
module Items {
  import opened Wrappers

  /** A property value. `Undefined` stands for a property that is missing or
      holds `undefined`; nested objects and arrays are kept as opaque text.
      Numbers are integers (see README, "Left out"). */
  datatype Value = Undefined | Null | Bool(b: bool) | Num(n: int) | Str(s: string) | Nested(json: string)

  /** A plain object / DynamoDB item: property name to value. */
  type Item = map<string, Value>

  /** `item.name`: the value, or `undefined` when the property is absent. */
  function Field(item: Item, name: string): (v: Value)
    ensures name in item ==> v == item[name]
    ensures name !in item ==> v == Undefined
  {
    if name in item then item[name] else Undefined
  }

  /** The object literal `{...base, ...body}`: every property of `body`, and
      the properties of `base` that `body` does not override. */
  function Spread(base: Item, body: Item): (r: Item)
    ensures r.Keys == base.Keys + body.Keys
    ensures forall k :: k in body ==> r[k] == body[k]
    ensures forall k :: k in base && k !in body ==> r[k] == base[k]
  {
    base + body
  }

  /** An item as it reaches the table: no attribute holds `undefined`. */
  ghost predicate Stored(item: Item) {
    forall k :: k in item ==> item[k] != Undefined
  }

  /** The document client's `removeUndefinedValues: true` marshalling option:
      attributes holding `undefined` are dropped, all others kept verbatim. */
  function RemoveUndefined(item: Item): (r: Item)
    ensures Stored(r)
    ensures forall k :: k in r <==> k in item && item[k] != Undefined
    ensures forall k :: k in r ==> r[k] == item[k]
  {
    map k | k in item && item[k] != Undefined :: item[k]
  }

  /** The Books table's partition key: a numeric `id` attribute. Any other
      shape of `id` (absent, a string, null, ...) is refused by the store. */
  function KeyOf(item: Item): (key: Option<int>)
    ensures key.Some? <==> Field(item, "id").Num?
    ensures key.Some? ==> "id" in item && item["id"] == Num(key.value)
  {
    match Field(item, "id")
    case Num(n) => Some(n)
    case _ => None
  }

  /** The Books table's invariant: each item sits under its own `id` and has
      been marshalled. */
  ghost predicate WellKeyed(books: map<int, Item>) {
    forall k :: k in books ==> KeyOf(books[k]) == Some(k) && Stored(books[k])
  }

  /** A put of a keyed, marshalled item keeps the table well keyed. */
  lemma PutKeepsWellKeyed(books: map<int, Item>, item: Item)
    requires KeyOf(item).Some? && Stored(item)
    ensures WellKeyed(books) ==> WellKeyed(books[KeyOf(item).value := item])
  {
  }

  /** What `event.body ? JSON.parse(event.body) : undefined` yields: no body
      (absent or empty string), a body `JSON.parse` throws on, a body that
      parses to a falsy value (null, false, 0, ""), or a truthy value,
      represented by the own properties an object spread copies out of it. */
  datatype RequestBody = NoBody | Unparsable(error: string) | FalsyJson | Fields(fields: Item)

  /** The outcome of one call to the document store: it completes, or the
      awaited promise rejects with an error of the given name. */
  datatype StoreCall = Completes | Fails(error: string)
}
