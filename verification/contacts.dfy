/** The contact collection as the handlers see it once the JSON file has
    been read: an array of records, each a JSON object whose `id` the
    service assigns and whose other fields the caller supplies. */
module Contacts {
  import opened Seqs

  /** The JSON field values the model admits. */
  datatype Value = Null | Num(n: int) | Str(s: string)

  /** A contact record: a JSON object from field names to values. */
  type Record = map<string, Value>

  /** The whole collection, in file order. */
  type Store = seq<Record>

  /** JavaScript truthiness of a present field. */
  predicate Truthy(v: Value) {
    match v
    case Null => false
    case Num(n) => n != 0
    case Str(s) => s != ""
  }

  /** `!record[key]` is false: the field is there and truthy. */
  predicate Present(r: Record, key: string) {
    key in r && Truthy(r[key])
  }

  /** `record.id === id` for the integer taken from the request path. */
  predicate HasId(r: Record, id: int) {
    "id" in r && r["id"] == Num(id)
  }

  predicate HasNumId(r: Record) {
    "id" in r && r["id"].Num?
  }

  /** Both records carry numeric ids, the first one smaller. */
  predicate IdBelow(a: Record, b: Record) {
    HasNumId(a) && HasNumId(b) && a["id"].n < b["id"].n
  }

  /** Every record carries a numeric id, and the ids strictly increase in
      file order; in particular no two records share an id. */
  ghost predicate IncreasingIds(store: Store) {
    && (forall i :: 0 <= i < |store| ==> HasNumId(store[i]))
    && Ordered(store, IdBelow)
  }

  /** Status codes the handlers answer with. */
  const OK := 200
  const CREATED := 201
  const BAD_REQUEST := 400
  const NOT_FOUND := 404
  /** What Express answers when a handler throws. */
  const SERVER_ERROR := 500

  /** The JSON body of a response. */
  datatype Payload =
    | Message(text: string)
    | Item(record: Record)
    | MessageItem(text: string, record: Record)
    | Items(records: Store)
      /** The default error page Express sends when a handler throws. */
    | ErrorPage

  /** A response together with the collection as the file holds it
      afterwards. */
  datatype Outcome = Outcome(status: int, payload: Payload, store: Store)

  /** `items.findIndex(i => i.id === id)`. */
  function IndexOfId(store: Store, id: int): (k: int)
    ensures -1 <= k < |store|
    ensures k == -1 <==> forall j :: 0 <= j < |store| ==> !HasId(store[j], id)
    ensures 0 <= k ==> HasId(store[k], id) && forall j :: 0 <= j < k ==> !HasId(store[j], id)
  {
    FindIndex(store, (r: Record) => HasId(r, id))
  }

  /** The test `i => i.id !== id`. */
  function OtherId(id: int): Record -> bool {
    (r: Record) => !HasId(r, id)
  }

  /** `items.filter(i => i.id !== id)`. */
  function WithoutId(store: Store, id: int): (t: Store)
    ensures forall r :: r in t ==> r in store && !HasId(r, id)
    ensures IsSubsequence(t, store)
    ensures forall r :: multiset(t)[r] == if HasId(r, id) then 0 else multiset(store)[r]
    ensures |t| == |store| <==> forall j :: 0 <= j < |store| ==> !HasId(store[j], id)
  {
    FilterMultiplicity(store, OtherId(id));
    FilterLength(store, OtherId(id));
    Filter(store, OtherId(id))
  }
}
