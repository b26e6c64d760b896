/** The handlers of the top-level server.js, an incomplete copy of the
    service: list, get, update and delete are written the same way as in
    backend/server.js, while its create handler stops after computing an
    id. */
module RootServer {
  import opened Seqs
  import opened Contacts
  import Backend

  /** GET /api/items. */
  function List(store: Store): (o: Outcome)
    ensures o == Backend.List(store)
  {
    Outcome(OK, Items(store), store)
  }

  /** What POST /api/items leaves behind. The handler neither writes the
      file nor answers, so the only trace is on the request body object. */
  datatype Draft = Draft(body: Record, store: Store)

  /** POST /api/items: sets `id` on the body to one past the last stored
      id, or 1 when the collection is empty, and does nothing else. */
  function CreateDraft(store: Store, body: Record): (d: Draft)
    ensures d.store == store
    ensures d.body.Keys == body.Keys + {"id"}
    ensures forall k :: k in body && k != "id" ==> d.body[k] == body[k]
    ensures d.body["id"] == Backend.NextId(store)
    ensures |store| == 0 ==> d.body["id"] == Num(1)
    ensures |store| > 0 && HasNumId(store[|store| - 1]) ==> d.body["id"] == Num(store[|store| - 1]["id"].n + 1)
  {
    Draft(body["id" := Backend.NextId(store)], store)
  }

  /** GET /api/items/:id. */
  function GetById(store: Store, id: int): (o: Outcome)
    ensures o == Backend.GetById(store, id)
  {
    var k := FindIndex(store, (r: Record) => HasId(r, id));
    if k == -1 then Outcome(NOT_FOUND, Message(Backend.NotFoundMessage), store)
    else Outcome(OK, Item(store[k]), store)
  }

  /** PUT /api/items/:id. */
  function Update(store: Store, id: int, body: Record): (o: Outcome)
    ensures o == Backend.Update(store, id, body)
  {
    var k := FindIndex(store, (r: Record) => HasId(r, id));
    if k == -1 then Outcome(NOT_FOUND, Message(Backend.NotFoundMessage), store)
    else
      var updated := store[k] + body;
      Outcome(OK, MessageItem(Backend.UpdatedMessage, updated), store[k := updated])
  }

  /** DELETE /api/items/:id. */
  function Delete(store: Store, id: int): (o: Outcome)
    ensures o == Backend.Delete(store, id)
  {
    var filtered := Filter(store, OtherId(id));
    if |filtered| == |store| then Outcome(NOT_FOUND, Message(Backend.NotFoundMessage), store)
    else Outcome(OK, Message(Backend.DeletedMessage), filtered)
  }

  /** List, get, update and delete answer exactly as the backend handlers
      do, for every collection and request, so every property proved of
      those holds of these. */
  lemma HandlersMatchBackend(store: Store, id: int, body: Record)
    ensures List(store) == Backend.List(store)
    ensures GetById(store, id) == Backend.GetById(store, id)
    ensures Update(store, id, body) == Backend.Update(store, id, body)
    ensures Delete(store, id) == Backend.Delete(store, id)
  {
    assert FindIndex(store, (r: Record) => HasId(r, id)) == IndexOfId(store, id);
  }

  /** The draft create computes the id the backend's create assigns, but
      stores nothing: where the backend's create grows the collection by
      one record, this one leaves it as it was. */
  lemma CreateDraftStoresNothing(store: Store, body: Record)
    requires Backend.Create(store, body).status == CREATED
    ensures CreateDraft(store, body).store == store
    ensures |Backend.Create(store, body).store| == |store| + 1
    ensures CreateDraft(store, body).body["id"] == Backend.Create(store, body).store[|store|]["id"]
  {
  }

  /** Update lets the body overwrite `id`, so unlike create and delete it
      does not keep ids increasing: in the collection with ids 1 and 2,
      giving the first record id 3 leaves ids 3 then 2. */
  lemma UpdateMayBreakIdOrder(a: Record, b: Record, body: Record)
    requires a == map["id" := Num(1)] && b == map["id" := Num(2)] && body == map["id" := Num(3)]
    ensures IncreasingIds([a, b])
    ensures Update([a, b], 1, body).status == OK
    ensures Update([a, b], 1, body).store == [body, b]
    ensures !IncreasingIds(Update([a, b], 1, body).store)
  {
    HandlersMatchBackend([a, b], 1, body);
    assert HasId(a, 1);
    assert a + body == body;
    assert !IdBelow(body, b);
  }

  /** Nor does update keep ids distinct: in the collection with ids 1 and
      2, giving the first record id 2 leaves two records with id 2. */
  lemma UpdateMayDuplicateId(a: Record, b: Record, body: Record)
    requires a == map["id" := Num(1)] && b == map["id" := Num(2)] && body == map["id" := Num(2)]
    ensures IncreasingIds([a, b])
    ensures Update([a, b], 1, body).status == OK
    ensures Update([a, b], 1, body).store == [body, b]
    ensures HasId(Update([a, b], 1, body).store[0], 2) && HasId(Update([a, b], 1, body).store[1], 2)
  {
    HandlersMatchBackend([a, b], 1, body);
    assert HasId(a, 1);
    assert a + body == body;
  }
}
