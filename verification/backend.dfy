/** The request handlers of backend/server.js as pure functions from the
    collection read from the data file and the request to the response and
    the collection written back. */
module Backend {
  import opened Seqs
  import opened Text
  import opened Contacts

  const MissingFieldsMessage := "Name, Company and Mobile Number are required. "
  const DuplicateMessage := "Item with same name and mobile number already exists. "
  const CreatedMessage := "Item created successfully."
  const NotFoundMessage := "Item not found"
  const UpdatedMessage := "Item updated successfully"
  const DeletedMessage := "Item deleted successfully"

  /** GET /api/items: the whole collection. */
  function List(store: Store): (o: Outcome)
    ensures o.status == OK && o.payload == Items(store)
    ensures o.store == store
  {
    Outcome(OK, Items(store), store)
  }

  /** The three fields a new contact must carry, each present and truthy. */
  predicate HasRequiredFields(body: Record) {
    Present(body, "name") && Present(body, "company") && Present(body, "mobileNumber")
  }

  /** Title-casing calls string methods, so it only succeeds on strings. */
  predicate CanNormalise(body: Record) {
    "name" in body && body["name"].Str? && "company" in body && body["company"].Str?
  }

  /** The body with `name` and `company` title-cased. */
  function Normalise(body: Record): (n: Record)
    requires CanNormalise(body)
    ensures n.Keys == body.Keys
    ensures n["name"] == Str(CapitalizeFirstLetter(body["name"].s))
    ensures n["company"] == Str(CapitalizeFirstLetter(body["company"].s))
    ensures forall k :: k in body && k != "name" && k != "company" ==> n[k] == body[k]
  {
    body["name" := Str(CapitalizeFirstLetter(body["name"].s))]["company" := Str(CapitalizeFirstLetter(body["company"].s))]
  }

  /** `item.name === name && item.mobileNumber === mobile`. */
  predicate SameContact(r: Record, name: Value, mobile: Value) {
    "name" in r && r["name"] == name && "mobileNumber" in r && r["mobileNumber"] == mobile
  }

  /** JavaScript `v + 1` on a stored id, as JSON serialisation keeps it:
      null counts as 0, a string gets "1" appended. */
  function PlusOne(v: Value): Value {
    match v
    case Null => Num(1)
    case Num(n) => Num(n + 1)
    case Str(s) => Str(s + "1")
  }

  /** `items.length ? items[items.length - 1].id + 1 : 1`: one past the id
      of the LAST record, not of the largest. A last record without an id
      gives NaN, which JSON writes as null. */
  function NextId(store: Store): (v: Value)
    ensures |store| == 0 ==> v == Num(1)
    ensures |store| > 0 && HasNumId(store[|store| - 1]) ==> v == Num(store[|store| - 1]["id"].n + 1)
    ensures |store| > 0 && "id" !in store[|store| - 1] ==> v == Null
    ensures |store| > 0 && "id" in store[|store| - 1] && store[|store| - 1]["id"] == Null ==> v == Num(1)
    ensures |store| > 0 && "id" in store[|store| - 1] && store[|store| - 1]["id"].Str? ==>
      v == Str(store[|store| - 1]["id"].s + "1")
  {
    if |store| == 0 then Num(1)
    else
      var last := store[|store| - 1];
      if "id" in last then PlusOne(last["id"]) else Null
  }

  /** What a successful create stores: the body with `name` and `company`
      title-cased and `id` set to the next id, every other field as sent. */
  ghost predicate CreatedFrom(item: Record, body: Record, store: Store)
    requires CanNormalise(body)
  {
    && item.Keys == body.Keys + {"id"}
    && item["name"] == Str(CapitalizeFirstLetter(body["name"].s))
    && item["company"] == Str(CapitalizeFirstLetter(body["company"].s))
    && item["id"] == NextId(store)
    && forall k :: k in body && k != "name" && k != "company" && k != "id" ==> item[k] == body[k]
  }

  /** POST /api/items. */
  function Create(store: Store, body: Record): (o: Outcome)
    ensures o.status in {CREATED, BAD_REQUEST, SERVER_ERROR}
    ensures o.status != CREATED ==> o.store == store
    ensures !HasRequiredFields(body) ==> o.status == BAD_REQUEST && o.payload == Message(MissingFieldsMessage)
    ensures HasRequiredFields(body) && !CanNormalise(body) ==> o.status == SERVER_ERROR && o.payload == ErrorPage
    ensures HasRequiredFields(body) && CanNormalise(body) ==>
      var name := Str(CapitalizeFirstLetter(body["name"].s));
      ((exists j :: 0 <= j < |store| && SameContact(store[j], name, body["mobileNumber"]))
         <==> o.status == BAD_REQUEST && o.payload == Message(DuplicateMessage))
    ensures o.status == CREATED <==>
      && HasRequiredFields(body) && CanNormalise(body)
      && forall j :: 0 <= j < |store| ==>
           !SameContact(store[j], Str(CapitalizeFirstLetter(body["name"].s)), body["mobileNumber"])
    ensures o.status == CREATED ==>
      && |o.store| == |store| + 1
      && o.store[..|store|] == store
      && CreatedFrom(o.store[|store|], body, store)
      && o.payload == MessageItem(CreatedMessage, o.store[|store|])
  {
    if !HasRequiredFields(body) then
      Outcome(BAD_REQUEST, Message(MissingFieldsMessage), store)
    else if !CanNormalise(body) then
      Outcome(SERVER_ERROR, ErrorPage, store)
    else
      var item := Normalise(body);
      var dup := FindIndex(store, (r: Record) => SameContact(r, item["name"], item["mobileNumber"]));
      if dup != -1 then
        Outcome(BAD_REQUEST, Message(DuplicateMessage), store)
      else
        var created := item["id" := NextId(store)];
        Outcome(CREATED, MessageItem(CreatedMessage, created), store + [created])
  }

  /** GET /api/items/:id. */
  function GetById(store: Store, id: int): (o: Outcome)
    ensures o.store == store
    ensures o.status in {OK, NOT_FOUND}
    ensures o.status == NOT_FOUND <==> forall j :: 0 <= j < |store| ==> !HasId(store[j], id)
    ensures o.status == NOT_FOUND ==> o.payload == Message(NotFoundMessage)
    ensures o.status == OK ==> exists k ::
      && 0 <= k < |store| && HasId(store[k], id)
      && (forall j :: 0 <= j < k ==> !HasId(store[j], id))
      && o.payload == Item(store[k])
  {
    var k := IndexOfId(store, id);
    if k == -1 then Outcome(NOT_FOUND, Message(NotFoundMessage), store)
    else Outcome(OK, Item(store[k]), store)
  }

  /** `{ ...stored, ...body }`: every field of `body`, and every field of `stored`
      that `body` does not name. */
  function Merge(stored: Record, body: Record): (m: Record)
    ensures m.Keys == stored.Keys + body.Keys
    ensures forall key :: key in body ==> m[key] == body[key]
    ensures forall key :: key in stored && key !in body ==> m[key] == stored[key]
  {
    stored + body
  }

  /** PUT /api/items/:id. */
  function Update(store: Store, id: int, body: Record): (o: Outcome)
    ensures o.status in {OK, NOT_FOUND}
    ensures o.status == NOT_FOUND <==> forall j :: 0 <= j < |store| ==> !HasId(store[j], id)
    ensures o.status == NOT_FOUND ==> o.store == store && o.payload == Message(NotFoundMessage)
    ensures o.status == OK ==> |o.store| == |store| && exists k ::
      && 0 <= k < |store| && HasId(store[k], id)
      && (forall j :: 0 <= j < k ==> !HasId(store[j], id))
      && (forall j :: 0 <= j < |store| && j != k ==> o.store[j] == store[j])
      && o.store[k].Keys == store[k].Keys + body.Keys
      && (forall key :: key in body ==> o.store[k][key] == body[key])
      && (forall key :: key in store[k] && key !in body ==> o.store[k][key] == store[k][key])
      && o.payload == MessageItem(UpdatedMessage, o.store[k])
  {
    var k := IndexOfId(store, id);
    if k == -1 then Outcome(NOT_FOUND, Message(NotFoundMessage), store)
    else
      var updated := Merge(store[k], body);
      Outcome(OK, MessageItem(UpdatedMessage, updated), store[k := updated])
  }

  /** DELETE /api/items/:id: every record with the id goes. */
  function Delete(store: Store, id: int): (o: Outcome)
    ensures o.status in {OK, NOT_FOUND}
    ensures o.status == NOT_FOUND <==> forall j :: 0 <= j < |store| ==> !HasId(store[j], id)
    ensures o.status == NOT_FOUND ==> o.store == store && o.payload == Message(NotFoundMessage)
    ensures o.status == OK ==> o.payload == Message(DeletedMessage)
    ensures o.status == OK ==>
      && |o.store| < |store|
      && IsSubsequence(o.store, store)
      && (forall r :: r in o.store ==> !HasId(r, id))
      && (forall r :: multiset(o.store)[r] == if HasId(r, id) then 0 else multiset(store)[r])
  {
    var filtered := WithoutId(store, id);
    if |filtered| == |store| then Outcome(NOT_FOUND, Message(NotFoundMessage), store)
    else Outcome(OK, Message(DeletedMessage), filtered)
  }

  /** With increasing ids, the id a create assigns is larger than every
      stored one, so the collection stays increasing. */
  lemma CreateKeepsIdsIncreasing(store: Store, body: Record)
    requires IncreasingIds(store)
    ensures IncreasingIds(Create(store, body).store)
  {
    var o := Create(store, body);
    if o.status == CREATED {
      var n := |store|;
      var item := o.store[n];
      assert o.store == store + [item];
      assert item["id"] == NextId(store);
      AppendKeepsIdsIncreasing(store, item);
    }
  }

  /** Appending a record whose id is above the last stored one keeps ids
      increasing. */
  lemma AppendKeepsIdsIncreasing(store: Store, item: Record)
    requires IncreasingIds(store)
    requires HasNumId(item)
    requires |store| > 0 ==> item["id"].n == store[|store| - 1]["id"].n + 1
    ensures IncreasingIds(store + [item])
  {
    var n := |store|;
    var t: Store := store + [item];
    forall i, j | 0 <= i < j < |t| ensures IdBelow(t[i], t[j]) {
      assert t[i] == store[i];
      if j < n {
        assert t[j] == store[j];
      } else if i < n - 1 {
        assert IdBelow(store[i], store[n - 1]);
      }
    }
  }

  /** With increasing ids, a created contact can be fetched by the id it
      was given: no older record holds that id. */
  lemma CreateThenGet(store: Store, body: Record)
    requires IncreasingIds(store)
    requires Create(store, body).status == CREATED
    ensures var o := Create(store, body);
      && o.store[|store|]["id"].Num?
      && GetById(o.store, o.store[|store|]["id"].n) == Outcome(OK, Item(o.store[|store|]), o.store)
  {
    var o := Create(store, body);
    var n := |store|;
    CreateKeepsIdsIncreasing(store, body);
    var id := o.store[n]["id"].n;
    forall j | 0 <= j < n ensures !HasId(o.store[j], id) {
      assert o.store[j]["id"].n < id;
    }
  }

  /** Deleting keeps the ids increasing: what remains is a subsequence. */
  lemma DeleteKeepsIdsIncreasing(store: Store, id: int)
    requires IncreasingIds(store)
    ensures IncreasingIds(Delete(store, id).store)
  {
    var o := Delete(store, id);
    if o.status == OK {
      FilterOrdered(store, OtherId(id), IdBelow);
      forall i | 0 <= i < |o.store| ensures HasNumId(o.store[i]) {
        assert o.store[i] in store;
      }
    }
  }

  /** With increasing ids, a successful delete removes exactly the one
      record holding the id. */
  lemma DeleteRemovesOne(store: Store, id: int)
    requires IncreasingIds(store)
    requires Delete(store, id).status == OK
    ensures var k := IndexOfId(store, id);
      0 <= k && Delete(store, id).store == store[..k] + store[k + 1..]
  {
    var k := IndexOfId(store, id);
    forall j | 0 <= j < |store| && j != k ensures OtherId(id)(store[j]) {
      if j > k {
        assert IdBelow(store[k], store[j]);
      }
    }
    FilterDropsOne(store, OtherId(id), k);
  }

  /** The id a create assigns is one past the LAST record's id, not past the
      largest: once an update has left ids 3 then 2, a create is given id 3
      again, and fetching id 3 returns the older record, never the new one. */
  lemma CreateMayReuseId(a: Record, b: Record, body: Record)
    requires a == map["id" := Num(3)] && b == map["id" := Num(2)]
    requires HasRequiredFields(body) && CanNormalise(body)
    ensures Create([a, b], body).status == CREATED
    ensures Create([a, b], body).store[2]["id"] == Num(3)
    ensures GetById(Create([a, b], body).store, 3).payload == Item(a)
  {
    var o := Create([a, b], body);
    assert !SameContact(a, Str(CapitalizeFirstLetter(body["name"].s)), body["mobileNumber"]);
    assert !SameContact(b, Str(CapitalizeFirstLetter(body["name"].s)), body["mobileNumber"]);
    assert o.status == CREATED;
    assert o.store[0] == a;
    assert HasId(o.store[0], 3);
  }

  /** Normalising a normalised record changes nothing. */
  lemma NormaliseIdempotent(body: Record)
    requires CanNormalise(body)
    ensures CanNormalise(Normalise(body))
    ensures Normalise(Normalise(body)) == Normalise(body)
  {
    CapitalizeFirstLetterIdempotent(body["name"].s);
    CapitalizeFirstLetterIdempotent(body["company"].s);
  }

  /** Once a contact is created, a second request whose name title-cases
      to the same string and whose mobile number is the same is refused as
      a duplicate, and the collection stays as it is. */
  lemma CreateRejectsRepeat(store: Store, body: Record, again: Record)
    requires Create(store, body).status == CREATED
    requires HasRequiredFields(again) && CanNormalise(again)
    requires CapitalizeFirstLetter(again["name"].s) == CapitalizeFirstLetter(body["name"].s)
    requires again["mobileNumber"] == body["mobileNumber"]
    ensures var o := Create(store, body);
      Create(o.store, again) == Outcome(BAD_REQUEST, Message(DuplicateMessage), o.store)
  {
    var o := Create(store, body);
    var n := |store|;
    assert SameContact(o.store[n], Str(CapitalizeFirstLetter(again["name"].s)), again["mobileNumber"]);
  }

  /** Posting a stored contact again, exactly as the service answered it,
      is refused as a duplicate: its name is already title-cased. */
  lemma RepostRejected(store: Store, body: Record)
    requires Create(store, body).status == CREATED
    ensures var o := Create(store, body);
      Create(o.store, o.store[|store|]) == Outcome(BAD_REQUEST, Message(DuplicateMessage), o.store)
  {
    var o := Create(store, body);
    var item := o.store[|store|];
    CapitalizeFirstLetterIdempotent(body["name"].s);
    assert Truthy(item["name"]) && Truthy(item["company"]) by {
      CapitalizeFirstLetterPointwise(body["name"].s);
      CapitalizeFirstLetterPointwise(body["company"].s);
    }
    CreateRejectsRepeat(store, body, item);
  }
}
