# Contacts CRUD service — a Dafny model of its collection logic

The service keeps a collection of contact records in one JSON file. Five
HTTP handlers list the records, create one, fetch one by id, update one by
id and delete by id. Each handler reads the whole file, works on the array
in memory and, for a mutation, writes the whole array back. This project
models each handler as a pure function. The function takes the collection
as read from the file and the request. It returns an `Outcome`: the status
code, the JSON body of the response, and the collection as the file holds
it afterwards.

- `Text` (text.dfy): `capitalizeFirstLetter`, the title-casing applied to
  `name` and `company`. It is built as split on single spaces, re-case each
  token, join with single spaces.
- `Seqs` (seqs.dfy): `findIndex` and `filter` over immutable sequences, plus
  the facts about order and multiplicity that the handlers' contracts need.
- `Contacts` (contacts.dfy): the data model. A field value is
  `Null | Num(int) | Str(string)`, a record is a `map<string, Value>`, and
  the collection is a `seq<Record>`. This module also holds JavaScript
  truthiness, the `id` test `i.id === id`, the invariant "ids strictly
  increase in file order", status codes and response bodies.
- `Backend` (backend.dfy): the handlers of backend/server.js and the
  properties relating them.
- `RootServer` (root_server.dfy): the top-level server.js. It is an
  incomplete copy whose create handler only computes an id. Its list, get,
  update and delete are proved equal to the backend's.

Points where the code's behaviour is easy to misread:
- A new id is the LAST record's id plus one, or 1 when the collection is
  empty, not the largest id plus one. `Backend.CreateMayReuseId`
  shows that this reuses an id once an update has reordered the ids.
- Delete removes EVERY record holding the id, not just the first. It
  removes exactly one record when only one record holds the id;
  `Backend.DeleteRemovesOne` proves this for strictly increasing ids.
- A `name` or `company` that is truthy but not a string makes
  `capitalizeFirstLetter` throw. Express answers such a throw with 500 and
  its default error page (`SERVER_ERROR`, `ErrorPage`), and nothing is
  written.

## Model

| member | source | states |
|---|---|---|
| Text.Split | backend/server.js:37 | splitting on `' '` yields at least one piece, and no piece contains a space |
| Text.TitleWord | backend/server.js:38 | a re-cased token keeps its length; its first character is upper-cased and every later one lower-cased |
| Text.JoinSplit | backend/server.js:37-39 | joining the pieces of a split with single spaces gives back the original string |
| Text.SplitJoin | backend/server.js:37-39 | splitting a join of space-free pieces gives back exactly those pieces |
| Text.CapitalizeFirstLetter | backend/server.js:35-40 | the result has the input's length; each character is upper-cased at the start or after a space and lower-cased elsewhere (`CaseAt`); the lemmas `CapitalizeFirstLetter*` below derive tokens, shape and idempotence from it |
| Text.CapitalizeFirstLetterPointwise | backend/server.js:35-40 | title-casing keeps the length. A character becomes upper case at the start or after a space and lower case elsewhere. Spaces stay exactly where they were |
| Text.CapitalizeFirstLetterTokens | backend/server.js:35-40 | the tokens of the result are the original tokens, each re-cased, so the token count is kept |
| Text.CapitalizeFirstLetterTokenShape | backend/server.js:35-40 | every non-empty token of the result starts with a non-lower-case character, and no upper-case letter follows it |
| Text.CapitalizeFirstLetterIdempotent | backend/server.js:35-40 | normalising an already normalised string changes nothing |
| Text.NameExample | backend/server.js:59 | the example name "john doe" is stored as "John Doe" |
| Text.CompanyExample | backend/server.js:60 | the example company "acme corp" is stored as "Acme Corp" |
| Seqs.FindIndex | backend/server.js:101 | `findIndex` gives -1 exactly when no element passes the test. Otherwise it gives the first element that passes |
| Seqs.Filter | backend/server.js:117 | `filter` keeps only passing elements, all drawn from the input, as a subsequence in the original order |
| Seqs.FilterMultiplicity | backend/server.js:117 | `filter` keeps each passing element as often as it occurs and drops every failing one |
| Seqs.FilterLength | backend/server.js:117-118 | the filtered length equals the original exactly when every element passes |
| Seqs.FilterOrdered | backend/server.js:117 | whatever order relation holds between earlier and later elements still holds after filtering |
| Contacts.IndexOfId | backend/server.js:101 | the index of the first record whose id strictly equals the requested one, or -1 when none does |
| Contacts.WithoutId | backend/server.js:117 | keeps every record without the id, in order and with its multiplicity, and nothing else. The length stays the same exactly when no record has the id |
| Backend.List | backend/server.js:43-46 | listing answers 200 with the whole collection and changes nothing |
| Backend.Normalise | backend/server.js:58-60 | `name` and `company` are replaced by their title-cased forms, and every other field is kept |
| Backend.NextId | backend/server.js:74 | the new id is 1 for an empty collection; otherwise JavaScript's `id + 1` on the last record's id: its numeric id plus one, 1 for a null id, the string id with "1" appended, or null (NaN as JSON writes it) when the last record has no id |
| Backend.Merge | backend/server.js:107 | the shallow merge holds every key of either record. The body's value wins where both have the key |
| Backend.Create | backend/server.js:50-84 | a missing or falsy required field gives 400. A non-string name or company gives 500. A normalised name and mobile number already stored give 400, exactly when such a record exists. Every failure leaves the collection unchanged. Otherwise the answer is 201, exactly when all checks pass, and the old collection gains one record: the body with normalised name and company and the next id |
| Backend.GetById | backend/server.js:87-96 | 404 exactly when no record has the id; otherwise 200 with the first record that has it. The collection never changes |
| Backend.Update | backend/server.js:99-112 | 404 with the collection unchanged exactly when no record has the id. Otherwise 200: the length is kept, only the first matching index changes, and it becomes the old record merged with the body |
| Backend.Delete | backend/server.js:115-124 | 404 with the collection unchanged exactly when no record has the id. Otherwise 200 with the order-preserving filter: no record with the id is left, and every other record is kept as often as it occurred |
| Backend.CreateKeepsIdsIncreasing | backend/server.js:74-77 | if the stored ids strictly increase, they still do after any create |
| Backend.CreateThenGet | backend/server.js:74-96 | with increasing ids, a created contact is found by its new id: the new id is fresh |
| Backend.DeleteKeepsIdsIncreasing | backend/server.js:117-122 | if the stored ids strictly increase, they still do after any delete |
| Backend.DeleteRemovesOne | backend/server.js:117-122 | with increasing ids, a successful delete removes exactly the one record with the id and keeps the rest in order |
| Backend.NormaliseIdempotent | backend/server.js:58-60 | normalising a record whose name and company are already normalised changes nothing |
| Backend.CreateRejectsRepeat | backend/server.js:64-71 | after a create, a request whose name title-cases to the same string and has the same mobile number gets 400 as a duplicate, and the collection is unchanged |
| Backend.RepostRejected | backend/server.js:58-71 | posting the stored record again, exactly as the service answered it, gets 400 as a duplicate |
| Backend.CreateMayReuseId | backend/server.js:74 | when ids 3 then 2 are stored, create assigns 3 again, and fetching 3 returns the older record |
| RootServer.List | server.js:30-33 | listing gives the backend's outcome: 200 with the whole collection, nothing changed (see RootServer.HandlersMatchBackend) |
| RootServer.CreateDraft | server.js:37-42 | the draft create puts on the body the id the backend's create computes (`Backend.NextId`, every case of the last id), keeps the body's other fields, and leaves the collection unchanged |
| RootServer.GetById | server.js:45-54 | get gives the backend's outcome, so Backend.GetById's contract holds: 404 exactly when no record has the id, else the first match, nothing changed (see RootServer.HandlersMatchBackend) |
| RootServer.Update | server.js:57-70 | update gives the backend's outcome, so Backend.Update's contract holds: 404 with nothing changed exactly when no record has the id, else only the first match is replaced by the merge (see RootServer.HandlersMatchBackend) |
| RootServer.Delete | server.js:73-83 | delete gives the backend's outcome, so Backend.Delete's contract holds: 404 with nothing changed exactly when no record has the id, else the order-preserving filter (see RootServer.HandlersMatchBackend) |
| RootServer.CreateDraftStoresNothing | server.js:37-42 | the draft computes the same id the backend's create assigns. The backend grows the collection by one record, and the draft stores nothing |
| RootServer.HandlersMatchBackend | server.js:30-83 | list, get, update and delete of server.js give the backend's outcome for every collection and request |
| RootServer.UpdateMayBreakIdOrder | server.js:65-66 | a body with `id` overwrites the stored id. Update therefore can turn increasing ids 1, 2 into 3, 2 |
| RootServer.UpdateMayDuplicateId | server.js:65-66 | the same overwrite can turn distinct ids 1, 2 into 2, 2, so update does not keep ids unique either |

## Left out

- Express routing, `body-parser`, `cors` and `app.listen` (backend/server.js:2-14, 127-129; server.js:1-9, 85-87) are framework plumbing. Each handler is a function of its request instead.
- `readData`/`writeData` are left out, so the model has no file I/O, no fail-soft read that returns an empty array, and no JSON pretty-printing. The collection is passed in and returned.
- `parseInt(req.params.id)` is left out: the id arrives as an integer. A non-numeric id parses to NaN, which equals no id, so such a request behaves like one for an absent id.
- Field values are limited to null, integers and strings. Booleans, fractional numbers, arrays and nested objects are not modelled, and neither are array elements that are not objects.
- Case mapping covers the ASCII letters only. JavaScript's Unicode mapping can change a string's length (for example 'ß' upper-cases to "SS"); the model leaves every non-ASCII character as it is.
- Ids are unbounded integers. JavaScript numbers lose precision above 2^53, and that is not modelled.
- Concurrent requests and lost updates from unsynchronised read-modify-write are not modelled, because each request is a single function application.
- The draft create of server.js sends no response, so the request never completes. The model records no response for it at all.
- The complete example contact request ("john doe", "acme corp", "555-1111" into an empty collection), from POST to stored record, is not stated as one lemma. Its title-casing is stated by Text.NameExample and Text.CompanyExample, and the rest follows from Backend.Create's contract.
