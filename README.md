# Product store of the Express CRUD server

This project models the in-memory product catalogue behind the five product
routes of `server.js`: the module-level list `productos` of records
`{id, nombre, precio}` and what `GET /productos`, `GET /productos/:id`,
`POST /productos`, `PUT /productos/:id` and `DELETE /productos/:id` do to it.

- `catalog.dfy`, module `Catalog`: the record (`Product`), the handler outcome
  (`Outcome`: `Ok` or `NotFound`), and the pure queries over the list: the
  first match of `find` (`IndexOf`, `Find`), the next-id rule (`NextId`), the
  `??` partial update (`Coalesce`, `Patch`, `Updated`) and the `filter` of a
  delete (`Without`), with lemmas about them.
- `requests.dfy`, module `Requests`: each route as a function of the list it
  runs against: the answer (`Respond`) and the list left behind (`Step`);
  `Serve` runs a series of requests; lemmas about every list a series of
  requests can reach.
- `store.dfy`, module `ProductStore`: class `Store`, whose field `productos`
  is the mutable list. `List` and `Get` are queries; `Create` appends
  (`push`), `Update` replaces the fields of the first match, `Delete`
  replaces the list by its filtered copy; `Handle` dispatches a request and is
  proved to agree with `Respond` and `Step`. `ScenarioFromEmpty` is a client
  that creates a product in an empty store, reads it back as id 1, deletes it
  and then gets not-found twice.

Absent body fields are `None`: JavaScript's `??` treats `null` and
`undefined` alike, so `Some(0)` or `Some("")` does overwrite a field, and an
update that supplies neither field is the identity (`EmptyUpdateIsIdentity`).

Ids are assigned as the LAST record's id plus one (1 for an empty list), as
`server.js:70` does: the last id plus one, not the largest. Uniqueness of ids is
therefore not assumed: it holds while ids are strictly increasing along the
list (`IdsIncreasing`), which every create, update and delete preserves, and
which every list reached from an empty one has (`ServeFromEmptyHasDistinctIds`).
A list loaded in another order can get a duplicate id
(`UnorderedListGetsDuplicateId`), and on a list whose ids increase from 1,
deleting the last record lets the next
create hand out an id no greater than the deleted one, the deleted id itself
when the record before it held the id just below (`DeletedLastIdMayBeReissued`).

## Model

| member | source | states |
|---|---|---|
| `Catalog.IndexOf` | server.js:86 | none exactly when no record has the id; otherwise an in-range index whose record has the id and before which no record has it (the element `find` stops at) |
| `Catalog.Find` | server.js:59 | not found exactly when no record has the id; otherwise the returned record has the id and is the first record in the list that does |
| `Catalog.NextId` | server.js:70 | when ids are strictly increasing the next id is greater than every id in the list, so no record has it yet |
| `Catalog.NewProduct` | server.js:68-73 | the new record carries the body's `nombre` and `precio` as given, and appending it to a list with increasing ids keeps them increasing |
| `Catalog.Patch` | server.js:90-91 | the record's id is kept; each of `nombre` and `precio` is replaced exactly when a value for it is supplied, and kept otherwise |
| `Catalog.Updated` | server.js:86-91 | same length and the same id at every index; the list is unchanged when no record has the id; otherwise only the first record with the id is patched and every other index is unchanged |
| `Catalog.Without` | server.js:105 | a record survives exactly when it was in the list with another id; no survivor has the id; the list shrinks strictly when the id was present and is unchanged when it was not |
| `Catalog.IncreasingIdsAreDistinct` | server.js:70 | strictly increasing ids are pairwise distinct |
| `Catalog.FindIsTheOnlyMatch` | server.js:59 | under distinct ids the record `find` returns for an id is the record at any index carrying that id |
| `Catalog.WithoutConcat` | server.js:105 | filtering a concatenation is the concatenation of the filtered parts, so survivors keep their relative order |
| `Catalog.WithoutRemovesOne` | server.js:102-105 | under strictly increasing ids a delete of a present id removes exactly one record, the first match, leaving the records before and after it in order; the list is one shorter |
| `Catalog.WithoutKeepsIdsIncreasing` | server.js:105 | a delete keeps ids strictly increasing |
| `Catalog.UpdatedKeepsIdsIncreasing` | server.js:90-91 | an update keeps ids strictly increasing |
| `Catalog.EmptyUpdateIsIdentity` | server.js:90-91 | an update with both fields absent leaves the list exactly as it was |
| `Catalog.DeletedLastIdMayBeReissued` | server.js:67-108 | on a list with increasing ids from 1, deleting the last record and then creating gives an id no greater than the deleted one, and exactly the deleted id when the record before it held the id just below |
| `Requests.Step` | server.js:47-108 | a list or get leaves the list as it was; a create keeps the old list as prefix and appends exactly the new record; an update leaves `Updated` and a delete `Without` (strictly shorter and free of the id when present); a request naming an absent id leaves the list unchanged |
| `Requests.Respond` | server.js:47-108 | not found exactly for a get, update or delete of an absent id; a list answers with the title, the list and its length; a get of a present id answers with the first match; a create always answers with the record appended; an update of a present id answers with the record now found under the id; a delete of a present id answers with no content |
| `Requests.Serve` | server.js:12 | a series of requests runs in order against the one module-level list; with no requests the list is as loaded |
| `Requests.ServeSnoc` | server.js:47-108 | the last request of a series runs against the list all earlier requests left behind |
| `Requests.StepKeepsIdsIncreasing` | server.js:67-108 | every request keeps ids strictly increasing, and at least 1 when they were |
| `Requests.WithoutKeepsIdsPositive` | server.js:105 | a delete keeps every id at least 1 when all were |
| `Requests.ServeKeepsIdsIncreasing` | server.js:67-108 | any series of requests keeps ids strictly increasing, and at least 1 when they were |
| `Requests.ServeFromEmptyHasDistinctIds` | server.js:12 | every list reached from the empty list by any series of requests has distinct ids, all at least 1 |
| `Requests.UnorderedListGetsDuplicateId` | server.js:70 | on the list with ids 2 then 1, a create assigns id 2 again and ids are no longer distinct |
| `ProductStore.Store.constructor` | server.js:37-39 | the store holds the loaded list |
| `ProductStore.Store.List` | server.js:47-52 | the listing carries the title, the whole list and `total_productos` equal to its length |
| `ProductStore.Store.Get` | server.js:56-64 | not found exactly when no record has the id, otherwise the first record with it; reading changes nothing |
| `ProductStore.Store.Create` | server.js:67-79 | the new record has the next id and the body fields and becomes the last element, all earlier records unchanged and in order; with increasing ids before, ids stay increasing and the new id was not in use |
| `ProductStore.Store.Update` | server.js:82-97 | not found exactly when no record has the id, and then the list is unchanged; otherwise the list becomes `Updated`, the answer is the patched first match and is what a lookup of the id now finds; increasing ids stay increasing |
| `ProductStore.Store.Delete` | server.js:100-108 | not found exactly when no record has the id; the list becomes its filtered copy (unchanged when not found), strictly shorter with no record of the id when found, exactly one shorter under increasing ids; increasing ids stay increasing |
| `ProductStore.Store.Handle` | server.js:47-108 | the answer and the new list of any request are those of `Respond` and `Step` |

## Left out

- Express routing, the JSON body middleware, `res.status().json()` framing, the numeric HTTP status codes and `app.listen`: framework I/O; answers are the `Response` and `Outcome` variants.
- The `GET /` welcome route: a constant message that does not touch the store.
- Reading and writing `productos.json` (`cargarProductos`, `guardarProductos`), `JSON.parse`/`JSON.stringify` and the unawaited writes after each change: file I/O and asynchrony. The loaded list is the constructor's argument; a file whose `productos` field is missing is not modelled.
- Requests served before the initial file read completes (they see the empty list): asynchrony, not modelled.
- `parseInt` of the path parameter, including `NaN`, which matches no record: ids are already-parsed integers.
- `console.log`/`console.error` logging.
- `precio` as a JavaScript floating-point number, and body fields of any other JSON type: `precio` is an integer stand-in, never computed with; `nombre` is a string.
- Update in place of the shared record object returned by `find`: the list holds values, so the patched record is written back at its index; nothing else holds a reference to it, so the outcome is the same.
- Catalog.NextId and ProductStore.Store.Create: ids are unbounded integers; in the source `id + 1` is double arithmetic, so from 2^53 on it can equal `id` and reissue the last id, which the freshness clauses do not capture.
