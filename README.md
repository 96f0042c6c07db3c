# ContactDAO — a verified model of the contact store

The Contact API keeps its contacts in one long-lived `ContactDAO` object
(`main.py`). It holds two fields:

- `counter`, the last contact id handed out (starting at 0);
- `contacts`, a list of contact records, each a field-name to value dictionary.

It offers four operations:

- `get(id)` walks the list and returns the first record whose `contact_id`
  equals `id`. If no record matches, it aborts with HTTP 404.
- `create(data)` bumps the counter, stamps the new value into the payload as
  `contact_id`, appends the record and returns it.
- `update(id, data)` looks the record up like `get`, then merges the payload
  into it with `dict.update`.
- `delete(id)` looks the record up like `get`, then takes it out with
  `list.remove`.

The model has two modules.

- `ContactRecords` (`records.dfy`) holds the value-level meaning:
  - payload values and records (`map<string, Value>`);
  - the search (`FirstMatch`);
  - the right-biased merge (`Merge`, Python's `dict.update`);
  - the stamping done by create (`Stamp`);
  - `list.remove` (`RemoveFirst`).

  It also holds the lemmas about these functions, and the predicate
  `IdsAscending` that states the id discipline: every id is an integer in
  `1..counter`, and ids strictly increase with list position.
- `ContactStore` (`contact_dao.dfy`) holds the class `ContactDAO`:
  - a `nat` counter and a `seq` of records, which the methods reassign;
  - `Locate`, the search loop of `get`, with its invariants;
  - `Get`, `Create`, `Update` and `Delete`, each specified against the
    functions above.

The 404 abort is modelled as an error value: `Err(NotFound(id))` for `get`
and `update`, `Fail(NotFound(id))` for `delete`. When it happens, the store
is unchanged.

Python mutates the stored dictionary through the reference that `get`
returns. The model has no references: the position that `Locate` returns
stands for that stored object. `Update` replaces the record at that
position; `Delete` applies `list.remove` to the record found there.
`RemoveFirstAt` proves that this removes exactly that position.
`list.remove` compares by value, and no earlier record can equal the found
one, because no earlier record has the same `contact_id`.

Two behaviours of the code as written are stated rather than hidden:

- `update` does not protect `contact_id`. A payload with no `contact_id`, or
  one that repeats the key (a record as `get` returned it, edited and sent
  back), keeps the id discipline, and `get` still finds the record at the
  same position. A payload whose `contact_id` differs from the key re-keys
  the record: under the discipline, a later `get` of the key is a 404
  (`UpdateToOtherIdLosesKey`), and the discipline itself can break.
  `UpdateCanRekey` exhibits one such run (ids 1, 2; update of 2 with
  `contact_id` 1).
- The HTTP route passes the id to `get` as a string, while `create` stamps
  integers. `StringIdNeverFound` shows that under the id discipline such a
  lookup always ends in 404. `SeedScenario` replays the three seeding creates:
  it gets ids 1, 2, 3, finds the second contact by `IntV(2)`, and gets a 404
  for `StrV("2")`.

## Model

| member | source | states |
|---|---|---|
| ContactRecords.FirstMatch | main.py:89-93 | the result is the position of a record whose contact_id equals the key, no earlier record matches it, and None exactly when no record matches |
| ContactRecords.FirstMatchIsLeast | main.py:90-92 | any matching position is at or after the position get stops at |
| ContactRecords.Merge | main.py:103 | dict.update: keys are the union, every payload key takes the payload value, every other key keeps its old value |
| ContactRecords.Stamp | main.py:96-97 | the created record has contact_id set to the new id, overriding a payload contact_id, and every other payload field unchanged |
| ContactRecords.RemoveFirst | main.py:108 | list.remove drops exactly one occurrence of the element: length one less, multiset minus that element |
| ContactRecords.RemoveFirstAt | main.py:108 | when position i holds the first copy of the element, list.remove removes exactly position i and keeps the rest in order |
| ContactRecords.RemoveFirstMatch | main.py:106-108 | removing the record get found removes exactly the first record with that contact_id |
| ContactRecords.AscendingIdsDistinct | main.py:86-87 | under the id discipline that create builds from counter 0 and an empty list, no two records share a contact_id |
| ContactRecords.AscendingMatchIsUnique | main.py:89-93 | under the id discipline, the record get finds is the only one with that id |
| ContactRecords.CreateKeepsIdsAscending | main.py:95-99 | appending a record stamped with counter + 1 keeps ids in 1..counter and strictly increasing, with the bumped counter |
| ContactRecords.RemoveKeepsIdsAscending | main.py:106-108 | removing any one record keeps the id discipline with the same counter |
| ContactRecords.MergeKeepsIdsAscending | main.py:101-104 | merging a payload that has no contact_id, or repeats the record's own, into one record keeps the id discipline |
| ContactRecords.NewIdNotYetUsed | main.py:97 | under the id discipline no stored record carries the id counter + 1 that create hands out next |
| ContactRecords.GetAfterCreate | main.py:95-99 | under the id discipline, get of the id just handed out finds the appended record at the end |
| ContactRecords.GetAfterUpdate | main.py:101-104 | after an update whose payload has no contact_id or repeats the key, get of the same id finds the merged record at the same position |
| ContactRecords.UpdateToOtherIdLosesKey | main.py:101-104 | under the id discipline, after an update whose payload carries a contact_id different from the key, get of the key is a 404 |
| ContactRecords.GetAfterDelete | main.py:106-108 | under the id discipline, after delete a get of the same id is a 404 |
| ContactRecords.StringIdNeverFound | main.py:132-142 | the string id the route passes never matches a record under the id discipline, so get returns 404 |
| ContactRecords.UpdateCanRekey | main.py:101-104 | one run where a payload's contact_id differs from the key (ids 1, 2; update of 2 with contact_id 1): the id discipline breaks and id 2 is unreachable by get |
| ContactStore.ContactDAO.constructor | main.py:84-87 | a new store has counter 0 and no contacts, and satisfies the id discipline |
| ContactStore.ContactDAO.Locate | main.py:90-92 | the loop returns the first position whose contact_id equals the key, or None exactly when none does |
| ContactStore.ContactDAO.Get | main.py:89-93 | returns the first matching record, which has the key as contact_id and is stored; otherwise a NotFound error for that key; state unchanged |
| ContactStore.ContactDAO.Create | main.py:95-99 | the counter becomes old counter + 1; the record is the payload stamped with that id; it is appended, earlier entries and their order unchanged; the id discipline is kept, and get of the new id finds it |
| ContactStore.ContactDAO.Update | main.py:101-104 | an unknown id gives NotFound and nothing changes; otherwise only the first matching record is replaced by its right-biased merge with the payload and is returned; length, position and counter unchanged; with a payload that has no contact_id or repeats the key, the id discipline is kept and get still finds the record at the same position |
| ContactStore.ContactDAO.Delete | main.py:106-108 | an unknown id gives NotFound and nothing changes; otherwise exactly the first matching record is removed, the others keep their order, the counter is unchanged; under the id discipline, a later get of that id is a 404 |
| ContactStore.SeedScenario | main.py:110-113 | the three seeding creates yield ids 1, 2, 3; get(2) returns the whole second seed record stamped with id 2; get with the string "2" is a 404 |

## Left out

- `create_tables` (main.py:52-82) and its call in the constructor: SQL DDL run over a live PostgreSQL connection is I/O against an external database.
- The Flask / flask_restx setup, the Swagger models, the `ContactList` and `Contact` resource classes and the `__main__` server launch: HTTP glue. Only the string-typed route parameter is reflected, in `StringIdNeverFound` and `SeedScenario`.
- The module-level seeding is not a side effect of the model; `SeedScenario` replays it on a fresh store.
- The message text of the 404 ("Contact {} doesn't exist"): the model keeps the failing id in the error, not the formatted string.
- Object aliasing: `create` stores and returns the caller's own dictionary, and `get` returns the stored object itself. Records here are values, so a later change to a returned dictionary does not reach the store.
- Dictionary key order (Python dicts keep insertion order; `map` has none): every route marshals its result through the declared `contact` model (main.py:120, 127, 139, 152), so the stored key order is never observable.
- Python's equality across numeric types (`1 == True == 1.0`): `Value` has no booleans or floats, so get's comparison is plain structural equality.
- A record without a `contact_id`, which would make get raise `KeyError`: it cannot arise, because every record comes from `create` and `dict.update` never removes a key (`ContactDAO.Valid`).
- Concurrency: the model is sequential, one call at a time. `app.run` (main.py:160) starts Flask's development server, which serves requests on threads, and the single shared store (main.py:110) has no locking around the read-increment-write of `counter` (main.py:97) or the list append and remove (main.py:98, 108). Interleaved `create` calls, which could in principle hand out the same id, are not modelled; `AscendingIdsDistinct` holds for sequential use only.
- Payloads that are not JSON objects: `Create` and `Update` take a `Record`, so every payload is assumed to be a JSON object. The request body is not validated (main.py:126, 151), so it can be an array, a string or null. For such a body, `create` raises a TypeError at the item assignment of main.py:97 (an HTTP 500). The targets of the chained assignment are assigned left to right, so this happens before `counter` moves and before anything is appended. `update`'s `dict.update` (main.py:103) also accepts a sequence of key/value pairs and merges them in order; an element that is not a pair raises only after the earlier pairs have been applied. Neither error path is modelled.
