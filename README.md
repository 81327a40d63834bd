# Paste store

A model of the in-memory paste store behind the `/pastes` routes of the
Express checkpoints in this repository. Static-Data, RESTful-APIs and
Major-Error-Types-and-Handling each keep a module-level `pastes` array, loaded
from a seed list; Organizing-Express-Code delegates to a router and keeps
neither. Only RESTful-APIs and Major-Error-Types-and-Handling also keep a
`lastPasteId` counter, seeded once with the largest of 0 and the seed ids.

- `GET /pastes` returns the array as it stands.
- `GET /pastes/:pasteId` finds the first paste whose `id` equals
  `Number(pasteId)`, or hands `"Paste id not found: " + pasteId` to the
  error handler.
- `POST /pastes` pre-increments `lastPasteId`, builds a record from the new id
  and the request's `data` fields, and `push`es it. The RESTful-APIs checkpoint
  does not validate the parsed body. The Major-Error-Types-and-Handling
  checkpoint puts the `bodyHasTextProperty` middleware in front of it. That middleware rejects a
  body whose `data.text` is not truthy with
  `"A 'text' property is required."` and leaves the store untouched.

Files:

- `wrappers.dfy`: `Option`, `Result` (a response or the message passed to
  `next`), `Outcome` (a middleware's `next()` / `next(message)`).
- `pastes.dfy`: the `Paste` record, the request's `PasteData`, the default
  empty `data` object, and the max-reduce that seeds the counter.
- `static_data.dfy`: the route key as a number, `find` by id, and the lookup
  handler with its not-found message.
- `validation.dfy`: the `bodyHasTextProperty` middleware.
- `store.dfy`: class `PasteStore` holding `pastes` and `lastPasteId`, with the
  list, lookup and both create handlers. Its invariant `Valid()` says that
  every stored id is at most `lastPasteId` and that the pastes added after the
  seed carry the ids that follow the seed maximum, in order.

## Model

| member | source | states |
|---|---|---|
| `Pastes.MaxIdFrom` | RESTful-APIs/src/app.js:18 | the `Math.max` fold is at least its start value and every id, and equals the start value or one of the ids |
| `Pastes.SeedLastId` | Major-Error-Types-and-Handling/src/app.js:16 | the initial `lastPasteId` is non-negative, at least every seed id, and is either 0 or a seed id (so it is the maximum seed id, or 0 when no seed id is positive) |
| `StaticData.ParseNumber` | Static-Data/src/app.js:12 | `Number(pasteId)` yields a number only when every character after the first is a digit and the first is a digit or a sign followed by digits; a negative number comes only from a leading `-` |
| `StaticData.ParseShowInt` | Static-Data/src/app.js:12 | `ParseNumber` (the model of `Number`) applied to the decimal numeral of any id gives back that id |
| `StaticData.FindById` | Static-Data/src/app.js:12 | `find` yields a paste exactly when some paste has the id, and then the one at the lowest such index |
| `StaticData.FindAfterAppend` | Static-Data/src/app.js:12 | after appending a paste, `find` still yields the earlier match for an id already present; otherwise it yields the appended paste when its id matches, and nothing when not |
| `StaticData.Lookup` | Static-Data/src/app.js:11-18 | lookup succeeds if and only if the key is a number and some paste has that id; the result has that id and is the first such paste; a failure carries exactly `"Paste id not found: " + pasteId` |
| `StaticData.LookupShownId` | Static-Data/src/app.js:12-17 | looking up the numeral of id `k` succeeds if and only if some paste has id `k`, and yields the first such paste |
| `Validation.BodyHasTextProperty` | Major-Error-Types-and-Handling/src/app.js:8-14 | validation passes if and only if `data` is present with a non-empty `text`; otherwise it fails with exactly `"A 'text' property is required."` |
| `Store.PasteStore.constructor` | RESTful-APIs/src/app.js:10-18 | the store holds the seed list, and `lastPasteId` is the seeded maximum, at least 0 and at least every seed id; the invariant holds |
| `Store.PasteStore.List` | Static-Data/src/app.js:21-23 | list returns the whole array in stored order and changes nothing |
| `Store.PasteStore.Get` | Static-Data/src/app.js:8-19 | the lookup handler answers as `Lookup` on the current array and changes nothing |
| `Store.PasteStore.Create` | RESTful-APIs/src/app.js:20-33 | create always succeeds; `lastPasteId` goes up by one and is the new id; the record literal carries each of the request's `data` fields, and all of them are absent when the body has no `data`; exactly one record is appended and is the one returned; the new id exceeds every stored id, keeps stored ids distinct, and a lookup of it yields the new record; the invariant is preserved |
| `Store.PasteStore.CreateValidated` | Major-Error-Types-and-Handling/src/app.js:18-36 | create fails if and only if `text` is not truthy, and then with exactly the validation message and with `pastes` and `lastPasteId` unchanged; on success it behaves as `Create` and the stored `text` is non-empty |
| `Store.CreateTwice` | RESTful-APIs/src/app.js:18-31 | two successive creates hand out the ids `lastPasteId + 1` and `lastPasteId + 2`, the first above every id stored before, leave the counter at `lastPasteId + 2`, and append exactly those two records, each carrying its own request's fields |

## Left out

- Express routing, middleware chaining, `req`/`res`, status codes, JSON body parsing and serialisation: framework plumbing. A handler's response is a `Success` value and `next(message)` is a `Failure` carrying the message.
- `Store.PasteStore.Create` and `Store.PasteStore.CreateValidated` assume the request body has been parsed. Neither RESTful-APIs/src/app.js nor Major-Error-Types-and-Handling/src/app.js registers a JSON body parser, so as written `req.body` is undefined, every POST throws a TypeError at the destructuring (RESTful-APIs/src/app.js:21, Major-Error-Types-and-Handling/src/app.js:9) before `++lastPasteId` runs, and the store is unchanged. The model describes the handlers once a parser is installed.
- A body `{"data": null}` throws at the same destructuring, because the `= {}` default replaces only `undefined`; `Option<PasteData>` has no case for a `null` `data`, so this error path is not modelled.
- The catch-all not-found handler (`Not found: ` + URL) and the error handler that logs and echoes the message: routing and I/O.
- The Organizing-Express-Code checkpoint: it only mounts a router from `./pastes/pastes.router`, which is not part of this model.
- The seed file `./data/pastes-data` is not part of this model; the seed list is the constructor's parameter.
- `StaticData.ParseNumber` models `Number` only for the empty string and optionally signed decimal digits; surrounding whitespace, a blank key (which `Number` reads as 0), fractions, exponents, hexadecimal, binary and octal prefixes (`Number("0b11")` is 3, `Number("0o7")` is 7) and `Infinity` are read as NaN, so a key such as `"1.0"` is not found here although `Number` would give 1.
- `Validation.BodyHasTextProperty` models truthiness only for a string-or-absent `text`; JavaScript values of other types (numbers, booleans, objects) are not modelled.
- `Pastes.Paste`: `expiration` is opaque to the store and is modelled as an optional string; `id` is an unbounded integer, so the IEEE-754 precision limit of JavaScript numbers above 2^53 is not modelled.
- The counter is never recomputed from the live array. No operation here inserts a paste with a chosen id, so the collision that would allow cannot arise in this model.
- Concurrency: the source is single-threaded, and each handler runs as one step.
