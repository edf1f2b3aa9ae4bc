# partypher request logic in Dafny

partypher is a small inventory service. It stores "parts" in one Postgres
table and has two HTTP handlers: POST creates a part, and GET fetches one by
`part_id`. This project models the decisions those handlers make. It also
models how a part moves between three forms: the in-memory `db.Part`, the
table row, and the JSON `api.Part`.

Every library call is an input to the model rather than something it
computes:

- the outcome of `json.Unmarshal`, as a decoded request or an error message;
- the id `uuid.New` returns and the instant `time.Now` returns;
- the outcome of `ParseForm`, and `uuid.Parse` as a function from string to id or error;
- whether the driver fails on the one SQL statement each handler runs (`fault`).

The database is a map from `part_id` to the other columns.

Modules, leaves first:

- `Base` (base.dfy): bytes, Go strings as byte sequences, `uuid.UUID`, and
  `time.Time` reduced to its instant with the zero time singled out. It also
  holds the Option and Result wrappers.
- `Utf8` (utf8.dfy): the UTF-8 encoding of code points. The handler limits
  the name's length in bytes, and this module relates bytes to characters.
- `Api` (api.dfy): the wire types. `deleted_at` is an Option, and None means
  the key is left out of the JSON object.
- `Db` (db.dfy): the storage types, `InsertPart` and `GetPart`.
  - A zero `DeletedAt` becomes NULL on insert.
  - NULL becomes the zero time on read (`COALESCE`).
  - Errors are wrapped, and the cause stays identifiable.
- `Handlers` (handlers.dfy): `createPartHandler` and `getPartHandler` as pure
  functions. Each returns the response, plus the table after a create.
- `Service` (service.dfy): serves a sequence of requests against one table.
  It states invariants over whole runs.

### Behaviour worth knowing

- **Name length counts bytes.** The create handler limits Go's `len` of
  the name, which counts UTF-8 bytes, not characters. Every accepted name
  has between 1 and 1023 characters (`Handlers.AcceptedNameIsShort`). The
  reverse does not hold: 256 characters above U+FFFF take 1024 bytes and
  are refused as too long, and such a name is accepted only up to 255
  characters (`Handlers.ShortMultibyteNameRefused`).
- **Error messages.** A missing id is answered with "missing part_id query
  string". An id that does not parse is answered with "parse partID: "
  followed by the parser's error.
- **A stored zero deletion time is omitted.** `deleted_at` is left out of
  the JSON for NULL and also for a column that holds the zero time itself.
  After `COALESCE` the two cannot be told apart (`Db.RowReadWrite`,
  `Handlers.NullIsOmitted`).

## Model

| member | source | states |
|---|---|---|
| `Utf8.EncodeRune` | main.go:55-58 | One character takes one to four bytes. It takes one byte exactly below U+0080 and four exactly from U+10000 on. Every byte after the first is a continuation byte. |
| `Utf8.Encode` | main.go:55-58 | The byte length that `len` measures is at least the character count and at most four times it. It is zero exactly for the empty name, and equals the character count for ASCII names. |
| `Utf8.AstralLength` | main.go:55-58 | Characters at or above U+10000 take exactly four bytes each. |
| `Api.JsonKeys` | api/api.go:10-22 | The encoded part always has the keys part_id, part_name, created_at and updated_at, in that order. It has a `deleted_at` key exactly when the wire value is present (`omitempty`). |
| `Db.NullableTime` | db/db.go:31-34 | The value bound to the `deleted_at` placeholder is NULL exactly for the zero time, and otherwise the time itself. |
| `Db.Coalesce` | db/db.go:67 | A NULL `deleted_at` reads back as the zero time, and any other value reads back as itself. |
| `Db.ToRow` | db/db.go:30-53 | The columns written for a part carry its name and timestamps unchanged. `deleted_at` is NULL exactly when the part's deletion time is zero, and otherwise holds that time. |
| `Db.FromRow` | db/db.go:60-74 | A scanned part has the requested id and the row's name and timestamps. A NULL `deleted_at` reads as the zero time, and a non-NULL one reads as itself. |
| `Db.RowRoundTrip` | db/db.go:30-75 | Writing any part and reading it back gives the same part (the table keeps instants exactly; see "Left out"). A zero deletion time becomes NULL and comes back as zero. |
| `Db.RowReadWrite` | db/db.go:31-67 | Reading a row and writing it back reproduces the row exactly when the row does not store the zero time. A stored zero time cannot be told apart from NULL. |
| `Db.InsertPart` | db/db.go:30-57 | A driver failure returns the error wrapped as "db.Exec Insert". The model takes a failed INSERT to have written nothing (see "Left out"). Success returns nil and adds or replaces only the row for the part's id. That row holds the part's name and timestamps, with NULL exactly for a zero deletion time. |
| `Db.GetPart` | db/db.go:60-75 | The lookup succeeds exactly when the driver does not fail and a row has that id. A missing row returns an error whose cause is `sql.ErrNoRows`. A driver failure returns a different cause. A found part has the id, the row's name, and the COALESCEd deletion time. |
| `Db.InsertThenGet` | db/db.go:30-75 | After a successful insert, a get of the same id, when the database does not fail on it, returns exactly the inserted part (the table keeps instants exactly; see "Left out"). |
| `Db.InsertLeavesOtherLookups` | db/db.go:30-57 | An insert does not change the result of a get for any other id. |
| `Handlers.FormValue` | main.go:103 | A non-empty parameter value is the first value given for the key. The value is "" when the key is absent or has no values. |
| `Handlers.ValidName` | main.go:50-58 | A name passes both checks exactly when it has between 1 and 1023 bytes. |
| `Handlers.RequestedId` | main.go:98-113 | A GET names a usable id exactly when the form parses, `part_id` is non-empty and `uuid.Parse` accepts it. The id is then the parser's result. |
| `Handlers.ToApiPart` | main.go:128-138 | The wire part has the stored part's id, name and timestamps. `deleted_at` is present exactly when the stored deletion time is not zero, and then it equals that time. |
| `Handlers.WireRoundTrip` | main.go:128-138 | Rendering a stored part to the wire loses nothing. An absent `deleted_at` reads back as the zero time. |
| `Handlers.WireReadBack` | main.go:128-138 | A wire part survives a trip to storage and back exactly when it does not carry the zero time as its deletion time. |
| `Handlers.NullIsOmitted` | main.go:136-138 | Follows `deleted_at` from the column through memory to the wire. The JSON key appears exactly when the column holds a non-zero time. NULL and a stored zero time are both omitted. |
| `Handlers.CreatePartHandler` | main.go:43-86 | The checks run in order, each with its own 400 message: decode failure, then empty name, then a name of 1024 bytes or more. A failed insert gives 500 "Internal error.". Every 400 leaves the table unchanged. So does a 500, on the assumption that a failed INSERT writes nothing (see "Left out"). A part is returned exactly on success. Success gives 201 with the request's name, the new id, `now` as both timestamps and no `deleted_at`. The table then gains exactly that row with a NULL `deleted_at`. |
| `Handlers.GetPartHandler` | main.go:97-138 | The status is 400 exactly when the form fails to parse, `part_id` is empty, or `uuid.Parse` rejects it, each with its message. Given an id, the status is 404 exactly when the driver does not fail and no row has that id, 500 exactly when the driver fails, and 200 otherwise. A 200 part matches the stored row, with `deleted_at` present exactly when the stored time is non-zero. |
| `Handlers.BadGetIgnoresStore` | main.go:98-113 | A request that yields no usable id gets the same error response whatever the table holds and whether or not the database fails. |
| `Handlers.AcceptedNameIsValid` | main.go:50-58 | A 201 from create implies that the name was non-empty and shorter than 1024 bytes. |
| `Handlers.AcceptedNameIsShort` | main.go:55-58 | A name that create accepts has between 1 and 1023 characters once its characters are encoded as UTF-8. |
| `Handlers.ShortMultibyteNameRefused` | main.go:55-58 | A name made only of characters above U+FFFF is accepted exactly when it has 1 to 255 characters and the insert does not fail. One of 256 or more characters is refused as "part name too long", although it may have fewer than 1024 characters. |
| `Service.Serve` | main.go:170-171 | A GET never changes the table. A POST adds at most the row for its new id, removes none, and leaves every other row unchanged. Both keep the invariant that every row has a valid name, equal timestamps and NULL `deleted_at`, and every part they return satisfies the same conditions. |
| `Service.Run` | main.go:170-171 | A run gives one response per request and never removes an id. |
| `Service.NewIds` | main.go:61-63 | The set holds exactly the ids given to the run's create requests. |
| `Service.RunKeepsOldRows` | db/db.go:30-57 | A run never changes a row that no create request of the run names, since the only write is one INSERT. |
| `Service.RunKeepsCreatedRows` | main.go:50-69 | Start from a table whose rows all look as the create handler writes them. Then after any run, every row still does. Every part returned with 200 or 201 has a valid name, equal timestamps and no `deleted_at`. |
| `Service.GetsLeaveStore` | main.go:97-147 | A run made only of GET requests leaves the table unchanged. |
| `Service.RunAddsOnlyNewIds` | main.go:61-71 | After a run, the table holds only its original ids and the ids given to the run's create requests. |
| `Service.UnusedIdNotFound` | main.go:117-121 | A GET for an id that was not in the table, and was not given to any create request, answers 404 "Part ID not found." after the run, when the database does not fail on the GET. |
| `Service.CreateThenGet` | main.go:77-138 | After a successful create, a GET of the new id, when the database does not fail on it, returns 200 with exactly the part the create returned (the table keeps instants exactly; see "Left out"). |

## Left out

- Connection setup from `PG_DSN`, the health-check handler and the router and server wiring are process plumbing. `Service.Serve` only dispatches on the request kind.
- Reading the request body is I/O. When the read fails, the handler logs and returns without writing a status. That branch is not modelled.
- The byte-level JSON text of a response is not modelled; `Api.JsonKeys` models only which keys it contains. Also left out are the indentation, the `Content-Type` header, the newline `http.Error` appends, and failures while writing the response.
- Logging is not modelled.
- `json.Unmarshal`, `uuid.New`, `uuid.Parse` and `time.Now` are foreign libraries and appear as inputs. The test's check that a created id is not the nil UUID depends on `uuid.New` setting version bits, which is not modelled.
- Time zones, and the microsecond precision at which Postgres stores timestamps, are not modelled. The table keeps each instant exactly.
- Request cancellation through the context is not modelled.
- Db.InsertPart: a failed INSERT is taken to have written nothing, and so is the 500 reply of `Handlers.CreatePartHandler`. In reality the error can arrive after the server has committed the row, for example when the connection drops before the acknowledgement. The driver may also run the statement again on a new connection. Neither case is modelled.
- Db.InsertPart: a successful insert of an id that is already present replaces that row. Whether the database would reject such an insert depends on a schema the model does not have. The model lets the `fault` input decide success, and every handler-created id comes from `uuid.New`.
- The tests' clean-up deletes and their parallel execution are not modelled.
- Service.Run: the server handles requests concurrently, and the model serves them one after another. A sequence is enough because each handler runs at most one SQL statement and shares no other state between requests, so any interleaving of the handlers has the same effect as some order of whole requests.
