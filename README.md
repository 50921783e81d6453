# Message store of ginrest, modelled in Dafny

ginrest is a small REST service that stores messages. A message has an id, a
content string and a string-to-string header map. This project models its
storage layer, `pkg/message`:

- the `Message` record and its three header accessors (`models.go`);
- the `MessageStore` contract with its five operations and the
  `ErrMessageNotFound` sentinel (`messageStore.go`);
- the in-memory engine, a single map from id to message (`MemoryMessageStore.go`);
- the SQLite engine, a `messages` table and a `message_headers` table, written
  to inside transactions (`sqliteMessageStore.go`).

Modules, one per source file:

- `Models` (`models.dfy`). `Message` is a datatype whose `headers` is
  `Option<map<string, string>>`, where `None` is a nil Go map. `GetHeader` is a
  function on the value. The pointer-receiver methods `AddHeader` and
  `RemoveHeader` belong to class `MessageVar`, an addressable message variable.
  Their effect is specified by the value functions `WithHeader` and
  `WithoutHeader`.
- `MessageStore` (`message_store.dfy`) holds the error signals `NotFound` (the
  sentinel) and `StorageFailure` (any other error), the result shapes, and
  `Matches`. `Matches` is the notion of "reads back as": equal content and equal
  header maps, with nil read as empty.
- `MemoryEngine` (`memory_message_store.dfy`): class `MemoryMessageStore` with
  one `map<string, Message>` field.
- `SQLiteEngine` (`sqlite_message_store.dfy`): class `SQLiteStore`.
  - Its state is the two tables. `messages` is id ↦ content. `headers` is
    message_id ↦ key ↦ value, so the composite primary key (message_id, key) is
    built into the type.
  - A driver statement may fail. The model shows this as `DriverCall`. On a
    store whose constant `healthy` is false, its outcome is nondeterministic. On
    a healthy store it always succeeds.
  - Primary-key clashes are modelled exactly.
  - A transaction works on local copies of the tables. They are written back
    only after a successful Commit, which is the deferred Rollback of the source.
  - `View` is what readers see: each message row joined to its header rows.
    Header rows with no message row stay invisible.
  - `Get` and `List` rebuild messages by scanning rows one at a time. They are
    proved to return exactly `View`.
- `Engines` (`engines.dfy`): the interface. The datatype `Engine` is one or the
  other engine. The five operations that dispatch over it have their contracts
  stated in terms of `View`: what a caller of the interface may rely on. For
  `Add`, `Get`, `Remove` and `List` this holds whichever engine is behind it.
  `Update` dispatches to the corrected database update (see Findings), so its
  contract holds for the corrected program only.
- A store is fixed as healthy or not by its constructor, and no operation
  chooses this. On a healthy database (and always on the map engine) the
  contracts fix every outcome:
  - `Get` gives NotFound exactly for an id with no row, and the stored message
    otherwise.
  - The database `Add` succeeds exactly when no primary key clashes. The map
    engine's `Add` always succeeds.
  - The as-written database `Update` and `Remove` always succeed, and so does
    every `List`.
  - The corrected database Update (`CheckedUpdate`, used by `Engines.Update`)
    gives NotFound exactly for an absent id, and so do the map engine's `Update`
    and `Remove`. Otherwise they succeed.

## Model

| member | source | states |
|---|---|---|
| Models.Message.GetHeader | pkg/message/models.go:18-24 | the flag is true exactly when the key is present, and the value is then the stored one; an absent key reads as `("", false)`; a nil map always reads as `("", false)` |
| Models.Message.WithHeader | pkg/message/models.go:10-15 | the map is non-nil afterwards; `key` reads back as `(value, true)`; every other key reads as before; the key set grows by exactly `key` |
| Models.Message.WithoutHeader | pkg/message/models.go:27-31 | on a nil map the message is unchanged and stays nil; otherwise `key` reads as absent, every other key reads as before, and the key set loses exactly `key` |
| Models.RemoveHeaderIdempotent | pkg/message/models.go:27-31 | removing a header twice gives the same message as removing it once |
| Models.AddThenRemoveHeader | pkg/message/models.go:10-31 | adding a header the message lacks and then removing it restores every header read |
| Models.MessageVar.constructor | pkg/message/models.go:3-7 | the variable holds the given message |
| Models.MessageVar.AddHeader | pkg/message/models.go:10-15 | the variable's new value is `WithHeader` of its old value (allocate if nil, then insert or overwrite) |
| Models.MessageVar.RemoveHeader | pkg/message/models.go:27-31 | the variable's new value is `WithoutHeader` of its old value (a no-op on a nil map or an absent key) |
| MessageStore.MatchesByReads | pkg/message/models.go:18-24 | two messages match exactly when their contents are equal and `GetHeader` agrees on every key |
| MemoryEngine.MemoryMessageStore.constructor | pkg/message/MemoryMessageStore.go:7-11 | a new store holds no messages |
| MemoryEngine.MemoryMessageStore.Add | pkg/message/MemoryMessageStore.go:13-16 | never fails; stores the message under the argument id, overwriting; no other id changes |
| MemoryEngine.MemoryMessageStore.Get | pkg/message/MemoryMessageStore.go:18-24 | succeeds exactly when the id is stored and then returns the stored message; otherwise NotFound |
| MemoryEngine.MemoryMessageStore.Update | pkg/message/MemoryMessageStore.go:26-32 | NotFound with the map unchanged when the id is absent; otherwise the whole message under the id is replaced and nothing else changes |
| MemoryEngine.MemoryMessageStore.Remove | pkg/message/MemoryMessageStore.go:34-40 | NotFound when the id is absent, Pass otherwise; exactly that id leaves the map |
| MemoryEngine.MemoryMessageStore.List | pkg/message/MemoryMessageStore.go:42-44 | never fails; returns exactly the current map |
| SQLiteEngine.AddView | pkg/message/sqliteMessageStore.go:51-64 | after a committed Add, `id` reads with the new content and the new headers joined to any header rows already under `id`; no other id changes |
| SQLiteEngine.InsertStep | pkg/message/sqliteMessageStore.go:58-64 | inserting one more header row extends the rows inserted so far by exactly that key |
| SQLiteEngine.AddThenGet | pkg/message/sqliteMessageStore.go:43-96 | with no orphan rows and no key clash, the message read back after Add has the added content and exactly the added header set, and matches the added message |
| SQLiteEngine.AddKeepsNoOrphans | pkg/message/sqliteMessageStore.go:51-64 | Add leaves no header row without a message row |
| SQLiteEngine.UpdateView | pkg/message/sqliteMessageStore.go:146-164 | after a committed Update of a stored id, that id reads with the new content and exactly the new headers, and old keys are gone; for an absent id no reader sees any change; other ids are untouched |
| SQLiteEngine.RemoveView | pkg/message/sqliteMessageStore.go:177-187 | after a committed Remove, exactly `id` has left the view and no header row is left under it |
| SQLiteEngine.RemoveKeepsNoOrphans | pkg/message/sqliteMessageStore.go:177-187 | Remove leaves no header row without a message row |
| SQLiteEngine.UpdateKeepsNoOrphans | pkg/message/sqliteMessageStore.go:146-164 | Update leaves no orphan rows when the id has a row or the new message has no headers |
| SQLiteEngine.UpdateOfAbsentIdBreaksRoundTrip | pkg/message/sqliteMessageStore.go:146-164 | an Update of absent "x" with header a=1 creates an orphan that no reader sees; a later Add of "x" with no headers, which has no clash, then reads back a=1, so it does not match the added message |
| SQLiteEngine.CheckedUpdateIsSound | pkg/message/sqliteMessageStore.go:146-164 | the corrected Update reports NotFound exactly when the id has no row; on success it keeps the no-orphan invariant, and the id reads as the new message while other ids are unchanged |
| SQLiteEngine.ScannedStep | pkg/message/sqliteMessageStore.go:124-133 | scanning one more header row adds exactly that row to the rows seen so far |
| SQLiteEngine.ViewStep | pkg/message/sqliteMessageStore.go:124-133 | scanning one more header row writes one header into the listed message it names, when that message is listed, and changes nothing otherwise |
| SQLiteEngine.ScannedAll | pkg/message/sqliteMessageStore.go:124-135 | once every header row has been scanned, the listed messages are exactly the view |
| SQLiteEngine.ScannedNoneYet | pkg/message/sqliteMessageStore.go:109-115 | before any header row is scanned, every message reads with an empty non-nil header map |
| SQLiteEngine.SQLiteStore.constructor | pkg/message/sqliteMessageStore.go:9-11 | a handle on a database holding the given tables, whose driver is healthy or not as given |
| SQLiteEngine.SQLiteStore.Add | pkg/message/sqliteMessageStore.go:43-67 | succeeds only when neither the message row nor any header row clashes with a primary key, and then the tables are `AddRows`; any failure, a clash or a driver error, leaves both tables unchanged; on a healthy driver it succeeds exactly when there is no clash |
| SQLiteEngine.SQLiteStore.Get | pkg/message/sqliteMessageStore.go:69-97 | on success the id has a message row, and the result has its content and a non-nil map of exactly its header rows; an id with no row never succeeds; NotFound only for an id with no row; on a healthy driver, NotFound exactly for an id with no row and success otherwise |
| SQLiteEngine.SQLiteStore.List | pkg/message/sqliteMessageStore.go:99-136 | on success returns exactly the view: every message row with a non-nil map of its header rows, orphan rows skipped; any error is a storage failure, and on a healthy driver it succeeds |
| SQLiteEngine.SQLiteStore.Update | pkg/message/sqliteMessageStore.go:138-167 | as written: never NotFound; on success the tables are `UpdateRows` (content set only if the row exists, the header rows of the id replaced regardless); any failure leaves both tables unchanged; on a healthy driver it succeeds |
| SQLiteEngine.SQLiteStore.CheckedUpdate | pkg/message/sqliteMessageStore.go:138-167 | corrected Update: NotFound only for an id with no row, and an id with no row never succeeds; on success the tables are `CheckedUpdateRows`; failure leaves the tables unchanged; on a healthy driver, NotFound exactly for an id with no row and success otherwise |
| SQLiteEngine.SQLiteStore.Remove | pkg/message/sqliteMessageStore.go:169-189 | never NotFound; on success the header rows and message row of the id are gone and nothing else changes; failure leaves both tables unchanged; on a healthy driver it succeeds |
| Engines.Add | pkg/message/messageStore.go:10 | on success the id reads back matching the added message (given no orphan rows) and no other id changes; failure changes nothing and is never NotFound; the map engine always succeeds and overwrites; the database refuses an id it already has and, on a healthy driver, succeeds exactly when no primary key clashes; the no-orphan invariant is kept |
| Engines.Get | pkg/message/messageStore.go:11 | success returns what readers see under the id; an unseen id never succeeds; NotFound only for an unseen id; on a healthy store (always so for the map engine), NotFound exactly for an unseen id and otherwise what readers see |
| Engines.Update | pkg/message/messageStore.go:12 | NotFound only for an unseen id, and an unseen id never succeeds; on success the id reads back matching the new message and no other id changes; failure changes nothing; the no-orphan invariant is kept; on a healthy driver, NotFound exactly for an unseen id and success otherwise |
| Engines.Remove | pkg/message/messageStore.go:13 | on success exactly the id leaves the view; failure changes nothing; NotFound only for an unseen id; the map engine reports NotFound exactly for unseen ids; on a healthy driver the database always succeeds |
| Engines.List | pkg/message/messageStore.go:14 | on success returns exactly what readers see; errors are storage failures; on a healthy driver it succeeds, and the map engine never fails |

## Left out

- `NewSQLiteStore` (pkg/message/sqliteMessageStore.go:13-41) is left out: opening the driver and running `CREATE TABLE IF NOT EXISTS`. The schema appears as the type of the two tables, and `SQLiteEngine.SQLiteStore.constructor` starts from any given table contents.
- The SQL driver, the SQL text and connections are not modelled. Each statement, scan and commit is a `DriverCall` that may fail for reasons the model does not see.
- Errors from `rows.Next`/`rows.Err` during iteration are not modelled. The source never checks `rows.Err`, so a scan loop that stops early is treated as having seen every row.
- `ON DELETE CASCADE` and foreign-key enforcement are not modelled. SQLite leaves foreign keys off unless a pragma enables them, and `Remove` deletes the header rows itself.
- The `MessageStore` interface is a datatype over the two engines with dispatching methods, not an abstract type.
  - The interface's `Update` uses the corrected SQLite update (see Findings).
  - The as-written one is `SQLiteEngine.SQLiteStore.Update`.
- Go reference aliasing is not modelled.
  - The memory engine's `List` returns the internal map itself.
  - Copies of a `Message` share one header map.
  - The model uses immutable values, so a caller that mutates a returned map does not change the store here.
- Concurrency is not modelled: the memory engine has no lock, and transaction isolation is not modelled. Calls are sequential.
- Iteration order of Go maps and SQL result rows is not modelled. Loops pick any remaining element, so the results hold for every order.
- JSON field tags are wire format only and are left out.
- `cmd/main.go` is not part of this model: the HTTP routes and the mapping of NotFound to a status code.
- The header table is keyed as message_id ↦ key ↦ value instead of by the pair (message_id, key). It holds the same rows, and the id index makes "the header rows of one id" a map lookup.
- SQLiteEngine.SQLiteStore.Get: NotFound for an id with no row is promised only on a healthy store. On a store that is not healthy, the first driver call may fail, and the result is then a storage failure.
- SQLiteEngine.SQLiteStore.Add: success is promised only on a healthy store with no primary-key clash, because on a store that is not healthy any driver call may fail.
- Driver health is modelled per store, not per call. A driver that fails on some calls and answers others is covered only by the "not healthy" case, where every call may fail.
- Engines.Update: this is the corrected update. The database update as written (`SQLiteEngine.SQLiteStore.Update`) never reports NotFound. On an absent id it returns success and can leave header rows that belong to no message (see Findings).
- Engines.Add: the read-back property is stated only for a database without orphan rows. With orphan rows under the id, the read-back also holds those rows (see Findings).
- Engines.Remove: on the database an absent id is reported as success, as the source does, so NotFound is promised only for the map engine.

## Findings

| source | as written | input that shows it | evidently intended | confidence | as-written member | corrected member |
|---|---|---|---|---|---|---|
| pkg/message/sqliteMessageStore.go:146-164 | `Update` never checks that the `UPDATE` touched a row. It still deletes and inserts header rows for an id with no message row, and with foreign keys off these rows become orphans | empty database; `Update("x", {content "c", headers a=1})` succeeds; then `Add("x", {content "d", no headers})`; `Get("x")` returns header a=1 | report NotFound for an absent id and change nothing, as the memory engine does | not executed | SQLiteEngine.UpdateOfAbsentIdBreaksRoundTrip (on SQLiteEngine.SQLiteStore.Update) | SQLiteEngine.CheckedUpdateIsSound (on SQLiteEngine.SQLiteStore.CheckedUpdate) |
