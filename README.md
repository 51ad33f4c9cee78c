# Batch functions of a GraphQL dataloader example

This project models the two batch functions that feed the dataloader in a Go
GraphQL server: `todoByUserIDLoader` and `usersByIdLoader` (dataloaders.go,
with a byte-identical copy in main.go). The dataloader library collects the
keys requested during one tick and hands them to a batch function. The batch
function runs one query, scans the returned rows and produces one result per
key, in key order:

- **Todos by user id** (one-to-many). Scanned todos are appended to a slice,
  then grouped into a `map[userID][]Todo`. Each key's slot gets its group, or
  the nil slice when the key has no todo.
- **Users by id** (one-to-one). Each scanned user is stored in a
  `map[id]User` as it is scanned, so a later row with the same id replaces an
  earlier one. Each key's slot gets its entry, or nil.
- **Failure.** A failed query or a failed row scan jumps to a shared error
  label. That loop puts the same error into every slot and drops whatever was
  scanned before.

The database is an input value: `Outcome = QueryFailed(err) | Rows(seq<RowScan>)`
with `RowScan = Scanned(record) | ScanFailed(err)`. Any row may fail to scan.
This matters in practice: the users query selects five columns
(utils.go:118), but the loader scans only three (dataloaders.go:64). The
result slice `[]*dataloader.Result[T]` is an `array<Option<Result<T>>>`. Every
slot starts as `None`, which is the nil pointer. A nil `*User` is `None`, and
a nil `[]*Todo` is the empty sequence.

Files:
- `entities.dfy` (`Entities`): the `Todo` and `User` records and `int32`.
- `batch.dfy` (`Batch`): the result, row and outcome types, and the scan loop
  as a function (`ScanRows`).
- `todo_loader.dfy` (`TodoLoader`) and `user_loader.dfy` (`UserLoader`):
  each batch function as a method that fills the slot array with loops,
  proved equal to a pure specification (`TodosBatch`, `UsersBatch`).

Each specification is written with an independent reference definition:
"the todos of user u, in row order" (`TodosOf`) and "the last user with id
k" (`LastUserWithId`). The maps that the Go code builds are modelled by fold
functions (`GroupTodos`, `IndexUsers`), and lemmas connect them to the
reference definitions. The copies at main.go:70-109 and main.go:111-145 are
the same code, so the rows below cite dataloaders.go only. Each row also
holds for the copy at the matching main.go line (dataloaders.go line + 60).

## Model

| member | source | states |
|---|---|---|
| `Batch.ScanRows` | dataloaders.go:25-33 | The scan loop succeeds exactly when every row scans. It then yields one record per row, in row order (main.go:85-93). |
| `Batch.ScanRowsFirstFailure` | dataloaders.go:27-29 | When row j is the first row whose scan fails, the scan loop stops there and reports that row's error. |
| `Batch.FetchFails` | dataloaders.go:19-29 | A batch fails with error e exactly when the query failed with e, or the first failing row scan failed with e. |
| `Batch.Fetch` | dataloaders.go:19-33 | The query followed by the scan loop; it succeeds only when the query ran and every row scanned, with one record per row. When it fails, and with which error, is fixed by `Batch.FetchFails` (the user loader's copy is dataloaders.go:57-70). |
| `TodoLoader.TodosOf` | dataloaders.go:40 | The todos of a user: exactly the scanned todos whose UserID is that user. The result is empty when no todo has it. |
| `TodoLoader.TodosOfCount` | dataloaders.go:39-41 | Each todo of user u occurs in u's slot exactly as often as it was scanned, and no other todo occurs, so no duplicate is dropped or added. |
| `TodoLoader.Lookup` | dataloaders.go:36 | `todoMap[id]` with Go's nil default for a missing key (also read at dataloaders.go:40). A plain definition: what it yields after grouping is fixed by `TodoLoader.GroupTodosLookup`. |
| `TodoLoader.GroupTodos` | dataloaders.go:35-37 | The map the grouping loop builds; it never holds an empty group. Its contents are fixed by `TodoLoader.GroupTodosLookup` and `TodoLoader.GroupTodosFlatten`. |
| `TodoLoader.FlattenAppend` | dataloaders.go:36 | Appending a todo to its owner's group (a missing group reads as nil) adds exactly that todo to the union of the groups. |
| `TodoLoader.GroupTodosLookup` | dataloaders.go:35-37 | After grouping, each user id's group is exactly that user's todos in row order, so no todo is filed under another key (main.go:95-97). |
| `TodoLoader.GroupTodosFlatten` | dataloaders.go:35-37 | The groups together hold exactly the scanned todos as a multiset. Their sizes add up to the number of scanned todos. |
| `TodoLoader.TodosBatch` | dataloaders.go:12 | The batch result has exactly one slot per input key (main.go:72). |
| `TodoLoader.TodosBatchFailure` | dataloaders.go:44-48 | On a query or scan failure, every slot holds that same error. Todos scanned before the failure are dropped (main.go:104-108). |
| `TodoLoader.TodosBatchSuccess` | dataloaders.go:39-41 | When all rows scan, every slot succeeds. Slot i holds exactly the scanned todos whose UserID is keys[i], each as often as it was scanned. |
| `TodoLoader.TodosBatchMissingKey` | dataloaders.go:40 | A key that owns no scanned todo gets an empty success, never an error (main.go:100). |
| `TodoLoader.TodosBatchPerKey` | dataloaders.go:39-41 | Slot i depends only on keys[i] and the outcome, not on the other keys or on i. A repeated key gets identical slots. |
| `TodoLoader.TodosByUserIdLoader` | dataloaders.go:10-49 | The method returns a newly allocated array of length \|keys\| (Go's `make`). Every slot is filled (none is left nil), and slot i equals the specification's slot i on both the success path and the error path. |
| `UserLoader.LastUserWithId` | dataloaders.go:73 | The user for a key is nil exactly when no scanned user has that id. Otherwise it is a scanned user with that id, and no later row has the same id. |
| `UserLoader.Get` | dataloaders.go:73 | `userMap[id]` with Go's nil default for a missing key. A plain definition: what it yields after scanning is fixed by `UserLoader.IndexUsersLookup`. |
| `UserLoader.IndexUsers` | dataloaders.go:62-70 | The map the scan loop fills; each entry is a scanned user filed under its own id. Its contents are fixed by `UserLoader.IndexUsersLookup` and `UserLoader.IndexUsersKeys`. |
| `UserLoader.IndexUsersLookup` | dataloaders.go:62-70 | The map built while scanning holds, for each id, the last scanned user with that id. Later rows overwrite earlier ones (main.go:129). |
| `UserLoader.IndexUsersKeys` | dataloaders.go:69 | Every map entry is filed under its own user's id. The map's keys are exactly the ids of the scanned users. |
| `UserLoader.UsersBatch` | dataloaders.go:54 | The batch result has exactly one slot per input key (main.go:114). |
| `UserLoader.UsersBatchFailure` | dataloaders.go:78-84 | On a query or scan failure, every slot holds that same error, including keys whose users were scanned first (main.go:138-144). |
| `UserLoader.UsersBatchSuccess` | dataloaders.go:72-74 | When all rows scan, every slot succeeds. A slot is nil exactly when no row has that id (main.go:133); otherwise it is the last row with that id. |
| `UserLoader.UsersBatchPerKey` | dataloaders.go:72-74 | Slot i depends only on keys[i] and the outcome, not on the other keys or on i. A repeated key gets identical slots. |
| `UserLoader.UsersByIdLoader` | dataloaders.go:51-85 | The method returns a newly allocated array of length \|keys\| (Go's `make`). Every slot is filled (none is left nil), and slot i equals the specification's slot i on both the success path and the error path. |

## Left out

- The dataloader engine (`github.com/graph-gophers/dataloader/v7`). This covers key deduplication, caching, batch coalescing and the batch capacity of 200 (dataloaders.go:87-90). It is a foreign library whose source is not part of this model, so the batch functions take an arbitrary key sequence, repeats included.
- The callers `Todo.User` (todo.go:12-19) and `User.Todos` (user.go:12-14). They only call `Load` on that foreign library.
- SQL building and execution. `query` (utils.go:113-132) and `RunWith(db).Query()` are replaced by the `Outcome` input, and `rows.Next`/`rows.Scan` by its row sequence. The database handle taken from the context (dataloaders.go:17, 52) is not modelled.
- `rows.Close()` (dataloaders.go:23), and the fact that `usersByIdLoader` never closes its rows. This is resource handling with no effect on the returned slots.
- `rows.Err()`. Neither function checks it (dataloaders.go:25-33, 62-70). So an error that ends the row iteration early is ignored: `rows.Next()` returns false, and the batch succeeds with the rows read so far. Keys whose rows never arrived then get an empty or nil success, not an error. The model covers this case only as an input: `Rows(rows)` stands for the rows that `Next` delivered, which may be a prefix of the matching rows. `Batch.FetchFails`'s "exactly when" is about that abstraction. An iteration error never makes the batch fail in the model, because it never does in the code.
- The Go pointers and the memory they share. A repeated key's slots share one group slice in Go, but here each slot holds equal values. Each scanned row has its own `Todo`/`User` variable, so no aliasing between rows is lost.
- `MetadataModel` in `User`. The user loader never scans it, so it is always empty in loaded users.
- Resolvers, HTTP and role middleware, the role directive, the GraphQL scalar, the schema and playground text, and migrations. These are I/O or foreign decoders, and are outside the batch logic.
- Concurrency: the parallel field resolution and concurrent `Load` calls. Each batch function runs sequentially.
