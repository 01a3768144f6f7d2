# Task service table — a Dafny model

The task service (`server.js`) is a small Express application that keeps every
task in one process-local, ordered array and serves five requests over it:
create (POST /tasks), list with an optional `completed` filter (GET /tasks),
get by id (GET /tasks/:id), partial update (PUT /tasks/:id) and delete
(DELETE /tasks/:id). This project models that array and those handlers.

- `json.dfy` — module `Json`: the values a request field can hold (absent,
  null, boolean, string, number, array/object), with JavaScript truthiness
  (`!title`, `description || ''`), the destructuring default
  (`completed = false`, which applies only to an absent field) and the
  conditional spread used by update.
- `wrappers.dfy` — module `Wrappers`: `Option` and `Result`.
- `task_table.dfy` — module `TaskTable`: the task record, the request body, the
  three error replies ("Title is required", "Completed must be a boolean",
  "Task not found", given as text by `Error.Message()`, with their HTTP status
  from `Error.Status()`), `find`/`findIndex` by id, and each handler as a
  function of the table. Create, update and delete map the table before the
  request to the table after it and the reply (`Step`). The read handlers,
  get and list, return only their reply (a `Result` and a `Listing`).
- `task_properties.dfy` — module `TaskProperties`: lemmas relating the
  handlers — lookups after create, update and delete, creation order, the
  id-uniqueness invariant, the true/false split of the listing, and the
  invariants that update does *not* keep.
- `task_server.dfy` — module `TaskServer`: class `TaskStore`, whose `tasks`
  field is the global array. Its methods change it in place as the handlers
  do (append, indexed assignment, removal of one element). Each method is
  proved to leave exactly the table and return exactly the reply given by the
  `TaskTable` function for that handler, and to keep ids unique.
  `TaskServer.Session` is a worked example on one store: create "Buy milk",
  mark it completed, delete it, after which get on its id fails.

Identifiers (`uuidv4()`) and clock readings (`new Date().toISOString()`) are
parameters supplied by the caller.

Where the code does less than one might expect of such a service, the model
follows the code:

- Create reads the clock twice, once for `createdAt` and once for
  `updatedAt` (server.js:41-42). The model takes two timestamps, so the two
  fields are not claimed equal. `updatedAt >= createdAt` is never checked by
  the code and is not claimed.
- Create accepts any truthy title, for example a number or an object, and not
  only non-empty text (server.js:23).
- Update validates nothing (server.js:87-104). It can store an empty title, a
  `null` or a string `completed`. `TaskProperties.UpdateMayBreakWellFormed`
  exhibits this. The invariants "title non-empty" and "completed is boolean"
  therefore hold only for records that create wrote. Create preserves them
  (`TaskProperties.CreatePreservesWellFormed`) and update does not.
- The list filter compares with `=== isCompleted`. Any query value other than
  the string "true" selects `completed === false`. A task whose `completed` is
  not a boolean appears in neither filtered listing. So the "true" and "false"
  listings make up the whole table only when every flag is a boolean
  (`TaskProperties.ListPartition`, `TaskProperties.ListSkipsNonBoolean`).
- Unique ids rest on `uuidv4()`. The store's create method requires the new
  id to be absent from the table. "A deleted task can no longer be found"
  needs that uniqueness: without it, delete removes only the first task with
  the id.

## Model

| member | source | states |
|---|---|---|
| `TaskTable.FindIndex` | server.js:16 | -1 exactly when no task has the id; otherwise the index holds the id and no earlier index does |
| `TaskTable.Find` | server.js:15 | nothing exactly when no task has the id; otherwise a task of the table carrying the id |
| `TaskTable.FindAtFindIndex` | server.js:15-16 | `find` yields the element at the index `findIndex` reports |
| `TaskTable.FindIndexUnique` | server.js:15-16 | with unique ids, `findIndex` returns the one index holding the id |
| `TaskTable.Get` | server.js:71-82 | "Task not found" (`TaskNotFound`, whose `Error.Message()` is that text) exactly when no task has the id; otherwise the first task with the id |
| `TaskTable.CreateCheck` | server.js:20-33 | a falsy title fails with "Title is required" before the `completed` check; a present non-boolean `completed`, null included, fails with "Completed must be a boolean"; nothing else fails (the texts are `Error.Message()` of `TitleRequired` and `CompletedNotBoolean`) |
| `TaskTable.Create` | server.js:19-51 | a failed create leaves the table unchanged and reports the error in check order; success happens exactly when the title is truthy and `completed` is absent or boolean; on success the new task is appended at the end with the given id and timestamps, the title, the description or "" when falsy, and `completed` or false when absent |
| `TaskTable.Filter` | server.js:61 | an order-preserving subsequence of the table, every element of which has `completed` equal to the wanted boolean; each task occurs in it exactly as often as in the table when its `completed` matches, and never otherwise |
| `TaskTable.List` | server.js:54-68 | without the query, the whole table; with any query, the filter for `query == "true"`; `total` is the number of tasks returned |
| `TaskTable.Merge` | server.js:98-104 | each of title, description and completed is overwritten exactly when the request field is not undefined; id and createdAt kept; updatedAt set to the supplied time |
| `TaskTable.Update` | server.js:85-112 | an unknown id gives "Task not found" and an unchanged table; otherwise only the element at the first matching index is replaced, by the merged record, which is also the reply, and the length is unchanged |
| `TaskTable.Delete` | server.js:115-131 | an unknown id gives "Task not found" and an unchanged table; otherwise the reply is the element at the first matching index, the length drops by one, elements before it stay in place and later ones shift down by one |
| `TaskProperties.RemoveAtIsSubsequence` | server.js:125 | removing one element with `splice(k, 1)` leaves an order-preserving subsequence |
| `TaskProperties.CreateThenGet` | server.js:36-45 | after a successful create with a fresh id, get on that id answers the created task |
| `TaskProperties.CreateThenDelete` | server.js:45 | deleting a task just created with a fresh id answers that task and restores the earlier table |
| `TaskProperties.CreatePreservesUniqueIds` | server.js:36-45 | create with a fresh id keeps ids unique |
| `TaskProperties.CreatePreservesWellFormed` | server.js:23-45 | every stored record has a truthy title and a boolean `completed` if the table had only such records |
| `TaskProperties.RunCreatesAppends` | server.js:45 | a series of creates appends exactly the accepted tasks, in request order |
| `TaskProperties.ListAfterCreates` | server.js:54-68 | listing without a filter after a series of creates on an empty table returns the accepted tasks in creation order, with their count |
| `TaskProperties.FilterPartition` | server.js:61 | when every `completed` is boolean, the true and false filters together hold the table's tasks exactly, as a multiset and by count |
| `TaskProperties.ListPartition` | server.js:59-66 | when every `completed` is boolean, the "true" and "false" listings together hold the whole table, and their totals add to the unfiltered total |
| `TaskProperties.ListSkipsNonBoolean` | server.js:60-61 | a task whose `completed` is not boolean is in no filtered listing |
| `TaskProperties.UpdateKeepsIndices` | server.js:98-106 | update moves no task and changes no id, so every id is found at the same index afterwards |
| `TaskProperties.UpdateThenGet` | server.js:85-112 | get after update answers what update answered |
| `TaskProperties.UpdatePreservesUniqueIds` | server.js:98-106 | update keeps ids unique |
| `TaskProperties.MergeTwice` | server.js:98-104 | two merges in a row equal one merge whose body takes the second request's defined fields over the first's |
| `TaskProperties.UpdateMayBreakWellFormed` | server.js:87-106 | update can turn a record that create accepted into one with an empty title and a null `completed` |
| `TaskProperties.DeleteRemovesOne` | server.js:117-125 | delete of a present id removes exactly the returned task (multiset difference of one) and keeps the rest in order |
| `TaskProperties.DeletePreservesUniqueIds` | server.js:125 | delete keeps ids unique |
| `TaskProperties.DeleteThenGet` | server.js:115-131 | with unique ids, get after delete of an id fails with "Task not found" |
| `TaskServer.TaskStore.constructor` | server.js:12 | the table starts empty |
| `TaskServer.TaskStore.CreateTask` | server.js:19-51 | appends in place exactly as `TaskTable.Create` describes, returns its reply and keeps ids unique |
| `TaskServer.TaskStore.ListTasks` | server.js:54-68 | answers exactly `TaskTable.List` on the current table, which it does not change |
| `TaskServer.TaskStore.GetTask` | server.js:71-82 | answers exactly `TaskTable.Get` on the current table, which it does not change |
| `TaskServer.TaskStore.UpdateTask` | server.js:85-112 | replaces the element in place exactly as `TaskTable.Update` describes, returns its reply and keeps ids unique |
| `TaskServer.TaskStore.DeleteTask` | server.js:115-131 | removes the element in place exactly as `TaskTable.Delete` describes, returns its reply and keeps ids unique |

## Left out

- Express setup, JSON body parsing, route and parameter extraction, `app.listen` and console logging (server.js:1-9, server.js:140-149): framework plumbing and I/O.
- The catch-all "Route not found" reply (server.js:134-138): routing, not table logic.
- Response shaping: the success messages and JSON envelopes are not modelled. A reply is the task or an `Error`, and `Error` carries its message text and status code.
- `uuidv4()` and `new Date().toISOString()`: a foreign library and the wall clock. Both are parameters.
- Request bodies that are not JSON objects: the model starts from the three fields the handler destructures. Object and array field values are one `Other` value, so object identity is not modelled. No handler compares such values.
- Concurrency: the handlers run one at a time on a single event loop.
- TaskServer.TaskStore.CreateTask: requires the generated id to be absent from the table. This stands for the uniqueness `uuidv4()` gives and is what keeps ids unique. The pure `TaskTable.Create` has no such requirement.
