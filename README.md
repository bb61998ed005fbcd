# Todo app on Supabase — Dafny model of the App component

The application is a single React component, `App` (src/App.tsx). It keeps a
local mirror `todos` of the rows of the `todos` table and a text buffer
`newTask` for the input field. Four handlers change that state:

- `fetchTodos` loads all rows.
- `addTodo` inserts a row unless the input is blank.
- `toggleTodo` flips a row's completion flag.
- `deleteTodo` removes a row.

Each handler makes at most one remote call; `addTodo` makes none when the
input is blank. Nothing changes unless the call succeeds. On success,
`fetchTodos` replaces the whole list with the returned rows (`data || []`).
The other three patch it with a pure list expression: append, `map` or
`filter`.

The model has three modules:

- `JsString` (js_string.dfy): the white-space trimming of JavaScript's
  `String.prototype.trim`, used by the blank-input guard, and the guard
  itself, `IsBlank`, proved to hold exactly when every character is white
  space.
- `TodoList` (todo_list.dfy): the row datatype `Todo` and the three list
  transforms `Appended`, `Toggled` and `Removed`. Their contracts say which
  entries change and that nothing else does. Lemmas prove the toggle
  involution and idempotence, that delete keeps relative order, that delete
  is idempotent and distributes over concatenation, and how each operation
  changes the set of ids.
- `TodoApp` (app.dfy): the class `App`, with fields `todos` and `newTask`
  and one method per handler. The remote answer is a `Response` parameter,
  either `Error(message)` or `Ok(data)`. Each method returns the `Request`
  it issues: the table, and the row or id it sends. `Mount` is the
  constructor followed by one fetch, which is what the mount effect does.
  Two session methods replay the typical flows and check the resulting
  states.

Three details of the handlers are easy to misread; the model follows the
code:

- The insert carries `newTask` as typed, untrimmed. Only the emptiness test
  trims (src/App.tsx:30 and 33).
- Toggle sends, and stores, the negation of the flag the caller passes. It
  does not look at the stored value (src/App.tsx:42, 45, 50).
- Toggle and delete patch every entry with the id, not just the first one
  (src/App.tsx:49-51, 62).

Every query names the table `todos` (src/App.tsx:22, 32, 44, 57).

## Model

| member | source | states |
|---|---|---|
| JsString.LeadingSpace | src/App.tsx:30 | the count of leading white space: every character before it is white space and the one at it, if any, is not |
| JsString.TrailingSpace | src/App.tsx:30 | the count of trailing white space: every character in the last n is white space and the one before them, if any, is not |
| JsString.Trim | src/App.tsx:30 | `trim()` returns the slice of the input between a white-space-only prefix and a white-space-only suffix; a non-empty result neither starts nor ends with white space |
| JsString.IsBlank | src/App.tsx:30 | `newTask.trim() === ''` holds exactly when every character of the input is white space |
| JsString.TrimIdempotent | src/App.tsx:30 | trimming an already trimmed string changes nothing |
| TodoList.Appended | src/App.tsx:37 | `[...todos, row]` keeps every earlier entry in place and in order and puts the row last |
| TodoList.Toggled | src/App.tsx:49-51 | the map, with its callback `todo.id === id ? {...todo, is_completed: !isCompleted} : todo` written inline, keeps length and order; every entry with the id keeps its id and task and gets `is_completed = !flag`; every other entry is unchanged |
| TodoList.Removed | src/App.tsx:62 | the filter leaves no entry with the id, keeps exactly the other entries, and shortens the list by the number of entries with the id |
| TodoList.ToggleInvolution | src/App.tsx:42-51 | toggling with `b` and then with `!b` restores the list if and only if every matching entry had `is_completed = b` |
| TodoList.ToggleIdempotent | src/App.tsx:49-51 | toggling twice with the same caller flag is the same as toggling once |
| TodoList.ToggleAbsentId | src/App.tsx:49-51 | toggling an id that no entry has leaves the list unchanged |
| TodoList.ToggleKeepsIds | src/App.tsx:49-51 | toggling keeps the set of ids |
| TodoList.RemovedAppend | src/App.tsx:62 | filtering distributes over concatenation |
| TodoList.RemovedAt | src/App.tsx:62 | a kept entry at index i sits in the output at the index given by the number of kept entries before i |
| TodoList.RemovedKeepsOrder | src/App.tsx:62 | kept entries at indices i < j get strictly increasing output positions, so relative order is preserved |
| TodoList.RemoveAbsentId | src/App.tsx:62 | deleting an id that no entry has leaves the list unchanged |
| TodoList.RemoveIdempotent | src/App.tsx:62 | deleting the same id twice is the same as deleting it once |
| TodoList.RemoveIds | src/App.tsx:62 | after a delete, the set of ids is the old set minus that id |
| TodoList.AppendIds | src/App.tsx:37 | after an append, the set of ids is the old set plus the new row's id |
| TodoApp.FetchedRows | src/App.tsx:26 | `data \|\| []`: the returned rows, or no rows when the payload is missing |
| TodoApp.InsertRequest | src/App.tsx:30-34 | no insert is issued exactly when the input is all white space; otherwise the insert names table `todos` and carries the untrimmed input with `is_completed = false` |
| TodoApp.App.constructor | src/App.tsx:13-14 | the initial state is an empty list and an empty input |
| TodoApp.App.EditNewTask | src/App.tsx:73 | the input handler replaces `newTask` and leaves `todos` alone |
| TodoApp.App.FetchTodos | src/App.tsx:20-27 | selects from `todos` ordered by id ascending; on success the list becomes the returned rows, or no rows when there is no payload; on error the list is unchanged; the input is never touched |
| TodoApp.App.AddTodo | src/App.tsx:29-40 | issues the insert given by `InsertRequest`; a blank input or an error leaves both the list and the input unchanged; on success the first returned row is appended and the input is cleared |
| TodoApp.App.ToggleTodo | src/App.tsx:42-53 | sends an update of the id to the negated caller flag; on success the list becomes `Toggled(old list)`; on error it is unchanged; the input is never touched |
| TodoApp.App.DeleteTodo | src/App.tsx:55-64 | sends a delete of the id; on success the list becomes `Removed(old list)`; on error it is unchanged; the input is never touched |
| TodoApp.Mount | src/App.tsx:16-18 | a fresh component fetches once; when that fetch fails, the list stays empty |

## Left out

- Client construction and the two environment variables (src/App.tsx:2, 4): these are foreign library and configuration.
- The remote queries themselves (src/App.tsx:21-24, 31-34, 43-46, 56-59). This includes the server-side `order('id')` sort and the `select()` after the insert. Each call is reduced to the request the handler issues and a `Response` parameter; the store's own behaviour is not modelled.
- `async`/`await`: each handler is one atomic, sequential step. Interleaved in-flight calls and stale `todos` closures are concurrency and are not modelled.
- The JSX rendering, the checkbox wiring and the line-through styling (src/App.tsx:66-94) are UI. Only the input's change handler is kept, as `EditNewTask`.
- `console.error` logging (src/App.tsx:25, 35, 47, 60) is a side effect: an error response leaves the state unchanged and the message is dropped.
- TodoApp.App.AddTodo: requires a successful insert to return at least one row. With an empty array, `data[0]` at src/App.tsx:37 would append `undefined`, which the model does not represent.
- Characters are Unicode scalar values, not UTF-16 code units. Every character that `trim()` removes is a single code unit, so the result is the same.
- JavaScript numbers are modelled as unbounded integers, because ids are integers compared with `===`.
