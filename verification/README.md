# Todo client state, modelled in Dafny

The repository is a React single-page todo manager. Its only logic is the
client-side state the components keep: the list of todos mirrored from a REST
API, the add/edit form of `App`, the status filter, and two stand-alone
components (`TodoForm`, `TodoList`) that `App` does not use. This project
models that state as immutable records with one pure transition per event
handler. Each awaited axios request is replaced by the reply it settled with,
`Reply<T> = Ok(payload) | Err`.

Modules (one per source file, plus shared pieces):

- `Outcomes` (`outcomes.dfy`): `Option` for nullable values and `Reply` for a settled request.
- `Todos` (`todos.dfy`): the `Todo` record and the sequence operations. These are
  `Keep` (Array.prototype.filter), `FilterByStatus`, `RemoveById` and `ReplaceById`,
  with lemmas about id sets and id uniqueness.
- `Trim` (`trim.dfy`): `String.prototype.trim` over the ECMA-262 WhiteSpace and
  LineTerminator characters.
- `App` (`app.dfy`): the `App` component state, its handlers, and an event replay
  `Run` used to state run-long invariants.
- `TodoForm` (`todo_form.dfy`) and `TodoList` (`todo_list.dfy`): the two unused components.

Modelling notes:

- `if (editId)` tests JavaScript truthiness, so an `editId` of `""` takes the
  create branch. The create branch never resets `editId`. `App.Truthy` models
  this as written, and `App.Submit` promises `editId == null` after success only
  when `editId` was not `""`.
- `status` is an arbitrary string. A record whose status is neither `pending`
  nor `completed` shows only under `'all'`.
- `handleSubmit` (src/App.js:29-51) has no trim check: only the HTML `required`
  attribute guards the title, and it accepts a title of spaces. `App.Submit`
  therefore sends any title. The trim guard exists only in `TodoForm`, which is
  modelled separately.
- The record key is `_id` in the code; it is `Todo.id` here.

## Model

| member | source | states |
|---|---|---|
| Todos.Keep | src/App.js:63 | The filter result holds only accepted records, holds each accepted record exactly as often as the input does, and keeps the input order (it is a subsequence). |
| Todos.KeepEverything | src/App.js:78-79 | A filter that accepts every element returns the input unchanged. |
| Todos.FilterByStatus | src/App.js:78-81 | Under `'all'` the shown list is `todos` itself. Under any other value it is the order-preserving subsequence of exactly the records with that status, with multiplicities. |
| Todos.PendingCompletedPartition | src/App.js:78-81 | When every status is `pending` or `completed`, the two filters split the list: their multisets are disjoint, add up to the list's multiset, and their lengths add up to its length. |
| Todos.RemoveById | src/App.js:63 | After a delete, no record carries the id. Every other record stays with its multiplicity and in its original order. |
| Todos.RemoveByIdIds | src/App.js:62-63 | Deleting removes exactly that id from the id set. |
| Todos.RemoveAbsentId | src/App.js:63 | Deleting an id that is not in the list leaves the list unchanged. |
| Todos.SubsequenceKeepsUniqueIds | src/App.js:63 | Removing records from a list with unique ids keeps the ids unique. |
| Todos.ReplaceById | src/App.js:72 | After a toggle the length is the same. Each position with the toggled id holds the server's record and every other position is unchanged. |
| Todos.ReplaceByIdIds | src/App.js:72 | Replacing swaps the toggled id for the reply's id in the id set, and changes nothing when the id is absent. |
| Todos.ReplaceByIdKeepsUniqueIds | src/App.js:72 | A reply that keeps the id keeps ids unique. |
| Todos.ReplaceByIdIdempotent | src/App.js:72 | Applying the same toggle reply twice equals applying it once, whatever id the reply carries. |
| Todos.ReplaceAbsentId | src/App.js:72 | A toggle reply for an id not in the list changes nothing. |
| Trim.LeadingWhitespace | src/components/TodoForm.js:9 | The count of leading characters `trim` removes: all of them are whitespace, and the character after them, if any, is not. |
| Trim.TrailingWhitespace | src/components/TodoForm.js:9 | The count of trailing characters `trim` removes: all of them are whitespace, and the character before them, if any, is not. |
| Trim.Trim | src/components/TodoForm.js:9 | `title.trim()` is the slice of the title after its leading whitespace, with only whitespace after it, and it begins and ends with a non-whitespace character. |
| Trim.TrimEmptyIffAllWhitespace | src/components/TodoForm.js:9 | `s.trim()` is empty exactly when every character of `s` is whitespace. |
| TodoForm.Blank | src/components/TodoForm.js:9 | `!title.trim()` holds exactly when every character of the title is whitespace (the empty title included). |
| TodoForm.Submit | src/components/TodoForm.js:7-14 | An all-whitespace title makes no `onSubmit` call and leaves both fields as they were. Any other title makes one call with the title untrimmed and the description as typed, then empties both fields. |
| TodoForm.EmptyDescriptionAccepted | src/components/TodoForm.js:9-11 | A title with a non-whitespace character is accepted together with an empty description. |
| TodoForm.NoSecondSubmit | src/components/TodoForm.js:11-13 | Right after an accepted submit, a second submit makes no call. |
| TodoList.Edit | src/components/TodoList.js:8-12 | Edit sets `editId` to the record's id and copies its title and description into the buffers. |
| TodoList.Update | src/components/TodoList.js:14-17 | Save makes exactly one `onUpdate` call with the row id and the buffers as they are, with no validation. It then clears `editId` and keeps the buffers. |
| TodoList.Cancel | src/components/TodoList.js:44 | Cancel clears `editId`, makes no call and keeps the buffers. |
| TodoList.EditThenCancel | src/components/TodoList.js:8-12 | Cancel right after Edit leaves no row in edit mode and the buffers holding the record's title and description. |
| TodoList.Rows | src/components/TodoList.js:21-23 | There is one row per todo, in list order. A row is in edit mode exactly when its id equals a non-null `editId`. |
| TodoList.AtMostOneEditing | src/components/TodoList.js:23 | With unique ids at most one row is in edit mode. |
| TodoList.NoneEditing | src/components/TodoList.js:23 | With `editId` null no row is in edit mode. |
| TodoList.EditSelectsOneRow | src/components/TodoList.js:8-23 | After Edit on a row of a list with unique ids, that row and no other is in edit mode. |
| TodoList.EditThenSaveRoundTrip | src/components/TodoList.js:8-17 | Edit followed by Save without typing sends the record's own title and description under its own id, and leaves no row in edit mode. |
| App.FetchSettled | src/App.js:18-27 | A settled fetch always ends loading. On success the list becomes exactly the response body. On failure the list is kept. Nothing else changes. |
| App.Truthy | src/App.js:32 | `if (editId)`: null and the empty string are falsy and every other id is truthy. |
| App.Submit | src/App.js:29-51 | A truthy `editId` sends an update addressed to it and any other value sends a create, each with the current title and description. Success empties the fields and hides the form. It sets `editId` to null after an update and keeps it after a create (so an `editId` of `""` survives). It keeps the list, loading flag and filter, and starts a refetch. Failure changes nothing and starts no refetch. |
| App.Edit | src/App.js:53-58 | Edit loads the record's id, title and description into the form and shows it. The list, loading flag and filter are untouched. |
| App.Cancel | src/App.js:127-132 | Cancel hides the form and clears `editId`, title and description. The list, loading flag and filter are untouched. |
| App.Visible | src/App.js:78-81 | `filteredTodos` is the whole list under `'all'`, and otherwise exactly the records with the chosen status, in order and with multiplicities. |
| App.DeleteSettled | src/App.js:60-67 | A successful delete applies delete-by-id to the list. A failed one changes nothing. Only the list can change. |
| App.ToggleSettled | src/App.js:69-76 | A successful toggle applies replace-by-id with the server's record. A failed one changes nothing. Only the list can change. |
| App.Step | src/App.js:92-147 | Only a successful list, delete or toggle reply changes the list, and no event turns loading back on. The filter buttons, the Plus button and typing in the two fields change only their own field. |
| App.Run | src/App.js:14-147 | Replaying events applies them one at a time in order: a run ends with its last event applied to the state after all the earlier ones. |
| App.OnlySuccessWritesList | src/App.js:18-76 | Any run of events without a successful list, delete or toggle reply leaves the list unchanged. |
| App.StepKeepsUniqueIds | src/App.js:21-72 | One event keeps ids unique, given a server whose lists have unique ids and whose toggle replies keep the id. |
| App.RunKeepsUniqueIds | src/App.js:21-72 | Against such a server, ids stay unique across any run of events. |
| App.LoadingStaysOff | src/App.js:24-25 | Once loading is off, no event turns it back on. |
| App.LoadingEndsAfterFetch | src/App.js:10-27 | The spinner shown at mount goes away once the mount-time fetch settles, on success or failure, and never returns. |
| App.DeleteIds | src/App.js:60-67 | A successful delete removes exactly that id from the id set. After a failed delete the record is still present. |
| App.ToggleIds | src/App.js:69-76 | A toggle whose reply keeps the id keeps the id set and the list length. |
| App.EditThenSubmitUpdates | src/App.js:32-58 | Editing a record with a non-empty id and submitting sends an update of that record with its own fields. Success leaves the form as Cancel would. |
| App.CancelUndoesEdit | src/App.js:127-132 | Cancel after Edit gives the same state as Cancel alone. |
| App.ToggleScenario | src/App.js:69-81 | Toggling the one pending record to completed puts the completed record in the list. The `'completed'` filter shows it and the `'pending'` filter shows nothing. |

## Left out

- Network: axios calls, URLs and HTTP status handling become a `Reply` value. The server itself is not modelled. The id lemmas assume it lists unique ids and answers a toggle with the record it was asked to toggle (`App.ServerConsistent`).
- Error logging: `console.error` has no effect on state.
- Async interleaving: the refetch after a submit is not awaited. `App.Submit` reports it as `refetch`, and its reply is a separate `Fetched` event in `App.Run`. `handleDelete` and `handleToggleComplete` capture a possibly stale `todos`; that closure effect is not modelled, and each handler works on the current list.
- App.Submit: reads `editId`, title and description when the request settles, not when Submit is clicked (src/App.js:32-42). In the code, the branch and payload come from click time and the resets apply after the await (src/App.js:37, 44-46). So an Edit clicked while a create is in flight cannot be expressed: in the code the create is sent, the fields are cleared and the new `editId` is kept.
- TodoForm.Submit: assumes the parent's `onSubmit` returns normally. If it throws (src/components/TodoForm.js:11), the code skips clearing the fields, and the model does not cover that.
- TodoList.Update: assumes the parent's `onUpdate` returns normally. If it throws (src/components/TodoList.js:15), the code skips `setEditId(null)`, and the model does not cover that.
- Rendering: JSX, Tailwind classes, icons, and the choice between spinner, empty message and grid.
- Date formatting: `toLocaleDateString` depends on the host locale; `createdAt` is an opaque string.
- Browser validation: the HTML `required` attribute on the title inputs is browser behaviour.
- Input fields: typing, the filter buttons and the header Plus button are plain field assignments. In `App` their effect is stated by `App.Step`. In the two components, `TypeTitle`/`TypeDescription` have no contract of their own.
- Trim: JavaScript strings are UTF-16 code units and Dafny's `char` is a Unicode scalar value. Every trimmed character lies in the Basic Multilingual Plane, so the two agree.
- Build configuration (`tailwind.config.js`) has no logic.
