# Todo list client: the two controllers behind the views

This project models the client-side logic of a small todo-list web application whose
two React components talk to a tRPC backend:

- **`TodoList`** keeps an active tab (`all`, `pending`, `completed`), derives the
  `statuses` parameter of the `todo.getAll` list query from it, filters the fetched
  todos per tab, turns a checkbox toggle into a `todoStatus.update` call with the
  opposite status, sends `todo.delete` from the delete button, and asks the query
  cache to refetch the list after either mutation succeeds.
- **`CreateTodoForm`** keeps a draft string, ignores a submit whose draft is blank
  after `trim()`, otherwise sends one `todo.create` with the draft as typed and clears
  the draft at once; Enter in the input and the Add button both reach the same
  submit, and a successful create asks for a refetch of the list.

Each component is a Dafny class whose fields are its state and whose `log: seq<Call>`
records, in order, the remote calls it sends (`Query`, `Create`, `Update`, `Delete`,
`Refetch`). The backend is not modelled: the model says what is sent, never what the
server does. The pure derivations (query parameter, per-tab filter, toggle target,
JavaScript's `trim`) are functions with lemmas.

Files: `todos.dfy` (module `Todos`: the todo record, statuses, calls and call-log
counting), `js_string.dfy` (module `JsString`: `String.prototype.trim` over the
ECMAScript white-space and line-terminator code points), `todo_list.dfy` (module
`TodoListComponent`), `create_todo_form.dfy` (module `CreateTodoFormComponent`).

Events that reach the components from outside are method parameters or methods of
their own: a query result arriving (`TodoList.Receive`), a mutation completing with
success or failure (`UpdateSettled`, `DeleteSettled`, `CreateSettled`), a key press
(`KeyDown`), a click (`ClickAdd`).

## Model

| member | source | states |
|---|---|---|
| `JsString.TrimStart` | src/client/components/CreateTodoForm.tsx:42 | the result is a suffix of the input, everything removed is white space, and it does not start with white space |
| `JsString.TrimEnd` | src/client/components/CreateTodoForm.tsx:42 | the result is a prefix of the input, everything removed is white space, and it does not end with white space |
| `JsString.Trim` | src/client/components/CreateTodoForm.tsx:42 | the trimmed string is no longer than the input and neither starts nor ends with white space |
| `JsString.TrimIsInfix` | src/client/components/CreateTodoForm.tsx:42 | `s.trim()` is exactly the infix of `s` that starts after its leading white space, with only white space before and after it in `s` |
| `JsString.TrimEmptyIffBlank` | src/client/components/CreateTodoForm.tsx:42 | `s.trim() === ''` holds exactly when every character of `s` is white space (both directions) |
| `TodoListComponent.Statuses` | src/client/components/TodoList.tsx:76 | tab `all` requests `[completed, pending]`; the other tabs request exactly their own status, a one-element list; a status is requested iff the tab admits it |
| `TodoListComponent.StatusesParam` | src/client/components/TodoList.tsx:76 | the parameter as the component writes it, `activeTab === 'all' ? ['completed','pending'] : [activeTab]`; `StatusesParamNamesStatuses` proves it names exactly the admitted statuses |
| `TodoListComponent.StatusesParamNamesStatuses` | src/client/components/TodoList.tsx:76 | the string parameter as written (`[activeTab]` on a status tab) names, position by position, the statuses requested, and names a status iff the tab admits it |
| `TodoListComponent.Snapshot` | src/client/components/TodoList.tsx:75 | `data: todos = []`: a missing result is the empty list; `MissingResultShowsNothing` proves every tab then renders nothing |
| `TodoListComponent.MissingResultShowsNothing` | src/client/components/TodoList.tsx:75 | with no query result every tab renders an empty list |
| `TodoListComponent.WithStatus` | src/client/components/TodoList.tsx:199-200 | `.filter` by status yields an order-preserving subsequence of the snapshot, holding only todos of that status and every todo of that status |
| `TodoListComponent.WithStatusMultiplicity` | src/client/components/TodoList.tsx:249-250 | the filter keeps each todo of the status exactly as often as the snapshot holds it, and no other todo |
| `TodoListComponent.Visible` | src/client/components/TodoList.tsx:149-151 | each tab renders an order-preserving subsequence of the snapshot whose todos it admits, containing every admitted todo; the `all` tab renders the snapshot unchanged |
| `TodoListComponent.VisibleMultiplicity` | src/client/components/TodoList.tsx:197-251 | each tab renders exactly the admitted todos of the snapshot, with their multiplicities |
| `TodoListComponent.TabsPartitionSnapshot` | src/client/components/TodoList.tsx:197-251 | the `pending` and `completed` tabs together render every fetched todo exactly once |
| `TodoListComponent.HonouredQueryShownUnchanged` | src/client/components/TodoList.tsx:75-77 | when the fetched todos all carry a requested status, the tab's client-side filter removes nothing: fetch parameter and display filter are the same predicate |
| `TodoListComponent.IsChecked` | src/client/components/TodoList.tsx:160 | `checked={todo.status === 'completed'}`; the second ensures of `ToggleTarget` proves the toggle requests `completed` exactly when the box is unchecked |
| `TodoListComponent.ToggleTarget` | src/client/components/TodoList.tsx:160-165 | the toggle requests the opposite of the todo's status, i.e. `completed` iff the checkbox is currently unchecked |
| `TodoListComponent.ToggleTwiceRestores` | src/client/components/TodoList.tsx:210-215 | toggling a todo that already carries the toggled status requests its original status |
| `TodoListComponent.ToggledTodoLeavesTab` | src/client/components/TodoList.tsx:260-265 | on a status tab, once every refetched todo with the toggled todo's id carries the requested status, no todo with that id is rendered there |
| `TodoListComponent.TodoList.constructor` | src/client/components/TodoList.tsx:71-77 | on mount the tab is `all`, there is no result yet, and the one call sent is the query for `[completed, pending]` |
| `TodoListComponent.TodoList.VisibleTodos` | src/client/components/TodoList.tsx:149-251 | the active tab renders an order-preserving subsequence of the current snapshot holding only admitted todos and every admitted todo of the snapshot; the whole snapshot on `all` |
| `TodoListComponent.TodoList.SelectTab` | src/client/components/TodoList.tsx:114-118 | the tab becomes the selected one; a change of tab appends exactly one query with the new tab's parameter and renders the cache's result for that parameter, which is none on a first visit (a parameter never queried has no cached result); re-selecting the active tab changes nothing; the latest query always matches the active tab |
| `TodoListComponent.TodoList.Receive` | src/client/components/TodoList.tsx:75 | a query result replaces the snapshot wholesale; tab and log are unchanged |
| `TodoListComponent.TodoList.HandleStatusChange` | src/client/components/TodoList.tsx:99-104 | appends exactly `Update(id, newStatus)`; tab and snapshot unchanged |
| `TodoListComponent.TodoList.ToggleCheckbox` | src/client/components/TodoList.tsx:158-166 | for a rendered todo, appends exactly one update of that todo's id to the opposite status; tab and snapshot unchanged |
| `TodoListComponent.TodoList.HandleDelete` | src/client/components/TodoList.tsx:106-110 | appends exactly `Delete(id)`; tab and snapshot unchanged |
| `TodoListComponent.TodoList.UpdateSettled` | src/client/components/TodoList.tsx:87-91 | a successful status update appends exactly one `Refetch`, a failed one nothing; every refetch answers a completed mutation |
| `TodoListComponent.TodoList.DeleteSettled` | src/client/components/TodoList.tsx:93-97 | a successful delete appends exactly one `Refetch`, a failed one nothing |
| `CreateTodoFormComponent.SubmitCalls` | src/client/components/CreateTodoForm.tsx:41-49 | a blank draft sends nothing; any other draft sends exactly one create with the untrimmed draft |
| `CreateTodoFormComponent.DraftAfterSubmit` | src/client/components/CreateTodoForm.tsx:42-48 | a blank draft is left exactly as it was; any other draft becomes `''` |
| `CreateTodoFormComponent.ResubmitIsNoOp` | src/client/components/CreateTodoForm.tsx:41-49 | a second submit right after a submit sends nothing and changes nothing |
| `CreateTodoFormComponent.SubmittedBodyIsRawAndNotBlank` | src/client/components/CreateTodoForm.tsx:45-47 | a created body is the raw draft, its trim is non-empty, so it is never empty |
| `CreateTodoFormComponent.CreateTodoForm.constructor` | src/client/components/CreateTodoForm.tsx:30 | the draft starts as `''`, nothing is in flight or sent |
| `CreateTodoFormComponent.CreateTodoForm.SetDraft` | src/client/components/CreateTodoForm.tsx:68-70 | the draft becomes exactly the input value, with no validation and no call |
| `CreateTodoFormComponent.CreateTodoForm.HandleSubmit` | src/client/components/CreateTodoForm.tsx:41-49 | appends the submit's calls (none when blank, one raw `Create` otherwise), clears a non-blank draft without waiting for the result; every create logged has a non-blank body |
| `CreateTodoFormComponent.CreateTodoForm.KeyDown` | src/client/components/CreateTodoForm.tsx:71-76 | Enter prevents the default submission and has exactly one submit's effect; other keys change nothing |
| `CreateTodoFormComponent.CreateTodoForm.FormSubmit` | src/client/components/CreateTodoForm.tsx:54-57 | a form submission prevents navigation and has exactly one submit's effect |
| `CreateTodoFormComponent.CreateTodoForm.ClickAdd` | src/client/components/CreateTodoForm.tsx:79-83 | while a create is in flight a click does nothing (disabled button); otherwise it has exactly the effect of Enter |
| `CreateTodoFormComponent.CreateTodoForm.CreateSettled` | src/client/components/CreateTodoForm.tsx:34-39 | a successful create appends exactly one `Refetch`, a failure nothing; the draft is not restored |

The contracts of the class methods (those with `modifies`) use `old` and state the
whole new state; the invariants they keep are `Valid()`: for `TodoList`, the latest
query sent is the one the active tab derives and every refetch answers a completed
update or delete; for `CreateTodoForm`, every create sent has a non-blank body and
every refetch answers a completed create.

How the Enter path and the button relate: `KeyDown("Enter")` prevents the input's
default action, which is the form's implicit submission, so one key press runs
`handleSubmit` once; the Add button has `type="button"`, so a click never submits the
form either. `ClickAdd` and `KeyDown("Enter")` are stated with the same functions
`SubmitCalls` and `DraftAfterSubmit`, so they have identical effects whenever the
button is enabled. Only the button is gated on the create in flight; the Enter path
is not.

## Left out

- Rendering: the JSX tree, class names, inline styles, hover handlers and the SVG icon components are presentation.
- `autoAnimate`, its `useEffect` and the `console.log` are DOM side effects.
- tRPC and react-query internals: the query cache itself and how and when a query is re-run. On a change of tab the hook reports what the cache holds for the new parameter (nothing on a first visit, so the tab renders an empty list; otherwise the cached result, never the previous tab's snapshot); `SelectTab` takes that cached result as a parameter, required to be `None` for a parameter the log has never queried, and `Receive` delivers each later result.
- Backend behaviour: whether a delete removes a todo or an update persists lives in server routers that are not part of this model; no lemma asserts a server-side effect (`ToggledTodoLeavesTab` assumes, as a requires, that the refetched snapshot carries the requested status for the toggled id).
- Failure reporting: the code registers no error handler, so a failed mutation is modelled only as settling without a refetch.
- Concurrency and double submits: overlapping creates (possible through Enter while one is in flight) are not tracked individually; `isLoading` is a single flag that `CreateSettled` clears.
- `TodoListComponent.TodoList.SelectTab`: takes a `Tab` value, so it does not model `setActiveTab` receiving a string other than the three trigger values; Radix only ever passes those.
