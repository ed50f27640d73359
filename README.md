# Task manager: store, client list state and task components

This project models the core of a small task manager, a REST backend with a React client.

- **Backend store** (`backend.dfy`, module `Backend`). The in-memory `tasks` list and the `nextId` counter are a class `Store`. It starts with six seed tasks (ids 1 to 6) and `nextId = 7`.
  - The four `/tasks` handlers are methods returning the HTTP reply: `List` (GET), `Create` (POST), `Update` (PUT) and `Delete` (DELETE).
  - `Valid()` is the store invariant: ids are pairwise distinct and every stored task passes `validateTask`. Every id ever issued lies in `[1, nextId)`, and the ghost set `issued` remembers deleted ids too, so a new id never repeats an old one (ids are unbounded integers here; see "## Left out").
- **Shared list operations** (`tasks.dfy`, module `Tasks`). The `Task` entity, plus the JavaScript `filter`/`map`/`find` calls that both sides apply to a task list:
  - `WithStatus`: the status filter;
  - `WithoutId`: removal by id;
  - `ReplaceId`: the client's update map;
  - `IndexOfId`: the position `find` locates.
- **Client list state** (`frontend.dfy`, module `Frontend`). The class `App` holds `tasks`, `loading`, `error` and `filter`, with the handlers `fetchTasks`, `handleAddTask`, `handleRemoveTask` and `handleUpdateTask` and the derived `filteredTasks`. How each server call ended (resolved with a value, or rejected with a message) is a method parameter.
- **Task item** (`task_item.dfy`, module `TaskItemComponent`). The completion toggle, plus the inline editor's `isEditing`/`title`/`description` state with save and cancel. Its check uses `String.prototype.trim`, modelled in `js_text.dfy` (module `JsText`) over the ECMAScript whitespace and line-terminator characters.
- **Add form** (`task_form.dfy`, module `TaskFormComponent`). The form fields, the error text and the submit handler.

Callbacks that leave a component (`onUpdate`, `onAddTask`) are returned as values. Typing into an input is a plain assignment to the corresponding field.

## Model

| member | source | states |
|---|---|---|
| Tasks.WithId | backend/src/app.js:44 | definition, no contract of its own: the object literal `{ id, title, description, status }`; what the source promises about the task it builds is stated by `Backend.Store.Create` (the appended task and the freshness of its id) and `Backend.Store.Update` (the task written at the found position) |
| Tasks.WithStatus | backend/src/app.js:32 | a task is in the result exactly when it is stored and its status equals the query, each as many times as it is stored; the result is never longer than the list |
| Tasks.WithStatusIsSubsequence | backend/src/app.js:32 | the status filter keeps the stored order (the result is a subsequence of the list) |
| Tasks.WithoutId | backend/src/app.js:75 | a task survives exactly when it was in the list and its id differs from the deleted one, each as many times as it was stored |
| Tasks.WithoutIdIsSubsequence | src/app.js:44 | removal by id keeps the remaining tasks in their order |
| Tasks.WithoutIdKeepsLengthIffAbsent | backend/src/app.js:74-79 | the length is unchanged exactly when no task had the id, and then the list is unchanged (the 404 test) |
| Tasks.WithoutPresentIdDropsOne | backend/src/app.js:75-82 | with distinct ids, removing a present id shortens the list by exactly one |
| Tasks.ReplaceId | src/app.js:54-56 | same length; each position holds the replacement if its id matched and the old task otherwise |
| Tasks.ReplaceIdIsUpdateAtIndex | src/app.js:54-56 | with distinct ids, the client's map over all matches equals overwriting the single position `find` locates, as the server's PUT does |
| Tasks.ReplaceAbsentIdIsIdentity | src/app.js:54-56 | replacing an id nobody has leaves the list as it was |
| Tasks.IndexOfId | backend/src/app.js:54 | none exactly when no task has the id; otherwise a valid position holding the id with no earlier task holding it |
| Tasks.FirstIndexIsIndexOf | backend/src/app.js:54 | the first position holding an id is the one `find` returns |
| Tasks.SubsequenceOfTail | backend/src/app.js:75 | a subsequence of a list's tail is a subsequence of the list |
| Tasks.IdsDistinctTail | backend/src/app.js:75 | distinct ids stay distinct in the tail, and the head's id does not recur there |
| Tasks.SelfIsSubsequence | backend/src/app.js:32 | an unfiltered list is an order-preserving subsequence of itself |
| Tasks.IdHolderIsUnique | backend/src/app.js:54 | with distinct ids, the task at a position is the only task carrying its id |
| JsText.StartOfText | src/components/TaskItem.js:18 | scanning forward, the position reached holds the first non-whitespace character (or is the end), and everything skipped is whitespace |
| JsText.EndOfText | src/components/TaskItem.js:18 | scanning back, the position reached ends on a non-whitespace character (or is the lower bound), and everything skipped is whitespace |
| JsText.Trim | src/components/TaskItem.js:18 | `trim()` is never longer than its input and neither starts nor ends with whitespace |
| JsText.TrimIsCore | src/components/TaskItem.js:18 | `trim()` is a slice of the input bounded by non-whitespace, with only whitespace cut off either side |
| JsText.TrimEmptyIffBlank | src/components/TaskItem.js:18 | `trim()` is empty exactly when every character is whitespace |
| JsText.TrimNonEmptyImpliesNonEmpty | src/components/TaskItem.js:18 | a string with a non-empty trim is non-empty, so an edit the editor accepts is non-empty |
| Backend.ValidateTask | backend/src/app.js:26-27 | definition, no contract of its own: each field truthy, a string being truthy exactly when it is non-empty; its promises are stated by `Backend.Store.Create` and `Backend.Store.Update` (400 exactly when it fails), by `Valid()` (every stored task passes it) and by `TaskFormComponent.TaskForm.HandleSubmit` (the form lets through exactly the bodies it accepts) |
| Backend.SeedIsValid | backend/src/app.js:14-23 | the seed ids are distinct and lie in [1, 7), and every seed task has non-empty fields |
| Backend.Store.constructor | backend/src/app.js:14-23 | the store starts with the six seed tasks and `nextId = 7`, satisfying the invariant |
| Backend.Store.List | backend/src/app.js:30-35 | no or empty status query returns the whole list; otherwise exactly the stored tasks with that status, in stored order |
| Backend.Store.Find | backend/src/app.js:54 | the scan returns the position of the first task with the id, or none when no task has it |
| Backend.Store.Create | backend/src/app.js:38-48 | an invalid body gives 400 and changes nothing; a valid one appends a task with the old `nextId` (larger than every stored id and never issued before), increments `nextId` and gives 201 with that task; the invariant is kept |
| Backend.Store.Update | backend/src/app.js:51-69 | an absent id gives 404 before the body is looked at, a present id with an invalid body gives 400, both changing nothing; otherwise the found position is overwritten with the body under the same id, everything else is kept, and 200 returns the updated task |
| Backend.Store.Delete | backend/src/app.js:72-83 | the list becomes the tasks without the id in order; 404 exactly when no task had it (list unchanged), else 204 with length one less; `nextId` untouched, invariant kept |
| Backend.SubsequenceKeepsIdsDistinct | backend/src/app.js:75 | dropping tasks while keeping order keeps ids distinct and adds no task |
| Backend.PostPutGetScenario | backend/src/app.js:38-69 | on any valid store, POST `{A, B, todo}` gets the old `nextId`; PUT on that id with `{A2, B2, done}` returns the updated task, which GET `?status=done` lists and GET `?status=todo` does not |
| Frontend.FailedMessage | src/app.js:36 | a failed add, remove or update always leaves a non-empty error message |
| Frontend.App.constructor | src/app.js:7-10 | the client starts with no tasks, loading, no error and filter `'all'` |
| Frontend.App.FetchTasks | src/app.js:17-29 | loading ends false; on success the tasks are the fetched list and the error is cleared; on failure the tasks are kept and the fetch error is set |
| Frontend.App.HandleAddTask | src/app.js:31-39 | on success the returned task is appended after the previous tasks; on failure the tasks are kept and the add error is set |
| Frontend.App.HandleRemoveTask | src/app.js:41-49 | on success exactly the tasks with the id are removed; on failure the tasks are kept and the remove error is set |
| Frontend.App.HandleUpdateTask | src/app.js:51-61 | on success every task with the id is replaced by the returned task; on failure the tasks are kept and the update error is set |
| Frontend.App.FilteredTasks | src/app.js:63-66 | all tasks under `'all'`; otherwise the status filter `WithStatus` of the tasks: exactly the tasks whose status equals the filter, each as often as in the list, in order |
| TaskItemComponent.ToggledStatus | src/components/TaskItem.js:9 | the new status is `'todo'` exactly when the old one is `'done'`, is always `'todo'` or `'done'`, and always differs from the old one |
| TaskItemComponent.ToggleTwice | src/components/TaskItem.js:9 | toggling twice restores `'todo'` or `'done'`; `'in progress'` comes back as `'todo'` |
| TaskItemComponent.BlankTitleAcceptedByServerNotByEditor | src/components/TaskItem.js:18 | every non-empty whitespace-only title passes the server's emptiness check (with non-empty description and status) but trims to empty, so the editor refuses it |
| TaskItemComponent.TaskItem.constructor | src/components/TaskItem.js:4-6 | the editor starts closed, holding the task's title and description |
| TaskItemComponent.TaskItem.ToggleComplete | src/components/TaskItem.js:8-15 | asks to update the task's own id with its title and description unchanged and the toggled status; a valid task's toggle passes server validation |
| TaskItemComponent.TaskItem.StartEditing | src/components/TaskItem.js:125 | opens the editor without touching the edited values |
| TaskItemComponent.TaskItem.HandleSave | src/components/TaskItem.js:17-28 | nothing is sent and nothing changes exactly when the title or description is all whitespace; otherwise the untrimmed edits go out with the task's status and the editor closes |
| TaskItemComponent.TaskItem.HandleCancel | src/components/TaskItem.js:30-34 | restores the task's title and description and closes the editor |
| TaskFormComponent.TaskForm.constructor | src/components/TaskForm.js:4-7 | the form starts empty with status `'todo'` and no error |
| TaskFormComponent.TaskForm.HandleSubmit | src/components/TaskForm.js:9-20 | with any field empty it sets the required-fields error, does not call `onAddTask` and keeps the fields; otherwise it calls `onAddTask` once with the fields and resets them; it lets through exactly the bodies `validateTask` accepts |

## Left out

- Express wiring is not modelled: CORS, JSON body parsing, static files, `listen` and the `PORT` lookup. Neither is logging or the HTTP client in `src/api.js`; each client call's outcome is a parameter instead.
- `parseInt` of the path id is not modelled; ids are integers. An unparseable id (NaN) matches no task, so PUT and DELETE treat it exactly like an id absent from the store.
- JavaScript truthiness of non-string body values is not modelled; body fields are strings, and a field is truthy exactly when it is non-empty. The same goes for GET's query: a repeated `?status=a&status=b` arrives as an array, which is truthy and equal to no status, so the real handler returns `[]`; the model's query is an optional string only.
- Backend.Store.Create: ids are unbounded integers, so a new id is always fresh. In the source `nextId` is a JavaScript Number; past `Number.MAX_SAFE_INTEGER` (2^53 - 1) `nextId++` stops advancing and ids repeat, which the model does not capture.
- Objects are modelled as values. The reference `find` returns, and the identity of the object PUT replies with, become the position `find` locates and the task written there.
- Overlapping in-flight requests and the ordering of `await`s are not modelled; each handler runs to completion.
- Duplicate ids: if several tasks shared an id, PUT would overwrite only the first, and the contract of `Update` says so through `IndexOfId`. The store invariant rules the case out anyway.
- Frontend.App.FetchTasks: the intermediate `loading = true` and `error = null` are not visible in the final state; the contract states only the state after the call.
- Frontend: the dark-mode flag and the filter buttons are left out. The buttons only assign `'all'`, `'todo'` or `'done'` to `filter`, and the dark-mode flag only changes styling. Rendering is left out too (the loading and error views, and the Retry button, which calls `fetchTasks`).
- TaskItemComponent: the Delete button is left out; it only passes `task.id` to `onRemove`. So are the `alert` on a refused save and the component keeping its local state across a parent re-render with a new task.
- The prop `task` is a constant of each `TaskItem`.
- TaskFormComponent: `preventDefault` and the styles are left out.
