# Kanban board core, modelled in Dafny

This project models the behavioural core of a React kanban board. It has three parts:

- **Four in-memory repositories.** Tasks, labels, boards and columns are each a sequence of records with `getAll`, `getById`, `create`, `update` and `delete`:
  - ids are allocated as the largest existing id plus one;
  - updates are spread-merges with the id forced back;
  - deletes splice by id;
  - columns come back sorted by position.
- **The board component's handlers.**
  - Column reorder is a splice-move followed by a dense 1..n renumbering.
  - A task move re-columns exactly one task, and only once the service confirms.
  - The per-column projection.
  - Local append on create and filter on delete.
  - The drag fields, which every path clears.
- **The form logic of the three modals and the label strip on a task card.**
  - Title and due-date validation.
  - Field edits that clear their own error.
  - The label-id toggle.
  - The default column.
  - Population from a task.
  - The submit gates and resets.
  - The "first three labels, then +N more" projection.

Records are immutable datatypes held in `seq`s, and every operation is a pure function.

- An update payload is a record of `Option` fields. `None` means the key is absent from the JS object.
- A create payload is a "draft" whose optional `Id` and timestamps may override or be overridden, exactly as the spreads in the source order them.
- A failing service call is a `Result.Err` carrying the source's exact message, and the store is returned unchanged.
- Handlers return the next state, the service calls they issue (with payloads) and whether they ask for a reload.
- The outcome of a service call is an input (`ok`, `persisted`, `updated`, `created`).
- The clock is an input. ISO timestamps are opaque strings, `Date.now()` is an integer, and calendar dates are integer day numbers with `today` as a parameter.
- JavaScript truthiness is explicit: `TextOr` treats `""` and absent as falsy, and `NumberOr` does the same for `0`.

Modules:

| Module | File | Contents |
|---|---|---|
| `Wrappers` | `wrappers.dfy` | `Option`, `Result`, `Reply` and the `\|\|` fallbacks |
| `Sequences` | `sequences.dfy` | `findIndex`, splice, filter, move and the subsequence relation |
| `Ids` | `ids.dfy` | `Math.max(...ids, 0) + 1` |
| `Text` | `text.dfy` | ECMAScript `trim` (the full white-space and line-terminator set) and integer printing |
| `TaskService`, `LabelService`, `BoardService`, `ColumnService` | one file each | the repositories |
| `KanbanBoard` | `kanban_board.dfy` | the board handlers |
| `TaskForm` | `task_form.dfy` | validation, `handleChange` and `handleLabelToggle`, written identically in both task modals |
| `TaskModal`, `TaskDetailsModal`, `ColumnModal` | one file each | the modals |
| `TaskLabels` | `task_labels.dfy` | the label strip |
| `PositionPersistence` | `position_persistence.dfy` | persisting a column reorder (see Findings) |

## Model

| member | source | states |
|---|---|---|
| Ids.NextId | src/services/api/taskService.js:24 | the new id is at least 1, exceeds every existing id, and is one more than an existing id unless it is 1 (max + 1 with 0 as floor) |
| Ids.NextIdDetermined | src/services/api/taskService.js:24 | those three facts about a new id (at least 1, above every id, 1 or one past an existing id) determine it: it is `NextId` |
| Text.Trim | src/components/organisms/TaskModal.jsx:28 | the result is a contiguous slice of the input with only white space cut from either side, its ends are not white space, and it is empty exactly when the input is blank |
| Text.NatToString | src/services/api/taskService.js:17 | the text is a non-empty string of decimal digits without a leading zero that denotes the number |
| Text.IntToString | src/services/api/taskService.js:17 | a leading minus exactly for a negative number, then digits denoting its magnitude |
| Text.IntToStringInjective | src/services/api/taskService.js:17 | different integers print differently, so a not-found message names exactly the id asked for |
| Sequences.Move | src/components/organisms/KanbanBoard.jsx:75-77 | the moved element lands at the target index, length and multiset are kept, and removing it from the result gives the input with it removed (the others keep their relative order) |
| TaskService.GetAll | src/services/api/taskService.js:8-11 | a copy of the store, element for element, in stored order |
| TaskService.GetById | src/services/api/taskService.js:13-20 | found exactly when some record has the id; the answer is the first record with the id; otherwise "Task with id N not found" |
| TaskService.Create | src/services/api/taskService.js:22-33 | exactly one record appended at the end; without a payload Id the new Id is the largest stored Id plus one, 1 when there is none above 0 (at least 1, above every stored Id, and 1 or one past a stored Id); a payload Id wins; both stamps are the clock, overriding the payload's |
| TaskService.Update | src/services/api/taskService.js:35-50 | absent id: not-found and the store unchanged; otherwise only the first matching record changes, to the payload merged over it with Id forced to the argument and updatedAt the clock |
| TaskService.Delete | src/services/api/taskService.js:52-61 | absent id: not-found and the store unchanged; otherwise the first record with the id is spliced out and returned, the rest keeping their order |
| TaskService.GetByColumn | src/services/api/taskService.js:63-66 | exactly the tasks whose column is the argument, each as many times as stored, in stored order |
| TaskService.MergeNoChange | src/services/api/taskService.js:42-47 | a payload naming no field keeps every content field |
| TaskService.MergeIdempotent | src/services/api/taskService.js:42-47 | merging the same payload twice equals merging it once |
| TaskService.MergeWholeTask | src/services/api/taskService.js:42-47 | a whole record as payload overwrites every content field |
| TaskService.ThreeCreatesFromEmpty | src/services/api/taskService.js:24-31 | three creates on an empty store allocate Ids 1, 2, 3 in order and the store lists them in that order |
| TaskService.UpdateKeepsIds | src/services/api/taskService.js:42-47 | update never changes the store's id list, whatever Id the payload carries |
| TaskService.DeleteUndoesCreate | src/services/api/taskService.js:22-61 | deleting the record just created restores the previous store and returns that record |
| TaskService.CreatedIsFound | src/services/api/taskService.js:13-33 | getById finds a newly created record under its new Id |
| TaskService.UpdateIdempotent | src/services/api/taskService.js:35-50 | repeating an update with the same payload and stamp leaves store and answer as they were |
| LabelService.GetAll | src/services/api/labelService.js:8-11 | a copy of the store in stored order |
| LabelService.GetById | src/services/api/labelService.js:13-20 | found exactly when some label has the id; the answer is the first label with the id; otherwise "Label with id N not found" |
| LabelService.Create | src/services/api/labelService.js:22-33 | one label appended; without a payload Id the new Id is the largest stored Id plus one, 1 when there is none above 0; a payload Id wins; both stamps are the clock |
| LabelService.Update | src/services/api/labelService.js:35-50 | absent id: not-found, store unchanged; otherwise only the first match changes, merged with Id forced and updatedAt the clock |
| LabelService.Delete | src/services/api/labelService.js:52-61 | absent id: not-found, store unchanged; otherwise the first label with the id is spliced out and returned, the rest in order |
| LabelService.CreateKeepsIdsUnique | src/services/api/labelService.js:24-31 | a create without payload Id keeps ids unique |
| LabelService.UpdateKeepsIdsUnique | src/services/api/labelService.js:42-47 | an update keeps ids unique |
| LabelService.DeleteKeepsIdsUnique | src/services/api/labelService.js:59 | a delete keeps ids unique |
| LabelService.RunKeepsIdsUnique | src/services/api/labelService.js:22-61 | from unique ids, any sequence of creates without payload Id, updates and deletes keeps ids unique |
| LabelService.DeleteUndoesCreate | src/services/api/labelService.js:22-61 | deleting the label just created restores the previous store |
| BoardService.GetAll | src/services/api/boardService.js:12-15 | a copy of the store in stored order |
| BoardService.GetById | src/services/api/boardService.js:17-22 | found exactly when some board has the id; the answer is the first board with the id; otherwise "Board not found" |
| BoardService.Create | src/services/api/boardService.js:24-35 | one board appended with the largest stored Id plus one (1 when there is none above 0), the payload's name, its description or "" when falsy, its color or "#5E72E4" when falsy, and createdAt the clock |
| BoardService.Update | src/services/api/boardService.js:37-49 | absent id: "Board not found", store unchanged; otherwise the first match gets the payload merged over it with Id forced and no update stamp |
| BoardService.Delete | src/services/api/boardService.js:51-58 | absent id: "Board not found", store unchanged; otherwise the first board with the id is spliced out and returned, the rest in order |
| BoardService.PayloadCannotChooseId | src/services/api/boardService.js:26-45 | the Id a create payload carries makes no difference, and an update result never takes the payload's Id |
| BoardService.DeleteUndoesCreate | src/services/api/boardService.js:24-58 | deleting the board just created restores the previous store |
| ColumnService.SortByPosition | src/services/api/columnService.js:10 | the result is sorted by ascending position and is a permutation of the input |
| ColumnService.SortIsStable | src/services/api/columnService.js:10 | columns sharing a position come out in stored order (stable sort) |
| ColumnService.SortKeepsSorted | src/services/api/columnService.js:10 | a store already in position order is returned unchanged |
| ColumnService.GetAll | src/services/api/columnService.js:8-11 | a position-sorted permutation of the store in which columns of equal position keep their stored order; the store itself is not reordered |
| ColumnService.GetById | src/services/api/columnService.js:13-20 | found exactly when some column has exactly that id; the answer is the first such column; otherwise "Column with id X not found" |
| ColumnService.Create | src/services/api/columnService.js:22-31 | one column appended; id is the payload id when truthy else "column-" and the clock; position is the payload position when truthy (non-zero) else the count plus one |
| ColumnService.Update | src/services/api/columnService.js:33-47 | absent id: not-found, store unchanged; otherwise only the first match changes, merged with id forced |
| ColumnService.Delete | src/services/api/columnService.js:49-58 | absent id: not-found, store unchanged; otherwise the first column with the id is spliced out and returned, the rest in order |
| ColumnService.DeleteUndoesCreate | src/services/api/columnService.js:22-58 | deleting a column just created under a new id restores the previous store |
| ColumnService.CreatedIsListed | src/services/api/columnService.js:8-31 | getAll after a create lists the new column and one column more than before |
| KanbanBoard.LoadData | src/components/organisms/KanbanBoard.jsx:22-42 | no board id: nothing changes; success: tasks are the store's, columns are the column store sorted by position with ties in stored order, loading off, error cleared, and nothing else changes; failure: only loading off and the error message set |
| KanbanBoard.ColumnDragStart | src/components/organisms/KanbanBoard.jsx:48-53 | the column is grabbed and the dragging flag set; nothing else changes |
| KanbanBoard.DragStart | src/components/organisms/KanbanBoard.jsx:102-106 | the task is grabbed; nothing else changes |
| KanbanBoard.Renumber | src/components/organisms/KanbanBoard.jsx:80-83 | positions become exactly 1..n in list order and no other column field changes |
| KanbanBoard.DropIndices | src/components/organisms/KanbanBoard.jsx:63-73 | a reorder happens only with a grabbed column, a different target id, and both ids found; then the indices are the first columns with those ids, and differ |
| KanbanBoard.ColumnDrop | src/components/organisms/KanbanBoard.jsx:60-101 | both drag fields cleared on every path and nothing else but columns changes; a no-op drop changes no column and calls nothing; a real drop gives the moved list renumbered 1..n with the grabbed column at the target index, sends the full position batch, and asks for a reload exactly when persisting fails |
| KanbanBoard.SetColumn | src/components/organisms/KanbanBoard.jsx:125-131 | tasks with the moved Id get the new column and no other change; all other tasks are untouched |
| KanbanBoard.TaskDrop | src/components/organisms/KanbanBoard.jsx:113-139 | the grabbed task is released on every path; with no grabbed task or the same column no call is made and tasks are unchanged; otherwise the whole re-columned task is sent to update, and only on success does exactly the moved task change column |
| KanbanBoard.TasksForColumn | src/components/organisms/KanbanBoard.jsx:172-174 | exactly the tasks of that column, each as many times as listed, in list order |
| KanbanBoard.CreateTaskHandler | src/components/organisms/KanbanBoard.jsx:141-149 | the payload goes to create; on success the returned task is appended and the modal closes, otherwise nothing changes |
| KanbanBoard.DeleteTaskHandler | src/components/organisms/KanbanBoard.jsx:151-158 | on success exactly the tasks with other Ids remain, each as many times as before, in order; no other state changes; on failure nothing changes |
| KanbanBoard.CreateColumnHandler | src/components/organisms/KanbanBoard.jsx:163-171 | create receives only the trimmed title; on success the returned column is appended and the modal closes, otherwise nothing changes |
| KanbanBoard.ColumnSelfDropIsNoOp | src/components/organisms/KanbanBoard.jsx:63-67 | dropping a column on itself only clears the drag fields and calls nothing |
| KanbanBoard.TaskSameColumnDropIsNoOp | src/components/organisms/KanbanBoard.jsx:116-119 | dropping a task on its own column only releases it and calls nothing |
| KanbanBoard.GestureKeepsPositionsDense | src/components/organisms/KanbanBoard.jsx:22-101 | a grab followed by a drop, and the reload a failed update triggers, keeps positions 1..n whatever the update's outcome, when the reloaded store reads back numbered 1..n |
| KanbanBoard.DropsKeepPositionsDense | src/components/organisms/KanbanBoard.jsx:22-101 | positions stay exactly 1..n through any sequence of grab-and-drop gestures, whatever each update's outcome, when every reload reads a store numbered 1..n |
| KanbanBoard.ReloadCanBreakDensity | src/components/organisms/KanbanBoard.jsx:93-97 | without that condition a failed update's reload shows the store's own positions, which need not be 1..n |
| KanbanBoard.TaskMovePersists | src/components/organisms/KanbanBoard.jsx:122-123 | the update a task drop sends, applied to the task store, re-columns and stamps exactly the grabbed task and keeps everything else, also when the board's copy carries an older update stamp than the store, as after an earlier move |
| KanbanBoard.NoIdKeepsLoading | src/components/organisms/KanbanBoard.jsx:14-23 | mounted without a board id, `loadData` leaves the loading flag set and both lists empty, whatever the stores hold |
| KanbanBoard.ColumnsPartitionTasks | src/components/organisms/KanbanBoard.jsx:172-174 | distinct columns receive disjoint tasks and every task appears under its own column |
| KanbanBoard.ProjectionMatchesService | src/components/organisms/KanbanBoard.jsx:172-174 | the board's projection equals the service's getByColumn |
| KanbanBoard.ReorderExample | src/components/organisms/KanbanBoard.jsx:70-83 | dropping C3 on C1 in [C1, C2, C3] gives [C3, C1, C2] with positions 1, 2, 3 |
| TaskForm.Validate | src/components/organisms/TaskModal.jsx:26-36 | a title error exactly when the title is blank after trim, a due-date error exactly when a due date is set and before today, with the source's messages, and no other key |
| TaskForm.ValidIff | src/components/organisms/TaskDetailsModal.jsx:49-59 | the form is valid exactly when the title is not blank and the due date, if any, is not before today; an empty due date never blocks |
| TaskForm.Change | src/components/organisms/TaskModal.jsx:76-81 | only the named field takes the value; only that field's error, if present, is emptied; the error keys stay the same |
| TaskForm.Without | src/components/organisms/TaskModal.jsx:87 | every copy of the id is removed, every other id kept as many times as before and in order; the list is unchanged when the id is absent |
| TaskForm.ToggleLabel | src/components/organisms/TaskDetailsModal.jsx:95-102 | the id ends up present exactly when it was absent: appended at the end when absent, every copy removed when present, every other id kept as many times as before |
| TaskForm.ToggleTwiceRestores | src/components/organisms/TaskModal.jsx:83-90 | toggling an absent id twice restores the list |
| TaskForm.ToggleKeepsDistinct | src/components/organisms/TaskModal.jsx:83-90 | a list without repeated ids stays without repeats after a toggle |
| TaskModal.DefaultColumn | src/components/organisms/TaskModal.jsx:18 | the preset column when truthy, else the first column's title_c, else its id, else "backlog" |
| TaskModal.DefaultColumnNonEmpty | src/components/organisms/TaskModal.jsx:18 | the default column is never the empty string |
| TaskModal.DefaultIsFirstColumn | src/components/organisms/TaskModal.jsx:62 | with in-memory columns and no preset, a new task goes to the first listed column, or "backlog" when there is none |
| TaskModal.BlankForm | src/components/organisms/TaskModal.jsx:14-22 | the initial form: empty title, description, due date and labels, priority "medium", assignee "Developer", the default column |
| TaskModal.Submit | src/components/organisms/TaskModal.jsx:38-74 | an invalid form keeps its data, gets its errors and calls nothing; a valid one is sent with both stamps the clock; the form resets and the errors empty only when the call resolves |
| TaskModal.SubmitCallsIffValid | src/components/organisms/TaskModal.jsx:41-54 | onSubmit is called exactly for a non-blank title and a due date, if any, not before today |
| TaskModal.ResetFormIsRejected | src/components/organisms/TaskModal.jsx:58-67 | the form left after a successful submit cannot be sent again: its title is required |
| TaskModal.CreatedTaskKeepsForm | src/components/organisms/TaskModal.jsx:48-54 | a task created through the modal is stored with exactly the form's content, a non-blank title and a fresh Id |
| TaskModal.SubmitOnBoard | src/components/organisms/KanbanBoard.jsx:141-149 | with the board's create handler as onSubmit, a valid form is always reset and its errors emptied, whatever the create answers, and the board state is the handler's |
| TaskModal.FailedCreateStillResets | src/components/organisms/TaskModal.jsx:54-67 | when the create fails, the handler swallows the error, so the form is reset anyway while the board keeps its tasks and the modal stays open |
| TaskModal.BoardSubmitStoresTask | src/components/organisms/KanbanBoard.jsx:141-145 | with the in-memory service a valid form is appended to the board with exactly its content and a fresh Id, and the modal closes |
| TaskDetailsModal.Populate | src/components/organisms/TaskDetailsModal.jsx:35-47 | with a task, every field is copied from it, an empty priority becoming "medium" and an empty assignee "Developer"; without one the form is kept |
| TaskDetailsModal.PopulateShowsTask | src/components/organisms/TaskDetailsModal.jsx:37-45 | a task whose priority and assignee are set is shown exactly as stored |
| TaskDetailsModal.PopulateEmptyTaskIsInitial | src/components/organisms/TaskDetailsModal.jsx:21-45 | a task with every field empty is shown as the initial form |
| TaskDetailsModal.FormPatch | src/components/organisms/TaskDetailsModal.jsx:71-74 | the payload names every content field with the form's value, no Id and no creation stamp, and the update stamp |
| TaskDetailsModal.Submit | src/components/organisms/TaskDetailsModal.jsx:61-85 | errors set from validation; an invalid form calls nothing and stays open; a valid one calls onSubmit with the task's Id and the form, and closes exactly when that succeeds; the form is never reset |
| TaskDetailsModal.SubmitCallsIffValid | src/components/organisms/TaskDetailsModal.jsx:64-76 | onSubmit is called exactly for a non-blank title and a due date, if any, not before today |
| TaskDetailsModal.SavedTaskHasForm | src/components/organisms/TaskDetailsModal.jsx:71-76 | the update the modal sends leaves the stored task with exactly the form's content, its Id and creation stamp kept |
| TaskDetailsModal.UneditedSaveKeepsTask | src/components/organisms/TaskDetailsModal.jsx:35-85 | opening a task and saving it unedited changes nothing but its update stamp |
| ColumnModal.Validate | src/components/organisms/ColumnModal.jsx:15-22 | a title error exactly when the title is blank after trim, with "Column title is required" |
| ColumnModal.ValidIff | src/components/organisms/ColumnModal.jsx:20-21 | the form is valid exactly when its title is not blank |
| ColumnModal.Submit | src/components/organisms/ColumnModal.jsx:24-38 | an invalid form is kept with its errors and calls nothing; a valid one is passed untrimmed, then the title resets to "" and the errors empty |
| ColumnModal.Change | src/components/organisms/ColumnModal.jsx:40-45 | the title takes the value; its error, if present, is emptied; the error keys stay the same |
| ColumnModal.SubmitCallsIffValid | src/components/organisms/ColumnModal.jsx:27-37 | onSubmit is called exactly for a non-blank title, and the cleared form is then rejected |
| ColumnModal.SubmittedTitleReachesService | src/components/organisms/KanbanBoard.jsx:163-166 | a title the modal accepts reaches the column service non-empty, with no white space at either end |
| TaskLabels.Shown | src/components/molecules/TaskLabels.jsx:17 | exactly the stored labels whose Id the task lists, each as many times as stored, in store order |
| TaskLabels.Load | src/components/molecules/TaskLabels.jsx:13-25 | the shown labels when the store answers, none when loading fails |
| TaskLabels.ShownDependsOnMembersOnly | src/components/molecules/TaskLabels.jsx:17 | two id lists with the same members show the same labels, whatever their order or repeats |
| TaskLabels.Render | src/components/molecules/TaskLabels.jsx:41-67 | nothing while loading or with nothing to show; otherwise at most 3 labels, the first ones, all of them when fewer than 3, and "+N more" exactly when there are more than 3 |
| TaskLabels.RenderCountsEveryLabel | src/components/molecules/TaskLabels.jsx:46-47 | the drawn labels plus the overflow count add up to the number of labels to show |
| TaskLabels.ToggleFlipsOneLabel | src/components/molecules/TaskLabels.jsx:17 | toggling a label id flips whether that stored label shows and keeps every other label's state |
| PositionPersistence.AsWrittenReorder | src/components/organisms/KanbanBoard.jsx:86-97 | when a real drop is followed by the reload the failing position call triggers, the board shows the stored column order |
| PositionPersistence.ReorderIsLost | src/components/organisms/KanbanBoard.jsx:88 | for [C1, C2, C3] with C3 dropped on C1, the board first shows [C3, C1, C2] and after the reload [C1, C2, C3] again |
| PositionPersistence.UpdatePositions | src/components/organisms/KanbanBoard.jsx:88-91 | every column keeps its id and title; each entry succeeds exactly when its id is stored |
| PositionPersistence.UpdatePositionsEffect | src/components/organisms/KanbanBoard.jsx:88-91 | with unique ids, each column's position becomes the last one the batch gives its id, and nothing else changes |
| PositionPersistence.ReorderPersists | src/components/organisms/KanbanBoard.jsx:60-101 | with the batch update in place, after a real drop every entry succeeds and reading the store back gives exactly the columns, order and positions the board shows |
| PositionPersistence.CorrectedReorder | src/components/organisms/KanbanBoard.jsx:60-101 | drop plus batch update: the store read back equals the board's columns, drag fields cleared, dense positions kept |

## Left out

- Asynchrony. The randomised `setTimeout` delays, `Promise.all` in `loadData`, and the interleaving of concurrent handlers are not modelled. Each service call is one atomic step, and its outcome is a parameter.
- Open JS objects.
  - A create payload always carries every content field. JS payloads with missing or extra keys are not representable.
  - A stored task always has every field.
  - The `title_c` field of the remote backend's column records is only an optional input of `TaskModal.DefaultColumn`.
- `parseInt` coercion of ids. Ids are integers throughout. The lookups compare them with `===` after `parseInt`, and the model compares integers.
- Dates.
  - `new Date(...)` parsing, time zones and Invalid Date are not modelled.
  - A due date is a day number or absent, and today's midnight is the parameter `today`.
  - ISO timestamps are opaque strings supplied by the caller.
  - `Date.now()` in a generated column id is an integer parameter.
- TaskModal.Submit: whether `onSubmit` resolves is a parameter. Wired to the board it always resolves, because the create handler catches its own errors. The in-memory `create` never fails, so the modal's failure branch is never taken there. `TaskModal.SubmitOnBoard` composes the two.
- Toasts, `console.error`, `window.confirm` and the `isLoading` flags. These are user-interface side effects with no effect on the modelled state.
- Rendering: JSX trees, class-name tables (label colours, priority badges), animation and the theme toggle.
- Wiring. `TaskDetailsModal` is imported by the column component but never rendered. The dashboard (src/components/pages/Dashboard.jsx:8) mounts the board without a board id. The board starts with `loading` set, and `loadData` returns before clearing it, so that page shows the loading screen forever and none of the handlers is reachable there (`KanbanBoard.NoIdKeepsLoading`). The handlers are modelled as they behave on a board mounted with an id. `KanbanBoard.LoadData` models both branches.
- `KanbanBoard.jsx:133` looks up the target column and discards it. No behaviour follows from it.
- Task search and label filtering (`getByLabels`) are defined by none of the modelled files.
- The browser's drag events. The column component fires the task-drop and column-drop handlers on the same DOM event. The two handlers are modelled independently.
- TaskModal.DefaultColumn: an in-memory column has no `title_c`, so `ColumnOption` makes that field an explicit optional input rather than reading an absent property.
- TaskForm.Validate: compares day numbers, so a due date of today is accepted. The source compares `new Date("YYYY-MM-DD")`, which is midnight UTC, with local midnight (src/components/organisms/TaskModal.jsx:31, src/components/organisms/TaskDetailsModal.jsx:54). West of UTC it therefore rejects today's date as "Due date cannot be in the past"; the model does not reproduce that.
- TaskDetailsModal.Submit: `task.Id` on a missing task would throw inside the try block. The model takes the task's Id as a parameter.

## Findings

| source | as written | input that shows it | evidently intended | confidence | as-written member | corrected member |
|---|---|---|---|---|---|---|
| src/components/organisms/KanbanBoard.jsx:88 | the drop awaits `columnService.updatePositions`, which the column service (src/services/api/columnService.js:3-63) does not define. The call throws, the catch reloads, and the reload reads back the unchanged store, so on a board mounted with an id every column reorder is undone | a loaded board [C1, C2, C3] at positions 1, 2, 3; drag C3 onto C1 | a batch update on the column service that stores each entry's position, so that reading the store back gives the order the user made | high, not executed | PositionPersistence.ReorderIsLost | PositionPersistence.ReorderPersists |
