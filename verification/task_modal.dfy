/** The create-task modal (`TaskModal`): its blank form, the default-column
    choice, and `handleSubmit`'s validation gate and reset. Field edits,
    label toggles and validation are shared with the edit modal and live in
    `TaskForm`. */
module TaskModal {
  import opened Wrappers
  import Text
  import TaskService
  import ColumnService
  import TaskForm
  import KanbanBoard

  type Form = TaskService.TaskContent

  /** What the modal reads of a column: the remote backend's records carry a
      `title_c` field that the in-memory column records do not have. */
  datatype ColumnOption = ColumnOption(title_c: Option<string>, id: string)

  /** An in-memory column, as the modal sees it. */
  function OptionOf(c: ColumnService.Column): ColumnOption {
    ColumnOption(None, c.id)
  }

  const FallbackColumn := "backlog"
  const DefaultPriority := "medium"
  const DefaultAssignee := "Developer"

  /** `defaultColumn || columns[0]?.title_c || columns[0]?.id || "backlog"`. */
  function DefaultColumn(defaultColumn: Option<string>, columns: seq<ColumnOption>): (r: string)
    ensures defaultColumn.Some? && defaultColumn.value != "" ==> r == defaultColumn.value
    ensures (defaultColumn.None? || defaultColumn.value == "") && |columns| > 0 ==>
      if columns[0].title_c.Some? && columns[0].title_c.value != "" then r == columns[0].title_c.value
      else if columns[0].id != "" then r == columns[0].id
      else r == FallbackColumn
    ensures (defaultColumn.None? || defaultColumn.value == "") && |columns| == 0 ==> r == FallbackColumn
  {
    if |columns| == 0 then TextOr(defaultColumn, FallbackColumn)
    else TextOr(defaultColumn, TextOr(columns[0].title_c, TextOr(Some(columns[0].id), FallbackColumn)))
  }

  /** The column the new task falls into is never the empty string. */
  lemma DefaultColumnNonEmpty(defaultColumn: Option<string>, columns: seq<ColumnOption>)
    ensures DefaultColumn(defaultColumn, columns) != ""
  {
  }

  /** On the in-memory backend with no preset, a new task goes to the first
      listed column, or to "backlog" when the board has no column. */
  lemma DefaultIsFirstColumn(columns: seq<ColumnService.Column>)
    requires forall i :: 0 <= i < |columns| ==> columns[i].id != ""
    ensures |columns| > 0 ==> DefaultColumn(None, seq(|columns|, i requires 0 <= i < |columns| => OptionOf(columns[i]))) == columns[0].id
    ensures |columns| == 0 ==> DefaultColumn(None, []) == FallbackColumn
  {
  }

  /** The form the modal opens with, and returns to after a successful submit. */
  function BlankForm(defaultColumn: Option<string>, columns: seq<ColumnOption>): (r: Form)
    ensures r.title == "" && r.description == "" && r.dueDate.None? && r.labels == []
    ensures r.priority == DefaultPriority && r.assignee == DefaultAssignee
    ensures r.column == DefaultColumn(defaultColumn, columns)
  {
    TaskService.TaskContent("", "", DefaultPriority, DefaultColumn(defaultColumn, columns),
                            DefaultAssignee, None, [])
  }

  /** The modal's form and error object after `handleSubmit`, and the
      payload passed to `onSubmit`, if it was called. */
  datatype Submitted = Submitted(form: Form, errors: TaskForm.Errors, payload: Option<TaskService.TaskDraft>)

  /** `handleSubmit`: an invalid form stops at the gate with its errors set;
      a valid one is sent with both timestamps `now`, and is reset to the
      blank form only when `onSubmit` succeeds (`ok`). */
  function Submit(form: Form, defaultColumn: Option<string>, columns: seq<ColumnOption>,
                  today: int, now: TaskService.Stamp, ok: bool): (r: Submitted)
    ensures r.errors == (if r.payload.Some? && ok then map[] else TaskForm.Validate(form, today))
    ensures !TaskForm.IsValid(form, today) ==> r.payload.None? && r.form == form
    ensures TaskForm.IsValid(form, today) ==>
      && r.payload == Some(TaskService.TaskDraft(None, form, Some(now), Some(now)))
      && |r.errors| == 0
      && r.form == (if ok then BlankForm(defaultColumn, columns) else form)
  {
    var errors := TaskForm.Validate(form, today);
    if |errors| != 0 then Submitted(form, errors, None)
    else
      var payload := TaskService.TaskDraft(None, form, Some(now), Some(now));
      if ok then Submitted(BlankForm(defaultColumn, columns), map[], Some(payload))
      else Submitted(form, errors, Some(payload))
  }

  /** `onSubmit` is called exactly when the title is not blank and the due
      date, if any, is not before today. */
  lemma SubmitCallsIffValid(form: Form, defaultColumn: Option<string>, columns: seq<ColumnOption>,
                            today: int, now: TaskService.Stamp, ok: bool)
    ensures Submit(form, defaultColumn, columns, today, now, ok).payload.Some? <==>
      !Text.IsBlank(form.title) && (form.dueDate.None? || form.dueDate.value >= today)
  {
    TaskForm.ValidIff(form, today);
  }

  /** After a successful submit the blank form cannot be sent again: its
      title is required. */
  lemma ResetFormIsRejected(defaultColumn: Option<string>, columns: seq<ColumnOption>,
                            today: int, now: TaskService.Stamp, ok: bool)
    ensures var f := BlankForm(defaultColumn, columns);
            Submit(f, defaultColumn, columns, today, now, ok).payload.None?
            && TaskForm.Validate(f, today)[TaskForm.Title] == TaskForm.TitleRequired
  {
  }

  /** A task created through the modal is stored with exactly the form's
      content, a title that is not blank and a fresh id. */
  lemma CreatedTaskKeepsForm(tasks: seq<TaskService.Task>, form: Form, defaultColumn: Option<string>,
                             columns: seq<ColumnOption>, today: int, now: TaskService.Stamp,
                             stored: TaskService.Stamp, ok: bool)
    requires Submit(form, defaultColumn, columns, today, now, ok).payload.Some?
    ensures var d := Submit(form, defaultColumn, columns, today, now, ok).payload.value;
            var t := TaskService.Create(tasks, d, stored).1;
            && t.content == form
            && !Text.IsBlank(t.content.title)
            && (forall i :: 0 <= i < |tasks| ==> tasks[i].Id < t.Id)
  {
    SubmitCallsIffValid(form, defaultColumn, columns, today, now, ok);
  }

  /** `handleSubmit` with the board's `handleCreateTask` as `onSubmit`. The
      handler catches a failed create itself, so the promise the modal
      awaits always resolves: the modal takes its success path whatever
      `created`, the service's answer, is. Returns the modal's outcome and
      the board state. */
  function SubmitOnBoard(st: KanbanBoard.BoardState, form: Form, defaultColumn: Option<string>,
                         columns: seq<ColumnOption>, today: int, now: TaskService.Stamp,
                         created: Option<TaskService.Task>): (r: (Submitted, KanbanBoard.BoardState))
    ensures !TaskForm.IsValid(form, today) ==> r.0.payload.None? && r.0.form == form && r.1 == st
    ensures TaskForm.IsValid(form, today) ==>
      && r.0.payload == Some(TaskService.TaskDraft(None, form, Some(now), Some(now)))
      && r.0.form == BlankForm(defaultColumn, columns) && r.0.errors == map[]
      && r.1 == KanbanBoard.CreateTaskHandler(st, r.0.payload.value, created).state
  {
    var s := Submit(form, defaultColumn, columns, today, now, true);
    if s.payload.Some? then (s, KanbanBoard.CreateTaskHandler(st, s.payload.value, created).state)
    else (s, st)
  }

  /** When the create fails, the form is still reset and its errors cleared,
      while the board keeps its tasks and the modal stays as it was (open). */
  lemma FailedCreateStillResets(st: KanbanBoard.BoardState, form: Form, defaultColumn: Option<string>,
                                columns: seq<ColumnOption>, today: int, now: TaskService.Stamp)
    requires TaskForm.IsValid(form, today)
    ensures var r := SubmitOnBoard(st, form, defaultColumn, columns, today, now, None);
            && r.0.form == BlankForm(defaultColumn, columns) && r.0.errors == map[]
            && r.1.tasks == st.tasks && r.1.showTaskModal == st.showTaskModal
  {
  }

  /** With the in-memory task service, whose `create` always succeeds, a
      valid form is appended to the board with exactly its content and a
      fresh id, and the modal closes. */
  lemma BoardSubmitStoresTask(st: KanbanBoard.BoardState, store: seq<TaskService.Task>, form: Form,
                              defaultColumn: Option<string>, columns: seq<ColumnOption>, today: int,
                              now: TaskService.Stamp, stamp: TaskService.Stamp)
    requires TaskForm.IsValid(form, today)
    ensures var t := TaskService.Create(store, TaskService.TaskDraft(None, form, Some(now), Some(now)), stamp).1;
            var r := SubmitOnBoard(st, form, defaultColumn, columns, today, now, Some(t));
            && r.1.tasks == st.tasks + [t] && !r.1.showTaskModal
            && t.content == form && (forall i :: 0 <= i < |store| ==> store[i].Id < t.Id)
  {
  }
}
