/** The edit-task modal (`TaskDetailsModal`): the form filled in from the
    task being edited, and `handleSubmit`, which sends the whole form as an
    update payload and closes the modal on success. Field edits, label
    toggles and validation are shared with the create modal (`TaskForm`). */
module TaskDetailsModal {
  import opened Wrappers
  import Sequences
  import Text
  import TaskService
  import TaskForm

  type Form = TaskService.TaskContent
  type Task = TaskService.Task

  const DefaultPriority := "medium"
  const DefaultAssignee := "Developer"

  /** The form before any task has been loaded into it. */
  const InitialForm := TaskService.TaskContent("", "", DefaultPriority, "", DefaultAssignee, None, [])

  /** The populating effect: when a task is present, every field is copied
      from it, an empty priority becoming "medium" and an empty assignee
      "Developer"; with no task the form is left as it is. */
  function Populate(form: Form, task: Option<Task>): (r: Form)
    ensures task.None? ==> r == form
    ensures task.Some? ==>
      var c := task.value.content;
      && r.title == c.title && r.description == c.description && r.column == c.column
      && r.dueDate == c.dueDate && r.labels == c.labels
      && r.priority == (if c.priority == "" then DefaultPriority else c.priority)
      && r.assignee == (if c.assignee == "" then DefaultAssignee else c.assignee)
  {
    match task
    case None => form
    case Some(t) =>
      var c := t.content;
      TaskService.TaskContent(
        TextOr(Some(c.title), ""),
        TextOr(Some(c.description), ""),
        TextOr(Some(c.priority), DefaultPriority),
        TextOr(Some(c.column), ""),
        TextOr(Some(c.assignee), DefaultAssignee),
        c.dueDate,
        c.labels)
  }

  /** A task whose priority and assignee are set is shown exactly as stored. */
  lemma PopulateShowsTask(form: Form, t: Task)
    requires t.content.priority != "" && t.content.assignee != ""
    ensures Populate(form, Some(t)) == t.content
  {
  }

  /** A task with every field empty is shown as the initial form. */
  lemma PopulateEmptyTaskIsInitial(form: Form, t: Task)
    requires t.content == TaskService.TaskContent("", "", "", "", "", None, [])
    ensures Populate(form, Some(t)) == InitialForm
  {
  }

  /** `{ ...formData, updatedAt: now }` as an update payload: every content
      field is given, the id and creation stamp are not. */
  function FormPatch(form: Form, now: TaskService.Stamp): (p: TaskService.TaskPatch)
    ensures p.Id.None? && p.createdAt.None? && p.updatedAt == Some(now)
    ensures TaskService.Merge(InitialForm, p) == form
  {
    TaskService.TaskPatch(None, Some(form.title), Some(form.description), Some(form.priority),
                          Some(form.column), Some(form.assignee), Some(form.dueDate),
                          Some(form.labels), None, Some(now))
  }

  /** The modal after `handleSubmit`: its form (never reset), its error
      object, the `onSubmit(task.Id, payload)` call if made, and whether it
      closed. */
  datatype Submitted = Submitted(
    form: Form,
    errors: TaskForm.Errors,
    call: Option<(int, TaskService.TaskPatch)>,
    closed: bool)

  /** `handleSubmit`: an invalid form stops at the gate with its errors
      set; a valid one is sent for the task's id and the modal closes only
      when `onSubmit` succeeds (`ok`). */
  function Submit(form: Form, taskId: int, today: int, now: TaskService.Stamp, ok: bool): (r: Submitted)
    ensures r.form == form && r.errors == TaskForm.Validate(form, today)
    ensures !TaskForm.IsValid(form, today) ==> r.call.None? && !r.closed
    ensures TaskForm.IsValid(form, today) ==>
      r.call == Some((taskId, FormPatch(form, now))) && r.closed == ok
  {
    var errors := TaskForm.Validate(form, today);
    if |errors| != 0 then Submitted(form, errors, None, false)
    else Submitted(form, errors, Some((taskId, FormPatch(form, now))), ok)
  }

  /** `onSubmit` is called exactly when the title is not blank and the due
      date, if any, is not before today. */
  lemma SubmitCallsIffValid(form: Form, taskId: int, today: int, now: TaskService.Stamp, ok: bool)
    ensures Submit(form, taskId, today, now, ok).call.Some? <==>
      !Text.IsBlank(form.title) && (form.dueDate.None? || form.dueDate.value >= today)
  {
    TaskForm.ValidIff(form, today);
  }

  /** Whatever the stored task held, the update the modal sends leaves it
      with exactly the form's content, its id and creation stamp kept. */
  lemma SavedTaskHasForm(tasks: seq<Task>, i: nat, form: Form, now: TaskService.Stamp, stamp: TaskService.Stamp)
    requires i < |tasks| && forall j :: 0 <= j < i ==> tasks[j].Id != tasks[i].Id
    ensures var r := TaskService.Update(tasks, tasks[i].Id, FormPatch(form, now), stamp);
            && r.result.Ok?
            && r.result.value == TaskService.Task(tasks[i].Id, form, tasks[i].createdAt, stamp)
            && r.store == tasks[i := r.result.value]
  {
    var p := FormPatch(form, now);
    assert TaskService.Merge(tasks[i].content, p) == form;
    var k := Sequences.FirstIndex(tasks, TaskService.IdOf, tasks[i].Id);
    assert TaskService.IdOf(tasks[i]) == tasks[i].Id;
    assert k == Some(i);
  }

  /** Opening a task whose priority and assignee are set and saving it
      unedited changes nothing but its update stamp. */
  lemma UneditedSaveKeepsTask(tasks: seq<Task>, i: nat, today: int, now: TaskService.Stamp,
                              stamp: TaskService.Stamp, ok: bool)
    requires i < |tasks| && forall j :: 0 <= j < i ==> tasks[j].Id != tasks[i].Id
    requires tasks[i].content.priority != "" && tasks[i].content.assignee != ""
    requires TaskForm.IsValid(tasks[i].content, today)
    ensures var form := Populate(InitialForm, Some(tasks[i]));
            var call := Submit(form, tasks[i].Id, today, now, ok).call;
            && call.Some?
            && TaskService.Update(tasks, call.value.0, call.value.1, stamp).store
               == tasks[i := tasks[i].(updatedAt := stamp)]
  {
    PopulateShowsTask(InitialForm, tasks[i]);
    SavedTaskHasForm(tasks, i, tasks[i].content, now, stamp);
  }
}
