/** The form logic the create-task and edit-task modals share, written
    identically in both: `validateForm`, `handleChange` and
    `handleLabelToggle`. The form data has exactly the content fields of a
    task. */
module TaskForm {
  import opened Wrappers
  import opened Sequences
  import Text
  import TaskService

  type Form = TaskService.TaskContent

  /** The names of the form's fields, as `handleChange` receives them. */
  datatype Field = Title | Description | Priority | Column | Assignee | DueDate | Labels

  /** The error object: a message per field. */
  type Errors = map<Field, string>

  const TitleRequired := "Title is required"
  const DueDateInPast := "Due date cannot be in the past"

  /** `validateForm`'s new error object, with `today` the current day number
      (the source compares against today's local midnight). */
  function Validate(form: Form, today: int): (errors: Errors)
    ensures Title in errors <==> Text.IsBlank(form.title)
    ensures Title in errors ==> errors[Title] == TitleRequired
    ensures DueDate in errors <==> form.dueDate.Some? && form.dueDate.value < today
    ensures DueDate in errors ==> errors[DueDate] == DueDateInPast
    ensures forall f :: f in errors ==> f == Title || f == DueDate
  {
    var titleErrors: Errors := if Text.Trim(form.title) == "" then map[Title := TitleRequired] else map[];
    if form.dueDate.Some? && form.dueDate.value < today
    then titleErrors[DueDate := DueDateInPast]
    else titleErrors
  }

  /** `validateForm`'s answer: the error object has no keys. */
  predicate IsValid(form: Form, today: int) {
    |Validate(form, today)| == 0
  }

  /** A form is valid exactly when its title is not blank and its due date,
      if any, is not before today; an empty due date never blocks. */
  lemma ValidIff(form: Form, today: int)
    ensures IsValid(form, today) <==>
      !Text.IsBlank(form.title) && (form.dueDate.None? || form.dueDate.value >= today)
  {
    var e := Validate(form, today);
    if !Text.IsBlank(form.title) && (form.dueDate.None? || form.dueDate.value >= today) {
      assert e.Keys == {};
    } else if Text.IsBlank(form.title) {
      assert Title in e.Keys;
    } else {
      assert DueDate in e.Keys;
    }
  }

  /** The value of one field, whatever its type. */
  datatype Value = Text(text: string) | Day(day: Option<int>) | Ids(ids: seq<int>)

  function Get(form: Form, f: Field): Value {
    match f
    case Title => Text(form.title)
    case Description => Text(form.description)
    case Priority => Text(form.priority)
    case Column => Text(form.column)
    case Assignee => Text(form.assignee)
    case DueDate => Day(form.dueDate)
    case Labels => Ids(form.labels)
  }

  /** `handleChange(field, value)`: one field, with a value of its type. */
  datatype Edit =
    | SetTitle(title: string)
    | SetDescription(description: string)
    | SetPriority(priority: string)
    | SetColumn(column: string)
    | SetAssignee(assignee: string)
    | SetDueDate(dueDate: Option<int>)
    | SetLabels(labels: seq<int>)

  function FieldOf(e: Edit): Field {
    match e
    case SetTitle(_) => Title
    case SetDescription(_) => Description
    case SetPriority(_) => Priority
    case SetColumn(_) => Column
    case SetAssignee(_) => Assignee
    case SetDueDate(_) => DueDate
    case SetLabels(_) => Labels
  }

  function ValueOf(e: Edit): Value {
    match e
    case SetTitle(v) => Text(v)
    case SetDescription(v) => Text(v)
    case SetPriority(v) => Text(v)
    case SetColumn(v) => Text(v)
    case SetAssignee(v) => Text(v)
    case SetDueDate(v) => Day(v)
    case SetLabels(v) => Ids(v)
  }

  /** `handleChange`: the named field takes the value, and that field's
      error, when set, is emptied; nothing else changes. */
  function Change(form: Form, errors: Errors, e: Edit): (r: (Form, Errors))
    ensures Get(r.0, FieldOf(e)) == ValueOf(e)
    ensures forall f :: f != FieldOf(e) ==> Get(r.0, f) == Get(form, f)
    ensures r.1.Keys == errors.Keys
    ensures FieldOf(e) in r.1 ==> r.1[FieldOf(e)] == ""
    ensures forall f :: f in errors && f != FieldOf(e) ==> r.1[f] == errors[f]
  {
    var form' := match e
      case SetTitle(v) => form.(title := v)
      case SetDescription(v) => form.(description := v)
      case SetPriority(v) => form.(priority := v)
      case SetColumn(v) => form.(column := v)
      case SetAssignee(v) => form.(assignee := v)
      case SetDueDate(v) => form.(dueDate := v)
      case SetLabels(v) => form.(labels := v);
    var f := FieldOf(e);
    var errors' := if f in errors && errors[f] != "" then errors[f := ""] else errors;
    (form', errors')
  }

  /** `labels.filter(id => id !== labelId)`. */
  function Without(labels: seq<int>, labelId: int): (r: seq<int>)
    ensures labelId !in r
    ensures forall x :: x != labelId ==> (x in r <==> x in labels)
    ensures IsSubsequence(r, labels)
    ensures labelId !in labels ==> r == labels
    ensures labelId in labels ==> |r| < |labels|
    ensures forall x :: x != labelId ==> multiset(r)[x] == multiset(labels)[x]
  {
    if |labels| == 0 then []
    else
      var rest := Without(labels[1..], labelId);
      assert labels == [labels[0]] + labels[1..];
      if labels[0] == labelId then rest else [labels[0]] + rest
  }

  /** `handleLabelToggle`: a present id is removed wherever it occurs, an
      absent one is appended. */
  function ToggleLabel(labels: seq<int>, labelId: int): (r: seq<int>)
    ensures labelId in r <==> labelId !in labels
    ensures forall x :: x != labelId ==> (x in r <==> x in labels)
    ensures labelId !in labels ==> r == labels + [labelId]
    ensures labelId in labels ==> IsSubsequence(r, labels) && |r| < |labels|
    ensures labelId in labels ==> forall x :: x != labelId ==> multiset(r)[x] == multiset(labels)[x]
  {
    if labelId in labels then Without(labels, labelId) else labels + [labelId]
  }

  /** Toggling an absent id twice gives the list back unchanged. */
  lemma ToggleTwiceRestores(labels: seq<int>, labelId: int)
    requires labelId !in labels
    ensures ToggleLabel(ToggleLabel(labels, labelId), labelId) == labels
  {
    WithoutAppended(labels, labelId);
  }

  /** Removing an id from a list that has it only at the end. */
  lemma {:induction false} WithoutAppended(labels: seq<int>, labelId: int)
    requires labelId !in labels
    ensures Without(labels + [labelId], labelId) == labels
    decreases |labels|
  {
    if |labels| > 0 {
      assert (labels + [labelId])[1..] == labels[1..] + [labelId];
      WithoutAppended(labels[1..], labelId);
      assert labels == [labels[0]] + labels[1..];
    } else {
      assert ([] + [labelId])[1..] == [];
    }
  }

  /** No id occurs twice in `labels`. */
  predicate Distinct(labels: seq<int>) {
    forall i, j :: 0 <= i < j < |labels| ==> labels[i] != labels[j]
  }

  /** A list without repeated ids stays without repeats after a toggle. */
  lemma ToggleKeepsDistinct(labels: seq<int>, labelId: int)
    requires Distinct(labels)
    ensures Distinct(ToggleLabel(labels, labelId))
  {
    if labelId in labels {
      WithoutKeepsDistinct(labels, labelId);
    }
  }

  lemma {:induction false} WithoutKeepsDistinct(labels: seq<int>, labelId: int)
    requires Distinct(labels)
    ensures Distinct(Without(labels, labelId))
    decreases |labels|
  {
    if |labels| > 0 {
      assert Distinct(labels[1..]) by {
        forall i, j | 0 <= i < j < |labels[1..]| ensures labels[1..][i] != labels[1..][j] {
          assert labels[1..][i] == labels[i + 1] && labels[1..][j] == labels[j + 1];
        }
      }
      WithoutKeepsDistinct(labels[1..], labelId);
      var rest := Without(labels[1..], labelId);
      if labels[0] != labelId {
        assert labels[0] !in labels[1..];
        assert labels[0] !in rest;
        var r := [labels[0]] + rest;
        forall i, j | 0 <= i < j < |r| ensures r[i] != r[j] {
          if i == 0 { assert r[j] in rest; }
          else { assert r[i] == rest[i - 1] && r[j] == rest[j - 1]; }
        }
      }
    }
  }
}
