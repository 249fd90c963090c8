/** The add-column modal (`ColumnModal`): a one-field form whose title must
    not be blank, sent untrimmed and then cleared. */
module ColumnModal {
  import opened Wrappers
  import Text
  import ColumnService
  import KanbanBoard

  /** The modal's form data. */
  datatype ColumnForm = ColumnForm(title: string)

  /** The form's only field. */
  datatype Field = Title

  type Errors = map<Field, string>

  const TitleRequired := "Column title is required"

  const EmptyForm := ColumnForm("")

  /** `validateForm`'s new error object. */
  function Validate(form: ColumnForm): (errors: Errors)
    ensures Title in errors <==> Text.IsBlank(form.title)
    ensures Title in errors ==> errors[Title] == TitleRequired
  {
    if Text.Trim(form.title) == "" then map[Title := TitleRequired] else map[]
  }

  /** `validateForm`'s answer: the error object has no keys. */
  predicate IsValid(form: ColumnForm) {
    |Validate(form)| == 0
  }

  /** The form is valid exactly when its title is not blank. */
  lemma ValidIff(form: ColumnForm)
    ensures IsValid(form) <==> !Text.IsBlank(form.title)
  {
    if Text.IsBlank(form.title) {
      assert Title in Validate(form).Keys;
    }
  }

  /** The modal after `handleSubmit`: its form, its error object, and the
      form passed to `onSubmit`, if it was called. */
  datatype Submitted = Submitted(form: ColumnForm, errors: Errors, call: Option<ColumnForm>)

  /** `handleSubmit`: an invalid form is kept with its errors set; a valid
      one is handed over as typed and the modal is cleared at once, without
      waiting for the outcome. */
  function Submit(form: ColumnForm): (r: Submitted)
    ensures !IsValid(form) ==> r == Submitted(form, Validate(form), None)
    ensures IsValid(form) ==> r == Submitted(EmptyForm, map[], Some(form))
  {
    var errors := Validate(form);
    if |errors| != 0 then Submitted(form, errors, None)
    else Submitted(EmptyForm, map[], Some(form))
  }

  /** `handleChange("title", value)`: the title takes the value and its
      error, when set, is emptied. */
  function Change(form: ColumnForm, errors: Errors, value: string): (r: (ColumnForm, Errors))
    ensures r.0.title == value
    ensures r.1.Keys == errors.Keys
    ensures Title in r.1 ==> r.1[Title] == ""
  {
    var errors' := if Title in errors && errors[Title] != "" then errors[Title := ""] else errors;
    (form.(title := value), errors')
  }

  /** `onSubmit` is called exactly for a title that is not blank, and never
      twice in a row: the cleared form is rejected. */
  lemma SubmitCallsIffValid(form: ColumnForm)
    ensures Submit(form).call.Some? <==> !Text.IsBlank(form.title)
    ensures Submit(form).call.Some? ==> Submit(Submit(form).form).call.None?
  {
    ValidIff(form);
    ValidIff(EmptyForm);
  }

  /** A title accepted by the modal reaches the column service trimmed and
      non-empty, with no leading or trailing whitespace. */
  lemma SubmittedTitleReachesService(form: ColumnForm, st: KanbanBoard.BoardState,
                                     created: Option<ColumnService.Column>)
    requires Submit(form).call.Some?
    ensures var sent := Submit(form).call.value;
            var draft := KanbanBoard.CreateColumnHandler(st, sent.title, created).calls[0].columnDraft;
            && draft.title != ""
            && !Text.IsWhitespace(draft.title[0])
            && !Text.IsWhitespace(draft.title[|draft.title| - 1])
  {
    SubmitCallsIffValid(form);
  }
}
