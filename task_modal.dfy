/**
 * The create/edit task form: its initial values, the per-field change
 * handler, the validation rules and the submit handler that only hands
 * valid data to the save callback.
 */
module TaskModal {
  import opened TaskModel
  import opened JsStrings

  const MaxTitleLength := 100
  const MaxDescriptionLength := 500

  const TitleRequired := "Title is required"
  const TitleTooLong := "Title cannot exceed 100 characters"
  const DescriptionTooLong := "Description cannot exceed 500 characters"

  const DefaultStatus := "pending"
  const DefaultPriority := "medium"

  /** The form's values; every input holds a string. */
  datatype FormData = FormData(title: string, description: string, status: string, priority: string, dueDate: string)

  /** The `name` attributes of the form's inputs. */
  datatype Field = Title | Description | Status | Priority | DueDate

  /** The values of a form opened to create a task. */
  const EmptyForm := FormData("", "", DefaultStatus, DefaultPriority, "")

  function FieldValue(form: FormData, field: Field): string {
    match field
    case Title => form.title
    case Description => form.description
    case Status => form.status
    case Priority => form.priority
    case DueDate => form.dueDate
  }

  /** `{...prev, [name]: value}`: the named input takes the value, the others keep theirs. */
  function WithField(form: FormData, field: Field, value: string): (r: FormData)
    ensures FieldValue(r, field) == value
    ensures forall other :: other != field ==> FieldValue(r, other) == FieldValue(form, other)
  {
    match field
    case Title => form.(title := value)
    case Description => form.(description := value)
    case Status => form.(status := value)
    case Priority => form.(priority := value)
    case DueDate => form.(dueDate := value)
  }

  /**
   * The values of a form opened on an existing task: each `||` falls back to
   * the default when the task's value is empty or missing. `dateOnly` stands
   * for the conversion of a stored due date to its `YYYY-MM-DD` part.
   */
  function FormFromTask(task: Task, dateOnly: string -> string): (r: FormData)
    ensures r.title == task.title
    ensures r.description == if task.description.Some? then task.description.value else ""
    ensures r.status != "" && r.priority != ""
    ensures r.status == if task.status == "" then EmptyForm.status else task.status
    ensures r.priority == if task.priority == "" then EmptyForm.priority else task.priority
    ensures r.dueDate == if task.dueDate.Some? && task.dueDate.value != "" then dateOnly(task.dueDate.value) else ""
  {
    FormData(
      if task.title != "" then task.title else "",
      if task.description.Some? && task.description.value != "" then task.description.value else "",
      if task.status != "" then task.status else DefaultStatus,
      if task.priority != "" then task.priority else DefaultPriority,
      if task.dueDate.Some? && task.dueDate.value != "" then dateOnly(task.dueDate.value) else "")
  }

  // Errors are a field-to-message map; a message is shown only when it is non-empty.

  predicate ShowsError(errors: map<Field, string>, field: Field) {
    field in errors && errors[field] != ""
  }

  /**
   * The error part of `handleChange`: a shown error on the edited field is
   * blanked; the set of keys and every other message stay as they were.
   */
  function ClearError(errors: map<Field, string>, field: Field): (r: map<Field, string>)
    ensures r.Keys == errors.Keys
    ensures field in errors ==> r[field] == ""
    ensures forall k :: k in errors && k != field ==> r[k] == errors[k]
    ensures !ShowsError(r, field)
  {
    if field in errors && errors[field] != "" then errors[field := ""] else errors
  }

  /** The validation rules, stated declaratively. */
  ghost function ValidationErrors(form: FormData): map<Field, string> {
    var titleErrors :=
      if IsBlank(form.title) then map[Title := TitleRequired]
      else if |form.title| > MaxTitleLength then map[Title := TitleTooLong]
      else map[];
    if |form.description| > MaxDescriptionLength then titleErrors[Description := DescriptionTooLong]
    else titleErrors
  }

  /** A form that the rules accept. */
  ghost predicate IsValidForm(form: FormData) {
    !IsBlank(form.title) && |form.title| <= MaxTitleLength && |form.description| <= MaxDescriptionLength
  }

  /** The rules accept a form exactly when they report no error. */
  lemma ValidIffNoErrors(form: FormData)
    ensures ValidationErrors(form) == map[] <==> IsValidForm(form)
  {
    if |form.description| > MaxDescriptionLength {
      assert Description in ValidationErrors(form);
    } else if IsBlank(form.title) || |form.title| > MaxTitleLength {
      assert Title in ValidationErrors(form);
    }
  }

  /** A blank title is reported as missing, whatever its length. */
  lemma BlankTitleIsRequired(form: FormData)
    requires IsBlank(form.title)
    ensures ValidationErrors(form)[Title] == TitleRequired
  {
  }

  /** An empty description is never an error. */
  lemma EmptyDescriptionAccepted(form: FormData)
    requires form.description == ""
    ensures Description !in ValidationErrors(form)
  {
  }

  /**
   * `validate`'s construction of the error map: the title check on the
   * trimmed title first, then the length checks on the untrimmed values.
   */
  method CollectErrors(form: FormData) returns (newErrors: map<Field, string>)
    ensures newErrors == ValidationErrors(form)
    ensures newErrors.Keys <= {Title, Description}
    ensures newErrors == map[] <==> IsValidForm(form)
  {
    newErrors := map[];
    TrimEmptyIffBlank(form.title);
    if Trim(form.title) == "" {
      newErrors := newErrors[Title := TitleRequired];
    } else if |form.title| > MaxTitleLength {
      newErrors := newErrors[Title := TitleTooLong];
    }
    if form.description != "" && |form.description| > MaxDescriptionLength {
      newErrors := newErrors[Description := DescriptionTooLong];
    }
    ValidIffNoErrors(form);
  }

  /** A task that satisfies the server's title and description limits opens as a valid form. */
  lemma EditingValidTaskIsValid(task: Task, dateOnly: string -> string)
    requires !IsBlank(task.title) && |task.title| <= MaxTitleLength
    requires task.description.Some? ==> |task.description.value| <= MaxDescriptionLength
    ensures IsValidForm(FormFromTask(task, dateOnly))
  {
  }

  /** What became of a submit. */
  datatype SubmitOutcome =
    | Rejected    // validation failed; the save callback was not called
    | Saved       // the save callback completed
    | SaveFailed  // the save callback threw; the user was alerted

  /** The state of an open task form. */
  class TaskForm {
    var formData: FormData
    var errors: map<Field, string>
    var loading: bool

    /** Mounting the form, with the effect that loads an edited task's values. */
    constructor (task: Option<Task>, dateOnly: string -> string)
      ensures formData == if task.Some? then FormFromTask(task.value, dateOnly) else EmptyForm
      ensures errors == map[] && !loading
    {
      formData := if task.Some? then FormFromTask(task.value, dateOnly) else EmptyForm;
      errors := map[];
      loading := false;
    }

    /** `handleChange` for the input named `name`. */
    method HandleChange(name: Field, value: string)
      modifies this`formData, this`errors
      ensures formData == WithField(old(formData), name, value)
      ensures errors == ClearError(old(errors), name)
      ensures loading == old(loading)
    {
      formData := WithField(formData, name, value);
      if name in errors && errors[name] != "" {
        errors := errors[name := ""];
      }
    }

    /** `validate`: replace the errors by this form's errors and report whether there are none. */
    method Validate() returns (valid: bool)
      modifies this`errors
      ensures errors == ValidationErrors(formData)
      ensures valid <==> IsValidForm(formData)
    {
      var newErrors := CollectErrors(formData);
      errors := newErrors;
      valid := |newErrors| == 0;
    }

    /**
     * `handleSubmit`: `saveSucceeds` says whether the save callback returns
     * or throws. `sent` is what the callback received, None when it was not
     * called. Loading is off again once the callback has finished.
     */
    method HandleSubmit(saveSucceeds: bool) returns (outcome: SubmitOutcome, sent: Option<FormData>)
      modifies this`errors, this`loading
      ensures errors == ValidationErrors(formData)
      ensures outcome == Rejected <==> !IsValidForm(formData)
      ensures sent == if outcome == Rejected then None else Some(formData)
      ensures outcome != Rejected ==> !loading && (outcome == Saved <==> saveSucceeds)
      ensures outcome == Rejected ==> loading == old(loading)
    {
      var valid := Validate();
      if !valid {
        return Rejected, None;
      }
      loading := true;
      sent := Some(formData);
      outcome := if saveSucceeds then Saved else SaveFailed;
      loading := false;
    }
  }
}
