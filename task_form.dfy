/** `TaskForm`: a draft of title, description, completion and owner, the
    per-field validation messages, a `loading` flag and the save error. As in
    the user form, saving is split at its `await` into `StartSave` and
    `FinishSave`. */
module TaskForm {
  import opened Common
  import opened Entities

  /** The API call a save makes. An update carries no owner; a create
      carries no completion flag. */
  datatype Call =
    | CreateTask(title: string, description: string, userId: int)
    | UpdateTask(id: int, title: string, description: string, completed: bool)

  /** The parent's callbacks, in the order the form calls them. */
  datatype Callback = Saved | Closed

  /** The editable fields. */
  datatype Draft = Draft(title: string, description: string, completed: bool, userId: int)

  const TitleRequired: string := "Title is required."
  const UserRequired: string := "User selection is required."
  const SaveFailed: string := "Error saving task."

  /** The draft of the first render: the edited task's fields, each falling
      back to its empty value, or an empty draft for a new task. */
  function InitialDraft(task: Option<Task>): (d: Draft)
    ensures task.None? ==> d == Draft("", "", false, 0)
    ensures task.Some? ==> d.title == task.value.title && d.userId == task.value.userId
    ensures task.Some? ==> d.description == task.value.description.GetOr("")
    ensures task.Some? ==> d.completed == task.value.completed.GetOr(false)
  {
    match task
    case None => Draft("", "", false, 0)
    case Some(t) => Draft(t.title, t.description.GetOr(""), t.completed.GetOr(false), t.userId)
  }

  /** The messages of `validate`: each field is checked on its own, so both
      can be present at once, and nothing else is ever reported. */
  function Validate(title: string, userId: int): (errs: map<string, string>)
    ensures "title" in errs <==> title == ""
    ensures "userId" in errs <==> userId == 0
    ensures "title" in errs ==> errs["title"] == TitleRequired
    ensures "userId" in errs ==> errs["userId"] == UserRequired
    ensures forall k :: k in errs ==> k == "title" || k == "userId"
  {
    var withTitle := if title == "" then map["title" := TitleRequired] else map[];
    if userId == 0 then withTitle["userId" := UserRequired] else withTitle
  }

  /** Validation passes exactly when there is a title and an owner. */
  lemma ValidatePasses(title: string, userId: int)
    ensures |Validate(title, userId)| == 0 <==> title != "" && userId != 0
  {
    var errs := Validate(title, userId);
    if title == "" { assert "title" in errs; }
    if userId == 0 { assert "userId" in errs; }
    if title != "" && userId != 0 { assert errs.Keys == {}; }
  }

  /** The call a save makes: an update of the edited task, or a create for
      the selected owner. */
  function SaveCall(task: Option<Task>, d: Draft): (c: Call)
    ensures c.UpdateTask? <==> task.Some?
    ensures c.UpdateTask? ==> c == UpdateTask(task.value.id, d.title, d.description, d.completed)
    ensures c.CreateTask? ==> c == CreateTask(d.title, d.description, d.userId)
  {
    match task
    case Some(t) => UpdateTask(t.id, d.title, d.description, d.completed)
    case None => CreateTask(d.title, d.description, d.userId)
  }

  class Form {
    var task: Option<Task>
    var title: string
    var description: string
    var completed: bool
    var userId: int
    var errors: map<string, string>
    var loading: bool
    var saveError: Option<string>

    function Current(): Draft
      reads this
    {
      Draft(title, description, completed, userId)
    }

    /** The first render. The draft is taken from `task` only here: a later
        change of the prop does not reach it. */
    constructor (t: Option<Task>)
      ensures task == t && Current() == InitialDraft(t)
      ensures errors == map[] && !loading && saveError == None
    {
      task := t;
      var d := InitialDraft(t);
      title := d.title;
      description := d.description;
      completed := d.completed;
      userId := d.userId;
      errors := map[];
      loading := false;
      saveError := None;
    }

    /** A new `task` prop on a mounted form. The state hooks keep the draft
        from the first render, so a later save sends that draft under the new
        task's id. */
    method TaskChanged(t: Option<Task>)
      modifies this
      ensures task == t && Current() == old(Current())
      ensures errors == old(errors) && loading == old(loading) && saveError == old(saveError)
    {
      task := t;
    }

    method EditTitle(value: string)
      modifies this
      ensures Current() == old(Current()).(title := value)
      ensures task == old(task) && errors == old(errors) && loading == old(loading) && saveError == old(saveError)
    {
      title := value;
    }

    method EditDescription(value: string)
      modifies this
      ensures Current() == old(Current()).(description := value)
      ensures task == old(task) && errors == old(errors) && loading == old(loading) && saveError == old(saveError)
    {
      description := value;
    }

    /** The checkbox's change handler flips the flag. */
    method ToggleCompleted()
      modifies this
      ensures Current() == old(Current()).(completed := !old(completed))
      ensures task == old(task) && errors == old(errors) && loading == old(loading) && saveError == old(saveError)
    {
      completed := !completed;
    }

    /** The user select's `onSelect`. */
    method SelectUser(id: int)
      modifies this
      ensures Current() == old(Current()).(userId := id)
      ensures task == old(task) && errors == old(errors) && loading == old(loading) && saveError == old(saveError)
    {
      userId := id;
    }

    /** `validate`: fills a fresh dictionary field by field. */
    method CollectErrors() returns (errs: map<string, string>)
      ensures errs == Validate(title, userId)
    {
      errs := map[];
      if title == "" { errs := errs["title" := TitleRequired]; }
      if userId == 0 { errs := errs["userId" := UserRequired]; }
    }

    /** `handleSave` up to its `await`. A failed validation replaces the
        messages and makes no call. Otherwise the messages stay as they were,
        `loading` is raised, the save error is cleared and the call for
        the current mode is made. */
    method StartSave() returns (call: Option<Call>)
      modifies this
      ensures var errs := Validate(old(title), old(userId));
              if |errs| > 0 then
                call == None && errors == errs && loading == old(loading) && saveError == old(saveError)
              else
                call == Some(SaveCall(old(task), old(Current())))
                && loading && saveError == None && errors == old(errors)
      ensures task == old(task) && Current() == old(Current())
      ensures call.Some? ==> ButtonLabel() == "Saving..."
      ensures call.None? ==> ButtonLabel() == old(ButtonLabel())
    {
      var validationErrors := CollectErrors();
      if |validationErrors| > 0 {
        errors := validationErrors;
        call := None;
        return;
      }
      loading := true;
      saveError := None;
      match task {
        case Some(t) => call := Some(UpdateTask(t.id, title, description, completed));
        case None => call := Some(CreateTask(title, description, userId));
      }
    }

    /** `handleSave` after its `await`. Success calls `onSave`, then
        `onClose`; failure records the save error and calls neither.
        `loading` is lowered either way and the draft is kept. */
    method FinishSave(succeeded: bool) returns (callbacks: seq<Callback>)
      modifies this
      ensures !loading && task == old(task) && Current() == old(Current()) && errors == old(errors)
      ensures succeeded ==> callbacks == [Saved, Closed] && saveError == old(saveError)
      ensures !succeeded ==> callbacks == [] && saveError == Some(SaveFailed)
      ensures ButtonLabel() == "Save"
    {
      if succeeded {
        callbacks := [Saved, Closed];
      } else {
        callbacks := [];
        saveError := Some(SaveFailed);
      }
      loading := false;
    }

    /** The save button is disabled, and reads 'Saving...', while a call is
        under way. */
    function ButtonLabel(): (text: string)
      reads this
      ensures text == "Saving..." <==> loading
      ensures text == "Save" <==> !loading
    {
      if loading then "Saving..." else "Save"
    }
  }
}
