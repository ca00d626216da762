/** The user form: a draft of username, email and password, the validation
    messages and a `loading` flag. Saving is split at its `await`: `StartSave`
    validates and issues the API call, `FinishSave` takes the call's outcome
    and runs the rest of the handler, its `finally` included. */
module UserForm {
  import opened Common
  import opened Entities

  /** The API call a save makes. An update carries no password. */
  datatype Call =
    | CreateUser(username: string, email: string, password: string)
    | UpdateUser(id: int, username: string, email: string)

  /** The parent's callbacks, in the order the form calls them. */
  datatype Callback = Saved(user: User) | Closed

  const UsernameRequired: string := "Username is required."
  const EmailRequired: string := "Email is required."
  const PasswordRequired: string := "Password is required."
  const SaveFailed: string := "An error occurred while saving the user."

  /** Where a validation message stands in the fixed order of the checks. */
  function Rank(message: string): int {
    if message == UsernameRequired then 0
    else if message == EmailRequired then 1
    else if message == PasswordRequired then 2
    else 3
  }

  /** The messages of the form's validation: one per empty field, the
      password counting only when no user is being edited, in the order
      username, email, password. */
  function Validate(username: string, email: string, password: string, editing: bool): (errs: seq<string>)
    ensures UsernameRequired in errs <==> username == ""
    ensures EmailRequired in errs <==> email == ""
    ensures PasswordRequired in errs <==> !editing && password == ""
    ensures forall i :: 0 <= i < |errs| ==> Rank(errs[i]) < 3
    ensures forall i, j :: 0 <= i < j < |errs| ==> Rank(errs[i]) < Rank(errs[j])
  {
    (if username == "" then [UsernameRequired] else [])
    + (if email == "" then [EmailRequired] else [])
    + (if !editing && password == "" then [PasswordRequired] else [])
  }

  /** Validation passes exactly when every required field is filled in. */
  lemma ValidatePasses(username: string, email: string, password: string, editing: bool)
    ensures Validate(username, email, password, editing) == [] <==>
            username != "" && email != "" && (editing || password != "")
  {
    var errs := Validate(username, email, password, editing);
    if username == "" { assert UsernameRequired in errs; }
    if email == "" { assert EmailRequired in errs; }
    if !editing && password == "" { assert PasswordRequired in errs; }
  }

  /** The call a save makes: an update of the edited user's id, or a create
      with the password. */
  function SaveCall(existing: Option<User>, username: string, email: string, password: string): (c: Call)
    ensures c.UpdateUser? <==> existing.Some?
    ensures c.UpdateUser? ==> c == UpdateUser(existing.value.id, username, email)
    ensures c.CreateUser? ==> c == CreateUser(username, email, password)
  {
    match existing
    case Some(u) => UpdateUser(u.id, username, email)
    case None => CreateUser(username, email, password)
  }

  class Form {
    var existingUser: Option<User>
    var username: string
    var email: string
    var password: string
    var errors: seq<string>
    var loading: bool

    /** The first render: the draft starts from the edited user, if any. */
    constructor (existing: Option<User>)
      ensures existingUser == existing
      ensures username == (if existing.Some? then existing.value.username else "")
      ensures email == (if existing.Some? then existing.value.email else "")
      ensures password == "" && errors == [] && !loading
    {
      existingUser := existing;
      username := if existing.Some? then existing.value.username else "";
      email := if existing.Some? then existing.value.email else "";
      password := "";
      errors := [];
      loading := false;
    }

    /** A new `existingUser` prop and the effect that follows it: a user
        resets username and email to its own; no user leaves the draft. */
    method ExistingUserChanged(existing: Option<User>)
      modifies this
      ensures existingUser == existing
      ensures username == (if existing.Some? then existing.value.username else old(username))
      ensures email == (if existing.Some? then existing.value.email else old(email))
      ensures password == old(password) && errors == old(errors) && loading == old(loading)
      ensures Heading() == "Edit User" <==> existing.Some?
      ensures ShowsPassword() <==> existing.None?
    {
      existingUser := existing;
      if existing.Some? {
        username := existing.value.username;
        email := existing.value.email;
      }
    }

    method EditUsername(value: string)
      modifies this
      ensures username == value
      ensures existingUser == old(existingUser) && email == old(email) && password == old(password)
      ensures errors == old(errors) && loading == old(loading)
      ensures ShowsPassword() == old(ShowsPassword()) && ButtonLabel() == old(ButtonLabel())
    {
      username := value;
    }

    method EditEmail(value: string)
      modifies this
      ensures email == value
      ensures existingUser == old(existingUser) && username == old(username) && password == old(password)
      ensures errors == old(errors) && loading == old(loading)
      ensures ShowsPassword() == old(ShowsPassword()) && ButtonLabel() == old(ButtonLabel())
    {
      email := value;
    }

    method EditPassword(value: string)
      modifies this
      ensures password == value
      ensures existingUser == old(existingUser) && username == old(username) && email == old(email)
      ensures errors == old(errors) && loading == old(loading)
      ensures ShowsPassword() == old(ShowsPassword()) && ButtonLabel() == old(ButtonLabel())
    {
      password := value;
    }

    /** `handleSave` up to its `await`. A failed validation replaces the
        messages and makes no call; otherwise `loading` is raised and the
        call for the current mode is made. */
    method StartSave() returns (call: Option<Call>)
      modifies this
      ensures var errs := Validate(old(username), old(email), old(password), old(existingUser).Some?);
              if errs != [] then call == None && errors == errs && loading == old(loading)
              else call == Some(SaveCall(old(existingUser), old(username), old(email), old(password)))
                   && loading && errors == old(errors)
      ensures existingUser == old(existingUser) && username == old(username)
      ensures email == old(email) && password == old(password)
      ensures call.Some? ==> ButtonDisabled() && ButtonLabel() == "Saving..."
      ensures call.None? ==> ButtonDisabled() == old(ButtonDisabled()) && ButtonLabel() == old(ButtonLabel())
      ensures ShowsPassword() == old(ShowsPassword()) && Heading() == old(Heading())
    {
      var newErrors: seq<string> := [];
      if username == "" { newErrors := newErrors + [UsernameRequired]; }
      if email == "" { newErrors := newErrors + [EmailRequired]; }
      if existingUser.None? && password == "" { newErrors := newErrors + [PasswordRequired]; }
      if |newErrors| > 0 {
        errors := newErrors;
        call := None;
        return;
      }
      loading := true;
      match existingUser {
        case Some(u) => call := Some(UpdateUser(u.id, username, email));
        case None => call := Some(CreateUser(username, email, password));
      }
    }

    /** `handleSave` after its `await`. Success reports the returned user,
        then closes, then clears the draft and the messages; failure shows one
        message and keeps the draft. `loading` is lowered either way. */
    method FinishSave(outcome: Outcome<User>) returns (callbacks: seq<Callback>)
      modifies this
      ensures !loading && existingUser == old(existingUser)
      ensures !ButtonDisabled() && ButtonLabel() != "Saving..."
      ensures ShowsPassword() == old(ShowsPassword()) && Heading() == old(Heading())
      ensures outcome.Success? ==>
        callbacks == [Saved(outcome.value), Closed]
        && username == "" && email == "" && password == "" && errors == []
      ensures outcome.Failure? ==>
        callbacks == [] && errors == [SaveFailed]
        && username == old(username) && email == old(email) && password == old(password)
    {
      match outcome {
        case Success(user) =>
          callbacks := [Saved(user), Closed];
          username := "";
          email := "";
          password := "";
          errors := [];
        case Failure =>
          callbacks := [];
          errors := [SaveFailed];
      }
      loading := false;
    }

    /** The heading: 'Edit User' or 'Create User'. */
    function Heading(): (h: string)
      reads this
      ensures h == "Edit User" <==> existingUser.Some?
    {
      if existingUser.Some? then "Edit User" else "Create User"
    }

    /** The password input is rendered only for a new user. */
    function ShowsPassword(): (shown: bool)
      reads this
      ensures shown <==> existingUser.None?
    {
      existingUser.None?
    }

    /** The save button is disabled while a call is under way. */
    function ButtonDisabled(): (disabled: bool)
      reads this
      ensures disabled <==> loading
    {
      loading
    }

    /** The save button's label. */
    function ButtonLabel(): (text: string)
      reads this
      ensures text == "Saving..." <==> loading
      ensures text == "Update User" <==> !loading && existingUser.Some?
      ensures text == "Create User" <==> !loading && existingUser.None?
    {
      if loading then "Saving..." else if existingUser.Some? then "Update User" else "Create User"
    }
  }
}
