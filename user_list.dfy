/** The user list: the fetched users, the form and delete-modal toggles,
    and the loading and error state. Each handler is one step that takes the
    outcome of its API call as a parameter. */
module UserList {
  import opened Common
  import opened Entities
  import Lists

  const LoadFailed: string := "Failed to load users"
  const DeleteFailed: string := "Unable to delete user"

  class List {
    var users: seq<User>
    var showUserForm: bool
    var editingUser: Option<User>
    var loading: bool
    var error: Option<string>
    var showDeleteModal: bool
    var userToDelete: Option<User>

    /** The first render: no users yet, loading. */
    constructor ()
      ensures users == [] && !showUserForm && editingUser == None && loading && error == None
      ensures !showDeleteModal && userToDelete == None
    {
      users := [];
      showUserForm := false;
      editingUser := None;
      loading := true;
      error := None;
      showDeleteModal := false;
      userToDelete := None;
    }

    /** The mount effect's fetch has settled: the list and no error, or the
        load error and the list as it was. Loading is over either way. */
    method FetchSettled(outcome: Outcome<seq<User>>)
      modifies this
      ensures !loading
      ensures outcome.Success? ==> users == outcome.value && error == None
      ensures outcome.Failure? ==> users == old(users) && error == Some(LoadFailed)
      ensures showUserForm == old(showUserForm) && editingUser == old(editingUser)
      ensures showDeleteModal == old(showDeleteModal) && userToDelete == old(userToDelete)
      ensures ShowsForm() <==> old(showUserForm)
      ensures ShowsDeleteModal() <==> old(showDeleteModal) && old(userToDelete).Some?
    {
      match outcome {
        case Success(list) =>
          users := list;
          loading := false;
          error := None;
        case Failure =>
          error := Some(LoadFailed);
          loading := false;
      }
    }

    /** `handleDelete(id)` once the delete call has settled. Success drops
        every user with the id and clears the error; failure keeps the list
        and reports it. The modal is closed either way. */
    method HandleDelete(id: int, succeeded: bool)
      modifies this
      ensures succeeded ==> users == Lists.WithoutKey(old(users), id, UserId) && error == None
      ensures !succeeded ==> users == old(users) && error == Some(DeleteFailed)
      ensures !showDeleteModal && userToDelete == None
      ensures showUserForm == old(showUserForm) && editingUser == old(editingUser) && loading == old(loading)
      ensures !ShowsDeleteModal() && ShowsForm() == old(ShowsForm())
    {
      if succeeded {
        users := Lists.WithoutKey(users, id, UserId);
        userToDelete := None;
        showDeleteModal := false;
        error := None;
      } else {
        CloseDeleteModal();
        error := Some(DeleteFailed);
      }
    }

    /** The form's `onSave`: while editing, the saved user replaces every
        user with its id; otherwise it is appended. The branch follows
        `editingUser`, not whether the id is already listed. The form is then
        closed and the error cleared. */
    method HandleSave(saved: User)
      modifies this
      ensures old(editingUser).Some? ==> users == Lists.ReplaceKey(old(users), saved, UserId)
      ensures old(editingUser).None? ==> users == old(users) + [saved]
      ensures !showUserForm && editingUser == None && error == None
      ensures loading == old(loading) && showDeleteModal == old(showDeleteModal) && userToDelete == old(userToDelete)
      ensures !ShowsForm() && HeaderLabel() == "Add User"
    {
      if editingUser.Some? {
        users := Lists.ReplaceKey(users, saved, UserId);
      } else {
        users := users + [saved];
      }
      showUserForm := false;
      editingUser := None;
      error := None;
    }

    /** Opens the form, for `user` or for a new user. */
    method OpenUserForm(user: Option<User>)
      modifies this
      ensures editingUser == user && showUserForm
      ensures users == old(users) && loading == old(loading) && error == old(error)
      ensures showDeleteModal == old(showDeleteModal) && userToDelete == old(userToDelete)
      ensures HeaderLabel() == "Cancel" && (ShowsForm() <==> !loading)
    {
      editingUser := user;
      showUserForm := true;
    }

    method CloseUserForm()
      modifies this
      ensures editingUser == None && !showUserForm
      ensures users == old(users) && loading == old(loading) && error == old(error)
      ensures showDeleteModal == old(showDeleteModal) && userToDelete == old(userToDelete)
      ensures !ShowsForm() && HeaderLabel() == "Add User"
    {
      editingUser := None;
      showUserForm := false;
    }

    method OpenDeleteModal(user: User)
      modifies this
      ensures userToDelete == Some(user) && showDeleteModal
      ensures users == old(users) && loading == old(loading) && error == old(error)
      ensures showUserForm == old(showUserForm) && editingUser == old(editingUser)
      ensures ShowsDeleteModal() <==> !loading
    {
      userToDelete := Some(user);
      showDeleteModal := true;
    }

    method CloseDeleteModal()
      modifies this
      ensures userToDelete == None && !showDeleteModal
      ensures users == old(users) && loading == old(loading) && error == old(error)
      ensures showUserForm == old(showUserForm) && editingUser == old(editingUser)
      ensures !ShowsDeleteModal()
    {
      userToDelete := None;
      showDeleteModal := false;
    }

    /** The header button reads 'Cancel' while the form is open, but it
        always opens the form for a new user. */
    function HeaderLabel(): (text: string)
      reads this
      ensures text == "Cancel" <==> showUserForm
      ensures text == "Add User" <==> !showUserForm
    {
      if showUserForm then "Cancel" else "Add User"
    }

    /** The form is rendered only once loading is over. */
    function ShowsForm(): (shown: bool)
      reads this
      ensures shown <==> !loading && showUserForm
    {
      !loading && showUserForm
    }

    /** The delete modal needs a user to ask about. */
    function ShowsDeleteModal(): (shown: bool)
      reads this
      ensures shown <==> !loading && showDeleteModal && userToDelete.Some?
    {
      !loading && showDeleteModal && userToDelete.Some?
    }
  }

  /** A successful delete keeps exactly the other users. */
  lemma DeleteKeepsOthers(users: seq<User>, id: int, u: User)
    ensures u in Lists.WithoutKey(users, id, UserId) <==> u in users && u.id != id
  {
    Lists.WithoutKeyMembers(users, id, UserId, u);
  }

  /** A save while editing keeps the length, puts the saved user wherever
      its id was, and leaves every other position alone. */
  lemma SaveReplacesInPlace(users: seq<User>, saved: User, i: nat)
    requires i < |users|
    ensures |Lists.ReplaceKey(users, saved, UserId)| == |users|
    ensures Lists.ReplaceKey(users, saved, UserId)[i] == if users[i].id == saved.id then saved else users[i]
  {
    Lists.ReplaceKeyAt(users, saved, UserId, i);
  }
}
