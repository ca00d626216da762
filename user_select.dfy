/** The user select: it loads the users once, then offers one option per
    user. Option values are the users' ids written in decimal, and a choice
    is read back with JavaScript's `Number`. */
module UserSelect {
  import opened Common
  import opened Entities
  import opened Numerals

  const LoadFailed: string := "Failed to load users"

  /** `Number(text)` on the texts a select can hand back: the empty text is
      0, an optionally signed run of digits is its integer, and anything else
      is `NaN`, written `None`. */
  function Number(text: string): (r: Option<int>)
    ensures text == "" ==> r == Some(0)
    ensures AllDigits(text) ==> r == Some(DigitsValue(text))
  {
    if text == "" then Some(0) else IntegerText(text)
  }

  /** `Number` reads back every integer its decimal text was made from. */
  lemma DecimalRoundTrip(n: int)
    ensures Number(Decimal(n)) == Some(n)
  {
    DecimalParses(n);
  }

  // ---------------------------------------------------------------------
  // Rendering

  /** The options: a placeholder with the empty value, then one per user in
      list order, valued by id and labelled "username (email)". */
  function Options(users: seq<User>): (opts: seq<(string, string)>)
    ensures |opts| == |users| + 1
    ensures opts[0] == ("", "Select User")
    ensures forall i :: 0 <= i < |users| ==>
              opts[i + 1] == (Decimal(users[i].id), users[i].username + " (" + users[i].email + ")")
  {
    [("", "Select User")] + seq(|users|, i requires 0 <= i < |users| =>
                                  (Decimal(users[i].id), users[i].username + " (" + users[i].email + ")"))
  }

  /** Choosing an option hands `onSelect` the placeholder's 0 or the chosen
      user's id. */
  lemma ChoiceDecodes(users: seq<User>, i: nat)
    requires i < |users| + 1
    ensures Number(Options(users)[i].0) == Some(if i == 0 then 0 else users[i - 1].id)
  {
    if i > 0 {
      DecimalRoundTrip(users[i - 1].id);
    }
  }

  /** The `value` prop the select is given, `selectedUserId || ''`: the
      empty text when no user, or the id 0, is selected. Which option the
      browser then shows is not modelled. */
  function ControlValue(selected: Option<int>): (v: string)
    ensures v == "" <==> selected == None || selected == Some(0)
    ensures v != "" ==> v == Decimal(selected.value)
  {
    match selected
    case None => ""
    case Some(id) => if id == 0 then "" else Decimal(id)
  }

  /** `Number` applied to the `value` prop gives the selected id, 0 for none. */
  lemma ControlValueDecodes(selected: Option<int>)
    ensures Number(ControlValue(selected)) == Some(selected.GetOr(0))
  {
    if selected.Some? && selected.value != 0 {
      DecimalRoundTrip(selected.value);
    }
  }

  class Select {
    var users: seq<User>
    var loading: bool
    var error: Option<string>

    constructor ()
      ensures users == [] && loading && error == None
    {
      users := [];
      loading := true;
      error := None;
    }

    /** The mount effect's fetch has settled; loading is over either way. */
    method FetchSettled(outcome: Outcome<seq<User>>)
      modifies this
      ensures !loading
      ensures outcome.Success? ==> users == outcome.value && error == old(error)
      ensures outcome.Failure? ==> users == old(users) && error == Some(LoadFailed)
      ensures !ShowsLoading() && (ShowsControl() <==> outcome.Success? && old(error).None?)
    {
      match outcome {
        case Success(list) =>
          users := list;
          loading := false;
        case Failure =>
          error := Some(LoadFailed);
          loading := false;
      }
    }

    /** The select control is rendered once loaded and only without error. */
    function ShowsControl(): (shown: bool)
      reads this
      ensures shown <==> !loading && error.None?
    {
      !loading && error == None
    }

    /** The loading text is shown until the fetch settles. */
    function ShowsLoading(): (shown: bool)
      reads this
      ensures shown <==> loading
    {
      loading
    }
  }
}
