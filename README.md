# Users and tasks: a verified model

This project models a small users-and-tasks application in Dafny and proves properties of the model. It covers two layers.

**The Flask back end.**
- Two SQLAlchemy models, `User` and `Task`, with:
  - their field validation (`validate_data`, `validate_user_data`, `validate_task_data`);
  - the record conversions (`to_dict`, `from_dict`, `update_from_dict`);
  - the `handle_database_errors` decorator.
- The ten HTTP handlers: list, get, create, update and delete, for users and for tasks.
- The database is two in-memory tables of rows, each kept in primary-key order, which is the order SQLite returns a table in. A commit enforces the column constraints:
  - an integer primary key;
  - NOT NULL columns;
  - for users, UNIQUE usernames and emails.
- Each handler is specified by a function from the table before the request to the response and the table after it.
- The `Routes.Database` class runs the handlers step by step. Each of its methods is proved to agree with the handler's function.

**The React front end.** These are the five components `UserForm`, `TaskForm`, `UserList`, `TaskList` and `UserSelect`.
- Each component is a class. Its fields are the component's state, and each event handler is a method.
- A handler that awaits an API call takes that call's outcome as a parameter: success with a value, or failure.
- A form's `handleSave` is split at its `await`:
  - `StartSave` validates and returns the call it makes;
  - `FinishSave` takes the outcome and runs the rest, including the `finally` block.
- The conditions the markup renders on (`Heading`, `ShowsPassword`, `ButtonDisabled`, `ButtonLabel`, `HeaderLabel`, `ShowsForm`, `ShowsDeleteModal`, `ShowsControl`, `ShowsLoading`) are plain definitions. What each handler does to them is part of that handler's contract.

## Modules

| file | module | models |
|---|---|---|
| common.dfy | `Common` | `Option`, and the `Outcome` of an API call |
| numerals.dfy | `Numerals` | integers written as decimal text, and read back |
| lists.dfy | `Lists` | the filter-by-id and replace-by-id list updates of the front end |
| models.dfy | `Models` | `rh_test_db/src/models.py` |
| tables.dfy | `Tables` | the tables, how a column stores a value, and the constraints a commit enforces |
| routes.dfy | `Routes` | `rh_test_db/src/routes.py`, and `class Database` |
| entities.dfy | `Entities` | the `User` and `Task` records of the front end |
| user_form.dfy | `UserForm` | `UserForm.tsx` |
| task_form.dfy | `TaskForm` | `TaskForm.tsx` |
| user_list.dfy | `UserList` | `UserList.tsx` |
| task_list.dfy | `TaskList` | `TaskList.tsx` |
| user_select.dfy | `UserSelect` | `UserSelect.tsx` |

## Behaviour the model follows

The model follows the code where the code and the design documentation of the application disagree, or where the code and its tests disagree.

- **Unknown task owner.** `POST /tasks` with a `user_id` that no user has is answered with status 400 and "An error occurred: 404 Not Found: User ID does not exist.", not with a 404.
  - `validate_task_data` raises `NotFound`. That is not a `BadRequest`, so the handler's own `except` does not catch it, and the decorator's generic branch answers it (`PostTaskUnknownOwner`).
- **`get_or_404` misses.** `GET /users/<id>` and `GET /tasks/<id>` on an absent id give status 400 with "An error occurred: 404 Not Found: " followed by werkzeug's default description, for the same reason (`Fetch`).
- **Duplicate tasks.** Tasks have no UNIQUE column, so posting the same task twice succeeds both times (`PostTaskTwice`). The tests expect an integrity error here.
- **Column types.** A commit first binds every value to its column's type, as SQLAlchemy and SQLite do (`Tables.Bind`).
  - The Boolean `completed` column takes only None, True, False, 0 and 1. Any other value raises a `StatementError` at flush time. That is not a `BadRequest`, so the decorator's generic branch answers it: 400 with "An error occurred: (builtins.TypeError) Not a boolean value: 'yes'", or "(builtins.ValueError) Value 2 is not None, True, or False" for an integer (`PostTaskRefusesCompleted`).
  - A 0 or a 1 in `completed` is stored, and echoed, as False or True.
  - A text column stores an integer as its decimal text. So `PUT /users/1` with `{"email": 5}` stores and returns "5" (`UpdateChangesSuppliedFields`, `TextIntegerRoundTrip`). A later PUT with a new username is then checked against the email "5", and is answered "400 Bad Request: Invalid email format." (`InvalidEmail`, `UpdateUserRejectsInvalid`).
  - An integer column stores a numeral string as the integer it denotes.
  - The commit expires the stored object, so every 201 or 200 answer shows the values as their columns store them.
- **Password echo.** `to_dict` returns every column, so `POST /users` echoes the password in its response.
- **Malformed JSON.** `request.get_json()` on undecodable JSON raises `BadRequest`. The decorator answers it with "Malformed JSON".
  - In `create_user` the raise happens before the inner `try`.
  - In `update_user` and `update_task` it happens before the id is looked up, so a malformed body gets this answer even for an absent id.
- **Double decorator.** `create_user` is wrapped by `handle_database_errors` twice. The outer wrapper never changes the inner one's response (`HandleDatabaseErrorsIdempotent`).
- **Undecorated delete.** `delete_user` is not decorated at all.
- **Saving in `UserList`.** `handleSave` branches on whether a user was being edited, not on whether the saved id is already listed. While editing, every row with the saved id is replaced; otherwise the saved user is appended.
- **The 'Cancel' button.** The header button reads 'Cancel' while the form is open, but clicking it still opens the form for a new user (`HeaderLabel`).
- **`UserForm` draft reset.** The draft is reset only when the new `existingUser` is non-null. A change to `null` keeps the draft (`ExistingUserChanged`).
- **`TaskForm` draft.** The draft is taken from the `task` prop on the first render only. A later `task` prop keeps the old draft, and a save then sends it under the new task's id (`TaskChanged`).
- **`TaskList` errors.** A successful fetch, or a successful delete, does not clear an earlier error message.

## Model

| member | source | states |
|---|---|---|
| `Numerals.Digits` | rh-test-app/src/components/UserSelect.tsx:49 | the decimal digits of a natural number are a non-empty run of digits |
| `Numerals.Decimal` | rh-test-app/src/components/UserSelect.tsx:49 | an integer written as text is never empty |
| `Numerals.IntegerText` | rh-test-app/src/components/UserSelect.tsx:45 | a run of digits reads as its value; text that reads as an integer is a run of digits, or one after a sign |
| `Numerals.DigitsRoundTrip` | rh-test-app/src/components/UserSelect.tsx:45-49 | reading back the digits of n gives n |
| `Numerals.DecimalParses` | rh_test_db/src/models.py:45-48 | reading back the decimal text of any integer, negative ones included, gives that integer |
| `Models.Lookup` | rh_test_db/src/routes.py:28 | `data.get(key)` finds the key exactly when some pair has it, and the value it gives comes from such a pair |
| `Models.LookupLast` | rh_test_db/src/routes.py:28 | a key sent more than once takes the value of its last pair, as decoding a JSON object does |
| `Models.Get` | rh_test_db/src/routes.py:28 | `data.get(key)` is None for an absent key, and any other value it gives was sent under that key |
| `Models.Describe` | rh_test_db/src/models.py:103 | `str(e)` of a werkzeug exception starts with its status code (400 or 404) and ends with its description; any other exception's text is its message |
| `Models.CheckField` | rh_test_db/src/models.py:31-39 | a None or '' value raises "`<key>` is required."; the pair passes exactly when it is a non-empty string meeting its key's rule ('@' in an email, username of at least 3 characters, title of at least 5); a failing rule raises its own message; a non-string raises a `TypeError` |
| `Models.FirstError` | rh_test_db/src/models.py:28-39 | the exception `validate_data` raises is always a `BadRequest` or a `TypeError` |
| `Models.ValidateData` | rh_test_db/src/models.py:28-39 | the loop over the keyword arguments, stopping at the first failure, returns the first failing field's exception |
| `Models.FirstErrorIsFirstFailure` | rh_test_db/src/models.py:31-33 | when every earlier field passes, the first failing field decides the exception; no later field is looked at |
| `Models.FirstErrorNoneIffAllPass` | rh_test_db/src/models.py:31-39 | validation passes if and only if every field passes its checks |
| `Models.ValidateUserData` | rh_test_db/src/models.py:55-58 | passes iff the username is a string of at least 3 characters and the email a string containing '@'; a missing username gives "username is required." whatever the email is; the username is checked before the email |
| `Models.InvalidEmail` | rh_test_db/src/models.py:34-35 | a good username with a non-empty email lacking '@' fails with 'Invalid email format.' |
| `Models.FindRow` | rh_test_db/src/routes.py:50 | `Model.query.get(id)` finds a row with that id, and finds none exactly when no row has it |
| `Models.ValidateTaskData` | rh_test_db/src/models.py:81-87 | passes iff the title is a string of at least 5 characters and the owner id is that of a stored user; the title is checked first; if the title passes, any failure is `NotFound('User ID does not exist.')` |
| `Models.UnknownOwner` | rh_test_db/src/models.py:85-87 | a good title with an owner id no stored user has raises `NotFound('User ID does not exist.')` |
| `Models.SetAttribute` | rh_test_db/src/models.py:25-26 | `setattr` guarded by `hasattr` keeps the same columns; it sets the named column, leaves every other column alone, and ignores a key that is not a column |
| `Models.Merged` | rh_test_db/src/models.py:22-26 | a merge never adds or drops a column |
| `Models.UpdateFromDict` | rh_test_db/src/models.py:22-26 | the `setattr` loop over `data`, guarded by `hasattr`, ends in the merged row |
| `Models.MergedAt` | rh_test_db/src/models.py:22-26 | a merge keeps the same columns; each column takes the value `data` supplies for it and keeps its old value otherwise; unknown keys are ignored |
| `Models.UserUpdate` | rh_test_db/src/models.py:60-64 | the user update raises only when a username is supplied, and then a `BadRequest` or a `TypeError`; when it succeeds the columns are the same and a supplied username is a string of at least 3 characters |
| `Models.UserUpdateFromDict` | rh_test_db/src/models.py:60-64 | validation runs only when 'username' is in `data`, pairing the new username with the stored email; it raises exactly when that validation fails, leaving the row untouched; otherwise the row is merged; the method computes `UserUpdate` |
| `Models.ToDict` | rh_test_db/src/models.py:13-15 | one (name, value) entry per column, in column order, each holding the row's value |
| `Models.ToDictLookup` | rh_test_db/src/models.py:13-15 | reading `to_dict` as a dictionary gives the row's value for every column and nothing for any other key |
| `Models.FirstUnknownKey` | rh_test_db/src/models.py:17-20 | finds no key exactly when every key of `data` names a column; a key it finds is not a column and occurs in `data` |
| `Models.FromDict` | rh_test_db/src/models.py:17-20 | `cls(**data)` succeeds iff every key names a column; it then gives a row with every column, holding `data.get(column)`; otherwise it raises a `TypeError` |
| `Models.FromDictToDict` | rh_test_db/src/models.py:13-20 | `from_dict(to_dict(row))` rebuilds the row exactly |
| `Models.HandleDatabaseErrors` | rh_test_db/src/models.py:91-105 | a normal response passes through unchanged; an `IntegrityError` gives 400 'Database integrity error'; a `BadRequest` gives 400 'Malformed JSON'; any other exception, a bind-time `StatementError` included, gives 400 'An error occurred: ' followed by its text |
| `Models.HandleDatabaseErrorsIdempotent` | rh_test_db/src/routes.py:21-24 | wrapping the decorated handler a second time gives the same response |
| `Tables.SettledIsFixedPoint` | rh_test_db/src/models.py:70-74 | the values a column holds are exactly the values it accepts and stores unchanged |
| `Tables.BoundSettles` | rh_test_db/src/models.py:70-74 | storing a value the column accepts gives a value the column holds, and storing that again changes nothing |
| `Tables.TextIntegerRoundTrip` | rh_test_db/src/models.py:45-47 | an integer stored in a text column, and copied into an integer column, comes back as the same integer |
| `Tables.Bind` | rh_test_db/src/models.py:70-74 | binding a row to its columns fails iff some value is refused, which only a task's Boolean `completed` can do (anything but None, a bool, 0 or 1), and then raises the `StatementError` naming that value; otherwise every column is converted as it stores values, and every value of the result is one its column holds |
| `Tables.BindSettled` | rh_test_db/src/models.py:42-74 | a row read back from the table binds to itself |
| `Tables.BindBesideId` | rh_test_db/src/models.py:70 | two rows that differ only in the primary key bind alike except in the primary key |
| `Tables.BindMerged` | rh_test_db/src/models.py:22-26 | after a merge, each supplied column holds its supplied value as the column stores it, and every other column keeps its stored value |
| `Tables.InsertSorted` | rh_test_db/src/routes.py:30-31 | the stored row goes into the table: one more row, and the multiset of rows grows by exactly that row |
| `Tables.InsertSortedMembers` | rh_test_db/src/routes.py:30-31 | after the insert, the table's rows are exactly the old rows and the new one |
| `Tables.InsertSortedAscending` | rh_test_db/src/routes.py:30-31 | inserting a row whose id is new keeps the table in primary-key order |
| `Tables.InsertLargest` | rh_test_db/src/models.py:45 | a row with an id above every stored id is stored last |
| `Tables.InsertKeepsTableOk` | rh_test_db/src/models.py:45-47 | admitting a row that passes the constraints keeps every table invariant: key order, rows holding their columns' types, no duplicate in a UNIQUE column |
| `Tables.Insert` | rh_test_db/src/models.py:45-74 | a commit succeeds iff the row binds to its columns and the bound row passes its constraints (an integer id not yet used, NOT NULL columns filled, no clash with a stored row in a UNIQUE column); success keeps the invariants and adds exactly the bound row; failure is the binding's `StatementError`, or an `IntegrityError` |
| `Tables.NextId` | rh_test_db/src/models.py:45 | the id SQLite gives a row inserted without one is above every stored id, and is 1 in an empty table |
| `Tables.RemoveAt` | rh_test_db/src/routes.py:76-77 | deleting a row drops that position and keeps every other row in order |
| `Tables.RemoveKeepsTableOk` | rh_test_db/src/routes.py:139-140 | a delete keeps the table invariants and leaves no row with the deleted id |
| `Tables.RemoveAtIsFilter` | rh_test_db/src/routes.py:68-77 | in a table ordered by key, deleting the row found by id is the same as keeping every row with another id |
| `Tables.ReinsertAt` | rh_test_db/src/routes.py:57-58 | committing an updated row that keeps its id puts it back at the same position |
| `Routes.Page` | rh_test_db/src/routes.py:17 | `limit(l).offset(o)`: skips max(0, o) rows, then takes l rows (all of them if l is negative); gives the length and the row at each position; every row of a page is a stored row |
| `Routes.PageAt` | rh_test_db/src/routes.py:88 | the k-th row of a page is the stored row k places after the offset |
| `Routes.PagesTile` | rh_test_db/src/routes.py:14-17 | two consecutive pages of one size are the page of twice that size: no gap and no overlap |
| `Routes.Records` | rh_test_db/src/routes.py:18 | the JSON list holds one record per row, in order, each being that row's `to_dict` |
| `Routes.RecordAt` | rh_test_db/src/routes.py:89 | each record of a listing reads back as its row |
| `Routes.Guard` | rh_test_db/src/models.py:94-103 | the decorator passes a normal result through; an exception becomes a 400 error answer and the rollback leaves the table as it was |
| `Routes.List` | rh_test_db/src/routes.py:10-18 | a listing is always a 200 with a list of records; its length is min(limit, max(0, n − offset)), or all that remain for a negative limit; with no arguments it is min(10, n) |
| `Routes.ListIsPage` | rh_test_db/src/routes.py:81-89 | the k-th record of a listing is the stored row at position offset + k |
| `Routes.Fetch` | rh_test_db/src/routes.py:37-42 | a get answers 200 iff a row has the id, and then with a record; otherwise 400 with the generic message around `get_or_404`'s `NotFound` |
| `Routes.FetchFinds` | rh_test_db/src/routes.py:107-112 | the record of a successful get reads back as a stored row with the requested id |
| `Routes.WithDefaults` | rh_test_db/src/models.py:70-73 | the INSERT gives a new id when none was sent, and `completed = False` to a task sent with a null or no `completed`; it changes no other column |
| `Routes.Store` | rh_test_db/src/routes.py:29-32 | an add and commit that succeed answer 201 and leave the table valid; a failed one raises a `TypeError` from `from_dict`, a `StatementError` from the binding, or an `IntegrityError` from the commit |
| `Routes.StoreOutcome` | rh_test_db/src/routes.py:29-32 | add and commit succeed iff `from_dict` accepts the payload and the commit admits the row with its defaults; then the answer is 201 with the record of the row as stored, and that row takes its place by key; a failure raises the commit's exception |
| `Routes.PostUserBody` | rh_test_db/src/routes.py:27-34 | no `BadRequest` escapes `create_user`'s own `except`; an answer other than 201 is a 400 that leaves the table as it was |
| `Routes.PostUser` | rh_test_db/src/routes.py:21-34 | every answer to `POST /users` leaves the user table valid |
| `Routes.PostTaskBody` | rh_test_db/src/routes.py:95-104 | no `BadRequest` escapes `create_task`'s own `except`; an answer other than 201 is a 400 that leaves the table as it was |
| `Routes.PostTask` | rh_test_db/src/routes.py:92-104 | every answer to `POST /tasks` leaves the tasks table valid |
| `Routes.Change` | rh_test_db/src/models.py:60-64 | `update_from_dict` keeps the row's columns; only the user update can raise, and then a `BadRequest` or a `TypeError` |
| `Routes.UpdateBody` | rh_test_db/src/routes.py:56-61 | no `BadRequest` escapes `update_user`'s own `except`; an answer other than 200 is a 400 that leaves the table as it was |
| `Routes.Update` | rh_test_db/src/routes.py:45-61 | every answer to PUT leaves the table valid |
| `Routes.Delete` | rh_test_db/src/routes.py:64-78 | every answer to DELETE leaves the table valid |
| `Routes.PostUserRejectsInvalid` | rh_test_db/src/routes.py:27-34 | a payload that fails validation gets 400 and stores nothing: a `BadRequest` gives "400 Bad Request: " followed by its message; a `TypeError` gives the generic message |
| `Routes.MissingUsernameReported` | rh_test_db/src/models.py:56-58 | a payload without a username gets 400 "400 Bad Request: username is required." whatever its email is |
| `Routes.InvalidEmailReported` | rh_test_db/src/routes.py:33-34 | a good username with a non-empty email lacking '@' gets 400 "400 Bad Request: Invalid email format." and stores nothing |
| `Routes.StoredRecord` | rh_test_db/src/routes.py:32 | the record returned for a stored row reads back as that row, and holds every submitted column the INSERT does not fill in, as its column stores it |
| `Routes.StoredCompleted` | rh_test_db/src/models.py:73 | a task sent with a null or no `completed` is stored and returned with `False`; one sent with it gets the bool the value stands for |
| `Routes.BoundCompleted` | rh_test_db/src/models.py:73 | the stored task's `completed` is the column default False, or the bool the value sent stands for |
| `Routes.PostUserStatus` | rh_test_db/src/routes.py:26-34 | `POST /users` answers 201 iff validation, the keyword check and the commit (binding and constraints) all pass; any other answer is a 400 that leaves the table as it was |
| `Routes.PostUserStored` | rh_test_db/src/routes.py:29-32 | when everything passes, the answer is 201 with the record of the payload plus its defaults as stored, and that row is added by key |
| `Routes.PostUserSucceeds` | rh_test_db/src/routes.py:28-32 | a 201 from `POST /users` echoes the submitted username and email, and the table grows by exactly the returned row |
| `Routes.DuplicateRefused` | rh_test_db/src/models.py:46-47 | a user repeating a stored username or email clashes with that row, so the commit raises an `IntegrityError` |
| `Routes.PostUserDuplicate` | rh_test_db/src/models.py:96-98 | a valid user whose username or email is already stored gets 400 'Database integrity error', and the table is unchanged |
| `Routes.PostUserAppends` | rh_test_db/src/routes.py:29-31 | a user posted without an id gets the next id and is stored last |
| `Routes.ConsecutiveIds` | rh_test_db/src/routes.py:30-32 | two users posted one after the other without ids get consecutive ids |
| `Routes.SequentialIds` | rh_test_db/src/routes.py:31-32 | the first two users posted to an empty table get ids 1 and 2 |
| `Routes.UpdateAbsent` | rh_test_db/src/routes.py:50-54 | a PUT with a decodable body answers 404 iff no row has the id; its answer is then 'User not found' or 'Task not found', and the table is unchanged |
| `Routes.UpdateStatus` | rh_test_db/src/routes.py:45-61 | a PUT on a stored row answers 200 iff `update_from_dict` accepts the data, the changed row binds to its columns and the commit admits it in place of the old row; then the answer is the record of the row as stored; any other answer is a 400 that leaves the table as it was |
| `Routes.UpdateChangesSuppliedFields` | rh_test_db/src/routes.py:56-59 | a PUT that passes and sends no id changes exactly the supplied columns of that one row, each to the value its column stores, keeps the row's position, and answers 200 with a record that reads back as the new row |
| `Routes.UpdateUserRejectsInvalid` | rh_test_db/src/routes.py:60-61 | a PUT /users whose new username fails validation against the stored email gets 400 with the validation message, and the table is unchanged |
| `Routes.DeleteRemovesExactly` | rh_test_db/src/routes.py:68-78 | DELETE leaves exactly the rows with another id, in order; it answers 200 with the deleted message iff some row had the id, and 404 with the not-found message otherwise |
| `Routes.PostTaskUnknownOwner` | rh_test_db/src/models.py:85-87 | a task with a good title and an unknown owner gets 400 "An error occurred: 404 Not Found: User ID does not exist.", and the table is unchanged |
| `Routes.PostTaskStatus` | rh_test_db/src/routes.py:96-104 | `POST /tasks` answers 201 iff the title checks, the owner lookup, the keyword check and the commit (binding and constraints) pass; any other answer is a 400 that leaves the table as it was |
| `Routes.PostTaskStored` | rh_test_db/src/routes.py:99-102 | when everything passes, the answer is 201 with the record of the payload plus its defaults as stored, and that task is added by key |
| `Routes.PostTaskSucceeds` | rh_test_db/src/routes.py:98-102 | a 201 from `POST /tasks` echoes the title and the owner, shows `completed` as False when none was sent and as the bool a 0 or 1 stands for, and the table grows by exactly the returned row |
| `Routes.StoredTaskRecord` | rh_test_db/src/routes.py:99-102 | the record of a stored task echoes a string title and an integer owner, and shows its `completed` as stored |
| `Routes.StoreRefusesCompleted` | rh_test_db/src/models.py:73 | a task whose `completed` is not None, a bool, 0 or 1 is refused with the `StatementError` naming that value, before any constraint is checked |
| `Routes.PostTaskRefusesCompleted` | rh_test_db/src/models.py:101-103 | a valid task whose `completed` is not None, a bool, 0 or 1 gets 400 "An error occurred: " followed by the `StatementError`'s text, and nothing is stored |
| `Routes.TaskAdmittedAgain` | rh_test_db/src/models.py:70-74 | a task stored with a generated id is admitted again as a new row, since no task column is UNIQUE |
| `Routes.NextIdAdmitted` | rh_test_db/src/models.py:70-74 | a valid task row that takes the next id is admitted to the table |
| `Routes.WithDefaultsBesideId` | rh_test_db/src/models.py:70 | the defaults two tables give one row differ at most in the id |
| `Routes.PostTaskTwice` | rh_test_db/src/routes.py:99-101 | posting the same task twice without an id succeeds both times |
| `Routes.Database.constructor` | rh_test_db/src/models.py:42-74 | the tables start empty and valid |
| `Routes.Database.Put` | rh_test_db/src/routes.py:31 | a commit replaces one table and leaves the other alone |
| `Routes.Database.Add` | rh_test_db/src/routes.py:29-32 | `from_dict`, add and commit, run step by step, and the record read back from the stored row give the answer and the table that `Store` prescribes, with the decorator applied to an exception; the tables stay valid |
| `Routes.Database.Replace` | rh_test_db/src/routes.py:115-128 | the update handler run step by step (decode, look up, `update_from_dict`, commit, read back) gives the answer and the table `Update` prescribes |
| `Routes.Database.Remove` | rh_test_db/src/routes.py:131-141 | the delete handler run step by step gives the answer and the table `Delete` prescribes |
| `Routes.Database.GetUsers` | rh_test_db/src/routes.py:10-18 | `GET /users` answers the listing of the user table |
| `Routes.Database.CreateUser` | rh_test_db/src/routes.py:24-34 | `create_user` run step by step (the validation loop first, then the insert) agrees with `PostUser`; the tasks table is untouched |
| `Routes.Database.GetUser` | rh_test_db/src/routes.py:39-42 | `GET /users/<id>` answers as `Fetch` on the user table |
| `Routes.Database.UpdateUser` | rh_test_db/src/routes.py:47-61 | `PUT /users/<id>` agrees with `Update` on the user table; the tasks table is untouched |
| `Routes.Database.DeleteUser` | rh_test_db/src/routes.py:65-78 | `DELETE /users/<id>` agrees with `Delete` on the user table; the tasks table is untouched |
| `Routes.Database.GetTasks` | rh_test_db/src/routes.py:81-89 | `GET /tasks` answers the listing of the tasks table |
| `Routes.Database.CreateTask` | rh_test_db/src/routes.py:94-104 | `create_task` run step by step (the title loop, the owner lookup, the insert) agrees with `PostTask`; the user table is untouched |
| `Routes.Database.GetTask` | rh_test_db/src/routes.py:109-112 | `GET /tasks/<id>` answers as `Fetch` on the tasks table |
| `Routes.Database.UpdateTask` | rh_test_db/src/routes.py:117-128 | `PUT /tasks/<id>` agrees with `Update` on the tasks table; the user table is untouched |
| `Routes.Database.DeleteTask` | rh_test_db/src/routes.py:133-141 | `DELETE /tasks/<id>` agrees with `Delete` on the tasks table; the user table is untouched |
| `Lists.WithoutKey` | rh-test-app/src/components/TaskList.tsx:37 | filtering by id never lengthens the list |
| `Lists.ReplaceKey` | rh-test-app/src/components/UserList.tsx:53 | replacing by id keeps the length |
| `Lists.WithoutKeyMembers` | rh-test-app/src/components/UserList.tsx:41 | an element survives the filter iff it was in the list and has another id |
| `Lists.WithoutKeyAppend` | rh-test-app/src/components/TaskList.tsx:37 | the filter distributes over concatenation, so the survivors keep their order |
| `Lists.WithoutKeyLength` | rh-test-app/src/components/TaskList.tsx:37 | the filter drops exactly as many elements as carry the id |
| `Lists.WithoutAbsentKey` | rh-test-app/src/components/UserList.tsx:41 | filtering an id no element has changes nothing |
| `Lists.ReplaceKeyAt` | rh-test-app/src/components/UserList.tsx:53 | after the replace, a position with the saved id holds the saved element and every other position is unchanged |
| `Lists.ReplaceKeyKeepsOthers` | rh-test-app/src/components/UserList.tsx:53 | apart from the elements with the saved id, the list is the one before the replace |
| `UserForm.Validate` | rh-test-app/src/components/UserForm.tsx:34-37 | each message is present iff its field is empty, the password one only when no user is edited; there are no other messages, and they come in the order username, email, password |
| `UserForm.ValidatePasses` | rh-test-app/src/components/UserForm.tsx:39-42 | validation passes iff username and email are filled in, and a password too when creating |
| `UserForm.SaveCall` | rh-test-app/src/components/UserForm.tsx:47-53 | editing calls update with the edited user's id, username and email (no password); creating calls create with username, email and password |
| `UserForm.Form.constructor` | rh-test-app/src/components/UserForm.tsx:19-23 | the draft starts from the edited user's username and email, or empty; no password, no messages, not loading |
| `UserForm.Form.ExistingUserChanged` | rh-test-app/src/components/UserForm.tsx:25-30 | a new non-null user resets username and email to its own; a null one leaves the draft; nothing else changes; the heading reads 'Edit User' and the password input is hidden iff the new prop is a user |
| `UserForm.Form.EditUsername` | rh-test-app/src/components/UserForm.tsx:84 | sets the username only; the password input and the button label stay as they were |
| `UserForm.Form.EditEmail` | rh-test-app/src/components/UserForm.tsx:90 | sets the email only; the password input and the button label stay as they were |
| `UserForm.Form.EditPassword` | rh-test-app/src/components/UserForm.tsx:97 | sets the password only; the password input and the button label stay as they were |
| `UserForm.Form.StartSave` | rh-test-app/src/components/UserForm.tsx:32-53 | failed validation replaces the messages, makes no call and leaves `loading` and the button; passing validation raises `loading`, which disables the button and labels it 'Saving...', keeps the messages and makes the call for the mode; the draft, the heading and the password input are unchanged |
| `UserForm.Form.FinishSave` | rh-test-app/src/components/UserForm.tsx:54-65 | success reports the returned user, then closes, and clears the draft and the messages; failure sets the one save message, makes no callback and keeps the draft; either way `loading` is false, so the button is enabled and no longer reads 'Saving...', and the heading and password input are unchanged |
| `TaskForm.InitialDraft` | rh-test-app/src/components/TaskForm.tsx:21-24 | no task gives ('', '', false, 0); a task gives its title and owner, and its description and completion or their empty values |
| `TaskForm.Validate` | rh-test-app/src/components/TaskForm.tsx:30-35 | 'title' is reported iff the title is empty and 'userId' iff the owner is 0, each with its fixed message; both can appear, and nothing else is reported |
| `TaskForm.ValidatePasses` | rh-test-app/src/components/TaskForm.tsx:39 | validation passes iff there is a title and an owner |
| `TaskForm.SaveCall` | rh-test-app/src/components/TaskForm.tsx:47-51 | editing calls update with the edited task's id, title, description and completion (no owner); creating calls create with title, description and owner |
| `TaskForm.Form.constructor` | rh-test-app/src/components/TaskForm.tsx:21-28 | the draft is the initial draft of the `task` prop; no messages, not loading, no save error |
| `TaskForm.Form.TaskChanged` | rh-test-app/src/components/TaskForm.tsx:20-24 | a new `task` prop is taken but the draft, the messages, `loading` and the save error all stay as they were, so a later save sends the old draft under the new task's id |
| `TaskForm.Form.EditTitle` | rh-test-app/src/components/TaskForm.tsx:69 | sets the title only |
| `TaskForm.Form.EditDescription` | rh-test-app/src/components/TaskForm.tsx:75 | sets the description only |
| `TaskForm.Form.ToggleCompleted` | rh-test-app/src/components/TaskForm.tsx:82 | flips the completion flag only |
| `TaskForm.Form.SelectUser` | rh-test-app/src/components/TaskForm.tsx:85 | sets the owner only |
| `TaskForm.Form.CollectErrors` | rh-test-app/src/components/TaskForm.tsx:31-34 | filling the dictionary field by field gives the validation messages |
| `TaskForm.Form.StartSave` | rh-test-app/src/components/TaskForm.tsx:37-51 | failed validation replaces the messages and makes no call, leaving `loading`, the save error and the button label; passing validation keeps the old messages, raises `loading` so the button reads 'Saving...', clears the save error and makes the call for the mode |
| `TaskForm.Form.FinishSave` | rh-test-app/src/components/TaskForm.tsx:52-59 | success calls `onSave` then `onClose`; failure sets 'Error saving task.' and calls neither; `loading` is false either way, so the button reads 'Save' again, and the draft is kept |
| `UserList.List.constructor` | rh-test-app/src/components/UserList.tsx:13-19 | no users, no form, no modal, no error, loading |
| `UserList.List.FetchSettled` | rh-test-app/src/components/UserList.tsx:21-36 | success takes the list and clears the error; failure sets 'Failed to load users' and keeps the list; loading ends either way, so the form is rendered iff it was open, and the modal iff it was open with a user to ask about |
| `UserList.List.HandleDelete` | rh-test-app/src/components/UserList.tsx:38-49 | success drops exactly the users with the id and clears the error; failure keeps the list and sets 'Unable to delete user'; the modal is closed and no longer rendered either way, and the form is rendered as before |
| `UserList.List.HandleSave` | rh-test-app/src/components/UserList.tsx:51-60 | while editing, the saved user replaces those with its id; otherwise it is appended; then the form is closed, not rendered, the header button reads 'Add User', and the error is cleared |
| `UserList.List.OpenUserForm` | rh-test-app/src/components/UserList.tsx:62-65 | shows the form for the given user or a new one, rendered once loading is over; the header button reads 'Cancel'; the users are untouched |
| `UserList.List.CloseUserForm` | rh-test-app/src/components/UserList.tsx:67-70 | hides the form and forgets the edited user, and the header button reads 'Add User'; the users are untouched |
| `UserList.List.OpenDeleteModal` | rh-test-app/src/components/UserList.tsx:72-75 | asks about the given user, and the modal is rendered iff loading is over; the users are untouched |
| `UserList.List.CloseDeleteModal` | rh-test-app/src/components/UserList.tsx:77-80 | closes the modal, which is no longer rendered, and forgets the user; the users are untouched |
| `UserList.DeleteKeepsOthers` | rh-test-app/src/components/UserList.tsx:41 | after a successful delete, a user is listed iff it was listed and has another id |
| `UserList.SaveReplacesInPlace` | rh-test-app/src/components/UserList.tsx:53 | a save while editing keeps the length, puts the saved user where its id was, and leaves every other position alone |
| `TaskList.List.constructor` | rh-test-app/src/components/TaskList.tsx:15-18 | no tasks, no form, no edited task, no error |
| `TaskList.List.FetchSettled` | rh-test-app/src/components/TaskList.tsx:20-32 | success takes the list and keeps the error as it was; failure sets 'Failed to load tasks' and keeps the list |
| `TaskList.List.HandleDelete` | rh-test-app/src/components/TaskList.tsx:34-43 | success drops exactly the tasks with the id and keeps any error; failure keeps the list and sets 'Unable to delete task' |
| `TaskList.List.HandleSave` | rh-test-app/src/components/TaskList.tsx:45-46 | hides the form and changes nothing else |
| `TaskList.List.RefetchSettled` | rh-test-app/src/components/TaskList.tsx:47-55 | a successful refetch replaces the list wholesale; a failed one changes nothing |
| `TaskList.List.OpenTaskForm` | rh-test-app/src/components/TaskList.tsx:58-61 | shows the form for the given task or a new one; the tasks are untouched |
| `TaskList.List.CloseTaskForm` | rh-test-app/src/components/TaskList.tsx:63-66 | hides the form and forgets the edited task; the tasks are untouched |
| `TaskList.DeleteKeepsOthers` | rh-test-app/src/components/TaskList.tsx:37 | a task survives a delete iff it has another id, and the filter keeps the order of the rest |
| `UserSelect.Number` | rh-test-app/src/components/UserSelect.tsx:45 | `Number('')` is 0, and a run of digits reads as its value |
| `UserSelect.DecimalRoundTrip` | rh-test-app/src/components/UserSelect.tsx:44-49 | `Number` reads back every integer from its option value |
| `UserSelect.Options` | rh-test-app/src/components/UserSelect.tsx:47-52 | users + 1 options: first ('', 'Select User'), then one per user in order, valued by id and labelled "username (email)" |
| `UserSelect.ChoiceDecodes` | rh-test-app/src/components/UserSelect.tsx:45-52 | choosing the placeholder hands `onSelect` the value 0; choosing a user's option hands it that user's id |
| `UserSelect.ControlValue` | rh-test-app/src/components/UserSelect.tsx:44 | the `value` prop, the selected id or '' when that is falsy, is the empty text iff no id, or the id 0, is selected, and otherwise the selected id's decimal text |
| `UserSelect.ControlValueDecodes` | rh-test-app/src/components/UserSelect.tsx:44-45 | `Number` applied to the `value` prop gives the selected id, or 0 when none is selected |
| `UserSelect.Select.constructor` | rh-test-app/src/components/UserSelect.tsx:17-19 | no users, loading, no error |
| `UserSelect.Select.FetchSettled` | rh-test-app/src/components/UserSelect.tsx:21-35 | success takes the list; failure sets 'Failed to load users'; loading ends either way, so the loading text goes, and the control is rendered iff the fetch succeeded with no earlier error |

## Left out

- **HTTP and the ORM.** Flask routing, werkzeug's JSON parser, the SQLAlchemy session and SQLite itself are not modelled. Requests and tables are values; a commit is the constraint check in `Tables.Insert`; a rollback keeps the table as it was.
- **Request bodies.** Only JSON objects and undecodable text are modelled. A body that decodes to something other than an object (`null`, a list, a string) is not. Neither is a request that is not JSON, which the framework answers with 415.
- **JSON values.** These are None, strings, integers and booleans. Floats, lists and nested objects are not modelled.
- **Models.ValidateTaskData:** an owner matches only as a JSON integer. `User.query.get` would also coerce a numeric string, a boolean or a float; that coercion is not modelled.
- **Column lengths.** SQLite does not enforce the declared `String(150)` and `String(100)` lengths, and neither does the model.
- **Tables.Bound:** SQLite's conversions are modelled only for integers, numeral strings and bools. Text with surrounding white space or in real-number form (`'3.0'`, `'1e2'`) stays text in an integer column here, and integers beyond 64 bits are not modelled.
- **Tables.BooleanRefusal:** gives only the first line of the `StatementError`'s text. The lines with the SQL statement, its parameters and the link to SQLAlchemy's error page are left out.
- **Models.Repr:** does not escape quotes or backslashes inside a string, and does not switch to double quotes as Python's `repr` does for a string holding a single quote.
- **`hasattr` and non-column attributes.** `hasattr` in `update_from_dict`, and the keyword check of `from_dict`, see only the table columns. Relationship attributes (`User.tasks`, `Task.owner`) and methods also answer `hasattr`; they are not modelled.
- **Routes.Delete:** deleting a user who owns tasks is not modelled. The ORM would set those tasks' `user_id` to NULL, the NOT NULL constraint would refuse the commit, and the exception would escape the undecorated `delete_user` as a server error. The tasks table is not linked to the user table here.
- **UserSelect.Number:** models JavaScript's `Number` only on the empty text and on a run of decimal digits, optionally after a '-' or a '+'. Surrounding white space, exponents, hexadecimal and fractions all read as `NaN` here.
- **UserSelect.ControlValue:** the model gives the `value` prop, not the option the browser shows. For an id that matches no loaded option, such as an owner missing from the list, the browser shows the first option, 'Select User', and the control then reads back as 0.
- **Numerals.Decimal:** ids of 10^21 and above, which JavaScript writes in exponent form, are not modelled.
- **Numbers in the front end.** `NaN` is not modelled as a selected or owner id.
- **React scheduling.** Effects, re-rendering, state batching and stale closures are not modelled. Handlers such as `users.filter(...)` read the closure's state; the model reads the current state. Interleaved requests and updates after unmount are not modelled. Each handler is one atomic step on the current state, taking its API call's outcome as a parameter.
- **The API service.** `api.ts` is not part of this model; each call is its abstract outcome.
- **Bootstrap and composition.** `App.tsx`, the Flask application setup and the configuration are not part of this model.
- **Side effects.** Logging (`console.error`), CSS, and markup beyond the stated render conditions are left out.
