/** The ten HTTP handlers of the back end, over an in-memory copy of the
    two tables. Each handler is specified by a function from the table before
    the request to the response and the table after it; the `Database` class
    runs the handlers step by step and is proved to agree with them. */
module Routes {
  import opened Common
  import opened Models
  import opened Tables

  /** The request body as `request.get_json()` sees it: undecodable JSON, or
      a JSON object. */
  datatype Request = Malformed | Json(data: Dict)

  /** A response together with the table as it stands once the request is over. */
  datatype Step = Step(response: Response, table: seq<Row>)

  /** The pagination defaults of `GET /users` and `GET /tasks`. */
  const DefaultLimit: int := 10
  const DefaultOffset: int := 0

  /** werkzeug's description of a `NotFound` raised without one, as `get_or_404` does. */
  const NotFoundDescription: string :=
    "The requested URL was not found on the server. If you entered the URL manually please check your spelling and try again."

  /** What `request.get_json()` raises on a body that is not valid JSON. */
  const JsonDecodeError: Error := BadRequest("Failed to decode JSON object")

  function NotFoundMessage(t: Table): string {
    match t
    case Users => "User not found"
    case Tasks => "Task not found"
  }

  function DeletedMessage(t: Table): string {
    match t
    case Users => "User deleted successfully."
    case Tasks => "Task deleted successfully."
  }

  function Max(a: int, b: int): int { if a < b then b else a }
  function Min(a: int, b: int): int { if a < b then a else b }

  // ---------------------------------------------------------------------
  // Pagination

  /** `query.limit(limit).offset(offset)` on SQLite: skip `offset` rows (a
      negative offset skips none), then take `limit` rows (a negative limit
      takes all). */
  function Page<T>(rows: seq<T>, limit: int, offset: int): (r: seq<T>)
    ensures |r| == if limit < 0 then Max(0, |rows| - Max(0, offset))
                   else Min(limit, Max(0, |rows| - Max(0, offset)))
    ensures forall i :: 0 <= i < |r| ==> r[i] == rows[Max(0, offset) + i]
    ensures forall x :: x in r ==> x in rows
  {
    var from := Min(Max(0, offset), |rows|);
    var to := if limit < 0 then |rows| else Min(from + limit, |rows|);
    rows[from..to]
  }

  /** The `k`-th row of a page is the row `k` places after the offset. */
  lemma PageAt<T>(rows: seq<T>, limit: int, offset: int, k: nat)
    requires k < |Page(rows, limit, offset)|
    ensures Max(0, offset) + k < |rows| && Page(rows, limit, offset)[k] == rows[Max(0, offset) + k]
  {
  }

  /** Consecutive pages of one size neither overlap nor leave a gap: two of
      them together are the page of twice the size. */
  lemma PagesTile<T>(rows: seq<T>, size: nat, offset: nat)
    ensures Page(rows, size, offset) + Page(rows, size, offset + size) == Page(rows, 2 * size, offset)
  {
    var a, b, c := Page(rows, size, offset), Page(rows, size, offset + size), Page(rows, 2 * size, offset);
    assert |a + b| == |c|;
    forall i | 0 <= i < |c|
      ensures (a + b)[i] == c[i]
    {
      if i < |a| {
        assert (a + b)[i] == a[i];
      } else {
        assert (a + b)[i] == b[i - |a|];
      }
    }
  }

  /** The JSON list of records: `[row.to_dict() for row in rows]`. */
  function Records(t: Table, rows: seq<Row>): (r: seq<Dict>)
    requires forall a :: a in rows ==> WellFormed(t, a)
    ensures |r| == |rows|
    ensures forall k :: 0 <= k < |r| ==> r[k] == ToDict(t, rows[k])
  {
    seq(|rows|, i requires 0 <= i < |rows| => ToDict(t, rows[i]))
  }

  /** Each record of a listing reads back as its row. */
  lemma RecordAt(t: Table, rows: seq<Row>, k: nat)
    requires (forall a :: a in rows ==> WellFormed(t, a)) && k < |rows|
    ensures FromDict(t, Records(t, rows)[k]) == Returned(rows[k])
  {
    assert rows[k] in rows;
    FromDictToDict(t, rows[k]);
  }

  // ---------------------------------------------------------------------
  // Handler specifications

  /** The `handle_database_errors` wrapper around a handler body: an exception
      becomes an error response and the session is rolled back, so the table
      stays as it was. */
  function Guard(a: Attempt<Step>, rows: seq<Row>): (s: Step)
    ensures a.Returned? ==> s == a.value
    ensures a.Raised? ==> s.table == rows && s.response.status == 400 && s.response.body.ErrorBody?
  {
    match a
    case Returned(s) => s
    case Raised(e) => Step(HandleDatabaseErrors(Raised(e)), rows)
  }

  /** `GET /users` and `GET /tasks`: a missing or non-integer query argument
      takes its default. */
  function List(t: Table, rows: seq<Row>, limit: Option<int>, offset: Option<int>): (r: Response)
    requires TableOk(t, rows)
    ensures r.status == 200 && r.body.RecordsBody?
    ensures var l, o := limit.GetOr(DefaultLimit), Max(0, offset.GetOr(DefaultOffset));
            |r.body.records| == if l < 0 then Max(0, |rows| - o) else Min(l, Max(0, |rows| - o))
    ensures limit == None && offset == None ==> |r.body.records| == Min(10, |rows|)
  {
    Response(RecordsBody(Records(t, Page(rows, limit.GetOr(DefaultLimit), offset.GetOr(DefaultOffset)))), 200)
  }

  /** `GET /users/<id>` and `GET /tasks/<id>`: `get_or_404` raises `NotFound`
      for a missing id, and the wrapper turns that into its generic 400. */
  function Fetch(t: Table, rows: seq<Row>, id: int): (r: Response)
    requires TableOk(t, rows)
    ensures r.status == 200 <==> exists j :: 0 <= j < |rows| && RowId(rows[j]) == id
    ensures r.status == 200 ==> r.body.RecordBody?
    ensures r.status != 200 ==>
      r == Response(ErrorBody("An error occurred: " + Describe(NotFound(NotFoundDescription))), 400)
  {
    match FindRow(rows, id)
    case Some(i) =>
      assert rows[i] in rows;
      Response(RecordBody(ToDict(t, rows[i])), 200)
    case None => HandleDatabaseErrors(Raised(NotFound(NotFoundDescription)))
  }

  /** The values the INSERT fills in: the next primary key when the request
      gave none and, for a task, the column default `completed = False`. */
  function WithDefaults(t: Table, rows: seq<Row>, row: Row): (r: Row)
    requires Ascending(rows) && WellFormed(t, row)
    ensures WellFormed(t, r)
    ensures forall c :: c in row && c != "id" && c != "completed" ==> r[c] == row[c]
    ensures r["id"] == if row["id"] == Null then Int(NextId(rows)) else row["id"]
    ensures t == Tasks ==> r["completed"] == if row["completed"] == Null then Bool(false) else row["completed"]
  {
    var withId := if row["id"] == Null then row["id" := Int(NextId(rows))] else row;
    if t == Tasks && withId["completed"] == Null then withId["completed" := Bool(false)] else withId
  }

  /** `Model.from_dict(data)`, `session.add`, `session.commit()` and the 201
      response with the record. The commit expires the object, so the record
      is read back from the row as stored, with its values bound to their
      columns. */
  function Store(t: Table, rows: seq<Row>, data: Dict): (r: Attempt<Step>)
    requires TableOk(t, rows)
    ensures r.Returned? ==> r.value.response.status == 201 && TableOk(t, r.value.table)
    ensures r.Raised? ==> r.error.TypeError? || r.error.IntegrityError? || r.error.StatementError?
  {
    match FromDict(t, data)
    case Raised(e) => Raised(e)
    case Returned(row) =>
      var added := WithDefaults(t, rows, row);
      match Insert(t, rows, added)
      case Raised(e) => Raised(e)
      case Returned(table) => Returned(Step(Response(RecordBody(ToDict(t, Bind(t, added).value)), 201), table))
  }

  /** `Store` adds the decoded payload with its defaults, as the columns
      store it, when the commit admits it, and raises otherwise. */
  lemma StoreOutcome(t: Table, rows: seq<Row>, data: Dict)
    requires TableOk(t, rows)
    ensures Store(t, rows, data).Returned? <==>
            FromDict(t, data).Returned? && Insert(t, rows, WithDefaults(t, rows, FromDict(t, data).value)).Returned?
    ensures Store(t, rows, data).Returned? ==>
            var stored := Bind(t, WithDefaults(t, rows, FromDict(t, data).value)).value;
            Store(t, rows, data).value == Step(Response(RecordBody(ToDict(t, stored)), 201), InsertSorted(rows, stored))
    ensures FromDict(t, data).Returned? && Store(t, rows, data).Raised? ==>
            Store(t, rows, data).error == Insert(t, rows, WithDefaults(t, rows, FromDict(t, data).value)).error
  {
  }

  /** The body of `create_user`; its own `except BadRequest` answers a failed
      validation with the exception's text. */
  function PostUserBody(users: seq<Row>, data: Dict): (r: Attempt<Step>)
    requires TableOk(Users, users)
    ensures r.Raised? ==> !r.error.BadRequest?
    ensures r.Returned? && r.value.response.status != 201 ==>
              r.value.response.status == 400 && r.value.table == users
  {
    var check := ValidateUserData(Get(data, "username"), Get(data, "email"));
    if check.Some? && check.value.BadRequest? then
      Returned(Step(Response(ErrorBody(Describe(check.value)), 400), users))
    else if check.Some? then Raised(check.value)
    else Store(Users, users, data)
  }

  /** `POST /users`. */
  function PostUser(users: seq<Row>, req: Request): (s: Step)
    requires TableOk(Users, users)
    ensures TableOk(Users, s.table)
  {
    match req
    case Malformed => Guard(Raised(JsonDecodeError), users)
    case Json(data) => Guard(PostUserBody(users, data), users)
  }

  /** The body of `create_task`: the title checks (answered as in
      `create_user`), the owner lookup, whose `NotFound` escapes to the
      wrapper, and the insert. */
  function PostTaskBody(users: seq<Row>, tasks: seq<Row>, data: Dict): (r: Attempt<Step>)
    requires TableOk(Tasks, tasks)
    ensures r.Raised? ==> !r.error.BadRequest?
    ensures r.Returned? && r.value.response.status != 201 ==>
              r.value.response.status == 400 && r.value.table == tasks
  {
    var check := ValidateTaskData(Get(data, "title"), Get(data, "user_id"), users);
    if check.Some? && check.value.BadRequest? then
      Returned(Step(Response(ErrorBody(Describe(check.value)), 400), tasks))
    else if check.Some? then Raised(check.value)
    else Store(Tasks, tasks, data)
  }

  /** `POST /tasks`; the table in the result is the tasks table. */
  function PostTask(users: seq<Row>, tasks: seq<Row>, req: Request): (s: Step)
    requires TableOk(Tasks, tasks)
    ensures TableOk(Tasks, s.table)
  {
    match req
    case Malformed => Guard(Raised(JsonDecodeError), tasks)
    case Json(data) => Guard(PostTaskBody(users, tasks, data), tasks)
  }

  /** The model's own `update_from_dict`: users validate a new username,
      tasks take the data as it is. */
  function Change(t: Table, row: Row, data: Dict): (r: Attempt<Row>)
    requires WellFormed(t, row)
    ensures r.Raised? ==> t == Users && (r.error.BadRequest? || r.error.TypeError?)
    ensures r.Returned? ==> r.value.Keys == row.Keys
  {
    if t == Users then UserUpdate(row, data) else Returned(Merged(row, data))
  }

  /** The part of `update_user` / `update_task` after the row was found. */
  function UpdateBody(t: Table, rows: seq<Row>, i: nat, data: Dict): (r: Attempt<Step>)
    requires TableOk(t, rows) && i < |rows|
    ensures r.Raised? ==> !r.error.BadRequest?
    ensures r.Returned? && r.value.response.status != 200 ==>
              r.value.response.status == 400 && r.value.table == rows
  {
    assert rows[i] in rows;
    match Change(t, rows[i], data)
    case Raised(BadRequest(d)) => Returned(Step(Response(ErrorBody(Describe(BadRequest(d))), 400), rows))
    case Raised(e) => Raised(e)
    case Returned(row) =>
      RemoveKeepsTableOk(t, rows, i);
      match Insert(t, RemoveAt(rows, i), row)
      case Raised(e) => Raised(e)
      case Returned(table) => Returned(Step(Response(RecordBody(ToDict(t, Bind(t, row).value)), 200), table))
  }

  /** `PUT /users/<id>` and `PUT /tasks/<id>`: the body is decoded first, then
      a missing id is answered with 404. */
  function Update(t: Table, rows: seq<Row>, id: int, req: Request): (s: Step)
    requires TableOk(t, rows)
    ensures TableOk(t, s.table)
  {
    match req
    case Malformed => Guard(Raised(JsonDecodeError), rows)
    case Json(data) =>
      match FindRow(rows, id)
      case None => Step(Response(ErrorBody(NotFoundMessage(t)), 404), rows)
      case Some(i) => Guard(UpdateBody(t, rows, i, data), rows)
  }

  /** `DELETE /users/<id>` and `DELETE /tasks/<id>`. */
  function Delete(t: Table, rows: seq<Row>, id: int): (s: Step)
    requires TableOk(t, rows)
    ensures TableOk(t, s.table)
  {
    match FindRow(rows, id)
    case None => Step(Response(ErrorBody(NotFoundMessage(t)), 404), rows)
    case Some(i) =>
      RemoveKeepsTableOk(t, rows, i);
      Step(Response(MessageBody(DeletedMessage(t)), 200), RemoveAt(rows, i))
  }

  // ---------------------------------------------------------------------
  // Properties of the handlers

  /** The `k`-th record of a listing is the stored row at position
      `offset + k`, read back through `from_dict`. */
  lemma {:induction false} ListIsPage(t: Table, rows: seq<Row>, limit: Option<int>, offset: Option<int>, k: nat)
    requires TableOk(t, rows)
    requires k < |List(t, rows, limit, offset).body.records|
    ensures var o := Max(0, offset.GetOr(DefaultOffset));
            o + k < |rows| && FromDict(t, List(t, rows, limit, offset).body.records[k]) == Returned(rows[o + k])
  {
    var page := Page(rows, limit.GetOr(DefaultLimit), offset.GetOr(DefaultOffset));
    assert List(t, rows, limit, offset).body.records == Records(t, page);
    PageAt(rows, limit.GetOr(DefaultLimit), offset.GetOr(DefaultOffset), k);
    RecordAt(t, page, k);
  }

  /** A fetch that succeeds returns the stored row with the requested id. */
  lemma FetchFinds(t: Table, rows: seq<Row>, id: int)
    requires TableOk(t, rows)
    requires Fetch(t, rows, id).status == 200
    ensures FromDict(t, Fetch(t, rows, id).body.record).Returned?
    ensures FromDict(t, Fetch(t, rows, id).body.record).value in rows
    ensures RowId(FromDict(t, Fetch(t, rows, id).body.record).value) == id
  {
    var i := FindRow(rows, id).value;
    assert rows[i] in rows;
    FromDictToDict(t, rows[i]);
  }

  /** A POST /users the validator rejects is answered with 400 and stores
      nothing: a failed check reports its own message, and a value that is
      not a string reports Python's `TypeError` behind the generic prefix. */
  lemma PostUserRejectsInvalid(users: seq<Row>, data: Dict)
    requires TableOk(Users, users)
    requires ValidateUserData(Get(data, "username"), Get(data, "email")).Some?
    ensures var e := ValidateUserData(Get(data, "username"), Get(data, "email")).value;
            PostUser(users, Json(data)) == Step(Response(ErrorBody(
              if e.BadRequest? then "400 Bad Request: " + e.description
              else "An error occurred: " + e.message), 400), users)
  {
  }

  /** A payload without a username reports only the username, whatever the
      email is. */
  lemma MissingUsernameReported(users: seq<Row>, data: Dict)
    requires TableOk(Users, users)
    requires Get(data, "username") == Null || Get(data, "username") == Str("")
    ensures PostUser(users, Json(data)) ==
            Step(Response(ErrorBody("400 Bad Request: username is required."), 400), users)
  {
    assert "400 Bad Request: " + "username is required." == "400 Bad Request: username is required.";
  }

  /** A good username with a non-empty email lacking '@' reports the email
      format. */
  lemma InvalidEmailReported(users: seq<Row>, data: Dict)
    requires TableOk(Users, users)
    requires Get(data, "username").Str? && |Get(data, "username").s| >= 3
    requires Get(data, "email").Str? && Get(data, "email").s != "" && '@' !in Get(data, "email").s
    ensures PostUser(users, Json(data)) ==
            Step(Response(ErrorBody(Describe(BadRequest("Invalid email format."))), 400), users)
  {
    InvalidEmail(Get(data, "username"), Get(data, "email"));
  }

  /** A row stored by a POST reads back from its record as itself, and the
      record holds every submitted column the INSERT does not fill in, as
      its column stores it. */
  lemma StoredRecord(t: Table, rows: seq<Row>, data: Dict, c: string)
    requires Ascending(rows) && FromDict(t, data).Returned?
    requires Bind(t, WithDefaults(t, rows, FromDict(t, data).value)).Returned?
    ensures var stored := Bind(t, WithDefaults(t, rows, FromDict(t, data).value)).value;
      && FromDict(t, ToDict(t, stored)) == Returned(stored)
      && (c in Columns(t) && c != "id" && c != "completed" ==>
            Lookup(ToDict(t, stored), c) == Some(Bound(TypeOf(t, c), Get(data, c))))
  {
    var stored := Bind(t, WithDefaults(t, rows, FromDict(t, data).value)).value;
    FromDictToDict(t, stored);
    ToDictLookup(t, stored, c);
  }

  /** A task posted without `completed` is stored with the column default
      `False`; one posted with it keeps the value given, read back as a bool. */
  lemma StoredCompleted(rows: seq<Row>, data: Dict)
    requires Ascending(rows) && FromDict(Tasks, data).Returned?
    requires Bind(Tasks, WithDefaults(Tasks, rows, FromDict(Tasks, data).value)).Returned?
    ensures var stored := Bind(Tasks, WithDefaults(Tasks, rows, FromDict(Tasks, data).value)).value;
      Lookup(ToDict(Tasks, stored), "completed") ==
      Some(if Get(data, "completed") == Null then Bool(false) else Bound(BooleanType, Get(data, "completed")))
  {
    var stored := Bind(Tasks, WithDefaults(Tasks, rows, FromDict(Tasks, data).value)).value;
    BoundCompleted(rows, data);
    ToDictLookup(Tasks, stored, "completed");
  }

  lemma BoundCompleted(rows: seq<Row>, data: Dict)
    requires Ascending(rows) && FromDict(Tasks, data).Returned?
    requires Bind(Tasks, WithDefaults(Tasks, rows, FromDict(Tasks, data).value)).Returned?
    ensures var stored := Bind(Tasks, WithDefaults(Tasks, rows, FromDict(Tasks, data).value)).value;
      "completed" in stored &&
      stored["completed"] == if Get(data, "completed") == Null then Bool(false) else Bound(BooleanType, Get(data, "completed"))
  {
    var decoded := FromDict(Tasks, data).value;
    var added := WithDefaults(Tasks, rows, decoded);
    assert "completed" in Columns(Tasks);
    assert decoded["completed"] == Get(data, "completed");
  }

  /** POST /users answers 201 exactly when validation, the keyword check and
      the commit all pass; any other answer is a 400 that leaves the table
      as it was. */
  lemma PostUserStatus(users: seq<Row>, data: Dict)
    requires TableOk(Users, users)
    ensures PostUser(users, Json(data)).response.status == 201 <==>
      && ValidateUserData(Get(data, "username"), Get(data, "email")).None?
      && FromDict(Users, data).Returned?
      && Insert(Users, users, WithDefaults(Users, users, FromDict(Users, data).value)).Returned?
    ensures PostUser(users, Json(data)).response.status != 201 ==>
      PostUser(users, Json(data)).response.status == 400 && PostUser(users, Json(data)).table == users
  {
    StoreOutcome(Users, users, data);
  }

  /** When everything passes, the stored row is the decoded payload with its
      defaults, as its columns store it, placed by its key, and the answer is
      its record. */
  lemma PostUserStored(users: seq<Row>, data: Dict)
    requires TableOk(Users, users)
    requires ValidateUserData(Get(data, "username"), Get(data, "email")).None?
    requires FromDict(Users, data).Returned?
    requires Insert(Users, users, WithDefaults(Users, users, FromDict(Users, data).value)).Returned?
    ensures var stored := Bind(Users, WithDefaults(Users, users, FromDict(Users, data).value)).value;
            PostUser(users, Json(data)) == Step(Response(RecordBody(ToDict(Users, stored)), 201), InsertSorted(users, stored))
  {
    StoreOutcome(Users, users, data);
    assert PostUserBody(users, data) == Store(Users, users, data);
  }

  /** A 201 from POST /users carries a record that echoes the submitted
      username and email and is the one row added. */
  lemma PostUserSucceeds(users: seq<Row>, data: Dict)
    requires TableOk(Users, users)
    requires PostUser(users, Json(data)).response.status == 201
    ensures var s := PostUser(users, Json(data));
      && s.response.body.RecordBody?
      && Lookup(s.response.body.record, "username") == Some(Get(data, "username"))
      && Lookup(s.response.body.record, "email") == Some(Get(data, "email"))
      && FromDict(Users, s.response.body.record).Returned?
      && multiset(s.table) == multiset(users) + multiset{FromDict(Users, s.response.body.record).value}
  {
    PostUserStatus(users, data);
    PostUserStored(users, data);
    StoredRecord(Users, users, data, "username");
    StoredRecord(Users, users, data, "email");
  }

  /** A posted user that repeats a stored username or email clashes with
      that row, so the commit refuses it. */
  lemma DuplicateRefused(users: seq<Row>, data: Dict, j: nat, c: string)
    requires TableOk(Users, users) && j < |users| && c in UniqueColumns(Users)
    requires FromDict(Users, data).Returned?
    requires c in users[j] && users[j][c] == Get(data, c)
    ensures Insert(Users, users, WithDefaults(Users, users, FromDict(Users, data).value)) == Raised(IntegrityError)
  {
    var added := WithDefaults(Users, users, FromDict(Users, data).value);
    assert c == "username" || c == "email";
    assert users[j] in users;
    var stored := Bind(Users, added).value;
    assert stored[c] == Bound(TextType, Get(data, c));
    assert !Apart(Users, users[j], stored);
  }

  /** A username or an email that is already stored makes the commit fail:
      400 'Database integrity error', and the table as it was. */
  lemma PostUserDuplicate(users: seq<Row>, data: Dict, j: nat, c: string)
    requires TableOk(Users, users) && j < |users| && c in UniqueColumns(Users)
    requires ValidateUserData(Get(data, "username"), Get(data, "email")).None?
    requires FromDict(Users, data).Returned?
    requires c in users[j] && users[j][c] == Get(data, c)
    ensures PostUser(users, Json(data)) ==
            Step(Response(ErrorBody("Database integrity error"), 400), users)
  {
    DuplicateRefused(users, data, j, c);
    assert PostUserBody(users, data) == Store(Users, users, data);
    assert Store(Users, users, data) == Raised(IntegrityError);
  }

  /** A user posted without an id gets the next id and is stored last. */
  lemma PostUserAppends(users: seq<Row>, data: Dict)
    requires TableOk(Users, users) && Get(data, "id") == Null
    requires PostUser(users, Json(data)).response.status == 201
    ensures var s := PostUser(users, Json(data));
      && s.response.body.RecordBody?
      && Lookup(s.response.body.record, "id") == Some(Int(NextId(users)))
      && FromDict(Users, s.response.body.record).Returned?
      && s.table == users + [FromDict(Users, s.response.body.record).value]
  {
    PostUserStatus(users, data);
    PostUserStored(users, data);
    var stored := Bind(Users, WithDefaults(Users, users, FromDict(Users, data).value)).value;
    assert stored["id"] == Int(NextId(users));
    ToDictLookup(Users, stored, "id");
    StoredRecord(Users, users, data, "id");
    InsertLargest(users, stored);
  }

  /** Two users posted in a row without ids get consecutive ids. */
  lemma ConsecutiveIds(users: seq<Row>, first: Dict, second: Dict)
    requires TableOk(Users, users)
    requires Get(first, "id") == Null && Get(second, "id") == Null
    requires PostUser(users, Json(first)).response.status == 201
    requires PostUser(PostUser(users, Json(first)).table, Json(second)).response.status == 201
    ensures PostUser(users, Json(first)).response.body.RecordBody?
    ensures PostUser(PostUser(users, Json(first)).table, Json(second)).response.body.RecordBody?
    ensures Lookup(PostUser(users, Json(first)).response.body.record, "id") == Some(Int(NextId(users)))
    ensures Lookup(PostUser(PostUser(users, Json(first)).table, Json(second)).response.body.record, "id") ==
            Some(Int(NextId(users) + 1))
  {
    var s := PostUser(users, Json(first));
    PostUserAppends(users, first);
    var row := FromDict(Users, s.response.body.record).value;
    assert row["id"] == Get(s.response.body.record, "id");
    assert s.table[|s.table| - 1] == row;
    assert NextId(s.table) == NextId(users) + 1;
    PostUserAppends(s.table, second);
  }

  /** Ids are handed out from 1 up: the first two users posted to an empty
      table without ids get 1 and 2. */
  lemma SequentialIds(first: Dict, second: Dict)
    requires Get(first, "id") == Null && Get(second, "id") == Null
    requires PostUser([], Json(first)).response.status == 201
    requires PostUser(PostUser([], Json(first)).table, Json(second)).response.status == 201
    ensures PostUser([], Json(first)).response.body.RecordBody?
    ensures PostUser(PostUser([], Json(first)).table, Json(second)).response.body.RecordBody?
    ensures Lookup(PostUser([], Json(first)).response.body.record, "id") == Some(Int(1))
    ensures Lookup(PostUser(PostUser([], Json(first)).table, Json(second)).response.body.record, "id") == Some(Int(2))
  {
    ConsecutiveIds([], first, second);
  }

  /** PUT answers 404 exactly when the body decodes and no row has the id;
      the table is then unchanged. */
  lemma UpdateAbsent(t: Table, rows: seq<Row>, id: int, data: Dict)
    requires TableOk(t, rows)
    ensures Update(t, rows, id, Json(data)).response.status == 404 <==>
            forall j :: 0 <= j < |rows| ==> RowId(rows[j]) != id
    ensures Update(t, rows, id, Json(data)).response.status == 404 ==>
            Update(t, rows, id, Json(data)) == Step(Response(ErrorBody(NotFoundMessage(t)), 404), rows)
  {
  }

  /** A PUT on an existing row answers 200 exactly when the model's update
      accepts the data, its values bind to their columns, and the commit
      admits the changed row in place of the old one; any other answer is a
      400 that leaves the table as it was. */
  lemma UpdateStatus(t: Table, rows: seq<Row>, i: nat, data: Dict)
    requires TableOk(t, rows) && i < |rows|
    ensures WellFormed(t, rows[i])
    ensures var changed := Change(t, rows[i], data);
      Update(t, rows, RowId(rows[i]), Json(data)).response.status == 200 <==>
      && changed.Returned?
      && Bind(t, changed.value).Returned?
      && Admissible(t, RemoveAt(rows, i), Bind(t, changed.value).value)
    ensures Update(t, rows, RowId(rows[i]), Json(data)).response.status != 200 ==>
      && Update(t, rows, RowId(rows[i]), Json(data)).response.status == 400
      && Update(t, rows, RowId(rows[i]), Json(data)).table == rows
    ensures Update(t, rows, RowId(rows[i]), Json(data)).response.status == 200 ==>
      var stored := Bind(t, Change(t, rows[i], data).value).value;
      Update(t, rows, RowId(rows[i]), Json(data)) ==
      Step(Response(RecordBody(ToDict(t, stored)), 200), InsertSorted(RemoveAt(rows, i), stored))
  {
    assert rows[i] in rows;
    var found := FindRow(rows, RowId(rows[i])).value;
    assert found == i;
    RemoveKeepsTableOk(t, rows, i);
  }

  /** A PUT that passes, on an existing row and leaving its id alone, changes
      exactly the supplied columns of that row, each to the value its column
      stores, changes no other row, and answers 200 with the new record. */
  lemma UpdateChangesSuppliedFields(t: Table, rows: seq<Row>, i: nat, data: Dict)
    requires TableOk(t, rows) && i < |rows| && Lookup(data, "id").None?
    requires WellFormed(t, rows[i]) && Change(t, rows[i], data).Returned?
    requires Bind(t, Merged(rows[i], data)).Returned?
    requires Admissible(t, RemoveAt(rows, i), Bind(t, Merged(rows[i], data)).value)
    ensures var stored := Bind(t, Merged(rows[i], data)).value;
      && stored.Keys == rows[i].Keys
      && (forall c :: c in rows[i] ==>
            stored[c] == (if Lookup(data, c).Some? then Bound(TypeOf(t, c), Lookup(data, c).value) else rows[i][c]))
      && Update(t, rows, RowId(rows[i]), Json(data)) == Step(Response(RecordBody(ToDict(t, stored)), 200), rows[i := stored])
      && FromDict(t, ToDict(t, stored)) == Returned(stored)
  {
    assert rows[i] in rows;
    assert Change(t, rows[i], data).value == Merged(rows[i], data);
    UpdateStatus(t, rows, i, data);
    BindMerged(t, rows[i], data);
    var stored := Bind(t, Merged(rows[i], data)).value;
    assert RowId(stored) == RowId(rows[i]);
    ReinsertAt(rows, i, stored);
    FromDictToDict(t, stored);
  }

  /** A PUT /users whose new username fails validation, checked against the
      stored email, answers with the validation message and changes nothing. */
  lemma UpdateUserRejectsInvalid(rows: seq<Row>, i: nat, data: Dict, d: string)
    requires TableOk(Users, rows) && i < |rows| && "email" in rows[i]
    requires Lookup(data, "username").Some?
    requires ValidateUserData(Get(data, "username"), rows[i]["email"]) == Some(BadRequest(d))
    ensures Update(Users, rows, RowId(rows[i]), Json(data)) ==
            Step(Response(ErrorBody("400 Bad Request: " + d), 400), rows)
  {
    var found := FindRow(rows, RowId(rows[i])).value;
    assert found == i;
  }

  /** DELETE removes exactly the rows with the id, keeping the others in
      order, and says so; for an absent id it answers 404. */
  lemma DeleteRemovesExactly(t: Table, rows: seq<Row>, id: int)
    requires TableOk(t, rows)
    ensures Delete(t, rows, id).table == Lists.WithoutKey(rows, id, RowId)
    ensures Delete(t, rows, id).response.status == 200 <==> exists j :: 0 <= j < |rows| && RowId(rows[j]) == id
    ensures Delete(t, rows, id).response ==
            if Delete(t, rows, id).response.status == 200 then Response(MessageBody(DeletedMessage(t)), 200)
            else Response(ErrorBody(NotFoundMessage(t)), 404)
  {
    match FindRow(rows, id)
    case None => Lists.WithoutAbsentKey(rows, id, RowId);
    case Some(i) => RemoveAtIsFilter(rows, i);
  }

  /** A task with a valid title but an owner that does not exist gets the
      wrapper's generic answer, not a 404. */
  lemma PostTaskUnknownOwner(users: seq<Row>, tasks: seq<Row>, data: Dict)
    requires TableOk(Tasks, tasks)
    requires Get(data, "title").Str? && |Get(data, "title").s| >= 5
    requires forall j :: 0 <= j < |users| ==> Get(data, "user_id") != Int(RowId(users[j]))
    ensures PostTask(users, tasks, Json(data)) ==
            Step(Response(ErrorBody("An error occurred: " + Describe(NotFound("User ID does not exist."))), 400), tasks)
  {
    UnknownOwner(Get(data, "title"), Get(data, "user_id"), users);
    assert PostTaskBody(users, tasks, data) == Raised(NotFound("User ID does not exist."));
  }

  /** POST /tasks answers 201 exactly when validation (including the owner
      lookup), the keyword check and the commit pass; any other answer is a
      400 that leaves the table as it was. */
  lemma PostTaskStatus(users: seq<Row>, tasks: seq<Row>, data: Dict)
    requires TableOk(Tasks, tasks)
    ensures PostTask(users, tasks, Json(data)).response.status == 201 <==>
      && ValidateTaskData(Get(data, "title"), Get(data, "user_id"), users).None?
      && FromDict(Tasks, data).Returned?
      && Insert(Tasks, tasks, WithDefaults(Tasks, tasks, FromDict(Tasks, data).value)).Returned?
    ensures PostTask(users, tasks, Json(data)).response.status != 201 ==>
      PostTask(users, tasks, Json(data)).response.status == 400 && PostTask(users, tasks, Json(data)).table == tasks
  {
    StoreOutcome(Tasks, tasks, data);
  }

  /** When everything passes, the stored task is the decoded payload with
      its defaults, as its columns store it, placed by its key, and the
      answer is its record. */
  lemma PostTaskStored(users: seq<Row>, tasks: seq<Row>, data: Dict)
    requires TableOk(Tasks, tasks)
    requires ValidateTaskData(Get(data, "title"), Get(data, "user_id"), users).None?
    requires FromDict(Tasks, data).Returned?
    requires Insert(Tasks, tasks, WithDefaults(Tasks, tasks, FromDict(Tasks, data).value)).Returned?
    ensures var stored := Bind(Tasks, WithDefaults(Tasks, tasks, FromDict(Tasks, data).value)).value;
            PostTask(users, tasks, Json(data)) == Step(Response(RecordBody(ToDict(Tasks, stored)), 201), InsertSorted(tasks, stored))
  {
    StoreOutcome(Tasks, tasks, data);
    assert PostTaskBody(users, tasks, data) == Store(Tasks, tasks, data);
  }

  /** A 201 from POST /tasks carries a record that echoes the title and the
      owner, takes `completed = False` when none was given and the bool a 0
      or 1 stands for otherwise, and is the one row added. */
  lemma PostTaskSucceeds(users: seq<Row>, tasks: seq<Row>, data: Dict)
    requires TableOk(Tasks, tasks)
    requires PostTask(users, tasks, Json(data)).response.status == 201
    ensures var s := PostTask(users, tasks, Json(data));
      && s.response.body.RecordBody?
      && Lookup(s.response.body.record, "title") == Some(Get(data, "title"))
      && Lookup(s.response.body.record, "user_id") == Some(Get(data, "user_id"))
      && Lookup(s.response.body.record, "completed") ==
         Some(if Get(data, "completed") == Null then Bool(false) else Bound(BooleanType, Get(data, "completed")))
      && FromDict(Tasks, s.response.body.record).Returned?
      && multiset(s.table) == multiset(tasks) + multiset{FromDict(Tasks, s.response.body.record).value}
  {
    PostTaskStatus(users, tasks, data);
    PostTaskStored(users, tasks, data);
    var stored := Bind(Tasks, WithDefaults(Tasks, tasks, FromDict(Tasks, data).value)).value;
    FromDictToDict(Tasks, stored);
    StoredTaskRecord(tasks, data);
  }

  /** The record of a stored task echoes a title given as a string and an
      owner given as an integer, as validation demands them. */
  lemma StoredTaskRecord(tasks: seq<Row>, data: Dict)
    requires Ascending(tasks)
    requires Get(data, "title").Str? && Get(data, "user_id").Int?
    requires FromDict(Tasks, data).Returned?
    requires Bind(Tasks, WithDefaults(Tasks, tasks, FromDict(Tasks, data).value)).Returned?
    ensures var record := ToDict(Tasks, Bind(Tasks, WithDefaults(Tasks, tasks, FromDict(Tasks, data).value)).value);
      && Lookup(record, "title") == Some(Get(data, "title"))
      && Lookup(record, "user_id") == Some(Get(data, "user_id"))
      && Lookup(record, "completed") ==
         Some(if Get(data, "completed") == Null then Bool(false) else Bound(BooleanType, Get(data, "completed")))
  {
    var decoded := FromDict(Tasks, data).value;
    var stored := Bind(Tasks, WithDefaults(Tasks, tasks, decoded)).value;
    var title, owner := Get(data, "title"), Get(data, "user_id");
    assert "title" in Columns(Tasks) && "user_id" in Columns(Tasks);
    assert decoded["title"] == title && decoded["user_id"] == owner;
    assert stored["title"] == title && stored["user_id"] == owner;
    ToDictLookup(Tasks, stored, "title");
    ToDictLookup(Tasks, stored, "user_id");
    StoredCompleted(tasks, data);
  }

  /** A task whose `completed` is not null, a bool, 0 or 1 is refused when
      its values are bound, before any constraint is checked. */
  lemma StoreRefusesCompleted(tasks: seq<Row>, data: Dict)
    requires TableOk(Tasks, tasks) && FromDict(Tasks, data).Returned?
    requires !Accepted(BooleanType, Get(data, "completed"))
    ensures Store(Tasks, tasks, data) == Raised(StatementError(BooleanRefusal(Get(data, "completed"))))
  {
    var added := WithDefaults(Tasks, tasks, FromDict(Tasks, data).value);
    assert Bind(Tasks, added).Raised?;
  }

  /** A task that passes validation but whose `completed` is not null, a
      bool, 0 or 1 gets the wrapper's generic answer carrying the
      `StatementError`, and nothing is stored. */
  lemma PostTaskRefusesCompleted(users: seq<Row>, tasks: seq<Row>, data: Dict)
    requires TableOk(Tasks, tasks)
    requires ValidateTaskData(Get(data, "title"), Get(data, "user_id"), users).None?
    requires FromDict(Tasks, data).Returned?
    requires !Accepted(BooleanType, Get(data, "completed"))
    ensures PostTask(users, tasks, Json(data)) ==
            Step(Response(ErrorBody("An error occurred: " + Describe(StatementError(BooleanRefusal(Get(data, "completed"))))), 400), tasks)
  {
    StoreRefusesCompleted(tasks, data);
    assert PostTaskBody(users, tasks, data) == Raised(StatementError(BooleanRefusal(Get(data, "completed"))));
  }

  /** A task row the table admitted with a generated id is admitted again
      once it is stored: it gets the next id and there is no UNIQUE column
      for the copies to clash on. */
  lemma TaskAdmittedAgain(tasks: seq<Row>, row: Row)
    requires TableOk(Tasks, tasks) && WellFormed(Tasks, row) && row["id"] == Null
    requires Insert(Tasks, tasks, WithDefaults(Tasks, tasks, row)).Returned?
    ensures var table := Insert(Tasks, tasks, WithDefaults(Tasks, tasks, row)).value;
            Insert(Tasks, table, WithDefaults(Tasks, table, row)).Returned?
  {
    var first := WithDefaults(Tasks, tasks, row);
    var bound := Bind(Tasks, first).value;
    assert Admissible(Tasks, tasks, bound);
    var table := Insert(Tasks, tasks, first).value;
    var again := WithDefaults(Tasks, table, row);
    WithDefaultsBesideId(Tasks, tasks, table, row);
    BindBesideId(Tasks, first, again);
    var boundAgain := Bind(Tasks, again).value;
    assert boundAgain["id"] == Int(NextId(table));
    NextIdAdmitted(table, bound, boundAgain);
  }

  /** A task that differs from an admissible one only in its id, and takes
      the next id, is admitted to the table. */
  lemma NextIdAdmitted(table: seq<Row>, bound: Row, row: Row)
    requires Ascending(table) && RowOk(Tasks, bound) && row.Keys == bound.Keys
    requires forall c :: c in bound && c != "id" ==> row[c] == bound[c]
    requires row["id"] == Int(NextId(table))
    ensures Admissible(Tasks, table, row)
  {
    assert forall c :: c in NotNullColumns(Tasks) ==> c != "id";
  }

  /** The defaults for one row in two tables differ at most in the id. */
  lemma WithDefaultsBesideId(t: Table, rows: seq<Row>, other: seq<Row>, row: Row)
    requires Ascending(rows) && Ascending(other) && WellFormed(t, row)
    ensures WithDefaults(t, rows, row).Keys == WithDefaults(t, other, row).Keys
    ensures forall c :: c in row && c != "id" ==> WithDefaults(t, rows, row)[c] == WithDefaults(t, other, row)[c]
  {
  }

  /** Tasks have no UNIQUE column: posting the same task twice without an id
      succeeds both times. */
  lemma PostTaskTwice(users: seq<Row>, tasks: seq<Row>, data: Dict)
    requires TableOk(Tasks, tasks) && Get(data, "id") == Null
    requires PostTask(users, tasks, Json(data)).response.status == 201
    ensures PostTask(users, PostTask(users, tasks, Json(data)).table, Json(data)).response.status == 201
  {
    PostTaskStatus(users, tasks, data);
    PostTaskStored(users, tasks, data);
    var row := FromDict(Tasks, data).value;
    TaskAdmittedAgain(tasks, row);
    PostTaskStatus(users, Insert(Tasks, tasks, WithDefaults(Tasks, tasks, row)).value, data);
  }

  // ---------------------------------------------------------------------
  // The application

  /** The two tables as the session sees them between requests, and one
      method per route. Each method does the handler's steps in order and
      leaves the tables as the handler's specification says. */
  class Database {
    var users: seq<Row>
    var tasks: seq<Row>

    ghost predicate Valid()
      reads this
    {
      TableOk(Users, users) && TableOk(Tasks, tasks)
    }

    /** `db.create_all()` on a fresh database. */
    constructor ()
      ensures Valid() && users == [] && tasks == []
    {
      users := [];
      tasks := [];
    }

    function Rows(t: Table): seq<Row>
      reads this
    {
      match t
      case Users => users
      case Tasks => tasks
    }

    /** The commit of a new state of table `t`. */
    method Put(t: Table, rows: seq<Row>)
      modifies this
      ensures Rows(t) == rows
      ensures t == Users ==> tasks == old(tasks)
      ensures t == Tasks ==> users == old(users)
    {
      if t == Users { users := rows; } else { tasks := rows; }
    }

    /** `from_dict`, `session.add` and `commit` for a validated payload. */
    method Add(t: Table, data: Dict) returns (r: Response)
      requires Valid()
      modifies this
      ensures Valid()
      ensures Step(r, Rows(t)) == Guard(Store(t, old(Rows(t)), data), old(Rows(t)))
      ensures t == Users ==> tasks == old(tasks)
      ensures t == Tasks ==> users == old(users)
    {
      var rows := Rows(t);
      var decoded := FromDict(t, data);
      if decoded.Raised? {
        r := HandleDatabaseErrors(Raised(decoded.error));
        return;
      }
      var row := WithDefaults(t, rows, decoded.value);
      var committed := Insert(t, rows, row);
      if committed.Raised? {
        r := HandleDatabaseErrors(Raised(committed.error));
        return;
      }
      Put(t, committed.value);
      // The commit expires the object: its attributes are read back from
      // the stored row.
      var stored := Bind(t, row).value;
      r := Response(RecordBody(ToDict(t, stored)), 201);
    }

    /** `update_user` and `update_task`. */
    method Replace(t: Table, id: int, req: Request) returns (r: Response)
      requires Valid()
      modifies this
      ensures Valid()
      ensures Step(r, Rows(t)) == Update(t, old(Rows(t)), id, req)
      ensures t == Users ==> tasks == old(tasks)
      ensures t == Tasks ==> users == old(users)
    {
      if req.Malformed? {
        r := HandleDatabaseErrors(Raised(JsonDecodeError));
        return;
      }
      var data := req.data;
      var rows := Rows(t);
      var found := FindRow(rows, id);
      if found.None? {
        r := Response(ErrorBody(NotFoundMessage(t)), 404);
        return;
      }
      var i := found.value;
      assert rows[i] in rows;
      var changed: Attempt<Row>;
      if t == Users {
        changed := UserUpdateFromDict(rows[i], data);
      } else {
        var merged := UpdateFromDict(rows[i], data);
        changed := Returned(merged);
      }
      if changed.Raised? {
        r := if changed.error.BadRequest? then Response(ErrorBody(Describe(changed.error)), 400)
             else HandleDatabaseErrors(Raised(changed.error));
        return;
      }
      RemoveKeepsTableOk(t, rows, i);
      var committed := Insert(t, RemoveAt(rows, i), changed.value);
      if committed.Raised? {
        r := HandleDatabaseErrors(Raised(committed.error));
        return;
      }
      Put(t, committed.value);
      var stored := Bind(t, changed.value).value;
      r := Response(RecordBody(ToDict(t, stored)), 200);
    }

    /** `delete_user` and `delete_task`. */
    method Remove(t: Table, id: int) returns (r: Response)
      requires Valid()
      modifies this
      ensures Valid()
      ensures Step(r, Rows(t)) == Delete(t, old(Rows(t)), id)
      ensures t == Users ==> tasks == old(tasks)
      ensures t == Tasks ==> users == old(users)
    {
      var rows := Rows(t);
      var found := FindRow(rows, id);
      if found.None? {
        r := Response(ErrorBody(NotFoundMessage(t)), 404);
        return;
      }
      RemoveKeepsTableOk(t, rows, found.value);
      Put(t, RemoveAt(rows, found.value));
      r := Response(MessageBody(DeletedMessage(t)), 200);
    }

    /** GET /users. */
    method GetUsers(limit: Option<int>, offset: Option<int>) returns (r: Response)
      requires Valid()
      ensures r == List(Users, users, limit, offset)
    {
      r := List(Users, users, limit, offset);
    }

    /** POST /users. */
    method CreateUser(req: Request) returns (r: Response)
      requires Valid()
      modifies this
      ensures Valid() && tasks == old(tasks)
      ensures Step(r, users) == PostUser(old(users), req)
    {
      if req.Malformed? {
        r := HandleDatabaseErrors(Raised(JsonDecodeError));
        return;
      }
      var data := req.data;
      var err := ValidateData([(Username, Get(data, "username")), (Email, Get(data, "email"))]);
      if err.Some? {
        r := if err.value.BadRequest? then Response(ErrorBody(Describe(err.value)), 400)
             else HandleDatabaseErrors(Raised(err.value));
        return;
      }
      r := Add(Users, data);
    }

    /** GET /users/<id>. */
    method GetUser(id: int) returns (r: Response)
      requires Valid()
      ensures r == Fetch(Users, users, id)
    {
      r := Fetch(Users, users, id);
    }

    /** PUT /users/<id>. */
    method UpdateUser(id: int, req: Request) returns (r: Response)
      requires Valid()
      modifies this
      ensures Valid() && tasks == old(tasks)
      ensures Step(r, users) == Update(Users, old(users), id, req)
    {
      r := Replace(Users, id, req);
    }

    /** DELETE /users/<id>. */
    method DeleteUser(id: int) returns (r: Response)
      requires Valid()
      modifies this
      ensures Valid() && tasks == old(tasks)
      ensures Step(r, users) == Delete(Users, old(users), id)
    {
      r := Remove(Users, id);
    }

    /** GET /tasks. */
    method GetTasks(limit: Option<int>, offset: Option<int>) returns (r: Response)
      requires Valid()
      ensures r == List(Tasks, tasks, limit, offset)
    {
      r := List(Tasks, tasks, limit, offset);
    }

    /** POST /tasks: the title checks, then the owner lookup. */
    method CreateTask(req: Request) returns (r: Response)
      requires Valid()
      modifies this
      ensures Valid() && users == old(users)
      ensures Step(r, tasks) == PostTask(old(users), old(tasks), req)
    {
      if req.Malformed? {
        r := HandleDatabaseErrors(Raised(JsonDecodeError));
        return;
      }
      var data := req.data;
      var err := ValidateData([(Title, Get(data, "title"))]);
      if err.None? {
        var owner := Get(data, "user_id");
        if !(owner.Int? && FindRow(users, owner.n).Some?) {
          err := Some(NotFound("User ID does not exist."));
        }
      }
      assert err == ValidateTaskData(Get(data, "title"), Get(data, "user_id"), users);
      if err.Some? {
        r := if err.value.BadRequest? then Response(ErrorBody(Describe(err.value)), 400)
             else HandleDatabaseErrors(Raised(err.value));
        return;
      }
      r := Add(Tasks, data);
    }

    /** GET /tasks/<id>. */
    method GetTask(id: int) returns (r: Response)
      requires Valid()
      ensures r == Fetch(Tasks, tasks, id)
    {
      r := Fetch(Tasks, tasks, id);
    }

    /** PUT /tasks/<id>. */
    method UpdateTask(id: int, req: Request) returns (r: Response)
      requires Valid()
      modifies this
      ensures Valid() && users == old(users)
      ensures Step(r, tasks) == Update(Tasks, old(tasks), id, req)
    {
      r := Replace(Tasks, id, req);
    }

    /** DELETE /tasks/<id>. */
    method DeleteTask(id: int) returns (r: Response)
      requires Valid()
      modifies this
      ensures Valid() && users == old(users)
      ensures Step(r, tasks) == Delete(Tasks, old(tasks), id)
    {
      r := Remove(Tasks, id);
    }
  }
}
