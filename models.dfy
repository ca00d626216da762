/** The record layer of the Flask back end: the two ORM models (users and
    tasks), their field validation, the conversions between a record and a
    JSON object, and the decorator that turns exceptions into error
    responses. */
module Models {
  import opened Common
  import opened Numerals

  /** A JSON scalar as Python holds it after parsing: None, str, int or bool. */
  datatype Value = Null | Str(s: string) | Int(n: int) | Bool(b: bool)

  /** A JSON object, or a set of keyword arguments: its (key, value) pairs in
      order. When a key occurs twice the later pair wins, as in Python's
      `json` module. */
  type Dict = seq<(string, Value)>

  /** One stored record: column name to current value. */
  type Row = map<string, Value>

  /** The two mapped classes, `User` (table `users`) and `Task` (table `tasks`). */
  datatype Table = Users | Tasks

  /** The table columns, in declaration order. */
  function Columns(t: Table): (cs: seq<string>)
    ensures "id" in cs
  {
    match t
    case Users => ["id", "username", "email", "password"]
    case Tasks => ["id", "title", "description", "completed", "user_id"]
  }

  /** The SQL type a column is declared with, as far as the commit treats
      values differently: `Integer`, `String`/`Text`, and `Boolean`. */
  datatype ColumnType = IntegerType | TextType | BooleanType

  function TypeOf(t: Table, c: string): ColumnType {
    if c == "id" || (t == Tasks && c == "user_id") then IntegerType
    else if t == Tasks && c == "completed" then BooleanType
    else TextType
  }

  function ClassName(t: Table): string {
    match t
    case Users => "User"
    case Tasks => "Task"
  }

  /** The columns declared `nullable=False` (besides the primary key). */
  function NotNullColumns(t: Table): (cs: seq<string>)
    ensures forall c :: c in cs ==> c in Columns(t)
  {
    match t
    case Users => ["username", "email"]
    case Tasks => ["title", "user_id"]
  }

  /** The columns declared `unique=True`. */
  function UniqueColumns(t: Table): (cs: seq<string>)
    ensures forall c :: c in cs ==> c in Columns(t)
  {
    match t
    case Users => ["username", "email"]
    case Tasks => []
  }

  /** A row of table `t` holds exactly that table's columns. */
  predicate WellFormed(t: Table, row: Row) {
    && (forall c :: c in row ==> c in Columns(t))
    && (forall c :: c in Columns(t) ==> c in row)
  }

  // ---------------------------------------------------------------------
  // Dictionaries

  /** `data[key]` if the key is present: the value of its last pair. */
  function Lookup(d: Dict, key: string): (r: Option<Value>)
    ensures r.None? <==> forall i :: 0 <= i < |d| ==> d[i].0 != key
    ensures r.Some? ==> (key, r.value) in d
    decreases |d|
  {
    if d == [] then None
    else if d[|d| - 1].0 == key then Some(d[|d| - 1].1)
    else
      assert forall i :: 0 <= i < |d| - 1 ==> d[..|d| - 1][i] == d[i];
      Lookup(d[..|d| - 1], key)
  }

  /** `data.get(key)`: the value, or None when the key is absent. */
  function Get(d: Dict, key: string): (v: Value)
    ensures Lookup(d, key).None? ==> v == Null
    ensures v != Null ==> (key, v) in d
  {
    Lookup(d, key).GetOr(Null)
  }

  // ---------------------------------------------------------------------
  // Exceptions

  /** The exceptions the core raises: werkzeug's `BadRequest` and `NotFound`
      (with their description), SQLAlchemy's `IntegrityError`, Python's
      `TypeError` (with its message), and SQLAlchemy's `StatementError`,
      which wraps an exception raised while a value is bound to a column
      (with the first line of its text). */
  datatype Error =
    | BadRequest(description: string)
    | NotFound(description: string)
    | IntegrityError
    | TypeError(message: string)
    | StatementError(message: string)

  /** A computation that either returned a value or raised. */
  datatype Attempt<T> = Returned(value: T) | Raised(error: Error)

  /** `str(e)`: werkzeug renders an HTTP exception as "<code> <name>: <description>". */
  function Describe(e: Error): (s: string)
    requires !e.IntegrityError?
    ensures e.BadRequest? || e.NotFound? ==>
              |e.description| < |s| && s[|s| - |e.description|..] == e.description
    ensures e.BadRequest? ==> |s| >= 4 && s[..4] == "400 "
    ensures e.NotFound? ==> |s| >= 4 && s[..4] == "404 "
    ensures e.TypeError? || e.StatementError? ==> s == e.message
  {
    match e
    case BadRequest(d) => "400 Bad Request: " + d
    case NotFound(d) => "404 Not Found: " + d
    case TypeError(m) => m
    case StatementError(m) => m
  }

  // ---------------------------------------------------------------------
  // Validation

  /** Python's name for the type of a JSON value. */
  function TypeName(v: Value): string {
    match v
    case Null => "NoneType"
    case Str(_) => "str"
    case Int(_) => "int"
    case Bool(_) => "bool"
  }

  /** Python's `repr` of a JSON value (quotes inside a string are not escaped). */
  function Repr(v: Value): string {
    match v
    case Null => "None"
    case Str(s) => "'" + s + "'"
    case Int(n) => Decimal(n)
    case Bool(b) => if b then "True" else "False"
  }

  /** The keyword arguments `validate_data` is called with. */
  datatype Field = Username | Email | Title

  /** The keyword's name, as it appears in the messages. */
  function Name(f: Field): string {
    match f
    case Username => "username"
    case Email => "email"
    case Title => "title"
  }

  /** Keyword arguments in the order they are passed. */
  type Fields = seq<(Field, Value)>

  /** One round of the loop in `BaseModel.validate_data`: the exception the
      checks raise for the pair (`key`, `v`), if any. A value that is not a
      string reaches `'@' not in value` or `len(value)` and raises Python's
      `TypeError` there. */
  function CheckField(key: Field, v: Value): (r: Option<Error>)
    ensures r.Some? ==> r.value.BadRequest? || r.value.TypeError?
    ensures r == Some(BadRequest(Name(key) + " is required.")) <==> v == Null || v == Str("")
    ensures r.None? <==>
      && v != Null && v != Str("")
      && (key == Email ==> v.Str? && '@' in v.s)
      && (key == Username ==> v.Str? && |v.s| >= 3)
      && (key == Title ==> v.Str? && |v.s| >= 5)
    ensures key == Email && v.Str? && v.s != "" && '@' !in v.s ==> r == Some(BadRequest("Invalid email format."))
    ensures key == Username && v.Str? && 0 < |v.s| < 3 ==>
            r == Some(BadRequest("Username must be at least 3 characters long."))
    ensures key == Title && v.Str? && 0 < |v.s| < 5 ==>
            r == Some(BadRequest("Title must be at least 5 characters long."))
    ensures v != Null && !v.Str? ==> r.Some? && r.value.TypeError?
  {
    if v == Null || v == Str("") then Some(BadRequest(Name(key) + " is required."))
    else match key
      case Email =>
        if !v.Str? then Some(TypeError("argument of type '" + TypeName(v) + "' is not iterable"))
        else if '@' !in v.s then Some(BadRequest("Invalid email format."))
        else None
      case Username =>
        if !v.Str? then Some(TypeError("object of type '" + TypeName(v) + "' has no len()"))
        else if |v.s| < 3 then Some(BadRequest("Username must be at least 3 characters long."))
        else None
      case Title =>
        if !v.Str? then Some(TypeError("object of type '" + TypeName(v) + "' has no len()"))
        else if |v.s| < 5 then Some(BadRequest("Title must be at least 5 characters long."))
        else None
  }

  /** The exception `validate_data(**fields)` raises: that of the first field,
      in argument order, that fails its checks. */
  function FirstError(fields: Fields): (r: Option<Error>)
    ensures r.Some? ==> r.value.BadRequest? || r.value.TypeError?
  {
    if fields == [] then None
    else match CheckField(fields[0].0, fields[0].1)
      case Some(e) => Some(e)
      case None => FirstError(fields[1..])
  }

  /** `BaseModel.validate_data`: the loop over the keyword arguments, which
      stops at the first failing field. */
  method ValidateData(fields: Fields) returns (err: Option<Error>)
    ensures err == FirstError(fields)
  {
    var i := 0;
    while i < |fields|
      invariant 0 <= i <= |fields|
      invariant FirstError(fields) == FirstError(fields[i..])
    {
      assert fields[i..][1..] == fields[i + 1..];
      var e := CheckField(fields[i].0, fields[i].1);
      if e.Some? {
        return e;
      }
      i := i + 1;
    }
    return None;
  }

  /** The first failing field decides the outcome; no later field matters. */
  lemma {:induction false} FirstErrorIsFirstFailure(fields: Fields, i: nat)
    requires i < |fields| && CheckField(fields[i].0, fields[i].1).Some?
    requires forall j :: 0 <= j < i ==> CheckField(fields[j].0, fields[j].1).None?
    ensures FirstError(fields) == CheckField(fields[i].0, fields[i].1)
  {
    if i > 0 {
      assert CheckField(fields[0].0, fields[0].1).None?;
      FirstErrorIsFirstFailure(fields[1..], i - 1);
    }
  }

  /** Validation passes exactly when every field passes its checks. */
  lemma {:induction false} FirstErrorNoneIffAllPass(fields: Fields)
    ensures FirstError(fields).None? <==>
            forall j :: 0 <= j < |fields| ==> CheckField(fields[j].0, fields[j].1).None?
  {
    if fields != [] {
      FirstErrorNoneIffAllPass(fields[1..]);
      assert forall j :: 1 <= j < |fields| ==> fields[1..][j - 1] == fields[j];
    }
  }

  /** `User.validate_user_data`: the username is checked before the email. */
  function ValidateUserData(username: Value, email: Value): (r: Option<Error>)
    ensures r.None? <==> username.Str? && |username.s| >= 3 && email.Str? && '@' in email.s
    ensures (username == Null || username == Str("")) ==> r == Some(BadRequest("username is required."))
    ensures CheckField(Username, username).Some? ==> r == CheckField(Username, username)
    ensures CheckField(Username, username).None? ==> r == CheckField(Email, email)
  {
    var fields := [(Username, username), (Email, email)];
    assert fields[1..] == [(Email, email)] && fields[1..][1..] == [];
    assert FirstError(fields[1..]) == CheckField(Email, email);
    assert Name(Username) + " is required." == "username is required.";
    assert FirstError(fields) == if CheckField(Username, username).Some?
      then CheckField(Username, username) else CheckField(Email, email);
    FirstError(fields)
  }

  /** The first row of `rows` whose id is `id` (`Model.query.get(id)`). */
  function FindRow(rows: seq<Row>, id: int): (r: Option<nat>)
    ensures r.Some? ==> r.value < |rows| && RowId(rows[r.value]) == id
    ensures r.None? <==> forall j :: 0 <= j < |rows| ==> RowId(rows[j]) != id
  {
    if rows == [] then None
    else if RowId(rows[0]) == id then Some(0)
    else match FindRow(rows[1..], id)
      case Some(k) => Some(k + 1)
      case None => None
  }

  /** The primary key of a stored row; every stored row holds an integer id. */
  function RowId(row: Row): int {
    if "id" in row && row["id"].Int? then row["id"].n else 0
  }

  /** `Task.validate_task_data`: the title checks, then the owner must exist
      (`User.query.get(user_id)`), else `NotFound('User ID does not exist.')`. */
  function ValidateTaskData(title: Value, userId: Value, users: seq<Row>): (r: Option<Error>)
    ensures r.None? <==>
      && title.Str? && |title.s| >= 5
      && userId.Int? && exists j :: 0 <= j < |users| && RowId(users[j]) == userId.n
    ensures CheckField(Title, title).Some? ==> r == CheckField(Title, title)
    ensures CheckField(Title, title).None? && r.Some? ==> r == Some(NotFound("User ID does not exist."))
  {
    var fields := [(Title, title)];
    assert fields[1..] == [];
    assert FirstError(fields) == CheckField(Title, title);
    match FirstError(fields)
    case Some(e) => Some(e)
    case None =>
      if userId.Int? && FindRow(users, userId.n).Some? then None
      else Some(NotFound("User ID does not exist."))
  }

  /** A good username with a non-empty email that has no '@' is refused for
      the email's format. */
  lemma InvalidEmail(username: Value, email: Value)
    requires username.Str? && |username.s| >= 3
    requires email.Str? && email.s != "" && '@' !in email.s
    ensures ValidateUserData(username, email) == Some(BadRequest("Invalid email format."))
  {
    assert CheckField(Username, username).None?;
    assert CheckField(Email, email) == Some(BadRequest("Invalid email format."));
  }

  /** A good title with an owner id that no stored user has is refused with
      `NotFound`. */
  lemma UnknownOwner(title: Value, userId: Value, users: seq<Row>)
    requires title.Str? && |title.s| >= 5
    requires forall j :: 0 <= j < |users| ==> userId != Int(RowId(users[j]))
    ensures ValidateTaskData(title, userId, users) == Some(NotFound("User ID does not exist."))
  {
    assert CheckField(Title, title).None?;
  }

  // ---------------------------------------------------------------------
  // Partial update

  /** `setattr(self, key, value)` guarded by `hasattr(self, key)`. */
  function SetAttribute(row: Row, key: string, v: Value): (r: Row)
    ensures r.Keys == row.Keys
    ensures key in row ==> r[key] == v
    ensures forall c :: c in row && c != key ==> r[c] == row[c]
  {
    if key in row then row[key := v] else row
  }

  /** The row after the loop of `BaseModel.update_from_dict` has run over all
      of `data`. */
  function Merged(row: Row, data: Dict): (r: Row)
    ensures r.Keys == row.Keys
    decreases |data|
  {
    if data == [] then row
    else SetAttribute(Merged(row, data[..|data| - 1]), data[|data| - 1].0, data[|data| - 1].1)
  }

  /** `BaseModel.update_from_dict`: set every key of `data` that names an
      attribute, in order. */
  method UpdateFromDict(row: Row, data: Dict) returns (updated: Row)
    ensures updated == Merged(row, data)
  {
    updated := row;
    for i := 0 to |data|
      invariant updated == Merged(row, data[..i])
    {
      assert data[..i + 1][..i] == data[..i];
      var (key, v) := data[i];
      if key in updated {
        updated := updated[key := v];
      }
    }
    assert data[..|data|] == data;
  }

  /** A merge sets exactly the supplied attributes: the columns stay the
      same, a supplied column takes its supplied value and every other column
      keeps its value; unknown keys are ignored. */
  lemma {:induction false} MergedAt(row: Row, data: Dict, key: string)
    ensures Merged(row, data).Keys == row.Keys
    ensures key in row ==> Merged(row, data)[key] == Lookup(data, key).GetOr(row[key])
  {
    if data != [] {
      MergedAt(row, data[..|data| - 1], key);
    }
  }

  /** `User.update_from_dict`: when `data` carries a username, the new
      username is validated together with the currently stored email, and a
      failure leaves the row untouched. */
  method UserUpdateFromDict(row: Row, data: Dict) returns (res: Attempt<Row>)
    requires "email" in row
    ensures res.Raised? <==>
      Lookup(data, "username").Some? && ValidateUserData(Get(data, "username"), row["email"]).Some?
    ensures res.Raised? ==> res.error == ValidateUserData(Get(data, "username"), row["email"]).value
    ensures res.Returned? ==> res.value == Merged(row, data)
    ensures res == UserUpdate(row, data)
  {
    if Lookup(data, "username").Some? {
      var err := ValidateData([(Username, Get(data, "username")), (Email, row["email"])]);
      if err.Some? {
        return Raised(err.value);
      }
    }
    var updated := UpdateFromDict(row, data);
    return Returned(updated);
  }

  /** The same update, as a value, for the specifications of the routes. */
  function UserUpdate(row: Row, data: Dict): (r: Attempt<Row>)
    requires "email" in row
    ensures r.Raised? ==> Lookup(data, "username").Some? && (r.error.BadRequest? || r.error.TypeError?)
    ensures r.Returned? ==> r.value.Keys == row.Keys
    ensures r.Returned? && "username" in row && Lookup(data, "username").Some? ==>
              r.value["username"].Str? && |r.value["username"].s| >= 3
  {
    MergedAt(row, data, "username");
    if Lookup(data, "username").Some? && ValidateUserData(Get(data, "username"), row["email"]).Some?
    then Raised(ValidateUserData(Get(data, "username"), row["email"]).value)
    else Returned(Merged(row, data))
  }

  // ---------------------------------------------------------------------
  // Conversions

  /** `BaseModel.to_dict`: one (column, value) pair per column, in column order. */
  function ToDict(t: Table, row: Row): (d: Dict)
    requires WellFormed(t, row)
    ensures |d| == |Columns(t)|
    ensures forall i :: 0 <= i < |d| ==> d[i] == (Columns(t)[i], row[Columns(t)[i]])
  {
    var cols := Columns(t);
    seq(|cols|, i requires 0 <= i < |cols| => (cols[i], row[cols[i]]))
  }

  /** The column names of a table are pairwise distinct. */
  lemma ColumnsDistinct(t: Table)
    ensures forall i, j :: 0 <= i < j < |Columns(t)| ==> Columns(t)[i] != Columns(t)[j]
  {
  }

  /** A key given more than once takes the value of its last pair, as
      decoding a JSON object with repeated keys does. */
  lemma {:induction false} LookupLast(d: Dict, key: string, i: nat)
    requires i < |d| && d[i].0 == key
    requires forall j :: i < j < |d| ==> d[j].0 != key
    ensures Lookup(d, key) == Some(d[i].1)
    decreases |d|
  {
    if i != |d| - 1 {
      var p := d[..|d| - 1];
      assert p[i] == d[i];
      forall j | i < j < |p|
        ensures p[j].0 != key
      {
        assert p[j] == d[j];
      }
      LookupLast(p, key, i);
    }
  }

  lemma {:induction false} LookupDistinctKeys(d: Dict, i: nat)
    requires i < |d|
    requires forall a, b :: 0 <= a < b < |d| ==> d[a].0 != d[b].0
    ensures Lookup(d, d[i].0) == Some(d[i].1)
    decreases |d|
  {
    if i != |d| - 1 {
      var p := d[..|d| - 1];
      assert p[i] == d[i];
      LookupDistinctKeys(p, i);
    }
  }

  /** Read as a dictionary, `to_dict` maps every column to the row's value
      for it and holds no other key. */
  lemma ToDictLookup(t: Table, row: Row, key: string)
    requires WellFormed(t, row)
    ensures Lookup(ToDict(t, row), key) == if key in row then Some(row[key]) else None
  {
    var d := ToDict(t, row);
    ColumnsDistinct(t);
    if key in row {
      var i :| 0 <= i < |Columns(t)| && Columns(t)[i] == key;
      LookupDistinctKeys(d, i);
    }
  }

  /** The first key of `data` that is not a column, if any. */
  function FirstUnknownKey(t: Table, data: Dict): (r: Option<string>)
    ensures r.None? <==> forall i :: 0 <= i < |data| ==> data[i].0 in Columns(t)
    ensures r.Some? ==> r.value !in Columns(t) && exists i :: 0 <= i < |data| && data[i].0 == r.value
  {
    if data == [] then None
    else if data[0].0 !in Columns(t) then Some(data[0].0)
    else
      assert forall i :: 1 <= i < |data| ==> data[1..][i - 1] == data[i];
      FirstUnknownKey(t, data[1..])
  }

  /** `BaseModel.from_dict`, i.e. the declarative constructor `cls(**data)`:
      every keyword must name a column (else a `TypeError`), and a column
      left out starts as None. */
  function FromDict(t: Table, data: Dict): (r: Attempt<Row>)
    ensures r.Returned? <==> forall i :: 0 <= i < |data| ==> data[i].0 in Columns(t)
    ensures r.Returned? ==> WellFormed(t, r.value) && forall c :: c in r.value ==> r.value[c] == Get(data, c)
    ensures r.Raised? ==> r.error.TypeError?
  {
    match FirstUnknownKey(t, data)
    case Some(k) => Raised(TypeError("'" + k + "' is an invalid keyword argument for " + ClassName(t)))
    case None => Returned(map c | c in Columns(t) :: Get(data, c))
  }

  /** Every key of a `to_dict` is a column, so `from_dict` accepts it. */
  lemma ToDictDecodes(t: Table, row: Row)
    requires WellFormed(t, row)
    ensures FromDict(t, ToDict(t, row)).Returned?
  {
    var d := ToDict(t, row);
    assert forall i :: 0 <= i < |d| ==> d[i].0 in Columns(t);
  }

  /** Two maps with the same keys and the same value at each key are equal. */
  lemma MapsAgree<K, V>(a: map<K, V>, b: map<K, V>)
    requires forall k :: k in a <==> k in b
    requires forall k :: k in a ==> a[k] == b[k]
    ensures a == b
  {
  }

  /** Building a record from its own `to_dict` gives the record back. */
  lemma FromDictToDict(t: Table, row: Row)
    requires WellFormed(t, row)
    ensures FromDict(t, ToDict(t, row)) == Returned(row)
  {
    ToDictDecodes(t, row);
    var r := FromDict(t, ToDict(t, row)).value;
    forall c | c in r
      ensures r[c] == row[c]
    {
      ToDictLookup(t, row, c);
    }
    assert forall c :: c in r <==> c in row;
    MapsAgree(r, row);
  }

  // ---------------------------------------------------------------------
  // Responses and the error-handling decorator

  /** The JSON body of a response. */
  datatype Body =
    | ErrorBody(error: string)
    | MessageBody(message: string)
    | RecordBody(record: Dict)
    | RecordsBody(records: seq<Dict>)

  datatype Response = Response(body: Body, status: int)

  /** `handle_database_errors`: a normal result passes through; every
      exception becomes a 400 response whose message depends on its kind. */
  function HandleDatabaseErrors(a: Attempt<Response>): (r: Response)
    ensures a.Returned? ==> r == a.value
    ensures a.Raised? ==> r.status == 400 && r.body.ErrorBody?
    ensures a == Raised(IntegrityError) ==> r.body == ErrorBody("Database integrity error")
    ensures a.Raised? && a.error.BadRequest? ==> r.body == ErrorBody("Malformed JSON")
    ensures a.Raised? && !a.error.IntegrityError? && !a.error.BadRequest? ==>
            r.body == ErrorBody("An error occurred: " + Describe(a.error))
  {
    match a
    case Returned(resp) => resp
    case Raised(IntegrityError) => Response(ErrorBody("Database integrity error"), 400)
    case Raised(BadRequest(_)) => Response(ErrorBody("Malformed JSON"), 400)
    case Raised(e) => Response(ErrorBody("An error occurred: " + Describe(e)), 400)
  }

  /** Stacking the decorator twice, as on `create_user`, behaves like once. */
  lemma HandleDatabaseErrorsIdempotent(a: Attempt<Response>)
    ensures HandleDatabaseErrors(Returned(HandleDatabaseErrors(a))) == HandleDatabaseErrors(a)
  {
  }
}
