/** The two tables as the database keeps them: rows in ascending primary-key
    order (the order SQLite returns a rowid table in when a query has no
    ORDER BY), and the column constraints of the models (NOT NULL, UNIQUE,
    a unique integer primary key) that a commit enforces. */
module Tables {
  import opened Common
  import opened Models
  import opened Numerals
  import Lists

  // ---------------------------------------------------------------------
  // Binding values to columns

  /** The values the `Boolean` type's bind processor lets through: None,
      True, False, and the integers 0 and 1 (which Python counts as False
      and True). Every other column takes any value. */
  predicate Accepted(ty: ColumnType, v: Value) {
    ty == BooleanType ==> v.Null? || v.Bool? || v == Int(0) || v == Int(1)
  }

  /** The value a column holds, and gives back, once `v` is stored in it.
      A TEXT column stores an integer as its decimal text (a Python bool is
      bound as 1 or 0); an INTEGER column stores integer text and a bool as
      numbers; a `Boolean` column reads 0 and 1 back as False and True.
      Anything else is stored as it is. */
  function Bound(ty: ColumnType, v: Value): Value {
    match ty
    case TextType =>
      (match v
       case Int(n) => Str(Decimal(n))
       case Bool(b) => Str(if b then "1" else "0")
       case _ => v)
    case IntegerType =>
      (match v
       case Bool(b) => Int(if b then 1 else 0)
       case Str(s) => if IntegerText(s).Some? then Int(IntegerText(s).value) else v
       case _ => v)
    case BooleanType =>
      if v == Int(0) then Bool(false) else if v == Int(1) then Bool(true) else v
  }

  /** The values a column holds: text or NULL in a TEXT column, a bool or
      NULL in a `Boolean` column, and in an INTEGER column a number, NULL,
      or text that does not read as an integer. */
  predicate Settled(ty: ColumnType, v: Value) {
    match ty
    case TextType => v.Null? || v.Str?
    case BooleanType => v.Null? || v.Bool?
    case IntegerType => v.Null? || v.Int? || (v.Str? && IntegerText(v.s).None?)
  }

  /** The values a column holds are exactly those it accepts and stores
      unchanged. */
  lemma SettledIsFixedPoint(ty: ColumnType, v: Value)
    ensures Settled(ty, v) <==> Accepted(ty, v) && Bound(ty, v) == v
  {
  }

  /** Storing an accepted value gives a value the column holds, and storing
      that again changes nothing. */
  lemma BoundSettles(ty: ColumnType, v: Value)
    requires Accepted(ty, v)
    ensures Settled(ty, Bound(ty, v))
    ensures Bound(ty, Bound(ty, v)) == Bound(ty, v)
  {
    if ty == TextType && v.Int? {
      assert Bound(ty, v).Str?;
    }
  }

  /** An integer stored in a TEXT column and copied into an INTEGER column
      comes back as the same integer. */
  lemma TextIntegerRoundTrip(n: int)
    ensures Bound(IntegerType, Bound(TextType, Int(n))) == Int(n)
  {
    DecimalParses(n);
  }

  /** The first line of the `StatementError` SQLAlchemy raises when a value
      cannot be bound to a `Boolean` column: a `ValueError` for an integer,
      a `TypeError` for anything else. */
  function BooleanRefusal(v: Value): string {
    if v.Int? then "(builtins.ValueError) Value " + Repr(v) + " is not None, True, or False"
    else "(builtins.TypeError) Not a boolean value: " + Repr(v)
  }

  /** Binding a row's values to its table's columns at flush time: every
      value is converted as its column stores it, or, when the `completed`
      column of a task is given a value its bind processor refuses, a
      `StatementError` is raised before anything is written. */
  function Bind(t: Table, row: Row): (r: Attempt<Row>)
    ensures r.Returned? <==> forall c :: c in row ==> Accepted(TypeOf(t, c), row[c])
    ensures r.Raised? ==> r.error == StatementError(BooleanRefusal(row["completed"]))
    ensures r.Returned? ==> r.value.Keys == row.Keys
    ensures r.Returned? ==> forall c :: c in row ==> r.value[c] == Bound(TypeOf(t, c), row[c])
    ensures r.Returned? ==> forall c :: c in r.value ==> Settled(TypeOf(t, c), r.value[c])
  {
    if t == Tasks && "completed" in row && !Accepted(BooleanType, row["completed"]) then
      Raised(StatementError(BooleanRefusal(row["completed"])))
    else
      assert forall c :: c in row ==> Accepted(TypeOf(t, c), row[c]);
      var bound := map c | c in row :: Bound(TypeOf(t, c), row[c]);
      assert forall c :: c in row ==> Settled(TypeOf(t, c), bound[c]) by {
        forall c | c in row
          ensures Settled(TypeOf(t, c), bound[c])
        {
          BoundSettles(TypeOf(t, c), row[c]);
        }
      }
      Returned(bound)
  }

  /** Binding a row whose every value is settled returns it unchanged. */
  lemma BindSettled(t: Table, row: Row)
    requires forall c :: c in row ==> Settled(TypeOf(t, c), row[c])
    ensures Bind(t, row) == Returned(row)
  {
    assert Bind(t, row).value == row;
  }

  /** Two rows that agree except in the primary key bind alike except in
      the primary key, which takes any value. */
  lemma BindBesideId(t: Table, a: Row, b: Row)
    requires a.Keys == b.Keys && Bind(t, a).Returned?
    requires forall c :: c in a && c != "id" ==> a[c] == b[c]
    ensures Bind(t, b).Returned?
    ensures forall c :: c in a && c != "id" ==> Bind(t, b).value[c] == Bind(t, a).value[c]
  {
    assert forall c :: c in b ==> Accepted(TypeOf(t, c), b[c]) by {
      forall c | c in b
        ensures Accepted(TypeOf(t, c), b[c])
      {
        if c != "id" { assert Accepted(TypeOf(t, c), a[c]); }
      }
    }
  }

  /** Merging `data` into a row whose values are settled, then binding,
      gives every supplied column its supplied value as the column stores
      it and leaves every other column as it was. */
  lemma BindMerged(t: Table, row: Row, data: Dict)
    requires forall c :: c in row ==> Settled(TypeOf(t, c), row[c])
    requires Bind(t, Merged(row, data)).Returned?
    ensures Bind(t, Merged(row, data)).value.Keys == row.Keys
    ensures forall c :: c in row ==>
              Bind(t, Merged(row, data)).value[c] ==
              (if Lookup(data, c).Some? then Bound(TypeOf(t, c), Lookup(data, c).value) else row[c])
  {
    MergedAt(row, data, "id");
    var bound := Bind(t, Merged(row, data)).value;
    forall c | c in row
      ensures bound[c] == if Lookup(data, c).Some? then Bound(TypeOf(t, c), Lookup(data, c).value) else row[c]
    {
      MergedAt(row, data, c);
    }
  }

  // ---------------------------------------------------------------------
  // Constraints

  /** A row satisfies its own constraints: the table's columns, each holding
      a value of its type, an integer primary key, and a value in every NOT
      NULL column. */
  predicate RowOk(t: Table, row: Row) {
    && WellFormed(t, row)
    && (forall c :: c in row ==> Settled(TypeOf(t, c), row[c]))
    && row["id"].Int?
    && forall c :: c in NotNullColumns(t) ==> row[c] != Null
  }

  /** Two rows do not clash on a UNIQUE column. */
  predicate Apart(t: Table, a: Row, b: Row) {
    forall c :: c in UniqueColumns(t) && c in a && c in b ==> a[c] != b[c]
  }

  /** Primary keys strictly increase along the table. */
  predicate Ascending(rows: seq<Row>) {
    forall i, j :: 0 <= i < j < |rows| ==> RowId(rows[i]) < RowId(rows[j])
  }

  /** The state a committed table is always in. */
  predicate TableOk(t: Table, rows: seq<Row>) {
    && Ascending(rows)
    && (forall a :: a in rows ==> RowOk(t, a))
    && (forall a, b :: a in rows && b in rows && RowId(a) != RowId(b) ==> Apart(t, a, b))
  }

  /** What a commit demands of a row added to `rows`. */
  predicate Admissible(t: Table, rows: seq<Row>, row: Row) {
    && RowOk(t, row)
    && FindRow(rows, RowId(row)).None?
    && forall a :: a in rows ==> Apart(t, a, row)
  }

  /** `rows` with `row` placed at the position its primary key calls for. */
  function InsertSorted(rows: seq<Row>, row: Row): (r: seq<Row>)
    ensures |r| == |rows| + 1
    ensures multiset(r) == multiset(rows) + multiset{row}
  {
    if rows == [] then [row]
    else if RowId(row) < RowId(rows[0]) then [row] + rows
    else
      assert rows == [rows[0]] + rows[1..];
      [rows[0]] + InsertSorted(rows[1..], row)
  }

  lemma InsertSortedMembers(rows: seq<Row>, row: Row, a: Row)
    ensures a in InsertSorted(rows, row) <==> a in rows || a == row
  {
    assert a in InsertSorted(rows, row) <==> a in multiset(InsertSorted(rows, row));
  }

  /** Inserting a row with a fresh key keeps the keys ascending. */
  lemma {:induction false} InsertSortedAscending(rows: seq<Row>, row: Row)
    requires Ascending(rows) && FindRow(rows, RowId(row)).None?
    ensures Ascending(InsertSorted(rows, row))
  {
    if rows != [] && RowId(row) >= RowId(rows[0]) {
      var rest := rows[1..];
      assert forall j :: 0 <= j < |rest| ==> rest[j] == rows[j + 1];
      InsertSortedAscending(rest, row);
      var tail := InsertSorted(rest, row);
      forall a | a in tail
        ensures RowId(rows[0]) < RowId(a)
      {
        InsertSortedMembers(rest, row, a);
      }
      assert forall j :: 0 <= j < |tail| ==> tail[j] in tail;
    }
  }

  /** A row whose key exceeds every key in the table goes at the end. */
  lemma {:induction false} InsertLargest(rows: seq<Row>, row: Row)
    requires forall i :: 0 <= i < |rows| ==> RowId(rows[i]) < RowId(row)
    ensures InsertSorted(rows, row) == rows + [row]
  {
    if rows != [] {
      InsertLargest(rows[1..], row);
      assert rows == [rows[0]] + rows[1..];
    }
  }

  /** An insertion that passes the commit keeps the table committed. */
  lemma InsertKeepsTableOk(t: Table, rows: seq<Row>, row: Row)
    requires TableOk(t, rows) && Admissible(t, rows, row)
    ensures TableOk(t, InsertSorted(rows, row))
  {
    InsertSortedAscending(rows, row);
    forall a | a in InsertSorted(rows, row)
      ensures a in rows || a == row
    {
      InsertSortedMembers(rows, row, a);
    }
    forall a, b | a in InsertSorted(rows, row) && b in InsertSorted(rows, row) && RowId(a) != RowId(b)
      ensures Apart(t, a, b)
    {
      InsertSortedMembers(rows, row, a);
      InsertSortedMembers(rows, row, b);
    }
  }

  /** `session.add(row); session.commit()`: the row's values are bound to
      their columns, and the bound row is stored if it passes every
      constraint. A value the binding refuses raises its StatementError, a
      broken constraint an IntegrityError, and either leaves the table as
      it was. */
  function Insert(t: Table, rows: seq<Row>, row: Row): (r: Attempt<seq<Row>>)
    requires TableOk(t, rows)
    ensures r.Returned? <==> Bind(t, row).Returned? && Admissible(t, rows, Bind(t, row).value)
    ensures r.Raised? ==> r.error == if Bind(t, row).Raised? then Bind(t, row).error else IntegrityError
    ensures r.Returned? ==> TableOk(t, r.value) && multiset(r.value) == multiset(rows) + multiset{Bind(t, row).value}
  {
    match Bind(t, row)
    case Raised(e) => Raised(e)
    case Returned(bound) =>
      if Admissible(t, rows, bound) then
        InsertKeepsTableOk(t, rows, bound);
        Returned(InsertSorted(rows, bound))
      else Raised(IntegrityError)
  }

  /** The primary key SQLite gives a row inserted without one: one more than
      the largest key in the table, or 1 in an empty table. */
  function NextId(rows: seq<Row>): (id: int)
    requires Ascending(rows)
    ensures forall i :: 0 <= i < |rows| ==> RowId(rows[i]) < id
    ensures rows == [] ==> id == 1
  {
    if rows == [] then 1 else RowId(rows[|rows| - 1]) + 1
  }

  /** `rows` without its `i`-th row. */
  function RemoveAt(rows: seq<Row>, i: nat): (r: seq<Row>)
    requires i < |rows|
    ensures |r| == |rows| - 1
    ensures forall k :: 0 <= k < i ==> r[k] == rows[k]
    ensures forall k :: i <= k < |r| ==> r[k] == rows[k + 1]
  {
    rows[..i] + rows[i + 1..]
  }

  /** Removing a row keeps the table committed, and in an ascending table
      no other row has the removed key. */
  lemma RemoveKeepsTableOk(t: Table, rows: seq<Row>, i: nat)
    requires i < |rows| && TableOk(t, rows)
    ensures TableOk(t, RemoveAt(rows, i))
    ensures FindRow(RemoveAt(rows, i), RowId(rows[i])).None?
  {
    var r := RemoveAt(rows, i);
    forall a | a in r
      ensures a in rows
    {
      var k :| 0 <= k < |r| && r[k] == a;
      if k < i { assert rows[k] == a; } else { assert rows[k + 1] == a; }
    }
  }

  /** In an ascending table, removing the row at `i` is the same as filtering
      out every row with its key. */
  lemma {:induction false} RemoveAtIsFilter(rows: seq<Row>, i: nat)
    requires i < |rows| && Ascending(rows)
    ensures RemoveAt(rows, i) == Lists.WithoutKey(rows, RowId(rows[i]), RowId)
  {
    var rest := rows[1..];
    AscendingTail(rows);
    if i == 0 {
      assert forall k :: 0 <= k < |rest| ==> RowId(rest[k]) == RowId(rows[k + 1]);
      Lists.WithoutAbsentKey(rest, RowId(rows[0]), RowId);
      assert RemoveAt(rows, 0) == rest;
    } else {
      assert RowId(rows[0]) < RowId(rows[i]);
      assert rest[i - 1] == rows[i];
      RemoveAtIsFilter(rest, i - 1);
      assert RemoveAt(rows, i) == [rows[0]] + RemoveAt(rest, i - 1);
    }
  }

  /** Putting a row back under its own key, in place of the row that had
      that key, is an update at the same position. */
  lemma {:induction false} ReinsertAt(rows: seq<Row>, i: nat, row: Row)
    requires i < |rows| && Ascending(rows) && RowId(row) == RowId(rows[i])
    ensures InsertSorted(RemoveAt(rows, i), row) == rows[i := row]
  {
    if i == 0 && |rows| == 1 {
      ReinsertSole(rows, row);
    } else if i == 0 {
      ReinsertHead(rows, row);
    } else {
      var rest := rows[1..];
      AscendingTail(rows);
      ReinsertAt(rest, i - 1, row);
      assert RowId(rows[0]) < RowId(rows[i]);
      ReinsertStep(rows, i, row);
    }
  }

  lemma AscendingTail(rows: seq<Row>)
    requires rows != [] && Ascending(rows)
    ensures Ascending(rows[1..])
  {
    var rest := rows[1..];
    forall j, k | 0 <= j < k < |rest|
      ensures RowId(rest[j]) < RowId(rest[k])
    {
      assert rest[j] == rows[j + 1] && rest[k] == rows[k + 1];
    }
  }

  lemma ReinsertSole(rows: seq<Row>, row: Row)
    requires |rows| == 1
    ensures InsertSorted(RemoveAt(rows, 0), row) == rows[0 := row]
  {
    assert RemoveAt(rows, 0) == [];
  }

  lemma ReinsertHead(rows: seq<Row>, row: Row)
    requires 1 < |rows| && Ascending(rows) && RowId(row) == RowId(rows[0])
    ensures InsertSorted(RemoveAt(rows, 0), row) == rows[0 := row]
  {
    var removed := RemoveAt(rows, 0);
    assert RowId(rows[0]) < RowId(rows[1]);
    assert removed[0] == rows[1];
    var r := InsertSorted(removed, row);
    assert r == [row] + removed;
    forall k | 0 <= k < |rows|
      ensures r[k] == rows[0 := row][k]
    {
      if k > 0 { assert r[k] == removed[k - 1]; }
    }
  }

  lemma ReinsertStep(rows: seq<Row>, i: nat, row: Row)
    requires 0 < i < |rows| && RowId(rows[0]) < RowId(row)
    requires InsertSorted(RemoveAt(rows[1..], i - 1), row) == rows[1..][i - 1 := row]
    ensures InsertSorted(RemoveAt(rows, i), row) == rows[i := row]
  {
    RemoveBehindHead(rows, i);
    InsertBehindHead(rows[0], RemoveAt(rows[1..], i - 1), row);
    UpdateBehindHead(rows, i, row);
  }

  lemma RemoveBehindHead(rows: seq<Row>, i: nat)
    requires 0 < i < |rows|
    ensures RemoveAt(rows, i) == [rows[0]] + RemoveAt(rows[1..], i - 1)
  {
    var a, b := RemoveAt(rows, i), [rows[0]] + RemoveAt(rows[1..], i - 1);
    forall k | 0 <= k < |a|
      ensures a[k] == b[k]
    {
      if k > 0 { assert b[k] == RemoveAt(rows[1..], i - 1)[k - 1]; }
    }
  }

  lemma InsertBehindHead(a: Row, rest: seq<Row>, row: Row)
    requires RowId(a) < RowId(row)
    ensures InsertSorted([a] + rest, row) == [a] + InsertSorted(rest, row)
  {
    assert ([a] + rest)[0] == a;
    assert ([a] + rest)[1..] == rest;
  }

  lemma UpdateBehindHead<T>(xs: seq<T>, i: nat, x: T)
    requires 0 < i < |xs|
    ensures xs[i := x] == [xs[0]] + xs[1..][i - 1 := x]
  {
  }
}
