/**
  The statements the generic handler builds (internal/gateway/dynamic_handler.go) and the table they
  run on.  A row maps column names to values.

  The handler compares body keys exactly, but writes them unquoted into the statement, where a database
  reads names in lower case.  This module takes the statement as the lists the handler builds; SqlCommands
  says when the text it prints from them reads back as these lists.
 */
module DynamicSql {
  import opened SqlText

  datatype Value = Id(number: nat) | Time(instant: int) | Json(text: string)

  type Row = map<string, Value>

  datatype Tenant = Tenant(org: Value, app: Value)

  /**
    The table's columns, their default values, and the checks a row must pass to be stored; the words of the
    language that cannot name a column; and what the database does with a text outside the modelled
    fragment, which may be anything.
   */
  datatype Schema = Schema(
    columns: set<string>,
    defaults: Row,
    accepts: Row -> bool,
    keywords: set<string>,
    other: (seq<Row>, string, seq<Value>) -> (seq<Row>, Outcome))
  {
    /** The column an unquoted name stands for. */
    function fold(name: string): string { LowerCase(name) }
  }

  const RESERVED: seq<string> := ["id", "organization_id", "app_id", "created_at", "updated_at"]

  // ----- Building the statements -----

  /** The handler's test, an exact comparison with each of the five names. */
  predicate Reserved(key: string) {
    key == "id" || key == "organization_id" || key == "app_id" || key == "created_at" || key == "updated_at"
  }

  /** The five names, by position: all of them, each once. */
  lemma ReservedKeys()
    ensures forall i: nat :: i < 5 ==> Reserved(RESERVED[i])
    ensures forall c :: Reserved(c) ==> exists i: nat :: i < 5 && RESERVED[i] == c
    ensures forall i: nat, j: nat :: i < j < 5 ==> RESERVED[i] != RESERVED[j]
  {
    assert RESERVED[0] == "id" && RESERVED[1] == "organization_id" && RESERVED[2] == "app_id";
    assert RESERVED[3] == "created_at" && RESERVED[4] == "updated_at";
  }

  datatype InsertSql = InsertSql(columns: seq<string>, placeholders: seq<nat>, values: seq<Value>)

  datatype Assignment = Assignment(column: string, placeholder: nat)

  datatype UpdateSql = UpdateSql(sets: seq<Assignment>, id: nat, org: nat, app: nat, values: seq<Value>)

  /**
    Placeholders 1..n for n arguments; the five leading columns are the handler's own, the others the
    body's, each once.
   */
  ghost predicate InsertFor(q: InsertSql, input: Row, id: Value, t: Tenant, now: Value) {
    && |q.columns| == |q.placeholders| == |q.values| >= 5
    && (forall i: nat :: i < |q.placeholders| ==> q.placeholders[i] == i + 1)
    && q.columns[..5] == RESERVED && q.values[..5] == [id, t.org, t.app, now, now]
    && BodyPart(q.columns[5..], q.values[5..], input)
  }

  /** updated_at is $1, the body's columns follow, and the last three arguments are the record, the org and the app. */
  ghost predicate UpdateFor(q: UpdateSql, input: Row, id: Value, t: Tenant, now: Value) {
    && |q.sets| >= 1 && |q.values| == |q.sets| + 3
    && (forall i: nat :: i < |q.sets| ==> q.sets[i].placeholder == i + 1)
    && q.sets[0].column == "updated_at" && q.values[0] == now
    && BodyPart(ColumnsOf(q.sets)[1..], q.values[1..|q.sets|], input)
    && q.id == |q.sets| + 1 && q.org == |q.sets| + 2 && q.app == |q.sets| + 3
    && q.values[|q.sets|..] == [id, t.org, t.app]
  }

  /** Every body key that is not reserved, once, in some order, with the body's value for it. */
  ghost predicate BodyPart(columns: seq<string>, values: seq<Value>, input: Row) {
    && |columns| == |values|
    && Distinct(columns)
    && (forall c :: c in columns <==> c in input && !Reserved(c))
    && (forall i: nat :: i < |columns| ==> columns[i] in input && values[i] == input[columns[i]])
  }

  predicate Distinct(columns: seq<string>) {
    forall i: nat, j: nat :: i < j < |columns| ==> columns[i] != columns[j]
  }

  function ColumnsOf(sets: seq<Assignment>): (columns: seq<string>) {
    seq(|sets|, i requires 0 <= i < |sets| => sets[i].column)
  }

  function PlaceholdersOf(sets: seq<Assignment>): (placeholders: seq<nat>)
    ensures |placeholders| == |sets|
  {
    seq(|sets|, i requires 0 <= i < |sets| => sets[i].placeholder)
  }

  /** handleCreate's loop over the body, in whatever order the keys come. */
  method BuildInsert(input: Row, recordId: Value, t: Tenant, now: Value) returns (q: InsertSql)
    ensures InsertFor(q, input, recordId, t, now)
  {
    hide Reserved;
    var columns := RESERVED;
    var values := [recordId, t.org, t.app, now, now];
    var placeholders: seq<nat> := [1, 2, 3, 4, 5];
    var paramIndex := 6;
    var keys := input.Keys;
    ghost var done: set<string> := {};
    while keys != {}
      invariant done !! keys && done + keys == input.Keys
      invariant |columns| == |placeholders| == |values| == paramIndex - 1 >= 5
      invariant forall i: nat :: i < |placeholders| ==> placeholders[i] == i + 1
      invariant columns[..5] == RESERVED && values[..5] == [recordId, t.org, t.app, now, now]
      invariant Distinct(columns[5..])
      invariant forall c :: c in columns[5..] <==> c in done && !Reserved(c)
      invariant forall i: nat :: i < |columns[5..]| ==>
        columns[5..][i] in input && values[5..][i] == input[columns[5..][i]]
    {
      var key :| key in keys;
      keys, done := keys - {key}, done + {key};
      if !Reserved(key) {
        assert (columns + [key])[5..] == columns[5..] + [key];
        assert (values + [input[key]])[5..] == values[5..] + [input[key]];
        columns := columns + [key];
        values := values + [input[key]];
        placeholders := placeholders + [paramIndex];
        paramIndex := paramIndex + 1;
      }
    }
    q := InsertSql(columns, placeholders, values);
  }

  /** handleUpdate's loop over the body. */
  method BuildUpdate(input: Row, recordId: Value, t: Tenant, now: Value) returns (q: UpdateSql)
    ensures UpdateFor(q, input, recordId, t, now)
  {
    hide Reserved;
    var sets := [Assignment("updated_at", 1)];
    var values := [now];
    var paramIndex := 2;
    var keys := input.Keys;
    ghost var done: set<string> := {};
    while keys != {}
      invariant done !! keys && done + keys == input.Keys
      invariant |sets| == |values| == paramIndex - 1 >= 1
      invariant forall i: nat :: i < |sets| ==> sets[i].placeholder == i + 1
      invariant sets[0].column == "updated_at" && values[0] == now
      invariant Distinct(ColumnsOf(sets)[1..])
      invariant forall c :: c in ColumnsOf(sets)[1..] <==> c in done && !Reserved(c)
      invariant forall i: nat :: i < |ColumnsOf(sets)[1..]| ==>
        ColumnsOf(sets)[1..][i] in input && values[1..][i] == input[ColumnsOf(sets)[1..][i]]
    {
      var key :| key in keys;
      keys, done := keys - {key}, done + {key};
      if !Reserved(key) {
        assert ColumnsOf(sets + [Assignment(key, paramIndex)])[1..] == ColumnsOf(sets)[1..] + [key];
        assert (values + [input[key]])[1..] == values[1..] + [input[key]];
        sets := sets + [Assignment(key, paramIndex)];
        values := values + [input[key]];
        paramIndex := paramIndex + 1;
      }
    }
    q := UpdateSql(sets, paramIndex, paramIndex + 1, paramIndex + 2, values + [recordId, t.org, t.app]);
    assert q.values[1..|q.sets|] == values[1..];
  }

  // ----- What a database makes of them -----

  /**
    The database refuses placeholders without an argument, arguments without a placeholder, and a column
    named twice.
   */
  predicate WellNumbered(placeholders: seq<nat>, values: seq<Value>) {
    && (forall p :: p in placeholders ==> 1 <= p <= |values|)
    && (forall k: nat :: 1 <= k <= |values| ==> k in placeholders)
  }

  /** In order are exactly the statements whose placeholders are the numbers of their arguments. */
  lemma WellNumberedMeans(placeholders: seq<nat>, values: seq<Value>)
    ensures WellNumbered(placeholders, values) <==> forall n: nat :: n in placeholders <==> 0 < n < |values| + 1
  {
  }

  /** The value each column gets: that of its placeholder's argument. */
  function Bound(columns: seq<string>, placeholders: seq<nat>, values: seq<Value>): (cells: Row)
    requires |columns| == |placeholders| && Distinct(columns) && forall p :: p in placeholders ==> 1 <= p <= |values|
  {
    map c | c in columns :: Argument(placeholders, values, PositionOf(columns, c))
  }

  function Argument(placeholders: seq<nat>, values: seq<Value>, i: nat): Value
    requires i < |placeholders| && forall p :: p in placeholders ==> 1 <= p <= |values|
  {
    assert placeholders[i] in placeholders;
    values[placeholders[i] - 1]
  }

  function PositionOf(columns: seq<string>, c: string): (i: nat)
    requires c in columns
    ensures i < |columns| && columns[i] == c
  {
    if columns[0] == c then 0 else 1 + PositionOf(columns[1..], c)
  }

  datatype Outcome = Rows(rows: seq<Row>) | Counted(count: nat) | Refused

  /** The column a name in a statement stands for; the handler's own names stand for themselves. */
  function ColumnNamed(schema: Schema, name: string): string {
    if Reserved(name) then name else schema.fold(name)
  }

  function ColumnsNamed(schema: Schema, names: seq<string>): (columns: seq<string>)
    ensures |columns| == |names|
  {
    seq(|names|, i requires 0 <= i < |names| => ColumnNamed(schema, names[i]))
  }

  function ExecInsert(schema: Schema, table: seq<Row>, q: InsertSql): (seq<Row>, Outcome) {
    var columns := ColumnsNamed(schema, q.columns);
    if |columns| != |q.placeholders| || !Distinct(columns) || !WellNumbered(q.placeholders, q.values)
    then (table, Refused)
    else InsertCells(schema, table, Bound(columns, q.placeholders, q.values))
  }

  function ExecUpdate(schema: Schema, table: seq<Row>, q: UpdateSql): (seq<Row>, Outcome) {
    var columns := ColumnsNamed(schema, ColumnsOf(q.sets));
    var placeholders := PlaceholdersOf(q.sets);
    var used := placeholders + [q.id, q.org, q.app];
    if !Distinct(columns) || !WellNumbered(used, q.values)
    then (table, Refused)
    else
      assert forall p :: p in placeholders ==> p in used;
      assert q.id in used && q.org in used && q.app in used;
      UpdateCells(schema, table, q.values[q.id - 1], Tenant(q.values[q.org - 1], q.values[q.app - 1]),
                  Bound(columns, placeholders, q.values))
  }

  /** One row more, unless a column is unknown, a check fails, or the id is taken. */
  function InsertCells(schema: Schema, table: seq<Row>, cells: Row): (seq<Row>, Outcome) {
    var row := schema.defaults + cells;
    if !(cells.Keys <= schema.columns) || !schema.accepts(row) || IdTaken(table, row) then (table, Refused)
    else (table + [row], Rows([row]))
  }

  predicate IdTaken(table: seq<Row>, row: Row) {
    "id" in row && exists r :: r in table && Holds(r, "id", row["id"])
  }

  /** The matching rows take the new cells, unless a column is unknown, a check fails, or a new id is taken. */
  function UpdateCells(schema: Schema, table: seq<Row>, id: Value, t: Tenant, cells: Row): (seq<Row>, Outcome) {
    if || !(cells.Keys <= schema.columns)
       || IdClashes(table, id, t, cells)
       || exists r :: r in table && Matches(r, id, t) && !schema.accepts(r + cells)
    then (table, Refused)
    else (Rewritten(table, id, t, cells), Rows(Extended(Matching(table, id, t), cells)))
  }

  /** Two rows would get one id, or a row would take the id of a row that is not updated. */
  predicate IdClashes(table: seq<Row>, id: Value, t: Tenant, cells: Row) {
    "id" in cells && Matching(table, id, t) != []
    && (|Matching(table, id, t)| > 1 || exists r :: r in table && !Matches(r, id, t) && Holds(r, "id", cells["id"]))
  }

  function Extended(rows: seq<Row>, cells: Row): (extended: seq<Row>)
    ensures |extended| == |rows|
  {
    seq(|rows|, i requires 0 <= i < |rows| => rows[i] + cells)
  }

  predicate Holds(row: Row, column: string, value: Value) {
    column in row && row[column] == value
  }

  predicate Owned(row: Row, t: Tenant) {
    Holds(row, "organization_id", t.org) && Holds(row, "app_id", t.app)
  }

  predicate Matches(row: Row, id: Value, t: Tenant) {
    Holds(row, "id", id) && Owned(row, t)
  }

  function Matching(table: seq<Row>, id: Value, t: Tenant): seq<Row> {
    if table == [] then []
    else if Matches(table[0], id, t) then [table[0]] + Matching(table[1..], id, t)
    else Matching(table[1..], id, t)
  }

  lemma {:induction false} MatchingFinds(table: seq<Row>, id: Value, t: Tenant)
    ensures forall r :: r in Matching(table, id, t) <==> r in table && Matches(r, id, t)
    ensures Matching(table, id, t) == [] <==> forall r :: r in table ==> !Matches(r, id, t)
  {
    if table != [] {
      MatchingFinds(table[1..], id, t);
    }
  }

  function Rewritten(table: seq<Row>, id: Value, t: Tenant, cells: Row): (after: seq<Row>)
    ensures |after| == |table|
  {
    if table == [] then []
    else [if Matches(table[0], id, t) then table[0] + cells else table[0]] + Rewritten(table[1..], id, t, cells)
  }

  // ----- The statements mean what the body says -----

  /** No two body keys stand for one column. */
  predicate OneColumnEach(schema: Schema, input: Row) {
    forall k, l :: k in input && l in input && !Reserved(k) && !Reserved(l) && k != l ==>
      schema.fold(k) != schema.fold(l)
  }

  /** The columns the body names, without the reserved keys. */
  function BodyCells(schema: Schema, input: Row): (cells: Row)
    requires OneColumnEach(schema, input)
  {
    map k | k in input && !Reserved(k) :: schema.fold(k) := input[k]
  }

  /** An INSERT names no column twice: the body's columns differ from each other and from the handler's five. */
  predicate InsertNames(schema: Schema, input: Row) {
    OneColumnEach(schema, input) && forall k :: k in input && !Reserved(k) ==> !Reserved(schema.fold(k))
  }

  /** An UPDATE names no column twice; it sets only updated_at itself. */
  predicate UpdateNames(schema: Schema, input: Row) {
    OneColumnEach(schema, input) && forall k :: k in input && !Reserved(k) ==> schema.fold(k) != "updated_at"
  }

  function CreateCells(schema: Schema, input: Row, id: Value, t: Tenant, now: Value): Row
    requires OneColumnEach(schema, input)
  {
    BodyCells(schema, input) +
    map["id" := id, "organization_id" := t.org, "app_id" := t.app, "created_at" := now, "updated_at" := now]
  }

  function UpdatedCells(schema: Schema, input: Row, now: Value): Row
    requires OneColumnEach(schema, input)
  {
    BodyCells(schema, input) + map["updated_at" := now]
  }

  /** The positions of the body's keys in a statement, and where each column comes from. */
  lemma BodyAt(schema: Schema, names: seq<string>, input: Row, first: nat)
    requires first <= |names| && (forall c :: c in names[first..] <==> c in input && !Reserved(c))
    ensures forall i: nat :: first <= i < |names| ==>
      names[i] in input && !Reserved(names[i]) && ColumnsNamed(schema, names)[i] == schema.fold(names[i])
    ensures forall k :: k in input && !Reserved(k) ==> exists i: nat :: first <= i < |names| && names[i] == k
  {
    forall i: nat | first <= i < |names| ensures names[i] in names[first..] {
      assert names[first..][i - first] == names[i];
    }
    forall k | k in input && !Reserved(k) ensures exists i: nat :: first <= i < |names| && names[i] == k {
      var j: nat :| j < |names[first..]| && names[first..][j] == k;
      assert names[first + j] == k;
    }
  }

  /** The body's columns are distinct exactly when its keys stand for one column each. */
  lemma BodyDistinct(schema: Schema, names: seq<string>, input: Row, first: nat)
    requires first <= |names| && Distinct(names[first..])
    requires forall c :: c in names[first..] <==> c in input && !Reserved(c)
    ensures OneColumnEach(schema, input) <==>
      (forall i: nat, j: nat :: first <= i < j < |names| ==>
        ColumnsNamed(schema, names)[i] != ColumnsNamed(schema, names)[j])
  {
    BodyAt(schema, names, input, first);
    assert forall i: nat, j: nat :: first <= i < j < |names| ==> names[i] != names[j] by {
      TailDistinct(names, first);
    }
    hide Distinct, ColumnsNamed;
    FoldsDistinct(schema, names, ColumnsNamed(schema, names), input, first);
  }

  lemma TailDistinct(names: seq<string>, first: nat)
    requires first <= |names| && Distinct(names[first..])
    ensures forall i: nat, j: nat :: first <= i < j < |names| ==> names[i] != names[j]
  {
    forall i: nat, j: nat | first <= i < j < |names| ensures names[i] != names[j] {
      assert names[first..][i - first] == names[i] && names[first..][j - first] == names[j];
    }
  }

  lemma FoldsDistinct(schema: Schema, names: seq<string>, columns: seq<string>, input: Row, first: nat)
    requires first <= |names| == |columns|
    requires forall i: nat, j: nat :: first <= i < j < |names| ==> names[i] != names[j]
    requires forall i: nat :: first <= i < |names| ==>
      names[i] in input && !Reserved(names[i]) && columns[i] == schema.fold(names[i])
    requires forall k :: k in input && !Reserved(k) ==> exists i: nat :: first <= i < |names| && names[i] == k
    ensures OneColumnEach(schema, input) <==>
      (forall i: nat, j: nat :: first <= i < j < |names| ==> columns[i] != columns[j])
  {
    if forall i: nat, j: nat :: first <= i < j < |names| ==> columns[i] != columns[j] {
      forall k, l | k in input && l in input && !Reserved(k) && !Reserved(l) && k != l
        ensures schema.fold(k) != schema.fold(l)
      {
        var i: nat :| first <= i < |names| && names[i] == k;
        var j: nat :| first <= j < |names| && names[j] == l;
        assert i < j || j < i;
      }
    }
  }

  /**
    Whatever the order of the keys, the built INSERT adds the row the body and the handler's five columns
    describe; it is refused when some column would be named twice.
   */
  lemma InsertMeans(schema: Schema, table: seq<Row>, q: InsertSql, input: Row, id: Value, t: Tenant, now: Value)
    requires InsertFor(q, input, id, t, now)
    ensures ExecInsert(schema, table, q) ==
      if InsertNames(schema, input) then InsertCells(schema, table, CreateCells(schema, input, id, t, now))
      else (table, Refused)
  {
    hide InsertFor, Distinct, Bound, WellNumbered;
    assert WellNumbered(q.placeholders, q.values) && |q.columns| == |q.placeholders| by {
      InsertNumbered(q, input, id, t, now);
    }
    InsertDistinct(schema, q, input, id, t, now);
    if InsertNames(schema, input) {
      InsertBinds(schema, q, input, id, t, now);
    }
  }

  lemma InsertNumbered(q: InsertSql, input: Row, id: Value, t: Tenant, now: Value)
    requires InsertFor(q, input, id, t, now)
    ensures WellNumbered(q.placeholders, q.values) && |q.columns| == |q.placeholders|
  {
    forall k: nat | 1 <= k <= |q.values| ensures k in q.placeholders {
      assert q.placeholders[k - 1] == k;
    }
  }

  lemma HandlersColumns(schema: Schema, q: InsertSql)
    requires |q.columns| >= 5 && q.columns[..5] == RESERVED
    ensures forall i: nat :: i < 5 ==> ColumnsNamed(schema, q.columns)[i] == RESERVED[i]
  {
    forall i: nat | i < 5 ensures q.columns[i] == RESERVED[i] {
      assert q.columns[..5][i] == q.columns[i];
    }
  }

  lemma InsertDistinct(schema: Schema, q: InsertSql, input: Row, id: Value, t: Tenant, now: Value)
    requires InsertFor(q, input, id, t, now)
    ensures Distinct(ColumnsNamed(schema, q.columns)) <==> InsertNames(schema, input)
  {
    hide Reserved;
    ReservedKeys();
    var names, columns := q.columns, ColumnsNamed(schema, q.columns);
    HandlersColumns(schema, q);
    BodyAt(schema, names, input, 5);
    BodyDistinct(schema, names, input, 5);
    hide ColumnsNamed, OneColumnEach, BodyPart;
    if InsertNames(schema, input) {
      forall i: nat, j: nat | i < j < |columns| ensures columns[i] != columns[j] {
        if i < 5 <= j {
          assert Reserved(RESERVED[i]) && !Reserved(columns[j]);
        }
      }
    }
    if Distinct(columns) {
      forall k | k in input && !Reserved(k) ensures !Reserved(schema.fold(k)) {
        var j: nat :| 5 <= j < |names| && names[j] == k;
        assert forall i: nat :: i < 5 ==> columns[i] != columns[j] && columns[i] == RESERVED[i];
      }
    }
  }

  /** With the placeholders counted upwards each column is bound to the argument at its own place. */
  lemma BoundInOrder(columns: seq<string>, placeholders: seq<nat>, values: seq<Value>, cells: Row)
    requires |columns| == |placeholders| <= |values| && Distinct(columns)
    requires forall i: nat :: i < |placeholders| ==> placeholders[i] == i + 1
    requires forall i: nat :: i < |columns| ==> Holds(cells, columns[i], values[i])
    requires forall c :: c in cells ==> c in columns
    ensures Bound(columns, placeholders, values) == cells
  {
  }

  lemma InsertBinds(schema: Schema, q: InsertSql, input: Row, id: Value, t: Tenant, now: Value)
    requires InsertFor(q, input, id, t, now) && InsertNames(schema, input)
    requires Distinct(ColumnsNamed(schema, q.columns)) && WellNumbered(q.placeholders, q.values)
    ensures Bound(ColumnsNamed(schema, q.columns), q.placeholders, q.values) == CreateCells(schema, input, id, t, now)
  {
    var columns, cells := ColumnsNamed(schema, q.columns), CreateCells(schema, input, id, t, now);
    HandlersColumns(schema, q);
    BodyAt(schema, q.columns, input, 5);
    hide Distinct, Bound, ColumnsNamed, WellNumbered;
    forall i: nat | i < |columns| ensures Holds(cells, columns[i], q.values[i]) {
      InsertCellAt(schema, q, input, id, t, now, i);
    }
    forall c | c in cells ensures c in columns {
      CellFromColumn(schema, input, id, t, now, columns, q.columns, c);
    }
    BoundInOrder(columns, q.placeholders, q.values, cells);
  }

  lemma CellFromColumn(schema: Schema, input: Row, id: Value, t: Tenant, now: Value,
                       columns: seq<string>, names: seq<string>, c: string)
    requires OneColumnEach(schema, input) && 5 <= |columns| == |names|
    requires forall i: nat :: i < 5 ==> columns[i] == RESERVED[i]
    requires forall i: nat :: 5 <= i < |columns| ==> columns[i] == schema.fold(names[i])
    requires forall k :: k in input && !Reserved(k) ==> exists i: nat :: 5 <= i < |names| && names[i] == k
    ensures c in CreateCells(schema, input, id, t, now) ==> c in columns
  {
    if Reserved(c) {
      ReservedKeys();
      var i: nat :| i < 5 && RESERVED[i] == c;
      assert columns[i] == c;
    } else if c in CreateCells(schema, input, id, t, now) {
      assert c in BodyCells(schema, input);
      var k :| k in input && !Reserved(k) && schema.fold(k) == c;
      hide OneColumnEach, BodyCells, CreateCells, Reserved;
      var i: nat :| 5 <= i < |names| && names[i] == k;
      assert columns[i] == c;
    }
  }

  lemma InsertCellAt(schema: Schema, q: InsertSql, input: Row, id: Value, t: Tenant, now: Value, i: nat)
    requires InsertFor(q, input, id, t, now) && InsertNames(schema, input) && i < |q.columns|
    ensures Holds(CreateCells(schema, input, id, t, now), ColumnsNamed(schema, q.columns)[i], q.values[i])
  {
    if i < 5 {
      HandlersColumns(schema, q);
      assert q.values[i] == q.values[..5][i];
      hide InsertNames, OneColumnEach, BodyCells, BodyPart, Distinct, Reserved, ColumnsNamed;
    } else {
      assert q.columns[i] == q.columns[5..][i - 5] && q.values[i] == q.values[5..][i - 5];
      assert q.columns[i] in q.columns[5..];
      hide Distinct, Reserved, CreateCells, BodyCells, OneColumnEach;
      BodyCell(schema, input, q.columns[i]);
      BodyCellStays(schema, input, id, t, now, schema.fold(q.columns[i]));
    }
  }

  lemma BodyCellStays(schema: Schema, input: Row, id: Value, t: Tenant, now: Value, c: string)
    requires OneColumnEach(schema, input) && !Reserved(c) && c in BodyCells(schema, input)
    ensures Holds(CreateCells(schema, input, id, t, now), c, BodyCells(schema, input)[c])
  {
    hide OneColumnEach, BodyCells;
  }

  lemma BodyCell(schema: Schema, input: Row, k: string)
    requires OneColumnEach(schema, input) && k in input && !Reserved(k)
    ensures Holds(BodyCells(schema, input), schema.fold(k), input[k])
  {
  }

  /**
    The built UPDATE changes only the record named, for the caller's org and app, to the body's values;
    it is refused when some column would be set twice.
   */
  lemma UpdateMeans(schema: Schema, table: seq<Row>, q: UpdateSql, input: Row, id: Value, t: Tenant, now: Value)
    requires UpdateFor(q, input, id, t, now)
    ensures ExecUpdate(schema, table, q) ==
      if UpdateNames(schema, input) then UpdateCells(schema, table, id, t, UpdatedCells(schema, input, now))
      else (table, Refused)
  {
    var placeholders, n := PlaceholdersOf(q.sets), |q.sets|;
    assert q.values[n] == q.values[n..][0] && q.values[n + 1] == q.values[n..][1];
    assert q.values[n + 2] == q.values[n..][2];
    UpdateNumbered(q, input, id, t, now);
    UpdateDistinct(schema, q, input, id, t, now);
    hide Distinct, Bound, BodyPart, WellNumbered;
    if UpdateNames(schema, input) {
      UpdateBinds(schema, q, input, id, t, now);
    }
  }

  lemma UpdateNumbered(q: UpdateSql, input: Row, id: Value, t: Tenant, now: Value)
    requires UpdateFor(q, input, id, t, now)
    ensures WellNumbered(PlaceholdersOf(q.sets) + [q.id, q.org, q.app], q.values)
  {
    var all := PlaceholdersOf(q.sets) + [q.id, q.org, q.app];
    forall k: nat | 1 <= k <= |q.values| ensures k in all {
      assert all[k - 1] == k;
    }
  }

  lemma UpdateDistinct(schema: Schema, q: UpdateSql, input: Row, id: Value, t: Tenant, now: Value)
    requires UpdateFor(q, input, id, t, now)
    ensures Distinct(ColumnsNamed(schema, ColumnsOf(q.sets))) <==> UpdateNames(schema, input)
  {
    var names := ColumnsOf(q.sets);
    var columns := ColumnsNamed(schema, names);
    BodyAt(schema, names, input, 1);
    BodyDistinct(schema, names, input, 1);
    assert Reserved("updated_at") && columns[0] == "updated_at";
    hide ColumnsNamed, OneColumnEach, BodyPart;
    if Distinct(columns) {
      forall k | k in input && !Reserved(k) ensures schema.fold(k) != "updated_at" {
        var j: nat :| 1 <= j < |names| && names[j] == k;
        assert columns[0] != columns[j];
      }
    }
  }

  lemma UpdateBinds(schema: Schema, q: UpdateSql, input: Row, id: Value, t: Tenant, now: Value)
    requires UpdateFor(q, input, id, t, now) && UpdateNames(schema, input)
    requires Distinct(ColumnsNamed(schema, ColumnsOf(q.sets)))
    requires forall p :: p in PlaceholdersOf(q.sets) ==> 1 <= p <= |q.values|
    ensures Bound(ColumnsNamed(schema, ColumnsOf(q.sets)), PlaceholdersOf(q.sets), q.values) ==
            UpdatedCells(schema, input, now)
  {
    var names := ColumnsOf(q.sets);
    var columns, cells := ColumnsNamed(schema, names), UpdatedCells(schema, input, now);
    BodyAt(schema, names, input, 1);
    assert Reserved("updated_at") && columns[0] == "updated_at";
    hide Distinct, Bound, ColumnsNamed;
    forall i: nat | i < |columns| ensures Holds(cells, columns[i], q.values[i]) {
      UpdateCellAt(schema, q, input, id, t, now, i);
    }
    forall c | c in cells ensures c in columns {
      if c != "updated_at" {
        var k :| k in input && !Reserved(k) && schema.fold(k) == c;
        var i: nat :| 1 <= i < |names| && names[i] == k;
        assert columns[i] == c;
      }
    }
    BoundInOrder(columns, PlaceholdersOf(q.sets), q.values, cells);
  }

  lemma UpdateCellAt(schema: Schema, q: UpdateSql, input: Row, id: Value, t: Tenant, now: Value, i: nat)
    requires UpdateFor(q, input, id, t, now) && UpdateNames(schema, input) && i < |q.sets|
    ensures Holds(UpdatedCells(schema, input, now), ColumnNamed(schema, q.sets[i].column), q.values[i])
  {
    var names := ColumnsOf(q.sets);
    if i == 0 {
      assert Reserved("updated_at");
    } else {
      assert names[i] == names[1..][i - 1] && q.values[i] == q.values[1..|q.sets|][i - 1];
      assert names[i] in names[1..] && names[i] in input && !Reserved(names[i]) && q.values[i] == input[names[i]];
      hide UpdateFor, BodyPart, ColumnsOf, Distinct, OneColumnEach, BodyCells;
      BodyCell(schema, input, names[i]);
    }
  }
}
