/**
  The statements as the database gets them: a text and its arguments.  What the text reads as is executed,
  whatever it was meant to be; a text outside the modelled fragment does what the schema's other says.
 */
module SqlCommands {
  import opened Outcomes
  import opened SqlText
  import opened DynamicSql

  // ----- Executing what was read -----

  /** A number in the text stands for itself. */
  function Eval(e: Expr, values: seq<Value>): Value
    requires e.Param? ==> 1 <= e.n <= |values|
  {
    match e
    case Param(n) => values[n - 1]
    case Literal(n) => Id(n)
  }

  function ParamsIn(exprs: seq<Expr>): seq<nat> {
    if exprs == [] then []
    else if exprs[0].Param? then [exprs[0].n] + ParamsIn(exprs[1..])
    else ParamsIn(exprs[1..])
  }

  function Flat(rows: seq<seq<Expr>>): seq<Expr> {
    if rows == [] then [] else rows[0] + Flat(rows[1..])
  }

  predicate Evaluable(exprs: seq<Expr>, values: seq<Value>) {
    forall e :: e in exprs && e.Param? ==> 1 <= e.n <= |values|
  }

  function CellsOf(columns: seq<string>, exprs: seq<Expr>, values: seq<Value>): Row
    requires |columns| == |exprs| && Evaluable(exprs, values)
  {
    map c | c in columns :: EvalAt(exprs, values, PositionOf(columns, c))
  }

  function EvalAt(exprs: seq<Expr>, values: seq<Value>, i: nat): Value
    requires i < |exprs| && Evaluable(exprs, values)
  {
    assert exprs[i] in exprs;
    Eval(exprs[i], values)
  }

  predicate InsertFits(cmd: InsertCommand, values: seq<Value>) {
    && Distinct(cmd.columns)
    && (forall row :: row in cmd.rows ==> |row| == |cmd.columns| && Evaluable(row, values))
    && WellNumbered(ParamsIn(Flat(cmd.rows)), values)
  }

  /** The rows a command brings, in order. */
  function RowsOf(schema: Schema, cmd: InsertCommand, values: seq<Value>): (rows: seq<Row>)
    requires InsertFits(cmd, values)
    ensures |rows| == |cmd.rows|
  {
    seq(|cmd.rows|, i requires 0 <= i < |cmd.rows| =>
      assert cmd.rows[i] in cmd.rows;
      schema.defaults + CellsOf(cmd.columns, cmd.rows[i], values))
  }

  predicate IdsFree(table: seq<Row>, rows: seq<Row>) {
    && (forall r :: r in rows ==> !IdTaken(table, r))
    && (forall i: nat, j: nat :: i < j < |rows| && "id" in rows[j] ==> !Holds(rows[i], "id", rows[j]["id"]))
  }

  /** All rows go in, or none. */
  function ExecInsertCommand(schema: Schema, table: seq<Row>, cmd: InsertCommand, values: seq<Value>)
    : (seq<Row>, Outcome)
  {
    if !InsertFits(cmd, values) then (table, Refused)
    else
      var rows := RowsOf(schema, cmd, values);
      if (exists c :: c in cmd.columns && c !in schema.columns) || (exists r :: r in rows && !schema.accepts(r))
         || !IdsFree(table, rows)
      then (table, Refused)
      else (table + rows, Rows(if cmd.returning then rows else []))
  }

  predicate Meets(row: Row, filter: seq<(string, Value)>) {
    forall f :: f in filter ==> Holds(row, f.0, f.1)
  }

  function MeetingRows(table: seq<Row>, filter: seq<(string, Value)>): seq<Row> {
    if table == [] then []
    else if Meets(table[0], filter) then [table[0]] + MeetingRows(table[1..], filter)
    else MeetingRows(table[1..], filter)
  }

  function RewrittenWhere(table: seq<Row>, filter: seq<(string, Value)>, cells: Row): (after: seq<Row>)
    ensures |after| == |table|
  {
    if table == [] then []
    else [if Meets(table[0], filter) then table[0] + cells else table[0]] + RewrittenWhere(table[1..], filter, cells)
  }

  function UpdateWhere(schema: Schema, table: seq<Row>, filter: seq<(string, Value)>, cells: Row, returning: bool)
    : (seq<Row>, Outcome)
  {
    var found := MeetingRows(table, filter);
    if || !(cells.Keys <= schema.columns)
       || ("id" in cells && found != []
           && (|found| > 1 || exists r :: r in table && !Meets(r, filter) && Holds(r, "id", cells["id"])))
       || exists r :: r in table && Meets(r, filter) && !schema.accepts(r + cells)
    then (table, Refused)
    else (RewrittenWhere(table, filter, cells), Rows(if returning then Extended(found, cells) else []))
  }

  function ColumnsIn(equations: seq<Equation>): (columns: seq<string>)
    ensures |columns| == |equations|
  {
    seq(|equations|, i requires 0 <= i < |equations| => equations[i].column)
  }

  function ExprsIn(equations: seq<Equation>): (exprs: seq<Expr>)
    ensures |exprs| == |equations|
  {
    seq(|equations|, i requires 0 <= i < |equations| => equations[i].value)
  }

  predicate UpdateFits(cmd: UpdateCommand, values: seq<Value>) {
    && Distinct(ColumnsIn(cmd.sets))
    && Evaluable(ExprsIn(cmd.sets), values) && Evaluable(ExprsIn(cmd.conditions), values)
    && WellNumbered(ParamsIn(ExprsIn(cmd.sets) + ExprsIn(cmd.conditions)), values)
  }

  function SetCells(cmd: UpdateCommand, values: seq<Value>): Row
    requires UpdateFits(cmd, values)
  {
    CellsOf(ColumnsIn(cmd.sets), ExprsIn(cmd.sets), values)
  }

  function FilterOf(equations: seq<Equation>, values: seq<Value>): (filter: seq<(string, Value)>)
    requires Evaluable(ExprsIn(equations), values)
    ensures |filter| == |equations|
  {
    seq(|equations|, i requires 0 <= i < |equations| =>
      (equations[i].column, EvalAt(ExprsIn(equations), values, i)))
  }

  function ExecUpdateCommand(schema: Schema, table: seq<Row>, cmd: UpdateCommand, values: seq<Value>)
    : (seq<Row>, Outcome)
  {
    if !UpdateFits(cmd, values) then (table, Refused)
    else UpdateWhere(schema, table, FilterOf(cmd.conditions, values), SetCells(cmd, values), cmd.returning)
  }

  // ----- From the text on -----

  function TextOfInsert(q: InsertSql): string {
    InsertText(q.columns, q.placeholders)
  }

  function TextOfUpdate(q: UpdateSql): string {
    UpdateText(ColumnsOf(q.sets), PlaceholdersOf(q.sets), q.id, q.org, q.app)
  }

  function RunInsert(schema: Schema, table: seq<Row>, q: InsertSql): (seq<Row>, Outcome) {
    match ReadInsert(schema.keywords, Lex(TextOfInsert(q)))
    case Some(cmd) => ExecInsertCommand(schema, table, cmd, q.values)
    case None => schema.other(table, TextOfInsert(q), q.values)
  }

  function RunUpdate(schema: Schema, table: seq<Row>, q: UpdateSql): (seq<Row>, Outcome) {
    match ReadUpdate(schema.keywords, Lex(TextOfUpdate(q)))
    case Some(cmd) => ExecUpdateCommand(schema, table, cmd, q.values)
    case None => schema.other(table, TextOfUpdate(q), q.values)
  }

  // ----- Plain keys -----

  /** A test a caller can make on a body: every key the handler takes over is one plain name. */
  predicate PlainBody(schema: Schema, input: Row) {
    forall k :: k in input && !Reserved(k) ==> PlainName(schema.keywords, k)
  }

  lemma ReservedIsOwn(name: string)
    ensures Reserved(name) <==> name in OWN_NAMES
  {
  }

  /** The columns of a statement with plain names are read in lower case. */
  lemma PlainColumns(schema: Schema, names: seq<string>, input: Row, first: nat)
    requires first <= |names| && PlainBody(schema, input)
    requires forall i: nat :: i < first ==> Reserved(names[i])
    requires forall c :: c in names[first..] <==> c in input && !Reserved(c)
    ensures AllPlain(schema.keywords, names) && LowerAll(names) == ColumnsNamed(schema, names)
  {
    hide PlainName, LowerCase, Reserved;
    forall i: nat | i < |names|
      ensures PlainName(schema.keywords, names[i]) && LowerCase(names[i]) == ColumnNamed(schema, names[i])
    {
      if Reserved(names[i]) {
        ReservedIsOwn(names[i]);
        OwnNamesArePlain(schema.keywords, names[i]);
      } else {
        assert names[first..][i - first] == names[i];
      }
    }
  }

  lemma {:induction false} ParamsInParams(placeholders: seq<nat>)
    ensures ParamsIn(Params(placeholders)) == placeholders
  {
    if placeholders != [] {
      assert Params(placeholders) == [Param(placeholders[0])] + Params(placeholders[1..]);
      ParamsInParams(placeholders[1..]);
    }
  }

  /** Arguments only: the cells are those of the lists. */
  lemma CellsBound(columns: seq<string>, placeholders: seq<nat>, values: seq<Value>)
    requires |columns| == |placeholders| && Distinct(columns) && forall p :: p in placeholders ==> 1 <= p <= |values|
    ensures Evaluable(Params(placeholders), values)
    ensures CellsOf(columns, Params(placeholders), values) == Bound(columns, placeholders, values)
  {
    forall e | e in Params(placeholders) ensures e.Param? && 1 <= e.n <= |values| {
      var i: nat :| i < |placeholders| && Params(placeholders)[i] == e;
      assert placeholders[i] in placeholders;
    }
  }

  lemma OneRow(schema: Schema, table: seq<Row>, columns: seq<string>, placeholders: seq<nat>, values: seq<Value>)
    requires |columns| == |placeholders|
    ensures ExecInsertCommand(schema, table, InsertCommand(columns, [Params(placeholders)], true), values) ==
      if !Distinct(columns) || !WellNumbered(placeholders, values) then (table, Refused)
      else InsertCells(schema, table, Bound(columns, placeholders, values))
  {
    var cmd := InsertCommand(columns, [Params(placeholders)], true);
    assert Flat(cmd.rows) == Params(placeholders) by { assert cmd.rows[1..] == []; }
    ParamsInParams(placeholders);
    if Distinct(columns) && WellNumbered(placeholders, values) {
      CellsBound(columns, placeholders, values);
      var cells := Bound(columns, placeholders, values);
      assert RowsOf(schema, cmd, values) == [schema.defaults + cells];
      hide Bound, CellsOf, WellNumbered, Evaluable;
      assert forall c :: c in cells <==> c in columns;
    }
  }

  /**
    Printed, read and executed, the INSERT of a plain body adds the row the body and the handler's five
    columns describe, whatever the order of the keys; it is refused when some column would be named twice.
   */
  lemma InsertTextMeans(schema: Schema, table: seq<Row>, q: InsertSql, input: Row, id: Value, t: Tenant, now: Value)
    requires InsertFor(q, input, id, t, now) && PlainBody(schema, input)
    ensures RunInsert(schema, table, q) ==
      if InsertNames(schema, input) then InsertCells(schema, table, CreateCells(schema, input, id, t, now))
      else (table, Refused)
  {
    ReservedKeys();
    assert forall i: nat :: i < 5 ==> q.columns[i] == q.columns[..5][i] == RESERVED[i];
    PlainColumns(schema, q.columns, input, 5);
    assert q.columns != [] && q.placeholders != [] && |q.columns| == |q.placeholders|;
    hide InsertFor, PlainBody, AllPlain, LowerAll, Reserved, InsertNames, ReadInsert, Lex;
    InsertRead(schema.keywords, q.columns, q.placeholders);
    OneRow(schema, table, ColumnsNamed(schema, q.columns), q.placeholders, q.values);
    InsertMeans(schema, table, q, input, id, t, now);
  }

  // ----- The UPDATE -----

  function OwnFilter(id: Value, t: Tenant): seq<(string, Value)> {
    [("id", id), ("organization_id", t.org), ("app_id", t.app)]
  }

  lemma MeetsOwn(row: Row, id: Value, t: Tenant)
    ensures Meets(row, OwnFilter(id, t)) <==> Matches(row, id, t)
  {
    var filter := OwnFilter(id, t);
    assert filter[0] in filter && filter[1] in filter && filter[2] in filter;
  }

  lemma {:induction false} WhereOwn(table: seq<Row>, id: Value, t: Tenant, cells: Row)
    ensures MeetingRows(table, OwnFilter(id, t)) == Matching(table, id, t)
    ensures RewrittenWhere(table, OwnFilter(id, t), cells) == Rewritten(table, id, t, cells)
  {
    hide Meets, Matches, OwnFilter;
    if table != [] {
      MeetsOwn(table[0], id, t);
      WhereOwn(table[1..], id, t, cells);
    }
  }

  lemma UpdateWhereOwn(schema: Schema, table: seq<Row>, id: Value, t: Tenant, cells: Row)
    ensures UpdateWhere(schema, table, OwnFilter(id, t), cells, true) == UpdateCells(schema, table, id, t, cells)
  {
    hide Meets, Matches, OwnFilter;
    WhereOwn(table, id, t, cells);
    forall r ensures Meets(r, OwnFilter(id, t)) <==> Matches(r, id, t) {
      MeetsOwn(r, id, t);
    }
  }

  /** The handler's condition, read from the text, is the filter on the record, the org and the app. */
  lemma OwnConditionsFilter(id: nat, org: nat, app: nat, values: seq<Value>)
    requires 1 <= id <= |values| && 1 <= org <= |values| && 1 <= app <= |values|
    ensures Evaluable(ExprsIn(OwnConditions(id, org, app)), values)
    ensures FilterOf(OwnConditions(id, org, app), values) ==
      OwnFilter(values[id - 1], Tenant(values[org - 1], values[app - 1]))
  {
    assert ExprsIn(OwnConditions(id, org, app)) == [Param(id), Param(org), Param(app)];
  }

  lemma {:induction false} ParamsInAppend(a: seq<Expr>, b: seq<Expr>)
    ensures ParamsIn(a + b) == ParamsIn(a) + ParamsIn(b)
  {
    if a == [] {
      assert a + b == b;
    } else {
      assert (a + b)[1..] == a[1..] + b;
      ParamsInAppend(a[1..], b);
    }
  }

  /** What the lists of an UPDATE read as. */
  function CommandOf(q: UpdateSql): UpdateCommand {
    UpdateCommand(Equations(ColumnsOf(q.sets), PlaceholdersOf(q.sets)), OwnConditions(q.id, q.org, q.app), true)
  }

  lemma CommandParts(q: UpdateSql)
    ensures var cmd, own := CommandOf(q), [q.id, q.org, q.app];
      && ColumnsIn(cmd.sets) == LowerAll(ColumnsOf(q.sets))
      && ExprsIn(cmd.sets) == Params(PlaceholdersOf(q.sets)) && ExprsIn(cmd.conditions) == Params(own)
      && ParamsIn(ExprsIn(cmd.sets) + ExprsIn(cmd.conditions)) == PlaceholdersOf(q.sets) + own
  {
    var cmd, own, placeholders := CommandOf(q), [q.id, q.org, q.app], PlaceholdersOf(q.sets);
    assert ColumnsIn(cmd.sets) == LowerAll(ColumnsOf(q.sets));
    assert ExprsIn(cmd.sets) == Params(placeholders) && ExprsIn(cmd.conditions) == Params(own);
    ParamsInAppend(Params(placeholders), Params(own));
    ParamsInParams(placeholders);
    ParamsInParams(own);
  }

  lemma ListsFit(q: UpdateSql)
    ensures UpdateFits(CommandOf(q), q.values) <==>
      Distinct(LowerAll(ColumnsOf(q.sets))) && WellNumbered(PlaceholdersOf(q.sets) + [q.id, q.org, q.app], q.values)
  {
    var placeholders, own, columns := PlaceholdersOf(q.sets), [q.id, q.org, q.app], LowerAll(ColumnsOf(q.sets));
    CommandParts(q);
    if Distinct(columns) && WellNumbered(placeholders + own, q.values) {
      assert forall p :: p in placeholders ==> p in placeholders + own;
      assert q.id in placeholders + own && q.org in placeholders + own && q.app in placeholders + own;
      hide CommandOf, WellNumbered, LowerAll, CellsOf, Bound;
      CellsBound(columns, placeholders, q.values);
      OwnConditionsFilter(q.id, q.org, q.app, q.values);
    }
  }

  lemma ListsEvaluate(q: UpdateSql)
    requires UpdateFits(CommandOf(q), q.values)
    ensures var placeholders, own, columns := PlaceholdersOf(q.sets), [q.id, q.org, q.app], LowerAll(ColumnsOf(q.sets));
      && Distinct(columns) && WellNumbered(placeholders + own, q.values)
      && (forall p :: p in placeholders + own ==> 1 <= p <= |q.values|)
      && (forall p :: p in placeholders ==> p in placeholders + own)
      && q.id in placeholders + own && q.org in placeholders + own && q.app in placeholders + own
      && SetCells(CommandOf(q), q.values) == Bound(columns, placeholders, q.values)
      && FilterOf(CommandOf(q).conditions, q.values) ==
         OwnFilter(q.values[q.id - 1], Tenant(q.values[q.org - 1], q.values[q.app - 1]))
  {
    var placeholders, own, columns := PlaceholdersOf(q.sets), [q.id, q.org, q.app], LowerAll(ColumnsOf(q.sets));
    ListsFit(q);
    assert forall p :: p in placeholders ==> p in placeholders + own;
    assert q.id in placeholders + own && q.org in placeholders + own && q.app in placeholders + own;
    CommandParts(q);
    hide LowerAll, Bound, CellsOf, Evaluable;
    CellsBound(columns, placeholders, q.values);
    OwnConditionsFilter(q.id, q.org, q.app, q.values);
  }

  lemma ListsExecuted(schema: Schema, table: seq<Row>, q: UpdateSql)
    requires LowerAll(ColumnsOf(q.sets)) == ColumnsNamed(schema, ColumnsOf(q.sets))
    ensures ExecUpdateCommand(schema, table, CommandOf(q), q.values) == ExecUpdate(schema, table, q)
  {
    hide WellNumbered, LowerAll, ColumnsNamed, UpdateWhere, UpdateCells, Bound, SetCells, UpdateFits, FilterOf,
      Distinct;
    ListsFit(q);
    if UpdateFits(CommandOf(q), q.values) {
      ListsEvaluate(q);
      UpdateWhereOwn(schema, table, q.values[q.id - 1], Tenant(q.values[q.org - 1], q.values[q.app - 1]),
                     SetCells(CommandOf(q), q.values));
    }
  }

  /**
    Printed, read and executed, the UPDATE of a plain body changes only the record named, for the caller's
    org and app, to the body's values; it is refused when some column would be set twice.
   */
  lemma UpdateTextMeans(schema: Schema, table: seq<Row>, q: UpdateSql, input: Row, id: Value, t: Tenant, now: Value)
    requires UpdateFor(q, input, id, t, now) && PlainBody(schema, input)
    ensures RunUpdate(schema, table, q) ==
      if UpdateNames(schema, input) then UpdateCells(schema, table, id, t, UpdatedCells(schema, input, now))
      else (table, Refused)
  {
    assert Reserved("updated_at");
    PlainColumns(schema, ColumnsOf(q.sets), input, 1);
    hide PlainBody, AllPlain, LowerAll, Reserved, UpdateNames, ReadUpdate, Lex, ExecUpdate, ExecUpdateCommand;
    UpdateRead(schema.keywords, ColumnsOf(q.sets), PlaceholdersOf(q.sets), q.id, q.org, q.app);
    ListsExecuted(schema, table, q);
    UpdateMeans(schema, table, q, input, id, t, now);
  }
}
