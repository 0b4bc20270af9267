/**
  Tenant isolation for whatever the text of a statement reads as: a body's keys are written into the
  statement as they are, so it may ask for more than the handler meant.
 */
module TenantCommands {
  import opened Outcomes
  import opened SqlText
  import opened DynamicSql
  import opened SqlCommands
  import opened TenantTable

  // ----- Rows that a command brings -----

  /** Every tenant but t has the rows it had. */
  ghost predicate OthersSame(before: seq<Row>, after: seq<Row>, t: Tenant) {
    forall u :: u != t ==> Of(after, u) == Of(before, u)
  }

  /** The row belongs to a tenant other than t. */
  predicate Foreign(row: Row, t: Tenant) {
    "organization_id" in row && "app_id" in row && !Owned(row, t)
  }

  lemma ForeignOwner(row: Row, t: Tenant)
    ensures Foreign(row, t) <==> exists u :: u != t && Owned(row, u)
  {
    if Foreign(row, t) {
      assert Owned(row, Tenant(row["organization_id"], row["app_id"]));
    }
  }

  lemma {:induction false} OfConcat(table: seq<Row>, rows: seq<Row>, u: Tenant)
    ensures Of(table + rows, u) == Of(table, u) + Of(rows, u)
  {
    if table == [] {
      assert table + rows == rows;
    } else {
      assert (table + rows)[1..] == table[1..] + rows;
      OfConcat(table[1..], rows, u);
    }
  }

  predicate NoneForeign(rows: seq<Row>, t: Tenant) {
    forall r :: r in rows ==> !Foreign(r, t)
  }

  lemma RowsSpareExactly(table: seq<Row>, rows: seq<Row>, t: Tenant)
    ensures OthersSame(table, table + rows, t) <==> NoneForeign(rows, t)
  {
    hide Of, Foreign, Owned;
    if OthersSame(table, table + rows, t) {
      forall r | r in rows ensures !Foreign(r, t) {
        ForeignOwner(r, t);
        forall u | u != t ensures !Owned(r, u) {
          OfConcat(table, rows, u);
          NoneOf(rows, u);
        }
      }
    }
    if NoneForeign(rows, t) {
      forall u | u != t ensures Of(table + rows, u) == Of(table, u) {
        forall r | r in rows ensures !Owned(r, u) {
          ForeignOwner(r, t);
        }
        OfConcat(table, rows, u);
        NoneOf(rows, u);
      }
    }
  }

  /** An accepted INSERT leaves every other tenant's rows alone exactly when it brings no row of another tenant. */
  lemma InsertSparesExactly(schema: Schema, table: seq<Row>, cmd: InsertCommand, values: seq<Value>, t: Tenant)
    ensures var (after, answer) := ExecInsertCommand(schema, table, cmd, values);
      answer.Rows? ==>
        InsertFits(cmd, values) && (OthersSame(table, after, t) <==> NoneForeign(RowsOf(schema, cmd, values), t))
  {
    hide InsertFits, RowsOf, OthersSame, NoneForeign, IdsFree;
    if InsertFits(cmd, values) {
      RowsSpareExactly(table, RowsOf(schema, cmd, values), t);
    }
  }

  /** A command that was read without RETURNING answers no row, so the handler gets none. */
  lemma NoReturningNoRows(schema: Schema, table: seq<Row>, cmd: InsertCommand, values: seq<Value>)
    requires !cmd.returning
    ensures ExecInsertCommand(schema, table, cmd, values).1.Rows? ==>
      ExecInsertCommand(schema, table, cmd, values).1.rows == []
  {
    hide InsertFits, RowsOf, IdsFree;
  }

  lemma NoneOf(rows: seq<Row>, u: Tenant)
    ensures Of(rows, u) == [] <==> forall r :: r in rows ==> !Owned(r, u)
  {
    assert Of(rows, u) != [] ==> Of(rows, u)[0] in Of(rows, u);
  }

  // ----- Rows that a command rewrites -----

  /** The owner columns a command sets have this tenant's values. */
  predicate Agrees(cells: Row, u: Tenant) {
    OwnerAfter(cells, u) == u
  }

  lemma OwnedAfter(row: Row, cells: Row, u: Tenant)
    ensures Owned(row + cells, u) ==> Agrees(cells, u)
    ensures Owned(row, u) ==> (Owned(row + cells, u) <==> Agrees(cells, u))
  {
  }

  /** How a rewriting changes the number of one tenant's rows: some may only enter, or only leave. */
  lemma {:induction false} OfCount(table: seq<Row>, filter: seq<(string, Value)>, cells: Row, u: Tenant)
    ensures Agrees(cells, u) ==> |Of(RewrittenWhere(table, filter, cells), u)| >= |Of(table, u)|
    ensures !Agrees(cells, u) ==> |Of(RewrittenWhere(table, filter, cells), u)| <= |Of(table, u)|
  {
    hide Agrees, Owned, Meets;
    if table != [] {
      OfCount(table[1..], filter, cells, u);
      OwnedAfter(table[0], cells, u);
      assert RewrittenWhere(table, filter, cells)[1..] == RewrittenWhere(table[1..], filter, cells);
    }
  }

  /** Of a row: it is not rewritten, or it is neither before nor after one of u's, or nothing changes. */
  predicate Spared(row: Row, filter: seq<(string, Value)>, cells: Row, u: Tenant) {
    Meets(row, filter) && (Owned(row, u) || Owned(row + cells, u)) ==> row + cells == row
  }

  lemma {:induction false} OneTenantExactly(table: seq<Row>, filter: seq<(string, Value)>, cells: Row, u: Tenant)
    ensures Of(RewrittenWhere(table, filter, cells), u) == Of(table, u) <==>
      forall r :: r in table ==> Spared(r, filter, cells, u)
  {
    hide Agrees, Owned, Meets;
    if table != [] {
      var row, rest := table[0], table[1..];
      OneTenantExactly(rest, filter, cells, u);
      OfCount(rest, filter, cells, u);
      OwnedAfter(row, cells, u);
      assert RewrittenWhere(table, filter, cells)[1..] == RewrittenWhere(rest, filter, cells);
      assert table == [row] + rest;
      HeadExactly(row, rest, filter, cells, u);
    }
  }

  lemma HeadExactly(row: Row, rest: seq<Row>, filter: seq<(string, Value)>, cells: Row, u: Tenant)
    requires var after := RewrittenWhere(rest, filter, cells);
      && (Agrees(cells, u) ==> |Of(after, u)| >= |Of(rest, u)|)
      && (!Agrees(cells, u) ==> |Of(after, u)| <= |Of(rest, u)|)
    requires Owned(row + cells, u) ==> Agrees(cells, u)
    requires Owned(row, u) ==> (Owned(row + cells, u) <==> Agrees(cells, u))
    ensures Of(RewrittenWhere([row] + rest, filter, cells), u) == Of([row] + rest, u) <==>
      Spared(row, filter, cells, u) && Of(RewrittenWhere(rest, filter, cells), u) == Of(rest, u)
  {
    hide Agrees, Owned, Meets;
    var table, after := [row] + rest, RewrittenWhere(rest, filter, cells);
    var now := if Meets(row, filter) then row + cells else row;
    assert table[1..] == rest && RewrittenWhere(table, filter, cells) == [now] + after && ([now] + after)[1..] == after;
    var before, later := Of(rest, u), Of(after, u);
    assert Of(table, u) == if Owned(row, u) then [row] + before else before;
    assert Of([now] + after, u) == if Owned(now, u) then [now] + later else later;
    assert ([row] + before)[1..] == before && ([now] + later)[1..] == later;
  }

  /** Each row rewritten stays as it is, or belongs to no other tenant before and after. */
  predicate RewritesSpare(table: seq<Row>, filter: seq<(string, Value)>, cells: Row, t: Tenant) {
    forall r :: r in table && Meets(r, filter) && (Foreign(r, t) || Foreign(r + cells, t)) ==> r + cells == r
  }

  lemma RewriteSparesExactly(table: seq<Row>, filter: seq<(string, Value)>, cells: Row, t: Tenant)
    ensures OthersSame(table, RewrittenWhere(table, filter, cells), t) <==> RewritesSpare(table, filter, cells, t)
  {
    hide Of, Foreign, Meets, RewrittenWhere, Owned;
    if OthersSame(table, RewrittenWhere(table, filter, cells), t) {
      forall r | r in table && Meets(r, filter) && (Foreign(r, t) || Foreign(r + cells, t)) ensures r + cells == r {
        ForeignOwner(r, t);
        ForeignOwner(r + cells, t);
        var u :| u != t && (Owned(r, u) || Owned(r + cells, u));
        OneTenantExactly(table, filter, cells, u);
        assert Spared(r, filter, cells, u);
      }
    }
    if RewritesSpare(table, filter, cells, t) {
      forall u | u != t ensures Of(RewrittenWhere(table, filter, cells), u) == Of(table, u) {
        forall r | r in table ensures Spared(r, filter, cells, u) {
          ForeignOwner(r, t);
          ForeignOwner(r + cells, t);
        }
        OneTenantExactly(table, filter, cells, u);
      }
    }
  }

  /**
    An accepted UPDATE, whatever it sets and whatever its condition, leaves every other tenant's rows alone
    exactly when each row it rewrites stays as it is, or belongs to no other tenant before and after.
   */
  lemma UpdateSparesExactly(schema: Schema, table: seq<Row>, cmd: UpdateCommand, values: seq<Value>, t: Tenant)
    ensures var (after, answer) := ExecUpdateCommand(schema, table, cmd, values);
      answer.Rows? ==>
        UpdateFits(cmd, values) &&
        (OthersSame(table, after, t) <==>
         RewritesSpare(table, FilterOf(cmd.conditions, values), SetCells(cmd, values), t))
  {
    hide FilterOf, SetCells, OthersSame, RewritesSpare, RewrittenWhere;
    if UpdateFits(cmd, values) {
      RewriteSparesExactly(table, FilterOf(cmd.conditions, values), SetCells(cmd, values), t);
    }
  }

  /**
    If the text keeps the handler's condition but may carry more assignments, literal ones too: an update that
    finds its record leaves the others alone exactly when every owner column it sets gets the caller's value.
   */
  lemma AssignmentsSpareExactly(schema: Schema, table: seq<Row>, cmd: UpdateCommand, values: seq<Value>,
                                id: Value, t: Tenant)
    requires UpdateFits(cmd, values) && FilterOf(cmd.conditions, values) == OwnFilter(id, t)
    ensures var (after, answer) := ExecUpdateCommand(schema, table, cmd, values);
      answer.Rows? && Matching(table, id, t) != [] ==>
        (OthersSame(table, after, t) <==> OwnerAfter(SetCells(cmd, values), t) == t)
  {
    var (after, answer) := ExecUpdateCommand(schema, table, cmd, values);
    var cells := SetCells(cmd, values);
    if answer.Refused? || Matching(table, id, t) == [] {
      return;
    }
    WhereOwn(table, id, t, cells);
    assert after == Rewritten(table, id, t, cells);
    hide FilterOf, SetCells, ExecUpdateCommand, Of, Rewritten, OwnerAfter, Matching;
    if OwnerAfter(cells, t) == t {
      forall u | u != t ensures Of(after, u) == Of(table, u) {
        OfRewritten(table, id, t, cells, u);
      }
    } else {
      OfMoved(table, id, t, cells);
      assert |Of(after, OwnerAfter(cells, t))| > |Of(table, OwnerAfter(cells, t))|;
    }
  }

  /** The text of the statement is in the fragment: a caller can print it from the body and read it. */
  predicate Understood(schema: Schema, s: Statement) {
    match s
    case Insert(_, _, _, _, lists) => ReadInsert(schema.keywords, Lex(TextOfInsert(lists))).Some?
    case Update(_, _, _, _, sets) => ReadUpdate(schema.keywords, Lex(TextOfUpdate(sets))).Some?
    case _ => true
  }

  /** What the text asks for, whoever wrote it, touches no row of another tenant. */
  predicate AsksOwn(schema: Schema, table: seq<Row>, s: Statement)
    requires s.Insert? || s.Update?
    requires Understood(schema, s)
  {
    match s
    case Insert(t, _, _, _, lists) =>
      var cmd := ReadInsert(schema.keywords, Lex(TextOfInsert(lists))).value;
      InsertFits(cmd, lists.values) && NoneForeign(RowsOf(schema, cmd, lists.values), t)
    case Update(t, _, _, _, sets) =>
      var cmd := ReadUpdate(schema.keywords, Lex(TextOfUpdate(sets))).value;
      && UpdateFits(cmd, sets.values)
      && RewritesSpare(table, FilterOf(cmd.conditions, sets.values), SetCells(cmd, sets.values), t)
  }

  /**
    For every body, plain or not, whose statement reads as a command that the database accepts: the other
    tenants keep their rows exactly when the command that was read asks for none of them.
   */
  lemma AnyBodyExactly(schema: Schema, table: seq<Row>, s: Statement)
    requires (s.Insert? || s.Update?) && Understood(schema, s)
    ensures Exec(schema, table, s).1.Rows? ==>
      (OthersSame(table, Exec(schema, table, s).0, s.t) <==> AsksOwn(schema, table, s))
  {
    hide Lex, ReadInsert, ReadUpdate, ExecInsertCommand, ExecUpdateCommand, OthersSame, NoneForeign, RewritesSpare,
      InsertFits, UpdateFits, FilterOf, SetCells, RowsOf, TextOfInsert, TextOfUpdate;
    match s
    case Insert(t, _, _, _, lists) =>
      InsertSparesExactly(schema, table, ReadInsert(schema.keywords, Lex(TextOfInsert(lists))).value, lists.values, t);
    case Update(t, _, _, _, sets) =>
      UpdateSparesExactly(schema, table, ReadUpdate(schema.keywords, Lex(TextOfUpdate(sets))).value, sets.values, t);
  }

  // ----- The primary key -----

  /** No two rows have one id. */
  ghost predicate KeysUnique(table: seq<Row>) {
    forall i: nat, j: nat :: i < j < |table| && "id" in table[i] && "id" in table[j] ==>
      table[i]["id"] != table[j]["id"]
  }

  lemma InsertKeepsKeys(table: seq<Row>, rows: seq<Row>)
    requires KeysUnique(table) && IdsFree(table, rows)
    ensures KeysUnique(table + rows)
  {
    var after := table + rows;
    forall i: nat, j: nat | i < j < |after| && "id" in after[i] && "id" in after[j]
      ensures after[i]["id"] != after[j]["id"]
    {
      if i < |table| <= j {
        assert rows[j - |table|] in rows && table[i] in table && !IdTaken(table, rows[j - |table|]);
      } else if |table| <= i {
        assert !Holds(rows[i - |table|], "id", rows[j - |table|]["id"]);
      }
    }
  }

  lemma {:induction false} RewrittenWhereAt(table: seq<Row>, filter: seq<(string, Value)>, cells: Row)
    ensures var after := RewrittenWhere(table, filter, cells);
      forall i: nat :: i < |table| ==> after[i] == if Meets(table[i], filter) then table[i] + cells else table[i]
  {
    if table != [] {
      RewrittenWhereAt(table[1..], filter, cells);
    }
  }

  lemma {:induction false} MeetingAtLeast(table: seq<Row>, filter: seq<(string, Value)>, i: nat, j: nat)
    requires i <= j < |table| && Meets(table[i], filter) && Meets(table[j], filter)
    ensures |MeetingRows(table, filter)| >= if i < j then 2 else 1
  {
    hide Meets;
    if 0 < i {
      MeetingAtLeast(table[1..], filter, i - 1, j - 1);
    } else if 0 < j {
      MeetingAtLeast(table[1..], filter, j - 1, j - 1);
    }
  }

  lemma UpdateKeepsKeys(schema: Schema, table: seq<Row>, filter: seq<(string, Value)>, cells: Row, returning: bool)
    requires KeysUnique(table)
    ensures KeysUnique(UpdateWhere(schema, table, filter, cells, returning).0)
  {
    var (after, answer) := UpdateWhere(schema, table, filter, cells, returning);
    if answer.Rows? {
      RewrittenWhereAt(table, filter, cells);
      hide Meets;
      forall i: nat, j: nat | i < j < |after| && "id" in after[i] && "id" in after[j]
        ensures after[i]["id"] != after[j]["id"]
      {
        if "id" in cells && Meets(table[i], filter) {
          MeetingAtLeast(table, filter, i, i);
          if Meets(table[j], filter) {
            MeetingAtLeast(table, filter, i, j);
          }
          assert table[j] in table;
        } else if "id" in cells && Meets(table[j], filter) {
          MeetingAtLeast(table, filter, j, j);
          assert table[i] in table;
        }
      }
    }
  }

  lemma {:induction false} WithoutKeepsKeys(table: seq<Row>, id: Value, t: Tenant)
    requires KeysUnique(table)
    ensures KeysUnique(Without(table, id, t)) && forall r :: r in Without(table, id, t) ==> r in table
  {
    if table != [] {
      var first, rest := table[0], table[1..];
      assert forall i: nat, j: nat :: i < j < |rest| ==> rest[i] == table[i + 1] && rest[j] == table[j + 1];
      WithoutKeepsKeys(rest, id, t);
      var left := Without(rest, id, t);
      forall j: nat | j < |left| && "id" in first && "id" in left[j] ensures first["id"] != left[j]["id"] {
        assert left[j] in left && left[j] in rest;
        var k: nat :| k < |rest| && rest[k] == left[j];
        assert table[k + 1] == left[j];
      }
    }
  }

  /** Every statement whose text is in the fragment keeps the primary key, whatever its body asks for. */
  lemma StatementKeepsKeys(schema: Schema, table: seq<Row>, s: Statement)
    requires KeysUnique(table) && Understood(schema, s)
    ensures KeysUnique(Exec(schema, table, s).0)
  {
    hide KeysUnique, Lex, ReadInsert, ReadUpdate, InsertFits, IdsFree, UpdateWhere, SetCells, FilterOf, RowsOf;
    match s
    case Insert(_, _, _, _, lists) =>
      var cmd := ReadInsert(schema.keywords, Lex(TextOfInsert(lists))).value;
      if ExecInsertCommand(schema, table, cmd, lists.values).1.Rows? {
        InsertKeepsKeys(table, RowsOf(schema, cmd, lists.values));
      }
    case Update(_, _, _, _, sets) =>
      var cmd := ReadUpdate(schema.keywords, Lex(TextOfUpdate(sets))).value;
      if UpdateFits(cmd, sets.values) {
        var filter := FilterOf(cmd.conditions, sets.values);
        UpdateKeepsKeys(schema, table, filter, SetCells(cmd, sets.values), cmd.returning);
      }
    case Delete(t, id) => WithoutKeepsKeys(table, id, t);
    case _ =>
  }

  /** Over any run of such statements, by any tenants, no two rows ever have one id. */
  lemma {:induction false} EveryRunKeepsKeys(schema: Schema, table: seq<Row>, run: seq<Statement>)
    requires KeysUnique(table) && forall s :: s in run ==> Understood(schema, s)
    ensures KeysUnique(Final(schema, table, run))
    decreases |run|
  {
    hide KeysUnique, Understood, Exec;
    if run != [] {
      assert run[0] in run;
      StatementKeepsKeys(schema, table, run[0]);
      EveryRunKeepsKeys(schema, Exec(schema, table, run[0]).0, run[1..]);
    }
  }

  /** Bodies of plain keys give such statements. */
  lemma ProperIsUnderstood(schema: Schema, s: Statement)
    requires Proper(schema, s)
    ensures Understood(schema, s)
  {
    hide Lex, ReadInsert, ReadUpdate, PlainBody, Reserved;
    match s
    case Insert(t, id, now, input, lists) =>
      ReservedKeys();
      assert forall i: nat :: i < 5 ==> lists.columns[i] == lists.columns[..5][i] == RESERVED[i];
      PlainColumns(schema, lists.columns, input, 5);
      InsertRead(schema.keywords, lists.columns, lists.placeholders);
    case Update(t, id, now, input, sets) =>
      var columns := ColumnsOf(sets.sets);
      assert Reserved("updated_at") && columns[0] == "updated_at" by { ReservedIsOwn("updated_at"); }
      PlainColumns(schema, columns, input, 1);
      UpdateRead(schema.keywords, columns, PlaceholdersOf(sets.sets), sets.id, sets.org, sets.app);
    case _ =>
  }
}
