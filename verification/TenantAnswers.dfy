/**
  What a create, an update and a delete do to the table, row by row and cell by cell
  (internal/gateway/dynamic_handler.go), for bodies of plain keys.
 */
module TenantAnswers {
  import opened Outcomes
  import opened SqlText
  import opened DynamicSql
  import opened SqlCommands
  import opened TenantTable

  /** The tenant's record of this id. */
  predicate IsRecord(row: Row, id: Value, t: Tenant) {
    "id" in row && row["id"] == id && OwnRow(row, t)
  }

  /** A body key the handler takes over: none of its own five names. */
  predicate Taken(key: string) {
    key !in {"id", "organization_id", "app_id", "created_at", "updated_at"}
  }

  /** The column gets the value of a body key that reads as its name. */
  ghost predicate FromBody(input: Row, column: string) {
    exists k :: k in input && Taken(k) && LowerCase(k) == column
  }

  lemma TakenIs(key: string)
    ensures Taken(key) <==> !Reserved(key)
  {
  }

  // ----- Create -----

  /** A new record: the handler's five cells, the body's cells, and the table's defaults. */
  ghost predicate CreatedFrom(schema: Schema, row: Row, s: Statement)
    requires s.Insert?
  {
    && {"id", "organization_id", "app_id", "created_at", "updated_at"} <= row.Keys
    && row["id"] == s.id && row["organization_id"] == s.t.org && row["app_id"] == s.t.app
    && row["created_at"] == s.now && row["updated_at"] == s.now
    && (forall k :: k in s.input && Taken(k) ==> LowerCase(k) in row && row[LowerCase(k)] == s.input[k])
    && (forall c :: c in schema.defaults && Taken(c) && !FromBody(s.input, c) ==>
          c in row && row[c] == schema.defaults[c])
    && (forall c :: c in row ==> !Taken(c) || c in schema.defaults || FromBody(s.input, c))
  }

  lemma CreatedCells(schema: Schema, s: Statement)
    requires s.Insert? && InsertNames(schema, s.input)
    ensures CreatedFrom(schema, schema.defaults + CreateCells(schema, s.input, s.id, s.t, s.now), s)
  {
    var body := BodyCells(schema, s.input);
    forall k ensures Taken(k) <==> !Reserved(k) {
      TakenIs(k);
    }
    BodyCellsAre(schema, s.input);
    var own := map["id" := s.id, "organization_id" := s.t.org, "app_id" := s.t.app, "created_at" := s.now,
                   "updated_at" := s.now];
    assert forall c :: Taken(c) <==> c !in own;
    hide Reserved, LowerCase, OneColumnEach, BodyCells, Taken;
    forall c ensures c in body <==> FromBody(s.input, c) {
      assert c in body <==> Named(schema, s.input, c);
    }
    CellsTogether(schema, s, body, own);
  }

  lemma CellsTogether(schema: Schema, s: Statement, body: Row, own: Row)
    requires s.Insert?
    requires forall c :: Taken(c) <==> c !in own
    requires forall k :: k in s.input && Taken(k) ==> Holds(body, LowerCase(k), s.input[k]) && Taken(LowerCase(k))
    requires forall c :: c in body <==> FromBody(s.input, c)
    requires Holds(own, "id", s.id) && Holds(own, "organization_id", s.t.org) && Holds(own, "app_id", s.t.app)
    requires Holds(own, "created_at", s.now) && Holds(own, "updated_at", s.now)
    ensures CreatedFrom(schema, schema.defaults + (body + own), s)
  {
    hide LowerCase, Taken, FromBody;
  }

  /** A create adds one record behind the others, or is refused and changes nothing. */
  lemma CreateAddsOne(schema: Schema, table: seq<Row>, s: Statement)
    requires s.Insert? && Proper(schema, s)
    ensures var (after, answer) := Exec(schema, table, s);
      if answer.Rows? then |answer.rows| == 1 && after == table + answer.rows && CreatedFrom(schema, answer.rows[0], s)
      else answer.Refused? && after == table
  {
    ExecMeans(schema, table, s);
    hide Proper, RunInsert, CreatedFrom, InsertNames, OneColumnEach, BodyCells, CreateCells;
    if InsertNames(schema, s.input) {
      CreatedCells(schema, s);
    }
  }

  // ----- Update -----

  /** A record after an update: the body's cells and the time are new, every other cell is as it was. */
  ghost predicate ChangedFrom(before: Row, after: Row, s: Statement)
    requires s.Update?
  {
    && "updated_at" in after && after["updated_at"] == s.now
    && (forall k :: k in s.input && Taken(k) ==> LowerCase(k) in after && after[LowerCase(k)] == s.input[k])
    && (forall c :: c in before && c != "updated_at" && !FromBody(s.input, c) ==>
          c in after && after[c] == before[c])
    && (forall c :: c in after ==> c in before || c == "updated_at" || FromBody(s.input, c))
  }

  /** An accepted update changes the tenant's record of the id, and leaves every other row where and as it was. */
  lemma UpdateTouchesOnly(schema: Schema, table: seq<Row>, s: Statement)
    requires s.Update? && Proper(schema, s)
    ensures var (after, answer) := Exec(schema, table, s);
      && (answer.Refused? ==> after == table)
      && (answer.Rows? ==> |after| == |table|)
      && (answer.Rows? ==> forall i: nat :: i < |table| ==>
            if IsRecord(table[i], s.id, s.t) then ChangedFrom(table[i], after[i], s) && after[i] in answer.rows
            else after[i] == table[i])
  {
    ExecMeans(schema, table, s);
    hide Proper, RunUpdate, ChangedFrom, IsRecord;
    var (after, answer) := Exec(schema, table, s);
    if answer.Rows? {
      var cells := UpdatedCells(schema, s.input, s.now);
      RewrittenAt(table, s.id, s.t, cells);
      forall i: nat | i < |table|
        ensures if IsRecord(table[i], s.id, s.t) then ChangedFrom(table[i], after[i], s) && after[i] in answer.rows
          else after[i] == table[i]
      {
        if IsRecord(table[i], s.id, s.t) {
          ChangedCells(schema, table[i], s);
        }
      }
    }
  }

  lemma ChangedCells(schema: Schema, row: Row, s: Statement)
    requires s.Update? && UpdateNames(schema, s.input)
    ensures ChangedFrom(row, row + UpdatedCells(schema, s.input, s.now), s)
  {
    UpdatedRow(schema, row, s.input, s.now);
    forall k ensures Taken(k) <==> !Reserved(k) {
      TakenIs(k);
    }
    hide Reserved, Taken, LowerCase, UpdatedCells, OneColumnEach, UpdateNames;
    forall c ensures FromBody(s.input, c) <==> Named(schema, s.input, c) {}
  }

  lemma {:induction false} RewrittenAt(table: seq<Row>, id: Value, t: Tenant, cells: Row)
    ensures forall i: nat :: i < |table| ==>
      Rewritten(table, id, t, cells)[i] == (if IsRecord(table[i], id, t) then table[i] + cells else table[i])
    ensures forall i: nat :: i < |table| && IsRecord(table[i], id, t) ==>
      table[i] + cells in Extended(Matching(table, id, t), cells)
  {
    if table != [] {
      RewrittenAt(table[1..], id, t, cells);
      var found, rest := Matching(table, id, t), Matching(table[1..], id, t);
      forall i: nat | i < |table| && IsRecord(table[i], id, t)
        ensures table[i] + cells in Extended(found, cells)
      {
        FoundIn(table, id, t, table[i]);
        var j: nat :| j < |found| && found[j] == table[i];
        assert Extended(found, cells)[j] == table[i] + cells;
      }
    }
  }

  lemma FoundIn(table: seq<Row>, id: Value, t: Tenant, row: Row)
    requires row in table && IsRecord(row, id, t)
    ensures row in Matching(table, id, t)
  {
    MatchingFinds(table, id, t);
  }

  // ----- Delete and get -----

  /** A delete takes the tenant's record of the id, and nothing else, and tells how many rows went. */
  lemma DeleteTakesOnly(schema: Schema, table: seq<Row>, t: Tenant, id: Value, r: Row)
    ensures var (after, answer) := Exec(schema, table, Delete(t, id));
      && multiset(after)[r] == (if IsRecord(r, id, t) then 0 else multiset(table)[r])
      && answer.Counted? && answer.count + |after| == |table|
  {
    WithoutHolds(table, id, t, r);
  }

  lemma {:induction false} WithoutHolds(table: seq<Row>, id: Value, t: Tenant, r: Row)
    ensures multiset(Without(table, id, t))[r] == if IsRecord(r, id, t) then 0 else multiset(table)[r]
    ensures |Matching(table, id, t)| + |Without(table, id, t)| == |table|
  {
    if table != [] {
      WithoutHolds(table[1..], id, t, r);
      assert table == [table[0]] + table[1..];
    }
  }

  /** A get answers exactly the tenant's rows of the id, each as often as stored, and changes nothing. */
  lemma GetFindsOnly(schema: Schema, table: seq<Row>, t: Tenant, id: Value, r: Row)
    ensures var (after, answer) := Exec(schema, table, Get(t, id));
      && after == table && answer.Rows?
      && multiset(answer.rows)[r] == if IsRecord(r, id, t) then multiset(table)[r] else 0
  {
    MatchingHolds(table, id, t, r);
  }

  lemma {:induction false} MatchingHolds(table: seq<Row>, id: Value, t: Tenant, r: Row)
    ensures multiset(Matching(table, id, t))[r] == if IsRecord(r, id, t) then multiset(table)[r] else 0
  {
    if table != [] {
      MatchingHolds(table[1..], id, t, r);
      assert table == [table[0]] + table[1..];
      assert Matches(table[0], id, t) <==> IsRecord(table[0], id, t);
      hide Matches, IsRecord;
    }
  }
}
