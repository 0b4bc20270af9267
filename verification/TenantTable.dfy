/**
  One table shared by many (organization, app) tenants, and the generic CRUD handler on it
  (internal/gateway/dynamic_handler.go).  A list call is two statements, every other call one; the
  statements of different calls may come in any order.
 */
module TenantTable {
  import opened Outcomes
  import opened Ordering
  import opened SqlText
  import opened DynamicSql
  import opened SqlCommands

  datatype Statement =
    | Count(t: Tenant)
    | Page(t: Tenant, limit: nat, offset: int)
    | Get(t: Tenant, id: Value)
    | Insert(t: Tenant, id: Value, now: Value, input: Row, lists: InsertSql)
    | Update(t: Tenant, id: Value, now: Value, input: Row, sets: UpdateSql)
    | Delete(t: Tenant, id: Value)

  /** The rows of one tenant, in table order. */
  function Of(table: seq<Row>, t: Tenant): (own: seq<Row>)
    ensures forall r :: r in own <==> r in table && Owned(r, t)
  {
    if table == [] then []
    else if Owned(table[0], t) then [table[0]] + Of(table[1..], t)
    else Of(table[1..], t)
  }

  function Without(table: seq<Row>, id: Value, t: Tenant): seq<Row> {
    if table == [] then []
    else if Matches(table[0], id, t) then Without(table[1..], id, t)
    else [table[0]] + Without(table[1..], id, t)
  }

  /** The database runs the text printed from the lists the handler built. */
  function Exec(schema: Schema, table: seq<Row>, s: Statement): (seq<Row>, Outcome) {
    match s
    case Insert(_, _, _, _, lists) => RunInsert(schema, table, lists)
    case Update(_, _, _, _, sets) => RunUpdate(schema, table, sets)
    case _ => Meaning(schema, table, s)
  }

  /** What a statement is meant to do. */
  function Meaning(schema: Schema, table: seq<Row>, s: Statement): (seq<Row>, Outcome) {
    match s
    case Count(t) => (table, Counted(|Of(table, t)|))
    case Page(t, limit, offset) =>
      (table, if offset < 0 then Refused else Rows(Window(Newest(Of(table, t)), offset, limit)))
    case Get(t, id) => (table, Rows(Matching(table, id, t)))
    case Insert(t, id, now, input, _) =>
      if InsertNames(schema, input) then InsertCells(schema, table, CreateCells(schema, input, id, t, now))
      else (table, Refused)
    case Update(t, id, now, input, _) =>
      if UpdateNames(schema, input) then UpdateCells(schema, table, id, t, UpdatedCells(schema, input, now))
      else (table, Refused)
    case Delete(t, id) => (Without(table, id, t), Counted(|Matching(table, id, t)|))
  }

  /** The lists are those the handler builds from the body, in some order of its keys. */
  ghost predicate AsBuilt(s: Statement) {
    match s
    case Insert(t, id, now, input, lists) => InsertFor(lists, input, id, t, now)
    case Update(t, id, now, input, sets) => UpdateFor(sets, input, id, t, now)
    case _ => true
  }

  /** Built by the handler, from a body with plain keys. */
  ghost predicate Proper(schema: Schema, s: Statement) {
    AsBuilt(s) && (s.Insert? || s.Update? ==> PlainBody(schema, s.input))
  }

  /** With plain keys a statement does what it is meant to do. */
  lemma ExecMeans(schema: Schema, table: seq<Row>, s: Statement)
    requires Proper(schema, s)
    ensures Exec(schema, table, s) == Meaning(schema, table, s)
  {
    hide InsertFor, UpdateFor, PlainBody, RunInsert, RunUpdate, InsertNames, UpdateNames;
    match s
    case Insert(t, id, now, input, lists) => InsertTextMeans(schema, table, lists, input, id, t, now);
    case Update(t, id, now, input, sets) => UpdateTextMeans(schema, table, sets, input, id, t, now);
    case _ =>
  }

  function Window(rows: seq<Row>, offset: nat, limit: nat): seq<Row> {
    if offset >= |rows| then [] else if offset + limit >= |rows| then rows[offset..] else rows[offset..offset + limit]
  }

  /** A page has the records from the offset on, up to the limit, in the listing's order. */
  lemma WindowByIndex(rows: seq<Row>, offset: nat, limit: nat)
    ensures var page := Window(rows, offset, limit);
      && |page| == (if |rows| <= offset then 0 else if |rows| - offset <= limit then |rows| - offset else limit)
      && forall i: nat :: i < |page| ==> page[i] == rows[offset + i]
  {
  }

  /** The pages at offsets 0, limit, 2 * limit and so on, one after the other. */
  function Pages(rows: seq<Row>, limit: nat, n: nat): seq<Row> {
    if n == 0 then [] else Pages(rows, limit, n - 1) + Window(rows, (n - 1) * limit, limit)
  }

  /** Page after page gives the whole listing: nothing twice and nothing left out. */
  lemma {:induction false} PagesCoverListing(rows: seq<Row>, limit: nat, n: nat)
    ensures Pages(rows, limit, n) == if n * limit <= |rows| then rows[..n * limit] else rows
  {
    if n > 0 {
      PagesCoverListing(rows, limit, n - 1);
      assert (n - 1) * limit + limit == n * limit;
      WindowByIndex(rows, (n - 1) * limit, limit);
    }
  }

  // ----- ORDER BY created_at DESC -----

  /** a comes strictly before b; a row without a creation time comes first, as nulls do in a descending order. */
  predicate Newer(a: Row, b: Row) {
    "created_at" in b && b["created_at"].Time?
    && ("created_at" in a && a["created_at"].Time? ==> a["created_at"].instant > b["created_at"].instant)
  }

  /** Newest first; rows created at the same instant keep the table's order. */
  function Newest(rows: seq<Row>): seq<Row> {
    Sorted(rows, Newer)
  }

  lemma NewestSorts(rows: seq<Row>)
    ensures multiset(Newest(rows)) == multiset(rows) && InOrder(Newest(rows), Newer)
    ensures forall k :: Ties(Newest(rows), k, Newer) == Ties(rows, k, Newer)
  {
    SortedSorts(rows, Newer);
  }

  /** A row of this organization and application. */
  predicate OwnRow(row: Row, t: Tenant) {
    && "organization_id" in row && row["organization_id"] == t.org
    && "app_id" in row && row["app_id"] == t.app
  }

  lemma {:induction false} OfHolds(table: seq<Row>, t: Tenant, r: Row)
    ensures multiset(Of(table, t))[r] == if OwnRow(r, t) then multiset(table)[r] else 0
  {
    if table != [] {
      OfHolds(table[1..], t, r);
      assert table == [table[0]] + table[1..];
    }
  }

  /** What a tenant's listing is: its rows, each as often as stored, the newest first. */
  ghost predicate ListingOf(listed: seq<Row>, table: seq<Row>, t: Tenant) {
    && (forall r :: multiset(listed)[r] == if OwnRow(r, t) then multiset(table)[r] else 0)
    && (forall i: nat, j: nat :: i < j < |listed| && Created(listed[i]).Some? ==>
          Created(listed[j]).Some? && Created(listed[i]).value >= Created(listed[j]).value)
  }

  /** When a row was created, if it says so. */
  function Created(row: Row): Option<int> {
    if "created_at" in row && row["created_at"].Time? then Some(row["created_at"].instant) else None
  }

  lemma ListingHolds(table: seq<Row>, t: Tenant)
    ensures ListingOf(Newest(Of(table, t)), table, t) && |Newest(Of(table, t))| == |Of(table, t)|
  {
    NewestSorts(Of(table, t));
    var listed := Newest(Of(table, t));
    hide Newest;
    assert |multiset(listed)| == |multiset(Of(table, t))|;
    forall r ensures multiset(listed)[r] == if OwnRow(r, t) then multiset(table)[r] else 0 {
      OfHolds(table, t, r);
    }
    forall i: nat, j: nat | i < j < |listed| && Created(listed[i]).Some?
      ensures Created(listed[j]).Some? && Created(listed[i]).value >= Created(listed[j]).value
    {
      assert !Newer(listed[j], listed[i]);
    }
  }

  // ----- What one statement does to each tenant -----

  lemma {:induction false} OfOwn(table: seq<Row>, t: Tenant)
    ensures Of(Of(table, t), t) == Of(table, t)
  {
    if table != [] {
      OfOwn(table[1..], t);
      assert Of(table, t) == [table[0]] + Of(table[1..], t) || Of(table, t) == Of(table[1..], t);
    }
  }

  lemma {:induction false} OfAppend(table: seq<Row>, row: Row, t: Tenant)
    ensures Of(table + [row], t) == Of(table, t) + if Owned(row, t) then [row] else []
  {
    if table == [] {
      assert table + [row] == [row];
    } else {
      assert (table + [row])[1..] == table[1..] + [row];
      OfAppend(table[1..], row, t);
    }
  }

  lemma {:induction false} MatchingOwn(table: seq<Row>, id: Value, t: Tenant)
    ensures Matching(Of(table, t), id, t) == Matching(table, id, t)
  {
    if table != [] {
      MatchingOwn(table[1..], id, t);
      assert Of(table, t) == [table[0]] + Of(table[1..], t) || Of(table, t) == Of(table[1..], t);
    }
  }

  lemma {:induction false} OfWithout(table: seq<Row>, id: Value, t: Tenant, u: Tenant)
    ensures Of(Without(table, id, t), u) == if t == u then Without(Of(table, u), id, t) else Of(table, u)
  {
    if table != [] {
      OfWithout(table[1..], id, t, u);
      var rest := Without(table[1..], id, t);
      assert ([table[0]] + rest)[1..] == rest && ([table[0]] + Of(table[1..], u))[1..] == Of(table[1..], u);
    }
  }

  /** The owner a row of t has after an update. */
  function OwnerAfter(cells: Row, t: Tenant): Tenant {
    Tenant(if "organization_id" in cells then cells["organization_id"] else t.org,
           if "app_id" in cells then cells["app_id"] else t.app)
  }

  lemma {:induction false} OfRewritten(table: seq<Row>, id: Value, t: Tenant, cells: Row, u: Tenant)
    requires OwnerAfter(cells, t) == t
    ensures Of(Rewritten(table, id, t, cells), u) ==
      if t == u then Rewritten(Of(table, u), id, t, cells) else Of(table, u)
  {
    if table != [] {
      OfRewritten(table[1..], id, t, cells, u);
      assert Rewritten(table, id, t, cells)[1..] == Rewritten(table[1..], id, t, cells);
      assert ([table[0]] + Of(table[1..], u))[1..] == Of(table[1..], u);
    }
  }

  /** An update that changes the owner takes all matching rows from one tenant to the other. */
  lemma {:induction false} OfMoved(table: seq<Row>, id: Value, t: Tenant, cells: Row)
    requires OwnerAfter(cells, t) != t
    ensures var u, after, moved := OwnerAfter(cells, t), Rewritten(table, id, t, cells), |Matching(table, id, t)|;
      && |Of(after, u)| == |Of(table, u)| + moved
      && |Of(after, t)| == |Of(table, t)| - moved
      && Matching(after, id, t) == []
  {
    if table != [] {
      OfMoved(table[1..], id, t, cells);
      assert Rewritten(table, id, t, cells)[1..] == Rewritten(table[1..], id, t, cells);
    }
  }

  /** No unreserved key of the body stands for an owner column with another value than the caller's. */
  predicate BodyKeepsOwner(schema: Schema, t: Tenant, input: Row) {
    forall k :: k in input && !Reserved(k) ==>
      && (schema.fold(k) == "organization_id" ==> input[k] == t.org)
      && (schema.fold(k) == "app_id" ==> input[k] == t.app)
  }

  predicate KeepsOwner(schema: Schema, s: Statement) {
    s.Update? ==> BodyKeepsOwner(schema, s.t, s.input)
  }

  lemma OwnerKept(schema: Schema, input: Row, now: Value, t: Tenant)
    requires UpdateNames(schema, input)
    ensures BodyKeepsOwner(schema, t, input) <==> OwnerAfter(UpdatedCells(schema, input, now), t) == t
  {
    var cells := UpdatedCells(schema, input, now);
    forall k | k in input && !Reserved(k) ensures Holds(cells, schema.fold(k), input[k]) {
      BodyCell(schema, input, k);
    }
  }

  /** The new row belongs to the caller and to nobody else. */
  lemma CreatedRowOwned(schema: Schema, input: Row, id: Value, t: Tenant, now: Value, u: Tenant)
    requires InsertNames(schema, input)
    ensures Owned(schema.defaults + CreateCells(schema, input, id, t, now), u) <==> t == u
    ensures Holds(schema.defaults + CreateCells(schema, input, id, t, now), "id", id)
  {
    hide BodyCells, OneColumnEach;
  }

  /** A statement with plain keys that keeps the owner changes, adds or removes no row of another tenant. */
  lemma OthersUntouched(schema: Schema, table: seq<Row>, s: Statement, u: Tenant)
    requires Proper(schema, s) && s.t != u && KeepsOwner(schema, s)
    ensures Of(Exec(schema, table, s).0, u) == Of(table, u)
  {
    ExecMeans(schema, table, s);
    hide Proper, Exec, BodyKeepsOwner, OneColumnEach, BodyCells, OwnerAfter;
    match s
    case Insert(t, id, now, input, _) =>
      if InsertNames(schema, input) {
        CreatedRowOwned(schema, input, id, t, now, u);
        OfAppend(table, schema.defaults + CreateCells(schema, input, id, t, now), u);
      }
    case Update(t, id, now, input, _) =>
      if UpdateNames(schema, input) {
        OwnerKept(schema, input, now, t);
        OfRewritten(table, id, t, UpdatedCells(schema, input, now), u);
      }
    case Delete(t, id) => OfWithout(table, id, t, u);
    case _ =>
  }

  /** The database changed or returned at least one row. */
  predicate Effective(answer: Outcome) {
    answer.Rows? && answer.rows != []
  }

  /**
    An update with plain keys that finds its record and is accepted leaves every other tenant's rows alone
    exactly when its body keeps the owner: the handler's test lets other spellings of the owner columns
    through.
   */
  lemma OthersUntouchedExactly(schema: Schema, table: seq<Row>, s: Statement)
    requires s.Update? && Proper(schema, s)
    ensures Effective(Exec(schema, table, s).1) ==>
      ((forall u :: u != s.t ==> Of(Exec(schema, table, s).0, u) == Of(table, u)) <==> KeepsOwner(schema, s))
  {
    if !Effective(Exec(schema, table, s).1) {
      return;
    }
    if KeepsOwner(schema, s) {
      forall u | u != s.t ensures Of(Exec(schema, table, s).0, u) == Of(table, u) {
        OthersUntouched(schema, table, s, u);
      }
    } else {
      ExecMeans(schema, table, s);
      hide Proper, Exec, BodyKeepsOwner, OneColumnEach, BodyCells, Of;
      var cells := UpdatedCells(schema, s.input, s.now);
      OwnerKept(schema, s.input, s.now, s.t);
      OfMoved(table, s.id, s.t, cells);
      var u := OwnerAfter(cells, s.t);
      assert |Of(Exec(schema, table, s).0, u)| > |Of(table, u)|;
    }
  }

  /** No row of another tenant has the id a create draws, or one an update's body sets. */
  predicate FreshIn(schema: Schema, table: seq<Row>, s: Statement) {
    match s
    case Insert(t, id, _, _, _) => ForeignTo(table, id, t)
    case Update(t, _, _, input, _) =>
      forall k :: k in input && !Reserved(k) && schema.fold(k) == "id" ==> ForeignTo(table, input[k], t)
    case _ => true
  }

  predicate ForeignTo(table: seq<Row>, id: Value, t: Tenant) {
    forall r :: r in table && Holds(r, "id", id) ==> Owned(r, t)
  }

  lemma InsertOwn(schema: Schema, table: seq<Row>, s: Statement)
    requires s.Insert? && FreshIn(schema, table, s)
    ensures Meaning(schema, Of(table, s.t), s) == (Of(Meaning(schema, table, s).0, s.t), Meaning(schema, table, s).1)
  {
    if InsertNames(schema, s.input) {
      var row := schema.defaults + CreateCells(schema, s.input, s.id, s.t, s.now);
      CreatedRowOwned(schema, s.input, s.id, s.t, s.now, s.t);
      hide InsertNames, OneColumnEach, BodyCells, CreateCells;
      OfAppend(table, row, s.t);
    }
  }

  /** On rows of one tenant and ids of that tenant an update is decided as on the whole table. */
  lemma UpdateDecided(schema: Schema, table: seq<Row>, id: Value, t: Tenant, cells: Row)
    requires "id" in cells ==> ForeignTo(table, cells["id"], t)
    ensures UpdateCells(schema, table, id, t, cells).1 == UpdateCells(schema, Of(table, t), id, t, cells).1
    ensures UpdateCells(schema, table, id, t, cells).1.Refused? ==>
      UpdateCells(schema, table, id, t, cells).0 == table &&
      UpdateCells(schema, Of(table, t), id, t, cells).0 == Of(table, t)
  {
    MatchingOwn(table, id, t);
  }

  lemma CellsForeign(schema: Schema, table: seq<Row>, s: Statement)
    requires s.Update? && UpdateNames(schema, s.input)
    ensures FreshIn(schema, table, s) <==>
      var cells := UpdatedCells(schema, s.input, s.now);
      "id" in cells ==> ForeignTo(table, cells["id"], s.t)
  {
    hide ForeignTo;
    forall k | k in s.input && !Reserved(k)
      ensures Holds(UpdatedCells(schema, s.input, s.now), schema.fold(k), s.input[k])
    {
      BodyCell(schema, s.input, k);
    }
  }

  lemma UpdateOwn(schema: Schema, table: seq<Row>, s: Statement)
    requires s.Update? && FreshIn(schema, table, s) && KeepsOwner(schema, s)
    ensures Meaning(schema, Of(table, s.t), s) == (Of(Meaning(schema, table, s).0, s.t), Meaning(schema, table, s).1)
  {
    if UpdateNames(schema, s.input) {
      var cells := UpdatedCells(schema, s.input, s.now);
      CellsForeign(schema, table, s);
      OwnerKept(schema, s.input, s.now, s.t);
      hide UpdateNames, OneColumnEach, BodyCells, UpdatedCells, FreshIn, BodyKeepsOwner, ForeignTo;
      UpdateDecided(schema, table, s.id, s.t, cells);
      OfRewritten(table, s.id, s.t, cells, s.t);
    }
  }

  /** A tenant's own statement does to its rows, and answers, what it would on a table of these rows alone. */
  lemma OwnStatement(schema: Schema, table: seq<Row>, s: Statement)
    requires Proper(schema, s) && FreshIn(schema, table, s) && KeepsOwner(schema, s)
    ensures Exec(schema, Of(table, s.t), s) == (Of(Exec(schema, table, s).0, s.t), Exec(schema, table, s).1)
  {
    ExecMeans(schema, table, s);
    ExecMeans(schema, Of(table, s.t), s);
    hide Exec, Proper;
    OfOwn(table, s.t);
    match s
    case Count(_) =>
    case Page(_, _, _) =>
    case Get(t, id) => MatchingOwn(table, id, t);
    case Insert(_, _, _, _, _) => InsertOwn(schema, table, s);
    case Update(_, _, _, _, _) => UpdateOwn(schema, table, s);
    case Delete(t, id) =>
      MatchingOwn(table, id, t);
      OfWithout(table, id, t, t);
  }

  lemma ClashIsForeign(schema: Schema, table: seq<Row>, id: Value, t: Tenant, cells: Row)
    requires "id" in cells && !ForeignTo(table, cells["id"], t) && Matching(table, id, t) != []
    ensures UpdateCells(schema, table, id, t, cells).1.Refused?
  {
  }

  lemma MovedIsGone(schema: Schema, table: seq<Row>, id: Value, t: Tenant, cells: Row)
    requires OwnerAfter(cells, t) != t && Effective(UpdateCells(schema, Of(table, t), id, t, cells).1)
    requires "id" in cells ==> ForeignTo(table, cells["id"], t)
    ensures UpdateCells(schema, Of(table, t), id, t, cells).0 != Of(UpdateCells(schema, table, id, t, cells).0, t)
  {
    UpdateDecided(schema, table, id, t, cells);
    hide OwnerAfter, ForeignTo, IdClashes;
    MatchingOwn(table, id, t);
    OfMoved(table, id, t, cells);
  }

  /** For a write that alone would take effect, that is so exactly when its ids are fresh and it keeps the owner. */
  lemma OwnStatementExactly(schema: Schema, table: seq<Row>, s: Statement)
    requires (s.Insert? || s.Update?) && Proper(schema, s)
    ensures Effective(Exec(schema, Of(table, s.t), s).1) ==>
      (Exec(schema, Of(table, s.t), s) == (Of(Exec(schema, table, s).0, s.t), Exec(schema, table, s).1) <==>
       FreshIn(schema, table, s) && KeepsOwner(schema, s))
  {
    if !Effective(Exec(schema, Of(table, s.t), s).1) {
      return;
    }
    ExecMeans(schema, table, s);
    ExecMeans(schema, Of(table, s.t), s);
    hide Exec, Proper, BodyKeepsOwner, OneColumnEach, BodyCells, Of, CreateCells, OwnerAfter, UpdateCells;
    if FreshIn(schema, table, s) && KeepsOwner(schema, s) {
      OwnStatement(schema, table, s);
    } else if s.Update? {
      var cells := UpdatedCells(schema, s.input, s.now);
      CellsForeign(schema, table, s);
      OwnerKept(schema, s.input, s.now, s.t);
      hide UpdateNames, UpdatedCells, FreshIn, ForeignTo;
      if FreshIn(schema, table, s) {
        MovedIsGone(schema, table, s.id, s.t, cells);
      } else {
        EffectiveFinds(schema, table, s.id, s.t, cells);
        ClashIsForeign(schema, table, s.id, s.t, cells);
      }
    } else {
      InsertClashes(schema, table, s);
    }
  }

  lemma EffectiveFinds(schema: Schema, table: seq<Row>, id: Value, t: Tenant, cells: Row)
    requires Effective(UpdateCells(schema, Of(table, t), id, t, cells).1)
    ensures Matching(table, id, t) != []
  {
    MatchingOwn(table, id, t);
  }

  lemma InsertClashes(schema: Schema, table: seq<Row>, s: Statement)
    requires s.Insert? && InsertNames(schema, s.input) && !FreshIn(schema, table, s)
    ensures Meaning(schema, table, s).1.Refused?
  {
    CreatedRowOwned(schema, s.input, s.id, s.t, s.now, s.t);
    hide InsertNames, OneColumnEach, BodyCells, CreateCells;
  }

  /** A body of one key that the database reads as organization_id hands the record to the organization it names. */
  lemma OneKeyMovesARecord(schema: Schema, row: Row, id: Value, t: Tenant, key: string, org: Value, now: Value,
                           sets: UpdateSql)
    requires Matches(row, id, t) && org != t.org && !Reserved(key) && schema.fold(key) == "organization_id"
    requires {"organization_id", "updated_at"} <= schema.columns && forall r :: schema.accepts(r)
    requires PlainName(schema.keywords, key) && UpdateFor(sets, map[key := org], id, t, now)
    ensures var after := Exec(schema, [row], Update(t, id, now, map[key := org], sets)).0;
      && Of([row], Tenant(org, t.app)) == [] && Of(after, t) == []
      && |Of(after, Tenant(org, t.app))| == 1
  {
    hide UpdateFor, PlainBody, Meaning, Of, PlainName, Matches;
    var s := Update(t, id, now, map[key := org], sets);
    assert PlainBody(schema, map[key := org]) by { OneKeyPlain(schema, key, org); }
    ExecMeans(schema, [row], s);
    OneKeyMeans(schema, row, s, key, org);
  }

  lemma OneKeyPlain(schema: Schema, key: string, value: Value)
    requires PlainName(schema.keywords, key)
    ensures PlainBody(schema, map[key := value])
  {
    hide PlainName;
  }

  lemma OneKeyMeans(schema: Schema, row: Row, s: Statement, key: string, org: Value)
    requires s.Update? && s.input == map[key := org] && Matches(row, s.id, s.t) && org != s.t.org
    requires !Reserved(key) && schema.fold(key) == "organization_id"
    requires {"organization_id", "updated_at"} <= schema.columns && forall r :: schema.accepts(r)
    ensures var after := Meaning(schema, [row], s).0;
      && Of([row], Tenant(org, s.t.app)) == [] && Of(after, s.t) == []
      && |Of(after, Tenant(org, s.t.app))| == 1
  {
    OneKeyCells(schema, key, org, s.now);
    hide UpdateNames, OneColumnEach, BodyCells, UpdatedCells;
    var cells := UpdatedCells(schema, s.input, s.now);
    assert OwnerAfter(cells, s.t) == Tenant(org, s.t.app);
    OneRowTable(schema, row, s.id, s.t, cells);
    assert Meaning(schema, [row], s).0 == Rewritten([row], s.id, s.t, cells);
    hide Meaning, Of, Matching, Rewritten, OwnerAfter, Holds, Matches;
    OneRowOf(row, s.id, s.t, Tenant(org, s.t.app));
    OfMoved([row], s.id, s.t, cells);
  }

  lemma OneRowTable(schema: Schema, row: Row, id: Value, t: Tenant, cells: Row)
    requires Matches(row, id, t) && cells.Keys <= schema.columns && "id" !in cells && forall r :: schema.accepts(r)
    ensures UpdateCells(schema, [row], id, t, cells).0 == Rewritten([row], id, t, cells)
  {
  }

  lemma OneRowOf(row: Row, id: Value, t: Tenant, u: Tenant)
    requires Matches(row, id, t) && t != u
    ensures Matching([row], id, t) == [row] && Of([row], t) == [row] && Of([row], u) == []
  {
    assert [row][1..] == [];
  }

  /** A table of four columns without further checks, whose database refuses what it cannot read. */
  function SmallSchema(): Schema {
    Schema({"id", "organization_id", "app_id", "updated_at"}, map[], _ => true, {}, (table, _, _) => (table, Refused))
  }

  function SmallRow(): Row {
    map["id" := Id(1), "organization_id" := Id(10), "app_id" := Id(20)]
  }

  /** One such body: a key in capitals passes the handler's test. */
  lemma CapitalsMoveARecord(sets: UpdateSql)
    requires UpdateFor(sets, map["Organization_ID" := Id(11)], Id(1), Tenant(Id(10), Id(20)), Time(5))
    ensures var s := Update(Tenant(Id(10), Id(20)), Id(1), Time(5), map["Organization_ID" := Id(11)], sets);
      var after := Exec(SmallSchema(), [SmallRow()], s).0;
      && Of([SmallRow()], Tenant(Id(11), Id(20))) == [] && Of(after, Tenant(Id(10), Id(20))) == []
      && |Of(after, Tenant(Id(11), Id(20)))| == 1
  {
    CapitalsRead();
    hide LowerCase, Exec, Of, UpdateFor, PlainName;
    var t := Tenant(Id(10), Id(20));
    OneKeyMovesARecord(SmallSchema(), SmallRow(), Id(1), t, "Organization_ID", Id(11), Time(5), sets);
  }

  lemma OneKeyCells(schema: Schema, key: string, value: Value, now: Value)
    requires !Reserved(key) && schema.fold(key) == "organization_id"
    ensures UpdateNames(schema, map[key := value])
    ensures UpdatedCells(schema, map[key := value], now) == map["organization_id" := value, "updated_at" := now]
  {
    BodyCell(schema, map[key := value], key);
  }

  lemma CapitalsRead()
    ensures LowerCase("Organization_ID") == "organization_id" && PlainName({}, "Organization_ID")
  {
    assert LowerCase("Organization_ID") == "organization_id";
    OwnNamesArePlain({}, "organization_id");
  }

  // ----- Whole runs -----

  function Final(schema: Schema, table: seq<Row>, run: seq<Statement>): seq<Row>
    decreases |run|
  {
    if run == [] then table else Final(schema, Exec(schema, table, run[0]).0, run[1..])
  }

  /** What the statements of one tenant answer, in the order they run. */
  function Answers(schema: Schema, table: seq<Row>, run: seq<Statement>, u: Tenant): seq<Outcome>
    decreases |run|
  {
    if run == [] then []
    else
      var (after, answer) := Exec(schema, table, run[0]);
      if run[0].t == u then [answer] + Answers(schema, after, run[1..], u) else Answers(schema, after, run[1..], u)
  }

  function Only(run: seq<Statement>, u: Tenant): seq<Statement> {
    if run == [] then []
    else if run[0].t == u then [run[0]] + Only(run[1..], u)
    else Only(run[1..], u)
  }

  /** Every id a statement of the run writes is, at that moment, on no row of another tenant. */
  predicate FreshRun(schema: Schema, table: seq<Row>, run: seq<Statement>)
    decreases |run|
  {
    run == [] || (FreshIn(schema, table, run[0]) && FreshRun(schema, Exec(schema, table, run[0]).0, run[1..]))
  }

  /**
    Tenant non-interference: over any interleaving of the statements of many tenants, if all body keys are
    plain and no body changes an owner, each tenant gets exactly the answers, and ends with exactly the rows,
    of its own statements run alone on its own rows.
   */
  lemma {:induction false} NonInterference(schema: Schema, table: seq<Row>, run: seq<Statement>, u: Tenant)
    requires FreshRun(schema, table, run) && forall s :: s in run ==> Proper(schema, s) && KeepsOwner(schema, s)
    ensures Answers(schema, table, run, u) == Answers(schema, Of(table, u), Only(run, u), u)
    ensures Of(Final(schema, table, run), u) == Final(schema, Of(table, u), Only(run, u))
    decreases |run|
  {
    hide Exec, Of, FreshIn, KeepsOwner, Proper;
    if run != [] {
      assert run[0] in run;
      var next := Exec(schema, table, run[0]).0;
      NonInterference(schema, next, run[1..], u);
      if run[0].t == u {
        OwnStatement(schema, table, run[0]);
        assert Only(run, u)[0] == run[0] && Only(run, u)[1..] == Only(run[1..], u);
      } else {
        OthersUntouched(schema, table, run[0], u);
      }
    }
  }

  /** A tenant that is not calling keeps its rows through any run. */
  lemma {:induction false} BystanderKeepsRows(schema: Schema, table: seq<Row>, run: seq<Statement>, u: Tenant)
    requires forall s :: s in run ==> s.t != u && Proper(schema, s) && KeepsOwner(schema, s)
    ensures Of(Final(schema, table, run), u) == Of(table, u)
    decreases |run|
  {
    hide Exec, Of, KeepsOwner, Proper;
    if run != [] {
      assert run[0] in run;
      OthersUntouched(schema, table, run[0], u);
      BystanderKeepsRows(schema, Exec(schema, table, run[0]).0, run[1..], u);
    }
  }

  // ----- The handler -----

  /** What the five handlers return; handleGeneric sends both failures out as the same 500 response. */
  datatype Reply =
    | Listed(data: seq<Row>, total: nat, offset: int, limit: nat)
    | Record(row: Row, created: bool)
    | Removed
    | NotFound
    | Failed

  function ListReply(count: Outcome, page: Outcome, offset: int, limit: nat): Reply {
    if count.Counted? && page.Rows? then Listed(page.rows, count.count, offset, limit) else Failed
  }

  function RowReply(o: Outcome): Reply {
    if !o.Rows? then Failed else if o.rows == [] then NotFound else Record(o.rows[0], false)
  }

  function CreateReply(o: Outcome): Reply {
    if !o.Rows? || o.rows == [] then Failed else Record(o.rows[0], true)
  }

  function DeleteReply(o: Outcome): Reply {
    if !o.Counted? then Failed else if o.count == 0 then NotFound else Removed
  }

  class Resolver {
    const schema: Schema
    var table: seq<Row>

    constructor (schema: Schema, table: seq<Row>)
      ensures this.schema == schema && this.table == table
    {
      this.schema, this.table := schema, table;
    }

    method HandleList(t: Tenant, offset: int, requested: int) returns (reply: Reply)
      ensures var limit := if 1 <= requested <= 100 then requested else 20;
        var count, page := Exec(schema, table, Count(t)).1, Exec(schema, table, Page(t, limit, offset)).1;
        reply == ListReply(count, page, offset, limit)
      ensures offset < 0 ==> reply == Failed
      ensures offset >= 0 ==> reply.Listed? && reply.offset == offset
      ensures offset >= 0 ==> reply.limit == if 1 <= requested <= 100 then requested else 20
      ensures ListingOf(Newest(Of(table, t)), table, t)
      ensures offset >= 0 ==>
        var all := Newest(Of(table, t));
        && reply.total == |all|
        && |reply.data| == (if |all| <= offset then 0
                            else if |all| - offset <= reply.limit then |all| - offset else reply.limit)
        && forall i: nat :: i < |reply.data| ==> reply.data[i] == all[offset + i]
    {
      hide Newest, ListingOf;
      ListingHolds(table, t);
      var limit := requested;
      if limit <= 0 || limit > 100 {
        limit := 20;
      }
      var total := Exec(schema, table, Count(t)).1;
      var rows := Exec(schema, table, Page(t, limit, offset)).1;
      if rows.Refused? {
        return Failed;
      }
      reply := Listed(rows.rows, total.count, offset, limit);
      WindowByIndex(Newest(Of(table, t)), offset, limit);
    }

    method HandleGet(t: Tenant, id: Value) returns (reply: Reply)
      ensures reply == RowReply(Exec(schema, table, Get(t, id)).1)
      ensures reply.Record? || reply.NotFound?
      ensures reply.Record? ==> reply.row in table && Matches(reply.row, id, t) && !reply.created
      ensures reply.NotFound? <==> forall r :: r in table ==> !Matches(r, id, t)
    {
      MatchingFinds(table, id, t);
      reply := RowReply(Exec(schema, table, Get(t, id)).1);
    }

    /** Builds the INSERT from the body in whatever order its keys come, and runs its text. */
    method HandleCreate(t: Tenant, recordId: Value, now: Value, input: Row)
      returns (reply: Reply, ghost s: Statement)
      modifies this`table
      ensures s.Insert? && s == Insert(t, recordId, now, input, s.lists) && AsBuilt(s)
      ensures table == Exec(schema, old(table), s).0
      ensures var answer := Exec(schema, old(table), s).1;
        reply == if answer.Rows? && answer.rows != [] then Record(answer.rows[0], true) else Failed
      ensures PlainBody(schema, input) ==>
        table == Meaning(schema, old(table), s).0 && reply == CreateReply(Meaning(schema, old(table), s).1)
    {
      hide InsertFor, RunInsert, Meaning, PlainBody;
      var query := BuildInsert(input, recordId, t, now);
      s := Insert(t, recordId, now, input, query);
      if PlainBody(schema, input) {
        ExecMeans(schema, table, s);
      }
      var (rows, returned) := RunInsert(schema, table, query);
      table := rows;
      reply := CreateReply(returned);
    }

    method HandleUpdate(t: Tenant, recordId: Value, now: Value, input: Row)
      returns (reply: Reply, ghost s: Statement)
      modifies this`table
      ensures s.Update? && s == Update(t, recordId, now, input, s.sets) && AsBuilt(s)
      ensures table == Exec(schema, old(table), s).0
      ensures var answer := Exec(schema, old(table), s).1;
        && (reply == Failed <==> !answer.Rows?)
        && (reply == NotFound <==> answer == Rows([]))
        && (answer.Rows? && answer.rows != [] ==> reply == Record(answer.rows[0], false))
      ensures PlainBody(schema, input) ==>
        table == Meaning(schema, old(table), s).0 && reply == RowReply(Meaning(schema, old(table), s).1)
    {
      hide UpdateFor, RunUpdate, Meaning, PlainBody;
      var query := BuildUpdate(input, recordId, t, now);
      s := Update(t, recordId, now, input, query);
      if PlainBody(schema, input) {
        ExecMeans(schema, table, s);
      }
      var (rows, returned) := RunUpdate(schema, table, query);
      table := rows;
      reply := RowReply(returned);
    }

    method HandleDelete(t: Tenant, recordId: Value) returns (reply: Reply)
      modifies this`table
      ensures table == Exec(schema, old(table), Delete(t, recordId)).0
      ensures reply == DeleteReply(Exec(schema, old(table), Delete(t, recordId)).1)
      ensures reply == NotFound || reply == Removed
      ensures reply.NotFound? <==> forall r :: r in old(table) ==> !Matches(r, recordId, t)
      ensures reply.NotFound? ==> table == old(table)
    {
      var (rows, affected) := Exec(schema, table, Delete(t, recordId));
      MatchingFinds(table, recordId, t);
      NothingToDelete(table, recordId, t);
      table := rows;
      reply := DeleteReply(affected);
    }
  }

  /** A created record is found by its tenant, and by no other. */
  lemma CreateThenGet(schema: Schema, table: seq<Row>, s: Statement, t: Tenant)
    requires s.Insert? && Proper(schema, s)
    ensures Exec(schema, table, s).1.Rows? ==>
      InsertNames(schema, s.input) &&
      var row := schema.defaults + CreateCells(schema, s.input, s.id, s.t, s.now);
      && Exec(schema, table, s).1 == Rows([row])
      && Exec(schema, Exec(schema, table, s).0, Get(t, s.id)).1 == Rows(if t == s.t then [row] else [])
  {
    ExecMeans(schema, table, s);
    hide Proper, RunInsert;
    if Exec(schema, table, s).1.Refused? {
      return;
    }
    var row := schema.defaults + CreateCells(schema, s.input, s.id, s.t, s.now);
    CreatedRowOwned(schema, s.input, s.id, s.t, s.now, t);
    NoMatch(table, row, s.id, t);
  }

  lemma {:induction false} NoMatch(table: seq<Row>, row: Row, id: Value, t: Tenant)
    requires forall r :: r in table ==> !Holds(r, "id", id)
    ensures Matching(table + [row], id, t) == if Matches(row, id, t) then [row] else []
  {
    if table == [] {
      assert table + [row] == [row];
    } else {
      assert table[0] in table && (table + [row])[1..] == table[1..] + [row];
      NoMatch(table[1..], row, id, t);
    }
  }

  /** No unreserved key of the body stands for the id column with another value. */
  predicate BodyKeepsId(schema: Schema, id: Value, input: Row) {
    forall k :: k in input && !Reserved(k) && schema.fold(k) == "id" ==> input[k] == id
  }

  /**
    An update that finds its record returns the body's values, the time, and every other cell as it was.
    The next get returns the same exactly when the body keeps owner and id; otherwise it finds nothing.
   */
  lemma UpdateThenGet(schema: Schema, table: seq<Row>, s: Statement)
    requires s.Update? && Proper(schema, s)
    ensures var (after, answer) := Exec(schema, table, s);
      Effective(answer) ==>
        && |answer.rows| == |Matching(table, s.id, s.t)|
        && (forall i: nat :: i < |answer.rows| ==>
              UpdatedFrom(schema, Matching(table, s.id, s.t)[i], answer.rows[i], s.input, s.now))
        && (Exec(schema, after, Get(s.t, s.id)).1 == answer <==>
              BodyKeepsOwner(schema, s.t, s.input) && BodyKeepsId(schema, s.id, s.input))
  {
    ExecMeans(schema, table, s);
    hide Proper, RunUpdate;
    if !Effective(Exec(schema, table, s).1) {
      return;
    }
    assert UpdateNames(schema, s.input);
    var cells := UpdatedCells(schema, s.input, s.now);
    UpdateEffect(schema, table, s);
    OwnerKept(schema, s.input, s.now, s.t);
    IdKept(schema, s.input, s.now, s.id);
    GetAfterUpdate(table, s.id, s.t, cells);
    hide UpdateCells, UpdatedCells, UpdatedFrom, BodyKeepsOwner, BodyKeepsId, OneColumnEach, OwnerAfter, UpdateNames;
    hide Matching, Rewritten, Exec, Meaning;
    var found := Matching(table, s.id, s.t);
    forall i: nat | i < |found| ensures UpdatedFrom(schema, found[i], Extended(found, cells)[i], s.input, s.now) {
      UpdatedRow(schema, found[i], s.input, s.now);
    }
  }

  lemma UpdateEffect(schema: Schema, table: seq<Row>, s: Statement)
    requires s.Update?
    ensures Effective(Meaning(schema, table, s).1) ==>
      && UpdateNames(schema, s.input) && Matching(table, s.id, s.t) != []
      && var cells := UpdatedCells(schema, s.input, s.now);
      && Meaning(schema, table, s) ==
         (Rewritten(table, s.id, s.t, cells), Rows(Extended(Matching(table, s.id, s.t), cells)))
      && Exec(schema, Rewritten(table, s.id, s.t, cells), Get(s.t, s.id)).1 ==
         Rows(Matching(Rewritten(table, s.id, s.t, cells), s.id, s.t))
  {
    hide UpdateNames, UpdatedCells, OneColumnEach;
  }

  lemma GetAfterUpdate(table: seq<Row>, id: Value, t: Tenant, cells: Row)
    requires Matching(table, id, t) != []
    ensures Matching(Rewritten(table, id, t, cells), id, t) == Extended(Matching(table, id, t), cells) <==>
      OwnerAfter(cells, t) == t && ("id" in cells ==> cells["id"] == id)
  {
    hide OwnerAfter;
    RewrittenMatches(table, id, t, cells);
  }

  lemma IdKept(schema: Schema, input: Row, now: Value, id: Value)
    requires UpdateNames(schema, input)
    ensures var cells := UpdatedCells(schema, input, now);
      BodyKeepsId(schema, id, input) <==> ("id" in cells ==> cells["id"] == id)
  {
    forall k | k in input && !Reserved(k)
      ensures Holds(UpdatedCells(schema, input, now), schema.fold(k), input[k])
    {
      BodyCell(schema, input, k);
    }
  }

  lemma UpdatedRow(schema: Schema, row: Row, input: Row, now: Value)
    requires UpdateNames(schema, input)
    ensures UpdatedFrom(schema, row, row + UpdatedCells(schema, input, now), input, now)
  {
    hide Reserved, UpdatedFrom;
    BodyCellsAre(schema, input);
    assert "updated_at" !in BodyCells(schema, input);
    RowWithCells(schema, row, input, now, BodyCells(schema, input));
  }

  lemma RowWithCells(schema: Schema, row: Row, input: Row, now: Value, body: Row)
    requires forall k :: k in input && !Reserved(k) ==> Holds(body, schema.fold(k), input[k])
    requires forall c :: c in body <==> Named(schema, input, c)
    requires "updated_at" !in body
    ensures UpdatedFrom(schema, row, row + (body + map["updated_at" := now]), input, now)
  {
    hide Reserved, Named;
  }

  /** Some key of the body stands for the column. */
  ghost predicate Named(schema: Schema, input: Row, c: string) {
    exists k :: k in input && !Reserved(k) && schema.fold(k) == c
  }

  lemma BodyCellsAre(schema: Schema, input: Row)
    requires OneColumnEach(schema, input)
    ensures forall k :: k in input && !Reserved(k) ==> Holds(BodyCells(schema, input), schema.fold(k), input[k])
    ensures forall c :: c in BodyCells(schema, input) <==> Named(schema, input, c)
  {
    forall k | k in input && !Reserved(k) ensures Holds(BodyCells(schema, input), schema.fold(k), input[k]) {
      BodyCell(schema, input, k);
    }
  }

  /** One row before and after an update. */
  ghost predicate UpdatedFrom(schema: Schema, row: Row, updated: Row, input: Row, now: Value) {
    && Holds(updated, "updated_at", now)
    && (forall k :: k in input && !Reserved(k) ==> Holds(updated, schema.fold(k), input[k]))
    && (forall c :: c in row && c != "updated_at" && !Named(schema, input, c) ==> Holds(updated, c, row[c]))
    && (forall c :: c in updated ==> c in row || c == "updated_at" || Named(schema, input, c))
  }

  lemma StillMatches(row: Row, id: Value, t: Tenant, cells: Row)
    requires Matches(row, id, t)
    ensures Matches(row + cells, id, t) <==> OwnerAfter(cells, t) == t && ("id" in cells ==> cells["id"] == id)
  {
  }

  lemma {:induction false} RewrittenMatches(table: seq<Row>, id: Value, t: Tenant, cells: Row)
    ensures Matching(Rewritten(table, id, t, cells), id, t) ==
      if OwnerAfter(cells, t) == t && ("id" in cells ==> cells["id"] == id)
      then Extended(Matching(table, id, t), cells) else []
  {
    hide Matches, OwnerAfter;
    if table != [] {
      RewrittenMatches(table[1..], id, t, cells);
      assert Rewritten(table, id, t, cells)[1..] == Rewritten(table[1..], id, t, cells);
      if Matches(table[0], id, t) {
        StillMatches(table[0], id, t, cells);
        var rest := Matching(table[1..], id, t);
        assert Extended([table[0]] + rest, cells) == [table[0] + cells] + Extended(rest, cells);
      }
    }
  }

  /** After a delete the record is not found by its tenant, and a second delete finds nothing. */
  lemma DeleteThenNothing(schema: Schema, table: seq<Row>, t: Tenant, id: Value)
    ensures var after := Exec(schema, table, Delete(t, id)).0;
      && RowReply(Exec(schema, after, Get(t, id)).1) == NotFound
      && Exec(schema, after, Delete(t, id)) == (after, Counted(0))
  {
    NoneLeft(table, id, t);
  }

  lemma {:induction false} NothingToDelete(table: seq<Row>, id: Value, t: Tenant)
    ensures Matching(table, id, t) == [] ==> Without(table, id, t) == table
  {
    if table != [] {
      NothingToDelete(table[1..], id, t);
      assert table == [table[0]] + table[1..];
    }
  }

  lemma {:induction false} NoneLeft(table: seq<Row>, id: Value, t: Tenant)
    ensures Matching(Without(table, id, t), id, t) == []
    ensures Without(Without(table, id, t), id, t) == Without(table, id, t)
  {
    if table != [] {
      NoneLeft(table[1..], id, t);
      var rest := Without(table[1..], id, t);
      assert ([table[0]] + rest)[1..] == rest;
    }
  }
}
