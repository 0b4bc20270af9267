/**
  Two families of body keys that are no plain names: one carries an assignment of its own into the UPDATE,
  the other brings a row of its own into the INSERT.  No key of such a body names an owner column, yet rows
  of another tenant change.
 */
module SqlInKeys {
  import opened Outcomes
  import opened SqlText
  import opened DynamicSql
  import opened SqlCommands
  import opened TenantTable
  import opened TenantCommands

  // ----- An assignment in a key -----

  /** A body key that holds an assignment of its own. */
  function LiteralKey(column: string, n: nat, last: string): string {
    column + " = " + NatText(n) + ", " + last
  }

  /** The lists for a body of one key the handler takes over. */
  lemma OneKeySets(sets: UpdateSql, key: string, value: Value, id: Value, t: Tenant, now: Value)
    requires UpdateFor(sets, map[key := value], id, t, now) && !Reserved(key)
    ensures ColumnsOf(sets.sets) == ["updated_at", key] && PlaceholdersOf(sets.sets) == [1, 2]
    ensures sets.id == 3 && sets.org == 4 && sets.app == 5 && sets.values == [now, value, id, t.org, t.app]
  {
    var columns := ColumnsOf(sets.sets);
    var body := columns[1..];
    assert key in body && forall i: nat :: i < |body| ==> body[i] == key;
    assert Distinct(body);
    hide Distinct;
    if |body| > 1 {
      TwoEqual(body, key);
    }
    assert columns == ["updated_at", key];
    assert sets.values[1] == sets.values[1..2][0];
    assert sets.values == sets.values[..2] + sets.values[2..];
  }

  lemma TwoEqual(keys: seq<string>, key: string)
    requires |keys| > 1 && forall i: nat :: i < |keys| ==> keys[i] == key
    ensures !Distinct(keys)
  {
    assert keys[0] == keys[1];
  }

  lemma LexLiteral(column: string, n: nat, rest: string)
    requires IsIdentifier(column)
    ensures Lex(column + " = " + NatText(n) + ", " + rest) ==
      [Word(LowerCase(column)), Sym('='), Number(n)] + ([Sym(',')] + Lex(rest))
  {
    hide Lex, LowerCase, IsIdentifier, NatText;
    var tail := NatText(n) + (", " + rest);
    assert column + " = " + NatText(n) + ", " + rest == column + (" " + (['='] + (" " + tail)));
    LexName(column, " " + (['='] + (" " + tail)));
    LexSpace(['='] + (" " + tail));
    LexSym('=', " " + tail);
    LexSpace(tail);
    LexNumber(n, ", " + rest);
    LexComma(rest);
  }

  /** One more equation in front of a SET list. */
  lemma ReadOneMore(keywords: set<string>, column: string, e: Token, rest: seq<Token>)
    requires !IsTaken(keywords, column) && ReadExpr([e]).Some? && ReadEquations(keywords, Sym(','), rest).Some?
    ensures var (equations, end) := ReadEquations(keywords, Sym(','), rest).value;
      ReadEquations(keywords, Sym(','), [Word(column), Sym('='), e] + ([Sym(',')] + rest)) ==
      Some(([Equation(column, ReadExpr([e]).value)] + equations, end))
  {
    var ts := [Word(column), Sym('='), e] + ([Sym(',')] + rest);
    assert ts[1..] == [Sym('='), e] + ([Sym(',')] + rest) && ts[2..] == [e] + ([Sym(',')] + rest);
    assert ts[3..] == [Sym(',')] + rest && ts[4..] == rest;
  }

  /** The assignments an UPDATE with such a key is read to make. */
  function LiteralSets(column: string, n: nat, last: string): seq<Equation> {
    [Equation("updated_at", Param(1)), Equation(LowerCase(column), Literal(n)), Equation(LowerCase(last), Param(2))]
  }

  lemma LiteralTail(keywords: set<string>, column: string, n: nat, last: string, tail: string)
    requires PlainName(keywords, column) && PlainName(keywords, last)
    requires tail != "" && !IsDigit(tail[0]) && !Next(Lex(tail), Sym(','))
    ensures ReadEquations(keywords, Sym(','), Lex(SetText(LiteralKey(column, n, last), 2) + tail)) ==
      Some(([Equation(LowerCase(column), Literal(n)), Equation(LowerCase(last), Param(2))], Lex(tail)))
  {
    LiteralText(column, n, last, tail);
    hide Lex, SetText, NatText, LowerCase, IsTaken, IsIdentifier, ReadEquations, LiteralKey;
    var rest := SetText(last, 2) + tail;
    assert SetTexts([last], [2]) == [SetText(last, 2)] && Join([SetText(last, 2)]) == SetText(last, 2);
    assert Equations([last], [2]) == [Equation(LowerCase(last), Param(2))];
    SetsRead(keywords, [last], [2], tail);
    LexLiteral(column, n, rest);
    ReadOneMore(keywords, LowerCase(column), Number(n), Lex(rest));
    var own, other := Equation(LowerCase(column), Literal(n)), Equation(LowerCase(last), Param(2));
    assert [own] + [other] == [own, other];
  }

  lemma OneMoreSet(keywords: set<string>, column: string, placeholder: nat, rest: string, sets: seq<Equation>,
                   end: seq<Token>)
    requires PlainName(keywords, column) && ReadEquations(keywords, Sym(','), Lex(rest)) == Some((sets, end))
    ensures ReadEquations(keywords, Sym(','), Lex(SetText(column, placeholder) + ", " + rest)) ==
      Some(([Equation(LowerCase(column), Param(placeholder))] + sets, end))
  {
    hide Lex, SetText, LowerCase, IsTaken, ReadEquations;
    assert SetText(column, placeholder) + ", " + rest == SetText(column, placeholder) + (", " + rest);
    LexEquation(keywords, column, placeholder, ", " + rest);
    LexComma(rest);
    ReadOneMore(keywords, LowerCase(column), Arg(placeholder), Lex(rest));
  }

  /** The text of an UPDATE with such a key reads as an assignment more than the handler meant. */
  lemma LiteralRead(keywords: set<string>, column: string, n: nat, last: string)
    requires PlainName(keywords, column) && PlainName(keywords, last)
    ensures ReadUpdate(keywords, Lex(UpdateText(["updated_at", LiteralKey(column, n, last)], [1, 2], 3, 4, 5))) ==
      Some(UpdateCommand(LiteralSets(column, n, last), OwnConditions(3, 4, 5), true))
  {
    hide Lex, SetText, LowerCase, PlainName, ReadEquations, ReadUpdate, ConditionText, UpdateText, LiteralKey;
    var first, second := SetText("updated_at", 1), SetText(LiteralKey(column, n, last), 2);
    TextOfLiteral(column, n, last);
    LiteralSetsRead(keywords, column, n, last, first, second, ConditionText(3, 4, 5));
    UpdateReadFrom(keywords, first + ", " + second, LiteralSets(column, n, last), 3, 4, 5);
  }

  lemma LiteralSetsRead(keywords: set<string>, column: string, n: nat, last: string, first: string, second: string,
                        tail: string)
    requires PlainName(keywords, column) && PlainName(keywords, last) && tail == ConditionText(3, 4, 5)
    requires first == SetText("updated_at", 1) && second == SetText(LiteralKey(column, n, last), 2)
    ensures ReadEquations(keywords, Sym(','), Lex(first + ", " + second + tail)) ==
      Some((LiteralSets(column, n, last), Lex(tail)))
  {
    OwnNamesArePlain(keywords, "updated_at");
    ConditionTail(keywords, tail);
    hide Lex, SetText, LowerCase, PlainName, IsTaken, ReadEquations, ConditionText, LiteralKey, OwnConditions;
    LiteralTail(keywords, column, n, last, tail);
    var others := [Equation(LowerCase(column), Literal(n)), Equation(LowerCase(last), Param(2))];
    OneMoreSet(keywords, "updated_at", 1, second + tail, others, Lex(tail));
    assert first + ", " + second + tail == first + ", " + (second + tail);
    assert [Equation("updated_at", Param(1))] + others == LiteralSets(column, n, last);
  }

  lemma ConditionTail(keywords: set<string>, tail: string)
    requires tail == ConditionText(3, 4, 5)
    ensures tail != "" && !IsDigit(tail[0]) && !Next(Lex(tail), Sym(','))
  {
    hide Lex;
    ConditionLex(keywords, 3, 4, 5);
  }

  lemma TextOfLiteral(column: string, n: nat, last: string)
    ensures var key := LiteralKey(column, n, last);
      UpdateText(["updated_at", key], [1, 2], 3, 4, 5) ==
      SetText("updated_at", 1) + ", " + SetText(key, 2) + ConditionText(3, 4, 5)
  {
    hide SetText, ConditionText, LiteralKey;
    var key := LiteralKey(column, n, last);
    var parts := SetTexts(["updated_at", key], [1, 2]);
    assert parts == [SetText("updated_at", 1), SetText(key, 2)] && parts[1..] == [SetText(key, 2)];
    assert Join(parts) == SetText("updated_at", 1) + ", " + SetText(key, 2);
  }

  lemma LiteralText(column: string, n: nat, last: string, tail: string)
    ensures SetText(LiteralKey(column, n, last), 2) + tail ==
      column + " = " + NatText(n) + ", " + (SetText(last, 2) + tail)
  {
  }

  /**
    An update whose one key holds an owner assignment: no key of the body names an owner column, yet the
    record goes to the organization the text names.
   */
  lemma LiteralMovesARecord(schema: Schema, row: Row, s: Statement, column: string, n: nat, last: string, value: Value)
    requires s.Update? && AsBuilt(s) && s.input == map[LiteralKey(column, n, last) := value]
    requires PlainName(schema.keywords, column) && LowerCase(column) == "organization_id"
    requires PlainName(schema.keywords, last) && LowerCase(last) !in OWN_NAMES
    requires Matches(row, s.id, s.t) && s.t.org != Id(n) && forall r :: schema.accepts(r)
    requires {"organization_id", "updated_at", LowerCase(last)} <= schema.columns
    ensures KeepsOwner(schema, s) && !Proper(schema, s)
    ensures var after := Exec(schema, [row], s).0;
      Of([row], Tenant(Id(n), s.t.app)) == [] && Of(after, s.t) == [] && |Of(after, Tenant(Id(n), s.t.app))| == 1
  {
    var key := LiteralKey(column, n, last);
    LiteralSlipsThrough(schema, s, column, n, last, value);
    LiteralIsNoName(column, n, last);
    hide Lex, ReadUpdate, LiteralKey, PlainName, LowerCase, Matches, Of, LiteralSets, Reserved, IsIdentifier, Proper;
    LiteralRuns(schema, row, s, column, n, last, value);
    LiteralExecuted(schema, row, s, column, n, last, value);
  }

  lemma LiteralSlipsThrough(schema: Schema, s: Statement, column: string, n: nat, last: string, value: Value)
    requires s.Update? && s.input == map[LiteralKey(column, n, last) := value] && IsIdentifier(column)
    ensures KeepsOwner(schema, s) && !PlainBody(schema, s.input) && !Proper(schema, s)
  {
    LiteralIsNoName(column, n, last);
    hide LiteralKey, LowerCase, IsIdentifier, Reserved;
    assert LiteralKey(column, n, last) in s.input;
  }

  lemma LiteralRuns(schema: Schema, row: Row, s: Statement, column: string, n: nat, last: string, value: Value)
    requires s.Update? && AsBuilt(s) && s.input == map[LiteralKey(column, n, last) := value]
    requires PlainName(schema.keywords, column) && PlainName(schema.keywords, last)
    ensures s.sets.values == [s.now, value, s.id, s.t.org, s.t.app]
    ensures var cmd := UpdateCommand(LiteralSets(column, n, last), OwnConditions(3, 4, 5), true);
      Exec(schema, [row], s) == ExecUpdateCommand(schema, [row], cmd, s.sets.values)
  {
    LiteralIsNoName(column, n, last);
    hide Lex, ReadUpdate, UpdateText, LiteralKey, PlainName, LowerCase, UpdateFor, LiteralSets, ExecUpdateCommand,
      Reserved;
    OneKeySets(s.sets, LiteralKey(column, n, last), value, s.id, s.t, s.now);
    LiteralRead(schema.keywords, column, n, last);
  }

  lemma LiteralIsNoName(column: string, n: nat, last: string)
    requires IsIdentifier(column)
    ensures var key := LiteralKey(column, n, last);
      !IsIdentifier(key) && !Reserved(key) && LowerCase(key) != "organization_id" && LowerCase(key) != "app_id"
  {
    var key := LiteralKey(column, n, last);
    assert key[|column|] == ' ' && LowerCase(key)[|column|] == ' ';
    assert !IsNameChar(key[|column|]);
    SmallLetters("id");
    SmallLetters("organization_id");
    SmallLetters("app_id");
    SmallLetters("created_at");
    SmallLetters("updated_at");
  }

  lemma LiteralExecuted(schema: Schema, row: Row, s: Statement, column: string, n: nat, last: string, value: Value)
    requires s.Update? && s.sets.values == [s.now, value, s.id, s.t.org, s.t.app]
    requires LowerCase(column) == "organization_id" && LowerCase(last) !in OWN_NAMES
    requires Matches(row, s.id, s.t) && s.t.org != Id(n) && forall r :: schema.accepts(r)
    requires {"organization_id", "updated_at", LowerCase(last)} <= schema.columns
    ensures var cmd := UpdateCommand(LiteralSets(column, n, last), OwnConditions(3, 4, 5), true);
      var after := ExecUpdateCommand(schema, [row], cmd, s.sets.values).0;
      Of([row], Tenant(Id(n), s.t.app)) == [] && Of(after, s.t) == [] && |Of(after, Tenant(Id(n), s.t.app))| == 1
  {
    var values, cmd := s.sets.values, UpdateCommand(LiteralSets(column, n, last), OwnConditions(3, 4, 5), true);
    LiteralFits(s, column, n, last, value);
    var cells := SetCells(cmd, values);
    hide UpdateFits, SetCells, FilterOf, LiteralSets, LowerCase, OwnFilter;
    WhereOwn([row], s.id, s.t, cells);
    assert [row][1..] == [] && Matching([row], s.id, s.t) == [row];
    UpdateWhereOwn(schema, [row], s.id, s.t, cells);
    assert OwnerAfter(cells, s.t) == Tenant(Id(n), s.t.app);
    assert UpdateCells(schema, [row], s.id, s.t, cells).0 == Rewritten([row], s.id, s.t, cells);
    assert Of([row], s.t) == [row] && Of([row], Tenant(Id(n), s.t.app)) == [];
    hide Of, Matching, Rewritten, OwnerAfter, Holds, UpdateCells, UpdateWhere;
    OfMoved([row], s.id, s.t, cells);
  }

  lemma LiteralFits(s: Statement, column: string, n: nat, last: string, value: Value)
    requires s.Update? && s.sets.values == [s.now, value, s.id, s.t.org, s.t.app]
    requires LowerCase(column) == "organization_id" && LowerCase(last) !in OWN_NAMES
    ensures var cmd := UpdateCommand(LiteralSets(column, n, last), OwnConditions(3, 4, 5), true);
      && UpdateFits(cmd, s.sets.values) && FilterOf(cmd.conditions, s.sets.values) == OwnFilter(s.id, s.t)
      && SetCells(cmd, s.sets.values) ==
         map["updated_at" := s.now, "organization_id" := Id(n), LowerCase(last) := value]
  {
    var cmd, values := UpdateCommand(LiteralSets(column, n, last), OwnConditions(3, 4, 5), true), s.sets.values;
    LiteralParts(column, n, last);
    var columns, exprs := ["updated_at", "organization_id", LowerCase(last)], [Param(1), Literal(n), Param(2)];
    assert Distinct(columns) && Evaluable(exprs, values) && WellNumbered([1, 2, 3, 4, 5], values);
    hide LowerCase, LiteralSets, Distinct, Evaluable, WellNumbered, CellsOf;
    OwnConditionsFilter(3, 4, 5, values);
    ThreeCells(columns[0], columns[1], columns[2], exprs, values);
  }

  lemma ThreeCells(a: string, b: string, c: string, exprs: seq<Expr>, values: seq<Value>)
    requires Distinct([a, b, c]) && |exprs| == 3 && Evaluable(exprs, values)
    ensures CellsOf([a, b, c], exprs, values) ==
      map[a := EvalAt(exprs, values, 0), b := EvalAt(exprs, values, 1), c := EvalAt(exprs, values, 2)]
  {
    assert [a, b, c][0] != [a, b, c][1] && [a, b, c][1] != [a, b, c][2] && [a, b, c][0] != [a, b, c][2];
  }

  lemma LiteralParts(column: string, n: nat, last: string)
    requires LowerCase(column) == "organization_id"
    ensures var sets, conditions := LiteralSets(column, n, last), OwnConditions(3, 4, 5);
      && ColumnsIn(sets) == ["updated_at", "organization_id", LowerCase(last)]
      && ExprsIn(sets) == [Param(1), Literal(n), Param(2)]
      && ParamsIn(ExprsIn(sets) + ExprsIn(conditions)) == [1, 2, 3, 4, 5]
  {
    var sets, conditions := LiteralSets(column, n, last), OwnConditions(3, 4, 5);
    hide LowerCase;
    assert ExprsIn(sets) + ExprsIn(conditions) == [Param(1)] + ([Literal(n)] + Params([2, 3, 4, 5]));
    ParamsInParams([2, 3, 4, 5]);
    assert ([Literal(n)] + Params([2, 3, 4, 5]))[1..] == Params([2, 3, 4, 5]);
    assert ([Param(1)] + ([Literal(n)] + Params([2, 3, 4, 5])))[1..] == [Literal(n)] + Params([2, 3, 4, 5]);
  }

  // ----- A row in a key -----

  /** A body key that ends the column list and brings a row of its own, before a comment. */
  function ClosingKey(last: string, a: nat, b: nat): string {
    last + Closing(a, b)
  }

  function Closing(a: nat, b: nat): string {
    [')'] + (" " + "VALUES" + " " + (['('] + (Join(Marks([1, 2, 3, 4, 5, 6]))
      + ([')'] + (", " + (['('] + SecondRow(a, b)))))))
  }

  function SecondRow(a: nat, b: nat): string {
    NatText(a) + (", " + (NatText(b) + (", " + (Join(Marks([3, 4, 5, 6]))
      + ([')'] + (" " + "RETURNING" + " " + "--"))))))
  }

  lemma {:induction false} JoinLast(parts: seq<string>, x: string, y: string)
    ensures Join(parts + [x + y]) == Join(parts + [x]) + y
  {
    if parts == [] {
      assert parts + [x + y] == [x + y] && parts + [x] == [x];
    } else {
      assert (parts + [x + y])[1..] == parts[1..] + [x + y] && (parts + [x])[1..] == parts[1..] + [x];
      JoinLast(parts[1..], x, y);
    }
  }

  function SecondExprs(a: nat, b: nat): seq<Expr> {
    [Literal(a)] + ([Literal(b)] + Params([3, 4, 5, 6]))
  }

  lemma ReadNumber(n: nat, rest: seq<Token>)
    requires ReadExprs(rest).Some?
    ensures ReadExprs([Number(n)] + ([Sym(',')] + rest)) ==
      Some(([Literal(n)] + ReadExprs(rest).value.0, ReadExprs(rest).value.1))
  {
    Behind(Number(n), rest);
  }

  lemma LexComment(rest: string)
    ensures Lex(" " + "RETURNING" + " " + ("--" + rest)) == [Word("returning")]
  {
    assert IsIdentifier("RETURNING") && LowerCase("RETURNING") == "returning";
    assert IsComment("--" + rest) && Lex("--" + rest) == [];
    hide Lex, IsIdentifier, LowerCase, IsComment;
    LexWord("RETURNING", "--" + rest);
  }

  lemma SecondRead(a: nat, b: nat, rest: string)
    ensures ReadExprs(Lex(SecondRow(a, b) + rest)) == Some((SecondExprs(a, b), [Sym(')'), Word("returning")]))
  {
    hide Lex, Join, ReadExprs, NatText;
    var end := [')'] + (" " + "RETURNING" + " " + ("--" + rest));
    var marks := Join(Marks([3, 4, 5, 6])) + end;
    var tail := NatText(b) + (", " + marks);
    assert SecondRow(a, b) + rest == NatText(a) + (", " + tail);
    LexSym(')', " " + "RETURNING" + " " + ("--" + rest));
    LexComment(rest);
    assert Lex(end) == [Sym(')'), Word("returning")];
    MarksRead([3, 4, 5, 6], end);
    LexNumber(b, ", " + marks);
    LexComma(marks);
    ReadNumber(b, Lex(marks));
    LexNumber(a, ", " + tail);
    LexComma(tail);
    ReadNumber(a, Lex(tail));
  }

  lemma ClosingRowsRead(a: nat, b: nat, rest: string)
    ensures ReadRows(Lex(['('] + (Join(Marks([1, 2, 3, 4, 5, 6]))
        + ([')'] + (", " + (['('] + (SecondRow(a, b) + rest)))))))
      == Some(([Params([1, 2, 3, 4, 5, 6]), SecondExprs(a, b)], [Word("returning")]))
  {
    hide Lex, Join, ReadExprs, SecondRow, SecondExprs, Params;
    var second := ['('] + (SecondRow(a, b) + rest);
    var middle := [')'] + (", " + second);
    SecondRead(a, b, rest);
    LexSym('(', SecondRow(a, b) + rest);
    LexComma(second);
    LexSym(')', ", " + second);
    MarksRead([1, 2, 3, 4, 5, 6], middle);
    LexSym('(', Join(Marks([1, 2, 3, 4, 5, 6])) + middle);
    var end := [Sym(')'), Word("returning")];
    assert end[1..] == [Word("returning")];
    var inner := Lex(SecondRow(a, b) + rest);
    assert ([Sym('(')] + inner)[1..] == inner;
    assert ReadRows([Sym('(')] + inner) == Some(([SecondExprs(a, b)], [Word("returning")]));
    var ts := [Sym(')')] + ([Sym(',')] + ([Sym('(')] + inner));
    assert ts[1..] == [Sym(',')] + ([Sym('(')] + inner) && ts[2..] == [Sym('(')] + inner;
    var outer := Lex(Join(Marks([1, 2, 3, 4, 5, 6])) + middle);
    assert ([Sym('(')] + outer)[1..] == outer;
    assert [Params([1, 2, 3, 4, 5, 6])] + [SecondExprs(a, b)] == [Params([1, 2, 3, 4, 5, 6]), SecondExprs(a, b)];
  }

  /** A column list and rows, once read, make the command. */
  lemma InsertReadFrom(keywords: set<string>, columns: seq<string>, rows: seq<seq<Expr>>, names: seq<Token>,
                       row: seq<Token>)
    requires ReadNames(keywords, names) == Some((columns, [Sym(')')] + ([Word("values")] + row)))
    requires ReadRows(row) == Some((rows, [Word("returning")]))
    ensures ReadInsert(keywords, [Sym('(')] + names) == Some(InsertCommand(columns, rows, true))
  {
    hide ReadNames, ReadRows;
    var ts := [Sym(')')] + ([Word("values")] + row);
    assert ts[1..] == [Word("values")] + row && ts[2..] == row;
    assert ([Sym('(')] + names)[1..] == names;
  }

  lemma ClosingNamesRead(keywords: set<string>, names: seq<string>, row: string)
    requires names != [] && AllPlain(keywords, names)
    ensures ReadNames(keywords, Lex(Join(names) + ([')'] + (" " + "VALUES" + " " + row)))) ==
      Some((LowerAll(names), [Sym(')')] + ([Word("values")] + Lex(row))))
  {
    hide Lex, Join, ReadNames, LowerAll, AllPlain;
    var tail := [')'] + (" " + "VALUES" + " " + row);
    LexValues(row);
    LexSym(')', " " + "VALUES" + " " + row);
    NamesRead(keywords, names, tail);
  }

  /** The text of an INSERT with such a key reads as two rows. */
  lemma ClosingRead(keywords: set<string>, last: string, a: nat, b: nat)
    requires PlainName(keywords, last)
    ensures ReadInsert(keywords, Lex(InsertText(RESERVED + [ClosingKey(last, a, b)], [1, 2, 3, 4, 5, 6]))) ==
      Some(InsertCommand(LowerAll(RESERVED + [last]), [Params([1, 2, 3, 4, 5, 6]), SecondExprs(a, b)], true))
  {
    var names, marks := RESERVED + [last], [1, 2, 3, 4, 5, 6];
    NamesPlain(keywords, last);
    var rest := ") VALUES (" + Join(Marks(marks)) + ") RETURNING";
    ClosingText(last, a, b, rest);
    hide Lex, Join, ReadNames, ReadRows, ReadInsert, SecondRow, SecondExprs, Params, LowerAll, AllPlain, PlainName,
      InsertText, ClosingKey, Marks;
    var row := ['('] + (Join(Marks(marks)) + ([')'] + (", " + (['('] + (SecondRow(a, b) + rest)))));
    ClosingRowsRead(a, b, rest);
    ClosingNamesRead(keywords, names, row);
    var body := Join(names) + ([')'] + (" " + "VALUES" + " " + row));
    LexSym('(', body);
    InsertReadFrom(keywords, LowerAll(names), [Params(marks), SecondExprs(a, b)], Lex(body), Lex(row));
  }

  lemma LexValues(rest: string)
    ensures Lex(" " + "VALUES" + " " + rest) == [Word("values")] + Lex(rest)
  {
    assert IsIdentifier("VALUES") && LowerCase("VALUES") == "values";
    hide Lex, IsIdentifier, LowerCase;
    LexWord("VALUES", rest);
  }

  lemma NamesPlain(keywords: set<string>, last: string)
    requires PlainName(keywords, last)
    ensures AllPlain(keywords, RESERVED + [last])
  {
    hide PlainName;
    forall name | name in OWN_NAMES ensures PlainName(keywords, name) {
      OwnNamesArePlain(keywords, name);
    }
    forall i: nat | i < 5 ensures RESERVED[i] in OWN_NAMES {
      ReservedKeys();
      ReservedIsOwn(RESERVED[i]);
    }
  }

  lemma ClosingText(last: string, a: nat, b: nat, rest: string)
    requires rest == ") VALUES (" + Join(Marks([1, 2, 3, 4, 5, 6])) + ") RETURNING"
    ensures InsertText(RESERVED + [ClosingKey(last, a, b)], [1, 2, 3, 4, 5, 6]) ==
      ['('] + (Join(RESERVED + [last]) + ([')'] + (" " + "VALUES" + " " + (['('] + (Join(Marks([1, 2, 3, 4, 5, 6]))
        + ([')'] + (", " + (['('] + (SecondRow(a, b) + rest)))))))))
  {
    hide Join, SecondRow;
    JoinLast(RESERVED, last, Closing(a, b));
    var columns := RESERVED + [ClosingKey(last, a, b)];
    assert InsertText(columns, [1, 2, 3, 4, 5, 6]) == ['('] + (Join(columns) + rest);
    assert Closing(a, b) + rest == [')'] + (" " + "VALUES" + " " + (['('] + (Join(Marks([1, 2, 3, 4, 5, 6]))
        + ([')'] + (", " + (['('] + (SecondRow(a, b) + rest)))))));
  }

  /** The lists of a create for a body of one key the handler takes over. */
  lemma OneKeyColumns(q: InsertSql, key: string, value: Value, id: Value, t: Tenant, now: Value)
    requires InsertFor(q, map[key := value], id, t, now) && !Reserved(key)
    ensures q.columns == RESERVED + [key] && q.placeholders == [1, 2, 3, 4, 5, 6]
    ensures q.values == [id, t.org, t.app, now, now] + [value]
  {
    var body := q.columns[5..];
    assert key in body && forall i: nat :: i < |body| ==> body[i] == key;
    hide Distinct, Reserved;
    if |body| > 1 {
      TwoEqual(body, key);
    }
    assert body == [key] && q.values[5..] == [value];
    assert q.columns == q.columns[..5] + body && q.values == q.values[..5] + q.values[5..];
  }

  lemma LowerOwn(last: string)
    ensures LowerAll(RESERVED + [last]) == RESERVED + [LowerCase(last)]
  {
    hide LowerCase, Reserved;
    forall i: nat | i < 5 ensures LowerCase(RESERVED[i]) == RESERVED[i] {
      ReservedKeys();
      ReservedIsOwn(RESERVED[i]);
      OwnNamesArePlain({}, RESERVED[i]);
    }
  }

  lemma SixColumns(column: string)
    requires column !in OWN_NAMES
    ensures Distinct(RESERVED + [column])
  {
    hide Reserved;
    ReservedKeys();
    ReservedIsOwn(column);
  }

  lemma SixCells(column: string, exprs: seq<Expr>, values: seq<Value>, i: nat)
    requires column !in OWN_NAMES && |exprs| == 6 && Evaluable(exprs, values) && i < 6
    ensures Holds(CellsOf(RESERVED + [column], exprs, values), (RESERVED + [column])[i], EvalAt(exprs, values, i))
  {
    var columns := RESERVED + [column];
    SixColumns(column);
    assert columns[i] in columns;
    hide EvalAt;
    assert PositionOf(columns, columns[i]) == i;
  }

  /** What an INSERT with such a key reads as. */
  function ClosingCommand(last: string, a: nat, b: nat): InsertCommand {
    InsertCommand(RESERVED + [LowerCase(last)], [Params([1, 2, 3, 4, 5, 6]), SecondExprs(a, b)], true)
  }

  lemma FlatTwo(first: seq<Expr>, second: seq<Expr>)
    ensures Flat([first, second]) == first + second
  {
    assert [first, second][1..] == [second] && [second][1..] == [];
    assert Flat([second]) == second + Flat([]);
  }

  lemma ClosingFits(last: string, a: nat, b: nat, values: seq<Value>)
    requires |values| == 6 && LowerCase(last) !in OWN_NAMES
    ensures InsertFits(ClosingCommand(last, a, b), values)
  {
    var first, second := Params([1, 2, 3, 4, 5, 6]), SecondExprs(a, b);
    SixColumns(LowerCase(last));
    ClosingEvaluable(a, b, values);
    hide LowerCase, Distinct, Evaluable;
    FlatTwo(first, second);
    ParamsInAppend(first, second);
    ParamsInParams([1, 2, 3, 4, 5, 6]);
    SecondParams(a, b);
    hide ParamsIn, Flat, Params, SecondExprs;
    assert WellNumbered([1, 2, 3, 4, 5, 6] + [3, 4, 5, 6], values);
  }

  lemma SecondParams(a: nat, b: nat)
    ensures ParamsIn(SecondExprs(a, b)) == [3, 4, 5, 6]
  {
    var tail := Params([3, 4, 5, 6]);
    assert SecondExprs(a, b)[1..] == [Literal(b)] + tail && ([Literal(b)] + tail)[1..] == tail;
    ParamsInParams([3, 4, 5, 6]);
  }

  lemma ClosingEvaluable(a: nat, b: nat, values: seq<Value>)
    requires |values| == 6
    ensures Evaluable(Params([1, 2, 3, 4, 5, 6]), values) && Evaluable(SecondExprs(a, b), values)
  {
    assert SecondExprs(a, b) == [Literal(a), Literal(b), Param(3), Param(4), Param(5), Param(6)];
  }

  lemma RowOwned(schema: Schema, column: string, exprs: seq<Expr>, values: seq<Value>)
    requires column !in OWN_NAMES && |exprs| == 6 && Evaluable(exprs, values)
    ensures var row := schema.defaults + CellsOf(RESERVED + [column], exprs, values);
      && Holds(row, "id", EvalAt(exprs, values, 0))
      && Owned(row, Tenant(EvalAt(exprs, values, 1), EvalAt(exprs, values, 2)))
  {
    assert (RESERVED + [column])[0] == "id" && (RESERVED + [column])[1] == "organization_id";
    assert (RESERVED + [column])[2] == "app_id";
    hide CellsOf, Evaluable, EvalAt;
    SixCells(column, exprs, values, 0);
    SixCells(column, exprs, values, 1);
    SixCells(column, exprs, values, 2);
  }

  lemma TwoRows(schema: Schema, columns: seq<string>, first: seq<Expr>, second: seq<Expr>, values: seq<Value>)
    requires InsertFits(InsertCommand(columns, [first, second], true), values)
    ensures |first| == |second| == |columns| && Evaluable(first, values) && Evaluable(second, values)
    ensures RowsOf(schema, InsertCommand(columns, [first, second], true), values) ==
      [schema.defaults + CellsOf(columns, first, values), schema.defaults + CellsOf(columns, second, values)]
  {
    var cmd := InsertCommand(columns, [first, second], true);
    hide CellsOf, Evaluable, Distinct, WellNumbered;
    assert cmd.rows[0] in cmd.rows && cmd.rows[1] in cmd.rows;
  }

  lemma ClosingRows(schema: Schema, last: string, a: nat, b: nat, values: seq<Value>)
    requires |values| == 6 && LowerCase(last) !in OWN_NAMES && InsertFits(ClosingCommand(last, a, b), values)
    ensures var rows := RowsOf(schema, ClosingCommand(last, a, b), values);
      && |rows| == 2 && Holds(rows[0], "id", values[0]) && Holds(rows[1], "id", Id(a))
      && Owned(rows[0], Tenant(values[1], values[2])) && Owned(rows[1], Tenant(Id(b), values[2]))
  {
    var first, second := Params([1, 2, 3, 4, 5, 6]), SecondExprs(a, b);
    ClosingEvaluable(a, b, values);
    assert EvalAt(first, values, 0) == values[0] && EvalAt(second, values, 0) == Id(a);
    assert EvalAt(first, values, 1) == values[1] && EvalAt(second, values, 1) == Id(b);
    assert EvalAt(first, values, 2) == values[2] && EvalAt(second, values, 2) == values[2];
    hide LowerCase, CellsOf, Holds, Owned, InsertFits, RowsOf, EvalAt, Evaluable, Params, SecondExprs;
    TwoRows(schema, RESERVED + [LowerCase(last)], first, second, values);
    RowOwned(schema, LowerCase(last), first, values);
    RowOwned(schema, LowerCase(last), second, values);
  }

  /** A create whose one key ends the column list brings a row of its own, for the organization the text names. */
  lemma ExtraRowIsBrought(schema: Schema, table: seq<Row>, s: Statement, last: string, a: nat, b: nat, value: Value)
    requires s.Insert? && AsBuilt(s) && s.input == map[ClosingKey(last, a, b) := value]
    requires PlainName(schema.keywords, last) && LowerCase(last) !in OWN_NAMES && forall r :: schema.accepts(r)
    requires OWN_NAMES + {LowerCase(last)} <= schema.columns
    requires s.id != Id(a) && s.t.org != Id(b)
    requires forall r :: r in table ==> !Holds(r, "id", s.id) && !Holds(r, "id", Id(a))
    ensures !Proper(schema, s) && !OthersSame(table, Exec(schema, table, s).0, s.t)
  {
    ClosingIsImproper(schema, s, last, a, b, value);
    hide ClosingKey, LowerCase, PlainName, Proper, OthersSame, Exec, ExecInsertCommand, ClosingCommand, InsertFor,
      Holds;
    ClosingRuns(schema, table, s, last, a, b, value);
    ClosingExecuted(schema, table, last, a, b, s.lists.values, s.t);
  }

  lemma ClosingIsImproper(schema: Schema, s: Statement, last: string, a: nat, b: nat, value: Value)
    requires s.Insert? && s.input == map[ClosingKey(last, a, b) := value] && IsIdentifier(last)
    ensures !Proper(schema, s)
  {
    ClosingIsNoName(last, a, b);
    hide ClosingKey, IsIdentifier, Reserved;
    assert ClosingKey(last, a, b) in s.input;
  }

  lemma ClosingExecuted(schema: Schema, table: seq<Row>, last: string, a: nat, b: nat, values: seq<Value>, t: Tenant)
    requires LowerCase(last) !in OWN_NAMES && forall r :: schema.accepts(r)
    requires OWN_NAMES + {LowerCase(last)} <= schema.columns
    requires |values| == 6 && values[1] == t.org && values[2] == t.app && values[0] != Id(a) && t.org != Id(b)
    requires forall r :: r in table ==> !Holds(r, "id", values[0]) && !Holds(r, "id", Id(a))
    ensures !OthersSame(table, ExecInsertCommand(schema, table, ClosingCommand(last, a, b), values).0, t)
  {
    hide LowerCase, Reserved, OthersSame, InsertFits, Owned, RowsOf, SecondExprs, Holds, ExecInsertCommand;
    var cmd := ClosingCommand(last, a, b);
    ClosingFits(last, a, b, values);
    ClosingRows(schema, last, a, b, values);
    assert cmd.columns == RESERVED + [LowerCase(last)];
    KnownColumns(schema, LowerCase(last));
    TwoAccepted(schema, table, cmd, values, values[0], Id(a));
    InsertSparesExactly(schema, table, cmd, values, t);
    var rows := RowsOf(schema, cmd, values);
    ForeignOwner(rows[1], t);
    assert rows[1] in rows && Tenant(Id(b), t.app) != t;
  }

  lemma ClosingIsNoName(last: string, a: nat, b: nat)
    requires IsIdentifier(last)
    ensures !IsIdentifier(ClosingKey(last, a, b)) && !Reserved(ClosingKey(last, a, b))
  {
    var key := ClosingKey(last, a, b);
    assert key[|last|] == ')' && !IsNameChar(key[|last|]);
    SmallLetters("id");
    SmallLetters("organization_id");
    SmallLetters("app_id");
    SmallLetters("created_at");
    SmallLetters("updated_at");
  }

  lemma ClosingRuns(schema: Schema, table: seq<Row>, s: Statement, last: string, a: nat, b: nat, value: Value)
    requires s.Insert? && AsBuilt(s) && s.input == map[ClosingKey(last, a, b) := value]
    requires PlainName(schema.keywords, last)
    ensures s.lists.values == [s.id, s.t.org, s.t.app, s.now, s.now] + [value]
    ensures Exec(schema, table, s) == ExecInsertCommand(schema, table, ClosingCommand(last, a, b), s.lists.values)
  {
    ClosingIsNoName(last, a, b);
    hide Lex, ReadInsert, InsertText, ClosingKey, PlainName, LowerCase, InsertFor, ExecInsertCommand, Reserved;
    OneKeyColumns(s.lists, ClosingKey(last, a, b), value, s.id, s.t, s.now);
    ClosingRead(schema.keywords, last, a, b);
    LowerOwn(last);
  }

  lemma TwoAccepted(schema: Schema, table: seq<Row>, cmd: InsertCommand, values: seq<Value>, x: Value, y: Value)
    requires InsertFits(cmd, values) && x != y
    ensures var rows := RowsOf(schema, cmd, values);
      && (forall r :: schema.accepts(r)) && (forall c :: c in cmd.columns ==> c in schema.columns)
      && |rows| == 2 && Holds(rows[0], "id", x) && Holds(rows[1], "id", y)
      && (forall r :: r in table ==> !Holds(r, "id", x) && !Holds(r, "id", y))
      ==> ExecInsertCommand(schema, table, cmd, values).1.Rows?
  {
    hide InsertFits, RowsOf;
  }

  lemma KnownColumns(schema: Schema, column: string)
    requires OWN_NAMES + {column} <= schema.columns
    ensures forall c :: c in RESERVED + [column] ==> c in schema.columns
  {
    hide Reserved;
    forall i: nat | i < 5 ensures RESERVED[i] in schema.columns {
      ReservedKeys();
      ReservedIsOwn(RESERVED[i]);
    }
  }
}
