/**
  The reader of statements takes nothing for granted: what it reads as a command is, word for word, that
  command and nothing else.
 */
module SqlTokens {
  import opened Outcomes
  import opened SqlText

  // ----- The words of a command -----

  function ExprToken(e: Expr): Token {
    match e
    case Param(n) => Arg(n)
    case Literal(n) => Number(n)
  }

  function NameTokens(names: seq<string>): seq<Token> {
    if names == [] then []
    else if |names| == 1 then [Word(names[0])]
    else [Word(names[0]), Sym(',')] + NameTokens(names[1..])
  }

  function ExprTokens(exprs: seq<Expr>): seq<Token> {
    if exprs == [] then []
    else if |exprs| == 1 then [ExprToken(exprs[0])]
    else [ExprToken(exprs[0]), Sym(',')] + ExprTokens(exprs[1..])
  }

  function RowTokens(row: seq<Expr>): seq<Token> {
    [Sym('(')] + ExprTokens(row) + [Sym(')')]
  }

  function RowsTokens(rows: seq<seq<Expr>>): seq<Token> {
    if rows == [] then []
    else if |rows| == 1 then RowTokens(rows[0])
    else RowTokens(rows[0]) + [Sym(',')] + RowsTokens(rows[1..])
  }

  function EquationTokens(separator: Token, equations: seq<Equation>): seq<Token> {
    if equations == [] then []
    else
      var first := [Word(equations[0].column), Sym('='), ExprToken(equations[0].value)];
      if |equations| == 1 then first else first + [separator] + EquationTokens(separator, equations[1..])
  }

  function EndTokens(returning: bool): seq<Token> {
    if returning then [Word("returning")] else []
  }

  function InsertTokens(cmd: InsertCommand): seq<Token> {
    [Sym('(')] + NameTokens(cmd.columns) + [Sym(')'), Word("values")] + RowsTokens(cmd.rows) + EndTokens(cmd.returning)
  }

  function UpdateTokens(cmd: UpdateCommand): seq<Token> {
    EquationTokens(Sym(','), cmd.sets)
    + (if cmd.conditions == [] then [] else [Word("where")] + EquationTokens(Word("and"), cmd.conditions))
    + EndTokens(cmd.returning)
  }

  // ----- What is read is what is there -----

  lemma {:induction false} NamesSound(keywords: set<string>, ts: seq<Token>)
    requires ReadNames(keywords, ts).Some?
    ensures var (names, rest) := ReadNames(keywords, ts).value;
      && names != [] && ts == NameTokens(names) + rest
      && forall name :: name in names ==> !IsTaken(keywords, name)
  {
    if Next(ts[1..], Sym(',')) {
      NamesSound(keywords, ts[2..]);
      var (names, rest) := ReadNames(keywords, ts[2..]).value;
      assert ([ts[0].text] + names)[1..] == names;
      assert ts == [ts[0], ts[1]] + ts[2..];
    } else {
      assert ts == [ts[0]] + ts[1..];
    }
  }

  lemma {:induction false} ExprsSound(ts: seq<Token>)
    requires ReadExprs(ts).Some?
    ensures var (exprs, rest) := ReadExprs(ts).value; exprs != [] && ts == ExprTokens(exprs) + rest
  {
    if Next(ts[1..], Sym(',')) {
      ExprsSound(ts[2..]);
      var (exprs, rest) := ReadExprs(ts[2..]).value;
      assert ([ReadExpr(ts).value] + exprs)[1..] == exprs;
      assert ts == [ts[0], ts[1]] + ts[2..];
    } else {
      assert ts == [ts[0]] + ts[1..];
    }
  }

  lemma RowSound(ts: seq<Token>)
    requires Next(ts, Sym('(')) && ReadExprs(ts[1..]).Some? && Next(ReadExprs(ts[1..]).value.1, Sym(')'))
    ensures var (row, rest) := ReadExprs(ts[1..]).value; ts == RowTokens(row) + rest[1..]
  {
    ExprsSound(ts[1..]);
    var (row, rest) := ReadExprs(ts[1..]).value;
    assert ts == [ts[0]] + ts[1..] && rest == [rest[0]] + rest[1..];
  }

  lemma {:induction false} RowsSound(ts: seq<Token>)
    requires ReadRows(ts).Some?
    ensures var (rows, rest) := ReadRows(ts).value; rows != [] && ts == RowsTokens(rows) + rest
    decreases |ts|
  {
    RowSound(ts);
    hide RowTokens;
    var (row, rest) := ReadExprs(ts[1..]).value;
    if Next(rest[1..], Sym(',')) {
      RowsSound(rest[2..]);
      var (rows, more) := ReadRows(rest[2..]).value;
      assert ([row] + rows)[1..] == rows;
      assert rest[1..] == [Sym(',')] + rest[2..];
    }
  }

  lemma {:induction false} EquationsSound(keywords: set<string>, separator: Token, ts: seq<Token>)
    requires ReadEquations(keywords, separator, ts).Some?
    ensures var (equations, rest) := ReadEquations(keywords, separator, ts).value;
      && equations != [] && ts == EquationTokens(separator, equations) + rest
      && forall e :: e in equations ==> !IsTaken(keywords, e.column)
  {
    assert ts == [ts[0], ts[1], ts[2]] + ts[3..];
    if Next(ts[3..], separator) {
      EquationsSound(keywords, separator, ts[4..]);
      var (equations, rest) := ReadEquations(keywords, separator, ts[4..]).value;
      var first := Equation(ts[0].text, ReadExpr(ts[2..]).value);
      assert ([first] + equations)[1..] == equations;
      assert ts[3..] == [separator] + ts[4..];
    }
  }

  /** A text that reads as an INSERT consists of its words, in their order, with nothing before, between or behind. */
  lemma ReadInsertSound(keywords: set<string>, ts: seq<Token>)
    requires ReadInsert(keywords, ts).Some?
    ensures ts == InsertTokens(ReadInsert(keywords, ts).value)
  {
    hide ReadNames, ReadRows, NameTokens, RowsTokens;
    NamesSound(keywords, ts[1..]);
    var (columns, rest) := ReadNames(keywords, ts[1..]).value;
    RowsSound(rest[2..]);
    assert ts == [ts[0]] + ts[1..] && rest == [rest[0], rest[1]] + rest[2..];
  }

  /** The same for an UPDATE. */
  lemma ReadUpdateSound(keywords: set<string>, ts: seq<Token>)
    requires ReadUpdate(keywords, ts).Some?
    ensures ts == UpdateTokens(ReadUpdate(keywords, ts).value)
  {
    hide ReadEquations, EquationTokens;
    EquationsSound(keywords, Sym(','), ts);
    var (sets, rest) := ReadEquations(keywords, Sym(','), ts).value;
    if Next(rest, Word("where")) {
      EquationsSound(keywords, Word("and"), rest[1..]);
      assert rest == [rest[0]] + rest[1..];
    }
  }
}
