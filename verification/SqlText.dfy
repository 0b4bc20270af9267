/**
  The text of the generic handler's statements, from the column list on, and how a database reads it.

  The reader knows a fragment of SQL: plain names, argument marks, whole numbers, lists, and comments to the
  end of the text.  RETURNING stands for the whole clause behind it.  A text outside the fragment is not read.
 */
module SqlText {
  import opened Outcomes

  // ----- Characters and names -----

  predicate IsLetter(c: char) {
    'a' <= c <= 'z' || 'A' <= c <= 'Z' || c == '_'
  }

  predicate IsDigit(c: char) {
    '0' <= c <= '9'
  }

  predicate IsNameChar(c: char) {
    IsLetter(c) || IsDigit(c) || c == '$'
  }

  function Lower(c: char): char {
    if 'A' <= c <= 'Z' then c - 'A' + 'a' else c
  }

  /** How a database reads an unquoted name. */
  function LowerCase(name: string): (lower: string)
    ensures |lower| == |name|
  {
    seq(|name|, i requires 0 <= i < |name| => Lower(name[i]))
  }

  /** The longest name that is not cut off. */
  const LONGEST_NAME := 63

  /** The words that structure the statements. */
  const STRUCTURE: set<string> := {"values", "where", "and", "returning"}

  /** The handler's own column names, which are no words of the language. */
  const OWN_NAMES: set<string> := {"id", "organization_id", "app_id", "created_at", "updated_at"}

  /** Whether a word of the language, in lower case, cannot name a column. */
  predicate IsTaken(keywords: set<string>, word: string) {
    word in STRUCTURE || (word in keywords && word !in OWN_NAMES)
  }

  predicate IsIdentifier(s: string) {
    0 < |s| <= LONGEST_NAME && IsLetter(s[0]) && forall i :: 0 <= i < |s| ==> IsNameChar(s[i])
  }

  /** A test a caller can make: the text is one unquoted name, and no word of the language. */
  predicate PlainName(keywords: set<string>, s: string) {
    IsIdentifier(s) && !IsTaken(keywords, LowerCase(s))
  }

  /** Only the 26 capital letters have another reading. */
  lemma LowerIs(c: char)
    ensures Lower(c) as int == c as int + if 65 <= c as int <= 90 then 32 else 0
  {
  }

  /** A name is 1 to 63 characters, a letter or underscore first, then also digits and dollar signs. */
  lemma IdentifiersAre(s: string)
    ensures IsIdentifier(s) <==>
      && 1 <= |s| <= 63
      && (forall i :: 0 <= i < |s| ==>
            var n := s[i] as int;
            || 65 <= n <= 90 || 97 <= n <= 122 || n == 95
            || (i > 0 && (48 <= n <= 57 || n == 36)))
  {
  }

  // ----- Numbers -----

  function DigitOf(d: nat): char
    requires d < 10
  {
    '0' + d as char
  }

  function NatText(n: nat): (s: string)
    ensures s != "" && forall i :: 0 <= i < |s| ==> IsDigit(s[i])
  {
    if n < 10 then [DigitOf(n)] else NatText(n / 10) + [DigitOf(n % 10)]
  }

  function NatValue(digits: string): nat
    requires forall i :: 0 <= i < |digits| ==> IsDigit(digits[i])
  {
    if digits == "" then 0
    else
      assert IsDigit(digits[|digits| - 1]);
      NatValue(digits[..|digits| - 1]) * 10 + (digits[|digits| - 1] - '0') as nat
  }

  lemma {:induction false} NatRoundTrip(n: nat)
    ensures NatValue(NatText(n)) == n
  {
    var s := NatText(n);
    if n < 10 {
      assert s[..0] == "";
    } else {
      NatRoundTrip(n / 10);
      assert s[..|s| - 1] == NatText(n / 10) && s[|s| - 1] == DigitOf(n % 10);
    }
  }

  // ----- Tokens -----

  datatype Token = Word(text: string) | Arg(n: nat) | Number(n: nat) | Sym(c: char) | Bad

  function NameLength(s: string): (n: nat)
    ensures n <= |s| && (forall i :: 0 <= i < n ==> IsNameChar(s[i])) && (n < |s| ==> !IsNameChar(s[n]))
  {
    if s == "" || !IsNameChar(s[0]) then 0 else 1 + NameLength(s[1..])
  }

  function DigitsLength(s: string): (n: nat)
    ensures n <= |s| && (forall i :: 0 <= i < n ==> IsDigit(s[i])) && (n < |s| ==> !IsDigit(s[n]))
  {
    if s == "" || !IsDigit(s[0]) then 0 else 1 + DigitsLength(s[1..])
  }

  predicate IsComment(s: string) {
    |s| >= 2 && s[0] == '-' && s[1] == '-'
  }

  function Lex(s: string): seq<Token>
    decreases |s|
  {
    if s == "" || IsComment(s) then []
    else if s[0] == ' ' then Lex(s[1..])
    else if IsLetter(s[0]) then
      var n := NameLength(s);
      assert IsNameChar(s[0]);
      [if n <= LONGEST_NAME then Word(LowerCase(s[..n])) else Bad] + Lex(s[n..])
    else if IsDigit(s[0]) then
      var n := DigitsLength(s);
      [Number(NatValue(s[..n]))] + Lex(s[n..])
    else if s[0] == '$' && DigitsLength(s[1..]) > 0 then
      var n := DigitsLength(s[1..]);
      [Arg(NatValue(s[1..][..n]))] + Lex(s[1..][n..])
    else if s[0] in "(),=" then [Sym(s[0])] + Lex(s[1..])
    else [Bad]
  }

  lemma LexName(name: string, rest: string)
    requires IsIdentifier(name) && (rest == "" || !IsNameChar(rest[0]))
    ensures Lex(name + rest) == [Word(LowerCase(name))] + Lex(rest)
  {
    var s := name + rest;
    assert s[0] == name[0];
    NameEnds(name, rest);
    assert s[..|name|] == name && s[|name|..] == rest;
  }

  lemma {:induction false} NameEnds(name: string, rest: string)
    requires (forall i :: 0 <= i < |name| ==> IsNameChar(name[i])) && (rest == "" || !IsNameChar(rest[0]))
    ensures NameLength(name + rest) == |name|
  {
    if name == "" {
      assert name + rest == rest;
    } else {
      assert (name + rest)[1..] == name[1..] + rest;
      NameEnds(name[1..], rest);
    }
  }

  lemma {:induction false} DigitsEnd(digits: string, rest: string)
    requires (forall i :: 0 <= i < |digits| ==> IsDigit(digits[i])) && (rest == "" || !IsDigit(rest[0]))
    ensures DigitsLength(digits + rest) == |digits|
  {
    if digits == "" {
      assert digits + rest == rest;
    } else {
      assert (digits + rest)[1..] == digits[1..] + rest;
      DigitsEnd(digits[1..], rest);
    }
  }

  /** An argument's mark. */
  function Mark(n: nat): string {
    "$" + NatText(n)
  }

  lemma LexArg(t: string)
    requires DigitsLength(t) > 0
    ensures Lex("$" + t) == [Arg(NatValue(t[..DigitsLength(t)]))] + Lex(t[DigitsLength(t)..])
  {
    hide NatValue, DigitsLength, NameLength, LowerCase;
    assert ("$" + t)[1..] == t;
  }

  lemma LexMark(n: nat, rest: string)
    requires rest == "" || !IsDigit(rest[0])
    ensures Lex(Mark(n) + rest) == [Arg(n)] + Lex(rest)
  {
    hide NatText, NatValue, DigitsLength, Lex;
    var digits := NatText(n);
    assert Mark(n) + rest == "$" + (digits + rest);
    DigitsEnd(digits, rest);
    LexArg(digits + rest);
    assert (digits + rest)[..|digits|] == digits && (digits + rest)[|digits|..] == rest;
    NatRoundTrip(n);
  }

  lemma LexNumber(n: nat, rest: string)
    requires rest == "" || !IsDigit(rest[0])
    ensures Lex(NatText(n) + rest) == [Number(n)] + Lex(rest)
  {
    var s, digits := NatText(n) + rest, NatText(n);
    assert s[0] == digits[0] && IsDigit(s[0]);
    DigitsEnd(digits, rest);
    assert s[..|digits|] == digits && s[|digits|..] == rest;
    NatRoundTrip(n);
  }

  lemma LexSpace(rest: string)
    ensures Lex(" " + rest) == Lex(rest)
  {
    assert (" " + rest)[1..] == rest;
  }

  lemma LexSym(c: char, rest: string)
    requires c in "(),="
    ensures Lex([c] + rest) == [Sym(c)] + Lex(rest)
  {
    assert ([c] + rest)[1..] == rest;
  }

  /** A structuring word after a blank and before another. */
  lemma LexWord(word: string, rest: string)
    requires IsIdentifier(word)
    ensures Lex(" " + word + " " + rest) == [Word(LowerCase(word))] + Lex(rest)
  {
    assert " " + word + " " + rest == " " + (word + (" " + rest));
    LexSpace(word + (" " + rest));
    LexName(word, " " + rest);
    LexSpace(rest);
  }

  // ----- Printing -----

  /** strings.Join with a comma and a blank. */
  function Join(parts: seq<string>): string {
    if parts == [] then "" else if |parts| == 1 then parts[0] else parts[0] + ", " + Join(parts[1..])
  }

  function Marks(placeholders: seq<nat>): (marks: seq<string>)
    ensures |marks| == |placeholders|
  {
    seq(|placeholders|, i requires 0 <= i < |placeholders| => Mark(placeholders[i]))
  }

  /** The INSERT from its column list on. */
  function InsertText(columns: seq<string>, placeholders: seq<nat>): string {
    "(" + Join(columns) + ") VALUES (" + Join(Marks(placeholders)) + ") RETURNING"
  }

  function SetText(column: string, placeholder: nat): string {
    column + " = " + Mark(placeholder)
  }

  function SetTexts(columns: seq<string>, placeholders: seq<nat>): (parts: seq<string>)
    requires |columns| == |placeholders|
    ensures |parts| == |columns|
  {
    seq(|columns|, i requires 0 <= i < |columns| => SetText(columns[i], placeholders[i]))
  }

  /** The handler's condition and the clause behind it. */
  function ConditionText(id: nat, org: nat, app: nat): (s: string)
    ensures s != "" && s[0] == ' '
  {
    " WHERE " + SetText("id", id) + " AND " + SetText("organization_id", org) + " AND " + SetText("app_id", app)
    + " RETURNING"
  }

  /** The UPDATE from its SET list on. */
  function UpdateText(columns: seq<string>, placeholders: seq<nat>, id: nat, org: nat, app: nat): string
    requires |columns| == |placeholders|
  {
    Join(SetTexts(columns, placeholders)) + ConditionText(id, org, app)
  }

  // ----- Reading -----

  datatype Expr = Param(n: nat) | Literal(n: nat)

  datatype Equation = Equation(column: string, value: Expr)

  datatype InsertCommand = InsertCommand(columns: seq<string>, rows: seq<seq<Expr>>, returning: bool)

  datatype UpdateCommand = UpdateCommand(sets: seq<Equation>, conditions: seq<Equation>, returning: bool)

  predicate IsName(keywords: set<string>, ts: seq<Token>) {
    ts != [] && ts[0].Word? && !IsTaken(keywords, ts[0].text)
  }

  predicate Next(ts: seq<Token>, token: Token) {
    ts != [] && ts[0] == token
  }

  function ReadNames(keywords: set<string>, ts: seq<Token>): (r: Option<(seq<string>, seq<Token>)>)
    ensures r.Some? ==> |r.value.1| < |ts|
  {
    if !IsName(keywords, ts) then None
    else if !Next(ts[1..], Sym(',')) then Some(([ts[0].text], ts[1..]))
    else match ReadNames(keywords, ts[2..])
      case None => None
      case Some((names, rest)) => Some(([ts[0].text] + names, rest))
  }

  function ReadExpr(ts: seq<Token>): Option<Expr> {
    if ts == [] then None
    else match ts[0]
      case Arg(n) => Some(Param(n))
      case Number(n) => Some(Literal(n))
      case _ => None
  }

  function ReadExprs(ts: seq<Token>): (r: Option<(seq<Expr>, seq<Token>)>)
    ensures r.Some? ==> |r.value.1| < |ts|
  {
    var e := ReadExpr(ts);
    if e.None? then None
    else if !Next(ts[1..], Sym(',')) then Some(([e.value], ts[1..]))
    else match ReadExprs(ts[2..])
      case None => None
      case Some((exprs, rest)) => Some(([e.value] + exprs, rest))
  }

  /** Rows in parentheses, separated by commas. */
  function ReadRows(ts: seq<Token>): Option<(seq<seq<Expr>>, seq<Token>)>
    decreases |ts|
  {
    if !Next(ts, Sym('(')) then None
    else match ReadExprs(ts[1..])
      case None => None
      case Some((row, rest)) =>
        if !Next(rest, Sym(')')) then None
        else if !Next(rest[1..], Sym(',')) then Some(([row], rest[1..]))
        else match ReadRows(rest[2..])
          case None => None
          case Some((rows, more)) => Some(([row] + rows, more))
  }

  /** Whether the clause behind the statement is there; nothing else may be. */
  function ReadEnd(ts: seq<Token>): Option<bool> {
    if ts == [] then Some(false) else if ts == [Word("returning")] then Some(true) else None
  }

  function ReadInsert(keywords: set<string>, ts: seq<Token>): Option<InsertCommand> {
    if !Next(ts, Sym('(')) then None
    else match ReadNames(keywords, ts[1..])
      case None => None
      case Some((columns, rest)) =>
        if !(Next(rest, Sym(')')) && Next(rest[1..], Word("values"))) then None
        else match ReadRows(rest[2..])
          case None => None
          case Some((rows, end)) =>
            var returning := ReadEnd(end);
            if returning.None? then None else Some(InsertCommand(columns, rows, returning.value))
  }

  /** Equations separated by a comma, in a SET list, or by AND, in a condition. */
  function ReadEquations(keywords: set<string>, separator: Token, ts: seq<Token>)
    : (r: Option<(seq<Equation>, seq<Token>)>)
    ensures r.Some? ==> |r.value.1| < |ts|
  {
    if !(IsName(keywords, ts) && Next(ts[1..], Sym('='))) || ReadExpr(ts[2..]).None? then None
    else
      var equation := Equation(ts[0].text, ReadExpr(ts[2..]).value);
      if !Next(ts[3..], separator) then Some(([equation], ts[3..]))
      else match ReadEquations(keywords, separator, ts[4..])
        case None => None
        case Some((equations, rest)) => Some(([equation] + equations, rest))
  }

  function ReadUpdate(keywords: set<string>, ts: seq<Token>): Option<UpdateCommand> {
    match ReadEquations(keywords, Sym(','), ts)
    case None => None
    case Some((sets, rest)) =>
      var conditions :=
        if Next(rest, Word("where")) then ReadEquations(keywords, Word("and"), rest[1..]) else Some(([], rest));
      if conditions.None? || ReadEnd(conditions.value.1).None? then None
      else Some(UpdateCommand(sets, conditions.value.0, ReadEnd(conditions.value.1).value))
  }

  // ----- Round trips -----

  ghost predicate AllPlain(keywords: set<string>, names: seq<string>) {
    forall i :: 0 <= i < |names| ==> PlainName(keywords, names[i])
  }

  function LowerAll(names: seq<string>): (lower: seq<string>)
    ensures |lower| == |names|
  {
    seq(|names|, i requires 0 <= i < |names| => LowerCase(names[i]))
  }

  function Params(placeholders: seq<nat>): (exprs: seq<Expr>)
    ensures |exprs| == |placeholders|
  {
    seq(|placeholders|, i requires 0 <= i < |placeholders| => Param(placeholders[i]))
  }

  function Equations(columns: seq<string>, placeholders: seq<nat>): (equations: seq<Equation>)
    requires |columns| == |placeholders|
    ensures |equations| == |columns|
  {
    seq(|columns|, i requires 0 <= i < |columns| => Equation(LowerCase(columns[i]), Param(placeholders[i])))
  }

  lemma {:induction false} NamesRead(keywords: set<string>, names: seq<string>, rest: string)
    requires names != [] && AllPlain(keywords, names)
    requires rest != "" && !IsNameChar(rest[0]) && !Next(Lex(rest), Sym(','))
    ensures ReadNames(keywords, Lex(Join(names) + rest)) == Some((LowerAll(names), Lex(rest)))
  {
    hide Lex, LowerCase, IsIdentifier;
    assert PlainName(keywords, names[0]);
    if |names| == 1 {
      LexName(names[0], rest);
      assert ([Word(LowerCase(names[0]))] + Lex(rest))[1..] == Lex(rest);
      assert LowerAll(names) == [LowerCase(names[0])];
    } else {
      var tail := Join(names[1..]) + rest;
      assert Join(names) + rest == names[0] + (", " + tail);
      LexName(names[0], ", " + tail);
      LexComma(tail);
      NamesRead(keywords, names[1..], rest);
      Behind(Word(LowerCase(names[0])), Lex(tail));
      assert LowerAll(names) == [LowerCase(names[0])] + LowerAll(names[1..]);
    }
  }

  lemma Behind(first: Token, rest: seq<Token>)
    ensures var ts := [first] + ([Sym(',')] + rest);
      ts[0] == first && ts[1..] == [Sym(',')] + rest && ts[2..] == rest
  {
  }

  lemma EquationAt(column: string, placeholder: nat, rest: seq<Token>)
    ensures var ts := [Word(column), Sym('='), Arg(placeholder)] + rest;
      && ts[0] == Word(column) && Next(ts[1..], Sym('=')) && ReadExpr(ts[2..]) == Some(Param(placeholder))
      && ts[3..] == rest && (rest != [] ==> ts[4..] == rest[1..])
  {
  }

  lemma LexComma(rest: string)
    ensures Lex(", " + rest) == [Sym(',')] + Lex(rest)
  {
    assert ", " + rest == [','] + (" " + rest);
    LexSym(',', " " + rest);
    LexSpace(rest);
  }

  lemma {:induction false} MarksRead(placeholders: seq<nat>, rest: string)
    requires placeholders != [] && rest != "" && !IsDigit(rest[0]) && !Next(Lex(rest), Sym(','))
    ensures ReadExprs(Lex(Join(Marks(placeholders)) + rest)) == Some((Params(placeholders), Lex(rest)))
  {
    hide Lex, Mark;
    var marks := Marks(placeholders);
    if |placeholders| == 1 {
      LexMark(placeholders[0], rest);
      assert ([Arg(placeholders[0])] + Lex(rest))[1..] == Lex(rest);
      assert Params(placeholders) == [Param(placeholders[0])];
    } else {
      assert marks[1..] == Marks(placeholders[1..]);
      var tail := Join(marks[1..]) + rest;
      assert Join(marks) + rest == marks[0] + (", " + tail);
      LexMark(placeholders[0], ", " + tail);
      LexComma(tail);
      MarksRead(placeholders[1..], rest);
      Behind(Arg(placeholders[0]), Lex(tail));
      assert Params(placeholders) == [Param(placeholders[0])] + Params(placeholders[1..]);
    }
  }

  lemma LexEquation(keywords: set<string>, column: string, placeholder: nat, rest: string)
    requires PlainName(keywords, column) && (rest == "" || !IsDigit(rest[0]))
    ensures Lex(SetText(column, placeholder) + rest) ==
      [Word(LowerCase(column)), Sym('='), Arg(placeholder)] + Lex(rest)
  {
    hide Lex, Mark, LowerCase;
    var tail := Mark(placeholder) + rest;
    assert SetText(column, placeholder) + rest == column + (" " + (['='] + (" " + tail)));
    LexName(column, " " + (['='] + (" " + tail)));
    LexSpace(['='] + (" " + tail));
    LexSym('=', " " + tail);
    LexSpace(tail);
    LexMark(placeholder, rest);
  }

  lemma {:induction false} SetsRead(keywords: set<string>, columns: seq<string>, placeholders: seq<nat>, rest: string)
    requires columns != [] && |columns| == |placeholders| && AllPlain(keywords, columns)
    requires rest != "" && !IsDigit(rest[0]) && !Next(Lex(rest), Sym(','))
    ensures ReadEquations(keywords, Sym(','), Lex(Join(SetTexts(columns, placeholders)) + rest)) ==
      Some((Equations(columns, placeholders), Lex(rest)))
  {
    hide Lex, LowerCase, IsIdentifier, SetText;
    var parts := SetTexts(columns, placeholders);
    assert PlainName(keywords, columns[0]);
    if |columns| == 1 {
      LexEquation(keywords, columns[0], placeholders[0], rest);
      EquationAt(LowerCase(columns[0]), placeholders[0], Lex(rest));
      assert Equations(columns, placeholders) == [Equation(LowerCase(columns[0]), Param(placeholders[0]))];
    } else {
      assert parts[1..] == SetTexts(columns[1..], placeholders[1..]);
      var tail := Join(parts[1..]) + rest;
      assert Join(parts) + rest == parts[0] + (", " + tail);
      LexEquation(keywords, columns[0], placeholders[0], ", " + tail);
      LexComma(tail);
      SetsRead(keywords, columns[1..], placeholders[1..], rest);
      EquationAt(LowerCase(columns[0]), placeholders[0], [Sym(',')] + Lex(tail));
      assert ([Sym(',')] + Lex(tail))[1..] == Lex(tail);
      assert Equations(columns, placeholders) ==
        [Equation(LowerCase(columns[0]), Param(placeholders[0]))] + Equations(columns[1..], placeholders[1..]);
    }
  }

  lemma OwnNamesArePlain(keywords: set<string>, name: string)
    requires name in OWN_NAMES
    ensures PlainName(keywords, name) && LowerCase(name) == name && !IsTaken(keywords, name)
  {
    if name == "id" { SmallLetters("id"); }
    else if name == "organization_id" { SmallLetters("organization_id"); }
    else if name == "app_id" { SmallLetters("app_id"); }
    else if name == "created_at" { SmallLetters("created_at"); }
    else { SmallLetters("updated_at"); }
    assert |name| in {2, 10, 15} || (|name| == 6 && name[0] == 'a');
    assert forall w :: w in STRUCTURE ==> |w| in {3, 5, 9} || (|w| == 6 && w[0] == 'v');
  }

  lemma SmallLetters(name: string)
    requires 0 < |name| <= LONGEST_NAME && forall c :: c in name ==> 'a' <= c <= 'z' || c == '_'
    ensures IsIdentifier(name) && LowerCase(name) == name
  {
    forall i | 0 <= i < |name| ensures IsNameChar(name[i]) && Lower(name[i]) == name[i] {
      assert name[i] in name;
    }
    assert name[0] in name && LowerCase(name) == name;
  }

  lemma LexEnd()
    ensures Lex(" RETURNING") == [Word("returning")]
  {
    assert Lex("") == [] && IsIdentifier("RETURNING") && LowerCase("RETURNING") == "returning";
    hide Lex, IsIdentifier, LowerCase;
    assert " RETURNING" == " " + "RETURNING" && "RETURNING" == "RETURNING" + "";
    LexSpace("RETURNING");
    LexName("RETURNING", "");
  }

  /** With plain column names the INSERT reads back as it was meant: one row of these columns and arguments. */
  lemma InsertRead(keywords: set<string>, columns: seq<string>, placeholders: seq<nat>)
    requires columns != [] && placeholders != [] && AllPlain(keywords, columns)
    ensures ReadInsert(keywords, Lex(InsertText(columns, placeholders))) ==
      Some(InsertCommand(LowerAll(columns), [Params(placeholders)], true))
  {
    hide Lex, AllPlain, Join, ReadNames, ReadExprs;
    var tail := Join(Marks(placeholders)) + ([')'] + " RETURNING");
    var middle := [')'] + (" " + "VALUES" + " " + (['('] + tail));
    assert InsertText(columns, placeholders) == ['('] + (Join(columns) + middle);
    LexSym('(', Join(columns) + middle);
    LexSym(')', " " + "VALUES" + " " + (['('] + tail));
    LexWord("VALUES", ['('] + tail);
    assert LowerCase("VALUES") == "values";
    LexSym('(', tail);
    LexSym(')', " RETURNING");
    LexEnd();
    NamesRead(keywords, columns, middle);
    MarksRead(placeholders, [')'] + " RETURNING");
    var end := [Sym(')')] + [Word("returning")];
    assert end[1..] == [Word("returning")];
    var rows := [Sym('(')] + Lex(tail);
    assert rows[1..] == Lex(tail);
    assert ReadRows(rows) == Some(([Params(placeholders)], [Word("returning")]));
    var rest := [Sym(')')] + ([Word("values")] + rows);
    assert rest[1..] == [Word("values")] + rows && rest[2..] == rows;
    assert ([Sym('(')] + Lex(Join(columns) + middle))[1..] == Lex(Join(columns) + middle);
  }

  /** The equations of the handler's condition. */
  function OwnConditions(id: nat, org: nat, app: nat): seq<Equation> {
    [Equation("id", Param(id)), Equation("organization_id", Param(org)), Equation("app_id", Param(app))]
  }

  lemma ConditionsRead(keywords: set<string>, id: nat, org: nat, app: nat)
    ensures ReadEquations(keywords, Word("and"), Lex(SetText("id", id) + " AND " + SetText("organization_id", org)
      + " AND " + SetText("app_id", app) + " RETURNING")) ==
      Some((OwnConditions(id, org, app), [Word("returning")]))
  {
    hide Lex, SetText, PlainName;
    OwnNamesArePlain(keywords, "id");
    OwnNamesArePlain(keywords, "organization_id");
    OwnNamesArePlain(keywords, "app_id");
    var a3 := SetText("app_id", app) + " RETURNING";
    var a2 := SetText("organization_id", org) + (" " + "AND" + " " + a3);
    assert SetText("id", id) + " AND " + SetText("organization_id", org) + " AND " + SetText("app_id", app)
      + " RETURNING"
      == SetText("id", id) + (" " + "AND" + " " + a2);
    assert LowerCase("AND") == "and";
    LexEnd();
    LexEquation(keywords, "app_id", app, " RETURNING");
    LexWord("AND", a3);
    LexEquation(keywords, "organization_id", org, " " + "AND" + " " + a3);
    LexWord("AND", a2);
    LexEquation(keywords, "id", id, " " + "AND" + " " + a2);
    OneEquation(keywords, "app_id", app, [Word("returning")]);
    MoreEquations(keywords, "organization_id", org, Lex(a3));
    MoreEquations(keywords, "id", id, Lex(a2));
    var e1, e2 := Equation("id", Param(id)), Equation("organization_id", Param(org));
    var e3 := Equation("app_id", Param(app));
    assert [e1] + ([e2] + [e3]) == OwnConditions(id, org, app);
  }

  lemma OneEquation(keywords: set<string>, column: string, placeholder: nat, rest: seq<Token>)
    requires !IsTaken(keywords, column) && !Next(rest, Word("and"))
    ensures ReadEquations(keywords, Word("and"), [Word(column), Sym('='), Arg(placeholder)] + rest) ==
      Some(([Equation(column, Param(placeholder))], rest))
  {
    EquationAt(column, placeholder, rest);
  }

  lemma MoreEquations(keywords: set<string>, column: string, placeholder: nat, rest: seq<Token>)
    requires !IsTaken(keywords, column) && ReadEquations(keywords, Word("and"), rest).Some?
    ensures var (equations, end) := ReadEquations(keywords, Word("and"), rest).value;
      ReadEquations(keywords, Word("and"), [Word(column), Sym('='), Arg(placeholder)] + ([Word("and")] + rest)) ==
      Some(([Equation(column, Param(placeholder))] + equations, end))
  {
    EquationAt(column, placeholder, [Word("and")] + rest);
    assert ([Word("and")] + rest)[1..] == rest;
  }

  lemma ConditionLex(keywords: set<string>, id: nat, org: nat, app: nat)
    ensures var ts := Lex(ConditionText(id, org, app));
      && Next(ts, Word("where")) && !Next(ts, Sym(','))
      && ReadEquations(keywords, Word("and"), ts[1..]) == Some((OwnConditions(id, org, app), [Word("returning")]))
  {
    assert IsIdentifier("WHERE") && LowerCase("WHERE") == "where";
    hide Lex, SetText, IsIdentifier, LowerCase, ReadEquations;
    var conditions := SetText("id", id) + " AND " + SetText("organization_id", org)
      + " AND " + SetText("app_id", app) + " RETURNING";
    assert ConditionText(id, org, app) == " " + "WHERE" + " " + conditions;
    LexWord("WHERE", conditions);
    ConditionsRead(keywords, id, org, app);
    assert ([Word("where")] + Lex(conditions))[1..] == Lex(conditions);
  }

  /** A SET list that reads up to the handler's condition is the SET list of the command. */
  lemma UpdateReadFrom(keywords: set<string>, sets: string, equations: seq<Equation>, id: nat, org: nat, app: nat)
    requires ReadEquations(keywords, Sym(','), Lex(sets + ConditionText(id, org, app))) ==
      Some((equations, Lex(ConditionText(id, org, app))))
    ensures ReadUpdate(keywords, Lex(sets + ConditionText(id, org, app))) ==
      Some(UpdateCommand(equations, OwnConditions(id, org, app), true))
  {
    hide Lex, ReadEquations, ConditionText;
    ConditionLex(keywords, id, org, app);
  }

  /** With plain column names the UPDATE reads back as it was meant, condition and all. */
  lemma UpdateRead(keywords: set<string>, columns: seq<string>, placeholders: seq<nat>, id: nat, org: nat, app: nat)
    requires columns != [] && |columns| == |placeholders| && AllPlain(keywords, columns)
    ensures ReadUpdate(keywords, Lex(UpdateText(columns, placeholders, id, org, app))) ==
      Some(UpdateCommand(Equations(columns, placeholders), OwnConditions(id, org, app), true))
  {
    hide Lex, AllPlain, Join, ReadEquations, ReadUpdate, ConditionText;
    ConditionLex(keywords, id, org, app);
    SetsRead(keywords, columns, placeholders, ConditionText(id, org, app));
    UpdateReadFrom(keywords, Join(SetTexts(columns, placeholders)), Equations(columns, placeholders), id, org, app);
  }
}
