/** The CRUD statements generated for a collection, and what preparing them yields. */
module CrudText {
  import opened Basics
  import opened SqlText
  import opened SqlSyntax
  import opened SqlLayout
  import opened Schema
  import opened Predicate
  import opened QueryCompiler
  import opened QueryMeaning

  // ---------------------------------------------------- the generated texts

  function QuotedColumns(names: seq<Text>): Text
  {
    Join(seq(|names|, i requires 0 <= i < |names| => Quote(names[i])), ", ")
  }

  function Parameters(n: nat): Text
  {
    Join(seq(n, i requires 0 <= i < n => "?" + Decimal(i + 1)), ", ")
  }

  /** Columns of the non-key fields, in declaration order. */
  function MutableColumns(fields: seq<FieldSchema>): seq<Text>
  {
    if fields == [] then []
    else (if fields[0].primaryKey then [] else [fields[0].column]) + MutableColumns(fields[1..])
  }

  function Assigned(names: seq<Text>): seq<Text>
  {
    seq(|names|, i requires 0 <= i < |names| => Quote(names[i]) + " = ?" + Decimal(i + 1))
  }

  function InsertSql(table: Text, fields: seq<FieldSchema>): Text
  {
    "INSERT INTO " + Quote(table) + " (" + QuotedColumns(ColumnNames(fields)) + ") VALUES ("
    + Parameters(|fields|) + ")"
  }

  function SelectSql(table: Text, fields: seq<FieldSchema>, key: Text): Text
  {
    "SELECT " + QuotedColumns(ColumnNames(fields)) + " FROM " + Quote(table) + " WHERE " + Quote(key) + " = ?1 LIMIT 1"
  }

  function UpdateSql(table: Text, fields: seq<FieldSchema>, key: Text): Text
  {
    var mutable := MutableColumns(fields);
    if mutable == [] then
      "UPDATE " + Quote(table) + " SET " + Quote(key) + " = " + Quote(key) + " WHERE " + Quote(key) + " = ?1"
    else
      "UPDATE " + Quote(table) + " SET " + Join(Assigned(mutable), ", ") + " WHERE " + Quote(key)
      + " = ?" + Decimal(|mutable| + 1)
  }

  function DeleteSql(table: Text, key: Text): Text
  {
    "DELETE FROM " + Quote(table) + " WHERE " + Quote(key) + " = ?1"
  }

  // -------------------------------------------------------------- as pieces

  function Equation(column: Text, operand: Token): seq<Item>
  {
    [Tok(Name(column)), Space, Tok(EQ), Space, Tok(operand)]
  }

  function ParamItems(n: nat): seq<seq<Item>> { seq(n, i requires 0 <= i < n => [Tok(Param(i + 1))]) }

  function Equations(names: seq<Text>): seq<seq<Item>>
  {
    seq(|names|, i requires 0 <= i < |names| => Equation(names[i], Param(i + 1)))
  }

  function Assignments(names: seq<Text>, key: Text): seq<seq<Item>>
  {
    if names == [] then [Equation(key, Name(key))] else Equations(names)
  }

  function NameList(names: seq<Text>): seq<Item> { Join(NameItems(names), LISTED) }

  function ParamList(n: nat): seq<Item> { Join(ParamItems(n), LISTED) }

  function InsertPieces(table: Text, names: seq<Text>): seq<seq<Item>>
  {
    [Keyword("INSERT"), Keyword("INTO"), Identifier(table)]
    + [Parenthesized(NameList(names)), Keyword("VALUES"), Parenthesized(ParamList(|names|))]
  }

  function SelectPieces(table: Text, names: seq<Text>, key: Text): seq<seq<Item>>
  {
    [Keyword("SELECT"), NameList(names)] + [Keyword("FROM"), Identifier(table)]
    + [Keyword("WHERE"), Equation(key, Param(1))] + [Keyword("LIMIT"), [Tok(Num(1))]]
  }

  function UpdatePieces(table: Text, names: seq<Text>, key: Text): seq<seq<Item>>
  {
    [Keyword("UPDATE"), Identifier(table)] + [Keyword("SET"), Join(Assignments(names, key), LISTED)]
    + [Keyword("WHERE"), Equation(key, Param(|names| + 1))]
  }

  function DeletePieces(table: Text, key: Text): seq<seq<Item>>
  {
    [Keyword("DELETE"), Keyword("FROM"), Identifier(table)] + [Keyword("WHERE"), Equation(key, Param(1))]
  }

  // --------------------------------------------------- texts are the pieces

  lemma {:induction false} EquationText(column: Text, operand: Token)
    ensures Print(Equation(column, operand)) == Quote(column) + (" = " + Spell(operand))
    ensures Tokens(Equation(column, operand)) == [Name(column), EQ, operand]
  {
    hide Print, Tokens, Spell;
    var a, b, c := [Tok(Name(column))], [Space, Tok(EQ)], [Space, Tok(operand)];
    assert Equation(column, operand) == a + b + c;
    PrintParts(a, b, c);
    PrintOne(Tok(Name(column)));
    PrintSpaced(EQ);
    PrintSpaced(operand);
    SpellFixed(column);
  }

  lemma {:induction false} SpellFixed(column: Text)
    ensures Spell(Name(column)) == Quote(column)
    ensures " " + Spell(EQ) + " " == " = "
  {}

  lemma {:induction false} ListText(parts: seq<seq<Item>>)
    ensures Print(Join(parts, LISTED)) == Join(Texts(parts), ", ")
  {
    LayoutOfJoin(parts, LISTED);
    ListedLayout();
  }

  lemma {:induction false} NameListText(names: seq<Text>)
    ensures Print(NameList(names)) == QuotedColumns(names)
  {
    ListText(NameItems(names));
    forall i | 0 <= i < |names| ensures Texts(NameItems(names))[i] == Quote(names[i]) {
      PrintOne(Tok(Name(names[i])));
    }
    assert Texts(NameItems(names)) == seq(|names|, i requires 0 <= i < |names| => Quote(names[i]));
  }

  lemma {:induction false} ParamListText(n: nat)
    ensures Print(ParamList(n)) == Parameters(n)
  {
    ListText(ParamItems(n));
    forall i | 0 <= i < n ensures Texts(ParamItems(n))[i] == "?" + Decimal(i + 1) {
      PrintOne(Tok(Param(i + 1)));
    }
    assert Texts(ParamItems(n)) == seq(n, i requires 0 <= i < n => "?" + Decimal(i + 1));
  }

  lemma {:induction false} EquationsText(names: seq<Text>)
    ensures Print(Join(Equations(names), LISTED)) == Join(Assigned(names), ", ")
  {
    ListText(Equations(names));
    forall i | 0 <= i < |names| ensures Texts(Equations(names))[i] == Assigned(names)[i] {
      EquationText(names[i], Param(i + 1));
      ParamText(Quote(names[i]), i + 1);
    }
    assert Texts(Equations(names)) == Assigned(names);
  }

  lemma {:induction false} ParamText(q: Text, n: nat)
    requires n > 0
    ensures q + (" = " + Spell(Param(n))) == q + " = ?" + Decimal(n)
  {
    hide Decimal, Spell;
    SpellParam(n);
    var d := Decimal(n);
    assert " = " + "?" == " = ?";
    assert q + (" = " + ("?" + d)) == q + (" = " + "?") + d;
  }

  lemma {:induction false} SpellParam(n: nat)
    requires n > 0
    ensures Spell(Param(n)) == "?" + Decimal(n)
    ensures Spell(Param(1)) == "?1"
  {}

  lemma {:induction false} SqlThree(a: seq<Item>, b: seq<Item>, c: seq<Item>)
    ensures Sql([a, b, c]) == Print(a) + " " + Print(b) + " " + Print(c)
  {
    hide Print, Sql;
    assert [a, b, c] == [a, b] + [c];
    SqlAppend([a, b], [c]);
    SqlPair(a, b);
    SqlPair(c, c);
  }

  lemma {:induction false} InsertText(table: Text, fields: seq<FieldSchema>)
    requires fields != []
    ensures InsertSql(table, fields) == Sql(InsertPieces(table, ColumnNames(fields)))
  {
    hide Print, Sql, NameList, ParamList, QuotedColumns, Parameters;
    var names := ColumnNames(fields);
    var cols, params := Parenthesized(NameList(names)), Parenthesized(ParamList(|names|));
    var a, b := [Keyword("INSERT"), Keyword("INTO"), Identifier(table)], [cols, Keyword("VALUES"), params];
    SqlAppend(a, b);
    SqlThree(a[0], a[1], a[2]);
    SqlThree(b[0], b[1], b[2]);
    KeywordText("INSERT");
    KeywordText("INTO");
    KeywordText("VALUES");
    PrintOne(Tok(Name(table)));
    ParenthesizedText(NameList(names));
    ParenthesizedText(ParamList(|names|));
    NameListText(names);
    ParamListText(|names|);
    InsertGlue(Quote(table), QuotedColumns(names), Parameters(|names|));
  }

  lemma {:induction false} InsertGlue(t: Text, c: Text, p: Text)
    ensures "INSERT" + " " + "INTO" + " " + t + " " + ("(" + c + ")" + " " + "VALUES" + " " + ("(" + p + ")"))
         == "INSERT INTO " + t + " (" + c + ") VALUES (" + p + ")"
  {
    assert "INSERT" + " " + "INTO" + " " == "INSERT INTO ";
    assert " " + "(" == " (";
    assert ")" + " " + "VALUES" + " " + "(" == ") VALUES (";
  }

  lemma {:induction false} ParenthesizedText(inner: seq<Item>)
    ensures Print(Parenthesized(inner)) == "(" + Print(inner) + ")"
  {
    PrintParts([Tok(LP)], inner, [Tok(RP)]);
    PrintOne(Tok(LP));
  }

  lemma {:induction false} SelectByKeyText(table: Text, fields: seq<FieldSchema>, key: Text)
    ensures SelectSql(table, fields, key) == Sql(SelectPieces(table, ColumnNames(fields), key))
  {
    hide Print, Sql, NameList, QuotedColumns, Equation;
    var names := ColumnNames(fields);
    var a, b := [Keyword("SELECT"), NameList(names)], [Keyword("FROM"), Identifier(table)];
    var c, d := [Keyword("WHERE"), Equation(key, Param(1))], [Keyword("LIMIT"), [Tok(Num(1))]];
    SqlAppend(a + b + c, d);
    SqlAppend(a + b, c);
    SqlAppend(a, b);
    SqlPair(a[0], a[1]);
    SqlPair(b[0], b[1]);
    SqlPair(c[0], c[1]);
    SqlPair(d[0], d[1]);
    KeywordText("SELECT");
    KeywordText("FROM");
    KeywordText("WHERE");
    KeywordText("LIMIT");
    LimitText(d);
    PrintOne(Tok(Name(table)));
    NameListText(names);
    EquationText(key, Param(1));
    SelectGlue(QuotedColumns(names), Quote(table), Quote(key));
  }

  lemma {:induction false} SelectGlue(c: Text, t: Text, k: Text)
    ensures "SELECT" + " " + c + " " + ("FROM" + " " + t) + " " + ("WHERE" + " " + (k + (" = " + Spell(Param(1)))))
            + " " + ("LIMIT" + " " + "1")
         == "SELECT " + c + " FROM " + t + " WHERE " + k + " = ?1 LIMIT 1"
  {
    hide Spell;
    SpellParam(1);
    Respace("SELECT", " ", c, "FROM", t, "WHERE", k, " = " + "?1", "LIMIT" + " " + "1");
    FixedWords();
  }

  lemma {:induction false} FixedWords()
    ensures "SELECT" + " " == "SELECT "
    ensures " " + "FROM" + " " == " FROM "
    ensures " " + "WHERE" + " " == " WHERE "
    ensures " " + "SET" + " " == " SET "
    ensures " = " + "?1" + " " + ("LIMIT" + " " + "1") == " = ?1 LIMIT 1"
  {}

  lemma {:induction false} Respace(a: Text, sp: Text, c: Text, f: Text, t: Text, w: Text, k: Text, e: Text, l: Text)
    ensures a + sp + c + sp + (f + sp + t) + sp + (w + sp + (k + e)) + sp + l
         == (a + sp) + c + (sp + f + sp) + t + (sp + w + sp) + k + (e + sp + l)
  {}

  lemma {:induction false} UpdateFrame(table: Text, sets: seq<Item>, key: Text, n: nat)
    requires n > 0
    ensures Sql([Keyword("UPDATE"), Identifier(table)] + [Keyword("SET"), sets] + [Keyword("WHERE"), Equation(key, Param(n))])
         == "UPDATE " + Quote(table) + " SET " + Print(sets) + " WHERE " + (Quote(key) + " = ?" + Decimal(n))
  {
    hide Print, Sql, Equation, Decimal;
    var a, b, c := [Keyword("UPDATE"), Identifier(table)], [Keyword("SET"), sets], [Keyword("WHERE"), Equation(key, Param(n))];
    SqlAppend(a + b, c);
    SqlAppend(a, b);
    SqlPair(a[0], a[1]);
    SqlPair(b[0], b[1]);
    SqlPair(c[0], c[1]);
    KeywordText("UPDATE");
    KeywordText("SET");
    KeywordText("WHERE");
    PrintOne(Tok(Name(table)));
    EquationText(key, Param(n));
    ParamText(Quote(key), n);
    UpdateGlue(Quote(table), Print(sets), Quote(key) + " = ?" + Decimal(n));
  }

  lemma {:induction false} UpdateGlue(t: Text, s: Text, w: Text)
    ensures "UPDATE" + " " + t + " " + ("SET" + " " + s) + " " + ("WHERE" + " " + w)
         == "UPDATE " + t + " SET " + s + " WHERE " + w
  {
    FixedWords();
    assert "UPDATE" + " " == "UPDATE ";
    Respace("UPDATE", " ", t, "SET", s, "WHERE", w, "", "");
    NestRight(("UPDATE" + " "), t, (" " + "SET" + " "), s, (" " + "WHERE" + " "), w);
  }

  lemma {:induction false} UpdateText(table: Text, fields: seq<FieldSchema>, key: Text)
    ensures UpdateSql(table, fields, key) == Sql(UpdatePieces(table, MutableColumns(fields), key))
  {
    var names := MutableColumns(fields);
    UpdateFrame(table, Join(Assignments(names, key), LISTED), key, |names| + 1);
    if names == [] {
      KeyOnlyText(table, key);
    } else {
      EquationsText(names);
      hide Print, Sql, Equations, Assigned, MutableColumns, Decimal, Quote;
      var left := "UPDATE " + Quote(table) + " SET " + Join(Assigned(names), ", ") + " WHERE ";
      Append3(left, Quote(key), " = ?", Decimal(|names| + 1));
    }
  }

  lemma {:induction false} KeyOnlyText(table: Text, key: Text)
    ensures "UPDATE " + Quote(table) + " SET " + Print(Join(Assignments([], key), LISTED)) + " WHERE "
            + (Quote(key) + " = ?" + Decimal(1))
         == "UPDATE " + Quote(table) + " SET " + Quote(key) + " = " + Quote(key) + " WHERE " + Quote(key) + " = ?1"
  {
    hide Print, Quote, Equation, Spell, Decimal;
    EquationText(key, Name(key));
    SpellFixed(key);
    DecimalOne();
    assert " = ?" + "1" == " = ?1";
    Append3("UPDATE " + Quote(table) + " SET " + Quote(key) + " = " + Quote(key) + " WHERE ", Quote(key), " = ?", "1");
    Append3("UPDATE " + Quote(table) + " SET ", Quote(key), " = ", Quote(key));
  }

  lemma {:induction false} DecimalOne()
    ensures Decimal(1) == "1"
  {}

  lemma {:induction false} DeleteText(table: Text, key: Text)
    ensures DeleteSql(table, key) == Sql(DeletePieces(table, key))
  {
    hide Print, Sql, Equation;
    var a, b := [Keyword("DELETE"), Keyword("FROM"), Identifier(table)], [Keyword("WHERE"), Equation(key, Param(1))];
    SqlAppend(a, b);
    SqlThree(a[0], a[1], a[2]);
    SqlPair(b[0], b[1]);
    KeywordText("DELETE");
    KeywordText("FROM");
    KeywordText("WHERE");
    PrintOne(Tok(Name(table)));
    EquationText(key, Param(1));
    DeleteGlue(Quote(table), Quote(key));
  }

  lemma {:induction false} DeleteGlue(t: Text, k: Text)
    ensures "DELETE" + " " + "FROM" + " " + t + " " + ("WHERE" + " " + (k + (" = " + Spell(Param(1)))))
         == "DELETE FROM " + t + " WHERE " + k + " = ?1"
  {
    hide Spell;
    SpellParam(1);
    FixedWords();
    assert "DELETE" + " " + "FROM" + " " == "DELETE FROM ";
    assert " = " + "?1" == " = ?1";
  }
}
