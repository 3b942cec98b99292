/** Preparing the generated CRUD texts yields four known statements, each with
    exactly as many parameters as csgdb binds. */
module CrudMeaning {
  import opened Basics
  import opened SqlText
  import opened SqlSyntax
  import opened SqlLayout
  import opened Schema
  import opened Predicate
  import opened QueryCompiler
  import opened QueryMeaning
  import QueryAnswers
  import opened CrudText

  // --------------------------------------------------------- the statements

  function KeyIs(key: Text, n: nat): Expr { Compare(Equal, Column(key), Bound(n)) }

  function Bounds(n: nat): seq<Expr> { seq(n, i requires 0 <= i < n => Bound(i + 1)) }

  function Sets(names: seq<Text>, key: Text): seq<Assignment>
  {
    if names == [] then [Assignment(key, Column(key))]
    else seq(|names|, i requires 0 <= i < |names| => Assignment(names[i], Bound(i + 1)))
  }

  function InsertStatement(table: Text, names: seq<Text>): Statement { Insert(table, names, Bounds(|names|)) }

  function SelectStatement(table: Text, names: seq<Text>, key: Text): Statement
  {
    Select(Columns(names), table, Some(KeyIs(key, 1)), [], Some(Literal(1)))
  }

  function UpdateStatement(table: Text, names: seq<Text>, key: Text): Statement
  {
    Update(table, Sets(names, key), Some(KeyIs(key, |names| + 1)))
  }

  function DeleteStatement(table: Text, key: Text): Statement { Delete(table, Some(KeyIs(key, 1))) }

  // ------------------------------------------------------------- the tokens

  function ParamParts(n: nat): seq<seq<Token>> { seq(n, i requires 0 <= i < n => [Param(i + 1)]) }

  function EquationTokens(column: Text, operand: Token): seq<Token> { [Name(column), EQ, operand] }

  function SetParts(names: seq<Text>, key: Text): seq<seq<Token>>
  {
    if names == [] then [EquationTokens(key, Name(key))]
    else seq(|names|, i requires 0 <= i < |names| => EquationTokens(names[i], Param(i + 1)))
  }

  function WhereKey(key: Text, n: nat): seq<Token> { [Word("WHERE")] + EquationTokens(key, Param(n)) }

  function InsertTokens(table: Text, names: seq<Text>): seq<Token>
  {
    [Word("INSERT"), Word("INTO"), Name(table)]
    + (([LP] + Join(NameParts(names), [COMMA]) + [RP]) + [Word("VALUES")]
       + ([LP] + Join(ParamParts(|names|), [COMMA]) + [RP]))
  }

  function SelectByKeyTokens(table: Text, names: seq<Text>, key: Text): seq<Token>
  {
    SelectTokens(Join(NameParts(names), [COMMA]), table, WhereKey(key, 1) + ([Word("LIMIT")] + [Num(1)]))
  }

  function UpdateTokens(table: Text, names: seq<Text>, key: Text): seq<Token>
  {
    [Word("UPDATE"), Name(table)] + ([Word("SET")] + Join(SetParts(names, key), [COMMA])) + WhereKey(key, |names| + 1)
  }

  function DeleteTokens(table: Text, key: Text): seq<Token>
  {
    [Word("DELETE"), Word("FROM"), Name(table)] + WhereKey(key, 1)
  }

  // ------------------------------------------------------------- tokenizing

  lemma {:induction false} EquationSeparated(column: Text, operand: Token)
    requires NulFree(column) && Lexable(operand)
    ensures Separated(Equation(column, operand))
  {
    var e := Equation(column, operand);
    assert forall i :: 0 <= i < |e| && e[i].Tok? ==> Lexable(e[i].t);
  }

  lemma {:induction false} ParamListTokens(n: nat)
    ensures Tokens(ParamList(n)) == Join(ParamParts(n), [COMMA])
    ensures n > 0 ==> Separated(ParamList(n)) && ParamList(n) != []
  {
    hide Tokens;
    LayoutOfJoin(ParamItems(n), LISTED);
    ListedLayout();
    forall i | 0 <= i < n ensures TokenLists(ParamItems(n))[i] == ParamParts(n)[i] {
      PrintOne(Tok(Param(i + 1)));
    }
    assert TokenLists(ParamItems(n)) == ParamParts(n);
    JoinSeparated(ParamItems(n), LISTED);
  }

  lemma {:induction false} SetListTokens(names: seq<Text>, key: Text)
    requires CleanNames(names) && NulFree(key)
    ensures Tokens(Join(Assignments(names, key), LISTED)) == Join(SetParts(names, key), [COMMA])
    ensures Pieces([Join(Assignments(names, key), LISTED)])
  {
    hide Tokens, Separated, Equation;
    var sets := Assignments(names, key);
    LayoutOfJoin(sets, LISTED);
    ListedLayout();
    forall i | 0 <= i < |sets|
      ensures TokenLists(sets)[i] == SetParts(names, key)[i] && Separated(sets[i]) && sets[i] != []
    {
      if names == [] {
        EquationItem(key, Name(key));
      } else {
        EquationItem(names[i], Param(i + 1));
      }
    }
    assert TokenLists(sets) == SetParts(names, key);
    JoinSeparated(sets, LISTED);
  }

  lemma {:induction false} EquationItem(column: Text, operand: Token)
    requires NulFree(column) && Lexable(operand)
    ensures Tokens(Equation(column, operand)) == EquationTokens(column, operand)
    ensures Separated(Equation(column, operand)) && Equation(column, operand) != []
  {
    EquationText(column, operand);
    EquationSeparated(column, operand);
  }

  /** One keyword (or two) and an identifier or clause, as pieces and tokens. */
  lemma {:induction false} WordPiece(w: Text, x: seq<Item>)
    requires Lexable(Word(w)) && Separated(x) && x != []
    ensures Pieces([Keyword(w), x])
    ensures Flat(TokenLists([Keyword(w), x])) == [Word(w)] + Tokens(x)
  {
    PairTokens(Keyword(w), x);
    KeywordText(w);
  }

  lemma {:induction false} NamePiece(n: Text)
    requires NulFree(n)
    ensures Separated(Identifier(n)) && Tokens(Identifier(n)) == [Name(n)]
  {
    PrintOne(Tok(Name(n)));
  }

  lemma {:induction false} ThreeTokens(a: seq<Item>, b: seq<Item>, c: seq<Item>)
    ensures Flat(TokenLists([a, b, c])) == Tokens(a) + Tokens(b) + Tokens(c)
  {
    hide Tokens, Flat;
    assert [a, b, c] == [a, b] + [c];
    TokenListsAppend([a, b], [c]);
    PairTokens(a, b);
    PairTokens(c, c);
  }

  lemma {:induction false} WhereKeyPiece(key: Text, n: nat)
    requires NulFree(key)
    ensures Pieces([Keyword("WHERE"), Equation(key, Param(n))])
    ensures Flat(TokenLists([Keyword("WHERE"), Equation(key, Param(n))])) == WhereKey(key, n)
  {
    hide Equation, Separated, Tokens;
    EquationItem(key, Param(n));
    WordPiece("WHERE", Equation(key, Param(n)));
  }

  lemma {:induction false} InsertLexes(table: Text, names: seq<Text>)
    requires NulFree(table) && CleanNames(names) && names != []
    ensures Lex(Sql(InsertPieces(table, names))) == Some(InsertTokens(table, names))
  {
    hide Tokens, Flat, Lex, NameList, ParamList, Separated, TokenLists, NameParts, ParamParts;
    var a := [Keyword("INSERT"), Keyword("INTO"), Identifier(table)];
    var b := [Parenthesized(NameList(names)), Keyword("VALUES"), Parenthesized(ParamList(|names|))];
    InsertHead(table);
    InsertLists(names);
    TokenListsAppend(a, b);
    LexPieces(a + b);
  }

  lemma {:induction false} InsertHead(table: Text)
    requires NulFree(table)
    ensures Pieces([Keyword("INSERT"), Keyword("INTO"), Identifier(table)])
    ensures Flat(TokenLists([Keyword("INSERT"), Keyword("INTO"), Identifier(table)]))
         == [Word("INSERT"), Word("INTO"), Name(table)]
  {
    NamePiece(table);
    KeywordText("INSERT");
    KeywordText("INTO");
    ThreeTokens(Keyword("INSERT"), Keyword("INTO"), Identifier(table));
    assert Separated(Keyword("INSERT")) && Separated(Keyword("INTO"));
  }

  lemma {:induction false} ListParts(names: seq<Text>)
    requires CleanNames(names) && names != []
    ensures Separated(Keyword("VALUES")) && Separated(NameList(names)) && NameList(names) != []
    ensures Tokens(NameList(names)) == Join(NameParts(names), [COMMA])
  {
    NameListPiece(names);
    assert [NameList(names)][0] == NameList(names);
    NameListTokens(names);
  }

  lemma {:induction false} InsertLists(names: seq<Text>)
    requires CleanNames(names) && names != []
    ensures var b := [Parenthesized(NameList(names)), Keyword("VALUES"), Parenthesized(ParamList(|names|))];
            && Pieces(b)
            && Flat(TokenLists(b))
               == ([LP] + Join(NameParts(names), [COMMA]) + [RP]) + [Word("VALUES")]
                  + ([LP] + Join(ParamParts(|names|), [COMMA]) + [RP])
  {
    hide Tokens, Flat, ParamList, NameList, TokenLists, NameParts, ParamParts, Separated;
    ListParts(names);
    ParamListTokens(|names|);
    ParenthesizedLayout(NameList(names));
    ParenthesizedLayout(ParamList(|names|));
    KeywordText("VALUES");
    ThreeTokens(Parenthesized(NameList(names)), Keyword("VALUES"), Parenthesized(ParamList(|names|)));
  }

  lemma {:induction false} SelectByKeyLexes(table: Text, names: seq<Text>, key: Text)
    requires NulFree(table) && CleanNames(names) && names != [] && NulFree(key)
    ensures Lex(Sql(SelectPieces(table, names, key))) == Some(SelectByKeyTokens(table, names, key))
  {
    hide Tokens, Flat, Lex, Separated, TokenLists, NameParts, Equation;
    NameListPiece(names);
    assert Separated(NameList(names)) && NameList(names) != [] by { assert [NameList(names)][0] == NameList(names); }
    NameListTokens(names);
    var ab := [Keyword("SELECT"), NameList(names)] + [Keyword("FROM"), Identifier(table)];
    var c, d := [Keyword("WHERE"), Equation(key, Param(1))], [Keyword("LIMIT"), [Tok(Num(1))]];
    HeadTokens(NameList(names), table);
    WhereKeyPiece(key, 1);
    QueryAnswers.LimitPieces();
    TokenListsAppend(ab + c, d);
    TokenListsAppend(ab, c);
    LexPieces(ab + c + d);
    Append2([Word("SELECT")] + Join(NameParts(names), [COMMA]) + [Word("FROM"), Name(table)],
            WhereKey(key, 1), [Word("LIMIT")] + [Num(1)]);
  }

  lemma {:induction false} UpdateLexes(table: Text, names: seq<Text>, key: Text)
    requires NulFree(table) && CleanNames(names) && NulFree(key)
    ensures Lex(Sql(UpdatePieces(table, names, key))) == Some(UpdateTokens(table, names, key))
  {
    hide Tokens, Flat, Lex, Separated, TokenLists, SetParts, Assignments, Equation;
    var sets := Join(Assignments(names, key), LISTED);
    SetListTokens(names, key);
    assert Separated(sets) && sets != [] by { assert [sets][0] == sets; }
    var a, b := [Keyword("UPDATE"), Identifier(table)], [Keyword("SET"), sets];
    var c := [Keyword("WHERE"), Equation(key, Param(|names| + 1))];
    NamePiece(table);
    WordPiece("UPDATE", Identifier(table));
    WordPiece("SET", sets);
    WhereKeyPiece(key, |names| + 1);
    TokenListsAppend(a + b, c);
    TokenListsAppend(a, b);
    LexPieces(a + b + c);
    assert [Word("UPDATE")] + [Name(table)] == [Word("UPDATE"), Name(table)];
  }

  lemma {:induction false} DeleteLexes(table: Text, key: Text)
    requires NulFree(table) && NulFree(key)
    ensures Lex(Sql(DeletePieces(table, key))) == Some(DeleteTokens(table, key))
  {
    NamePiece(table);
    assert Separated(Keyword("DELETE")) && Separated(Keyword("FROM"));
    hide Tokens, Flat, Lex, Separated, TokenLists, Equation;
    var a, b := [Keyword("DELETE"), Keyword("FROM"), Identifier(table)], [Keyword("WHERE"), Equation(key, Param(1))];
    KeywordText("DELETE");
    KeywordText("FROM");
    ThreeTokens(a[0], a[1], a[2]);
    WhereKeyPiece(key, 1);
    TokenListsAppend(a, b);
    LexPieces(a + b);
    assert [Word("DELETE")] + [Word("FROM")] + [Name(table)] == [Word("DELETE"), Word("FROM"), Name(table)];
  }

  // -------------------------------------------------------------- numbering

  /** Explicitly numbered parameters keep their numbers. */
  ghost predicate Explicit(ts: seq<Token>) { forall i :: 0 <= i < |ts| ==> ts[i] != MARK }

  lemma {:induction false} NumberExplicit(ts: seq<Token>, k: nat)
    requires Explicit(ts)
    ensures Number(ts, k).0 == ts
  {
    if ts != [] {
      NumberExplicit(ts[1..], CountAfter(ts[0], k));
      assert ts == [ts[0]] + ts[1..];
    }
  }

  lemma {:induction false} CountOne(n: nat, k: nat)
    requires n > 0
    ensures Number([Param(n)], k).1 == if n > k then n else k
  {
    assert [Param(n)][1..] == [];
  }

  lemma {:induction false} CountParams(n: nat)
    ensures Number(Join(ParamParts(n), [COMMA]), 0).1 == n
    ensures Explicit(Join(ParamParts(n), [COMMA]))
  {
    if n > 0 {
      var before := ParamParts(n - 1);
      assert ParamParts(n) == before + [[Param(n)]];
      CountParams(n - 1);
      JoinSnoc(before, [Param(n)], [COMMA]);
      CountOne(n, n - 1);
      if n > 1 {
        var list := Join(before, [COMMA]);
        NumberAppend(list + [COMMA], [Param(n)], 0);
        NumberAppend(list, [COMMA], 0);
        NumberPlain([COMMA], n - 1);
      }
    }
  }

  lemma {:induction false} CountSets(names: seq<Text>, key: Text)
    ensures Number(Join(SetParts(names, key), [COMMA]), 0).1 == |names|
    ensures Explicit(Join(SetParts(names, key), [COMMA]))
    decreases |names|
  {
    hide Number, Join, SetParts, EquationTokens, Explicit;
    if |names| <= 1 {
      CountFirstSet(names, key);
    } else {
      var n := |names|;
      CountSets(names[..n - 1], key);
      CountMoreSets(names, key);
    }
  }

  lemma {:induction false} CountFirstSet(names: seq<Text>, key: Text)
    requires |names| <= 1
    ensures Number(Join(SetParts(names, key), [COMMA]), 0).1 == |names|
    ensures Explicit(Join(SetParts(names, key), [COMMA]))
  {
    var x := SetParts(names, key)[0];
    assert SetParts(names, key) == [x];
    if names == [] { NumberPlain(x, 0); } else { CountEquation(names[0], 1, 0); }
  }

  lemma {:induction false} CountMoreSets(names: seq<Text>, key: Text)
    requires |names| > 1
    requires Number(Join(SetParts(names[..|names| - 1], key), [COMMA]), 0).1 == |names| - 1
    requires Explicit(Join(SetParts(names[..|names| - 1], key), [COMMA]))
    ensures Number(Join(SetParts(names, key), [COMMA]), 0).1 == |names|
    ensures Explicit(Join(SetParts(names, key), [COMMA]))
  {
    hide Number, Join, EquationTokens;
    var n := |names|;
    var before := SetParts(names[..n - 1], key);
    var last := EquationTokens(names[n - 1], Param(n));
    assert SetParts(names, key) == before + [last];
    JoinSnoc(before, last, [COMMA]);
    var list := Join(before, [COMMA]);
    NumberAppend(list + [COMMA], last, 0);
    NumberAppend(list, [COMMA], 0);
    NumberPlain([COMMA], n - 1);
    CountEquation(names[n - 1], n, n - 1);
  }

  lemma {:induction false} CountEquation(column: Text, n: nat, k: nat)
    requires n > 0
    ensures Number(EquationTokens(column, Param(n)), k).1 == if n > k then n else k
    ensures Explicit(EquationTokens(column, Param(n)))
  {
    assert EquationTokens(column, Param(n)) == [Name(column), EQ] + [Param(n)];
    NumberAppend([Name(column), EQ], [Param(n)], k);
    NumberPlain([Name(column), EQ], k);
    CountOne(n, k);
  }

  lemma {:induction false} CountWhereKey(key: Text, n: nat, k: nat)
    requires n > 0
    ensures Number(WhereKey(key, n), k).1 == (if n > k then n else k) && Explicit(WhereKey(key, n))
  {
    NumberAppend([Word("WHERE")], EquationTokens(key, Param(n)), k);
    NumberPlain([Word("WHERE")], k);
    CountEquation(key, n, k);
  }

  lemma {:induction false} NumberInsert(table: Text, names: seq<Text>)
    ensures Number(InsertTokens(table, names), 0) == (InsertTokens(table, names), |names|)
  {
    hide Number;
    var cols, params := Join(NameParts(names), [COMMA]), Join(ParamParts(|names|), [COMMA]);
    var head := [Word("INSERT"), Word("INTO"), Name(table)] + ([LP] + cols + [RP]) + [Word("VALUES"), LP];
    ListsArePlain(names, []);
    CountParams(|names|);
    NumberAround(head, params, [RP], 0);
    NumberExplicit(params, 0);
    assert InsertTokens(table, names) == head + params + [RP];
  }

  lemma {:induction false} NumberSelectByKey(table: Text, names: seq<Text>, key: Text)
    ensures Number(SelectByKeyTokens(table, names, key), 0) == (SelectByKeyTokens(table, names, key), 1)
  {
    hide Number;
    var head := [Word("SELECT")] + Join(NameParts(names), [COMMA]) + [Word("FROM"), Name(table)];
    var tail := [Word("LIMIT")] + [Num(1)];
    ListsArePlain(names, []);
    CountWhereKey(key, 1, 0);
    NumberExplicit(WhereKey(key, 1), 0);
    NumberAround(head, WhereKey(key, 1), tail, 0);
    assert SelectByKeyTokens(table, names, key) == head + WhereKey(key, 1) + tail;
  }

  lemma {:induction false} NumberUpdate(table: Text, names: seq<Text>, key: Text)
    ensures Number(UpdateTokens(table, names, key), 0) == (UpdateTokens(table, names, key), |names| + 1)
  {
    hide Number, WhereKey;
    var n := |names|;
    var sets := Join(SetParts(names, key), [COMMA]);
    var head := [Word("UPDATE"), Name(table), Word("SET")];
    CountSets(names, key);
    CountWhereKey(key, n + 1, n);
    NumberAppend(head + sets, WhereKey(key, n + 1), 0);
    NumberAppend(head, sets, 0);
    NumberPlain(head, 0);
    NumberExplicit(sets, 0);
    NumberExplicit(WhereKey(key, n + 1), n);
    assert UpdateTokens(table, names, key) == head + sets + WhereKey(key, n + 1);
  }

  lemma {:induction false} NumberDelete(table: Text, key: Text)
    ensures Number(DeleteTokens(table, key), 0) == (DeleteTokens(table, key), 1)
  {
    hide Number;
    var head := [Word("DELETE"), Word("FROM"), Name(table)];
    CountWhereKey(key, 1, 0);
    NumberExplicit(WhereKey(key, 1), 0);
    NumberAppend(head, WhereKey(key, 1), 0);
    NumberPlain(head, 0);
  }

  // ---------------------------------------------------------------- parsing

  lemma {:induction false} OperandParses(t: Token, rest: seq<Token>)
    requires IsOperand(t) && Ends(rest)
    ensures ParseOr([t] + rest) == Some((OperandOf(t), rest))
  {
    assert ([t] + rest)[1..] == rest;
    OperandIsTerm([t] + rest, OperandOf(t), rest);
    TermIsExpression([t] + rest, OperandOf(t), rest);
  }

  lemma {:induction false} WhereKeyParses(key: Text, n: nat, rest: seq<Token>)
    requires n > 0 && Ends(rest)
    ensures ParseClause([Word("WHERE")], ParseOr, WhereKey(key, n) + rest) == Some((Some(KeyIs(key, n)), rest))
  {
    hide ParseOr;
    var ts := WhereKey(key, n) + rest;
    assert ts[..1] == [Word("WHERE")];
    assert ts[1..] == [Name(key), Sym(OperatorText(Equal)), Param(n)] + rest;
    ComparisonParses(Name(key), Equal, Param(n), rest);
  }

  lemma {:induction false} ParamReads(n: nat)
    requires n > 0
    ensures Reads(ParseOr, [Param(n)], Bound(n), [RP])
  {
    hide ParseOr;
    forall tail: seq<Token> | tail == [RP] || (tail != [] && tail[0] == COMMA)
      ensures ParseOr([Param(n)] + tail) == Some((Bound(n), tail))
    {
      OperandParses(Param(n), tail);
    }
  }

  lemma {:induction false} ParamsParse(n: nat)
    requires n > 0
    ensures ParseList(ParseOr, Join(ParamParts(n), [COMMA]) + [RP]) == Some((Bounds(n), [RP]))
  {
    hide ParseOr, ParseList, Reads;
    forall i | 0 <= i < n ensures Reads(ParseOr, ParamParts(n)[i], Bounds(n)[i], [RP]) {
      ParamReads(i + 1);
    }
    JoinedListParses(ParseOr, ParamParts(n), Bounds(n), [RP]);
  }

  lemma {:induction false} AssignmentParses(column: Text, operand: Token, tail: seq<Token>)
    requires IsOperand(operand) && Ends(tail)
    ensures ParseAssignment(EquationTokens(column, operand) + tail)
         == Some((Assignment(column, OperandOf(operand)), tail))
  {
    hide ParseOr;
    var ts := EquationTokens(column, operand) + tail;
    assert ts[2..] == [operand] + tail;
    OperandParses(operand, tail);
  }

  lemma {:induction false} SetsParse(names: seq<Text>, key: Text, rest: seq<Token>)
    requires rest != [] && rest[0] == Word("WHERE")
    ensures ParseList(ParseAssignment, Join(SetParts(names, key), [COMMA]) + rest) == Some((Sets(names, key), rest))
  {
    hide ParseAssignment, EquationTokens;
    var parts, sets := SetParts(names, key), Sets(names, key);
    forall i | 0 <= i < |parts| ensures Reads(ParseAssignment, parts[i], sets[i], rest) {
      forall tail: seq<Token> | tail == rest || (tail != [] && tail[0] == COMMA)
        ensures ParseAssignment(parts[i] + tail) == Some((sets[i], tail))
      {
        if names == [] {
          AssignmentParses(key, Name(key), tail);
        } else {
          AssignmentParses(names[i], Param(i + 1), tail);
        }
      }
    }
    JoinedListParses(ParseAssignment, parts, sets, rest);
  }

  lemma {:induction false} InsertParses(table: Text, names: seq<Text>)
    requires names != []
    ensures ParseStatement(InsertTokens(table, names)) == Some(InsertStatement(table, names))
  {
    hide ParseOr, ParseName, ParseList, NameParts, ParamParts;
    var ts := InsertTokens(table, names);
    var cols, params := Join(NameParts(names), [COMMA]), Join(ParamParts(|names|), [COMMA]);
    var mid := [RP, Word("VALUES"), LP] + (params + [RP]);
    assert ts[..2] == [Word("INSERT"), Word("INTO")] && ts[0] != Word("SELECT");
    assert ts[2..][2..] == cols + mid;
    NamesParse(names, mid);
    assert mid[..3] == [RP, Word("VALUES"), LP];
    assert mid[3..] == params + [RP];
    ParamsParse(|names|);
  }

  lemma {:induction false} SelectByKeyParses(table: Text, names: seq<Text>, key: Text)
    requires names != []
    ensures ParseStatement(SelectByKeyTokens(table, names, key)) == Some(SelectStatement(table, names, key))
  {
    hide ParseOr, ParseOrderTerms, ParseStatement, NameParts, WhereKey;
    var tail := [Word("LIMIT")] + [Num(1)];
    var rest := WhereKey(key, 1) + tail;
    NamesProject(names, [Word("FROM"), Name(table)] + rest);
    SelectParses(Columns(names), Join(NameParts(names), [COMMA]), table, rest);
    WhereKeyParses(key, 1, tail);
    QueryAnswers.NoOrderClause(tail);
    LimitParses(1);
    hide ParseClause, ParseProjection;
  }

  lemma {:induction false} UpdateParses(table: Text, names: seq<Text>, key: Text)
    ensures ParseStatement(UpdateTokens(table, names, key)) == Some(UpdateStatement(table, names, key))
  {
    hide ParseOr, ParseAssignment, ParseList, SetParts, ParseClause;
    var ts := UpdateTokens(table, names, key);
    var w := WhereKey(key, |names| + 1);
    assert ts[..1] == [Word("UPDATE")] && ts[0] != Word("SELECT") && ts[0] != Word("INSERT");
    assert ts[1..][2..] == Join(SetParts(names, key), [COMMA]) + w;
    SetsParse(names, key, w);
    WhereKeyParses(key, |names| + 1, []);
    assert w + [] == w;
  }

  lemma {:induction false} DeleteParses(table: Text, key: Text)
    ensures ParseStatement(DeleteTokens(table, key)) == Some(DeleteStatement(table, key))
  {
    hide ParseOr, ParseClause;
    var ts := DeleteTokens(table, key);
    var w := WhereKey(key, 1);
    assert ts[..2] == [Word("DELETE"), Word("FROM")];
    assert ts[0] != Word("SELECT") && ts[0] != Word("INSERT") && ts[0] != Word("UPDATE");
    assert ts[2..][1..] == w;
    WhereKeyParses(key, 1, []);
    assert w + [] == w;
  }

  // ------------------------------------------------------------ preparation

  lemma {:induction false} InsertPrepares(table: Text, fields: seq<FieldSchema>)
    requires NulFree(table) && CleanNames(ColumnNames(fields)) && fields != []
    ensures Prepare(InsertSql(table, fields))
         == Some(Prepared(InsertStatement(table, ColumnNames(fields)), |fields|))
  {
    hide InsertSql, Sql, Lex, Number, ParseStatement, InsertTokens, InsertPieces;
    InsertText(table, fields);
    InsertLexes(table, ColumnNames(fields));
    NumberInsert(table, ColumnNames(fields));
    InsertParses(table, ColumnNames(fields));
  }

  lemma {:induction false} SelectByKeyPrepares(table: Text, fields: seq<FieldSchema>, key: Text)
    requires NulFree(table) && CleanNames(ColumnNames(fields)) && fields != [] && NulFree(key)
    ensures Prepare(SelectSql(table, fields, key))
         == Some(Prepared(SelectStatement(table, ColumnNames(fields), key), 1))
  {
    hide SelectSql, Sql, Lex, Number, ParseStatement, SelectByKeyTokens, SelectPieces;
    SelectByKeyText(table, fields, key);
    SelectByKeyLexes(table, ColumnNames(fields), key);
    NumberSelectByKey(table, ColumnNames(fields), key);
    SelectByKeyParses(table, ColumnNames(fields), key);
  }

  lemma {:induction false} UpdatePrepares(table: Text, fields: seq<FieldSchema>, key: Text)
    requires NulFree(table) && CleanNames(MutableColumns(fields)) && NulFree(key)
    ensures Prepare(UpdateSql(table, fields, key))
         == Some(Prepared(UpdateStatement(table, MutableColumns(fields), key), |MutableColumns(fields)| + 1))
  {
    hide UpdateSql, Sql, Lex, Number, ParseStatement, UpdateTokens, UpdatePieces, MutableColumns;
    UpdateText(table, fields, key);
    UpdateLexes(table, MutableColumns(fields), key);
    NumberUpdate(table, MutableColumns(fields), key);
    UpdateParses(table, MutableColumns(fields), key);
  }

  lemma {:induction false} DeletePrepares(table: Text, key: Text)
    requires NulFree(table) && NulFree(key)
    ensures Prepare(DeleteSql(table, key)) == Some(Prepared(DeleteStatement(table, key), 1))
  {
    hide DeleteSql, Sql, Lex, Number, ParseStatement, DeleteTokens, DeletePieces;
    DeleteText(table, key);
    DeleteLexes(table, key);
    NumberDelete(table, key);
    DeleteParses(table, key);
  }
}
