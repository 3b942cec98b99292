/** What a compiled query asks the engine: preparing its text yields one known
    SELECT whose parameters are exactly the compiled values. */
module QueryMeaning {
  import opened Basics
  import opened SqlText
  import opened SqlSyntax
  import opened SqlEval
  import opened SqlLayout
  import opened Schema
  import opened Predicate
  import opened PredicateMeaning
  import opened QueryCompiler

  function TermParts(terms: seq<OrderTerm>): seq<seq<Token>>
  {
    seq(|terms|, i requires 0 <= i < |terms| =>
      [Name(terms[i].column), Word(DirectionWord(terms[i].descending))])
  }

  function WhereTokens(p: Option<Node>): seq<Token>
  {
    if p.None? then [] else [Word("WHERE")] + Tokens(Items(p.value))
  }

  function NumberedWhere(p: Option<Node>): seq<Token>
  {
    if p.None? then [] else [Word("WHERE")] + Numbered(p.value, 0)
  }

  function Filter(p: Option<Node>): Option<Expr>
  {
    if p.None? then None else Some(Translate(p.value, 0))
  }

  // ------------------------------------------------------------- tokenizing

  lemma {:induction false} NameListTokens(names: seq<Text>)
    ensures Tokens(Join(NameItems(names), LISTED)) == Join(NameParts(names), [COMMA])
  {
    LayoutOfJoin(NameItems(names), LISTED);
    ListedLayout();
    forall i | 0 <= i < |names| ensures Tokens(Identifier(names[i])) == [Name(names[i])] {
      PrintOne(Tok(Name(names[i])));
    }
    assert TokenLists(NameItems(names)) == NameParts(names);
  }

  lemma {:induction false} OrderItemTokens(t: OrderTerm)
    ensures Tokens(OrderItems(t)) == [Name(t.column), Word(DirectionWord(t.descending))]
  {
    hide Tokens;
    var w := Word(DirectionWord(t.descending));
    assert OrderItems(t) == [Tok(Name(t.column))] + [Space, Tok(w)];
    PrintAppend([Tok(Name(t.column))], [Space, Tok(w)]);
    PrintSpaced(w);
    PrintOne(Tok(Name(t.column)));
  }

  lemma {:induction false} OrderListTokens(terms: seq<OrderTerm>)
    ensures Tokens(Join(OrderLists(terms), LISTED)) == Join(TermParts(terms), [COMMA])
  {
    hide Tokens;
    LayoutOfJoin(OrderLists(terms), LISTED);
    ListedLayout();
    forall i | 0 <= i < |terms| ensures TokenLists(OrderLists(terms))[i] == TermParts(terms)[i] {
      OrderItemTokens(terms[i]);
    }
    assert TokenLists(OrderLists(terms)) == TermParts(terms);
  }

  ghost predicate Pieces(parts: seq<seq<Item>>)
  {
    forall i :: 0 <= i < |parts| ==> Separated(parts[i]) && parts[i] != []
  }

  ghost predicate CleanNames(names: seq<Text>)
  {
    forall i :: 0 <= i < |names| ==> NulFree(names[i])
  }

  lemma {:induction false} NameListPiece(names: seq<Text>)
    requires CleanNames(names) && names != []
    ensures Pieces([Join(NameItems(names), LISTED)])
  {
    JoinSeparated(NameItems(names), LISTED);
  }

  lemma {:induction false} OrderListPiece(terms: seq<OrderTerm>)
    requires terms != [] && forall i :: 0 <= i < |terms| ==> NulFree(terms[i].column)
    ensures Pieces([Join(OrderLists(terms), LISTED)])
  {
    JoinSeparated(OrderLists(terms), LISTED);
  }

  lemma {:induction false} WherePiecesFit(s: CollectionSchema, p: Option<Node>)
    requires ValidSchema(s) && LegalPredicate(s, p)
    ensures Pieces(WherePieces(p))
    ensures Flat(TokenLists(WherePieces(p))) == WhereTokens(p)
  {
    if p.Some? {
      LegalNamesNulFree(s, p.value);
      ItemsSeparated(p.value);
      assert Separated(Keyword("WHERE"));
      KeywordText("WHERE");
      PairTokens(Keyword("WHERE"), Items(p.value));
    }
  }

  lemma {:induction false} PairTokens(x: seq<Item>, y: seq<Item>)
    ensures Flat(TokenLists([x])) == Tokens(x)
    ensures Flat(TokenLists([x, y])) == Tokens(x) + Tokens(y)
  {
    assert TokenLists([x]) == [Tokens(x)];
    assert TokenLists([x, y]) == [Tokens(x)] + [Tokens(y)];
    FlatAppend([Tokens(x)], [Tokens(y)]);
  }

  lemma {:induction false} TokenListsAppend(a: seq<seq<Item>>, b: seq<seq<Item>>)
    ensures Flat(TokenLists(a + b)) == Flat(TokenLists(a)) + Flat(TokenLists(b))
  {
    assert TokenLists(a + b) == TokenLists(a) + TokenLists(b);
    FlatAppend(TokenLists(a), TokenLists(b));
  }

  lemma {:induction false} HeadTokens(projected: seq<Item>, table: Text)
    requires Separated(projected) && projected != [] && NulFree(table)
    ensures Pieces([Keyword("SELECT"), projected] + [Keyword("FROM"), Identifier(table)])
    ensures Flat(TokenLists([Keyword("SELECT"), projected] + [Keyword("FROM"), Identifier(table)]))
         == [Word("SELECT")] + Tokens(projected) + [Word("FROM"), Name(table)]
  {
    hide Tokens, Flat;
    TokenListsAppend([Keyword("SELECT"), projected], [Keyword("FROM"), Identifier(table)]);
    PairTokens(Keyword("SELECT"), projected);
    PairTokens(Keyword("FROM"), Identifier(table));
    KeywordText("SELECT");
    KeywordText("FROM");
    PrintOne(Tok(Name(table)));
    assert Separated(Keyword("SELECT")) && Separated(Keyword("FROM")) && Separated(Identifier(table));
  }

  lemma {:induction false} FiveTokens(a: seq<Item>, b: seq<Item>, c: seq<Item>, d: seq<Item>, e: seq<Item>)
    ensures Flat(TokenLists([a, b, c, d, e])) == Tokens(a) + Tokens(b) + Tokens(c) + (Tokens(d) + Tokens(e))
  {
    hide Tokens, Flat;
    assert [a, b, c, d, e] == [a, b] + [c] + [d, e];
    TokenListsAppend([a, b] + [c], [d, e]);
    TokenListsAppend([a, b], [c]);
    PairTokens(a, b);
    PairTokens(c, c);
    PairTokens(d, e);
  }

  lemma {:induction false} TailTokens(terms: seq<OrderTerm>)
    requires terms != [] && forall i :: 0 <= i < |terms| ==> NulFree(terms[i].column)
    ensures var tail := [Keyword("ORDER"), Keyword("BY"), Join(OrderLists(terms), LISTED), Keyword("LIMIT"), [Tok(MARK)]];
            && Pieces(tail)
            && Flat(TokenLists(tail))
               == [Word("ORDER"), Word("BY")] + Join(TermParts(terms), [COMMA]) + ([Word("LIMIT")] + [MARK])
  {
    hide Tokens, Flat, OrderLists, TermParts;
    var list := Join(OrderLists(terms), LISTED);
    OrderListPiece(terms);
    FiveTokens(Keyword("ORDER"), Keyword("BY"), list, Keyword("LIMIT"), [Tok(MARK)]);
    KeywordText("ORDER");
    KeywordText("BY");
    KeywordText("LIMIT");
    PrintOne(Tok(MARK));
    OrderListTokens(terms);
    assert [Word("ORDER")] + [Word("BY")] == [Word("ORDER"), Word("BY")];
    assert Separated(list) && list != [] by { assert [list][0] == list; }
  }

  /** The tokens of the whole query text, parameters still unnumbered. */
  function QueryTokens(s: CollectionSchema, p: Option<Node>, terms: seq<OrderTerm>): seq<Token>
  {
    [Word("SELECT")] + Join(NameParts(ColumnNames(s.fields)), [COMMA]) + [Word("FROM"), Name(s.table)]
    + WhereTokens(p)
    + ([Word("ORDER"), Word("BY")] + Join(TermParts(terms), [COMMA]) + ([Word("LIMIT")] + [MARK]))
  }

  ghost predicate CleanTerms(terms: seq<OrderTerm>)
  {
    terms != [] && forall i :: 0 <= i < |terms| ==> NulFree(terms[i].column)
  }

  lemma {:induction false} ValidSchemaNames(s: CollectionSchema)
    requires ValidSchema(s)
    ensures NulFree(s.table) && s.fields != [] && CleanNames(ColumnNames(s.fields))
  {}

  lemma {:induction false} QueryLexes(s: CollectionSchema, p: Option<Node>, terms: seq<OrderTerm>)
    requires ValidSchema(s) && LegalPredicate(s, p) && CleanTerms(terms)
    ensures Lex(Sql(QueryPieces(s, p, terms))) == Some(QueryTokens(s, p, terms))
  {
    hide Tokens, Flat, Lex, OrderLists, TermParts, NameItems, WherePieces, WhereTokens, LegalPredicate, ValidSchema, TokenLists;
    ValidSchemaNames(s);
    var projected := Join(NameItems(ColumnNames(s.fields)), LISTED);
    NameListPiece(ColumnNames(s.fields));
    assert Separated(projected) && projected != [] by { assert [projected][0] == projected; }
    NameListTokens(ColumnNames(s.fields));
    HeadTokens(projected, s.table);
    WherePiecesFit(s, p);
    TailTokens(terms);
    var head := [Keyword("SELECT"), projected] + FromPieces(s);
    var tail := [Keyword("ORDER"), Keyword("BY"), Join(OrderLists(terms), LISTED), Keyword("LIMIT"), [Tok(MARK)]];
    TokenListsAppend(head + WherePieces(p), tail);
    TokenListsAppend(head, WherePieces(p));
    LexPieces(head + WherePieces(p) + tail);
  }

  // -------------------------------------------------------------- numbering

  lemma {:induction false} ListsArePlain(names: seq<Text>, terms: seq<OrderTerm>)
    ensures Plain(Join(NameParts(names), [COMMA]))
    ensures Plain(Join(TermParts(terms), [COMMA]))
  {
    JoinPlain(NameParts(names));
    JoinPlain(TermParts(terms));
  }

  lemma {:induction false} NumberWhere(p: Option<Node>)
    ensures Number(WhereTokens(p), 0) == (NumberedWhere(p), |BoundValues(p)|)
  {
    if p.Some? {
      hide Items, Tokens, Bindings, Numbered;
      NumberItems(p.value, 0);
      NumberAppend([Word("WHERE")], Tokens(Items(p.value)), 0);
      NumberPlain([Word("WHERE")], 0);
    }
  }

  function SelectTokens(projected: seq<Token>, table: Text, rest: seq<Token>): seq<Token>
  {
    [Word("SELECT")] + projected + [Word("FROM"), Name(table)] + rest
  }

  function OrderTokens(terms: seq<OrderTerm>, mark: Token): seq<Token>
  {
    [Word("ORDER"), Word("BY")] + Join(TermParts(terms), [COMMA]) + ([Word("LIMIT")] + [mark])
  }

  function NumberedQuery(s: CollectionSchema, p: Option<Node>, terms: seq<OrderTerm>): seq<Token>
  {
    SelectTokens(Join(NameParts(ColumnNames(s.fields)), [COMMA]), s.table,
                 NumberedWhere(p) + OrderTokens(terms, Param(|BoundValues(p)| + 1)))
  }

  lemma {:induction false} NumberQuery(s: CollectionSchema, p: Option<Node>, terms: seq<OrderTerm>)
    ensures Number(QueryTokens(s, p, terms), 0) == (NumberedQuery(s, p, terms), |BoundValues(p)| + 1)
  {
    hide Number, NumberedWhere, WhereTokens, BoundValues;
    var n := |BoundValues(p)|;
    var names := Join(NameParts(ColumnNames(s.fields)), [COMMA]);
    var order := Join(TermParts(terms), [COMMA]);
    var head := [Word("SELECT")] + names + [Word("FROM"), Name(s.table)];
    var mid := [Word("ORDER"), Word("BY")] + order + [Word("LIMIT")];
    ListsArePlain(ColumnNames(s.fields), terms);
    assert QueryTokens(s, p, terms) == head + (WhereTokens(p) + (mid + [MARK]));
    NumberAppend(head, WhereTokens(p) + (mid + [MARK]), 0);
    NumberPlain(head, 0);
    NumberAppend(WhereTokens(p), mid + [MARK], 0);
    NumberWhere(p);
    NumberAppend(mid, [MARK], n);
    NumberPlain(mid, n);
    NumberMark(n);
    assert NumberedQuery(s, p, terms) == head + (NumberedWhere(p) + (mid + [Param(n + 1)]));
  }

  // ---------------------------------------------------------------- parsing

  lemma {:induction false} TermsParse(terms: seq<OrderTerm>, rest: seq<Token>)
    requires terms != [] && (rest == [] || rest[0] != COMMA)
    ensures ParseOrderTerms(Join(TermParts(terms), [COMMA]) + rest) == Some((terms, rest))
  {
    forall i | 0 <= i < |terms| ensures Reads(ParseOrderTerm, TermParts(terms)[i], terms[i], rest) {
      forall tail: seq<Token> ensures ParseOrderTerm(TermParts(terms)[i] + tail) == Some((terms[i], tail)) {
        assert (TermParts(terms)[i] + tail)[2..] == tail;
      }
    }
    JoinedListParses(ParseOrderTerm, TermParts(terms), terms, rest);
  }

  lemma {:induction false} FilterParses(p: Option<Node>, rest: seq<Token>)
    requires rest != [] && Ends(rest) && rest[0] != Word("WHERE")
    ensures ParseClause([Word("WHERE")], ParseOr, NumberedWhere(p) + rest) == Some((Filter(p), rest))
  {
    hide Numbered, Translate, ParseOr, ParseNot, ParsePrimary;
    var ts := NumberedWhere(p) + rest;
    if p.Some? {
      var e := Translate(p.value, 0);
      NumberedParses(p.value, 0, rest);
      OperandIsTerm(Numbered(p.value, 0) + rest, e, rest);
      TermIsExpression(Numbered(p.value, 0) + rest, e, rest);
      assert ts[1..] == Numbered(p.value, 0) + rest;
      assert ts[..1] == [Word("WHERE")];
    } else {
      assert ts == rest;
    }
  }

  lemma {:induction false} LimitParses(n: nat)
    requires n > 0
    ensures ParseClause([Word("LIMIT")], ParseOr, [Word("LIMIT")] + [Param(n)]) == Some((Some(Bound(n)), []))
    ensures ParseClause([Word("LIMIT")], ParseOr, [Word("LIMIT")] + [Num(n)]) == Some((Some(Literal(n)), []))
  {
    assert ParsePrimary([Param(n)]) == Some((Bound(n), []));
    OperandIsTerm([Param(n)], Bound(n), []);
    TermIsExpression([Param(n)], Bound(n), []);
    assert ParsePrimary([Num(n)]) == Some((Literal(n), []));
    OperandIsTerm([Num(n)], Literal(n), []);
    TermIsExpression([Num(n)], Literal(n), []);
    assert ([Word("LIMIT")] + [Param(n)])[1..] == [Param(n)];
    assert ([Word("LIMIT")] + [Num(n)])[1..] == [Num(n)];
  }

  lemma {:induction false} OrderClauseParses(terms: seq<OrderTerm>, n: nat)
    requires terms != []
    ensures ParseClause([Word("ORDER"), Word("BY")], ParseOrderTerms, OrderTokens(terms, Param(n)))
         == Some((Some(terms), [Word("LIMIT")] + [Param(n)]))
  {
    hide TermParts, ParseOrderTerms;
    var rest := [Word("LIMIT")] + [Param(n)];
    var ts := OrderTokens(terms, Param(n));
    TermsParse(terms, rest);
    assert ts[2..] == Join(TermParts(terms), [COMMA]) + rest;
    assert ts[..2] == [Word("ORDER"), Word("BY")];
  }

  /** Everything after the table name, for a query that orders. */
  lemma {:induction false} QueryTailParses(projection: Projection, table: Text, p: Option<Node>, terms: seq<OrderTerm>, n: nat)
    requires terms != [] && n > 0
    ensures ParseSelectTail(projection, table, NumberedWhere(p) + OrderTokens(terms, Param(n)))
         == Some(Select(projection, table, Filter(p), terms, Some(Bound(n))))
  {
    hide NumberedWhere, Filter, ParseOr, ParseOrderTerms;
    FilterParses(p, OrderTokens(terms, Param(n)));
    OrderClauseParses(terms, n);
    LimitParses(n);
    hide ParseClause;
  }

  lemma {:induction false} SelectParses(projection: Projection, projected: seq<Token>, table: Text, rest: seq<Token>)
    requires ParseProjection(projected + ([Word("FROM"), Name(table)] + rest))
          == Some((projection, [Word("FROM"), Name(table)] + rest))
    ensures ParseStatement(SelectTokens(projected, table, rest)) == ParseSelectTail(projection, table, rest)
  {
    hide ParseProjection, ParseSelectTail;
    var ts := SelectTokens(projected, table, rest);
    var from := [Word("FROM"), Name(table)] + rest;
    assert ts[..1] == [Word("SELECT")];
    assert ts[1..] == projected + from;
    assert from[2..] == rest;
  }

  lemma {:induction false} NamesProject(names: seq<Text>, rest: seq<Token>)
    requires names != [] && rest != [] && rest[0] != COMMA
    ensures ParseProjection(Join(NameParts(names), [COMMA]) + rest) == Some((Columns(names), rest))
  {
    NamesParse(names, rest);
    assert NameParts(names)[0] == [Name(names[0])];
    assert Join(NameParts(names), [COMMA])[0] == Name(names[0]);
  }

  function QueryStatement(s: CollectionSchema, p: Option<Node>, terms: seq<OrderTerm>): Statement
  {
    Select(Columns(ColumnNames(s.fields)), s.table, Filter(p), terms, Some(Bound(|BoundValues(p)| + 1)))
  }

  lemma {:induction false} QueryParses(s: CollectionSchema, p: Option<Node>, terms: seq<OrderTerm>)
    requires s.fields != [] && terms != []
    ensures ParseStatement(NumberedQuery(s, p, terms)) == Some(QueryStatement(s, p, terms))
  {
    hide NumberedWhere, OrderTokens, ParseStatement, ParseSelectTail, ParseProjection, Filter, BoundValues;
    var names := ColumnNames(s.fields);
    var n := |BoundValues(p)| + 1;
    var rest := NumberedWhere(p) + OrderTokens(terms, Param(n));
    NamesProject(names, [Word("FROM"), Name(s.table)] + rest);
    SelectParses(Columns(names), Join(NameParts(names), [COMMA]), s.table, rest);
    QueryTailParses(Columns(names), s.table, p, terms, n);
  }

  /** The compiled query prepares to exactly one SELECT, with exactly as many
      parameters as the query carries values. */
  lemma {:induction false} QueryPrepares(s: CollectionSchema, p: Option<Node>, terms: seq<OrderTerm>)
    requires ValidSchema(s) && LegalPredicate(s, p) && CleanTerms(terms)
    ensures Prepare(Sql(QueryPieces(s, p, terms)))
         == Some(Prepared(QueryStatement(s, p, terms), |BoundValues(p)| + 1))
  {
    hide Sql, QueryPieces, Lex, QueryTokens, NumberedQuery, ParseStatement, BoundValues, Number;
    ValidSchemaNames(s);
    QueryLexes(s, p, terms);
    NumberQuery(s, p, terms);
    QueryParses(s, p, terms);
  }
}
