/** The answer to a typed query is one determined sequence of rows: the matching
    rows, in the total order closed off by the primary key, cut at the limit. */
module QueryAnswers {
  import opened Basics
  import opened SqlText
  import opened SqlSyntax
  import opened SqlEval
  import opened SqlLayout
  import opened Schema
  import opened Predicate
  import opened PredicateMeaning
  import opened QueryCompiler
  import opened QueryMeaning
  import Sorting

  // --------------------------------------------------------- existence text

  function ExistsStatement(s: CollectionSchema, p: Option<Node>): Statement
  {
    Select(Constant(1), s.table, Filter(p), [], Some(Literal(1)))
  }

  lemma {:induction false} ExistsLexes(s: CollectionSchema, p: Option<Node>)
    requires ValidSchema(s) && LegalPredicate(s, p)
    ensures Lex(Sql(ExistsPieces(s, p)))
         == Some(SelectTokens([Num(1)], s.table, WhereTokens(p) + ([Word("LIMIT")] + [Num(1)])))
  {
    hide Tokens, Flat, Lex, WherePieces, WhereTokens, LegalPredicate, ValidSchema, TokenLists, Separated, Spell;
    ValidSchemaNames(s);
    var head := [Keyword("SELECT"), [Tok(Num(1))]] + FromPieces(s);
    var tail := [Keyword("LIMIT"), [Tok(Num(1))]];
    LimitPieces();
    HeadTokens([Tok(Num(1))], s.table);
    WherePiecesFit(s, p);
    PrintOne(Tok(Num(1)));
    TokenListsAppend(head + WherePieces(p), tail);
    TokenListsAppend(head, WherePieces(p));
    LexPieces(head + WherePieces(p) + tail);
    Append2([Word("SELECT")] + [Num(1)] + [Word("FROM"), Name(s.table)], WhereTokens(p), [Word("LIMIT")] + [Num(1)]);
  }

  lemma {:induction false} LimitPieces()
    ensures Separated([Tok(Num(1))]) && Pieces([Keyword("LIMIT"), [Tok(Num(1))]])
    ensures Flat(TokenLists([Keyword("LIMIT"), [Tok(Num(1))]])) == [Word("LIMIT")] + [Num(1)]
  {
    PairTokens(Keyword("LIMIT"), [Tok(Num(1))]);
    PrintOne(Tok(Num(1)));
    KeywordText("LIMIT");
  }

  lemma {:induction false} NumberExists(table: Text, p: Option<Node>)
    ensures Number(SelectTokens([Num(1)], table, WhereTokens(p) + ([Word("LIMIT")] + [Num(1)])), 0)
         == (SelectTokens([Num(1)], table, NumberedWhere(p) + ([Word("LIMIT")] + [Num(1)])), |BoundValues(p)|)
  {
    hide Number, NumberedWhere, WhereTokens, BoundValues;
    var head := [Word("SELECT")] + [Num(1)] + [Word("FROM"), Name(table)];
    var tail := [Word("LIMIT")] + [Num(1)];
    NumberWhere(p);
    NumberAround(head, WhereTokens(p), tail, 0);
    assert SelectTokens([Num(1)], table, WhereTokens(p) + tail) == head + WhereTokens(p) + tail;
    assert SelectTokens([Num(1)], table, NumberedWhere(p) + tail) == head + NumberedWhere(p) + tail;
  }

  lemma {:induction false} ExistsParses(s: CollectionSchema, p: Option<Node>)
    ensures ParseStatement(SelectTokens([Num(1)], s.table, NumberedWhere(p) + ([Word("LIMIT")] + [Num(1)])))
         == Some(ExistsStatement(s, p))
  {
    hide NumberedWhere, Filter, ParseOr, ParseOrderTerms, ParseStatement;
    var tail := [Word("LIMIT")] + [Num(1)];
    var rest := NumberedWhere(p) + tail;
    ConstantProjects([Word("FROM"), Name(s.table)] + rest);
    SelectParses(Constant(1), [Num(1)], s.table, rest);
    FilterParses(p, tail);
    NoOrderClause(tail);
    LimitParses(1);
    hide ParseClause, ParseProjection;
  }

  lemma {:induction false} ConstantProjects(rest: seq<Token>)
    ensures ParseProjection([Num(1)] + rest) == Some((Constant(1), rest))
  {
    assert ([Num(1)] + rest)[1..] == rest;
  }

  lemma {:induction false} NoOrderClause(ts: seq<Token>)
    requires ts != [] && ts[0] != Word("ORDER")
    ensures ParseClause([Word("ORDER"), Word("BY")], ParseOrderTerms, ts) == Some((None, ts))
  {
    assert [Word("ORDER"), Word("BY")][0] == Word("ORDER");
  }

  /** The existence text prepares to a one-row SELECT over the same filter. */
  lemma {:induction false} ExistsPrepares(s: CollectionSchema, p: Option<Node>)
    requires ValidSchema(s) && LegalPredicate(s, p)
    ensures Prepare(Sql(ExistsPieces(s, p))) == Some(Prepared(ExistsStatement(s, p), |BoundValues(p)|))
    ensures ExistsStatement(s, p).table == s.table
  {
    hide Sql, ExistsPieces, Lex, SelectTokens, ParseStatement, BoundValues, Number;
    ExistsLexes(s, p);
    NumberExists(s.table, p);
    ExistsParses(s, p);
  }

  // ------------------------------------------------------------ the meaning

  /** Rows of the collection's table: all columns present, keys distinct. */
  ghost predicate IsTable(s: CollectionSchema, key: FieldSchema, rows: seq<Row>)
  {
    && (forall r, f :: r in rows && f in s.fields ==> f.column in r)
    && (forall a, b :: a in rows && b in rows && key.column in a && key.column in b ==>
          a == b || !SameValue(a[key.column], b[key.column]))
  }

  ghost predicate Matches(p: Option<Node>, row: Row)
  {
    p.None? || (Covers(row, p.value) && Meaning(p.value, row) == True)
  }

  ghost function Chosen(p: Option<Node>, rows: seq<Row>): seq<Row>
  {
    if rows == [] then []
    else (if Matches(p, rows[0]) then [rows[0]] else []) + Chosen(p, rows[1..])
  }

  /** The reference answer, with no SQL in it. */
  ghost function Answer(p: Option<Node>, order: seq<OrderTerm>, limit: nat, rows: seq<Row>): seq<Row>
  {
    var all := Sorting.Sort(RowLess(order), Chosen(p, rows));
    if limit < |all| then all[..limit] else all
  }

  // -------------------------------------------------------- the total order

  ghost predicate InSchema(s: CollectionSchema, column: Text) { exists f :: f in s.fields && f.column == column }

  /** Within a valid schema an ordering field is the schema's own, by id and by column. */
  lemma {:induction false} OrderedFieldKnown(s: CollectionSchema, f: FieldSchema)
    requires ValidSchema(s) && f in s.fields
    ensures NulFree(f.column) && InSchema(s, f.column)
    ensures forall g :: g in s.fields && (g.id == f.id || g.column == f.column) ==> g == f
  {
    var n :| 0 <= n < |s.fields| && s.fields[n] == f;
    assert ValidName(s.fields[n].column);
  }

  /** The emitted ORDER BY: never empty, no column twice, the key among them. */
  lemma {:induction false} FullOrderShape(s: CollectionSchema, order: seq<Ordering>, key: FieldSchema) returns (at: nat)
    requires ValidSchema(s) && LegalOrder(s, order) && FindKey(s.fields) == Some(key)
    ensures var terms := FullOrder(order, key);
            && CleanTerms(terms)
            && at < |terms| && terms[at].column == key.column
            && (forall i, j :: 0 <= i < j < |terms| ==> terms[i].column != terms[j].column)
            && (forall i :: 0 <= i < |terms| ==> InSchema(s, terms[i].column))
  {
    hide ValidSchema;
    var k := ValidSchemaHasKey(s);
    OrderedFieldKnown(s, key);
    forall i | 0 <= i < |order|
      ensures NulFree(order[i].field.column) && InSchema(s, order[i].field.column)
      ensures forall g :: g in s.fields && (g.id == order[i].field.id || g.column == order[i].field.column)
                ==> g == order[i].field
    {
      OrderedFieldKnown(s, order[i].field);
    }
    if key.id in OrderedIds(order) {
      var o :| o in order && o.field.id == key.id;
      at :| 0 <= at < |order| && order[at] == o;
    } else {
      at := |order|;
      assert forall i :: 0 <= i < |order| ==> order[i].field.id in OrderedIds(order);
    }
  }

  /** Ordering by terms that include the key is a strict total order on a table. */
  lemma {:induction false} KeyedOrderIsTotal(
    s: CollectionSchema, key: FieldSchema, terms: seq<OrderTerm>, at: nat, rows: seq<Row>)
    requires IsTable(s, key, rows)
    requires at < |terms| && terms[at].column == key.column
    requires forall i :: 0 <= i < |terms| ==> InSchema(s, terms[i].column)
    ensures Sorting.StrictTotalOn(RowLess(terms), multiset(rows))
  {
    forall r | r in rows ensures HasColumns(terms, r) {
      assert forall i :: 0 <= i < |terms| ==> InSchema(s, terms[i].column);
    }
    forall a, b | a in multiset(rows) && b in multiset(rows)
      ensures a == b || Before(terms, a, b) || Before(terms, b, a)
      ensures !(Before(terms, a, b) && Before(terms, b, a))
    {
      BeforeAsymmetric(terms, a, b);
      if !Before(terms, a, b) && !Before(terms, b, a) {
        UnorderedRowsAgree(terms, a, b, at);
      }
    }
    forall a, b, c | a in multiset(rows) && b in multiset(rows) && c in multiset(rows)
                     && Before(terms, a, b) && Before(terms, b, c)
      ensures Before(terms, a, c)
    {
      BeforeTransitive(terms, a, b, c);
    }
  }

  // ---------------------------------------------------- filter and meaning

  lemma {:induction false} FieldsCover(s: CollectionSchema, p: Node, row: Row)
    requires LegalLeaves(s, p) && forall f :: f in s.fields ==> f.column in row
    ensures Covers(row, p)
  {
    match p
    case Combine(_, l, r) => FieldsCover(s, l, row); FieldsCover(s, r, row);
    case Negate(q) => FieldsCover(s, q, row);
    case _ =>
  }

  lemma {:induction false} FilterKeepsMatches(s: CollectionSchema, p: Option<Node>, row: Row, more: seq<Value>)
    requires LegalPredicate(s, p) && forall f :: f in s.fields ==> f.column in row
    ensures Keeps(Filter(p), row, BoundValues(p) + more) == Matches(p, row)
  {
    if p.Some? {
      var params := Bindings(p.value) + more;
      FieldsCover(s, p.value, row);
      assert params[0..|Bindings(p.value)|] == Bindings(p.value);
      TranslationMeans(s, p.value, 0, row, params);
      TruthRoundTrip(Meaning(p.value, row));
    }
  }

  lemma {:induction false} KeptAreChosen(s: CollectionSchema, key: FieldSchema, p: Option<Node>, rows: seq<Row>, more: seq<Value>)
    requires LegalPredicate(s, p) && IsTable(s, key, rows)
    ensures Kept(Filter(p), rows, BoundValues(p) + more) == Chosen(p, rows)
  {
    hide Matches, Filter, BoundValues, LegalPredicate, Keeps;
    if rows != [] {
      assert rows[0] in rows;
      FilterKeepsMatches(s, p, rows[0], more);
      assert forall r :: r in rows[1..] ==> r in rows;
      assert IsTable(s, key, rows[1..]);
      KeptAreChosen(s, key, p, rows[1..], more);
    }
  }

  lemma {:induction false} ChosenAmongRows(p: Option<Node>, rows: seq<Row>)
    ensures multiset(Chosen(p, rows)) <= multiset(rows)
    ensures Chosen(p, rows) == [] <==> forall r :: r in rows ==> !Matches(p, r)
  {
    if rows != [] {
      assert rows == [rows[0]] + rows[1..];
      ChosenAmongRows(p, rows[1..]);
    }
  }

  // ------------------------------------------------------------ main results

  /** What the engine may return for the compiled query is exactly the reference answer. */
  lemma {:induction false} QueryAnswered(
    s: CollectionSchema, p: Option<Node>, order: seq<Ordering>, key: FieldSchema, limit: nat,
    rows: seq<Row>, out: seq<Row>)
    requires ValidSchema(s) && LegalPredicate(s, p) && LegalOrder(s, order) && FindKey(s.fields) == Some(key)
    requires IsTable(s, key, rows)
    ensures MayReturn(QueryStatement(s, p, FullOrder(order, key)), rows, BoundValues(p) + [Integer(limit)], out)
       <==> out == Answer(p, FullOrder(order, key), limit, rows)
  {
    hide ValidSchema, LegalPredicate, LegalOrder, IsTable, FullOrder, FindKey, Kept, Chosen, Filter, BoundValues,
         MayReturn, CleanTerms, InSchema, Matches, Sorting.StrictTotalOn;
    var terms := FullOrder(order, key);
    var at := FullOrderShape(s, order, key);
    KeptAreChosen(s, key, p, rows, [Integer(limit)]);
    KeyedOrderIsTotal(s, key, terms, at, rows);
    ChosenAmongRows(p, rows);
    Sorting.StrictTotalOnPart(RowLess(terms), multiset(rows), multiset(Chosen(p, rows)));
    SortedCut(QueryStatement(s, p, terms), rows, BoundValues(p), limit, Chosen(p, rows), out);
  }

  lemma {:induction false} SortedCut(q: Statement, rows: seq<Row>, bound: seq<Value>, limit: nat, kept: seq<Row>, out: seq<Row>)
    requires q.Select? && q.limit == Some(Bound(|bound| + 1))
    requires kept == Kept(q.filter, rows, bound + [Integer(limit)])
    requires Sorting.StrictTotalOn(RowLess(q.order), multiset(kept))
    ensures MayReturn(q, rows, bound + [Integer(limit)], out)
       <==> var all := Sorting.Sort(RowLess(q.order), kept); out == if limit < |all| then all[..limit] else all
  {
    hide Kept, Sorting.StrictTotalOn, Sorting.Sorted, Sorting.Sort;
    var params := bound + [Integer(limit)];
    var less := RowLess(q.order);
    var all := Sorting.Sort(less, kept);
    Sorting.SortSorts(less, kept);
    assert params[|bound|] == Integer(limit);
    forall sorted: seq<Row> | multiset(sorted) == multiset(kept) && Sorting.Sorted(less, sorted) ensures sorted == all {
      Sorting.SortedIsUnique(less, sorted, all);
    }
    assert all == all[..|all|];
  }

  /** The reference answer does not depend on how the table is stored. */
  lemma {:induction false} AnswerForgetsStorage(
    s: CollectionSchema, p: Option<Node>, order: seq<Ordering>, key: FieldSchema, limit: nat,
    rows: seq<Row>, other: seq<Row>)
    requires ValidSchema(s) && LegalOrder(s, order) && FindKey(s.fields) == Some(key)
    requires IsTable(s, key, rows) && multiset(rows) == multiset(other)
    ensures Answer(p, FullOrder(order, key), limit, rows) == Answer(p, FullOrder(order, key), limit, other)
  {
    hide ValidSchema, LegalOrder, IsTable, FullOrder, Chosen, Sorting.StrictTotalOn, Sorting.Sort;
    var terms := FullOrder(order, key);
    var at := FullOrderShape(s, order, key);
    KeyedOrderIsTotal(s, key, terms, at, rows);
    ChosenAmongRows(p, rows);
    ChosenForgetsOrder(p, rows, other);
    Sorting.StrictTotalOnPart(RowLess(terms), multiset(rows), multiset(Chosen(p, rows)));
    Sorting.SortForgetsOrder(RowLess(terms), Chosen(p, rows), Chosen(p, other));
  }

  lemma {:induction false} ChosenCounts(p: Option<Node>, rows: seq<Row>, r: Row)
    ensures multiset(Chosen(p, rows))[r] == if Matches(p, r) then multiset(rows)[r] else 0
  {
    hide Matches, Chosen;
    ChosenCons(p, rows);
    if rows != [] {
      ChosenCounts(p, rows[1..], r);
      ConsCount(rows[0], rows[1..], r);
      ConsCount(rows[0], Chosen(p, rows[1..]), r);
    }
  }

  lemma {:induction false} ChosenCons(p: Option<Node>, rows: seq<Row>)
    ensures rows == [] ==> Chosen(p, rows) == []
    ensures rows != [] ==>
              && rows == [rows[0]] + rows[1..]
              && Chosen(p, rows)
                 == if Matches(p, rows[0]) then [rows[0]] + Chosen(p, rows[1..]) else Chosen(p, rows[1..])
  {
    hide Matches;
    if rows != [] {
      assert [] + Chosen(p, rows[1..]) == Chosen(p, rows[1..]);
    }
  }

  lemma {:induction false} ConsCount<X>(x: X, s: seq<X>, r: X)
    ensures multiset([x] + s)[r] == multiset(s)[r] + if x == r then 1 else 0
  {}

  lemma {:induction false} ChosenForgetsOrder(p: Option<Node>, a: seq<Row>, b: seq<Row>)
    requires multiset(a) == multiset(b)
    ensures multiset(Chosen(p, a)) == multiset(Chosen(p, b))
  {
    forall r ensures multiset(Chosen(p, a))[r] == multiset(Chosen(p, b))[r] {
      ChosenCounts(p, a, r);
      ChosenCounts(p, b, r);
    }
  }

  /** `exists` reports a row exactly when some row matches the predicate. */
  lemma {:induction false} ExistsAnswered(s: CollectionSchema, p: Option<Node>, key: FieldSchema, rows: seq<Row>, out: seq<Row>)
    requires LegalPredicate(s, p) && IsTable(s, key, rows)
    requires MayReturn(ExistsStatement(s, p), rows, BoundValues(p), out)
    ensures out != [] <==> exists r :: r in rows && Matches(p, r)
  {
    hide LegalPredicate, IsTable, Kept, Chosen, Filter, BoundValues, MayReturn, Matches;
    KeptAreChosen(s, key, p, rows, []);
    assert BoundValues(p) + [] == BoundValues(p);
    ChosenAmongRows(p, rows);
    FirstRow(ExistsStatement(s, p), rows, BoundValues(p), out);
  }

  lemma {:induction false} FirstRow(q: Statement, rows: seq<Row>, params: seq<Value>, out: seq<Row>)
    requires q.Select? && q.limit == Some(Literal(1)) && MayReturn(q, rows, params, out)
    ensures out == [] <==> Kept(q.filter, rows, params) == []
  {
    hide Kept;
    var kept := Kept(q.filter, rows, params);
    var sorted: seq<Row> :|
      && multiset(sorted) == multiset(kept)
      && TakeCount(q.limit, params, |sorted|).Some?
      && out == sorted[..TakeCount(q.limit, params, |sorted|).value];
    Sorting.SameLength(sorted, kept);
  }

  /** `exists` agrees with `take` at every valid limit. */
  lemma {:induction false} ExistsAgreesWithTake(
    s: CollectionSchema, p: Option<Node>, order: seq<Ordering>, key: FieldSchema, limit: nat,
    rows: seq<Row>, found: seq<Row>, taken: seq<Row>)
    requires ValidSchema(s) && LegalPredicate(s, p) && LegalOrder(s, order) && FindKey(s.fields) == Some(key)
    requires IsTable(s, key, rows) && limit > 0
    requires MayReturn(ExistsStatement(s, p), rows, BoundValues(p), found)
    requires MayReturn(QueryStatement(s, p, FullOrder(order, key)), rows, BoundValues(p) + [Integer(limit)], taken)
    ensures found != [] <==> taken != []
  {
    hide ValidSchema, LegalPredicate, LegalOrder, IsTable, FullOrder, Chosen, MayReturn, Matches,
         Sorting.StrictTotalOn, Sorting.Sort;
    ExistsAnswered(s, p, key, rows, found);
    QueryAnswered(s, p, order, key, limit, rows, taken);
    ChosenAmongRows(p, rows);
    var at := FullOrderShape(s, order, key);
    KeyedOrderIsTotal(s, key, FullOrder(order, key), at, rows);
    Sorting.StrictTotalOnPart(RowLess(FullOrder(order, key)), multiset(rows), multiset(Chosen(p, rows)));
    Sorting.SortSorts(RowLess(FullOrder(order, key)), Chosen(p, rows));
    Sorting.SameLength(Sorting.Sort(RowLess(FullOrder(order, key)), Chosen(p, rows)), Chosen(p, rows));
  }

  /** End to end: the text and values `CompileQuery` returns prepare without
      error, bind without a count mismatch, and on every table return exactly
      the reference answer. */
  lemma {:induction false} CompiledQueryRuns(s: CollectionSchema, p: Option<Node>, order: seq<Ordering>, limit: nat, q: Query)
    requires ValidSchema(s) && LegalPredicate(s, p) && LegalOrder(s, order) && FindKey(s.fields).Some?
    requires q.sql == Sql(QueryPieces(s, p, FullOrder(order, FindKey(s.fields).value)))
    requires q.values == BoundValues(p) + [Integer(limit)]
    ensures var key := FindKey(s.fields).value;
            var prepared := Prepare(q.sql);
            && prepared.Some? && prepared.value.statement.Select?
            && prepared.value.parameterCount == |q.values|
            && forall rows, out :: IsTable(s, key, rows) ==>
                 (MayReturn(prepared.value.statement, rows, q.values, out)
                  <==> out == Answer(p, FullOrder(order, key), limit, rows))
  {
    hide ValidSchema, LegalPredicate, LegalOrder, FullOrder, FindKey, QueryPieces, Sql, Prepare, BoundValues,
         IsTable, MayReturn, Answer, CleanTerms, InSchema, Filter;
    var key := FindKey(s.fields).value;
    var terms := FullOrder(order, key);
    var at := FullOrderShape(s, order, key);
    QueryPrepares(s, p, terms);
    forall rows, out | IsTable(s, key, rows)
      ensures MayReturn(QueryStatement(s, p, terms), rows, q.values, out) <==> out == Answer(p, terms, limit, rows)
    {
      QueryAnswered(s, p, order, key, limit, rows, out);
    }
  }
}
