/** `compile_query` and `compile_exists_query`: from a validated schema, an
    optional predicate and ordering terms to one SELECT text and its values. */
module QueryCompiler {
  import opened Basics
  import opened SqlText
  import opened SqlSyntax
  import opened SqlEval
  import opened SqlLayout
  import opened Schema
  import opened Predicate

  const MAX_QUERY_LIMIT: nat := 10_000
  const MAX_QUERY_ORDER_FIELDS: nat := 8

  datatype Ordering = Ordering(field: FieldSchema, descending: bool)

  datatype Query = Query(sql: Text, values: seq<Value>)

  // ------------------------------------------------------------- the pieces

  function ColumnNames(fields: seq<FieldSchema>): (names: seq<Text>)
    ensures |names| == |fields| && forall i :: 0 <= i < |fields| ==> names[i] == fields[i].column
  {
    seq(|fields|, i requires 0 <= i < |fields| => fields[i].column)
  }

  function NameItems(names: seq<Text>): seq<seq<Item>>
  {
    seq(|names|, i requires 0 <= i < |names| => Identifier(names[i]))
  }

  function DirectionWord(descending: bool): Text { if descending then "DESC" else "ASC" }

  function OrderItems(t: OrderTerm): seq<Item>
  {
    [Tok(Name(t.column)), Space, Tok(Word(DirectionWord(t.descending)))]
  }

  function OrderLists(terms: seq<OrderTerm>): seq<seq<Item>>
  {
    seq(|terms|, i requires 0 <= i < |terms| => OrderItems(terms[i]))
  }

  function Terms(order: seq<Ordering>): (ts: seq<OrderTerm>)
    ensures |ts| == |order|
  {
    seq(|order|, i requires 0 <= i < |order| => OrderTerm(order[i].field.column, order[i].descending))
  }

  function OrderedIds(order: seq<Ordering>): set<Text> { set o | o in order :: o.field.id }

  function FindKey(fields: seq<FieldSchema>): Option<FieldSchema>
  {
    if fields == [] then None
    else if fields[0].primaryKey then Some(fields[0])
    else FindKey(fields[1..])
  }

  /** The caller's terms, closed off by the primary key unless it is among them. */
  function FullOrder(order: seq<Ordering>, key: FieldSchema): seq<OrderTerm>
  {
    Terms(order) + if key.id in OrderedIds(order) then [] else [OrderTerm(key.column, false)]
  }

  function FromPieces(s: CollectionSchema): seq<seq<Item>> { [Keyword("FROM"), Identifier(s.table)] }

  function WherePieces(p: Option<Node>): seq<seq<Item>>
  {
    if p.None? then [] else [Keyword("WHERE"), Items(p.value)]
  }

  function QueryPieces(s: CollectionSchema, p: Option<Node>, terms: seq<OrderTerm>): seq<seq<Item>>
  {
    [Keyword("SELECT"), Join(NameItems(ColumnNames(s.fields)), LISTED)] + FromPieces(s) + WherePieces(p)
    + [Keyword("ORDER"), Keyword("BY"), Join(OrderLists(terms), LISTED), Keyword("LIMIT"), [Tok(MARK)]]
  }

  function ExistsPieces(s: CollectionSchema, p: Option<Node>): seq<seq<Item>>
  {
    [Keyword("SELECT"), [Tok(Num(1))]] + FromPieces(s) + WherePieces(p) + [Keyword("LIMIT"), [Tok(Num(1))]]
  }

  function Sql(pieces: seq<seq<Item>>): Text { Join(Texts(pieces), " ") }

  // --------------------------------------------------------- text of pieces

  lemma {:induction false} SqlAppend(a: seq<seq<Item>>, b: seq<seq<Item>>)
    requires a != [] && b != []
    ensures Sql(a + b) == Sql(a) + " " + Sql(b)
  {
    assert Texts(a + b) == Texts(a) + Texts(b);
    JoinAppend(Texts(a), Texts(b), " ");
  }

  lemma {:induction false} SqlPair(x: seq<Item>, y: seq<Item>)
    ensures Sql([x]) == Print(x)
    ensures Sql([x, y]) == Print(x) + " " + Print(y)
  {
    hide Print;
    assert Texts([x]) == [Print(x)] && Texts([x, y]) == [Print(x), Print(y)];
    assert [Print(x), Print(y)][1..] == [Print(y)];
    assert Join([Print(y)], " ") == Print(y);
  }

  lemma {:induction false} KeywordText(w: Text)
    ensures Print(Keyword(w)) == w && Tokens(Keyword(w)) == [Word(w)]
  {
    PrintOne(Tok(Word(w)));
  }

  lemma {:induction false} FromText(s: CollectionSchema)
    ensures Sql(FromPieces(s)) == "FROM" + " " + Quote(s.table)
  {
    SqlPair(Keyword("FROM"), Identifier(s.table));
    KeywordText("FROM");
    PrintOne(Tok(Name(s.table)));
  }

  lemma {:induction false} WhereText(before: seq<seq<Item>>, p: Option<Node>)
    requires before != []
    ensures Sql(before + WherePieces(p))
         == Sql(before) + if p.None? then "" else " WHERE " + Print(Items(p.value))
  {
    hide Print, Sql, Items;
    if p.None? {
      assert before + WherePieces(p) == before;
    } else {
      SqlAppend(before, WherePieces(p));
      SqlPair(Keyword("WHERE"), Items(p.value));
      KeywordText("WHERE");
      assert " " + "WHERE" + " " == " WHERE ";
      Append4(Sql(before), " ", "WHERE", " ", Print(Items(p.value)));
    }
  }

  lemma {:induction false} SelectText(s: CollectionSchema, projected: seq<Item>)
    ensures Sql([Keyword("SELECT"), projected] + FromPieces(s))
         == "SELECT " + Print(projected) + " FROM " + Quote(s.table)
  {
    hide Print, Sql;
    SqlAppend([Keyword("SELECT"), projected], FromPieces(s));
    SqlPair(Keyword("SELECT"), projected);
    KeywordText("SELECT");
    FromText(s);
    assert "SELECT" + " " + Print(projected) + " " + ("FROM" + " " + Quote(s.table))
        == "SELECT " + Print(projected) + " FROM " + Quote(s.table);
  }

  lemma {:induction false} OrderText(before: seq<seq<Item>>, ordered: seq<Item>)
    requires before != []
    ensures Sql(before + [Keyword("ORDER"), Keyword("BY"), ordered, Keyword("LIMIT"), [Tok(MARK)]])
         == Sql(before) + " ORDER BY " + Print(ordered) + " LIMIT ?"
  {
    hide Print, Sql;
    FivePieces(before, Keyword("ORDER"), Keyword("BY"), ordered, Keyword("LIMIT"), [Tok(MARK)]);
    OrderWords();
  }

  lemma {:induction false} OrderWords()
    ensures " " + Print(Keyword("ORDER")) + " " + Print(Keyword("BY")) + " " == " ORDER BY "
    ensures " " + Print(Keyword("LIMIT")) + " " + Print([Tok(MARK)]) == " LIMIT ?"
  {
    hide Print;
    KeywordText("ORDER");
    KeywordText("BY");
    KeywordText("LIMIT");
    PrintOne(Tok(MARK));
  }

  lemma {:induction false} FivePieces(
      before: seq<seq<Item>>, a: seq<Item>, b: seq<Item>, c: seq<Item>, d: seq<Item>, e: seq<Item>)
    requires before != []
    ensures Sql(before + [a, b, c, d, e])
         == Sql(before) + (" " + Print(a) + " " + Print(b) + " ") + Print(c) + (" " + Print(d) + " " + Print(e))
  {
    hide Print, Sql;
    assert before + [a, b, c, d, e] == before + [a, b] + [c] + [d, e];
    SqlAppend(before + [a, b] + [c], [d, e]);
    SqlAppend(before + [a, b], [c]);
    SqlAppend(before, [a, b]);
    SqlPair(a, b);
    SqlPair(c, c);
    SqlPair(d, e);
  }

  lemma {:induction false} LimitText(before: seq<seq<Item>>)
    requires before != []
    ensures Sql(before + [Keyword("LIMIT"), [Tok(Num(1))]]) == Sql(before) + " LIMIT 1"
    ensures Print([Tok(Num(1))]) == "1"
  {
    hide Print, Sql;
    SqlAppend(before, [Keyword("LIMIT"), [Tok(Num(1))]]);
    SqlPair(Keyword("LIMIT"), [Tok(Num(1))]);
    KeywordText("LIMIT");
    PrintOne(Tok(Num(1)));
    assert Sql(before) + " " + ("LIMIT" + " " + "1") == Sql(before) + " LIMIT 1";
  }

  // ------------------------------------------------------------ acceptance

  ghost predicate LegalOrder(s: CollectionSchema, order: seq<Ordering>)
  {
    && (forall i :: 0 <= i < |order| ==> order[i].field in s.fields)
    && (forall i, j :: 0 <= i < j < |order| ==> order[i].field.id != order[j].field.id)
  }

  ghost predicate LegalPredicate(s: CollectionSchema, p: Option<Node>)
  {
    p.None? || Accepted(s, p.value)
  }

  function BoundValues(p: Option<Node>): seq<Value> { if p.None? then [] else Bindings(p.value) }

  lemma {:induction false} FindKeyFinds(fields: seq<FieldSchema>, k: nat)
    requires IsKeyAt(fields, k)
    ensures FindKey(fields) == Some(fields[k])
  {
    if k > 0 {
      assert IsKeyAt(fields[1..], k - 1);
      FindKeyFinds(fields[1..], k - 1);
    }
  }

  lemma {:induction false} ValidSchemaHasKey(s: CollectionSchema) returns (k: nat)
    requires ValidSchema(s)
    ensures IsKeyAt(s.fields, k) && FindKey(s.fields) == Some(s.fields[k])
  {
    k :| IsKeyAt(s.fields, k);
    FindKeyFinds(s.fields, k);
  }

  // ---------------------------------------------------------- the compilers

  method PushColumns(out: QueryText, fields: seq<FieldSchema>)
    modifies out`sql
    ensures out.sql == old(out.sql) + Print(Join(NameItems(ColumnNames(fields)), LISTED))
  {
    hide Print, NameItems, Quote;
    var names := ColumnNames(fields);
    NamesGrow([], "");
    for n := 0 to |fields|
      invariant out.sql == old(out.sql) + Print(Join(NameItems(names[..n]), LISTED))
    {
      if n != 0 {
        out.PushStr(", ");
      }
      out.PushIdentifier(fields[n].column);
      assert names[..n + 1] == names[..n] + [names[n]];
      NamesGrow(names[..n], names[n]);
    }
    assert names[..|fields|] == names;
  }

  lemma {:induction false} NamesGrow(names: seq<Text>, last: Text)
    ensures Print(Join(NameItems(names + [last]), LISTED))
         == Print(Join(NameItems(names), LISTED)) + (if names == [] then "" else ", ") + Quote(last)
    ensures Print(Join(NameItems([]), LISTED)) == ""
  {
    assert NameItems(names + [last]) == NameItems(names) + [Identifier(last)];
    ListGrows(NameItems(names), Identifier(last));
    PrintOne(Tok(Name(last)));
    assert NameItems([]) == [];
  }

  lemma {:induction false} PrintNothing()
    ensures Print(Join([], LISTED)) == ""
  {}

  lemma {:induction false} ListedText()
    ensures Print(LISTED) == ", "
  {
    hide Print;
    PrintPair(Tok(COMMA), Space);
  }

  lemma {:induction false} PrintListed(a: seq<Item>, b: seq<Item>)
    ensures Print(a + LISTED + b) == Print(a) + ", " + Print(b)
  {
    hide Print;
    PrintAppend(a + LISTED, b);
    PrintAppend(a, LISTED);
    ListedText();
  }

  lemma {:induction false} ListGrows(parts: seq<seq<Item>>, last: seq<Item>)
    ensures Print(Join(parts + [last], LISTED))
         == Print(Join(parts, LISTED)) + (if parts == [] then "" else ", ") + Print(last)
  {
    hide Print, Join;
    JoinSnoc(parts, last, LISTED);
    if parts == [] {
      PrintNothing();
    } else {
      PrintListed(Join(parts, LISTED), last);
    }
  }

  method PushOrder(out: QueryText, t: OrderTerm, ghost earlier: seq<OrderTerm>)
    modifies out`sql
    ensures out.sql == old(out.sql) + Print(OrderItems(t))
    ensures Print(Join(OrderLists(earlier + [t]), LISTED))
         == Print(Join(OrderLists(earlier), LISTED)) + (if earlier == [] then "" else ", ") + Print(OrderItems(t))
  {
    hide Print, Quote;
    out.PushIdentifier(t.column);
    out.PushStr(if t.descending then " DESC" else " ASC");
    assert OrderLists(earlier + [t]) == OrderLists(earlier) + [OrderItems(t)];
    ListGrows(OrderLists(earlier), OrderItems(t));
    OrderItemsText(t);
  }

  lemma {:induction false} OrderItemsText(t: OrderTerm)
    ensures Print(OrderItems(t)) == Quote(t.column) + if t.descending then " DESC" else " ASC"
  {
    hide Print;
    var w := Word(DirectionWord(t.descending));
    assert OrderItems(t) == [Tok(Name(t.column))] + [Space, Tok(w)];
    PrintAppend([Tok(Name(t.column))], [Space, Tok(w)]);
    PrintSpaced(w);
    PrintOne(Tok(Name(t.column)));
    assert " " + DirectionWord(t.descending) == if t.descending then " DESC" else " ASC";
  }

  method CompileOrder(out: QueryText, s: CollectionSchema, order: seq<Ordering>, key: FieldSchema)
    returns (ok: bool)
    modifies out`sql
    ensures ok <==> LegalOrder(s, order)
    ensures ok <==>
              && (forall i :: 0 <= i < |order| ==> order[i].field in s.fields)
              && (forall i, j :: 0 <= i < j < |order| ==> order[i].field.id != order[j].field.id)
    ensures ok ==> out.sql == old(out.sql) + Print(Join(OrderLists(FullOrder(order, key)), LISTED))
  {
    hide Print, OrderLists, Terms;
    PrintNothing();
    NoTerms();
    var seen := {};
    for n := 0 to |order|
      invariant seen == OrderedIds(order[..n])
      invariant LegalOrder(s, order[..n])
      invariant out.sql == old(out.sql) + Print(Join(OrderLists(Terms(order[..n])), LISTED))
    {
      var o := order[n];
      if o.field !in s.fields || o.field.id in seen {
        ok := false;
        assert o.field.id in seen ==> exists i :: 0 <= i < n && order[i].field.id == order[n].field.id;
        return;
      }
      seen := seen + {o.field.id};
      if n != 0 {
        out.PushStr(", ");
      }
      PushOrder(out, OrderTerm(o.field.column, o.descending), Terms(order[..n]));
      OrderGrows(s, order, n);
    }
    assert order[..|order|] == order;
    if key.id !in seen {
      if order != [] {
        out.PushStr(", ");
      }
      PushOrder(out, OrderTerm(key.column, false), Terms(order));
    } else {
      assert FullOrder(order, key) == Terms(order);
    }
    ok := true;
  }

  lemma {:induction false} NoTerms()
    ensures Terms([]) == [] && OrderLists([]) == []
  {}

  lemma {:induction false} OrderGrows(s: CollectionSchema, order: seq<Ordering>, n: nat)
    requires n < |order|
    ensures OrderedIds(order[..n + 1]) == OrderedIds(order[..n]) + {order[n].field.id}
    ensures Terms(order[..n + 1])
         == Terms(order[..n]) + [OrderTerm(order[n].field.column, order[n].descending)]
    ensures LegalOrder(s, order[..n]) && order[n].field in s.fields && order[n].field.id !in OrderedIds(order[..n])
            ==> LegalOrder(s, order[..n + 1])
  {
    assert order[..n + 1] == order[..n] + [order[n]];
  }

  /** Accepts exactly the queries within the limits; the text is the laid-out
      statement and the values are the predicate's, then the limit. */
  method CompileQuery(s: CollectionSchema, p: Option<Node>, order: seq<Ordering>, limit: nat)
    returns (r: Option<Query>)
    ensures r.Some? <==>
            && 0 < limit <= 10_000 && |order| <= 8
            && ValidSchema(s) && LegalPredicate(s, p) && LegalOrder(s, order)
    ensures r.Some? ==> FindKey(s.fields).Some?
    ensures r.Some? ==>
              r.value.sql == Sql(QueryPieces(s, p, FullOrder(order, FindKey(s.fields).value)))
    ensures r.Some? ==> r.value.values == BoundValues(p) + [Integer(limit)]
  {
    hide Print, Sql, Items, Bindings, LegalPredicate, LegalOrder, FullOrder;
    if limit == 0 || limit > MAX_QUERY_LIMIT || |order| > MAX_QUERY_ORDER_FIELDS {
      return None;
    }
    var ok := ValidateCollectionSchema(s);
    if !ok {
      return None;
    }
    var at := ValidSchemaHasKey(s);
    var key := FindKey(s.fields).value;
    var out := new QueryText("SELECT ");
    PushColumns(out, s.fields);
    out.PushStr(" FROM ");
    out.PushIdentifier(s.table);
    ok := CompileWhere(out, s, p);
    if !ok {
      return None;
    }
    out.PushStr(" ORDER BY ");
    ok := CompileOrder(out, s, order, key);
    if !ok {
      return None;
    }
    out.PushStr(" LIMIT ?");
    r := Some(Query(out.sql, out.values + [Integer(limit)]));
    QueryTextOf(s, p, FullOrder(order, key));
  }

  lemma {:induction false} QueryTextOf(s: CollectionSchema, p: Option<Node>, terms: seq<OrderTerm>)
    ensures Sql(QueryPieces(s, p, terms))
         == "SELECT " + Print(Join(NameItems(ColumnNames(s.fields)), LISTED)) + " FROM " + Quote(s.table)
            + (if p.None? then "" else " WHERE " + Print(Items(p.value)))
            + " ORDER BY " + Print(Join(OrderLists(terms), LISTED)) + " LIMIT ?"
  {
    var projected := Join(NameItems(ColumnNames(s.fields)), LISTED);
    var head := [Keyword("SELECT"), projected] + FromPieces(s);
    SelectText(s, projected);
    WhereText(head, p);
    OrderText(head + WherePieces(p), Join(OrderLists(terms), LISTED));
  }

  method CompileWhere(out: QueryText, s: CollectionSchema, p: Option<Node>) returns (ok: bool)
    requires out.nodes == 0 && out.values == []
    modifies out
    ensures ok <==> LegalPredicate(s, p)
    ensures ok <==> (p.Some? ==> Accepted(s, p.value))
    ensures ok ==> out.sql == old(out.sql) + if p.None? then "" else " WHERE " + Print(Items(p.value))
    ensures ok ==> out.values == BoundValues(p)
  {
    hide Print, Items, Bindings, LegalLeaves, Size, Height;
    ok := true;
    if p.Some? {
      out.PushStr(" WHERE ");
      ok := out.CompilePredicate(s, p.value, 1);
    }
  }

  method CompileExistsQuery(s: CollectionSchema, p: Option<Node>, order: seq<Ordering>)
    returns (r: Option<Query>)
    ensures r.Some? <==> order == [] && ValidSchema(s) && LegalPredicate(s, p)
    ensures r.Some? ==> r.value == Query(Sql(ExistsPieces(s, p)), BoundValues(p))
  {
    hide Print, Sql, Items, Bindings, LegalPredicate;
    if order != [] {
      return None;
    }
    var ok := ValidateCollectionSchema(s);
    if !ok {
      return None;
    }
    var out := new QueryText("SELECT 1 FROM ");
    out.PushIdentifier(s.table);
    ok := CompileWhere(out, s, p);
    if !ok {
      return None;
    }
    out.PushStr(" LIMIT 1");
    r := Some(Query(out.sql, out.values));
    var head := [Keyword("SELECT"), [Tok(Num(1))]] + FromPieces(s);
    SelectText(s, [Tok(Num(1))]);
    WhereText(head, p);
    LimitText(head + WherePieces(p));
    assert "SELECT " + "1" + " FROM " == "SELECT 1 FROM ";
  }
}
