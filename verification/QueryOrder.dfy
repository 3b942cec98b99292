/** The rows of a compiled query, and their order, in the caller's own terms: the
    matching rows, compared by the caller's terms in turn and then by the key,
    ascending, and cut at the limit. */
module QueryOrder {
  import opened Basics
  import opened SqlText
  import opened SqlSyntax
  import opened SqlEval
  import opened Schema
  import opened Predicate
  import opened QueryCompiler
  import opened QueryMeaning
  import opened QueryAnswers
  import Sorting

  /** Two rows agree on the first `t` terms and differ in the next, in its own
      direction; after the last term it is the key, ascending, that differs. */
  ghost predicate DecidedAt(order: seq<Ordering>, key: FieldSchema, a: Row, b: Row, t: nat)
  {
    && t <= |order|
    && (forall j :: 0 <= j < t ==>
          var c := order[j].field.column;
          c in a && c in b && !ValueLess(a[c], b[c]) && !ValueLess(b[c], a[c]))
    && var c := if t < |order| then order[t].field.column else key.column;
       && c in a && c in b
       && if t < |order| && order[t].descending then ValueLess(b[c], a[c]) else ValueLess(a[c], b[c])
  }

  ghost predicate ComesFirst(order: seq<Ordering>, key: FieldSchema, a: Row, b: Row)
  {
    exists t: nat :: DecidedAt(order, key, a, b, t)
  }

  /** The rows of a query: matching ones only, none more often than stored, at most
      `limit`, all of them when there are fewer; each before those behind it and
      before the matching rows that were cut off. */
  ghost predicate Answers(
    p: Option<Node>, order: seq<Ordering>, key: FieldSchema, limit: nat, rows: seq<Row>, out: seq<Row>)
  {
    && |out| <= limit && multiset(out) <= multiset(rows) && (forall r :: r in out ==> Matches(p, r))
    && (|out| < limit ==> forall r :: r in rows && Matches(p, r) ==> multiset(out)[r] == multiset(rows)[r])
    && (forall i, j :: 0 <= i < j < |out| ==> out[i] == out[j] || ComesFirst(order, key, out[i], out[j]))
    && (forall i, r :: 0 <= i < |out| && r in rows && Matches(p, r) && multiset(out)[r] < multiset(rows)[r] ==>
          out[i] == r || ComesFirst(order, key, out[i], r))
  }

  // ------------------------------------------------------------ the order

  /** The order of values: NULL, then numbers by their value between the infinities,
      then texts and then blobs, both bytewise. */
  lemma {:induction false} StorageOrder(a: Value, b: Value)
    ensures (a.Null? || a.NaN?) ==> (ValueLess(a, b) <==> !b.Null? && !b.NaN?) && !ValueLess(b, a)
    ensures (a.Integer? || a.Real? || a.Infinity?) && (b.String? || b.Blob?) ==> ValueLess(a, b) && !ValueLess(b, a)
    ensures a.String? && b.Blob? ==> ValueLess(a, b) && !ValueLess(b, a)
    ensures a.Integer? && b.Integer? ==> (ValueLess(a, b) <==> a.i < b.i)
    ensures a.Real? && b.Real? ==> (ValueLess(a, b) <==> a.r < b.r)
    ensures a.Integer? && b.Real? ==> (ValueLess(a, b) <==> a.i as real < b.r) && (ValueLess(b, a) <==> b.r < a.i as real)
    ensures a == Infinity(true) && (b.Integer? || b.Real? || b == Infinity(false)) ==> ValueLess(a, b) && !ValueLess(b, a)
    ensures b == Infinity(false) && (a.Integer? || a.Real?) ==> ValueLess(a, b) && !ValueLess(b, a)
    ensures a.String? && b.String? ==> (ValueLess(a, b) <==> TextLess(a.text, b.text))
    ensures a.Blob? && b.Blob? ==> (ValueLess(a, b) <==> TextLess(a.bytes, b.bytes))
  {}

  /** A row that sorts before another does so at the first term they differ in. */
  lemma {:induction false} FirstDifference(terms: seq<OrderTerm>, a: Row, b: Row) returns (t: nat)
    requires Before(terms, a, b)
    ensures t < |terms| && terms[t].column in a && terms[t].column in b
    ensures forall j :: 0 <= j < t ==>
              var c := terms[j].column;
              c in a && c in b && !ValueLess(a[c], b[c]) && !ValueLess(b[c], a[c])
    ensures var c := terms[t].column;
            if terms[t].descending then ValueLess(b[c], a[c]) else ValueLess(a[c], b[c])
  {
    hide ValueLess;
    var c := terms[0].column;
    if (if terms[0].descending then ValueLess(b[c], a[c]) else ValueLess(a[c], b[c])) {
      t := 0;
    } else {
      var rest := FirstDifference(terms[1..], a, b);
      t := rest + 1;
      assert forall j :: 0 < j < |terms| ==> terms[j] == terms[1..][j - 1];
    }
  }

  lemma {:induction false} BeforeMeans(order: seq<Ordering>, key: FieldSchema, a: Row, b: Row)
    requires Before(FullOrder(order, key), a, b)
    ensures ComesFirst(order, key, a, b)
  {
    hide Before, ValueLess;
    var t := FirstDifference(FullOrder(order, key), a, b);
    var terms := FullOrder(order, key);
    assert forall j :: 0 <= j < |order| ==> terms[j] == OrderTerm(order[j].field.column, order[j].descending);
    assert DecidedAt(order, key, a, b, t);
  }

  // ------------------------------------------------------------- the rows

  /** What is cut off stands behind the cut. */
  lemma {:induction false} CutOff(all: seq<Row>, k: nat, r: Row) returns (j: nat)
    requires k <= |all| && multiset(all[..k])[r] < multiset(all)[r]
    ensures k <= j < |all| && all[j] == r
  {
    assert all == all[..k] + all[k..];
    assert r in multiset(all[k..]);
    var i :| 0 <= i < |all[k..]| && all[k..][i] == r;
    j := k + i;
  }

  /** In a sorted list the earlier of two rows is the same or comes first. */
  lemma {:induction false} SortedComesFirst(order: seq<Ordering>, key: FieldSchema, all: seq<Row>, i: nat, j: nat)
    requires i < j < |all|
    requires Sorting.Sorted(RowLess(FullOrder(order, key)), all)
    requires Sorting.StrictTotalOn(RowLess(FullOrder(order, key)), multiset(all))
    ensures all[i] == all[j] || ComesFirst(order, key, all[i], all[j])
  {
    hide FullOrder, ComesFirst, Before;
    assert all[i] in multiset(all) && all[j] in multiset(all);
    if all[i] != all[j] {
      assert RowLess(FullOrder(order, key))(all[i], all[j]);
      BeforeMeans(order, key, all[i], all[j]);
    }
  }

  lemma {:induction false} PrefixWithin(all: seq<Row>, k: nat)
    requires k <= |all|
    ensures multiset(all[..k]) <= multiset(all) && (k == |all| ==> all[..k] == all)
    ensures forall r :: r in all[..k] ==> r in all
  {
    assert all == all[..k] + all[k..];
  }

  /** The reference answer is right. */
  lemma {:induction false} AnswerIsRight(
    s: CollectionSchema, p: Option<Node>, order: seq<Ordering>, key: FieldSchema, limit: nat, rows: seq<Row>)
    requires ValidSchema(s) && LegalOrder(s, order) && FindKey(s.fields) == Some(key) && IsTable(s, key, rows)
    ensures Answers(p, order, key, limit, rows, Answer(p, FullOrder(order, key), limit, rows))
  {
    hide ValidSchema, LegalOrder, IsTable, FullOrder, Chosen, Matches, ComesFirst, FindKey, CleanTerms, InSchema,
         Sorting.StrictTotalOn, Sorting.Sort, Sorting.Sorted;
    var terms := FullOrder(order, key);
    var at := FullOrderShape(s, order, key);
    KeyedOrderIsTotal(s, key, terms, at, rows);
    ChosenAmongRows(p, rows);
    Sorting.StrictTotalOnPart(RowLess(terms), multiset(rows), multiset(Chosen(p, rows)));
    var all := Sorting.Sort(RowLess(terms), Chosen(p, rows));
    Sorting.SortSorts(RowLess(terms), Chosen(p, rows));
    var k := if limit < |all| then limit else |all|;
    PrefixWithin(all, k);
    assert Answer(p, terms, limit, rows) == all[..k];
    CutIsRight(p, order, key, limit, rows, all, k);
  }

  lemma {:induction false} CutIsRight(
    p: Option<Node>, order: seq<Ordering>, key: FieldSchema, limit: nat, rows: seq<Row>, all: seq<Row>, k: nat)
    requires k == if limit < |all| then limit else |all|
    requires multiset(all) == multiset(Chosen(p, rows))
    requires Sorting.Sorted(RowLess(FullOrder(order, key)), all)
    requires Sorting.StrictTotalOn(RowLess(FullOrder(order, key)), multiset(all))
    ensures Answers(p, order, key, limit, rows, all[..k])
  {
    hide FullOrder, Chosen, Matches, ComesFirst, Sorting.StrictTotalOn, Sorting.Sorted;
    var out := all[..k];
    forall r ensures multiset(all)[r] == if Matches(p, r) then multiset(rows)[r] else 0 {
      ChosenCounts(p, rows, r);
    }
    PrefixWithin(all, k);
    forall r | r in out ensures Matches(p, r) {
      assert multiset(out)[r] > 0;
    }
    forall i, j | 0 <= i < j < |out| ensures out[i] == out[j] || ComesFirst(order, key, out[i], out[j]) {
      SortedComesFirst(order, key, all, i, j);
    }
    forall i, r | 0 <= i < |out| && r in rows && Matches(p, r) && multiset(out)[r] < multiset(rows)[r]
      ensures out[i] == r || ComesFirst(order, key, out[i], r)
    {
      var j := CutOff(all, k, r);
      SortedComesFirst(order, key, all, i, j);
    }
  }

  /** End to end, in the caller's terms: whatever rows the engine may return for the
      text and values that `CompileQuery` gives are the right ones, in the right
      order; the key is the schema's only key field. */
  lemma {:induction false} CompiledQueryAnswers(
    s: CollectionSchema, p: Option<Node>, order: seq<Ordering>, limit: nat, q: Query, key: FieldSchema,
    rows: seq<Row>, out: seq<Row>)
    requires ValidSchema(s) && LegalPredicate(s, p) && LegalOrder(s, order) && FindKey(s.fields).Some?
    requires q.sql == Sql(QueryPieces(s, p, FullOrder(order, FindKey(s.fields).value)))
    requires q.values == BoundValues(p) + [Integer(limit)]
    requires key in s.fields && key.primaryKey && IsTable(s, key, rows)
    ensures Prepare(q.sql).Some? && Prepare(q.sql).value.statement.Select?
    ensures Prepare(q.sql).value.parameterCount == |q.values|
    ensures Prepare(q.sql).value.statement.table == s.table
    ensures Prepare(q.sql).value.statement.projection == Columns(ColumnNames(s.fields))
    ensures MayReturn(Prepare(q.sql).value.statement, rows, q.values, out) ==> Answers(p, order, key, limit, rows, out)
  {
    hide LegalPredicate, LegalOrder, FullOrder, QueryPieces, Sql, Prepare, BoundValues, IsTable, MayReturn, Answer, Answers;
    var k := ValidSchemaHasKey(s);
    assert key == s.fields[k];
    hide ValidSchema, FindKey;
    CompiledQueryRuns(s, p, order, limit, q);
    var at := FullOrderShape(s, order, key);
    QueryPrepares(s, p, FullOrder(order, key));
    AnswerIsRight(s, p, order, key, limit, rows);
  }
}
