/** The generated CRUD statements, run with the value vectors csgdb builds, act
    as insert, lookup, replace and remove on a map from keys to records. */
module Crud {
  import opened Basics
  import opened SqlText
  import opened SqlSyntax
  import opened SqlEval
  import opened Schema
  import opened Predicate
  import opened QueryCompiler
  import QueryMeaning
  import Sorting
  import QueryAnswers
  import opened CrudText
  import opened CrudMeaning

  // -------------------------------------------------------- running them

  function EvalAll(es: seq<Expr>, row: Row, params: seq<Value>): Option<seq<Value>>
  {
    if es == [] then Some([])
    else
      match (Eval(es[0], row, params), EvalAll(es[1..], row, params))
      case (Some(v), Some(vs)) => Some([v] + vs)
      case _ => None
  }

  /** `row` with `columns[i]` set to `vs[i]`, later columns winning. */
  function Overwrite(row: Row, columns: seq<Text>, vs: seq<Value>): Row
    requires |columns| == |vs|
    decreases columns
  {
    if columns == [] then row
    else Overwrite(row[columns[0] := vs[0]], columns[1..], vs[1..])
  }

  function Targets(sets: seq<Assignment>): (cs: seq<Text>)
    ensures |cs| == |sets|
  {
    seq(|sets|, i requires 0 <= i < |sets| => sets[i].column)
  }

  function Sources(sets: seq<Assignment>): (es: seq<Expr>)
    ensures |es| == |sets|
  {
    seq(|sets|, i requires 0 <= i < |sets| => sets[i].value)
  }

  /** One row of an UPDATE: all right sides are read from the old row. */
  function UpdatedRow(sets: seq<Assignment>, row: Row, params: seq<Value>): Option<Row>
  {
    match EvalAll(Sources(sets), row, params)
    case None => None
    case Some(vs) => if |vs| == |sets| then Some(Overwrite(row, Targets(sets), vs)) else None
  }

  function UpdateRows(sets: seq<Assignment>, filter: Option<Expr>, rows: seq<Row>, params: seq<Value>): Option<seq<Row>>
  {
    if rows == [] then Some([])
    else
      match (if Keeps(filter, rows[0], params) then UpdatedRow(sets, rows[0], params) else Some(rows[0]),
             UpdateRows(sets, filter, rows[1..], params))
      case (Some(r), Some(rs)) => Some([r] + rs)
      case _ => None
  }

  function DeleteRows(filter: Option<Expr>, rows: seq<Row>, params: seq<Value>): seq<Row>
  {
    if rows == [] then []
    else (if Keeps(filter, rows[0], params) then [] else [rows[0]]) + DeleteRows(filter, rows[1..], params)
  }

  datatype Effect = Changed(rows: seq<Row>, count: nat) | Conflict | Failed

  ghost predicate KeysDiffer(key: Text, rows: seq<Row>)
  {
    && (forall i :: 0 <= i < |rows| ==> key in rows[i])
    && (forall i, j :: 0 <= i < j < |rows| ==> !SameValue(rows[i][key], rows[j][key]))
  }

  /** The engine's effect of a write on a table whose primary key column is `key`. */
  ghost function Run(q: Statement, key: Text, rows: seq<Row>, params: seq<Value>): Effect
    requires !q.Select?
  {
    match q
    case Insert(_, columns, values) =>
      (match EvalAll(values, map[], params)
       case None => Failed
       case Some(vs) =>
         if |vs| != |columns| then Failed
         else
           var out := rows + [Overwrite(map[], columns, vs)];
           if KeysDiffer(key, out) then Changed(out, 1) else Conflict)
    case Update(_, sets, filter) =>
      (match UpdateRows(sets, filter, rows, params)
       case None => Failed
       case Some(out) =>
         if KeysDiffer(key, out) then Changed(out, |Kept(filter, rows, params)|) else Conflict)
    case Delete(_, filter) => Changed(DeleteRows(filter, rows, params), |Kept(filter, rows, params)|)
  }

  // ------------------------------------------------------ records and rows

  /** A value of the column's storage class: one a query may compare with, or an
      infinity. NaN never reaches a table. */
  predicate Fits(f: FieldSchema, v: Value)
  {
    BoundValueFits(f, v) || (v.Infinity? && f.kind == RealColumn)
  }

  ghost predicate IsRecord(fields: seq<FieldSchema>, values: seq<Value>)
  {
    |values| == |fields| && forall i :: 0 <= i < |fields| ==> Fits(fields[i], values[i])
  }

  function RowOf(fields: seq<FieldSchema>, values: seq<Value>): Row
    requires |values| == |fields|
  {
    Overwrite(map[], ColumnNames(fields), values)
  }

  ghost predicate IsRow(fields: seq<FieldSchema>, row: Row)
  {
    && row.Keys == (set c | c in ColumnNames(fields))
    && forall i :: 0 <= i < |fields| ==> fields[i].column in row && Fits(fields[i], row[fields[i].column])
  }

  /** A stored table: typed rows, and no key twice. */
  ghost predicate IsStore(fields: seq<FieldSchema>, k: nat, rows: seq<Row>)
    requires k < |fields|
  {
    && (forall i :: 0 <= i < |rows| ==> IsRow(fields, rows[i]))
    && KeysDiffer(fields[k].column, rows)
  }

  /** The map a stored table represents. */
  ghost function Contents(key: Text, rows: seq<Row>): map<Value, Row>
  {
    if rows == [] then map[]
    else if key in rows[0] then Contents(key, rows[1..])[rows[0][key] := rows[0]]
    else Contents(key, rows[1..])
  }

  // --------------------------------------------------------- update vector

  /** The values without the key's, in order, then the key's. */
  function UpdateVector(values: seq<Value>, k: nat): seq<Value>
    requires k < |values|
  {
    values[..k] + values[k + 1..] + [values[k]]
  }

  /** Moves the key to the end of the value vector, as `update_values` does. */
  method UpdateValues(fields: seq<FieldSchema>, values: seq<Value>) returns (r: Option<seq<Value>>)
    ensures r.Some? <==> exists k: nat :: FirstKeyAt(fields, k) && k < |values|
    ensures forall k: nat :: FirstKeyAt(fields, k) && k < |values| ==>
              r == Some(UpdateVector(values, k))
  {
    var at := 0;
    while at < |fields| && !fields[at].primaryKey
      invariant at <= |fields|
      invariant forall i :: 0 <= i < at ==> !fields[i].primaryKey
    {
      at := at + 1;
    }
    if at == |fields| || at >= |values| {
      return None;
    }
    assert FirstKeyAt(fields, at);
    var key := values[at];
    var rest := values[..at] + values[at + 1..];
    r := Some(rest + [key]);
  }

  ghost predicate FirstKeyAt(fields: seq<FieldSchema>, k: nat)
  {
    k < |fields| && fields[k].primaryKey && forall i :: 0 <= i < k ==> !fields[i].primaryKey
  }

  function Without<X>(s: seq<X>, k: nat): (r: seq<X>)
    requires k < |s|
    ensures |r| == |s| - 1
  {
    s[..k] + s[k + 1..]
  }

  lemma {:induction false} NamesCons(fields: seq<FieldSchema>)
    requires fields != []
    ensures ColumnNames(fields) == [fields[0].column] + ColumnNames(fields[1..])
    ensures MutableColumns(fields)
         == (if fields[0].primaryKey then [] else [fields[0].column]) + MutableColumns(fields[1..])
  {}

  lemma {:induction false} WithoutCons<X>(x: X, s: seq<X>, k: nat)
    requires k <= |s|
    ensures Without([x] + s, k) == if k == 0 then s else [x] + Without(s, k - 1)
  {}

  lemma {:induction false} NoKeyAllMutable(fields: seq<FieldSchema>)
    requires forall i :: 0 <= i < |fields| ==> !fields[i].primaryKey
    ensures MutableColumns(fields) == ColumnNames(fields)
  {
    hide ColumnNames, MutableColumns;
    if fields == [] {
      assert ColumnNames(fields) == [] && MutableColumns(fields) == [] by { NoNames(); }
    } else {
      NamesCons(fields);
      NoKeyAllMutable(fields[1..]);
    }
  }

  lemma {:induction false} NoNames()
    ensures ColumnNames([]) == [] && MutableColumns([]) == []
  {}

  /** The parameters of `update_sql` are the columns without the key, in order. */
  lemma {:induction false} MutableAreOthers(fields: seq<FieldSchema>, k: nat)
    requires IsKeyAt(fields, k)
    ensures MutableColumns(fields) == Without(ColumnNames(fields), k)
  {
    hide ColumnNames, MutableColumns, Without;
    var tail := fields[1..];
    NamesCons(fields);
    WithoutCons(fields[0].column, ColumnNames(tail), k);
    if k == 0 {
      assert forall i :: 0 <= i < |tail| ==> tail[i] == fields[i + 1];
      NoKeyAllMutable(tail);
    } else {
      assert IsKeyAt(tail, k - 1);
      MutableAreOthers(tail, k - 1);
    }
  }

  // ------------------------------------------------------------ overwriting

  lemma {:induction false} OverwriteKeys(row: Row, columns: seq<Text>, vs: seq<Value>)
    requires |columns| == |vs|
    ensures Overwrite(row, columns, vs).Keys == row.Keys + (set c | c in columns)
    decreases columns
  {
    if columns != [] {
      OverwriteKeys(row[columns[0] := vs[0]], columns[1..], vs[1..]);
      assert columns == [columns[0]] + columns[1..];
    }
  }

  ghost predicate Distinct(columns: seq<Text>)
  {
    forall i, j :: 0 <= i < j < |columns| ==> columns[i] != columns[j]
  }

  lemma {:induction false} OverwriteOutside(row: Row, columns: seq<Text>, vs: seq<Value>, c: Text)
    requires |columns| == |vs| && c !in columns && c in row
    ensures c in Overwrite(row, columns, vs) && Overwrite(row, columns, vs)[c] == row[c]
    decreases columns
  {
    if columns != [] {
      OverwriteOutside(row[columns[0] := vs[0]], columns[1..], vs[1..], c);
    }
  }

  lemma {:induction false} OverwriteInside(row: Row, columns: seq<Text>, vs: seq<Value>, i: nat)
    requires |columns| == |vs| && Distinct(columns) && i < |columns|
    ensures columns[i] in Overwrite(row, columns, vs) && Overwrite(row, columns, vs)[columns[i]] == vs[i]
    decreases columns
  {
    var next := row[columns[0] := vs[0]];
    if i == 0 {
      OverwriteOutside(next, columns[1..], vs[1..], columns[0]);
    } else {
      OverwriteInside(next, columns[1..], vs[1..], i - 1);
    }
  }

  lemma {:induction false} RecordMakesRow(fields: seq<FieldSchema>, values: seq<Value>)
    requires DistinctFields(fields) && IsRecord(fields, values)
    ensures IsRow(fields, RowOf(fields, values))
    ensures forall i :: 0 <= i < |fields| ==>
              fields[i].column in RowOf(fields, values) && RowOf(fields, values)[fields[i].column] == values[i]
  {
    var names := ColumnNames(fields);
    OverwriteKeys(map[], names, values);
    forall i | 0 <= i < |fields|
      ensures names[i] in RowOf(fields, values) && RowOf(fields, values)[names[i]] == values[i]
    {
      OverwriteInside(map[], names, values, i);
    }
  }

  // -------------------------------------------------------------- the key

  /** Within one storage class the engine's equality is equality. */
  lemma {:induction false} SameKindSame(f: FieldSchema, a: Value, b: Value)
    requires Fits(f, a) && Fits(f, b) && !f.nullable
    ensures SameValue(a, b) <==> a == b
  {
    if a.String? && b.String? {
      TextLessIsTotal(a.text, b.text);
      TextLessIsStrict(a.text, b.text);
    } else if a.Blob? && b.Blob? {
      TextLessIsTotal(a.bytes, b.bytes);
      TextLessIsStrict(a.bytes, b.bytes);
    }
  }

  lemma {:induction false} KeyFilterKeeps(f: FieldSchema, row: Row, params: seq<Value>, n: nat)
    requires 1 <= n <= |params| && f.column in row && !f.nullable
    requires Fits(f, row[f.column]) && Fits(f, params[n - 1])
    ensures Keeps(Some(KeyIs(f.column, n)), row, params) <==> row[f.column] == params[n - 1]
  {
    SameKindSame(f, row[f.column], params[n - 1]);
    var a := row[f.column];
    assert Eval(KeyIs(f.column, n), row, params) == Some(OfTruth(CompareTruth(Equal, a, params[n - 1])));
    TruthRoundTrip(CompareTruth(Equal, a, params[n - 1]));
  }

  // ---------------------------------------------------------- the contents

  lemma {:induction false} StoreTail(fields: seq<FieldSchema>, k: nat, rows: seq<Row>)
    requires k < |fields| && IsStore(fields, k, rows) && rows != []
    ensures IsStore(fields, k, rows[1..]) && IsRow(fields, rows[0])
  {}

  lemma {:induction false} ContentsOf(key: Text, rows: seq<Row>, v: Value)
    requires forall i :: 0 <= i < |rows| ==> key in rows[i]
    ensures v in Contents(key, rows) <==> exists i :: 0 <= i < |rows| && rows[i][key] == v
  {
    if rows != [] {
      ContentsOf(key, rows[1..], v);
      if v in Contents(key, rows[1..]) {
        var i :| 0 <= i < |rows[1..]| && rows[1..][i][key] == v;
        assert rows[i + 1][key] == v;
      }
      if i :| 0 <= i < |rows| && rows[i][key] == v {
        assert i == 0 || rows[1..][i - 1][key] == v;
      }
    }
  }

  lemma {:induction false} HeadKeyFresh(fields: seq<FieldSchema>, k: nat, rows: seq<Row>)
    requires IsKeyAt(fields, k) && IsStore(fields, k, rows) && rows != []
    ensures rows[0][fields[k].column] !in Contents(fields[k].column, rows[1..])
  {
    var key := fields[k].column;
    ContentsOf(key, rows[1..], rows[0][key]);
    if i :| 0 <= i < |rows[1..]| && rows[1..][i][key] == rows[0][key] {
      assert rows[1..][i] == rows[i + 1] && IsRow(fields, rows[0]);
      SameKindSame(fields[k], rows[0][key], rows[i + 1][key]);
    }
  }

  lemma {:induction false} ContentsAppend(key: Text, rows: seq<Row>, r: Row)
    requires key in r && (forall i :: 0 <= i < |rows| ==> key in rows[i])
    requires r[key] !in Contents(key, rows)
    ensures Contents(key, rows + [r]) == Contents(key, rows)[r[key] := r]
  {
    if rows == [] {
      assert rows + [r] == [r] && [r][1..] == [];
    } else {
      assert (rows + [r])[0] == rows[0] && (rows + [r])[1..] == rows[1..] + [r];
      ContentsAppend(key, rows[1..], r);
    }
  }

  /** The rows a key condition selects: the one the map holds, or none. */
  lemma {:induction false} KeptByKey(fields: seq<FieldSchema>, k: nat, rows: seq<Row>, params: seq<Value>, n: nat)
    requires IsKeyAt(fields, k) && IsStore(fields, k, rows)
    requires 1 <= n <= |params| && Fits(fields[k], params[n - 1])
    ensures var v := params[n - 1]; var m := Contents(fields[k].column, rows);
            Kept(Some(KeyIs(fields[k].column, n)), rows, params) == if v in m then [m[v]] else []
  {
    if rows != [] {
      StoreTail(fields, k, rows);
      HeadKeyFresh(fields, k, rows);
      KeyFilterKeeps(fields[k], rows[0], params, n);
      KeptByKey(fields, k, rows[1..], params, n);
    }
  }

  lemma {:induction false} EvalBounds(es: seq<Expr>, row: Row, params: seq<Value>, lo: nat)
    requires lo + |es| <= |params|
    requires forall i :: 0 <= i < |es| ==> es[i] == Bound(lo + i + 1)
    ensures EvalAll(es, row, params) == Some(params[lo..lo + |es|])
  {
    if es != [] {
      EvalBounds(es[1..], row, params, lo + 1);
      assert params[lo..lo + |es|] == [params[lo]] + params[lo + 1..lo + |es|];
    }
  }

  // ----------------------------------------------------------- main results

  ghost predicate IsCollection(fields: seq<FieldSchema>, k: nat)
  {
    IsKeyAt(fields, k) && DistinctFields(fields)
  }

  /** INSERT with the record's values is map insertion; a key already there is a conflict. */
  lemma {:induction false} InsertActs(table: Text, fields: seq<FieldSchema>, k: nat, rows: seq<Row>, values: seq<Value>)
    requires IsCollection(fields, k) && IsStore(fields, k, rows) && IsRecord(fields, values)
    ensures var key := fields[k].column; var m := Contents(key, rows);
            var e := Run(InsertStatement(table, ColumnNames(fields)), key, rows, values);
            if values[k] in m then e == Conflict
            else
              && e.Changed? && e.count == 1 && IsStore(fields, k, e.rows)
              && Contents(key, e.rows) == m[values[k] := RowOf(fields, values)]
  {
    hide Run, RowOf, Contents, IsRow;
    var key := fields[k].column;
    var row := RowOf(fields, values);
    InsertRuns(table, fields, key, rows, values);
    RecordMakesRow(fields, values);
    InsertedKeys(fields, k, rows, row);
    ContentsOf(key, rows, values[k]);
    if values[k] !in Contents(key, rows) {
      ContentsAppend(key, rows, row);
      assert IsStore(fields, k, rows + [row]);
    }
  }

  lemma {:induction false} InsertRuns(table: Text, fields: seq<FieldSchema>, key: Text, rows: seq<Row>, values: seq<Value>)
    requires |values| == |fields|
    ensures var out := rows + [RowOf(fields, values)];
            Run(InsertStatement(table, ColumnNames(fields)), key, rows, values)
            == if KeysDiffer(key, out) then Changed(out, 1) else Conflict
  {
    hide Overwrite, KeysDiffer;
    EvalBounds(Bounds(|fields|), map[], values, 0);
    assert values[0..|values|] == values;
  }

  lemma {:induction false} InsertedKeys(fields: seq<FieldSchema>, k: nat, rows: seq<Row>, row: Row)
    requires IsKeyAt(fields, k) && IsStore(fields, k, rows) && IsRow(fields, row)
    ensures KeysDiffer(fields[k].column, rows + [row])
       <==> forall i :: 0 <= i < |rows| ==> rows[i][fields[k].column] != row[fields[k].column]
  {
    var key := fields[k].column;
    var out := rows + [row];
    forall i | 0 <= i < |rows| ensures SameValue(rows[i][key], row[key]) <==> rows[i][key] == row[key] {
      assert IsRow(fields, rows[i]);
      SameKindSame(fields[k], rows[i][key], row[key]);
    }
    assert forall i :: 0 <= i < |rows| ==> out[i] == rows[i];
    if forall i :: 0 <= i < |rows| ==> rows[i][key] != row[key] {
      assert KeysDiffer(key, out);
    } else {
      var i :| 0 <= i < |rows| && rows[i][key] == row[key];
      assert SameValue(out[i][key], out[|rows|][key]);
    }
  }

  /** SELECT by key returns the record stored under the key, or nothing. */
  lemma {:induction false} SelectActs(table: Text, fields: seq<FieldSchema>, k: nat, rows: seq<Row>, v: Value, out: seq<Row>)
    requires IsCollection(fields, k) && IsStore(fields, k, rows) && Fits(fields[k], v)
    requires MayReturn(SelectStatement(table, ColumnNames(fields), fields[k].column), rows, [v], out)
    ensures var m := Contents(fields[k].column, rows); out == if v in m then [m[v]] else []
  {
    hide Kept, IsStore, Contents, MayReturn, Fits;
    KeptByKey(fields, k, rows, [v], 1);
    OnlyRow(SelectStatement(table, ColumnNames(fields), fields[k].column), rows, [v], out);
  }

  /** A one-row SELECT whose condition keeps at most one row returns what it keeps. */
  lemma {:induction false} OnlyRow(q: Statement, rows: seq<Row>, params: seq<Value>, out: seq<Row>)
    requires q.Select? && q.limit == Some(Literal(1)) && MayReturn(q, rows, params, out)
    requires |Kept(q.filter, rows, params)| <= 1
    ensures out == Kept(q.filter, rows, params)
  {
    hide Kept;
    var kept := Kept(q.filter, rows, params);
    var sorted: seq<Row> :|
      && multiset(sorted) == multiset(kept)
      && TakeCount(q.limit, params, |sorted|).Some?
      && out == sorted[..TakeCount(q.limit, params, |sorted|).value];
    Sorting.SameShort(sorted, kept);
  }

  lemma {:induction false} MapWithout<K, V>(m: map<K, V>, k: K, x: V, v: K)
    requires k !in m
    ensures m[k := x] - {v} == if k == v then m else (m - {v})[k := x]
  {}

  /** Dropping the rows of one key drops its entry from the map. */
  lemma {:induction false} DeletedRows(fields: seq<FieldSchema>, k: nat, rows: seq<Row>, v: Value)
    requires IsKeyAt(fields, k) && IsStore(fields, k, rows) && Fits(fields[k], v)
    ensures Contents(fields[k].column, DeleteRows(Some(KeyIs(fields[k].column, 1)), rows, [v]))
         == Contents(fields[k].column, rows) - {v}
  {
    if rows != [] {
      var key := fields[k].column;
      var filter := Some(KeyIs(key, 1));
      StoreTail(fields, k, rows);
      HeadKeyFresh(fields, k, rows);
      KeyFilterKeeps(fields[k], rows[0], [v], 1);
      assert key in rows[0];
      hide IsStore, Keeps, IsRow, Fits, IsKeyAt;
      DeletedRows(fields, k, rows[1..], v);
      MapWithout(Contents(key, rows[1..]), rows[0][key], rows[0], v);
      ContentsOfDeletion(key, filter, rows, [v]);
    }
  }

  lemma {:induction false} ContentsOfDeletion(key: Text, filter: Option<Expr>, rows: seq<Row>, params: seq<Value>)
    requires rows != [] && key in rows[0]
    ensures var rest := Contents(key, DeleteRows(filter, rows[1..], params));
            Contents(key, DeleteRows(filter, rows, params))
            == if Keeps(filter, rows[0], params) then rest else rest[rows[0][key] := rows[0]]
    ensures Contents(key, rows) == Contents(key, rows[1..])[rows[0][key] := rows[0]]
  {
    hide Keeps;
    var rest := DeleteRows(filter, rows[1..], params);
    assert ([rows[0]] + rest)[1..] == rest;
    assert [] + rest == rest;
  }

  lemma {:induction false} DeletionKeepsStore(
      fields: seq<FieldSchema>, k: nat, rows: seq<Row>, filter: Option<Expr>, params: seq<Value>)
    requires k < |fields| && IsStore(fields, k, rows)
    ensures IsStore(fields, k, DeleteRows(filter, rows, params))
  {
    if rows != [] {
      StoreTail(fields, k, rows);
      DeletionKeepsStore(fields, k, rows[1..], filter, params);
      DeletedAmong(filter, rows[1..], params);
      hide IsStore, Keeps;
      var rest := DeleteRows(filter, rows[1..], params);
      ConsStore(fields, k, rows, rest);
      assert [] + rest == rest;
    }
  }

  lemma {:induction false} DeletedAmong(filter: Option<Expr>, rows: seq<Row>, params: seq<Value>)
    ensures forall r :: r in DeleteRows(filter, rows, params) ==> r in rows
  {
    if rows != [] {
      DeletedAmong(filter, rows[1..], params);
    }
  }

  lemma {:induction false} ConsStore(fields: seq<FieldSchema>, k: nat, rows: seq<Row>, rest: seq<Row>)
    requires k < |fields| && IsStore(fields, k, rows) && rows != [] && IsStore(fields, k, rest)
    requires forall r :: r in rest ==> r in rows[1..]
    ensures IsStore(fields, k, [rows[0]] + rest)
  {
    var out := [rows[0]] + rest;
    var key := fields[k].column;
    forall j | 1 <= j < |out| ensures !SameValue(out[0][key], out[j][key]) {
      assert rest[j - 1] in rows[1..];
      var i :| 0 <= i < |rows[1..]| && rows[1..][i] == rest[j - 1];
      assert rows[i + 1] == out[j];
    }
    forall i, j | 0 <= i < j < |out| ensures !SameValue(out[i][key], out[j][key]) {
      if i > 0 {
        assert !SameValue(rest[i - 1][key], rest[j - 1][key]);
      }
    }
  }

  /** DELETE by key removes exactly that entry and counts it. */
  lemma {:induction false} DeleteActs(table: Text, fields: seq<FieldSchema>, k: nat, rows: seq<Row>, v: Value)
    requires IsCollection(fields, k) && IsStore(fields, k, rows) && Fits(fields[k], v)
    ensures var key := fields[k].column; var m := Contents(key, rows);
            var e := Run(DeleteStatement(table, key), key, rows, [v]);
            && e.Changed? && e.count == (if v in m then 1 else 0) && IsStore(fields, k, e.rows)
            && Contents(key, e.rows) == m - {v}
  {
    KeptByKey(fields, k, rows, [v], 1);
    DeletedRows(fields, k, rows, v);
    DeletionKeepsStore(fields, k, rows, Some(KeyIs(fields[k].column, 1)), [v]);
  }

  // ----------------------------------------------------------------- update

  lemma {:induction false} RowDetermined(fields: seq<FieldSchema>, row: Row, values: seq<Value>)
    requires DistinctFields(fields) && IsRecord(fields, values) && IsRow(fields, row)
    requires forall i :: 0 <= i < |fields| ==> fields[i].column in row && row[fields[i].column] == values[i]
    ensures row == RowOf(fields, values)
  {
    hide RowOf;
    RecordMakesRow(fields, values);
    var made := RowOf(fields, values);
    forall c | c in row ensures row[c] == made[c] {
      assert c in ColumnNames(fields);
      var i :| 0 <= i < |fields| && ColumnNames(fields)[i] == c;
      assert fields[i].column == c;
    }
  }

  lemma {:induction false} DistinctNames(fields: seq<FieldSchema>, k: nat)
    requires IsCollection(fields, k)
    ensures Distinct(Without(ColumnNames(fields), k))
    ensures fields[k].column !in Without(ColumnNames(fields), k)
    ensures forall i :: 0 <= i < |fields| && i != k ==>
              Without(ColumnNames(fields), k)[if i < k then i else i - 1] == fields[i].column
  {}

  lemma {:induction false} WithoutWithin<X>(s: seq<X>, k: nat)
    requires k < |s|
    ensures forall x :: x in Without(s, k) ==> x in s
  {}

  /** Overwriting the other columns of the row with this key gives the new record's row. */
  lemma {:induction false} OthersOverwritten(fields: seq<FieldSchema>, k: nat, row: Row, values: seq<Value>)
    requires IsCollection(fields, k) && IsRecord(fields, values)
    requires IsRow(fields, row) && row[fields[k].column] == values[k]
    ensures Overwrite(row, Without(ColumnNames(fields), k), Without(values, k)) == RowOf(fields, values)
  {
    hide Overwrite, RowOf, Without;
    var out := Overwrite(row, Without(ColumnNames(fields), k), Without(values, k));
    OthersSet(fields, k, row, values);
    OverwriteKeys(row, Without(ColumnNames(fields), k), Without(values, k));
    WithoutWithin(ColumnNames(fields), k);
    assert IsRow(fields, out);
    RowDetermined(fields, out, values);
  }

  lemma {:induction false} OthersSet(fields: seq<FieldSchema>, k: nat, row: Row, values: seq<Value>)
    requires IsCollection(fields, k) && IsRecord(fields, values)
    requires IsRow(fields, row) && row[fields[k].column] == values[k]
    ensures var out := Overwrite(row, Without(ColumnNames(fields), k), Without(values, k));
            forall i :: 0 <= i < |fields| ==> fields[i].column in out && out[fields[i].column] == values[i]
  {
    var out := Overwrite(row, Without(ColumnNames(fields), k), Without(values, k));
    hide Overwrite, IsCollection, Fits;
    forall i | 0 <= i < |fields| ensures fields[i].column in out && out[fields[i].column] == values[i] {
      ColumnSet(fields, k, row, values, i);
    }
  }

  lemma {:induction false} ColumnSet(fields: seq<FieldSchema>, k: nat, row: Row, values: seq<Value>, i: nat)
    requires IsCollection(fields, k) && |values| == |fields| && i < |fields|
    requires fields[k].column in row && row[fields[k].column] == values[k]
    ensures var out := Overwrite(row, Without(ColumnNames(fields), k), Without(values, k));
            fields[i].column in out && out[fields[i].column] == values[i]
  {
    var names, vs := Without(ColumnNames(fields), k), Without(values, k);
    DistinctNames(fields, k);
    hide Overwrite, IsCollection;
    if i == k {
      OverwriteOutside(row, names, vs, fields[k].column);
    } else {
      OverwriteInside(row, names, vs, if i < k then i else i - 1);
    }
  }

  lemma {:induction false} UpdatedRowIs(fields: seq<FieldSchema>, k: nat, row: Row, values: seq<Value>)
    requires IsCollection(fields, k) && IsRecord(fields, values)
    requires IsRow(fields, row) && row[fields[k].column] == values[k]
    ensures UpdatedRow(Sets(MutableColumns(fields), fields[k].column), row, UpdateVector(values, k))
         == Some(RowOf(fields, values))
  {
    hide EvalAll, Overwrite, RowOf, IsRow, Fits, MutableColumns;
    var key, params := fields[k].column, UpdateVector(values, k);
    MutableAreOthers(fields, k);
    OthersOverwritten(fields, k, row, values);
    RowHasKey(fields, k, row);
    var names := Without(ColumnNames(fields), k);
    var sets := Sets(names, key);
    if names == [] {
      KeyOnlyRow(key, row, params);
    } else {
      EvalBounds(Sources(sets), row, params, 0);
      assert Targets(sets) == names;
      assert params[0..|names|] == Without(values, k);
    }
  }

  lemma {:induction false} KeyOnlyRow(key: Text, row: Row, params: seq<Value>)
    requires key in row
    ensures UpdatedRow([Assignment(key, Column(key))], row, params) == Some(Overwrite(row, [], []))
  {
    var sets := [Assignment(key, Column(key))];
    assert Sources(sets) == [Column(key)] && Targets(sets) == [key];
    assert [Column(key)][1..] == [];
    assert [row[key]] + [] == [row[key]];
    assert EvalAll([Column(key)], row, params) == Some([row[key]]);
    assert [key][1..] == [] && [row[key]][1..] == [];
    assert row[key := row[key]] == row;
  }

  function Replaced(key: Text, v: Value, newer: Row, rows: seq<Row>): seq<Row>
  {
    if rows == [] then []
    else [if key in rows[0] && rows[0][key] == v then newer else rows[0]] + Replaced(key, v, newer, rows[1..])
  }

  lemma {:induction false} HeadReplaced(fields: seq<FieldSchema>, k: nat, rows: seq<Row>, values: seq<Value>)
    requires IsCollection(fields, k) && IsStore(fields, k, rows) && IsRecord(fields, values) && rows != []
    ensures var key := fields[k].column; var names := MutableColumns(fields); var params := UpdateVector(values, k);
            (if Keeps(Some(KeyIs(key, |names| + 1)), rows[0], params) then UpdatedRow(Sets(names, key), rows[0], params)
             else Some(rows[0]))
            == Some(if key in rows[0] && rows[0][key] == values[k] then RowOf(fields, values) else rows[0])
  {
    hide MutableColumns, Sets, RowOf, UpdatedRow, Keeps;
    var key, names, params := fields[k].column, MutableColumns(fields), UpdateVector(values, k);
    assert IsRow(fields, rows[0]);
    MutableAreOthers(fields, k);
    assert params[|names|] == values[k];
    KeyFilterKeeps(fields[k], rows[0], params, |names| + 1);
    if rows[0][key] == values[k] {
      UpdatedRowIs(fields, k, rows[0], values);
    }
  }

  lemma {:induction false} UpdateReplaces(fields: seq<FieldSchema>, k: nat, rows: seq<Row>, values: seq<Value>)
    requires IsCollection(fields, k) && IsStore(fields, k, rows) && IsRecord(fields, values)
    ensures var key := fields[k].column; var names := MutableColumns(fields);
            UpdateRows(Sets(names, key), Some(KeyIs(key, |names| + 1)), rows, UpdateVector(values, k))
            == Some(Replaced(key, values[k], RowOf(fields, values), rows))
  {
    if rows != [] {
      StoreTail(fields, k, rows);
      HeadReplaced(fields, k, rows, values);
      hide IsStore, IsRow, IsRecord, IsCollection, Keeps, UpdatedRow, Sets, MutableColumns, RowOf, UpdateVector;
      UpdateReplaces(fields, k, rows[1..], values);
    }
  }

  lemma {:induction false} ReplacedContents(fields: seq<FieldSchema>, k: nat, rows: seq<Row>, v: Value, newer: Row)
    requires IsCollection(fields, k) && IsStore(fields, k, rows)
    requires IsRow(fields, newer) && newer[fields[k].column] == v
    ensures var key := fields[k].column; var m := Contents(key, rows);
            Contents(key, Replaced(key, v, newer, rows)) == if v in m then m[v := newer] else m
  {
    if rows != [] {
      var key := fields[k].column;
      StoreTail(fields, k, rows);
      HeadKeyFresh(fields, k, rows);
      assert key in rows[0] && key in newer;
      hide IsStore, IsRow, IsCollection, Contents, Replaced;
      ReplacedContents(fields, k, rows[1..], v, newer);
      ContentsOfReplacement(key, v, newer, rows);
      MapReplace(Contents(key, rows[1..]), rows[0][key], rows[0], v, newer);
    }
  }

  lemma {:induction false} ContentsOfReplacement(key: Text, v: Value, newer: Row, rows: seq<Row>)
    requires rows != [] && key in rows[0] && key in newer && newer[key] == v
    ensures Contents(key, rows) == Contents(key, rows[1..])[rows[0][key] := rows[0]]
    ensures Contents(key, Replaced(key, v, newer, rows))
         == Contents(key, Replaced(key, v, newer, rows[1..]))[rows[0][key] := if rows[0][key] == v then newer else rows[0]]
  {
    assert Replaced(key, v, newer, rows)[1..] == Replaced(key, v, newer, rows[1..]);
  }

  lemma {:induction false} MapReplace<K, V>(m: map<K, V>, k: K, x: V, v: K, newer: V)
    requires k !in m
    ensures var full := m[k := x];
            (if v in m then m[v := newer] else m)[k := if k == v then newer else x]
            == if v in full then full[v := newer] else full
  {}

  lemma {:induction false} ReplacedAt(key: Text, v: Value, newer: Row, rows: seq<Row>, i: nat)
    requires i < |rows|
    ensures |Replaced(key, v, newer, rows)| == |rows|
    ensures Replaced(key, v, newer, rows)[i] == if key in rows[i] && rows[i][key] == v then newer else rows[i]
  {
    if |rows| > 1 {
      ReplacedAt(key, v, newer, rows[1..], if i == 0 then 0 else i - 1);
    }
  }

  lemma {:induction false} ReplacedStore(fields: seq<FieldSchema>, k: nat, rows: seq<Row>, v: Value, newer: Row)
    requires k < |fields| && IsStore(fields, k, rows) && IsRow(fields, newer) && newer[fields[k].column] == v
    ensures IsStore(fields, k, Replaced(fields[k].column, v, newer, rows))
  {
    hide Replaced, IsRow;
    var key := fields[k].column;
    var out := Replaced(key, v, newer, rows);
    if rows == [] {
      ReplacedNothing(key, v, newer);
    } else {
      ReplacedAt(key, v, newer, rows, 0);
      forall i | 0 <= i < |rows| ensures IsRow(fields, out[i]) && key in out[i] && out[i][key] == rows[i][key] {
        ReplacedAt(key, v, newer, rows, i);
        RowHasKey(fields, k, newer);
      }
    }
  }

  lemma {:induction false} ReplacedNothing(key: Text, v: Value, newer: Row)
    ensures Replaced(key, v, newer, []) == []
  {}

  lemma {:induction false} RowHasKey(fields: seq<FieldSchema>, k: nat, row: Row)
    requires k < |fields| && IsRow(fields, row)
    ensures fields[k].column in row
  {}

  lemma {:induction false} UpdateRuns(table: Text, fields: seq<FieldSchema>, k: nat, rows: seq<Row>, values: seq<Value>)
    requires IsCollection(fields, k) && IsStore(fields, k, rows) && IsRecord(fields, values)
    ensures var key := fields[k].column; var out := Replaced(key, values[k], RowOf(fields, values), rows);
            Run(UpdateStatement(table, MutableColumns(fields), key), key, rows, UpdateVector(values, k))
            == if KeysDiffer(key, out) then Changed(out, if values[k] in Contents(key, rows) then 1 else 0) else Conflict
  {
    hide Contents, RowOf, Replaced, Kept, UpdateRows, MutableColumns, Sets, IsStore, KeysDiffer, UpdateVector, Fits;
    VectorEndsWithKey(fields, k, values);
    KeptByKey(fields, k, rows, UpdateVector(values, k), |MutableColumns(fields)| + 1);
    UpdateReplaces(fields, k, rows, values);
  }

  lemma {:induction false} VectorEndsWithKey(fields: seq<FieldSchema>, k: nat, values: seq<Value>)
    requires IsCollection(fields, k) && IsRecord(fields, values)
    ensures |UpdateVector(values, k)| == |MutableColumns(fields)| + 1
    ensures UpdateVector(values, k)[|MutableColumns(fields)|] == values[k]
    ensures Fits(fields[k], values[k])
  {
    MutableAreOthers(fields, k);
  }

  /** UPDATE with the rearranged values replaces the record under its key, if
      there is one, and nothing else. */
  lemma {:induction false} UpdateActs(table: Text, fields: seq<FieldSchema>, k: nat, rows: seq<Row>, values: seq<Value>)
    requires IsCollection(fields, k) && IsStore(fields, k, rows) && IsRecord(fields, values)
    ensures var key := fields[k].column; var m := Contents(key, rows);
            var e := Run(UpdateStatement(table, MutableColumns(fields), key), key, rows, UpdateVector(values, k));
            && e.Changed? && e.count == (if values[k] in m then 1 else 0) && IsStore(fields, k, e.rows)
            && Contents(key, e.rows) == if values[k] in m then m[values[k] := RowOf(fields, values)] else m
  {
    RecordMakesRow(fields, values);
    UpdateRuns(table, fields, k, rows, values);
    hide Run, Contents, IsRow, RowOf, Replaced, IsRecord, MutableColumns;
    ReplacedContents(fields, k, rows, values[k], RowOf(fields, values));
    ReplacedStore(fields, k, rows, values[k], RowOf(fields, values));
  }
}
