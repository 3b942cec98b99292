/** Whole runs of generated CRUD calls, from SQL text to table, refine a map. */
module CrudRuns {
  import opened Basics
  import opened SqlText
  import opened SqlSyntax
  import opened SqlEval
  import opened Schema
  import opened QueryCompiler
  import QueryMeaning
  import opened CrudText
  import opened CrudMeaning
  import opened Crud

  datatype Call = Add(values: seq<Value>) | Replace(values: seq<Value>) | Remove(key: Value)

  /** `Done(n)`: n rows changed. `Broken`: the text does not prepare, the
      parameter count does not match, or evaluation fails. */
  datatype Outcome = Done(count: nat) | Rejected | Broken

  ghost predicate IsCall(s: CollectionSchema, k: nat, call: Call)
    requires k < |s.fields|
  {
    if call.Remove? then Fits(s.fields[k], call.key) else IsRecord(s.fields, call.values)
  }

  function TextOf(s: CollectionSchema, k: nat, call: Call): Text
    requires k < |s.fields|
  {
    match call
    case Add(_) => InsertSql(s.table, s.fields)
    case Replace(_) => UpdateSql(s.table, s.fields, s.fields[k].column)
    case Remove(_) => DeleteSql(s.table, s.fields[k].column)
  }

  function VectorOf(k: nat, call: Call): seq<Value>
    requires call.Replace? ==> k < |call.values|
  {
    match call
    case Add(values) => values
    case Replace(values) => UpdateVector(values, k)
    case Remove(key) => [key]
  }

  // ------------------------------------------------------- unique indexes

  /** Equal in every column of an index; NULL equals nothing. */
  ghost predicate SameOn(columns: seq<Text>, a: Row, b: Row)
  {
    forall c :: c in columns ==> c in a && c in b && !a[c].Null? && !b[c].Null? && SameValue(a[c], b[c])
  }

  /** Two rows that some unique index of the collection forbids together. */
  ghost predicate Clash(indexes: seq<IndexSchema>, a: Row, b: Row)
  {
    exists i :: 0 <= i < |indexes| && indexes[i].unique && SameOn(indexes[i].columns, a, b)
  }

  ghost predicate UniquesHold(indexes: seq<IndexSchema>, rows: seq<Row>)
  {
    forall i, j :: 0 <= i < j < |rows| ==> !Clash(indexes, rows[i], rows[j])
  }

  /** No two records of a map clash. */
  ghost predicate UniqueRecords(indexes: seq<IndexSchema>, m: map<Value, Row>)
  {
    forall v, w :: v in m && w in m && v != w ==> !Clash(indexes, m[v], m[w])
  }

  lemma {:induction false} ClashIsSymmetric(indexes: seq<IndexSchema>, a: Row, b: Row)
    ensures Clash(indexes, a, b) ==> Clash(indexes, b, a)
  {
    if Clash(indexes, a, b) {
      var i :| 0 <= i < |indexes| && indexes[i].unique && SameOn(indexes[i].columns, a, b);
      assert SameOn(indexes[i].columns, b, a);
    }
  }

  /** Every row of a store is the map's record for its key. */
  lemma {:induction false} ContentsAt(fields: seq<FieldSchema>, k: nat, rows: seq<Row>, i: nat)
    requires IsKeyAt(fields, k) && IsStore(fields, k, rows) && i < |rows|
    ensures var key := fields[k].column;
            key in rows[i] && rows[i][key] in Contents(key, rows) && Contents(key, rows)[rows[i][key]] == rows[i]
  {
    hide Fits, SameValue;
    var key := fields[k].column;
    StoreTail(fields, k, rows);
    assert key in rows[0] && key in rows[i];
    if i > 0 {
      ContentsAt(fields, k, rows[1..], i - 1);
      HeadKeyFresh(fields, k, rows);
    }
  }

  /** Different rows of a store have different keys. */
  lemma {:induction false} KeysApart(fields: seq<FieldSchema>, k: nat, rows: seq<Row>, i: nat, j: nat)
    requires IsKeyAt(fields, k) && IsStore(fields, k, rows) && i < j < |rows|
    ensures fields[k].column in rows[i] && fields[k].column in rows[j]
    ensures rows[i][fields[k].column] != rows[j][fields[k].column]
  {
    assert IsRow(fields, rows[i]) && IsRow(fields, rows[j]);
    SameKindSame(fields[k], rows[i][fields[k].column], rows[j][fields[k].column]);
  }

  /** The unique indexes hold of a table exactly when they hold of its map. */
  lemma {:induction false} UniquesOnMap(fields: seq<FieldSchema>, k: nat, indexes: seq<IndexSchema>, rows: seq<Row>)
    requires IsKeyAt(fields, k) && IsStore(fields, k, rows)
    ensures UniquesHold(indexes, rows) <==> UniqueRecords(indexes, Contents(fields[k].column, rows))
  {
    hide Clash, Contents, IsRow, SameValue;
    var key := fields[k].column;
    var m := Contents(key, rows);
    if UniqueRecords(indexes, m) {
      forall i, j | 0 <= i < j < |rows| ensures !Clash(indexes, rows[i], rows[j]) {
        ContentsAt(fields, k, rows, i);
        ContentsAt(fields, k, rows, j);
        KeysApart(fields, k, rows, i, j);
      }
    }
    if UniquesHold(indexes, rows) {
      forall v, w | v in m && w in m && v != w ensures !Clash(indexes, m[v], m[w]) {
        ContentsOf(key, rows, v);
        ContentsOf(key, rows, w);
        var i :| 0 <= i < |rows| && rows[i][key] == v;
        var j :| 0 <= j < |rows| && rows[j][key] == w;
        ContentsAt(fields, k, rows, i);
        ContentsAt(fields, k, rows, j);
        ClashIsSymmetric(indexes, rows[i], rows[j]);
      }
    }
  }

  // -------------------------------------------------------------- execution

  /** Prepares the text, which must be a write to this table, binds exactly as many
      values as it has parameters, runs it, and rejects a result that a unique index
      forbids. */
  ghost function Execute(
      sql: Text, params: seq<Value>, table: Text, key: Text, indexes: seq<IndexSchema>, rows: seq<Row>)
    : (seq<Row>, Outcome)
  {
    match Prepare(sql)
    case None => (rows, Broken)
    case Some(p) =>
      if p.parameterCount != |params| || p.statement.Select? || p.statement.table != table then (rows, Broken)
      else
        match Run(p.statement, key, rows, params)
        case Changed(out, n) => if UniquesHold(indexes, out) then (out, Done(n)) else (rows, Rejected)
        case Conflict => (rows, Rejected)
        case Failed => (rows, Broken)
  }

  /** The same call on a map from keys to rows, unique indexes aside. */
  ghost function OnPlainMap(s: CollectionSchema, k: nat, call: Call, m: map<Value, Row>): (map<Value, Row>, Outcome)
    requires k < |s.fields| && IsCall(s, k, call)
  {
    match call
    case Add(values) =>
      if values[k] in m then (m, Rejected) else (m[values[k] := RowOf(s.fields, values)], Done(1))
    case Replace(values) =>
      if values[k] in m then (m[values[k] := RowOf(s.fields, values)], Done(1)) else (m, Done(0))
    case Remove(key) => (m - {key}, Done(if key in m then 1 else 0))
  }

  /** The call on a map in which no two records may clash. */
  ghost function OnMap(s: CollectionSchema, k: nat, call: Call, m: map<Value, Row>): (map<Value, Row>, Outcome)
    requires k < |s.fields| && IsCall(s, k, call)
  {
    var (after, outcome) := OnPlainMap(s, k, call, m);
    if UniqueRecords(s.indexes, after) then (after, outcome) else (m, Rejected)
  }

  /** A stored table that satisfies the collection's unique indexes. */
  ghost predicate IsTable(s: CollectionSchema, k: nat, rows: seq<Row>)
    requires k < |s.fields|
  {
    IsStore(s.fields, k, rows) && UniquesHold(s.indexes, rows)
  }

  ghost predicate IsKeyed(s: CollectionSchema, k: nat)
  {
    ValidSchema(s) && IsKeyAt(s.fields, k)
  }

  lemma {:induction false} NamesClean(s: CollectionSchema, k: nat)
    requires IsKeyed(s, k)
    ensures NulFree(s.table) && NulFree(s.fields[k].column) && s.fields != [] && IsCollection(s.fields, k)
    ensures QueryMeaning.CleanNames(ColumnNames(s.fields)) && QueryMeaning.CleanNames(MutableColumns(s.fields))
  {
    MutableAreOthers(s.fields, k);
  }

  /** What a call does when only the primary key is checked: the effect of its
      statement, with the parameters its text has. */
  ghost predicate Plainly(s: CollectionSchema, k: nat, call: Call, rows: seq<Row>, e: Effect)
    requires k < |s.fields| && IsCall(s, k, call)
  {
    var p := Prepare(TextOf(s, k, call));
    && p.Some? && p.value.parameterCount == |VectorOf(k, call)|
    && !p.value.statement.Select? && p.value.statement.table == s.table
    && Run(p.value.statement, s.fields[k].column, rows, VectorOf(k, call)) == e
  }

  /** An effect that is the plain map's. */
  ghost predicate Agrees(s: CollectionSchema, k: nat, call: Call, rows: seq<Row>, e: Effect)
    requires k < |s.fields| && IsCall(s, k, call)
  {
    var key := s.fields[k].column;
    var (after, outcome) := OnPlainMap(s, k, call, Contents(key, rows));
    match e
    case Changed(out, n) => IsStore(s.fields, k, out) && Contents(key, out) == after && outcome == Done(n)
    case Conflict => after == Contents(key, rows) && outcome == Rejected
    case Failed => false
  }

  lemma {:induction false} AddRefines(s: CollectionSchema, k: nat, values: seq<Value>, rows: seq<Row>) returns (e: Effect)
    requires IsKeyed(s, k) && IsStore(s.fields, k, rows) && IsRecord(s.fields, values)
    ensures Plainly(s, k, Add(values), rows, e) && Agrees(s, k, Add(values), rows, e)
  {
    hide Run, Prepare, InsertSql, Contents, IsStore, RowOf, ValidSchema;
    NamesClean(s, k);
    InsertPrepares(s.table, s.fields);
    InsertActs(s.table, s.fields, k, rows, values);
    e := Run(InsertStatement(s.table, ColumnNames(s.fields)), s.fields[k].column, rows, values);
  }

  lemma {:induction false} ReplaceRefines(s: CollectionSchema, k: nat, values: seq<Value>, rows: seq<Row>) returns (e: Effect)
    requires IsKeyed(s, k) && IsStore(s.fields, k, rows) && IsRecord(s.fields, values)
    ensures Plainly(s, k, Replace(values), rows, e) && Agrees(s, k, Replace(values), rows, e)
  {
    hide Run, Prepare, UpdateSql, Contents, IsStore, RowOf, ValidSchema, UpdateVector, MutableColumns;
    NamesClean(s, k);
    VectorEndsWithKey(s.fields, k, values);
    UpdatePrepares(s.table, s.fields, s.fields[k].column);
    UpdateActs(s.table, s.fields, k, rows, values);
    e := Run(UpdateStatement(s.table, MutableColumns(s.fields), s.fields[k].column), s.fields[k].column, rows,
             UpdateVector(values, k));
  }

  lemma {:induction false} RemoveRefines(s: CollectionSchema, k: nat, v: Value, rows: seq<Row>) returns (e: Effect)
    requires IsKeyed(s, k) && IsStore(s.fields, k, rows) && Fits(s.fields[k], v)
    ensures Plainly(s, k, Remove(v), rows, e) && Agrees(s, k, Remove(v), rows, e)
  {
    hide Run, Prepare, DeleteSql, Contents, IsStore, ValidSchema;
    NamesClean(s, k);
    DeletePrepares(s.table, s.fields[k].column);
    DeleteActs(s.table, s.fields, k, rows, v);
    e := Run(DeleteStatement(s.table, s.fields[k].column), s.fields[k].column, rows, [v]);
  }

  /** One call, from text to table. */
  ghost function Perform(s: CollectionSchema, k: nat, call: Call, rows: seq<Row>): (seq<Row>, Outcome)
    requires k < |s.fields| && IsCall(s, k, call)
  {
    Execute(TextOf(s, k, call), VectorOf(k, call), s.table, s.fields[k].column, s.indexes, rows)
  }

  lemma {:induction false} CallRefinesMap(s: CollectionSchema, k: nat, call: Call, rows: seq<Row>)
    requires IsKeyed(s, k) && IsTable(s, k, rows) && IsCall(s, k, call)
    ensures var key := s.fields[k].column;
            var (out, outcome) := Perform(s, k, call, rows);
            && IsTable(s, k, out)
            && (Contents(key, out), outcome) == OnMap(s, k, call, Contents(key, rows))
  {
    hide Run, Prepare, OnPlainMap, Contents, IsStore, UniquesHold, UniqueRecords, IsRecord, Fits, TextOf, VectorOf, ValidSchema;
    var e: Effect;
    match call {
      case Add(values) => e := AddRefines(s, k, values, rows);
      case Replace(values) => e := ReplaceRefines(s, k, values, rows);
      case Remove(v) => e := RemoveRefines(s, k, v, rows);
    }
    UniquesOnMap(s.fields, k, s.indexes, rows);
    if e.Changed? {
      UniquesOnMap(s.fields, k, s.indexes, e.rows);
    }
  }

  ghost function RunCalls(s: CollectionSchema, k: nat, calls: seq<Call>, rows: seq<Row>): (seq<Row>, seq<Outcome>)
    requires k < |s.fields| && forall i :: 0 <= i < |calls| ==> IsCall(s, k, calls[i])
  {
    if calls == [] then (rows, [])
    else
      var (mid, first) := Perform(s, k, calls[0], rows);
      var (out, rest) := RunCalls(s, k, calls[1..], mid);
      (out, [first] + rest)
  }

  ghost function MapCalls(s: CollectionSchema, k: nat, calls: seq<Call>, m: map<Value, Row>)
    : (map<Value, Row>, seq<Outcome>)
    requires k < |s.fields| && forall i :: 0 <= i < |calls| ==> IsCall(s, k, calls[i])
  {
    if calls == [] then (m, [])
    else
      var (mid, first) := OnMap(s, k, calls[0], m);
      var (out, rest) := MapCalls(s, k, calls[1..], mid);
      (out, [first] + rest)
  }

  /** Every run of calls leaves the map's contents and reports the map's
      outcomes, unique indexes included; in particular no call is ever `Broken`. */
  lemma {:induction false} CallsRefineMap(s: CollectionSchema, k: nat, calls: seq<Call>, rows: seq<Row>)
    requires IsKeyed(s, k) && IsTable(s, k, rows)
    requires forall i :: 0 <= i < |calls| ==> IsCall(s, k, calls[i])
    ensures var key := s.fields[k].column;
            var (out, outcomes) := RunCalls(s, k, calls, rows);
            && IsTable(s, k, out)
            && (Contents(key, out), outcomes) == MapCalls(s, k, calls, Contents(key, rows))
  {
    if calls != [] {
      hide Perform, OnMap, Contents, IsTable, IsKeyed, IsCall;
      CallRefinesMap(s, k, calls[0], rows);
      CallsRefineMap(s, k, calls[1..], Perform(s, k, calls[0], rows).0);
    }
  }

  /** After any run, SELECT by key gives the record the map holds for the key. */
  lemma {:induction false} LookupAfterCalls(
      s: CollectionSchema, k: nat, calls: seq<Call>, rows: seq<Row>, v: Value, found: seq<Row>)
    requires IsKeyed(s, k) && IsTable(s, k, rows) && Fits(s.fields[k], v)
    requires forall i :: 0 <= i < |calls| ==> IsCall(s, k, calls[i])
    requires MayReturn(SelectStatement(s.table, ColumnNames(s.fields), s.fields[k].column),
                       RunCalls(s, k, calls, rows).0, [v], found)
    ensures var p := Prepare(SelectSql(s.table, s.fields, s.fields[k].column));
            && p == Some(Prepared(SelectStatement(s.table, ColumnNames(s.fields), s.fields[k].column), 1))
            && p.value.statement.table == s.table && p.value.statement.projection == Columns(ColumnNames(s.fields))
    ensures var m := MapCalls(s, k, calls, Contents(s.fields[k].column, rows)).0;
            found == if v in m then [m[v]] else []
  {
    hide Prepare, SelectSql, Contents, IsStore, UniquesHold, RunCalls, MapCalls, ValidSchema, MayReturn;
    NamesClean(s, k);
    SelectByKeyPrepares(s.table, s.fields, s.fields[k].column);
    CallsRefineMap(s, k, calls, rows);
    SelectActs(s.table, s.fields, k, RunCalls(s, k, calls, rows).0, v, found);
  }
}
