/** The physical schema: tables and indexes as the engine's catalogue shows them,
    the statements that change them, and the checks that compare them with a
    declared schema. */
module Catalogue {
  import opened Basics
  import opened Schema

  /** A row of `pragma_table_info`. */
  datatype Column = Column(name: Text, declared: Text, notNull: bool, primaryKey: bool)

  /** A row of `pragma_index_xinfo`; rows that are not key columns have `key` false. */
  datatype IndexPart = IndexPart(name: Text, descending: bool, collation: Text, key: bool)

  /** A row of `pragma_index_list` with its parts. */
  datatype PhysicalIndex = PhysicalIndex(table: Text, unique: bool, origin: Text, partial: bool, parts: seq<IndexPart>)

  datatype Physical = Physical(tables: map<Text, seq<Column>>, indexes: map<Text, PhysicalIndex>)

  // ---------------------------------------------------------------- checks

  function SqlName(k: ColumnType): Text
  {
    match k
    case IntegerColumn => "INTEGER"
    case RealColumn => "REAL"
    case TextColumn => "TEXT"
    case BlobColumn => "BLOB"
  }

  function FindColumn(columns: seq<Column>, name: Text): Option<Column>
  {
    if columns == [] then None else if columns[0].name == name then Some(columns[0]) else FindColumn(columns[1..], name)
  }

  predicate FieldMatches(columns: seq<Column>, f: FieldSchema)
  {
    match FindColumn(columns, f.column)
    case None => false
    case Some(c) =>
      && LowerAll(c.declared) == LowerAll(SqlName(f.kind))
      && c.notNull == !f.nullable && c.primaryKey == f.primaryKey
  }

  predicate TableMatches(p: Physical, s: CollectionSchema)
  {
    && s.table in p.tables && |p.tables[s.table]| == |s.fields|
    && forall i :: 0 <= i < |s.fields| ==> FieldMatches(p.tables[s.table], s.fields[i])
  }

  /** An ascending, named, BINARY key column. */
  predicate PlainPart(part: IndexPart)
  {
    part.name != "" && !part.descending && LowerAll(part.collation) == LowerAll("BINARY")
  }

  /** The key columns of an index, or nothing when one of them is not plain. */
  function KeyColumns(parts: seq<IndexPart>): Option<seq<Text>>
  {
    if parts == [] then Some([])
    else
      var front :- KeyColumns(parts[..|parts| - 1]);
      var last := parts[|parts| - 1];
      if !last.key then Some(front) else if PlainPart(last) then Some(front + [last.name]) else None
  }

  predicate IndexMatches(p: Physical, s: CollectionSchema, x: IndexSchema)
  {
    && x.name in p.indexes
    && var i := p.indexes[x.name];
       && i.table == s.table && i.unique == x.unique && i.origin == "c" && !i.partial
       && KeyColumns(i.parts) == Some(x.columns)
  }

  predicate IndexesMatch(p: Physical, s: CollectionSchema)
  {
    forall i :: 0 <= i < |s.indexes| ==> IndexMatches(p, s, s.indexes[i])
  }

  /** The first column of this name stands at `j`. */
  ghost predicate FirstNamed(columns: seq<Column>, name: Text, j: nat)
  {
    j < |columns| && columns[j].name == name && forall i :: 0 <= i < j ==> columns[i].name != name
  }

  /** The first column of the field's name has its type, in any letter case, its
      nullability and its key flag. */
  ghost predicate InPlace(columns: seq<Column>, f: FieldSchema)
  {
    exists j: nat ::
      && FirstNamed(columns, f.column, j)
      && LowerAll(columns[j].declared)
         == (match f.kind
             case IntegerColumn => "integer" case RealColumn => "real"
             case TextColumn => "text" case BlobColumn => "blob")
      && columns[j].notNull == !f.nullable && columns[j].primaryKey == f.primaryKey
  }

  lemma {:induction false} FieldMatchesExactly(columns: seq<Column>, f: FieldSchema)
    ensures FieldMatches(columns, f) <==> InPlace(columns, f)
  {
    LowerNames();
    var found := FindFirst(columns, f.column);
    if j: nat :| FirstNamed(columns, f.column, j) {
      assert j == found || j < found || found < j;
    }
  }

  lemma {:induction false} LowerNames()
    ensures LowerAll("INTEGER") == "integer" && LowerAll("REAL") == "real"
    ensures LowerAll("TEXT") == "text" && LowerAll("BLOB") == "blob"
  {}

  lemma {:induction false} FindFirst(columns: seq<Column>, name: Text) returns (j: nat)
    ensures FindColumn(columns, name).Some? ==> FirstNamed(columns, name, j) && FindColumn(columns, name) == Some(columns[j])
    ensures FindColumn(columns, name) == None ==> forall i :: 0 <= i < |columns| ==> columns[i].name != name
  {
    j := 0;
    if columns != [] && columns[0].name != name {
      var rest := FindFirst(columns[1..], name);
      j := rest + 1;
      assert forall i :: 0 < i < |columns| ==> columns[i] == columns[1..][i - 1];
    }
  }

  method ValidatePhysicalTable(p: Physical, s: CollectionSchema) returns (ok: bool)
    ensures ok <==> TableMatches(p, s)
    ensures ok <==>
              && s.table in p.tables && |p.tables[s.table]| == |s.fields|
              && forall i :: 0 <= i < |s.fields| ==> InPlace(p.tables[s.table], s.fields[i])
  {
    hide FieldMatches, InPlace;
    forall i | s.table in p.tables && 0 <= i < |s.fields|
      ensures FieldMatches(p.tables[s.table], s.fields[i]) <==> InPlace(p.tables[s.table], s.fields[i])
    {
      FieldMatchesExactly(p.tables[s.table], s.fields[i]);
    }
    var actual := if s.table in p.tables then p.tables[s.table] else [];
    if s.table !in p.tables || |actual| != |s.fields| { return false; }
    for n := 0 to |s.fields|
      invariant forall i :: 0 <= i < n ==> FieldMatches(actual, s.fields[i])
    {
      if !FieldMatches(actual, s.fields[n]) { return false; }
    }
    ok := true;
  }

  /** The loop over the index's columns: auxiliary ones are skipped, a key column
      that is not plain refuses, and the names must be the declared ones in order. */
  method ValidatePhysicalIndex(p: Physical, s: CollectionSchema, x: IndexSchema) returns (ok: bool)
    ensures ok <==> IndexMatches(p, s, x)
    ensures ok <==>
              && x.name in p.indexes
              && var i := p.indexes[x.name];
                 && i.table == s.table && i.unique == x.unique && i.origin == "c" && !i.partial
                 && (forall n :: 0 <= n < |i.parts| && i.parts[n].key ==>
                       && i.parts[n].name != "" && !i.parts[n].descending && LowerAll(i.parts[n].collation) == "binary")
                 && Keyed(i.parts, x.columns)
  {
    hide Keyed;
    if x.name in p.indexes {
      KeyColumnsExactly(p.indexes[x.name].parts, x.columns);
    }
    if x.name !in p.indexes || p.indexes[x.name].table != s.table { return false; }
    var actual := p.indexes[x.name];
    if actual.unique != x.unique || actual.origin != "c" || actual.partial { return false; }
    var columns: seq<Text> := [];
    var parts := actual.parts;
    for n := 0 to |parts|
      invariant KeyColumns(parts[..n]) == Some(columns)
    {
      assert parts[..n + 1][..n] == parts[..n];
      if parts[n].key {
        if !PlainPart(parts[n]) {
          NotPlainForGood(parts, n + 1);
          return false;
        }
        columns := columns + [parts[n].name];
      }
    }
    assert parts[..|parts|] == parts;
    ok := columns == x.columns;
  }

  lemma {:induction false} NotPlainForGood(parts: seq<IndexPart>, n: nat)
    requires n <= |parts| && KeyColumns(parts[..n]) == None
    ensures KeyColumns(parts) == None
    decreases |parts| - n
  {
    if n == |parts| {
      assert parts[..n] == parts;
    } else {
      assert parts[..n + 1][..n] == parts[..n];
      NotPlainForGood(parts, n + 1);
    }
  }

  /** `at` lists the key columns of an index, in order and completely. */
  ghost predicate KeyPartsAt(parts: seq<IndexPart>, at: seq<nat>)
  {
    && (forall i :: 0 <= i < |at| ==> at[i] < |parts| && parts[at[i]].key)
    && (forall i, j :: 0 <= i < j < |at| ==> at[i] < at[j])
    && (forall n: nat :: n < |parts| && parts[n].key ==> n in at)
  }

  /** The listed parts have these names. */
  ghost predicate NamedAt(parts: seq<IndexPart>, at: seq<nat>, names: seq<Text>)
  {
    |at| == |names| && forall i :: 0 <= i < |at| ==> at[i] < |parts| && parts[at[i]].name == names[i]
  }

  ghost predicate Keyed(parts: seq<IndexPart>, names: seq<Text>)
  {
    exists at: seq<nat> :: KeyPartsAt(parts, at) && NamedAt(parts, at, names)
  }

  lemma {:induction false} KeyedNothing(names: seq<Text>)
    ensures Keyed([], names) <==> names == []
  {
    if names == [] {
      assert KeyPartsAt([], []) && NamedAt([], [], names);
    }
    forall at: seq<nat> ensures NamedAt([], at, names) ==> names == [] {
      if names != [] && |at| == |names| {
        assert !(at[0] < 0);
      }
    }
  }

  lemma {:induction false} KeyedSkips(front: seq<IndexPart>, last: IndexPart, names: seq<Text>)
    requires !last.key
    ensures Keyed(front + [last], names) <==> Keyed(front, names)
  {
    var parts := front + [last];
    if at: seq<nat> :| KeyPartsAt(front, at) && NamedAt(front, at, names) {
      assert KeyPartsAt(parts, at) && NamedAt(parts, at, names);
    }
    if at: seq<nat> :| KeyPartsAt(parts, at) && NamedAt(parts, at, names) {
      assert forall n :: 0 <= n < |front| ==> front[n] == parts[n];
      assert forall i :: 0 <= i < |at| ==> at[i] != |front|;
      assert KeyPartsAt(front, at) && NamedAt(front, at, names);
    }
  }

  lemma {:induction false} KeyedTakes(front: seq<IndexPart>, last: IndexPart, names: seq<Text>)
    requires last.key
    ensures Keyed(front + [last], names) <==>
              names != [] && names[|names| - 1] == last.name && Keyed(front, names[..|names| - 1])
  {
    hide KeyPartsAt, NamedAt;
    if names != [] && names[|names| - 1] == last.name {
      if at: seq<nat> :| KeyPartsAt(front, at) && NamedAt(front, at, names[..|names| - 1]) {
        NextKeyPart(front, last, at, names);
      }
    }
    if at: seq<nat> :| KeyPartsAt(front + [last], at) && NamedAt(front + [last], at, names) {
      LastKeyPart(front, last, at, names);
    }
  }

  lemma {:induction false} NextKeyPart(front: seq<IndexPart>, last: IndexPart, at: seq<nat>, names: seq<Text>)
    requires last.key && names != [] && names[|names| - 1] == last.name
    requires KeyPartsAt(front, at) && NamedAt(front, at, names[..|names| - 1])
    ensures Keyed(front + [last], names)
  {
    var parts, n := front + [last], |front|;
    var longer := at + [n];
    assert forall i :: 0 <= i < |at| ==> longer[i] == at[i];
    forall j: nat | j < |parts| && parts[j].key ensures j in longer {
      if j < n {
        assert front[j].key;
      }
      assert longer[|at|] == n;
    }
    assert KeyPartsAt(parts, longer);
    assert NamedAt(parts, longer, names);
  }

  lemma {:induction false} LastKeyPart(front: seq<IndexPart>, last: IndexPart, at: seq<nat>, names: seq<Text>)
    requires last.key && KeyPartsAt(front + [last], at) && NamedAt(front + [last], at, names)
    ensures names != [] && names[|names| - 1] == last.name && Keyed(front, names[..|names| - 1])
  {
    var parts, n, m := front + [last], |front|, |at| - 1;
    assert parts[n].key;
    var i :| 0 <= i < |at| && at[i] == n;
    assert forall k :: 0 <= k < m ==> at[k] < at[m];
    var shorter := at[..m];
    assert forall j :: 0 <= j < n ==> parts[j] == front[j];
    forall j: nat | j < |front| && front[j].key ensures j in shorter {
      var k :| 0 <= k < |at| && at[k] == j;
      assert shorter[k] == j;
    }
    assert KeyPartsAt(front, shorter) && NamedAt(front, shorter, names[..m]);
  }

  /** The key columns are these exactly when every key part is plain and the key
      parts, in order, have these names. */
  lemma {:induction false} KeyColumnsExactly(parts: seq<IndexPart>, names: seq<Text>)
    ensures KeyColumns(parts) == Some(names) <==>
              && (forall n :: 0 <= n < |parts| && parts[n].key ==>
                    parts[n].name != "" && !parts[n].descending && LowerAll(parts[n].collation) == "binary")
              && Keyed(parts, names)
  {
    hide Keyed;
    if parts == [] {
      KeyedNothing(names);
    } else {
      var n := |parts| - 1;
      var front, last := parts[..n], parts[n];
      assert parts == front + [last];
      assert LowerAll("BINARY") == "binary";
      if !last.key {
        KeyedSkips(front, last, names);
        KeyColumnsExactly(front, names);
      } else {
        KeyedTakes(front, last, names);
        if names != [] {
          KeyColumnsExactly(front, names[..|names| - 1]);
          assert names == names[..|names| - 1] + [names[|names| - 1]];
        }
      }
    }
  }

  method ValidatePhysicalIndexes(p: Physical, s: CollectionSchema) returns (ok: bool)
    ensures ok <==> IndexesMatch(p, s)
    ensures ok <==> forall i :: 0 <= i < |s.indexes| ==> IndexMatches(p, s, s.indexes[i])
  {
    hide IndexMatches;
    for n := 0 to |s.indexes|
      invariant forall i :: 0 <= i < n ==> IndexMatches(p, s, s.indexes[i])
    {
      var one := ValidatePhysicalIndex(p, s, s.indexes[n]);
      if !one { return false; }
    }
    ok := true;
  }

  // ------------------------------------------------------------- statements

  /** Object names the engine keeps for itself. */
  predicate EngineReserved(name: Text) { "sqlite_" <= name }

  function ColumnsOf(fields: seq<FieldSchema>): seq<Column>
  {
    seq(|fields|, i requires 0 <= i < |fields| =>
      Column(fields[i].column, SqlName(fields[i].kind), !fields[i].nullable, fields[i].primaryKey))
  }

  /** CREATE TABLE IF NOT EXISTS. Tables and indexes share one name space. */
  function CreateTable(p: Physical, s: CollectionSchema): Option<Physical>
  {
    if EngineReserved(s.table) then None
    else if s.table in p.tables then Some(p)
    else if s.table in p.indexes then None
    else Some(p.(tables := p.tables[s.table := ColumnsOf(s.fields)]))
  }

  function KeyParts(columns: seq<Text>): (parts: seq<IndexPart>)
    ensures |parts| == |columns|
    ensures forall i :: 0 <= i < |columns| ==> parts[i] == IndexPart(columns[i], false, "BINARY", true)
  {
    seq(|columns|, i requires 0 <= i < |columns| => IndexPart(columns[i], false, "BINARY", true))
  }

  /** The index of a CREATE INDEX: its columns, then the row id. */
  function MadeIndex(table: Text, x: IndexSchema): PhysicalIndex
  {
    PhysicalIndex(table, x.unique, "c", false, KeyParts(x.columns) + [IndexPart("", false, "BINARY", false)])
  }

  predicate HasColumns(p: Physical, table: Text, columns: seq<Text>)
  {
    table in p.tables && forall i :: 0 <= i < |columns| ==> FindColumn(p.tables[table], columns[i]) != None
  }

  /** CREATE INDEX IF NOT EXISTS. */
  function CreateIndex(p: Physical, s: CollectionSchema, x: IndexSchema): Option<Physical>
  {
    if s.table !in p.tables || EngineReserved(x.name) || x.name in p.tables then None
    else if x.name in p.indexes then Some(p)
    else if !HasColumns(p, s.table, x.columns) then None
    else Some(p.(indexes := p.indexes[x.name := MadeIndex(s.table, x)]))
  }

  /** DROP INDEX IF EXISTS; an index that backs a constraint cannot be dropped. */
  function DropIndex(p: Physical, name: Text): Option<Physical>
  {
    if name !in p.indexes then Some(p)
    else if p.indexes[name].origin != "c" then None
    else Some(p.(indexes := p.indexes - {name}))
  }

  function CreateIndexes(p: Physical, s: CollectionSchema, n: nat): (r: Option<Physical>)
    requires n <= |s.indexes|
    ensures r.Some? ==> r.value.tables == p.tables
  {
    if n == 0 then Some(p)
    else
      var q :- CreateIndexes(p, s, n - 1);
      CreateIndex(q, s, s.indexes[n - 1])
  }

  /** The declared index survives a migration unchanged. */
  predicate Retained(earlier: IndexSchema, to: CollectionSchema)
  {
    exists i :: 0 <= i < |to.indexes|
      && to.indexes[i].id == earlier.id && to.indexes[i].name == earlier.name
      && to.indexes[i].fingerprint == earlier.fingerprint && to.indexes[i].descriptor == earlier.descriptor
  }

  function DropIndexes(p: Physical, from: CollectionSchema, to: CollectionSchema, n: nat): (r: Option<Physical>)
    requires n <= |from.indexes|
    ensures r.Some? ==> r.value.tables == p.tables
  {
    if n == 0 then Some(p)
    else
      var q :- DropIndexes(p, from, to, n - 1);
      if Retained(from.indexes[n - 1], to) then Some(q) else DropIndex(q, from.indexes[n - 1].name)
  }

  // -------------------------------------------- what the statements achieve

  lemma {:induction false} TablesDecide(p: Physical, q: Physical, s: CollectionSchema)
    requires p.tables == q.tables
    ensures TableMatches(p, s) == TableMatches(q, s)
  {}

  lemma {:induction false} FindsColumn(fields: seq<FieldSchema>, i: nat)
    requires i < |fields| && forall j :: 0 <= j < i ==> fields[j].column != fields[i].column
    ensures FindColumn(ColumnsOf(fields), fields[i].column) == Some(ColumnsOf(fields)[i])
  {
    if i > 0 {
      var rest := fields[1..];
      assert ColumnsOf(fields)[1..] == ColumnsOf(rest);
      assert rest[i - 1] == fields[i];
      FindsColumn(rest, i - 1);
    }
  }

  /** A created table has exactly the declared columns. */
  lemma {:induction false} CreatedTableMatches(p: Physical, s: CollectionSchema)
    requires DistinctFields(s.fields) && s.table !in p.tables && CreateTable(p, s).Some?
    ensures TableMatches(CreateTable(p, s).value, s)
  {
    forall i | 0 <= i < |s.fields| ensures FieldMatches(ColumnsOf(s.fields), s.fields[i]) {
      FindsColumn(s.fields, i);
    }
  }

  lemma {:induction false} MadeKeyColumns(columns: seq<Text>, n: nat)
    requires n <= |columns| && forall i :: 0 <= i < |columns| ==> columns[i] != ""
    ensures KeyColumns(KeyParts(columns)[..n]) == Some(columns[..n])
  {
    if n > 0 {
      var parts := KeyParts(columns);
      MadeKeyColumns(columns, n - 1);
      assert parts[..n][..n - 1] == parts[..n - 1];
      assert columns[..n] == columns[..n - 1] + [columns[n - 1]];
    }
  }

  /** A created index is the declared one. */
  lemma {:induction false} MadeIndexMatches(table: Text, x: IndexSchema)
    requires forall i :: 0 <= i < |x.columns| ==> x.columns[i] != ""
    ensures KeyColumns(MadeIndex(table, x).parts) == Some(x.columns)
  {
    var parts := KeyParts(x.columns);
    MadeKeyColumns(x.columns, |x.columns|);
    assert parts[..|x.columns|] == parts && x.columns[..|x.columns|] == x.columns;
    var all := parts + [IndexPart("", false, "BINARY", false)];
    assert all[..|all| - 1] == parts;
  }

  /** A table that matches has every column an index of the schema names. */
  lemma {:induction false} MatchingTableHasColumns(p: Physical, s: CollectionSchema, x: IndexSchema)
    requires TableMatches(p, s) && ValidIndex(x, s.fields)
    ensures HasColumns(p, s.table, x.columns)
  {
    forall i | 0 <= i < |x.columns| ensures FindColumn(p.tables[s.table], x.columns[i]) != None {
      assert HasColumn(s.fields, x.columns[i]);
      var j :| 0 <= j < |s.fields| && s.fields[j].column == x.columns[i];
      assert FieldMatches(p.tables[s.table], s.fields[j]);
    }
  }

  lemma {:induction false} ColumnsNamed(s: CollectionSchema, x: IndexSchema)
    requires ValidFields(s.fields) && ValidIndex(x, s.fields)
    ensures forall i :: 0 <= i < |x.columns| ==> x.columns[i] != ""
  {
    forall i | 0 <= i < |x.columns| ensures x.columns[i] != "" {
      assert HasColumn(s.fields, x.columns[i]);
    }
  }

  // -------------------------------------------------- which indexes survive

  /** Dropping takes exactly the names of indexes that are not retained. */
  lemma {:induction false} DroppedIndexes(p: Physical, from: CollectionSchema, to: CollectionSchema, n: nat, name: Text)
    requires n <= |from.indexes| && DropIndexes(p, from, to, n).Some?
    ensures var q := DropIndexes(p, from, to, n).value;
            && (name in q.indexes <==>
                  name in p.indexes && forall i :: 0 <= i < n && from.indexes[i].name == name ==> Retained(from.indexes[i], to))
            && (name in q.indexes ==> q.indexes[name] == p.indexes[name])
  {
    if n > 0 {
      hide Retained;
      DroppedIndexes(p, from, to, n - 1, name);
    }
  }

  /** Creating keeps every index there was and adds only the declared names. */
  lemma {:induction false} CreatedIndexes(p: Physical, s: CollectionSchema, n: nat, name: Text)
    requires n <= |s.indexes| && CreateIndexes(p, s, n).Some?
    ensures var q := CreateIndexes(p, s, n).value;
            && (name in p.indexes ==> name in q.indexes && q.indexes[name] == p.indexes[name])
            && (name in q.indexes && name !in p.indexes ==> exists i :: 0 <= i < n && s.indexes[i].name == name)
  {
    if n > 0 {
      hide HasColumns, MadeIndex;
      CreatedIndexes(p, s, n - 1, name);
    }
  }
}
