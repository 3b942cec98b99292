/** Collection metadata and its validator. */
module Schema {
  import opened Basics
  import opened SqlText

  datatype ColumnType = IntegerColumn | RealColumn | TextColumn | BlobColumn

  datatype FieldSchema = FieldSchema(
    id: Text, column: Text, kind: ColumnType, nullable: bool, primaryKey: bool)

  datatype IndexSchema = IndexSchema(
    id: Text, name: Text, columns: seq<Text>, unique: bool, fingerprint: Text, descriptor: Text)

  datatype CollectionSchema = CollectionSchema(
    id: Text, table: Text, version: nat, fingerprint: Text,
    fields: seq<FieldSchema>, descriptor: Text, indexes: seq<IndexSchema>)

  predicate ValidName(s: Text) { s != "" && |s| <= 255 && NulFree(s) }

  predicate Reserved(s: Text) { "__csgdb_" <= s }

  ghost predicate DistinctFields(fields: seq<FieldSchema>)
  {
    forall i, j :: 0 <= i < j < |fields| ==>
      fields[i].id != fields[j].id && fields[i].column != fields[j].column
  }

  ghost predicate IsKeyAt(fields: seq<FieldSchema>, k: nat)
  {
    && k < |fields| && fields[k].primaryKey && !fields[k].nullable
    && forall i :: 0 <= i < |fields| && i != k ==> !fields[i].primaryKey
  }

  ghost predicate ValidFields(fields: seq<FieldSchema>)
  {
    && (forall i :: 0 <= i < |fields| ==> ValidName(fields[i].id) && ValidName(fields[i].column))
    && DistinctFields(fields)
    && exists k: nat :: IsKeyAt(fields, k)
  }

  ghost predicate HasColumn(fields: seq<FieldSchema>, column: Text)
  {
    exists i :: 0 <= i < |fields| && fields[i].column == column
  }

  ghost predicate ValidIndex(index: IndexSchema, fields: seq<FieldSchema>)
  {
    && ValidName(index.id) && ValidName(index.name) && !Reserved(index.name)
    && index.columns != [] && index.descriptor != ""
    && (forall i :: 0 <= i < |index.columns| ==> HasColumn(fields, index.columns[i]))
    && (forall i, j :: 0 <= i < j < |index.columns| ==> index.columns[i] != index.columns[j])
  }

  ghost predicate ValidIndexes(indexes: seq<IndexSchema>, fields: seq<FieldSchema>)
  {
    && (forall i :: 0 <= i < |indexes| ==> ValidIndex(indexes[i], fields))
    && (forall i, j :: 0 <= i < j < |indexes| ==>
         indexes[i].id != indexes[j].id && indexes[i].name != indexes[j].name)
  }

  ghost predicate ValidSchema(s: CollectionSchema)
  {
    && ValidName(s.id) && ValidName(s.table) && !Reserved(s.table)
    && s.version > 0 && s.descriptor != ""
    && ValidFields(s.fields)
    && ValidIndexes(s.indexes, s.fields)
  }

  function KeyCount(fields: seq<FieldSchema>): nat
  {
    if fields == [] then 0
    else KeyCount(fields[..|fields| - 1]) + if fields[|fields| - 1].primaryKey then 1 else 0
  }

  lemma {:induction false} NoKeyCounted(fields: seq<FieldSchema>)
    ensures KeyCount(fields) == 0 <==> forall i :: 0 <= i < |fields| ==> !fields[i].primaryKey
  {
    if fields != [] {
      NoKeyCounted(fields[..|fields| - 1]);
      assert forall i :: 0 <= i < |fields| - 1 ==> fields[i] == fields[..|fields| - 1][i];
    }
  }

  /** Counting one key is having exactly one. */
  lemma {:induction false} OneKeyCounted(fields: seq<FieldSchema>)
    requires forall i :: 0 <= i < |fields| && fields[i].primaryKey ==> !fields[i].nullable
    ensures KeyCount(fields) == 1 <==> exists k: nat :: IsKeyAt(fields, k)
  {
    if fields != [] {
      var front := fields[..|fields| - 1];
      assert forall i :: 0 <= i < |front| ==> fields[i] == front[i];
      OneKeyCounted(front);
      NoKeyCounted(front);
      if fields[|front|].primaryKey {
        assert KeyCount(front) == 0 ==> IsKeyAt(fields, |front|);
        assert forall k: nat :: IsKeyAt(fields, k) ==> k == |front|;
      } else {
        assert forall k: nat :: IsKeyAt(fields, k) <==> IsKeyAt(front, k);
      }
    }
  }

  /** What the field loop knows about the fields it has passed. */
  ghost predicate Passed(fields: seq<FieldSchema>, ids: set<Text>, columns: set<Text>)
  {
    && ids == (set f | f in fields :: f.id)
    && columns == (set f | f in fields :: f.column)
    && DistinctFields(fields)
    && (forall i :: 0 <= i < |fields| ==> ValidName(fields[i].id) && ValidName(fields[i].column))
    && (forall i :: 0 <= i < |fields| && fields[i].primaryKey ==> !fields[i].nullable)
  }

  predicate Passes(f: FieldSchema, ids: set<Text>, columns: set<Text>)
  {
    && ValidName(f.id) && ValidName(f.column) && f.id !in ids && f.column !in columns
    && (f.primaryKey ==> !f.nullable)
  }

  lemma {:induction false} PassingKeeps(fields: seq<FieldSchema>, n: nat, ids: set<Text>, columns: set<Text>)
    requires n < |fields| && Passed(fields[..n], ids, columns)
    ensures Passes(fields[n], ids, columns) ==>
              Passed(fields[..n + 1], ids + {fields[n].id}, columns + {fields[n].column})
    ensures !Passes(fields[n], ids, columns) ==> !ValidFields(fields)
  {
    var f := fields[n];
    assert fields[..n + 1] == fields[..n] + [f];
    if f.id in ids || f.column in columns {
      var j :| 0 <= j < n && (fields[j].id == f.id || fields[j].column == f.column);
      assert !DistinctFields(fields);
    }
  }

  /** The field loop: identifiers and columns seen so far, and a saturating key count. */
  method ValidateFields(fields: seq<FieldSchema>) returns (ok: bool, columns: set<Text>)
    ensures ok <==> ValidFields(fields)
    ensures ok ==> columns == set f | f in fields :: f.column
  {
    var ids := {};
    columns := {};
    var keys := 0;
    for n := 0 to |fields|
      invariant Passed(fields[..n], ids, columns)
      invariant keys == if KeyCount(fields[..n]) < 255 then KeyCount(fields[..n]) else 255
    {
      var f := fields[n];
      PassingKeeps(fields, n, ids, columns);
      if !Passes(f, ids, columns) {
        ok := false;
        return;
      }
      hide Passed;
      ids, columns := ids + {f.id}, columns + {f.column};
      if f.primaryKey {
        keys := if keys < 255 then keys + 1 else 255;
      }
      assert fields[..n + 1][..n] == fields[..n];
    }
    assert fields[..|fields|] == fields;
    OneKeyCounted(fields);
    ok := keys == 1;
  }

  method ValidateIndexColumns(names: seq<Text>, columns: set<Text>) returns (ok: bool)
    ensures ok <==>
            && (forall i :: 0 <= i < |names| ==> names[i] in columns)
            && (forall i, j :: 0 <= i < j < |names| ==> names[i] != names[j])
  {
    var seen := {};
    for n := 0 to |names|
      invariant seen == set x | x in names[..n]
      invariant forall i :: 0 <= i < n ==> names[i] in columns
      invariant forall i, j :: 0 <= i < j < n ==> names[i] != names[j]
    {
      if names[n] !in columns || names[n] in seen {
        ok := false;
        return;
      }
      seen := seen + {names[n]};
      assert names[..n + 1] == names[..n] + [names[n]];
    }
    ok := true;
  }

  method ValidateIndexes(indexes: seq<IndexSchema>, fields: seq<FieldSchema>, columns: set<Text>)
    returns (ok: bool)
    requires columns == set f | f in fields :: f.column
    ensures ok <==> ValidIndexes(indexes, fields)
  {
    var ids, names := {}, {};
    for n := 0 to |indexes|
      invariant ids == set x | x in indexes[..n] :: x.id
      invariant names == set x | x in indexes[..n] :: x.name
      invariant ValidIndexes(indexes[..n], fields)
    {
      var x := indexes[n];
      if !ValidName(x.id) || !ValidName(x.name) || Reserved(x.name) || x.columns == []
        || x.descriptor == "" || x.id in ids || x.name in names {
        ok := false;
        return;
      }
      ok := ValidateIndexColumns(x.columns, columns);
      if !ok { return; }
      assert ValidIndex(x, fields) by {
        assert forall i :: 0 <= i < |x.columns| ==> x.columns[i] in columns;
        assert forall c :: c in columns ==> HasColumn(fields, c);
      }
      ids, names := ids + {x.id}, names + {x.name};
      assert indexes[..n + 1] == indexes[..n] + [x];
    }
    assert indexes[..|indexes|] == indexes;
    ok := true;
  }

  /** Names are 1 to 255 bytes without NUL; `__csgdb_` begins a reserved one. */
  lemma {:induction false} NameRules(t: Text)
    ensures ValidName(t) <==> 1 <= |t| <= 255 && forall i :: 0 <= i < |t| ==> t[i] != '\0'
    ensures Reserved(t) <==> |t| >= 8 && t[..8] == "__csgdb_"
  {}

  /** A valid schema, written out: names, a positive version, a descriptor, distinct
      fields of which exactly one is the key and not nullable, and indexes with
      distinct ids and names over distinct columns of the fields. */
  lemma {:induction false} ValidSchemaExactly(s: CollectionSchema)
    ensures ValidSchema(s) <==>
              && ValidName(s.id) && ValidName(s.table) && !Reserved(s.table) && s.version > 0 && s.descriptor != ""
              && (forall i :: 0 <= i < |s.fields| ==> ValidName(s.fields[i].id) && ValidName(s.fields[i].column))
              && (forall i, j :: 0 <= i < j < |s.fields| ==>
                    s.fields[i].id != s.fields[j].id && s.fields[i].column != s.fields[j].column)
              && (exists k :: 0 <= k < |s.fields| && s.fields[k].primaryKey && !s.fields[k].nullable
                    && forall i :: 0 <= i < |s.fields| && i != k ==> !s.fields[i].primaryKey)
              && (forall i :: 0 <= i < |s.indexes| ==>
                    var x := s.indexes[i];
                    && ValidName(x.id) && ValidName(x.name) && !Reserved(x.name) && x.columns != [] && x.descriptor != ""
                    && (forall n :: 0 <= n < |x.columns| ==>
                          exists f :: 0 <= f < |s.fields| && s.fields[f].column == x.columns[n])
                    && (forall m, n :: 0 <= m < n < |x.columns| ==> x.columns[m] != x.columns[n]))
              && (forall i, j :: 0 <= i < j < |s.indexes| ==>
                    s.indexes[i].id != s.indexes[j].id && s.indexes[i].name != s.indexes[j].name)
  {
    hide ValidName, Reserved;
    forall k | 0 <= k < |s.fields| && s.fields[k].primaryKey && !s.fields[k].nullable
      ensures (forall i :: 0 <= i < |s.fields| && i != k ==> !s.fields[i].primaryKey) ==> IsKeyAt(s.fields, k)
    {}
  }

  method ValidateCollectionSchema(s: CollectionSchema) returns (ok: bool)
    ensures ok <==> ValidSchema(s)
  {
    if !ValidName(s.id) || !ValidName(s.table) || Reserved(s.table) || s.version == 0
      || s.fields == [] || s.descriptor == "" {
      ok := false;
      return;
    }
    var columns;
    ok, columns := ValidateFields(s.fields);
    if ok {
      ok := ValidateIndexes(s.indexes, s.fields, columns);
    }
  }
}
