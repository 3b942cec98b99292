/** The checks of the derive macro: whatever it accepts is a schema that the
    run-time validator accepts, with the canonical descriptors. */
module Derive {
  import opened Basics
  import opened Schema
  import opened Descriptor

  /** The attributes of one declared index; `fields` are field ids. */
  datatype IndexAttributes = IndexAttributes(id: Text, name: Text, fields: seq<Text>, unique: bool)

  function FieldById(fields: seq<FieldSchema>, id: Text): (r: Option<FieldSchema>)
    ensures r.Some? ==> r.value in fields && r.value.id == id
    ensures r == None ==> forall f :: f in fields ==> f.id != id
  {
    if fields == [] then None else if fields[0].id == id then Some(fields[0]) else FieldById(fields[1..], id)
  }

  ghost predicate Known(fields: seq<FieldSchema>, id: Text)
  {
    exists f :: f in fields && f.id == id
  }

  /** Field ids that name distinct fields of the collection. */
  ghost predicate LegalFieldIds(ids: seq<Text>, fields: seq<FieldSchema>)
  {
    && (forall i :: 0 <= i < |ids| ==> Known(fields, ids[i]))
    && (forall i, j :: 0 <= i < j < |ids| ==> ids[i] != ids[j])
  }

  ghost predicate LegalIndex(x: IndexAttributes, fields: seq<FieldSchema>)
  {
    ValidName(x.id) && ValidName(x.name) && !Reserved(x.name) && x.fields != [] && LegalFieldIds(x.fields, fields)
  }

  ghost predicate LegalIndexes(xs: seq<IndexAttributes>, fields: seq<FieldSchema>)
  {
    && (forall i :: 0 <= i < |xs| ==> LegalIndex(xs[i], fields))
    && (forall i, j :: 0 <= i < j < |xs| ==> xs[i].id != xs[j].id && xs[i].name != xs[j].name)
  }

  /** The columns of the named fields, in the order of the ids. */
  ghost predicate ColumnsFor(ids: seq<Text>, columns: seq<Text>, fields: seq<FieldSchema>)
  {
    && |columns| == |ids|
    && forall i :: 0 <= i < |ids| ==> exists f :: f in fields && f.id == ids[i] && f.column == columns[i]
  }

  method IndexColumns(ids: seq<Text>, fields: seq<FieldSchema>) returns (r: Option<seq<Text>>)
    ensures r.Some? <==> LegalFieldIds(ids, fields)
    ensures r.Some? ==> ColumnsFor(ids, r.value, fields)
  {
    var columns: seq<Text> := [];
    var seen := {};
    for n := 0 to |ids|
      invariant seen == set x | x in ids[..n]
      invariant ColumnsFor(ids[..n], columns, fields)
      invariant forall i :: 0 <= i < n ==> Known(fields, ids[i])
      invariant forall i, j :: 0 <= i < j < n ==> ids[i] != ids[j]
    {
      if ids[n] in seen { return None; }
      var field := FieldById(fields, ids[n]);
      if field == None {
        assert !Known(fields, ids[n]);
        return None;
      }
      seen := seen + {ids[n]};
      columns := columns + [field.value.column];
      assert ids[..n + 1] == ids[..n] + [ids[n]];
      assert Known(fields, ids[n]);
    }
    assert ids[..|ids|] == ids;
    r := Some(columns);
  }

  /** A derived index: its columns are those of its fields, its descriptor the
      canonical text and its fingerprint the text's. */
  ghost predicate DerivedIndex(
      sha: Text -> Text, collection: Text, table: Text, x: IndexAttributes, r: IndexSchema, fields: seq<FieldSchema>)
  {
    && r.id == x.id && r.name == x.name && r.unique == x.unique && ColumnsFor(x.fields, r.columns, fields)
    && r.descriptor == IndexText(collection, table, x.id, x.name, x.unique, Zip(x.fields, r.columns))
    && r.fingerprint == sha(r.descriptor)
  }

  /** A legal index declaration, written out. */
  lemma {:induction false} LegalIndexExactly(x: IndexAttributes, fields: seq<FieldSchema>)
    ensures LegalIndex(x, fields) <==>
              && ValidName(x.id) && ValidName(x.name) && !Reserved(x.name) && x.fields != []
              && (forall n :: 0 <= n < |x.fields| ==> exists k :: 0 <= k < |fields| && fields[k].id == x.fields[n])
              && (forall m, n :: 0 <= m < n < |x.fields| ==> x.fields[m] != x.fields[n])
  {
    hide ValidName, Reserved;
    forall n | 0 <= n < |x.fields| && Known(fields, x.fields[n])
      ensures exists k :: 0 <= k < |fields| && fields[k].id == x.fields[n]
    {
      var f :| f in fields && f.id == x.fields[n];
      var k :| 0 <= k < |fields| && fields[k] == f;
      assert fields[k].id == x.fields[n];
    }
    forall n, k | 0 <= n < |x.fields| && 0 <= k < |fields| && fields[k].id == x.fields[n]
      ensures Known(fields, x.fields[n])
    {
      assert fields[k] in fields;
    }
    assert (forall n :: 0 <= n < |x.fields| ==> Known(fields, x.fields[n]))
       <==> (forall n :: 0 <= n < |x.fields| ==> exists k :: 0 <= k < |fields| && fields[k].id == x.fields[n]);
  }

  lemma {:induction false} LegalIndexesExactly(xs: seq<IndexAttributes>, fields: seq<FieldSchema>)
    ensures LegalIndexes(xs, fields) <==>
              && (forall i :: 0 <= i < |xs| ==> LegalIndex(xs[i], fields))
              && (forall i, j :: 0 <= i < j < |xs| ==> xs[i].id != xs[j].id && xs[i].name != xs[j].name)
  {
    hide LegalIndex;
  }

  /** Accepted if and only if every index is legal and ids and names are distinct. */
  method DeriveIndexes(
      sha: Text -> Text, collection: Text, table: Text, xs: seq<IndexAttributes>, fields: seq<FieldSchema>)
    returns (r: Option<seq<IndexSchema>>)
    ensures r.Some? <==> LegalIndexes(xs, fields)
    ensures r.Some? ==>
              && |r.value| == |xs|
              && forall i :: 0 <= i < |xs| ==> DerivedIndex(sha, collection, table, xs[i], r.value[i], fields)
    ensures r.Some? ==>
              forall i :: 0 <= i < |xs| ==>
                && r.value[i].id == xs[i].id && r.value[i].name == xs[i].name && r.value[i].unique == xs[i].unique
                && r.value[i].fingerprint == sha(r.value[i].descriptor)
  {
    hide IndexText, Zip, LegalFieldIds, ColumnsFor, ValidName, Reserved;
    var result: seq<IndexSchema> := [];
    var ids, names := {}, {};
    for n := 0 to |xs|
      invariant ids == set x | x in xs[..n] :: x.id
      invariant names == set x | x in xs[..n] :: x.name
      invariant LegalIndexes(xs[..n], fields) && |result| == n
      invariant forall i :: 0 <= i < n ==> DerivedIndex(sha, collection, table, xs[i], result[i], fields)
    {
      var x := xs[n];
      assert xs[..n + 1] == xs[..n] + [x];
      if !ValidName(x.id) || !ValidName(x.name) || Reserved(x.name) || x.fields == [] { return None; }
      if x.id in ids || x.name in names {
        var j :| 0 <= j < n && (xs[..n][j].id == x.id || xs[..n][j].name == x.name);
        assert !LegalIndexes(xs, fields);
        return None;
      }
      var columns := IndexColumns(x.fields, fields);
      if columns == None { return None; }
      var canonical := CanonicalIndex(collection, table, x.id, x.name, x.unique, x.fields, columns.value);
      result := result + [IndexSchema(x.id, x.name, columns.value, x.unique, sha(canonical), canonical)];
      ids, names := ids + {x.id}, names + {x.name};
    }
    assert xs[..|xs|] == xs;
    r := Some(result);
  }

  lemma {:induction false} SameColumnSameId(fields: seq<FieldSchema>, f: FieldSchema, g: FieldSchema)
    requires DistinctFields(fields) && f in fields && g in fields && f.column == g.column
    ensures f.id == g.id
  {
    var i :| 0 <= i < |fields| && fields[i] == f;
    var j :| 0 <= j < |fields| && fields[j] == g;
    assert i == j || i < j || j < i;
  }

  /** A derived index passes the run-time validator. */
  lemma {:induction false} DerivedIndexIsValid(
      sha: Text -> Text, collection: Text, table: Text, x: IndexAttributes, r: IndexSchema, fields: seq<FieldSchema>)
    requires DistinctFields(fields) && LegalIndex(x, fields) && DerivedIndex(sha, collection, table, x, r, fields)
    ensures ValidIndex(r, fields)
  {
    forall i | 0 <= i < |r.columns| ensures HasColumn(fields, r.columns[i]) {
      var f :| f in fields && f.id == x.fields[i] && f.column == r.columns[i];
      var j :| 0 <= j < |fields| && fields[j] == f;
      assert fields[j].column == r.columns[i];
    }
    forall i, j | 0 <= i < j < |r.columns| ensures r.columns[i] != r.columns[j] {
      var f :| f in fields && f.id == x.fields[i] && f.column == r.columns[i];
      var g :| g in fields && g.id == x.fields[j] && g.column == r.columns[j];
      if r.columns[i] == r.columns[j] {
        SameColumnSameId(fields, f, g);
        assert false;
      }
    }
    DescriptorNotEmpty(collection, table, x.id, x.name, x.unique, Zip(x.fields, r.columns));
  }

  lemma {:induction false} DescriptorNotEmpty(
      collection: Text, table: Text, id: Text, name: Text, unique: bool, pairs: seq<(Text, Text)>)
    ensures IndexText(collection, table, id, name, unique, pairs) != ""
  {
    hide IndexText;
    IndexRoundTrip(collection, table, id, name, unique, pairs);
  }

  lemma {:induction false} SchemaTextNotEmpty(collection: Text, table: Text, version: nat, fields: seq<FieldSchema>)
    ensures SchemaText(collection, table, version, fields) != ""
  {
    hide SchemaText;
    SchemaRoundTrip(collection, table, version, fields);
  }

  /** The generated constant of a Rust field, `upper` being `str::to_uppercase`. */
  function ConstantName(upper: Text -> Text, name: Text): Text
  {
    "FIELD_" + upper(if "r#" <= name then name[2..] else name)
  }

  ghost predicate DistinctConstants(upper: Text -> Text, names: seq<Text>)
  {
    forall i, j :: 0 <= i < j < |names| ==> ConstantName(upper, names[i]) != ConstantName(upper, names[j])
  }

  /** Constants collide exactly when the names do in upper case, without `r#`. */
  lemma {:induction false} ConstantsCollide(upper: Text -> Text, a: Text, b: Text)
    ensures ConstantName(upper, a) == ConstantName(upper, b) <==>
              upper(if "r#" <= a then a[2..] else a) == upper(if "r#" <= b then b[2..] else b)
  {
    assert ConstantName(upper, a)[6..] == upper(if "r#" <= a then a[2..] else a);
    assert ConstantName(upper, b)[6..] == upper(if "r#" <= b then b[2..] else b);
  }

  method FieldConstants(upper: Text -> Text, names: seq<Text>) returns (ok: bool)
    ensures ok <==> DistinctConstants(upper, names)
    ensures ok <==>
              forall i, j :: 0 <= i < j < |names| ==>
                upper(if "r#" <= names[i] then names[i][2..] else names[i])
                != upper(if "r#" <= names[j] then names[j][2..] else names[j])
  {
    hide ConstantName;
    forall i, j | 0 <= i < j < |names|
      ensures ConstantName(upper, names[i]) == ConstantName(upper, names[j]) <==>
                upper(if "r#" <= names[i] then names[i][2..] else names[i])
                == upper(if "r#" <= names[j] then names[j][2..] else names[j])
    {
      ConstantsCollide(upper, names[i], names[j]);
    }
    var seen := {};
    for n := 0 to |names|
      invariant seen == set x | x in names[..n] :: ConstantName(upper, x)
      invariant DistinctConstants(upper, names[..n])
    {
      assert names[..n + 1] == names[..n] + [names[n]];
      if ConstantName(upper, names[n]) in seen {
        var j :| 0 <= j < n && ConstantName(upper, names[..n][j]) == ConstantName(upper, names[n]);
        assert !DistinctConstants(upper, names);
        return false;
      }
      seen := seen + {ConstantName(upper, names[n])};
    }
    assert names[..|names|] == names;
    ok := true;
  }

  /** The macro accepts exactly valid names, a positive version, valid fields,
      legal indexes and Rust field names whose constants do not collide; what it
      then generates is valid at run time and canonical. */
  method ExpandCollection(
      sha: Text -> Text, upper: Text -> Text, collection: Text, table: Text, version: nat, names: seq<Text>,
      fields: seq<FieldSchema>, xs: seq<IndexAttributes>)
    returns (r: Option<CollectionSchema>)
    ensures r.Some? <==>
              && ValidName(collection) && ValidName(table) && !Reserved(table) && version > 0
              && ValidFields(fields) && LegalIndexes(xs, fields) && DistinctConstants(upper, names)
    ensures r.Some? ==> ValidSchema(r.value) && Derived(sha, r.value) && r.value.fingerprint == sha(r.value.descriptor)
    ensures r.Some? ==> r.value.id == collection && r.value.table == table && r.value.version == version
    ensures r.Some? ==> r.value.fields == fields && |r.value.indexes| == |xs|
    ensures r.Some? ==> forall i :: 0 <= i < |xs| ==> DerivedIndex(sha, collection, table, xs[i], r.value.indexes[i], fields)
  {
    hide SchemaText, DerivedIndex, ValidName, Reserved;
    if !ValidName(collection) || !ValidName(table) || Reserved(table) || version == 0 || fields == [] { return None; }
    var ok, _ := ValidateFields(fields);
    if !ok { return None; }
    var indexes := DeriveIndexes(sha, collection, table, xs, fields);
    if indexes == None { return None; }
    var distinct := FieldConstants(upper, names);
    if !distinct { return None; }
    var canonical := CanonicalSchema(collection, table, version, fields);
    SchemaTextNotEmpty(collection, table, version, fields);
    forall i | 0 <= i < |xs| ensures ValidIndex(indexes.value[i], fields) {
      DerivedIndexIsValid(sha, collection, table, xs[i], indexes.value[i], fields);
    }
    IndexNamesKept(sha, collection, table, xs, indexes.value, fields);
    r := Some(CollectionSchema(collection, table, version, sha(canonical), fields, canonical, indexes.value));
  }

  lemma {:induction false} IndexNamesKept(
      sha: Text -> Text, collection: Text, table: Text, xs: seq<IndexAttributes>, rs: seq<IndexSchema>, fields: seq<FieldSchema>)
    requires |rs| == |xs| && LegalIndexes(xs, fields)
    requires forall i :: 0 <= i < |xs| ==> DerivedIndex(sha, collection, table, xs[i], rs[i], fields)
    ensures forall i, j :: 0 <= i < j < |rs| ==> rs[i].id != rs[j].id && rs[i].name != rs[j].name
  {
    hide IndexText, ColumnsFor, LegalIndex;
    forall i, j | 0 <= i < j < |rs| ensures rs[i].id != rs[j].id && rs[i].name != rs[j].name {
      assert DerivedIndex(sha, collection, table, xs[i], rs[i], fields);
      assert DerivedIndex(sha, collection, table, xs[j], rs[j], fields);
    }
  }
}
