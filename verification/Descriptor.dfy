/** Canonical descriptors: the length-prefixed text whose SHA-256 is the schema
    fingerprint. It does not depend on the order in which the fields are
    declared, and it can be read back, whatever the names contain. */
module Descriptor {
  import opened Basics
  import opened Schema
  import Sorting

  // ------------------------------------------------------------- the format

  function Sized(t: Text): Text { Decimal(|t|) + ":" + t }

  function KindName(k: ColumnType): Text
  {
    match k
    case IntegerColumn => "Integer"
    case RealColumn => "Real"
    case TextColumn => "Text"
    case BlobColumn => "Blob"
  }

  function Bit(b: bool): Text { if b then "1" else "0" }

  function FieldLine(f: FieldSchema): Text
  {
    "field:" + Sized(f.id) + ":" + Sized(f.column) + ":" + KindName(f.kind) + ":" + Bit(f.nullable) + ":"
    + Bit(f.primaryKey) + "\n"
  }

  function SchemaHead(collection: Text, table: Text, version: nat): Text
  {
    "csgdb-schema-v1\ncollection:" + Sized(collection) + "\ntable:" + Sized(table) + "\nversion:" + Decimal(version) + "\n"
  }

  function IndexHead(collection: Text, table: Text, id: Text, name: Text, unique: bool): Text
  {
    "csgdb-index-v1\ncollection:" + Sized(collection) + "\ntable:" + Sized(table) + "\nindex:" + Sized(id)
    + "\nname:" + Sized(name) + "\nunique:" + Bit(unique) + "\n"
  }

  function PairLine(field: Text, column: Text): Text
  {
    "field:" + Sized(field) + ":" + Sized(column) + "\n"
  }

  function FieldLines(fields: seq<FieldSchema>): Text
  {
    if fields == [] then "" else FieldLine(fields[0]) + FieldLines(fields[1..])
  }

  function PairLines(pairs: seq<(Text, Text)>): Text
  {
    if pairs == [] then "" else PairLine(pairs[0].0, pairs[0].1) + PairLines(pairs[1..])
  }

  predicate IdLess(a: FieldSchema, b: FieldSchema) { TextLess(a.id, b.id) }

  function SchemaText(collection: Text, table: Text, version: nat, fields: seq<FieldSchema>): Text
  {
    SchemaHead(collection, table, version) + FieldLines(Sorting.Sort(IdLess, fields))
  }

  function IndexText(collection: Text, table: Text, id: Text, name: Text, unique: bool, pairs: seq<(Text, Text)>): Text
  {
    IndexHead(collection, table, id, name, unique) + PairLines(pairs)
  }

  // --------------------------------------------------------------- the code

  lemma {:induction false} FieldLinesSnoc(fields: seq<FieldSchema>, f: FieldSchema)
    ensures FieldLines(fields + [f]) == FieldLines(fields) + FieldLine(f)
  {
    hide FieldLine;
    if fields == [] {
      assert ([] + [f])[1..] == [];
      assert FieldLines([f]) == FieldLine(f) + "";
    } else {
      assert (fields + [f])[1..] == fields[1..] + [f];
      FieldLinesSnoc(fields[1..], f);
      assert FieldLine(fields[0]) + (FieldLines(fields[1..]) + FieldLine(f))
          == FieldLine(fields[0]) + FieldLines(fields[1..]) + FieldLine(f);
    }
  }

  method CanonicalSchema(collection: Text, table: Text, version: nat, fields: seq<FieldSchema>)
    returns (canonical: Text)
    ensures canonical == SchemaText(collection, table, version, fields)
  {
    hide SchemaHead, FieldLine;
    var sorted := Sorting.Sort(IdLess, fields);
    canonical := SchemaHead(collection, table, version);
    var i := 0;
    while i < |sorted|
      invariant i <= |sorted|
      invariant canonical == SchemaHead(collection, table, version) + FieldLines(sorted[..i])
    {
      FieldLinesSnoc(sorted[..i], sorted[i]);
      assert sorted[..i + 1] == sorted[..i] + [sorted[i]];
      canonical := canonical + FieldLine(sorted[i]);
      i := i + 1;
    }
    assert sorted[..i] == sorted;
  }

  function Zip(fields: seq<Text>, columns: seq<Text>): seq<(Text, Text)>
  {
    if fields == [] || columns == [] then [] else [(fields[0], columns[0])] + Zip(fields[1..], columns[1..])
  }

  lemma {:induction false} PairLinesSnoc(pairs: seq<(Text, Text)>, p: (Text, Text))
    ensures PairLines(pairs + [p]) == PairLines(pairs) + PairLine(p.0, p.1)
  {
    hide PairLine;
    if pairs == [] {
      assert ([] + [p])[1..] == [];
      assert PairLines([p]) == PairLine(p.0, p.1) + "";
    } else {
      assert (pairs + [p])[1..] == pairs[1..] + [p];
      PairLinesSnoc(pairs[1..], p);
      assert PairLine(pairs[0].0, pairs[0].1) + (PairLines(pairs[1..]) + PairLine(p.0, p.1))
          == PairLine(pairs[0].0, pairs[0].1) + PairLines(pairs[1..]) + PairLine(p.0, p.1);
    }
  }

  lemma {:induction false} ZipAt(fields: seq<Text>, columns: seq<Text>, i: nat)
    requires i <= |fields| && i <= |columns|
    ensures |Zip(fields, columns)| == if |fields| <= |columns| then |fields| else |columns|
    ensures i < |fields| && i < |columns| ==> Zip(fields, columns)[i] == (fields[i], columns[i])
  {
    if fields != [] && columns != [] {
      ZipAt(fields[1..], columns[1..], if i == 0 then 0 else i - 1);
    }
  }

  method CanonicalIndex(
      collection: Text, table: Text, id: Text, name: Text, unique: bool, fields: seq<Text>, columns: seq<Text>)
    returns (canonical: Text)
    ensures canonical == IndexText(collection, table, id, name, unique, Zip(fields, columns))
  {
    hide IndexHead, PairLine, Zip;
    canonical := IndexHead(collection, table, id, name, unique);
    var i := 0;
    ghost var pairs := Zip(fields, columns);
    ZipAt(fields, columns, 0);
    while i < |fields| && i < |columns|
      invariant i <= |pairs| && i <= |fields| && i <= |columns|
      invariant canonical == IndexHead(collection, table, id, name, unique) + PairLines(pairs[..i])
    {
      ZipAt(fields, columns, i);
      PairLinesSnoc(pairs[..i], pairs[i]);
      assert pairs[..i + 1] == pairs[..i] + [pairs[i]];
      canonical := canonical + PairLine(fields[i], columns[i]);
      i := i + 1;
    }
    assert pairs[..i] == pairs;
  }

  // ------------------------------------------------------------- the reader

  function Expect(literal: Text, s: Text): Option<Text>
  {
    if literal <= s then Some(s[|literal|..]) else None
  }

  function ReadNumber(s: Text): Option<(nat, Text)>
  {
    var k := LeadingRun(IsDigit, s);
    if k == 0 then None else Some((Numeral(s[..k]), s[k..]))
  }

  function ReadSized(s: Text): Option<(Text, Text)>
  {
    var (n, afterLength) :- ReadNumber(s);
    var body :- Expect(":", afterLength);
    if n <= |body| then Some((body[..n], body[n..])) else None
  }

  function ReadKind(s: Text): Option<(ColumnType, Text)>
  {
    if "Integer" <= s then Some((IntegerColumn, s[7..]))
    else if "Real" <= s then Some((RealColumn, s[4..]))
    else if "Text" <= s then Some((TextColumn, s[4..]))
    else if "Blob" <= s then Some((BlobColumn, s[4..]))
    else None
  }

  function ReadBit(s: Text): Option<(bool, Text)>
  {
    if s == "" || (s[0] != '0' && s[0] != '1') then None else Some((s[0] == '1', s[1..]))
  }

  function ReadFlags(s: Text): (r: Option<((ColumnType, bool, bool), Text)>)
    ensures r.Some? ==> |r.value.1| < |s|
  {
    var s1 :- Expect(":", s);
    var (kind, s2) :- ReadKind(s1);
    var s3 :- Expect(":", s2);
    var (nullable, s4) :- ReadBit(s3);
    var s5 :- Expect(":", s4);
    var (key, s6) :- ReadBit(s5);
    var s7 :- Expect("\n", s6);
    Some(((kind, nullable, key), s7))
  }

  function ReadField(s: Text): (r: Option<(FieldSchema, Text)>)
    ensures r.Some? ==> |r.value.1| < |s|
  {
    var s1 :- Expect("field:", s);
    var (id, s2) :- ReadSized(s1);
    var s3 :- Expect(":", s2);
    var (column, s4) :- ReadSized(s3);
    var (flags, s5) :- ReadFlags(s4);
    Some((FieldSchema(id, column, flags.0, flags.1, flags.2), s5))
  }

  function ReadFields(s: Text): Option<seq<FieldSchema>>
    decreases |s|
  {
    if s == "" then Some([])
    else
      var (f, rest) :- ReadField(s);
      var fs :- ReadFields(rest);
      Some([f] + fs)
  }

  /** Collection, table, version and the fields in the order of their ids. */
  datatype Contents = Contents(collection: Text, table: Text, version: nat, fields: seq<FieldSchema>)

  function ReadSchema(s: Text): Option<Contents>
  {
    var s1 :- Expect("csgdb-schema-v1\ncollection:", s);
    var (collection, s2) :- ReadSized(s1);
    var s3 :- Expect("\ntable:", s2);
    var (table, s4) :- ReadSized(s3);
    var s5 :- Expect("\nversion:", s4);
    var (version, s6) :- ReadNumber(s5);
    var s7 :- Expect("\n", s6);
    var fields :- ReadFields(s7);
    Some(Contents(collection, table, version, fields))
  }

  datatype IndexContents = IndexContents(
    collection: Text, table: Text, id: Text, name: Text, unique: bool, pairs: seq<(Text, Text)>)

  function ReadPair(s: Text): (r: Option<((Text, Text), Text)>)
    ensures r.Some? ==> |r.value.1| < |s|
  {
    var s1 :- Expect("field:", s);
    var (field, s2) :- ReadSized(s1);
    var s3 :- Expect(":", s2);
    var (column, s4) :- ReadSized(s3);
    var s5 :- Expect("\n", s4);
    Some(((field, column), s5))
  }

  function ReadPairs(s: Text): Option<seq<(Text, Text)>>
    decreases |s|
  {
    if s == "" then Some([])
    else
      var (p, rest) :- ReadPair(s);
      var ps :- ReadPairs(rest);
      Some([p] + ps)
  }

  function ReadIndex(s: Text): Option<IndexContents>
  {
    var s1 :- Expect("csgdb-index-v1\ncollection:", s);
    var (collection, s2) :- ReadSized(s1);
    var s3 :- Expect("\ntable:", s2);
    var (table, s4) :- ReadSized(s3);
    var s5 :- Expect("\nindex:", s4);
    var (id, s6) :- ReadSized(s5);
    var s7 :- Expect("\nname:", s6);
    var (name, s8) :- ReadSized(s7);
    var s9 :- Expect("\nunique:", s8);
    var (unique, s10) :- ReadBit(s9);
    var s11 :- Expect("\n", s10);
    var pairs :- ReadPairs(s11);
    Some(IndexContents(collection, table, id, name, unique, pairs))
  }

  // ------------------------------------------------------------- round trip

  lemma {:induction false} ExpectReads(literal: Text, rest: Text)
    ensures Expect(literal, literal + rest) == Some(rest)
  {
    assert (literal + rest)[|literal|..] == rest;
  }

  lemma {:induction false} NumberReads(n: nat, rest: Text)
    requires rest == "" || !IsDigit(rest[0])
    ensures ReadNumber(Decimal(n) + rest) == Some((n, rest))
  {
    RunStopsAtWord(IsDigit, Decimal(n), rest);
    NumeralOfDecimal(n);
  }

  lemma {:induction false} SizedReads(t: Text, rest: Text)
    ensures ReadSized(Sized(t) + rest) == Some((t, rest))
  {
    assert Sized(t) + rest == Decimal(|t|) + (":" + (t + rest));
    NumberReads(|t|, ":" + (t + rest));
    ExpectReads(":", t + rest);
    hide ReadNumber, Expect, Decimal, Sized;
    assert (t + rest)[..|t|] == t && (t + rest)[|t|..] == rest;
  }

  lemma {:induction false} KindReads(k: ColumnType, rest: Text)
    ensures ReadKind(KindName(k) + rest) == Some((k, rest))
  {
    assert (KindName(k) + rest)[|KindName(k)|..] == rest;
    var s := KindName(k) + rest;
    assert s[0] == KindName(k)[0];
  }

  lemma {:induction false} BitReads(b: bool, rest: Text)
    ensures ReadBit(Bit(b) + rest) == Some((b, rest))
  {
    assert (Bit(b) + rest)[1..] == rest;
  }

  /** A literal, then a sized text, then the rest. */
  lemma {:induction false} LabelReads(prefix: Text, t: Text, rest: Text)
    ensures Expect(prefix, prefix + (Sized(t) + rest)) == Some(Sized(t) + rest)
    ensures ReadSized(Sized(t) + rest) == Some((t, rest))
  {
    ExpectReads(prefix, Sized(t) + rest);
    SizedReads(t, rest);
  }

  lemma {:induction false} FlagsRead(kind: ColumnType, nullable: bool, key: bool, rest: Text)
    ensures ReadFlags(":" + (KindName(kind) + (":" + (Bit(nullable) + (":" + (Bit(key) + ("\n" + rest)))))))
         == Some(((kind, nullable, key), rest))
  {
    hide Expect, ReadKind, ReadBit, KindName, Bit;
    var e := "\n" + rest;
    var d := Bit(key) + e;
    var c := ":" + d;
    var b := Bit(nullable) + c;
    var a := ":" + b;
    ExpectReads(":", KindName(kind) + a);
    KindReads(kind, a);
    ExpectReads(":", b);
    BitReads(nullable, c);
    ExpectReads(":", d);
    BitReads(key, e);
    ExpectReads("\n", rest);
  }

  lemma {:induction false} FieldLineNests(f: FieldSchema, rest: Text)
    ensures FieldLine(f) + rest
         == "field:" + (Sized(f.id) + (":" + (Sized(f.column) + (":" + (KindName(f.kind) + (":" + (Bit(f.nullable)
            + (":" + (Bit(f.primaryKey) + ("\n" + rest))))))))))
  {
    hide Sized, KindName, Bit;
  }

  lemma {:induction false} FieldReads(f: FieldSchema, rest: Text)
    ensures ReadField(FieldLine(f) + rest) == Some((f, rest))
  {
    hide FieldLine, Sized, KindName, Bit, Expect, ReadSized, ReadFlags;
    FieldLineNests(f, rest);
    var flags := ":" + (KindName(f.kind) + (":" + (Bit(f.nullable) + (":" + (Bit(f.primaryKey) + ("\n" + rest))))));
    LabelReads("field:", f.id, ":" + (Sized(f.column) + flags));
    LabelReads(":", f.column, flags);
    FlagsRead(f.kind, f.nullable, f.primaryKey, rest);
  }

  lemma {:induction false} FieldsRead(fields: seq<FieldSchema>)
    ensures ReadFields(FieldLines(fields)) == Some(fields)
  {
    hide FieldLine, ReadField;
    if fields != [] {
      var s := FieldLines(fields);
      FieldReads(fields[0], FieldLines(fields[1..]));
      FieldsRead(fields[1..]);
      LineNotEmpty(fields[0]);
      assert [fields[0]] + fields[1..] == fields;
    }
  }

  lemma {:induction false} LineNotEmpty(f: FieldSchema)
    ensures |FieldLine(f)| > 0
  {
    hide Sized, KindName, Bit;
  }

  lemma {:induction false} SchemaHeadNests(collection: Text, table: Text, version: nat, rest: Text)
    ensures SchemaHead(collection, table, version) + rest
         == "csgdb-schema-v1\ncollection:" + (Sized(collection) + ("\ntable:" + (Sized(table)
            + ("\nversion:" + (Decimal(version) + ("\n" + rest))))))
  {
    hide Sized, Decimal;
  }

  /** The text gives back everything it was made from, whatever the names contain. */
  lemma {:induction false} SchemaRoundTrip(collection: Text, table: Text, version: nat, fields: seq<FieldSchema>)
    ensures ReadSchema(SchemaText(collection, table, version, fields))
         == Some(Contents(collection, table, version, Sorting.Sort(IdLess, fields)))
  {
    hide SchemaHead, FieldLines, Sized, Decimal, Expect, ReadSized, ReadNumber, ReadFields;
    var sorted := Sorting.Sort(IdLess, fields);
    var rest := FieldLines(sorted);
    SchemaHeadNests(collection, table, version, rest);
    var tail := "\n" + rest;
    LabelReads("csgdb-schema-v1\ncollection:", collection,
               "\ntable:" + (Sized(table) + ("\nversion:" + (Decimal(version) + tail))));
    LabelReads("\ntable:", table, "\nversion:" + (Decimal(version) + tail));
    ExpectReads("\nversion:", Decimal(version) + tail);
    NumberReads(version, tail);
    ExpectReads("\n", rest);
    FieldsRead(sorted);
  }

  // -------------------------------------------------------- order and equality

  lemma {:induction false} IdsTotal(fields: seq<FieldSchema>)
    requires DistinctFields(fields)
    ensures Sorting.StrictTotalOn(IdLess, multiset(fields))
  {
    var m := multiset(fields);
    forall a, b | a in m && b in m ensures a == b || IdLess(a, b) || IdLess(b, a) {
      TextLessIsTotal(a.id, b.id);
      var i :| 0 <= i < |fields| && fields[i] == a;
      var j :| 0 <= j < |fields| && fields[j] == b;
    }
    forall a, b | a in m && b in m ensures !(IdLess(a, b) && IdLess(b, a)) {
      TextLessIsStrict(a.id, b.id);
    }
    forall a, b, c | a in m && b in m && c in m && IdLess(a, b) && IdLess(b, c) ensures IdLess(a, c) {
      TextLessIsTransitive(a.id, b.id, c.id);
    }
  }

  /** Two descriptors are the same text exactly when they describe the same
      collection, table, version and set of fields, in whatever order. */
  lemma {:induction false} SameTextSameSchema(
      collection: Text, table: Text, version: nat, fields: seq<FieldSchema>,
      otherCollection: Text, otherTable: Text, otherVersion: nat, otherFields: seq<FieldSchema>)
    requires DistinctFields(fields) && DistinctFields(otherFields)
    ensures SchemaText(collection, table, version, fields)
            == SchemaText(otherCollection, otherTable, otherVersion, otherFields)
       <==> && collection == otherCollection && table == otherTable && version == otherVersion
            && multiset(fields) == multiset(otherFields)
  {
    hide ReadSchema;
    SchemaRoundTrip(collection, table, version, fields);
    SchemaRoundTrip(otherCollection, otherTable, otherVersion, otherFields);
    IdsTotal(fields);
    IdsTotal(otherFields);
    Sorting.SortSorts(IdLess, fields);
    Sorting.SortSorts(IdLess, otherFields);
    if multiset(fields) == multiset(otherFields) {
      Sorting.SortForgetsOrder(IdLess, fields, otherFields);
    }
  }

  // ----------------------------------------------------------- byte for byte

  lemma {:induction false} FieldLineExactly(f: FieldSchema)
    ensures FieldLine(f)
         == "field:" + Decimal(|f.id|) + ":" + f.id + ":" + Decimal(|f.column|) + ":" + f.column + ":"
            + (match f.kind
               case IntegerColumn => "Integer" case RealColumn => "Real" case TextColumn => "Text" case BlobColumn => "Blob")
            + ":" + (if f.nullable then "1" else "0") + ":" + (if f.primaryKey then "1" else "0") + "\n"
  {
    hide Decimal, Sized;
    SizedAfter("field:", f.id);
    SizedAfter("field:" + Decimal(|f.id|) + ":" + f.id + ":", f.column);
  }

  lemma {:induction false} SizedAfter(before: Text, t: Text)
    ensures before + Sized(t) == before + Decimal(|t|) + ":" + t
  {
    hide Decimal;
  }

  lemma {:induction false} FieldLinesFlatten(fields: seq<FieldSchema>, lines: seq<Text>)
    requires |lines| == |fields| && forall i :: 0 <= i < |lines| ==> lines[i] == FieldLine(fields[i])
    ensures FieldLines(fields) == Flatten(lines)
  {
    hide FieldLine;
    if fields != [] {
      var n := |fields| - 1;
      FieldLinesFlatten(fields[..n], lines[..n]);
      FieldLinesSnoc(fields[..n], fields[n]);
      assert fields == fields[..n] + [fields[n]];
    }
  }

  /** The schema text, byte for byte: the heading, then one line per field in the
      order of the ids. */
  lemma {:induction false} SchemaTextExactly(
      collection: Text, table: Text, version: nat, fields: seq<FieldSchema>, sorted: seq<FieldSchema>, lines: seq<Text>)
    requires DistinctFields(fields) && multiset(sorted) == multiset(fields)
    requires forall i, j :: 0 <= i < j < |sorted| ==> TextLess(sorted[i].id, sorted[j].id)
    requires |lines| == |sorted|
    requires forall i :: 0 <= i < |lines| ==>
               var f := sorted[i];
               lines[i]
               == "field:" + Decimal(|f.id|) + ":" + f.id + ":" + Decimal(|f.column|) + ":" + f.column + ":"
                  + (match f.kind
                     case IntegerColumn => "Integer" case RealColumn => "Real" case TextColumn => "Text" case BlobColumn => "Blob")
                  + ":" + (if f.nullable then "1" else "0") + ":" + (if f.primaryKey then "1" else "0") + "\n"
    ensures SchemaText(collection, table, version, fields)
         == "csgdb-schema-v1\ncollection:" + Decimal(|collection|) + ":" + collection
            + "\ntable:" + Decimal(|table|) + ":" + table + "\nversion:" + Decimal(version) + "\n" + Flatten(lines)
  {
    hide FieldLine, Decimal, FieldLines, Flatten, SchemaHead;
    forall i | 0 <= i < |lines| ensures lines[i] == FieldLine(sorted[i]) {
      FieldLineExactly(sorted[i]);
    }
    FieldLinesFlatten(sorted, lines);
    SortedByIds(fields, sorted);
    SchemaHeadExactly(collection, table, version);
  }

  lemma {:induction false} SchemaHeadExactly(collection: Text, table: Text, version: nat)
    ensures SchemaHead(collection, table, version)
         == "csgdb-schema-v1\ncollection:" + Decimal(|collection|) + ":" + collection
            + "\ntable:" + Decimal(|table|) + ":" + table + "\nversion:" + Decimal(version) + "\n"
  {
    hide Decimal;
  }

  lemma {:induction false} SortedByIds(fields: seq<FieldSchema>, sorted: seq<FieldSchema>)
    requires DistinctFields(fields) && multiset(sorted) == multiset(fields)
    requires forall i, j :: 0 <= i < j < |sorted| ==> TextLess(sorted[i].id, sorted[j].id)
    ensures Sorting.Sort(IdLess, fields) == sorted
  {
    IdsTotal(fields);
    Sorting.SortSorts(IdLess, fields);
    forall i, j | 0 <= i < j < |sorted| ensures !IdLess(sorted[j], sorted[i]) {
      TextLessIsStrict(sorted[i].id, sorted[j].id);
    }
    Sorting.SortedIsUnique(IdLess, Sorting.Sort(IdLess, fields), sorted);
  }

  lemma {:induction false} PairLinesFlatten(pairs: seq<(Text, Text)>, lines: seq<Text>)
    requires |lines| == |pairs| && forall i :: 0 <= i < |lines| ==> lines[i] == PairLine(pairs[i].0, pairs[i].1)
    ensures PairLines(pairs) == Flatten(lines)
  {
    hide PairLine;
    if pairs != [] {
      var n := |pairs| - 1;
      PairLinesFlatten(pairs[..n], lines[..n]);
      PairLinesSnoc(pairs[..n], pairs[n]);
      assert pairs == pairs[..n] + [pairs[n]];
    }
  }

  /** The index text, byte for byte: the heading, then one line per pair of field
      id and column, up to the shorter list. */
  lemma {:induction false} IndexTextExactly(
      collection: Text, table: Text, id: Text, name: Text, unique: bool, fields: seq<Text>, columns: seq<Text>, lines: seq<Text>)
    requires |lines| == if |fields| <= |columns| then |fields| else |columns|
    requires forall i :: 0 <= i < |lines| ==>
               lines[i]
               == "field:" + Decimal(|fields[i]|) + ":" + fields[i] + ":" + Decimal(|columns[i]|) + ":" + columns[i] + "\n"
    ensures IndexText(collection, table, id, name, unique, Zip(fields, columns))
         == "csgdb-index-v1\ncollection:" + Decimal(|collection|) + ":" + collection
            + "\ntable:" + Decimal(|table|) + ":" + table + "\nindex:" + Decimal(|id|) + ":" + id
            + "\nname:" + Decimal(|name|) + ":" + name + "\nunique:" + (if unique then "1" else "0") + "\n" + Flatten(lines)
  {
    hide Decimal, PairLines, Flatten, Zip, PairLine, IndexHead;
    ZipAt(fields, columns, 0);
    var pairs := Zip(fields, columns);
    forall i | 0 <= i < |lines| ensures lines[i] == PairLine(pairs[i].0, pairs[i].1) {
      ZipAt(fields, columns, i);
      PairLineExactly(fields[i], columns[i]);
    }
    PairLinesFlatten(pairs, lines);
    IndexHeadExactly(collection, table, id, name, unique);
  }

  lemma {:induction false} PairLineExactly(field: Text, column: Text)
    ensures PairLine(field, column)
         == "field:" + Decimal(|field|) + ":" + field + ":" + Decimal(|column|) + ":" + column + "\n"
  {
    hide Decimal;
  }

  lemma {:induction false} IndexHeadExactly(collection: Text, table: Text, id: Text, name: Text, unique: bool)
    ensures IndexHead(collection, table, id, name, unique)
         == "csgdb-index-v1\ncollection:" + Decimal(|collection|) + ":" + collection
            + "\ntable:" + Decimal(|table|) + ":" + table + "\nindex:" + Decimal(|id|) + ":" + id
            + "\nname:" + Decimal(|name|) + ":" + name + "\nunique:" + (if unique then "1" else "0") + "\n"
  {
    hide Decimal;
  }

  // ----------------------------------------------------------------- indexes

  lemma {:induction false} PairLineNests(field: Text, column: Text, rest: Text)
    ensures PairLine(field, column) + rest == "field:" + (Sized(field) + (":" + (Sized(column) + ("\n" + rest))))
    ensures |PairLine(field, column)| > 0
  {
    hide Sized;
  }

  lemma {:induction false} PairReads(field: Text, column: Text, rest: Text)
    ensures ReadPair(PairLine(field, column) + rest) == Some(((field, column), rest))
  {
    hide PairLine, Sized, Expect, ReadSized;
    PairLineNests(field, column, rest);
    LabelReads("field:", field, ":" + (Sized(column) + ("\n" + rest)));
    LabelReads(":", column, "\n" + rest);
    ExpectReads("\n", rest);
  }

  lemma {:induction false} PairsRead(pairs: seq<(Text, Text)>)
    ensures ReadPairs(PairLines(pairs)) == Some(pairs)
  {
    hide PairLine, ReadPair;
    if pairs != [] {
      PairReads(pairs[0].0, pairs[0].1, PairLines(pairs[1..]));
      PairsRead(pairs[1..]);
      PairLineNests(pairs[0].0, pairs[0].1, "");
      assert [pairs[0]] + pairs[1..] == pairs;
    }
  }

  lemma {:induction false} IndexHeadNests(collection: Text, table: Text, id: Text, name: Text, unique: bool, rest: Text)
    ensures IndexHead(collection, table, id, name, unique) + rest
         == "csgdb-index-v1\ncollection:" + (Sized(collection) + ("\ntable:" + (Sized(table) + ("\nindex:" + (Sized(id)
            + ("\nname:" + (Sized(name) + ("\nunique:" + (Bit(unique) + ("\n" + rest))))))))))
  {
    hide Sized, Bit;
  }

  /** An index descriptor gives back everything it was made from. */
  lemma {:induction false} IndexRoundTrip(
      collection: Text, table: Text, id: Text, name: Text, unique: bool, pairs: seq<(Text, Text)>)
    ensures ReadIndex(IndexText(collection, table, id, name, unique, pairs))
         == Some(IndexContents(collection, table, id, name, unique, pairs))
  {
    hide IndexHead, PairLines, Sized, Bit, Expect, ReadSized, ReadBit, ReadPairs;
    var rest := PairLines(pairs);
    IndexHeadNests(collection, table, id, name, unique, rest);
    var d := "\nunique:" + (Bit(unique) + ("\n" + rest));
    var c := "\nname:" + (Sized(name) + d);
    var b := "\nindex:" + (Sized(id) + c);
    LabelReads("csgdb-index-v1\ncollection:", collection, "\ntable:" + (Sized(table) + b));
    LabelReads("\ntable:", table, b);
    LabelReads("\nindex:", id, c);
    LabelReads("\nname:", name, d);
    ExpectReads("\nunique:", Bit(unique) + ("\n" + rest));
    BitReads(unique, "\n" + rest);
    ExpectReads("\n", rest);
    PairsRead(pairs);
  }

  // ---------------------------------------------------------------- registry

  /** The columns of `__csgdb_collections` that `ensure_registered_schema_matches` reads. */
  datatype Registered = Registered(id: Text, table: Text, version: nat, fingerprint: Text, descriptor: Text)

  function RegisteredOf(s: CollectionSchema): Registered
  {
    Registered(s.id, s.table, s.version, s.fingerprint, s.descriptor)
  }

  predicate RegistryMatches(expected: CollectionSchema, registered: Registered)
  {
    registered == RegisteredOf(expected)
  }

  /** A schema produced by the derive macro, `sha` being SHA-256. */
  ghost predicate Derived(sha: Text -> Text, s: CollectionSchema)
  {
    && DistinctFields(s.fields)
    && s.descriptor == SchemaText(s.id, s.table, s.version, s.fields)
    && s.fingerprint == sha(s.descriptor)
  }

  /** A registry match passes exactly for the same schema up to field order,
      whatever function computes the fingerprint. */
  lemma {:induction false} MatchMeansSameSchema(sha: Text -> Text, stored: CollectionSchema, expected: CollectionSchema)
    requires Derived(sha, stored) && Derived(sha, expected)
    ensures RegistryMatches(expected, RegisteredOf(stored)) <==>
              && stored.id == expected.id && stored.table == expected.table && stored.version == expected.version
              && multiset(stored.fields) == multiset(expected.fields)
  {
    hide SchemaText;
    SameTextSameSchema(stored.id, stored.table, stored.version, stored.fields,
                       expected.id, expected.table, expected.version, expected.fields);
  }
}
