/** Closed forms of registration and migration, and exactly when they succeed. */
module Registration {
  import opened Basics
  import opened Schema
  import opened Descriptor
  import opened Catalogue
  import opened Migration

  // ------------------------------------------------------------ registration

  /** Table, registry row, indexes and index rows of a new collection. */
  function Registering(w: Store, s: CollectionSchema): Option<Store>
  {
    var made :- CreateTable(w.physical, s);
    var physical :- CreateIndexes(made, s, |s.indexes|);
    var rows :- InsertRows(w.indexes, s, |s.indexes|);
    Some(Store(w.schemas[s.id := RegisteredOf(s)], rows, w.migrations, physical))
  }

  lemma {:induction false} OpeningPasses(w: Store, s: CollectionSchema)
    ensures var (v, e) := Effects(RegisterOpening(s), w);
            && v == w
            && e == if s.id in w.schemas && !RegistryMatches(s, w.schemas[s.id]) then Some(SchemaMismatch) else None
  {
    hide Effects, RegistryMatches;
    EffectsAppend(INITIALIZE, [FindSchema(s)], w);
    InitializeKeeps(w);
    EffectsOne(FindSchema(s), w);
  }

  lemma {:induction false} InitializeKeeps(w: Store)
    ensures Effects(INITIALIZE, w) == (w, None)
  {
    hide Effects;
    ReadsKeep(INITIALIZE, w);
    assert forall i :: 0 <= i < 3 ==> INITIALIZE[i] == InitializeRegistry;
  }

  lemma {:induction false} RowMeans(w: Store, s: CollectionSchema)
    requires s.id !in w.schemas
    ensures var (v, e) := Effects([RequireUnclaimed(s), MakeTable(s), InsertSchema(s)], w);
            && e == (if !Unclaimed(w, s) then Some(SchemaMismatch)
                     else if CreateTable(w.physical, s) == None then Some(Storage) else None)
            && (e == None ==>
                  v == w.(physical := CreateTable(w.physical, s).value, schemas := w.schemas[s.id := RegisteredOf(s)]))
  {
    hide CreateTable, Effects;
    var a, b, c := RequireUnclaimed(s), MakeTable(s), InsertSchema(s);
    assert [a, b, c] == [a] + ([b] + [c]);
    EffectsAppend([a], [b] + [c], w);
    EffectsOne(a, w);
    EffectsAppend([b], [c], w);
    EffectsOne(b, w);
    if CreateTable(w.physical, s).Some? {
      EffectsOne(c, w.(physical := CreateTable(w.physical, s).value));
    }
  }

  lemma {:induction false} NewMeans(w: Store, s: CollectionSchema)
    requires s.id !in w.schemas
    ensures var (v, e) := Effects(RegisterNew(s), w);
            && e == (if !Unclaimed(w, s) then Some(SchemaMismatch)
                     else if Registering(w, s) == None then Some(Storage) else None)
            && (e == None ==> v == Registering(w, s).value)
  {
    hide Effects, CreateTable, CreateIndexes, InsertRows, Unclaimed;
    var head := [RequireUnclaimed(s), MakeTable(s), InsertSchema(s)];
    EffectsAppend(head + MakeIndexes(s), InsertIndexRows(s), w);
    EffectsAppend(head, MakeIndexes(s), w);
    RowMeans(w, s);
    var n := |s.indexes|;
    var w1 := Effects(head, w).0;
    assert MakeIndexes(s)[..n] == MakeIndexes(s) && InsertIndexRows(s)[..n] == InsertIndexRows(s);
    MakesIndexes(w1, s, n);
    InsertsRows(Effects(MakeIndexes(s), w1).0, s, n);
  }

  /** The conditions under which a new collection is registered. */
  ghost predicate Accepted(w: Store, s: CollectionSchema)
  {
    && s.id !in w.schemas && Unclaimed(w, s) && Registering(w, s).Some?
    && TableMatches(Registering(w, s).value.physical, s) && IndexesMatch(Registering(w, s).value.physical, s)
  }

  /** `Register` in closed form: what each of its answers means. */
  lemma {:induction false} RegisterMeans(w: Store, s: CollectionSchema)
    requires ValidSchema(s)
    ensures FullyMatches(w, s) ==> Register(w, s) == (w, Done(AlreadyRegistered))
    ensures Accepted(w, s) ==> Register(w, s) == (Registering(w, s).value, Done(Created))
    ensures !FullyMatches(w, s) && !Accepted(w, s) ==>
              Register(w, s)
              == (w, Failed(if s.id !in w.schemas && Unclaimed(w, s) && Registering(w, s) == None then Storage
                            else SchemaMismatch))
  {
    hide ValidSchema, Effects, Effect, TableMatches, IndexesMatch, Unclaimed, Registering, IndexesRegistered, RegisterOpening,
         RegisterNew, RegistryMatches;
    var known := s.id in w.schemas;
    var tail := [RequireTable(s, false)] + RequireIndexes(s, false);
    EffectsAppend(RegisterOpening(s), RegisterRest(s, known), w);
    OpeningPasses(w, s);
    if known {
      EffectsAppend([RequireIndexRows(s, false)], tail, w);
      RowsCheck(w, s);
      TailChecks(s, w);
    } else {
      EffectsAppend(RegisterNew(s), tail, w);
      NewMeans(w, s);
      TailChecks(s, Effects(RegisterNew(s), w).0);
    }
  }

  lemma {:induction false} RowsCheck(w: Store, s: CollectionSchema)
    ensures var (v, e) := Effects([RequireIndexRows(s, false)], w);
            v == w && e == if IndexesRegistered(w, s) then None else Some(SchemaMismatch)
  {
    hide IndexesRegistered, Effects;
    EffectsOne(RequireIndexRows(s, false), w);
  }

  // --------------------------------------------------------------- migration

  /** The store after the callback left `p`. */
  function Migrating(w: Store, id: Text, from: CollectionSchema, to: CollectionSchema, p: Physical): Option<Store>
  {
    var dropped :- DropIndexes(p, from, to, |from.indexes|);
    var physical :- CreateIndexes(dropped, to, |to.indexes|);
    var rows :- InsertRows(w.indexes - Rows(w.indexes, to.id).Keys, to, |to.indexes|);
    Some(Store(w.schemas[to.id := RegisteredOf(to)], rows, w.migrations[(from.id, id) := RecordOf(from, to)], physical))
  }

  /** The index statements of a migration. */
  function Reindexed(p: Physical, from: CollectionSchema, to: CollectionSchema): Option<Physical>
  {
    var dropped :- DropIndexes(p, from, to, |from.indexes|);
    CreateIndexes(dropped, to, |to.indexes|)
  }

  lemma {:induction false} ReshapeMeans(w: Store, from: CollectionSchema, to: CollectionSchema)
    ensures var (v, e) := Effects(ReshapeTo(from, to), w);
            && e == (if !Unclaimed(w, to) || !TableMatches(w.physical, to) then Some(SchemaMismatch)
                     else if Reindexed(w.physical, from, to) == None then Some(Storage)
                     else if !IndexesMatch(Reindexed(w.physical, from, to).value, to) then Some(SchemaMismatch)
                     else None)
            && (e == None ==> v == w.(physical := Reindexed(w.physical, from, to).value))
  {
    hide Effects, Effect, Unclaimed, TableMatches, IndexesMatch, DropIndexes, CreateIndexes, RemoveObsolete;
    var head := [RequireUnclaimed(to), RequireTable(to, false)];
    var drops, makes := RemoveObsolete(from, to, |from.indexes|), MakeIndexes(to);
    EffectsAppend(head + drops + makes, RequireIndexes(to, false), w);
    EffectsAppend(head + drops, makes, w);
    EffectsAppend(head, drops, w);
    HeadMeans(w, to);
    RemovesObsolete(w, from, to, |from.indexes|);
    var n := |to.indexes|;
    assert makes[..n] == makes;
    MakesIndexes(Effects(drops, w).0, to, n);
    IndexChecks(to, false, Effects(makes, Effects(drops, w).0).0);
  }

  lemma {:induction false} HeadMeans(w: Store, to: CollectionSchema)
    ensures var (v, e) := Effects([RequireUnclaimed(to), RequireTable(to, false)], w);
            v == w && e == if Unclaimed(w, to) && TableMatches(w.physical, to) then None else Some(SchemaMismatch)
  {
    hide Effects, Unclaimed, TableMatches;
    var a, b := RequireUnclaimed(to), RequireTable(to, false);
    assert [a, b] == [a] + [b];
    EffectsAppend([a], [b], w);
    EffectsOne(a, w);
    EffectsOne(b, w);
  }

  lemma {:induction false} RecordMeans(w: Store, id: Text, from: CollectionSchema, to: CollectionSchema)
    ensures var (v, e) := Effects(RecordRest(id, from, to), w);
            var rows := InsertRows(w.indexes - Rows(w.indexes, to.id).Keys, to, |to.indexes|);
            && e == (if rows.Some? && (from.id, id) !in w.migrations then None else Some(Storage))
            && (e == None ==>
                  v == w.(indexes := rows.value, migrations := w.migrations[(from.id, id) := RecordOf(from, to)]))
  {
    hide Effects, InsertRows, Rows;
    EffectsAppend([DeleteIndexRows(to)] + InsertIndexRows(to), [InsertMigration(id, from, to)], w);
    EffectsAppend([DeleteIndexRows(to)], InsertIndexRows(to), w);
    EffectsOne(DeleteIndexRows(to), w);
    var cleared := w.(indexes := w.indexes - Rows(w.indexes, to.id).Keys);
    var n := |to.indexes|;
    assert InsertIndexRows(to)[..n] == InsertIndexRows(to);
    InsertsRows(cleared, to, n);
    EffectsOne(InsertMigration(id, from, to), Effects(InsertIndexRows(to), cleared).0);
  }

  /** After the callback: everything passes, and the store is the closed form. */
  lemma {:induction false} AfterCallbackMeans(w: Store, id: Text, from: CollectionSchema, to: CollectionSchema, p: Physical)
    requires to.id in w.schemas && (from.id, id) !in w.migrations
    ensures var (v, e) := Effects(ReshapeTo(from, to) + ([UpdateSchema(to)] + RecordRest(id, from, to)), w.(physical := p));
            && e == (if !Unclaimed(w, to) || !TableMatches(p, to) then Some(SchemaMismatch)
                     else if Reindexed(p, from, to) == None then Some(Storage)
                     else if !IndexesMatch(Reindexed(p, from, to).value, to) then Some(SchemaMismatch)
                     else if Migrating(w, id, from, to, p) == None then Some(Storage)
                     else None)
            && (Migrating(w, id, from, to, p).Some? ==>
                  Reindexed(p, from, to) == Some(Migrating(w, id, from, to, p).value.physical))
            && (e == None ==> v == Migrating(w, id, from, to, p).value)
  {
    hide Effects, TableMatches, IndexesMatch, DropIndexes, CreateIndexes, InsertRows, Rows, ReshapeTo, RecordRest;
    var start := w.(physical := p);
    EffectsAppend(ReshapeTo(from, to), [UpdateSchema(to)] + RecordRest(id, from, to), start);
    ReshapeMeans(start, from, to);
    assert Unclaimed(start, to) == Unclaimed(w, to);
    var mid := Effects(ReshapeTo(from, to), start).0;
    EffectsAppend([UpdateSchema(to)], RecordRest(id, from, to), mid);
    EffectsOne(UpdateSchema(to), mid);
    RecordMeans(mid.(schemas := mid.schemas[to.id := RegisteredOf(to)]), id, from, to);
    assert Unclaimed(mid, to) == Unclaimed(w, to) || Effects(ReshapeTo(from, to), start).1.Some?;
  }

  /** The conditions under which a migration is applied. */
  ghost predicate Applicable(w: Store, id: Text, from: CollectionSchema, to: CollectionSchema, left: Option<Physical>)
  {
    && (from.id, id) !in w.migrations && FullyMatches(w, from) && left.Some? && Unclaimed(w, to)
    && TableMatches(left.value, to) && Migrating(w, id, from, to, left.value).Some?
    && IndexesMatch(Migrating(w, id, from, to, left.value).value.physical, to)
  }

  lemma {:induction false} MigrateOpens(w: Store, id: Text, from: CollectionSchema, to: CollectionSchema, known: bool)
    ensures var s := if known then to else from;
            var (v, e) := Effects(MigrateOpening(id, from, to) + RequireAll(s, known), w);
            && v == w
            && e == if (from.id, id) in w.migrations && w.migrations[(from.id, id)] != RecordOf(from, to)
                    then Some(MigrationMismatch)
                    else if FullyMatches(w, s) then None
                    else if known || !Holds(w, s) || !IndexesRegistered(w, s) then Some(MigrationMismatch)
                    else Some(SchemaMismatch)
  {
    hide Effects, FullyMatches, RequireAll, Holds, IndexesRegistered;
    EffectsAppend(MigrateOpening(id, from, to), RequireAll(if known then to else from, known), w);
    AllChecks(if known then to else from, known, w);
    OpeningChecks(w, id, from, to);
  }

  lemma {:induction false} OpeningChecks(w: Store, id: Text, from: CollectionSchema, to: CollectionSchema)
    ensures Effects(MigrateOpening(id, from, to), w)
         == (w, if (from.id, id) in w.migrations && w.migrations[(from.id, id)] != RecordOf(from, to)
                then Some(MigrationMismatch) else None)
  {
    hide Effects;
    EffectsAppend(INITIALIZE, [FindMigration(id, from, to)], w);
    InitializeKeeps(w);
    EffectsOne(FindMigration(id, from, to), w);
  }

  /** `Migrate` in closed form: what each of its answers means. */
  lemma {:induction false} MigrateMeans(
      w: Store, id: Text, from: CollectionSchema, to: CollectionSchema, left: Option<Physical>)
    requires ValidSchema(from) && ValidSchema(to) && ValidMigration(from, to, id)
    ensures (from.id, id) in w.migrations ==>
              Migrate(w, id, from, to, left)
              == if w.migrations[(from.id, id)] == RecordOf(from, to) && FullyMatches(w, to)
                 then (w, Done(AlreadyApplied)) else (w, Failed(MigrationMismatch))
    ensures Applicable(w, id, from, to, left) ==>
              Migrate(w, id, from, to, left) == (Migrating(w, id, from, to, left.value).value, Done(Applied))
    ensures (from.id, id) !in w.migrations && !Applicable(w, id, from, to, left) ==>
              Migrate(w, id, from, to, left)
              == (w, Failed(
                   if !Holds(w, from) || !IndexesRegistered(w, from) then MigrationMismatch
                   else if !FullyMatches(w, from) then SchemaMismatch
                   else if left == None then CallbackFailed
                   else if !Unclaimed(w, to) || !TableMatches(left.value, to) then SchemaMismatch
                   else if Reindexed(left.value, from, to) == None then Storage
                   else if !IndexesMatch(Reindexed(left.value, from, to).value, to) then SchemaMismatch
                   else Storage))
  {
    var known := (from.id, id) in w.migrations;
    MigrateOpens(w, id, from, to, known);
    assert FullyMatches(w, from) ==> to.id in w.schemas;
    hide Effects, ValidSchema, ValidMigration, FullyMatches, Migrating, TableMatches, IndexesMatch, Unclaimed, ReshapeTo,
         RecordRest, RequireAll, MigrateOpening;
    if !known && left.Some? && to.id in w.schemas {
      AfterCallbackMeans(w, id, from, to, left.value);
    }
  }

  // -------------------------------------------- when a schema can be registered

  /** The engine accepts this name for an index of the schema's table: it is not
      reserved, not a table's, and not another index's. */
  predicate IndexNameFits(p: Physical, s: CollectionSchema, x: IndexSchema)
  {
    && !EngineReserved(x.name) && x.name != s.table && x.name !in p.tables
    && (x.name in p.indexes ==> IndexMatches(p, s, x))
  }

  predicate TableNameFits(p: Physical, s: CollectionSchema)
  {
    && !EngineReserved(s.table)
    && if s.table in p.tables then TableMatches(p, s) else s.table !in p.indexes
  }

  predicate RowFits(w: Store, s: CollectionSchema, x: IndexSchema)
  {
    (s.id, x.id) !in w.indexes && !NameTaken(w.indexes, x.name)
  }

  lemma {:induction false} TableFits(p: Physical, s: CollectionSchema)
    requires DistinctFields(s.fields)
    ensures TableNameFits(p, s) <==> CreateTable(p, s).Some? && TableMatches(CreateTable(p, s).value, s)
    ensures CreateTable(p, s).Some? ==>
              && CreateTable(p, s).value.indexes == p.indexes
              && CreateTable(p, s).value.tables.Keys == p.tables.Keys + {s.table}
  {
    hide TableMatches;
    if s.table !in p.tables && CreateTable(p, s).Some? {
      CreatedTableMatches(p, s);
    }
  }

  predicate AllFit(p: Physical, s: CollectionSchema, n: nat)
    requires n <= |s.indexes|
  {
    forall i :: 0 <= i < n ==> IndexNameFits(p, s, s.indexes[i])
  }

  predicate AllMatch(p: Physical, s: CollectionSchema, n: nat)
    requires n <= |s.indexes|
  {
    forall i :: 0 <= i < n ==> IndexMatches(p, s, s.indexes[i])
  }

  /** On a matching table, the indexes can all be created as declared exactly
      when every name fits. */
  lemma {:induction false} IndexesFit(p: Physical, s: CollectionSchema, n: nat)
    requires n <= |s.indexes| && ValidFields(s.fields) && ValidIndexes(s.indexes, s.fields) && TableMatches(p, s)
    ensures AllFit(p, s, n) <==> CreateIndexes(p, s, n).Some? && AllMatch(CreateIndexes(p, s, n).value, s, n)
  {
    hide CreateIndexes, AllFit, AllMatch, IndexMatches, IndexNameFits, TableMatches, ValidFields, ValidIndexes;
    if n == 0 {
      NothingToFit(p, s);
    } else {
      FitSplit(p, s, n);
      CreatesFront(p, s, n);
      IndexesFit(p, s, n - 1);
      if CreateIndexes(p, s, n - 1).Some? {
        OneMoreFits(p, s, n);
        if CreateIndexes(p, s, n).Some? {
          FitSplit(CreateIndexes(p, s, n).value, s, n);
        }
      }
    }
  }

  lemma {:induction false} NothingToFit(p: Physical, s: CollectionSchema)
    ensures AllFit(p, s, 0) && CreateIndexes(p, s, 0) == Some(p) && AllMatch(p, s, 0)
  {}

  lemma {:induction false} CreatesFront(p: Physical, s: CollectionSchema, n: nat)
    requires 0 < n <= |s.indexes|
    ensures CreateIndexes(p, s, n).Some? ==> CreateIndexes(p, s, n - 1).Some?
  {}

  lemma {:induction false} FitSplit(p: Physical, s: CollectionSchema, n: nat)
    requires 0 < n <= |s.indexes|
    ensures AllFit(p, s, n) <==> AllFit(p, s, n - 1) && IndexNameFits(p, s, s.indexes[n - 1])
    ensures AllMatch(p, s, n) <==> AllMatch(p, s, n - 1) && IndexMatches(p, s, s.indexes[n - 1])
  {
    hide IndexMatches, IndexNameFits;
  }

  lemma {:induction false} OneMoreFits(p: Physical, s: CollectionSchema, n: nat)
    requires 0 < n <= |s.indexes| && ValidFields(s.fields) && ValidIndexes(s.indexes, s.fields) && TableMatches(p, s)
    requires CreateIndexes(p, s, n - 1).Some?
    ensures var x := s.indexes[n - 1];
            IndexNameFits(p, s, x) <==> CreateIndexes(p, s, n).Some? && IndexMatches(CreateIndexes(p, s, n).value, s, x)
    ensures CreateIndexes(p, s, n).Some? ==>
              AllMatch(CreateIndexes(p, s, n).value, s, n - 1) == AllMatch(CreateIndexes(p, s, n - 1).value, s, n - 1)
  {
    hide CreateIndexes, CreateIndex, HasColumns, TableMatches, ValidFields, ValidIndex, KeyColumns, AllMatch, MadeIndex;
    var q, x := CreateIndexes(p, s, n - 1).value, s.indexes[n - 1];
    CreatedIndexes(p, s, n - 1, x.name);
    assert x.name in q.indexes <==> x.name in p.indexes;
    assert ValidIndex(x, s.fields);
    assert forall i :: 0 <= i < n - 1 ==> s.indexes[i].name != x.name;
    Columns(p, q, s, x);
    CreatesOne(p, s, n);
    NextIndex(q, s, x);
    if CreateIndex(q, s, x).Some? {
      OthersStay(q, s, x, n - 1);
    }
  }

  lemma {:induction false} Columns(p: Physical, q: Physical, s: CollectionSchema, x: IndexSchema)
    requires ValidFields(s.fields) && ValidIndex(x, s.fields) && TableMatches(p, s) && q.tables == p.tables
    ensures s.table in q.tables && HasColumns(q, s.table, x.columns)
    ensures KeyColumns(MadeIndex(s.table, x).parts) == Some(x.columns)
  {
    hide ValidFields, ValidIndex, FieldMatches;
    MatchingTableHasColumns(p, s, x);
    ColumnsNamed(s, x);
    MadeIndexMatches(s.table, x);
  }

  lemma {:induction false} CreatesOne(p: Physical, s: CollectionSchema, n: nat)
    requires 0 < n <= |s.indexes| && CreateIndexes(p, s, n - 1).Some?
    ensures CreateIndexes(p, s, n) == CreateIndex(CreateIndexes(p, s, n - 1).value, s, s.indexes[n - 1])
  {}

  lemma {:induction false} NextIndex(q: Physical, s: CollectionSchema, x: IndexSchema)
    requires s.table in q.tables && HasColumns(q, s.table, x.columns)
    requires KeyColumns(MadeIndex(s.table, x).parts) == Some(x.columns)
    ensures IndexNameFits(q, s, x) <==> CreateIndex(q, s, x).Some? && IndexMatches(CreateIndex(q, s, x).value, s, x)
  {
    hide HasColumns, KeyColumns;
  }

  lemma {:induction false} OthersStay(q: Physical, s: CollectionSchema, x: IndexSchema, n: nat)
    requires n <= |s.indexes| && CreateIndex(q, s, x).Some?
    requires forall i :: 0 <= i < n ==> s.indexes[i].name != x.name
    ensures AllMatch(CreateIndex(q, s, x).value, s, n) == AllMatch(q, s, n)
  {
    hide HasColumns, KeyColumns, MadeIndex;
    forall i | 0 <= i < n ensures IndexMatches(CreateIndex(q, s, x).value, s, s.indexes[i]) == IndexMatches(q, s, s.indexes[i]) {
    }
  }

  lemma {:induction false} RowsFit(w: Store, s: CollectionSchema, n: nat)
    requires n <= |s.indexes|
    requires forall i, j :: 0 <= i < j < |s.indexes| ==>
               s.indexes[i].id != s.indexes[j].id && s.indexes[i].name != s.indexes[j].name
    ensures InsertRows(w.indexes, s, n).Some? <==> forall i :: 0 <= i < n ==> RowFits(w, s, s.indexes[i])
    ensures InsertRows(w.indexes, s, n).Some? ==>
              forall i :: n <= i < |s.indexes| ==>
                (RowFits(w, s, s.indexes[i]) <==>
                   (s.id, s.indexes[i].id) !in InsertRows(w.indexes, s, n).value
                   && !NameTaken(InsertRows(w.indexes, s, n).value, s.indexes[i].name))
  {
    if n > 0 {
      RowsFit(w, s, n - 1);
      if InsertRows(w.indexes, s, n).Some? {
        var m, x := InsertRows(w.indexes, s, n - 1).value, s.indexes[n - 1];
        forall i | n <= i < |s.indexes|
          ensures NameTaken(m[(s.id, x.id) := RegisteredIndexOf(x)], s.indexes[i].name) <==> NameTaken(m, s.indexes[i].name)
        {
          NameStaysFree(m, (s.id, x.id), x, s.indexes[i].name);
        }
      }
    }
  }

  lemma {:induction false} NameStaysFree(m: map<(Text, Text), RegisteredIndex>, k: (Text, Text), x: IndexSchema, name: Text)
    requires k !in m && x.name != name
    ensures NameTaken(m[k := RegisteredIndexOf(x)], name) <==> NameTaken(m, name)
  {
    var longer := m[k := RegisteredIndexOf(x)];
    if j :| j in m && m[j].name == name {
      assert longer[j].name == name;
    }
    if j :| j in longer && longer[j].name == name {
      assert m[j].name == name;
    }
  }

  ghost predicate Registrable(w: Store, s: CollectionSchema)
  {
    && s.id !in w.schemas && Unclaimed(w, s) && TableNameFits(w.physical, s)
    && forall i :: 0 <= i < |s.indexes| ==> IndexNameFits(w.physical, s, s.indexes[i]) && RowFits(w, s, s.indexes[i])
  }

  /** The statements on the physical schema succeed and leave what is declared
      exactly when the engine accepts every name. */
  lemma {:induction false} PhysicalFits(p: Physical, s: CollectionSchema)
    requires ValidFields(s.fields) && ValidIndexes(s.indexes, s.fields)
    ensures TableNameFits(p, s) && (forall i :: 0 <= i < |s.indexes| ==> IndexNameFits(p, s, s.indexes[i])) <==>
              && CreateTable(p, s).Some? && CreateIndexes(CreateTable(p, s).value, s, |s.indexes|).Some?
              && TableMatches(CreateIndexes(CreateTable(p, s).value, s, |s.indexes|).value, s)
              && IndexesMatch(CreateIndexes(CreateTable(p, s).value, s, |s.indexes|).value, s)
  {
    TableFits(p, s);
    var made := CreateTable(p, s);
    hide CreateTable, CreateIndexes, TableMatches, IndexMatches, IndexNameFits, TableNameFits, ValidFields, ValidIndexes;
    if made.Some? {
      forall i | 0 <= i < |s.indexes| ensures IndexNameFits(made.value, s, s.indexes[i]) == IndexNameFits(p, s, s.indexes[i]) {
        SameFit(p, made.value, s, s.indexes[i]);
      }
      if TableMatches(made.value, s) {
        IndexesFit(made.value, s, |s.indexes|);
      }
      if CreateIndexes(made.value, s, |s.indexes|).Some? {
        TablesDecide(made.value, CreateIndexes(made.value, s, |s.indexes|).value, s);
      }
    }
  }

  /** Exactly when a valid schema registers: its id is new, no other collection
      claims its table, the engine accepts every name, and no index row is taken. */
  lemma {:induction false} RegistersExactly(w: Store, s: CollectionSchema)
    requires ValidSchema(s)
    ensures Register(w, s).1 == Done(Created) <==>
              && s.id !in w.schemas && Unclaimed(w, s) && TableNameFits(w.physical, s)
              && forall i :: 0 <= i < |s.indexes| ==>
                   IndexNameFits(w.physical, s, s.indexes[i]) && RowFits(w, s, s.indexes[i])
  {
    hide Register, CreateTable, CreateIndexes, InsertRows, TableMatches, IndexesMatch, IndexNameFits, RowFits, Unclaimed,
         TableNameFits, IndexesRegistered, RegistryMatches;
    RegisterMeans(w, s);
    AcceptedExactly(w, s);
  }

  lemma {:induction false} AcceptedExactly(w: Store, s: CollectionSchema)
    requires ValidSchema(s)
    ensures Accepted(w, s) <==> Registrable(w, s)
  {
    hide ValidSchema, ValidFields, ValidIndexes, CreateTable, CreateIndexes, InsertRows, TableMatches, IndexesMatch,
         IndexNameFits, RowFits, Unclaimed, TableNameFits;
    ValidParts(s);
    PhysicalFits(w.physical, s);
    RowsFit(w, s, |s.indexes|);
  }

  lemma {:induction false} ValidParts(s: CollectionSchema)
    requires ValidSchema(s)
    ensures ValidFields(s.fields) && ValidIndexes(s.indexes, s.fields) && DistinctFields(s.fields)
    ensures forall i, j :: 0 <= i < j < |s.indexes| ==>
              s.indexes[i].id != s.indexes[j].id && s.indexes[i].name != s.indexes[j].name
  {
    hide ValidIndex, IsKeyAt;
  }

  lemma {:induction false} SameFit(p: Physical, q: Physical, s: CollectionSchema, x: IndexSchema)
    requires q.indexes == p.indexes && q.tables.Keys == p.tables.Keys + {s.table}
    ensures IndexNameFits(q, s, x) == IndexNameFits(p, s, x)
  {
    hide KeyColumns;
    assert x.name in q.tables <==> x.name in q.tables.Keys;
  }

  // ------------------------------------------------- the comparisons, written out

  lemma {:induction false} DeclaredExactly(s: CollectionSchema, n: nat)
    requires n <= |s.indexes|
    requires forall i, j :: 0 <= i < j < |s.indexes| ==> s.indexes[i].id != s.indexes[j].id
    ensures forall i :: 0 <= i < n ==>
              && (s.id, s.indexes[i].id) in Declared(s, n)
              && Declared(s, n)[(s.id, s.indexes[i].id)]
                 == RegisteredIndex(s.indexes[i].name, s.indexes[i].unique, s.indexes[i].fingerprint, s.indexes[i].descriptor)
  {
    if n > 0 {
      DeclaredExactly(s, n - 1);
      assert forall i :: 0 <= i < n - 1 ==> s.indexes[i].id != s.indexes[n - 1].id;
    }
  }

  lemma {:induction false} DeclaredOnly(s: CollectionSchema, n: nat, k: (Text, Text))
    requires n <= |s.indexes|
    ensures k in Declared(s, n) <==> exists i :: 0 <= i < n && k == (s.id, s.indexes[i].id)
  {
    hide RegisteredIndexOf;
    if n > 0 {
      DeclaredOnly(s, n - 1, k);
    }
  }

  /** The index rows of a collection are the schema's exactly when there is one row
      per declared index, with its name, uniqueness, fingerprint and descriptor, and
      no other. */
  lemma {:induction false} IndexRowsExactly(w: Store, s: CollectionSchema)
    requires ValidSchema(s)
    ensures IndexesRegistered(w, s) <==>
              && (forall i :: 0 <= i < |s.indexes| ==>
                    var x := s.indexes[i];
                    && (s.id, x.id) in w.indexes
                    && w.indexes[(s.id, x.id)] == RegisteredIndex(x.name, x.unique, x.fingerprint, x.descriptor))
              && (forall k :: k in w.indexes && k.0 == s.id ==> exists i :: 0 <= i < |s.indexes| && s.indexes[i].id == k.1)
  {
    hide ValidSchema, Declared;
    ValidParts(s);
    DeclaredExactly(s, |s.indexes|);
    forall k ensures k in Declared(s, |s.indexes|) <==> exists i :: 0 <= i < |s.indexes| && k == (s.id, s.indexes[i].id) {
      DeclaredOnly(s, |s.indexes|, k);
    }
    var rows, declared := Rows(w.indexes, s.id), Declared(s, |s.indexes|);
    if rows == declared {
      forall i | 0 <= i < |s.indexes| ensures (s.id, s.indexes[i].id) in w.indexes {
        assert (s.id, s.indexes[i].id) in rows;
      }
      forall k | k in w.indexes && k.0 == s.id ensures exists i :: 0 <= i < |s.indexes| && s.indexes[i].id == k.1 {
        assert k in rows;
      }
    }
  }

  /** The other comparisons: who claims a table, which row a schema and a migration
      leave, what a migration must be, and which index it retains. */
  lemma {:induction false} ComparisonsExactly(
      w: Store, from: CollectionSchema, to: CollectionSchema, id: Text, earlier: IndexSchema)
    ensures Unclaimed(w, to) <==> forall c :: c in w.schemas && w.schemas[c].table == to.table ==> c == to.id
    ensures Holds(w, to) <==>
              to.id in w.schemas
              && w.schemas[to.id] == Registered(to.id, to.table, to.version, to.fingerprint, to.descriptor)
    ensures FullyMatches(w, to) <==>
              Holds(w, to) && IndexesRegistered(w, to) && TableMatches(w.physical, to) && IndexesMatch(w.physical, to)
    ensures RecordOf(from, to) == MigrationRecord(from.version, to.version, from.fingerprint, to.fingerprint)
    ensures ValidMigration(from, to, id) <==>
              ValidName(id) && from.id == to.id && from.version < to.version && from.fingerprint != to.fingerprint
    ensures Retained(earlier, to) <==>
              exists i :: 0 <= i < |to.indexes| && to.indexes[i].id == earlier.id && to.indexes[i].name == earlier.name
                && to.indexes[i].fingerprint == earlier.fingerprint && to.indexes[i].descriptor == earlier.descriptor
  {
    hide ValidName, IndexesRegistered, TableMatches, IndexesMatch;
  }

  // ------------------------------------------- when a migration is applied

  /** Dropping succeeds exactly when no index to be dropped backs a constraint. */
  lemma {:induction false} DropsFit(p: Physical, from: CollectionSchema, to: CollectionSchema, n: nat)
    requires n <= |from.indexes|
    requires forall i, j :: 0 <= i < j < |from.indexes| ==> from.indexes[i].name != from.indexes[j].name
    ensures DropIndexes(p, from, to, n).Some? <==>
              forall i :: 0 <= i < n && !Retained(from.indexes[i], to) && from.indexes[i].name in p.indexes ==>
                p.indexes[from.indexes[i].name].origin == "c"
  {
    hide Retained;
    if n > 0 {
      DropsFit(p, from, to, n - 1);
      if DropIndexes(p, from, to, n - 1).Some? {
        DroppedIndexes(p, from, to, n - 1, from.indexes[n - 1].name);
      }
    }
  }

  /** The index names of the target fit after the drops exactly when each is
      acceptable to the engine and, unless it was dropped, already as declared. */
  ghost predicate TargetFits(p: Physical, from: CollectionSchema, to: CollectionSchema, x: IndexSchema)
  {
    && !EngineReserved(x.name) && x.name !in p.tables
    && (x.name in p.indexes && (forall i :: 0 <= i < |from.indexes| && from.indexes[i].name == x.name ==>
                                  Retained(from.indexes[i], to)) ==>
          IndexMatches(p, to, x))
  }

  lemma {:induction false} TargetFitsAfterDrops(p: Physical, from: CollectionSchema, to: CollectionSchema, x: IndexSchema)
    requires DropIndexes(p, from, to, |from.indexes|).Some? && to.table in p.tables
    ensures IndexNameFits(DropIndexes(p, from, to, |from.indexes|).value, to, x) <==> TargetFits(p, from, to, x)
  {
    hide Retained, KeyColumns, DropIndexes;
    DroppedIndexes(p, from, to, |from.indexes|, x.name);
  }

  lemma {:induction false} ReindexesExactly(p: Physical, from: CollectionSchema, to: CollectionSchema)
    requires ValidSchema(from) && ValidSchema(to) && TableMatches(p, to)
    ensures Reindexed(p, from, to).Some? && IndexesMatch(Reindexed(p, from, to).value, to) <==>
              && (forall i :: 0 <= i < |from.indexes| && !Retained(from.indexes[i], to) && from.indexes[i].name in p.indexes ==>
                    p.indexes[from.indexes[i].name].origin == "c")
              && (forall i :: 0 <= i < |to.indexes| ==> TargetFits(p, from, to, to.indexes[i]))
  {
    hide ValidSchema, Retained, IndexMatches, DropIndexes, CreateIndexes, TargetFits, IndexNameFits, ValidFields, ValidIndexes;
    ValidParts(from);
    ValidParts(to);
    DropsFit(p, from, to, |from.indexes|);
    var dropped := DropIndexes(p, from, to, |from.indexes|);
    if dropped.Some? {
      TablesDecide(p, dropped.value, to);
      IndexesFit(dropped.value, to, |to.indexes|);
      forall i | 0 <= i < |to.indexes|
        ensures IndexNameFits(dropped.value, to, to.indexes[i]) <==> TargetFits(p, from, to, to.indexes[i])
      {
        TargetFitsAfterDrops(p, from, to, to.indexes[i]);
      }
    }
  }

  lemma {:induction false} RowsReplaced(w: Store, to: CollectionSchema)
    requires ValidSchema(to)
    ensures InsertRows(w.indexes - Rows(w.indexes, to.id).Keys, to, |to.indexes|).Some? <==>
              forall i :: 0 <= i < |to.indexes| ==>
                forall k :: k in w.indexes && w.indexes[k].name == to.indexes[i].name ==> k.0 == to.id
  {
    hide ValidSchema, InsertRows;
    ValidParts(to);
    var cleared := w.(indexes := w.indexes - Rows(w.indexes, to.id).Keys);
    RowsFit(cleared, to, |to.indexes|);
    forall i | 0 <= i < |to.indexes|
      ensures RowFits(cleared, to, to.indexes[i]) <==>
                forall k :: k in w.indexes && w.indexes[k].name == to.indexes[i].name ==> k.0 == to.id
    {
      assert forall k :: k in cleared.indexes <==> k in w.indexes && k.0 != to.id;
    }
  }

  /** Exactly when a valid migration is applied: it is not recorded, the source is
      fully in place, the callback succeeded and left the target's table, which no
      other collection claims; no obsolete index backs a constraint; every target
      index name is acceptable and new, dropped or as declared; and no other
      collection has registered it. */
  lemma {:induction false} MigratesExactly(
      w: Store, id: Text, from: CollectionSchema, to: CollectionSchema, left: Option<Physical>)
    requires ValidSchema(from) && ValidSchema(to) && ValidMigration(from, to, id)
    ensures Migrate(w, id, from, to, left).1 == Done(Applied) <==>
              && (from.id, id) !in w.migrations && FullyMatches(w, from)
              && left.Some? && Unclaimed(w, to) && TableMatches(left.value, to)
              && (forall i :: 0 <= i < |from.indexes| && !Retained(from.indexes[i], to)
                                && from.indexes[i].name in left.value.indexes ==>
                    left.value.indexes[from.indexes[i].name].origin == "c")
              && (forall i :: 0 <= i < |to.indexes| ==> TargetFits(left.value, from, to, to.indexes[i]))
              && (forall i :: 0 <= i < |to.indexes| ==>
                    forall k :: k in w.indexes && w.indexes[k].name == to.indexes[i].name ==> k.0 == to.id)
  {
    hide Migrate, ValidSchema, ValidMigration, FullyMatches, TableMatches, IndexesMatch, Unclaimed, Retained, TargetFits,
         DropIndexes, CreateIndexes, InsertRows, Rows, Holds, IndexesRegistered;
    MigrateMeans(w, id, from, to, left);
    RowsReplaced(w, to);
    if left.Some? && TableMatches(left.value, to) {
      ReindexesExactly(left.value, from, to);
    }
  }

  // ------------------------------------------------ what a success leaves

  /** No store gives a success whose table differs from a declared field in type,
      nullability or key, or lacks a declared index. */
  lemma {:induction false} DoneLeavesDeclared(
      w: Store, id: Text, from: CollectionSchema, to: CollectionSchema, left: Option<Physical>, v: Store, status: Status)
    requires Register(w, to) == (v, Done(status)) || Migrate(w, id, from, to, left) == (v, Done(status))
    ensures to.table in v.physical.tables && |v.physical.tables[to.table]| == |to.fields|
    ensures forall i :: 0 <= i < |to.fields| ==> InPlace(v.physical.tables[to.table], to.fields[i])
    ensures forall i :: 0 <= i < |to.indexes| ==>
              var x := to.indexes[i];
              && x.name in v.physical.indexes && v.physical.indexes[x.name].table == to.table
              && v.physical.indexes[x.name].unique == x.unique && Keyed(v.physical.indexes[x.name].parts, x.columns)
  {
    hide InPlace, Keyed, TableMatches, IndexesMatch, Register, Migrate;
    DoneMatches(w, id, from, to, left, v, status);
    MatchingTable(v.physical, to);
    MatchingIndexes(v.physical, to);
  }

  lemma {:induction false} MatchingTable(p: Physical, s: CollectionSchema)
    requires TableMatches(p, s)
    ensures s.table in p.tables && |p.tables[s.table]| == |s.fields|
    ensures forall i :: 0 <= i < |s.fields| ==> InPlace(p.tables[s.table], s.fields[i])
  {
    hide InPlace, FieldMatches;
    forall i | 0 <= i < |s.fields| ensures InPlace(p.tables[s.table], s.fields[i]) {
      FieldMatchesExactly(p.tables[s.table], s.fields[i]);
    }
  }

  lemma {:induction false} MatchingIndexes(p: Physical, s: CollectionSchema)
    requires IndexesMatch(p, s)
    ensures forall i :: 0 <= i < |s.indexes| ==>
              var x := s.indexes[i];
              && x.name in p.indexes && p.indexes[x.name].table == s.table
              && p.indexes[x.name].unique == x.unique && Keyed(p.indexes[x.name].parts, x.columns)
  {
    hide Keyed, KeyColumns;
    forall i | 0 <= i < |s.indexes|
      ensures s.indexes[i].name in p.indexes && Keyed(p.indexes[s.indexes[i].name].parts, s.indexes[i].columns)
    {
      assert IndexMatches(p, s, s.indexes[i]);
      KeyColumnsExactly(p.indexes[s.indexes[i].name].parts, s.indexes[i].columns);
    }
  }

  lemma {:induction false} DoneMatches(
      w: Store, id: Text, from: CollectionSchema, to: CollectionSchema, left: Option<Physical>, v: Store, status: Status)
    requires Register(w, to) == (v, Done(status)) || Migrate(w, id, from, to, left) == (v, Done(status))
    ensures TableMatches(v.physical, to) && IndexesMatch(v.physical, to)
  {
    hide TableMatches, IndexesMatch, DropIndexes, CreateIndexes, InsertRows, Rows, Unclaimed, Holds, IndexesRegistered, Effects,
         ValidSchema, ValidMigration, Registering;
    if Register(w, to) == (v, Done(status)) {
      RegisterMeans(w, to);
    } else {
      MigrateMeans(w, id, from, to, left);
      if Applicable(w, id, from, to, left) {
        TablesDecide(left.value, v.physical, to);
      }
    }
  }

  // ------------------------------------------------- a schema that never can

  /** A valid schema whose only index has its table's name. */
  function SameName(): CollectionSchema
  {
    var f := FieldSchema("f", "k", IntegerColumn, false, true);
    var fingerprint := seq(32, _ => 'a');
    CollectionSchema("c", "t", 1, fingerprint, [f], "d", [IndexSchema("x", "t", ["k"], false, fingerprint, "e")])
  }

  /** The validator accepts it, and no store registers it. */
  lemma {:induction false} SameNameNeverRegisters(w: Store)
    ensures ValidSchema(SameName()) && Register(w, SameName()).1 != Done(Created)
  {
    hide Register;
    var s := SameName();
    assert IsKeyAt(s.fields, 0);
    assert HasColumn(s.fields, "k") by {
      assert s.fields[0].column == "k";
    }
    assert ValidIndex(s.indexes[0], s.fields);
    assert !IndexNameFits(w.physical, s, s.indexes[0]);
    RegistersExactly(w, s);
  }
}
