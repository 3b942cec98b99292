/** Registration and migration of collections as the statements they issue: the
    registry tables, the effect of every statement, and the two operations as
    scripts of statements when the engine refuses nothing by itself. */
module Migration {
  import opened Basics
  import opened Schema
  import opened Descriptor
  import opened Catalogue

  // ------------------------------------------------------------------ store

  datatype RegisteredIndex = RegisteredIndex(name: Text, unique: bool, fingerprint: Text, descriptor: Text)

  datatype MigrationRecord = MigrationRecord(
    fromVersion: nat, toVersion: nat, fromFingerprint: Text, toFingerprint: Text)

  /** `__csgdb_schema`, `__csgdb_index_schema` and `__csgdb_migration` by their
      primary keys, and the physical schema. */
  datatype Store = Store(
    schemas: map<Text, Registered>,
    indexes: map<(Text, Text), RegisteredIndex>,
    migrations: map<(Text, Text), MigrationRecord>,
    physical: Physical)

  datatype Code = InvalidSchema | InvalidMigration | SchemaMismatch | MigrationMismatch | CallbackFailed | Storage

  datatype Status = Created | AlreadyRegistered | Applied | AlreadyApplied

  datatype Result = Done(status: Status) | Failed(code: Code)

  // --------------------------------------------------------- index registry

  function RegisteredIndexOf(x: IndexSchema): RegisteredIndex
  {
    RegisteredIndex(x.name, x.unique, x.fingerprint, x.descriptor)
  }

  /** The rows a schema's indexes make, keyed by collection and index id. */
  function Declared(s: CollectionSchema, n: nat): map<(Text, Text), RegisteredIndex>
    requires n <= |s.indexes|
  {
    if n == 0 then map[]
    else Declared(s, n - 1)[(s.id, s.indexes[n - 1].id) := RegisteredIndexOf(s.indexes[n - 1])]
  }

  function Rows(m: map<(Text, Text), RegisteredIndex>, collection: Text): map<(Text, Text), RegisteredIndex>
  {
    map k | k in m && k.0 == collection :: m[k]
  }

  predicate IndexesRegistered(w: Store, s: CollectionSchema)
  {
    Rows(w.indexes, s.id) == Declared(s, |s.indexes|)
  }

  predicate NameTaken(m: map<(Text, Text), RegisteredIndex>, name: Text)
  {
    exists k :: k in m && m[k].name == name
  }

  /** INSERT under the primary key and the UNIQUE index name. */
  function InsertRow(m: map<(Text, Text), RegisteredIndex>, s: CollectionSchema, x: IndexSchema)
    : Option<map<(Text, Text), RegisteredIndex>>
  {
    if (s.id, x.id) in m || NameTaken(m, x.name) then None else Some(m[(s.id, x.id) := RegisteredIndexOf(x)])
  }

  function InsertRows(m: map<(Text, Text), RegisteredIndex>, s: CollectionSchema, n: nat)
    : Option<map<(Text, Text), RegisteredIndex>>
    requires n <= |s.indexes|
  {
    if n == 0 then Some(m)
    else
      var before :- InsertRows(m, s, n - 1);
      InsertRow(before, s, s.indexes[n - 1])
  }

  predicate Unclaimed(w: Store, s: CollectionSchema)
  {
    forall c :: c in w.schemas && c != s.id ==> w.schemas[c].table != s.table
  }

  predicate Holds(w: Store, s: CollectionSchema)
  {
    s.id in w.schemas && RegistryMatches(s, w.schemas[s.id])
  }

  /** Registry row, index rows, table and indexes are the schema's. */
  predicate FullyMatches(w: Store, s: CollectionSchema)
  {
    Holds(w, s) && IndexesRegistered(w, s) && TableMatches(w.physical, s) && IndexesMatch(w.physical, s)
  }

  function RecordOf(from: CollectionSchema, to: CollectionSchema): MigrationRecord
  {
    MigrationRecord(from.version, to.version, from.fingerprint, to.fingerprint)
  }

  predicate ValidMigration(from: CollectionSchema, to: CollectionSchema, id: Text)
  {
    && ValidName(id) && from.id == to.id && to.version > from.version && from.fingerprint != to.fingerprint
  }

  // ------------------------------------------------------------- statements

  /** One statement with the comparison made on its result. `mapped` ones turn
      every error of theirs into MigrationMismatch. `Application` is a statement
      of a migration callback, which leaves the registry tables alone. */
  datatype Statement =
    | InitializeRegistry
    | FindSchema(s: CollectionSchema)
    | FindMigration(id: Text, from: CollectionSchema, to: CollectionSchema)
    | RequireSchema(s: CollectionSchema)
    | RequireIndexRows(s: CollectionSchema, mapped: bool)
    | RequireUnclaimed(s: CollectionSchema)
    | RequireTable(s: CollectionSchema, mapped: bool)
    | RequireIndex(s: CollectionSchema, x: IndexSchema, mapped: bool)
    | MakeTable(s: CollectionSchema)
    | MakeIndex(s: CollectionSchema, x: IndexSchema)
    | RemoveIndex(name: Text)
    | InsertSchema(s: CollectionSchema)
    | UpdateSchema(s: CollectionSchema)
    | DeleteIndexRows(s: CollectionSchema)
    | InsertIndexRow(s: CollectionSchema, x: IndexSchema)
    | InsertMigration(id: Text, from: CollectionSchema, to: CollectionSchema)
    | Application(change: Physical -> Option<Physical>)

  datatype Outcome = Next(store: Store) | Fail(code: Code)

  function Require(w: Store, condition: bool, code: Code): Outcome { if condition then Next(w) else Fail(code) }

  function Reshape(w: Store, p: Option<Physical>): Outcome
  {
    if p.Some? then Next(w.(physical := p.value)) else Fail(Storage)
  }

  /** What a statement does where the engine executes it. */
  function Effect(st: Statement, w: Store): Outcome
  {
    match st
    case InitializeRegistry => Next(w)
    case FindSchema(s) => Require(w, s.id in w.schemas ==> RegistryMatches(s, w.schemas[s.id]), SchemaMismatch)
    case FindMigration(id, from, to) =>
      Require(w, (from.id, id) in w.migrations ==> w.migrations[(from.id, id)] == RecordOf(from, to), MigrationMismatch)
    case RequireSchema(s) => Require(w, Holds(w, s), MigrationMismatch)
    case RequireIndexRows(s, mapped) =>
      Require(w, IndexesRegistered(w, s), if mapped then MigrationMismatch else SchemaMismatch)
    case RequireUnclaimed(s) => Require(w, Unclaimed(w, s), SchemaMismatch)
    case RequireTable(s, mapped) =>
      Require(w, TableMatches(w.physical, s), if mapped then MigrationMismatch else SchemaMismatch)
    case RequireIndex(s, x, mapped) =>
      Require(w, IndexMatches(w.physical, s, x), if mapped then MigrationMismatch else SchemaMismatch)
    case MakeTable(s) => Reshape(w, CreateTable(w.physical, s))
    case MakeIndex(s, x) => Reshape(w, CreateIndex(w.physical, s, x))
    case RemoveIndex(name) => Reshape(w, DropIndex(w.physical, name))
    case InsertSchema(s) =>
      if s.id in w.schemas || !Unclaimed(w, s) then Fail(Storage)
      else Next(w.(schemas := w.schemas[s.id := RegisteredOf(s)]))
    case UpdateSchema(s) =>
      if s.id !in w.schemas then Fail(MigrationMismatch)
      else if !Unclaimed(w, s) then Fail(Storage)
      else Next(w.(schemas := w.schemas[s.id := RegisteredOf(s)]))
    case DeleteIndexRows(s) => Next(w.(indexes := w.indexes - Rows(w.indexes, s.id).Keys))
    case InsertIndexRow(s, x) =>
      var rows := InsertRow(w.indexes, s, x);
      if rows.Some? then Next(w.(indexes := rows.value)) else Fail(Storage)
    case InsertMigration(id, from, to) =>
      if (from.id, id) in w.migrations then Fail(Storage)
      else Next(w.(migrations := w.migrations[(from.id, id) := RecordOf(from, to)]))
    case Application(change) => Reshape(w, change(w.physical))
  }

  /** The error a call reports when the engine refuses the statement. */
  function RefusalCode(st: Statement): Code
  {
    match st
    case RequireIndexRows(_, mapped) => if mapped then MigrationMismatch else Storage
    case RequireTable(_, mapped) => if mapped then MigrationMismatch else Storage
    case RequireIndex(_, _, mapped) => if mapped then MigrationMismatch else Storage
    case _ => Storage
  }

  /** Statements in order, up to the first that fails. */
  function Effects(sts: seq<Statement>, w: Store): (Store, Option<Code>)
  {
    if sts == [] then (w, None)
    else
      var (v, e) := Effects(sts[..|sts| - 1], w);
      if e.Some? then (v, e)
      else
        match Effect(sts[|sts| - 1], v)
        case Next(u) => (u, None)
        case Fail(code) => (v, Some(code))
  }

  // ---------------------------------------------------------------- scripts

  function MakeIndexes(s: CollectionSchema): (r: seq<Statement>)
    ensures |r| == |s.indexes| && forall i :: 0 <= i < |r| ==> r[i] == MakeIndex(s, s.indexes[i])
  {
    seq(|s.indexes|, i requires 0 <= i < |s.indexes| => MakeIndex(s, s.indexes[i]))
  }

  function InsertIndexRows(s: CollectionSchema): (r: seq<Statement>)
    ensures |r| == |s.indexes| && forall i :: 0 <= i < |r| ==> r[i] == InsertIndexRow(s, s.indexes[i])
  {
    seq(|s.indexes|, i requires 0 <= i < |s.indexes| => InsertIndexRow(s, s.indexes[i]))
  }

  function RequireIndexes(s: CollectionSchema, mapped: bool): (r: seq<Statement>)
    ensures |r| == |s.indexes| && forall i :: 0 <= i < |r| ==> r[i] == RequireIndex(s, s.indexes[i], mapped)
  {
    seq(|s.indexes|, i requires 0 <= i < |s.indexes| => RequireIndex(s, s.indexes[i], mapped))
  }

  function RemoveObsolete(from: CollectionSchema, to: CollectionSchema, n: nat): seq<Statement>
    requires n <= |from.indexes|
  {
    if n == 0 then []
    else
      RemoveObsolete(from, to, n - 1)
      + if Retained(from.indexes[n - 1], to) then [] else [RemoveIndex(from.indexes[n - 1].name)]
  }

  const INITIALIZE := [InitializeRegistry, InitializeRegistry, InitializeRegistry]

  function RegisterOpening(s: CollectionSchema): seq<Statement> { INITIALIZE + [FindSchema(s)] }

  function RegisterNew(s: CollectionSchema): seq<Statement>
  {
    [RequireUnclaimed(s), MakeTable(s), InsertSchema(s)] + MakeIndexes(s) + InsertIndexRows(s)
  }

  /** What follows the lookup, for a collection the registry knows or not. */
  function RegisterRest(s: CollectionSchema, known: bool): seq<Statement>
  {
    (if known then [RequireIndexRows(s, false)] else RegisterNew(s))
    + ([RequireTable(s, false)] + RequireIndexes(s, false))
  }

  function MigrateOpening(id: Text, from: CollectionSchema, to: CollectionSchema): seq<Statement>
  {
    INITIALIZE + [FindMigration(id, from, to)]
  }

  /** The checks of a schema that is supposed to be in place. */
  function RequireAll(s: CollectionSchema, mapped: bool): seq<Statement>
  {
    [RequireSchema(s), RequireIndexRows(s, true), RequireTable(s, mapped)] + RequireIndexes(s, mapped)
  }

  /** After the callback: the target's table and indexes. */
  function ReshapeTo(from: CollectionSchema, to: CollectionSchema): seq<Statement>
  {
    [RequireUnclaimed(to), RequireTable(to, false)] + RemoveObsolete(from, to, |from.indexes|) + MakeIndexes(to)
    + RequireIndexes(to, false)
  }

  /** Then the registries, beginning with the schema's row. */
  function RecordRest(id: Text, from: CollectionSchema, to: CollectionSchema): seq<Statement>
  {
    [DeleteIndexRows(to)] + InsertIndexRows(to) + [InsertMigration(id, from, to)]
  }

  // ------------------------------------------------------------- operations

  /** `register_collection` when the engine refuses nothing by itself. */
  ghost function Register(w: Store, s: CollectionSchema): (Store, Result)
  {
    if !ValidSchema(s) then (w, Failed(InvalidSchema))
    else
      var known := s.id in w.schemas;
      var (v, e) := Effects(RegisterOpening(s) + RegisterRest(s, known), w);
      if e.Some? then (w, Failed(e.value)) else (v, Done(if known then AlreadyRegistered else Created))
  }

  /** `migrate_collection` when the engine refuses nothing by itself and the
      callback leaves `left`, or fails. */
  ghost function Migrate(w: Store, id: Text, from: CollectionSchema, to: CollectionSchema, left: Option<Physical>)
    : (Store, Result)
  {
    if !ValidSchema(from) || !ValidSchema(to) then (w, Failed(InvalidSchema))
    else if !ValidMigration(from, to, id) then (w, Failed(InvalidMigration))
    else
      var known := (from.id, id) in w.migrations;
      var (v, e) := Effects(MigrateOpening(id, from, to) + if known then RequireAll(to, true) else RequireAll(from, false), w);
      if e.Some? then (w, Failed(e.value))
      else if known then (v, Done(AlreadyApplied))
      else if left == None then (w, Failed(CallbackFailed))
      else
        var (u, f) := Effects(ReshapeTo(from, to) + ([UpdateSchema(to)] + RecordRest(id, from, to)), v.(physical := left.value));
        if f.Some? then (w, Failed(f.value)) else (u, Done(Applied))
  }

  // --------------------------------------------------- what the scripts do

  lemma {:induction false} EffectsAppend(a: seq<Statement>, b: seq<Statement>, w: Store)
    ensures var (v, e) := Effects(a, w);
            Effects(a + b, w) == if e.Some? then (v, e) else Effects(b, v)
  {
    hide Effect;
    if b == [] {
      assert a + b == a;
    } else {
      assert (a + b)[..|a + b| - 1] == a + b[..|b| - 1];
      EffectsAppend(a, b[..|b| - 1], w);
    }
  }

  lemma {:induction false} EffectsNothing(w: Store)
    ensures Effects([], w) == (w, None)
  {}

  lemma {:induction false} EffectsOne(st: Statement, w: Store)
    ensures Effects([st], w) == match Effect(st, w) case Next(v) => (v, None) case Fail(code) => (w, Some(code))
  {
    hide Effect;
    assert [st][..0] == [];
  }

  /** Statements that only compare. */
  predicate ReadOnly(st: Statement)
  {
    || st.InitializeRegistry? || st.FindSchema? || st.FindMigration? || st.RequireSchema? || st.RequireIndexRows?
    || st.RequireUnclaimed? || st.RequireTable? || st.RequireIndex?
  }

  predicate AllReadOnly(sts: seq<Statement>) { forall i :: 0 <= i < |sts| ==> ReadOnly(sts[i]) }

  lemma {:induction false} ReadsKeep(sts: seq<Statement>, w: Store)
    requires AllReadOnly(sts)
    ensures Effects(sts, w).0 == w
    ensures Effects(sts, w).1 == None <==> forall i :: 0 <= i < |sts| ==> Effect(sts[i], w).Next?
  {
    if sts != [] {
      var n := |sts| - 1;
      ReadsKeep(sts[..n], w);
      ReadKeeps(sts[n], w);
      hide Effect, ReadOnly;
      assert forall i :: 0 <= i < n ==> sts[..n][i] == sts[i];
    }
  }

  lemma {:induction false} ReadKeeps(st: Statement, w: Store)
    requires ReadOnly(st)
    ensures Effect(st, w).Next? ==> Effect(st, w).store == w
  {
    hide RegistryMatches, Holds, IndexesRegistered, Unclaimed, TableMatches, IndexMatches;
  }

  lemma {:induction false} MakesIndexes(w: Store, s: CollectionSchema, n: nat)
    requires n <= |s.indexes|
    ensures var (v, e) := Effects(MakeIndexes(s)[..n], w);
            && (e == None <==> CreateIndexes(w.physical, s, n).Some?)
            && (e == None ==> v == w.(physical := CreateIndexes(w.physical, s, n).value))
            && (e.Some? ==> e == Some(Storage))
  {
    hide CreateIndex, CreateTable, DropIndex, InsertRow;
    if n == 0 {
      assert MakeIndexes(s)[..0] == [];
    } else {
      assert MakeIndexes(s)[..n][..n - 1] == MakeIndexes(s)[..n - 1];
      MakesIndexes(w, s, n - 1);
    }
  }

  lemma {:induction false} InsertsRows(w: Store, s: CollectionSchema, n: nat)
    requires n <= |s.indexes|
    ensures var (v, e) := Effects(InsertIndexRows(s)[..n], w);
            && (e == None <==> InsertRows(w.indexes, s, n).Some?)
            && (e == None ==> v == w.(indexes := InsertRows(w.indexes, s, n).value))
            && (e.Some? ==> e == Some(Storage))
  {
    hide CreateIndex, CreateTable, DropIndex, InsertRow;
    if n == 0 {
      assert InsertIndexRows(s)[..0] == [];
    } else {
      assert InsertIndexRows(s)[..n][..n - 1] == InsertIndexRows(s)[..n - 1];
      InsertsRows(w, s, n - 1);
    }
  }

  lemma {:induction false} RemovesObsolete(w: Store, from: CollectionSchema, to: CollectionSchema, n: nat)
    requires n <= |from.indexes|
    ensures var (v, e) := Effects(RemoveObsolete(from, to, n), w);
            && (e == None <==> DropIndexes(w.physical, from, to, n).Some?)
            && (e == None ==> v == w.(physical := DropIndexes(w.physical, from, to, n).value))
            && (e.Some? ==> e == Some(Storage))
  {
    hide Effects, DropIndex, Retained;
    if n == 0 {
      EffectsNothing(w);
    } else {
      RemovesObsolete(w, from, to, n - 1);
      var x := from.indexes[n - 1];
      var front := RemoveObsolete(from, to, n - 1);
      if Retained(x, to) {
        assert front + [] == front;
      } else {
        EffectsAppend(front, [RemoveIndex(x.name)], w);
        EffectsOne(RemoveIndex(x.name), Effects(front, w).0);
      }
    }
  }

  /** A failing index check is a mismatch, of the migration where `mapped`. */
  lemma {:induction false} IndexCheckCode(s: CollectionSchema, mapped: bool, n: nat, w: Store)
    requires n <= |s.indexes|
    ensures var e := Effects(RequireIndexes(s, mapped)[..n], w).1;
            e.Some? ==> e == Some(if mapped then MigrationMismatch else SchemaMismatch)
  {
    hide IndexMatches;
    if n > 0 {
      var sts := RequireIndexes(s, mapped);
      IndexCheckCode(s, mapped, n - 1, w);
      assert sts[..n][..n - 1] == sts[..n - 1] && sts[..n][n - 1] == RequireIndex(s, s.indexes[n - 1], mapped);
    }
  }

  lemma {:induction false} IndexChecks(s: CollectionSchema, mapped: bool, w: Store)
    ensures Effects(RequireIndexes(s, mapped), w).0 == w
    ensures Effects(RequireIndexes(s, mapped), w).1
         == if IndexesMatch(w.physical, s) then None else Some(if mapped then MigrationMismatch else SchemaMismatch)
  {
    hide IndexMatches;
    ReadsKeep(RequireIndexes(s, mapped), w);
    IndexCheckCode(s, mapped, |s.indexes|, w);
    assert RequireIndexes(s, mapped)[..|s.indexes|] == RequireIndexes(s, mapped);
  }

  lemma {:induction false} TailChecks(s: CollectionSchema, w: Store)
    ensures var (v, e) := Effects([RequireTable(s, false)] + RequireIndexes(s, false), w);
            v == w && e == if TableMatches(w.physical, s) && IndexesMatch(w.physical, s) then None else Some(SchemaMismatch)
  {
    hide TableMatches, IndexesMatch;
    EffectsAppend([RequireTable(s, false)], RequireIndexes(s, false), w);
    EffectsOne(RequireTable(s, false), w);
    IndexChecks(s, false, w);
  }

  lemma {:induction false} HeadChecks(s: CollectionSchema, mapped: bool, w: Store)
    ensures var (v, e) := Effects([RequireSchema(s), RequireIndexRows(s, true), RequireTable(s, mapped)], w);
            && v == w
            && e == if !Holds(w, s) || !IndexesRegistered(w, s) then Some(MigrationMismatch)
                    else if !TableMatches(w.physical, s) then Some(if mapped then MigrationMismatch else SchemaMismatch)
                    else None
  {
    hide TableMatches, Holds, IndexesRegistered, Effects;
    var a, b, c := RequireSchema(s), RequireIndexRows(s, true), RequireTable(s, mapped);
    assert [a, b, c] == [a] + ([b] + [c]);
    EffectsAppend([a], [b] + [c], w);
    EffectsAppend([b], [c], w);
    EffectsOne(a, w);
    EffectsOne(b, w);
    EffectsOne(c, w);
  }

  /** The checks of a schema in place pass exactly when it is. */
  lemma {:induction false} AllChecks(s: CollectionSchema, mapped: bool, w: Store)
    ensures var (v, e) := Effects(RequireAll(s, mapped), w);
            && v == w
            && e == if FullyMatches(w, s) then None
                    else if mapped || !Holds(w, s) || !IndexesRegistered(w, s) then Some(MigrationMismatch)
                    else Some(SchemaMismatch)
  {
    hide Effects, Effect, TableMatches, IndexesMatch, Holds, IndexesRegistered;
    EffectsAppend([RequireSchema(s), RequireIndexRows(s, true), RequireTable(s, mapped)], RequireIndexes(s, mapped), w);
    HeadChecks(s, mapped, w);
    IndexChecks(s, mapped, w);
  }
}
