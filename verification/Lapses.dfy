/** Two concrete runs in which the code does not keep what its documentation
    says: a callback that loses its transaction, and a superseded migration. */
module Lapses {
  import opened Basics
  import opened Schema
  import opened Descriptor
  import opened Catalogue
  import opened Migration
  import opened Registration
  import opened Session
  import opened Atomicity
  import Derive

  // ----------------------------------------------------- a lost transaction

  /** Outside a transaction and without refusals, a script commits its effect. */
  lemma {:induction false} RunLoose(s: Session, sts: seq<Statement>, engine: Engine)
    requires s.open == None && Effects(sts, s.base).1 == None
    requires forall n :: s.clock <= n ==> engine(n) == Go
    ensures Run(s, sts, engine) == (Session(Effects(sts, s.base).0, None, s.clock + |sts|), None)
  {
    hide Effect;
    if sts != [] {
      RunLoose(s, sts[..|sts| - 1], engine);
    }
  }

  /** A callback that loses the transaction and returns Ok: where nothing more is
      refused, every later statement commits by itself, and the call fails at its
      COMMIT with the migration fully recorded. */
  lemma {:induction false} LostTransactionCommitsPieces(
      s: Session, id: Text, from: CollectionSchema, to: CollectionSchema, callback: Callback, engine: Engine,
      back: Session, after: Store)
    requires AtReturn(s, id, from, to, callback, engine) == Some(back) && back.open == None && callback.ok
    requires forall n :: back.clock <= n ==> engine(n) == Go
    requires Unclaimed(back.base, to) && TableMatches(back.base.physical, to)
    requires Migrating(back.base, id, from, to, back.base.physical) == Some(after) && IndexesMatch(after.physical, to)
    ensures var (t, r) := MigrateIn(s, id, from, to, callback, engine);
            && r == Failed(Storage) && t.base == after && after.schemas != s.base.schemas
            && (from.id, id) in after.migrations && (from.id, id) !in s.base.migrations
  {
    hide UpToCallback, Run, Effects, ReshapeTo, RecordRest, TableMatches, IndexesMatch, Unclaimed, IndexesRegistered,
         ValidSchema, InsertRows, CreateIndexes, DropIndexes, Rows, Play;
    UpToCallbackMeans(s, id, from, to, engine);
    ReturnMeans(s, id, from, to, callback, engine);
    var first, second := ReshapeTo(from, to), [UpdateSchema(to)] + RecordRest(id, from, to);
    AfterCallbackMeans(back.base, id, from, to, back.base.physical);
    assert back.base.(physical := back.base.physical) == back.base;
    EffectsAppend(first, second, back.base);
    RunLoose(back, first, engine);
    RunLoose(Run(back, first, engine).0, second, engine);
  }

  // ------------------------------------------------------- concrete schemas

  const KEY := FieldSchema("f", "k", IntegerColumn, false, true)
  const NOTE := FieldSchema("g", "b", TextColumn, true, false)

  /** Schemas of one collection without indexes: canonical descriptor, 32-byte
      fingerprint. */
  function Version(n: nat, mark: char, fields: seq<FieldSchema>): CollectionSchema
  {
    CollectionSchema("c", "t", n, seq(32, _ => mark), fields, SchemaText("c", "t", n, fields), [])
  }

  lemma {:induction false} VersionValid(n: nat, mark: char, fields: seq<FieldSchema>)
    requires n > 0 && (fields == [KEY] || fields == [KEY, NOTE])
    ensures ValidSchema(Version(n, mark, fields)) && |Version(n, mark, fields).fingerprint| == 32
  {
    hide SchemaText;
    assert IsKeyAt(fields, 0);
    Derive.SchemaTextNotEmpty("c", "t", n, fields);
  }

  function Holding(s: CollectionSchema, migrations: map<(Text, Text), MigrationRecord>): Store
  {
    Store(map["c" := RegisteredOf(s)], map[], migrations, Physical(map["t" := ColumnsOf(s.fields)], map[]))
  }

  lemma {:induction false} HoldingMatches(n: nat, mark: char, fields: seq<FieldSchema>, migrations: map<(Text, Text), MigrationRecord>)
    requires fields == [KEY] || fields == [KEY, NOTE]
    ensures FullyMatches(Holding(Version(n, mark, fields), migrations), Version(n, mark, fields))
  {
    hide SchemaText, FieldMatches;
    var s := Version(n, mark, fields);
    var w := Holding(s, migrations);
    assert Rows(w.indexes, "c") == map[];
    forall i | 0 <= i < |fields| ensures FieldMatches(ColumnsOf(fields), fields[i]) {
      FieldFound(fields, i);
    }
  }

  lemma {:induction false} FieldFound(fields: seq<FieldSchema>, i: nat)
    requires (fields == [KEY] || fields == [KEY, NOTE]) && i < |fields|
    ensures FieldMatches(ColumnsOf(fields), fields[i])
  {
    FindsColumn(fields, i);
  }

  /** Without indexes, a migration whose callback leaves the target's table. */
  lemma {:induction false} HoldingMigrates(
      n: nat, mark: char, fields: seq<FieldSchema>, m: nat, next: char, more: seq<FieldSchema>, id: Text,
      migrations: map<(Text, Text), MigrationRecord>)
    requires (fields == [KEY] || fields == [KEY, NOTE]) && (more == [KEY] || more == [KEY, NOTE])
    requires 0 < n < m && mark != next && ValidName(id) && ("c", id) !in migrations
    ensures var from, to := Version(n, mark, fields), Version(m, next, more);
            var w := Holding(from, migrations);
            var after := Holding(to, migrations[("c", id) := RecordOf(from, to)]);
            && ValidSchema(from) && ValidSchema(to) && ValidMigration(from, to, id) && FullyMatches(w, from)
            && Applicable(w, id, from, to, Some(after.physical))
            && Migrating(w, id, from, to, after.physical) == Some(after)
  {
    hide SchemaText, TableMatches, ValidSchema;
    var from, to := Version(n, mark, fields), Version(m, next, more);
    var w := Holding(from, migrations);
    VersionValid(n, mark, fields);
    VersionValid(m, next, more);
    HoldingMatches(n, mark, fields, migrations);
    HoldingMatches(m, next, more, migrations);
    assert from.fingerprint[0] == mark && to.fingerprint[0] == next;
    assert w.indexes - Rows(w.indexes, "c").Keys == map[];
    assert w.schemas["c" := RegisteredOf(to)] == map["c" := RegisteredOf(to)];
  }

  // --------------------------------------------- the callback that swallows

  /** The engine rolls the transaction back at its ninth statement. */
  function LoseAtEight(n: nat): Verdict { if n == 8 then Lose else Go }

  function AddNote(p: Physical): Option<Physical> { Some(Physical(map["t" := ColumnsOf([KEY, NOTE])], p.indexes)) }

  /** Two statements: the first costs the transaction, the second adds a column. */
  const SWALLOWS := Callback([AddNote, AddNote], true)

  lemma {:induction false} CallsAtEight(from: CollectionSchema, to: CollectionSchema, w: Store)
    requires ValidSchema(from) && ValidSchema(to) && ValidMigration(from, to, "m") && from.indexes == []
    requires ("c", "m") !in w.migrations && from.id == "c" && FullyMatches(w, from)
    ensures UpToCallback(Session(w, None, 0), "m", from, to, LoseAtEight) == Calling(Session(w, Some(w), 8))
  {
    hide ValidSchema, ValidMigration, Run, Effects, FullyMatches;
    var s0 := Session(w, Some(w), 1);
    var opening, checks := MigrateOpening("m", from, to), RequireAll(from, false);
    assert |opening| == 4 && |checks| == 3;
    hide MigrateOpening, RequireAll;
    RunUnrefused(s0, opening, LoseAtEight);
    OpeningKeeps(w, "m", from, to);
    EffectsAppend(opening, checks, w);
    MigrateOpens(w, "m", from, to, false);
    RunUnrefused(Run(s0, opening, LoseAtEight).0, checks, LoseAtEight);
  }

  lemma {:induction false} Swallowed(w: Store)
    ensures Play(Session(w, Some(w), 8), SWALLOWS.changes, LoseAtEight)
         == Session(w.(physical := AddNote(w.physical).value), None, 10)
  {
    var s := Session(w, Some(w), 8);
    var changes := SWALLOWS.changes;
    assert changes[..1] == [changes[0]] && changes[..1][..0] == [];
    assert Play(s, [], LoseAtEight) == s;
    assert Play(s, changes[..1], LoseAtEight) == Session(w, None, 9);
    assert changes[..|changes| - 1] == changes[..1];
  }

  /** The failing input: version 1 with one column, a migration to version 2 with
      two. The call reports an error, yet the committed store holds the new table,
      the new schema and the migration record. */
  lemma {:induction false} SwallowedRollbackCommits()
    ensures var v1, v2 := Version(1, 'a', [KEY]), Version(2, 'b', [KEY, NOTE]);
            var s := Session(Holding(v1, map[]), None, 0);
            var (t, r) := MigrateIn(s, "m", v1, v2, SWALLOWS, LoseAtEight);
            && r == Failed(Storage)
            && t.base == Holding(v2, map[("c", "m") := RecordOf(v1, v2)])
            && t.base != s.base
  {
    hide SchemaText, UpToCallback, Play, AfterReturn, ValidSchema, ValidMigration, FullyMatches, TableMatches, IndexesMatch,
         Unclaimed, Migrating;
    var v1, v2 := Version(1, 'a', [KEY]), Version(2, 'b', [KEY, NOTE]);
    var w := Holding(v1, map[]);
    var s := Session(w, None, 0);
    HoldingMigrates(1, 'a', [KEY], 2, 'b', [KEY, NOTE], "m", map[]);
    CallsAtEight(v1, v2, w);
    Swallowed(w);
    var after := Holding(v2, map[][("c", "m") := RecordOf(v1, v2)]);
    LooseBase(w, v1, v2, after.physical);
    var back := Session(w.(physical := after.physical), None, 10);
    LostTransactionCommitsPieces(s, "m", v1, v2, SWALLOWS, LoseAtEight, back, after);
  }

  lemma {:induction false} LooseBase(w: Store, from: CollectionSchema, to: CollectionSchema, p: Physical)
    ensures Unclaimed(w.(physical := p), to) == Unclaimed(w, to)
    ensures Migrating(w.(physical := p), "m", from, to, p) == Migrating(w, "m", from, to, p)
  {
    hide CreateIndexes, DropIndexes, InsertRows;
  }

  // ------------------------------------------------ the superseded migration

  const EMPTY := Store(map[], map[], map[], Physical(map[], map[]))

  lemma {:induction false} FirstVersionRegisters()
    ensures Register(EMPTY, Version(1, 'a', [KEY])) == (Holding(Version(1, 'a', [KEY]), map[]), Done(Created))
  {
    hide SchemaText, ValidSchema, TableMatches, Register;
    var s := Version(1, 'a', [KEY]);
    VersionValid(1, 'a', [KEY]);
    HoldingMatches(1, 'a', [KEY], map[]);
    assert Registering(EMPTY, s) == Some(Holding(s, map[]));
    RegisterMeans(EMPTY, s);
  }

  /** The documentation promises AlreadyApplied for every recorded migration; a
      collection migrated from version 1 to 2 to 3 answers MigrationMismatch to
      the first migration. */
  lemma {:induction false} SupersededMigrationIsRefused()
    ensures var v1, v2, v3 := Version(1, 'a', [KEY]), Version(2, 'b', [KEY]), Version(3, 'c', [KEY]);
            var w0 := Register(EMPTY, v1).0;
            var w1 := Migrate(w0, "m", v1, v2, Some(w0.physical)).0;
            var w2 := Migrate(w1, "n", v2, v3, Some(w1.physical)).0;
            && Migrate(w1, "m", v1, v2, Some(w1.physical)) == (w1, Done(AlreadyApplied))
            && Migrate(w2, "m", v1, v2, Some(w2.physical)) == (w2, Failed(MigrationMismatch))
  {
    hide SchemaText, Register, Migrate, ValidSchema, ValidMigration, TableMatches, IndexesMatch, IndexesRegistered, Applicable,
         Migrating;
    var v1, v2, v3 := Version(1, 'a', [KEY]), Version(2, 'b', [KEY]), Version(3, 'c', [KEY]);
    var w0 := Holding(v1, map[]);
    FirstVersionRegisters();
    HoldingMigrates(1, 'a', [KEY], 2, 'b', [KEY], "m", map[]);
    var records := map[][("c", "m") := RecordOf(v1, v2)];
    var w1 := Holding(v2, records);
    MigrateMeans(w0, "m", v1, v2, Some(w0.physical));
    HoldingMigrates(2, 'b', [KEY], 3, 'c', [KEY], "n", records);
    var w2 := Holding(v3, records[("c", "n") := RecordOf(v2, v3)]);
    MigrateMeans(w1, "n", v2, v3, Some(w1.physical));
    HoldingMatches(2, 'b', [KEY], records);
    MigrateMeans(w1, "m", v1, v2, Some(w1.physical));
    MigrateMeans(w2, "m", v1, v2, Some(w2.physical));
  }
}
