/** Whole runs of registrations and migrations: the registries are exactly what
    the committed history says. */
module History {
  import opened Basics
  import opened Schema
  import opened Descriptor
  import opened Catalogue
  import opened Migration
  import opened Registration
  import opened Session
  import opened Atomicity

  // ------------------------------------------------------------------- runs

  datatype Call =
    | RegisterCall(schema: CollectionSchema)
    | MigrateCall(id: Text, from: CollectionSchema, to: CollectionSchema, callback: Callback)

  /** One committed change; `to` is the schema it registered. */
  datatype Event = Creation(to: CollectionSchema) | Change(id: Text, from: CollectionSchema, to: CollectionSchema)

  ghost function Perform(s: Session, call: Call, engine: Engine): (Session, Result)
  {
    match call
    case RegisterCall(schema) => RegisterIn(s, schema, engine)
    case MigrateCall(id, from, to, callback) => MigrateIn(s, id, from, to, callback, engine)
  }

  function EventOf(call: Call): Event
  {
    match call
    case RegisterCall(s) => Creation(s)
    case MigrateCall(id, from, to, _) => Change(id, from, to)
  }

  predicate Commits(r: Result) { r == Done(Created) || r == Done(Applied) }

  /** No registry statement ran after a callback lost the transaction. */
  ghost predicate Orderly(s: Session, call: Call, engine: Engine)
  {
    call.MigrateCall? ==>
      || Kept(s, call.id, call.from, call.to, call.callback, engine)
      || !Reached(s, call.id, call.from, call.to, call.callback, engine)
  }

  datatype Snapshot = Snapshot(session: Session, history: seq<Event>)

  /** A call under any engine; its event is recorded when it reports a commit. */
  ghost predicate Called(a: Snapshot, call: Call, engine: Engine, b: Snapshot)
  {
    var (t, r) := Perform(a.session, call, engine);
    b == Snapshot(t, if Commits(r) then a.history + [EventOf(call)] else a.history)
  }

  /** Application code does anything to the physical schema, or ends a
      transaction that was left open. */
  ghost predicate Outside(a: Snapshot, b: Snapshot)
  {
    && SameRegistries(a.session.base, b.session.base) && b.history == a.history
    && (b.session.open == a.session.open || b.session.open == None)
  }

  ghost predicate Next(a: Snapshot, b: Snapshot)
  {
    || (exists call, engine :: Orderly(a.session, call, engine) && Called(a, call, engine, b))
    || Outside(a, b)
  }

  /** A run from empty registries whose calls are all orderly. */
  ghost predicate IsRun(run: seq<Snapshot>)
  {
    && run != [] && run[0].history == []
    && run[0].session.base.schemas == map[] && run[0].session.base.indexes == map[]
    && run[0].session.base.migrations == map[]
    && forall i :: 0 <= i < |run| - 1 ==> Next(run[i], run[i + 1])
  }

  // ------------------------------------------------------------- invariants

  /** The schema the history registered last for a collection. */
  function Latest(history: seq<Event>, collection: Text): Option<CollectionSchema>
  {
    if history == [] then None
    else
      var e := history[|history| - 1];
      if e.to.id == collection then Some(e.to) else Latest(history[..|history| - 1], collection)
  }

  /** Each event continues its collection's chain. */
  ghost predicate Chained(history: seq<Event>)
  {
    if history == [] then true
    else
      var before, e := history[..|history| - 1], history[|history| - 1];
      && Chained(before) && ValidSchema(e.to)
      && match e
         case Creation(s) => Latest(before, s.id) == None
         case Change(id, from, to) =>
           && ValidSchema(from) && ValidMigration(from, to, id)
           && Latest(before, to.id).Some? && RegisteredOf(Latest(before, to.id).value) == RegisteredOf(from)
           && (forall i :: 0 <= i < |before| && before[i].Change? && before[i].to.id == to.id ==> before[i].id != id)
  }

  /** The index rows of a collection are those its latest schema declares. */
  ghost predicate RowsFollow(m: map<(Text, Text), RegisteredIndex>, history: seq<Event>, c: Text)
  {
    Rows(m, c) == match Latest(history, c) case None => map[] case Some(s) => Declared(s, |s.indexes|)
  }

  /** The registered schemas are the latest of the history. */
  ghost predicate SchemasFollow(schemas: map<Text, Registered>, history: seq<Event>)
  {
    && (forall c :: c in schemas <==> Latest(history, c).Some?)
    && (forall c :: c in schemas ==> schemas[c] == RegisteredOf(Latest(history, c).value))
  }

  ghost predicate Recorded(history: seq<Event>, k: (Text, Text))
  {
    exists i :: 0 <= i < |history| && history[i].Change? && (history[i].to.id, history[i].id) == k
  }

  /** The migration registry holds exactly the migrations of the history. */
  ghost predicate RecordsFollow(records: map<(Text, Text), MigrationRecord>, history: seq<Event>)
  {
    && (forall k :: k in records <==> Recorded(history, k))
    && (forall i :: 0 <= i < |history| && history[i].Change? ==>
          var k := (history[i].to.id, history[i].id);
          k in records && records[k] == RecordOf(history[i].from, history[i].to))
  }

  ghost predicate OneOwner(schemas: map<Text, Registered>)
  {
    forall c, d :: c in schemas && d in schemas && c != d ==> schemas[c].table != schemas[d].table
  }

  /** The registries are exactly what the history says. */
  ghost predicate Faithful(w: Store, history: seq<Event>)
  {
    && Chained(history)
    && SchemasFollow(w.schemas, history)
    && RecordsFollow(w.migrations, history)
    && (forall c :: RowsFollow(w.indexes, history, c))
    && OneOwner(w.schemas)
  }

  // ----------------------------------------------------------- preservation

  lemma {:induction false} LatestSnoc(history: seq<Event>, e: Event, c: Text)
    ensures Latest(history + [e], c) == if e.to.id == c then Some(e.to) else Latest(history, c)
  {
    assert (history + [e])[..|history|] == history;
  }

  lemma {:induction false} RecordedSnoc(history: seq<Event>, e: Event, k: (Text, Text))
    ensures Recorded(history + [e], k) <==> Recorded(history, k) || (e.Change? && (e.to.id, e.id) == k)
  {
    var longer := history + [e];
    if i :| 0 <= i < |history| && history[i].Change? && (history[i].to.id, history[i].id) == k {
      assert longer[i] == history[i];
    }
    if e.Change? && (e.to.id, e.id) == k {
      assert longer[|history|] == e;
    }
  }

  lemma {:induction false} InsertedRows(m: map<(Text, Text), RegisteredIndex>, s: CollectionSchema, n: nat)
    requires n <= |s.indexes| && InsertRows(m, s, n).Some?
    ensures forall k :: k in InsertRows(m, s, n).value <==> k in m || k in Declared(s, n)
    ensures forall k :: k in Declared(s, n) ==> k.0 == s.id && InsertRows(m, s, n).value[k] == Declared(s, n)[k]
    ensures forall k :: k in m ==> k !in Declared(s, n) && InsertRows(m, s, n).value[k] == m[k]
  {
    hide NameTaken;
    if n > 0 {
      InsertedRows(m, s, n - 1);
    }
  }

  /** Inserting a schema's index rows where it has none gives exactly its declared
      rows, and leaves every other collection's rows alone. */
  lemma {:induction false} InsertedExactly(m: map<(Text, Text), RegisteredIndex>, s: CollectionSchema, c: Text)
    requires Rows(m, s.id) == map[] && InsertRows(m, s, |s.indexes|).Some?
    ensures Rows(InsertRows(m, s, |s.indexes|).value, c) == if c == s.id then Declared(s, |s.indexes|) else Rows(m, c)
  {
    hide InsertRows, Declared;
    InsertedRows(m, s, |s.indexes|);
    forall k | k in m ensures k.0 != s.id {
      assert k.0 == s.id ==> k in Rows(m, s.id);
    }
  }

  lemma {:induction false} RowsAfterDeletion(m: map<(Text, Text), RegisteredIndex>, c: Text, d: Text)
    ensures Rows(m - Rows(m, c).Keys, d) == if d == c then map[] else Rows(m, d)
  {}

  /** What a committed event does to the registries. */
  ghost predicate Follows(w: Store, e: Event, v: Store)
  {
    && v.schemas == w.schemas[e.to.id := RegisteredOf(e.to)]
    && v.migrations == (if e.Creation? then w.migrations
                        else w.migrations[(e.to.id, e.id) := RecordOf(e.from, e.to)])
    && Unclaimed(w, e.to) && (e.Change? ==> (e.to.id, e.id) !in w.migrations)
    && forall c :: Rows(v.indexes, c) == if c == e.to.id then Declared(e.to, |e.to.indexes|) else Rows(w.indexes, c)
  }

  lemma {:induction false} EventKeepsRecords(w: Store, history: seq<Event>, e: Event, v: Store)
    requires RecordsFollow(w.migrations, history) && Follows(w, e, v)
    ensures RecordsFollow(v.migrations, history + [e])
  {
    hide Unclaimed, Declared, Rows;
    var longer := history + [e];
    forall k ensures Recorded(longer, k) <==> Recorded(history, k) || (e.Change? && (e.to.id, e.id) == k) {
      RecordedSnoc(history, e, k);
    }
    forall i | 0 <= i < |longer| && longer[i].Change?
      ensures var k := (longer[i].to.id, longer[i].id);
              k in v.migrations && v.migrations[k] == RecordOf(longer[i].from, longer[i].to)
    {
      if i < |history| {
        assert longer[i] == history[i];
      }
    }
  }

  lemma {:induction false} EventKeepsSchemas(w: Store, history: seq<Event>, e: Event, v: Store)
    requires SchemasFollow(w.schemas, history) && OneOwner(w.schemas) && Follows(w, e, v)
    ensures SchemasFollow(v.schemas, history + [e]) && OneOwner(v.schemas)
  {
    hide Latest, Declared, Rows;
    forall c ensures Latest(history + [e], c) == if e.to.id == c then Some(e.to) else Latest(history, c) {
      LatestSnoc(history, e, c);
    }
  }

  lemma {:induction false} EventKeepsRows(w: Store, history: seq<Event>, e: Event, v: Store, c: Text)
    requires RowsFollow(w.indexes, history, c) && Follows(w, e, v)
    ensures RowsFollow(v.indexes, history + [e], c)
  {
    hide Latest, Declared, Rows, Unclaimed;
    LatestSnoc(history, e, c);
  }

  lemma {:induction false} EventKeepsFaithful(w: Store, history: seq<Event>, e: Event, v: Store)
    requires Faithful(w, history) && Follows(w, e, v) && Chained(history + [e])
    ensures Faithful(v, history + [e])
  {
    hide Chained, RecordsFollow, SchemasFollow, OneOwner, RowsFollow, Follows;
    EventKeepsRecords(w, history, e, v);
    EventKeepsSchemas(w, history, e, v);
    forall c ensures RowsFollow(v.indexes, history + [e], c) {
      EventKeepsRows(w, history, e, v, c);
    }
  }

  lemma {:induction false} RegisterFacts(w: Store, schema: CollectionSchema, v: Store)
    requires Register(w, schema) == (v, Done(Created))
    ensures ValidSchema(schema) && Accepted(w, schema) && Registering(w, schema) == Some(v)
    ensures v.schemas == w.schemas[schema.id := RegisteredOf(schema)] && v.migrations == w.migrations
    ensures InsertRows(w.indexes, schema, |schema.indexes|) == Some(v.indexes)
  {
    hide ValidSchema, Effects, CreateTable, CreateIndexes, InsertRows, Unclaimed, TableMatches, IndexesMatch,
         IndexesRegistered, RegisterOpening, RegisterRest;
    if ValidSchema(schema) {
      RegisterMeans(w, schema);
    }
  }

  lemma {:induction false} CreationFollows(w: Store, history: seq<Event>, schema: CollectionSchema, v: Store)
    requires Faithful(w, history) && Register(w, schema) == (v, Done(Created))
    ensures Follows(w, Creation(schema), v) && Chained(history + [Creation(schema)])
  {
    hide Register, InsertRows, ValidSchema, Declared, Rows, Registering, RecordsFollow, OneOwner, Unclaimed;
    RegisterFacts(w, schema, v);
    assert RowsFollow(w.indexes, history, schema.id);
    forall c
      ensures Rows(v.indexes, c) == if c == schema.id then Declared(schema, |schema.indexes|) else Rows(w.indexes, c)
    {
      InsertedExactly(w.indexes, schema, c);
    }
    assert (history + [Creation(schema)])[..|history|] == history;
  }

  lemma {:induction false} MigrationFacts(
      w: Store, id: Text, from: CollectionSchema, to: CollectionSchema, left: Option<Physical>, v: Store)
    requires Migrate(w, id, from, to, left) == (v, Done(Applied))
    ensures ValidSchema(from) && ValidSchema(to) && ValidMigration(from, to, id) && Applicable(w, id, from, to, left)
    ensures Migrating(w, id, from, to, left.value) == Some(v)
    ensures v.schemas == w.schemas[to.id := RegisteredOf(to)]
    ensures v.migrations == w.migrations[(from.id, id) := RecordOf(from, to)]
    ensures InsertRows(w.indexes - Rows(w.indexes, to.id).Keys, to, |to.indexes|) == Some(v.indexes)
  {
    hide ValidSchema, ValidMigration, Effects, CreateIndexes, DropIndexes, InsertRows, Rows, Unclaimed, TableMatches,
         IndexesMatch, FullyMatches, MigrateOpening, RequireAll, ReshapeTo, RecordRest;
    if ValidSchema(from) && ValidSchema(to) && ValidMigration(from, to, id) {
      MigrateMeans(w, id, from, to, left);
    }
  }

  lemma {:induction false} ChangeFollows(
      w: Store, history: seq<Event>, id: Text, from: CollectionSchema, to: CollectionSchema, left: Option<Physical>, v: Store)
    requires Faithful(w, history) && Migrate(w, id, from, to, left) == (v, Done(Applied))
    ensures Follows(w, Change(id, from, to), v)
  {
    hide Migrate, InsertRows, ValidSchema, Declared, Rows, Faithful, Migrating, TableMatches, IndexesMatch, Unclaimed,
         FullyMatches;
    MigrationFacts(w, id, from, to, left, v);
    var cleared := w.indexes - Rows(w.indexes, to.id).Keys;
    RowsAfterDeletion(w.indexes, to.id, to.id);
    forall c ensures Rows(v.indexes, c) == if c == to.id then Declared(to, |to.indexes|) else Rows(w.indexes, c) {
      InsertedExactly(cleared, to, c);
      RowsAfterDeletion(w.indexes, to.id, c);
    }
  }

  lemma {:induction false} ChangeContinues(
      w: Store, history: seq<Event>, id: Text, from: CollectionSchema, to: CollectionSchema, left: Option<Physical>, v: Store)
    requires Faithful(w, history) && Migrate(w, id, from, to, left) == (v, Done(Applied))
    ensures Chained(history + [Change(id, from, to)])
  {
    hide Migrate, InsertRows, ValidSchema, Rows, Latest, Migrating, TableMatches, IndexesMatch, Unclaimed, IndexesRegistered,
         RowsFollow, OneOwner;
    MigrationFacts(w, id, from, to, left, v);
    assert (history + [Change(id, from, to)])[..|history|] == history;
    assert !Recorded(history, (to.id, id));
  }

  lemma {:induction false} FaithfulSame(w: Store, v: Store, history: seq<Event>)
    requires Faithful(w, history) && SameRegistries(w, v)
    ensures Faithful(v, history)
  {
    hide Chained, RecordsFollow, SchemasFollow, OneOwner, RowsFollow;
  }

  lemma {:induction false} RegisterKeepsFaithful(s: Session, history: seq<Event>, schema: CollectionSchema, engine: Engine)
    requires Faithful(s.base, history)
    ensures var (t, r) := RegisterIn(s, schema, engine);
            Faithful(t.base, if Commits(r) then history + [Creation(schema)] else history)
  {
    hide Faithful, Register, RegisterIn, Follows, Chained, FullyMatches;
    RegisterIsAtomic(s, schema, engine);
    RegisterStatuses(s.base, schema);
    var (t, r) := RegisterIn(s, schema, engine);
    if r == Done(Created) {
      CreationFollows(s.base, history, schema, t.base);
      EventKeepsFaithful(s.base, history, Creation(schema), t.base);
    }
  }

  lemma {:induction false} MigrateKeepsFaithful(
      s: Session, history: seq<Event>, id: Text, from: CollectionSchema, to: CollectionSchema, callback: Callback, engine: Engine)
    requires Faithful(s.base, history)
    requires Kept(s, id, from, to, callback, engine) || !Reached(s, id, from, to, callback, engine)
    ensures var (t, r) := MigrateIn(s, id, from, to, callback, engine);
            Faithful(t.base, if Commits(r) then history + [Change(id, from, to)] else history)
  {
    hide Faithful, Migrate, MigrateIn, Follows, Chained, FullyMatches, Kept, Reached, AtReturn;
    var (t, r) := MigrateIn(s, id, from, to, callback, engine);
    if r.Failed? {
      FailedRegistries(s, id, from, to, callback, engine);
      FaithfulSame(s.base, t.base, history);
    } else {
      var left := AppliedLeft(s, id, from, to, callback, engine);
      MigrateStatuses(s.base, id, from, to, left);
      if r == Done(Applied) {
        ChangeFollows(s.base, history, id, from, to, left, t.base);
        ChangeContinues(s.base, history, id, from, to, left, t.base);
        EventKeepsFaithful(s.base, history, Change(id, from, to), t.base);
      }
    }
  }

  /** A success is `Migrate`'s, for some physical schema the callback left. */
  lemma {:induction false} AppliedLeft(
      s: Session, id: Text, from: CollectionSchema, to: CollectionSchema, callback: Callback, engine: Engine)
    returns (left: Option<Physical>)
    requires MigrateIn(s, id, from, to, callback, engine).1.Done?
    ensures (MigrateIn(s, id, from, to, callback, engine).0.base, MigrateIn(s, id, from, to, callback, engine).1)
         == Migrate(s.base, id, from, to, left)
  {
    hide Migrate, MigrateIn, UpToCallback;
    AppliedMeans(s, id, from, to, callback, engine);
    left := if UpToCallback(s, id, from, to, engine).Ended? then None
            else Some(AtReturn(s, id, from, to, callback, engine).value.open.value.physical);
  }

  lemma {:induction false} RegisterStatuses(w: Store, s: CollectionSchema)
    ensures var (v, r) := Register(w, s);
            r.Failed? || r == Done(Created) || (r == Done(AlreadyRegistered) && v == w && FullyMatches(w, s))
  {
    hide ValidSchema, FullyMatches, Effects, Registering, TableMatches, IndexesMatch, RegisterOpening, RegisterRest;
    if ValidSchema(s) {
      RegisterMeans(w, s);
    }
  }

  lemma {:induction false} MigrateStatuses(
      w: Store, id: Text, from: CollectionSchema, to: CollectionSchema, left: Option<Physical>)
    ensures var (v, r) := Migrate(w, id, from, to, left);
            r.Failed? || r == Done(Applied) || (r == Done(AlreadyApplied) && v == w && FullyMatches(w, to))
  {
    hide ValidSchema, ValidMigration, FullyMatches, Effects, MigrateOpening, RequireAll, ReshapeTo, RecordRest, Applicable;
    if ValidSchema(from) && ValidSchema(to) && ValidMigration(from, to, id) {
      MigrateMeans(w, id, from, to, left);
    }
  }

  // ------------------------------------------------------------ main results

  /** A call keeps registries and history in step exactly when it is orderly. */
  lemma {:induction false} CallKeepsFaithfulExactly(a: Snapshot, call: Call, engine: Engine, b: Snapshot)
    requires Faithful(a.session.base, a.history) && Called(a, call, engine, b)
    ensures Faithful(b.session.base, b.history) <==> Orderly(a.session, call, engine)
  {
    hide RegisterIn, MigrateIn, Kept, Reached, Chained, RecordsFollow, OneOwner, RowsFollow;
    match call
    case RegisterCall(schema) => RegisterKeepsFaithful(a.session, a.history, schema, engine);
    case MigrateCall(id, from, to, callback) =>
      if Orderly(a.session, call, engine) {
        MigrateKeepsFaithful(a.session, a.history, id, from, to, callback, engine);
      } else {
        if MigrateIn(a.session, id, from, to, callback, engine).1.Done? {
          DoneIsOrderly(a.session, id, from, to, callback, engine);
        }
        FailedRegistries(a.session, id, from, to, callback, engine);
      }
  }

  lemma {:induction false} DoneIsOrderly(
      s: Session, id: Text, from: CollectionSchema, to: CollectionSchema, callback: Callback, engine: Engine)
    requires MigrateIn(s, id, from, to, callback, engine).1.Done?
    ensures Kept(s, id, from, to, callback, engine)
  {
    hide Migrate, MigrateIn, Kept;
    AppliedMeans(s, id, from, to, callback, engine);
  }

  /** In every run of orderly calls, whatever the engine refuses, the registries
      are exactly what the committed history says. */
  lemma {:induction false} AlwaysFaithful(run: seq<Snapshot>, i: nat)
    requires IsRun(run) && i < |run|
    ensures Faithful(run[i].session.base, run[i].history)
  {
    hide Called, Orderly, Faithful;
    if i == 0 {
      EmptyFaithful(run[0].session.base);
    } else {
      AlwaysFaithful(run, i - 1);
      assert Next(run[i - 1], run[i]);
      if Outside(run[i - 1], run[i]) {
        FaithfulSame(run[i - 1].session.base, run[i].session.base, run[i].history);
      } else {
        var call, engine :| Orderly(run[i - 1].session, call, engine) && Called(run[i - 1], call, engine, run[i]);
        CallKeepsFaithfulExactly(run[i - 1], call, engine, run[i]);
      }
    }
  }

  lemma {:induction false} EmptyFaithful(w: Store)
    requires w.schemas == map[] && w.indexes == map[] && w.migrations == map[]
    ensures Faithful(w, [])
  {}

  lemma {:induction false} ChainedPrefix(history: seq<Event>, n: nat)
    requires Chained(history) && n <= |history|
    ensures Chained(history[..n])
  {
    if n < |history| {
      var m := |history| - 1;
      ChainedPrefix(history[..m], n);
      assert history[..m][..n] == history[..n];
    } else {
      assert history[..n] == history;
    }
  }

  lemma {:induction false} VersionsBelowLatest(history: seq<Event>, i: nat)
    requires Chained(history) && i < |history|
    ensures Latest(history, history[i].to.id).Some?
    ensures history[i].to.version <= Latest(history, history[i].to.id).value.version
  {
    hide ValidSchema;
    var m := |history| - 1;
    if i < m {
      VersionsBelowLatest(history[..m], i);
    }
  }

  /** Within one collection, versions strictly increase and no migration id
      commits twice. */
  lemma {:induction false} VersionsIncrease(history: seq<Event>, i: nat, j: nat)
    requires Chained(history) && i < j < |history| && history[i].to.id == history[j].to.id
    ensures history[i].to.version < history[j].to.version
    ensures history[j].Change?
    ensures history[i].Change? ==> history[i].id != history[j].id
  {
    hide ValidSchema;
    ChainedPrefix(history, j + 1);
    var upto := history[..j + 1];
    assert upto[..j] == history[..j] && upto[i] == history[i] && upto[j] == history[j];
    ChainedPrefix(history, j);
    assert history[..j][i] == history[i];
    VersionsBelowLatest(history[..j], i);
  }

  /** The chain ends at the registered schema, and a table name has one owner. */
  lemma {:induction false} ChainEndsAtRegistered(run: seq<Snapshot>, i: nat, c: Text, d: Text)
    requires IsRun(run) && i < |run| && c in run[i].session.base.schemas
    ensures var w := run[i].session.base; var s := Latest(run[i].history, c);
            && s.Some? && w.schemas[c] == RegisteredOf(s.value) && Rows(w.indexes, c) == Declared(s.value, |s.value.indexes|)
            && (d in w.schemas && d != c ==> w.schemas[d].table != w.schemas[c].table)
  {
    hide IsRun, Latest, Chained, Recorded, Declared, Rows;
    AlwaysFaithful(run, i);
    assert RowsFollow(run[i].session.base.indexes, run[i].history, c);
  }

  /** After any success the database holds the schema in full: registry row,
      index rows, table and indexes. */
  lemma {:induction false} SuccessMatches(s: Session, history: seq<Event>, call: Call, engine: Engine)
    requires Faithful(s.base, history) && Perform(s, call, engine).1.Done?
    ensures FullyMatches(Perform(s, call, engine).0.base, if call.RegisterCall? then call.schema else call.to)
  {
    hide Register, Migrate, FullyMatches, Faithful, RegisterIn, MigrateIn;
    var (t, r) := Perform(s, call, engine);
    match call
    case RegisterCall(schema) =>
      RegisterIsAtomic(s, schema, engine);
      RegisterStatuses(s.base, schema);
      if r == Done(Created) { RegistrationMatches(s.base, history, schema, t.base); }
    case MigrateCall(id, from, to, callback) =>
      var left := AppliedLeft(s, id, from, to, callback, engine);
      MigrateStatuses(s.base, id, from, to, left);
      if r == Done(Applied) { MigrationMatches(s.base, history, id, from, to, left, t.base); }
  }

  lemma {:induction false} RegistrationMatches(w: Store, history: seq<Event>, schema: CollectionSchema, v: Store)
    requires Faithful(w, history) && Register(w, schema) == (v, Done(Created))
    ensures FullyMatches(v, schema)
  {
    hide Register, TableMatches, IndexesMatch, InsertRows, Declared, Rows, Chained, RecordsFollow, OneOwner, Unclaimed,
         Registering, ValidSchema;
    RegisterFacts(w, schema, v);
    assert RowsFollow(w.indexes, history, schema.id);
    InsertedExactly(w.indexes, schema, schema.id);
  }

  lemma {:induction false} MigrationMatches(
      w: Store, history: seq<Event>, id: Text, from: CollectionSchema, to: CollectionSchema, left: Option<Physical>, v: Store)
    requires Faithful(w, history) && Migrate(w, id, from, to, left) == (v, Done(Applied))
    ensures FullyMatches(v, to)
  {
    hide Migrate, TableMatches, IndexesMatch, InsertRows, Declared, Rows, Faithful, ValidSchema, ValidMigration, Unclaimed;
    MigrationFacts(w, id, from, to, left, v);
    TablesDecide(left.value, v.physical, to);
    RowsAfterDeletion(w.indexes, to.id, to.id);
    InsertedExactly(w.indexes - Rows(w.indexes, to.id).Keys, to, to.id);
  }

  // ------------------------------------------------------------ re-applying

  lemma {:induction false} LatestIsLast(history: seq<Event>, i: nat)
    requires i < |history| && forall j :: i < j < |history| ==> history[j].to.id != history[i].to.id
    ensures Latest(history, history[i].to.id) == Some(history[i].to)
  {
    var m := |history| - 1;
    if i < m {
      LatestIsLast(history[..m], i);
    }
  }

  ghost predicate Superseded(history: seq<Event>, i: nat)
    requires i < |history|
  {
    exists j :: i < j < |history| && history[j].to.id == history[i].to.id
  }

  lemma {:induction false} EventValid(history: seq<Event>, i: nat)
    requires Chained(history) && i < |history| && history[i].Change?
    ensures ValidSchema(history[i].from) && ValidSchema(history[i].to)
    ensures ValidMigration(history[i].from, history[i].to, history[i].id)
  {
    hide ValidSchema, ValidMigration, Latest;
    ChainedPrefix(history, i + 1);
    assert history[..i + 1][i] == history[i];
  }

  /** The target of event `i` is registered exactly when nothing superseded it. */
  lemma {:induction false} StillHolds(w: Store, history: seq<Event>, i: nat)
    requires Faithful(w, history) && i < |history|
    ensures !Superseded(history, i) ==> Holds(w, history[i].to) && IndexesRegistered(w, history[i].to)
    ensures Superseded(history, i) ==> !Holds(w, history[i].to)
  {
    hide Latest, Chained, RecordsFollow, OneOwner, Declared, Rows;
    var c := history[i].to.id;
    assert RowsFollow(w.indexes, history, c);
    VersionsBelowLatest(history, i);
    if j :| i < j < |history| && history[j].to.id == c {
      VersionsIncrease(history, i, j);
      VersionsBelowLatest(history, j);
    } else {
      LatestIsLast(history, i);
    }
  }

  /** Re-applying a committed migration with its own endpoints is answered
      AlreadyApplied exactly when no later migration of the collection has
      committed and its target's table and indexes are still in place; it is
      MigrationMismatch otherwise, and never reaches the callback. */
  lemma {:induction false} ReapplyingExactly(run: seq<Snapshot>, t: nat, i: nat, left: Option<Physical>)
    requires IsRun(run) && t < |run| && i < |run[t].history| && run[t].history[i].Change?
    ensures var w := run[t].session.base; var e := run[t].history[i];
            Migrate(w, e.id, e.from, e.to, left)
            == if !Superseded(run[t].history, i) && TableMatches(w.physical, e.to) && IndexesMatch(w.physical, e.to)
               then (w, Done(AlreadyApplied))
               else (w, Failed(MigrationMismatch))
  {
    hide IsRun, Migrate, Chained, SchemasFollow, OneOwner, RowsFollow, Recorded, Superseded, TableMatches, IndexesMatch, Holds,
         IndexesRegistered, ValidSchema;
    AlwaysFaithful(run, t);
    var w, e := run[t].session.base, run[t].history[i];
    EventValid(run[t].history, i);
    StillHolds(w, run[t].history, i);
    MigrateMeans(w, e.id, e.from, e.to, left);
  }

  // --------------------------------------------------- indexes after a change

  /** After a committed migration every index name outside the target is as the
      callback left it, except that the source's dropped indexes are gone. */
  lemma {:induction false} OnlyObsoleteIndexesGo(
      w: Store, id: Text, from: CollectionSchema, to: CollectionSchema, left: Option<Physical>, v: Store, name: Text)
    requires Migrate(w, id, from, to, left) == (v, Done(Applied))
    requires forall i :: 0 <= i < |to.indexes| ==> to.indexes[i].name != name
    ensures left.Some? && v.physical.tables == left.value.tables
    ensures name in v.physical.indexes <==>
              name in left.value.indexes && forall i :: 0 <= i < |from.indexes| ==> from.indexes[i].name != name
    ensures name in v.physical.indexes ==> v.physical.indexes[name] == left.value.indexes[name]
  {
    hide Migrate, ValidSchema, ValidMigration, InsertRows, Rows, FullyMatches, TableMatches, IndexesMatch, Unclaimed,
         CreateIndexes, DropIndexes;
    MigrationFacts(w, id, from, to, left, v);
    var dropped := DropIndexes(left.value, from, to, |from.indexes|).value;
    DroppedIndexes(left.value, from, to, |from.indexes|, name);
    CreatedIndexes(dropped, to, |to.indexes|, name);
  }
}
