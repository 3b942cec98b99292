/** What an error leaves behind. Registration is atomic whatever the engine
    refuses. A migration is atomic as long as its callback keeps the transaction;
    where the callback loses it, the statements after it commit one by one. */
module Atomicity {
  import opened Basics
  import opened Schema
  import opened Descriptor
  import opened Catalogue
  import opened Migration
  import opened Registration
  import opened Session

  // --------------------------------------------------------------- scripts

  /** Inside a transaction statements leave the committed store alone; when none
      fails, the working store is their effect. */
  lemma {:induction false} RunInside(s: Session, sts: seq<Statement>, engine: Engine)
    requires s.open.Some?
    ensures var (t, e) := Run(s, sts, engine);
            && t.base == s.base
            && (e == None ==> t.open.Some? && Effects(sts, s.open.value) == (t.open.value, None))
  {
    hide Effect;
    if sts != [] {
      RunInside(s, sts[..|sts| - 1], engine);
    }
  }

  /** Outside one they commit by themselves. */
  lemma {:induction false} RunOutside(s: Session, sts: seq<Statement>, engine: Engine)
    requires s.open == None
    ensures var (t, e) := Run(s, sts, engine);
            t.open == None && (e == None ==> Effects(sts, s.base) == (t.base, None))
  {
    hide Effect;
    if sts != [] {
      RunOutside(s, sts[..|sts| - 1], engine);
    }
  }

  /** With an engine that refuses nothing, only the statements themselves fail. */
  lemma {:induction false} RunUnrefused(s: Session, sts: seq<Statement>, engine: Engine)
    requires s.open.Some? && forall n :: s.clock <= n < s.clock + |sts| ==> engine(n) == Go
    ensures var (t, e) := Run(s, sts, engine);
            && t.base == s.base && (t.open, e) == (Some(Effects(sts, s.open.value).0), Effects(sts, s.open.value).1)
            && s.clock <= t.clock <= s.clock + |sts| && (e == None ==> t.clock == s.clock + |sts|)
  {
    hide Effect;
    if sts != [] {
      RunUnrefused(s, sts[..|sts| - 1], engine);
    }
  }

  lemma {:induction false} RunAppend(s: Session, a: seq<Statement>, b: seq<Statement>, engine: Engine)
    ensures var (t, e) := Run(s, a, engine);
            Run(s, a + b, engine) == if e.Some? then (t, e) else Run(t, b, engine)
  {
    hide Exec;
    if b == [] {
      assert a + b == a;
    } else {
      assert (a + b)[..|a + b| - 1] == a + b[..|b| - 1];
      RunAppend(s, a, b[..|b| - 1], engine);
    }
  }

  /** Statements that cannot change a registry table. */
  predicate PhysicalOnly(st: Statement)
  {
    ReadOnly(st) || st.MakeTable? || st.MakeIndex? || st.RemoveIndex? || st.Application?
  }

  /** Statements that cannot change the schema registry. */
  predicate SparesSchemas(st: Statement) { !st.InsertSchema? && !st.UpdateSchema? }

  lemma {:induction false} EffectSpares(st: Statement, w: Store)
    requires Effect(st, w).Next?
    ensures PhysicalOnly(st) ==> Effect(st, w).store == w.(physical := Effect(st, w).store.physical)
    ensures SparesSchemas(st) ==> Effect(st, w).store.schemas == w.schemas
  {
    hide RegistryMatches, Holds, IndexesRegistered, Unclaimed, TableMatches, IndexMatches, CreateTable, CreateIndex, DropIndex,
         InsertRow, Rows;
  }

  /** The committed registries are as before. */
  predicate SameRegistries(w: Store, v: Store) { v == w.(physical := v.physical) }

  lemma {:induction false} ExecSpares(s: Session, st: Statement, engine: Engine)
    ensures PhysicalOnly(st) ==> SameRegistries(s.base, Exec(s, st, engine).0.base)
    ensures SparesSchemas(st) ==> Exec(s, st, engine).0.base.schemas == s.base.schemas
    ensures s.open == None ==> Exec(s, st, engine).0.open == None
    ensures s.open.Some? ==> Exec(s, st, engine).0.base == s.base
    ensures s.open.Some? && PhysicalOnly(st) && Exec(s, st, engine).0.open.Some? ==>
              SameRegistries(s.open.value, Exec(s, st, engine).0.open.value)
  {
    hide Effect, PhysicalOnly, SparesSchemas;
    if Effect(st, Seen(s)).Next? {
      EffectSpares(st, Seen(s));
    }
  }

  lemma {:induction false} RunSpares(s: Session, sts: seq<Statement>, engine: Engine)
    ensures (forall i :: 0 <= i < |sts| ==> PhysicalOnly(sts[i])) ==> SameRegistries(s.base, Run(s, sts, engine).0.base)
    ensures (forall i :: 0 <= i < |sts| ==> SparesSchemas(sts[i])) ==> Run(s, sts, engine).0.base.schemas == s.base.schemas
  {
    hide Exec, PhysicalOnly, SparesSchemas;
    if sts != [] {
      var n := |sts| - 1;
      RunSpares(s, sts[..n], engine);
      ExecSpares(Run(s, sts[..n], engine).0, sts[n], engine);
    }
  }

  // -------------------------------------------------------------- callbacks

  /** A callback changes the physical schema only; as long as the transaction is
      open, only in the working store. */
  lemma {:induction false} CallbackSpares(s: Session, changes: seq<Physical -> Option<Physical>>, engine: Engine)
    ensures var t := Play(s, changes, engine);
            && SameRegistries(s.base, t.base)
            && (s.open == None ==> t.open == None)
            && (t.open.Some? ==> t.base == s.base && SameRegistries(s.open.value, t.open.value))
  {
    hide Exec;
    if changes != [] {
      var n := |changes| - 1;
      CallbackSpares(s, changes[..n], engine);
      ExecSpares(Play(s, changes[..n], engine), Application(changes[n]), engine);
    }
  }

  /** The transaction survives a callback exactly when the engine rolls it back
      at none of the callback's statements. */
  lemma {:induction false} KeptExactly(s: Session, changes: seq<Physical -> Option<Physical>>, engine: Engine)
    requires s.open.Some?
    ensures Play(s, changes, engine).clock == s.clock + |changes|
    ensures Play(s, changes, engine).open.Some? <==> forall n :: s.clock <= n < s.clock + |changes| ==> engine(n) != Lose
  {
    hide Effect;
    if changes != [] {
      var n := |changes| - 1;
      KeptExactly(s, changes[..n], engine);
      CallbackSpares(s, changes, engine);
    }
  }

  // ------------------------------------------------------- stray statements

  /** A statement that commits by itself: executed while no transaction is open. */
  function Stray(s: Session, st: Statement, engine: Engine): seq<Statement>
  {
    if s.open == None && Exec(s, st, engine).1 == None then [st] else []
  }

  function PlayStrays(s: Session, changes: seq<Physical -> Option<Physical>>, engine: Engine): seq<Statement>
  {
    if changes == [] then []
    else
      var n := |changes| - 1;
      PlayStrays(s, changes[..n], engine) + Stray(Play(s, changes[..n], engine), Application(changes[n]), engine)
  }

  function RunStrays(s: Session, sts: seq<Statement>, engine: Engine): seq<Statement>
  {
    if sts == [] then []
    else
      var n := |sts| - 1;
      var (t, e) := Run(s, sts[..n], engine);
      var before := RunStrays(s, sts[..n], engine);
      if e.Some? then before else before + Stray(t, sts[n], engine)
  }

  lemma {:induction false} StrayCommits(s: Session, st: Statement, engine: Engine)
    ensures Effects(Stray(s, st, engine), s.base) == (Exec(s, st, engine).0.base, None)
    ensures s.open.Some? ==> Stray(s, st, engine) == []
    ensures s.open == None ==> Exec(s, st, engine).0.open == None
  {
    hide Effect;
    EffectsOne(st, s.base);
  }

  /** The committed store after a callback is that of its stray statements. */
  lemma {:induction false} PlayCommits(s: Session, changes: seq<Physical -> Option<Physical>>, engine: Engine)
    ensures Effects(PlayStrays(s, changes, engine), s.base) == (Play(s, changes, engine).base, None)
    ensures Play(s, changes, engine).open.Some? ==> PlayStrays(s, changes, engine) == []
  {
    hide Effects, Exec, Stray;
    if changes == [] {
      EffectsNone(s.base);
    } else {
      var n := |changes| - 1;
      var t := Play(s, changes[..n], engine);
      var st := Application(changes[n]);
      PlayCommits(s, changes[..n], engine);
      StrayCommits(t, st, engine);
      EffectsAppend(PlayStrays(s, changes[..n], engine), Stray(t, st, engine), s.base);
    }
  }

  lemma {:induction false} EffectsNone(w: Store)
    ensures Effects([], w) == (w, None)
  {}

  lemma {:induction false} RunCommits(s: Session, sts: seq<Statement>, engine: Engine)
    ensures Effects(RunStrays(s, sts, engine), s.base) == (Run(s, sts, engine).0.base, None)
    ensures s.open.Some? ==> RunStrays(s, sts, engine) == []
  {
    hide Effects, Exec, Stray;
    if sts == [] {
      EffectsNone(s.base);
    } else {
      var n := |sts| - 1;
      var (t, e) := Run(s, sts[..n], engine);
      RunCommits(s, sts[..n], engine);
      if e == None {
        StrayCommits(t, sts[n], engine);
        EffectsAppend(RunStrays(s, sts[..n], engine), Stray(t, sts[n], engine), s.base);
        if s.open.Some? { RunInside(s, sts[..n], engine); }
      }
    }
  }

  // ------------------------------------------------------------ registration

  lemma {:induction false} FinishMeans(s: Session, status: Status, engine: Engine)
    ensures var (t, r) := Finish(s, status, engine);
            if r.Done? then s.open.Some? && t.base == s.open.value && t.open == None && r == Done(status)
            else t.base == s.base && r == Failed(Storage)
  {}

  /** Whatever the engine refuses, and wherever: an error leaves the committed
      store as it was, and a success is the registration of `Register`. */
  lemma {:induction false} RegisterIsAtomic(s: Session, schema: CollectionSchema, engine: Engine)
    ensures var (t, r) := RegisterIn(s, schema, engine);
            if r.Failed? then t.base == s.base else t.open == None && (t.base, r) == Register(s.base, schema)
  {
    hide ValidSchema, Run, Effects, RegisterOpening, RegisterRest, Finish;
    if ValidSchema(schema) {
      var (s0, begun) := Begin(s, engine);
      if begun {
        var (s1, e1) := Run(s0, RegisterOpening(schema), engine);
        RunInside(s0, RegisterOpening(schema), engine);
        OpeningPasses(s.base, schema);
        if e1 == None {
          var known := schema.id in s.base.schemas;
          var (s2, _) := Run(s1, RegisterRest(schema, known), engine);
          RunInside(s1, RegisterRest(schema, known), engine);
          EffectsAppend(RegisterOpening(schema), RegisterRest(schema, known), s.base);
          FinishMeans(s2, if known then AlreadyRegistered else Created, engine);
        }
      }
    }
  }

  /** When nothing is refused, registration answers exactly as `Register`. */
  lemma {:induction false} RegisterUnrefused(s: Session, schema: CollectionSchema, engine: Engine)
    requires s.open == None && forall n :: engine(n) == Go
    ensures (RegisterIn(s, schema, engine).0.base, RegisterIn(s, schema, engine).1) == Register(s.base, schema)
    ensures RegisterIn(s, schema, engine).0.open == None
  {
    hide ValidSchema, Run, Effects, RegisterOpening, RegisterRest;
    if ValidSchema(schema) {
      var s0 := Begin(s, engine).0;
      var (s1, e1) := Run(s0, RegisterOpening(schema), engine);
      RunUnrefused(s0, RegisterOpening(schema), engine);
      OpeningPasses(s.base, schema);
      var known := schema.id in s.base.schemas;
      EffectsAppend(RegisterOpening(schema), RegisterRest(schema, known), s.base);
      if e1 == None {
        RunUnrefused(s1, RegisterRest(schema, known), engine);
      }
    }
  }

  /** Giving up and committing end the transaction, unless the engine refuses the
      rollback, which is then the last thing asked of it. */
  lemma {:induction false} EndsTransaction(s: Session, code: Code, status: Status, engine: Engine)
    ensures var t := Abort(s, code, engine).0; t.open == None || (t.clock > 0 && engine(t.clock - 1).Stop?)
    ensures var t := Finish(s, status, engine).0; t.open == None || (t.clock > 0 && engine(t.clock - 1).Stop?)
  {}

  /** No call leaves a transaction open, unless its rollback was refused. */
  lemma {:induction false} RegisterEnds(s: Session, schema: CollectionSchema, engine: Engine)
    requires s.open == None
    ensures var t := RegisterIn(s, schema, engine).0; t.open == None || (t.clock > 0 && engine(t.clock - 1).Stop?)
  {
    hide ValidSchema, Run, RegisterOpening, RegisterRest, Abort, Finish;
    if ValidSchema(schema) && Begin(s, engine).1 {
      var (s1, e1) := Run(Begin(s, engine).0, RegisterOpening(schema), engine);
      if e1.Some? {
        EndsTransaction(s1, e1.value, Created, engine);
      } else {
        var known := schema.id in Seen(s1).schemas;
        var (s2, e2) := Run(s1, RegisterRest(schema, known), engine);
        EndsTransaction(s2, if e2.Some? then e2.value else Storage, if known then AlreadyRegistered else Created, engine);
      }
    }
  }

  lemma {:induction false} MigrateEnds(
      s: Session, id: Text, from: CollectionSchema, to: CollectionSchema, callback: Callback, engine: Engine)
    requires s.open == None
    ensures var t := MigrateIn(s, id, from, to, callback, engine).0;
            t.open == None || (t.clock > 0 && engine(t.clock - 1).Stop?)
  {
    hide UpToCallback, AfterReturn, Play;
    UpToCallbackEnds(s, id, from, to, engine);
    if UpToCallback(s, id, from, to, engine).Calling? {
      ReturnEnds(Play(UpToCallback(s, id, from, to, engine).session, callback.changes, engine), id, from, to, callback.ok, engine);
    }
  }

  lemma {:induction false} UpToCallbackEnds(s: Session, id: Text, from: CollectionSchema, to: CollectionSchema, engine: Engine)
    requires s.open == None
    ensures var stage := UpToCallback(s, id, from, to, engine);
            stage.Ended? ==>
              stage.session.open == None || (stage.session.clock > 0 && engine(stage.session.clock - 1).Stop?)
  {
    hide ValidSchema, ValidMigration, Run, MigrateOpening, RequireAll, Abort, Finish;
    if ValidSchema(from) && ValidSchema(to) && ValidMigration(from, to, id) && Begin(s, engine).1 {
      var (s1, e1) := Run(Begin(s, engine).0, MigrateOpening(id, from, to), engine);
      if e1.Some? {
        EndsTransaction(s1, e1.value, AlreadyApplied, engine);
      } else {
        var known := (from.id, id) in Seen(s1).migrations;
        var (s2, e2) := Run(s1, RequireAll(if known then to else from, known), engine);
        EndsTransaction(s2, if e2.Some? then e2.value else Storage, AlreadyApplied, engine);
      }
    }
  }

  lemma {:induction false} ReturnEnds(r: Session, id: Text, from: CollectionSchema, to: CollectionSchema, ok: bool, engine: Engine)
    ensures var t := AfterReturn(r, id, from, to, ok, engine).0;
            t.open == None || (t.clock > 0 && engine(t.clock - 1).Stop?)
  {
    hide Run, Abort, Finish, RestOf;
    if ok {
      RestIsScript(r, id, from, to, engine);
      var (t, e) := Run(r, RestOf(id, from, to), engine);
      EndsTransaction(t, if e.Some? then e.value else Storage, Applied, engine);
    } else {
      EndsTransaction(r, CallbackFailed, Applied, engine);
    }
  }

  /** Inside a transaction a script fails with the engine's refusal of one of its
      statements, or with the error of its own that it has on the working store. */
  lemma {:induction false} RunErrors(s: Session, sts: seq<Statement>, engine: Engine)
    requires s.open.Some?
    ensures var e := Run(s, sts, engine).1;
            e.Some? ==>
              || e == Effects(sts, s.open.value).1
              || exists i :: 0 <= i < |sts| && e == Some(RefusalCode(sts[i]))
  {
    hide Effect, RefusalCode;
    if sts != [] {
      var n := |sts| - 1;
      RunErrors(s, sts[..n], engine);
      RunInside(s, sts[..n], engine);
      var (t, e) := Run(s, sts[..n], engine);
      if e.Some? && e != Effects(sts[..n], s.open.value).1 {
        var i :| 0 <= i < n && e == Some(RefusalCode(sts[..n][i]));
        assert sts[i] == sts[..n][i];
      }
    }
  }

  /** Statements whose refusal is a storage error. */
  ghost predicate Unmapped(sts: seq<Statement>)
  {
    forall i :: 0 <= i < |sts| ==> RefusalCode(sts[i]) == Storage
  }

  /** A registration reports what is wrong with the schema or the store, or that the
      engine failed. */
  lemma {:induction false} RegisterErrors(s: Session, schema: CollectionSchema, engine: Engine, code: Code)
    requires RegisterIn(s, schema, engine).1 == Failed(code)
    ensures code == InvalidSchema <==> !ValidSchema(schema)
    ensures code == Storage || Register(s.base, schema).1 == Failed(code)
  {
    hide ValidSchema, Run, Effects, RegisterOpening, RegisterRest;
    if ValidSchema(schema) {
      ReportsKnown(s.base, schema);
      var (s0, begun) := Begin(s, engine);
      if begun {
        var (s1, e1) := Run(s0, RegisterOpening(schema), engine);
        var known := schema.id in s.base.schemas;
        RunInside(s0, RegisterOpening(schema), engine);
        RunErrors(s0, RegisterOpening(schema), engine);
        OpeningPasses(s.base, schema);
        RegisterUnmapped(schema, known);
        EffectsAppend(RegisterOpening(schema), RegisterRest(schema, known), s.base);
        if e1 == None {
          RunErrors(s1, RegisterRest(schema, known), engine);
        }
      }
    }
  }

  lemma {:induction false} RegisterUnmapped(schema: CollectionSchema, known: bool)
    ensures Unmapped(RegisterOpening(schema)) && Unmapped(RegisterRest(schema, known))
  {}

  lemma {:induction false} ReportsKnown(w: Store, schema: CollectionSchema)
    requires ValidSchema(schema)
    ensures Register(w, schema).1.Failed? ==> Register(w, schema).1.code in {SchemaMismatch, Storage}
  {
    hide ValidSchema, Register, FullyMatches, Accepted;
    RegisterMeans(w, schema);
  }

  // --------------------------------------------------------------- migration

  /** Up to its callback a migration only compares: it ends with the committed
      store unchanged, or calls with a fresh copy of a store that holds `from`. */
  lemma {:induction false} UpToCallbackMeans(s: Session, id: Text, from: CollectionSchema, to: CollectionSchema, engine: Engine)
    ensures match UpToCallback(s, id, from, to, engine)
            case Ended(t, r) =>
              && t.base == s.base
              && (r.Done? ==> t.open == None && forall left :: (t.base, r) == Migrate(s.base, id, from, to, left))
            case Calling(t) =>
              && t.base == s.base && t.open == Some(s.base)
              && ValidSchema(from) && ValidSchema(to) && ValidMigration(from, to, id)
              && (from.id, id) !in s.base.migrations && FullyMatches(s.base, from)
  {
    hide ValidSchema, ValidMigration, Run, Effects, MigrateOpening, RequireAll, Finish, FullyMatches;
    if ValidSchema(from) && ValidSchema(to) && ValidMigration(from, to, id) {
      var (s0, begun) := Begin(s, engine);
      if begun {
        var (s1, e1) := Run(s0, MigrateOpening(id, from, to), engine);
        RunInside(s0, MigrateOpening(id, from, to), engine);
        OpeningKeeps(s.base, id, from, to);
        if e1 == None {
          var known := (from.id, id) in s.base.migrations;
          var checks := RequireAll(if known then to else from, known);
          var (s2, e2) := Run(s1, checks, engine);
          RunInside(s1, checks, engine);
          EffectsAppend(MigrateOpening(id, from, to), checks, s.base);
          MigrateOpens(s.base, id, from, to, known);
          FinishMeans(s2, AlreadyApplied, engine);
        }
      }
    }
  }

  lemma {:induction false} OpeningKeeps(w: Store, id: Text, from: CollectionSchema, to: CollectionSchema)
    ensures Effects(MigrateOpening(id, from, to), w).0 == w
  {
    ReadsKeep(MigrateOpening(id, from, to), w);
  }

  /** The session in which the callback returned, if it was called. */
  ghost function AtReturn(
      s: Session, id: Text, from: CollectionSchema, to: CollectionSchema, callback: Callback, engine: Engine): Option<Session>
  {
    match UpToCallback(s, id, from, to, engine)
    case Ended(_, _) => None
    case Calling(t) => Some(Play(t, callback.changes, engine))
  }

  /** The transaction was still open when the callback returned. */
  ghost predicate Kept(
      s: Session, id: Text, from: CollectionSchema, to: CollectionSchema, callback: Callback, engine: Engine)
  {
    var r := AtReturn(s, id, from, to, callback, engine);
    r == None || r.value.open.Some?
  }

  /** The update of the schema's registry row was executed. */
  ghost predicate Reached(
      s: Session, id: Text, from: CollectionSchema, to: CollectionSchema, callback: Callback, engine: Engine)
  {
    var r := AtReturn(s, id, from, to, callback, engine);
    && r.Some? && callback.ok
    && var (t, e) := Run(r.value, ReshapeTo(from, to), engine);
       e == None && Exec(t, UpdateSchema(to), engine).1 == None
  }

  lemma {:induction false} ReturnMeans(
      s: Session, id: Text, from: CollectionSchema, to: CollectionSchema, callback: Callback, engine: Engine)
    requires UpToCallback(s, id, from, to, engine).Calling?
    ensures var r := AtReturn(s, id, from, to, callback, engine).value;
            && SameRegistries(s.base, r.base)
            && (r.open.Some? ==> r.base == s.base && r.open.value == s.base.(physical := r.open.value.physical))
            && MigrateIn(s, id, from, to, callback, engine) == AfterReturn(r, id, from, to, callback.ok, engine)
  {
    hide UpToCallback, Play, AfterReturn, FullyMatches, ValidSchema, ValidMigration;
    UpToCallbackMeans(s, id, from, to, engine);
    CallbackSpares(UpToCallback(s, id, from, to, engine).session, callback.changes, engine);
  }

  /** With the transaction open at the return, the rest is all or nothing. */
  lemma {:induction false} RestIsAtomic(
      r: Session, id: Text, from: CollectionSchema, to: CollectionSchema, ok: bool, engine: Engine)
    requires r.open.Some?
    ensures var (t, result) := AfterReturn(r, id, from, to, ok, engine);
            if result.Failed? then t.base == r.base
            else
              && ok && result == Done(Applied) && t.open == None
              && Effects(ReshapeTo(from, to) + ([UpdateSchema(to)] + RecordRest(id, from, to)), r.open.value) == (t.base, None)
  {
    hide Run, Effects, ReshapeTo, RecordRest, Finish;
    var second := [UpdateSchema(to)] + RecordRest(id, from, to);
    if ok {
      RunInside(r, ReshapeTo(from, to), engine);
      var (s4, e4) := Run(r, ReshapeTo(from, to), engine);
      if e4 == None {
        RunInside(s4, second, engine);
        EffectsAppend(ReshapeTo(from, to), second, r.open.value);
        FinishMeans(Run(s4, second, engine).0, Applied, engine);
      }
    }
  }

  /** Without it the call always fails, and the registries are touched from the
      update of the schema's row on. */
  lemma {:induction false} RestIsLoose(
      r: Session, id: Text, from: CollectionSchema, to: CollectionSchema, ok: bool, engine: Engine)
    requires r.open == None
    ensures var (t, result) := AfterReturn(r, id, from, to, ok, engine);
            var (u, e) := Run(r, ReshapeTo(from, to), engine);
            && result.Failed? && t.open == None
            && if ok && e == None && Exec(u, UpdateSchema(to), engine).1 == None
               then to.id in t.base.schemas && t.base.schemas[to.id] == RegisteredOf(to)
               else SameRegistries(r.base, t.base)
  {
    hide Effect, Effects;
    ReshapeSpares(r, from, to, engine);
    RunOutside(r, ReshapeTo(from, to), engine);
    hide ReshapeTo, RecordRest, Run, Exec;
    var (u, e) := Run(r, ReshapeTo(from, to), engine);
    if ok && e == None {
      UpdateLoose(u, id, from, to, engine);
    }
  }

  lemma {:induction false} ReshapeSpares(r: Session, from: CollectionSchema, to: CollectionSchema, engine: Engine)
    ensures SameRegistries(r.base, Run(r, ReshapeTo(from, to), engine).0.base)
  {
    hide Run;
    RemovalsOnly(from, to, |from.indexes|);
    RunSpares(r, ReshapeTo(from, to), engine);
  }

  lemma {:induction false} RemovalsOnly(from: CollectionSchema, to: CollectionSchema, n: nat)
    requires n <= |from.indexes|
    ensures forall i :: 0 <= i < |RemoveObsolete(from, to, n)| ==> RemoveObsolete(from, to, n)[i].RemoveIndex?
  {
    hide Retained;
    if n > 0 { RemovalsOnly(from, to, n - 1); }
  }

  /** The registry statements outside a transaction. */
  lemma {:induction false} UpdateLoose(u: Session, id: Text, from: CollectionSchema, to: CollectionSchema, engine: Engine)
    requires u.open == None
    ensures var (t, e) := Run(u, [UpdateSchema(to)] + RecordRest(id, from, to), engine);
            && t.open == None
            && if Exec(u, UpdateSchema(to), engine).1 == None
               then to.id in t.base.schemas && t.base.schemas[to.id] == RegisteredOf(to)
               else e.Some? && t.base == u.base
  {
    hide Run, Effects, RecordRest;
    RunOutside(u, [UpdateSchema(to)] + RecordRest(id, from, to), engine);
    RunAppend(u, [UpdateSchema(to)], RecordRest(id, from, to), engine);
    RunOne(u, UpdateSchema(to), engine);
    RecordSpares(Exec(u, UpdateSchema(to), engine).0, id, from, to, engine);
  }

  lemma {:induction false} RunOne(s: Session, st: Statement, engine: Engine)
    ensures Run(s, [st], engine) == Exec(s, st, engine)
  {
    hide Exec;
    assert [st][..0] == [];
  }

  lemma {:induction false} RecordSpares(s: Session, id: Text, from: CollectionSchema, to: CollectionSchema, engine: Engine)
    ensures Run(s, RecordRest(id, from, to), engine).0.base.schemas == s.base.schemas
  {
    hide Run;
    RunSpares(s, RecordRest(id, from, to), engine);
  }

  /** A success is the migration of `Migrate`, with what the callback left. */
  lemma {:induction false} AppliedMeans(
      s: Session, id: Text, from: CollectionSchema, to: CollectionSchema, callback: Callback, engine: Engine)
    requires MigrateIn(s, id, from, to, callback, engine).1.Done?
    ensures Kept(s, id, from, to, callback, engine)
    ensures var (t, r) := MigrateIn(s, id, from, to, callback, engine);
            && t.open == None && (r == Done(Applied) || r == Done(AlreadyApplied))
            && if UpToCallback(s, id, from, to, engine).Ended?
               then t.base == s.base && forall left :: (t.base, r) == Migrate(s.base, id, from, to, left)
               else (t.base, r) == Migrate(s.base, id, from, to,
                      Some(AtReturn(s, id, from, to, callback, engine).value.open.value.physical))
  {
    hide UpToCallback, AfterReturn, FullyMatches, ValidSchema, ValidMigration, Effects, ReshapeTo, RecordRest;
    UpToCallbackMeans(s, id, from, to, engine);
    if UpToCallback(s, id, from, to, engine).Calling? {
      ReturnMeans(s, id, from, to, callback, engine);
      var back := AtReturn(s, id, from, to, callback, engine).value;
      if back.open == None {
        RestIsLoose(back, id, from, to, callback.ok, engine);
      } else {
        RestIsAtomic(back, id, from, to, callback.ok, engine);
        MigrateOpens(s.base, id, from, to, false);
      }
    } else {
      EndedStatus(s, id, from, to, engine);
    }
  }

  lemma {:induction false} EndedStatus(s: Session, id: Text, from: CollectionSchema, to: CollectionSchema, engine: Engine)
    ensures var stage := UpToCallback(s, id, from, to, engine);
            stage.Ended? && stage.result.Done? ==> stage.result == Done(AlreadyApplied)
  {
    hide ValidSchema, ValidMigration, Run, MigrateOpening, RequireAll, Commit;
  }

  lemma {:induction false} UnmappedAppend(a: seq<Statement>, b: seq<Statement>)
    requires Unmapped(a) && Unmapped(b)
    ensures Unmapped(a + b)
  {
    hide RefusalCode;
  }

  lemma {:induction false} RestUnmapped(id: Text, from: CollectionSchema, to: CollectionSchema)
    ensures Unmapped(RestOf(id, from, to))
  {
    var head, drops := [RequireUnclaimed(to), RequireTable(to, false)], RemoveObsolete(from, to, |from.indexes|);
    RemovalsOnly(from, to, |from.indexes|);
    assert Unmapped(drops) && Unmapped(RequireIndexes(to, false)) && Unmapped([UpdateSchema(to)] + RecordRest(id, from, to));
    hide Unmapped, RecordRest;
    UnmappedAppend(head, drops);
    UnmappedAppend(head + drops, MakeIndexes(to));
    UnmappedAppend(head + drops + MakeIndexes(to), RequireIndexes(to, false));
    UnmappedAppend(ReshapeTo(from, to), [UpdateSchema(to)] + RecordRest(id, from, to));
  }

  /** The check of a recorded or a source schema reports a mismatch of the migration
      also where the engine refuses it. */
  lemma {:induction false} ChecksReport(s: CollectionSchema, mapped: bool)
    ensures forall i :: 0 <= i < |RequireAll(s, mapped)| ==> RefusalCode(RequireAll(s, mapped)[i]) in {Storage, MigrationMismatch}
  {}

  /** A migration that kept its transaction reports what `Migrate` reports with what
      the callback left, or that the engine failed, or, where the engine refused one
      of the mapped checks, a mismatch. */
  lemma {:induction false} MigrateErrors(
      s: Session, id: Text, from: CollectionSchema, to: CollectionSchema, callback: Callback, engine: Engine, code: Code)
    requires MigrateIn(s, id, from, to, callback, engine).1 == Failed(code) && Kept(s, id, from, to, callback, engine)
    ensures code == InvalidSchema <==> !ValidSchema(from) || !ValidSchema(to)
    ensures code == InvalidMigration <==> ValidSchema(from) && ValidSchema(to) && !ValidMigration(from, to, id)
    ensures var back := AtReturn(s, id, from, to, callback, engine);
            var left := if back.Some? && callback.ok then Some(back.value.open.value.physical) else None;
            || code == Storage || (code == MigrationMismatch && back == None)
            || Migrate(s.base, id, from, to, left).1 == Failed(code)
  {
    hide ValidSchema, ValidMigration, UpToCallback, AfterReturn, Migrate, FullyMatches;
    match UpToCallback(s, id, from, to, engine)
    case Ended(_, _) => EndedErrors(s, id, from, to, engine, code);
    case Calling(t) =>
      UpToCallbackMeans(s, id, from, to, engine);
      ReturnMeans(s, id, from, to, callback, engine);
      var back := AtReturn(s, id, from, to, callback, engine).value;
      ReturnErrors(back, s.base, id, from, to, callback.ok, engine, code);
  }

  lemma {:induction false} EndedErrors(
      s: Session, id: Text, from: CollectionSchema, to: CollectionSchema, engine: Engine, code: Code)
    requires UpToCallback(s, id, from, to, engine).Ended? && UpToCallback(s, id, from, to, engine).result == Failed(code)
    ensures code == InvalidSchema <==> !ValidSchema(from) || !ValidSchema(to)
    ensures code == InvalidMigration <==> ValidSchema(from) && ValidSchema(to) && !ValidMigration(from, to, id)
    ensures code == Storage || code == MigrationMismatch || Migrate(s.base, id, from, to, None).1 == Failed(code)
  {
    hide ValidSchema, ValidMigration, Run, Effects, MigrateOpening, RequireAll, FullyMatches, RefusalCode;
    if ValidSchema(from) && ValidSchema(to) && ValidMigration(from, to, id) {
      var (s0, begun) := Begin(s, engine);
      if begun {
        var opening := MigrateOpening(id, from, to);
        var (s1, e1) := Run(s0, opening, engine);
        var known := (from.id, id) in s.base.migrations;
        var checks := RequireAll(if known then to else from, known);
        RunInside(s0, opening, engine);
        RunErrors(s0, opening, engine);
        OpeningKeeps(s.base, id, from, to);
        OpeningReport(id, from, to);
        OpeningChecks(s.base, id, from, to);
        EffectsAppend(opening, checks, s.base);
        MigrateOpens(s.base, id, from, to, known);
        ChecksReport(if known then to else from, known);
        if e1 == None {
          RunErrors(s1, checks, engine);
        }
      }
    }
  }

  lemma {:induction false} OpeningReport(id: Text, from: CollectionSchema, to: CollectionSchema)
    ensures Unmapped(MigrateOpening(id, from, to))
  {}

  lemma {:induction false} ReturnErrors(
      r: Session, w: Store, id: Text, from: CollectionSchema, to: CollectionSchema, ok: bool, engine: Engine, code: Code)
    requires r.open.Some? && r.open.value == w.(physical := r.open.value.physical)
    requires ValidSchema(from) && ValidSchema(to) && ValidMigration(from, to, id)
    requires (from.id, id) !in w.migrations && FullyMatches(w, from)
    requires AfterReturn(r, id, from, to, ok, engine).1 == Failed(code)
    ensures code != InvalidSchema && code != InvalidMigration
    ensures code == Storage || Migrate(w, id, from, to, if ok then Some(r.open.value.physical) else None).1 == Failed(code)
  {
    hide ValidSchema, ValidMigration, Run, Effects, MigrateOpening, RequireAll, RestOf, TableMatches, IndexesMatch, Unclaimed,
         Reindexed, Migrating, IndexesRegistered;
    var left := if ok then Some(r.open.value.physical) else None;
    MigrateMeans(w, id, from, to, left);
    hide Migrate;
    if ok {
      RestIsScript(r, id, from, to, engine);
      RunErrors(r, RestOf(id, from, to), engine);
      RestUnmapped(id, from, to);
      RestReports(w, id, from, to, r.open.value.physical);
      FinishMeans(Run(r, RestOf(id, from, to), engine).0, Applied, engine);
    }
  }

  lemma {:induction false} RestReports(w: Store, id: Text, from: CollectionSchema, to: CollectionSchema, p: Physical)
    requires ValidSchema(from) && ValidSchema(to) && ValidMigration(from, to, id)
    requires (from.id, id) !in w.migrations && FullyMatches(w, from)
    ensures var e := Effects(RestOf(id, from, to), w.(physical := p)).1;
            e.Some? ==> Migrate(w, id, from, to, Some(p)).1 == Failed(e.value) && e.value in {SchemaMismatch, Storage}
  {
    hide ValidSchema, Effects, TableMatches, IndexesMatch, Unclaimed, DropIndexes, CreateIndexes, InsertRows, Rows,
         IndexesRegistered, RegistryMatches, Migrate;
    MigrateMeans(w, id, from, to, Some(p));
    AfterCallbackMeans(w, id, from, to, p);
  }

  /** The statements of a migration that committed by themselves, from its
      callback on. */
  ghost function Strays(
      s: Session, id: Text, from: CollectionSchema, to: CollectionSchema, callback: Callback, engine: Engine): seq<Statement>
  {
    match UpToCallback(s, id, from, to, engine)
    case Ended(_, _) => []
    case Calling(t) =>
      var played := PlayStrays(t, callback.changes, engine);
      if !callback.ok then played
      else played + RunStrays(Play(t, callback.changes, engine), RestOf(id, from, to), engine)
  }

  function RestOf(id: Text, from: CollectionSchema, to: CollectionSchema): seq<Statement>
  {
    ReshapeTo(from, to) + ([UpdateSchema(to)] + RecordRest(id, from, to))
  }

  /** The call after its callback is one script and its COMMIT. */
  lemma {:induction false} RestIsScript(
      r: Session, id: Text, from: CollectionSchema, to: CollectionSchema, engine: Engine)
    ensures var (t, e) := Run(r, RestOf(id, from, to), engine);
            AfterReturn(r, id, from, to, true, engine)
            == if e.Some? then Abort(t, e.value, engine) else Finish(t, Applied, engine)
  {
    hide Run, ReshapeTo, RecordRest, Abort, Finish;
    RunAppend(r, ReshapeTo(from, to), [UpdateSchema(to)] + RecordRest(id, from, to), engine);
  }

  /** A failed migration leaves the committed store with exactly the effects of
      its stray statements; with the transaction kept there are none. */
  lemma {:induction false} FailureLeavesStrays(
      s: Session, id: Text, from: CollectionSchema, to: CollectionSchema, callback: Callback, engine: Engine)
    requires MigrateIn(s, id, from, to, callback, engine).1.Failed?
    ensures Effects(Strays(s, id, from, to, callback, engine), s.base)
         == (MigrateIn(s, id, from, to, callback, engine).0.base, None)
    ensures Kept(s, id, from, to, callback, engine) ==> Strays(s, id, from, to, callback, engine) == []
  {
    hide UpToCallback, Run, Play, PlayStrays, RunStrays, Effects, RestOf, AfterReturn, ValidSchema, ValidMigration, FullyMatches,
         Finish;
    UpToCallbackMeans(s, id, from, to, engine);
    match UpToCallback(s, id, from, to, engine)
    case Ended(_, _) => EffectsNone(s.base);
    case Calling(t) =>
      var back := Play(t, callback.changes, engine);
      PlayCommits(t, callback.changes, engine);
      if callback.ok {
        RunCommits(back, RestOf(id, from, to), engine);
        EffectsAppend(PlayStrays(t, callback.changes, engine), RunStrays(back, RestOf(id, from, to), engine), s.base);
        RestIsScript(back, id, from, to, engine);
        FinishMeans(Run(back, RestOf(id, from, to), engine).0, Applied, engine);
      } else {
        FailedReturn(back, id, from, to, engine);
      }
  }

  lemma {:induction false} FailedReturn(r: Session, id: Text, from: CollectionSchema, to: CollectionSchema, engine: Engine)
    ensures AfterReturn(r, id, from, to, false, engine).0.base == r.base
  {}

  /** The physical schema after a callback's statements, those that fail passed over. */
  function Leaves(p: Physical, changes: seq<Physical -> Option<Physical>>): Physical
  {
    if changes == [] then p
    else
      var q := Leaves(p, changes[..|changes| - 1]);
      match changes[|changes| - 1](q)
      case None => q
      case Some(r) => r
  }

  lemma {:induction false} PlayUnrefused(s: Session, changes: seq<Physical -> Option<Physical>>, engine: Engine)
    requires s.open.Some? && forall n :: engine(n) == Go
    ensures var t := Play(s, changes, engine);
            t.base == s.base && t.open == Some(s.open.value.(physical := Leaves(s.open.value.physical, changes)))
  {
    if changes != [] {
      PlayUnrefused(s, changes[..|changes| - 1], engine);
    }
  }

  /** When nothing is refused, a migration answers exactly as `Migrate` with what
      the statements of its callback leave. */
  lemma {:induction false} MigrateUnrefused(
      s: Session, id: Text, from: CollectionSchema, to: CollectionSchema, callback: Callback, engine: Engine)
    requires s.open == None && forall n :: engine(n) == Go
    ensures var (t, r) := MigrateIn(s, id, from, to, callback, engine);
            var left := if callback.ok then Some(Leaves(s.base.physical, callback.changes)) else None;
            t.open == None && (t.base, r) == Migrate(s.base, id, from, to, left)
  {
    hide UpToCallback, AfterReturn, Play, Leaves, ValidSchema, ValidMigration, FullyMatches, Effects, MigrateOpening, RequireAll,
         ReshapeTo, RecordRest, Run;
    OpeningUnrefused(s, id, from, to, engine);
    match UpToCallback(s, id, from, to, engine)
    case Ended(_, _) =>
    case Calling(t) =>
      PlayUnrefused(t, callback.changes, engine);
      var back := Play(t, callback.changes, engine);
      if callback.ok {
        RestIsScript(back, id, from, to, engine);
        RunUnrefused(back, RestOf(id, from, to), engine);
      } else {
        ReturnFails(back, id, from, to, engine);
      }
  }

  lemma {:induction false} ReturnFails(r: Session, id: Text, from: CollectionSchema, to: CollectionSchema, engine: Engine)
    requires forall n :: engine(n) == Go
    ensures var (t, result) := AfterReturn(r, id, from, to, false, engine);
            t.open == None && t.base == r.base && result == Failed(CallbackFailed)
  {}

  /** Up to the callback, when nothing is refused. */
  lemma {:induction false} OpeningUnrefused(s: Session, id: Text, from: CollectionSchema, to: CollectionSchema, engine: Engine)
    requires s.open == None && forall n :: engine(n) == Go
    ensures match UpToCallback(s, id, from, to, engine)
            case Ended(t, r) => t.open == None && forall left :: (t.base, r) == Migrate(s.base, id, from, to, left)
            case Calling(t) =>
              && t.base == s.base && t.open == Some(s.base)
              && ValidSchema(from) && ValidSchema(to) && ValidMigration(from, to, id) && (from.id, id) !in s.base.migrations
              && Effects(MigrateOpening(id, from, to) + RequireAll(from, false), s.base) == (s.base, None)
  {
    hide ValidSchema, ValidMigration, Run, Effects, MigrateOpening, RequireAll, FullyMatches;
    if ValidSchema(from) && ValidSchema(to) && ValidMigration(from, to, id) {
      var s0 := Begin(s, engine).0;
      var opening := MigrateOpening(id, from, to);
      var known := (from.id, id) in s.base.migrations;
      var checks := RequireAll(if known then to else from, known);
      RunUnrefused(s0, opening, engine);
      OpeningKeeps(s.base, id, from, to);
      EffectsAppend(opening, checks, s.base);
      MigrateOpens(s.base, id, from, to, known);
      var (s1, e1) := Run(s0, opening, engine);
      if e1 == None {
        RunUnrefused(s1, checks, engine);
      }
    }
  }

  /** Exactly when a failed migration leaves the committed store as it was: the
      transaction was open when the callback returned; or it was lost, the schema's
      row was not reached, and the stray statements undid each other. */
  lemma {:induction false} FailedMigrationExactly(
      s: Session, id: Text, from: CollectionSchema, to: CollectionSchema, callback: Callback, engine: Engine)
    requires MigrateIn(s, id, from, to, callback, engine).1.Failed?
    ensures MigrateIn(s, id, from, to, callback, engine).0.base == s.base <==>
              || Kept(s, id, from, to, callback, engine)
              || (&& !Reached(s, id, from, to, callback, engine)
                  && Effects(Strays(s, id, from, to, callback, engine), s.base).0.physical == s.base.physical)
  {
    hide MigrateIn, Kept, Reached, Strays, Effects;
    FailureLeavesStrays(s, id, from, to, callback, engine);
    FailedRegistries(s, id, from, to, callback, engine);
    if Strays(s, id, from, to, callback, engine) == [] {
      EffectsNone(s.base);
    }
  }

  /** The same condition on the engine: a failed migration whose callback's
      statements never cost the transaction changes nothing. */
  lemma {:induction false} KeptMigrationIsAtomic(
      s: Session, id: Text, from: CollectionSchema, to: CollectionSchema, callback: Callback, engine: Engine)
    requires MigrateIn(s, id, from, to, callback, engine).1.Failed?
    requires var stage := UpToCallback(s, id, from, to, engine);
             stage.Calling? ==>
               forall n :: stage.session.clock <= n < stage.session.clock + |callback.changes| ==> engine(n) != Lose
    ensures MigrateIn(s, id, from, to, callback, engine).0.base == s.base
  {
    hide UpToCallback, AfterReturn, ValidSchema, ValidMigration, FullyMatches, Play;
    UpToCallbackMeans(s, id, from, to, engine);
    if UpToCallback(s, id, from, to, engine).Calling? {
      KeptExactly(UpToCallback(s, id, from, to, engine).session, callback.changes, engine);
    }
    FailedMigrationExactly(s, id, from, to, callback, engine);
  }

  /** The registries after a failed migration: untouched exactly when the
      transaction was kept or the schema's row was not reached; else the row of
      the collection is already the target's. */
  lemma {:induction false} FailedRegistries(
      s: Session, id: Text, from: CollectionSchema, to: CollectionSchema, callback: Callback, engine: Engine)
    requires MigrateIn(s, id, from, to, callback, engine).1.Failed?
    ensures var t := MigrateIn(s, id, from, to, callback, engine).0;
            if Kept(s, id, from, to, callback, engine) || !Reached(s, id, from, to, callback, engine)
            then SameRegistries(s.base, t.base)
            else
              && to.id in s.base.schemas && s.base.schemas[to.id] == RegisteredOf(from) && from.version != to.version
              && to.id in t.base.schemas && t.base.schemas[to.id] == RegisteredOf(to)
  {
    hide UpToCallback, AfterReturn, ValidSchema, Effects, ReshapeTo, RecordRest, Run, IndexesRegistered, TableMatches,
         IndexesMatch;
    UpToCallbackMeans(s, id, from, to, engine);
    if UpToCallback(s, id, from, to, engine).Calling? {
      ReturnMeans(s, id, from, to, callback, engine);
      var back := AtReturn(s, id, from, to, callback, engine).value;
      if back.open == None {
        RestIsLoose(back, id, from, to, callback.ok, engine);
      } else {
        RestIsAtomic(back, id, from, to, callback.ok, engine);
      }
    }
  }
}
