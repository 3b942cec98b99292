/** Registration and migration on a connection that may refuse any statement and
    may roll the transaction back while doing so. What the engine decides is an
    input: one verdict per statement, by the number of statements so far. */
module Session {
  import opened Basics
  import opened Schema
  import opened Descriptor
  import opened Catalogue
  import opened Migration
  import Registration

  /** Execute; refuse, leaving any physical schema in an open transaction; or
      refuse and roll the whole transaction back. */
  datatype Verdict = Go | Stop(left: Physical) | Lose

  type Engine = nat -> Verdict

  /** Committed store, working store of the open transaction, statements so far. */
  datatype Session = Session(base: Store, open: Option<Store>, clock: nat)

  function Seen(s: Session): Store { if s.open.Some? then s.open.value else s.base }

  /** One statement. Outside a transaction it commits by itself, and a refused
      one is undone. */
  function Exec(s: Session, st: Statement, engine: Engine): (Session, Option<Code>)
  {
    var t := s.(clock := s.clock + 1);
    match engine(s.clock)
    case Lose => (t.(open := None), Some(RefusalCode(st)))
    case Stop(left) =>
      (if s.open.Some? then t.(open := Some(s.open.value.(physical := left))) else t, Some(RefusalCode(st)))
    case Go =>
      match Effect(st, Seen(s))
      case Fail(code) => (t, Some(code))
      case Next(w) => (if s.open.Some? then t.(open := Some(w)) else t.(base := w), None)
  }

  /** Statements whose errors end the call. */
  function Run(s: Session, sts: seq<Statement>, engine: Engine): (Session, Option<Code>)
  {
    if sts == [] then (s, None)
    else
      var (t, e) := Run(s, sts[..|sts| - 1], engine);
      if e.Some? then (t, e) else Exec(t, sts[|sts| - 1], engine)
  }

  /** Statements of a callback, which may go on after an error. */
  function Play(s: Session, changes: seq<Physical -> Option<Physical>>, engine: Engine): Session
  {
    if changes == [] then s
    else Exec(Play(s, changes[..|changes| - 1], engine), Application(changes[|changes| - 1]), engine).0
  }

  /** BEGIN, refused inside a transaction. */
  function Begin(s: Session, engine: Engine): (Session, bool)
  {
    var t := s.(clock := s.clock + 1);
    if s.open.Some? || !engine(s.clock).Go? then (t, false) else (t.(open := Some(s.base)), true)
  }

  /** COMMIT, refused where no transaction is open. */
  function Commit(s: Session, engine: Engine): (Session, bool)
  {
    var t := s.(clock := s.clock + 1);
    if s.open == None then (t, false)
    else
      match engine(s.clock)
      case Go => (t.(base := s.open.value, open := None), true)
      case Stop(_) => (t, false)
      case Lose => (t.(open := None), false)
  }

  /** The rollback of a dropped transaction, which the engine may refuse. */
  function Drop(s: Session, engine: Engine): Session
  {
    if s.open == None then s
    else
      var t := s.(clock := s.clock + 1);
      if engine(s.clock).Stop? then t else t.(open := None)
  }

  function Abort(s: Session, code: Code, engine: Engine): (Session, Result) { (Drop(s, engine), Failed(code)) }

  function Finish(s: Session, status: Status, engine: Engine): (Session, Result)
  {
    var (t, committed) := Commit(s, engine);
    if committed then (t, Done(status)) else Abort(t, Storage, engine)
  }

  // ------------------------------------------------------------- operations

  ghost function RegisterIn(s: Session, schema: CollectionSchema, engine: Engine): (Session, Result)
  {
    if !ValidSchema(schema) then (s, Failed(InvalidSchema))
    else
      var (s0, begun) := Begin(s, engine);
      if !begun then (s0, Failed(Storage))
      else
        var (s1, e1) := Run(s0, RegisterOpening(schema), engine);
        if e1.Some? then Abort(s1, e1.value, engine)
        else
          var known := schema.id in Seen(s1).schemas;
          var (s2, e2) := Run(s1, RegisterRest(schema, known), engine);
          if e2.Some? then Abort(s2, e2.value, engine)
          else Finish(s2, if known then AlreadyRegistered else Created, engine)
  }

  /** One run of a callback: the statements it came to issue, refused ones
      included, and whether it returned Ok. */
  datatype Callback = Callback(changes: seq<Physical -> Option<Physical>>, ok: bool)

  /** A migration up to its callback: ended before it, or about to call it. */
  datatype Stage = Ended(session: Session, result: Result) | Calling(session: Session)

  ghost function UpToCallback(s: Session, id: Text, from: CollectionSchema, to: CollectionSchema, engine: Engine): Stage
  {
    if !ValidSchema(from) || !ValidSchema(to) then Ended(s, Failed(InvalidSchema))
    else if !ValidMigration(from, to, id) then Ended(s, Failed(InvalidMigration))
    else
      var (s0, begun) := Begin(s, engine);
      if !begun then Ended(s0, Failed(Storage))
      else
        var (s1, e1) := Run(s0, MigrateOpening(id, from, to), engine);
        if e1.Some? then var (t, r) := Abort(s1, e1.value, engine); Ended(t, r)
        else
          var known := (from.id, id) in Seen(s1).migrations;
          var (s2, e2) := Run(s1, RequireAll(if known then to else from, known), engine);
          if e2.Some? then var (t, r) := Abort(s2, e2.value, engine); Ended(t, r)
          else if known then var (t, r) := Finish(s2, AlreadyApplied, engine); Ended(t, r)
          else Calling(s2)
  }

  /** The rest of a migration, from the return of its callback. */
  function AfterReturn(s: Session, id: Text, from: CollectionSchema, to: CollectionSchema, ok: bool, engine: Engine)
    : (Session, Result)
  {
    if !ok then Abort(s, CallbackFailed, engine)
    else
      var (s4, e4) := Run(s, ReshapeTo(from, to), engine);
      if e4.Some? then Abort(s4, e4.value, engine)
      else
        var (s5, e5) := Run(s4, [UpdateSchema(to)] + RecordRest(id, from, to), engine);
        if e5.Some? then Abort(s5, e5.value, engine) else Finish(s5, Applied, engine)
  }

  ghost function MigrateIn(
      s: Session, id: Text, from: CollectionSchema, to: CollectionSchema, callback: Callback, engine: Engine)
    : (Session, Result)
  {
    match UpToCallback(s, id, from, to, engine)
    case Ended(t, r) => (t, r)
    case Calling(t) => AfterReturn(Play(t, callback.changes, engine), id, from, to, callback.ok, engine)
  }

  // ------------------------------------------------------------------ class

  class Database {
    const engine: Engine
    var base: Store
    var open: Option<Store>
    var clock: nat

    constructor (engine: Engine, base: Store)
      ensures this.engine == engine && View() == Session(base, None, 0)
    {
      this.engine := engine;
      this.base, open, clock := base, None, 0;
    }

    function View(): Session
      reads this
    {
      Session(base, open, clock)
    }

    method Set(s: Session)
      modifies `base, `open, `clock
      ensures View() == s
    {
      base, open, clock := s.base, s.open, s.clock;
    }

    method Execute(st: Statement) returns (e: Option<Code>)
      modifies `base, `open, `clock
      ensures (View(), e) == Exec(old(View()), st, engine)
      ensures !engine(old(clock)).Go? ==>
                e == Some(if (st.RequireIndexRows? || st.RequireTable? || st.RequireIndex?) && st.mapped
                          then MigrationMismatch else Storage)
    {
      var verdict := engine(clock);
      clock := clock + 1;
      match verdict
      case Lose =>
        open := None;
        e := Some(RefusalCode(st));
      case Stop(left) =>
        if open.Some? { open := Some(open.value.(physical := left)); }
        e := Some(RefusalCode(st));
      case Go =>
        var outcome := Effect(st, if open.Some? then open.value else base);
        if outcome.Fail? { return Some(outcome.code); }
        if open.Some? { open := Some(outcome.store); } else { base := outcome.store; }
        e := None;
    }

    /** Statements in order; the first error ends them. */
    method ExecuteAll(sts: seq<Statement>) returns (e: Option<Code>)
      modifies `base, `open, `clock
      ensures (View(), e) == Run(old(View()), sts, engine)
    {
      hide Exec;
      e := None;
      for n := 0 to |sts|
        invariant e == None && Run(old(View()), sts[..n], engine) == (View(), None)
      {
        assert sts[..n + 1][..n] == sts[..n];
        e := Execute(sts[n]);
        if e.Some? {
          StopsForGood(old(View()), sts, n + 1, engine);
          return;
        }
      }
      assert sts[..|sts|] == sts;
    }

    /** The callback's statements; refused ones are passed over. */
    method Call(changes: seq<Physical -> Option<Physical>>)
      modifies `base, `open, `clock
      ensures View() == Play(old(View()), changes, engine)
    {
      hide Exec;
      for n := 0 to |changes|
        invariant View() == Play(old(View()), changes[..n], engine)
      {
        assert changes[..n + 1][..n] == changes[..n];
        var _ := Execute(Application(changes[n]));
      }
      assert changes[..|changes|] == changes;
    }

    /** Commits, or gives the transaction up. */
    method CommitOrDrop(status: Status) returns (r: Result)
      modifies `base, `open, `clock
      ensures (View(), r) == Finish(old(View()), status, engine)
    {
      var (t, committed) := Commit(View(), engine);
      Set(t);
      if committed { return Done(status); }
      Set(Drop(View(), engine));
      r := Failed(Storage);
    }

    method GiveUp(code: Code) returns (r: Result)
      modifies `base, `open, `clock
      ensures (View(), r) == Abort(old(View()), code, engine)
    {
      Set(Drop(View(), engine));
      r := Failed(code);
    }

    method RegisterCollection(schema: CollectionSchema) returns (r: Result)
      modifies `base, `open, `clock
      ensures (View(), r) == RegisterIn(old(View()), schema, engine)
    {
      hide ValidSchema, Run, Begin, Finish, Abort, RegisterOpening, RegisterRest;
      var valid := ValidateCollectionSchema(schema);
      if !valid { return Failed(InvalidSchema); }
      var (begun, ok) := Begin(View(), engine);
      Set(begun);
      if !ok { return Failed(Storage); }
      var e := ExecuteAll(RegisterOpening(schema));
      if e.Some? { r := GiveUp(e.value); return; }
      var known := schema.id in Seen(View()).schemas;
      e := ExecuteAll(RegisterRest(schema, known));
      if e.Some? { r := GiveUp(e.value); return; }
      r := CommitOrDrop(if known then AlreadyRegistered else Created);
    }

    method MigrateCollection(id: Text, from: CollectionSchema, to: CollectionSchema, callback: Callback) returns (r: Result)
      modifies `base, `open, `clock
      ensures (View(), r) == MigrateIn(old(View()), id, from, to, callback, engine)
    {
      hide ValidSchema, ValidMigration, Run, Play, Begin, Finish, Abort, MigrateOpening, RequireAll, ReshapeTo, RecordRest;
      var fromValid := ValidateCollectionSchema(from);
      if !fromValid { return Failed(InvalidSchema); }
      var toValid := ValidateCollectionSchema(to);
      if !toValid { return Failed(InvalidSchema); }
      if !ValidMigration(from, to, id) { return Failed(InvalidMigration); }
      var (begun, ok) := Begin(View(), engine);
      Set(begun);
      if !ok { return Failed(Storage); }
      var e := ExecuteAll(MigrateOpening(id, from, to));
      if e.Some? { r := GiveUp(e.value); return; }
      var known := (from.id, id) in Seen(View()).migrations;
      e := ExecuteAll(RequireAll(if known then to else from, known));
      if e.Some? { r := GiveUp(e.value); return; }
      if known { r := CommitOrDrop(AlreadyApplied); return; }
      Call(callback.changes);
      if !callback.ok { r := GiveUp(CallbackFailed); return; }
      e := ExecuteAll(ReshapeTo(from, to));
      if e.Some? { r := GiveUp(e.value); return; }
      e := ExecuteAll([UpdateSchema(to)] + RecordRest(id, from, to));
      if e.Some? { r := GiveUp(e.value); return; }
      r := CommitOrDrop(Applied);
    }
  }

  lemma {:induction false} StopsForGood(s: Session, sts: seq<Statement>, n: nat, engine: Engine)
    requires n <= |sts| && Run(s, sts[..n], engine).1.Some?
    ensures Run(s, sts, engine) == Run(s, sts[..n], engine)
    decreases |sts| - n
  {
    hide Exec;
    if n == |sts| {
      assert sts[..n] == sts;
    } else {
      assert sts[..n + 1][..n] == sts[..n];
      StopsForGood(s, sts, n + 1, engine);
    }
  }
}
