/** The synchronous calls of one pool, made from anywhere: application threads,
    read callbacks and writer callbacks. The two re-entrancy checks are all that
    keeps a thread from waiting for itself; they suffice. */
module PoolCalls {
  import opened Basics

  // ------------------------------------------------- the thread-local stack

  /** `READ_CALLBACK_POOLS` of one thread. */
  class CallbackStack {
    var pools: seq<nat>

    constructor ()
      ensures pools == []
    {
      pools := [];
    }

    ghost predicate Valid()
      reads this
    {
      forall i, j :: 0 <= i < j < |pools| ==> pools[i] != pools[j]
    }

    /** Refused exactly when the thread is already inside a read of this pool. */
    method Enter(pool: nat) returns (entered: bool)
      requires Valid()
      modifies this
      ensures Valid() && (entered <==> pool !in old(pools))
      ensures pools == if entered then old(pools) + [pool] else old(pools)
    {
      entered := pool !in pools;
      if entered { pools := pools + [pool]; }
    }

    /** The guard's drop: takes out this pool and keeps the others in order. */
    method Leave(pool: nat)
      requires Valid()
      modifies this
      ensures Valid() && pool !in pools
      ensures pool !in old(pools) ==> pools == old(pools)
      ensures forall i :: 0 <= i < |old(pools)| && old(pools)[i] == pool ==>
                pools == old(pools)[..i] + old(pools)[i + 1..]
    {
      var at := |pools|;
      while at > 0 && pools[at - 1] != pool
        invariant 0 <= at <= |pools|
        invariant forall i :: at <= i < |pools| ==> pools[i] != pool
      {
        at := at - 1;
      }
      if at > 0 {
        pools := pools[..at - 1] + pools[at..];
      }
    }
  }

  // --------------------------------------------------------------- machine

  datatype Config = Config(readers: nat, capacity: nat)
  {
    predicate Valid() { readers >= 1 && capacity >= 1 }
  }

  datatype Block = Free | OnReaders | OnQueue | OnWriter

  /** `inRead`: the pool is on the thread's callback stack. */
  datatype Thread = Thread(inRead: bool, leases: nat, block: Block)

  /** Thread 0 is the writer. `queue` and `jobs` name the submitters of the
      queued and of the running jobs. */
  datatype State = State(threads: seq<Thread>, idle: nat, queue: seq<nat>, jobs: seq<nat>)

  const WRITER: nat := 0

  datatype Step =
    | Read(t: nat)
    | TryRead(t: nat)
    | Grant(t: nat)
    | EndRead(t: nat)
    | Write(t: nat)
    | Admit(t: nat)
    | Refuse(t: nat)
    | Pick(n: nat)
    | Finish

  function Init(c: Config, threads: nat): State
  {
    State(seq(threads + 1, _ => Thread(false, 0, Free)), c.readers, [], [])
  }

  /** The thread runs code that may call the pool: any application thread that is
      not blocked, and the writer inside a callback. */
  predicate Calling(s: State, t: nat)
  {
    t < |s.threads| && s.threads[t].block == Free && (t == WRITER ==> s.jobs != [])
  }

  predicate Enabled(c: Config, s: State, step: Step)
  {
    match step
    case Read(t) => Calling(s, t)
    case TryRead(t) => Calling(s, t)
    case Write(t) => Calling(s, t)
    case Grant(t) => t < |s.threads| && s.threads[t].block == OnReaders && s.idle > 0
    case EndRead(t) => t < |s.threads| && s.threads[t].block == Free && s.threads[t].leases > 0
    case Admit(t) => t < |s.threads| && s.threads[t].block == OnQueue && |s.queue| < c.capacity
    case Refuse(t) => t < |s.threads| && s.threads[t].block == OnQueue
    case Pick(n) =>
      |s.threads| > 0 && s.threads[WRITER].block == Free && s.jobs == [] && 1 <= n <= |s.queue|
    case Finish =>
      |s.threads| > 0 && s.threads[WRITER].block == Free && s.threads[WRITER].leases == 0 && s.jobs != []
  }

  function Put(s: State, t: nat, to: Thread): State
    requires t < |s.threads|
  {
    s.(threads := s.threads[t := to])
  }

  /** The submitters of the finished jobs get their responses. */
  function Answer(threads: seq<Thread>, jobs: seq<nat>): (r: seq<Thread>)
    ensures |r| == |threads|
    ensures forall t :: 0 <= t < |threads| ==> r[t] == if t in jobs then threads[t].(block := Free) else threads[t]
  {
    seq(|threads|, t requires 0 <= t < |threads| => if t in jobs then threads[t].(block := Free) else threads[t])
  }

  /** A refused call (re-entrant, exhausted) returns an error and changes nothing. */
  function Apply(c: Config, s: State, step: Step): State
    requires Enabled(c, s, step)
  {
    match step
    case Read(t) =>
      if s.threads[t].inRead then s else Put(s, t, s.threads[t].(inRead := true, block := OnReaders))
    case TryRead(t) =>
      if s.threads[t].inRead || s.idle == 0 then s
      else Put(s, t, s.threads[t].(inRead := true, leases := s.threads[t].leases + 1)).(idle := s.idle - 1)
    case Grant(t) =>
      Put(s, t, s.threads[t].(leases := s.threads[t].leases + 1, block := Free)).(idle := s.idle - 1)
    case EndRead(t) =>
      Put(s, t, s.threads[t].(inRead := false, leases := s.threads[t].leases - 1)).(idle := s.idle + 1)
    case Write(t) =>
      if t == WRITER || s.threads[t].inRead then s else Put(s, t, s.threads[t].(block := OnQueue))
    case Admit(t) => Put(s, t, s.threads[t].(block := OnWriter)).(queue := s.queue + [t])
    case Refuse(t) => Put(s, t, s.threads[t].(block := Free))
    case Pick(n) => s.(jobs := s.queue[..n], queue := s.queue[n..])
    case Finish => s.(jobs := [], threads := Answer(s.threads, s.jobs))
  }

  /** Which calls are refused: a read inside a read of the pool, a `try_read` also
      when nothing is idle, and a write from the writer or inside a read. Every
      other call goes through: it leases, or waits for readers or queue. */
  lemma {:induction false} RefusedExactly(c: Config, s: State, t: nat)
    requires Calling(s, t)
    ensures var me := s.threads[t];
            && Apply(c, s, Read(t))
               == (if me.inRead then s else s.(threads := s.threads[t := me.(inRead := true, block := OnReaders)]))
            && Apply(c, s, TryRead(t))
               == (if me.inRead || s.idle == 0 then s
                   else s.(threads := s.threads[t := me.(inRead := true, leases := me.leases + 1)], idle := s.idle - 1))
            && Apply(c, s, Write(t))
               == (if t == 0 || me.inRead then s else s.(threads := s.threads[t := me.(block := OnQueue)]))
  {}

  /** Granting gives the waiting reader its lease, ending the read gives it back,
      and finishing the jobs frees exactly their submitters. */
  lemma {:induction false} WaitsEnd(c: Config, s: State, t: nat)
    ensures Enabled(c, s, Grant(t)) ==>
              var me := s.threads[t];
              Apply(c, s, Grant(t))
              == s.(threads := s.threads[t := me.(leases := me.leases + 1, block := Free)], idle := s.idle - 1)
    ensures Enabled(c, s, EndRead(t)) ==>
              var me := s.threads[t];
              Apply(c, s, EndRead(t))
              == s.(threads := s.threads[t := me.(inRead := false, leases := me.leases - 1)], idle := s.idle + 1)
    ensures Enabled(c, s, Finish) && t < |s.threads| ==>
              && Apply(c, s, Finish).jobs == [] && Apply(c, s, Finish).queue == s.queue
              && Apply(c, s, Finish).threads[t] == if t in s.jobs then s.threads[t].(block := Free) else s.threads[t]
  {}

  ghost predicate IsRun(c: Config, threads: nat, run: seq<State>)
  {
    && run != [] && run[0] == Init(c, threads)
    && forall i :: 0 <= i < |run| - 1 ==> exists step :: Enabled(c, run[i], step) && run[i + 1] == Apply(c, run[i], step)
  }

  // ------------------------------------------------------------ invariants

  function Leases(threads: seq<Thread>): nat
  {
    if threads == [] then 0 else Leases(threads[..|threads| - 1]) + threads[|threads| - 1].leases
  }

  /** A thread inside a read either waits for its one lease or holds it, unblocked. */
  predicate ThreadSafe(t: Thread)
  {
    && (t.leases > 0 ==> t.block == Free)
    && t.leases == (if t.inRead && t.block == Free then 1 else 0)
    && (t.inRead ==> t.block == Free || t.block == OnReaders)
    && (t.block == OnReaders ==> t.inRead)
  }

  ghost predicate Safe(c: Config, s: State)
  {
    && |s.threads| > 0
    && s.idle + Leases(s.threads) == c.readers
    && (forall t :: 0 <= t < |s.threads| ==> ThreadSafe(s.threads[t]))
    && s.threads[WRITER].block != OnQueue && s.threads[WRITER].block != OnWriter
    && (forall t :: 0 <= t < |s.threads| && s.threads[t].block == OnWriter ==> t in s.queue || t in s.jobs)
    && (forall t :: t in s.jobs ==> t < |s.threads| && s.threads[t].block == OnWriter)
    && (forall t :: t in s.queue ==> t < |s.threads| && s.threads[t].block == OnWriter)
    && (forall t :: t in s.jobs ==> t !in s.queue)
    && (forall i, j :: 0 <= i < j < |s.queue| ==> s.queue[i] != s.queue[j])
  }

  lemma {:induction false} LeasesPut(ts: seq<Thread>, t: nat, to: Thread)
    requires t < |ts|
    ensures Leases(ts) >= ts[t].leases
    ensures Leases(ts[t := to]) == Leases(ts) - ts[t].leases + to.leases
  {
    var n := |ts| - 1;
    if t == n {
      assert ts[t := to][..n] == ts[..n];
    } else {
      assert ts[t := to][..n] == ts[..n][t := to];
      LeasesPut(ts[..n], t, to);
    }
  }

  lemma {:induction false} LeasesSame(ts: seq<Thread>, us: seq<Thread>)
    requires |ts| == |us| && forall i :: 0 <= i < |ts| ==> ts[i].leases == us[i].leases
    ensures Leases(ts) == Leases(us)
  {
    if ts != [] { LeasesSame(ts[..|ts| - 1], us[..|us| - 1]); }
  }

  lemma {:induction false} SomeHolder(ts: seq<Thread>) returns (t: nat)
    requires Leases(ts) > 0
    ensures t < |ts| && ts[t].leases > 0
  {
    var n := |ts| - 1;
    if ts[n].leases > 0 { t := n; } else { t := SomeHolder(ts[..n]); }
  }

  lemma {:induction false} NoLeases(ts: seq<Thread>)
    requires forall i :: 0 <= i < |ts| ==> ts[i].leases == 0
    ensures Leases(ts) == 0
  {
    if ts != [] { NoLeases(ts[..|ts| - 1]); }
  }

  /** One thread changes, without waiting for the writer before or after. */
  lemma {:induction false} PutKeepsSafe(c: Config, s: State, t: nat, to: Thread, idle: nat)
    requires Safe(c, s) && t < |s.threads| && ThreadSafe(to)
    requires s.threads[t].block != OnWriter && to.block != OnWriter && (t == WRITER ==> to.block != OnQueue)
    requires idle + to.leases == s.idle + s.threads[t].leases
    ensures Safe(c, Put(s, t, to).(idle := idle))
  {
    hide Leases, ThreadSafe;
    LeasesPut(s.threads, t, to);
  }

  lemma {:induction false} ThreadStepKeepsSafe(c: Config, s: State, step: Step)
    requires Safe(c, s) && Enabled(c, s, step) && !step.Pick? && !step.Finish? && !step.Admit?
    ensures Safe(c, Apply(c, s, step))
  {
    var r := Apply(c, s, step);
    assert ThreadSafe(s.threads[step.t]);
    hide Safe;
    if r != s {
      assert r == Put(s, step.t, r.threads[step.t]).(idle := r.idle);
      PutKeepsSafe(c, s, step.t, r.threads[step.t], r.idle);
    }
  }

  lemma {:induction false} AdmitKeepsSafe(c: Config, s: State, t: nat)
    requires Safe(c, s) && Enabled(c, s, Admit(t))
    ensures Safe(c, Apply(c, s, Admit(t)))
  {
    hide Leases;
    var r := Apply(c, s, Admit(t));
    LeasesPut(s.threads, t, r.threads[t]);
    assert t !in s.queue && t !in s.jobs;
  }

  lemma {:induction false} PickKeepsSafe(c: Config, s: State, n: nat)
    requires Safe(c, s) && Enabled(c, s, Pick(n))
    ensures Safe(c, Apply(c, s, Pick(n)))
  {
    hide Leases, ThreadSafe;
    var first, rest := s.queue[..n], s.queue[n..];
    forall t ensures t in s.queue <==> t in first || t in rest {
      assert s.queue == first + rest;
    }
    forall t | t in first ensures t !in rest {
      var i :| 0 <= i < n && s.queue[i] == t;
      assert forall j :: 0 <= j < |rest| ==> rest[j] == s.queue[n + j];
    }
  }

  lemma {:induction false} FinishKeepsSafe(c: Config, s: State)
    requires Safe(c, s) && Enabled(c, s, Finish)
    ensures Safe(c, Apply(c, s, Finish))
  {
    hide Leases;
    var r := Apply(c, s, Finish);
    LeasesSame(s.threads, r.threads);
  }

  lemma {:induction false} StepKeepsSafe(c: Config, s: State, step: Step)
    requires Safe(c, s) && Enabled(c, s, step)
    ensures Safe(c, Apply(c, s, step))
  {
    hide Safe, Enabled, Apply;
    if step.Pick? {
      PickKeepsSafe(c, s, step.n);
    } else if step.Finish? {
      FinishKeepsSafe(c, s);
    } else if step.Admit? {
      AdmitKeepsSafe(c, s, step.t);
    } else {
      ThreadStepKeepsSafe(c, s, step);
    }
  }

  lemma {:induction false} AlwaysSafe(c: Config, threads: nat, run: seq<State>, i: nat)
    requires IsRun(c, threads, run) && i < |run|
    ensures Safe(c, run[i])
  {
    if i == 0 {
      NoLeases(run[0].threads);
    } else {
      AlwaysSafe(c, threads, run, i - 1);
      var step :| Enabled(c, run[i - 1], step) && run[i] == Apply(c, run[i - 1], step);
      hide Safe, Enabled, Apply;
      StepKeepsSafe(c, run[i - 1], step);
    }
  }

  // ---------------------------------------------------------- wait-for graph

  predicate Blocked(s: State, t: nat) { t < |s.threads| && s.threads[t].block != Free }

  /** A blocked submitter waits for the writer; a blocked reader, when no
      connection is idle, for every lease holder. */
  ghost predicate WaitsFor(s: State, a: nat, b: nat)
  {
    && a < |s.threads| && b < |s.threads|
    && match s.threads[a].block
       case Free => false
       case OnReaders => s.idle == 0 && s.threads[b].leases > 0
       case OnQueue => b == WRITER
       case OnWriter => b == WRITER
  }

  function Rank(t: Thread): nat
  {
    match t.block
    case Free => 0
    case OnReaders => 1
    case OnQueue => 2
    case OnWriter => 2
  }

  /** A lease holder never blocks, so the graph descends in rank. */
  lemma {:induction false} WaitingDescends(c: Config, s: State, a: nat, b: nat)
    requires Safe(c, s) && WaitsFor(s, a, b)
    ensures Rank(s.threads[b]) < Rank(s.threads[a])
  {
    assert ThreadSafe(s.threads[b]);
  }

  ghost predicate IsWaitPath(s: State, path: seq<nat>)
  {
    && path != [] && path[0] < |s.threads|
    && forall i :: 0 <= i < |path| - 1 ==> WaitsFor(s, path[i], path[i + 1])
  }

  lemma {:induction false} PathsDescend(c: Config, s: State, path: seq<nat>)
    requires Safe(c, s) && IsWaitPath(s, path)
    ensures path[|path| - 1] < |s.threads|
    ensures Rank(s.threads[path[|path| - 1]]) + |path| - 1 <= Rank(s.threads[path[0]])
  {
    if |path| > 1 {
      var n := |path| - 1;
      PathsDescend(c, s, path[..n]);
      assert WaitsFor(s, path[n - 1], path[n]);
      hide Safe;
      WaitingDescends(c, s, path[n - 1], path[n]);
    }
  }

  /** In every reachable state nobody waits, directly or indirectly, for
      himself, and no chain has more than two waits: submitter, writer, lease holder. */
  lemma {:induction false} NoWaitCycle(c: Config, threads: nat, run: seq<State>, i: nat, path: seq<nat>)
    requires IsRun(c, threads, run) && i < |run| && IsWaitPath(run[i], path)
    ensures |path| <= 3
    ensures |path| > 1 ==> path[0] != path[|path| - 1]
    ensures forall t :: 0 <= t < |run[i].threads| && run[i].threads[t].leases > 0 ==> !Blocked(run[i], t)
  {
    hide IsRun;
    AlwaysSafe(c, threads, run, i);
    PathsDescend(c, run[i], path);
    assert forall t :: 0 <= t < |run[i].threads| ==> ThreadSafe(run[i].threads[t]);
  }

  // -------------------------------------------------------------- progress

  /** Steps that end a wait, a callback or a job; user code is assumed to return. */
  predicate IsProgress(step: Step)
  {
    step.Grant? || step.EndRead? || step.Admit? || step.Pick? || step.Finish?
  }

  ghost predicate Quiet(c: Config, s: State)
  {
    forall step :: IsProgress(step) ==> !Enabled(c, s, step)
  }

  lemma {:induction false} HolderCanEnd(c: Config, s: State)
    requires Safe(c, s) && Leases(s.threads) > 0
    ensures !Quiet(c, s)
  {
    var h := SomeHolder(s.threads);
    assert ThreadSafe(s.threads[h]);
    assert IsProgress(EndRead(h)) && Enabled(c, s, EndRead(h));
  }

  /** When no wait, callback or job can end, no thread is blocked. */
  lemma {:induction false} NobodyStuck(c: Config, s: State, t: nat)
    requires c.Valid() && Safe(c, s) && Quiet(c, s)
    ensures !Blocked(s, t)
  {
    hide Leases;
    if Leases(s.threads) > 0 {
      HolderCanEnd(c, s);
    }
    assert ThreadSafe(s.threads[WRITER]);
    LeasesPut(s.threads, WRITER, s.threads[WRITER]);
    assert !Enabled(c, s, Grant(WRITER)) && !Enabled(c, s, Finish) && !Enabled(c, s, Pick(1));
    assert s.jobs == [] && s.queue == [];
    assert !Enabled(c, s, Grant(t)) && !Enabled(c, s, Admit(t));
  }

  // ------------------------------------------------------------- potential

  function Weight(t: Thread): nat
  {
    t.leases + match t.block case Free => 0 case OnReaders => 2 case OnQueue => 4 case OnWriter => 1
  }

  function Total(threads: seq<Thread>): nat
  {
    if threads == [] then 0 else Total(threads[..|threads| - 1]) + Weight(threads[|threads| - 1])
  }

  function Potential(s: State): nat { Total(s.threads) + 2 * |s.queue| + |s.jobs| }

  lemma {:induction false} TotalPut(ts: seq<Thread>, t: nat, to: Thread)
    requires t < |ts|
    ensures Total(ts[t := to]) == Total(ts) - Weight(ts[t]) + Weight(to)
  {
    hide Weight;
    var n := |ts| - 1;
    if t == n {
      assert ts[t := to][..n] == ts[..n];
    } else {
      assert ts[t := to][..n] == ts[..n][t := to];
      TotalPut(ts[..n], t, to);
    }
  }

  lemma {:induction false} TotalFalls(ts: seq<Thread>, us: seq<Thread>)
    requires |ts| == |us| && forall i :: 0 <= i < |ts| ==> Weight(us[i]) <= Weight(ts[i])
    ensures Total(us) <= Total(ts)
  {
    hide Weight;
    if ts != [] { TotalFalls(ts[..|ts| - 1], us[..|us| - 1]); }
  }

  /** What a new call may add to the potential. */
  function Allowance(step: Step): nat
  {
    match step
    case Read(_) => 2
    case TryRead(_) => 1
    case Write(_) => 4
    case _ => 0
  }

  /** Every step that ends a wait, a callback or a job spends potential; only new
      calls add some. */
  lemma {:induction false} StepsPay(c: Config, s: State, step: Step)
    requires Enabled(c, s, step)
    ensures Potential(Apply(c, s, step)) + (if IsProgress(step) then 1 else 0) <= Potential(s) + Allowance(step)
  {
    hide Total;
    var r := Apply(c, s, step);
    if step.Finish? {
      TotalFalls(s.threads, r.threads);
    } else if !step.Pick? {
      TotalPut(s.threads, step.t, r.threads[step.t]);
      assert r.threads == s.threads[step.t := r.threads[step.t]];
    }
  }

  /** A stretch of a run: states and the steps between them. */
  ghost predicate IsStretch(c: Config, states: seq<State>, steps: seq<Step>)
  {
    && |states| == |steps| + 1
    && forall i :: 0 <= i < |steps| ==> Enabled(c, states[i], steps[i]) && states[i + 1] == Apply(c, states[i], steps[i])
  }

  function ProgressSteps(steps: seq<Step>): nat
  {
    if steps == [] then 0
    else ProgressSteps(steps[..|steps| - 1]) + if IsProgress(steps[|steps| - 1]) then 1 else 0
  }

  function Allowances(steps: seq<Step>): nat
  {
    if steps == [] then 0 else Allowances(steps[..|steps| - 1]) + Allowance(steps[|steps| - 1])
  }

  lemma {:induction false} StretchPays(c: Config, states: seq<State>, steps: seq<Step>)
    requires IsStretch(c, states, steps) && Safe(c, states[0])
    ensures Safe(c, states[|steps|])
    ensures Potential(states[|steps|]) + ProgressSteps(steps) <= Potential(states[0]) + Allowances(steps)
  {
    hide Safe, Potential, Enabled, Apply, Allowance, IsProgress;
    if steps != [] {
      var n := |steps| - 1;
      StretchPays(c, states[..n + 1], steps[..n]);
      StepsPay(c, states[n], steps[n]);
      StepKeepsSafe(c, states[n], steps[n]);
    }
  }

  /** From a reachable state, waits, callbacks and jobs end after at most as many
      steps as the potential and the new calls allow, and then nobody is blocked. */
  lemma {:induction false} EveryCallEnds(c: Config, states: seq<State>, steps: seq<Step>, t: nat)
    requires c.Valid() && IsStretch(c, states, steps) && Safe(c, states[0])
    ensures ProgressSteps(steps) <= Potential(states[0]) + Allowances(steps)
    ensures Quiet(c, states[|steps|]) ==> !Blocked(states[|steps|], t)
  {
    hide Safe, Potential, Quiet, ProgressSteps, Allowances;
    StretchPays(c, states, steps);
    if Quiet(c, states[|steps|]) {
      NobodyStuck(c, states[|steps|], t);
    }
  }
}
