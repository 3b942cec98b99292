/** The reader pool: a stack of idle connections behind a mutex, a condition
    variable `available`, and leases that give their connection back on drop. */
module ReaderPool {
  import opened Basics

  type Connection = nat

  /** The stack discipline of the idle connections, shared by the class below and
      the steps of the machine. */
  function PopLast(idle: seq<Connection>): (seq<Connection>, Connection)
    requires idle != []
  {
    (idle[..|idle| - 1], idle[|idle| - 1])
  }

  function PushBack(idle: seq<Connection>, connection: Connection): seq<Connection> { idle + [connection] }

  /** The lock-protected part, one method per critical section. */
  class ReadPool {
    var connections: seq<Connection>
    var active: nat
    var rejectedCheckouts: nat

    constructor (connections: seq<Connection>)
      ensures this.connections == connections && active == 0 && rejectedCheckouts == 0
    {
      this.connections := connections;
      active, rejectedCheckouts := 0, 0;
    }

    /** A critical section of `checkout`: none means the caller waits on `available`. */
    method Take() returns (r: Option<Connection>)
      modifies `connections, `active
      ensures old(connections) == [] ==> r == None && connections == [] && active == old(active)
      ensures old(connections) != [] ==>
                r.Some? && (connections, r.value) == PopLast(old(connections)) && active == old(active) + 1
      ensures r.Some? ==> connections + [r.value] == old(connections)
    {
      if connections == [] { return None; }
      r := Some(connections[|connections| - 1]);
      connections := connections[..|connections| - 1];
      active := active + 1;
    }

    method TryCheckout() returns (r: Option<Connection>)
      modifies this
      ensures old(connections) == [] ==>
                r == None && connections == [] && active == old(active) && rejectedCheckouts == old(rejectedCheckouts) + 1
      ensures old(connections) != [] ==>
                && r.Some? && connections + [r.value] == old(connections) && active == old(active) + 1
                && rejectedCheckouts == old(rejectedCheckouts)
    {
      r := Take();
      if r == None { rejectedCheckouts := rejectedCheckouts + 1; }
    }

    /** The drop of a lease, before `available.notify_one()`. */
    method GiveBack(connection: Connection)
      requires active >= 1
      modifies `connections, `active
      ensures connections == PushBack(old(connections), connection) && active == old(active) - 1
      ensures connections == old(connections) + [connection]
    {
      connections := connections + [connection];
      active := active - 1;
    }
  }

  // --------------------------------------------------------------- machine

  datatype Reader = Out | Entering | Asleep | Woken | Leased(connection: Connection)

  datatype State = State(idle: seq<Connection>, active: int, rejected: nat, readers: seq<Reader>)

  /** `wake` is the sleeper that `notify_one` picks. */
  datatype Step =
    | Request(r: nat)
    | Checkout(r: nat)
    | TryCheckout(r: nat)
    | Return(r: nat, wake: Option<nat>)
    | SpuriousWake(r: nat)

  function Init(connections: seq<Connection>, readers: nat): State
  {
    State(connections, 0, 0, seq(readers, _ => Out))
  }

  predicate Is(s: State, r: nat, where: Reader)
  {
    r < |s.readers| && s.readers[r] == where
  }

  ghost predicate Enabled(s: State, step: Step)
  {
    match step
    case Request(r) => Is(s, r, Out)
    case Checkout(r) => Is(s, r, Entering) || Is(s, r, Woken)
    case TryCheckout(r) => Is(s, r, Out)
    case Return(r, wake) =>
      && r < |s.readers| && s.readers[r].Leased?
      && (match wake
          case None => forall q :: 0 <= q < |s.readers| ==> !s.readers[q].Asleep?
          case Some(q) => Is(s, q, Asleep))
    case SpuriousWake(r) => Is(s, r, Asleep)
  }

  function Put(s: State, r: nat, to: Reader): State
    requires r < |s.readers|
  {
    s.(readers := s.readers[r := to])
  }

  function Lease(s: State, r: nat): State
    requires r < |s.readers| && s.idle != []
  {
    var (rest, connection) := PopLast(s.idle);
    Put(s, r, Leased(connection)).(idle := rest, active := s.active + 1)
  }

  function Apply(s: State, step: Step): State
    requires Enabled(s, step)
  {
    match step
    case Request(r) => Put(s, r, Entering)
    case Checkout(r) => if s.idle != [] then Lease(s, r) else Put(s, r, Asleep)
    case TryCheckout(r) => if s.idle != [] then Lease(s, r) else s.(rejected := s.rejected + 1)
    case Return(r, wake) =>
      var back := Put(s, r, Out).(idle := PushBack(s.idle, s.readers[r].connection), active := s.active - 1);
      if wake.Some? then Put(back, wake.value, Woken) else back
    case SpuriousWake(r) => Put(s, r, Woken)
  }

  ghost predicate IsRun(connections: seq<Connection>, readers: nat, run: seq<State>)
  {
    && run != [] && run[0] == Init(connections, readers)
    && forall i :: 0 <= i < |run| - 1 ==> exists step :: Enabled(run[i], step) && run[i + 1] == Apply(run[i], step)
  }

  // ------------------------------------------------------------ invariants

  /** How often a connection occurs in a list. */
  function Copies(xs: seq<Connection>, x: Connection): nat
  {
    if xs == [] then 0 else Copies(xs[..|xs| - 1], x) + if xs[|xs| - 1] == x then 1 else 0
  }

  /** How many leases hold a connection. */
  function Lent(readers: seq<Reader>, x: Connection): nat
  {
    if readers == [] then 0
    else Lent(readers[..|readers| - 1], x) + LentTo(readers[|readers| - 1], x)
  }

  function LentTo(r: Reader, x: Connection): nat
  {
    if r == Leased(x) then 1 else 0
  }

  function LeaseCount(readers: seq<Reader>): nat
  {
    if readers == [] then 0
    else LeaseCount(readers[..|readers| - 1]) + if readers[|readers| - 1].Leased? then 1 else 0
  }

  function WokenCount(readers: seq<Reader>): nat
  {
    if readers == [] then 0
    else WokenCount(readers[..|readers| - 1]) + if readers[|readers| - 1].Woken? then 1 else 0
  }

  /** Idle and leased connections are the original ones, each as often as it
      was given; the counter counts the leases. */
  ghost predicate Conserved(connections: seq<Connection>, s: State)
  {
    && (forall x :: Copies(s.idle, x) + Lent(s.readers, x) == Copies(connections, x))
    && s.active == LeaseCount(s.readers) == |connections| - |s.idle|
  }

  /** While anybody sleeps un-notified, at least as many woken waiters are on
      their way as connections are idle. */
  ghost predicate Notified(s: State)
  {
    (exists r :: 0 <= r < |s.readers| && s.readers[r].Asleep?) ==> WokenCount(s.readers) >= |s.idle|
  }

  ghost predicate Safe(connections: seq<Connection>, s: State)
  {
    Conserved(connections, s) && Notified(s)
  }

  lemma {:induction false} LentPut(rs: seq<Reader>, r: nat, to: Reader, x: Connection)
    requires r < |rs|
    ensures LentTo(rs[r], x) <= Lent(rs, x)
    ensures Lent(rs[r := to], x) == Lent(rs, x) - LentTo(rs[r], x) + LentTo(to, x)
  {
    hide LentTo;
    var n := |rs| - 1;
    if r == n {
      assert rs[r := to][..n] == rs[..n];
    } else {
      assert rs[r := to][..n] == rs[..n][r := to];
      LentPut(rs[..n], r, to, x);
    }
  }

  lemma {:induction false} LeaseCountPut(rs: seq<Reader>, r: nat, to: Reader)
    requires r < |rs|
    ensures LeaseCount(rs[r := to])
         == LeaseCount(rs) - (if rs[r].Leased? then 1 else 0) + if to.Leased? then 1 else 0
  {
    var n := |rs| - 1;
    if r == n {
      assert rs[r := to][..n] == rs[..n];
    } else {
      assert rs[r := to][..n] == rs[..n][r := to];
      LeaseCountPut(rs[..n], r, to);
    }
  }

  lemma {:induction false} CopiesSnoc(xs: seq<Connection>, last: Connection, x: Connection)
    ensures Copies(xs + [last], x) == Copies(xs, x) + if last == x then 1 else 0
  {
    assert (xs + [last])[..|xs|] == xs;
  }

  lemma {:induction false} WokenPut(rs: seq<Reader>, r: nat, to: Reader)
    requires r < |rs|
    ensures WokenCount(rs[r := to])
         == WokenCount(rs) - (if rs[r].Woken? then 1 else 0) + if to.Woken? then 1 else 0
  {
    var n := |rs| - 1;
    if r == n {
      assert rs[r := to][..n] == rs[..n];
    } else {
      assert rs[r := to][..n] == rs[..n][r := to];
      WokenPut(rs[..n], r, to);
    }
  }

  lemma {:induction false} NobodyLent(rs: seq<Reader>, x: Connection)
    requires forall i :: 0 <= i < |rs| ==> !rs[i].Leased?
    ensures Lent(rs, x) == 0 && LeaseCount(rs) == 0
  {
    if rs != [] { NobodyLent(rs[..|rs| - 1], x); }
  }

  lemma {:induction false} PutConserves(connections: seq<Connection>, s: State, r: nat, to: Reader)
    requires Conserved(connections, s) && r < |s.readers| && !s.readers[r].Leased? && !to.Leased?
    ensures Conserved(connections, Put(s, r, to))
  {
    hide LeaseCount, Lent, Copies;
    LeaseCountPut(s.readers, r, to);
    forall x ensures Lent(Put(s, r, to).readers, x) == Lent(s.readers, x) {
      LentPut(s.readers, r, to, x);
    }
  }

  lemma {:induction false} LeaseConserves(connections: seq<Connection>, s: State, r: nat)
    requires Conserved(connections, s) && r < |s.readers| && !s.readers[r].Leased? && s.idle != []
    ensures Conserved(connections, Lease(s, r))
  {
    hide LeaseCount, Lent, Copies;
    var last := |s.idle| - 1;
    var y := s.idle[last];
    var t := Lease(s, r);
    LeaseCountPut(s.readers, r, Leased(y));
    assert s.idle == s.idle[..last] + [y];
    forall x ensures Copies(t.idle, x) + Lent(t.readers, x) == Copies(connections, x) {
      LentPut(s.readers, r, Leased(y), x);
      CopiesSnoc(s.idle[..last], y, x);
    }
  }

  lemma {:induction false} ReturnConserves(connections: seq<Connection>, s: State, r: nat, wake: Option<nat>)
    requires Conserved(connections, s) && Enabled(s, Return(r, wake))
    ensures Conserved(connections, Apply(s, Return(r, wake)))
  {
    var y := s.readers[r].connection;
    var back := Put(s, r, Out).(idle := s.idle + [y], active := s.active - 1);
    LeaseCountPut(s.readers, r, Out);
    assert Conserved(connections, back) by {
      hide LeaseCount, Lent, Copies;
      forall x ensures Copies(back.idle, x) + Lent(back.readers, x) == Copies(connections, x) {
        LentPut(s.readers, r, Out, x);
        CopiesSnoc(s.idle, y, x);
      }
    }
    hide Conserved;
    if wake.Some? {
      PutConserves(connections, back, wake.value, Woken);
    }
  }

  lemma {:induction false} StepConserves(connections: seq<Connection>, s: State, step: Step)
    requires Conserved(connections, s) && Enabled(s, step)
    ensures Conserved(connections, Apply(s, step))
  {
    hide Conserved;
    match step
    case Request(r) => PutConserves(connections, s, r, Entering);
    case Checkout(r) =>
      if s.idle != [] { LeaseConserves(connections, s, r); } else { PutConserves(connections, s, r, Asleep); }
    case TryCheckout(r) =>
      if s.idle != [] { LeaseConserves(connections, s, r); } else { RejectionConserves(connections, s); }
    case Return(r, wake) => ReturnConserves(connections, s, r, wake);
    case SpuriousWake(r) => PutConserves(connections, s, r, Woken);
  }

  lemma {:induction false} RejectionConserves(connections: seq<Connection>, s: State)
    requires Conserved(connections, s)
    ensures Conserved(connections, s.(rejected := s.rejected + 1))
  {}

  lemma {:induction false} StepNotifies(s: State, step: Step)
    requires Notified(s) && Enabled(s, step)
    ensures Notified(Apply(s, step))
  {
    hide WokenCount;
    var t := Apply(s, step);
    WokenPut(s.readers, step.r, t.readers[step.r]);
    if step.Return? && step.wake.Some? {
      WokenPut(s.readers[step.r := Out], step.wake.value, Woken);
    } else {
      assert t.readers == s.readers[step.r := t.readers[step.r]];
    }
    if q :| 0 <= q < |t.readers| && t.readers[q].Asleep? {
      assert s.readers[q].Asleep? || s.idle == [];
    }
  }

  lemma {:induction false} StepKeepsSafe(connections: seq<Connection>, s: State, step: Step)
    requires Safe(connections, s) && Enabled(s, step)
    ensures Safe(connections, Apply(s, step))
  {
    hide Apply, Enabled, Conserved, Notified;
    StepConserves(connections, s, step);
    StepNotifies(s, step);
  }

  lemma {:induction false} InitSafe(connections: seq<Connection>, readers: nat)
    ensures Safe(connections, Init(connections, readers))
  {
    hide Lent, LeaseCount, Copies, WokenCount;
    var s := Init(connections, readers);
    NobodyLent(s.readers, 0);
    forall x ensures Lent(s.readers, x) == 0 {
      NobodyLent(s.readers, x);
    }
  }

  /** Over every interleaving: conservation, the count, and enough wakeups. */
  lemma {:induction false} AlwaysSafe(connections: seq<Connection>, readers: nat, run: seq<State>, i: nat)
    requires IsRun(connections, readers, run) && i < |run|
    ensures Safe(connections, run[i])
  {
    if i == 0 {
      InitSafe(connections, readers);
    } else {
      AlwaysSafe(connections, readers, run, i - 1);
      var step :| Enabled(run[i - 1], step) && run[i] == Apply(run[i - 1], step);
      hide Safe, Enabled, Apply;
      StepKeepsSafe(connections, run[i - 1], step);
    }
  }

  lemma {:induction false} LentTwice(rs: seq<Reader>, a: nat, b: nat, x: Connection)
    requires a < b < |rs| && rs[a] == rs[b] == Leased(x)
    ensures Lent(rs, x) >= 2
  {
    var n := |rs| - 1;
    if b == n {
      assert rs[..n][a] == rs[a];
      LentPut(rs[..n], a, Out, x);
    } else {
      LentTwice(rs[..n], a, b, x);
    }
  }

  lemma {:induction false} CopiesPositive(xs: seq<Connection>, x: Connection)
    ensures Copies(xs, x) > 0 <==> x in xs
  {
    if xs != [] {
      CopiesPositive(xs[..|xs| - 1], x);
      assert xs == xs[..|xs| - 1] + [xs[|xs| - 1]];
    }
  }

  lemma {:induction false} DistinctOnce(xs: seq<Connection>, x: Connection)
    requires forall i, j :: 0 <= i < j < |xs| ==> xs[i] != xs[j]
    ensures Copies(xs, x) <= 1
  {
    if xs != [] {
      DistinctOnce(xs[..|xs| - 1], x);
      CopiesPositive(xs[..|xs| - 1], x);
    }
  }

  /** Distinct connections are never leased twice and never leased while idle. */
  lemma {:induction false} LeasesAreExclusive(connections: seq<Connection>, s: State, a: nat)
    requires Conserved(connections, s) && (forall i, j :: 0 <= i < j < |connections| ==> connections[i] != connections[j])
    requires a < |s.readers| && s.readers[a].Leased?
    ensures s.readers[a].connection in connections && s.readers[a].connection !in s.idle
    ensures forall b :: 0 <= b < |s.readers| && b != a ==> s.readers[b] != s.readers[a]
  {
    hide Copies, Lent;
    var x := s.readers[a].connection;
    DistinctOnce(connections, x);
    CopiesPositive(connections, x);
    CopiesPositive(s.idle, x);
    LentPut(s.readers, a, Out, x);
    forall b | 0 <= b < |s.readers| && b != a ensures s.readers[b] != s.readers[a] {
      if s.readers[b] == s.readers[a] {
        if a < b { LentTwice(s.readers, a, b, x); } else { LentTwice(s.readers, b, a, x); }
        assert false;
      }
    }
  }

  /** A checkout takes the connection on top of the stack; without one, `checkout`
      sleeps and `try_checkout` is refused and counted. */
  lemma {:induction false} CheckoutExactly(s: State, r: nat)
    ensures forall step :: (step == Checkout(r) || step == TryCheckout(r)) && Enabled(s, step) && s.idle != [] ==>
              var n := |s.idle| - 1;
              Apply(s, step) == State(s.idle[..n], s.active + 1, s.rejected, s.readers[r := Leased(s.idle[n])])
    ensures Enabled(s, Checkout(r)) && s.idle == [] ==>
              Apply(s, Checkout(r)) == State([], s.active, s.rejected, s.readers[r := Asleep])
    ensures Enabled(s, TryCheckout(r)) && s.idle == [] ==>
              Apply(s, TryCheckout(r)) == State([], s.active, s.rejected + 1, s.readers)
  {}

  /** The connection given back last goes out first. */
  lemma {:induction false} LastBackFirstOut(s: State, r: nat, wake: Option<nat>, q: nat)
    requires Enabled(s, Return(r, wake)) && Enabled(Apply(s, Return(r, wake)), Checkout(q))
    ensures var t := Apply(s, Return(r, wake));
            && t.idle == s.idle + [s.readers[r].connection] && t.readers[r] == Out && t.active == s.active - 1
            && (wake.Some? ==> t.readers[wake.value] == Woken)
            && Apply(t, Checkout(q)).readers[q] == Leased(s.readers[r].connection)
            && Apply(t, Checkout(q)).idle == s.idle
  {
    var t := Apply(s, Return(r, wake));
    CheckoutExactly(t, q);
    assert t.idle[..|t.idle| - 1] == s.idle;
  }

  // -------------------------------------------------------------- progress

  predicate IsProgress(step: Step) { step.Checkout? || step.Return? }

  ghost predicate Quiet(s: State)
  {
    forall step :: IsProgress(step) ==> !Enabled(s, step)
  }

  lemma {:induction false} NoneWoken(rs: seq<Reader>)
    requires forall i :: 0 <= i < |rs| ==> !rs[i].Woken? && !rs[i].Leased?
    ensures WokenCount(rs) == 0
  {
    if rs != [] { NoneWoken(rs[..|rs| - 1]); }
  }

  lemma {:induction false} LeaseCanEnd(s: State, r: nat)
    requires r < |s.readers| && s.readers[r].Leased?
    ensures exists step :: IsProgress(step) && Enabled(s, step)
  {
    if q :| 0 <= q < |s.readers| && s.readers[q].Asleep? {
      assert IsProgress(Return(r, Some(q))) && Enabled(s, Return(r, Some(q)));
    } else {
      assert IsProgress(Return(r, None)) && Enabled(s, Return(r, None));
    }
  }

  /** When no checkout and no return is possible, nobody waits and every
      connection is back. */
  lemma {:induction false} NobodyStuck(connections: seq<Connection>, s: State)
    requires connections != [] && Safe(connections, s) && Quiet(s)
    ensures forall r :: 0 <= r < |s.readers| ==> s.readers[r].Out?
    ensures s.active == 0 && forall x :: Copies(s.idle, x) == Copies(connections, x)
  {
    forall r | 0 <= r < |s.readers| ensures s.readers[r].Out? || s.readers[r].Asleep? {
      assert !Enabled(s, Checkout(r));
      if s.readers[r].Leased? {
        LeaseCanEnd(s, r);
      }
    }
    NoneWoken(s.readers);
    hide Quiet, Copies, Lent, LeaseCount, WokenCount;
    forall x ensures Lent(s.readers, x) == 0 && LeaseCount(s.readers) == 0 {
      NobodyLent(s.readers, x);
    }
    assert Lent(s.readers, 0) == 0;
  }

  function Weight(r: Reader): nat
  {
    match r
    case Out => 0
    case Leased(_) => 2
    case Asleep => 2
    case Woken => 3
    case Entering => 4
  }

  function Potential(rs: seq<Reader>): nat
  {
    if rs == [] then 0 else Potential(rs[..|rs| - 1]) + Weight(rs[|rs| - 1])
  }

  lemma {:induction false} PotentialPut(rs: seq<Reader>, r: nat, to: Reader)
    requires r < |rs|
    ensures Potential(rs[r := to]) == Potential(rs) - Weight(rs[r]) + Weight(to)
  {
    hide Weight;
    var n := |rs| - 1;
    if r == n {
      assert rs[r := to][..n] == rs[..n];
    } else {
      assert rs[r := to][..n] == rs[..n][r := to];
      PotentialPut(rs[..n], r, to);
    }
  }

  /** What an outside event may add to the potential. */
  function Allowance(step: Step): nat
  {
    match step
    case Request(_) => 4
    case TryCheckout(_) => 2
    case SpuriousWake(_) => 1
    case _ => 0
  }

  /** Every checkout and return spends potential, so between two outside events
      (a new request, a wakeup without reason) there are only finitely many. */
  lemma {:induction false} StepsPay(s: State, step: Step)
    requires Enabled(s, step)
    ensures Potential(Apply(s, step).readers) + (if IsProgress(step) then 1 else 0)
         <= Potential(s.readers) + Allowance(step)
  {
    hide Potential;
    var t := Apply(s, step);
    PotentialPut(s.readers, step.r, t.readers[step.r]);
    if step.Return? && step.wake.Some? {
      PotentialPut(s.readers[step.r := Out], step.wake.value, Woken);
    } else {
      assert t.readers == s.readers[step.r := t.readers[step.r]];
    }
  }
}
