/** Group commit: adjacent write jobs share one transaction, each inside its
    own savepoint. The engine is any connection that keeps a committed state, a
    working state and a stack of savepoints, and may refuse any operation. */
module GroupCommit {
  import opened Basics

  datatype Error = Error(code: nat)
  datatype Result<T> = Ok(value: T) | Err(error: Error)
  datatype Status = Fine | Failed(error: Error)

  /** What a statement does when it succeeds: the new state and its row count. */
  datatype Statement<!D> = Statement(run: D -> (D, nat))
  type Job<!D> = seq<Statement<D>>

  datatype Savepoint<D> = Savepoint(name: string, saved: D)
  datatype Transaction<D> = Transaction(working: D, savepoints: seq<Savepoint<D>>)

  const JOB := "csgdb_group_commit_job"

  // ---------------------------------------------------------------- engine

  /** Index of the innermost savepoint of this name, or none. */
  function Innermost<D>(stack: seq<Savepoint<D>>, name: string): (r: Option<nat>)
    ensures r.Some? ==> r.value < |stack| && stack[r.value].name == name
  {
    if stack == [] then None
    else if stack[|stack| - 1].name == name then Some(|stack| - 1)
    else Innermost(stack[..|stack| - 1], name)
  }

  /** The operations that frame the jobs, as against the jobs' own statements. */
  datatype Control = Opening | Saving | Restoring | Releasing | Committing

  datatype Fault = Fault(operation: Control, error: Error)

  class Connection<!D(0,!new)> {
    var base: D
    var open: Option<Transaction<D>>
    /** How often the engine refused a control operation it could have executed,
        or gave the transaction up at a statement. */
    ghost var controlFailures: nat
    /** How often the engine refused even the rollback of a dropped transaction. */
    ghost var rollbackFailures: nat
    /** The control operation that failed last. */
    ghost var fault: Option<Fault>
    /** The job being executed, and the error of each job whose statement failed. */
    ghost var job: nat
    ghost var failed: map<nat, Error>

    constructor (initial: D)
      ensures base == initial && open == None && failed == map[] && fault == None && controlFailures == 0
    {
      base := initial;
      open := None;
      controlFailures, rollbackFailures, fault, job, failed := 0, 0, None, 0, map[];
    }

    /** A refused operation: the committed state stays, and the transaction is
        gone or holds anything under the same savepoints. */
    twostate predicate Refused()
      reads this
    {
      && base == old(base)
      && (old(open) == None ==> open == None)
      && (open.Some? ==> old(open).Some? && open.value.savepoints == old(open).value.savepoints)
    }

    method Refuse() returns (error: Error)
      modifies `open
      ensures Refused()
    {
      var code: nat := *;
      error := Error(code);
      if open.Some? {
        if * {
          open := None;
        } else {
          var partial: D := *;
          open := Some(open.value.(working := partial));
        }
      }
    }

    /** BEGIN; refused inside a transaction, which then stays as it was. */
    method Begin() returns (status: Status)
      modifies `open, `controlFailures, `fault
      ensures base == old(base)
      ensures status.Fine? ==>
                && old(open) == None && open == Some(Transaction(base, []))
                && controlFailures == old(controlFailures) && fault == old(fault)
      ensures status.Failed? ==>
                && open == old(open) && fault == Some(Fault(Opening, status.error))
                && controlFailures == old(controlFailures) + if old(open).Some? then 0 else 1
    {
      var refused: bool := *;
      if open.Some? || refused {
        var code: nat := *;
        if open == None { controlFailures := controlFailures + 1; }
        fault := Some(Fault(Opening, Error(code)));
        return Failed(Error(code));
      }
      open := Some(Transaction(base, []));
      status := Fine;
    }

    /** SAVEPOINT; outside a transaction it opens one. */
    method Save(name: string) returns (status: Status)
      modifies `open, `controlFailures, `fault
      ensures base == old(base)
      ensures status.Fine? ==>
                && controlFailures == old(controlFailures) && fault == old(fault)
                && var t := if old(open).Some? then old(open).value else Transaction(base, []);
                   open == Some(t.(savepoints := t.savepoints + [Savepoint(name, t.working)]))
      ensures status.Failed? ==>
                && Refused() && controlFailures == old(controlFailures) + 1
                && fault == Some(Fault(Saving, status.error))
    {
      if * {
        var error := Refuse();
        controlFailures, fault := controlFailures + 1, Some(Fault(Saving, error));
        return Failed(error);
      }
      var t := if open.Some? then open.value else Transaction(base, []);
      open := Some(t.(savepoints := t.savepoints + [Savepoint(name, t.working)]));
      status := Fine;
    }

    /** The engine could execute an operation on this savepoint. */
    ghost predicate Saved(name: string)
      reads this
    {
      open.Some? && Innermost(open.value.savepoints, name).Some?
    }

    /** RELEASE drops the innermost such savepoint and those inside it. */
    method Release(name: string) returns (status: Status)
      modifies `open, `controlFailures, `fault
      ensures base == old(base)
      ensures status.Fine? ==>
                && controlFailures == old(controlFailures) && fault == old(fault)
                && old(open).Some? && Innermost(old(open).value.savepoints, name).Some?
                && open == Some(old(open).value.(savepoints :=
                     old(open).value.savepoints[..Innermost(old(open).value.savepoints, name).value]))
      ensures status.Failed? ==>
                && Refused() && fault == Some(Fault(Releasing, status.error))
                && controlFailures == old(controlFailures) + if old(Saved(name)) then 1 else 0
    {
      if open.Some? && Innermost(open.value.savepoints, name).Some? {
        var refused: bool := *;
        if !refused {
          var stack := open.value.savepoints;
          open := Some(open.value.(savepoints := stack[..Innermost(stack, name).value]));
          return Fine;
        }
        controlFailures := controlFailures + 1;
      }
      var error := Refuse();
      fault := Some(Fault(Releasing, error));
      status := Failed(error);
    }

    /** ROLLBACK TO restores the innermost such savepoint, which stays. */
    method RollbackTo(name: string) returns (status: Status)
      modifies `open, `controlFailures, `fault
      ensures base == old(base)
      ensures status.Fine? ==>
                && controlFailures == old(controlFailures) && fault == old(fault)
                && old(open).Some? && Innermost(old(open).value.savepoints, name).Some?
                && var stack := old(open).value.savepoints;
                   var at := Innermost(stack, name).value;
                   open == Some(Transaction(stack[at].saved, stack[..at + 1]))
      ensures status.Failed? ==>
                && Refused() && fault == Some(Fault(Restoring, status.error))
                && controlFailures == old(controlFailures) + if old(Saved(name)) then 1 else 0
    {
      if open.Some? && Innermost(open.value.savepoints, name).Some? {
        var refused: bool := *;
        if !refused {
          var stack := open.value.savepoints;
          var at := Innermost(stack, name).value;
          open := Some(Transaction(stack[at].saved, stack[..at + 1]));
          return Fine;
        }
        controlFailures := controlFailures + 1;
      }
      var error := Refuse();
      fault := Some(Fault(Restoring, error));
      status := Failed(error);
    }

    /** One statement; outside a transaction it commits by itself. A refusal that
        costs the transaction counts as a control failure. */
    method Execute(statement: Statement<D>) returns (r: Result<nat>)
      modifies this
      ensures job == old(job) && fault == old(fault) && rollbackFailures == old(rollbackFailures)
      ensures controlFailures == old(controlFailures) + if r.Err? && old(open).Some? && open == None then 1 else 0
      ensures failed == if r.Ok? then old(failed) else old(failed)[job := r.error]
      ensures r.Ok? && old(open).Some? ==>
                && base == old(base)
                && var (d, n) := statement.run(old(open).value.working);
                   r.value == n && open == Some(old(open).value.(working := d))
      ensures r.Ok? && old(open) == None ==> (base, r.value) == statement.run(old(base)) && open == None
      ensures r.Err? ==> Refused()
    {
      if * {
        ghost var inside := open.Some?;
        var error := Refuse();
        failed := failed[job := error];
        if inside && open == None { controlFailures := controlFailures + 1; }
        return Err(error);
      }
      if open.Some? {
        var (d, n) := statement.run(open.value.working);
        open := Some(open.value.(working := d));
        r := Ok(n);
      } else {
        var (d, n) := statement.run(base);
        base := d;
        r := Ok(n);
      }
    }

    /** COMMIT, followed on failure by the rollback of the dropped transaction. */
    method Commit() returns (status: Status)
      modifies `base, `open, `controlFailures, `rollbackFailures, `fault
      ensures open == None || rollbackFailures > old(rollbackFailures)
      ensures rollbackFailures >= old(rollbackFailures)
      ensures status.Fine? ==>
                && controlFailures == old(controlFailures) && fault == old(fault)
                && old(open).Some? && base == old(open).value.working && open == None
      ensures status.Failed? ==>
                && base == old(base) && fault == Some(Fault(Committing, status.error))
                && controlFailures == old(controlFailures) + if old(open).Some? then 1 else 0
    {
      if open.Some? {
        var refused: bool := *;
        if !refused {
          base := open.value.working;
          open := None;
          return Fine;
        }
        controlFailures := controlFailures + 1;
      }
      var error := Refuse();
      fault := Some(Fault(Committing, error));
      Abandon();
      status := Failed(error);
    }

    /** Dropping an open transaction rolls it back; the engine may refuse even that. */
    method Abandon()
      modifies `open, `rollbackFailures
      ensures open == None || open == old(open)
      ensures rollbackFailures == old(rollbackFailures) + if open.Some? then 1 else 0
    {
      if * {
        open := None;
      } else if open.Some? {
        rollbackFailures := rollbackFailures + 1;
      }
    }
  }

  lemma {:induction false} ProductGrows(t: nat, l: nat, larger: nat)
    requires l <= larger
    ensures t * l + larger <= (t + 1) * larger
  {
    assert (t + 1) * larger == t * larger + larger;
    assert t * (larger - l) >= 0;
    assert t * larger == t * l + t * (larger - l);
  }

  class Metrics {
    var groupCommitTransactions: nat
    var largestGroupCommit: nat
    var groupedWriteJobs: nat
    var writeJobsCompleted: nat

    constructor ()
      ensures groupCommitTransactions == largestGroupCommit == groupedWriteJobs == writeJobsCompleted == 0
    {
      groupCommitTransactions, largestGroupCommit, groupedWriteJobs, writeJobsCompleted := 0, 0, 0, 0;
    }

    /** Jobs that shared a transaction never outnumber transactions times the largest group. */
    ghost predicate Valid()
      reads this
    {
      groupedWriteJobs <= groupCommitTransactions * largestGroupCommit
    }

    method CountGroup(jobs: nat)
      modifies this
      ensures groupCommitTransactions == old(groupCommitTransactions) + 1
      ensures largestGroupCommit == if jobs > old(largestGroupCommit) then jobs else old(largestGroupCommit)
      ensures groupedWriteJobs == old(groupedWriteJobs) + if jobs > 1 then jobs else 0
      ensures writeJobsCompleted == old(writeJobsCompleted)
      ensures old(Valid()) ==> Valid()
    {
      groupCommitTransactions := groupCommitTransactions + 1;
      if jobs > largestGroupCommit {
        largestGroupCommit := jobs;
      }
      if jobs > 1 {
        groupedWriteJobs := groupedWriteJobs + jobs;
      }
      ProductGrows(old(groupCommitTransactions), old(largestGroupCommit), largestGroupCommit);
    }
  }

  // ---------------------------------------------------------- specification

  /** A job run alone: its statements in order, with their row counts. */
  function RunJob<D>(job: Job<D>, d: D): (r: (D, seq<nat>))
    ensures |r.1| == |job|
    decreases |job|
  {
    if job == [] then (d, [])
    else
      var (before, counts) := RunJob(job[..|job| - 1], d);
      var (after, n) := job[|job| - 1].run(before);
      (after, counts + [n])
  }

  /** `out` is `d` after the jobs answered Ok, in order, each applied whole and
      answered with its own row counts; jobs answered Err apply nothing. */
  ghost predicate Serial<D(!new)>(d: D, jobs: seq<Job<D>>, responses: seq<Result<seq<nat>>>, out: D)
    decreases |jobs|
  {
    && |jobs| == |responses|
    && if jobs == [] then out == d
       else
         var n := |jobs| - 1;
         if responses[n].Err? then Serial(d, jobs[..n], responses[..n], out)
         else
           exists before: D ::
             && Serial(d, jobs[..n], responses[..n], before)
             && RunJob(jobs[n], before) == (out, responses[n].value)
  }

  /** Exactly these jobs are answered with an error, each with its own. */
  ghost predicate Blames(responses: seq<Result<seq<nat>>>, failed: map<nat, Error>)
  {
    forall i :: 0 <= i < |responses| ==>
      if i in failed then responses[i] == Err(failed[i]) else responses[i].Ok?
  }

  lemma {:induction false} SerialSnoc<D(!new)>(
      d: D, jobs: seq<Job<D>>, responses: seq<Result<seq<nat>>>, mid: D, job: Job<D>, response: Result<seq<nat>>, out: D)
    requires Serial(d, jobs, responses, mid)
    requires if response.Err? then out == mid else RunJob(job, mid) == (out, response.value)
    ensures Serial(d, jobs + [job], responses + [response], out)
  {
    assert (jobs + [job])[..|jobs|] == jobs;
    assert (responses + [response])[..|responses|] == responses;
  }

  /** Nothing is applied when every job is refused. */
  lemma {:induction false} AllRefused<D(!new)>(d: D, jobs: seq<Job<D>>, responses: seq<Result<seq<nat>>>)
    requires |jobs| == |responses| && forall i :: 0 <= i < |responses| ==> responses[i].Err?
    ensures Serial(d, jobs, responses, d)
    decreases |jobs|
  {
    if jobs != [] {
      AllRefused(d, jobs[..|jobs| - 1], responses[..|jobs| - 1]);
    }
  }

  /** The responses determine the outcome. */
  lemma {:induction false} SerialIsFunctional<D(!new)>(
      d: D, jobs: seq<Job<D>>, responses: seq<Result<seq<nat>>>, out: D, other: D)
    requires Serial(d, jobs, responses, out) && Serial(d, jobs, responses, other)
    ensures out == other
    decreases |jobs|
  {
    if jobs != [] {
      var n := |jobs| - 1;
      if responses[n].Err? {
        SerialIsFunctional(d, jobs[..n], responses[..n], out, other);
      } else {
        var a: D :| Serial(d, jobs[..n], responses[..n], a) && RunJob(jobs[n], a) == (out, responses[n].value);
        var b: D :| Serial(d, jobs[..n], responses[..n], b) && RunJob(jobs[n], b) == (other, responses[n].value);
        SerialIsFunctional(d, jobs[..n], responses[..n], a, b);
      }
    }
  }

  /** Outcomes of consecutive groups compose: where the groups were cut cannot be seen. */
  lemma {:induction false} SerialCompose<D(!new)>(
      d: D, jobs: seq<Job<D>>, responses: seq<Result<seq<nat>>>, mid: D,
      more: seq<Job<D>>, moreResponses: seq<Result<seq<nat>>>, out: D)
    requires Serial(d, jobs, responses, mid) && Serial(mid, more, moreResponses, out)
    ensures Serial(d, jobs + more, responses + moreResponses, out)
    decreases |more|
  {
    if more == [] {
      assert jobs + more == jobs && responses + moreResponses == responses;
    } else {
      var n := |more| - 1;
      assert jobs + more == (jobs + more[..n]) + [more[n]];
      assert responses + moreResponses == (responses + moreResponses[..n]) + [moreResponses[n]];
      if moreResponses[n].Err? {
        SerialCompose(d, jobs, responses, mid, more[..n], moreResponses[..n], out);
        SerialSnoc(d, jobs + more[..n], responses + moreResponses[..n], out, more[n], moreResponses[n], out);
      } else {
        var b: D :| Serial(mid, more[..n], moreResponses[..n], b) && RunJob(more[n], b) == (out, moreResponses[n].value);
        SerialCompose(d, jobs, responses, mid, more[..n], moreResponses[..n], b);
        SerialSnoc(d, jobs + more[..n], responses + moreResponses[..n], b, more[n], moreResponses[n], out);
      }
    }
  }

  /** The states between the statements of a job: each statement runs on what the
      one before it left, and the counts stand in the order of the statements. */
  lemma {:induction false} JobStates<D(!new)>(job: Job<D>, d: D) returns (states: seq<D>)
    ensures |states| == |job| + 1 == |RunJob(job, d).1| + 1
    ensures states[0] == d && states[|job|] == RunJob(job, d).0
    ensures forall i :: 0 <= i < |job| ==> job[i].run(states[i]) == (states[i + 1], RunJob(job, d).1[i])
    decreases |job|
  {
    if job == [] {
      states := [d];
    } else {
      var n := |job| - 1;
      var front := JobStates(job[..n], d);
      states := front + [RunJob(job, d).0];
      forall i | 0 <= i < |job| ensures job[i].run(states[i]) == (states[i + 1], RunJob(job, d).1[i]) {
        if i < n {
          assert job[..n][i] == job[i];
        }
      }
    }
  }

  // --------------------------------------------------------------- the code

  lemma {:induction false} RunNothing<D>(job: Job<D>, d: D)
    ensures RunJob(job[..0], d) == (d, [])
  {
    assert job[..0] == [];
  }

  lemma {:induction false} RunOneMore<D>(job: Job<D>, i: nat, d: D)
    requires i < |job|
    ensures var (before, counts) := RunJob(job[..i], d);
            var (after, n) := job[i].run(before);
            RunJob(job[..i + 1], d) == (after, counts + [n])
  {
    assert job[..i + 1][..i] == job[..i];
  }

  lemma {:induction false} InnermostOne<D>(saved: D)
    ensures Innermost([Savepoint(JOB, saved)], JOB) == Some(0)
  {}

  /** One job inside its savepoint. `Failed` is fatal for the whole group, and is
      then the error of the control operation that failed. */
  method ExecuteGroupJob<D(0,!new)>(c: Connection<D>, job: Job<D>) returns (status: Status, r: Result<seq<nat>>)
    requires c.open.Some? && c.open.value.savepoints == [] && c.job !in c.failed
    modifies c
    ensures c.base == old(c.base) && c.job == old(c.job) && c.failed - {c.job} == old(c.failed)
    ensures c.rollbackFailures == old(c.rollbackFailures)
    ensures status.Fine? ==>
              && c.open.Some? && c.open.value.savepoints == []
              && c.controlFailures == old(c.controlFailures) && c.fault == old(c.fault)
              && if r.Err? then
                   c.open.value.working == old(c.open.value.working) && c.failed == old(c.failed)[c.job := r.error]
                 else
                   && RunJob(job, old(c.open.value.working)) == (c.open.value.working, r.value)
                   && c.failed == old(c.failed)
    ensures status.Failed? ==>
              && c.controlFailures > old(c.controlFailures)
              && c.fault.Some? && c.fault.value.operation in {Saving, Restoring, Releasing}
              && status.error == c.fault.value.error
  {
    hide RunJob, Innermost;
    ghost var start := c.open.value.working;
    InnermostOne(start);
    RunNothing(job, start);
    r := Err(Error(0));
    status := c.Save(JOB);
    if status.Failed? { return; }
    assert c.open.value.savepoints == [Savepoint(JOB, start)];
    var counts: seq<nat> := [];
    var i := 0;
    while i < |job|
      invariant i <= |job| && c.base == old(c.base)
      invariant c.open.Some? && c.open.value.savepoints == [Savepoint(JOB, start)]
      invariant RunJob(job[..i], start) == (c.open.value.working, counts)
      invariant c.controlFailures == old(c.controlFailures) && c.failed == old(c.failed) && c.job == old(c.job)
      invariant c.fault == old(c.fault) && c.rollbackFailures == old(c.rollbackFailures)
    {
      var one := c.Execute(job[i]);
      if one.Err? {
        r := Err(one.error);
        status := c.RollbackTo(JOB);
        if status.Fine? {
          assert c.open.value.savepoints == [Savepoint(JOB, start)];
          status := c.Release(JOB);
        }
        return;
      }
      RunOneMore(job, i, start);
      counts := counts + [one.value];
      i := i + 1;
    }
    assert job[..i] == job;
    status := c.Release(JOB);
    r := Ok(counts);
  }

  /** The jobs of a group inside an open transaction, up to the first fatal error. */
  method ExecuteJobs<D(0,!new)>(c: Connection<D>, jobs: seq<Job<D>>)
    returns (fatal: Option<Error>, responses: seq<Result<seq<nat>>>)
    requires c.open == Some(Transaction(c.base, []))
    modifies c
    ensures c.base == old(c.base) && |responses| == |jobs| && c.rollbackFailures == old(c.rollbackFailures)
    ensures fatal == None ==>
              && c.open.Some? && Serial(c.base, jobs, responses, c.open.value.working)
              && c.controlFailures == old(c.controlFailures) && c.fault == old(c.fault)
              && Blames(responses, c.failed)
    ensures fatal.Some? ==>
              && c.controlFailures > old(c.controlFailures)
              && c.fault.Some? && c.fault.value.operation in {Saving, Restoring, Releasing}
              && fatal == Some(c.fault.value.error)
  {
    hide Serial, RunJob;
    c.failed := map[];
    responses := [];
    fatal := None;
    AllRefused(c.base, [], responses);
    assert jobs[..0] == [];
    var i := 0;
    while i < |jobs|
      invariant i == |responses| <= |jobs| && c.base == old(c.base) && c.rollbackFailures == old(c.rollbackFailures)
      invariant fatal == None ==>
                  && c.open.Some? && c.open.value.savepoints == []
                  && Serial(c.base, jobs[..i], responses, c.open.value.working)
                  && c.controlFailures == old(c.controlFailures) && c.fault == old(c.fault)
                  && Blames(responses, c.failed) && (forall j :: j in c.failed ==> j < i)
      invariant fatal.Some? ==>
                  && c.controlFailures > old(c.controlFailures)
                  && c.fault.Some? && c.fault.value.operation in {Saving, Restoring, Releasing}
                  && fatal == Some(c.fault.value.error)
    {
      if fatal.Some? {
        responses := responses + [Err(fatal.value)];
      } else {
        ghost var mid := c.open.value.working;
        c.job := i;
        var status, r := ExecuteGroupJob(c, jobs[i]);
        if status.Failed? {
          fatal := Some(status.error);
          r := Err(status.error);
        } else {
          SerialSnoc(c.base, jobs[..i], responses, mid, jobs[i], r, c.open.value.working);
          assert jobs[..i + 1] == jobs[..i] + [jobs[i]];
        }
        responses := responses + [r];
      }
      i := i + 1;
    }
    assert jobs[..i] == jobs;
  }

  function Refusals(error: Error, n: nat): (rs: seq<Result<seq<nat>>>)
    ensures |rs| == n && forall i :: 0 <= i < n ==> rs[i] == Err(error)
  {
    seq(n, _ => Err(error))
  }

  /** A COMMIT failure turns every Ok into the commit's error and keeps the rest. */
  method RefuseOk(responses: seq<Result<seq<nat>>>, error: Error) returns (rs: seq<Result<seq<nat>>>)
    ensures |rs| == |responses|
    ensures forall i :: 0 <= i < |rs| ==> rs[i] == if responses[i].Ok? then Err(error) else responses[i]
  {
    rs := responses;
    var i := 0;
    while i < |rs|
      invariant i <= |rs| == |responses|
      invariant forall j :: 0 <= j < i ==> rs[j] == if responses[j].Ok? then Err(error) else responses[j]
      invariant forall j :: i <= j < |rs| ==> rs[j] == responses[j]
    {
      if rs[i].Ok? {
        rs := rs[i := Err(error)];
      }
      i := i + 1;
    }
  }

  method AnyOk(responses: seq<Result<seq<nat>>>) returns (found: bool)
    ensures found <==> exists i :: 0 <= i < |responses| && responses[i].Ok?
  {
    var i := 0;
    while i < |responses|
      invariant i <= |responses| && forall j :: 0 <= j < i ==> responses[j].Err?
    {
      if responses[i].Ok? { return true; }
      i := i + 1;
    }
    found := false;
  }

  ghost predicate SomeOk(responses: seq<Result<seq<nat>>>)
  {
    exists i :: 0 <= i < |responses| && responses[i].Ok?
  }

  /** The committed state after a group is the serial outcome of its responses,
      whatever the engine refused. Without a failed control operation each job
      whose statement failed is answered with that statement's error; after a
      failed COMMIT the other jobs are answered with the commit's; after any other
      failed control operation every job is answered with its error. */
  method ExecuteGroupCommit<D(0,!new)>(c: Connection<D>, jobs: seq<Job<D>>, metrics: Metrics)
    returns (committed: bool, responses: seq<Result<seq<nat>>>)
    modifies c, metrics
    ensures Serial(old(c.base), jobs, responses, c.base)
    ensures committed <==> SomeOk(responses)
    ensures committed ==> c.open == None
    ensures !committed ==> c.base == old(c.base)
    ensures old(c.open).Some? ==> c.base == old(c.base) && c.open == old(c.open)
    ensures old(c.open) == None ==> c.open == None || c.rollbackFailures > old(c.rollbackFailures)
    ensures forall i :: 0 <= i < |responses| ==>
              if c.fault.Some? && c.fault.value.operation != Committing then responses[i] == Err(c.fault.value.error)
              else if i in c.failed then responses[i] == Err(c.failed[i])
              else if c.fault.Some? then responses[i] == Err(c.fault.value.error)
              else responses[i].Ok?
    ensures old(c.open) == None ==> (c.fault == None <==> c.controlFailures == old(c.controlFailures))
    ensures metrics.groupCommitTransactions == old(metrics.groupCommitTransactions) + 1
    ensures metrics.writeJobsCompleted == old(metrics.writeJobsCompleted) + |jobs|
    ensures metrics.groupedWriteJobs == old(metrics.groupedWriteJobs) + if |jobs| > 1 then |jobs| else 0
    ensures metrics.largestGroupCommit
         == if |jobs| > old(metrics.largestGroupCommit) then |jobs| else old(metrics.largestGroupCommit)
    ensures old(metrics.Valid()) ==> metrics.Valid()
  {
    hide Serial;
    metrics.CountGroup(|jobs|);
    committed := false;
    c.fault := None;
    var begun := c.Begin();
    if begun.Failed? {
      metrics.writeJobsCompleted := metrics.writeJobsCompleted + |jobs|;
      responses := Refusals(begun.error, |jobs|);
      AllRefused(c.base, jobs, responses);
      return;
    }
    var fatal: Option<Error>;
    fatal, responses := ExecuteJobs(c, jobs);
    if fatal.Some? {
      c.Abandon();
      responses := Refusals(fatal.value, |jobs|);
      AllRefused(c.base, jobs, responses);
    } else {
      var status := c.Commit();
      if status.Fine? {
        committed := AnyOk(responses);
        if !committed {
          AllRefused(old(c.base), jobs, responses);
          SerialIsFunctional(old(c.base), jobs, responses, c.base, old(c.base));
        }
      } else {
        responses := RefuseOk(responses, status.error);
        AllRefused(c.base, jobs, responses);
      }
    }
    metrics.writeJobsCompleted := metrics.writeJobsCompleted + |jobs|;
  }

  /** The writer's loop over dequeued groups. The committed state is the serial
      outcome of all jobs in queue order, so the cuts between groups are invisible. */
  method RunGroups<D(0,!new)>(c: Connection<D>, groups: seq<seq<Job<D>>>, maxJobs: nat, metrics: Metrics)
    returns (responses: seq<Result<seq<nat>>>)
    requires metrics.Valid() && metrics.largestGroupCommit <= maxJobs
    requires forall g :: 0 <= g < |groups| ==> |groups[g]| <= maxJobs
    modifies c, metrics
    ensures Serial(old(c.base), Flatten(groups), responses, c.base)
    ensures metrics.Valid() && metrics.largestGroupCommit <= maxJobs
    ensures metrics.writeJobsCompleted == old(metrics.writeJobsCompleted) + |responses|
    ensures metrics.groupCommitTransactions == old(metrics.groupCommitTransactions) + |groups|
  {
    hide Serial;
    responses := [];
    AllRefused(c.base, [], responses);
    var g := 0;
    assert groups[..0] == [];
    while g < |groups|
      invariant g <= |groups|
      invariant Serial(old(c.base), Flatten(groups[..g]), responses, c.base)
      invariant metrics.Valid() && metrics.largestGroupCommit <= maxJobs
      invariant metrics.writeJobsCompleted == old(metrics.writeJobsCompleted) + |responses|
      invariant metrics.groupCommitTransactions == old(metrics.groupCommitTransactions) + g
    {
      ghost var mid := c.base;
      var committed, more := ExecuteGroupCommit(c, groups[g], metrics);
      SerialCompose(old(c.base), Flatten(groups[..g]), responses, mid, groups[g], more, c.base);
      assert groups[..g + 1][..g] == groups[..g];
      SerialLength(mid, groups[g], more, c.base);
      responses := responses + more;
      g := g + 1;
    }
    assert groups[..g] == groups;
  }

  lemma {:induction false} SerialLength<D(!new)>(d: D, jobs: seq<Job<D>>, responses: seq<Result<seq<nat>>>, out: D)
    requires Serial(d, jobs, responses, out)
    ensures |responses| == |jobs|
  {}
}
