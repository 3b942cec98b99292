/** The queue and the group commit together: whatever the interleaving, the
    batches and the failures, jobs take effect one by one in the order in which
    they were accepted. */
module WriterOrder {
  import opened Basics
  import opened WriteQueue
  import opened QueueRuns
  import GroupCommit

  type Response = GroupCommit.Result<seq<nat>>

  /** What an accepted job does: grouped statements, or an exclusive callback. */
  datatype Work<!D> = Grouped(statements: GroupCommit.Job<D>) | Alone

  /** One job alone: refused without a trace, applied whole, or an exclusive
      callback, which may do anything. */
  ghost predicate Effect<D>(work: Work<D>, response: Response, before: D, after: D)
  {
    match work
    case Alone => true
    case Grouped(statements) =>
      if response.Err? then after == before else GroupCommit.RunJob(statements, before) == (after, response.value)
  }

  /** The work of each ticket agrees with the kind of the accepted job. */
  ghost predicate Describes<D(!new)>(work: nat -> Work<D>, jobs: seq<Job>)
  {
    forall i :: 0 <= i < |jobs| ==> (work(jobs[i].ticket).Grouped? <==> jobs[i].groupable)
  }

  ghost function Statements<D(!new)>(work: nat -> Work<D>, batch: seq<Job>): seq<GroupCommit.Job<D>>
    requires Describes(work, batch) && forall i :: 0 <= i < |batch| ==> batch[i].groupable
  {
    seq(|batch|, i requires 0 <= i < |batch| => work(batch[i].ticket).statements)
  }

  /** The writer executed one batch: a group as `ExecuteGroupCommit` promises, an
      exclusive job in any way. */
  ghost predicate Executed<D(!new)>(work: nat -> Work<D>, batch: seq<Job>, responses: seq<Response>, before: D, after: D)
    requires Describes(work, batch)
  {
    && |responses| == |batch|
    && ((forall i :: 0 <= i < |batch| ==> batch[i].groupable) ==>
          GroupCommit.Serial(before, Statements(work, batch), responses, after))
  }

  /** The states between the jobs of one serial outcome. */
  lemma {:induction false} SerialStates<D(!new)>(
      d: D, jobs: seq<GroupCommit.Job<D>>, responses: seq<Response>, out: D) returns (states: seq<D>)
    requires GroupCommit.Serial(d, jobs, responses, out)
    ensures |states| == |jobs| + 1 == |responses| + 1 && states[0] == d && states[|jobs|] == out
    ensures forall k :: 0 <= k < |jobs| ==> Effect(Grouped(jobs[k]), responses[k], states[k], states[k + 1])
    decreases |jobs|
  {
    if jobs == [] {
      states := [d];
    } else {
      var n := |jobs| - 1;
      var before := out;
      if responses[n].Ok? {
        before :| GroupCommit.Serial(d, jobs[..n], responses[..n], before)
               && GroupCommit.RunJob(jobs[n], before) == (out, responses[n].value);
      }
      hide GroupCommit.Serial, GroupCommit.RunJob;
      var front := SerialStates(d, jobs[..n], responses[..n], before);
      states := front + [out];
      forall k | 0 <= k < |jobs| ensures Effect(Grouped(jobs[k]), responses[k], states[k], states[k + 1]) {
        if k < n {
          assert jobs[..n][k] == jobs[k] && responses[..n][k] == responses[k];
        }
      }
    }
  }

  /** The states between the jobs of one executed batch. */
  lemma {:induction false} BatchStates<D(!new)>(
      work: nat -> Work<D>, batch: seq<Job>, maxJobs: nat, responses: seq<Response>, before: D, after: D)
    returns (states: seq<D>)
    requires WellFormedBatch(batch, maxJobs) && Describes(work, batch) && Executed(work, batch, responses, before, after)
    ensures Chain(work, batch, responses, states) && states[0] == before && states[|batch|] == after
  {
    hide GroupCommit.Serial, GroupCommit.RunJob;
    if forall i :: 0 <= i < |batch| ==> batch[i].groupable {
      states := SerialStates(before, Statements(work, batch), responses, after);
    } else {
      states := [before, after];
    }
  }

  /** The batches the writer has executed: all it dequeued but the running one. */
  function Completed(s: State): seq<seq<Job>>
  {
    if s.writer.Running? && s.batches != [] then s.batches[..|s.batches| - 1] else s.batches
  }

  /** In any safe state of the queue, with the completed batches executed in turn,
      there is a state between every two consecutive accepted jobs such that each
      job did exactly what it was answered, in the order of acceptance. */
  lemma {:induction false} EffectsFollowAcceptance<D(!new)>(
      c: Config, s: State, work: nat -> Work<D>, bases: seq<D>, responses: seq<seq<Response>>)
    returns (states: seq<D>)
    requires Ordered(c, s)
    requires |bases| == |Completed(s)| + 1 && |responses| == |Completed(s)|
    requires forall b :: 0 <= b < |Completed(s)| ==>
               Describes(work, Completed(s)[b]) && Executed(work, Completed(s)[b], responses[b], bases[b], bases[b + 1])
    ensures |states| == |Flatten(Completed(s))| + 1 && |Flatten(responses)| == |Flatten(Completed(s))| <= |s.accepted|
    ensures states[0] == bases[0] && states[|Flatten(Completed(s))|] == bases[|Completed(s)|]
    ensures forall k :: 0 <= k < |Flatten(Completed(s))| ==>
              s.accepted[k].ticket == k && Effect(work(k), Flatten(responses)[k], states[k], states[k + 1])
  {
    hide GroupCommit.Serial, GroupCommit.RunJob, Executed, WellFormedBatch, Effect, HeldGroup, Flatten;
    states := BatchesStates(c.maxJobs, work, Completed(s), bases, responses);
    var done := Flatten(Completed(s));
    if s.writer.Running? {
      FlattenSnoc(Completed(s), s.writer.batch);
      assert s.batches == Completed(s) + [s.writer.batch];
    }
    assert done <= Flatten(s.batches) <= s.accepted;
    forall k | 0 <= k < |done|
      ensures s.accepted[k].ticket == k && Effect(work(k), Flatten(responses)[k], states[k], states[k + 1])
    {
      assert s.accepted[k] == done[k];
    }
  }

  /** One state between every two jobs, each job doing what it was answered. */
  ghost predicate Chain<D(!new)>(work: nat -> Work<D>, jobs: seq<Job>, responses: seq<Response>, states: seq<D>)
  {
    && |responses| == |jobs| && |states| == |jobs| + 1
    && forall k :: 0 <= k < |jobs| ==> Effect(work(jobs[k].ticket), responses[k], states[k], states[k + 1])
  }

  lemma {:induction false} ChainsJoin<D(!new)>(
      work: nat -> Work<D>, a: seq<Job>, b: seq<Job>, ra: seq<Response>, rb: seq<Response>, sa: seq<D>, sb: seq<D>)
    requires Chain(work, a, ra, sa) && Chain(work, b, rb, sb) && sa[|a|] == sb[0]
    ensures var states := sa + sb[1..];
            Chain(work, a + b, ra + rb, states) && states[0] == sa[0] && states[|a + b|] == sb[|b|]
  {
    hide Effect;
    var states := sa + sb[1..];
    forall k | 0 <= k < |a + b|
      ensures Effect(work((a + b)[k].ticket), (ra + rb)[k], states[k], states[k + 1])
    {
      if k < |a| {
        assert states[k] == sa[k] && states[k + 1] == sa[k + 1];
      } else {
        assert states[k] == sb[k - |a|] && states[k + 1] == sb[k - |a| + 1];
      }
    }
  }

  lemma {:induction false} BatchesStates<D(!new)>(
      maxJobs: nat, work: nat -> Work<D>, batches: seq<seq<Job>>, bases: seq<D>, responses: seq<seq<Response>>)
    returns (states: seq<D>)
    requires |bases| == |batches| + 1 && |responses| == |batches|
    requires forall b :: 0 <= b < |batches| ==> WellFormedBatch(batches[b], maxJobs)
    requires forall b :: 0 <= b < |batches| ==>
               Describes(work, batches[b]) && Executed(work, batches[b], responses[b], bases[b], bases[b + 1])
    ensures Chain(work, Flatten(batches), Flatten(responses), states)
    ensures states[0] == bases[0] && states[|Flatten(batches)|] == bases[|batches|]
    decreases |batches|
  {
    hide WellFormedBatch, Effect, Executed, Describes;
    if batches == [] {
      states := bases;
    } else {
      var n := |batches| - 1;
      assert Executed(work, batches[n], responses[n], bases[n], bases[n + 1]);
      var front := BatchesStates(maxJobs, work, batches[..n], bases[..n + 1], responses[..n]);
      var last := BatchStates(work, batches[n], maxJobs, responses[n], bases[n], bases[n + 1]);
      states := front + last[1..];
      ChainsJoin(work, Flatten(batches[..n]), batches[n], Flatten(responses[..n]), responses[n], front, last);
    }
  }
}
