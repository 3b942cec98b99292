/** The write queue cannot stall: a state in which no thread can move has no
    waiting submitter, and only finitely many steps separate it from any other. */
module QueueProgress {
  import opened Basics
  import opened WriteQueue
  import opened QueueRuns

  /** Steps some thread takes by itself; the others come from outside (new
      submissions, `close`) or wake a sleeper for no reason. */
  predicate IsProgress(step: Step)
  {
    !step.Submit? && !step.SpuriousWake? && !step.SpuriousWakeWriter? && !step.Close?
  }

  ghost predicate Quiet(c: Config, s: State)
  {
    forall step :: IsProgress(step) ==> !Enabled(c, s, step)
  }

  /** When nothing can move, nobody waits: every submitter is idle, every
      accepted job answered, and the writer asleep on an empty queue or gone. */
  lemma {:induction false} NobodyStuck(c: Config, s: State)
    requires c.Valid() && Safe(c, s) && Quiet(c, s)
    ensures forall p :: 0 <= p < |s.submitters| ==> s.submitters[p].Idle?
    ensures s.queue == [] && s.answered == s.accepted
    ensures if s.accepting then s.writer.AsleepFirst? else s.writer.Exited?
  {
    WriterIsQuiet(c, s);
    forall p | 0 <= p < |s.submitters| ensures s.submitters[p].Idle? || s.submitters[p].Asleep? || s.submitters[p].Awaiting? {
      assert !Enabled(c, s, Check(p, false)) && !Enabled(c, s, Count(p)) && !Enabled(c, s, Notify(p));
    }
    hide Quiet, WellFormedBatch, HeldGroup, Flatten, PushedCount;
    assert s.queue == [];
    assert Flatten(s.batches) + [] + [] == Flatten(s.batches);
    assert s.answered == s.accepted;
    forall p | 0 <= p < |s.submitters| ensures s.submitters[p].Idle? {
      if s.submitters[p].Awaiting? {
        QuietMeansUnanswered(c, s, p);
      }
    }
  }

  lemma {:induction false} QuietMeansUnanswered(c: Config, s: State, p: nat)
    requires Quiet(c, s) && p < |s.submitters| && s.submitters[p].Awaiting?
    ensures s.submitters[p].ticket >= |s.answered|
  {
    assert !Enabled(c, s, Receive(p));
  }

  lemma {:induction false} WriterIsQuiet(c: Config, s: State)
    requires c.Valid() && Ordered(c, s) && Quiet(c, s)
    ensures s.writer.AsleepFirst? || s.writer.Exited?
  {
    assert !Enabled(c, s, Pop(false)) && !Enabled(c, s, ExpireCollect);
    assert !Enabled(c, s, Execute) && !Enabled(c, s, Respond);
  }

  // --------------------------------------------------------------- measure

  /** Potential of a queued job when `n` submitters may have to be woken. */
  function JobWeight(n: nat): nat { n + 6 }

  function SubmitterWeight(n: nat, p: Submitter): nat
  {
    match p
    case Idle => 0
    case Awaiting(_) => 1
    case Counted(_) => 3
    case Pushed(_) => 4
    case Woken(_, _, expired) => JobWeight(n) + if expired then 5 else 7
    case Asleep(_, _) => JobWeight(n) + 6
    case Entering(_, _) => JobWeight(n) + 8
  }

  function WriterWeight(w: Writer): int
  {
    match w
    case Exited => 0
    case AsleepFirst => 0
    case Top => 1
    case Responding(batch, next) => 2 + |batch| - next
    case Running(batch) => 3 + |batch|
    case WokenCollect(batch, expired) => |batch| + if expired then 4 else 6
    case AsleepCollect(batch) => 5 + |batch|
  }

  function Total(n: nat, ps: seq<Submitter>): nat
  {
    if ps == [] then 0 else Total(n, ps[..|ps| - 1]) + SubmitterWeight(n, ps[|ps| - 1])
  }

  function Potential(s: State): int
  {
    var n := |s.submitters|;
    Total(n, s.submitters) + JobWeight(n) * |s.queue| + WriterWeight(s.writer)
  }

  lemma {:induction false} TotalPut(n: nat, ps: seq<Submitter>, p: nat, to: Submitter)
    requires p < |ps|
    ensures Total(n, ps[p := to]) == Total(n, ps) - SubmitterWeight(n, ps[p]) + SubmitterWeight(n, to)
  {
    hide SubmitterWeight;
    var k := |ps| - 1;
    if p == k {
      assert ps[p := to][..k] == ps[..k];
    } else {
      assert ps[p := to][..k] == ps[..k][p := to];
      TotalPut(n, ps[..k], p, to);
    }
  }

  lemma {:induction false} TotalWake(n: nat, ps: seq<Submitter>)
    ensures Total(n, WakeAll(ps)) <= Total(n, ps) + |ps|
  {
    if ps != [] {
      assert WakeAll(ps)[..|ps| - 1] == WakeAll(ps[..|ps| - 1]);
      TotalWake(n, ps[..|ps| - 1]);
    }
  }

  /** What an outside event may add to the potential. */
  function Allowance(n: nat, step: Step): nat
  {
    match step
    case Submit(_, _, _) => JobWeight(n) + 8
    case Close => n + 1
    case SpuriousWake(_) => 1
    case SpuriousWakeWriter => 1
    case _ => 0
  }

  lemma {:induction false} CheckPays(c: Config, s: State, p: nat, late: bool)
    requires Awake(c, s) && Enabled(c, s, Check(p, late))
    ensures Potential(CheckSubmitter(c, s, p, late)) < Potential(s)
  {
    hide Total;
    var n, t := |s.submitters|, CheckSubmitter(c, s, p, late);
    TotalPut(n, s.submitters, p, t.submitters[p]);
    assert JobWeight(n) * (|s.queue| + 1) == JobWeight(n) * |s.queue| + JobWeight(n);
  }

  lemma {:induction false} JobsPay(n: nat, k: nat)
    requires k >= 1
    ensures JobWeight(n) * k >= n + 5 + k
  {
    assert (n + 5) * k >= n + 5;
    assert (n + 6) * k == (n + 5) * k + k;
  }

  lemma {:induction false} PopPays(c: Config, s: State, deadline: bool)
    requires c.Valid() && Ordered(c, s) && Enabled(c, s, Pop(deadline))
    ensures Potential(PopStep(c, s, deadline)) < Potential(s)
  {
    var n := |s.submitters|;
    if s.writer.WokenCollect? {
      var last := deadline || s.writer.expired;
      var popped := Gather(s.queue, s.accepting, c.maxJobs, s.writer.batch, last);
      GatherIsMaximal(s.queue, s.accepting, c.maxJobs, s.writer.batch, last);
      assert last ==> popped.done;
      assert |popped.batch| - |s.writer.batch| == |s.queue| - |popped.rest|;
      hide Gather, Ordered, WellFormedBatch;
      AfterPopPays(s, popped);
    } else if s.queue != [] {
      var popped := PopFirst(s.queue, s.accepting, c.maxJobs, deadline);
      PopFirstIsMaximal(s.queue, s.accepting, c.maxJobs, deadline);
      hide PopFirst, Ordered, WellFormedBatch;
      AfterPopPays(s, popped);
    }
  }

  lemma {:induction false} AfterPopPays(s: State, popped: Popped)
    requires s.writer.WokenCollect? || (s.writer.Top? && |popped.rest| < |s.queue|)
    requires |popped.batch| - |Held(s.writer)| == |s.queue| - |popped.rest| >= 0
    requires s.writer.WokenCollect? && s.writer.expired ==> popped.done
    ensures Potential(AfterPop(s, popped)) < Potential(s)
  {
    hide Total, JobWeight;
    var n, k := |s.submitters|, |s.queue| - |popped.rest|;
    assert JobWeight(n) * |s.queue| == JobWeight(n) * |popped.rest| + JobWeight(n) * k;
    TotalWake(n, s.submitters);
    if k >= 1 {
      JobsPay(n, k);
    }
  }

  lemma {:induction false} SubmitterPays(c: Config, s: State, step: Step)
    requires Enabled(c, s, step)
    requires step.Submit? || step.Count? || step.Notify? || step.Receive? || step.Expire? || step.SpuriousWake?
    ensures Potential(Apply(c, s, step)) + (if IsProgress(step) then 1 else 0)
         <= Potential(s) + Allowance(|s.submitters|, step)
  {
    hide Total, JobWeight;
    var n, t := |s.submitters|, Apply(c, s, step);
    TotalPut(n, s.submitters, step.p, t.submitters[step.p]);
    assert t.submitters == s.submitters[step.p := t.submitters[step.p]] && t.queue == s.queue;
  }

  lemma {:induction false} WriterPays(c: Config, s: State, step: Step)
    requires Enabled(c, s, step)
    requires step.ExpireCollect? || step.SpuriousWakeWriter? || step.Execute? || step.Respond? || step.Close?
    ensures Potential(Apply(c, s, step)) + (if IsProgress(step) then 1 else 0)
         <= Potential(s) + Allowance(|s.submitters|, step)
  {
    hide Total, WakeAll, Finish, JobWeight;
    TotalWake(|s.submitters|, s.submitters);
  }

  /** Every progress step spends potential; only outside events add some. */
  lemma {:induction false} StepsPay(c: Config, s: State, step: Step)
    requires c.Valid() && Safe(c, s) && Enabled(c, s, step)
    ensures Potential(Apply(c, s, step)) + (if IsProgress(step) then 1 else 0)
         <= Potential(s) + Allowance(|s.submitters|, step)
  {
    hide Ordered, Awake, Balanced, Owned, Potential, CheckSubmitter, PopStep;
    if step.Check? {
      CheckPays(c, s, step.p, step.late);
    } else if step.Pop? {
      PopPays(c, s, step.deadline);
    } else if step.Submit? || step.Count? || step.Notify? || step.Receive? || step.Expire? || step.SpuriousWake? {
      SubmitterPays(c, s, step);
    } else {
      WriterPays(c, s, step);
    }
  }

  lemma {:induction false} PotentialIsNatural(c: Config, s: State)
    requires Ordered(c, s)
    ensures Potential(s) >= 0
  {
    hide Flatten, WellFormedBatch, HeldGroup, Total, JobWeight;
    assert JobWeight(|s.submitters|) * |s.queue| >= 0;
  }

  // ---------------------------------------------------------------- theorem

  /** A stretch of a run: states and the steps between them. */
  ghost predicate IsStretch(c: Config, states: seq<State>, steps: seq<Step>)
  {
    && |states| == |steps| + 1
    && forall i :: 0 <= i < |steps| ==> Enabled(c, states[i], steps[i]) && states[i + 1] == Apply(c, states[i], steps[i])
  }

  function ProgressSteps(steps: seq<Step>): nat
  {
    if steps == [] then 0
    else ProgressSteps(steps[..|steps| - 1]) + if IsProgress(steps[|steps| - 1]) then 1 else 0
  }

  function Allowances(n: nat, steps: seq<Step>): nat
  {
    if steps == [] then 0 else Allowances(n, steps[..|steps| - 1]) + Allowance(n, steps[|steps| - 1])
  }

  lemma {:induction false} StretchPays(c: Config, states: seq<State>, steps: seq<Step>)
    requires c.Valid() && IsStretch(c, states, steps) && Safe(c, states[0])
    ensures Safe(c, states[|steps|])
    ensures Potential(states[|steps|]) + ProgressSteps(steps) <= Potential(states[0]) + Allowances(c.submitters, steps)
  {
    if steps != [] {
      var n := |steps| - 1;
      StretchPays(c, states[..n + 1], steps[..n]);
      assert c.submitters == |states[n].submitters|;
      hide Safe, Potential, Enabled, Apply, Allowance, IsProgress;
      StepsPay(c, states[n], steps[n]);
      StepKeepsSafe(c, states[n], steps[n]);
    }
  }

  /** From a safe state, the threads can take no more steps than the state's
      potential plus what the outside events allow; and where they can take no
      more, every submission has ended and every accepted job is answered. */
  lemma {:induction false} EverySubmissionEnds(c: Config, states: seq<State>, steps: seq<Step>)
    requires c.Valid() && IsStretch(c, states, steps) && Safe(c, states[0])
    ensures ProgressSteps(steps) <= Potential(states[0]) + Allowances(c.submitters, steps)
    ensures Quiet(c, states[|steps|]) ==>
              && states[|steps|].answered == states[|steps|].accepted
              && forall p :: 0 <= p < |states[|steps|].submitters| ==> states[|steps|].submitters[p].Idle?
  {
    assert |states| == |steps| + 1;
    hide IsStretch, Potential, Quiet;
    StretchPays(c, states, steps);
    PotentialIsNatural(c, states[|steps|]);
    if Quiet(c, states[|steps|]) {
      NobodyStuck(c, states[|steps|]);
    }
  }
}
