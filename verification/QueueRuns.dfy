/** Every interleaving of submitters, the writer and `close` over one write
    queue. A critical section is one step; a wait releases the lock and sleeps;
    sleepers may wake without reason and timeouts may expire at any moment. */
module QueueRuns {
  import opened Basics
  import opened WriteQueue
  import GroupCommit

  datatype Config = Config(capacity: nat, maxJobs: nat, submitters: nat)
  {
    predicate Valid() { capacity >= 1 && maxJobs >= 1 }
  }

  /** Where a submitting thread is: before its critical section, asleep on
      `not_full`, after `push` and before the counter, before the
      notification, and waiting for its response. */
  datatype Submitter =
    | Idle
    | Entering(groupable: bool, policy: Policy)
    | Asleep(groupable: bool, policy: Policy)
    | Woken(groupable: bool, policy: Policy, expired: bool)
    | Pushed(ticket: nat)
    | Counted(ticket: nat)
    | Awaiting(ticket: nat)

  /** Where the writer is: at the top of `pop`, asleep with nothing, asleep or
      woken with an unfinished group, executing, answering, or gone. */
  datatype Writer =
    | Top
    | AsleepFirst
    | AsleepCollect(batch: seq<Job>)
    | WokenCollect(batch: seq<Job>, expired: bool)
    | Running(batch: seq<Job>)
    | Responding(batch: seq<Job>, next: nat)
    | Exited

  /** The metrics of the pool. */
  datatype Counters = Counters(
    submitted: nat, completed: nat, rejected: nat, transactions: nat, grouped: nat, largest: nat)

  /** `accepted`, `batches` and `answered` record the run: jobs in the order of
      `push`, batches in the order of `pop`, responses in the order sent. */
  datatype State = State(
    queue: seq<Job>, accepting: bool, submitters: seq<Submitter>, writer: Writer, counters: Counters,
    accepted: seq<Job>, batches: seq<seq<Job>>, answered: seq<Job>)

  datatype Step =
    | Submit(p: nat, groupable: bool, policy: Policy)
    | Check(p: nat, late: bool)
    | Count(p: nat)
    | Notify(p: nat)
    | Receive(p: nat)
    | Expire(p: nat)
    | SpuriousWake(p: nat)
    | Pop(deadline: bool)
    | ExpireCollect
    | SpuriousWakeWriter
    | Execute
    | Respond
    | Close

  function Init(c: Config): State
  {
    State([], true, seq(c.submitters, _ => Idle), Top, Counters(0, 0, 0, 0, 0, 0), [], [], [])
  }

  predicate Enabled(c: Config, s: State, step: Step)
  {
    match step
    case Submit(p, _, _) => p < |s.submitters| && s.submitters[p].Idle?
    case Check(p, _) => p < |s.submitters| && (s.submitters[p].Entering? || s.submitters[p].Woken?)
    case Count(p) => p < |s.submitters| && s.submitters[p].Pushed?
    case Notify(p) => p < |s.submitters| && s.submitters[p].Counted?
    case Receive(p) => p < |s.submitters| && s.submitters[p].Awaiting? && s.submitters[p].ticket < |s.answered|
    case Expire(p) => p < |s.submitters| && s.submitters[p].Asleep? && s.submitters[p].policy == Timeout
    case SpuriousWake(p) => p < |s.submitters| && s.submitters[p].Asleep?
    case Pop(_) =>
      c.Valid() && (s.writer.Top? || (s.writer.WokenCollect? && |s.writer.batch| <= c.maxJobs))
    case ExpireCollect => s.writer.AsleepCollect?
    case SpuriousWakeWriter => s.writer.AsleepFirst? || s.writer.AsleepCollect?
    case Execute => s.writer.Running? && s.writer.batch != []
    case Respond => s.writer.Responding? && s.writer.next < |s.writer.batch|
    case Close => true
  }

  // ----------------------------------------------------------------- steps

  function WakeOne(p: Submitter): Submitter
  {
    if p.Asleep? then Woken(p.groupable, p.policy, false) else p
  }

  /** `not_full.notify_all()`. */
  function WakeAll(ps: seq<Submitter>): (r: seq<Submitter>)
    ensures |r| == |ps| && forall i :: 0 <= i < |ps| ==> r[i] == WakeOne(ps[i])
  {
    seq(|ps|, i requires 0 <= i < |ps| => WakeOne(ps[i]))
  }

  /** `not_empty.notify_one()`: only the writer ever waits there. */
  function WakeWriter(w: Writer): Writer
  {
    match w
    case AsleepFirst => Top
    case AsleepCollect(batch) => WokenCollect(batch, false)
    case _ => w
  }

  function Put(s: State, p: nat, to: Submitter): State
    requires p < |s.submitters|
  {
    s.(submitters := s.submitters[p := to])
  }

  function CheckSubmitter(c: Config, s: State, p: nat, late: bool): State
    requires p < |s.submitters| && (s.submitters[p].Entering? || s.submitters[p].Woken?)
  {
    var me := s.submitters[p];
    var expired := late || (me.Woken? && me.expired);
    match Admit(s.queue, s.accepting, c.capacity, me.policy, me.Woken?, expired)
    case Admitted =>
      var job := Job(me.groupable, |s.accepted|);
      Put(s, p, Pushed(job.ticket)).(queue := s.queue + [job], accepted := s.accepted + [job])
    case Sleeping => Put(s, p, Asleep(me.groupable, me.policy))
    case Full => Put(s, p, Idle).(counters := s.counters.(rejected := s.counters.rejected + 1))
    case TimedOut => Put(s, p, Idle).(counters := s.counters.(rejected := s.counters.rejected + 1))
    case Closed => Put(s, p, Idle)
  }

  /** The writer leaves its critical section with `popped`. */
  function AfterPop(s: State, popped: Popped): State
  {
    var woken := s.(queue := popped.rest,
                    submitters := if |popped.rest| < |s.queue| then WakeAll(s.submitters) else s.submitters);
    if popped.done then woken.(writer := Running(popped.batch), batches := s.batches + [popped.batch])
    else woken.(writer := AsleepCollect(popped.batch))
  }

  function PopStep(c: Config, s: State, deadline: bool): State
    requires c.Valid() && (s.writer.Top? || (s.writer.WokenCollect? && |s.writer.batch| <= c.maxJobs))
  {
    if s.writer.WokenCollect? then
      AfterPop(s, Gather(s.queue, s.accepting, c.maxJobs, s.writer.batch, deadline || s.writer.expired))
    else if s.queue != [] then AfterPop(s, PopFirst(s.queue, s.accepting, c.maxJobs, deadline))
    else if s.accepting then s.(writer := AsleepFirst)
    else s.(writer := Exited)
  }

  function Finish(k: Counters, batch: seq<Job>): Counters
    requires batch != []
  {
    var n := |batch|;
    if batch[0].groupable then
      k.(completed := k.completed + n, transactions := k.transactions + 1,
         largest := if n > k.largest then n else k.largest,
         grouped := k.grouped + if n > 1 then n else 0)
    else k.(completed := k.completed + n)
  }

  function Apply(c: Config, s: State, step: Step): State
    requires Enabled(c, s, step)
  {
    match step
    case Submit(p, groupable, policy) => Put(s, p, Entering(groupable, policy))
    case Check(p, late) => CheckSubmitter(c, s, p, late)
    case Count(p) =>
      Put(s, p, Counted(s.submitters[p].ticket)).(counters := s.counters.(submitted := s.counters.submitted + 1))
    case Notify(p) => Put(s, p, Awaiting(s.submitters[p].ticket)).(writer := WakeWriter(s.writer))
    case Receive(p) => Put(s, p, Idle)
    case Expire(p) => Put(s, p, Woken(s.submitters[p].groupable, s.submitters[p].policy, true))
    case SpuriousWake(p) => Put(s, p, WakeOne(s.submitters[p]))
    case Pop(deadline) => PopStep(c, s, deadline)
    case ExpireCollect => s.(writer := WokenCollect(s.writer.batch, true))
    case SpuriousWakeWriter => s.(writer := WakeWriter(s.writer))
    case Execute =>
      s.(writer := Responding(s.writer.batch, 0), counters := Finish(s.counters, s.writer.batch))
    case Respond =>
      var next := s.writer.next + 1;
      s.(answered := s.answered + [s.writer.batch[s.writer.next]],
         writer := if next == |s.writer.batch| then Top else Responding(s.writer.batch, next))
    case Close => s.(accepting := false, writer := WakeWriter(s.writer), submitters := WakeAll(s.submitters))
  }

  ghost predicate Next(c: Config, s: State, t: State)
  {
    exists step :: Enabled(c, s, step) && t == Apply(c, s, step)
  }

  ghost predicate IsRun(c: Config, run: seq<State>)
  {
    && run != [] && run[0] == Init(c)
    && forall i :: 0 <= i < |run| - 1 ==> Next(c, run[i], run[i + 1])
  }

  // ------------------------------------------------------------ invariants

  /** Jobs the writer holds in an unfinished group. */
  function Held(w: Writer): seq<Job>
  {
    if w.AsleepCollect? || w.WokenCollect? then w.batch else []
  }

  /** First in, first out, within the capacity, and in well-formed batches. */
  ghost predicate Ordered(c: Config, s: State)
  {
    && s.accepted == Flatten(s.batches) + Held(s.writer) + s.queue
    && |s.queue| <= c.capacity
    && (forall i :: 0 <= i < |s.accepted| ==> s.accepted[i].ticket == i)
    && (forall i :: 0 <= i < |s.batches| ==> WellFormedBatch(s.batches[i], c.maxJobs))
    && (s.writer.AsleepCollect? || s.writer.WokenCollect? ==> HeldGroup(s.writer.batch, c.maxJobs))
    && (s.writer.Running? || s.writer.Responding? ==>
          s.batches != [] && s.batches[|s.batches| - 1] == s.writer.batch)
    && (s.writer.Responding? ==> s.writer.next < |s.writer.batch|)
  }

  predicate WriterAsleep(w: Writer) { w.AsleepFirst? || w.AsleepCollect? }

  /** A submitter between `push` and `notify_writer`. */
  predicate Owes(p: Submitter) { p.Pushed? || p.Counted? }

  /** No wakeup is lost, and the writer leaves only a closed, empty queue. */
  ghost predicate Awake(c: Config, s: State)
  {
    && (forall p :: 0 <= p < |s.submitters| && s.submitters[p].Asleep? ==>
          |s.queue| >= c.capacity && s.accepting && s.submitters[p].policy != Reject)
    && (forall p :: 0 <= p < |s.submitters| && s.submitters[p].Woken? && s.submitters[p].expired ==>
          s.submitters[p].policy == Timeout)
    && (WriterAsleep(s.writer) ==> s.accepting)
    && (WriterAsleep(s.writer) && s.queue != [] ==>
          exists p :: 0 <= p < |s.submitters| && Owes(s.submitters[p]))
    && (s.writer.Exited? ==> !s.accepting && s.queue == [])
  }

  function PushedCount(ps: seq<Submitter>): nat
  {
    if ps == [] then 0 else PushedCount(ps[..|ps| - 1]) + if ps[|ps| - 1].Pushed? then 1 else 0
  }

  function Unanswered(w: Writer): int
  {
    match w
    case Running(batch) => |batch|
    case Responding(batch, next) => |batch| - next
    case _ => 0
  }

  /** Job accounting. */
  ghost predicate Balanced(c: Config, s: State)
  {
    && s.counters.completed == |Flatten(s.batches)| - (if s.writer.Running? then |s.writer.batch| else 0)
    && s.counters.submitted + PushedCount(s.submitters) == |s.accepted|
    && |s.answered| == |Flatten(s.batches)| - Unanswered(s.writer)
    && s.answered <= Flatten(s.batches)
    && s.counters.largest <= c.maxJobs
    && s.counters.grouped <= s.counters.transactions * s.counters.largest
  }

  predicate Owns(p: Submitter, ticket: nat)
  {
    (p.Pushed? || p.Counted? || p.Awaiting?) && p.ticket == ticket
  }

  ghost predicate HasOwner(ps: seq<Submitter>, ticket: nat)
  {
    exists p :: 0 <= p < |ps| && Owns(ps[p], ticket)
  }

  /** Every submitter in flight owns its own accepted job, and every job not yet
      answered still has its submitter. */
  ghost predicate Owned(s: State)
  {
    && (forall p :: 0 <= p < |s.submitters| ==>
          (s.submitters[p].Pushed? || s.submitters[p].Counted? || s.submitters[p].Awaiting?) ==>
            s.submitters[p].ticket < |s.accepted|)
    && (forall p, q :: 0 <= p < q < |s.submitters| ==>
          forall t: nat :: !(Owns(s.submitters[p], t) && Owns(s.submitters[q], t)))
    && (forall t: nat :: |s.answered| <= t < |s.accepted| ==>
          HasOwner(s.submitters, t))
  }

  ghost predicate Safe(c: Config, s: State)
  {
    && |s.submitters| == c.submitters
    && Ordered(c, s) && Awake(c, s) && Balanced(c, s) && Owned(s)
  }

  // ------------------------------------------------------------ preservation

  lemma {:induction false} PushedCountPut(ps: seq<Submitter>, p: nat, to: Submitter)
    requires p < |ps|
    ensures PushedCount(ps[p := to])
         == PushedCount(ps) - (if ps[p].Pushed? then 1 else 0) + if to.Pushed? then 1 else 0
  {
    var n := |ps| - 1;
    if p == n {
      assert ps[p := to][..n] == ps[..n];
    } else {
      assert ps[p := to][..n] == ps[..n][p := to];
      PushedCountPut(ps[..n], p, to);
    }
  }

  lemma {:induction false} PushedCountWake(ps: seq<Submitter>)
    ensures PushedCount(WakeAll(ps)) == PushedCount(ps)
  {
    if ps != [] {
      assert WakeAll(ps)[..|ps| - 1] == WakeAll(ps[..|ps| - 1]);
      PushedCountWake(ps[..|ps| - 1]);
    }
  }

  lemma {:induction false} PushedCountIdle(ps: seq<Submitter>)
    requires forall i :: 0 <= i < |ps| ==> ps[i].Idle?
    ensures PushedCount(ps) == 0
  {
    if ps != [] { PushedCountIdle(ps[..|ps| - 1]); }
  }

  lemma {:induction false} InitSafe(c: Config)
    requires c.Valid()
    ensures Safe(c, Init(c))
  {
    PushedCountIdle(Init(c).submitters);
  }

  lemma {:induction false} CheckKeepsOrdered(c: Config, s: State, p: nat, late: bool)
    requires Ordered(c, s) && Enabled(c, s, Check(p, late))
    ensures Ordered(c, CheckSubmitter(c, s, p, late))
  {
    hide Flatten, WellFormedBatch, HeldGroup, CheckSubmitter;
    var t := CheckSubmitter(c, s, p, late);
    CheckChanges(c, s, p, late);
    if t.accepted != s.accepted {
      var job := Job(s.submitters[p].groupable, |s.accepted|);
      Append2(Flatten(s.batches) + Held(s.writer), s.queue, [job]);
    }
  }

  /** What a submitter's critical section changes. */
  lemma {:induction false} CheckChanges(c: Config, s: State, p: nat, late: bool)
    requires Enabled(c, s, Check(p, late))
    ensures var t := CheckSubmitter(c, s, p, late); var me := s.submitters[p];
            && t.accepting == s.accepting && t.writer == s.writer && t.batches == s.batches && t.answered == s.answered
            && t.submitters == s.submitters[p := t.submitters[p]]
            && (if t.submitters[p].Pushed? then
                  var job := Job(me.groupable, |s.accepted|);
                  && s.accepting && |s.queue| < c.capacity && t.submitters[p].ticket == |s.accepted|
                  && t.queue == s.queue + [job] && t.accepted == s.accepted + [job]
                else t.queue == s.queue && t.accepted == s.accepted)
            && (t.submitters[p].Pushed? || t.submitters[p].Idle? || t.submitters[p].Asleep?)
            && (t.submitters[p].Asleep? ==>
                  |s.queue| >= c.capacity && s.accepting && t.submitters[p].policy != Reject)
  {}

  lemma {:induction false} SubmitterKeepsOrdered(c: Config, s: State, step: Step)
    requires Ordered(c, s) && Enabled(c, s, step)
    requires !step.Pop? && !step.Execute? && !step.Respond? && !step.Check?
    ensures Ordered(c, Apply(c, s, step))
  {
    hide Flatten, WellFormedBatch, HeldGroup;
  }

  lemma {:induction false} AfterPopKeepsOrdered(c: Config, s: State, popped: Popped)
    requires c.Valid() && Ordered(c, s) && !s.writer.Running? && !s.writer.Responding?
    requires popped.batch + popped.rest == Held(s.writer) + s.queue && |popped.rest| <= |s.queue|
    requires WellFormedBatch(popped.batch, c.maxJobs) && (!popped.done ==> HeldGroup(popped.batch, c.maxJobs))
    ensures Ordered(c, AfterPop(s, popped))
  {
    hide WellFormedBatch, HeldGroup;
    FlattenSnoc(s.batches, popped.batch);
    Resplit(Flatten(s.batches), Held(s.writer), s.queue, popped.batch, popped.rest);
  }

  lemma {:induction false} PopKeepsOrdered(c: Config, s: State, deadline: bool)
    requires c.Valid() && Ordered(c, s) && Enabled(c, s, Pop(deadline))
    ensures Ordered(c, PopStep(c, s, deadline))
  {
    if s.writer.WokenCollect? {
      GatherIsMaximal(s.queue, s.accepting, c.maxJobs, s.writer.batch, deadline || s.writer.expired);
      hide Gather, AfterPop, WellFormedBatch;
      AfterPopKeepsOrdered(c, s, Gather(s.queue, s.accepting, c.maxJobs, s.writer.batch, deadline || s.writer.expired));
    } else if s.queue != [] {
      PopFirstIsMaximal(s.queue, s.accepting, c.maxJobs, deadline);
      hide PopFirst, AfterPop, WellFormedBatch;
      assert [] + s.queue == s.queue;
      AfterPopKeepsOrdered(c, s, PopFirst(s.queue, s.accepting, c.maxJobs, deadline));
    }
  }

  lemma {:induction false} StepKeepsOrdered(c: Config, s: State, step: Step)
    requires c.Valid() && Ordered(c, s) && Enabled(c, s, step)
    ensures Ordered(c, Apply(c, s, step))
  {
    if step.Pop? {
      hide PopStep, Ordered;
      PopKeepsOrdered(c, s, step.deadline);
    } else if step.Check? {
      hide CheckSubmitter, Ordered;
      CheckKeepsOrdered(c, s, step.p, step.late);
    } else if !step.Execute? && !step.Respond? {
      hide Apply, Ordered;
      SubmitterKeepsOrdered(c, s, step);
    } else {
      hide Flatten, Finish;
    }
  }

  lemma {:induction false} AfterPopKeepsAwake(c: Config, s: State, popped: Popped)
    requires Awake(c, s) && |popped.rest| <= |s.queue|
    requires !popped.done ==> popped.rest == [] && s.accepting
    ensures Awake(c, AfterPop(s, popped))
  {}

  lemma {:induction false} CheckKeepsAwake(c: Config, s: State, p: nat, late: bool)
    requires Awake(c, s) && Enabled(c, s, Check(p, late))
    ensures Awake(c, CheckSubmitter(c, s, p, late))
  {
    hide CheckSubmitter;
    var t := CheckSubmitter(c, s, p, late);
    CheckChanges(c, s, p, late);
    if t.submitters[p].Pushed? {
      assert Owes(t.submitters[p]);
    } else if WriterAsleep(s.writer) && s.queue != [] {
      var q :| 0 <= q < |s.submitters| && Owes(s.submitters[q]);
      assert Owes(t.submitters[q]);
    }
  }

  lemma {:induction false} OtherKeepsAwake(c: Config, s: State, step: Step)
    requires Awake(c, s) && Enabled(c, s, step) && !step.Pop? && !step.Check?
    ensures Awake(c, Apply(c, s, step))
  {
    hide Finish;
    var t := Apply(c, s, step);
    if WriterAsleep(t.writer) && t.queue != [] {
      var p :| 0 <= p < |s.submitters| && Owes(s.submitters[p]);
      assert Owes(t.submitters[p]);
    }
  }

  lemma {:induction false} StepKeepsAwake(c: Config, s: State, step: Step)
    requires c.Valid() && Ordered(c, s) && Awake(c, s) && Enabled(c, s, step)
    ensures Awake(c, Apply(c, s, step))
  {
    hide Ordered, Awake, CheckSubmitter, PopStep;
    if step.Pop? {
      PopKeepsAwake(c, s, step.deadline);
    } else if step.Check? {
      CheckKeepsAwake(c, s, step.p, step.late);
    } else {
      OtherKeepsAwake(c, s, step);
    }
  }

  lemma {:induction false} PopKeepsAwake(c: Config, s: State, deadline: bool)
    requires c.Valid() && Ordered(c, s) && Awake(c, s) && Enabled(c, s, Pop(deadline))
    ensures Awake(c, PopStep(c, s, deadline))
  {
    if s.writer.WokenCollect? {
      var popped := Gather(s.queue, s.accepting, c.maxJobs, s.writer.batch, deadline || s.writer.expired);
      GatherIsMaximal(s.queue, s.accepting, c.maxJobs, s.writer.batch, deadline || s.writer.expired);
      hide Ordered, AfterPop, Awake, WellFormedBatch;
      AfterPopKeepsAwake(c, s, popped);
    } else if s.queue != [] {
      var popped := PopFirst(s.queue, s.accepting, c.maxJobs, deadline);
      PopFirstIsMaximal(s.queue, s.accepting, c.maxJobs, deadline);
      hide Ordered, AfterPop, Awake, WellFormedBatch;
      AfterPopKeepsAwake(c, s, popped);
    } else {
      hide Ordered;
    }
  }

  lemma {:induction false} AfterPopKeepsBalanced(c: Config, s: State, popped: Popped)
    requires Balanced(c, s) && (s.writer.Top? || s.writer.WokenCollect?)
    ensures Balanced(c, AfterPop(s, popped))
  {
    hide Flatten, PushedCount;
    FlattenSnoc(s.batches, popped.batch);
    PushedCountWake(s.submitters);
  }

  lemma {:induction false} PopKeepsBalanced(c: Config, s: State, deadline: bool)
    requires Balanced(c, s) && Enabled(c, s, Pop(deadline))
    ensures Balanced(c, PopStep(c, s, deadline))
  {
    hide AfterPop, Gather, PopFirst, Flatten, PushedCount;
    if s.writer.WokenCollect? {
      AfterPopKeepsBalanced(c, s, Gather(s.queue, s.accepting, c.maxJobs, s.writer.batch, deadline || s.writer.expired));
    } else if s.queue != [] {
      AfterPopKeepsBalanced(c, s, PopFirst(s.queue, s.accepting, c.maxJobs, deadline));
    }
  }

  lemma {:induction false} CheckKeepsBalanced(c: Config, s: State, p: nat, late: bool)
    requires Balanced(c, s) && Enabled(c, s, Check(p, late))
    ensures Balanced(c, CheckSubmitter(c, s, p, late))
  {
    hide Flatten, PushedCount;
    PushedCountPut(s.submitters, p, CheckSubmitter(c, s, p, late).submitters[p]);
  }

  lemma {:induction false} SubmitterKeepsBalanced(c: Config, s: State, step: Step)
    requires Balanced(c, s) && Enabled(c, s, step)
    requires !step.Pop? && !step.Execute? && !step.Respond? && !step.Check?
    ensures Balanced(c, Apply(c, s, step))
  {
    hide Flatten, PushedCount, WakeAll;
    PushedCountWake(s.submitters);
    if step.Submit? || step.Count? || step.Notify? || step.Receive? || step.Expire? || step.SpuriousWake? {
      PushedCountPut(s.submitters, step.p, Apply(c, s, step).submitters[step.p]);
    }
  }

  lemma {:induction false} ExecuteKeepsBalanced(c: Config, s: State)
    requires c.Valid() && Ordered(c, s) && Balanced(c, s) && Enabled(c, s, Execute)
    ensures Balanced(c, Apply(c, s, Execute))
  {
    var t := Apply(c, s, Execute);
    assert WellFormedBatch(s.writer.batch, c.maxJobs);
    GroupCommit.ProductGrows(s.counters.transactions, s.counters.largest, t.counters.largest);
    hide Flatten, PushedCount, Ordered, WellFormedBatch;
  }

  lemma {:induction false} RespondKeepsBalanced(c: Config, s: State)
    requires Ordered(c, s) && Balanced(c, s) && Enabled(c, s, Respond)
    ensures Balanced(c, Apply(c, s, Respond))
  {
    var n := |s.batches| - 1;
    assert s.batches == s.batches[..n] + [s.writer.batch];
    FlattenSnoc(s.batches[..n], s.writer.batch);
    hide Flatten, PushedCount, Ordered;
    assert s.writer.batch[s.writer.next] == Flatten(s.batches)[|s.answered|];
  }

  lemma {:induction false} StepKeepsBalanced(c: Config, s: State, step: Step)
    requires c.Valid() && Ordered(c, s) && Balanced(c, s) && Enabled(c, s, step)
    ensures Balanced(c, Apply(c, s, step))
  {
    hide Balanced, Ordered, PopStep, CheckSubmitter, Finish;
    if step.Pop? {
      PopKeepsBalanced(c, s, step.deadline);
    } else if step.Execute? {
      ExecuteKeepsBalanced(c, s);
    } else if step.Respond? {
      RespondKeepsBalanced(c, s);
    } else if step.Check? {
      CheckKeepsBalanced(c, s, step.p, step.late);
    } else {
      SubmitterKeepsBalanced(c, s, step);
    }
  }

  /** Ownership of every accepted ticket is the same in both. */
  ghost predicate SameOwners(s: State, t: State)
  {
    && |t.submitters| == |s.submitters| && |t.accepted| == |s.accepted| && |t.answered| >= |s.answered|
    && forall p, k: nat :: 0 <= p < |s.submitters| ==> Owns(t.submitters[p], k) == Owns(s.submitters[p], k)
  }

  lemma {:induction false} SameOwnersOwned(s: State, t: State)
    requires Owned(s) && SameOwners(s, t)
    ensures Owned(t)
  {
    forall p | 0 <= p < |t.submitters| && (t.submitters[p].Pushed? || t.submitters[p].Counted? || t.submitters[p].Awaiting?)
      ensures t.submitters[p].ticket < |t.accepted|
    {
      assert Owns(t.submitters[p], t.submitters[p].ticket);
      assert Owns(s.submitters[p], t.submitters[p].ticket);
    }
    forall k: nat | |t.answered| <= k < |t.accepted| ensures HasOwner(t.submitters, k) {
      assert HasOwner(s.submitters, k);
      var p :| 0 <= p < |s.submitters| && Owns(s.submitters[p], k);
      assert Owns(t.submitters[p], k);
    }
  }

  lemma {:induction false} CheckKeepsOwned(c: Config, s: State, p: nat, late: bool)
    requires Owned(s) && Enabled(c, s, Check(p, late))
    ensures Owned(CheckSubmitter(c, s, p, late))
  {
    var t := CheckSubmitter(c, s, p, late);
    if t.accepted == s.accepted {
      assert SameOwners(s, t);
      SameOwnersOwned(s, t);
    } else {
      assert t.submitters == s.submitters[p := Pushed(|s.accepted|)];
      hide CheckSubmitter;
      forall k: nat | |t.answered| <= k < |t.accepted| ensures HasOwner(t.submitters, k) {
        if k == |s.accepted| {
          assert Owns(t.submitters[p], k);
        } else {
          assert HasOwner(s.submitters, k);
          var q :| 0 <= q < |s.submitters| && Owns(s.submitters[q], k);
          assert Owns(t.submitters[q], k);
        }
      }
    }
  }

  lemma {:induction false} ReceiveKeepsOwned(c: Config, s: State, p: nat)
    requires Owned(s) && Enabled(c, s, Receive(p))
    ensures Owned(Apply(c, s, Receive(p)))
  {
    var t := Apply(c, s, Receive(p));
    forall k: nat | |t.answered| <= k < |t.accepted| ensures HasOwner(t.submitters, k) {
      assert HasOwner(s.submitters, k);
      var q :| 0 <= q < |s.submitters| && Owns(s.submitters[q], k);
      assert Owns(t.submitters[q], k);
    }
  }

  lemma {:induction false} StepKeepsOwned(c: Config, s: State, step: Step)
    requires Owned(s) && Enabled(c, s, step)
    ensures Owned(Apply(c, s, step))
  {
    if step.Check? {
      CheckKeepsOwned(c, s, step.p, step.late);
    } else if step.Receive? {
      ReceiveKeepsOwned(c, s, step.p);
    } else {
      var t := Apply(c, s, step);
      hide Owned, Gather, PopFirst, Finish, CheckSubmitter;
      assert SameOwners(s, t);
      SameOwnersOwned(s, t);
    }
  }

  // ------------------------------------------------------------ main results

  lemma {:induction false} SameSubmitters(c: Config, s: State, step: Step)
    requires Enabled(c, s, step)
    ensures |Apply(c, s, step).submitters| == |s.submitters|
  {
    hide Gather, PopFirst, Finish, Admit;
  }

  lemma {:induction false} StepKeepsSafe(c: Config, s: State, step: Step)
    requires c.Valid() && Safe(c, s) && Enabled(c, s, step)
    ensures Safe(c, Apply(c, s, step))
  {
    hide Apply, Ordered, Awake, Balanced, Owned, Enabled;
    SameSubmitters(c, s, step);
    StepKeepsOrdered(c, s, step);
    StepKeepsAwake(c, s, step);
    StepKeepsBalanced(c, s, step);
    StepKeepsOwned(c, s, step);
  }

  /** Every state of every run is safe. */
  lemma {:induction false} AlwaysSafe(c: Config, run: seq<State>, i: nat)
    requires c.Valid() && IsRun(c, run) && i < |run|
    ensures Safe(c, run[i])
  {
    hide Safe, Init, Enabled, Apply;
    if i == 0 {
      InitSafe(c);
    } else {
      AlwaysSafe(c, run, i - 1);
      assert Next(c, run[i - 1], run[i]);
      var step :| Enabled(c, run[i - 1], step) && run[i] == Apply(c, run[i - 1], step);
      StepKeepsSafe(c, run[i - 1], step);
    }
  }

  /** No lost wakeup: whoever sleeps on `not_full` faces a full, open queue, and
      a writer asleep beside a job is about to be notified. */
  lemma {:induction false} NoLostWakeup(c: Config, run: seq<State>, i: nat)
    requires c.Valid() && IsRun(c, run) && i < |run|
    ensures forall p :: 0 <= p < |run[i].submitters| && run[i].submitters[p].Asleep? ==>
              |run[i].queue| == c.capacity && run[i].accepting
    ensures WriterAsleep(run[i].writer) && run[i].queue != [] ==>
              exists p :: 0 <= p < |run[i].submitters| && (run[i].submitters[p].Pushed? || run[i].submitters[p].Counted?)
    ensures !run[i].accepting ==> !WriterAsleep(run[i].writer)
  {
    hide IsRun;
    AlwaysSafe(c, run, i);
    hide Balanced, Owned, Flatten, WellFormedBatch, HeldGroup;
  }

  /** Batches leave in the order of acceptance, and the writer exits only after
      every accepted job has been dequeued and answered once. */
  lemma {:induction false} FirstInFirstOut(c: Config, run: seq<State>, i: nat)
    requires c.Valid() && IsRun(c, run) && i < |run|
    ensures Flatten(run[i].batches) <= run[i].accepted && |run[i].queue| <= c.capacity
    ensures run[i].answered <= Flatten(run[i].batches)
    ensures forall k :: 0 <= k < |run[i].answered| ==> run[i].answered[k].ticket == k
    ensures run[i].writer.Exited? ==>
              !run[i].accepting && Flatten(run[i].batches) == run[i].accepted == run[i].answered
  {
    hide IsRun;
    AlwaysSafe(c, run, i);
    var s := run[i];
    hide Owned, Flatten, WellFormedBatch, HeldGroup, PushedCount;
    assert s.answered <= Flatten(s.batches) <= s.accepted;
    assert forall k :: 0 <= k < |s.answered| ==> s.answered[k] == s.accepted[k];
    if s.writer.Exited? {
      assert Flatten(s.batches) + [] + [] == Flatten(s.batches);
    }
  }

  /** Accepted jobs are completed, queued or held; submitted ones are accepted;
      a job is answered only after it is counted complete. */
  lemma {:induction false} Accounting(c: Config, run: seq<State>, i: nat)
    requires c.Valid() && IsRun(c, run) && i < |run|
    ensures var s := run[i];
            && |s.accepted| == s.counters.completed + |s.queue| + |Held(s.writer)|
                               + (if s.writer.Running? then |s.writer.batch| else 0)
            && s.counters.submitted + PushedCount(s.submitters) == |s.accepted|
            && |s.answered| <= s.counters.completed
            && s.counters.largest <= c.maxJobs
            && s.counters.grouped <= s.counters.transactions * s.counters.largest
  {
    hide IsRun;
    AlwaysSafe(c, run, i);
    hide Owned, Awake, Flatten, WellFormedBatch, HeldGroup, PushedCount;
  }

  /** A batch that `pop` returns is well formed and could not have been extended. */
  lemma {:induction false} BatchesAreMaximal(c: Config, s: State, deadline: bool)
    requires c.Valid() && Ordered(c, s) && Enabled(c, s, Pop(deadline))
    ensures var t := Apply(c, s, Pop(deadline));
            t.batches != s.batches ==>
              && t.writer.Running? && t.batches == s.batches + [t.writer.batch]
              && WellFormedBatch(t.writer.batch, c.maxJobs)
              && Maximal(Popped(t.writer.batch, t.queue, true), c.maxJobs)
  {
    if s.writer.WokenCollect? {
      GatherIsMaximal(s.queue, s.accepting, c.maxJobs, s.writer.batch, deadline || s.writer.expired);
      hide Gather, Ordered, WellFormedBatch;
    } else if s.queue != [] {
      PopFirstIsMaximal(s.queue, s.accepting, c.maxJobs, deadline);
      hide PopFirst, Ordered, WellFormedBatch;
    }
  }

  // --------------------------------------------------- what single steps do

  /** A submitter's critical section. An open queue with room admits under every
      policy; a full one refuses and counts, times out and counts, or puts the
      submitter to sleep; a closed one refuses without counting. */
  lemma {:induction false} AdmissionExactly(c: Config, s: State, p: nat, late: bool)
    requires Enabled(c, s, Check(p, late))
    ensures var t := Apply(c, s, Check(p, late)); var me := s.submitters[p];
            var room := |s.queue| < c.capacity;
            var outOfTime := me.policy == Timeout && me.Woken? && (late || me.expired);
            var job := Job(me.groupable, |s.accepted|);
            && (room && s.accepting ==>
                  t == s.(queue := s.queue + [job], accepted := s.accepted + [job],
                          submitters := s.submitters[p := Pushed(|s.accepted|)]))
            && (room && !s.accepting ==> t == s.(submitters := s.submitters[p := Idle]))
            && (!room && (me.policy == Reject || outOfTime) ==>
                  t == s.(submitters := s.submitters[p := Idle],
                          counters := s.counters.(rejected := s.counters.rejected + 1)))
            && (!room && me.policy != Reject && !outOfTime ==>
                  t == s.(submitters := s.submitters[p :=
                            if s.accepting then Asleep(me.groupable, me.policy) else Idle]))
  {}

  /** A submission enters with its own kind and policy, and a timeout that expired
      while it slept makes it give up on a queue that is still full. */
  lemma {:induction false} SubmissionKeepsPolicy(c: Config, s: State, p: nat, groupable: bool, policy: Policy, late: bool)
    ensures Enabled(c, s, Submit(p, groupable, policy)) ==>
              Apply(c, s, Submit(p, groupable, policy)) == s.(submitters := s.submitters[p := Entering(groupable, policy)])
    ensures Enabled(c, s, Expire(p)) && |s.queue| >= c.capacity ==>
              var t := Apply(c, s, Expire(p));
              && Enabled(c, t, Check(p, late))
              && Apply(c, t, Check(p, late))
                 == s.(submitters := s.submitters[p := Idle], counters := s.counters.(rejected := s.counters.rejected + 1))
  {
    if Enabled(c, s, Expire(p)) && |s.queue| >= c.capacity {
      var t := Apply(c, s, Expire(p));
      AdmissionExactly(c, t, p, late);
      assert t.submitters[p := Idle] == s.submitters[p := Idle];
    }
  }

  /** The writer's critical section. Without a job it sleeps on an open queue and
      leaves a closed one; with one it returns exactly when the job is exclusive,
      the group is full, the next job is exclusive, the queue is closed or its time
      is up, and waits for more otherwise. */
  lemma {:induction false} DequeueExactly(c: Config, s: State, deadline: bool)
    requires Ordered(c, s) && Enabled(c, s, Pop(deadline))
    ensures var t := Apply(c, s, Pop(deadline)); var before := Held(s.writer) + s.queue;
            && t.accepting == s.accepting && t.counters == s.counters
            && t.accepted == s.accepted && t.answered == s.answered
            && (before == [] ==> t == s.(writer := if s.accepting then AsleepFirst else Exited))
            && (before != [] ==>
                  && (t.writer.Running? || t.writer.AsleepCollect?) && t.writer.batch + t.queue == before
                  && (t.writer.Running? <==>
                        || !before[0].groupable || |t.writer.batch| == c.maxJobs || t.queue != [] || !s.accepting
                        || deadline || (s.writer.WokenCollect? && s.writer.expired))
                  && (before[0].groupable ==> |t.writer.batch| == c.maxJobs || t.queue == [] || !t.queue[0].groupable)
                  && (!before[0].groupable ==> t.writer.batch == [before[0]])
                  && forall i :: 1 <= i < |t.writer.batch| ==> t.writer.batch[i].groupable)
  {
    hide Flatten, Gather, PopFirst;
    if s.writer.WokenCollect? {
      GatherIsMaximal(s.queue, s.accepting, c.maxJobs, s.writer.batch, deadline || s.writer.expired);
    } else if s.queue != [] {
      assert [] + s.queue == s.queue;
      PopFirstIsMaximal(s.queue, s.accepting, c.maxJobs, deadline);
    }
  }

  /** A group that waits is returned as it is when its time is up. */
  lemma {:induction false} ExpiredGroupReturns(c: Config, s: State, deadline: bool)
    requires c.Valid() && Ordered(c, s) && s.writer.AsleepCollect?
    ensures var t := Apply(c, s, ExpireCollect);
            && Enabled(c, t, Pop(deadline)) && Apply(c, t, Pop(deadline)).writer.Running?
            && s.writer.batch <= Apply(c, t, Pop(deadline)).writer.batch
  {
    hide Flatten, Gather, WellFormedBatch;
    var t := Apply(c, s, ExpireCollect);
    GatherIsMaximal(t.queue, t.accepting, c.maxJobs, t.writer.batch, true);
    GatherKeeps(t.queue, t.accepting, c.maxJobs, t.writer.batch, true);
    var p := Gather(t.queue, t.accepting, c.maxJobs, t.writer.batch, true);
    assert (p.batch + p.rest)[..|t.writer.batch|] == t.writer.batch;
  }

  /** Executing a batch counts its jobs; a group also counts as one transaction,
      its size towards the largest, and, of more than one job, its jobs as grouped. */
  lemma {:induction false} ExecutionCounted(c: Config, s: State)
    requires Enabled(c, s, Execute)
    ensures var k, n := s.counters, |s.writer.batch|;
            Apply(c, s, Execute).counters ==
              if s.writer.batch[0].groupable then
                Counters(k.submitted, k.completed + n, k.rejected, k.transactions + 1,
                         k.grouped + (if n > 1 then n else 0), if n > k.largest then n else k.largest)
              else Counters(k.submitted, k.completed + n, k.rejected, k.transactions, k.grouped, k.largest)
  {}
}
