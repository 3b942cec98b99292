/** The bounded write queue. A call of `push` or `pop` is a chain of critical
    sections separated by waits; each section is one method here, proved against
    the function that the interleaving model in `QueueRuns` uses as its step. */
module WriteQueue {
  import opened Basics

  /** `ticket` numbers the accepted jobs; it is the identity of a job. */
  datatype Job = Job(groupable: bool, ticket: nat)

  datatype Policy = Wait | Reject | Timeout

  datatype Admission = Admitted | Sleeping | Full | TimedOut | Closed

  /** What one critical section of `push` decides. `woken` says whether the
      caller comes back from a wait, `expired` whether its time is up. */
  function Admit(jobs: seq<Job>, accepting: bool, capacity: nat, policy: Policy, woken: bool, expired: bool): Admission
  {
    var full := |jobs| >= capacity;
    match policy
    case Reject => if full then Full else if !accepting then Closed else Admitted
    case Wait => if full && accepting then Sleeping else if !accepting then Closed else Admitted
    case Timeout =>
      if woken && full && expired then TimedOut
      else if full && accepting then Sleeping
      else if !accepting then Closed
      else Admitted
  }

  /** Number of leading groupable jobs, at most `room`. */
  function LeadingGroup(jobs: seq<Job>, room: nat): (n: nat)
    ensures n <= room && n <= |jobs|
    ensures forall i :: 0 <= i < n ==> jobs[i].groupable
    ensures n < room && n < |jobs| ==> !jobs[n].groupable
  {
    if room == 0 || jobs == [] || !jobs[0].groupable then 0 else 1 + LeadingGroup(jobs[1..], room - 1)
  }

  /** What one critical section of `pop` leaves: the batch so far, the queue and
      whether `pop` returns the batch now or waits for more. */
  datatype Popped = Popped(batch: seq<Job>, rest: seq<Job>, done: bool)

  function Gather(jobs: seq<Job>, accepting: bool, maxJobs: nat, batch: seq<Job>, deadline: bool): Popped
    requires |batch| <= maxJobs
  {
    var n := LeadingGroup(jobs, maxJobs - |batch|);
    Popped(batch + jobs[..n], jobs[n..], |batch| + n == maxJobs || n < |jobs| || !accepting || deadline)
  }

  /** Taking one more groupable job does not change what is gathered in the end. */
  lemma {:induction false} GatherOne(jobs: seq<Job>, accepting: bool, maxJobs: nat, batch: seq<Job>, deadline: bool)
    requires |batch| < maxJobs && jobs != [] && jobs[0].groupable
    ensures Gather(jobs, accepting, maxJobs, batch, deadline)
         == Gather(jobs[1..], accepting, maxJobs, batch + [jobs[0]], deadline)
  {
    var n := LeadingGroup(jobs[1..], maxJobs - |batch| - 1);
    assert jobs[..n + 1] == [jobs[0]] + jobs[1..][..n];
    assert jobs[n + 1..] == jobs[1..][n..];
  }

  lemma {:induction false} GatherNone(jobs: seq<Job>, accepting: bool, maxJobs: nat, batch: seq<Job>, deadline: bool)
    requires |batch| == maxJobs || (|batch| < maxJobs && (jobs == [] || !jobs[0].groupable))
    ensures Gather(jobs, accepting, maxJobs, batch, deadline)
         == Popped(batch, jobs, |batch| == maxJobs || jobs != [] || !accepting || deadline)
  {}

  lemma {:induction false} GatherKeeps(jobs: seq<Job>, accepting: bool, maxJobs: nat, batch: seq<Job>, deadline: bool)
    requires |batch| <= maxJobs
    ensures var p := Gather(jobs, accepting, maxJobs, batch, deadline);
            && p.batch + p.rest == batch + jobs && |batch| <= |p.batch| <= maxJobs
            && (forall i :: |batch| <= i < |p.batch| ==> p.batch[i].groupable)
  {
    hide LeadingGroup;
    SplitAfter(batch, jobs, LeadingGroup(jobs, maxJobs - |batch|));
  }

  /** From an empty-handed writer that finds a job. */
  function PopFirst(jobs: seq<Job>, accepting: bool, maxJobs: nat, deadline: bool): Popped
    requires jobs != [] && maxJobs >= 1
  {
    if jobs[0].groupable then Gather(jobs[1..], accepting, maxJobs, [jobs[0]], deadline)
    else Popped([jobs[0]], jobs[1..], true)
  }

  /** One exclusive job, or up to `maxJobs` groupable ones. */
  ghost predicate WellFormedBatch(batch: seq<Job>, maxJobs: nat)
  {
    && batch != []
    && (|batch| == 1 || (|batch| <= maxJobs && forall i :: 0 <= i < |batch| ==> batch[i].groupable))
  }

  /** A returned batch cannot be extended: it is exclusive or full, or the next
      job is exclusive or missing. */
  ghost predicate Maximal(p: Popped, maxJobs: nat)
  {
    || (|p.batch| == 1 && !p.batch[0].groupable)
    || |p.batch| == maxJobs
    || p.rest == []
    || !p.rest[0].groupable
  }

  ghost predicate HeldGroup(batch: seq<Job>, maxJobs: nat)
  {
    1 <= |batch| < maxJobs && forall i :: 0 <= i < |batch| ==> batch[i].groupable
  }

  lemma {:induction false} GatherIsMaximal(
      jobs: seq<Job>, accepting: bool, maxJobs: nat, batch: seq<Job>, deadline: bool)
    requires batch != [] && |batch| <= maxJobs && forall i :: 0 <= i < |batch| ==> batch[i].groupable
    ensures var p := Gather(jobs, accepting, maxJobs, batch, deadline);
            && p.batch + p.rest == batch + jobs
            && WellFormedBatch(p.batch, maxJobs) && Maximal(p, maxJobs) && |p.batch| >= |batch|
            && (p.done <==> |p.batch| == maxJobs || p.rest != [] || !accepting || deadline)
            && (!p.done ==> p.rest == [] && accepting && HeldGroup(p.batch, maxJobs))
  {
    hide LeadingGroup;
    var n := LeadingGroup(jobs, maxJobs - |batch|);
    SplitAfter(batch, jobs, n);
  }

  lemma {:induction false} SplitAfter<X>(a: seq<X>, b: seq<X>, n: nat)
    requires n <= |b|
    ensures (a + b[..n]) + b[n..] == a + b
  {}

  lemma {:induction false} PopFirstIsMaximal(jobs: seq<Job>, accepting: bool, maxJobs: nat, deadline: bool)
    requires jobs != [] && maxJobs >= 1
    ensures var p := PopFirst(jobs, accepting, maxJobs, deadline);
            && p.batch + p.rest == jobs
            && WellFormedBatch(p.batch, maxJobs) && Maximal(p, maxJobs) && |p.batch| >= 1
            && (p.done <==>
                  || !jobs[0].groupable || |p.batch| == maxJobs || p.rest != [] || !accepting || deadline)
            && (!jobs[0].groupable ==> p.batch == [jobs[0]])
            && (!p.done ==> p.rest == [] && accepting && HeldGroup(p.batch, maxJobs))
  {
    assert [jobs[0]] + jobs[1..] == jobs;
    if jobs[0].groupable {
      GatherIsMaximal(jobs[1..], accepting, maxJobs, [jobs[0]], deadline);
    }
  }

  class WriteQueue {
    const capacity: nat
    var jobs: seq<Job>
    var accepting: bool

    constructor (capacity: nat)
      ensures this.capacity == capacity && jobs == [] && accepting
    {
      this.capacity := capacity;
      jobs := [];
      accepting := true;
    }

    /** A critical section of `push`: sleeping means the caller waits on `not_full`. */
    method TryPush(job: Job, policy: Policy, woken: bool, expired: bool) returns (admission: Admission)
      modifies `jobs
      ensures admission == Admit(old(jobs), accepting, capacity, policy, woken, expired)
      ensures admission == Admitted <==> accepting && old(|jobs|) < capacity
      ensures admission == Full <==> policy == Reject && old(|jobs|) >= capacity
      ensures admission == TimedOut <==> policy == Timeout && woken && expired && old(|jobs|) >= capacity
      ensures admission == Sleeping <==>
                policy != Reject && accepting && old(|jobs|) >= capacity && !(policy == Timeout && woken && expired)
      ensures jobs == if admission == Admitted then old(jobs) + [job] else old(jobs)
      ensures old(|jobs|) <= capacity ==> |jobs| <= capacity
    {
      if policy == Reject {
        if |jobs| >= capacity { return Full; }
      } else if policy == Timeout && woken {
        if |jobs| >= capacity {
          if expired { return TimedOut; }
          if accepting { return Sleeping; }
        }
      } else if accepting && |jobs| >= capacity {
        return Sleeping;
      }
      if !accepting { return Closed; }
      jobs := jobs + [job];
      admission := Admitted;
    }

    /** The collecting loop of `pop`. `wake` reports that `not_full` is notified,
        which happens with every job taken. */
    method Collect(maxJobs: nat, held: seq<Job>, deadline: bool) returns (popped: Popped, wake: bool)
      requires |held| <= maxJobs
      modifies `jobs
      ensures popped == Gather(old(jobs), accepting, maxJobs, held, deadline)
      ensures jobs == popped.rest && popped.batch + popped.rest == held + old(jobs)
      ensures |held| <= |popped.batch| <= maxJobs
      ensures forall i :: |held| <= i < |popped.batch| ==> popped.batch[i].groupable
      ensures |popped.batch| == maxJobs || jobs == [] || !jobs[0].groupable
      ensures popped.done <==> |popped.batch| == maxJobs || jobs != [] || !accepting || deadline
      ensures wake <==> |jobs| < |old(jobs)|
    {
      hide Gather;
      var batch := held;
      wake := false;
      while |batch| < maxJobs && jobs != [] && jobs[0].groupable
        invariant |batch| <= maxJobs && |jobs| <= |old(jobs)|
        invariant wake <==> |jobs| < |old(jobs)|
        invariant Gather(old(jobs), accepting, maxJobs, held, deadline)
               == Gather(jobs, accepting, maxJobs, batch, deadline)
        decreases |jobs|
      {
        GatherOne(jobs, accepting, maxJobs, batch, deadline);
        batch := batch + [jobs[0]];
        jobs := jobs[1..];
        wake := true;
      }
      GatherNone(jobs, accepting, maxJobs, batch, deadline);
      GatherKeeps(old(jobs), accepting, maxJobs, held, deadline);
      var done := |batch| == maxJobs || jobs != [] || !accepting || deadline;
      popped := Popped(batch, jobs, done);
    }

    /** The first part of `pop`: no job and still accepting means the writer waits. */
    method TakeFirst(maxJobs: nat, deadline: bool) returns (popped: Option<Popped>, wake: bool)
      requires maxJobs >= 1
      modifies `jobs
      ensures old(jobs) == [] ==> popped == None && !wake && jobs == []
      ensures old(jobs) != [] ==>
                && popped == Some(PopFirst(old(jobs), accepting, maxJobs, deadline))
                && jobs == popped.value.rest && wake
                && popped.value.batch + jobs == old(jobs) && 1 <= |popped.value.batch| <= maxJobs
                && (forall i :: 1 <= i < |popped.value.batch| ==> old(jobs)[0].groupable && popped.value.batch[i].groupable)
                && (old(jobs)[0].groupable ==> |popped.value.batch| == maxJobs || jobs == [] || !jobs[0].groupable)
                && (popped.value.done <==>
                      || !old(jobs)[0].groupable || |popped.value.batch| == maxJobs || jobs != [] || !accepting || deadline)
    {
      if jobs == [] {
        return None, false;
      }
      var first := jobs[0];
      jobs := jobs[1..];
      assert [first] + jobs == old(jobs);
      if !first.groupable {
        return Some(Popped([first], jobs, true)), true;
      }
      var p, _ := Collect(maxJobs, [first], deadline);
      popped, wake := Some(p), true;
    }

    /** `wake` reports that both condition variables are notified. */
    method Close() returns (wake: bool)
      modifies `accepting
      ensures !accepting && wake
    {
      accepting := false;
      wake := true;
    }
  }
}
