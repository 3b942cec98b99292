/** Automatic WAL maintenance on the writer, and the page-cache budget of a pool. */
module Maintenance {
  import opened Basics

  // ------------------------------------------------------------ checkpoints

  datatype Checkpoint = Checkpoint(wal: Option<nat>, copied: Option<nat>, busy: bool)

  function Remaining(r: Checkpoint): Option<nat>
  {
    if r.wal == None || r.copied == None then None
    else Some(if r.wal.value >= r.copied.value then r.wal.value - r.copied.value else 0)
  }

  predicate IsComplete(r: Checkpoint) { !r.busy && Remaining(r) == Some(0) }

  function OrZero(n: Option<nat>): nat { if n == None then 0 else n.value }

  // ---------------------------------------------------------------- runtime

  datatype Options = Options(enabled: bool, interval: nat, softLimit: nat)

  predicate ValidOptions(o: Options) { o.interval >= 1 && o.softLimit >= 1 }

  datatype Runtime = Runtime(options: Options, since: nat, pressure: bool)

  datatype Metrics = Metrics(
    runs: nat, automatic: nat, incomplete: nat, failures: nat, pressureEvents: nat,
    pressureActive: bool, enabled: bool, lastWal: nat, lastRemaining: nat)

  /** One job of the writer, with what the engine answers: a counted write, whose
      maintenance attempt would get `answer`; an explicit checkpoint; the two
      configuration jobs, which do nothing when the engine refuses. */
  datatype Job =
    | CountedWrite(answer: Option<Checkpoint>)
    | ExplicitCheckpoint(answer: Option<Checkpoint>)
    | SetAutocheckpoint(accepted: bool)
    | SetMaintenance(options: Options, accepted: bool)

  class Writer {
    var options: Options
    var since: nat
    var pressure: bool
    var metrics: Metrics

    constructor (options: Options)
      ensures View() == Runtime(options, 0, false)
      ensures metrics == Metrics(0, 0, 0, 0, 0, false, options.enabled, 0, 0)
    {
      this.options, since, pressure := options, 0, false;
      metrics := Metrics(0, 0, 0, 0, 0, false, options.enabled, 0, 0);
    }

    ghost function View(): Runtime
      reads this
    {
      Runtime(options, since, pressure)
    }

    method RecordCheckpoint(r: Checkpoint, automatic: bool)
      modifies `pressure, `metrics
      ensures (View(), metrics) == Recorded(old(View()), old(metrics), r, automatic)
      ensures var known := r.wal.Some? && r.copied.Some?;
              var left := if known && r.wal.value > r.copied.value then r.wal.value - r.copied.value else 0;
              var m := old(metrics);
              && pressure == metrics.pressureActive == (left > options.softLimit)
              && metrics.runs == m.runs + 1 && metrics.automatic == m.automatic + (if automatic then 1 else 0)
              && metrics.incomplete == m.incomplete + (if !r.busy && known && left == 0 then 0 else 1)
              && metrics.pressureEvents == m.pressureEvents + (if left > options.softLimit && !old(pressure) then 1 else 0)
              && metrics.lastWal == (if r.wal.Some? then r.wal.value else 0) && metrics.lastRemaining == left
              && metrics.failures == m.failures && metrics.enabled == m.enabled
    {
      metrics := metrics.(runs := metrics.runs + 1);
      if automatic { metrics := metrics.(automatic := metrics.automatic + 1); }
      if !IsComplete(r) { metrics := metrics.(incomplete := metrics.incomplete + 1); }
      metrics := metrics.(lastWal := OrZero(r.wal), lastRemaining := OrZero(Remaining(r)));
      var high := OrZero(Remaining(r)) > options.softLimit;
      if high && !pressure { metrics := metrics.(pressureEvents := metrics.pressureEvents + 1); }
      pressure := high;
      metrics := metrics.(pressureActive := high);
    }

    /** `after_write`, given what a checkpoint would answer now. */
    method AfterWrite(answer: Option<Checkpoint>)
      modifies this
      ensures (View(), metrics) == After(old(View()), old(metrics), CountedWrite(answer))
      ensures options == old(options)
      ensures var due := old(pressure) || old(since) + 1 >= options.interval;
              if !options.enabled then since == old(since) && pressure == old(pressure) && metrics == old(metrics)
              else if !due then since == old(since) + 1 && pressure == old(pressure) && metrics == old(metrics)
              else
                && since == 0
                && if answer == None then
                     pressure == old(pressure) && metrics == old(metrics).(failures := old(metrics.failures) + 1)
                   else
                     && metrics.automatic == old(metrics.automatic) + 1 && metrics.runs == old(metrics.runs) + 1
                     && metrics.failures == old(metrics.failures)
                     && pressure == (answer.value.wal.Some? && answer.value.copied.Some?
                                     && answer.value.wal.value > answer.value.copied.value + options.softLimit)
    {
      if !options.enabled { return; }
      since := since + 1;
      if !pressure && since < options.interval { return; }
      since := 0;
      if answer.Some? {
        RecordCheckpoint(answer.value, true);
      } else {
        metrics := metrics.(failures := metrics.failures + 1);
      }
    }

    method Run(job: Job)
      modifies this
      ensures (View(), metrics) == After(old(View()), old(metrics), job)
      ensures job.SetAutocheckpoint? && job.accepted ==>
                && options == old(options).(enabled := false) && since == 0 && !pressure
                && metrics == old(metrics).(enabled := false, pressureActive := false)
      ensures job.SetMaintenance? && job.accepted ==>
                && options == job.options && since == 0 && !pressure
                && metrics == old(metrics).(enabled := job.options.enabled, pressureActive := false)
      ensures (job.SetAutocheckpoint? || job.SetMaintenance?) && !job.accepted ==>
                View() == old(View()) && metrics == old(metrics)
      ensures job.ExplicitCheckpoint? ==>
                && options == old(options) && since == old(since)
                && metrics.automatic == old(metrics.automatic) && metrics.failures == old(metrics.failures)
                && metrics.runs == old(metrics.runs) + if job.answer.Some? then 1 else 0
    {
      match job
      case CountedWrite(answer) => AfterWrite(answer);
      case ExplicitCheckpoint(answer) => if answer.Some? { RecordCheckpoint(answer.value, false); }
      case SetAutocheckpoint(accepted) =>
        if accepted {
          options, since, pressure := options.(enabled := false), 0, false;
          metrics := metrics.(enabled := false, pressureActive := false);
        }
      case SetMaintenance(chosen, accepted) =>
        if accepted {
          options, since, pressure := chosen, 0, false;
          metrics := metrics.(enabled := chosen.enabled, pressureActive := false);
        }
    }
  }

  // ----------------------------------------------------------- specification

  function Recorded(w: Runtime, m: Metrics, r: Checkpoint, automatic: bool): (Runtime, Metrics)
  {
    var high := OrZero(Remaining(r)) > w.options.softLimit;
    (w.(pressure := high),
     Metrics(m.runs + 1, m.automatic + (if automatic then 1 else 0), m.incomplete + (if IsComplete(r) then 0 else 1),
             m.failures, m.pressureEvents + (if high && !w.pressure then 1 else 0),
             high, m.enabled, OrZero(r.wal), OrZero(Remaining(r))))
  }

  /** Whether a job makes an automatic checkpoint attempt. */
  predicate Attempts(w: Runtime, job: Job)
  {
    job.CountedWrite? && w.options.enabled && (w.pressure || w.since + 1 >= w.options.interval)
  }

  function After(w: Runtime, m: Metrics, job: Job): (Runtime, Metrics)
  {
    match job
    case CountedWrite(answer) =>
      if !w.options.enabled then (w, m)
      else if !Attempts(w, job) then (w.(since := w.since + 1), m)
      else if answer.Some? then Recorded(w.(since := 0), m, answer.value, true)
      else (w.(since := 0), m.(failures := m.failures + 1))
    case ExplicitCheckpoint(answer) => if answer.Some? then Recorded(w, m, answer.value, false) else (w, m)
    case SetAutocheckpoint(accepted) =>
      if accepted then (Runtime(w.options.(enabled := false), 0, false), m.(enabled := false, pressureActive := false))
      else (w, m)
    case SetMaintenance(chosen, accepted) =>
      if accepted then (Runtime(chosen, 0, false), m.(enabled := chosen.enabled, pressureActive := false)) else (w, m)
  }

  function Replay(options: Options, jobs: seq<Job>): (Runtime, Metrics)
  {
    if jobs == [] then
      (Runtime(options, 0, false), Metrics(0, 0, 0, 0, 0, false, options.enabled, 0, 0))
    else
      var (w, m) := Replay(options, jobs[..|jobs| - 1]);
      After(w, m, jobs[|jobs| - 1])
  }

  /** Automatic attempts of a job sequence. */
  function AttemptCount(options: Options, jobs: seq<Job>): nat
  {
    if jobs == [] then 0
    else
      var n := |jobs| - 1;
      AttemptCount(options, jobs[..n]) + if Attempts(Replay(options, jobs[..n]).0, jobs[n]) then 1 else 0
  }

  /** Jobs after which the pressure flag is up and before which it was down. */
  function RisingEdges(options: Options, jobs: seq<Job>): nat
  {
    if jobs == [] then 0
    else
      var n := |jobs| - 1;
      RisingEdges(options, jobs[..n])
      + if !Replay(options, jobs[..n]).0.pressure && Replay(options, jobs).0.pressure then 1 else 0
  }

  /** Counted writes since the last attempt or reconfiguration. */
  function WritesSince(options: Options, jobs: seq<Job>): nat
  {
    if jobs == [] then 0
    else
      var n := |jobs| - 1;
      var last := jobs[n];
      if Attempts(Replay(options, jobs[..n]).0, last) || Resets(last) then 0
      else
        WritesSince(options, jobs[..n])
        + if last.CountedWrite? && Replay(options, jobs[..n]).0.options.enabled then 1 else 0
  }

  ghost predicate ValidJobs(options: Options, jobs: seq<Job>)
  {
    && ValidOptions(options)
    && forall i :: 0 <= i < |jobs| && jobs[i].SetMaintenance? ==> ValidOptions(jobs[i].options)
  }

  predicate Resets(job: Job)
  {
    (job.SetAutocheckpoint? && job.accepted) || (job.SetMaintenance? && job.accepted)
  }

  /** What every job keeps and adds. */
  lemma {:induction false} JobAdds(w: Runtime, m: Metrics, job: Job)
    requires ValidOptions(w.options) && w.since < w.options.interval
    requires job.SetMaintenance? ==> ValidOptions(job.options)
    requires m.pressureActive == w.pressure && m.enabled == w.options.enabled
    requires m.automatic <= m.runs && m.incomplete <= m.runs
    ensures var (v, k) := After(w, m, job);
            && ValidOptions(v.options) && v.since < v.options.interval
            && v.since == (if Attempts(w, job) || Resets(job) then 0
                           else w.since + if job.CountedWrite? && w.options.enabled then 1 else 0)
            && k.automatic + k.failures == m.automatic + m.failures + (if Attempts(w, job) then 1 else 0)
            && k.pressureEvents == m.pressureEvents + (if !w.pressure && v.pressure then 1 else 0)
            && k.pressureActive == v.pressure && k.enabled == v.options.enabled
            && k.automatic <= k.runs && k.incomplete <= k.runs
  {}

  /** Over any job sequence: fewer counted writes since the last attempt than the
      interval, every attempt a run or a failure, an event per rising edge, and
      published flags equal to the runtime's. */
  lemma {:induction false} MaintenanceHolds(options: Options, jobs: seq<Job>)
    requires ValidJobs(options, jobs)
    ensures var (w, m) := Replay(options, jobs);
            && ValidOptions(w.options)
            && w.since == WritesSince(options, jobs) < w.options.interval
            && m.automatic + m.failures == AttemptCount(options, jobs)
            && m.automatic <= m.runs && m.incomplete <= m.runs
            && m.pressureEvents == RisingEdges(options, jobs)
            && m.pressureActive == w.pressure && m.enabled == w.options.enabled
  {
    if jobs != [] {
      var n := |jobs| - 1;
      MaintenanceHolds(options, jobs[..n]);
      var (w, m) := Replay(options, jobs[..n]);
      hide After, Attempts, ValidOptions;
      JobAdds(w, m, jobs[n]);
    }
  }

  /** Under pressure every counted write attempts a checkpoint, and a checkpoint
      that leaves at most the soft limit ends the pressure. */
  lemma {:induction false} PressureIsPressing(options: Options, jobs: seq<Job>, answer: Option<Checkpoint>)
    requires ValidJobs(options, jobs)
    ensures var (w, m) := Replay(options, jobs);
            var (v, k) := Replay(options, jobs + [CountedWrite(answer)]);
            && (w.pressure && w.options.enabled ==> k.automatic + k.failures == m.automatic + m.failures + 1)
            && (w.pressure && !v.pressure ==> answer.Some? && OrZero(Remaining(answer.value)) <= w.options.softLimit)
  {
    assert (jobs + [CountedWrite(answer)])[..|jobs|] == jobs;
  }

  /** Over any job sequence: a checkpoint is attempted exactly at a counted write
      that finds pressure or completes the interval, and the pressure flag is what
      the last recorded checkpoint left against the soft limit of its time. */
  lemma {:induction false} AttemptsExactly(options: Options, jobs: seq<Job>, job: Job)
    requires ValidJobs(options, jobs)
    ensures var (w, m) := Replay(options, jobs);
            var (v, k) := Replay(options, jobs + [job]);
            var attempt := && job.CountedWrite? && w.options.enabled
                           && (w.pressure || WritesSince(options, jobs) + 1 >= w.options.interval);
            var answered := (attempt || job.ExplicitCheckpoint?) && job.answer.Some?;
            && k.automatic + k.failures == m.automatic + m.failures + (if attempt then 1 else 0)
            && k.runs == m.runs + (if answered then 1 else 0)
            && v.pressure == (if answered then
                                && job.answer.value.wal.Some? && job.answer.value.copied.Some?
                                && job.answer.value.wal.value > job.answer.value.copied.value + w.options.softLimit
                              else if Resets(job) then false
                              else w.pressure)
  {
    hide WritesSince;
    MaintenanceHolds(options, jobs);
    assert (jobs + [job])[..|jobs|] == jobs;
  }

  // ------------------------------------------------------------ cache budget

  const KIB: nat := 1024

  function RoundDown(n: nat): nat { n / KIB * KIB }

  /** The KiB the connection set-up asks for, in bytes. */
  function RoundUp(n: nat): nat { (n + KIB - 1) / KIB * KIB }

  /** What `n` connections with a share each take. */
  function Taken(n: nat, share: nat): nat { n * share }

  /** The page-cache share of each of `readers + 1` connections. */
  function CacheShare(budget: nat, cache: nat, readers: nat): Option<nat>
  {
    var share := budget / (readers + 1);
    var selected := RoundDown(if cache <= share then cache else share);
    if selected < KIB then None else Some(selected)
  }

  /** A share every connection can have. */
  ghost predicate Affordable(budget: nat, cache: nat, readers: nat, share: nat)
  {
    share >= 1024 && share % 1024 == 0 && share <= cache && (readers + 1) * share <= budget
  }

  lemma {:induction false} AffordableMeans(budget: nat, cache: nat, readers: nat, share: nat)
    ensures Affordable(budget, cache, readers, share) <==>
              share >= KIB && share % KIB == 0 && share <= cache && Taken(readers + 1, share) <= budget
  {}

  lemma {:induction false} RoundUpMeans(n: nat)
    ensures RoundUp(n) == (n + 1023) / 1024 * 1024
  {}

  lemma {:induction false} TakenGrows(n: nat, a: nat, b: nat)
    requires a <= b
    ensures Taken(n, a) <= Taken(n, b)
    decreases b - a
  {
    if a < b {
      TakenGrows(n, a, b - 1);
      assert n * b == n * (b - 1) + n;
    }
  }

  lemma {:induction false} QuotientTaken(n: nat, d: nat)
    requires d > 0
    ensures Taken(d, n / d) <= n < Taken(d, n / d + 1)
  {
    assert Taken(d, n / d + 1) == Taken(d, n / d) + d;
  }

  /** A quotient, given by its defining bounds, is the largest affordable share. */
  lemma {:induction false} QuotientBounds(n: nat, d: nat, k: nat, q: nat)
    requires Taken(d, k) <= n < Taken(d, k + 1)
    ensures q <= k <==> Taken(d, q) <= n
  {
    hide Taken;
    if q <= k { TakenGrows(d, q, k); } else { TakenGrows(d, k + 1, q); }
  }

  lemma {:induction false} RoundingDown(n: nat, other: nat)
    ensures RoundDown(n) <= n && RoundDown(n) % KIB == 0
    ensures RoundUp(RoundDown(n)) == RoundDown(n)
    ensures other % KIB == 0 && other <= n ==> other <= RoundDown(n)
  {}

  /** The share is the largest affordable one; it is refused exactly when none
      is; and rounding it up to KiB when the connection is set up keeps it. */
  lemma {:induction false} ShareIsLargest(budget: nat, cache: nat, readers: nat, other: nat)
    ensures var r := CacheShare(budget, cache, readers);
            && (r == None ==> !Affordable(budget, cache, readers, other))
            && (r.Some? ==> Affordable(budget, cache, readers, r.value))
            && (r.Some? && Affordable(budget, cache, readers, other) ==> other <= r.value)
            && (r.Some? ==> (r.value + 1023) / 1024 * 1024 == r.value)
  {
    hide RoundDown, RoundUp, Taken, Affordable;
    var share := budget / (readers + 1);
    var least := if cache <= share then cache else share;
    QuotientTaken(budget, readers + 1);
    QuotientBounds(budget, readers + 1, share, RoundDown(least));
    QuotientBounds(budget, readers + 1, share, other);
    RoundingDown(least, other);
    AffordableMeans(budget, cache, readers, RoundDown(least));
    AffordableMeans(budget, cache, readers, other);
    RoundUpMeans(RoundDown(least));
  }
}
