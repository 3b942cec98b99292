/** The fault-injection controller: a one-shot rule that fires on the N-th
    matching storage operation of any trace. */
module Fault {
  import opened Basics

  const MAX: nat := 0xFFFF_FFFF_FFFF_FFFF

  datatype Target = Any | MainDatabase | WriteAheadLog
  datatype Operation = Write | Sync | Truncate
  datatype Action = Fail | PartialWrite(prefix: nat)
  datatype Rule = Rule(operation: Operation, target: Target, occurrence: nat, action: Action)

  /** What the rule constructors accept. */
  predicate ValidRule(r: Rule)
  {
    && 1 <= r.occurrence <= MAX
    && (r.action.PartialWrite? ==> r.operation == Write && r.action.prefix >= 1)
  }

  function NewRule(operation: Operation, target: Target, occurrence: nat, action: Action): (r: Option<Rule>)
    requires occurrence <= MAX && (action.PartialWrite? ==> operation == Write)
    ensures r.Some? <==> occurrence >= 1 && (action.PartialWrite? ==> action.prefix >= 1)
    ensures r.Some? ==> ValidRule(r.value)
    ensures r.Some? ==> r.value == Rule(operation, target, occurrence, action)
  {
    if action.PartialWrite? && action.prefix == 0 then None
    else if occurrence == 0 then None
    else Some(Rule(operation, target, occurrence, action))
  }

  predicate TargetMatches(expected: Target, actual: Target) { expected == Any || expected == actual }

  datatype Op = Op(operation: Operation, target: Target)

  predicate Matches(rule: Rule, op: Op)
  {
    rule.operation == op.operation && TargetMatches(rule.target, op.target)
  }

  function SaturatingAdd(a: nat, b: nat): nat { if a + b <= MAX then a + b else MAX }

  datatype Stats = Stats(writes: nat, syncs: nat, truncates: nat, matching: nat, injections: nat)

  /** The controller's fields as one value. */
  datatype Control = Control(rule: Option<Rule>, matchCount: nat, stats: Stats)

  function Counted(stats: Stats, operation: Operation): Stats
  {
    match operation
    case Write => stats.(writes := SaturatingAdd(stats.writes, 1))
    case Sync => stats.(syncs := SaturatingAdd(stats.syncs, 1))
    case Truncate => stats.(truncates := SaturatingAdd(stats.truncates, 1))
  }

  /** One intercepted operation: the new control state and what is injected. */
  function Intercepted(c: Control, op: Op): (Control, Option<Action>)
  {
    var stats := Counted(c.stats, op.operation);
    if c.rule == None || !Matches(c.rule.value, op) then (c.(stats := stats), None)
    else
      var count := SaturatingAdd(c.matchCount, 1);
      var matched := stats.(matching := SaturatingAdd(stats.matching, 1));
      if count != c.rule.value.occurrence then (Control(c.rule, count, matched), None)
      else
        (Control(None, count, matched.(injections := SaturatingAdd(matched.injections, 1))), Some(c.rule.value.action))
  }

  class Controller {
    var rule: Option<Rule>
    var matchCount: nat
    var stats: Stats

    constructor ()
      ensures View() == Control(None, 0, Stats(0, 0, 0, 0, 0))
    {
      rule, matchCount, stats := None, 0, Stats(0, 0, 0, 0, 0);
    }

    ghost function View(): Control
      reads this
    {
      Control(rule, matchCount, stats)
    }

    method Arm(r: Rule)
      modifies this
      ensures View() == Control(Some(r), 0, old(stats))
    {
      rule := Some(r);
      matchCount := 0;
    }

    method Disarm()
      modifies this
      ensures View() == Control(None, 0, old(stats))
    {
      rule := None;
      matchCount := 0;
    }

    /** The operation is counted under its own kind; one that an armed rule selects
        counts as a match, and the rule fires and goes when the match is its
        occurrence-th. */
    method Intercept(op: Op) returns (injected: Option<Action>)
      modifies this
      ensures (View(), injected) == Intercepted(old(View()), op)
      ensures var up := (n: nat) => if n < 0xFFFF_FFFF_FFFF_FFFF then n + 1 else 0xFFFF_FFFF_FFFF_FFFF;
              var was := old(stats);
              var hit := && old(rule).Some? && old(rule).value.operation == op.operation
                         && (old(rule).value.target == Any || old(rule).value.target == op.target);
              var fires := hit && matchCount == old(rule).value.occurrence;
              && stats.writes == (if op.operation == Write then up(was.writes) else was.writes)
              && stats.syncs == (if op.operation == Sync then up(was.syncs) else was.syncs)
              && stats.truncates == (if op.operation == Truncate then up(was.truncates) else was.truncates)
              && stats.matching == (if hit then up(was.matching) else was.matching)
              && stats.injections == (if fires then up(was.injections) else was.injections)
              && matchCount == (if hit then up(old(matchCount)) else old(matchCount))
              && rule == (if fires then None else old(rule))
              && injected == (if fires then Some(old(rule).value.action) else None)
    {
      stats := Counted(stats, op.operation);
      if rule == None || !Matches(rule.value, op) { return None; }
      matchCount := SaturatingAdd(matchCount, 1);
      stats := stats.(matching := SaturatingAdd(stats.matching, 1));
      if matchCount != rule.value.occurrence { return None; }
      injected := Some(rule.value.action);
      rule := None;
      stats := stats.(injections := SaturatingAdd(stats.injections, 1));
    }
  }

  // ----------------------------------------------------------------- traces

  datatype Event = Arming(rule: Rule) | Disarming | Access(op: Op)

  function After(c: Control, e: Event): Control
  {
    match e
    case Arming(r) => Control(Some(r), 0, c.stats)
    case Disarming => Control(None, 0, c.stats)
    case Access(op) => Intercepted(c, op).0
  }

  function Replay(c: Control, trace: seq<Event>): Control
  {
    if trace == [] then c else After(Replay(c, trace[..|trace| - 1]), trace[|trace| - 1])
  }

  /** What the k-th event of a trace injects. */
  function InjectedAt(c: Control, trace: seq<Event>, k: nat): Option<Action>
    requires k < |trace|
  {
    if trace[k].Access? then Intercepted(Replay(c, trace[..k]), trace[k].op).1 else None
  }

  function Hits(rule: Rule, trace: seq<Event>): (n: nat)
    ensures n <= |trace|
  {
    if trace == [] then 0
    else
      var last := trace[|trace| - 1];
      Hits(rule, trace[..|trace| - 1]) + if last.Access? && Matches(rule, last.op) then 1 else 0
  }

  ghost predicate OnlyAccesses(trace: seq<Event>)
  {
    forall i :: 0 <= i < |trace| ==> trace[i].Access?
  }

  function Least(a: nat, b: nat): nat { if a <= b then a else b }

  /** While the rule waits, the counter is the saturated number of matches so far. */
  lemma {:induction false} ArmedState(c: Control, rule: Rule, trace: seq<Event>)
    requires ValidRule(rule) && OnlyAccesses(trace)
    ensures var after := Replay(Control(Some(rule), 0, c.stats), trace);
            if Hits(rule, trace) < rule.occurrence
            then after.rule == Some(rule) && after.matchCount == Hits(rule, trace)
            else after.rule == None
  {
    if trace != [] {
      ArmedState(c, rule, trace[..|trace| - 1]);
    }
  }

  /** The events of a trace that the rule selects: accesses of its operation, on
      its target or, for `Any`, on whichever. */
  ghost function Selected(rule: Rule, trace: seq<Event>): set<nat>
  {
    set j: nat |
      && j < |trace| && trace[j].Access? && trace[j].op.operation == rule.operation
      && (rule.target == Any || rule.target == trace[j].op.target)
  }

  lemma {:induction false} HitsAreSelected(rule: Rule, trace: seq<Event>)
    ensures Hits(rule, trace) == |Selected(rule, trace)|
  {
    if trace == [] {
      assert Selected(rule, trace) == {};
    } else {
      var n := |trace| - 1;
      HitsAreSelected(rule, trace[..n]);
      assert Selected(rule, trace)
          == Selected(rule, trace[..n]) + if trace[n].Access? && Matches(rule, trace[n].op) then {n} else {};
    }
  }

  /** After arming, whatever the operations, exactly the occurrence-th selected
      one is injected, with the rule's action, and no other. */
  lemma {:induction false} OneShot(c: Control, rule: Rule, trace: seq<Event>, k: nat)
    requires ValidRule(rule) && OnlyAccesses(trace) && k < |trace|
    ensures InjectedAt(Control(Some(rule), 0, c.stats), trace, k)
         == if && trace[k].op.operation == rule.operation
               && (rule.target == Any || rule.target == trace[k].op.target)
               && |Selected(rule, trace[..k])| + 1 == rule.occurrence
            then Some(rule.action) else None
  {
    hide Selected, Hits;
    ArmedState(c, rule, trace[..k]);
    HitsAreSelected(rule, trace[..k]);
  }

  function Accesses(trace: seq<Event>, operation: Operation): nat
  {
    if trace == [] then 0
    else
      var last := trace[|trace| - 1];
      Accesses(trace[..|trace| - 1], operation) + if last.Access? && last.op.operation == operation then 1 else 0
  }

  function Arms(trace: seq<Event>): nat
  {
    if trace == [] then 0 else Arms(trace[..|trace| - 1]) + if trace[|trace| - 1].Arming? then 1 else 0
  }

  function Injections(c: Control, trace: seq<Event>): nat
  {
    if trace == [] then 0
    else
      var n := |trace| - 1;
      Injections(c, trace[..n]) + if InjectedAt(c, trace, n).Some? then 1 else 0
  }

  const FRESH := Control(None, 0, Stats(0, 0, 0, 0, 0))

  /** Accesses that matched the rule armed at that moment. */
  function Matched(c: Control, trace: seq<Event>): nat
  {
    if trace == [] then 0
    else
      var n := |trace| - 1;
      var rule := Replay(c, trace[..n]).rule;
      Matched(c, trace[..n]) + if trace[n].Access? && rule.Some? && Matches(rule.value, trace[n].op) then 1 else 0
  }

  /** Over any session the operation counters are the saturated counts of the trace. */
  lemma {:induction false} CountersFollowTrace(trace: seq<Event>)
    ensures var s := Replay(FRESH, trace).stats;
            && s.writes == Least(Accesses(trace, Write), 0xFFFF_FFFF_FFFF_FFFF)
            && s.syncs == Least(Accesses(trace, Sync), 0xFFFF_FFFF_FFFF_FFFF)
            && s.truncates == Least(Accesses(trace, Truncate), 0xFFFF_FFFF_FFFF_FFFF)
            && s.matching == Least(Matched(FRESH, trace), 0xFFFF_FFFF_FFFF_FFFF)
  {
    hide Intercepted, SaturatingAdd, Least;
    if trace == [] {
      assert Least(0, MAX) == 0 by { LeastOfZero(); }
    } else {
      var n := |trace| - 1;
      CountersFollowTrace(trace[..n]);
      if trace[n].Access? {
        StatsGrow(Replay(FRESH, trace[..n]), trace[n].op);
      }
      OneMore(Accesses(trace[..n], Write));
      OneMore(Accesses(trace[..n], Sync));
      OneMore(Accesses(trace[..n], Truncate));
      OneMore(Matched(FRESH, trace[..n]));
    }
  }

  lemma {:induction false} LeastOfZero()
    ensures Least(0, MAX) == 0
  {}

  lemma {:induction false} OneMore(n: nat)
    ensures SaturatingAdd(Least(n, MAX), 1) == Least(n + 1, MAX)
  {}

  /** An access adds one to its own counter, and to the matches when it is one. */
  lemma {:induction false} StatsGrow(c: Control, op: Op)
    ensures var s := Intercepted(c, op).0.stats;
            && s.writes == (if op.operation == Write then SaturatingAdd(c.stats.writes, 1) else c.stats.writes)
            && s.syncs == (if op.operation == Sync then SaturatingAdd(c.stats.syncs, 1) else c.stats.syncs)
            && s.truncates == (if op.operation == Truncate then SaturatingAdd(c.stats.truncates, 1) else c.stats.truncates)
            && s.matching == (if c.rule.Some? && Matches(c.rule.value, op) then SaturatingAdd(c.stats.matching, 1)
                              else c.stats.matching)
  {
    hide SaturatingAdd, Matches;
  }

  /** Injections are counted, and never outnumber arms: an armed rule is one
      injection still to come. */
  lemma {:induction false} InjectionsFollowArms(trace: seq<Event>)
    ensures Replay(FRESH, trace).stats.injections == Least(Injections(FRESH, trace), MAX)
    ensures Injections(FRESH, trace) + (if Replay(FRESH, trace).rule.Some? then 1 else 0) <= Arms(trace)
  {
    if trace != [] {
      InjectionsFollowArms(trace[..|trace| - 1]);
    }
  }

  // ---------------------------------------------------------- partial writes

  type Bytes = seq<bv8>

  /** A full write at an offset; a gap before it reads as zeros, and writing
      nothing changes nothing. */
  function WriteAt(file: Bytes, data: Bytes, offset: nat): (r: Bytes)
    ensures data == [] ==> r == file
    ensures data != [] ==> |r| == if offset + |data| <= |file| then |file| else offset + |data|
    ensures forall i :: 0 <= i < |data| ==> r[offset + i] == data[i]
    ensures forall i :: 0 <= i < |r| && (i < offset || offset + |data| <= i) ==> r[i] == if i < |file| then file[i] else 0
  {
    if data == [] then file
    else
      var base := if |file| < offset then file + seq(offset - |file|, _ => 0) else file;
      base[..offset] + data + if offset + |data| <= |base| then base[offset + |data|..] else []
  }

  datatype Code = Okay | WriteError | RealError

  class File {
    var content: Bytes

    constructor (content: Bytes)
      ensures this.content == content
    {
      this.content := content;
    }

    /** The real file's write; a failing one leaves whatever `failure` says. */
    method RealWrite(data: Bytes, offset: nat, failure: Option<Bytes>) returns (code: Code)
      modifies this
      ensures code == if failure == None then Okay else RealError
      ensures content == if failure == None then WriteAt(old(content), data, offset) else failure.value
    {
      if failure.Some? {
        content := failure.value;
        return RealError;
      }
      content := WriteAt(content, data, offset);
      code := Okay;
    }

    /** The wrapped write: without an injection the real one; with one an error, after
        nothing or exactly a full write of the prefix, whose own failure comes first. */
    method IoWrite(controller: Controller, target: Target, data: Bytes, offset: nat, failure: Option<Bytes>)
      returns (code: Code)
      modifies this, controller
      ensures var (after, injected) := Intercepted(old(controller.View()), Op(Write, target));
              && controller.View() == after
              && match injected
                 case None =>
                   && code == (if failure == None then Okay else RealError)
                   && content == (if failure == None then WriteAt(old(content), data, offset) else failure.value)
                 case Some(Fail) => code == WriteError && content == old(content)
                 case Some(PartialWrite(prefix)) =>
                   var kept := data[..if |data| <= prefix then |data| else prefix];
                   if kept == [] then code == WriteError && content == old(content)
                   else if failure.Some? then code == RealError && content == failure.value
                   else code == WriteError && content == WriteAt(old(content), kept, offset)
    {
      var injected := controller.Intercept(Op(Write, target));
      match injected
      case None => code := RealWrite(data, offset, failure);
      case Some(Fail) => code := WriteError;
      case Some(PartialWrite(prefix)) =>
        var n := Least(|data|, prefix);
        if n > 0 {
          code := RealWrite(data[..n], offset, failure);
          if code != Okay { return; }
        }
        code := WriteError;
    }
  }
}
