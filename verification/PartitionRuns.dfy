/** Runs of a whole partition: passes of the scheduler over all processes, mixed with service calls
    and completions of single processes.  Each process goes through a run of its own, so what holds
    for every run of one process holds for every process of every partition. */
module PartitionRuns {
  import opened Apex
  import opened Scheduling
  import opened SchedulerLoop

  /** A pass at instant `now` leads to `after`; the choices it leaves open concern dormant processes. */
  datatype Step = Pass(now: int, clocks: seq<int>, after: seq<Process>) | Act(p: nat, op: Op)

  /** What a pass does to each process.  A pass is also allowed where the scheduler would be idle
      because its head is dormant or watched without bound: the runs here include those of the
      scheduler, which is sound for what is proved of every run.  The run that shows starvation makes
      a single pass, whose head is neither. */
  ghost predicate PassOf(ds: seq<Process>, step: Step)
    requires step.Pass?
  {
    && |step.clocks| == |step.after| == |ds|
    && forall i :: 0 <= i < |ds| ==>
         ds[i].state != WaitingPartitionNotNormal && PassedOver(ds[i], step.after[i], step.now, step.clocks[i])
  }

  ghost predicate StepEnabled(ds: seq<Process>, step: Step) {
    match step
    case Pass(_, _, _) => PassOf(ds, step)
    case Act(p, op) => p < |ds| && !op.Tick? && Enabled(ds[p], op)
  }

  ghost predicate AllInv(ds: seq<Process>) {
    forall i :: 0 <= i < |ds| ==> Inv(ds[i])
  }

  ghost function DoStep(ds: seq<Process>, step: Step): seq<Process>
    requires AllInv(ds) && StepEnabled(ds, step)
  {
    match step
    case Pass(_, _, after) => after
    case Act(p, op) => ds[p := Do(ds[p], op)]
  }

  /** What a step means for process `p`: at most one operation. */
  ghost function Share(ds: seq<Process>, step: Step, p: nat): seq<Op>
    requires StepEnabled(ds, step) && p < |ds|
  {
    match step
    case Pass(now, clocks, after) =>
      if ds[p].critical <= now && (ds[p].state != Dormant || after[p] != ds[p]) then [Tick(now, clocks[p])] else []
    case Act(q, op) => if q == p then [op] else []
  }

  lemma ShareStep(ds: seq<Process>, step: Step, p: nat)
    requires AllInv(ds) && StepEnabled(ds, step) && p < |ds|
    ensures |DoStep(ds, step)| == |ds|
    ensures var ops := Share(ds, step, p);
            Run(ds[p], ops) && After(ds[p], ops) == DoStep(ds, step)[p] && Inv(DoStep(ds, step)[p])
  {
    var ops := Share(ds, step, p);
    if ops != [] {
      assert Enabled(ds[p], ops[0]);
      StepInv(ds[p], ops[0]);
      assert ops[1..] == [];
      if step.Pass? {
        assert PassedOver(ds[p], step.after[p], step.now, step.clocks[p]);
      }
    }
  }

  lemma StepKeepsInv(ds: seq<Process>, step: Step)
    requires AllInv(ds) && StepEnabled(ds, step)
    ensures AllInv(DoStep(ds, step)) && |DoStep(ds, step)| == |ds|
  {
    forall p | 0 <= p < |ds|
      ensures |DoStep(ds, step)| == |ds| && Inv(DoStep(ds, step)[p])
    {
      ShareStep(ds, step, p);
    }
  }

  ghost predicate PartitionRun(ds: seq<Process>, steps: seq<Step>)
    requires AllInv(ds)
    decreases |steps|
  {
    steps != [] ==> StepEnabled(ds, steps[0]) && (StepKeepsInv(ds, steps[0]); PartitionRun(DoStep(ds, steps[0]), steps[1..]))
  }

  ghost function PartitionAfter(ds: seq<Process>, steps: seq<Step>): (r: seq<Process>)
    requires AllInv(ds) && PartitionRun(ds, steps)
    ensures AllInv(r) && |r| == |ds|
    decreases |steps|
  {
    if steps == [] then ds else
      StepKeepsInv(ds, steps[0]);
      PartitionAfter(DoStep(ds, steps[0]), steps[1..])
  }

  /** The operations that process `p` goes through. */
  ghost function OpsOf(ds: seq<Process>, steps: seq<Step>, p: nat): seq<Op>
    requires AllInv(ds) && PartitionRun(ds, steps) && p < |ds|
    decreases |steps|
  {
    if steps == [] then [] else
      StepKeepsInv(ds, steps[0]);
      Share(ds, steps[0], p) + OpsOf(DoStep(ds, steps[0]), steps[1..], p)
  }

  lemma {:induction false} RunConcat(d: Process, a: seq<Op>, b: seq<Op>)
    requires Inv(d) && Run(d, a) && Run(After(d, a), b)
    ensures Run(d, a + b) && After(d, a + b) == After(After(d, a), b)
    decreases |a|
  {
    if a == [] {
      assert a + b == b;
    } else {
      StepInv(d, a[0]);
      assert (a + b)[1..] == a[1..] + b;
      RunConcat(Do(d, a[0]), a[1..], b);
    }
  }

  /** Main result: every process of a partition goes through a run of its own. */
  lemma {:induction false} ProcessRuns(ds: seq<Process>, steps: seq<Step>, p: nat)
    requires AllInv(ds) && PartitionRun(ds, steps) && p < |ds|
    ensures Run(ds[p], OpsOf(ds, steps, p)) && After(ds[p], OpsOf(ds, steps, p)) == PartitionAfter(ds, steps)[p]
    decreases |steps|
  {
    if steps != [] {
      StepKeepsInv(ds, steps[0]);
      ShareStep(ds, steps[0], p);
      ProcessRuns(DoStep(ds, steps[0]), steps[1..], p);
      RunConcat(ds[p], Share(ds, steps[0], p), OpsOf(DoStep(ds, steps[0]), steps[1..], p));
    }
  }

  /** Starts, releases, misses and ends of process `p` in a run of the partition. */
  ghost function TraceOf(ds: seq<Process>, steps: seq<Step>, p: nat): seq<Event>
    requires AllInv(ds) && PartitionRun(ds, steps) && p < |ds|
  {
    ProcessRuns(ds, steps, p);
    Trace(ds[p], OpsOf(ds, steps, p))
  }

  /** Main result: in every run of a partition, whatever the other processes do, two releases of one
      activation of a periodic process are a positive whole number of periods apart, one for each
      release in between when no deadline was missed. */
  lemma PartitionNoDrift(ds: seq<Process>, steps: seq<Step>, p: nat, i: nat, j: nat) returns (n: nat)
    requires AllInv(ds) && PartitionRun(ds, steps) && p < |ds| && Periodic(ds[p].attr)
    requires var t := TraceOf(ds, steps, p);
             i < j < |t| && t[i].Released? && t[j].Released? && forall x :: i < x < j ==> !t[x].Started?
    ensures var t := TraceOf(ds, steps, p); n >= 1 && t[j].at == t[i].at + n * ds[p].attr.period
    ensures var t := TraceOf(ds, steps, p);
            (forall x :: i < x < j ==> t[x].Released? || t[x].Replenished?) ==> n == ReleasesBetween(t, i, j)
  {
    ProcessRuns(ds, steps, p);
    var t := TraceOf(ds, steps, p);
    if forall x :: i < x < j ==> t[x].Released? || t[x].Replenished? {
      n := ReleasesBetween(t, i, j);
      OnePeriodApart(ds[p], OpsOf(ds, steps, p), i, j);
    } else {
      n := NoDrift(ds[p], OpsOf(ds, steps, p), i, j);
    }
  }

  /** Main result: no process of a partition is found to miss a deadline early. */
  lemma PartitionMissNotEarly(ds: seq<Process>, steps: seq<Step>, p: nat, i: nat)
    requires AllInv(ds) && PartitionRun(ds, steps) && p < |ds|
    requires i + 1 < |TraceOf(ds, steps, p)| && Miss(TraceOf(ds, steps, p)[i + 1]) && TraceOf(ds, steps, p)[i].Released?
    ensures TraceOf(ds, steps, p)[i].at + Duration(ds[p].attr.timeCapacity) <= TraceOf(ds, steps, p)[i + 1].now
  {
    ProcessRuns(ds, steps, p);
    MissNotEarly(ds[p], OpsOf(ds, steps, p), i);
  }

  // ---------------------------------------------------------------- who can be kept waiting

  /** A watched process that is due before all others keeps the scheduler idle, in whatever order it
      sorts the vector; its rounds then change nothing, so this lasts until a process acts. */
  lemma WatchedBlocks(ds: seq<Process>, p: nat, v: seq<Process>)
    requires p < |ds| && Watched(ds[p]) && Ordered(v) && multiset(v) == multiset(ds)
    requires forall i :: 0 <= i < |ds| && i != p && ds[i].state != Dormant ==> ds[p].critical < ds[i].critical
    ensures v != [] && v[0] == ds[p] && Idle(v)
  {
    assert ds[p] in multiset(ds) && ds[p] in multiset(v);
    var k :| 0 <= k < |v| && v[k] == ds[p];
    OrderedExactly(v);
    assert v[0] in multiset(v) && v[0] in multiset(ds);
    var i :| 0 <= i < |ds| && ds[i] == v[0];
  }

  /** A process that was released and has done nothing else since is watched for the longest time
      that can be waited: it can keep others waiting only after that. */
  lemma WatchedSinceRelease(ds: seq<Process>, steps: seq<Step>, p: nat)
    requires AllInv(ds) && PartitionRun(ds, steps) && p < |ds| && Watched(PartitionAfter(ds, steps)[p])
    requires PartitionAfter(ds, steps)[p].state == Running
    requires TraceOf(ds, steps, p) != [] && TraceOf(ds, steps, p)[|TraceOf(ds, steps, p)| - 1].Released?
    ensures var t := TraceOf(ds, steps, p); PartitionAfter(ds, steps)[p].critical == t[|t| - 1].at + MAX_TIME_OUT
  {
    ProcessRuns(ds, steps, p);
    ClockEnd(ClockOf(ds[p]), ds[p], OpsOf(ds, steps, p));
  }

  const UNBOUNDED := Attributes(INFINITE_TIME_VALUE, INFINITE_TIME_VALUE, false)
  const PERIODIC := Attributes(10, 5, true)

  function Created(a: Attributes): Process { Process(a, Dormant, ReleaseProcess, 0, 0, 0, 0) }

  lemma RunCons(ds: seq<Process>, step: Step, more: seq<Step>)
    requires AllInv(ds) && StepEnabled(ds, step)
    requires AllInv(DoStep(ds, step)) ==> PartitionRun(DoStep(ds, step), more)
    ensures PartitionRun(ds, [step] + more)
    ensures AllInv(DoStep(ds, step)) && PartitionAfter(ds, [step] + more) == PartitionAfter(DoStep(ds, step), more)
  {
    StepKeepsInv(ds, step);
    assert ([step] + more)[1..] == more;
  }

  /** The unbounded process is started and released, and asks for 50 nanoseconds more; the periodic
      one is started for instant 100. */
  function Starving(): seq<Process> {
    [Process(UNBOUNDED, Running, CheckDeadline, 0, 51, 51, 0),
     Process(PERIODIC, WaitingOnPeriod, ReleaseProcess, 100, 100, 105, 0)]
  }

  lemma StarvingReached() returns (steps: seq<Step>)
    ensures var ds := [Created(UNBOUNDED), Created(PERIODIC)];
            AllInv(ds) && PartitionRun(ds, steps) && PartitionAfter(ds, steps) == Starving()
  {
    var a0, b0 := Created(UNBOUNDED), Created(PERIODIC);
    var a1 := Process(UNBOUNDED, Ready, ReleaseProcess, 0, 0, MAX_TIME_OUT, 0);
    var a2 := Process(UNBOUNDED, Running, CheckDeadline, 0, MAX_TIME_OUT, MAX_TIME_OUT, 0);
    var b1 := Process(PERIODIC, WaitingOnPeriod, ReleaseProcess, 100, 100, 105, 0);
    var s1, s2 := Act(0, StartOp(0, 0, true)), Act(1, StartOp(0, 100, true));
    var s3, s4 := Pass(0, [0, 0], [a2, b1]), Act(0, ReplenishOp(1, 50, true));
    assert DoStep([a0, b0], s1) == [a1, b0];
    assert DoStep([a1, b0], s2) == [a1, b1];
    assert PassOf([a1, b1], s3) && DoStep([a1, b1], s3) == [a2, b1];
    assert DoStep([a2, b1], s4) == Starving();
    RunCons([a2, b1], s4, []);
    RunCons([a1, b1], s3, [s4] + []);
    RunCons([a1, b0], s2, [s3] + ([s4] + []));
    RunCons([a0, b0], s1, [s2] + ([s3] + ([s4] + [])));
    steps := [s1] + ([s2] + ([s3] + ([s4] + [])));
  }

  /** Main result: starvation is reachable.  From two new processes a partition comes to a state in
      which, at every instant from 100 on, a periodic process is due and the scheduler finds nothing
      to do, in whatever order it sorts the vector. */
  lemma StarvationReachable(now: int, v: seq<Process>) returns (steps: seq<Step>)
    requires now >= 100 && Ordered(v) && multiset(v) == multiset(Starving())
    ensures var ds := [Created(UNBOUNDED), Created(PERIODIC)];
            AllInv(ds) && PartitionRun(ds, steps) && PartitionAfter(ds, steps) == Starving()
    ensures Starving()[1] in v && Due(Starving()[1], now) && Idle(v)
  {
    steps := StarvingReached();
    WatchedBlocks(Starving(), 0, v);
    assert Starving()[1] in multiset(Starving()) && Starving()[1] in multiset(v);
  }
}
