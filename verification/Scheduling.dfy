/** The descriptor of a process and what the partition scheduler and the process services do to it.
    Instants and durations are nanoseconds; a run is any sequence of operations at any instants. */
module Scheduling {
  import opened Apex
  import opened Sequences

  const MINIMUM_TIME_CAPACITY: int := 1

  datatype State = Dormant | WaitingPartitionNotNormal | WaitingOnPeriod | Ready | Running

  datatype Scheduled = ReleaseProcess | CheckDeadline

  datatype Attributes = Attributes(period: int, timeCapacity: int, hard: bool)

  datatype Process = Process(attr: Attributes, state: State, action: Scheduled, next: int, critical: int, deadline: int, initialDelay: int)

  predicate Periodic(a: Attributes) { a.period != INFINITE_TIME_VALUE }

  // ---------------------------------------------------------------- creation

  /** The checks of CREATE_PROCESS on period and capacity, in their order. */
  function CreateCode(a: Attributes): ReturnCode {
    if a.timeCapacity != INFINITE_TIME_VALUE && a.timeCapacity < MINIMUM_TIME_CAPACITY then InvalidParam
    else if a.period != INFINITE_TIME_VALUE && a.period <= 0 then InvalidParam
    else if a.timeCapacity != INFINITE_TIME_VALUE && a.timeCapacity <= 0 then InvalidParam
    else if a.timeCapacity == INFINITE_TIME_VALUE && a.period != INFINITE_TIME_VALUE then InvalidParam
    else if a.period != INFINITE_TIME_VALUE && a.period < a.timeCapacity then InvalidParam
    else if a.period != INFINITE_TIME_VALUE && a.period > MAX_TIME_OUT then InvalidParam
    else if a.timeCapacity != INFINITE_TIME_VALUE && a.timeCapacity > MAX_TIME_OUT then InvalidParam
    else NoError
  }

  /** What the checks amount to. */
  predicate Sound(a: Attributes) {
    if Periodic(a) then 0 < a.timeCapacity <= a.period <= MAX_TIME_OUT
    else a.timeCapacity == INFINITE_TIME_VALUE || 0 < a.timeCapacity <= MAX_TIME_OUT
  }

  lemma CreateExactly(a: Attributes)
    ensures CreateCode(a) == NoError <==> Sound(a)
  {
  }

  // ---------------------------------------------------------------- the operations

  function Deadline(from: int, capacity: int): int {
    from + Duration(capacity)
  }

  /** The loop that brings the next release of a late process back into phase. */
  function CatchUp(next: int, critical: int, period: int): int
    requires period > 0
    decreases critical - next
  {
    if next <= critical then CatchUp(next + period, critical, period) else next
  }

  /** One due entry of the scheduling vector.  `c` is the clock when a soft miss is handled. */
  function Serve(d: Process, c: int): Process
    requires Periodic(d.attr) ==> d.attr.period > 0
  {
    match d.action
    case ReleaseProcess =>
      if d.state == WaitingOnPeriod || d.state == Ready then
        var deadline := Deadline(d.critical, d.attr.timeCapacity);
        d.(state := Running, action := CheckDeadline, deadline := deadline, critical := deadline,
           next := if Periodic(d.attr) then d.critical + d.attr.period else d.next)
      else d
    case CheckDeadline =>
      if d.state == Dormant then d.(action := ReleaseProcess)
      else if d.state == WaitingOnPeriod then d.(critical := d.next, action := ReleaseProcess)
      else if d.attr.hard then d.(state := Dormant, action := ReleaseProcess)
      else d.(critical := c + NANO, next := if Periodic(d.attr) then CatchUp(d.next, c + NANO, d.attr.period) else d.next)
  }

  /** The first set-up in the scheduler, for a process started before the partition was normal. */
  function SetUp(d: Process, now: int): Process {
    if d.state == WaitingPartitionNotNormal then
      var next := if d.initialDelay == 0 then now else now + d.initialDelay;
      d.(action := ReleaseProcess, next := next, critical := next,
         state := if Periodic(d.attr) then WaitingOnPeriod else Ready)
    else d.(action := ReleaseProcess)
  }

  function StartCode(d: Process, delay: int): ReturnCode {
    if delay < 0 then InvalidParam else if d.state != Dormant then NoAction else NoError
  }

  function DelayedStart(d: Process, now: int, delay: int, normal: bool): Process {
    if StartCode(d, delay) != NoError then d
    else if !normal then d.(state := WaitingPartitionNotNormal, initialDelay := delay)
    else d.(state := if Periodic(d.attr) then WaitingOnPeriod else Ready, action := ReleaseProcess,
            next := now + delay, critical := now + delay, deadline := Deadline(now + delay, d.attr.timeCapacity))
  }

  /** Stopping, also by the hard-deadline branch, restarts the thread without starting the process. */
  function Stop(d: Process): Process {
    if d.state == Dormant then d else d.(state := Dormant)
  }

  /** The thread returns from its entry point, or calls PERIODIC_WAIT. */
  function Finish(d: Process): Process {
    d.(state := if Periodic(d.attr) then WaitingOnPeriod else Dormant)
  }

  function ReplenishCode(d: Process, now: int, budget: int, normal: bool): ReturnCode {
    if !normal then NoAction
    else if budget != INFINITE_TIME_VALUE && budget > MAX_TIME_OUT then InvalidParam
    else if d.state == Dormant then NoAction
    else if Periodic(d.attr) && d.next <= Deadline(now, budget) then InvalidMode
    else NoError
  }

  function Replenish(d: Process, now: int, budget: int, normal: bool): Process {
    if ReplenishCode(d, now, budget, normal) != NoError then d
    else d.(deadline := Deadline(now, budget), critical := Deadline(now, budget))
  }

  // ---------------------------------------------------------------- release and deadline alternate

  ghost predicate Alternates(d: Process) {
    && (d.state == Running ==> d.action == CheckDeadline)
    && (d.state == Ready ==> d.action == ReleaseProcess && !Periodic(d.attr))
    && (d.state == WaitingOnPeriod ==> Periodic(d.attr))
    && ((d.state == WaitingOnPeriod || d.state == Ready) && d.action == ReleaseProcess ==> d.critical == d.next)
    && ((d.state == WaitingOnPeriod || d.state == Running) && d.action == CheckDeadline && Periodic(d.attr) ==> d.critical <= d.next)
  }

  ghost predicate Inv(d: Process) { Sound(d.attr) && Alternates(d) }

  /** One operation on one process, with the clock values it reads. */
  datatype Op =
    | Tick(now: int, c: int)
    | Begin(now: int)
    | StartOp(now: int, delay: int, normal: bool)
    | StopOp
    | FinishOp
    | ReplenishOp(now: int, budget: int, normal: bool)

  /** An entry is served when it is due; a thread finishes, or asks for budget, while it runs. */
  predicate Enabled(d: Process, op: Op) {
    match op
    case Tick(now, c) => d.critical <= now && d.state != WaitingPartitionNotNormal
    case Begin(now) => d.state == WaitingPartitionNotNormal || d.state == Dormant
    case StartOp(now, delay, normal) => delay <= MAX_TIME_OUT
    case StopOp => true
    case FinishOp => d.state == Running
    case ReplenishOp(now, budget, normal) => d.state == Running || d.state == Dormant
  }

  function Do(d: Process, op: Op): Process
    requires Sound(d.attr)
  {
    match op
    case Tick(now, c) => Serve(d, c)
    case Begin(now) => SetUp(d, now)
    case StartOp(now, delay, normal) => DelayedStart(d, now, delay, normal)
    case StopOp => Stop(d)
    case FinishOp => Finish(d)
    case ReplenishOp(now, budget, normal) => Replenish(d, now, budget, normal)
  }

  /** The loop stops at the first instant in phase after the critical time, or changes nothing. */
  ghost predicate LeastInPhase(next: int, critical: int, period: int, r: int) {
    && r > critical
    && (r == next || r - period <= critical)
    && exists n: nat :: r == next + n * period
  }

  lemma {:induction false} CatchUpLeast(next: int, critical: int, period: int)
    requires period > 0
    ensures LeastInPhase(next, critical, period, CatchUp(next, critical, period))
    ensures CatchUp(next, critical, period) >= next
    decreases critical - next
  {
    if next <= critical {
      CatchUpLeast(next + period, critical, period);
      var r := CatchUp(next, critical, period);
      var n: nat :| r == next + period + n * period;
      assert r == next + (n + 1) * period;
    } else {
      assert next == next + 0 * period;
    }
  }

  /** Main result: every operation keeps the alternation of release and deadline check. */
  lemma StepInv(d: Process, op: Op)
    requires Inv(d) && Enabled(d, op)
    ensures Inv(Do(d, op)) && Do(d, op).attr == d.attr
  {
    if op.Tick? && d.state == Running && !d.attr.hard && Periodic(d.attr) {
      CatchUpLeast(d.next, op.c + NANO, d.attr.period);
    }
  }

  /** The check of CREATE_PROCESS is needed: releasing a waiting periodic process keeps the
      alternation exactly when its capacity does not exceed its period. */
  lemma CapacityNeeded(d: Process, c: int)
    requires Alternates(d) && Periodic(d.attr) && d.attr.period > 0 && d.attr.timeCapacity > 0
    requires d.state == WaitingOnPeriod && d.action == ReleaseProcess
    ensures Alternates(Serve(d, c)) <==> d.attr.timeCapacity <= d.attr.period
  {
  }

  /** The caller of REPLENISH is running; if a process that waits for its release could call it, the
      alternation would survive exactly when the new deadline happens to be the release instant. */
  lemma ReplenishExactly(d: Process, now: int, budget: int, normal: bool)
    requires Inv(d) && ReplenishCode(d, now, budget, normal) == NoError
    ensures Inv(Replenish(d, now, budget, normal)) <==>
            ((d.state == WaitingOnPeriod || d.state == Ready) && d.action == ReleaseProcess ==> Deadline(now, budget) == d.next)
  {
  }

  ghost predicate Run(d: Process, ops: seq<Op>)
    requires Inv(d)
    decreases |ops|
  {
    ops != [] ==> Enabled(d, ops[0]) && (StepInv(d, ops[0]); Run(Do(d, ops[0]), ops[1..]))
  }

  ghost function After(d: Process, ops: seq<Op>): (r: Process)
    requires Inv(d) && Run(d, ops)
    ensures Inv(r)
    decreases |ops|
  {
    if ops == [] then d else
      StepInv(d, ops[0]);
      After(Do(d, ops[0]), ops[1..])
  }

  // ---------------------------------------------------------------- what a run looks like from outside

  /** What happens to a process: it is started for an instant, released for an instant, gets a new
      deadline, misses a soft or a hard deadline when looked at at `now`, or becomes dormant. */
  datatype Event = Started(at: int) | Released(at: int) | Replenished(deadline: int) | SoftMiss(now: int, c: int) | HardMiss(now: int) | Ended

  function Events(d: Process, op: Op): seq<Event>
    requires Sound(d.attr)
  {
    var d' := Do(d, op);
    match op
    case Tick(now, c) =>
      if d.state != Running && d'.state == Running then [Released(d.critical)]
      else if d.state == Running && d'.state == Running then [SoftMiss(now, c)]
      else if d.state == Running then [HardMiss(now)] else []
    case Begin(now) => if d.state == WaitingPartitionNotNormal then [Started(now + d.initialDelay)] else []
    case StartOp(now, delay, normal) => if d.state == Dormant && d'.state != Dormant && normal then [Started(now + delay)] else []
    case StopOp => if d.state == Dormant then [] else [Ended]
    case FinishOp => if d'.state == Dormant then [Ended] else []
    case ReplenishOp(now, budget, normal) =>
      if ReplenishCode(d, now, budget, normal) == NoError then [Replenished(Deadline(now, budget))] else []
  }

  ghost function Trace(d: Process, ops: seq<Op>): seq<Event>
    requires Inv(d) && Run(d, ops)
    decreases |ops|
  {
    if ops == [] then [] else
      StepInv(d, ops[0]);
      Events(d, ops[0]) + Trace(Do(d, ops[0]), ops[1..])
  }

  /** When the next release is due, and when the running process has to be finished. */
  datatype Clock = Clock(release: Option<int>, check: Option<int>)

  /** The clock after an event, told from the events alone. */
  function Next(k: Clock, e: Event, a: Attributes): Clock
    requires Sound(a)
  {
    match e
    case Started(at) => Clock(Some(at), None)
    case Released(at) => Clock(if Periodic(a) then Some(at + a.period) else None, Some(at + Duration(a.timeCapacity)))
    case Replenished(deadline) => Clock(k.release, Some(deadline))
    case SoftMiss(now, c) =>
      Clock(if Periodic(a) && k.release.Some? then Some(CatchUp(k.release.value, c + NANO, a.period)) else k.release, Some(c + NANO))
    case HardMiss(now) => Clock(None, None)
    case Ended => Clock(None, None)
  }

  /** Releases take place for the instant that is due, misses are found when the deadline has passed,
      and a new deadline lies before the next release. */
  predicate OnClock(k: Clock, e: Event) {
    match e
    case Started(at) => k.release.None?
    case Released(at) => k.release == Some(at)
    case Replenished(deadline) => k.check.Some? && (k.release.Some? ==> deadline < k.release.value)
    case SoftMiss(now, c) => k.check.Some? && k.check.value <= now
    case HardMiss(now) => k.check.Some? && k.check.value <= now
    case Ended => true
  }

  function ClockAt(k: Clock, t: seq<Event>, a: Attributes, i: nat): Clock
    requires Sound(a) && i <= |t|
  {
    if i == 0 then k else Next(ClockAt(k, t, a, i - 1), t[i - 1], a)
  }

  ghost predicate OnTime(k: Clock, t: seq<Event>, a: Attributes)
    requires Sound(a)
  {
    forall i :: 0 <= i < |t| ==> OnClock(ClockAt(k, t, a, i), t[i])
  }

  lemma {:induction false} ClockShift(k: Clock, e: Event, t: seq<Event>, a: Attributes, i: nat)
    requires Sound(a) && i <= |t|
    ensures ClockAt(k, [e] + t, a, i + 1) == ClockAt(Next(k, e, a), t, a, i)
  {
    if i > 0 { ClockShift(k, e, t, a, i - 1); } else { assert ClockAt(k, [e] + t, a, 0) == k; }
  }

  lemma OnClockShift(k: Clock, e: Event, t: seq<Event>, a: Attributes, i: nat)
    requires Sound(a) && i < |t| && OnClock(ClockAt(Next(k, e, a), t, a, i), t[i])
    ensures OnClock(ClockAt(k, [e] + t, a, i + 1), ([e] + t)[i + 1])
  {
    ClockShift(k, e, t, a, i);
  }

  lemma OnTimeCons(k: Clock, e: Event, t: seq<Event>, a: Attributes)
    requires Sound(a) && OnClock(k, e) && OnTime(Next(k, e, a), t, a)
    ensures OnTime(k, [e] + t, a)
  {
    var u := [e] + t;
    forall i | 0 <= i < |u|
      ensures OnClock(ClockAt(k, u, a, i), u[i])
    {
      if i == 0 {
        assert u[0] == e && ClockAt(k, u, a, 0) == k;
      } else {
        OnClockShift(k, e, t, a, i - 1);
      }
    }
  }

  /** The clock as the descriptor shows it. */
  function ClockOf(d: Process): Clock {
    Clock(if d.state == WaitingOnPeriod || d.state == Ready || (d.state == Running && Periodic(d.attr)) then Some(d.next) else None,
          if d.state == Running then Some(d.critical) else None)
  }

  /** The clock fits the descriptor; a deadline that was met may still be on it. */
  ghost predicate Agrees(k: Clock, d: Process) {
    k.release == ClockOf(d).release && (d.state == Running ==> k.check == ClockOf(d).check)
  }

  lemma StepClock(k: Clock, d: Process, op: Op)
    requires Inv(d) && Enabled(d, op) && Agrees(k, d)
    ensures |Events(d, op)| <= 1
    ensures Events(d, op) == [] ==> Agrees(k, Do(d, op))
    ensures Events(d, op) != [] ==> OnClock(k, Events(d, op)[0]) && Agrees(Next(k, Events(d, op)[0], d.attr), Do(d, op))
  {
  }

  /** Main result: in every run, whatever the instants at which the scheduler and the services are
      called, every event is on the clock that start, releases, replenishing and misses determine. */
  lemma {:induction false} TraceOnTime(k: Clock, d: Process, ops: seq<Op>)
    requires Inv(d) && Run(d, ops) && Agrees(k, d)
    ensures OnTime(k, Trace(d, ops), d.attr)
    decreases |ops|
  {
    if ops != [] {
      StepInv(d, ops[0]);
      StepClock(k, d, ops[0]);
      var d' := Do(d, ops[0]);
      var rest := Trace(d', ops[1..]);
      if Events(d, ops[0]) == [] {
        TraceOnTime(k, d', ops[1..]);
        assert Trace(d, ops) == rest;
      } else {
        var e := Events(d, ops[0])[0];
        assert Events(d, ops[0]) == [e];
        TraceOnTime(Next(k, e, d.attr), d', ops[1..]);
        OnTimeCons(k, e, rest, d.attr);
      }
    }
  }

  lemma {:induction false} ClockEnd(k: Clock, d: Process, ops: seq<Op>)
    requires Inv(d) && Run(d, ops) && Agrees(k, d)
    ensures After(d, ops).attr == d.attr && Agrees(ClockAt(k, Trace(d, ops), d.attr, |Trace(d, ops)|), After(d, ops))
    decreases |ops|
  {
    if ops != [] {
      StepInv(d, ops[0]);
      StepClock(k, d, ops[0]);
      var d' := Do(d, ops[0]);
      var rest := Trace(d', ops[1..]);
      if Events(d, ops[0]) == [] {
        ClockEnd(k, d', ops[1..]);
        assert Trace(d, ops) == rest;
      } else {
        var e := Events(d, ops[0])[0];
        assert Events(d, ops[0]) == [e];
        ClockEnd(Next(k, e, d.attr), d', ops[1..]);
        ClockCons(k, e, rest, d.attr, After(d', ops[1..]));
      }
    }
  }

  lemma ClockCons(k: Clock, e: Event, t: seq<Event>, a: Attributes, d: Process)
    requires Sound(a) && Agrees(ClockAt(Next(k, e, a), t, a, |t|), d)
    ensures Agrees(ClockAt(k, [e] + t, a, |[e] + t|), d)
  {
    ClockShift(k, e, t, a, |t|);
  }

  // ---------------------------------------------------------------- no drift

  /** An event other than a start keeps the release that is due in phase with `origin`. */
  lemma NextInPhase(k: Clock, e: Event, a: Attributes, origin: int, m: nat) returns (n: nat)
    requires Sound(a) && Periodic(a) && !e.Started? && m >= 1 && OnClock(k, e)
    requires k.release.Some? ==> k.release.value == origin + m * a.period
    ensures n >= 1 && (Next(k, e, a).release.Some? ==> Next(k, e, a).release.value == origin + n * a.period)
  {
    n := if e.Released? then m + 1 else m;
    if e.SoftMiss? && k.release.Some? {
      CatchUpLeast(k.release.value, e.c + NANO, a.period);
      var i: nat :| CatchUp(k.release.value, e.c + NANO, a.period) == k.release.value + i * a.period;
      n := m + i;
      assert k.release.value + i * a.period == origin + (m + i) * a.period;
    }
  }

  lemma FirstInPhase(k: Clock, t: seq<Event>, a: Attributes, i: nat)
    requires Sound(a) && Periodic(a) && i < |t| && t[i].Released?
    ensures ClockAt(k, t, a, i + 1).release == Some(t[i].at + 1 * a.period)
  {
  }

  /** Between a release and a later event of the same activation, the release that is due stays in
      phase: a positive number of periods after the first one. */
  lemma {:induction false} InPhase(k: Clock, t: seq<Event>, a: Attributes, i: nat, j: nat) returns (n: nat)
    requires Sound(a) && Periodic(a) && OnTime(k, t, a) && i < j <= |t| && t[i].Released?
    requires forall x :: i < x < j ==> !t[x].Started?
    ensures var due := ClockAt(k, t, a, j).release; n >= 1 && (due.Some? ==> due.value == t[i].at + n * a.period)
    decreases j
  {
    if j == i + 1 {
      n := 1;
      FirstInPhase(k, t, a, i);
    } else {
      var m := InPhase(k, t, a, i, j - 1);
      assert OnClock(ClockAt(k, t, a, j - 1), t[j - 1]);
      n := NextInPhase(ClockAt(k, t, a, j - 1), t[j - 1], a, t[i].at, m);
    }
  }

  /** The number of releases in `t` between index `i` and index `j`, the latter included. */
  function ReleasesBetween(t: seq<Event>, i: nat, j: nat): nat
    requires i <= j < |t|
  {
    if i == j then 0 else ReleasesBetween(t, i, j - 1) + (if t[j].Released? then 1 else 0)
  }

  /** The release that is due after index `j`, when only releases and new deadlines follow the release
      at index `i`. */
  function DueInRow(t: seq<Event>, i: nat, j: nat, period: int): int
    requires i <= j < |t| && t[i].Released?
  {
    if i == j then t[i].at + period else DueInRow(t, i, j - 1, period) + (if t[j].Released? then period else 0)
  }

  lemma {:induction false} DueInRowExactly(t: seq<Event>, i: nat, j: nat, period: int)
    requires i <= j < |t| && t[i].Released?
    ensures DueInRow(t, i, j, period) == Progression(t[i].at, period, ReleasesBetween(t, i, j)) + period
    decreases j
  {
    if i < j { DueInRowExactly(t, i, j - 1, period); }
  }

  ghost predicate Row(t: seq<Event>, i: nat, j: nat) {
    i <= j < |t| && t[i].Released? && forall x :: i < x <= j ==> t[x].Released? || t[x].Replenished?
  }

  lemma {:induction false} ReleasesInRow(k: Clock, t: seq<Event>, a: Attributes, i: nat, j: nat)
    requires Sound(a) && Periodic(a) && OnTime(k, t, a) && Row(t, i, j)
    ensures ClockAt(k, t, a, j + 1).release == Some(DueInRow(t, i, j, a.period))
    decreases j
  {
    if i < j {
      ReleasesInRow(k, t, a, i, j - 1);
      RowStep(ClockAt(k, t, a, j), t[j], a, DueInRow(t, i, j - 1, a.period));
    }
  }

  lemma RowStep(k: Clock, e: Event, a: Attributes, due: int)
    requires Sound(a) && Periodic(a) && (e.Released? || e.Replenished?) && k.release == Some(due) && (e.Released? ==> e.at == due)
    ensures Next(k, e, a).release == Some(due + (if e.Released? then a.period else 0))
  {
  }

  lemma RowEnds(k: Clock, t: seq<Event>, a: Attributes, i: nat, j: nat)
    requires Sound(a) && Periodic(a) && OnTime(k, t, a) && i < j && Row(t, i, j) && t[j].Released?
    ensures t[j].at == DueInRow(t, i, j - 1, a.period)
  {
    ReleasesInRow(k, t, a, i, j - 1);
    assert OnClock(ClockAt(k, t, a, j), t[j]);
  }

  /** Main result: in every run of a periodic process, however late it is served, two releases of one
      activation are a positive whole number of periods apart. */
  lemma NoDrift(d: Process, ops: seq<Op>, i: nat, j: nat) returns (n: nat)
    requires Inv(d) && Run(d, ops) && Periodic(d.attr)
    requires i < j < |Trace(d, ops)| && Trace(d, ops)[i].Released? && Trace(d, ops)[j].Released?
    requires forall x :: i < x < j ==> !Trace(d, ops)[x].Started?
    ensures n >= 1 && Trace(d, ops)[j].at == Trace(d, ops)[i].at + n * d.attr.period
  {
    TraceOnTime(ClockOf(d), d, ops);
    n := InPhase(ClockOf(d), Trace(d, ops), d.attr, i, j);
    assert OnClock(ClockAt(ClockOf(d), Trace(d, ops), d.attr, j), Trace(d, ops)[j]);
  }

  /** Main result: releases with no deadline miss, stop or start between them are exactly one period
      apart each. */
  lemma OnePeriodApart(d: Process, ops: seq<Op>, i: nat, j: nat)
    requires Inv(d) && Run(d, ops) && Periodic(d.attr)
    requires i < j < |Trace(d, ops)| && Trace(d, ops)[i].Released? && Trace(d, ops)[j].Released?
    requires forall x :: i < x < j ==> Trace(d, ops)[x].Released? || Trace(d, ops)[x].Replenished?
    ensures Trace(d, ops)[j].at == Trace(d, ops)[i].at + ReleasesBetween(Trace(d, ops), i, j) * d.attr.period
  {
    var t := Trace(d, ops);
    RowInTrace(d, ops, i, j);
    DueInRowExactly(t, i, j - 1, d.attr.period);
    ProgressionExactly(t[i].at, d.attr.period, ReleasesBetween(t, i, j));
  }

  lemma RowInTrace(d: Process, ops: seq<Op>, i: nat, j: nat)
    requires Inv(d) && Run(d, ops) && Periodic(d.attr) && i < j && Row(Trace(d, ops), i, j) && Trace(d, ops)[j].Released?
    ensures Trace(d, ops)[j].at == DueInRow(Trace(d, ops), i, j - 1, d.attr.period)
  {
    TraceOnTime(ClockOf(d), d, ops);
    RowEnds(ClockOf(d), Trace(d, ops), d.attr, i, j);
  }

  /** The first release of an activation takes place for the instant it was started for. */
  lemma FirstRelease(d: Process, ops: seq<Op>, i: nat)
    requires Inv(d) && Run(d, ops)
    requires i + 1 < |Trace(d, ops)| && Trace(d, ops)[i].Started? && Trace(d, ops)[i + 1].Released?
    ensures Trace(d, ops)[i + 1].at == Trace(d, ops)[i].at
  {
    TraceOnTime(ClockOf(d), d, ops);
    assert OnClock(ClockAt(ClockOf(d), Trace(d, ops), d.attr, i + 1), Trace(d, ops)[i + 1]);
  }

  // ---------------------------------------------------------------- starting before the partition is normal

  /** What cannot end the wait for the partition to become normal. */
  predicate Waits(op: Op) { !op.StopOp? && !op.Begin? }

  /** While a process waits for the partition to become normal nothing but a stop or the set-up affects it. */
  lemma {:induction false} WaitingKept(d: Process, mid: seq<Op>, tail: seq<Op>)
    requires Inv(d) && Run(d, mid + tail) && d.state == WaitingPartitionNotNormal && forall op <- mid :: Waits(op)
    ensures Run(d, tail) && Trace(d, mid + tail) == Trace(d, tail)
    decreases |mid|
  {
    if mid == [] {
      assert mid + tail == tail;
    } else {
      assert (mid + tail)[0] == mid[0] && (mid + tail)[1..] == mid[1..] + tail;
      assert Waits(mid[0]) && Do(d, mid[0]) == d && Events(d, mid[0]) == [];
      WaitingKept(d, mid[1..], tail);
      StepInv(d, mid[0]);
    }
  }

  /** The operations of a start before the partition is normal, up to the set-up, and what follows. */
  function DelayedOps(t: int, delay: int, mid: seq<Op>, now: int, rest: seq<Op>): seq<Op> {
    [StartOp(t, delay, false)] + (mid + ([Begin(now)] + rest))
  }

  lemma FirstEvent(d: Process, op: Op, rest: seq<Op>)
    requires Inv(d) && Run(d, [op] + rest)
    ensures Enabled(d, op) && Inv(Do(d, op)) && Run(Do(d, op), rest) && Trace(d, [op] + rest) == Events(d, op) + Trace(Do(d, op), rest)
  {
    assert ([op] + rest)[1..] == rest;
    StepInv(d, op);
  }

  /** Main result for early starts: whatever else is called before the set-up, short of a stop, the
      process is started for the set-up instant plus its delay, and first released for that instant. */
  lemma {:induction false} DelayedRelease(d: Process, t: int, delay: int, mid: seq<Op>, now: int, rest: seq<Op>)
    requires Inv(d) && d.state == Dormant && delay >= 0 && (forall op <- mid :: Waits(op))
    requires Run(d, DelayedOps(t, delay, mid, now, rest))
    ensures var trace := Trace(d, DelayedOps(t, delay, mid, now, rest));
            && trace != [] && trace[0] == Started(now + delay)
            && (|trace| > 1 && trace[1].Released? ==> trace[1].at == now + delay)
  {
    var ops := DelayedOps(t, delay, mid, now, rest);
    var d1 := Do(d, StartOp(t, delay, false));
    FirstEvent(d, StartOp(t, delay, false), mid + ([Begin(now)] + rest));
    assert Events(d, StartOp(t, delay, false)) == [] && d1.state == WaitingPartitionNotNormal && d1.initialDelay == delay;
    WaitingKept(d1, mid, [Begin(now)] + rest);
    FirstEvent(d1, Begin(now), rest);
    assert Events(d1, Begin(now)) == [Started(now + delay)];
    if |Trace(d, ops)| > 1 && Trace(d, ops)[1].Released? { FirstRelease(d, ops, 0); }
  }

  // ---------------------------------------------------------------- a due process is released

  /** One pass, or two when a deadline that was met is still watched, releases a process whose release
      instant has come; nothing else happens to it. */
  lemma ReleasedWhenDue(d: Process, now: int, c: int, now': int, c': int)
    requires Inv(d) && (d.state == WaitingOnPeriod || d.state == Ready) && d.next <= now <= now'
    ensures Enabled(d, Tick(now, c)) && Inv(Do(d, Tick(now, c)))
    ensures var e := Do(d, Tick(now, c));
            if d.action == ReleaseProcess then Events(d, Tick(now, c)) == [Released(d.next)] && e.state == Running
            else && Events(d, Tick(now, c)) == [] && Enabled(e, Tick(now', c'))
                 && Events(e, Tick(now', c')) == [Released(d.next)] && Do(e, Tick(now', c')).state == Running
  {
    StepInv(d, Tick(now, c));
  }

  /** A thread that returns or calls PERIODIC_WAIT: a periodic process keeps its next release, which
      takes place when it is due; an aperiodic one becomes dormant and is not released. */
  lemma FinishExactly(d: Process)
    requires Inv(d) && d.state == Running
    ensures var e := Do(d, FinishOp);
            && Inv(e) && ClockOf(e).release == ClockOf(d).release
            && (e.state == WaitingOnPeriod <==> Periodic(d.attr)) && (e.state == Dormant <==> !Periodic(d.attr))
  {
  }

  /** REPLENISH succeeds for a process that is not dormant in a normal partition, with a permitted
      budget and, for a periodic process, a new deadline before its next release; then, and only then,
      the new deadline is the present instant plus the budget. */
  lemma ReplenishedExactly(d: Process, now: int, budget: int, normal: bool)
    requires Inv(d)
    ensures var granted := normal && d.state != Dormant && (budget == INFINITE_TIME_VALUE || budget <= MAX_TIME_OUT)
                           && (Periodic(d.attr) ==> now + Duration(budget) < d.next);
            && Events(d, ReplenishOp(now, budget, normal)) == (if granted then [Replenished(now + Duration(budget))] else [])
            && Replenish(d, now, budget, normal) ==
               (if granted then d.(deadline := now + Duration(budget), critical := now + Duration(budget)) else d)
  {
  }

  // ---------------------------------------------------------------- the deadline that is reported

  /** The deadline of a running process, told from the events. */
  function Reported(from: int, t: seq<Event>, capacity: int): int
    decreases |t|
  {
    if t == [] then from else
      match t[|t| - 1]
      case Released(at) => at + Duration(capacity)
      case Replenished(deadline) => deadline
      case _ => Reported(from, t[..|t| - 1], capacity)
  }

  lemma ReportedShift(from: int, e: Event, t: seq<Event>, capacity: int)
    ensures Reported(from, [e] + t, capacity) == Reported(Reported(from, [e], capacity), t, capacity)
    decreases |t|
  {
    var u := [e] + t;
    if t == [] {
      assert u == [e];
    } else {
      assert u[..|u| - 1] == [e] + t[..|t| - 1];
      ReportedShift(from, e, t[..|t| - 1], capacity);
    }
  }

  /** One step: a running process reports the deadline that its events say. */
  lemma StepReported(d: Process, op: Op)
    requires Inv(d) && Enabled(d, op)
    ensures |Events(d, op)| <= 1
    ensures Do(d, op).state == Running ==> Do(d, op).deadline == Reported(d.deadline, Events(d, op), d.attr.timeCapacity)
    ensures Do(d, op).state == Running && d.state != Running ==> Events(d, op) != [] && Events(d, op)[0].Released?
  {
    if Events(d, op) != [] {
      assert Events(d, op)[..|Events(d, op)| - 1] == [];
      assert Reported(d.deadline, [], d.attr.timeCapacity) == d.deadline;
    }
  }

  /** In every run the deadline of a running process is its last release plus its capacity, or what
      REPLENISH has given it since; a soft miss leaves it as it is. */
  lemma {:induction false} DeadlineReported(from: int, d: Process, ops: seq<Op>)
    requires Inv(d) && Run(d, ops) && (d.state == Running ==> d.deadline == from)
    ensures After(d, ops).state == Running ==> After(d, ops).deadline == Reported(from, Trace(d, ops), d.attr.timeCapacity)
    decreases |ops|
  {
    if ops != [] {
      StepInv(d, ops[0]);
      StepReported(d, ops[0]);
      var d', rest := Do(d, ops[0]), Trace(Do(d, ops[0]), ops[1..]);
      if Events(d, ops[0]) == [] {
        assert Trace(d, ops) == rest;
        DeadlineReported(from, d', ops[1..]);
      } else {
        var e := Events(d, ops[0])[0];
        assert Events(d, ops[0]) == [e];
        ReportedOne(from, d.deadline, e, d.attr.timeCapacity);
        DeadlineReported(Reported(from, [e], d.attr.timeCapacity), d', ops[1..]);
        ReportedShift(from, e, rest, d.attr.timeCapacity);
      }
    }
  }

  lemma ReportedOne(from: int, from': int, e: Event, capacity: int)
    ensures Reported(from, [e], capacity) ==
            match e case Released(at) => at + Duration(capacity) case Replenished(deadline) => deadline case _ => from
  {
    assert [e][..0] == [];
  }

  // ---------------------------------------------------------------- after a miss

  /** The release after one soft miss takes place at the first instant in phase that lies after the
      new critical time, or one period after the last release if that is later. */
  lemma AfterSoftMiss(d: Process, ops: seq<Op>, i: nat)
    requires Inv(d) && Run(d, ops) && Periodic(d.attr)
    requires i + 2 < |Trace(d, ops)|
    requires Trace(d, ops)[i].Released? && Trace(d, ops)[i + 1].SoftMiss? && Trace(d, ops)[i + 2].Released?
    ensures var t := Trace(d, ops); LeastInPhase(t[i].at + d.attr.period, t[i + 1].c + NANO, d.attr.period, t[i + 2].at)
  {
    var t := Trace(d, ops);
    TraceOnTime(ClockOf(d), d, ops);
    assert ClockAt(ClockOf(d), t, d.attr, i + 2) == Next(ClockAt(ClockOf(d), t, d.attr, i + 1), t[i + 1], d.attr);
    assert OnClock(ClockAt(ClockOf(d), t, d.attr, i + 2), t[i + 2]);
    CatchUpLeast(t[i].at + d.attr.period, t[i + 1].c + NANO, d.attr.period);
  }

  // ---------------------------------------------------------------- deadlines

  predicate Miss(e: Event) { e.SoftMiss? || e.HardMiss? }

  /** A pass after the deadline finds a miss exactly when the process is still running. */
  lemma MissExactly(d: Process, now: int, c: int)
    requires Inv(d) && Enabled(d, Tick(now, c))
    ensures (Events(d, Tick(now, c)) != [] && Miss(Events(d, Tick(now, c))[0])) <==> d.state == Running
    ensures d.state == Running ==> (Do(d, Tick(now, c)).state == Dormant <==> d.attr.hard)
  {
  }

  /** Main result: no miss is found early.  A process that misses a deadline was released at least
      its capacity ago, or has outlived the deadline it got by REPLENISH, or missed it a second ago. */
  lemma MissNotEarly(d: Process, ops: seq<Op>, i: nat)
    requires Inv(d) && Run(d, ops) && i + 1 < |Trace(d, ops)| && Miss(Trace(d, ops)[i + 1])
    ensures var t := Trace(d, ops);
            match t[i] {
              case Released(at) => at + Duration(d.attr.timeCapacity) <= t[i + 1].now
              case Replenished(deadline) => deadline <= t[i + 1].now
              case SoftMiss(_, c) => c + NANO <= t[i + 1].now
              case _ => false
            }
  {
    TraceOnTime(ClockOf(d), d, ops);
    assert OnClock(ClockAt(ClockOf(d), Trace(d, ops), d.attr, i + 1), Trace(d, ops)[i + 1]);
  }
}
