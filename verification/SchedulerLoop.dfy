/** The descriptors as objects, and the scheduler's loop over the sorted vector. */
module SchedulerLoop {
  import opened Apex
  import opened Scheduling

  class ProcessDescriptor {
    const attribute: Attributes
    var state: State
    var nextSchedulingInstance: Scheduled
    var absoluteNextScheduledTime: int
    var absoluteCriticalTime: int
    var deadlineTime: int
    var initialDelayTime: int

    ghost function View(): Process
      reads this
    {
      Process(attribute, state, nextSchedulingInstance, absoluteNextScheduledTime, absoluteCriticalTime, deadlineTime, initialDelayTime)
    }

    constructor (a: Attributes)
      requires CreateCode(a) == NoError
      ensures View().attr == a && state == Dormant && Inv(View())
    {
      attribute, state, nextSchedulingInstance := a, Dormant, ReleaseProcess;
      absoluteNextScheduledTime, absoluteCriticalTime, deadlineTime, initialDelayTime := 0, 0, 0, 0;
      new;
      CreateExactly(a);
    }

    /** The two cases of the scheduler for a due entry. */
    method ServeDue(c: int)
      requires Inv(View())
      modifies this
      ensures View() == Serve(old(View()), c)
    {
      match nextSchedulingInstance
      case ReleaseProcess =>
        if state == WaitingOnPeriod || state == Ready {
          state := Ready;
          StartThread();
          if Periodic(attribute) {
            absoluteNextScheduledTime := absoluteCriticalTime + attribute.period;
          }
          deadlineTime := Deadline(absoluteCriticalTime, attribute.timeCapacity);
          absoluteCriticalTime := deadlineTime;
          nextSchedulingInstance := CheckDeadline;
        }
      case CheckDeadline =>
        if state == Dormant || state == WaitingOnPeriod {
          if state == WaitingOnPeriod {
            absoluteCriticalTime := absoluteNextScheduledTime;
          }
          nextSchedulingInstance := ReleaseProcess;
        } else if attribute.hard {
          state := Dormant;
          nextSchedulingInstance := ReleaseProcess;
        } else {
          absoluteCriticalTime := c + NANO;
          if Periodic(attribute) {
            BringIntoPhase();
          }
        }
    }

    method StartThread()
      modifies `state
      ensures state == if old(state) == Ready then Running else old(state)
    {
      if state == Ready {
        state := Running;
      }
    }

    method BringIntoPhase()
      requires attribute.period > 0
      modifies `absoluteNextScheduledTime
      ensures absoluteNextScheduledTime == CatchUp(old(absoluteNextScheduledTime), absoluteCriticalTime, attribute.period)
    {
      while absoluteNextScheduledTime <= absoluteCriticalTime
        invariant CatchUp(absoluteNextScheduledTime, absoluteCriticalTime, attribute.period) ==
                  CatchUp(old(absoluteNextScheduledTime), absoluteCriticalTime, attribute.period)
        decreases absoluteCriticalTime - absoluteNextScheduledTime
      {
        absoluteNextScheduledTime := absoluteNextScheduledTime + attribute.period;
      }
    }

    /** DELAYED_START, as one step. */
    method StartDelayed(now: int, delayTime: int, normal: bool) returns (code: ReturnCode)
      requires Inv(View()) && delayTime <= MAX_TIME_OUT
      modifies this
      ensures code == NoError <==> delayTime >= 0 && old(state) == Dormant
      ensures code == InvalidParam <==> delayTime < 0
      ensures code != NoError && code != InvalidParam ==> code == NoAction
      ensures code == NoError && normal ==>
                && state == (if Periodic(attribute) then WaitingOnPeriod else Ready) && nextSchedulingInstance == ReleaseProcess
                && absoluteNextScheduledTime == absoluteCriticalTime == now + delayTime
                && deadlineTime == now + delayTime + Duration(attribute.timeCapacity)
      ensures code == NoError && !normal ==> state == WaitingPartitionNotNormal && initialDelayTime == delayTime
      ensures code != NoError ==> View() == old(View())
      ensures code == StartCode(old(View()), delayTime)
      ensures View() == DelayedStart(old(View()), now, delayTime, normal) && Inv(View())
    {
      StepInv(View(), StartOp(now, delayTime, normal));
      if delayTime < 0 {
        return InvalidParam;
      }
      if state != Dormant {
        return NoAction;
      }
      if normal {
        state := if Periodic(attribute) then WaitingOnPeriod else Ready;
        absoluteNextScheduledTime := now + delayTime;
        deadlineTime := Deadline(absoluteNextScheduledTime, attribute.timeCapacity);
        absoluteCriticalTime := absoluteNextScheduledTime;
        nextSchedulingInstance := ReleaseProcess;
      } else {
        state, initialDelayTime := WaitingPartitionNotNormal, delayTime;
      }
      code := NoError;
    }

    method StopProcess() returns (code: ReturnCode)
      requires Inv(View())
      modifies this
      ensures code == if old(state) == Dormant then NoAction else NoError
      ensures View() == Stop(old(View())) && Inv(View())
    {
      StepInv(View(), StopOp);
      if state == Dormant {
        return NoAction;
      }
      state := Dormant;
      code := NoError;
    }

    method ReplenishBudget(now: int, budgetTime: int, normal: bool) returns (code: ReturnCode)
      requires Inv(View())
      modifies this
      ensures code == NoError <==>
                && normal && old(state) != Dormant && (budgetTime == INFINITE_TIME_VALUE || budgetTime <= MAX_TIME_OUT)
                && (Periodic(attribute) ==> now + Duration(budgetTime) < old(absoluteNextScheduledTime))
      ensures code == InvalidParam <==> normal && budgetTime != INFINITE_TIME_VALUE && budgetTime > MAX_TIME_OUT
      ensures code == NoAction <==> !normal || (code != InvalidParam && old(state) == Dormant)
      ensures code == ReplenishCode(old(View()), now, budgetTime, normal)
      ensures View() == Replenish(old(View()), now, budgetTime, normal)
      ensures old(state) == Running || old(state) == Dormant || code != NoError ==> Inv(View())
      ensures code == NoError ==>
                (Inv(View()) <==> ((old(state) == WaitingOnPeriod || old(state) == Ready) && nextSchedulingInstance == ReleaseProcess
                                   ==> absoluteCriticalTime == absoluteNextScheduledTime))
    {
      if ReplenishCode(View(), now, budgetTime, normal) == NoError {
        ReplenishExactly(View(), now, budgetTime, normal);
      }
      if !normal {
        return NoAction;
      }
      if budgetTime != INFINITE_TIME_VALUE && budgetTime > MAX_TIME_OUT {
        return InvalidParam;
      }
      if state == Dormant {
        return NoAction;
      }
      var newDeadline := Deadline(now, budgetTime);
      if Periodic(attribute) && absoluteNextScheduledTime <= newDeadline {
        return InvalidMode;
      }
      deadlineTime, absoluteCriticalTime := newDeadline, newDeadline;
      code := NoError;
    }
  }

  // ---------------------------------------------------------------- the order of the vector

  /** PROCESS_DESCRIPTOR_COMP, which compares critical times by "at most". */
  predicate Comp(first: Process, second: Process) {
    if first.state == Dormant && second.state == Dormant then false
    else if second.state == Dormant then true
    else if first.state == Dormant then false
    else first.critical <= second.critical
  }

  /** What sorting by the comparison is meant to give: nothing strictly precedes an earlier entry. */
  ghost predicate Ordered(v: seq<Process>) {
    forall i, j :: 0 <= i < j < |v| && Comp(v[j], v[i]) ==> Comp(v[i], v[j])
  }

  /** The order is by critical time with dormant processes last. */
  lemma OrderedExactly(v: seq<Process>)
    ensures Ordered(v) <==> forall i, j :: 0 <= i < j < |v| && v[j].state != Dormant ==> v[i].state != Dormant && v[i].critical <= v[j].critical
  {
    if Ordered(v) {
      forall i, j | 0 <= i < j < |v| && v[j].state != Dormant
        ensures v[i].state != Dormant && v[i].critical <= v[j].critical
      {
        assert Comp(v[j], v[i]) ==> Comp(v[i], v[j]);
      }
    }
  }

  ghost function Views(v: seq<ProcessDescriptor>): (r: seq<Process>)
    reads v
    ensures |r| == |v|
  {
    seq(|v|, i requires 0 <= i < |v| reads v => v[i].View())
  }

  ghost predicate Distinct(v: seq<ProcessDescriptor>) {
    forall i, j :: 0 <= i < j < |v| ==> v[i] != v[j]
  }

  /** What a pass at instant `now` does to an entry: one action if it is due and not dormant,
      nothing if it is not due, and nothing but the action field if it is dormant. */
  ghost predicate PassedOver(was: Process, d: Process, now: int, c: int)
  {
    Sound(was.attr) &&
    if was.state == Dormant then d == was || (was.critical <= now && d == was.(action := ReleaseProcess))
    else if was.critical <= now then d == Serve(was, c)
    else d == was
  }

  /** Main result: the scan that stops at the first entry that is not due gives exactly one action
      to every due process, although it changes critical times as it goes. */
  method Scan(v: seq<ProcessDescriptor>, now: int, clocks: seq<int>)
    requires Distinct(v) && |clocks| == |v| && Ordered(Views(v))
    requires forall i :: 0 <= i < |v| ==> Inv(v[i].View()) && v[i].state != WaitingPartitionNotNormal
    modifies v
    ensures forall i :: 0 <= i < |v| ==> PassedOver(old(v[i].View()), v[i].View(), now, clocks[i]) && Inv(v[i].View())
  {
    var count := 0;
    OrderedExactly(Views(v));
    ghost var was := Views(v);
    while count < |v|
      invariant count <= |v|
      invariant forall i :: 0 <= i < count ==> was[i].critical <= now && v[i].View() == Serve(was[i], clocks[i])
      invariant forall i :: count <= i < |v| ==> v[i].View() == was[i]
    {
      if v[count].absoluteCriticalTime > now {
        break;
      }
      v[count].ServeDue(clocks[count]);
      count := count + 1;
    }
    forall i | 0 <= i < |v|
      ensures PassedOver(was[i], v[i].View(), now, clocks[i]) && Inv(v[i].View())
    {
      if i < count {
        StepInv(was[i], Tick(now, clocks[i]));
      } else {
        assert i > count && was[i].state != Dormant ==> was[count].critical <= was[i].critical;
      }
    }
  }

  /** When anything is due, the head of the sorted vector is: waiting for the head loses nothing. */
  lemma HeadIsDue(v: seq<Process>, now: int, i: nat)
    requires Ordered(v) && i < |v| && v[i].state != Dormant && v[i].critical <= now
    ensures v[0].state != Dormant && v[0].critical <= now
  {
    OrderedExactly(v);
  }

  /** The scheduler watches a process without bound: it never looks at the deadline of such a head. */
  predicate Watched(d: Process) {
    d.state != Dormant && d.attr.timeCapacity == INFINITE_TIME_VALUE && d.action == CheckDeadline
  }

  /** The scheduler finds nothing to do. */
  predicate Idle(v: seq<Process>) {
    v == [] || v[0].state == Dormant || Watched(v[0])
  }

  predicate Due(d: Process, now: int) { d.state != Dormant && d.critical <= now }

  /** A due process is kept waiting exactly when the head is watched without bound. */
  lemma StarvedExactly(v: seq<Process>, now: int, i: nat)
    requires Ordered(v) && i < |v| && Due(v[i], now)
    ensures Idle(v) <==> Watched(v[0])
  {
    HeadIsDue(v, now, i);
  }

  /** One round of the loop on the sorted vector: sleep, or wait for the head and scan.  `interrupted`
      says that the wait was cut short by a request to sort again; otherwise it lasted until the
      head's critical time. */
  method Round(v: seq<ProcessDescriptor>, now: int, interrupted: bool, clocks: seq<int>) returns (served: bool)
    requires Distinct(v) && |clocks| == |v| && Ordered(Views(v))
    requires forall i :: 0 <= i < |v| ==> Inv(v[i].View()) && v[i].state != WaitingPartitionNotNormal
    requires v != [] && !interrupted ==> v[0].absoluteCriticalTime <= now
    modifies v
    ensures served <==> !interrupted && !Idle(old(Views(v)))
    ensures served ==> forall i :: 0 <= i < |v| ==> PassedOver(old(v[i].View()), v[i].View(), now, clocks[i]) && Inv(v[i].View())
    ensures !served ==> forall i :: 0 <= i < |v| ==> v[i].View() == old(v[i].View())
  {
    if |v| == 0 || v[0].state == Dormant
       || (v[0].attribute.timeCapacity == INFINITE_TIME_VALUE && v[0].nextSchedulingInstance == CheckDeadline)
       || interrupted {
      return false;
    }
    Scan(v, now, clocks);
    served := true;
  }

  /** The set-up before the first pass. */
  method SetUpAll(v: seq<ProcessDescriptor>, clocks: seq<int>)
    requires Distinct(v) && |clocks| == |v|
    requires forall i :: 0 <= i < |v| ==> Inv(v[i].View()) && (v[i].state == Dormant || v[i].state == WaitingPartitionNotNormal)
    modifies v
    ensures forall i :: 0 <= i < |v| ==> v[i].View() == SetUp(old(v[i].View()), clocks[i]) && Inv(v[i].View())
    ensures forall i :: 0 <= i < |v| && old(v[i].state) == WaitingPartitionNotNormal ==>
              && v[i].absoluteNextScheduledTime == v[i].absoluteCriticalTime == clocks[i] + old(v[i].initialDelayTime)
              && v[i].state == (if Periodic(v[i].attribute) then WaitingOnPeriod else Ready)
    ensures forall i :: 0 <= i < |v| && old(v[i].state) == Dormant ==> v[i].state == Dormant
  {
    for i := 0 to |v|
      invariant forall k :: 0 <= k < i ==> v[k].View() == SetUp(old(v[k].View()), clocks[k]) && Inv(v[k].View())
      invariant forall k :: i <= k < |v| ==> v[k].View() == old(v[k].View())
    {
      var d := v[i];
      StepInv(d.View(), Begin(clocks[i]));
      d.nextSchedulingInstance := ReleaseProcess;
      if d.state == WaitingPartitionNotNormal {
        d.absoluteNextScheduledTime := if d.initialDelayTime == 0 then clocks[i] else clocks[i] + d.initialDelayTime;
        d.absoluteCriticalTime := d.absoluteNextScheduledTime;
        d.state := if Periodic(d.attribute) then WaitingOnPeriod else Ready;
      }
    }
  }
}
