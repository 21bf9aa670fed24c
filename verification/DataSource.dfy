/** What a firing asks of the data sources: evaluations of time-out transitions and entry and exit
    actions, in the order in which they take place. */
module DataSource {
  import opened Charts
  import opened Traversal
  import opened Firing
  import opened Sequences

  /** `TimeOuts` is one evaluation of the time-out transitions of a state. */
  datatype Call = TimeOuts(state: nat) | ExitAction(state: nat) | EntryAction(state: nat)

  /** What a state is visited for: exit, the dry run in front of entry, or entry. */
  datatype Purpose = Leaving | Probing | Entering

  /** State `s` has a data source. */
  predicate Sourced(c: Chart, s: nat) { s < |c.states| && c.states[s].sourced }

  /** One visit.  The dry run does not look whether the state has a data source; entry does, and
      evaluates the time-outs again in front of the action. */
  function CallsAt(c: Chart, how: Purpose, s: nat): seq<Call> {
    match how
    case Leaving => if Sourced(c, s) then [ExitAction(s)] else []
    case Probing => [TimeOuts(s)]
    case Entering => if Sourced(c, s) then [TimeOuts(s), EntryAction(s)] else []
  }

  function CallsFor(c: Chart, how: Purpose, p: seq<nat>): seq<Call> {
    if p == [] then [] else CallsAt(c, how, p[0]) + CallsFor(c, how, p[1..])
  }

  /** Exit of the states `left`, dry run over `probed`, entry of the states `entered`. */
  function LogAs(c: Chart, left: seq<nat>, probed: seq<nat>, entered: seq<nat>): seq<Call> {
    CallsFor(c, Leaving, left) + CallsFor(c, Probing, probed) + CallsFor(c, Entering, entered)
  }

  /** The states whose exit a firing performs. */
  ghost function Left(c: Chart, cfg: Config, t: Transition): seq<nat>
    requires Wf(c) && ValidConfig(c, cfg) && t.source < |c.states| && t.target < |c.states|
  {
    var p := PointsOf(c, t);
    if p.parallel then ExitRegions(c, cfg, p.exit, 0) else ExitState(c, cfg, p.exit)
  }

  /** The states whose entry a firing performs. */
  ghost function Entered(c: Chart, cfg: Config, t: Transition): seq<nat>
    requires Wf(c) && ValidConfig(c, cfg) && t.source < |c.states| && t.target < |c.states|
  {
    var p := PointsOf(c, t);
    var v := EntryState(c, cfg, p.enter[0], p.enter, t.history);
    if p.parallel then v.trace[1..] else v.trace
  }

  /** The states for which the dry run of a firing evaluates time-outs. */
  ghost function Probed(c: Chart, cfg: Config, t: Transition): seq<nat>
    requires Wf(c) && ValidConfig(c, cfg) && t.source < |c.states| && t.target < |c.states|
  {
    var p := PointsOf(c, t);
    if p.parallel then [] else TimeOutState(c, cfg, p.enter[0], p.enter, t.history).trace
  }

  ghost function LogOf(c: Chart, cfg: Config, t: Transition): seq<Call>
    requires Wf(c) && ValidConfig(c, cfg) && t.source < |c.states| && t.target < |c.states|
  {
    LogAs(c, Left(c, cfg, t), Probed(c, cfg, t), Entered(c, cfg, t))
  }

  // ---------------------------------------------------------------- reading a log

  /** The states whose time-outs are evaluated, in order. */
  function Evaluated(log: seq<Call>): seq<nat> {
    if log == [] then [] else EvaluatedBy(log[0]) + Evaluated(log[1..])
  }

  function EvaluatedBy(call: Call): seq<nat> { if call.TimeOuts? then [call.state] else [] }

  /** The actions that are performed, in order. */
  function Performed(log: seq<Call>): seq<Event> {
    if log == [] then [] else PerformedBy(log[0]) + Performed(log[1..])
  }

  function PerformedBy(call: Call): seq<Event> {
    match call case TimeOuts(_) => [] case ExitAction(s) => [Exit(s)] case EntryAction(s) => [Enter(s)]
  }

  /** The states that have a data source. */
  function WithSource(c: Chart, p: seq<nat>): seq<nat> {
    if p == [] then [] else (if Sourced(c, p[0]) then [p[0]] else []) + WithSource(c, p[1..])
  }

  /** The entries and exits that a data source hears of. */
  function Heard(c: Chart, events: seq<Event>): seq<Event> {
    if events == [] then [] else HeardOne(c, events[0]) + Heard(c, events[1..])
  }

  function HeardOne(c: Chart, event: Event): seq<Event> { if Sourced(c, event.state) then [event] else [] }

  /** Directly before every entry action the time-outs of the state are evaluated. */
  predicate Announced(log: seq<Call>) {
    forall k :: 0 <= k < |log| && log[k].EntryAction? ==> k > 0 && log[k - 1] == TimeOuts(log[k].state)
  }

  lemma {:induction false} CallsConcat(c: Chart, how: Purpose, a: seq<nat>, b: seq<nat>)
    ensures CallsFor(c, how, a + b) == CallsFor(c, how, a) + CallsFor(c, how, b)
    decreases |a|
  {
    if a == [] {
      assert a + b == b;
    } else {
      assert (a + b)[1..] == a[1..] + b;
      CallsConcat(c, how, a[1..], b);
      Assoc(CallsAt(c, how, a[0]), CallsFor(c, how, a[1..]), CallsFor(c, how, b));
    }
  }

  lemma {:induction false} EvaluatedConcat(a: seq<Call>, b: seq<Call>)
    ensures Evaluated(a + b) == Evaluated(a) + Evaluated(b)
    decreases |a|
  {
    if a == [] {
      assert a + b == b;
    } else {
      assert (a + b)[1..] == a[1..] + b;
      EvaluatedConcat(a[1..], b);
      Assoc(EvaluatedBy(a[0]), Evaluated(a[1..]), Evaluated(b));
    }
  }

  lemma {:induction false} PerformedConcat(a: seq<Call>, b: seq<Call>)
    ensures Performed(a + b) == Performed(a) + Performed(b)
    decreases |a|
  {
    if a == [] {
      assert a + b == b;
    } else {
      assert (a + b)[1..] == a[1..] + b;
      PerformedConcat(a[1..], b);
      Assoc(PerformedBy(a[0]), Performed(a[1..]), Performed(b));
    }
  }

  lemma {:induction false} HeardConcat(c: Chart, a: seq<Event>, b: seq<Event>)
    ensures Heard(c, a + b) == Heard(c, a) + Heard(c, b)
    decreases |a|
  {
    if a == [] {
      assert a + b == b;
    } else {
      assert (a + b)[1..] == a[1..] + b;
      HeardConcat(c, a[1..], b);
      Assoc(HeardOne(c, a[0]), Heard(c, a[1..]), Heard(c, b));
    }
  }

  lemma AnnouncedConcat(a: seq<Call>, b: seq<Call>)
    requires Announced(a) && Announced(b)
    ensures Announced(a + b)
  {
    forall k | 0 <= k < |a + b| && (a + b)[k].EntryAction?
      ensures k > 0 && (a + b)[k - 1] == TimeOuts((a + b)[k].state)
    {
      if k >= |a| { assert b[k - |a|] == (a + b)[k]; }
    }
  }

  // ---------------------------------------------------------------- what the visits call

  /** A call is made on a visit to its own state, if it belongs there. */
  lemma {:induction false} CallsMember(c: Chart, how: Purpose, p: seq<nat>, call: Call)
    ensures call in CallsFor(c, how, p) <==> call.state in p && call in CallsAt(c, how, call.state)
    decreases |p|
  {
    if p != [] {
      CallsMember(c, how, p[1..], call);
      assert p == [p[0]] + p[1..];
    }
  }

  lemma {:induction false} CallsEvaluated(c: Chart, how: Purpose, p: seq<nat>)
    ensures Evaluated(CallsFor(c, how, p)) == match how case Leaving => [] case Probing => p case Entering => WithSource(c, p)
    decreases |p|
  {
    if p != [] {
      CallsEvaluated(c, how, p[1..]);
      EvaluatedConcat(CallsAt(c, how, p[0]), CallsFor(c, how, p[1..]));
      EvaluatedAt(c, how, p[0]);
    }
  }

  lemma EvaluatedAt(c: Chart, how: Purpose, s: nat)
    ensures Evaluated(CallsAt(c, how, s)) ==
            match how case Leaving => [] case Probing => [s] case Entering => if Sourced(c, s) then [s] else []
  {
    EvaluatedConcat([TimeOuts(s)], [EntryAction(s)]);
    assert [TimeOuts(s)] + [EntryAction(s)] == [TimeOuts(s), EntryAction(s)];
  }

  lemma {:induction false} CallsPerformed(c: Chart, how: Purpose, p: seq<nat>)
    ensures Performed(CallsFor(c, how, p)) ==
            match how case Leaving => Heard(c, Exits(p)) case Probing => [] case Entering => Heard(c, Enters(p))
    decreases |p|
  {
    if p != [] {
      CallsPerformed(c, how, p[1..]);
      PerformedConcat(CallsAt(c, how, p[0]), CallsFor(c, how, p[1..]));
      PerformedAt(c, how, p[0]);
      assert Exits(p)[1..] == Exits(p[1..]) && Enters(p)[1..] == Enters(p[1..]);
    }
  }

  lemma PerformedAt(c: Chart, how: Purpose, s: nat)
    ensures Performed(CallsAt(c, how, s)) ==
            match how
            case Leaving => if Sourced(c, s) then [Exit(s)] else []
            case Probing => []
            case Entering => if Sourced(c, s) then [Enter(s)] else []
  {
    PerformedConcat([TimeOuts(s)], [EntryAction(s)]);
    assert [TimeOuts(s)] + [EntryAction(s)] == [TimeOuts(s), EntryAction(s)];
  }

  lemma {:induction false} CallsAnnounced(c: Chart, how: Purpose, p: seq<nat>)
    ensures Announced(CallsFor(c, how, p))
    decreases |p|
  {
    if p != [] {
      CallsAnnounced(c, how, p[1..]);
      assert Announced(CallsAt(c, how, p[0]));
      AnnouncedConcat(CallsAt(c, how, p[0]), CallsFor(c, how, p[1..]));
    }
  }

  // ---------------------------------------------------------------- what a whole log calls

  lemma LogEvaluated(c: Chart, left: seq<nat>, probed: seq<nat>, entered: seq<nat>)
    ensures Evaluated(LogAs(c, left, probed, entered)) == probed + WithSource(c, entered)
  {
    var x, d, e := CallsFor(c, Leaving, left), CallsFor(c, Probing, probed), CallsFor(c, Entering, entered);
    CallsEvaluated(c, Leaving, left);
    CallsEvaluated(c, Probing, probed);
    CallsEvaluated(c, Entering, entered);
    EvaluatedConcat(x, d);
    EvaluatedConcat(x + d, e);
  }

  lemma LogPerformed(c: Chart, left: seq<nat>, probed: seq<nat>, entered: seq<nat>)
    ensures Performed(LogAs(c, left, probed, entered)) == Heard(c, Exits(left) + Enters(entered))
  {
    CallsPerformed(c, Leaving, left);
    CallsPerformed(c, Probing, probed);
    CallsPerformed(c, Entering, entered);
    PerformedParts(CallsFor(c, Leaving, left), CallsFor(c, Probing, probed), CallsFor(c, Entering, entered));
    HeardConcat(c, Exits(left), Enters(entered));
  }

  lemma PerformedParts(a: seq<Call>, b: seq<Call>, d: seq<Call>)
    requires Performed(b) == []
    ensures Performed(a + b + d) == Performed(a) + Performed(d)
  {
    PerformedConcat(a, b);
    PerformedConcat(a + b, d);
    AppendNothing(Performed(a));
  }

  lemma LogAnnounced(c: Chart, left: seq<nat>, probed: seq<nat>, entered: seq<nat>)
    ensures Announced(LogAs(c, left, probed, entered))
  {
    var x, d, e := CallsFor(c, Leaving, left), CallsFor(c, Probing, probed), CallsFor(c, Entering, entered);
    CallsAnnounced(c, Leaving, left);
    CallsAnnounced(c, Probing, probed);
    CallsAnnounced(c, Entering, entered);
    AnnouncedConcat(x, d);
    AnnouncedConcat(x + d, e);
  }

  lemma LogMembers(c: Chart, left: seq<nat>, probed: seq<nat>, entered: seq<nat>, s: nat)
    ensures TimeOuts(s) in LogAs(c, left, probed, entered) <==> s in probed || (s in entered && Sourced(c, s))
    ensures EntryAction(s) in LogAs(c, left, probed, entered) <==> s in entered && Sourced(c, s)
    ensures ExitAction(s) in LogAs(c, left, probed, entered) <==> s in left && Sourced(c, s)
  {
    forall how: Purpose, p: seq<nat>, call: Call
      ensures call in CallsFor(c, how, p) <==> call.state in p && call in CallsAt(c, how, call.state)
    {
      CallsMember(c, how, p, call);
    }
  }

  // ---------------------------------------------------------------- the calls of a firing

  /** The dry run of a firing evaluates time-outs for exactly the states entered, except between
      parallel regions, where it evaluates none. */
  lemma ProbedExactly(c: Chart, cfg: Config, t: Transition)
    requires Wf(c) && ValidConfig(c, cfg) && t.source < |c.states| && t.target < |c.states|
    ensures Probed(c, cfg, t) == if PointsOf(c, t).parallel then [] else Entered(c, cfg, t)
  {
    var p := PointsOf(c, t);
    TimeOutIsDryRun(c, cfg, cfg, p.enter[0], p.enter, t.history);
  }

  lemma NothingFirst(p: seq<nat>)
    ensures [] + p == p
  {
  }

  /** Main result: a firing evaluates the time-outs of the states it enters, in order, unless it goes
      between parallel regions; and then, in order, those of the entered states with a data source. */
  lemma {:induction false} TimeOutsExactly(c: Chart, cfg: Config, t: Transition)
    requires Wf(c) && ValidConfig(c, cfg) && t.source < |c.states| && t.target < |c.states|
    ensures var entered := Entered(c, cfg, t);
            Evaluated(LogOf(c, cfg, t)) ==
            if PointsOf(c, t).parallel then WithSource(c, entered) else entered + WithSource(c, entered)
  {
    ProbedExactly(c, cfg, t);
    LogEvaluated(c, Left(c, cfg, t), Probed(c, cfg, t), Entered(c, cfg, t));
    NothingFirst(WithSource(c, Entered(c, cfg, t)));
  }

  /** Every entered state with a data source has its entry action performed, and its time-outs
      evaluated directly before that; no other state has. */
  lemma {:induction false} EntryAnnounced(c: Chart, cfg: Config, t: Transition, s: nat)
    requires Wf(c) && ValidConfig(c, cfg) && t.source < |c.states| && t.target < |c.states|
    ensures var log := LogOf(c, cfg, t);
            && (EntryAction(s) in log <==> s in Entered(c, cfg, t) && Sourced(c, s))
            && forall k :: 0 <= k < |log| && log[k] == EntryAction(s) ==> k > 0 && log[k - 1] == TimeOuts(s)
  {
    LogMembers(c, Left(c, cfg, t), Probed(c, cfg, t), Entered(c, cfg, t), s);
    LogAnnounced(c, Left(c, cfg, t), Probed(c, cfg, t), Entered(c, cfg, t));
  }

  /** The time-outs of an entered state are left out exactly when the firing goes between parallel
      regions and the state has no data source. */
  lemma {:induction false} LeftOutExactly(c: Chart, cfg: Config, t: Transition, s: nat)
    requires Wf(c) && ValidConfig(c, cfg) && t.source < |c.states| && t.target < |c.states| && s in Entered(c, cfg, t)
    ensures TimeOuts(s) !in LogOf(c, cfg, t) <==> PointsOf(c, t).parallel && !Sourced(c, s)
  {
    ProbedExactly(c, cfg, t);
    LogMembers(c, Left(c, cfg, t), Probed(c, cfg, t), Entered(c, cfg, t), s);
  }

  lemma FireEvents(c: Chart, cfg: Config, t: Transition)
    requires Wf(c) && ValidConfig(c, cfg) && t.source < |c.states| && t.target < |c.states|
    ensures Fire(c, cfg, t).events == Exits(Left(c, cfg, t)) + Enters(Entered(c, cfg, t))
  {
  }

  /** The actions that a firing performs are its entries and exits of states with a data source. */
  lemma {:induction false} ActionsHeard(c: Chart, cfg: Config, t: Transition)
    requires Wf(c) && ValidConfig(c, cfg) && t.source < |c.states| && t.target < |c.states|
    ensures Performed(LogOf(c, cfg, t)) == Heard(c, Fire(c, cfg, t).events)
  {
    FireEvents(c, cfg, t);
    LogPerformed(c, Left(c, cfg, t), Probed(c, cfg, t), Entered(c, cfg, t));
  }
}
