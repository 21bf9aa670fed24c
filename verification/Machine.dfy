/** The state machine object: its current-state pointers, the entries and exits it performs, and what
    it asks of its data sources. */
module Machine {
  import opened Apex
  import opened Charts
  import opened Traversal
  import opened Firing
  import opened Balance
  import opened Selection
  import opened Orthogonal
  import opened Passes
  import opened Sequences
  import opened DataSource

  /** The run-to-completion loop as a function: `rounds` holds, for each pass, the transitions
      whose event and guard the data source then reports as true. */
  ghost function StepAll(c: Chart, cfg: Config, rounds: seq<set<nat>>): (f: Fired)
    requires Wf(c) && ValidConfig(c, cfg)
    ensures ValidConfig(c, f.cfg)
    decreases |rounds|
  {
    if rounds == [] || Collected(c, cfg, rounds[0]) == [] then Fired(cfg, []) else
      var f := FireAll(c, cfg, Collected(c, cfg, rounds[0]));
      var g := StepAll(c, f.cfg, rounds[1..]);
      Fired(g.cfg, f.events + g.events)
  }

  /** Whether a pass finds transitions to fire. */
  ghost function Finds(c: Chart): (Config, set<nat>) -> bool
    requires Wf(c)
  {
    (cfg: Config, enabled: set<nat>) => ValidConfig(c, cfg) && Collected(c, cfg, enabled) != []
  }

  /** The pointers after a pass. */
  ghost function Passing(c: Chart): (Config, set<nat>) -> Config
    requires Wf(c)
  {
    (cfg: Config, enabled: set<nat>) => if ValidConfig(c, cfg) then FireAll(c, cfg, Collected(c, cfg, enabled)).cfg else cfg
  }

  lemma {:induction false} StepIsLoop(c: Chart, cfg: Config, rounds: seq<set<nat>>)
    requires Wf(c) && ValidConfig(c, cfg)
    ensures StepAll(c, cfg, rounds).cfg == While(Finds(c), Passing(c), cfg, rounds)
    decreases |rounds|
  {
    if rounds != [] && Collected(c, cfg, rounds[0]) != [] {
      StepIsLoop(c, FireAll(c, cfg, Collected(c, cfg, rounds[0])).cfg, rounds[1..]);
    }
  }

  /** A step runs to completion: pass after pass, each on the pointers that the one before has left,
      finds and fires transitions, until nothing is found or the data source has no further events. */
  lemma {:induction false} RunsToCompletion(c: Chart, cfg: Config, rounds: seq<set<nat>>) returns (n: nat)
    requires Wf(c) && ValidConfig(c, cfg)
    ensures n <= |rounds| && StepAll(c, cfg, rounds).cfg == Fold(Passing(c), cfg, rounds, n)
    ensures forall k :: 0 <= k < n ==> Finds(c)(Fold(Passing(c), cfg, rounds, k), rounds[k])
    ensures n < |rounds| ==> !Finds(c)(Fold(Passing(c), cfg, rounds, n), rounds[n])
  {
    StepIsLoop(c, cfg, rounds);
    n := WhileExactly(Finds(c), Passing(c), cfg, rounds);
  }

  /** Every transition of the chart stays in one region. */
  ghost predicate LocalChart(c: Chart)
    requires Wf(c)
  {
    forall k :: 0 <= k < |c.transitions| ==> Local(c, c.transitions[k])
  }

  /** Main result for steps: in a chart of local transitions every step, whatever the data source
      answers, is balanced. */
  lemma {:induction false} StepBalanced(c: Chart, cfg: Config, rounds: seq<set<nat>>)
    requires Wf(c) && ValidConfig(c, cfg) && LocalChart(c)
    ensures Replay(c, ActiveSet(c, cfg), StepAll(c, cfg, rounds).events) == Some(ActiveSet(c, StepAll(c, cfg, rounds).cfg))
    decreases |rounds|
  {
    if rounds != [] && Collected(c, cfg, rounds[0]) != [] {
      var ts := Collected(c, cfg, rounds[0]);
      assert AllLocal(c, ts);
      CollectedCommute(c, cfg, rounds[0], ts);
      var f := FireAll(c, cfg, ts);
      StepBalanced(c, f.cfg, rounds[1..]);
      ReplayConcat(c, ActiveSet(c, cfg), f.events, StepAll(c, f.cfg, rounds[1..]).events);
    }
  }

  /** The points of every transition of the chart match. */
  ghost predicate MatchedChart(c: Chart)
    requires Wf(c)
  {
    forall k :: 0 <= k < |c.transitions| ==>
      var t := c.transitions[k];
      t.source < |c.states| && t.target < |c.states| && Matched(c, PointsOf(c, t).exit, PointsOf(c, t).enter[0])
  }

  /** In every pass of a step the exit state of every firing is active in its turn. */
  ghost predicate StepExits(c: Chart, cfg: Config, rounds: seq<set<nat>>)
    requires Wf(c) && ValidConfig(c, cfg)
    decreases |rounds|
  {
    rounds != [] && Collected(c, cfg, rounds[0]) != [] ==>
      var ts := Collected(c, cfg, rounds[0]);
      ActiveExits(c, cfg, ts) && StepExits(c, FireAll(c, cfg, ts).cfg, rounds[1..])
  }

  /** Main result for steps in any chart with matching points: a step is balanced exactly when every
      exit state is active in its turn.  `step` itself does not look. */
  lemma {:induction false} StepBalancedExactly(c: Chart, cfg: Config, rounds: seq<set<nat>>)
    requires Wf(c) && ValidConfig(c, cfg) && MatchedChart(c)
    ensures Replay(c, ActiveSet(c, cfg), StepAll(c, cfg, rounds).events) ==
            if StepExits(c, cfg, rounds) then Some(ActiveSet(c, StepAll(c, cfg, rounds).cfg)) else None
    decreases |rounds|
  {
    if rounds != [] && Collected(c, cfg, rounds[0]) != [] {
      var ts := Collected(c, cfg, rounds[0]);
      var f := FireAll(c, cfg, ts);
      assert AllMatched(c, ts);
      FireAllExactly(c, cfg, ts);
      StepBalancedExactly(c, f.cfg, rounds[1..]);
      ReplayConcat(c, ActiveSet(c, cfg), f.events, StepAll(c, f.cfg, rounds[1..]).events);
    }
  }

  /** The transitions behind a queue of transition numbers. */
  ghost function Transitions(c: Chart, queue: seq<nat>): (ts: seq<Transition>)
    requires Wf(c) && forall k :: 0 <= k < |queue| ==> queue[k] < |c.transitions|
    ensures ValidTransitions(c, ts)
  {
    seq(|queue|, k requires 0 <= k < |queue| => c.transitions[queue[k]])
  }

  lemma FireStep(c: Chart, cfg: Config, queue: seq<nat>)
    requires Wf(c) && ValidConfig(c, cfg) && queue != [] && forall k :: 0 <= k < |queue| ==> queue[k] < |c.transitions|
    ensures var f := Fire(c, cfg, c.transitions[queue[0]]);
            var g, all := FireAll(c, f.cfg, Transitions(c, queue[1..])), FireAll(c, cfg, Transitions(c, queue));
            all.cfg == g.cfg && all.events == f.events + g.events
  {
    assert Transitions(c, queue)[1..] == Transitions(c, queue[1..]);
  }

  /** One firing of a queue: what was done and what is still to do add up as before. */
  lemma QueueStep(c: Chart, cfg: Config, queue: seq<nat>, before: seq<Event>)
    requires Wf(c) && ValidConfig(c, cfg) && queue != [] && forall k :: 0 <= k < |queue| ==> queue[k] < |c.transitions|
    ensures var f := Fire(c, cfg, c.transitions[queue[0]]);
            var g, all := FireAll(c, f.cfg, Transitions(c, queue[1..])), FireAll(c, cfg, Transitions(c, queue));
            all.cfg == g.cfg && before + all.events == (before + f.events) + g.events
  {
    FireStep(c, cfg, queue);
    var f := Fire(c, cfg, c.transitions[queue[0]]);
    Assoc(before, f.events, FireAll(c, f.cfg, Transitions(c, queue[1..])).events);
  }

  lemma OneState(c: Chart, s: nat)
    ensures Exits([s]) == [Exit(s)] && Enters([s]) == [Enter(s)]
    ensures forall how :: CallsFor(c, how, [s]) == CallsAt(c, how, s)
  {
    forall how: Purpose
      ensures CallsFor(c, how, [s]) == CallsAt(c, how, s)
    {
      assert [s][1..] == [];
      AppendNothing(CallsAt(c, how, s));
    }
  }

  /** Exit of some states and then of others. */
  lemma ExitsJoin(c: Chart, actions: seq<Event>, log: seq<Call>, a: seq<nat>, b: seq<nat>)
    ensures actions + Exits(a + b) == (actions + Exits(a)) + Exits(b)
    ensures log + CallsFor(c, Leaving, a + b) == (log + CallsFor(c, Leaving, a)) + CallsFor(c, Leaving, b)
  {
    EntersConcat(a, b);
    Assoc(actions, Exits(a), Exits(b));
    CallsConcat(c, Leaving, a, b);
    Assoc(log, CallsFor(c, Leaving, a), CallsFor(c, Leaving, b));
  }

  lemma ProbesJoin(c: Chart, log: seq<Call>, a: seq<nat>, b: seq<nat>)
    ensures log + CallsFor(c, Probing, a + b) == (log + CallsFor(c, Probing, a)) + CallsFor(c, Probing, b)
  {
    CallsConcat(c, Probing, a, b);
    Assoc(log, CallsFor(c, Probing, a), CallsFor(c, Probing, b));
  }

  lemma EntriesJoin(c: Chart, actions: seq<Event>, log: seq<Call>, a: seq<nat>, b: seq<nat>)
    ensures actions + Enters(a + b) == (actions + Enters(a)) + Enters(b)
    ensures log + CallsFor(c, Entering, a + b) == (log + CallsFor(c, Entering, a)) + CallsFor(c, Entering, b)
    ensures (a + b)[|a|..] == b
  {
    EntersConcat(a, b);
    Assoc(actions, Enters(a), Enters(b));
    CallsConcat(c, Entering, a, b);
    Assoc(log, CallsFor(c, Entering, a), CallsFor(c, Entering, b));
  }

  /** What the `i`-th region adds to `actions` and `log` in front of the later ones. */
  lemma RegionEntryAdds(c: Chart, cfg: Config, s: nat, i: nat, q: seq<nat>, history: bool, check: bool, actions: seq<Event>, log: seq<Call>)
    requires Wf(c) && ValidConfig(c, cfg) && s < |c.states| && i < |Regions(c, s)|
    ensures var v, all := EntryRegion(c, cfg, s, i, q, history, check), EntryRegions(c, cfg, s, i, q, history, check);
            var w := EntryRegions(c, v.cfg, s, i + 1, v.queue, history, check);
            && all.cfg == w.cfg && all.queue == w.queue
            && actions + Enters(all.trace) == (actions + Enters(v.trace)) + Enters(w.trace)
            && log + CallsFor(c, Entering, all.trace) == (log + CallsFor(c, Entering, v.trace)) + CallsFor(c, Entering, w.trace)
  {
    EntryStep(c, cfg, s, i, q, history, check);
    var v := EntryRegion(c, cfg, s, i, q, history, check);
    EntriesJoin(c, actions, log, v.trace, EntryRegions(c, v.cfg, s, i + 1, v.queue, history, check).trace);
  }

  /** The same for the dry run. */
  lemma RegionTimeOutAdds(c: Chart, cfg: Config, s: nat, i: nat, q: seq<nat>, history: bool, check: bool, visited: seq<nat>, log: seq<Call>)
    requires Wf(c) && ValidConfig(c, cfg) && s < |c.states| && i < |Regions(c, s)|
    ensures var v, all := TimeOutRegion(c, cfg, s, i, q, history, check), TimeOutRegions(c, cfg, s, i, q, history, check);
            var w := TimeOutRegions(c, cfg, s, i + 1, v.queue, history, check);
            && all.queue == w.queue && visited + all.trace == (visited + v.trace) + w.trace
            && log + CallsFor(c, Probing, visited + v.trace) == (log + CallsFor(c, Probing, visited)) + CallsFor(c, Probing, v.trace)
  {
    TimeOutStep(c, cfg, s, i, q, history, check);
    var v := TimeOutRegion(c, cfg, s, i, q, history, check);
    Assoc(visited, v.trace, TimeOutRegions(c, cfg, s, i + 1, v.queue, history, check).trace);
    ProbesJoin(c, log, visited, v.trace);
  }

  /** What a firing adds to `actions` and `log`. */
  lemma FiringAdds(c: Chart, cfg: Config, t: Transition, actions: seq<Event>, log: seq<Call>)
    requires Wf(c) && ValidConfig(c, cfg) && t.source < |c.states| && t.target < |c.states|
    ensures var left, probed, entered := Left(c, cfg, t), Probed(c, cfg, t), Entered(c, cfg, t);
            && actions + Fire(c, cfg, t).events == (actions + Exits(left)) + Enters(entered)
            && log + LogOf(c, cfg, t)
               == ((log + CallsFor(c, Leaving, left)) + CallsFor(c, Probing, probed)) + CallsFor(c, Entering, entered)
  {
    var left, probed, entered := Left(c, cfg, t), Probed(c, cfg, t), Entered(c, cfg, t);
    FireEvents(c, cfg, t);
    Assoc(actions, Exits(left), Enters(entered));
    LogAdds(log, CallsFor(c, Leaving, left), CallsFor(c, Probing, probed), CallsFor(c, Entering, entered));
  }

  lemma LogAdds(log: seq<Call>, x: seq<Call>, d: seq<Call>, e: seq<Call>)
    ensures log + (x + d + e) == ((log + x) + d) + e
  {
  }

  /** A report stays complete when the calls added are those of the events added. */
  lemma ReportAdds(c: Chart, actions: seq<Event>, log: seq<Call>, left: seq<nat>, probed: seq<nat>, entered: seq<nat>)
    requires Announced(log) && Performed(log) == Heard(c, actions)
    ensures var log', actions' := log + LogAs(c, left, probed, entered), actions + (Exits(left) + Enters(entered));
            Announced(log') && Performed(log') == Heard(c, actions')
  {
    LogAnnounced(c, left, probed, entered);
    AnnouncedConcat(log, LogAs(c, left, probed, entered));
    LogPerformed(c, left, probed, entered);
    PerformedConcat(log, LogAs(c, left, probed, entered));
    HeardConcat(c, actions, Exits(left) + Enters(entered));
  }

  lemma StepStep(c: Chart, cfg: Config, rounds: seq<set<nat>>)
    requires Wf(c) && ValidConfig(c, cfg) && rounds != []
    ensures var queue, all := Collect(c, cfg, rounds[0], 0), StepAll(c, cfg, rounds);
            if queue == [] then all.cfg == cfg && all.events == [] else
              var f := FireAll(c, cfg, Transitions(c, queue));
              var g := StepAll(c, f.cfg, rounds[1..]);
              all.cfg == g.cfg && all.events == f.events + g.events
  {
    assert Collected(c, cfg, rounds[0]) == Transitions(c, Collect(c, cfg, rounds[0], 0));
  }

  lemma StepKeepsBalance(c: Chart, cfg: Config, actions: seq<Event>, rounds: seq<set<nat>>)
    requires Wf(c) && ValidConfig(c, cfg) && LocalChart(c)
    requires Replay(c, {}, actions) == Some(ActiveSet(c, cfg))
    ensures var f := StepAll(c, cfg, rounds); Replay(c, {}, actions + f.events) == Some(ActiveSet(c, f.cfg))
  {
    StepBalanced(c, cfg, rounds);
    ReplayConcat(c, {}, actions, StepAll(c, cfg, rounds).events);
  }

  lemma StepKeepsBalanceExactly(c: Chart, cfg: Config, actions: seq<Event>, rounds: seq<set<nat>>)
    requires Wf(c) && ValidConfig(c, cfg) && MatchedChart(c)
    requires Replay(c, {}, actions) == Some(ActiveSet(c, cfg))
    ensures var f := StepAll(c, cfg, rounds);
            Replay(c, {}, actions + f.events) == Some(ActiveSet(c, f.cfg)) <==> StepExits(c, cfg, rounds)
  {
    StepBalancedExactly(c, cfg, rounds);
    ReplayConcat(c, {}, actions, StepAll(c, cfg, rounds).events);
  }

  class StateMachine {
    const chart: Chart
    var current: Config
    /** Entries and exits of states, oldest first. */
    var actions: seq<Event>
    /** Evaluations of time-outs and actions of data sources, oldest first. */
    var log: seq<Call>

    ghost predicate Valid()
      reads this
    {
      Wf(chart) && ValidConfig(chart, current)
    }

    /** The actions so far have opened exactly the active configuration. */
    ghost predicate Balanced()
      requires Valid()
      reads this
    {
      Replay(chart, {}, actions) == Some(ActiveSet(chart, current))
    }

    /** The data sources have heard of the entries and exits of their states, with the time-outs
        evaluated directly before every entry. */
    ghost predicate Reported()
      reads this
    {
      Announced(log) && Performed(log) == Heard(chart, actions)
    }

    constructor (c: Chart, initial: Config)
      requires Wf(c) && ValidConfig(c, initial)
      ensures Valid() && Reported() && chart == c && current == initial && actions == [] && log == []
    {
      chart, current, actions, log := c, initial, [], [];
    }

    method ComputePathToRoot(s: nat) returns (path: seq<nat>)
      requires Valid() && s < |chart.states|
      ensures path == Path(chart, s)
    {
      path := [];
      var state: nat := s;
      while state != 0
        invariant state < |chart.states|
        invariant Path(chart, s) == Path(chart, state) + path
        decreases state
      {
        state := Parent(chart, state);
        path := [state] + path;
      }
    }

    method ComputeEntryAndExitPoints(t: Transition) returns (p: Points)
      requires Valid() && t.source < |chart.states| && t.target < |chart.states|
      ensures p == PointsOf(chart, t)
    {
      var sp := ComputePathToRoot(t.source);
      var tp := ComputePathToRoot(t.target);
      ghost var d := FirstDifference(sp, tp, 0);
      PathStartsAtRoot(chart, t.source);
      PathStartsAtRoot(chart, t.target);
      var size := if |sp| > |tp| then |tp| else |sp|;
      var exit, parallel, i := t.source, false, 0;
      while i < size
        invariant 0 <= i <= size && d == FirstDifference(sp, tp, i)
        invariant exit == t.source && !parallel
      {
        if sp[i] != tp[i] {
          exit := sp[i];
          if chart.states[sp[i]].region != chart.states[tp[i]].region {
            exit, parallel := sp[i - 1], true;
          }
          break;
        }
        i := i + 1;
      }
      var enter := if parallel then [exit] else [];
      p := Points(exit, parallel, enter + tp[i..] + [t.target]);
      assert p == PointsAt(t.source, t.target, sp, tp, d, Crosses(chart, sp, tp, d));
    }

    method SetCurrentState(r: nat, s: nat)
      requires Valid() && r < |chart.regions|
      modifies this`current
      ensures Valid()
      ensures current == if s in chart.regions[r].children then old(current)[r := s] else old(current)
    {
      if s in chart.regions[r].children {
        current := current[r := s];
      }
    }

    // -------------------------------------------------------------- exit

    method PerformExit(s: nat)
      requires Valid() && s < |chart.states|
      modifies this`actions, this`log
      ensures actions == old(actions) + Exits([s]) && log == old(log) + CallsFor(chart, Leaving, [s])
    {
      OneState(chart, s);
      actions := actions + [Exit(s)];
      if chart.states[s].sourced {
        log := log + [ExitAction(s)];
      }
    }

    method EvalExit(s: nat, doExit: bool)
      requires Valid() && s < |chart.states|
      modifies this`actions, this`log
      ensures var left := if doExit then ExitState(chart, current, s) else ExitRegions(chart, current, s, 0);
              actions == old(actions) + Exits(left) && log == old(log) + CallsFor(chart, Leaving, left)
      decreases |chart.states| - s
    {
      var rs, i := Regions(chart, s), 0;
      ghost var all := ExitRegions(chart, current, s, 0);
      while i < |rs|
        invariant i <= |rs|
        invariant actions + Exits(ExitRegions(chart, current, s, i)) == old(actions) + Exits(all)
        invariant log + CallsFor(chart, Leaving, ExitRegions(chart, current, s, i)) == old(log) + CallsFor(chart, Leaving, all)
      {
        ExitStep(chart, current, s, i);
        ExitsJoin(chart, actions, log, ExitState(chart, current, current[rs[i]]), ExitRegions(chart, current, s, i + 1));
        EvalExit(current[rs[i]], true);
        i := i + 1;
      }
      AppendNothing(actions);
      AppendNothing(log);
      if doExit {
        ExitsJoin(chart, old(actions), old(log), all, [s]);
        PerformExit(s);
      }
    }

    // -------------------------------------------------------------- time-outs

    method EvalTimeOut(s: nat, q: seq<nat>, history: bool, doEntry: bool) returns (rest: seq<nat>, ghost visited: seq<nat>)
      requires Valid() && s < |chart.states|
      modifies this`log
      ensures rest == TimeOutState(chart, current, s, q, history).queue
      ensures visited == TimeOutState(chart, current, s, q, history).trace
      ensures log == old(log) + CallsFor(chart, Probing, if doEntry then visited else [])
      decreases |chart.states| - s, 1, 0
    {
      TimeOutUnfold(chart, current, s, q, history);
      OneState(chart, s);
      if doEntry {
        log := log + [TimeOuts(s)];
      }
      var check := false;
      rest := q;
      if q != [] && q[0] == s {
        rest := q[1..];
        if rest == [] && history { check := true; }
      }
      ghost var seen;
      assert rest == Pop(q, s) && check == CheckHistory(q, s, history);
      rest, seen := EvalRegionTimeOuts(s, rest, history, check, doEntry);
      visited := [s] + seen;
      ProbesJoin(chart, old(log), [s], seen);
    }

    method EvalRegionTimeOuts(s: nat, q: seq<nat>, history: bool, check: bool, doEntry: bool) returns (rest: seq<nat>, ghost visited: seq<nat>)
      requires Valid() && s < |chart.states|
      modifies this`log
      ensures rest == TimeOutRegions(chart, current, s, 0, q, history, check).queue
      ensures visited == TimeOutRegions(chart, current, s, 0, q, history, check).trace
      ensures log == old(log) + CallsFor(chart, Probing, if doEntry then visited else [])
      decreases |chart.states| - s, 0, 1
    {
      rest, visited := q, [];
      var rs, i := Regions(chart, s), 0;
      ghost var all := TimeOutRegions(chart, current, s, 0, q, history, check);
      while i < |rs|
        invariant i <= |rs|
        invariant TimeOutRegions(chart, current, s, i, rest, history, check).queue == all.queue
        invariant visited + TimeOutRegions(chart, current, s, i, rest, history, check).trace == all.trace
        invariant log == old(log) + CallsFor(chart, Probing, if doEntry then visited else [])
      {
        RegionTimeOutAdds(chart, current, s, i, rest, history, check, visited, old(log));
        ghost var seen;
        rest, seen := EvalRegionTimeOut(s, i, rest, history, check, doEntry);
        visited := visited + seen;
        i := i + 1;
      }
    }

    /** The dry run in the `i`-th region of `s`. */
    method EvalRegionTimeOut(s: nat, i: nat, q: seq<nat>, history: bool, check: bool, doEntry: bool) returns (rest: seq<nat>, ghost visited: seq<nat>)
      requires Valid() && s < |chart.states| && i < |Regions(chart, s)|
      modifies this`log
      ensures rest == TimeOutRegion(chart, current, s, i, q, history, check).queue
      ensures visited == TimeOutRegion(chart, current, s, i, q, history, check).trace
      ensures log == old(log) + CallsFor(chart, Probing, if doEntry then visited else [])
      decreases |chart.states| - s, 0, 0
    {
      var r := Regions(chart, s)[i];
      var t, deeper := chart.regions[r].init, history;
      if q == [] {
        if history { t := current[r]; }
        if history && check && !chart.regions[r].deep { deeper := false; }
      } else if q[0] in chart.regions[r].children {
        t := q[0];
      }
      assert t == Choice(chart, current, r, q, history) && deeper == Continue(chart, r, q, history, check);
      rest, visited := EvalTimeOut(t, q, deeper, doEntry);
    }

    // -------------------------------------------------------------- entry

    /** Evaluates the time-outs of a state with a data source before its entry action. */
    method PerformEntry(s: nat)
      requires Valid() && s < |chart.states|
      modifies this`actions, this`log
      ensures actions == old(actions) + Enters([s]) && log == old(log) + CallsFor(chart, Entering, [s])
    {
      OneState(chart, s);
      actions := actions + [Enter(s)];
      if chart.states[s].sourced {
        log := log + [TimeOuts(s)];
        log := log + [EntryAction(s)];
      }
    }

    method EvalEntry(s: nat, q: seq<nat>, history: bool, doEntry: bool) returns (rest: seq<nat>)
      requires Valid() && s < |chart.states|
      modifies this`current, this`actions, this`log
      ensures Valid()
      ensures var v := EntryState(chart, old(current), s, q, history);
              && current == v.cfg && rest == v.queue
              && actions == old(actions) + Enters(if doEntry then v.trace else v.trace[1..])
              && log == old(log) + CallsFor(chart, Entering, if doEntry then v.trace else v.trace[1..])
      decreases |chart.states| - s, 1, 0
    {
      if doEntry {
        PerformEntry(s);
      }
      var check := false;
      rest := q;
      if q != [] && q[0] == s {
        rest := q[1..];
        if rest == [] && history { check := true; }
      }
      if s != 0 {
        SetCurrentState(RegionOf(chart, s), s);
      }
      ghost var all := EntryRegions(chart, current, s, 0, rest, history, check);
      EntriesJoin(chart, old(actions), old(log), [s], all.trace);
      rest := EvalRegionEntries(s, rest, history, check);
    }

    /** Entry of the regions of `s`, in order. */
    method EvalRegionEntries(s: nat, q: seq<nat>, history: bool, check: bool) returns (rest: seq<nat>)
      requires Valid() && s < |chart.states|
      modifies this`current, this`actions, this`log
      ensures Valid()
      ensures var v := EntryRegions(chart, old(current), s, 0, q, history, check);
              && current == v.cfg && rest == v.queue
              && actions == old(actions) + Enters(v.trace) && log == old(log) + CallsFor(chart, Entering, v.trace)
      decreases |chart.states| - s, 0, 1
    {
      rest := q;
      var n, i := |Regions(chart, s)|, 0;
      ghost var all := EntryRegions(chart, current, s, 0, q, history, check);
      while i < n
        invariant i <= n && Valid()
        invariant EntryRegions(chart, current, s, i, rest, history, check).cfg == all.cfg
        invariant EntryRegions(chart, current, s, i, rest, history, check).queue == all.queue
        invariant actions + Enters(EntryRegions(chart, current, s, i, rest, history, check).trace) == old(actions) + Enters(all.trace)
        invariant log + CallsFor(chart, Entering, EntryRegions(chart, current, s, i, rest, history, check).trace)
                  == old(log) + CallsFor(chart, Entering, all.trace)
      {
        RegionEntryAdds(chart, current, s, i, rest, history, check, actions, log);
        rest := EvalRegionEntry(s, i, rest, history, check);
        i := i + 1;
      }
      AppendNothing(actions);
      AppendNothing(log);
    }

    /** Entry of the `i`-th region of `s`. */
    method EvalRegionEntry(s: nat, i: nat, q: seq<nat>, history: bool, check: bool) returns (rest: seq<nat>)
      requires Valid() && s < |chart.states| && i < |Regions(chart, s)|
      modifies this`current, this`actions, this`log
      ensures Valid()
      ensures var v := EntryRegion(chart, old(current), s, i, q, history, check);
              && current == v.cfg && rest == v.queue
              && actions == old(actions) + Enters(v.trace) && log == old(log) + CallsFor(chart, Entering, v.trace)
      decreases |chart.states| - s, 0, 0
    {
      var r := Regions(chart, s)[i];
      var t, deeper := chart.regions[r].init, history;
      if q == [] {
        if history { t := current[r]; }
        if history && check && !chart.regions[r].deep { deeper := false; }
      } else if q[0] in chart.regions[r].children {
        t := q[0];
      }
      assert t == Choice(chart, current, r, q, history);
      SetCurrentState(r, t);
      rest := EvalEntry(t, q, deeper, true);
    }

    // -------------------------------------------------------------- selection

    method EvalTransitions(s: nat, enabled: set<nat>, queue: seq<nat>) returns (queue': seq<nat>)
      requires Valid() && s < |chart.states|
      ensures queue' == queue + Collect(chart, current, enabled, s)
      decreases |chart.states| - s
    {
      var outs, k := chart.states[s].outs, 0;
      while k < |outs|
        invariant 0 <= k <= |outs|
        invariant FirstEnabled(outs, enabled) == FirstEnabled(outs[k..], enabled)
      {
        if outs[k] in enabled {
          return queue + [outs[k]];
        }
        assert outs[k..][1..] == outs[k + 1..];
        k := k + 1;
      }
      queue' := queue;
      var rs, i := Regions(chart, s), 0;
      while i < |rs|
        invariant i <= |rs|
        invariant queue + CollectRegions(chart, current, enabled, s, 0)
                  == queue' + CollectRegions(chart, current, enabled, s, i)
      {
        ChildOf(chart, rs[i], current[rs[i]]);
        queue' := EvalTransitions(current[rs[i]], enabled, queue');
        i := i + 1;
      }
    }

    // -------------------------------------------------------------- step

    method FireTransition(t: Transition)
      requires Valid() && t.source < |chart.states| && t.target < |chart.states|
      modifies this
      ensures Valid() && current == Fire(chart, old(current), t).cfg
      ensures actions == old(actions) + Fire(chart, old(current), t).events
      ensures log == old(log) + LogOf(chart, old(current), t)
      ensures old(Reported()) ==> Reported()
    {
      var p := ComputeEntryAndExitPoints(t);
      FiringAdds(chart, current, t, actions, log);
      EvalExit(p.exit, !p.parallel);
      ghost var visited;
      var rest;
      rest, visited := EvalTimeOut(p.enter[0], p.enter, t.history, !p.parallel);
      rest := EvalEntry(p.enter[0], p.enter, t.history, !p.parallel);
      if old(Reported()) {
        FireEvents(chart, old(current), t);
        ReportAdds(chart, old(actions), old(log), Left(chart, old(current), t), Probed(chart, old(current), t), Entered(chart, old(current), t));
      }
    }

    method Start()
      requires Valid()
      modifies this
      ensures Valid() && current == Balance.Start(chart, old(current)).cfg
      ensures actions == old(actions) + Balance.Start(chart, old(current)).events
      ensures var entered := EntryState(chart, old(current), 0, [], false).trace;
              log == old(log) + LogAs(chart, [], entered, entered)
      ensures old(actions) == [] ==> Balanced()
      ensures old(Reported()) ==> Reported()
    {
      ghost var visited;
      var rest;
      ghost var entered := EntryState(chart, current, 0, [], false).trace;
      TimeOutIsDryRun(chart, current, current, 0, [], false);
      LogAdds(log, [], CallsFor(chart, Probing, entered), CallsFor(chart, Entering, entered));
      AppendNothing(log);
      rest, visited := EvalTimeOut(0, [], false, true);
      rest := EvalEntry(0, [], false, true);
      RunBalanced(chart, old(current), []);
      AppendNothing(Balance.Start(chart, old(current)).events);
      assert old(actions) == [] ==> actions == Balance.Start(chart, old(current)).events;
      if old(Reported()) {
        ReportAdds(chart, old(actions), old(log), [], entered, entered);
        assert Exits([]) + Enters(entered) == Enters(entered);
      }
    }

    method FireQueue(queue: seq<nat>)
      requires Valid() && forall k :: 0 <= k < |queue| ==> queue[k] < |chart.transitions|
      modifies this
      ensures Valid()
      ensures var f := FireAll(chart, old(current), Transitions(chart, queue));
              current == f.cfg && actions == old(actions) + f.events
      ensures old(Reported()) ==> Reported()
    {
      var left: seq<nat> := queue;
      ghost var all := FireAll(chart, current, Transitions(chart, queue));
      while left != []
        invariant Valid() && forall k :: 0 <= k < |left| ==> left[k] < |chart.transitions|
        invariant FireAll(chart, current, Transitions(chart, left)).cfg == all.cfg
        invariant actions + FireAll(chart, current, Transitions(chart, left)).events == old(actions) + all.events
        invariant old(Reported()) ==> Reported()
        decreases |left|
      {
        QueueStep(chart, current, left, actions);
        FireTransition(chart.transitions[left[0]]);
        left := left[1..];
      }
    }

    /** One evaluation of the chart and the firing of what it collects. */
    method Pass(enabled: set<nat>) returns (fired: bool)
      requires Valid()
      modifies this
      ensures Valid() && (fired <==> Collect(chart, old(current), enabled, 0) != [])
      ensures var f := FireAll(chart, old(current), Transitions(chart, Collect(chart, old(current), enabled, 0)));
              current == f.cfg && actions == old(actions) + f.events
      ensures old(Reported()) ==> Reported()
    {
      var queue := EvalTransitions(0, enabled, []);
      assert queue == Collect(chart, current, enabled, 0);
      fired := queue != [];
      FireQueue(queue);
    }

    /** One step after start-up. */
    method Step(rounds: seq<set<nat>>)
      requires Valid()
      modifies this
      ensures Valid()
      ensures current == StepAll(chart, old(current), rounds).cfg
      ensures actions == old(actions) + StepAll(chart, old(current), rounds).events
      ensures old(Reported()) ==> Reported()
      ensures LocalChart(chart) && old(Balanced()) ==> Balanced()
      ensures MatchedChart(chart) && old(Balanced()) ==> (Balanced() <==> StepExits(chart, old(current), rounds))
    {
      var left := rounds;
      ghost var all := StepAll(chart, current, rounds);
      var running := true;
      while left != [] && running
        invariant old(Reported()) ==> Reported()
        invariant Valid() && (running || (current == all.cfg && actions == old(actions) + all.events))
        invariant running ==> StepAll(chart, current, left).cfg == all.cfg
        invariant running ==> actions + StepAll(chart, current, left).events == old(actions) + all.events
        decreases |left|
      {
        StepStep(chart, current, left);
        ghost var f := FireAll(chart, current, Transitions(chart, Collect(chart, current, left[0], 0)));
        Assoc(actions, f.events, StepAll(chart, f.cfg, left[1..]).events);
        running := Pass(left[0]);
        left := left[1..];
      }
      if LocalChart(chart) && old(Balanced()) {
        StepKeepsBalance(chart, old(current), old(actions), rounds);
      }
      if MatchedChart(chart) && old(Balanced()) {
        StepKeepsBalanceExactly(chart, old(current), old(actions), rounds);
      }
    }
  }
}
