/** Entry and exit actions are balanced: replaying the actions of a firing on the set of states
    entered but not yet exited gives the active configuration again. */
module Balance {
  import opened Apex
  import opened Charts
  import opened Traversal
  import opened Firing

  /** A state may be entered when it is not open, its parent is, and its region holds no other
      open state; it may be exited when it is open and none of its children is. */
  ghost predicate Allowed(c: Chart, open: set<nat>, e: Event)
    requires Wf(c) && InChart(c, open)
  {
    e.state < |c.states| &&
    match e
    case Enter(s) =>
      && s !in open
      && (s != 0 ==> Parent(c, s) in open && forall x :: x in open && x != 0 ==> RegionOf(c, x) != RegionOf(c, s))
    case Exit(s) =>
      s in open && forall x :: x in open && x != 0 ==> Parent(c, x) != s
  }

  function After(open: set<nat>, e: Event): set<nat> {
    if e.Enter? then open + {e.state} else open - {e.state}
  }

  ghost predicate InChart(c: Chart, open: set<nat>) {
    forall x :: x in open ==> x < |c.states|
  }

  /** The open states after a sequence of actions, if each was allowed in its turn. */
  ghost function Replay(c: Chart, open: set<nat>, es: seq<Event>): (r: Option<set<nat>>)
    requires Wf(c) && InChart(c, open)
    ensures r.Some? ==> InChart(c, r.value)
    decreases |es|
  {
    if es == [] then Some(open)
    else if Allowed(c, open, es[0]) then Replay(c, After(open, es[0]), es[1..]) else None
  }

  lemma {:induction false} ReplayConcat(c: Chart, open: set<nat>, a: seq<Event>, b: seq<Event>)
    requires Wf(c) && InChart(c, open)
    ensures Replay(c, open, a + b) ==
            (match Replay(c, open, a) case None => None case Some(o) => Replay(c, o, b))
    decreases |a|
  {
    if a == [] {
      assert a + b == b;
    } else {
      assert (a + b)[1..] == a[1..] + b;
      if Allowed(c, open, a[0]) { ReplayConcat(c, After(open, a[0]), a[1..], b); }
    }
  }

  // ---------------------------------------------------------------- entry

  ghost predicate StatesIn(c: Chart, p: seq<nat>) {
    forall k :: 0 <= k < |p| ==> p[k] < |c.states|
  }

  /** Entry visits only states below the one it starts from. */
  lemma {:induction false} EntryTrace(c: Chart, cfg: Config, s: nat, q: seq<nat>, history: bool)
    requires Wf(c) && ValidConfig(c, cfg) && s < |c.states|
    ensures var v := EntryState(c, cfg, s, q, history);
            StatesIn(c, v.trace) && v.trace[0] == s && forall k :: 0 <= k < |v.trace| ==> Below(c, v.trace[k], s)
    decreases |c.states| - s, 1, 0
  {
    EntryRegionsTrace(c, SetCurrent(c, cfg, s), s, 0, Pop(q, s), history, CheckHistory(q, s, history));
  }

  lemma {:induction false} EntryRegionsTrace(c: Chart, cfg: Config, s: nat, i: nat, q: seq<nat>, history: bool, check: bool)
    requires Wf(c) && ValidConfig(c, cfg) && s < |c.states| && i <= |Regions(c, s)|
    ensures var v := EntryRegions(c, cfg, s, i, q, history, check);
            StatesIn(c, v.trace) && forall k :: 0 <= k < |v.trace| ==> Below(c, v.trace[k], s)
    decreases |c.states| - s, 0, |Regions(c, s)| - i
  {
    if i < |Regions(c, s)| {
      var r := Regions(c, s)[i];
      var t := Choice(c, cfg, r, q, history);
      EntryTrace(c, cfg[r := t], t, q, Continue(c, r, q, history, check));
      var v := EntryRegion(c, cfg, s, i, q, history, check);
      forall k | 0 <= k < |v.trace|
        ensures Below(c, v.trace[k], s)
      {
        BelowTrans(c, v.trace[k], t, s);
      }
      EntryRegionsTrace(c, v.cfg, s, i + 1, v.queue, history, check);
    }
  }

  lemma EntersConcat(a: seq<nat>, b: seq<nat>)
    ensures Enters(a + b) == Enters(a) + Enters(b) && Exits(a + b) == Exits(a) + Exits(b)
  {
  }

  lemma ReplayEnters(c: Chart, open: set<nat>, a: seq<nat>, b: seq<nat>)
    requires Wf(c) && InChart(c, open)
    ensures Replay(c, open, Enters(a + b)) ==
            (match Replay(c, open, Enters(a)) case None => None case Some(o) => Replay(c, o, Enters(b)))
  {
    EntersConcat(a, b);
    ReplayConcat(c, open, Enters(a), Enters(b));
  }

  /** What the `i`-th region activates is still there when the later regions have been entered. */
  lemma ActiveFromStep(c: Chart, cfg: Config, s: nat, i: nat, q: seq<nat>, history: bool, check: bool)
    requires Wf(c) && ValidConfig(c, cfg) && s < |c.states| && i < |Regions(c, s)|
    ensures var v, t := EntryRegion(c, cfg, s, i, q, history, check), Choice(c, cfg, Regions(c, s)[i], q, history);
            var w := EntryRegions(c, v.cfg, s, i + 1, v.queue, history, check);
            ActiveFrom(c, w.cfg, s, i) == ActiveBelow(c, v.cfg, t) + ActiveFrom(c, w.cfg, s, i + 1)
  {
    var v := EntryRegion(c, cfg, s, i, q, history, check);
    EarlierRegionKept(c, v.cfg, s, i + 1, v.queue, history, check, i);
    EntryRegionFrame(c, cfg, s, i, q, history, check);
  }

  /** Entering `s` opens, parents first and once each, exactly what is then active below it. */
  lemma {:induction false} EntryReplay(c: Chart, cfg: Config, s: nat, q: seq<nat>, history: bool, open: set<nat>)
    requires Wf(c) && ValidConfig(c, cfg) && s < |c.states| && InChart(c, open)
    requires forall x :: x in open ==> !Below(c, x, s)
    requires Allowed(c, open, Enter(s))
    ensures var v := EntryState(c, cfg, s, q, history);
            Replay(c, open, Enters(v.trace)) == Some(open + ActiveBelow(c, v.cfg, s))
    decreases |c.states| - s, 1, 0
  {
    var cfg', q', check := SetCurrent(c, cfg, s), Pop(q, s), CheckHistory(q, s, history);
    var w := EntryRegions(c, cfg', s, 0, q', history, check);
    forall x, j | x in open + {s} && 0 <= j < |Regions(c, s)|
      ensures !Under(c, x, Regions(c, s)[j])
    {
      if Under(c, x, Regions(c, s)[j]) { UnderBelowOwner(c, x, Regions(c, s)[j]); }
    }
    ClosedFromAll(c, open + {s}, s, 0);
    EntryRegionsReplay(c, cfg', s, 0, q', history, check, open + {s});
    ActiveBelowSplit(c, w.cfg, s);
    EntersConcat([s], w.trace);
    assert Enters([s] + w.trace)[1..] == Enters(w.trace);
    assert open + {s} + ActiveFrom(c, w.cfg, s, 0) == open + ActiveBelow(c, w.cfg, s);
  }

  lemma {:induction false} EntryRegionsReplay(c: Chart, cfg: Config, s: nat, i: nat, q: seq<nat>, history: bool, check: bool, open: set<nat>)
    requires Wf(c) && ValidConfig(c, cfg) && s < |c.states| && i <= |Regions(c, s)| && InChart(c, open)
    requires s in open && ClosedFrom(c, open, s, i)
    ensures var v := EntryRegions(c, cfg, s, i, q, history, check);
            Replay(c, open, Enters(v.trace)) == Some(open + ActiveFrom(c, v.cfg, s, i))
    decreases |c.states| - s, 0, 1 + |Regions(c, s)| - i
  {
    if i == |Regions(c, s)| {
      RegionsDone(c, cfg, s, q, history, check, open);
      return;
    }
    var v, t := EntryRegion(c, cfg, s, i, q, history, check), Choice(c, cfg, Regions(c, s)[i], q, history);
    RegionReplay(c, cfg, s, i, q, history, check, open);
    LaterRegionsClosed(c, v.cfg, s, i, t, open);
    EntryRegionsReplay(c, v.cfg, s, i + 1, v.queue, history, check, open + ActiveBelow(c, v.cfg, t));
    RegionsJoin(c, cfg, s, i, q, history, check, open);
  }

  lemma RegionsDone(c: Chart, cfg: Config, s: nat, q: seq<nat>, history: bool, check: bool, open: set<nat>)
    requires Wf(c) && ValidConfig(c, cfg) && s < |c.states| && InChart(c, open)
    ensures var v := EntryRegions(c, cfg, s, |Regions(c, s)|, q, history, check);
            Replay(c, open, Enters(v.trace)) == Some(open + ActiveFrom(c, v.cfg, s, |Regions(c, s)|))
  {
    assert open + {} == open;
  }

  lemma {:induction false} RegionReplay(c: Chart, cfg: Config, s: nat, i: nat, q: seq<nat>, history: bool, check: bool, open: set<nat>)
    requires Wf(c) && ValidConfig(c, cfg) && s < |c.states| && i < |Regions(c, s)| && InChart(c, open)
    requires s in open && ClosedFrom(c, open, s, i)
    ensures var v := EntryRegion(c, cfg, s, i, q, history, check);
            Replay(c, open, Enters(v.trace)) == Some(open + ActiveBelow(c, v.cfg, Choice(c, cfg, Regions(c, s)[i], q, history)))
    decreases |c.states| - s, 0, 0
  {
    var r := Regions(c, s)[i];
    var t := Choice(c, cfg, r, q, history);
    EntryRegionAllowed(c, r, t, open);
    EntryReplay(c, cfg[r := t], t, q, Continue(c, r, q, history, check), open);
  }

  lemma RegionsJoin(c: Chart, cfg: Config, s: nat, i: nat, q: seq<nat>, history: bool, check: bool, open: set<nat>)
    requires Wf(c) && ValidConfig(c, cfg) && s < |c.states| && i < |Regions(c, s)| && InChart(c, open)
    requires var v, t := EntryRegion(c, cfg, s, i, q, history, check), Choice(c, cfg, Regions(c, s)[i], q, history);
             var w := EntryRegions(c, v.cfg, s, i + 1, v.queue, history, check);
             && Replay(c, open, Enters(v.trace)) == Some(open + ActiveBelow(c, v.cfg, t))
             && Replay(c, open + ActiveBelow(c, v.cfg, t), Enters(w.trace)) == Some(open + ActiveBelow(c, v.cfg, t) + ActiveFrom(c, w.cfg, s, i + 1))
    ensures var v := EntryRegions(c, cfg, s, i, q, history, check);
            Replay(c, open, Enters(v.trace)) == Some(open + ActiveFrom(c, v.cfg, s, i))
  {
    var v, t := EntryRegion(c, cfg, s, i, q, history, check), Choice(c, cfg, Regions(c, s)[i], q, history);
    var w := EntryRegions(c, v.cfg, s, i + 1, v.queue, history, check);
    ReplayEnters(c, open, v.trace, w.trace);
    ActiveFromStep(c, cfg, s, i, q, history, check);
    assert open + ActiveBelow(c, v.cfg, t) + ActiveFrom(c, w.cfg, s, i + 1) == open + ActiveFrom(c, w.cfg, s, i);
  }

  lemma LaterRegionsClosed(c: Chart, cfg: Config, s: nat, i: nat, t: nat, open: set<nat>)
    requires Wf(c) && ValidConfig(c, cfg) && s < |c.states| && i < |Regions(c, s)| && InChart(c, open)
    requires 0 < t < |c.states| && RegionOf(c, t) == Regions(c, s)[i]
    requires ClosedFrom(c, open, s, i)
    ensures ClosedFrom(c, open + ActiveBelow(c, cfg, t), s, i + 1)
  {
    forall x, j | x in ActiveBelow(c, cfg, t) && i + 1 <= j < |Regions(c, s)|
      ensures !Under(c, x, Regions(c, s)[j])
    {
      ActBelow(c, cfg, x, t);
      BelowUnder(c, x, t);
      if Under(c, x, Regions(c, s)[j]) { SiblingsDisjoint(c, x, Regions(c, s)[i], Regions(c, s)[j]); }
    }
    ClosedFromAll(c, open, s, i + 1);
    ClosedFromAll(c, open + ActiveBelow(c, cfg, t), s, i + 1);
  }

  /** No open state lies in a region of `s` from the `i`-th on. */
  ghost predicate ClosedFrom(c: Chart, open: set<nat>, s: nat, i: nat)
    requires Wf(c) && s < |c.states| && i <= |Regions(c, s)| && InChart(c, open)
    decreases |Regions(c, s)| - i
  {
    i < |Regions(c, s)| ==> (forall x :: x in open ==> !Under(c, x, Regions(c, s)[i])) && ClosedFrom(c, open, s, i + 1)
  }

  lemma {:induction false} ClosedFromAll(c: Chart, open: set<nat>, s: nat, i: nat)
    requires Wf(c) && s < |c.states| && i <= |Regions(c, s)| && InChart(c, open)
    ensures ClosedFrom(c, open, s, i) <==> forall x, j :: x in open && i <= j < |Regions(c, s)| ==> !Under(c, x, Regions(c, s)[j])
    decreases |Regions(c, s)| - i
  {
    if i < |Regions(c, s)| { ClosedFromAll(c, open, s, i + 1); }
  }

  lemma EntryRegionAllowed(c: Chart, r: nat, t: nat, open: set<nat>)
    requires Wf(c) && r < |c.regions| && 0 < t < |c.states| && RegionOf(c, t) == r && InChart(c, open)
    requires Owner(c, r) in open && forall x :: x in open ==> !Under(c, x, r)
    ensures Allowed(c, open, Enter(t)) && forall x :: x in open ==> !Below(c, x, t)
  {
    forall x | x in open
      ensures !Below(c, x, t)
    {
      if Below(c, x, t) { BelowUnder(c, x, t); }
    }
  }

  // ---------------------------------------------------------------- exit

  /** Exiting `s` closes, children first and once each, exactly what is active below it. */
  lemma {:induction false} ExitReplay(c: Chart, cfg: Config, s: nat, open: set<nat>)
    requires Wf(c) && ValidConfig(c, cfg) && s < |c.states| && InChart(c, open)
    requires ActiveBelow(c, cfg, s) <= open
    requires forall x :: x in open && Below(c, x, s) ==> Act(c, cfg, x, s)
    ensures Replay(c, open, Exits(ExitState(c, cfg, s))) == Some(open - ActiveBelow(c, cfg, s))
    decreases |c.states| - s, 1, 0
  {
    ExitOwnRegionsReplay(c, cfg, s, open);
    ActiveBelowSplit(c, cfg, s);
    var a, open' := ExitRegions(c, cfg, s, 0), open - ActiveFrom(c, cfg, s, 0);
    EntersConcat(a, [s]);
    ReplayConcat(c, open, Exits(a), Exits([s]));
    assert Replay(c, open', Exits([s])) == Some(open' - {s});
    assert open' - {s} == open - ActiveBelow(c, cfg, s);
  }

  /** Exiting the regions of `s` without `s` itself. */
  lemma {:induction false} ExitOwnRegionsReplay(c: Chart, cfg: Config, s: nat, open: set<nat>)
    requires Wf(c) && ValidConfig(c, cfg) && s < |c.states| && InChart(c, open)
    requires ActiveBelow(c, cfg, s) <= open
    requires forall x :: x in open && Below(c, x, s) ==> Act(c, cfg, x, s)
    ensures Replay(c, open, Exits(ExitRegions(c, cfg, s, 0))) == Some(open - ActiveFrom(c, cfg, s, 0))
    decreases |c.states| - s, 0, |Regions(c, s)| + 1
  {
    ActiveBelowSplit(c, cfg, s);
    forall x, j | x in open && 0 <= j < |Regions(c, s)| && Under(c, x, Regions(c, s)[j])
      ensures Act(c, cfg, x, cfg[Regions(c, s)[j]])
    {
      UnderBelowOwner(c, x, Regions(c, s)[j]);
      ActInRegion(c, cfg, x, Regions(c, s)[j]);
    }
    ExitRegionsReplay(c, cfg, s, 0, open);
  }

  lemma {:induction false} ExitRegionsReplay(c: Chart, cfg: Config, s: nat, i: nat, open: set<nat>)
    requires Wf(c) && ValidConfig(c, cfg) && s < |c.states| && i <= |Regions(c, s)| && InChart(c, open)
    requires ActiveFrom(c, cfg, s, i) <= open
    requires forall x, j :: x in open && i <= j < |Regions(c, s)| && Under(c, x, Regions(c, s)[j])
                            ==> Act(c, cfg, x, cfg[Regions(c, s)[j]])
    ensures Replay(c, open, Exits(ExitRegions(c, cfg, s, i))) == Some(open - ActiveFrom(c, cfg, s, i))
    decreases |c.states| - s, 0, |Regions(c, s)| - i
  {
    if i < |Regions(c, s)| {
      var r := Regions(c, s)[i];
      var t := cfg[r];
      ChildOf(c, r, t);
      forall x | x in open && Below(c, x, t)
        ensures Act(c, cfg, x, t)
      {
        BelowUnder(c, x, t);
      }
      ExitReplay(c, cfg, t, open);
      var open' := open - ActiveBelow(c, cfg, t);
      forall x | x in ActiveFrom(c, cfg, s, i + 1)
        ensures x !in ActiveBelow(c, cfg, t)
      {
        ActiveFromStates(c, cfg, s, i + 1);
        InActiveFrom(c, cfg, s, i + 1, x);
        var j :| i + 1 <= j < |Regions(c, s)| && Act(c, cfg, x, cfg[Regions(c, s)[j]]);
        ActInRegion(c, cfg, x, Regions(c, s)[j]);
        ActInRegion(c, cfg, x, r);
        if x in ActiveBelow(c, cfg, t) { SiblingsDisjoint(c, x, r, Regions(c, s)[j]); }
      }
      ExitRegionsReplay(c, cfg, s, i + 1, open');
      EntersConcat(ExitState(c, cfg, t), ExitRegions(c, cfg, s, i + 1));
      ReplayConcat(c, open, Exits(ExitState(c, cfg, t)), Exits(ExitRegions(c, cfg, s, i + 1)));
      assert open' - ActiveFrom(c, cfg, s, i + 1) == open - ActiveFrom(c, cfg, s, i);
    } else {
      assert open - {} == open;
    }
  }

  // ---------------------------------------------------------------- one firing

  /** Entered states are open afterwards, and nothing else is opened. */
  lemma {:induction false} EntersOpen(c: Chart, open: set<nat>, p: seq<nat>)
    requires Wf(c) && InChart(c, open)
    ensures var r := Replay(c, open, Enters(p)); r.Some? ==> r.value == open + set x | x in p
    decreases |p|
  {
    if p != [] {
      assert Enters(p)[1..] == Enters(p[1..]);
      if Allowed(c, open, Enter(p[0])) { EntersOpen(c, open + {p[0]}, p[1..]); }
      assert p == [p[0]] + p[1..];
    }
  }

  /** The active configuration outside `s` survives, and `s` closes the part below it. */
  lemma OpenWithout(c: Chart, cfg: Config, s: nat)
    requires Wf(c) && ValidConfig(c, cfg) && s < |c.states| && Active(c, cfg, s)
    ensures ActiveBelow(c, cfg, s) <= ActiveSet(c, cfg)
    ensures forall x :: x in ActiveSet(c, cfg) && Below(c, x, s) ==> Act(c, cfg, x, s)
  {
    forall x | 0 <= x < |c.states|
      ensures Act(c, cfg, x, s) ==> Active(c, cfg, x)
      ensures Active(c, cfg, x) && Below(c, x, s) ==> Act(c, cfg, x, s)
    {
      if Act(c, cfg, x, s) { ActTrans(c, cfg, x, s, 0); }
      if Active(c, cfg, x) && Below(c, x, s) { RootAboveAll(c, s); ActSplit(c, cfg, x, s, 0); }
    }
  }

  /** The open states after the exit part of a firing. */
  lemma ExitPart(c: Chart, cfg: Config, s: nat)
    requires Wf(c) && ValidConfig(c, cfg) && s < |c.states| && Active(c, cfg, s)
    ensures Replay(c, ActiveSet(c, cfg), Exits(ExitState(c, cfg, s))) == Some(ActiveSet(c, cfg) - ActiveBelow(c, cfg, s))
    ensures Replay(c, ActiveSet(c, cfg), Exits(ExitRegions(c, cfg, s, 0)))
            == Some(ActiveSet(c, cfg) - ActiveBelow(c, cfg, s) + {s})
  {
    OpenWithout(c, cfg, s);
    ExitReplay(c, cfg, s, ActiveSet(c, cfg));
    ExitOwnRegionsReplay(c, cfg, s, ActiveSet(c, cfg));
    ActiveBelowSplit(c, cfg, s);
    assert ActiveSet(c, cfg) - ActiveFrom(c, cfg, s, 0) == ActiveSet(c, cfg) - ActiveBelow(c, cfg, s) + {s};
  }

  /** A firing between two states of one region, or that leaves and re-enters one state. */
  lemma MatchedBalanced(c: Chart, cfg: Config, exit: nat, first: nat, q: seq<nat>, history: bool)
    requires Wf(c) && ValidConfig(c, cfg) && exit < |c.states| && first < |c.states|
    requires Active(c, cfg, exit) && Matched(c, exit, first)
    ensures var v := EntryState(c, cfg, first, q, history);
            Replay(c, ActiveSet(c, cfg), Exits(ExitState(c, cfg, exit)) + Enters(v.trace)) == Some(ActiveSet(c, v.cfg))
  {
    var v := EntryState(c, cfg, first, q, history);
    var open := ActiveSet(c, cfg) - ActiveBelow(c, cfg, exit);
    ExitPart(c, cfg, exit);
    ReplayConcat(c, ActiveSet(c, cfg), Exits(ExitState(c, cfg, exit)), Enters(v.trace));
    if first == 0 {
      assert open == {};
      EntryReplay(c, cfg, first, q, history, open);
      assert open + ActiveBelow(c, v.cfg, 0) == ActiveSet(c, v.cfg);
    } else {
      RegionClosed(c, cfg, exit);
      EntryRegionAllowed(c, RegionOf(c, first), first, open);
      EntryReplay(c, cfg, first, q, history, open);
      ActiveAfterExitEntry(c, cfg, exit, first, q, history);
    }
  }

  /** Once an active state is exited, its region holds no open state. */
  lemma RegionClosed(c: Chart, cfg: Config, exit: nat)
    requires Wf(c) && ValidConfig(c, cfg) && 0 < exit < |c.states| && Active(c, cfg, exit)
    ensures forall x :: x in ActiveSet(c, cfg) - ActiveBelow(c, cfg, exit) ==> !Under(c, x, RegionOf(c, exit))
    ensures Parent(c, exit) in ActiveSet(c, cfg) - ActiveBelow(c, cfg, exit)
  {
    var rho := RegionOf(c, exit);
    forall x | x in ActiveSet(c, cfg) && Under(c, x, rho)
      ensures Act(c, cfg, x, exit)
    {
      ActInRegion(c, cfg, x, rho);
      UnderBelowOwner(c, x, rho);
      RootAboveAll(c, Owner(c, rho));
      ActSplit(c, cfg, x, Owner(c, rho), 0);
    }
  }

  lemma ActiveAfterExitEntry(c: Chart, cfg: Config, exit: nat, first: nat, q: seq<nat>, history: bool)
    requires Wf(c) && ValidConfig(c, cfg) && 0 < exit < |c.states| && 0 < first < |c.states|
    requires Active(c, cfg, exit) && RegionOf(c, exit) == RegionOf(c, first)
    ensures var v := EntryState(c, cfg, first, q, history);
            ActiveSet(c, cfg) - ActiveBelow(c, cfg, exit) + ActiveBelow(c, v.cfg, first) == ActiveSet(c, v.cfg)
  {
    var v := EntryState(c, cfg, first, q, history);
    RegionClosed(c, cfg, exit);
    forall x | 0 <= x < |c.states|
      ensures Active(c, v.cfg, x) <==> x in ActiveSet(c, cfg) - ActiveBelow(c, cfg, exit) + ActiveBelow(c, v.cfg, first)
    {
      ActiveAfterEntry(c, cfg, first, q, history, x);
      if Act(c, v.cfg, x, first) { ActBelow(c, v.cfg, x, first); BelowUnder(c, x, first); }
      if Act(c, cfg, x, exit) { ActBelow(c, cfg, x, exit); BelowUnder(c, x, exit); }
    }
  }

  /** A firing across parallel regions leaves and re-enters the regions of one state, which is
      itself neither exited nor entered. */
  lemma ParallelBalanced(c: Chart, cfg: Config, s: nat, q: seq<nat>, history: bool)
    requires Wf(c) && ValidConfig(c, cfg) && s < |c.states| && Active(c, cfg, s)
    ensures var v := EntryState(c, cfg, s, q, history);
            Replay(c, ActiveSet(c, cfg), Exits(ExitRegions(c, cfg, s, 0)) + Enters(v.trace[1..])) == Some(ActiveSet(c, v.cfg))
  {
    var v := EntryState(c, cfg, s, q, history);
    var open := ActiveSet(c, cfg) - ActiveBelow(c, cfg, s);
    MatchedBalanced(c, cfg, s, s, q, history);
    ExitPart(c, cfg, s);
    ReplayConcat(c, ActiveSet(c, cfg), Exits(ExitState(c, cfg, s)), Enters(v.trace));
    ReplayConcat(c, ActiveSet(c, cfg), Exits(ExitRegions(c, cfg, s, 0)), Enters(v.trace[1..]));
    assert Enters(v.trace)[1..] == Enters(v.trace[1..]) && Enters(v.trace)[0] == Enter(s);
    assert After(open, Enter(s)) == open + {s};
  }

  /** Without a match the actions of a firing do not add up to the new configuration: either the
      first entry finds its state or its region still open, or the exited source stays current. */
  lemma UnmatchedUnbalanced(c: Chart, cfg: Config, exit: nat, first: nat, q: seq<nat>, history: bool)
    requires Wf(c) && ValidConfig(c, cfg) && exit < |c.states| && first < |c.states|
    requires Active(c, cfg, exit) && !Matched(c, exit, first)
    requires first != 0 ==> Active(c, cfg, Parent(c, first))
    ensures var v := EntryState(c, cfg, first, q, history);
            Replay(c, ActiveSet(c, cfg), Exits(ExitState(c, cfg, exit)) + Enters(v.trace)) != Some(ActiveSet(c, v.cfg))
  {
    var v := EntryState(c, cfg, first, q, history);
    var open := ActiveSet(c, cfg) - ActiveBelow(c, cfg, exit);
    ExitPart(c, cfg, exit);
    ReplayConcat(c, ActiveSet(c, cfg), Exits(ExitState(c, cfg, exit)), Enters(v.trace));
    EntryTrace(c, cfg, first, q, history);
    assert Enters(v.trace)[0] == Enter(first);
    if first == 0 {
      assert 0 in open;
    } else if Under(c, exit, RegionOf(c, first)) {
      RegionStillOpen(c, cfg, exit, first);
    } else {
      ExitedStaysCurrent(c, cfg, exit, first, q, history);
    }
  }

  /** When only a state deeper in the region of `first` was exited, an open state is beside `first`. */
  lemma RegionStillOpen(c: Chart, cfg: Config, exit: nat, first: nat)
    requires Wf(c) && ValidConfig(c, cfg) && exit < |c.states| && 0 < first < |c.states|
    requires Active(c, cfg, exit) && !Matched(c, exit, first) && Under(c, exit, RegionOf(c, first))
    ensures !Allowed(c, ActiveSet(c, cfg) - ActiveBelow(c, cfg, exit), Enter(first))
  {
    var y := UnderVia(c, exit, RegionOf(c, first));
    RootAboveAll(c, y);
    ActSplit(c, cfg, exit, y, 0);
    assert y in ActiveSet(c, cfg) - ActiveBelow(c, cfg, exit) && RegionOf(c, y) == RegionOf(c, first);
  }

  /** A state outside the region that is entered was exited but is still current. */
  lemma ExitedStaysCurrent(c: Chart, cfg: Config, exit: nat, first: nat, q: seq<nat>, history: bool)
    requires Wf(c) && ValidConfig(c, cfg) && exit < |c.states| && 0 < first < |c.states|
    requires Active(c, cfg, exit) && !Matched(c, exit, first) && !Under(c, exit, RegionOf(c, first)) && Active(c, cfg, Parent(c, first))
    ensures var v, open := EntryState(c, cfg, first, q, history), ActiveSet(c, cfg) - ActiveBelow(c, cfg, exit);
            Replay(c, open, Enters(v.trace)) != Some(ActiveSet(c, v.cfg))
  {
    var v, open := EntryState(c, cfg, first, q, history), ActiveSet(c, cfg) - ActiveBelow(c, cfg, exit);
    EntryTrace(c, cfg, first, q, history);
    ActiveAfterEntry(c, cfg, first, q, history, exit);
    assert exit in ActiveSet(c, v.cfg) && exit !in open;
    EntersOpen(c, open, v.trace);
    if exit in v.trace {
      BelowUnder(c, exit, first);
      assert false;
    }
  }

  /** Main result for one firing.  From an active source, the exit and entry actions of a
      transition lead from the old active configuration to the new one, each action allowed in
      its turn, if and only if the exit state and the first entered state match. */
  lemma FiringBalanced(c: Chart, cfg: Config, t: Transition)
    requires Wf(c) && ValidConfig(c, cfg) && t.source < |c.states| && t.target < |c.states|
    requires Active(c, cfg, t.source)
    ensures var p, f := PointsOf(c, t), Fire(c, cfg, t);
            Replay(c, ActiveSet(c, cfg), f.events) == Some(ActiveSet(c, f.cfg)) <==> Matched(c, p.exit, p.enter[0])
  {
    PointsShape(c, t);
    var p := PointsOf(c, t);
    RootAboveAll(c, p.exit);
    ActSplit(c, cfg, t.source, p.exit, 0);
    if p.parallel {
      ParallelBalanced(c, cfg, p.exit, p.enter, t.history);
    } else if Matched(c, p.exit, p.enter[0]) {
      MatchedBalanced(c, cfg, p.exit, p.enter[0], p.enter, t.history);
    } else {
      if p.enter[0] != 0 {
        RootAboveAll(c, Parent(c, p.enter[0]));
        ActSplit(c, cfg, t.source, Parent(c, p.enter[0]), 0);
      }
      UnmatchedUnbalanced(c, cfg, p.exit, p.enter[0], p.enter, t.history);
    }
  }

  // ---------------------------------------------------------------- whole runs

  /** Configurations and actions of a run: start-up entry of the root, then firings. */
  ghost function Start(c: Chart, cfg: Config): (f: Fired)
    requires Wf(c) && ValidConfig(c, cfg)
    ensures ValidConfig(c, f.cfg)
  {
    var v := EntryState(c, cfg, 0, [], false);
    Fired(v.cfg, Enters(v.trace))
  }

  ghost predicate ValidTransitions(c: Chart, ts: seq<Transition>) {
    forall i :: 0 <= i < |ts| ==> ts[i].source < |c.states| && ts[i].target < |c.states|
  }

  ghost function FireAll(c: Chart, cfg: Config, ts: seq<Transition>): (f: Fired)
    requires Wf(c) && ValidConfig(c, cfg) && ValidTransitions(c, ts)
    ensures ValidConfig(c, f.cfg)
    decreases |ts|
  {
    if ts == [] then Fired(cfg, []) else
      var f := Fire(c, cfg, ts[0]);
      var g := FireAll(c, f.cfg, ts[1..]);
      Fired(g.cfg, f.events + g.events)
  }

  /** Every transition of the run fires from an active source. */
  ghost predicate ActiveSources(c: Chart, cfg: Config, ts: seq<Transition>)
    requires Wf(c) && ValidConfig(c, cfg) && ValidTransitions(c, ts)
    decreases |ts|
  {
    ts != [] ==> Active(c, cfg, ts[0].source) && ActiveSources(c, Fire(c, cfg, ts[0]).cfg, ts[1..])
  }

  ghost predicate AllMatched(c: Chart, ts: seq<Transition>)
    requires Wf(c) && ValidTransitions(c, ts)
  {
    forall i :: 0 <= i < |ts| ==> Matched(c, PointsOf(c, ts[i]).exit, PointsOf(c, ts[i]).enter[0])
  }

  /** Transitions are fired in the order in which they are listed: `us` is `ts` followed by `t`. */
  lemma {:induction false} FireAllLast(c: Chart, cfg: Config, ts: seq<Transition>, us: seq<Transition>, t: Transition)
    requires Wf(c) && ValidConfig(c, cfg) && ValidTransitions(c, ts) && ValidTransitions(c, us) && us == ts + [t]
    requires t.source < |c.states| && t.target < |c.states|
    ensures FireAll(c, cfg, us).cfg == Fire(c, FireAll(c, cfg, ts).cfg, t).cfg
    decreases |ts|
  {
    if ts == [] {
      FireOne(c, cfg, us);
    } else {
      assert us[0] == ts[0] && us[1..] == ts[1..] + [t];
      FireAllLast(c, Fire(c, cfg, ts[0]).cfg, ts[1..], us[1..], t);
      FireAllFirst(c, cfg, ts);
      FireAllFirst(c, cfg, us);
    }
  }

  lemma FireAllFirst(c: Chart, cfg: Config, ts: seq<Transition>)
    requires Wf(c) && ValidConfig(c, cfg) && ValidTransitions(c, ts) && ts != []
    ensures FireAll(c, cfg, ts).cfg == FireAll(c, Fire(c, cfg, ts[0]).cfg, ts[1..]).cfg
  {
  }

  lemma FireOne(c: Chart, cfg: Config, ts: seq<Transition>)
    requires Wf(c) && ValidConfig(c, cfg) && ValidTransitions(c, ts) && |ts| == 1
    ensures FireAll(c, cfg, []).cfg == cfg && FireAll(c, cfg, ts).cfg == Fire(c, cfg, ts[0]).cfg
  {
    assert ts[1..] == [];
  }

  lemma {:induction false} FireAllBalanced(c: Chart, cfg: Config, ts: seq<Transition>)
    requires Wf(c) && ValidConfig(c, cfg) && ValidTransitions(c, ts)
    requires ActiveSources(c, cfg, ts) && AllMatched(c, ts)
    ensures Replay(c, ActiveSet(c, cfg), FireAll(c, cfg, ts).events) == Some(ActiveSet(c, FireAll(c, cfg, ts).cfg))
    decreases |ts|
  {
    if ts != [] {
      var f := Fire(c, cfg, ts[0]);
      FiringBalanced(c, cfg, ts[0]);
      assert AllMatched(c, ts[1..]) by {
        forall i | 0 <= i < |ts[1..]|
          ensures Matched(c, PointsOf(c, ts[1..][i]).exit, PointsOf(c, ts[1..][i]).enter[0])
        {
          assert ts[1..][i] == ts[i + 1];
        }
      }
      FireAllBalanced(c, f.cfg, ts[1..]);
      ReplayConcat(c, ActiveSet(c, cfg), f.events, FireAll(c, f.cfg, ts[1..]).events);
    }
  }

  /** Main result for runs: from start-up on, the states entered and not yet exited are exactly
      the active configuration, whatever the pointers were before. */
  lemma RunBalanced(c: Chart, cfg: Config, ts: seq<Transition>)
    requires Wf(c) && ValidConfig(c, cfg) && ValidTransitions(c, ts)
    requires ActiveSources(c, Start(c, cfg).cfg, ts) && AllMatched(c, ts)
    ensures var s, f := Start(c, cfg), FireAll(c, Start(c, cfg).cfg, ts);
            Replay(c, {}, s.events + f.events) == Some(ActiveSet(c, f.cfg))
  {
    var s, f := Start(c, cfg), FireAll(c, Start(c, cfg).cfg, ts);
    EntryReplay(c, cfg, 0, [], false, {});
    assert {} + ActiveBelow(c, s.cfg, 0) == ActiveSet(c, s.cfg);
    FireAllBalanced(c, s.cfg, ts);
    ReplayConcat(c, {}, s.events, f.events);
  }
}
