/** One chart on which the hypotheses of balance fail, each in its own way. */
module Witnesses {
  import opened Apex
  import opened Charts
  import opened Traversal
  import opened Firing
  import opened DataSource
  import opened Balance
  import opened Selection
  import opened Orthogonal
  import opened Passes

  /** The root has states 1 and 5 in its region.  State 1 has two parallel regions, one with state 2
      and one with states 3 and 4; state 2 contains 7, state 4 contains 8, and state 5 contains 6.
      All but the root and state 7 have a data source. */
  function Sample(): Chart {
    Chart([StateNode(None, [0], [], false), StateNode(Some(0), [1, 2], [], true), StateNode(Some(1), [4], [0, 2, 3], true),
           StateNode(Some(2), [], [1], true), StateNode(Some(2), [5], [], true), StateNode(Some(0), [3], [], true),
           StateNode(Some(3), [], [], true), StateNode(Some(4), [], [4], false), StateNode(Some(5), [], [], true)],
          [RegionNode(0, {1, 5}, 1, false), RegionNode(1, {2}, 2, false), RegionNode(1, {3, 4}, 3, false),
           RegionNode(5, {6}, 6, false), RegionNode(2, {7}, 7, false), RegionNode(4, {8}, 8, false)],
          [LEAVES_ONE, KEEPS_REGION, CLIMBS, CROSSES_TO_SIBLING, CROSSES_DEEP])
  }

  const START: Config := [1, 2, 3, 6, 7, 8]
  const LEAVES_ONE := Transition(2, 6, false)
  const KEEPS_REGION := Transition(3, 4, false)
  const CROSSES_DEEP := Transition(7, 8, false)
  const CLIMBS := Transition(2, 5, false)
  const CROSSES_TO_SIBLING := Transition(2, 4, false)

  lemma UpperState(s: nat)
    requires s < 5
    ensures WfState(Sample(), s)
  {
  }

  lemma LowerState(s: nat)
    requires 5 <= s < 9
    ensures WfState(Sample(), s)
  {
  }

  lemma SampleRegion(r: nat)
    requires r < 6
    ensures WfRegion(Sample(), r)
  {
    var c := Sample();
    assert c.states[0].regions[0] == 0 && c.states[1].regions[0] == 1 && c.states[1].regions[1] == 2;
    assert c.states[5].regions[0] == 3 && c.states[2].regions[0] == 4 && c.states[4].regions[0] == 5;
  }

  lemma SampleWf()
    ensures Wf(Sample())
  {
    forall s | 0 <= s < 9
      ensures WfState(Sample(), s)
    {
      if s < 5 { UpperState(s); } else { LowerState(s); }
    }
    forall r | 0 <= r < 6
      ensures WfRegion(Sample(), r)
    {
      SampleRegion(r);
    }
  }

  lemma SampleTree()
    ensures Wf(Sample()) && ValidConfig(Sample(), START)
    ensures var c := Sample();
            && Parent(c, 1) == Parent(c, 5) == 0 && Parent(c, 2) == Parent(c, 3) == Parent(c, 4) == 1
            && Parent(c, 6) == 5 && Parent(c, 7) == 2 && Parent(c, 8) == 4
            && RegionOf(c, 1) == RegionOf(c, 5) == 0 && RegionOf(c, 2) == 1 && RegionOf(c, 3) == RegionOf(c, 4) == 2
            && RegionOf(c, 6) == 3 && RegionOf(c, 7) == 4 && RegionOf(c, 8) == 5
  {
    SampleWf();
  }

  lemma SamplePaths()
    ensures Wf(Sample())
    ensures var c := Sample();
            && Path(c, 2) == Path(c, 3) == Path(c, 4) == [0, 1] && Path(c, 5) == [0] && Path(c, 6) == [0, 5]
            && Path(c, 7) == [0, 1, 2] && Path(c, 8) == [0, 1, 4]
  {
    SampleTree();
    var c := Sample();
    assert Path(c, 0) == [];
    assert Path(c, 1) == [0] && Path(c, 5) == [0];
    assert Path(c, 2) == [0, 1] && Path(c, 4) == [0, 1];
  }

  lemma SampleActive()
    ensures Wf(Sample()) && ValidConfig(Sample(), START)
    ensures Active(Sample(), START, 1) && Active(Sample(), START, 2) && Active(Sample(), START, 3)
  {
    SampleTree();
    assert Active(Sample(), START, 0);
    assert Active(Sample(), START, 1);
  }

  // ---------------------------------------------------------------- firings with points that do not match

  /** Between two states in parallel regions: the source is exited but stays current, and the target
      is entered beside a state that was not exited. */
  lemma ParallelRegionsUnbalanced()
    ensures var c, t := Sample(), CROSSES_TO_SIBLING;
            && Wf(c) && ValidConfig(c, START) && t == c.transitions[3] && Active(c, START, t.source)
            && Replay(c, ActiveSet(c, START), Fire(c, START, t).events) != Some(ActiveSet(c, Fire(c, START, t).cfg))
  {
    SamplePaths();
    SampleActive();
    MatchedExactly(Sample(), CROSSES_TO_SIBLING);
    FiringBalanced(Sample(), START, CROSSES_TO_SIBLING);
  }

  /** From a source to a target that is not as deep: the target is entered beside the source's parent,
      which is not exited. */
  lemma DeeperSourceUnbalanced()
    ensures var c, t := Sample(), CLIMBS;
            && Wf(c) && ValidConfig(c, START) && t == c.transitions[2] && Active(c, START, t.source)
            && Path(c, t.target) < Path(c, t.source)
            && Replay(c, ActiveSet(c, START), Fire(c, START, t).events) != Some(ActiveSet(c, Fire(c, START, t).cfg))
  {
    SamplePaths();
    SampleActive();
    MatchedExactly(Sample(), CLIMBS);
    FiringBalanced(Sample(), START, CLIMBS);
  }

  // ---------------------------------------------------------------- a stale source

  lemma SampleCollects()
    ensures Wf(Sample()) && ValidConfig(Sample(), START)
    ensures Collected(Sample(), START, {0, 1}) == [LEAVES_ONE, KEEPS_REGION]
  {
    SampleTree();
    var c := Sample();
    assert Regions(c, 0) == [0] && Regions(c, 1) == [1, 2];
    assert Collect(c, START, {0, 1}, 2) == [0];
    assert Collect(c, START, {0, 1}, 3) == [1] by { assert FirstEnabled([1], {0, 1}) == Some(1); }
    assert CollectRegions(c, START, {0, 1}, 1, 2) == [];
    assert CollectRegions(c, START, {0, 1}, 1, 1) == [1];
    assert CollectRegions(c, START, {0, 1}, 1, 0) == [0, 1];
    assert Collect(c, START, {0, 1}, 1) == [0, 1];
    assert CollectRegions(c, START, {0, 1}, 0, 1) == [];
    assert CollectRegions(c, START, {0, 1}, 0, 0) == [0, 1];
    assert Collect(c, START, {0, 1}, 0) == [0, 1];
  }

  lemma LeavesOnePoints()
    ensures Wf(Sample()) && PointsOf(Sample(), LEAVES_ONE) == Points(1, false, [5, 6]) && Matched(Sample(), 1, 5)
  {
    SamplePaths();
    SampleTree();
    assert FirstDifference([0, 1], [0, 5], 1) == 1;
  }

  lemma KeepsRegionPoints()
    ensures Wf(Sample()) && PointsOf(Sample(), KEEPS_REGION) == Points(3, false, [4]) && Matched(Sample(), 3, 4)
  {
    SamplePaths();
    SampleTree();
    LocalPoints(Sample(), KEEPS_REGION);
  }

  /** Once state 1 has been left, state 3 is not active any more. */
  lemma SourceLost()
    ensures Wf(Sample()) && ValidConfig(Sample(), START) && !Active(Sample(), Fire(Sample(), START, LEAVES_ONE).cfg, 3)
  {
    SampleActive();
    SampleTree();
    LeavesOnePoints();
    ActiveAfterEntry(Sample(), START, 5, [5, 6], false, 3);
  }

  lemma TwoMatched(c: Chart, t: Transition, u: Transition)
    requires Wf(c) && t.source < |c.states| && t.target < |c.states| && u.source < |c.states| && u.target < |c.states|
    requires Matched(c, PointsOf(c, t).exit, PointsOf(c, t).enter[0]) && Matched(c, PointsOf(c, u).exit, PointsOf(c, u).enter[0])
    ensures ValidTransitions(c, [t, u]) && AllMatched(c, [t, u])
  {
  }

  /** The second of two firings exits a state that the first has made inactive. */
  lemma SecondExitInactive(c: Chart, cfg: Config, t: Transition, u: Transition)
    requires Wf(c) && ValidConfig(c, cfg) && ValidTransitions(c, [t, u])
    requires t.source < |c.states| && t.target < |c.states| && u.source < |c.states| && u.target < |c.states|
    requires !Active(c, Fire(c, cfg, t).cfg, PointsOf(c, u).exit)
    ensures !ActiveExits(c, cfg, [t, u])
  {
    if ActiveExits(c, cfg, [t, u]) { BothExitsActive(c, cfg, t, u); }
  }

  lemma BothExitsActive(c: Chart, cfg: Config, t: Transition, u: Transition)
    requires Wf(c) && ValidConfig(c, cfg) && ValidTransitions(c, [t, u]) && ActiveExits(c, cfg, [t, u])
    requires t.source < |c.states| && t.target < |c.states| && u.source < |c.states| && u.target < |c.states|
    ensures Active(c, Fire(c, cfg, t).cfg, PointsOf(c, u).exit)
  {
    ExitsApart(c, cfg, [t, u]);
    assert [t, u][1..] == [u];
    ExitsApart(c, Fire(c, cfg, t).cfg, [u]);
  }

  lemma ExitsApart(c: Chart, cfg: Config, ts: seq<Transition>)
    requires Wf(c) && ValidConfig(c, cfg) && ValidTransitions(c, ts) && ts != [] && ActiveExits(c, cfg, ts)
    ensures Active(c, cfg, PointsOf(c, ts[0]).exit)
    ensures ValidTransitions(c, ts[1..]) && ActiveExits(c, Fire(c, cfg, ts[0]).cfg, ts[1..])
  {
  }

  lemma StaleExits()
    ensures Wf(Sample()) && ValidConfig(Sample(), START)
    ensures var ts := [LEAVES_ONE, KEEPS_REGION];
            ValidTransitions(Sample(), ts) && AllMatched(Sample(), ts) && !ActiveExits(Sample(), START, ts)
  {
    LeavesOnePoints();
    KeepsRegionPoints();
    TwoMatched(Sample(), LEAVES_ONE, KEEPS_REGION);
    SourceLost();
    SecondExitInactive(Sample(), START, LEAVES_ONE, KEEPS_REGION);
  }

  /** A pass that collects a transition from state 3 and one that leaves state 1: the second firing
      exits a state that is not active any more, although all points match. */
  lemma StaleSourceUnbalanced()
    ensures Wf(Sample()) && ValidConfig(Sample(), START)
    ensures var c, ts := Sample(), [LEAVES_ONE, KEEPS_REGION];
            && Collected(c, START, {0, 1}) == ts && ValidTransitions(c, ts) && AllMatched(c, ts)
            && Replay(c, ActiveSet(c, START), FireAll(c, START, ts).events) == None
  {
    SampleCollects();
    StaleExits();
    FireAllExactly(Sample(), START, [LEAVES_ONE, KEEPS_REGION]);
  }

  // ---------------------------------------------------------------- time-outs that are left out

  lemma CrossesDeepPoints()
    ensures Wf(Sample()) && PointsOf(Sample(), CROSSES_DEEP) == Points(1, true, [1, 4, 8])
  {
    SamplePaths();
    SampleTree();
    assert FirstDifference([0, 1, 2], [0, 1, 4], 1) == 2;
  }

  /** A state without regions is entered alone. */
  lemma LeafVisit(c: Chart, cfg: Config, s: nat, q: seq<nat>)
    requires Wf(c) && ValidConfig(c, cfg) && s < |c.states| && Regions(c, s) == [] && SetCurrent(c, cfg, s) == cfg
    ensures EntryState(c, cfg, s, q, false) == Visit(cfg, Pop(q, s), [s])
  {
  }

  /** A state with one region, which enters state `t`. */
  lemma OneRegionVisit(c: Chart, cfg: Config, s: nat, t: nat, q: seq<nat>, rest: seq<nat>, below: seq<nat>)
    requires Wf(c) && ValidConfig(c, cfg) && s < |c.states| && |Regions(c, s)| == 1 && SetCurrent(c, cfg, s) == cfg
    requires t == Choice(c, cfg, Regions(c, s)[0], Pop(q, s), false) && cfg[Regions(c, s)[0] := t] == cfg
    requires EntryState(c, cfg, t, Pop(q, s), false) == Visit(cfg, rest, below)
    ensures EntryState(c, cfg, s, q, false) == Visit(cfg, rest, [s] + below)
  {
    assert EntryRegion(c, cfg, s, 0, Pop(q, s), false, false) == Visit(cfg, rest, below);
    assert EntryRegions(c, cfg, s, 1, rest, false, false) == Visit(cfg, rest, []);
    assert below + [] == below;
    assert EntryRegions(c, cfg, s, 0, Pop(q, s), false, false) == Visit(cfg, rest, below);
  }

  lemma VisitTwo()
    ensures Wf(Sample()) && ValidConfig(Sample(), START)
    ensures EntryState(Sample(), START, 2, [4, 8], false) == Visit(START, [4, 8], [2, 7])
  {
    SampleTree();
    assert Regions(Sample(), 2) == [4] && Regions(Sample(), 7) == [];
    LeafVisit(Sample(), START, 7, [4, 8]);
    OneRegionVisit(Sample(), START, 2, 7, [4, 8], [4, 8], [7]);
  }

  const END: Config := [1, 2, 4, 6, 7, 8]

  lemma VisitFour()
    ensures Wf(Sample()) && ValidConfig(Sample(), END)
    ensures EntryState(Sample(), END, 4, [4, 8], false) == Visit(END, [], [4, 8])
  {
    SampleTree();
    assert Regions(Sample(), 4) == [5] && Regions(Sample(), 8) == [];
    assert Pop([4, 8], 4) == [8] && Pop([8], 8) == [];
    LeafVisit(Sample(), END, 8, [8]);
    OneRegionVisit(Sample(), END, 4, 8, [4, 8], [], [8]);
  }

  /** A state with two regions. */
  lemma TwoRegionVisit(c: Chart, cfg: Config, mid: Config, end: Config, s: nat, q: seq<nat>, q1: seq<nat>, q2: seq<nat>, a: seq<nat>, b: seq<nat>)
    requires Wf(c) && ValidConfig(c, cfg) && ValidConfig(c, mid) && ValidConfig(c, end) && s < |c.states| && |Regions(c, s)| == 2
    requires SetCurrent(c, cfg, s) == cfg
    requires EntryRegion(c, cfg, s, 0, Pop(q, s), false, false) == Visit(mid, q1, a)
    requires EntryRegion(c, mid, s, 1, q1, false, false) == Visit(end, q2, b)
    ensures EntryState(c, cfg, s, q, false) == Visit(end, q2, [s] + (a + b))
  {
    assert EntryRegions(c, end, s, 2, q2, false, false) == Visit(end, q2, []);
    assert b + [] == b;
    assert EntryRegions(c, mid, s, 1, q1, false, false) == Visit(end, q2, b);
    assert EntryRegions(c, cfg, s, 0, Pop(q, s), false, false) == Visit(end, q2, a + b);
  }

  lemma RegionVisit(c: Chart, cfg: Config, s: nat, i: nat, t: nat, q: seq<nat>)
    requires Wf(c) && ValidConfig(c, cfg) && s < |c.states| && i < |Regions(c, s)|
    requires t == Choice(c, cfg, Regions(c, s)[i], q, false)
    ensures t < |c.states| && ValidConfig(c, cfg[Regions(c, s)[i] := t])
    ensures EntryRegion(c, cfg, s, i, q, false, false) == EntryState(c, cfg[Regions(c, s)[i] := t], t, q, false)
  {
  }

  lemma RegionsOfOne()
    ensures Wf(Sample()) && ValidConfig(Sample(), START) && ValidConfig(Sample(), END) && Regions(Sample(), 1) == [1, 2]
    ensures Choice(Sample(), START, 1, [4, 8], false) == 2 && Choice(Sample(), START, 2, [4, 8], false) == 4
    ensures START[1 := 2] == START && START[2 := 4] == END && SetCurrent(Sample(), START, 1) == START
  {
    SampleTree();
  }

  /** What entering state 1 on the way to state 8 visits. */
  lemma CrossesDeepVisits()
    ensures Wf(Sample()) && ValidConfig(Sample(), START)
    ensures EntryState(Sample(), START, 1, [1, 4, 8], false) == Visit(END, [], [1] + ([2, 7] + [4, 8]))
  {
    RegionsOfOne();
    VisitTwo();
    VisitFour();
    RegionVisit(Sample(), START, 1, 0, 2, [4, 8]);
    RegionVisit(Sample(), START, 1, 1, 4, [4, 8]);
    assert Pop([1, 4, 8], 1) == [4, 8];
    TwoRegionVisit(Sample(), START, START, END, 1, [1, 4, 8], [4, 8], [], [2, 7], [4, 8]);
  }

  /** What a firing between parallel regions enters: all that is visited but the exit state. */
  lemma EnteredBetween(c: Chart, cfg: Config, t: Transition, v: Visit, seen: seq<nat>)
    requires Wf(c) && ValidConfig(c, cfg) && t.source < |c.states| && t.target < |c.states| && PointsOf(c, t).parallel
    requires EntryState(c, cfg, PointsOf(c, t).enter[0], PointsOf(c, t).enter, t.history) == v
    requires v.trace == [PointsOf(c, t).enter[0]] + seen
    ensures Entered(c, cfg, t) == seen
  {
  }

  lemma SampleSources()
    ensures WithSource(Sample(), [2, 7, 4, 8]) == [2, 4, 8] && !Sourced(Sample(), 7)
  {
    FourStates(Sample(), 2, 7, 4, 8);
    assert [2] + [] + [4] + [8] == [2, 4, 8];
  }

  lemma FourStates(c: Chart, s: nat, t: nat, u: nat, v: nat)
    ensures WithSource(c, [s, t, u, v]) ==
            (if Sourced(c, s) then [s] else []) + (if Sourced(c, t) then [t] else [])
            + (if Sourced(c, u) then [u] else []) + (if Sourced(c, v) then [v] else [])
  {
    assert [s, t, u, v][1..] == [t, u, v] && [t, u, v][1..] == [u, v] && [u, v][1..] == [v] && [v][1..] == [];
    assert WithSource(c, [v]) == if Sourced(c, v) then [v] else [];
    assert WithSource(c, [u, v]) == (if Sourced(c, u) then [u] else []) + WithSource(c, [v]);
    assert WithSource(c, [t, u, v]) == (if Sourced(c, t) then [t] else []) + WithSource(c, [u, v]);
    assert WithSource(c, [s, t, u, v]) == (if Sourced(c, s) then [s] else []) + WithSource(c, [t, u, v]);
  }

  /** A firing between parallel regions: four states are entered, and time-outs are evaluated for the
      three of them that have a data source. */
  lemma {:induction false} ParallelSkipsTimeOuts()
    ensures var c, t := Sample(), CROSSES_DEEP;
            && Wf(c) && ValidConfig(c, START) && t == c.transitions[4]
            && Entered(c, START, t) == [2, 7, 4, 8] && Evaluated(LogOf(c, START, t)) == [2, 4, 8]
            && !Sourced(c, 7) && TimeOuts(7) !in LogOf(c, START, t)
  {
    CrossesDeepPoints();
    CrossesDeepVisits();
    assert [2, 7] + [4, 8] == [2, 7, 4, 8];
    EnteredBetween(Sample(), START, CROSSES_DEEP, Visit(END, [], [1] + ([2, 7] + [4, 8])), [2, 7] + [4, 8]);
    SampleSources();
    EvaluatedBetween(Sample(), START, CROSSES_DEEP, 7);
  }

  lemma EvaluatedBetween(c: Chart, cfg: Config, t: Transition, s: nat)
    requires Wf(c) && ValidConfig(c, cfg) && t.source < |c.states| && t.target < |c.states| && PointsOf(c, t).parallel
    requires s in Entered(c, cfg, t) && !Sourced(c, s)
    ensures Evaluated(LogOf(c, cfg, t)) == WithSource(c, Entered(c, cfg, t)) && TimeOuts(s) !in LogOf(c, cfg, t)
  {
    TimeOutsExactly(c, cfg, t);
    LeftOutExactly(c, cfg, t, s);
  }
}
