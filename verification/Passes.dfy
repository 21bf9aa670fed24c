/** Firings one after another without looking again whether their sources are active: exactly when
    their actions stay balanced. */
module Passes {
  import opened Apex
  import opened Charts
  import opened Traversal
  import opened Firing
  import opened Balance
  import opened Selection
  import opened Orthogonal

  /** A state that is not open is not exited, whatever is exited before it. */
  lemma {:induction false} ExitRefused(c: Chart, open: set<nat>, p: seq<nat>, x: nat)
    requires Wf(c) && InChart(c, open) && x !in open && x in p
    ensures Replay(c, open, Exits(p)) == None
    decreases |p|
  {
    assert Exits(p)[0] == Exit(p[0]) && Exits(p)[1..] == Exits(p[1..]);
    if Allowed(c, open, Exit(p[0])) { ExitRefused(c, open - {p[0]}, p[1..], x); }
  }

  /** A child of an inactive state is inactive. */
  lemma InactiveChild(c: Chart, cfg: Config, s: nat)
    requires Wf(c) && ValidConfig(c, cfg) && s < |c.states| && !Active(c, cfg, s) && Regions(c, s) != []
    ensures var t := cfg[Regions(c, s)[0]]; t < |c.states| && !Active(c, cfg, t) && t in ExitRegions(c, cfg, s, 0)
  {
    var r := Regions(c, s)[0];
    ChildOf(c, r, cfg[r]);
    assert cfg[r] in ExitState(c, cfg, cfg[r]);
    ExitStep(c, cfg, s, 0);
  }

  /** The exit part of a firing from an inactive exit state. */
  lemma InactiveExitRefused(c: Chart, cfg: Config, s: nat, own: bool)
    requires Wf(c) && ValidConfig(c, cfg) && s < |c.states| && !Active(c, cfg, s) && (own || Regions(c, s) != [])
    ensures Replay(c, ActiveSet(c, cfg), Exits(if own then ExitState(c, cfg, s) else ExitRegions(c, cfg, s, 0))) == None
  {
    if own {
      assert s in ExitState(c, cfg, s);
      ExitRefused(c, ActiveSet(c, cfg), ExitState(c, cfg, s), s);
    } else {
      InactiveChild(c, cfg, s);
      ExitRefused(c, ActiveSet(c, cfg), ExitRegions(c, cfg, s, 0), cfg[Regions(c, s)[0]]);
    }
  }

  /** Main result for one firing from any source: when the points match, its actions are balanced if
      the exit state is active, and otherwise an action is not allowed in its turn. */
  lemma MatchedFiringExactly(c: Chart, cfg: Config, t: Transition)
    requires Wf(c) && ValidConfig(c, cfg) && t.source < |c.states| && t.target < |c.states|
    requires Matched(c, PointsOf(c, t).exit, PointsOf(c, t).enter[0])
    ensures Replay(c, ActiveSet(c, cfg), Fire(c, cfg, t).events) ==
            if Active(c, cfg, PointsOf(c, t).exit) then Some(ActiveSet(c, Fire(c, cfg, t).cfg)) else None
  {
    PointsShape(c, t);
    var p := PointsOf(c, t);
    if Active(c, cfg, p.exit) {
      if p.parallel {
        ParallelBalanced(c, cfg, p.exit, p.enter, t.history);
      } else {
        MatchedBalanced(c, cfg, p.exit, p.enter[0], p.enter, t.history);
      }
    } else {
      if p.parallel { ParallelHasRegions(c, t); }
      InactiveExitRefused(c, cfg, p.exit, !p.parallel);
      var v := EntryState(c, cfg, p.enter[0], p.enter, t.history);
      ReplayConcat(c, ActiveSet(c, cfg), Exits(if !p.parallel then ExitState(c, cfg, p.exit) else ExitRegions(c, cfg, p.exit, 0)),
                   Enters(if p.parallel then v.trace[1..] else v.trace));
    }
  }

  /** The exit state of every firing is active in its turn. */
  ghost predicate ActiveExits(c: Chart, cfg: Config, ts: seq<Transition>)
    requires Wf(c) && ValidConfig(c, cfg) && ValidTransitions(c, ts)
    decreases |ts|
  {
    ts != [] ==> Active(c, cfg, PointsOf(c, ts[0]).exit) && ActiveExits(c, Fire(c, cfg, ts[0]).cfg, ts[1..])
  }

  lemma MatchedRest(c: Chart, ts: seq<Transition>)
    requires Wf(c) && ValidTransitions(c, ts) && AllMatched(c, ts) && ts != []
    ensures AllMatched(c, ts[1..]) && Matched(c, PointsOf(c, ts[0]).exit, PointsOf(c, ts[0]).enter[0])
  {
    forall i | 0 <= i < |ts[1..]|
      ensures Matched(c, PointsOf(c, ts[1..][i]).exit, PointsOf(c, ts[1..][i]).enter[0])
    {
      assert ts[1..][i] == ts[i + 1];
    }
  }

  /** Main result for any firings with matching points: their actions are balanced exactly when every
      exit state is active in its turn. */
  lemma {:induction false} FireAllExactly(c: Chart, cfg: Config, ts: seq<Transition>)
    requires Wf(c) && ValidConfig(c, cfg) && ValidTransitions(c, ts) && AllMatched(c, ts)
    ensures Replay(c, ActiveSet(c, cfg), FireAll(c, cfg, ts).events) ==
            if ActiveExits(c, cfg, ts) then Some(ActiveSet(c, FireAll(c, cfg, ts).cfg)) else None
    decreases |ts|
  {
    if ts != [] {
      var f := Fire(c, cfg, ts[0]);
      MatchedRest(c, ts);
      MatchedFiringExactly(c, cfg, ts[0]);
      FireAllExactly(c, f.cfg, ts[1..]);
      ReplayConcat(c, ActiveSet(c, cfg), f.events, FireAll(c, f.cfg, ts[1..]).events);
    }
  }

  // ---------------------------------------------------------------- a condition on the chart alone

  /** Firing `t` leaves the source of `u` alone: that does not lie in the region `t` enters first. */
  ghost predicate Spares(c: Chart, t: Transition, u: Transition)
    requires Wf(c) && t.source < |c.states| && t.target < |c.states| && u.source < |c.states|
  {
    var first := PointsOf(c, t).enter[0];
    first != 0 && !Under(c, u.source, RegionOf(c, first))
  }

  /** Every firing leaves the sources of the later ones alone. */
  ghost predicate Undisturbed(c: Chart, ts: seq<Transition>)
    requires Wf(c) && ValidTransitions(c, ts)
  {
    forall i, j :: 0 <= i < j < |ts| ==> Spares(c, ts[i], ts[j])
  }

  lemma UndisturbedRest(c: Chart, ts: seq<Transition>)
    requires Wf(c) && ValidTransitions(c, ts) && Undisturbed(c, ts) && ts != []
    ensures Undisturbed(c, ts[1..])
  {
    forall i, j | 0 <= i < j < |ts[1..]|
      ensures Spares(c, ts[1..][i], ts[1..][j])
    {
      assert ts[1..][i] == ts[i + 1] && ts[1..][j] == ts[j + 1];
    }
  }

  lemma StaysActive(c: Chart, cfg: Config, t: Transition, u: Transition)
    requires Wf(c) && ValidConfig(c, cfg) && t.source < |c.states| && t.target < |c.states| && u.source < |c.states|
    requires Active(c, cfg, t.source) && Active(c, cfg, u.source) && Spares(c, t, u)
    ensures Active(c, Fire(c, cfg, t).cfg, u.source)
  {
    PointsShape(c, t);
    var p := PointsOf(c, t);
    RootAboveAll(c, Parent(c, p.enter[0]));
    ActSplit(c, cfg, t.source, Parent(c, p.enter[0]), 0);
    ActiveAfterEntry(c, cfg, p.enter[0], p.enter, t.history, u.source);
  }

  lemma {:induction false} UndisturbedActive(c: Chart, cfg: Config, ts: seq<Transition>)
    requires Wf(c) && ValidConfig(c, cfg) && ValidTransitions(c, ts) && Undisturbed(c, ts)
    requires forall i :: 0 <= i < |ts| ==> Active(c, cfg, ts[i].source)
    ensures ActiveSources(c, cfg, ts)
    decreases |ts|
  {
    if ts != [] {
      var cfg' := Fire(c, cfg, ts[0]).cfg;
      forall i | 0 <= i < |ts[1..]|
        ensures Active(c, cfg', ts[1..][i].source)
      {
        StaysActive(c, cfg, ts[0], ts[i + 1]);
      }
      UndisturbedRest(c, ts);
      UndisturbedActive(c, cfg', ts[1..]);
    }
  }

  lemma CollectedActive(c: Chart, cfg: Config, enabled: set<nat>, i: nat)
    requires Wf(c) && ValidConfig(c, cfg) && i < |Collected(c, cfg, enabled)|
    ensures Active(c, cfg, Collected(c, cfg, enabled)[i].source)
  {
    var k := Collect(c, cfg, enabled, 0)[i];
    CollectExact(c, cfg, enabled, 0, k);
  }

  /** Main result for one evaluation, in any chart: what it collects fires in a balanced way when the
      points match and no source lies in the region that an earlier firing enters. */
  lemma PassBalanced(c: Chart, cfg: Config, enabled: set<nat>)
    requires Wf(c) && ValidConfig(c, cfg)
    requires AllMatched(c, Collected(c, cfg, enabled)) && Undisturbed(c, Collected(c, cfg, enabled))
    ensures var f := FireAll(c, cfg, Collected(c, cfg, enabled));
            Replay(c, ActiveSet(c, cfg), f.events) == Some(ActiveSet(c, f.cfg))
  {
    var ts := Collected(c, cfg, enabled);
    forall i | 0 <= i < |ts|
      ensures Active(c, cfg, ts[i].source)
    {
      CollectedActive(c, cfg, enabled, i);
    }
    UndisturbedActive(c, cfg, ts);
    FireAllBalanced(c, cfg, ts);
  }
}
