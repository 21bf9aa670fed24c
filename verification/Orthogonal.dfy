/** Transitions inside one region each, fired from orthogonal regions, do not interfere. */
module Orthogonal {
  import opened Apex
  import opened Charts
  import opened Traversal
  import opened Firing
  import opened Balance
  import opened Selection

  /** Source and target are children of one region. */
  predicate Local(c: Chart, t: Transition)
    requires Wf(c)
  {
    0 < t.source < |c.states| && 0 < t.target < |c.states| && RegionOf(c, t.source) == RegionOf(c, t.target)
  }

  lemma {:induction false} SamePath(p: seq<nat>, i: nat)
    requires i <= |p|
    ensures FirstDifference(p, p, i) == |p|
    decreases |p| - i
  {
    if i < |p| { SamePath(p, i + 1); }
  }

  lemma LocalPoints(c: Chart, t: Transition)
    requires Wf(c) && Local(c, t)
    ensures PointsOf(c, t) == Points(t.source, false, [t.target])
    ensures Matched(c, t.source, t.target)
  {
    SamePath(Path(c, t.source), 0);
  }

  // ---------------------------------------------------------------- what a firing depends on

  ghost predicate AgreeIn(c: Chart, a: Config, b: Config, r: nat)
    requires Wf(c) && |a| == |b| == |c.regions| && r < |c.regions|
  {
    forall x :: 0 <= x < |c.regions| && Nested(c, x, r) ==> a[x] == b[x]
  }

  ghost predicate AgreeFrom(c: Chart, a: Config, b: Config, s: nat, i: nat)
    requires Wf(c) && |a| == |b| == |c.regions| && s < |c.states|
  {
    forall j :: i <= j < |Regions(c, s)| ==> AgreeIn(c, a, b, Regions(c, s)[j])
  }

  /** Two visits leave the same queue and agree in the regions of `s` from the `i`-th on. */
  ghost predicate SameFrom(c: Chart, v: Visit, w: Visit, s: nat, i: nat)
    requires Wf(c) && |v.cfg| == |w.cfg| == |c.regions| && s < |c.states|
  {
    v.queue == w.queue && AgreeFrom(c, v.cfg, w.cfg, s, i)
  }

  /** Entry of a region depends only on the pointers inside it. */
  lemma {:induction false} EntryDepends(c: Chart, a: Config, b: Config, s: nat, q: seq<nat>, history: bool)
    requires Wf(c) && ValidConfig(c, a) && ValidConfig(c, b) && s < |c.states|
    requires AgreeFrom(c, a, b, s, 0)
    ensures var v, w := EntryState(c, a, s, q, history), EntryState(c, b, s, q, history);
            v.queue == w.queue && AgreeFrom(c, v.cfg, w.cfg, s, 0)
    decreases |c.states| - s, 1, 0
  {
    assert AgreeFrom(c, SetCurrent(c, a, s), SetCurrent(c, b, s), s, 0) by { SetCurrentAgree(c, a, b, s); }
    RegionsDepend(c, SetCurrent(c, a, s), SetCurrent(c, b, s), s, 0, Pop(q, s), history, CheckHistory(q, s, history));
  }

  lemma SetCurrentAgree(c: Chart, a: Config, b: Config, s: nat)
    requires Wf(c) && ValidConfig(c, a) && ValidConfig(c, b) && s < |c.states|
    requires AgreeFrom(c, a, b, s, 0)
    ensures AgreeFrom(c, SetCurrent(c, a, s), SetCurrent(c, b, s), s, 0)
  {
    forall j | 0 <= j < |Regions(c, s)|
      ensures AgreeIn(c, SetCurrent(c, a, s), SetCurrent(c, b, s), Regions(c, s)[j])
    {
      assert AgreeIn(c, a, b, Regions(c, s)[j]);
    }
  }

  lemma {:induction false} RegionsDepend(c: Chart, a: Config, b: Config, s: nat, i: nat, q: seq<nat>, history: bool, check: bool)
    requires Wf(c) && ValidConfig(c, a) && ValidConfig(c, b) && s < |c.states| && i <= |Regions(c, s)|
    requires AgreeFrom(c, a, b, s, i)
    ensures SameFrom(c, EntryRegions(c, a, s, i, q, history, check), EntryRegions(c, b, s, i, q, history, check), s, i)
    decreases |c.states| - s, 0, |Regions(c, s)| - i
  {
    if i == |Regions(c, s)| {
      RegionsDependDone(c, a, b, s, q, history, check);
    } else {
      var v, w := EntryRegion(c, a, s, i, q, history, check), EntryRegion(c, b, s, i, q, history, check);
      RegionDepends(c, a, b, s, i, q, history, check);
      LaterAgree(c, a, b, s, i, q, history, check);
      RegionsDepend(c, v.cfg, w.cfg, s, i + 1, v.queue, history, check);
      RegionsDependJoin(c, a, b, s, i, q, history, check);
    }
  }

  lemma RegionsDependDone(c: Chart, a: Config, b: Config, s: nat, q: seq<nat>, history: bool, check: bool)
    requires Wf(c) && ValidConfig(c, a) && ValidConfig(c, b) && s < |c.states|
    requires AgreeFrom(c, a, b, s, |Regions(c, s)|)
    ensures var n := |Regions(c, s)|; SameFrom(c, EntryRegions(c, a, s, n, q, history, check), EntryRegions(c, b, s, n, q, history, check), s, n)
  {
  }

  lemma RegionsDependJoin(c: Chart, a: Config, b: Config, s: nat, i: nat, q: seq<nat>, history: bool, check: bool)
    requires Wf(c) && ValidConfig(c, a) && ValidConfig(c, b) && s < |c.states| && i < |Regions(c, s)|
    requires var v, w := EntryRegion(c, a, s, i, q, history, check), EntryRegion(c, b, s, i, q, history, check);
             && v.queue == w.queue && AgreeIn(c, v.cfg, w.cfg, Regions(c, s)[i])
             && SameFrom(c, EntryRegions(c, v.cfg, s, i + 1, v.queue, history, check), EntryRegions(c, w.cfg, s, i + 1, w.queue, history, check), s, i + 1)
    ensures SameFrom(c, EntryRegions(c, a, s, i, q, history, check), EntryRegions(c, b, s, i, q, history, check), s, i)
  {
    var v, w := EntryRegion(c, a, s, i, q, history, check), EntryRegion(c, b, s, i, q, history, check);
    EarlierAgree(c, v.cfg, w.cfg, s, i, v.queue, history, check);
  }

  lemma {:induction false} RegionDepends(c: Chart, a: Config, b: Config, s: nat, i: nat, q: seq<nat>, history: bool, check: bool)
    requires Wf(c) && ValidConfig(c, a) && ValidConfig(c, b) && s < |c.states| && i < |Regions(c, s)|
    requires AgreeIn(c, a, b, Regions(c, s)[i])
    ensures var v, w := EntryRegion(c, a, s, i, q, history, check), EntryRegion(c, b, s, i, q, history, check);
            v.queue == w.queue && AgreeIn(c, v.cfg, w.cfg, Regions(c, s)[i])
    decreases |c.states| - s, 0, 0
  {
    var r := Regions(c, s)[i];
    assert Nested(c, r, r);
    var t := Choice(c, a, r, q, history);
    assert t == Choice(c, b, r, q, history);
    ChildRegionsAgree(c, a[r := t], b[r := t], t);
    EntryDepends(c, a[r := t], b[r := t], t, q, Continue(c, r, q, history, check));
    RegionAgrees(c, a[r := t], b[r := t], t, q, Continue(c, r, q, history, check));
  }

  /** Pointers that agree inside the region of `t` agree in the regions of `t`. */
  lemma ChildRegionsAgree(c: Chart, a: Config, b: Config, t: nat)
    requires Wf(c) && |a| == |b| == |c.regions| && 0 < t < |c.states| && AgreeIn(c, a, b, RegionOf(c, t))
    ensures AgreeFrom(c, a, b, t, 0)
  {
    forall j, x | 0 <= j < |Regions(c, t)| && 0 <= x < |c.regions| && Nested(c, x, Regions(c, t)[j])
      ensures a[x] == b[x]
    {
      NestedOwner(c, x, t, j);
      BelowUnder(c, Owner(c, x), t);
      assert Nested(c, x, RegionOf(c, t));
    }
  }

  /** Entry of `t` agrees inside its region when it agrees in the regions of `t`. */
  lemma RegionAgrees(c: Chart, a: Config, b: Config, t: nat, q: seq<nat>, history: bool)
    requires Wf(c) && ValidConfig(c, a) && ValidConfig(c, b) && 0 < t < |c.states| && AgreeIn(c, a, b, RegionOf(c, t))
    requires AgreeFrom(c, EntryState(c, a, t, q, history).cfg, EntryState(c, b, t, q, history).cfg, t, 0)
    ensures AgreeIn(c, EntryState(c, a, t, q, history).cfg, EntryState(c, b, t, q, history).cfg, RegionOf(c, t))
  {
    EntryFrame(c, a, t, q, history);
    EntryFrame(c, b, t, q, history);
    forall x | 0 <= x < |c.regions| && Nested(c, x, RegionOf(c, t)) && x != RegionOf(c, t) && Below(c, Owner(c, x), t)
      ensures EntryState(c, a, t, q, history).cfg[x] == EntryState(c, b, t, q, history).cfg[x]
    {
      if Owner(c, x) == t {
        var j := RegionIndex(c, x);
        assert AgreeIn(c, EntryState(c, a, t, q, history).cfg, EntryState(c, b, t, q, history).cfg, Regions(c, t)[j]);
        assert Nested(c, x, x);
      } else {
        var r := BranchOf(c, Owner(c, x), t);
        var j := RegionIndex(c, r);
        assert AgreeIn(c, EntryState(c, a, t, q, history).cfg, EntryState(c, b, t, q, history).cfg, Regions(c, t)[j]);
      }
    }
  }

  lemma LaterAgree(c: Chart, a: Config, b: Config, s: nat, i: nat, q: seq<nat>, history: bool, check: bool)
    requires Wf(c) && ValidConfig(c, a) && ValidConfig(c, b) && s < |c.states| && i < |Regions(c, s)|
    requires AgreeFrom(c, a, b, s, i)
    ensures AgreeFrom(c, EntryRegion(c, a, s, i, q, history, check).cfg, EntryRegion(c, b, s, i, q, history, check).cfg, s, i + 1)
  {
    EntryRegionFrame(c, a, s, i, q, history, check);
    EntryRegionFrame(c, b, s, i, q, history, check);
    forall j, x | i + 1 <= j < |Regions(c, s)| && 0 <= x < |c.regions| && Nested(c, x, Regions(c, s)[j])
      ensures EntryRegion(c, a, s, i, q, history, check).cfg[x] == EntryRegion(c, b, s, i, q, history, check).cfg[x]
    {
      NestedSiblings(c, x, Regions(c, s)[j], Regions(c, s)[i]);
      assert AgreeIn(c, a, b, Regions(c, s)[j]);
    }
  }

  lemma EarlierAgree(c: Chart, a: Config, b: Config, s: nat, i: nat, q: seq<nat>, history: bool, check: bool)
    requires Wf(c) && ValidConfig(c, a) && ValidConfig(c, b) && s < |c.states| && i < |Regions(c, s)|
    requires AgreeIn(c, a, b, Regions(c, s)[i])
    requires AgreeFrom(c, EntryRegions(c, a, s, i + 1, q, history, check).cfg, EntryRegions(c, b, s, i + 1, q, history, check).cfg, s, i + 1)
    ensures AgreeFrom(c, EntryRegions(c, a, s, i + 1, q, history, check).cfg, EntryRegions(c, b, s, i + 1, q, history, check).cfg, s, i)
  {
    EntryRegionsFrame(c, a, s, i + 1, q, history, check);
    EntryRegionsFrame(c, b, s, i + 1, q, history, check);
  }

  /** A local firing depends on, and changes, only the pointers inside its region. */
  lemma LocalFiring(c: Chart, a: Config, b: Config, t: Transition)
    requires Wf(c) && ValidConfig(c, a) && ValidConfig(c, b) && Local(c, t)
    requires AgreeIn(c, a, b, RegionOf(c, t.source))
    ensures AgreeIn(c, Fire(c, a, t).cfg, Fire(c, b, t).cfg, RegionOf(c, t.source))
    ensures forall x :: 0 <= x < |c.regions| && !Nested(c, x, RegionOf(c, t.source)) ==> Fire(c, a, t).cfg[x] == a[x]
  {
    LocalPoints(c, t);
    ChildRegionsAgree(c, a, b, t.target);
    EntryDepends(c, a, b, t.target, [t.target], t.history);
    RegionAgrees(c, a, b, t.target, [t.target], t.history);
    EntryFrame(c, a, t.target, [t.target], t.history);
    forall x | 0 <= x < |c.regions| && !Nested(c, x, RegionOf(c, t.source))
      ensures !Below(c, Owner(c, x), t.target)
    {
      if Below(c, Owner(c, x), t.target) { BelowUnder(c, Owner(c, x), t.target); }
    }
  }

  // ---------------------------------------------------------------- independent transitions

  /** Regions with a common nested region are equal or nested in each other. */
  lemma CommonNested(c: Chart, x: nat, r: nat, r': nat)
    requires Wf(c) && x < |c.regions| && r < |c.regions| && r' < |c.regions|
    requires Nested(c, x, r) && Nested(c, x, r')
    ensures Nested(c, r, r') || Nested(c, r', r)
  {
    if x != r && x != r' {
      var y := UnderVia(c, Owner(c, x), r);
      var y' := UnderVia(c, Owner(c, x), r');
      AncestorsLinear(c, Owner(c, x), y, y');
      if Below(c, y, y') && y != y' { BelowUnder(c, Owner(c, r), y'); }
      if Below(c, y', y) && y != y' { BelowUnder(c, Owner(c, r'), y); }
    }
  }

  /** The regions of two unrelated active states have nothing in common. */
  lemma UnrelatedRegions(c: Chart, cfg: Config, s: nat, s': nat, x: nat)
    requires Wf(c) && ValidConfig(c, cfg) && 0 < s < |c.states| && 0 < s' < |c.states| && x < |c.regions|
    requires Active(c, cfg, s) && Active(c, cfg, s') && Unrelated(c, s, s')
    requires Nested(c, x, RegionOf(c, s))
    ensures !Nested(c, x, RegionOf(c, s'))
  {
    if Nested(c, x, RegionOf(c, s')) {
      CommonNested(c, x, RegionOf(c, s), RegionOf(c, s'));
      if Nested(c, RegionOf(c, s), RegionOf(c, s')) {
        UnderActive(c, cfg, s, s');
      } else {
        UnderActive(c, cfg, s', s);
      }
    }
  }

  /** An active state inside the region of another active state lies below it. */
  lemma UnderActive(c: Chart, cfg: Config, s: nat, s': nat)
    requires Wf(c) && ValidConfig(c, cfg) && 0 < s < |c.states| && 0 < s' < |c.states|
    requires Active(c, cfg, s) && Active(c, cfg, s') && (RegionOf(c, s) == RegionOf(c, s') || Under(c, s, RegionOf(c, s')))
    ensures Below(c, s, s')
  {
    var r := RegionOf(c, s');
    if Under(c, s, r) {
      UnderBelowOwner(c, s, r);
      RootAboveAll(c, Owner(c, r));
      ActSplit(c, cfg, s, Owner(c, r), 0);
      ActInRegion(c, cfg, s, r);
      ActBelow(c, cfg, s, s');
    }
  }

  /** Local transitions with active, pairwise unrelated sources, each listed once. */
  ghost predicate Independent(c: Chart, cfg: Config, ts: seq<Transition>)
    requires Wf(c) && ValidConfig(c, cfg)
  {
    && (forall t :: t in ts ==> Local(c, t) && Active(c, cfg, t.source) && multiset(ts)[t] == 1)
    && (forall t, u :: t in ts && u in ts && t != u ==> Unrelated(c, t.source, u.source))
  }

  /** After a local firing the other transitions are still independent, and each would do the
      same as before. */
  lemma IndependentStep(c: Chart, cfg: Config, ts: seq<Transition>)
    requires Wf(c) && ValidConfig(c, cfg) && ts != [] && Independent(c, cfg, ts)
    ensures Independent(c, Fire(c, cfg, ts[0]).cfg, ts[1..])
    ensures forall t :: t in ts[1..] ==> t != ts[0] && AgreeIn(c, cfg, Fire(c, cfg, ts[0]).cfg, RegionOf(c, t.source))
  {
    var t0 := ts[0];
    assert ts == [t0] + ts[1..];
    assert multiset(ts) == multiset{t0} + multiset(ts[1..]);
    LocalFiring(c, cfg, cfg, t0);
    forall t | t in ts[1..]
      ensures t != t0 && t in ts && multiset(ts[1..])[t] == 1 && Active(c, Fire(c, cfg, t0).cfg, t.source)
      ensures AgreeIn(c, cfg, Fire(c, cfg, t0).cfg, RegionOf(c, t.source))
    {
      StillActive(c, cfg, t0, t);
      forall x | 0 <= x < |c.regions| && Nested(c, x, RegionOf(c, t.source))
        ensures cfg[x] == Fire(c, cfg, t0).cfg[x]
      {
        UnrelatedRegions(c, cfg, t.source, t0.source, x);
      }
    }
  }

  lemma StillActive(c: Chart, cfg: Config, t: Transition, u: Transition)
    requires Wf(c) && ValidConfig(c, cfg) && Local(c, t) && Local(c, u)
    requires Active(c, cfg, t.source) && Active(c, cfg, u.source) && Unrelated(c, t.source, u.source)
    ensures Active(c, Fire(c, cfg, t).cfg, u.source)
  {
    LocalPoints(c, t);
    ActiveAfterEntry(c, cfg, t.target, [t.target], t.history, u.source);
    if Under(c, u.source, RegionOf(c, t.source)) { UnderActive(c, cfg, u.source, t.source); }
  }

  ghost predicate Touched(c: Chart, ts: seq<Transition>, x: nat)
    requires Wf(c) && x < |c.regions|
  {
    exists t :: t in ts && Local(c, t) && Nested(c, x, RegionOf(c, t.source))
  }

  lemma IndependentValid(c: Chart, cfg: Config, ts: seq<Transition>)
    requires Wf(c) && ValidConfig(c, cfg) && Independent(c, cfg, ts)
    ensures ValidTransitions(c, ts) && AllMatched(c, ts)
  {
    forall i | 0 <= i < |ts|
      ensures Local(c, ts[i]) && Matched(c, PointsOf(c, ts[i]).exit, PointsOf(c, ts[i]).enter[0])
    {
      assert ts[i] in ts;
      LocalPoints(c, ts[i]);
    }
  }

  /** Each of several independent transitions still has an active source when its turn comes. */
  lemma {:induction false} IndependentActive(c: Chart, cfg: Config, ts: seq<Transition>)
    requires Wf(c) && ValidConfig(c, cfg) && Independent(c, cfg, ts) && ValidTransitions(c, ts)
    ensures ActiveSources(c, cfg, ts)
    decreases |ts|
  {
    if ts != [] {
      assert ts[0] in ts;
      IndependentStep(c, cfg, ts);
      IndependentActive(c, Fire(c, cfg, ts[0]).cfg, ts[1..]);
    }
  }

  /** A pointer that belongs to none of several independent transitions is left alone. */
  lemma {:induction false} UntouchedKept(c: Chart, cfg: Config, ts: seq<Transition>, x: nat)
    requires Wf(c) && ValidConfig(c, cfg) && Independent(c, cfg, ts) && ValidTransitions(c, ts) && x < |c.regions|
    requires !Touched(c, ts, x)
    ensures FireAll(c, cfg, ts).cfg[x] == cfg[x]
    decreases |ts|
  {
    if ts != [] {
      assert ts[0] in ts;
      IndependentStep(c, cfg, ts);
      LocalFiring(c, cfg, cfg, ts[0]);
      UntouchedKept(c, Fire(c, cfg, ts[0]).cfg, ts[1..], x);
    }
  }

  /** No pointer belongs to two independent transitions. */
  lemma OneOwner(c: Chart, cfg: Config, ts: seq<Transition>, x: nat)
    requires Wf(c) && ValidConfig(c, cfg) && ts != [] && Independent(c, cfg, ts) && ValidTransitions(c, ts) && x < |c.regions|
    requires Nested(c, x, RegionOf(c, ts[0].source))
    ensures !Touched(c, ts[1..], x)
  {
    IndependentStep(c, cfg, ts);
    forall t | t in ts[1..]
      ensures !Nested(c, x, RegionOf(c, t.source))
    {
      assert t in ts && ts[0] in ts;
      UnrelatedRegions(c, cfg, ts[0].source, t.source, x);
    }
  }

  /** Where independent transitions lead: each pointer is set by the one transition it belongs to,
      as if that transition had fired alone. */
  lemma {:induction false} IndependentResult(c: Chart, cfg: Config, ts: seq<Transition>, x: nat, t: Transition)
    requires Wf(c) && ValidConfig(c, cfg) && Independent(c, cfg, ts) && ValidTransitions(c, ts) && x < |c.regions|
    requires t in ts && Nested(c, x, RegionOf(c, t.source))
    ensures FireAll(c, cfg, ts).cfg[x] == Fire(c, cfg, t).cfg[x]
    decreases |ts|
  {
    var cfg' := Fire(c, cfg, ts[0]).cfg;
    IndependentStep(c, cfg, ts);
    if t == ts[0] {
      OneOwner(c, cfg, ts, x);
      UntouchedKept(c, cfg', ts[1..], x);
    } else {
      IndependentResult(c, cfg', ts[1..], x, t);
      LocalFiring(c, cfg, cfg', t);
    }
  }

  /** Main result: the order in which independent transitions fire does not matter. */
  lemma OrderIrrelevant(c: Chart, cfg: Config, ts: seq<Transition>, us: seq<Transition>)
    requires Wf(c) && ValidConfig(c, cfg) && Independent(c, cfg, ts) && multiset(ts) == multiset(us)
    ensures ValidTransitions(c, ts) && ValidTransitions(c, us)
    ensures FireAll(c, cfg, ts).cfg == FireAll(c, cfg, us).cfg
  {
    forall t
      ensures t in ts <==> t in us
    {
      assert t in ts <==> t in multiset(ts);
      assert t in us <==> t in multiset(us);
    }
    assert Independent(c, cfg, us);
    IndependentValid(c, cfg, ts);
    IndependentValid(c, cfg, us);
    forall x | 0 <= x < |c.regions|
      ensures FireAll(c, cfg, ts).cfg[x] == FireAll(c, cfg, us).cfg[x]
    {
      if Touched(c, ts, x) {
        var t :| t in ts && Local(c, t) && Nested(c, x, RegionOf(c, t.source));
        IndependentResult(c, cfg, ts, x, t);
        IndependentResult(c, cfg, us, x, t);
      } else {
        UntouchedKept(c, cfg, ts, x);
        UntouchedKept(c, cfg, us, x);
      }
    }
  }

  /** The transitions one evaluation collects. */
  ghost function Collected(c: Chart, cfg: Config, enabled: set<nat>): (ts: seq<Transition>)
    requires Wf(c) && ValidConfig(c, cfg)
    ensures ValidTransitions(c, ts)
  {
    var ks := Collect(c, cfg, enabled, 0);
    seq(|ks|, k requires 0 <= k < |ks| => c.transitions[ks[k]])
  }

  ghost predicate AllLocal(c: Chart, ts: seq<Transition>)
    requires Wf(c)
  {
    forall i :: 0 <= i < |ts| ==> Local(c, ts[i])
  }

  lemma {:induction false} DistinctOnce(ts: seq<Transition>, t: Transition)
    requires forall i, j :: 0 <= i < j < |ts| ==> ts[i] != ts[j]
    ensures t in ts ==> multiset(ts)[t] == 1
    decreases |ts|
  {
    if ts != [] {
      assert ts == [ts[0]] + ts[1..];
      assert multiset(ts) == multiset{ts[0]} + multiset(ts[1..]);
      DistinctOnce(ts[1..], t);
      if t == ts[0] { assert t !in ts[1..]; assert t !in multiset(ts[1..]); }
    }
  }

  /** What one evaluation collects is independent when each transition stays in one region. */
  lemma CollectedIndependent(c: Chart, cfg: Config, enabled: set<nat>)
    requires Wf(c) && ValidConfig(c, cfg) && AllLocal(c, Collected(c, cfg, enabled))
    ensures Independent(c, cfg, Collected(c, cfg, enabled))
  {
    var ks, ts := Collect(c, cfg, enabled, 0), Collected(c, cfg, enabled);
    CollectedUnrelated(c, cfg, enabled);
    forall t | t in ts
      ensures Local(c, t) && Active(c, cfg, t.source) && multiset(ts)[t] == 1
    {
      var k :| 0 <= k < |ts| && ts[k] == t;
      CollectExact(c, cfg, enabled, 0, ks[k]);
      DistinctOnce(ts, t);
    }
  }

  lemma CollectedUnrelated(c: Chart, cfg: Config, enabled: set<nat>)
    requires Wf(c) && ValidConfig(c, cfg)
    ensures var ts := Collected(c, cfg, enabled);
            && (forall t, u :: t in ts && u in ts && t != u ==> Unrelated(c, t.source, u.source))
            && (forall i, j :: 0 <= i < j < |ts| ==> ts[i] != ts[j])
  {
    var ks, ts := Collect(c, cfg, enabled, 0), Collected(c, cfg, enabled);
    CollectUnrelated(c, cfg, enabled, 0);
    forall i, j | 0 <= i < j < |ts|
      ensures Unrelated(c, ts[i].source, ts[j].source) && Unrelated(c, ts[j].source, ts[i].source) && ts[i] != ts[j]
    {
      assert ts[i] == c.transitions[ks[i]] && ts[j] == c.transitions[ks[j]];
    }
  }

  /** Main result: firing what one evaluation collected, in any order, leads to one and the same
      configuration, and its actions are balanced. */
  lemma CollectedCommute(c: Chart, cfg: Config, enabled: set<nat>, us: seq<Transition>)
    requires Wf(c) && ValidConfig(c, cfg) && AllLocal(c, Collected(c, cfg, enabled))
    requires multiset(us) == multiset(Collected(c, cfg, enabled))
    ensures ValidTransitions(c, us)
    ensures FireAll(c, cfg, us).cfg == FireAll(c, cfg, Collected(c, cfg, enabled)).cfg
    ensures Replay(c, ActiveSet(c, cfg), FireAll(c, cfg, us).events) == Some(ActiveSet(c, FireAll(c, cfg, us).cfg))
  {
    var ts := Collected(c, cfg, enabled);
    CollectedIndependent(c, cfg, enabled);
    OrderIrrelevant(c, cfg, ts, us);
    forall t
      ensures t in ts <==> t in us
    {
      assert t in ts <==> t in multiset(ts);
      assert t in us <==> t in multiset(us);
    }
    assert Independent(c, cfg, us);
    IndependentValid(c, cfg, us);
    IndependentActive(c, cfg, us);
    FireAllBalanced(c, cfg, us);
  }
}
