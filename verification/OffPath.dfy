/** What a firing does beside the way to its target: regions of the states on the way that do not hold
    the next of these states. */
module OffPath {
  import opened Charts
  import opened Traversal
  import opened Firing
  import opened History

  /** Region `r` has its initial state, with initial states below it. */
  ghost predicate InitialIn(c: Chart, cfg: Config, r: nat)
    requires Wf(c) && |cfg| == |c.regions| && r < |c.regions|
  {
    cfg[r] == c.regions[r].init && InitialBelow(c, cfg, cfg[r])
  }

  /** How a region beside the way is entered.  Before the region that holds the next state of the way:
      initial states, history or not.  After it: initial states without history, and with history all
      pointers as they were. */
  ghost predicate EnteredAside(c: Chart, before: Config, after: Config, r: nat, history: bool, earlier: bool)
    requires Wf(c) && |before| == |after| == |c.regions| && r < |c.regions|
  {
    if history && !earlier then forall x :: 0 <= x < |c.regions| && Nested(c, x, r) ==> after[x] == before[x]
    else InitialIn(c, after, r)
  }

  lemma InitialFrame(c: Chart, cfg: Config, cfg': Config, r: nat)
    requires Wf(c) && ValidConfig(c, cfg) && |cfg'| == |c.regions| && r < |c.regions| && InitialIn(c, cfg, r)
    requires forall x :: 0 <= x < |c.regions| && Nested(c, x, r) ==> cfg[x] == cfg'[x]
    ensures InitialIn(c, cfg', r)
  {
    assert Nested(c, r, r);
    RegionEnteredFrame(c, cfg, cfg, cfg, cfg', r, false);
  }

  lemma AsideFrame(c: Chart, before: Config, before': Config, after: Config, after': Config, r: nat, history: bool, earlier: bool)
    requires Wf(c) && |before| == |before'| == |c.regions| && ValidConfig(c, after) && |after'| == |c.regions| && r < |c.regions|
    requires forall x :: 0 <= x < |c.regions| && Nested(c, x, r) ==> before[x] == before'[x] && after[x] == after'[x]
    requires EnteredAside(c, before, after, r, history, earlier)
    ensures EnteredAside(c, before', after', r, history, earlier)
  {
    if !history || earlier { InitialFrame(c, after, after', r); }
  }

  // ---------------------------------------------------------------- off the way

  /** Entry at a state that the front of the queue does not lie below gives the initial configuration. */
  lemma {:induction false} EntryAside(c: Chart, cfg: Config, s: nat, q: seq<nat>, history: bool)
    requires Wf(c) && ValidConfig(c, cfg) && s < |c.states|
    requires q != [] && q[0] < |c.states| && !Below(c, q[0], s)
    ensures InitialBelow(c, EntryState(c, cfg, s, q, history).cfg, s)
    decreases |c.states| - s, 1, 0
  {
    forall j | 0 <= j < |Regions(c, s)|
      ensures !Under(c, q[0], Regions(c, s)[j])
    {
      if Under(c, q[0], Regions(c, s)[j]) { UnderBelowOwner(c, q[0], Regions(c, s)[j]); }
    }
    var mid := Passed(c, SetCurrent(c, cfg, s), s, 0, |Regions(c, s)|, q, history, false);
    AllInitial(c, mid, s);
  }

  lemma AllInitial(c: Chart, cfg: Config, s: nat)
    requires Wf(c) && ValidConfig(c, cfg) && s < |c.states|
    requires InitialBetween(c, cfg, s, 0, |Regions(c, s)|)
    ensures InitialBelow(c, cfg, s)
  {
    forall x | 0 <= x < |c.states| && Act(c, cfg, x, s) && x != s
      ensures c.regions[RegionOf(c, x)].init == x
    {
      ActiveBelowSplit(c, cfg, s);
      assert x in ActiveBelow(c, cfg, s);
      InActiveFrom(c, cfg, s, 0, x);
      var j :| 0 <= j < |Regions(c, s)| && Act(c, cfg, x, cfg[Regions(c, s)[j]]);
      assert InitialIn(c, cfg, Regions(c, s)[j]);
      ChildOf(c, Regions(c, s)[j], cfg[Regions(c, s)[j]]);
    }
  }

  /** The pointers inside the regions of `s` that do not lie between the `i`-th and the `k`-th. */
  ghost predicate KeepsOthers(c: Chart, a: Config, b: Config, s: nat, i: nat, k: nat)
    requires Wf(c) && s < |c.states| && |a| == |b| == |c.regions|
  {
    forall x, j :: 0 <= x < |c.regions| && 0 <= j < |Regions(c, s)| && (j < i || k <= j) && Nested(c, x, Regions(c, s)[j]) ==> b[x] == a[x]
  }

  ghost predicate InitialBetween(c: Chart, cfg: Config, s: nat, i: nat, k: nat)
    requires Wf(c) && s < |c.states| && |cfg| == |c.regions| && k <= |Regions(c, s)|
  {
    forall j :: i <= j < k ==> InitialIn(c, cfg, Regions(c, s)[j])
  }

  /** The pointers when the regions `i` to `k` of `s`, none of which holds the front of the queue, have
      been entered and the others have not. */
  lemma {:induction false} Passed(c: Chart, cfg: Config, s: nat, i: nat, k: nat, q: seq<nat>, history: bool, check: bool) returns (mid: Config)
    requires Wf(c) && ValidConfig(c, cfg) && s < |c.states| && i <= k <= |Regions(c, s)|
    requires q != [] && q[0] < |c.states|
    requires forall j :: i <= j < k ==> !Under(c, q[0], Regions(c, s)[j])
    ensures ValidConfig(c, mid) && KeepsOthers(c, cfg, mid, s, i, k)
    ensures EntryRegions(c, cfg, s, i, q, history, check).cfg == EntryRegions(c, mid, s, k, q, history, check).cfg
    ensures InitialBetween(c, mid, s, i, k)
    decreases |c.states| - s, 0, |Regions(c, s)| - i, 1
  {
    if i == k { mid := cfg; } else { mid := PassedOne(c, cfg, s, i, k, q, history, check); }
  }

  lemma {:induction false} PassedOne(c: Chart, cfg: Config, s: nat, i: nat, k: nat, q: seq<nat>, history: bool, check: bool) returns (mid: Config)
    requires Wf(c) && ValidConfig(c, cfg) && s < |c.states| && i < k <= |Regions(c, s)|
    requires q != [] && q[0] < |c.states|
    requires forall j :: i <= j < k ==> !Under(c, q[0], Regions(c, s)[j])
    ensures ValidConfig(c, mid) && KeepsOthers(c, cfg, mid, s, i, k)
    ensures EntryRegions(c, cfg, s, i, q, history, check).cfg == EntryRegions(c, mid, s, k, q, history, check).cfg
    ensures InitialBetween(c, mid, s, i, k)
    decreases |c.states| - s, 0, |Regions(c, s)| - i, 0
  {
    RegionAside(c, cfg, s, i, q, history, check);
    var next := EntryRegion(c, cfg, s, i, q, history, check).cfg;
    mid := Passed(c, next, s, i + 1, k, q, history, check);
    PassedStep(c, cfg, next, mid, s, i, k);
    EntryStep(c, cfg, s, i, q, history, check);
  }

  /** Entry of a region that does not hold the front of the queue. */
  lemma {:induction false} RegionAside(c: Chart, cfg: Config, s: nat, i: nat, q: seq<nat>, history: bool, check: bool)
    requires Wf(c) && ValidConfig(c, cfg) && s < |c.states| && i < |Regions(c, s)|
    requires q != [] && q[0] < |c.states| && !Under(c, q[0], Regions(c, s)[i])
    ensures var v := EntryRegion(c, cfg, s, i, q, history, check);
            && v.queue == q && InitialIn(c, v.cfg, Regions(c, s)[i])
            && forall x :: 0 <= x < |c.regions| && !Nested(c, x, Regions(c, s)[i]) ==> v.cfg[x] == cfg[x]
    decreases |c.states| - s, 0, 0, 0
  {
    var r := Regions(c, s)[i];
    ChildOf(c, r, q[0]);
    var t := Choice(c, cfg, r, q, history);
    assert t == c.regions[r].init;
    if Below(c, q[0], t) { BelowUnder(c, q[0], t); }
    EntryAside(c, cfg[r := t], t, q, Continue(c, r, q, history, check));
    EntryOffPath(c, cfg[r := t], t, q, Continue(c, r, q, history, check));
    EntryRegionFrame(c, cfg, s, i, q, history, check);
  }

  lemma PassedStep(c: Chart, cfg: Config, next: Config, mid: Config, s: nat, i: nat, k: nat)
    requires Wf(c) && |cfg| == |c.regions| && ValidConfig(c, next) && ValidConfig(c, mid) && s < |c.states| && i < k <= |Regions(c, s)|
    requires InitialIn(c, next, Regions(c, s)[i])
    requires forall x :: 0 <= x < |c.regions| && !Nested(c, x, Regions(c, s)[i]) ==> next[x] == cfg[x]
    requires KeepsOthers(c, next, mid, s, i + 1, k) && InitialBetween(c, mid, s, i + 1, k)
    ensures KeepsOthers(c, cfg, mid, s, i, k) && InitialBetween(c, mid, s, i, k)
  {
    forall x, j | 0 <= x < |c.regions| && 0 <= j < |Regions(c, s)| && (j < i || k <= j) && Nested(c, x, Regions(c, s)[j])
      ensures mid[x] == cfg[x]
    {
      NestedSiblings(c, x, Regions(c, s)[j], Regions(c, s)[i]);
    }
    InitialFrame(c, next, mid, Regions(c, s)[i]);
  }

  // ---------------------------------------------------------------- on the way

  /** `mid` holds the pointers on arrival at the region that holds the second state of the way, and
      `w` those after entry at that state. */
  ghost predicate Arrived(c: Chart, cfg: Config, mid: Config, w: Config, after: Config, q: seq<nat>, history: bool, m: nat)
    requires Wf(c) && ValidConfig(c, cfg) && ValidConfig(c, mid) && ValidConfig(c, w) && Chain(c, q) && |q| > 1 && m < |Regions(c, q[0])|
  {
    && KeepsOthers(c, cfg, mid, q[0], 0, m)
    && InitialBetween(c, mid, q[0], 0, m)
    && (forall x :: 0 <= x < |c.regions| && !Nested(c, x, Regions(c, q[0])[m]) ==> w[x] == mid[x])
    && after == EntryRegions(c, w, q[0], m + 1, [], history, false).cfg
  }

  lemma SecondChoice(c: Chart, mid: Config, q: seq<nat>, m: nat, history: bool)
    requires Wf(c) && ValidConfig(c, mid) && Chain(c, q) && |q| > 1 && m < |Regions(c, q[0])| && Regions(c, q[0])[m] == RegionOf(c, q[1])
    ensures ValidConfig(c, mid[Regions(c, q[0])[m] := q[1]])
    ensures EntryRegion(c, mid, q[0], m, q[1..], history, false)
            == EntryState(c, mid[Regions(c, q[0])[m] := q[1]], q[1], q[1..], history)
  {
    assert Choice(c, mid, Regions(c, q[0])[m], q[1..], history) == q[1];
  }

  /** A chain has only its next state in a region of its first. */
  lemma OthersOff(c: Chart, q: seq<nat>, m: nat, j: nat)
    requires Wf(c) && Chain(c, q) && |q| > 1 && m < |Regions(c, q[0])| && j < |Regions(c, q[0])| && j != m
    requires Regions(c, q[0])[m] == RegionOf(c, q[1])
    ensures !Under(c, q[1], Regions(c, q[0])[j])
  {
    if Under(c, q[1], Regions(c, q[0])[j]) { SiblingsDisjoint(c, q[1], Regions(c, q[0])[j], Regions(c, q[0])[m]); }
  }

  lemma Arrive(c: Chart, cfg: Config, q: seq<nat>, history: bool, m: nat) returns (mid: Config)
    requires Wf(c) && ValidConfig(c, cfg) && Chain(c, q) && |q| > 1 && m < |Regions(c, q[0])| && Regions(c, q[0])[m] == RegionOf(c, q[1])
    ensures ValidConfig(c, mid) && ValidConfig(c, mid[Regions(c, q[0])[m] := q[1]])
    ensures var w := EntryState(c, mid[Regions(c, q[0])[m] := q[1]], q[1], q[1..], history);
            Arrived(c, cfg, mid, w.cfg, EntryState(c, cfg, q[0], q, history).cfg, q, history, m)
  {
    var s, q' := q[0], q[1..];
    var cfg' := SetCurrent(c, cfg, s);
    forall j | 0 <= j < m
      ensures !Under(c, q'[0], Regions(c, s)[j])
    {
      OthersOff(c, q, m, j);
    }
    mid := Passed(c, cfg', s, 0, m, q', history, false);
    SetCurrentKeeps(c, cfg, s, mid, m);
    SecondChoice(c, mid, q, m, history);
    EntryRegionFrame(c, mid, s, m, q', history, false);
    ChainSuffix(c, q, 1);
    ChainEntry(c, mid[Regions(c, s)[m] := q[1]], q', history);
    EntryStep(c, mid, s, m, q', history, false);
  }

  lemma SetCurrentKeeps(c: Chart, cfg: Config, s: nat, mid: Config, m: nat)
    requires Wf(c) && ValidConfig(c, cfg) && |mid| == |c.regions| && s < |c.states|
    requires KeepsOthers(c, SetCurrent(c, cfg, s), mid, s, 0, m)
    ensures KeepsOthers(c, cfg, mid, s, 0, m)
  {
    forall x, j | 0 <= x < |c.regions| && 0 <= j < |Regions(c, s)| && Nested(c, x, Regions(c, s)[j])
      ensures SetCurrent(c, cfg, s)[x] == cfg[x]
    {
      NestedOwner(c, x, s, j);
    }
  }

  /** A region of the first state of the way. */
  lemma FirstAside(c: Chart, cfg: Config, mid: Config, w: Config, after: Config, q: seq<nat>, history: bool, m: nat, j: nat)
    requires Wf(c) && ValidConfig(c, cfg) && ValidConfig(c, mid) && ValidConfig(c, w) && ValidConfig(c, after) && Chain(c, q) && |q| > 1
    requires m < |Regions(c, q[0])| && j < |Regions(c, q[0])| && j != m && Arrived(c, cfg, mid, w, after, q, history, m)
    ensures EnteredAside(c, cfg, after, Regions(c, q[0])[j], history, j < m)
  {
    var s := q[0];
    var r := Regions(c, s)[j];
    forall x | 0 <= x < |c.regions| && Nested(c, x, r)
      ensures w[x] == mid[x]
    {
      NestedSiblings(c, x, r, Regions(c, s)[m]);
    }
    if j < m {
      EarlierAside(c, mid, w, s, m, j, history);
    } else {
      LaterAside(c, cfg, w, s, m, j, history);
    }
  }

  lemma EarlierAside(c: Chart, mid: Config, w: Config, s: nat, m: nat, j: nat, history: bool)
    requires Wf(c) && ValidConfig(c, mid) && ValidConfig(c, w) && s < |c.states| && j < m < |Regions(c, s)|
    requires InitialIn(c, mid, Regions(c, s)[j]) && forall x :: 0 <= x < |c.regions| && Nested(c, x, Regions(c, s)[j]) ==> w[x] == mid[x]
    ensures InitialIn(c, EntryRegions(c, w, s, m + 1, [], history, false).cfg, Regions(c, s)[j])
  {
    InitialFrame(c, mid, w, Regions(c, s)[j]);
    EntryRegionsFrame(c, w, s, m + 1, [], history, false);
    InitialFrame(c, w, EntryRegions(c, w, s, m + 1, [], history, false).cfg, Regions(c, s)[j]);
  }

  lemma LaterAside(c: Chart, cfg: Config, w: Config, s: nat, m: nat, j: nat, history: bool)
    requires Wf(c) && |cfg| == |c.regions| && ValidConfig(c, w) && s < |c.states| && m < j < |Regions(c, s)|
    requires forall x :: 0 <= x < |c.regions| && Nested(c, x, Regions(c, s)[j]) ==> w[x] == cfg[x]
    ensures EnteredAside(c, cfg, EntryRegions(c, w, s, m + 1, [], history, false).cfg, Regions(c, s)[j], history, false)
  {
    if history {
      RegionsWithHistory(c, w, s, m + 1);
    } else {
      RegionsNoHistory(c, w, s, m + 1);
      assert RegionEntered(c, cfg, EntryRegions(c, w, s, m + 1, [], false, false).cfg, Regions(c, s)[j], false);
    }
  }

  /** What lies in a region of a later state of the way lies inside the region of the second state. */
  lemma DeeperInside(c: Chart, q: seq<nat>, k: nat, j: nat, x: nat)
    requires Wf(c) && Chain(c, q) && 0 < k < |q| && j < |Regions(c, q[k])| && x < |c.regions| && Nested(c, x, Regions(c, q[k])[j])
    ensures Nested(c, x, RegionOf(c, q[1])) && x != RegionOf(c, q[1])
  {
    var r := RegionOf(c, q[1]);
    ChainSuffix(c, q, 1);
    ChainUnder(c, q[1..], r);
    assert q[1..][k - 1] == q[k];
    NestedOwner(c, x, q[k], j);
    UnderTrans(c, Owner(c, x), q[k], r);
    UnderBelowOwner(c, Owner(c, x), r);
  }

  /** Entry along a way `q`: region `j` of its `k`-th state, which is not the region, number `m`, that
      holds the next one. */
  lemma {:induction false} WayAside(c: Chart, cfg: Config, q: seq<nat>, history: bool, k: nat, m: nat, j: nat)
    requires Wf(c) && ValidConfig(c, cfg) && Chain(c, q) && k + 1 < |q|
    requires m < |Regions(c, q[k])| && j < |Regions(c, q[k])| && j != m && Regions(c, q[k])[m] == RegionOf(c, q[k + 1])
    ensures EnteredAside(c, cfg, EntryState(c, cfg, q[0], q, history).cfg, Regions(c, q[k])[j], history, j < m)
    decreases k
  {
    var after := EntryState(c, cfg, q[0], q, history).cfg;
    if k == 0 {
      var mid := Arrive(c, cfg, q, history, m);
      var w := EntryState(c, mid[Regions(c, q[0])[m] := q[1]], q[1], q[1..], history);
      FirstAside(c, cfg, mid, w.cfg, after, q, history, m, j);
    } else {
      var l := RegionIndex(c, RegionOf(c, q[1]));
      var mid := Arrive(c, cfg, q, history, l);
      ChainSuffix(c, q, 1);
      assert q[1..][k - 1] == q[k] && q[1..][k] == q[k + 1];
      var a := mid[Regions(c, q[0])[l] := q[1]];
      WayAside(c, a, q[1..], history, k - 1, m, j);
      var w := EntryState(c, a, q[1], q[1..], history);
      DeeperAside(c, cfg, mid, w.cfg, after, q, history, l, k, j, j < m);
    }
  }

  /** A region of a later state of the way is not touched before entry at the second state, nor after it. */
  lemma DeeperAside(c: Chart, cfg: Config, mid: Config, w: Config, after: Config, q: seq<nat>, history: bool, l: nat, k: nat, j: nat, earlier: bool)
    requires Wf(c) && ValidConfig(c, cfg) && ValidConfig(c, mid) && ValidConfig(c, w) && |after| == |c.regions| && Chain(c, q) && |q| > 1
    requires l < |Regions(c, q[0])| && Regions(c, q[0])[l] == RegionOf(c, q[1]) && 0 < k < |q| && j < |Regions(c, q[k])|
    requires Arrived(c, cfg, mid, w, after, q, history, l)
    requires EnteredAside(c, mid[Regions(c, q[0])[l] := q[1]], w, Regions(c, q[k])[j], history, earlier)
    ensures EnteredAside(c, cfg, after, Regions(c, q[k])[j], history, earlier)
  {
    var r := Regions(c, q[k])[j];
    EntryRegionsFrame(c, w, q[0], l + 1, [], history, false);
    forall x | 0 <= x < |c.regions| && Nested(c, x, r)
      ensures mid[Regions(c, q[0])[l] := q[1]][x] == cfg[x] && w[x] == after[x]
    {
      DeeperInside(c, q, k, j, x);
    }
    AsideFrame(c, mid[Regions(c, q[0])[l] := q[1]], cfg, w, after, r, history, earlier);
  }

  /** Main result: beside the way to its target a firing enters initial states, except that with
      history the regions after the one that holds the way keep all their pointers. */
  lemma {:induction false} SideRegions(c: Chart, cfg: Config, t: Transition, k: nat, m: nat, j: nat)
    requires Wf(c) && ValidConfig(c, cfg) && t.source < |c.states| && t.target < |c.states|
    requires var q := PointsOf(c, t).enter;
             && k + 1 < |q| && q[k + 1] != 0
             && m < |Regions(c, q[k])| && j < |Regions(c, q[k])| && j != m && Regions(c, q[k])[m] == RegionOf(c, q[k + 1])
    ensures EnteredAside(c, cfg, Fire(c, cfg, t).cfg, Regions(c, PointsOf(c, t).enter[k])[j], t.history, j < m)
  {
    PointsShape(c, t);
    WayAside(c, cfg, PointsOf(c, t).enter, t.history, k, m, j);
  }
}
