/** The order in which states are visited: regions by priority, parents before their children on
    entry and after them on exit. */
module Order {
  import opened Charts
  import opened Traversal
  import opened Firing
  import opened DataSource
  import opened Balance
  import opened Selection

  /** `x` and `y` lie in two regions of one state, that of `x` first by priority. */
  ghost predicate SiblingBefore(c: Chart, x: nat, y: nat)
    requires Wf(c) && x < |c.states| && y < |c.states|
  {
    exists s, i, j :: 0 <= s < |c.states| && 0 <= i < j < |Regions(c, s)| && Under(c, x, Regions(c, s)[i]) && Under(c, y, Regions(c, s)[j])
  }

  /** Orders in which an ancestor comes first, comes last, or is not compared at all. */
  datatype Kind = Preorder | Postorder | Across

  ghost predicate Before(c: Chart, kind: Kind, x: nat, y: nat)
    requires Wf(c) && x < |c.states| && y < |c.states|
  {
    || SiblingBefore(c, x, y)
    || (kind == Preorder && Below(c, y, x) && x != y)
    || (kind == Postorder && Below(c, x, y) && x != y)
  }

  /** Any two states of `p` are in order. */
  ghost predicate InOrder(c: Chart, kind: Kind, p: seq<nat>)
    requires Wf(c)
  {
    StatesIn(c, p) && forall k, l :: 0 <= k < l < |p| ==> Before(c, kind, p[k], p[l])
  }

  /** `x` lies in the `j`-th region of `s`. */
  predicate Lies(c: Chart, x: nat, s: nat, j: nat)
    requires Wf(c) && x < |c.states| && s < |c.states|
  {
    j < |Regions(c, s)| && Under(c, x, Regions(c, s)[j])
  }

  /** `x` lies in a region of `s` from the `i`-th to before the `n`-th. */
  ghost predicate LiesIn(c: Chart, x: nat, s: nat, i: nat, n: nat)
    requires Wf(c) && x < |c.states| && s < |c.states|
  {
    exists j: nat :: i <= j < n && Lies(c, x, s, j)
  }

  ghost predicate Within(c: Chart, p: seq<nat>, s: nat, i: nat, n: nat)
    requires Wf(c) && s < |c.states|
  {
    StatesIn(c, p) && forall k :: 0 <= k < |p| ==> LiesIn(c, p[k], s, i, n)
  }

  lemma LiesAt(c: Chart, x: nat, s: nat, i: nat, n: nat) returns (j: nat)
    requires Wf(c) && x < |c.states| && s < |c.states| && LiesIn(c, x, s, i, n)
    ensures i <= j < n && Lies(c, x, s, j)
  {
    j :| i <= j < n && Lies(c, x, s, j);
  }

  lemma BelowWithin(c: Chart, p: seq<nat>, s: nat, i: nat, t: nat)
    requires Wf(c) && s < |c.states| && i < |Regions(c, s)| && 0 < t < |c.states| && RegionOf(c, t) == Regions(c, s)[i]
    requires StatesIn(c, p) && forall k :: 0 <= k < |p| ==> Below(c, p[k], t)
    ensures Within(c, p, s, i, i + 1)
  {
    forall k | 0 <= k < |p|
      ensures LiesIn(c, p[k], s, i, i + 1)
    {
      BelowUnder(c, p[k], t);
      assert Lies(c, p[k], s, i);
    }
  }

  /** One list in order after another, when every state of the first comes before every state of the second. */
  lemma OrderConcat(c: Chart, kind: Kind, a: seq<nat>, b: seq<nat>)
    requires Wf(c) && InOrder(c, kind, a) && InOrder(c, kind, b)
    requires forall k, l :: 0 <= k < |a| && 0 <= l < |b| ==> Before(c, kind, a[k], b[l])
    ensures InOrder(c, kind, a + b)
  {
    forall k, l | 0 <= k < l < |a + b|
      ensures (a + b)[k] < |c.states| && (a + b)[l] < |c.states| && Before(c, kind, (a + b)[k], (a + b)[l])
    {
      if l < |a| {
        assert (a + b)[k] == a[k] && (a + b)[l] == a[l];
      } else if k < |a| {
        assert (a + b)[k] == a[k] && (a + b)[l] == b[l - |a|];
      } else {
        assert (a + b)[k] == b[k - |a|] && (a + b)[l] == b[l - |a|];
      }
    }
  }

  lemma WithinConcat(c: Chart, s: nat, i: nat, n: nat, a: seq<nat>, b: seq<nat>)
    requires Wf(c) && s < |c.states| && i < n
    requires Within(c, a, s, i, i + 1) && Within(c, b, s, i + 1, n)
    ensures Within(c, a + b, s, i, n)
  {
    forall k | 0 <= k < |a + b|
      ensures (a + b)[k] < |c.states| && LiesIn(c, (a + b)[k], s, i, n)
    {
      if k < |a| {
        assert LiesIn(c, a[k], s, i, i + 1);
        LiesWider(c, a[k], s, i, i + 1, i, n);
      } else {
        assert LiesIn(c, b[k - |a|], s, i + 1, n);
        LiesWider(c, b[k - |a|], s, i + 1, n, i, n);
      }
    }
  }

  lemma LiesWider(c: Chart, x: nat, s: nat, i: nat, n: nat, i': nat, n': nat)
    requires Wf(c) && x < |c.states| && s < |c.states| && i' <= i && n <= n' && LiesIn(c, x, s, i, n)
    ensures LiesIn(c, x, s, i', n')
  {
    var j := LiesAt(c, x, s, i, n);
  }

  lemma AcrossRegions(c: Chart, x: nat, y: nat, s: nat, i: nat, n: nat)
    requires Wf(c) && x < |c.states| && y < |c.states| && s < |c.states| && LiesIn(c, x, s, i, i + 1) && LiesIn(c, y, s, i + 1, n)
    ensures SiblingBefore(c, x, y)
  {
    var h := LiesAt(c, x, s, i, i + 1);
    var j := LiesAt(c, y, s, i + 1, n);
    assert Under(c, x, Regions(c, s)[h]) && Under(c, y, Regions(c, s)[j]);
  }

  /** What is visited in one region comes before what is visited in the later ones. */
  lemma JoinRegions(c: Chart, kind: Kind, s: nat, i: nat, a: seq<nat>, b: seq<nat>)
    requires Wf(c) && s < |c.states| && i < |Regions(c, s)|
    requires InOrder(c, kind, a) && Within(c, a, s, i, i + 1) && InOrder(c, kind, b) && Within(c, b, s, i + 1, |Regions(c, s)|)
    ensures InOrder(c, kind, a + b) && Within(c, a + b, s, i, |Regions(c, s)|)
  {
    forall k, l | 0 <= k < |a| && 0 <= l < |b|
      ensures Before(c, kind, a[k], b[l])
    {
      AcrossRegions(c, a[k], b[l], s, i, |Regions(c, s)|);
    }
    OrderConcat(c, kind, a, b);
    WithinConcat(c, s, i, |Regions(c, s)|, a, b);
  }

  lemma WithinBelow(c: Chart, p: seq<nat>, s: nat, k: nat)
    requires Wf(c) && s < |c.states| && Within(c, p, s, 0, |Regions(c, s)|) && k < |p|
    ensures Below(c, p[k], s) && p[k] != s
  {
    var j := LiesAt(c, p[k], s, 0, |Regions(c, s)|);
    UnderBelowOwner(c, p[k], Regions(c, s)[j]);
  }

  /** A state before, or after, what is visited in its regions. */
  lemma JoinParent(c: Chart, s: nat, p: seq<nat>)
    requires Wf(c) && s < |c.states| && Within(c, p, s, 0, |Regions(c, s)|)
    ensures InOrder(c, Preorder, p) ==> InOrder(c, Preorder, [s] + p)
    ensures InOrder(c, Postorder, p) ==> InOrder(c, Postorder, p + [s])
  {
    forall k | 0 <= k < |p|
      ensures Before(c, Preorder, s, p[k]) && Before(c, Postorder, p[k], s)
    {
      WithinBelow(c, p, s, k);
    }
    if InOrder(c, Preorder, p) { OrderConcat(c, Preorder, [s], p); }
    if InOrder(c, Postorder, p) { OrderConcat(c, Postorder, p, [s]); }
  }

  // ---------------------------------------------------------------- entry and exit

  /** Entry visits parents before children and regions by priority. */
  lemma {:induction false} EntryOrder(c: Chart, cfg: Config, s: nat, q: seq<nat>, history: bool)
    requires Wf(c) && ValidConfig(c, cfg) && s < |c.states|
    ensures InOrder(c, Preorder, EntryState(c, cfg, s, q, history).trace)
    decreases |c.states| - s, 1, 0
  {
    var cfg', q', check := SetCurrent(c, cfg, s), Pop(q, s), CheckHistory(q, s, history);
    EntryRegionsOrder(c, cfg', s, 0, q', history, check);
    JoinParent(c, s, EntryRegions(c, cfg', s, 0, q', history, check).trace);
  }

  lemma {:induction false} EntryRegionsOrder(c: Chart, cfg: Config, s: nat, i: nat, q: seq<nat>, history: bool, check: bool)
    requires Wf(c) && ValidConfig(c, cfg) && s < |c.states| && i <= |Regions(c, s)|
    ensures var p := EntryRegions(c, cfg, s, i, q, history, check).trace;
            InOrder(c, Preorder, p) && Within(c, p, s, i, |Regions(c, s)|)
    decreases |c.states| - s, 0, |Regions(c, s)| - i
  {
    if i < |Regions(c, s)| {
      var r := Regions(c, s)[i];
      var t := Choice(c, cfg, r, q, history);
      var v := EntryRegion(c, cfg, s, i, q, history, check);
      EntryOrder(c, cfg[r := t], t, q, Continue(c, r, q, history, check));
      EntryTrace(c, cfg[r := t], t, q, Continue(c, r, q, history, check));
      BelowWithin(c, v.trace, s, i, t);
      EntryRegionsOrder(c, v.cfg, s, i + 1, v.queue, history, check);
      JoinRegions(c, Preorder, s, i, v.trace, EntryRegions(c, v.cfg, s, i + 1, v.queue, history, check).trace);
    }
  }

  /** Exit visits children before parents and regions by priority. */
  lemma {:induction false} ExitOrder(c: Chart, cfg: Config, s: nat)
    requires Wf(c) && ValidConfig(c, cfg) && s < |c.states|
    ensures InOrder(c, Postorder, ExitState(c, cfg, s))
    ensures forall k :: 0 <= k < |ExitState(c, cfg, s)| ==> Below(c, ExitState(c, cfg, s)[k], s)
    decreases |c.states| - s, 1, 0
  {
    ExitRegionsOrder(c, cfg, s, 0);
    JoinParent(c, s, ExitRegions(c, cfg, s, 0));
    forall k | 0 <= k < |ExitRegions(c, cfg, s, 0)|
      ensures Below(c, ExitRegions(c, cfg, s, 0)[k], s)
    {
      WithinBelow(c, ExitRegions(c, cfg, s, 0), s, k);
    }
  }

  lemma {:induction false} ExitRegionsOrder(c: Chart, cfg: Config, s: nat, i: nat)
    requires Wf(c) && ValidConfig(c, cfg) && s < |c.states| && i <= |Regions(c, s)|
    ensures InOrder(c, Postorder, ExitRegions(c, cfg, s, i)) && Within(c, ExitRegions(c, cfg, s, i), s, i, |Regions(c, s)|)
    decreases |c.states| - s, 0, |Regions(c, s)| - i
  {
    if i < |Regions(c, s)| {
      var r := Regions(c, s)[i];
      ChildOf(c, r, cfg[r]);
      ExitStep(c, cfg, s, i);
      ExitOrder(c, cfg, cfg[r]);
      BelowWithin(c, ExitState(c, cfg, cfg[r]), s, i, cfg[r]);
      ExitRegionsOrder(c, cfg, s, i + 1);
      JoinRegions(c, Postorder, s, i, ExitState(c, cfg, cfg[r]), ExitRegions(c, cfg, s, i + 1));
    }
  }

  lemma InOrderTail(c: Chart, kind: Kind, p: seq<nat>)
    requires Wf(c) && p != [] && InOrder(c, kind, p)
    ensures InOrder(c, kind, p[1..])
  {
    forall k, l | 0 <= k < l < |p[1..]|
      ensures Before(c, kind, p[1..][k], p[1..][l])
    {
      assert Before(c, kind, p[k + 1], p[l + 1]);
    }
  }

  /** Main result: every firing exits children before parents and enters parents before children, in
      both cases by the priority of their regions. */
  lemma {:induction false} FiringOrder(c: Chart, cfg: Config, t: Transition)
    requires Wf(c) && ValidConfig(c, cfg) && t.source < |c.states| && t.target < |c.states|
    ensures InOrder(c, Postorder, Left(c, cfg, t)) && InOrder(c, Preorder, Entered(c, cfg, t))
  {
    var p := PointsOf(c, t);
    ExitOrder(c, cfg, p.exit);
    ExitRegionsOrder(c, cfg, p.exit, 0);
    EntryOrder(c, cfg, p.enter[0], p.enter, t.history);
    InOrderTail(c, Preorder, EntryState(c, cfg, p.enter[0], p.enter, t.history).trace);
  }

  // ---------------------------------------------------------------- selection

  function Sources(c: Chart, ts: seq<nat>): (p: seq<nat>)
    requires Wf(c) && forall k :: 0 <= k < |ts| ==> ts[k] < |c.transitions|
    ensures |p| == |ts| && forall k :: 0 <= k < |p| ==> p[k] == c.transitions[ts[k]].source < |c.states|
  {
    seq(|ts|, k requires 0 <= k < |ts| => c.transitions[ts[k]].source)
  }

  /** Main result: transitions are collected, and so fired, by the priority of the regions that hold
      their sources. */
  lemma {:induction false} CollectOrder(c: Chart, cfg: Config, enabled: set<nat>, s: nat)
    requires Wf(c) && ValidConfig(c, cfg) && s < |c.states|
    ensures var p := Sources(c, Collect(c, cfg, enabled, s));
            InOrder(c, Across, p) && forall k :: 0 <= k < |p| ==> Below(c, p[k], s)
    decreases |c.states| - s, 1, 0
  {
    if Choose(c, enabled, s).None? {
      CollectRegionsOrder(c, cfg, enabled, s, 0);
      var p := Sources(c, CollectRegions(c, cfg, enabled, s, 0));
      assert p == Sources(c, Collect(c, cfg, enabled, s));
      forall k | 0 <= k < |p|
        ensures Below(c, p[k], s)
      {
        WithinBelow(c, p, s, k);
      }
    }
  }

  lemma {:induction false} CollectRegionsOrder(c: Chart, cfg: Config, enabled: set<nat>, s: nat, i: nat)
    requires Wf(c) && ValidConfig(c, cfg) && s < |c.states| && i <= |Regions(c, s)|
    ensures var p := Sources(c, CollectRegions(c, cfg, enabled, s, i));
            InOrder(c, Across, p) && Within(c, p, s, i, |Regions(c, s)|)
    decreases |c.states| - s, 0, |Regions(c, s)| - i
  {
    if i < |Regions(c, s)| {
      var r := Regions(c, s)[i];
      ChildOf(c, r, cfg[r]);
      CollectOrder(c, cfg, enabled, cfg[r]);
      CollectRegionsOrder(c, cfg, enabled, s, i + 1);
      JoinCollected(c, cfg, enabled, s, i);
    }
  }

  lemma JoinCollected(c: Chart, cfg: Config, enabled: set<nat>, s: nat, i: nat)
    requires Wf(c) && ValidConfig(c, cfg) && s < |c.states| && i < |Regions(c, s)| && s < cfg[Regions(c, s)[i]] < |c.states|
    requires RegionOf(c, cfg[Regions(c, s)[i]]) == Regions(c, s)[i]
    requires var p := Sources(c, Collect(c, cfg, enabled, cfg[Regions(c, s)[i]]));
             InOrder(c, Across, p) && forall k :: 0 <= k < |p| ==> Below(c, p[k], cfg[Regions(c, s)[i]])
    requires var p := Sources(c, CollectRegions(c, cfg, enabled, s, i + 1)); InOrder(c, Across, p) && Within(c, p, s, i + 1, |Regions(c, s)|)
    ensures var p := Sources(c, CollectRegions(c, cfg, enabled, s, i)); InOrder(c, Across, p) && Within(c, p, s, i, |Regions(c, s)|)
  {
    var t := cfg[Regions(c, s)[i]];
    var a, b := Sources(c, Collect(c, cfg, enabled, t)), Sources(c, CollectRegions(c, cfg, enabled, s, i + 1));
    BelowWithin(c, a, s, i, t);
    JoinRegions(c, Across, s, i, a, b);
    SourcesJoin(c, cfg, enabled, s, i);
  }

  lemma SourcesJoin(c: Chart, cfg: Config, enabled: set<nat>, s: nat, i: nat)
    requires Wf(c) && ValidConfig(c, cfg) && s < |c.states| && i < |Regions(c, s)| && s < cfg[Regions(c, s)[i]] < |c.states|
    ensures Sources(c, CollectRegions(c, cfg, enabled, s, i)) ==
            Sources(c, Collect(c, cfg, enabled, cfg[Regions(c, s)[i]])) + Sources(c, CollectRegions(c, cfg, enabled, s, i + 1))
  {
    var a, b := Collect(c, cfg, enabled, cfg[Regions(c, s)[i]]), CollectRegions(c, cfg, enabled, s, i + 1);
    assert CollectRegions(c, cfg, enabled, s, i) == a + b;
  }

  // ---------------------------------------------------------------- the order is strict

  /** Two states are in order one way only, so that a set of states is visited in one order. */
  lemma BeforeAsymmetric(c: Chart, kind: Kind, x: nat, y: nat)
    requires Wf(c) && x < |c.states| && y < |c.states| && Before(c, kind, x, y)
    ensures !Before(c, kind, y, x)
  {
    if SiblingBefore(c, x, y) {
      SiblingsUnrelated(c, x, y);
      if SiblingBefore(c, y, x) { SiblingAsymmetric(c, x, y); }
    } else {
      if SiblingBefore(c, y, x) { SiblingsUnrelated(c, y, x); }
    }
  }

  lemma SiblingsUnrelated(c: Chart, x: nat, y: nat)
    requires Wf(c) && x < |c.states| && y < |c.states| && SiblingBefore(c, x, y)
    ensures !Below(c, x, y) && !Below(c, y, x)
  {
    var s, i, j :| 0 <= s < |c.states| && 0 <= i < j < |Regions(c, s)| && Under(c, x, Regions(c, s)[i]) && Under(c, y, Regions(c, s)[j]);
    var r, r' := Regions(c, s)[i], Regions(c, s)[j];
    if Below(c, x, y) { UnderTrans(c, x, y, r'); SiblingsDisjoint(c, x, r, r'); }
    if Below(c, y, x) { UnderTrans(c, y, x, r); SiblingsDisjoint(c, y, r, r'); }
  }

  lemma SiblingAsymmetric(c: Chart, x: nat, y: nat)
    requires Wf(c) && x < |c.states| && y < |c.states| && SiblingBefore(c, x, y)
    ensures !SiblingBefore(c, y, x)
  {
    if SiblingBefore(c, y, x) {
      var s, i, j :| 0 <= s < |c.states| && 0 <= i < j < |Regions(c, s)| && Under(c, x, Regions(c, s)[i]) && Under(c, y, Regions(c, s)[j]);
      var s', i', j' :| 0 <= s' < |c.states| && 0 <= i' < j' < |Regions(c, s')| && Under(c, y, Regions(c, s')[i']) && Under(c, x, Regions(c, s')[j']);
      SameParting(c, x, y, s, Regions(c, s)[i], Regions(c, s)[j], s', Regions(c, s')[j'], Regions(c, s')[i']);
      SiblingsDisjoint(c, x, Regions(c, s)[i], Regions(c, s)[j']);
      SiblingsDisjoint(c, y, Regions(c, s)[j], Regions(c, s)[i']);
      assert false;
    }
  }

  /** Two states part in the regions of one state only. */
  lemma SameParting(c: Chart, x: nat, y: nat, s: nat, r: nat, u: nat, s': nat, r': nat, u': nat)
    requires Wf(c) && x < |c.states| && y < |c.states| && s < |c.states| && s' < |c.states|
    requires r < |c.regions| && u < |c.regions| && r' < |c.regions| && u' < |c.regions|
    requires Owner(c, r) == Owner(c, u) == s && r != u && Under(c, x, r) && Under(c, y, u)
    requires Owner(c, r') == Owner(c, u') == s' && r' != u' && Under(c, x, r') && Under(c, y, u')
    ensures s == s'
  {
    UnderBelowOwner(c, x, r);
    UnderBelowOwner(c, y, u);
    UnderBelowOwner(c, x, r');
    UnderBelowOwner(c, y, u');
    AncestorsLinear(c, x, s, s');
    if s != s' {
      if Below(c, s', s) { PartsOnce(c, x, y, s, r, u, s'); } else { PartsOnce(c, x, y, s', r', u', s); }
    }
  }

  /** Below one of two sibling regions, no state has both `x` and `y` below it. */
  lemma PartsOnce(c: Chart, x: nat, y: nat, s: nat, r: nat, u: nat, s': nat)
    requires Wf(c) && x < |c.states| && y < |c.states| && s < |c.states| && s' < |c.states| && r < |c.regions| && u < |c.regions|
    requires Owner(c, r) == Owner(c, u) == s && r != u && Under(c, x, r) && Under(c, y, u)
    requires Below(c, s', s) && s' != s
    ensures !(Below(c, x, s') && Below(c, y, s'))
  {
    if Below(c, x, s') && Below(c, y, s') {
      var z := BranchOf(c, s', s);
      UnderTrans(c, x, s', z);
      UnderTrans(c, y, s', z);
      SiblingsDisjoint(c, x, r, z);
      SiblingsDisjoint(c, y, u, z);
    }
  }
}
