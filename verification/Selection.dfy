/** Which transitions one evaluation of the chart collects. */
module Selection {
  import opened Apex
  import opened Charts
  import opened Firing

  /** The first transition, by priority, whose event and guard the data source reports as true. */
  function FirstEnabled(outs: seq<nat>, enabled: set<nat>): (t: Option<nat>)
    ensures t.Some? ==> exists k :: 0 <= k < |outs| && outs[k] == t.value && First(outs, enabled, k)
    ensures t.None? ==> forall k :: 0 <= k < |outs| ==> outs[k] !in enabled
  {
    if outs == [] then None
    else if outs[0] in enabled then Some(outs[0])
    else
      var t := FirstEnabled(outs[1..], enabled);
      assert t.Some? ==> exists k :: 0 <= k < |outs| && outs[k] == t.value && First(outs, enabled, k) by {
        if t.Some? { FirstLater(outs, enabled, t.value); }
      }
      t
  }

  /** The `k`-th transition is enabled, and none before it is. */
  predicate First(outs: seq<nat>, enabled: set<nat>, k: nat)
    requires k < |outs|
  {
    outs[k] in enabled && forall j :: 0 <= j < k ==> outs[j] !in enabled
  }

  lemma FirstLater(outs: seq<nat>, enabled: set<nat>, t: nat)
    requires outs != [] && outs[0] !in enabled
    requires exists k :: 0 <= k < |outs[1..]| && outs[1..][k] == t && First(outs[1..], enabled, k)
    ensures exists k :: 0 <= k < |outs| && outs[k] == t && First(outs, enabled, k)
  {
    var k :| 0 <= k < |outs[1..]| && outs[1..][k] == t && First(outs[1..], enabled, k);
    forall j | 0 <= j < k + 1
      ensures outs[j] !in enabled
    {
      if j > 0 { assert outs[j] == outs[1..][j - 1]; }
    }
    assert outs[k + 1] == t && First(outs, enabled, k + 1);
  }

  function Choose(c: Chart, enabled: set<nat>, s: nat): (t: Option<nat>)
    requires Wf(c) && s < |c.states|
    ensures t.Some? ==> t.value < |c.transitions| && c.transitions[t.value].source == s && t.value in enabled
  {
    assert WfState(c, s);
    FirstEnabled(c.states[s].outs, enabled)
  }

  ghost function Collect(c: Chart, cfg: Config, enabled: set<nat>, s: nat): (ts: seq<nat>)
    requires Wf(c) && ValidConfig(c, cfg) && s < |c.states|
    ensures forall k :: 0 <= k < |ts| ==> ts[k] < |c.transitions|
    decreases |c.states| - s, 1, 0
  {
    match Choose(c, enabled, s)
    case Some(t) => [t]
    case None => CollectRegions(c, cfg, enabled, s, 0)
  }

  ghost function CollectRegions(c: Chart, cfg: Config, enabled: set<nat>, s: nat, i: nat): (ts: seq<nat>)
    requires Wf(c) && ValidConfig(c, cfg) && s < |c.states| && i <= |Regions(c, s)|
    ensures forall k :: 0 <= k < |ts| ==> ts[k] < |c.transitions|
    decreases |c.states| - s, 0, |Regions(c, s)| - i
  {
    if i == |Regions(c, s)| then [] else
      ChildOf(c, Regions(c, s)[i], cfg[Regions(c, s)[i]]);
      Collect(c, cfg, enabled, cfg[Regions(c, s)[i]]) + CollectRegions(c, cfg, enabled, s, i + 1)
  }

  /** `t` is the choice of its source, which is active below `s`, and no active state from `s`
      down to the source, the source excepted, has a choice. */
  ghost predicate Chosen(c: Chart, cfg: Config, enabled: set<nat>, s: nat, t: nat)
    requires Wf(c) && ValidConfig(c, cfg) && t < |c.transitions|
  {
    var x := c.transitions[t].source;
    && Act(c, cfg, x, s)
    && Choose(c, enabled, x) == Some(t)
    && forall a :: 0 <= a < |c.states| && Act(c, cfg, a, s) && Below(c, x, a) && a != x ==> Choose(c, enabled, a).None?
  }

  lemma {:induction false} CollectChosen(c: Chart, cfg: Config, enabled: set<nat>, s: nat, t: nat)
    requires Wf(c) && ValidConfig(c, cfg) && s < |c.states| && t < |c.transitions|
    ensures t in Collect(c, cfg, enabled, s) <==> Chosen(c, cfg, enabled, s, t)
    decreases |c.states| - s, 1, 0
  {
    if Choose(c, enabled, s).None? {
      CollectRegionsChosen(c, cfg, enabled, s, 0, t);
      ChosenSplit(c, cfg, enabled, s, t);
    } else {
      ChosenHere(c, cfg, enabled, s, t);
    }
  }

  lemma ChosenHere(c: Chart, cfg: Config, enabled: set<nat>, s: nat, t: nat)
    requires Wf(c) && ValidConfig(c, cfg) && s < |c.states| && t < |c.transitions|
    requires Choose(c, enabled, s).Some?
    ensures Chosen(c, cfg, enabled, s, t) <==> Choose(c, enabled, s) == Some(t)
  {
    var x := c.transitions[t].source;
    if Act(c, cfg, x, s) && x != s {
      ActBelow(c, cfg, x, s);
      assert Act(c, cfg, s, s);
    }
    if Choose(c, enabled, s) == Some(t) {
      forall a | 0 <= a < |c.states| && Act(c, cfg, a, s) && Below(c, x, a)
        ensures a == x
      {
      }
    }
  }

  lemma {:induction false} CollectRegionsChosen(c: Chart, cfg: Config, enabled: set<nat>, s: nat, i: nat, t: nat)
    requires Wf(c) && ValidConfig(c, cfg) && s < |c.states| && i <= |Regions(c, s)| && t < |c.transitions|
    ensures t in CollectRegions(c, cfg, enabled, s, i) <==>
            exists j :: i <= j < |Regions(c, s)| && Chosen(c, cfg, enabled, cfg[Regions(c, s)[j]], t)
    decreases |c.states| - s, 0, |Regions(c, s)| - i
  {
    if i < |Regions(c, s)| {
      ChildOf(c, Regions(c, s)[i], cfg[Regions(c, s)[i]]);
      CollectChosen(c, cfg, enabled, cfg[Regions(c, s)[i]], t);
      CollectRegionsChosen(c, cfg, enabled, s, i + 1, t);
    }
  }

  lemma ChosenSplit(c: Chart, cfg: Config, enabled: set<nat>, s: nat, t: nat)
    requires Wf(c) && ValidConfig(c, cfg) && s < |c.states| && t < |c.transitions|
    requires Choose(c, enabled, s).None?
    ensures Chosen(c, cfg, enabled, s, t) <==>
            exists j :: 0 <= j < |Regions(c, s)| && Chosen(c, cfg, enabled, cfg[Regions(c, s)[j]], t)
  {
    var x := c.transitions[t].source;
    if Chosen(c, cfg, enabled, s, t) {
      ActBelow(c, cfg, x, s);
      var r := BranchOf(c, x, s);
      var j := RegionIndex(c, r);
      ChosenDown(c, cfg, enabled, s, r, t);
    }
    if j :| 0 <= j < |Regions(c, s)| && Chosen(c, cfg, enabled, cfg[Regions(c, s)[j]], t) {
      ChosenUp(c, cfg, enabled, s, Regions(c, s)[j], t);
    }
  }

  lemma ChosenDown(c: Chart, cfg: Config, enabled: set<nat>, s: nat, r: nat, t: nat)
    requires Wf(c) && ValidConfig(c, cfg) && r < |c.regions| && Owner(c, r) == s && t < |c.transitions|
    requires Chosen(c, cfg, enabled, s, t) && Under(c, c.transitions[t].source, r)
    ensures Chosen(c, cfg, enabled, cfg[r], t)
  {
    var x := c.transitions[t].source;
    ActInRegion(c, cfg, x, r);
    forall a | 0 <= a < |c.states| && Act(c, cfg, a, cfg[r]) && Below(c, x, a) && a != x
      ensures Choose(c, enabled, a).None?
    {
      ActInRegion(c, cfg, a, r);
    }
  }

  lemma ChosenUp(c: Chart, cfg: Config, enabled: set<nat>, s: nat, r: nat, t: nat)
    requires Wf(c) && ValidConfig(c, cfg) && r < |c.regions| && Owner(c, r) == s && t < |c.transitions|
    requires Choose(c, enabled, s).None? && Chosen(c, cfg, enabled, cfg[r], t)
    ensures Chosen(c, cfg, enabled, s, t)
  {
    var x := c.transitions[t].source;
    ActInRegion(c, cfg, x, r);
    forall a | 0 <= a < |c.states| && Act(c, cfg, a, s) && Below(c, x, a) && a != x
      ensures Choose(c, enabled, a).None?
    {
      if a != s {
        ActBelow(c, cfg, a, s);
        var r' := BranchOf(c, a, s);
        UnderTrans(c, x, a, r');
        SiblingsDisjoint(c, x, r, r');
        ActInRegion(c, cfg, a, r);
      }
    }
  }

  // ---------------------------------------------------------------- what is selected

  /** No transition from `s` is enabled. */
  ghost predicate Quiet(c: Chart, enabled: set<nat>, s: nat)
    requires s < |c.states|
  {
    forall k :: 0 <= k < |c.states[s].outs| ==> c.states[s].outs[k] !in enabled
  }

  /** `t` is enabled, comes first by priority among the enabled transitions from its source, which is
      active below `s`, and no transition is enabled from an active state between `s` and the source. */
  ghost predicate Selected(c: Chart, cfg: Config, enabled: set<nat>, s: nat, t: nat)
    requires Wf(c) && ValidConfig(c, cfg) && t < |c.transitions|
  {
    var x := c.transitions[t].source;
    && Act(c, cfg, x, s)
    && (exists k :: 0 <= k < |c.states[x].outs| && c.states[x].outs[k] == t && First(c.states[x].outs, enabled, k))
    && forall a :: 0 <= a < |c.states| && Act(c, cfg, a, s) && Below(c, x, a) && a != x ==> Quiet(c, enabled, a)
  }

  /** The first enabled transition is unique. */
  lemma ChooseExactly(c: Chart, enabled: set<nat>, s: nat, t: nat)
    requires Wf(c) && s < |c.states|
    ensures Choose(c, enabled, s) == Some(t) <==>
            exists k :: 0 <= k < |c.states[s].outs| && c.states[s].outs[k] == t && First(c.states[s].outs, enabled, k)
    ensures Choose(c, enabled, s).None? <==> Quiet(c, enabled, s)
  {
    var outs := c.states[s].outs;
    if k :| 0 <= k < |outs| && outs[k] == t && First(outs, enabled, k) {
      var u := FirstEnabled(outs, enabled);
      assert u.Some?;
      var l :| 0 <= l < |outs| && outs[l] == u.value && First(outs, enabled, l);
    }
  }

  lemma SelectedChosen(c: Chart, cfg: Config, enabled: set<nat>, s: nat, t: nat)
    requires Wf(c) && ValidConfig(c, cfg) && t < |c.transitions|
    ensures Selected(c, cfg, enabled, s, t) <==> Chosen(c, cfg, enabled, s, t)
  {
    ChooseExactly(c, enabled, c.transitions[t].source, t);
    forall a | 0 <= a < |c.states|
      ensures Choose(c, enabled, a).None? <==> Quiet(c, enabled, a)
    {
      ChooseExactly(c, enabled, a, t);
    }
  }

  /** Main result: selection takes the outermost active states that have an enabled transition, the
      first of these by priority, and nothing else. */
  lemma {:induction false} CollectExact(c: Chart, cfg: Config, enabled: set<nat>, s: nat, t: nat)
    requires Wf(c) && ValidConfig(c, cfg) && s < |c.states| && t < |c.transitions|
    ensures t in Collect(c, cfg, enabled, s) <==> Selected(c, cfg, enabled, s, t)
  {
    CollectChosen(c, cfg, enabled, s, t);
    SelectedChosen(c, cfg, enabled, s, t);
  }

  ghost predicate Unrelated(c: Chart, x: nat, y: nat)
    requires Wf(c) && x < |c.states| && y < |c.states|
  {
    !Below(c, x, y) && !Below(c, y, x)
  }

  ghost predicate SourcesUnrelated(c: Chart, ts: seq<nat>)
    requires Wf(c) && forall k :: 0 <= k < |ts| ==> ts[k] < |c.transitions|
  {
    forall i, j :: 0 <= i < j < |ts| ==> Unrelated(c, c.transitions[ts[i]].source, c.transitions[ts[j]].source)
  }

  /** No source of a collected transition is an ancestor of another, and none occurs twice. */
  lemma {:induction false} CollectUnrelated(c: Chart, cfg: Config, enabled: set<nat>, s: nat)
    requires Wf(c) && ValidConfig(c, cfg) && s < |c.states|
    ensures SourcesUnrelated(c, Collect(c, cfg, enabled, s))
    decreases |c.states| - s, 1, 0
  {
    if Choose(c, enabled, s).None? { CollectRegionsUnrelated(c, cfg, enabled, s, 0); }
  }

  lemma {:induction false} CollectRegionsUnrelated(c: Chart, cfg: Config, enabled: set<nat>, s: nat, i: nat)
    requires Wf(c) && ValidConfig(c, cfg) && s < |c.states| && i <= |Regions(c, s)|
    ensures SourcesUnrelated(c, CollectRegions(c, cfg, enabled, s, i))
    decreases |c.states| - s, 0, |Regions(c, s)| - i
  {
    if i < |Regions(c, s)| {
      var r := Regions(c, s)[i];
      ChildOf(c, r, cfg[r]);
      CollectUnrelated(c, cfg, enabled, cfg[r]);
      CollectRegionsUnrelated(c, cfg, enabled, s, i + 1);
      var a, b := Collect(c, cfg, enabled, cfg[r]), CollectRegions(c, cfg, enabled, s, i + 1);
      forall k, l | 0 <= k < |a| && 0 <= l < |b|
        ensures Unrelated(c, c.transitions[a[k]].source, c.transitions[b[l]].source)
      {
        CollectChosen(c, cfg, enabled, cfg[r], a[k]);
        CollectRegionsChosen(c, cfg, enabled, s, i + 1, b[l]);
        var j :| i + 1 <= j < |Regions(c, s)| && Chosen(c, cfg, enabled, cfg[Regions(c, s)[j]], b[l]);
        SiblingSourcesUnrelated(c, cfg, s, i, j, c.transitions[a[k]].source, c.transitions[b[l]].source);
      }
    }
  }

  lemma SiblingSourcesUnrelated(c: Chart, cfg: Config, s: nat, i: nat, j: nat, x: nat, y: nat)
    requires Wf(c) && ValidConfig(c, cfg) && s < |c.states| && i < j < |Regions(c, s)| && x < |c.states| && y < |c.states|
    requires Act(c, cfg, x, cfg[Regions(c, s)[i]]) && Act(c, cfg, y, cfg[Regions(c, s)[j]])
    ensures Unrelated(c, x, y)
  {
    var r, r' := Regions(c, s)[i], Regions(c, s)[j];
    ActInRegion(c, cfg, x, r);
    ActInRegion(c, cfg, y, r');
    if Below(c, x, y) { UnderTrans(c, x, y, r'); SiblingsDisjoint(c, x, r, r'); }
    if Below(c, y, x) { UnderTrans(c, y, x, r); SiblingsDisjoint(c, y, r, r'); }
  }
}
