/** The static part of a hierarchical state machine: states, regions, transitions, and the
    tree they form.  States and regions are numbered in creation order.  A state is created
    with a pointer to its region and a region with a pointer to its owning state, so a parent
    always has a smaller number than its children. */
module Charts {
  import opened Apex

  /** `regions` and `outs` list the ordered sets in priority order; `sourced` says whether the state
      has a data source. */
  datatype StateNode = StateNode(region: Option<nat>, regions: seq<nat>, outs: seq<nat>, sourced: bool)

  datatype RegionNode = RegionNode(owner: nat, children: set<nat>, init: nat, deep: bool)

  datatype Transition = Transition(source: nat, target: nat, history: bool)

  datatype Chart = Chart(states: seq<StateNode>, regions: seq<RegionNode>, transitions: seq<Transition>)

  /** The `m_currentState` pointer of every region. */
  type Config = seq<nat>

  ghost predicate WfState(c: Chart, s: nat)
    requires s < |c.states|
  {
    && (s == 0 <==> c.states[s].region.None?)
    && (c.states[s].region.Some? ==>
          && c.states[s].region.value < |c.regions|
          && c.regions[c.states[s].region.value].owner < s
          && s in c.regions[c.states[s].region.value].children)
    && (forall i :: 0 <= i < |c.states[s].regions| ==>
          c.states[s].regions[i] < |c.regions| && c.regions[c.states[s].regions[i]].owner == s)
    && (forall i, j :: 0 <= i < j < |c.states[s].regions| ==> c.states[s].regions[i] != c.states[s].regions[j])
    && (forall i :: 0 <= i < |c.states[s].outs| ==>
          c.states[s].outs[i] < |c.transitions| && c.transitions[c.states[s].outs[i]].source == s)
  }

  ghost predicate WfRegion(c: Chart, r: nat)
    requires r < |c.regions|
  {
    && c.regions[r].owner < |c.states|
    && r in c.states[c.regions[r].owner].regions
    && c.regions[r].init in c.regions[r].children
    && (forall s :: s in c.regions[r].children ==> s < |c.states| && c.states[s].region == Some(r))
  }

  ghost predicate Wf(c: Chart) {
    && 0 < |c.states|
    && (forall s :: 0 <= s < |c.states| ==> WfState(c, s))
    && (forall r :: 0 <= r < |c.regions| ==> WfRegion(c, r))
    && (forall t :: 0 <= t < |c.transitions| ==>
          c.transitions[t].source < |c.states| && c.transitions[t].target < |c.states|)
  }

  ghost predicate ValidConfig(c: Chart, cfg: Config) {
    |cfg| == |c.regions| && forall r :: 0 <= r < |cfg| ==> cfg[r] in c.regions[r].children
  }

  function RegionOf(c: Chart, s: nat): (r: nat)
    requires Wf(c) && 0 < s < |c.states|
    ensures r < |c.regions| && s in c.regions[r].children && c.regions[r].owner < s
  {
    assert WfState(c, s);
    c.states[s].region.value
  }

  function Owner(c: Chart, r: nat): (s: nat)
    requires Wf(c) && r < |c.regions|
    ensures s < |c.states|
  {
    assert WfRegion(c, r);
    c.regions[r].owner
  }

  function Parent(c: Chart, s: nat): (p: nat)
    requires Wf(c) && 0 < s < |c.states|
    ensures p < s && p == Owner(c, RegionOf(c, s))
  {
    Owner(c, RegionOf(c, s))
  }

  function Regions(c: Chart, s: nat): (rs: seq<nat>)
    requires Wf(c) && s < |c.states|
    ensures forall i :: 0 <= i < |rs| ==> rs[i] < |c.regions| && Owner(c, rs[i]) == s
    ensures forall i, j :: 0 <= i < j < |rs| ==> rs[i] != rs[j]
  {
    assert WfState(c, s);
    c.states[s].regions
  }

  /** A child of `r` is a state whose region is `r`, and conversely. */
  lemma ChildOf(c: Chart, r: nat, s: nat)
    requires Wf(c) && r < |c.regions|
    ensures s in c.regions[r].children <==> 0 < s < |c.states| && RegionOf(c, s) == r
  {
    assert WfRegion(c, r);
    if s in c.regions[r].children {
      assert WfState(c, s);
    }
  }

  /** Every region hangs under its owner. */
  lemma RegionIndex(c: Chart, r: nat) returns (j: nat)
    requires Wf(c) && r < |c.regions|
    ensures j < |Regions(c, Owner(c, r))| && Regions(c, Owner(c, r))[j] == r
  {
    assert WfRegion(c, r);
    j :| 0 <= j < |c.states[Owner(c, r)].regions| && c.states[Owner(c, r)].regions[j] == r;
  }

  // ---------------------------------------------------------------- ancestry

  /** `x` is `s` or lies below it. */
  predicate Below(c: Chart, x: nat, s: nat)
    requires Wf(c) && x < |c.states|
    decreases x
  {
    x == s || (x > s && Below(c, Parent(c, x), s))
  }

  /** State `x` lies inside region `r`. */
  predicate Under(c: Chart, x: nat, r: nat)
    requires Wf(c) && x < |c.states| && r < |c.regions|
    decreases x
  {
    x > Owner(c, r) && (RegionOf(c, x) == r || Under(c, Parent(c, x), r))
  }

  /** Region `x` is `r` or is nested inside it. */
  predicate Nested(c: Chart, x: nat, r: nat)
    requires Wf(c) && x < |c.regions| && r < |c.regions|
  {
    x == r || Under(c, Owner(c, x), r)
  }

  lemma {:induction false} BelowTrans(c: Chart, x: nat, y: nat, z: nat)
    requires Wf(c) && x < |c.states| && y < |c.states|
    requires Below(c, x, y) && Below(c, y, z)
    ensures Below(c, x, z)
    decreases x
  {
    if x != y {
      BelowTrans(c, Parent(c, x), y, z);
    }
  }

  lemma {:induction false} RootAboveAll(c: Chart, x: nat)
    requires Wf(c) && x < |c.states|
    ensures Below(c, x, 0)
  {
    if x != 0 {
      RootAboveAll(c, Parent(c, x));
    }
  }

  /** Ancestors of one state are comparable. */
  lemma {:induction false} AncestorsLinear(c: Chart, x: nat, a: nat, b: nat)
    requires Wf(c) && x < |c.states| && a < |c.states| && b < |c.states|
    requires Below(c, x, a) && Below(c, x, b)
    ensures Below(c, a, b) || Below(c, b, a)
    decreases x
  {
    if x != a && x != b {
      AncestorsLinear(c, Parent(c, x), a, b);
    }
  }

  /** A state inside `r` lies below a child of `r`, and conversely. */
  lemma {:induction false} BelowUnder(c: Chart, x: nat, s: nat)
    requires Wf(c) && x < |c.states| && 0 < s < |c.states|
    requires Below(c, x, s)
    ensures Under(c, x, RegionOf(c, s))
    decreases x
  {
    if x != s {
      BelowUnder(c, Parent(c, x), s);
    }
  }

  /** The ancestor through which `x` lies inside `r`. */
  lemma {:induction false} UnderVia(c: Chart, x: nat, r: nat) returns (y: nat)
    requires Wf(c) && x < |c.states| && r < |c.regions| && Under(c, x, r)
    ensures 0 < y < |c.states| && RegionOf(c, y) == r && Below(c, x, y)
    decreases x
  {
    if RegionOf(c, x) == r {
      y := x;
    } else {
      y := UnderVia(c, Parent(c, x), r);
    }
  }

  lemma {:induction false} UnderBelowOwner(c: Chart, x: nat, r: nat)
    requires Wf(c) && x < |c.states| && r < |c.regions| && Under(c, x, r)
    ensures Below(c, x, Owner(c, r)) && x != Owner(c, r)
    decreases x
  {
    if RegionOf(c, x) != r {
      UnderBelowOwner(c, Parent(c, x), r);
    }
  }

  /** Sibling regions are disjoint. */
  lemma {:induction false} SiblingsDisjoint(c: Chart, x: nat, r: nat, r': nat)
    requires Wf(c) && x < |c.states| && r < |c.regions| && r' < |c.regions|
    requires Owner(c, r) == Owner(c, r') && Under(c, x, r) && Under(c, x, r')
    ensures r == r'
    decreases x
  {
    if RegionOf(c, x) == r {
      if r' != r {
        UnderBelowOwner(c, Parent(c, x), r');
        assert false;
      }
    } else if RegionOf(c, x) == r' {
      UnderBelowOwner(c, Parent(c, x), r);
      assert false;
    } else {
      SiblingsDisjoint(c, Parent(c, x), r, r');
    }
  }

  /** A region nested in `r` does not have its owner's owner region outside `r`. */
  lemma UnderTrans(c: Chart, x: nat, y: nat, r: nat)
    requires Wf(c) && x < |c.states| && y < |c.states| && r < |c.regions|
    requires Below(c, x, y) && Under(c, y, r)
    ensures Under(c, x, r)
  {
    var z := UnderVia(c, y, r);
    BelowTrans(c, x, y, z);
    BelowUnder(c, x, z);
  }

  // ---------------------------------------------------------------- active states

  /** `x` is reached from `s` along current-state pointers. */
  predicate Act(c: Chart, cfg: Config, x: nat, s: nat)
    requires Wf(c) && |cfg| == |c.regions| && x < |c.states|
    decreases x
  {
    x == s || (x > s && cfg[RegionOf(c, x)] == x && Act(c, cfg, Parent(c, x), s))
  }

  predicate Active(c: Chart, cfg: Config, x: nat)
    requires Wf(c) && |cfg| == |c.regions| && x < |c.states|
  {
    Act(c, cfg, x, 0)
  }

  /** The active configuration below `s`, `s` included. */
  ghost function ActiveBelow(c: Chart, cfg: Config, s: nat): set<nat>
    requires Wf(c) && |cfg| == |c.regions|
  {
    set x | s <= x < |c.states| && Act(c, cfg, x, s)
  }

  ghost function ActiveSet(c: Chart, cfg: Config): set<nat>
    requires Wf(c) && |cfg| == |c.regions|
  {
    ActiveBelow(c, cfg, 0)
  }

  /** The active configuration inside the regions of `s` from the `i`-th on. */
  ghost function ActiveFrom(c: Chart, cfg: Config, s: nat, i: nat): set<nat>
    requires Wf(c) && ValidConfig(c, cfg) && s < |c.states| && i <= |Regions(c, s)|
    decreases |Regions(c, s)| - i
  {
    if i == |Regions(c, s)| then {}
    else ActiveBelow(c, cfg, cfg[Regions(c, s)[i]]) + ActiveFrom(c, cfg, s, i + 1)
  }

  lemma {:induction false} ActBelow(c: Chart, cfg: Config, x: nat, s: nat)
    requires Wf(c) && |cfg| == |c.regions| && x < |c.states| && Act(c, cfg, x, s)
    ensures Below(c, x, s)
    decreases x
  {
    if x != s {
      ActBelow(c, cfg, Parent(c, x), s);
    }
  }

  lemma {:induction false} ActTrans(c: Chart, cfg: Config, x: nat, y: nat, z: nat)
    requires Wf(c) && |cfg| == |c.regions| && x < |c.states| && y < |c.states|
    requires Act(c, cfg, x, y) && Act(c, cfg, y, z)
    ensures Act(c, cfg, x, z)
    decreases x
  {
    if x != y {
      ActTrans(c, cfg, Parent(c, x), y, z);
    }
  }

  /** An active chain passes through every state between its ends. */
  lemma {:induction false} ActSplit(c: Chart, cfg: Config, x: nat, y: nat, z: nat)
    requires Wf(c) && |cfg| == |c.regions| && x < |c.states| && y < |c.states|
    requires Act(c, cfg, x, z) && Below(c, x, y) && Below(c, y, z)
    ensures Act(c, cfg, x, y) && Act(c, cfg, y, z)
    decreases x
  {
    if x != y {
      ActSplit(c, cfg, Parent(c, x), y, z);
    }
  }

  /** Activity below `s` depends only on the regions owned at or below `s`. */
  lemma {:induction false} ActFrame(c: Chart, cfg: Config, cfg': Config, x: nat, s: nat)
    requires Wf(c) && |cfg| == |cfg'| == |c.regions| && x < |c.states|
    requires forall r :: 0 <= r < |c.regions| && Below(c, Owner(c, r), s) ==> cfg[r] == cfg'[r]
    requires Act(c, cfg, x, s)
    ensures Act(c, cfg', x, s)
    decreases x
  {
    if x != s {
      ActBelow(c, cfg, Parent(c, x), s);
      ActFrame(c, cfg, cfg', Parent(c, x), s);
    }
  }

  lemma ActiveBelowFrame(c: Chart, cfg: Config, cfg': Config, s: nat)
    requires Wf(c) && |cfg| == |cfg'| == |c.regions|
    requires forall r :: 0 <= r < |c.regions| && Below(c, Owner(c, r), s) ==> cfg[r] == cfg'[r]
    ensures ActiveBelow(c, cfg, s) == ActiveBelow(c, cfg', s)
  {
    forall x | s <= x < |c.states|
      ensures Act(c, cfg, x, s) <==> Act(c, cfg', x, s)
    {
      if Act(c, cfg, x, s) { ActFrame(c, cfg, cfg', x, s); }
      if Act(c, cfg', x, s) { ActFrame(c, cfg', cfg, x, s); }
    }
  }

  /** Inside `r`, the states active under the owner are those active under `cfg[r]`. */
  lemma {:induction false} ActInRegion(c: Chart, cfg: Config, x: nat, r: nat)
    requires Wf(c) && ValidConfig(c, cfg) && x < |c.states| && r < |c.regions|
    ensures Under(c, x, r) && Act(c, cfg, x, Owner(c, r)) <==> Act(c, cfg, x, cfg[r])
    decreases x
  {
    ChildOf(c, r, cfg[r]);
    if x > Owner(c, r) && x != cfg[r] {
      if RegionOf(c, x) != r {
        ActInRegion(c, cfg, Parent(c, x), r);
      }
    }
  }

  lemma {:induction false} InActiveFrom(c: Chart, cfg: Config, s: nat, i: nat, x: nat)
    requires Wf(c) && ValidConfig(c, cfg) && s < |c.states| && i <= |Regions(c, s)| && x < |c.states|
    ensures x in ActiveFrom(c, cfg, s, i) <==>
            exists j :: i <= j < |Regions(c, s)| && Act(c, cfg, x, cfg[Regions(c, s)[j]])
    decreases |Regions(c, s)| - i
  {
    if i < |Regions(c, s)| {
      InActiveFrom(c, cfg, s, i + 1, x);
      var t := cfg[Regions(c, s)[i]];
      if Act(c, cfg, x, t) {
        ActBelow(c, cfg, x, t);
      }
    }
  }

  /** Below `s`, the active states are `s` and what is active in its regions. */
  lemma ActiveBelowSplit(c: Chart, cfg: Config, s: nat)
    requires Wf(c) && ValidConfig(c, cfg) && s < |c.states|
    ensures ActiveBelow(c, cfg, s) == {s} + ActiveFrom(c, cfg, s, 0)
    ensures s !in ActiveFrom(c, cfg, s, 0)
  {
    forall x | 0 <= x < |c.states|
      ensures x in ActiveBelow(c, cfg, s) <==> x == s || x in ActiveFrom(c, cfg, s, 0)
      ensures x in ActiveFrom(c, cfg, s, 0) ==> x > s
    {
      InActiveFrom(c, cfg, s, 0, x);
      if j :| 0 <= j < |Regions(c, s)| && Act(c, cfg, x, cfg[Regions(c, s)[j]]) {
        ActInRegion(c, cfg, x, Regions(c, s)[j]);
      }
      if Act(c, cfg, x, s) && x != s {
        ActBelow(c, cfg, x, s);
        var r := BranchOf(c, x, s);
        ActInRegion(c, cfg, x, r);
        var j := RegionIndex(c, r);
      }
    }
    ActiveFromStates(c, cfg, s, 0);
  }

  lemma {:induction false} ActiveFromStates(c: Chart, cfg: Config, s: nat, i: nat)
    requires Wf(c) && ValidConfig(c, cfg) && s < |c.states| && i <= |Regions(c, s)|
    ensures forall x :: x in ActiveFrom(c, cfg, s, i) ==> x < |c.states|
    decreases |Regions(c, s)| - i
  {
    if i < |Regions(c, s)| {
      ActiveFromStates(c, cfg, s, i + 1);
    }
  }

  /** The region of `s` through which `x` lies below `s`. */
  lemma {:induction false} BranchOf(c: Chart, x: nat, s: nat) returns (r: nat)
    requires Wf(c) && x < |c.states| && Below(c, x, s) && x != s
    ensures r < |c.regions| && Owner(c, r) == s && Under(c, x, r)
    decreases x
  {
    if Parent(c, x) == s {
      r := RegionOf(c, x);
    } else {
      r := BranchOf(c, Parent(c, x), s);
    }
  }
}
