/** Where a firing ends up: the target is reached, and its regions are entered as the history
    rules say, over whole runs. */
module History {
  import opened Charts
  import opened Traversal
  import opened Firing
  import opened Balance

  /** Every active state strictly below `s` is the initial state of its region. */
  ghost predicate InitialBelow(c: Chart, cfg: Config, s: nat)
    requires Wf(c) && |cfg| == |c.regions|
  {
    forall x :: 0 <= x < |c.states| && Act(c, cfg, x, s) && x != s ==> c.regions[RegionOf(c, x)].init == x
  }

  /** How a region of the target is entered.  Without history: initial states throughout.  With
      history: a deep region gets all its pointers back, a shallow one its own state with
      initial states below it. */
  ghost predicate RegionEntered(c: Chart, before: Config, after: Config, r: nat, history: bool)
    requires Wf(c) && |before| == |after| == |c.regions| && r < |c.regions|
  {
    if history && c.regions[r].deep then
      forall x :: 0 <= x < |c.regions| && Nested(c, x, r) ==> after[x] == before[x]
    else
      && after[r] == (if history then before[r] else c.regions[r].init)
      && InitialBelow(c, after, after[r])
  }

  ghost predicate TargetEntered(c: Chart, before: Config, after: Config, s: nat, history: bool)
    requires Wf(c) && |before| == |after| == |c.regions| && s < |c.states|
  {
    forall j :: 0 <= j < |Regions(c, s)| ==> RegionEntered(c, before, after, Regions(c, s)[j], history)
  }

  /** How a region was entered is not affected by pointers outside it. */
  lemma RegionEnteredFrame(c: Chart, before: Config, before': Config, after: Config, after': Config, r: nat, history: bool)
    requires Wf(c) && |before| == |before'| == |c.regions| && ValidConfig(c, after) && |after'| == |c.regions| && r < |c.regions|
    requires forall x :: 0 <= x < |c.regions| && Nested(c, x, r) ==> before[x] == before'[x] && after[x] == after'[x]
    requires RegionEntered(c, before, after, r, history)
    ensures RegionEntered(c, before', after', r, history)
  {
    assert Nested(c, r, r);
    var t := after[r];
    ChildOf(c, r, t);
    forall x | 0 <= x < |c.regions| && Below(c, Owner(c, x), t)
      ensures after[x] == after'[x]
    {
      BelowUnder(c, Owner(c, x), t);
      assert Nested(c, x, r);
    }
    forall x | 0 <= x < |c.states| && Act(c, after', x, t)
      ensures Act(c, after, x, t)
    {
      ActFrame(c, after', after, x, t);
    }
  }

  // ---------------------------------------------------------------- entry with an empty queue

  /** Without history, entry below the target gives the initial configuration. */
  lemma {:induction false} EntryNoHistory(c: Chart, cfg: Config, s: nat)
    requires Wf(c) && ValidConfig(c, cfg) && s < |c.states|
    ensures InitialBelow(c, EntryState(c, cfg, s, [], false).cfg, s)
    decreases |c.states| - s, 1, 0
  {
    var v := EntryRegions(c, SetCurrent(c, cfg, s), s, 0, [], false, false);
    RegionsNoHistory(c, SetCurrent(c, cfg, s), s, 0);
    forall x | 0 <= x < |c.states| && Act(c, v.cfg, x, s) && x != s
      ensures c.regions[RegionOf(c, x)].init == x
    {
      ActiveBelowSplit(c, v.cfg, s);
      assert x in ActiveBelow(c, v.cfg, s);
      InActiveFrom(c, v.cfg, s, 0, x);
      var j :| 0 <= j < |Regions(c, s)| && Act(c, v.cfg, x, v.cfg[Regions(c, s)[j]]);
      assert RegionEntered(c, cfg, v.cfg, Regions(c, s)[j], false);
      ChildOf(c, Regions(c, s)[j], v.cfg[Regions(c, s)[j]]);
    }
  }

  lemma {:induction false} RegionsNoHistory(c: Chart, cfg: Config, s: nat, i: nat)
    requires Wf(c) && ValidConfig(c, cfg) && s < |c.states| && i <= |Regions(c, s)|
    ensures var v := EntryRegions(c, cfg, s, i, [], false, false);
            forall j, before :: i <= j < |Regions(c, s)| && |before| == |c.regions| ==> RegionEntered(c, before, v.cfg, Regions(c, s)[j], false)
    decreases |c.states| - s, 0, |Regions(c, s)| - i
  {
    if i < |Regions(c, s)| {
      var r := Regions(c, s)[i];
      var t := c.regions[r].init;
      assert t == Choice(c, cfg, r, [], false);
      EntryNoHistory(c, cfg[r := t], t);
      EntryEmptyQueue(c, cfg[r := t], t, false);
      var v := EntryRegion(c, cfg, s, i, [], false, false);
      EntryRegionFrame(c, cfg, s, i, [], false, false);
      RegionsNoHistory(c, v.cfg, s, i + 1);
      RegionKept(c, cfg, v.cfg, s, i, i + 1, [], false, false, false);
    }
  }

  /** Entering later regions does not affect how the `j`-th one was entered. */
  lemma RegionKept(c: Chart, before: Config, cfg: Config, s: nat, j: nat, i: nat, q: seq<nat>, history: bool, check: bool, h: bool)
    requires Wf(c) && |before| == |c.regions| && ValidConfig(c, cfg) && s < |c.states| && j < i <= |Regions(c, s)|
    requires RegionEntered(c, before, cfg, Regions(c, s)[j], h)
    ensures RegionEntered(c, before, EntryRegions(c, cfg, s, i, q, history, check).cfg, Regions(c, s)[j], h)
  {
    EntryRegionsFrame(c, cfg, s, i, q, history, check);
    RegionEnteredFrame(c, before, before, cfg, EntryRegions(c, cfg, s, i, q, history, check).cfg, Regions(c, s)[j], h);
  }

  /** With history going on, entry below the target changes nothing. */
  lemma {:induction false} EntryWithHistory(c: Chart, cfg: Config, s: nat)
    requires Wf(c) && ValidConfig(c, cfg) && s < |c.states|
    ensures EntryState(c, cfg, s, [], true).cfg == SetCurrent(c, cfg, s)
    decreases |c.states| - s, 1, 0
  {
    RegionsWithHistory(c, SetCurrent(c, cfg, s), s, 0);
  }

  lemma {:induction false} RegionsWithHistory(c: Chart, cfg: Config, s: nat, i: nat)
    requires Wf(c) && ValidConfig(c, cfg) && s < |c.states| && i <= |Regions(c, s)|
    ensures EntryRegions(c, cfg, s, i, [], true, false).cfg == cfg
    decreases |c.states| - s, 0, |Regions(c, s)| - i
  {
    if i < |Regions(c, s)| {
      var r := Regions(c, s)[i];
      ChildOf(c, r, cfg[r]);
      assert cfg[r := cfg[r]] == cfg;
      EntryWithHistory(c, cfg, cfg[r]);
      EntryEmptyQueue(c, cfg, cfg[r], true);
      RegionsWithHistory(c, cfg, s, i + 1);
    }
  }

  /** One region of the target. */
  lemma TargetRegion(c: Chart, cfg: Config, s: nat, i: nat, history: bool)
    requires Wf(c) && ValidConfig(c, cfg) && s < |c.states| && i < |Regions(c, s)|
    ensures var v := EntryRegion(c, cfg, s, i, [], history, history);
            v.queue == [] && RegionEntered(c, cfg, v.cfg, Regions(c, s)[i], history)
  {
    var r := Regions(c, s)[i];
    var t := Choice(c, cfg, r, [], history);
    EntryEmptyQueue(c, cfg[r := t], t, Continue(c, r, [], history, history));
    EntryRegionFrame(c, cfg, s, i, [], history, history);
    if history && c.regions[r].deep {
      EntryWithHistory(c, cfg[r := t], t);
    } else {
      EntryNoHistory(c, cfg[r := t], t);
    }
  }

  lemma {:induction false} TargetRegions(c: Chart, cfg: Config, s: nat, i: nat, history: bool)
    requires Wf(c) && ValidConfig(c, cfg) && s < |c.states| && i <= |Regions(c, s)|
    ensures var v := EntryRegions(c, cfg, s, i, [], history, history);
            forall j :: i <= j < |Regions(c, s)| ==> RegionEntered(c, cfg, v.cfg, Regions(c, s)[j], history)
    decreases |Regions(c, s)| - i
  {
    if i < |Regions(c, s)| {
      var r := Regions(c, s)[i];
      TargetRegion(c, cfg, s, i, history);
      var v := EntryRegion(c, cfg, s, i, [], history, history);
      var w := EntryRegions(c, v.cfg, s, i + 1, [], history, history);
      TargetRegions(c, v.cfg, s, i + 1, history);
      RegionKept(c, cfg, v.cfg, s, i, i + 1, [], history, history, history);
      EntryRegionFrame(c, cfg, s, i, [], history, history);
      forall j | i + 1 <= j < |Regions(c, s)|
        ensures RegionEntered(c, cfg, w.cfg, Regions(c, s)[j], history)
      {
        forall x | 0 <= x < |c.regions| && Nested(c, x, Regions(c, s)[j])
          ensures v.cfg[x] == cfg[x]
        {
          NestedSiblings(c, x, Regions(c, s)[j], r);
        }
        RegionEnteredFrame(c, v.cfg, cfg, w.cfg, w.cfg, Regions(c, s)[j], history);
      }
    }
  }

  // ---------------------------------------------------------------- entry along the path

  ghost predicate AllCurrent(c: Chart, cfg: Config, q: seq<nat>)
    requires Wf(c) && |cfg| == |c.regions| && Chain(c, q)
  {
    forall k :: 0 <= k < |q| && q[k] != 0 ==> cfg[RegionOf(c, q[k])] == q[k]
  }

  /** What entry along the path `q` achieves: the queue is used up, every state on the path is
      current in its region, the target is entered as the history rules say. */
  ghost predicate PathEntered(c: Chart, before: Config, v: Visit, q: seq<nat>, history: bool)
    requires Wf(c) && |before| == |v.cfg| == |c.regions| && Chain(c, q) && q != []
  {
    v.queue == [] && AllCurrent(c, v.cfg, q) && TargetEntered(c, before, v.cfg, q[|q| - 1], history)
  }

  /** The last state of a chain lies below its first. */
  lemma {:induction false} ChainBelow(c: Chart, q: seq<nat>, k: nat)
    requires Wf(c) && Chain(c, q) && k < |q|
    ensures Below(c, q[k], q[0])
    decreases k
  {
    if k > 0 {
      ChainBelow(c, q, k - 1);
      BelowTrans(c, q[k], q[k - 1], q[0]);
    }
  }

  lemma TargetEnteredFrame(c: Chart, before: Config, before': Config, after: Config, after': Config, s: nat, history: bool)
    requires Wf(c) && |before| == |before'| == |c.regions| && ValidConfig(c, after) && |after'| == |c.regions| && s < |c.states|
    requires forall x :: 0 <= x < |c.regions| && Below(c, Owner(c, x), s) ==> before[x] == before'[x] && after[x] == after'[x]
    requires TargetEntered(c, before, after, s, history)
    ensures TargetEntered(c, before', after', s, history)
  {
    forall j | 0 <= j < |Regions(c, s)|
      ensures RegionEntered(c, before', after', Regions(c, s)[j], history)
    {
      forall x | 0 <= x < |c.regions| && Nested(c, x, Regions(c, s)[j])
        ensures before[x] == before'[x] && after[x] == after'[x]
      {
        NestedOwner(c, x, s, j);
      }
      RegionEnteredFrame(c, before, before', after, after', Regions(c, s)[j], history);
    }
  }

  lemma {:induction false} ChainEntry(c: Chart, cfg: Config, q: seq<nat>, history: bool)
    requires Wf(c) && ValidConfig(c, cfg) && Chain(c, q) && q != []
    ensures PathEntered(c, cfg, EntryState(c, cfg, q[0], q, history), q, history)
    decreases |q|, 0
  {
    if |q| == 1 {
      ChainEnd(c, cfg, q, history);
    } else {
      ChainSuffix(c, q, 1);
      var k := RegionIndex(c, RegionOf(c, q[1]));
      ChainRegions(c, SetCurrent(c, cfg, q[0]), q[0], 0, k, q[1..], history);
      ChainStep(c, cfg, q, history);
    }
  }

  lemma ChainEnd(c: Chart, cfg: Config, q: seq<nat>, history: bool)
    requires Wf(c) && ValidConfig(c, cfg) && Chain(c, q) && |q| == 1
    ensures PathEntered(c, cfg, EntryState(c, cfg, q[0], q, history), q, history)
  {
    var s, cfg' := q[0], SetCurrent(c, cfg, q[0]);
    var v := EntryState(c, cfg, s, q, history);
    EntryFrame(c, cfg, s, q, history);
    EntryRegionsEmptyQueue(c, cfg', s, 0, history, history);
    TargetRegions(c, cfg', s, 0, history);
    EndEntered(c, cfg, s, q, history);
    TargetEnteredFrame(c, cfg', cfg, v.cfg, v.cfg, s, history);
  }

  /** Entry at the last state of a path is entry of its regions with an empty queue. */
  lemma EndEntered(c: Chart, cfg: Config, s: nat, q: seq<nat>, history: bool)
    requires Wf(c) && ValidConfig(c, cfg) && s < |c.states| && q == [s]
    ensures EntryState(c, cfg, s, q, history).cfg == EntryRegions(c, SetCurrent(c, cfg, s), s, 0, [], history, history).cfg
    ensures EntryState(c, cfg, s, q, history).queue == EntryRegions(c, SetCurrent(c, cfg, s), s, 0, [], history, history).queue
  {
    assert Pop(q, s) == [];
  }

  lemma ChainStep(c: Chart, cfg: Config, q: seq<nat>, history: bool)
    requires Wf(c) && ValidConfig(c, cfg) && Chain(c, q) && |q| > 1 && Chain(c, q[1..])
    requires PathEntered(c, SetCurrent(c, cfg, q[0]), EntryRegions(c, SetCurrent(c, cfg, q[0]), q[0], 0, q[1..], history, false), q[1..], history)
    ensures PathEntered(c, cfg, EntryState(c, cfg, q[0], q, history), q, history)
  {
    var v := EntryState(c, cfg, q[0], q, history);
    EntryFrame(c, cfg, q[0], q, history);
    LastOutside(c, q, q[0]);
    TargetEnteredFrame(c, SetCurrent(c, cfg, q[0]), cfg, v.cfg, v.cfg, q[|q| - 1], history);
    CurrentCons(c, v.cfg, q);
  }

  lemma CurrentCons(c: Chart, cfg: Config, q: seq<nat>)
    requires Wf(c) && |cfg| == |c.regions| && Chain(c, q) && q != [] && Chain(c, q[1..]) && AllCurrent(c, cfg, q[1..])
    requires q[0] != 0 ==> cfg[RegionOf(c, q[0])] == q[0]
    ensures AllCurrent(c, cfg, q)
  {
    forall j | 0 < j < |q|
      ensures q[j] == q[1..][j - 1]
    {
    }
  }

  /** The pointer of the region of the first state is not below the last state of a chain. */
  lemma LastOutside(c: Chart, q: seq<nat>, s: nat)
    requires Wf(c) && Chain(c, q) && q != [] && s == q[0]
    ensures s != 0 ==> !Below(c, Owner(c, RegionOf(c, s)), q[|q| - 1])
  {
    ChainBelow(c, q, |q| - 1);
  }

  /** The regions of `s` from the `i`-th on, the `k`-th of which holds the next state of the path. */
  lemma {:induction false} ChainRegions(c: Chart, cfg: Config, s: nat, i: nat, k: nat, q: seq<nat>, history: bool)
    requires Wf(c) && ValidConfig(c, cfg) && s < |c.states| && i <= k < |Regions(c, s)|
    requires Chain(c, q) && q != [] && q[0] != 0 && RegionOf(c, q[0]) == Regions(c, s)[k]
    ensures PathEntered(c, cfg, EntryRegions(c, cfg, s, i, q, history, false), q, history)
    decreases |q|, 2 + k - i, 1
  {
    if i < k { ChainEarlier(c, cfg, s, i, k, q, history); } else { ChainOwnRegion(c, cfg, s, k, q, history); }
  }

  /** The `i`-th region comes before the one that holds the path. */
  lemma {:induction false} ChainEarlier(c: Chart, cfg: Config, s: nat, i: nat, k: nat, q: seq<nat>, history: bool)
    requires Wf(c) && ValidConfig(c, cfg) && s < |c.states| && i < k < |Regions(c, s)|
    requires Chain(c, q) && q != [] && q[0] != 0 && RegionOf(c, q[0]) == Regions(c, s)[k]
    ensures PathEntered(c, cfg, EntryRegions(c, cfg, s, i, q, history, false), q, history)
    decreases |q|, 2 + k - i, 0
  {
    ChainRegions(c, EntryRegion(c, cfg, s, i, q, history, false).cfg, s, i + 1, k, q, history);
    ChainLater(c, cfg, s, i, k, q, history);
  }

  lemma ChainLater(c: Chart, cfg: Config, s: nat, i: nat, k: nat, q: seq<nat>, history: bool)
    requires Wf(c) && ValidConfig(c, cfg) && s < |c.states| && i < k < |Regions(c, s)|
    requires Chain(c, q) && q != [] && q[0] != 0 && RegionOf(c, q[0]) == Regions(c, s)[k]
    requires var v := EntryRegion(c, cfg, s, i, q, history, false);
             PathEntered(c, v.cfg, EntryRegions(c, v.cfg, s, i + 1, q, history, false), q, history)
    ensures PathEntered(c, cfg, EntryRegions(c, cfg, s, i, q, history, false), q, history)
  {
    var v := EntryRegion(c, cfg, s, i, q, history, false);
    ChainOffPath(c, cfg, s, i, k, q, history);
    var w := EntryRegions(c, v.cfg, s, i + 1, q, history, false);
    EntryStep(c, cfg, s, i, q, history, false);
    PathFrame(c, v.cfg, cfg, w, EntryRegions(c, cfg, s, i, q, history, false), q, history);
  }

  /** A region before the one that holds the path touches neither the queue nor the pointers
      below the target. */
  lemma ChainOffPath(c: Chart, cfg: Config, s: nat, i: nat, k: nat, q: seq<nat>, history: bool)
    requires Wf(c) && ValidConfig(c, cfg) && s < |c.states| && i < k < |Regions(c, s)|
    requires Chain(c, q) && q != [] && q[0] != 0 && RegionOf(c, q[0]) == Regions(c, s)[k]
    ensures var v := EntryRegion(c, cfg, s, i, q, history, false);
            && v.queue == q
            && forall x :: 0 <= x < |c.regions| && Below(c, Owner(c, x), q[|q| - 1]) ==> v.cfg[x] == cfg[x]
  {
    var v := EntryRegion(c, cfg, s, i, q, history, false);
    var rk, last := Regions(c, s)[k], q[|q| - 1];
    ChainUnder(c, q, rk);
    if Under(c, q[0], Regions(c, s)[i]) { SiblingsDisjoint(c, q[0], rk, Regions(c, s)[i]); }
    EntryRegionsOffPath(c, cfg, s, i, i + 1, q, history, false);
    EntryRegionFrame(c, cfg, s, i, q, history, false);
    forall x | 0 <= x < |c.regions| && Below(c, Owner(c, x), last)
      ensures v.cfg[x] == cfg[x]
    {
      UnderTrans(c, Owner(c, x), last, rk);
      NestedSiblings(c, x, rk, Regions(c, s)[i]);
    }
  }

  /** Every state of a chain lies inside the region of its first. */
  lemma ChainUnder(c: Chart, q: seq<nat>, r: nat)
    requires Wf(c) && Chain(c, q) && q != [] && q[0] != 0 && RegionOf(c, q[0]) == r
    ensures forall k :: 0 <= k < |q| ==> Under(c, q[k], r)
  {
    forall k | 0 <= k < |q|
      ensures Under(c, q[k], r)
    {
      ChainBelow(c, q, k);
      BelowUnder(c, q[k], q[0]);
    }
  }

  /** That a path was entered is not affected by pointers outside it and outside its last state. */
  lemma PathFrame(c: Chart, a: Config, b: Config, v: Visit, w: Visit, q: seq<nat>, history: bool)
    requires Wf(c) && |a| == |b| == |c.regions| && ValidConfig(c, v.cfg) && ValidConfig(c, w.cfg) && Chain(c, q) && q != []
    requires PathEntered(c, a, v, q, history) && w.queue == []
    requires forall x :: 0 <= x < |c.regions| && Below(c, Owner(c, x), q[|q| - 1]) ==> a[x] == b[x] && v.cfg[x] == w.cfg[x]
    requires forall j :: 0 <= j < |q| && q[j] != 0 ==> w.cfg[RegionOf(c, q[j])] == v.cfg[RegionOf(c, q[j])]
    ensures PathEntered(c, b, w, q, history)
  {
    TargetEnteredFrame(c, a, b, v.cfg, w.cfg, q[|q| - 1], history);
  }

  /** What lies below the last state of a chain lies inside the region of its first. */
  lemma LastInside(c: Chart, q: seq<nat>, r: nat, x: nat)
    requires Wf(c) && Chain(c, q) && q != [] && q[0] != 0 && RegionOf(c, q[0]) == r && x < |c.regions|
    requires Below(c, Owner(c, x), q[|q| - 1])
    ensures Nested(c, x, r) && x != r
  {
    ChainUnder(c, q, r);
    UnderTrans(c, Owner(c, x), q[|q| - 1], r);
    UnderBelowOwner(c, Owner(c, x), r);
  }

  /** The later regions of `s` leave the region that holds the path alone. */
  lemma LaterRegionsKeep(c: Chart, cfg: Config, s: nat, k: nat, q: seq<nat>, history: bool)
    requires Wf(c) && ValidConfig(c, cfg) && s < |c.states| && k < |Regions(c, s)|
    requires Chain(c, q) && q != [] && q[0] != 0 && RegionOf(c, q[0]) == Regions(c, s)[k]
    ensures var w := EntryRegions(c, cfg, s, k + 1, [], history, false);
            && w.queue == []
            && (forall x :: 0 <= x < |c.regions| && Nested(c, x, Regions(c, s)[k]) ==> w.cfg[x] == cfg[x])
  {
    EntryRegionsEmptyQueue(c, cfg, s, k + 1, history, false);
    EntryRegionsFrame(c, cfg, s, k + 1, [], history, false);
  }

  lemma {:induction false} ChainOwnRegion(c: Chart, cfg: Config, s: nat, k: nat, q: seq<nat>, history: bool)
    requires Wf(c) && ValidConfig(c, cfg) && s < |c.states| && k < |Regions(c, s)|
    requires Chain(c, q) && q != [] && q[0] != 0 && RegionOf(c, q[0]) == Regions(c, s)[k]
    ensures PathEntered(c, cfg, EntryRegions(c, cfg, s, k, q, history, false), q, history)
    decreases |q|, 1
  {
    ChainEntry(c, cfg[Regions(c, s)[k] := q[0]], q, history);
    ChainOwnStep(c, cfg, s, k, q, history);
  }

  lemma ChainOwnStep(c: Chart, cfg: Config, s: nat, k: nat, q: seq<nat>, history: bool)
    requires Wf(c) && ValidConfig(c, cfg) && s < |c.states| && k < |Regions(c, s)|
    requires Chain(c, q) && q != [] && q[0] != 0 && RegionOf(c, q[0]) == Regions(c, s)[k]
    requires var a := cfg[Regions(c, s)[k] := q[0]]; PathEntered(c, a, EntryState(c, a, q[0], q, history), q, history)
    ensures PathEntered(c, cfg, EntryRegions(c, cfg, s, k, q, history, false), q, history)
  {
    var r := Regions(c, s)[k];
    var v := EntryRegion(c, cfg, s, k, q, history, false);
    assert v == EntryState(c, cfg[r := q[0]], q[0], q, history);
    EntryStep(c, cfg, s, k, q, history, false);
    LaterRegionsKeep(c, v.cfg, s, k, q, history);
    forall x | 0 <= x < |c.regions| && Below(c, Owner(c, x), q[|q| - 1])
      ensures Nested(c, x, r) && x != r
    {
      LastInside(c, q, r, x);
    }
    ChainUnder(c, q, r);
    forall j | 0 <= j < |q| && q[j] != 0
      ensures Nested(c, RegionOf(c, q[j]), r)
    {
    }
    PathFrame(c, cfg[r := q[0]], cfg, v, EntryRegions(c, cfg, s, k, q, history, false), q, history);
  }

  /** Pointers along a chain make all of it active below its first state. */
  lemma {:induction false} ChainActive(c: Chart, cfg: Config, q: seq<nat>, k: nat)
    requires Wf(c) && |cfg| == |c.regions| && Chain(c, q) && k < |q| && AllCurrent(c, cfg, q)
    ensures Act(c, cfg, q[k], q[0])
    decreases k
  {
    if k > 0 {
      ChainActive(c, cfg, q, k - 1);
      ChainBelow(c, q, k - 1);
    }
  }

  /** Main result: from an active source the states to enter are used up, each becomes current in
      its region and active, the target among them, and the target's regions are entered as the
      history rules say. */
  lemma TargetReached(c: Chart, cfg: Config, t: Transition)
    requires Wf(c) && ValidConfig(c, cfg) && t.source < |c.states| && t.target < |c.states|
    requires Active(c, cfg, t.source)
    ensures var p, f := PointsOf(c, t), Fire(c, cfg, t);
            && EntryState(c, cfg, p.enter[0], p.enter, t.history).queue == []
            && (forall k :: 0 <= k < |p.enter| ==> Active(c, f.cfg, p.enter[k]))
            && Active(c, f.cfg, t.target)
            && TargetEntered(c, cfg, f.cfg, t.target, t.history)
  {
    PointsShape(c, t);
    var p, f := PointsOf(c, t), Fire(c, cfg, t);
    var first := p.enter[0];
    ChainEntry(c, cfg, p.enter, t.history);
    if first != 0 {
      RootAboveAll(c, Parent(c, first));
      ActSplit(c, cfg, t.source, Parent(c, first), 0);
      ActiveAfterEntry(c, cfg, first, p.enter, t.history, first);
    }
    forall k | 0 <= k < |p.enter|
      ensures Active(c, f.cfg, p.enter[k])
    {
      ChainActive(c, f.cfg, p.enter, k);
      ActTrans(c, f.cfg, p.enter[k], first, 0);
    }
  }

  // ---------------------------------------------------------------- inactive subtrees

  /** Entry changes only pointers of regions whose owner it leaves active. */
  lemma {:induction false} EntryChangesActive(c: Chart, cfg: Config, s: nat, q: seq<nat>, history: bool)
    requires Wf(c) && ValidConfig(c, cfg) && s < |c.states|
    ensures var v := EntryState(c, cfg, s, q, history);
            forall r :: 0 <= r < |c.regions| && v.cfg[r] != cfg[r] && (s == 0 || r != RegionOf(c, s)) ==> Act(c, v.cfg, Owner(c, r), s)
    decreases |c.states| - s, 1, 0
  {
    RegionsChangeActive(c, SetCurrent(c, cfg, s), s, 0, Pop(q, s), history, CheckHistory(q, s, history));
  }

  lemma {:induction false} RegionsChangeActive(c: Chart, cfg: Config, s: nat, i: nat, q: seq<nat>, history: bool, check: bool)
    requires Wf(c) && ValidConfig(c, cfg) && s < |c.states| && i <= |Regions(c, s)|
    ensures var v := EntryRegions(c, cfg, s, i, q, history, check);
            forall r :: 0 <= r < |c.regions| && v.cfg[r] != cfg[r] ==> Act(c, v.cfg, Owner(c, r), s)
    decreases |c.states| - s, 0, |Regions(c, s)| - i
  {
    if i < |Regions(c, s)| {
      var r := Regions(c, s)[i];
      var t := Choice(c, cfg, r, q, history);
      EntryChangesActive(c, cfg[r := t], t, q, Continue(c, r, q, history, check));
      var v := EntryRegion(c, cfg, s, i, q, history, check);
      var w := EntryRegions(c, v.cfg, s, i + 1, v.queue, history, check);
      RegionsChangeActive(c, v.cfg, s, i + 1, v.queue, history, check);
      EntryRegionFrame(c, cfg, s, i, q, history, check);
      EarlierRegionKept(c, v.cfg, s, i + 1, v.queue, history, check, i);
      forall x | 0 <= x < |c.regions| && v.cfg[x] != cfg[x]
        ensures Act(c, w.cfg, Owner(c, x), s)
      {
        if x != r {
          assert Owner(c, x) in ActiveBelow(c, v.cfg, t);
          assert Owner(c, x) in ActiveBelow(c, w.cfg, t);
          assert Act(c, w.cfg, t, s);
          ActTrans(c, w.cfg, Owner(c, x), t, s);
        }
      }
    }
  }

  /** A firing from an active source leaves the pointers of regions alone whose owner is not
      active afterwards. */
  lemma InactiveUnchanged(c: Chart, cfg: Config, t: Transition, r: nat)
    requires Wf(c) && ValidConfig(c, cfg) && t.source < |c.states| && t.target < |c.states| && r < |c.regions|
    requires Active(c, cfg, t.source)
    requires !Active(c, Fire(c, cfg, t).cfg, Owner(c, r))
    ensures Fire(c, cfg, t).cfg[r] == cfg[r]
  {
    PointsShape(c, t);
    var p, f := PointsOf(c, t), Fire(c, cfg, t);
    var first := p.enter[0];
    TargetReached(c, cfg, t);
    EntryChangesActive(c, cfg, first, p.enter, t.history);
    assert Active(c, f.cfg, p.enter[0]);
    if Act(c, f.cfg, Owner(c, r), first) {
      ActTrans(c, f.cfg, Owner(c, r), first, 0);
    }
  }

  /** `s` is inactive after every firing of the run. */
  ghost predicate InactiveThroughout(c: Chart, cfg: Config, ts: seq<Transition>, s: nat)
    requires Wf(c) && ValidConfig(c, cfg) && ValidTransitions(c, ts) && s < |c.states|
    decreases |ts|
  {
    ts != [] ==> !Active(c, Fire(c, cfg, ts[0]).cfg, s) && InactiveThroughout(c, Fire(c, cfg, ts[0]).cfg, ts[1..], s)
  }

  /** While a state is inactive no pointer below it changes. */
  lemma {:induction false} InactiveSubtreeKept(c: Chart, cfg: Config, ts: seq<Transition>, s: nat, r: nat)
    requires Wf(c) && ValidConfig(c, cfg) && ValidTransitions(c, ts) && s < |c.states| && r < |c.regions|
    requires ActiveSources(c, cfg, ts) && InactiveThroughout(c, cfg, ts, s) && Below(c, Owner(c, r), s)
    ensures FireAll(c, cfg, ts).cfg[r] == cfg[r]
    decreases |ts|
  {
    if ts != [] {
      var f := Fire(c, cfg, ts[0]);
      if Active(c, f.cfg, Owner(c, r)) {
        RootAboveAll(c, s);
        ActSplit(c, f.cfg, Owner(c, r), s, 0);
      }
      InactiveUnchanged(c, cfg, ts[0], r);
      InactiveSubtreeKept(c, f.cfg, ts[1..], s, r);
    }
  }

  /** Main result for runs: a state that was left and stayed inactive through any run is, when a
      history transition targets it, entered with what was below it when it was left: all of it
      in a deep region, one level of it with initial states below in a shallow one. */
  lemma HistoryRestored(c: Chart, atExit: Config, ts: seq<Transition>, t: Transition)
    requires Wf(c) && ValidConfig(c, atExit) && ValidTransitions(c, ts) && t.source < |c.states| && t.target < |c.states|
    requires ActiveSources(c, atExit, ts) && InactiveThroughout(c, atExit, ts, t.target)
    requires t.history && Active(c, FireAll(c, atExit, ts).cfg, t.source)
    ensures TargetEntered(c, atExit, Fire(c, FireAll(c, atExit, ts).cfg, t).cfg, t.target, true)
  {
    var cfg := FireAll(c, atExit, ts).cfg;
    TargetReached(c, cfg, t);
    forall r | 0 <= r < |c.regions| && Below(c, Owner(c, r), t.target)
      ensures cfg[r] == atExit[r]
    {
      InactiveSubtreeKept(c, atExit, ts, t.target, r);
    }
    var after := Fire(c, cfg, t).cfg;
    TargetEnteredFrame(c, cfg, atExit, after, after, t.target, true);
  }
}
