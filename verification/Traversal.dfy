/** The recursive traversals of a chart: exit, entry and the time-out dry run, as functions of
    the current-state pointers and of the queue of states still to be entered. */
module Traversal {
  import opened Charts

  /** What a traversal leaves behind: the pointers, the rest of the queue, the states visited. */
  datatype Visit = Visit(cfg: Config, queue: seq<nat>, trace: seq<nat>)

  // ---------------------------------------------------------------- exit

  ghost function ExitState(c: Chart, cfg: Config, s: nat): (trace: seq<nat>)
    requires Wf(c) && ValidConfig(c, cfg) && s < |c.states|
    decreases |c.states| - s, 1, 0
  {
    ExitRegions(c, cfg, s, 0) + [s]
  }

  ghost function ExitRegions(c: Chart, cfg: Config, s: nat, i: nat): (trace: seq<nat>)
    requires Wf(c) && ValidConfig(c, cfg) && s < |c.states| && i <= |Regions(c, s)|
    decreases |c.states| - s, 0, |Regions(c, s)| - i
  {
    if i == |Regions(c, s)| then [] else
      ChildOf(c, Regions(c, s)[i], cfg[Regions(c, s)[i]]);
      ExitState(c, cfg, cfg[Regions(c, s)[i]]) + ExitRegions(c, cfg, s, i + 1)
  }

  // ---------------------------------------------------------------- entry

  /** The queue after visiting `s`: its front is removed when it is `s`. */
  function Pop(q: seq<nat>, s: nat): seq<nat> {
    if q != [] && q[0] == s then q[1..] else q
  }

  /** Whether `s` is the target and history is to be looked at in its regions. */
  predicate CheckHistory(q: seq<nat>, s: nat, history: bool) {
    history && q != [] && q[0] == s && q[1..] == []
  }

  /** The state a region enters. */
  function Choice(c: Chart, cfg: Config, r: nat, q: seq<nat>, history: bool): (t: nat)
    requires Wf(c) && ValidConfig(c, cfg) && r < |c.regions|
    ensures 0 < t < |c.states| && t in c.regions[r].children && RegionOf(c, t) == r && Parent(c, t) == Owner(c, r)
  {
    var t :=
      if q == [] then (if history then cfg[r] else c.regions[r].init)
      else if q[0] in c.regions[r].children then q[0] else c.regions[r].init;
    assert WfRegion(c, r);
    ChildOf(c, r, t);
    t
  }

  /** Whether history goes on inside the state a region enters. */
  predicate Continue(c: Chart, r: nat, q: seq<nat>, history: bool, check: bool)
    requires r < |c.regions|
  {
    history && !(q == [] && check && !c.regions[r].deep)
  }

  function SetCurrent(c: Chart, cfg: Config, s: nat): (cfg': Config)
    requires Wf(c) && ValidConfig(c, cfg) && s < |c.states|
    ensures ValidConfig(c, cfg')
  {
    if s == 0 then cfg else cfg[RegionOf(c, s) := s]
  }

  ghost function EntryState(c: Chart, cfg: Config, s: nat, q: seq<nat>, history: bool): (v: Visit)
    requires Wf(c) && ValidConfig(c, cfg) && s < |c.states|
    ensures ValidConfig(c, v.cfg)
    decreases |c.states| - s, 1, 0
  {
    var v := EntryRegions(c, SetCurrent(c, cfg, s), s, 0, Pop(q, s), history, CheckHistory(q, s, history));
    v.(trace := [s] + v.trace)
  }

  ghost function EntryRegions(c: Chart, cfg: Config, s: nat, i: nat, q: seq<nat>, history: bool, check: bool): (v: Visit)
    requires Wf(c) && ValidConfig(c, cfg) && s < |c.states| && i <= |Regions(c, s)|
    ensures ValidConfig(c, v.cfg)
    decreases |c.states| - s, 0, |Regions(c, s)| - i
  {
    if i == |Regions(c, s)| then Visit(cfg, q, []) else
      var v := EntryRegion(c, cfg, s, i, q, history, check);
      var w := EntryRegions(c, v.cfg, s, i + 1, v.queue, history, check);
      w.(trace := v.trace + w.trace)
  }

  /** Entering the `i`-th region of `s`. */
  ghost function EntryRegion(c: Chart, cfg: Config, s: nat, i: nat, q: seq<nat>, history: bool, check: bool): (v: Visit)
    requires Wf(c) && ValidConfig(c, cfg) && s < |c.states| && i < |Regions(c, s)|
    ensures ValidConfig(c, v.cfg)
    decreases |c.states| - s, 0, 0
  {
    var r := Regions(c, s)[i];
    var t := Choice(c, cfg, r, q, history);
    EntryState(c, cfg[r := t], t, q, Continue(c, r, q, history, check))
  }

  // ---------------------------------------------------------------- time-out dry run

  ghost function TimeOutState(c: Chart, cfg: Config, s: nat, q: seq<nat>, history: bool): (v: Visit)
    requires Wf(c) && ValidConfig(c, cfg) && s < |c.states|
    ensures v.cfg == cfg
    decreases |c.states| - s, 1, 0
  {
    var v := TimeOutRegions(c, cfg, s, 0, Pop(q, s), history, CheckHistory(q, s, history));
    v.(trace := [s] + v.trace)
  }

  ghost function TimeOutRegions(c: Chart, cfg: Config, s: nat, i: nat, q: seq<nat>, history: bool, check: bool): (v: Visit)
    requires Wf(c) && ValidConfig(c, cfg) && s < |c.states| && i <= |Regions(c, s)|
    ensures v.cfg == cfg
    decreases |c.states| - s, 0, |Regions(c, s)| - i
  {
    if i == |Regions(c, s)| then Visit(cfg, q, []) else
      var v := TimeOutRegion(c, cfg, s, i, q, history, check);
      var w := TimeOutRegions(c, cfg, s, i + 1, v.queue, history, check);
      w.(trace := v.trace + w.trace)
  }

  ghost function TimeOutRegion(c: Chart, cfg: Config, s: nat, i: nat, q: seq<nat>, history: bool, check: bool): (v: Visit)
    requires Wf(c) && ValidConfig(c, cfg) && s < |c.states| && i < |Regions(c, s)|
    ensures v.cfg == cfg
    decreases |c.states| - s, 0, 0
  {
    var r := Regions(c, s)[i];
    TimeOutState(c, cfg, Choice(c, cfg, r, q, history), q, Continue(c, r, q, history, check))
  }

  // ---------------------------------------------------------------- one step of the region loops

  lemma ExitStep(c: Chart, cfg: Config, s: nat, i: nat)
    requires Wf(c) && ValidConfig(c, cfg) && s < |c.states| && i < |Regions(c, s)|
    ensures var t := cfg[Regions(c, s)[i]];
            && s < t < |c.states|
            && ExitRegions(c, cfg, s, i) == ExitState(c, cfg, t) + ExitRegions(c, cfg, s, i + 1)
  {
    ChildOf(c, Regions(c, s)[i], cfg[Regions(c, s)[i]]);
  }

  lemma TimeOutUnfold(c: Chart, cfg: Config, s: nat, q: seq<nat>, history: bool)
    requires Wf(c) && ValidConfig(c, cfg) && s < |c.states|
    ensures var v := TimeOutRegions(c, cfg, s, 0, Pop(q, s), history, CheckHistory(q, s, history));
            TimeOutState(c, cfg, s, q, history).queue == v.queue && TimeOutState(c, cfg, s, q, history).trace == [s] + v.trace
  {
  }

  lemma TimeOutStep(c: Chart, cfg: Config, s: nat, i: nat, q: seq<nat>, history: bool, check: bool)
    requires Wf(c) && ValidConfig(c, cfg) && s < |c.states| && i < |Regions(c, s)|
    ensures var v := TimeOutRegion(c, cfg, s, i, q, history, check);
            var w, all := TimeOutRegions(c, cfg, s, i + 1, v.queue, history, check), TimeOutRegions(c, cfg, s, i, q, history, check);
            all.queue == w.queue && all.trace == v.trace + w.trace
  {
  }

  lemma EntryStep(c: Chart, cfg: Config, s: nat, i: nat, q: seq<nat>, history: bool, check: bool)
    requires Wf(c) && ValidConfig(c, cfg) && s < |c.states| && i < |Regions(c, s)|
    ensures var v := EntryRegion(c, cfg, s, i, q, history, check);
            var w, all := EntryRegions(c, v.cfg, s, i + 1, v.queue, history, check), EntryRegions(c, cfg, s, i, q, history, check);
            all.cfg == w.cfg && all.queue == w.queue && all.trace == v.trace + w.trace
  {
  }

  // ---------------------------------------------------------------- what entry can change

  /** Entering `s` sets the pointer of its region and otherwise stays below `s`. */
  lemma {:induction false} EntryFrame(c: Chart, cfg: Config, s: nat, q: seq<nat>, history: bool)
    requires Wf(c) && ValidConfig(c, cfg) && s < |c.states|
    ensures var v := EntryState(c, cfg, s, q, history);
            && (s != 0 ==> v.cfg[RegionOf(c, s)] == s)
            && forall r :: 0 <= r < |c.regions| && !Below(c, Owner(c, r), s) && (s == 0 || r != RegionOf(c, s))
                 ==> v.cfg[r] == cfg[r]
    decreases |c.states| - s, 1, 0
  {
    EntryRegionsFrame(c, SetCurrent(c, cfg, s), s, 0, Pop(q, s), history, CheckHistory(q, s, history));
  }

  /** Two configurations agree outside the part below `s` and in the regions of `s` before the `i`-th. */
  ghost predicate KeepsBefore(c: Chart, a: Config, b: Config, s: nat, i: nat)
    requires Wf(c) && s < |c.states| && i <= |Regions(c, s)| && |a| == |b| == |c.regions|
  {
    && (forall r :: 0 <= r < |c.regions| && !Below(c, Owner(c, r), s) ==> b[r] == a[r])
    && (forall r, j :: 0 <= r < |c.regions| && 0 <= j < i && Nested(c, r, Regions(c, s)[j]) ==> b[r] == a[r])
  }

  lemma OneRegionKeeps(c: Chart, a: Config, b: Config, s: nat, i: nat)
    requires Wf(c) && s < |c.states| && i < |Regions(c, s)| && |a| == |b| == |c.regions|
    requires forall r :: 0 <= r < |c.regions| && !Nested(c, r, Regions(c, s)[i]) ==> b[r] == a[r]
    ensures KeepsBefore(c, a, b, s, i)
  {
    forall r, j | 0 <= r < |c.regions| && 0 <= j < i && Nested(c, r, Regions(c, s)[j])
      ensures b[r] == a[r]
    {
      NestedSiblings(c, r, Regions(c, s)[j], Regions(c, s)[i]);
    }
    forall r | 0 <= r < |c.regions| && !Below(c, Owner(c, r), s)
      ensures b[r] == a[r]
    {
      if Under(c, Owner(c, r), Regions(c, s)[i]) {
        UnderBelowOwner(c, Owner(c, r), Regions(c, s)[i]);
      }
    }
  }

  lemma KeepsTrans(c: Chart, a: Config, b: Config, d: Config, s: nat, i: nat)
    requires Wf(c) && s < |c.states| && i < |Regions(c, s)| && |a| == |b| == |d| == |c.regions|
    requires KeepsBefore(c, a, b, s, i) && KeepsBefore(c, b, d, s, i + 1)
    ensures KeepsBefore(c, a, d, s, i)
  {
  }

  /** Entering the regions of `s` from the `i`-th on leaves the earlier ones and all else alone. */
  lemma {:induction false} EntryRegionsFrame(c: Chart, cfg: Config, s: nat, i: nat, q: seq<nat>, history: bool, check: bool)
    requires Wf(c) && ValidConfig(c, cfg) && s < |c.states| && i <= |Regions(c, s)|
    ensures KeepsBefore(c, cfg, EntryRegions(c, cfg, s, i, q, history, check).cfg, s, i)
    decreases |c.states| - s, 0, |Regions(c, s)| - i
  {
    if i < |Regions(c, s)| {
      var v := EntryRegion(c, cfg, s, i, q, history, check);
      EntryRegionFrame(c, cfg, s, i, q, history, check);
      OneRegionKeeps(c, cfg, v.cfg, s, i);
      EntryRegionsFrame(c, v.cfg, s, i + 1, v.queue, history, check);
      KeepsTrans(c, cfg, v.cfg, EntryRegions(c, v.cfg, s, i + 1, v.queue, history, check).cfg, s, i);
    }
  }

  /** Entering one region leaves all pointers outside it alone. */
  lemma {:induction false} EntryRegionFrame(c: Chart, cfg: Config, s: nat, i: nat, q: seq<nat>, history: bool, check: bool)
    requires Wf(c) && ValidConfig(c, cfg) && s < |c.states| && i < |Regions(c, s)|
    ensures var v := EntryRegion(c, cfg, s, i, q, history, check);
            && v.cfg[Regions(c, s)[i]] == Choice(c, cfg, Regions(c, s)[i], q, history)
            && forall x :: 0 <= x < |c.regions| && !Nested(c, x, Regions(c, s)[i]) ==> v.cfg[x] == cfg[x]
    decreases |c.states| - s, 0, 0
  {
    var r := Regions(c, s)[i];
    var t := Choice(c, cfg, r, q, history);
    EntryFrame(c, cfg[r := t], t, q, Continue(c, r, q, history, check));
    forall x | 0 <= x < |c.regions| && !Nested(c, x, r)
      ensures !Below(c, Owner(c, x), t)
    {
      if Below(c, Owner(c, x), t) {
        BelowUnder(c, Owner(c, x), t);
      }
    }
  }

  /** No region is nested in two siblings. */
  lemma NestedSiblings(c: Chart, x: nat, r: nat, r': nat)
    requires Wf(c) && x < |c.regions| && r < |c.regions| && r' < |c.regions|
    requires Owner(c, r) == Owner(c, r') && r != r' && Nested(c, x, r)
    ensures !Nested(c, x, r')
  {
    if Nested(c, x, r') {
      if x == r {
        UnderBelowOwner(c, Owner(c, x), r');
      } else if x == r' {
        UnderBelowOwner(c, Owner(c, x), r);
      } else {
        SiblingsDisjoint(c, Owner(c, x), r, r');
      }
    }
  }

  /** The active states of an earlier region survive the entry of the later ones. */
  lemma EarlierRegionKept(c: Chart, cfg: Config, s: nat, i: nat, q: seq<nat>, history: bool, check: bool, j: nat)
    requires Wf(c) && ValidConfig(c, cfg) && s < |c.states| && j < i <= |Regions(c, s)|
    ensures var v := EntryRegions(c, cfg, s, i, q, history, check);
            && v.cfg[Regions(c, s)[j]] == cfg[Regions(c, s)[j]]
            && ActiveBelow(c, v.cfg, cfg[Regions(c, s)[j]]) == ActiveBelow(c, cfg, cfg[Regions(c, s)[j]])
  {
    var v := EntryRegions(c, cfg, s, i, q, history, check);
    var r := Regions(c, s)[j];
    EntryRegionsFrame(c, cfg, s, i, q, history, check);
    assert Nested(c, r, r);
    ChildOf(c, r, cfg[r]);
    forall x | 0 <= x < |c.regions| && Below(c, Owner(c, x), cfg[r])
      ensures cfg[x] == v.cfg[x]
    {
      BelowUnder(c, Owner(c, x), cfg[r]);
      assert Nested(c, x, r);
    }
    ActiveBelowFrame(c, cfg, v.cfg, cfg[r]);
  }

  // ---------------------------------------------------------------- the queue

  /** With an empty queue nothing is ever put back on it. */
  lemma {:induction false} EntryEmptyQueue(c: Chart, cfg: Config, s: nat, history: bool)
    requires Wf(c) && ValidConfig(c, cfg) && s < |c.states|
    ensures EntryState(c, cfg, s, [], history).queue == []
    decreases |c.states| - s, 1, 0
  {
    EntryRegionsEmptyQueue(c, SetCurrent(c, cfg, s), s, 0, history, false);
  }

  lemma {:induction false} EntryRegionsEmptyQueue(c: Chart, cfg: Config, s: nat, i: nat, history: bool, check: bool)
    requires Wf(c) && ValidConfig(c, cfg) && s < |c.states| && i <= |Regions(c, s)|
    ensures EntryRegions(c, cfg, s, i, [], history, check).queue == []
    decreases |c.states| - s, 0, |Regions(c, s)| - i
  {
    if i < |Regions(c, s)| {
      var r := Regions(c, s)[i];
      var t := Choice(c, cfg, r, [], history);
      EntryEmptyQueue(c, cfg[r := t], t, Continue(c, r, [], history, check));
      EntryRegionsEmptyQueue(c, EntryRegion(c, cfg, s, i, [], history, check).cfg, s, i + 1, history, check);
    }
  }

  /** A traversal that the front of the queue does not belong to leaves the queue alone. */
  lemma {:induction false} EntryOffPath(c: Chart, cfg: Config, s: nat, q: seq<nat>, history: bool)
    requires Wf(c) && ValidConfig(c, cfg) && s < |c.states|
    requires q != [] && q[0] < |c.states| && !Below(c, q[0], s)
    ensures EntryState(c, cfg, s, q, history).queue == q
    decreases |c.states| - s, 1, 0
  {
    forall j | 0 <= j < |Regions(c, s)|
      ensures !Under(c, q[0], Regions(c, s)[j])
    {
      if Under(c, q[0], Regions(c, s)[j]) { UnderBelowOwner(c, q[0], Regions(c, s)[j]); }
    }
    EntryRegionsOffPath(c, SetCurrent(c, cfg, s), s, 0, |Regions(c, s)|, q, history, false);
  }

  /** The regions `i` to `k` of `s`, none of which holds the front of the queue, leave it alone. */
  lemma {:induction false} EntryRegionsOffPath(c: Chart, cfg: Config, s: nat, i: nat, k: nat, q: seq<nat>, history: bool, check: bool)
    requires Wf(c) && ValidConfig(c, cfg) && s < |c.states| && i <= k <= |Regions(c, s)|
    requires q != [] && q[0] < |c.states|
    requires forall j :: i <= j < k ==> !Under(c, q[0], Regions(c, s)[j])
    ensures k == |Regions(c, s)| ==> EntryRegions(c, cfg, s, i, q, history, check).queue == q
    ensures i < k ==> EntryRegion(c, cfg, s, i, q, history, check).queue == q
    decreases |c.states| - s, 0, |Regions(c, s)| - i
  {
    if i < k {
      var r := Regions(c, s)[i];
      var t := Choice(c, cfg, r, q, history);
      if Below(c, q[0], t) { BelowUnder(c, q[0], t); }
      EntryOffPath(c, cfg[r := t], t, q, Continue(c, r, q, history, check));
      var v := EntryRegion(c, cfg, s, i, q, history, check);
      EntryRegionsOffPath(c, v.cfg, s, i + 1, k, q, history, check);
    }
  }

  // ---------------------------------------------------------------- the dry run is faithful

  /** The time-out traversal visits the states that entry visits, in the same order, and
      consumes the queue alike; it only reads pointers that entry has not yet overwritten. */
  lemma {:induction false} TimeOutIsDryRun(c: Chart, cfg: Config, cfg': Config, s: nat, q: seq<nat>, history: bool)
    requires Wf(c) && ValidConfig(c, cfg) && ValidConfig(c, cfg') && s < |c.states|
    requires forall r :: 0 <= r < |c.regions| && Below(c, Owner(c, r), s) ==> cfg[r] == cfg'[r]
    ensures var dry, done := TimeOutState(c, cfg, s, q, history), EntryState(c, cfg', s, q, history);
            dry.trace == done.trace && dry.queue == done.queue && dry.cfg == cfg
    decreases |c.states| - s, 1, 0
  {
    forall r, j | 0 <= r < |c.regions| && 0 <= j < |Regions(c, s)| && Nested(c, r, Regions(c, s)[j])
      ensures cfg[r] == SetCurrent(c, cfg', s)[r]
    {
      NestedOwner(c, r, s, j);
    }
    TimeOutRegionsIsDryRun(c, cfg, SetCurrent(c, cfg', s), s, 0, Pop(q, s), history, CheckHistory(q, s, history));
  }

  lemma NestedOwner(c: Chart, r: nat, s: nat, j: nat)
    requires Wf(c) && r < |c.regions| && s < |c.states| && j < |Regions(c, s)| && Nested(c, r, Regions(c, s)[j])
    ensures Below(c, Owner(c, r), s)
  {
    if r != Regions(c, s)[j] {
      UnderBelowOwner(c, Owner(c, r), Regions(c, s)[j]);
    }
  }

  lemma {:induction false} TimeOutRegionsIsDryRun(c: Chart, cfg: Config, cfg': Config, s: nat, i: nat, q: seq<nat>, history: bool, check: bool)
    requires Wf(c) && ValidConfig(c, cfg) && ValidConfig(c, cfg') && s < |c.states| && i <= |Regions(c, s)|
    requires forall r, j :: 0 <= r < |c.regions| && i <= j < |Regions(c, s)| && Nested(c, r, Regions(c, s)[j]) ==> cfg[r] == cfg'[r]
    ensures var dry, done := TimeOutRegions(c, cfg, s, i, q, history, check), EntryRegions(c, cfg', s, i, q, history, check);
            dry.trace == done.trace && dry.queue == done.queue
    decreases |c.states| - s, 0, |Regions(c, s)| - i
  {
    if i < |Regions(c, s)| {
      var r := Regions(c, s)[i];
      assert Nested(c, r, r);
      var t := Choice(c, cfg, r, q, history);
      AgreeInside(c, cfg, cfg', r, t);
      TimeOutIsDryRun(c, cfg, cfg'[r := t], t, q, Continue(c, r, q, history, check));
      var v := EntryRegion(c, cfg', s, i, q, history, check);
      AgreeLater(c, cfg, cfg', s, i, q, history, check);
      TimeOutRegionsIsDryRun(c, cfg, v.cfg, s, i + 1, v.queue, history, check);
    }
  }

  lemma AgreeInside(c: Chart, cfg: Config, cfg': Config, r: nat, t: nat)
    requires Wf(c) && ValidConfig(c, cfg) && ValidConfig(c, cfg') && 0 < t < |c.states| && RegionOf(c, t) == r
    requires forall x :: 0 <= x < |c.regions| && Nested(c, x, r) ==> cfg[x] == cfg'[x]
    ensures forall x :: 0 <= x < |c.regions| && Below(c, Owner(c, x), t) ==> cfg[x] == cfg'[r := t][x]
  {
    forall x | 0 <= x < |c.regions| && Below(c, Owner(c, x), t)
      ensures cfg[x] == cfg'[r := t][x]
    {
      BelowUnder(c, Owner(c, x), t);
      UnderBelowOwner(c, Owner(c, x), r);
    }
  }

  lemma AgreeLater(c: Chart, cfg: Config, cfg': Config, s: nat, i: nat, q: seq<nat>, history: bool, check: bool)
    requires Wf(c) && ValidConfig(c, cfg) && ValidConfig(c, cfg') && s < |c.states| && i < |Regions(c, s)|
    requires forall r, j :: 0 <= r < |c.regions| && i <= j < |Regions(c, s)| && Nested(c, r, Regions(c, s)[j]) ==> cfg[r] == cfg'[r]
    ensures forall r, j :: 0 <= r < |c.regions| && i + 1 <= j < |Regions(c, s)| && Nested(c, r, Regions(c, s)[j])
                           ==> cfg[r] == EntryRegion(c, cfg', s, i, q, history, check).cfg[r]
  {
    EntryRegionFrame(c, cfg', s, i, q, history, check);
    forall r, j | 0 <= r < |c.regions| && i + 1 <= j < |Regions(c, s)| && Nested(c, r, Regions(c, s)[j])
      ensures cfg[r] == EntryRegion(c, cfg', s, i, q, history, check).cfg[r]
    {
      NestedSiblings(c, r, Regions(c, s)[j], Regions(c, s)[i]);
    }
  }
}
