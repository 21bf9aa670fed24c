/** Firing one transition: its exit state and the states it enters, computed from the paths to
    the root, and the effect of exit followed by entry on the current-state pointers. */
module Firing {
  import opened Charts
  import opened Traversal

  // ---------------------------------------------------------------- paths to the root

  /** The ancestors of `s`, root first. */
  ghost function Path(c: Chart, s: nat): (p: seq<nat>)
    requires Wf(c) && s < |c.states|
    ensures forall k :: 0 <= k < |p| ==> p[k] < s
    decreases s
  {
    if s == 0 then [] else Path(c, Parent(c, s)) + [Parent(c, s)]
  }

  /** `p` descends one level at a time. */
  ghost predicate Chain(c: Chart, p: seq<nat>)
    requires Wf(c)
  {
    && (forall k :: 0 <= k < |p| ==> p[k] < |c.states|)
    && (forall k :: 0 < k < |p| ==> p[k] != 0 && Parent(c, p[k]) == p[k - 1])
  }

  /** The path to the root, with the state itself, is a chain that starts at the root and
      consists of the ancestors of the state. */
  lemma {:induction false} PathIsChain(c: Chart, s: nat)
    requires Wf(c) && s < |c.states|
    ensures Chain(c, Path(c, s) + [s])
    ensures (Path(c, s) + [s])[0] == 0
    ensures forall k :: 0 <= k <= |Path(c, s)| ==> Below(c, s, (Path(c, s) + [s])[k])
    decreases s
  {
    if s != 0 {
      PathIsChain(c, Parent(c, s));
      var p, p' := Path(c, s) + [s], Path(c, Parent(c, s)) + [Parent(c, s)];
      forall k | 0 <= k < |p'|
        ensures Below(c, s, p'[k])
      {
        BelowTrans(c, s, Parent(c, s), p'[k]);
      }
    }
  }

  lemma {:induction false} PathStartsAtRoot(c: Chart, s: nat)
    requires Wf(c) && s < |c.states|
    ensures if s == 0 then Path(c, s) == [] else Path(c, s) != [] && Path(c, s)[0] == 0
    decreases s
  {
    if s != 0 { PathStartsAtRoot(c, Parent(c, s)); }
  }

  /** The first index at which two paths differ, or the length of the shorter one. */
  function FirstDifference(a: seq<nat>, b: seq<nat>, i: nat): (d: nat)
    requires i <= |a| && i <= |b|
    ensures i <= d <= |a| && d <= |b|
    ensures d < |a| && d < |b| ==> a[d] != b[d]
    ensures forall k :: i <= k < d ==> a[k] == b[k]
    decreases |a| - i
  {
    if i < |a| && i < |b| && a[i] == b[i] then FirstDifference(a, b, i + 1) else i
  }

  // ---------------------------------------------------------------- exit and entry points

  /** The state to exit, whether the transition crosses parallel regions (the exit state is then
      not itself exited or entered), and the states to enter. */
  datatype Points = Points(exit: nat, parallel: bool, enter: seq<nat>)

  /** The entry and exit points for a source and target whose paths part at index `i`. */
  function PointsAt(source: nat, target: nat, sp: seq<nat>, tp: seq<nat>, i: nat, crosses: bool): (p: Points)
    requires i <= |sp| && i <= |tp| && (crosses ==> 0 < i < |sp| && i < |tp|)
  {
    if crosses then Points(sp[i - 1], true, [sp[i - 1]] + tp[i..] + [target])
    else Points(if i < |sp| && i < |tp| then sp[i] else source, false, tp[i..] + [target])
  }

  lemma PointsBound(source: nat, target: nat, sp: seq<nat>, tp: seq<nat>, i: nat, crosses: bool, n: nat)
    requires i <= |sp| && i <= |tp| && (crosses ==> 0 < i < |sp| && i < |tp|)
    requires source < n && target < n && (forall k :: 0 <= k < |sp| ==> sp[k] < n) && (forall k :: 0 <= k < |tp| ==> tp[k] < n)
    ensures var p := PointsAt(source, target, sp, tp, i, crosses);
            p.enter != [] && p.exit < n && forall k :: 0 <= k < |p.enter| ==> p.enter[k] < n
  {
  }

  /** The states to enter are the end of the target's path, from an index `k` up to which source
      and target have the same ancestors. */
  lemma EnterIsSuffix(source: nat, target: nat, sp: seq<nat>, tp: seq<nat>, i: nat, crosses: bool) returns (k: nat)
    requires i <= |sp| && i <= |tp| && (crosses ==> 0 < i < |sp| && i < |tp|)
    requires forall j :: 0 <= j < i ==> sp[j] == tp[j]
    ensures var p, S, T := PointsAt(source, target, sp, tp, i, crosses), sp + [source], tp + [target];
            && k <= |sp| && k <= |tp| && p.enter == T[k..]
            && (0 < k ==> S[k - 1] == T[k - 1])
            && (p.parallel ==> p.exit == S[k] == T[k])
            && p.exit in S
  {
    k := if crosses then i - 1 else i;
    var S, T := sp + [source], tp + [target];
    if crosses {
      assert [sp[i - 1]] + tp[i..] + [target] == T[k..];
      assert S[k] == sp[k];
    } else {
      assert tp[i..] + [target] == T[k..];
      assert S[|sp|] == source;
      if i < |sp| { assert S[i] == sp[i]; }
    }
  }

  /** The paths part at this index in two regions of one state. */
  predicate Crosses(c: Chart, sp: seq<nat>, tp: seq<nat>, i: nat)
  {
    && i < |sp| && sp[i] < |c.states|
    && i < |tp| && tp[i] < |c.states|
    && c.states[sp[i]].region != c.states[tp[i]].region
  }

  ghost function PointsOf(c: Chart, t: Transition): (p: Points)
    requires Wf(c) && t.source < |c.states| && t.target < |c.states|
    ensures p.enter != [] && p.exit < |c.states| && forall k :: 0 <= k < |p.enter| ==> p.enter[k] < |c.states|
  {
    var sp, tp := Path(c, t.source), Path(c, t.target);
    var i := FirstDifference(sp, tp, 0);
    PathStartsAtRoot(c, t.source);
    PathStartsAtRoot(c, t.target);
    PointsBound(t.source, t.target, sp, tp, i, Crosses(c, sp, tp, i), |c.states|);
    PointsAt(t.source, t.target, sp, tp, i, Crosses(c, sp, tp, i))
  }

  /** The exit state and the first entered state coincide or share a region. */
  predicate Matched(c: Chart, exit: nat, first: nat)
    requires Wf(c) && exit < |c.states| && first < |c.states|
  {
    exit == first || (exit != 0 && first != 0 && RegionOf(c, exit) == RegionOf(c, first))
  }

  lemma ChainSuffix(c: Chart, p: seq<nat>, i: nat)
    requires Wf(c) && Chain(c, p) && i <= |p|
    ensures Chain(c, p[i..])
  {
    forall k | 0 < k < |p[i..]|
      ensures p[i..][k] != 0 && Parent(c, p[i..][k]) == p[i..][k - 1]
    {
      assert p[i + k] == p[i..][k];
    }
  }

  /** The states to enter form a parent-to-child chain that ends in the target; the exit state is
      the source or one of its ancestors; the first state entered hangs below an ancestor of the
      source. */
  lemma PointsShape(c: Chart, t: Transition)
    requires Wf(c) && t.source < |c.states| && t.target < |c.states|
    ensures var p := PointsOf(c, t);
            && Below(c, t.source, p.exit)
            && Chain(c, p.enter) && p.enter[|p.enter| - 1] == t.target
            && (p.parallel ==> p.exit == p.enter[0])
            && (p.enter[0] != 0 ==> Below(c, t.source, Parent(c, p.enter[0])))
  {
    var k := PointsSuffix(c, t);
    PathIsChain(c, t.source);
    PathIsChain(c, t.target);
    ChainSuffix(c, Path(c, t.target) + [t.target], k);
  }

  lemma PointsSuffix(c: Chart, t: Transition) returns (k: nat)
    requires Wf(c) && t.source < |c.states| && t.target < |c.states|
    ensures var p, S, T := PointsOf(c, t), Path(c, t.source) + [t.source], Path(c, t.target) + [t.target];
            && k < |S| && k < |T| && p.enter == T[k..]
            && (0 < k ==> S[k - 1] == T[k - 1])
            && (p.parallel ==> p.exit == S[k] == T[k])
            && p.exit in S
  {
    var sp, tp := Path(c, t.source), Path(c, t.target);
    var i := FirstDifference(sp, tp, 0);
    PathStartsAtRoot(c, t.source);
    PathStartsAtRoot(c, t.target);
    k := EnterIsSuffix(t.source, t.target, sp, tp, i, Crosses(c, sp, tp, i));
  }

  /** `a` and `b` are the ancestors of source and target at which their paths part. */
  ghost predicate PartAt(c: Chart, t: Transition, a: nat, b: nat)
    requires Wf(c) && t.source < |c.states| && t.target < |c.states|
  {
    && 0 < a < |c.states| && 0 < b < |c.states| && a != b && Parent(c, a) == Parent(c, b)
    && Below(c, t.source, a) && a != t.source && Below(c, t.target, b) && b != t.target
  }

  lemma PathsPart(c: Chart, t: Transition, i: nat)
    requires Wf(c) && t.source < |c.states| && t.target < |c.states|
    requires i == FirstDifference(Path(c, t.source), Path(c, t.target), 0) && i < |Path(c, t.source)| && i < |Path(c, t.target)|
    ensures 0 < i && PartAt(c, t, Path(c, t.source)[i], Path(c, t.target)[i])
    ensures Path(c, t.source)[i - 1] == Parent(c, Path(c, t.source)[i])
  {
    var sp, tp := Path(c, t.source), Path(c, t.target);
    PathIsChain(c, t.source);
    PathIsChain(c, t.target);
    assert (sp + [t.source])[0] == sp[0] == 0 && (tp + [t.target])[0] == tp[0] == 0;
    assert (sp + [t.source])[i] == sp[i] && (tp + [t.target])[i] == tp[i];
    assert (sp + [t.source])[i - 1] == sp[i - 1] && (tp + [t.target])[i - 1] == tp[i - 1];
  }

  /** Main result on the points: where the paths part, the states at which they part are exited and
      entered if they share a region, and otherwise their parent is left and entered again from inside.
      Where one path ends on the other, the source is exited and the next state on the target's path, or
      the target, is entered. */
  lemma {:induction false} PointsExactly(c: Chart, t: Transition) returns (a: nat, b: nat)
    requires Wf(c) && t.source < |c.states| && t.target < |c.states|
    ensures var p, sp, tp := PointsOf(c, t), Path(c, t.source), Path(c, t.target);
            if !(tp <= sp) && !(sp <= tp) then
              && PartAt(c, t, a, b)
              && (p.parallel <==> RegionOf(c, a) != RegionOf(c, b))
              && p.exit == (if p.parallel then Parent(c, a) else a)
              && p.enter[0] == (if p.parallel then Parent(c, b) else b)
            else
              && !p.parallel && p.exit == t.source
              && p.enter[0] == (if sp <= tp then (tp + [t.target])[|sp|] else t.target)
  {
    var sp, tp := Path(c, t.source), Path(c, t.target);
    var i := FirstDifference(sp, tp, 0);
    a, b := 0, 0;
    if i < |sp| && i < |tp| {
      a, b := sp[i], tp[i];
      PathsPart(c, t, i);
      PartPoints(c, t, i);
    } else {
      EndPoints(c, t, i);
    }
  }

  lemma PartPoints(c: Chart, t: Transition, i: nat)
    requires Wf(c) && t.source < |c.states| && t.target < |c.states|
    requires i == FirstDifference(Path(c, t.source), Path(c, t.target), 0) && 0 < i < |Path(c, t.source)| && i < |Path(c, t.target)|
    requires PartAt(c, t, Path(c, t.source)[i], Path(c, t.target)[i])
    ensures var p, sp, tp := PointsOf(c, t), Path(c, t.source), Path(c, t.target);
            && !(tp <= sp) && !(sp <= tp)
            && (p.parallel <==> RegionOf(c, sp[i]) != RegionOf(c, tp[i]))
            && p.exit == (if p.parallel then sp[i - 1] else sp[i])
            && p.enter[0] == (if p.parallel then sp[i - 1] else tp[i])
  {
    var sp, tp := Path(c, t.source), Path(c, t.target);
    assert WfState(c, sp[i]) && WfState(c, tp[i]);
  }

  lemma EndPoints(c: Chart, t: Transition, i: nat)
    requires Wf(c) && t.source < |c.states| && t.target < |c.states|
    requires i == FirstDifference(Path(c, t.source), Path(c, t.target), 0) && (i == |Path(c, t.source)| || i == |Path(c, t.target)|)
    ensures var p, sp, tp := PointsOf(c, t), Path(c, t.source), Path(c, t.target);
            && (tp <= sp || sp <= tp) && !p.parallel && p.exit == t.source
            && p.enter[0] == (if sp <= tp then (tp + [t.target])[|sp|] else t.target)
  {
    var sp, tp := Path(c, t.source), Path(c, t.target);
    if i == |sp| {
      assert sp == tp[..i];
      assert tp[i..] + [t.target] == (tp + [t.target])[i..];
    } else {
      assert tp == sp[..i];
      assert tp[i..] + [t.target] == [t.target];
    }
  }

  /** Exit and first entry match exactly when the paths of source and target part before either of
      them ends, or the source's path goes on to the target and the next state on it, or the target
      itself, is in the source's region.  They do not match when the target's path is a proper
      beginning of the source's, or when the next state is in another region of the common parent. */
  lemma MatchedExactly(c: Chart, t: Transition)
    requires Wf(c) && t.source < |c.states| && t.target < |c.states|
    ensures var p, sp, tp := PointsOf(c, t), Path(c, t.source), Path(c, t.target);
            Matched(c, p.exit, p.enter[0]) <==>
              || !(tp <= sp || sp <= tp)
              || (sp <= tp && c.states[(tp + [t.target])[|sp|]].region == c.states[t.source].region)
  {
    var sp, tp := Path(c, t.source), Path(c, t.target);
    PathIsChain(c, t.source);
    PathIsChain(c, t.target);
    var i := FirstDifference(sp, tp, 0);
    if i < |sp| && i < |tp| {
      PartingMatches(c, t);
      assert !(tp <= sp) && !(sp <= tp);
    } else if i == |sp| {
      SourceEndMatches(c, t);
      assert sp == tp[..i];
    } else {
      TargetEndMismatches(c, t);
      assert tp == sp[..i] && !(sp <= tp);
    }
  }

  /** The paths part before either of them ends. */
  lemma PartingMatches(c: Chart, t: Transition)
    requires Wf(c) && t.source < |c.states| && t.target < |c.states|
    requires var sp, tp := Path(c, t.source), Path(c, t.target); FirstDifference(sp, tp, 0) < |sp| && FirstDifference(sp, tp, 0) < |tp|
    ensures Matched(c, PointsOf(c, t).exit, PointsOf(c, t).enter[0])
  {
    var sp, tp := Path(c, t.source), Path(c, t.target);
    var i := FirstDifference(sp, tp, 0);
    PointsShape(c, t);
    PathIsChain(c, t.source);
    PathIsChain(c, t.target);
    assert (sp + [t.source])[0] == sp[0] == 0 && (tp + [t.target])[0] == tp[0] == 0;
    assert (sp + [t.source])[i] == sp[i] && (tp + [t.target])[i] == tp[i];
    if !Crosses(c, sp, tp, i) {
      assert WfState(c, sp[i]) && WfState(c, tp[i]);
    }
  }

  /** The path of the source is a beginning of the target's. */
  lemma SourceEndMatches(c: Chart, t: Transition)
    requires Wf(c) && t.source < |c.states| && t.target < |c.states|
    requires var sp, tp := Path(c, t.source), Path(c, t.target); FirstDifference(sp, tp, 0) == |sp| <= |tp|
    ensures var sp, tp := Path(c, t.source), Path(c, t.target);
            && |sp| < |tp + [t.target]| && (tp + [t.target])[|sp|] < |c.states|
            && (Matched(c, PointsOf(c, t).exit, PointsOf(c, t).enter[0])
                <==> c.states[(tp + [t.target])[|sp|]].region == c.states[t.source].region)
  {
    var sp, tp := Path(c, t.source), Path(c, t.target);
    PathIsChain(c, t.target);
    var next := (tp + [t.target])[|sp|];
    assert PointsOf(c, t).enter == tp[|sp|..] + [t.target] && PointsOf(c, t).enter[0] == next;
    assert WfState(c, t.source) && WfState(c, next);
  }

  /** The path of the target is a proper beginning of the source's. */
  lemma TargetEndMismatches(c: Chart, t: Transition)
    requires Wf(c) && t.source < |c.states| && t.target < |c.states|
    requires var sp, tp := Path(c, t.source), Path(c, t.target); FirstDifference(sp, tp, 0) == |tp| < |sp|
    ensures !Matched(c, PointsOf(c, t).exit, PointsOf(c, t).enter[0])
  {
    var tp := Path(c, t.target);
    assert tp[|tp|..] + [t.target] == [t.target];
    DepthDiffers(c, t.source, t.target);
  }

  lemma DepthDiffers(c: Chart, s: nat, t: nat)
    requires Wf(c) && s < |c.states| && t < |c.states| && |Path(c, t)| < |Path(c, s)|
    ensures !Matched(c, s, t)
  {
  }

  // ---------------------------------------------------------------- one firing

  datatype Event = Exit(state: nat) | Enter(state: nat)

  function Exits(p: seq<nat>): seq<Event> { seq(|p|, i requires 0 <= i < |p| => Exit(p[i])) }

  function Enters(p: seq<nat>): seq<Event> { seq(|p|, i requires 0 <= i < |p| => Enter(p[i])) }

  datatype Fired = Fired(cfg: Config, events: seq<Event>)

  /** Exit, then entry along the states to enter. */
  ghost function Fire(c: Chart, cfg: Config, t: Transition): (f: Fired)
    requires Wf(c) && ValidConfig(c, cfg) && t.source < |c.states| && t.target < |c.states|
    ensures ValidConfig(c, f.cfg)
  {
    PointsShape(c, t);
    var p := PointsOf(c, t);
    var v := EntryState(c, cfg, p.enter[0], p.enter, t.history);
    Fired(v.cfg,
          Exits(if p.parallel then ExitRegions(c, cfg, p.exit, 0) else ExitState(c, cfg, p.exit))
          + Enters(if p.parallel then v.trace[1..] else v.trace))
  }

  /** The exit state of a transition between parallel regions has regions. */
  lemma ParallelHasRegions(c: Chart, t: Transition)
    requires Wf(c) && t.source < |c.states| && t.target < |c.states| && PointsOf(c, t).parallel
    ensures Regions(c, PointsOf(c, t).exit) != [] && PointsOf(c, t).exit == PointsOf(c, t).enter[0]
  {
    PointsShape(c, t);
    var p := PointsOf(c, t);
    assert |p.enter| > 1 && Parent(c, p.enter[1]) == p.exit;
    var j := RegionIndex(c, RegionOf(c, p.enter[1]));
  }

  /** Firing changes no pointer outside the regions below the first entered state and its own. */
  lemma FireFrame(c: Chart, cfg: Config, t: Transition, r: nat)
    requires Wf(c) && ValidConfig(c, cfg) && t.source < |c.states| && t.target < |c.states| && r < |c.regions|
    ensures var p := PointsOf(c, t);
            (!Below(c, Owner(c, r), p.enter[0]) && (p.enter[0] == 0 || r != RegionOf(c, p.enter[0]))
             ==> Fire(c, cfg, t).cfg[r] == cfg[r])
  {
    PointsShape(c, t);
    EntryFrame(c, cfg, PointsOf(c, t).enter[0], PointsOf(c, t).enter, t.history);
  }

  /** After entry at `first` below an active parent, a state outside the region of `first` is
      active just when it was, and one inside it just when it is active below `first`. */
  lemma {:induction false} ActiveAfterEntry(c: Chart, cfg: Config, first: nat, q: seq<nat>, history: bool, x: nat)
    requires Wf(c) && ValidConfig(c, cfg) && 0 < first < |c.states| && x < |c.states|
    requires Active(c, cfg, Parent(c, first))
    ensures var v := EntryState(c, cfg, first, q, history);
            Active(c, v.cfg, x) <==> if Under(c, x, RegionOf(c, first)) then Act(c, v.cfg, x, first) else Active(c, cfg, x)
    decreases x
  {
    var v := EntryState(c, cfg, first, q, history);
    var rho := RegionOf(c, first);
    EntryFrame(c, cfg, first, q, history);
    if x > 0 {
      ActiveAfterEntry(c, cfg, first, q, history, Parent(c, x));
      if !Under(c, x, rho) {
        assert v.cfg[RegionOf(c, x)] == cfg[RegionOf(c, x)] by {
          if Below(c, Parent(c, x), first) { BelowUnder(c, Parent(c, x), first); }
        }
      }
    }
  }
}
