/** Start-up barriers and hyperperiod start of one system module manager and its children, over a
    network that loses and reorders messages but neither duplicates nor forges them.  Messages carry
    no round number; the `round` of a packet is known to the proof alone and no step looks at it. */
module Barrier {

  datatype Kind = Ack(round: nat) | Start | Stop

  /** A READY from a child, a broadcast copy for a child, or the parent's own copy of a broadcast. */
  datatype Packet = Ready(src: nat, round: nat) | ToChild(dst: nat, kind: Kind) | Echo(kind: Kind)

  /** `entered` and `left` count barrier rounds, the last of them being the report that the module is
      ready; `frames` counts hyperperiods run. */
  datatype Child = Child(entered: nat, left: nat, frames: nat, stopped: bool)

  /** `collecting` is true inside the parent's receive loop; `starts` counts broadcasts of START. */
  datatype System = System(barriers: nat, round: nat, collecting: bool, answered: seq<bool>, starts: nat, stopped: bool,
                           children: seq<Child>, net: multiset<Packet>)

  datatype Step =
    | ParentEnter
    | ParentReceive(p: Packet)
    | ParentLeave
    | ParentStart
    | ParentStop
    | ChildEnter(c: nat)
    | ChildReceive(c: nat, p: Packet)
    | Lose(p: Packet)

  function Initial(n: nat, barriers: nat): System {
    System(barriers, 0, false, seq(n, _ => false), 0, false, seq(n, _ => Child(0, 0, 0, false)), multiset{})
  }

  /** A broadcast reaches every child and the sender. */
  function Broadcast(n: nat, kind: Kind): multiset<Packet> {
    if n == 0 then multiset{Echo(kind)} else Broadcast(n - 1, kind) + multiset{ToChild(n - 1, kind)}
  }

  predicate Waiting(x: Child) { x.left < x.entered }

  /** A child that has reported ready waits for START and STOP. */
  predicate Looping(s: System, x: Child) { x.left == s.barriers + 1 && !x.stopped }

  predicate Enabled(s: System, step: Step) {
    match step
    case ParentEnter => !s.collecting && s.round <= s.barriers
    case ParentReceive(p) => s.collecting && p in s.net && (p.Ready? || p.Echo?) && (exists c :: 0 <= c < |s.answered| && !s.answered[c])
    case ParentLeave => s.collecting && forall c :: 0 <= c < |s.answered| ==> s.answered[c]
    case ParentStart => s.round == s.barriers + 1 && !s.stopped
    case ParentStop => s.round == s.barriers + 1 && !s.stopped
    case ChildEnter(c) => c < |s.children| && !Waiting(s.children[c]) && s.children[c].entered <= s.barriers
    case ChildReceive(c, p) =>
      c < |s.children| && p in s.net && p.ToChild? && p.dst == c && (Waiting(s.children[c]) || Looping(s, s.children[c]))
    case Lose(p) => p in s.net
  }

  /** A waiting child goes on after any message of its parent: the result of the call is not used. */
  function Receive(s: System, x: Child, kind: Kind): Child {
    if Waiting(x) then x.(left := x.entered)
    else if kind == Start then x.(frames := x.frames + 1)
    else if kind == Stop then x.(stopped := true)
    else x
  }

  function Do(s: System, step: Step): System
    requires Enabled(s, step)
  {
    var n := |s.children|;
    match step
    case ParentEnter => s.(collecting := true, answered := seq(|s.answered|, _ => false))
    case ParentReceive(p) =>
      s.(net := s.net - multiset{p},
         answered := if p.Ready? && p.src < |s.answered| then s.answered[p.src := true] else s.answered)
    case ParentLeave =>
      s.(collecting := false, round := s.round + 1,
         net := if s.round < s.barriers then s.net + Broadcast(n, Ack(s.round)) else s.net)
    case ParentStart => s.(starts := s.starts + 1, net := s.net + Broadcast(n, Start))
    case ParentStop => s.(stopped := true, net := s.net + Broadcast(n, Stop))
    case ChildEnter(c) =>
      var x := s.children[c];
      s.(net := s.net + multiset{Ready(c, x.entered)},
         children := s.children[c := x.(entered := x.entered + 1, left := if x.entered < s.barriers then x.left else x.entered + 1)])
    case ChildReceive(c, p) =>
      s.(net := s.net - multiset{p}, children := s.children[c := Receive(s, s.children[c], p.kind)])
    case Lose(p) => s.(net := s.net - multiset{p})
  }

  // ---------------------------------------------------------------- the invariant

  /** Where a child can be when the parent has finished `s.round` rounds. */
  ghost predicate ChildInv(s: System, c: nat)
    requires c < |s.children| == |s.answered|
  {
    var x := s.children[c];
    && x.left <= x.entered <= x.left + 1
    && x.entered <= s.barriers + 1
    && (x.entered == s.barriers + 1 ==> x.left == x.entered)
    && s.round <= x.entered <= s.round + 1
    && (x.left <= s.barriers ==> x.left <= s.round)
    && (s.collecting && s.answered[c] ==> x.entered == s.round + 1)
    && x.frames + s.net[ToChild(c, Start)] <= s.starts
  }

  /** What can be on its way. */
  ghost predicate PacketInv(s: System, p: Packet)
    requires |s.children| == |s.answered|
  {
    match p
    case Ready(c, k) =>
      && c < |s.children| && s.net[p] == 1 && k == s.round && s.children[c].entered == k + 1
      && !(s.collecting && s.answered[c])
    case ToChild(c, kind) =>
      && c < |s.children|
      && (kind.Ack? ==> s.net[p] == 1 && s.round == kind.round + 1 && s.children[c].left == kind.round && Waiting(s.children[c]))
      && (!kind.Ack? ==> s.round == s.barriers + 1)
    case Echo(kind) => true
  }

  ghost predicate Inv(s: System) {
    && |s.children| == |s.answered|
    && s.round <= s.barriers + 1
    && (s.collecting ==> s.round <= s.barriers)
    && (s.starts > 0 ==> s.round == s.barriers + 1)
    && (forall c :: 0 <= c < |s.children| ==> ChildInv(s, c))
    && (forall p :: p in s.net ==> PacketInv(s, p))
  }

  lemma {:induction false} BroadcastCount(n: nat, kind: Kind, p: Packet)
    ensures Broadcast(n, kind)[p] ==
            match p {
              case Ready(_, _) => 0
              case ToChild(c, k) => if c < n && k == kind then 1 else 0
              case Echo(k) => if k == kind then 1 else 0
            }
  {
    if n > 0 { BroadcastCount(n - 1, kind, p); }
  }

  lemma LeaveInv(s: System)
    requires Inv(s) && Enabled(s, ParentLeave)
    ensures Inv(Do(s, ParentLeave))
  {
    var s' := Do(s, ParentLeave);
    forall c | 0 <= c < |s'.children|
      ensures ChildInv(s', c)
    {
      BroadcastCount(|s.children|, Ack(s.round), ToChild(c, Start));
      assert ChildInv(s, c);
    }
    forall p | p in s'.net
      ensures PacketInv(s', p)
    {
      BroadcastCount(|s.children|, Ack(s.round), p);
      if p in s.net { assert PacketInv(s, p); }
      if p.ToChild? && p.dst < |s.children| { assert ChildInv(s, p.dst); }
    }
  }

  lemma HyperperiodInv(s: System, step: Step)
    requires Inv(s) && Enabled(s, step) && (step.ParentStart? || step.ParentStop?)
    ensures Inv(Do(s, step))
  {
    var s' := Do(s, step);
    var kind := if step.ParentStart? then Start else Stop;
    forall c | 0 <= c < |s'.children|
      ensures ChildInv(s', c)
    {
      BroadcastCount(|s.children|, kind, ToChild(c, Start));
      assert ChildInv(s, c);
    }
    forall p | p in s'.net
      ensures PacketInv(s', p)
    {
      BroadcastCount(|s.children|, kind, p);
      if p in s.net { assert PacketInv(s, p); }
    }
  }

  lemma ReceiveInv(s: System, p: Packet)
    requires Inv(s) && Enabled(s, ParentReceive(p))
    ensures Inv(Do(s, ParentReceive(p)))
  {
    var s' := Do(s, ParentReceive(p));
    assert PacketInv(s, p);
    forall c | 0 <= c < |s'.children|
      ensures ChildInv(s', c)
    {
      assert ChildInv(s, c);
    }
    forall q | q in s'.net
      ensures PacketInv(s', q)
    {
      assert PacketInv(s, q);
    }
  }

  lemma EnterInv(s: System, step: Step)
    requires Inv(s) && Enabled(s, step) && (step.ParentEnter? || step.ChildEnter?)
    ensures Inv(Do(s, step))
  {
    var s' := Do(s, step);
    forall c | 0 <= c < |s'.children|
      ensures ChildInv(s', c)
    {
      assert ChildInv(s, c);
    }
    forall p | p in s'.net
      ensures PacketInv(s', p)
    {
      if p in s.net { assert PacketInv(s, p); }
      if step.ChildEnter? { assert ChildInv(s, step.c); }
    }
  }

  lemma ChildReceiveInv(s: System, c: nat, p: Packet)
    requires Inv(s) && Enabled(s, ChildReceive(c, p))
    ensures Inv(Do(s, ChildReceive(c, p)))
  {
    var s' := Do(s, ChildReceive(c, p));
    assert PacketInv(s, p) && ChildInv(s, c);
    forall d | 0 <= d < |s'.children|
      ensures ChildInv(s', d)
    {
      assert ChildInv(s, d);
    }
    forall q | q in s'.net
      ensures PacketInv(s', q)
    {
      assert PacketInv(s, q);
    }
  }

  lemma LoseInv(s: System, p: Packet)
    requires Inv(s) && Enabled(s, Lose(p))
    ensures Inv(Do(s, Lose(p)))
  {
    var s' := Do(s, Lose(p));
    forall c | 0 <= c < |s'.children|
      ensures ChildInv(s', c)
    {
      assert ChildInv(s, c);
    }
    forall q | q in s'.net
      ensures PacketInv(s', q)
    {
      assert PacketInv(s, q);
    }
  }

  lemma StepInv(s: System, step: Step)
    requires Inv(s) && Enabled(s, step)
    ensures Inv(Do(s, step))
  {
    match step
    case ParentEnter => EnterInv(s, step);
    case ParentReceive(p) => ReceiveInv(s, p);
    case ParentLeave => LeaveInv(s);
    case ParentStart => HyperperiodInv(s, step);
    case ParentStop => HyperperiodInv(s, step);
    case ChildEnter(c) => EnterInv(s, step);
    case ChildReceive(c, p) => ChildReceiveInv(s, c, p);
    case Lose(p) => LoseInv(s, p);
  }

  // ---------------------------------------------------------------- runs

  predicate Run(s: System, steps: seq<Step>)
    decreases |steps|
  {
    steps != [] ==> Enabled(s, steps[0]) && Run(Do(s, steps[0]), steps[1..])
  }

  function After(s: System, steps: seq<Step>): System
    requires Run(s, steps)
    decreases |steps|
  {
    if steps == [] then s else After(Do(s, steps[0]), steps[1..])
  }

  lemma {:induction false} RunInv(s: System, steps: seq<Step>)
    requires Inv(s) && Run(s, steps)
    ensures Inv(After(s, steps)) && After(s, steps).barriers == s.barriers && |After(s, steps).children| == |s.children|
    decreases |steps|
  {
    if steps != [] {
      StepInv(s, steps[0]);
      RunInv(Do(s, steps[0]), steps[1..]);
    }
  }

  /** Main result: in every run, a READY consumed by the parent in a round was sent in that round,
      and a child waiting in a round consumes nothing but the acknowledgement sent in that round. */
  lemma RoundsNotConfused(n: nat, barriers: nat, steps: seq<Step>, step: Step)
    requires Run(Initial(n, barriers), steps) && Enabled(After(Initial(n, barriers), steps), step)
    ensures var s := After(Initial(n, barriers), steps);
            && (step.ParentReceive? && step.p.Ready? ==> step.p.round == s.round)
            && (step.ChildReceive? && Waiting(s.children[step.c]) ==> step.p.kind == Ack(s.children[step.c].left))
            && (step.ChildReceive? && !Waiting(s.children[step.c]) ==> !step.p.kind.Ack?)
  {
    RunInv(Initial(n, barriers), steps);
    var s := After(Initial(n, barriers), steps);
    if step.ParentReceive? || step.ChildReceive? {
      assert PacketInv(s, step.p);
    }
    if step.ChildReceive? { assert ChildInv(s, step.c); }
  }

  /** Main result: no module leaves a barrier round before every module has entered it. */
  lemma BarriersHold(n: nat, barriers: nat, steps: seq<Step>, k: nat, c: nat, d: nat)
    requires Run(Initial(n, barriers), steps) && k < barriers && c < n && d < n
    ensures var s := After(Initial(n, barriers), steps);
            && |s.children| == n
            && (s.round > k || s.children[c].left > k ==> s.children[d].entered > k)
            && (s.children[c].left > k ==> s.round > k)
  {
    RunInv(Initial(n, barriers), steps);
    var s := After(Initial(n, barriers), steps);
    assert ChildInv(s, c) && ChildInv(s, d);
  }

  /** Main result: a child has run at most as many hyperperiods as START was broadcast, and none
      starts anywhere before every module has passed all barriers and every child has reported ready. */
  lemma HyperperiodSafety(n: nat, barriers: nat, steps: seq<Step>, c: nat, d: nat)
    requires Run(Initial(n, barriers), steps) && c < n && d < n
    ensures var s := After(Initial(n, barriers), steps);
            && |s.children| == n
            && s.children[c].frames <= s.starts
            && (s.starts > 0 ==> s.round == barriers + 1 && s.children[d].entered == s.children[d].left == barriers + 1)
  {
    RunInv(Initial(n, barriers), steps);
    var s := After(Initial(n, barriers), steps);
    assert ChildInv(s, c) && ChildInv(s, d);
  }

  // ---------------------------------------------------------------- why duplication is excluded

  lemma RunOn(s: System, step: Step, more: seq<Step>)
    requires Enabled(s, step) && Run(Do(s, step), more)
    ensures Run(s, [step] + more) && After(s, [step] + more) == After(Do(s, step), more)
  {
    assert ([step] + more)[1..] == more;
  }

  /** The parent collects from one child that has a READY of whatever round on its way. */
  lemma CollectOne(s: System, p: Packet) returns (steps: seq<Step>)
    requires |s.children| == |s.answered| == 1 && !s.collecting && s.round < s.barriers && p in s.net && p.Ready? && p.src == 0
    ensures Run(s, steps)
    ensures var s' := After(s, steps);
            && s'.round == s.round + 1 && s'.barriers == s.barriers && s'.children == s.children && !s'.collecting && |s'.answered| == 1
            && forall q: Packet :: q.Ready? ==> s'.net[q] == s.net[q] - (if q == p then 1 else 0)
  {
    var s1 := Do(s, ParentEnter);
    assert !s1.answered[0];
    var s2 := Do(s1, ParentReceive(p));
    var s3 := Do(s2, ParentLeave);
    forall q: Packet | q.Ready?
      ensures s3.net[q] == s.net[q] - (if q == p then 1 else 0)
    {
      BroadcastCount(1, Ack(s.round), q);
    }
    assert Run(s3, []) && After(s3, []) == s3;
    RunOn(s2, ParentLeave, []);
    RunOn(s1, ParentReceive(p), [ParentLeave] + []);
    RunOn(s, ParentEnter, [ParentReceive(p)] + ([ParentLeave] + []));
    steps := [ParentEnter] + ([ParentReceive(p)] + ([ParentLeave] + []));
  }

  /** If the network could deliver one READY twice, the parent could leave the second round although
      its child never entered it. */
  lemma DuplicationBreaksBarriers() returns (first: seq<Step>, p: Packet, second: seq<Step>, third: seq<Step>)
    ensures Run(Initial(1, 2), first) && p in After(Initial(1, 2), first).net
    ensures var s := After(Initial(1, 2), first);
            var twice := s.(net := s.net + multiset{p});
            && Run(twice, second) && Run(After(twice, second), third)
            && After(After(twice, second), third).round == 2
            && |After(After(twice, second), third).children| == 1
            && After(After(twice, second), third).children[0].entered == 1
  {
    var s0 := Initial(1, 2);
    first := [ChildEnter(0)] + [];
    var s := Do(s0, ChildEnter(0));
    assert Run(s, []) && After(s, []) == s;
    RunOn(s0, ChildEnter(0), []);
    p := Ready(0, 0);
    var twice := s.(net := s.net + multiset{p});
    second := CollectOne(twice, p);
    third := CollectOne(After(twice, second), p);
  }

  // ---------------------------------------------------------------- the parent's receive loop

  datatype Sync = BarrierReady | BarrierAck | StartFrame | StopFrames

  /** A datagram that may have the wrong size. */
  datatype Datagram = Datagram(complete: bool, sync: Sync, src: string)

  ghost predicate ReadyFrom(ds: seq<Datagram>, src: string) {
    exists d :: d in ds && d.complete && d.sync == BarrierReady && d.src == src
  }

  ghost predicate AnswerMissing(children: set<string>, ds: seq<Datagram>) {
    exists k :: k in children && !ReadyFrom(ds, k)
  }

  /** `childrenModules` says for each child whether its answer was received. */
  class SystemModuleManager {
    var childrenModules: map<string, bool>

    method ResetChildrenModules()
      modifies this
      ensures childrenModules.Keys == old(childrenModules).Keys
      ensures forall k :: k in childrenModules ==> !childrenModules[k]
    {
      var rest := childrenModules.Keys;
      while rest != {}
        invariant rest <= childrenModules.Keys == old(childrenModules).Keys
        invariant forall k :: k in childrenModules && k !in rest ==> !childrenModules[k]
        decreases |rest|
      {
        var k :| k in rest;
        childrenModules := childrenModules[k := false];
        rest := rest - {k};
      }
    }

    method NumChildrenSyncRemaining() returns (counter: nat)
      ensures counter == |set k | k in childrenModules && !childrenModules[k]|
    {
      counter := 0;
      var rest := childrenModules.Keys;
      ghost var seen: set<string> := {};
      while rest != {}
        invariant seen + rest == childrenModules.Keys && seen !! rest
        invariant counter == |set k | k in seen && !childrenModules[k]|
        decreases |rest|
      {
        var k :| k in rest;
        ghost var grown := set x | x in seen + {k} && !childrenModules[x];
        if !childrenModules[k] {
          assert grown == (set x | x in seen && !childrenModules[x]) + {k};
          counter := counter + 1;
        } else {
          assert grown == set x | x in seen && !childrenModules[x];
        }
        rest, seen := rest - {k}, seen + {k};
      }
      assert seen == childrenModules.Keys;
    }

    /** The receive loop of a barrier round, on the datagrams that arrive: it ends as soon as every
        child has answered, and counts well-formed READY messages only. */
    method CollectReady(arriving: seq<Datagram>) returns (used: nat, complete: bool)
      modifies this
      ensures used <= |arriving|
      ensures forall k :: k in childrenModules ==> (childrenModules[k] <==> ReadyFrom(arriving[..used], k))
      ensures forall k :: k in childrenModules <==> k in old(childrenModules) || ReadyFrom(arriving[..used], k)
      ensures complete <==> !AnswerMissing(old(childrenModules).Keys, arriving[..used])
      ensures !complete ==> used == |arriving|
      ensures forall u :: 0 <= u < used ==> AnswerMissing(old(childrenModules).Keys, arriving[..u])
    {
      ResetChildrenModules();
      used := 0;
      var remaining := NumChildrenSyncRemaining();
      while remaining > 0 && used < |arriving|
        invariant used <= |arriving| && remaining == |set k | k in childrenModules && !childrenModules[k]|
        invariant forall k :: k in childrenModules ==> (childrenModules[k] <==> ReadyFrom(arriving[..used], k))
        invariant forall k :: k in childrenModules <==> k in old(childrenModules) || ReadyFrom(arriving[..used], k)
        invariant forall u :: 0 <= u < used ==> AnswerMissing(old(childrenModules).Keys, arriving[..u])
        decreases |arriving| - used
      {
        var d := arriving[used];
        SomeoneMissing(childrenModules, remaining);
        assert AnswerMissing(old(childrenModules).Keys, arriving[..used]);
        ReadyMore(arriving, used);
        if d.complete && d.sync == BarrierReady {
          childrenModules := childrenModules[d.src := true];
        }
        used := used + 1;
        remaining := NumChildrenSyncRemaining();
      }
      complete := remaining == 0;
      if complete { NobodyMissing(childrenModules); } else { SomeoneMissing(childrenModules, remaining); }
    }
  }

  lemma SomeoneMissing(m: map<string, bool>, remaining: nat)
    requires remaining == |set k | k in m && !m[k]| && remaining > 0
    ensures exists k :: k in m && !m[k]
  {
    var s := set k | k in m && !m[k];
    var k :| k in s;
  }

  lemma NobodyMissing(m: map<string, bool>)
    requires |set k | k in m && !m[k]| == 0
    ensures forall k :: k in m ==> m[k]
  {
    var s := set k | k in m && !m[k];
    forall k | k in m
      ensures m[k]
    {
      assert k !in s;
    }
  }

  lemma ReadyMore(ds: seq<Datagram>, i: nat)
    requires i < |ds|
    ensures forall k :: ReadyFrom(ds[..i + 1], k) <==> ReadyFrom(ds[..i], k) || (ds[i].complete && ds[i].sync == BarrierReady && ds[i].src == k)
  {
    assert ds[..i + 1] == ds[..i] + [ds[i]];
  }
}
