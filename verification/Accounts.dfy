/** Where the messages of the barriers and hyperperiods go: every message sent is consumed by the one it
    is for, and has its effect there, or is under way, or was lost; and without loss nobody gets stuck. */
module Accounts {
  import opened Sequences
  import opened Barrier

  function Min(a: int, b: int): int { if a <= b then a else b }

  function One(b: bool): int { if b then 1 else 0 }

  // ---------------------------------------------------------------- messages unaccounted for

  /** Broadcasts of START less the hyperperiods that child `c` has run and the copies on their way to it. */
  function StartsGone(s: System, c: nat): int
    requires c < |s.children|
  {
    s.starts - s.children[c].frames - s.net[ToChild(c, Start)]
  }

  function StopsGone(s: System, c: nat): int
    requires c < |s.children|
  {
    One(s.stopped) - One(s.children[c].stopped) - s.net[ToChild(c, Stop)]
  }

  /** Acknowledged rounds less the rounds that child `c` has left by an acknowledgement, and the one on
      its way. */
  function AcksGone(s: System, c: nat): int
    requires c < |s.children|
  {
    Min(s.round, s.barriers) - Min(s.children[c].left, s.barriers) - (if s.round == 0 then 0 else s.net[ToChild(c, Ack(s.round - 1))])
  }

  /** Rounds entered by child `c` less the rounds that the parent has finished, the READY on its way and
      the READY consumed in the present round. */
  function ReadysGone(s: System, c: nat): int
    requires c < |s.children| == |s.answered|
  {
    s.children[c].entered - s.round - s.net[Ready(c, s.round)] - One(s.collecting && s.answered[c])
  }

  // ---------------------------------------------------------------- messages lost

  function LostStart(c: nat): Step -> nat { (e: Step) => if e == Lose(ToChild(c, Start)) then 1 else 0 }

  function LostStop(c: nat): Step -> nat { (e: Step) => if e == Lose(ToChild(c, Stop)) then 1 else 0 }

  function LostAck(c: nat): Step -> nat {
    (e: Step) => if e.Lose? && e.p.ToChild? && e.p.dst == c && e.p.kind.Ack? then 1 else 0
  }

  function LostReady(c: nat): Step -> nat { (e: Step) => if e.Lose? && e.p.Ready? && e.p.src == c then 1 else 0 }

  /** One step leaves the accounts of child `c` as they are, but for what it loses. */
  ghost predicate Accounted(s: System, step: Step, c: nat)
    requires Inv(s) && Enabled(s, step) && c < |s.children|
  {
    var s' := Do(s, step);
    && |s'.children| == |s'.answered| == |s.children|
    && StartsGone(s', c) == StartsGone(s, c) + LostStart(c)(step)
    && StopsGone(s', c) == StopsGone(s, c) + LostStop(c)(step)
    && AcksGone(s', c) == AcksGone(s, c) + LostAck(c)(step)
    && ReadysGone(s', c) == ReadysGone(s, c) + LostReady(c)(step)
  }

  lemma NoStalePacket(s: System, p: Packet)
    requires Inv(s)
    ensures p.Ready? && p.round != s.round ==> s.net[p] == 0
    ensures p.ToChild? && p.kind.Ack? && s.round != p.kind.round + 1 ==> s.net[p] == 0
  {
    if p in s.net { assert PacketInv(s, p); }
  }

  /** The READY of a child that has answered, and the last acknowledgement for it, are not under way. */
  lemma AnsweredQuiet(s: System, c: nat)
    requires Inv(s) && c < |s.children| && s.collecting && s.answered[c]
    ensures s.net[Ready(c, s.round)] == 0 && (s.round > 0 ==> s.net[ToChild(c, Ack(s.round - 1))] == 0)
  {
    assert ChildInv(s, c);
    assert Ready(c, s.round) in s.net ==> PacketInv(s, Ready(c, s.round));
    assert s.round > 0 && ToChild(c, Ack(s.round - 1)) in s.net ==> PacketInv(s, ToChild(c, Ack(s.round - 1)));
  }

  lemma LeaveCounts(s: System, c: nat)
    requires Inv(s) && Enabled(s, ParentLeave) && c < |s.children|
    ensures var net := Do(s, ParentLeave).net;
            && net[ToChild(c, Start)] == s.net[ToChild(c, Start)] && net[ToChild(c, Stop)] == s.net[ToChild(c, Stop)]
            && net[Ready(c, s.round + 1)] == 0 && net[ToChild(c, Ack(s.round))] == (if s.round < s.barriers then 1 else 0)
  {
    NoStalePacket(s, Ready(c, s.round + 1));
    NoStalePacket(s, ToChild(c, Ack(s.round)));
    BroadcastCount(|s.children|, Ack(s.round), Ready(c, s.round + 1));
    BroadcastCount(|s.children|, Ack(s.round), ToChild(c, Ack(s.round)));
    BroadcastCount(|s.children|, Ack(s.round), ToChild(c, Start));
    BroadcastCount(|s.children|, Ack(s.round), ToChild(c, Stop));
  }

  lemma LeaveAccounted(s: System, c: nat)
    requires Inv(s) && Enabled(s, ParentLeave) && c < |s.children|
    ensures Accounted(s, ParentLeave, c)
  {
    assert ChildInv(s, c);
    AnsweredQuiet(s, c);
    LeaveCounts(s, c);
  }

  lemma BroadcastAccounted(s: System, step: Step, c: nat)
    requires Inv(s) && Enabled(s, step) && c < |s.children| && (step.ParentStart? || step.ParentStop?)
    ensures Accounted(s, step, c)
  {
    var kind := if step.ParentStart? then Start else Stop;
    BroadcastCount(|s.children|, kind, Ready(c, s.round));
    BroadcastCount(|s.children|, kind, ToChild(c, Ack(s.round - 1)));
    BroadcastCount(|s.children|, kind, ToChild(c, Start));
    BroadcastCount(|s.children|, kind, ToChild(c, Stop));
  }

  lemma ParentAccounted(s: System, step: Step, c: nat)
    requires Inv(s) && Enabled(s, step) && c < |s.children| && (step.ParentEnter? || step.ParentReceive?)
    ensures Accounted(s, step, c)
  {
    if step.ParentReceive? { assert PacketInv(s, step.p); }
  }

  lemma ChildEnterAccounted(s: System, d: nat, c: nat)
    requires Inv(s) && Enabled(s, ChildEnter(d)) && c < |s.children|
    ensures Accounted(s, ChildEnter(d), c)
  {
    assert ChildInv(s, d);
  }

  lemma ChildReceiveAccounted(s: System, d: nat, p: Packet, c: nat)
    requires Inv(s) && Enabled(s, ChildReceive(d, p)) && c < |s.children|
    ensures Accounted(s, ChildReceive(d, p), c)
  {
    if d == c { OwnReceiveAccounted(s, p, c); } else { OtherReceiveAccounted(s, d, p, c); }
  }

  lemma OwnReceiveAccounted(s: System, p: Packet, c: nat)
    requires Inv(s) && Enabled(s, ChildReceive(c, p)) && c < |s.children|
    ensures Accounted(s, ChildReceive(c, p), c)
  {
    assert PacketInv(s, p) && ChildInv(s, c);
    if p.kind.Ack? { AckAccounted(s, p, c); }
  }

  lemma AckAccounted(s: System, p: Packet, c: nat)
    requires Inv(s) && Enabled(s, ChildReceive(c, p)) && c < |s.children| && p.kind.Ack? && PacketInv(s, p) && ChildInv(s, c)
    ensures Accounted(s, ChildReceive(c, p), c)
  {
  }

  lemma OtherReceiveAccounted(s: System, d: nat, p: Packet, c: nat)
    requires Inv(s) && Enabled(s, ChildReceive(d, p)) && c < |s.children| && d != c
    ensures Accounted(s, ChildReceive(d, p), c)
  {
  }

  lemma LoseAccounted(s: System, p: Packet, c: nat)
    requires Inv(s) && Enabled(s, Lose(p)) && c < |s.children|
    ensures Accounted(s, Lose(p), c)
  {
    assert PacketInv(s, p);
  }

  lemma StepAccounted(s: System, step: Step, c: nat)
    requires Inv(s) && Enabled(s, step) && c < |s.children|
    ensures Accounted(s, step, c)
  {
    match step
    case ParentEnter => ParentAccounted(s, step, c);
    case ParentReceive(p) => ParentAccounted(s, step, c);
    case ParentLeave => LeaveAccounted(s, c);
    case ParentStart => BroadcastAccounted(s, step, c);
    case ParentStop => BroadcastAccounted(s, step, c);
    case ChildEnter(d) => ChildEnterAccounted(s, d, c);
    case ChildReceive(d, p) => ChildReceiveAccounted(s, d, p, c);
    case Lose(p) => LoseAccounted(s, p, c);
  }

  /** The accounts after a run, relative to those before. */
  ghost predicate RunAccounted(s: System, steps: seq<Step>, c: nat)
    requires Inv(s) && Run(s, steps) && c < |s.children|
  {
    var s' := After(s, steps);
    && |s'.children| == |s'.answered| == |s.children|
    && StartsGone(s', c) == StartsGone(s, c) + Sum(steps, LostStart(c))
    && StopsGone(s', c) == StopsGone(s, c) + Sum(steps, LostStop(c))
    && AcksGone(s', c) == AcksGone(s, c) + Sum(steps, LostAck(c))
    && ReadysGone(s', c) == ReadysGone(s, c) + Sum(steps, LostReady(c))
  }

  lemma {:induction false} RunAccounts(s: System, steps: seq<Step>, c: nat)
    requires Inv(s) && Run(s, steps) && c < |s.children|
    ensures RunAccounted(s, steps, c)
    decreases |steps|
  {
    if steps != [] {
      StepInv(s, steps[0]);
      StepAccounted(s, steps[0], c);
      RunAccounts(Do(s, steps[0]), steps[1..], c);
      AccountsJoin(s, steps, c);
    } else {
      NoSteps(c);
    }
  }

  lemma NoSteps(c: nat)
    ensures Sum([], LostStart(c)) == 0 && Sum([], LostStop(c)) == 0 && Sum([], LostAck(c)) == 0 && Sum([], LostReady(c)) == 0
  {
  }

  lemma AccountsJoin(s: System, steps: seq<Step>, c: nat)
    requires Inv(s) && Run(s, steps) && c < |s.children| && steps != [] && Inv(Do(s, steps[0])) && Accounted(s, steps[0], c)
    requires RunAccounted(Do(s, steps[0]), steps[1..], c)
    ensures RunAccounted(s, steps, c)
  {
    var e, s' := steps[0], Do(s, steps[0]);
    assert After(s, steps) == After(s', steps[1..]);
    SumFirst(steps, LostStart(c));
    SumFirst(steps, LostStop(c));
    SumFirst(steps, LostAck(c));
    SumFirst(steps, LostReady(c));
  }

  lemma SumFirst(steps: seq<Step>, f: Step -> nat)
    requires steps != []
    ensures Sum(steps, f) == f(steps[0]) + Sum(steps[1..], f)
  {
  }

  lemma InitialInv(n: nat, barriers: nat)
    ensures Inv(Initial(n, barriers))
  {
  }

  /** Main result: in every run, for every child, each START broadcast has made it run one hyperperiod, or
      is on its way, or was lost; so for STOP; each acknowledgement has let it leave one round, and each of
      its READYs has been counted by the parent in its round, or is on its way, or was lost. */
  lemma {:induction false} NothingDisappears(n: nat, barriers: nat, steps: seq<Step>, c: nat)
    requires Run(Initial(n, barriers), steps) && c < n
    ensures var s := After(Initial(n, barriers), steps);
            && |s.children| == |s.answered| == n
            && s.starts == s.children[c].frames + s.net[ToChild(c, Start)] + Sum(steps, LostStart(c))
            && One(s.stopped) == One(s.children[c].stopped) + s.net[ToChild(c, Stop)] + Sum(steps, LostStop(c))
            && Min(s.round, barriers) == Min(s.children[c].left, barriers)
                                         + (if s.round == 0 then 0 else s.net[ToChild(c, Ack(s.round - 1))]) + Sum(steps, LostAck(c))
            && s.children[c].entered == s.round + s.net[Ready(c, s.round)] + One(s.collecting && s.answered[c])
                                        + Sum(steps, LostReady(c))
  {
    InitialInv(n, barriers);
    RunInv(Initial(n, barriers), steps);
    RunAccounts(Initial(n, barriers), steps, c);
  }

  // ---------------------------------------------------------------- nobody gets stuck

  /** Nothing was lost, and everybody has not been stopped yet. */
  predicate Finished(s: System) { s.stopped && forall c :: 0 <= c < |s.children| ==> s.children[c].stopped }

  lemma {:induction false} NothingLost(steps: seq<Step>, f: Step -> nat)
    requires forall e <- steps :: !e.Lose? && f(e) == 0
    ensures Sum(steps, f) == 0
  {
    SumZero(steps, f);
  }

  /** Without loss the accounts of child `c` are closed. */
  lemma Closed(n: nat, barriers: nat, steps: seq<Step>, c: nat)
    requires Run(Initial(n, barriers), steps) && c < n && forall e <- steps :: !e.Lose?
    ensures var s := After(Initial(n, barriers), steps);
            && Inv(s) && s.barriers == barriers && |s.children| == |s.answered| == n
            && StopsGone(s, c) == 0 && AcksGone(s, c) == 0 && ReadysGone(s, c) == 0 && StartsGone(s, c) == 0
  {
    InitialInv(n, barriers);
    RunInv(Initial(n, barriers), steps);
    RunAccounts(Initial(n, barriers), steps, c);
    NothingLost(steps, LostStart(c));
    NothingLost(steps, LostStop(c));
    NothingLost(steps, LostAck(c));
    NothingLost(steps, LostReady(c));
  }

  /** What an unanswered child, or the parent, can do next. */
  lemma UnansweredMoves(s: System, c: nat) returns (step: Step)
    requires Inv(s) && c < |s.children| && s.collecting && !s.answered[c] && AcksGone(s, c) == 0 && ReadysGone(s, c) == 0
    ensures Enabled(s, step) && !step.Lose?
  {
    assert ChildInv(s, c);
    if Ready(c, s.round) in s.net {
      step := ParentReceive(Ready(c, s.round));
    } else if Waiting(s.children[c]) {
      step := ChildReceive(c, ToChild(c, Ack(s.round - 1)));
    } else {
      step := ChildEnter(c);
    }
  }

  /** Main result: the protocol does not get stuck.  After every run without loss, unless every module has
      been stopped, some module can take a step that is not a loss. */
  lemma {:induction false} NeverStuck(n: nat, barriers: nat, steps: seq<Step>) returns (step: Step)
    requires Run(Initial(n, barriers), steps) && forall e <- steps :: !e.Lose?
    ensures var s := After(Initial(n, barriers), steps); !Finished(s) ==> Enabled(s, step) && !step.Lose?
  {
    var s := After(Initial(n, barriers), steps);
    InitialInv(n, barriers);
    RunInv(Initial(n, barriers), steps);
    step := ParentLeave;
    if !s.collecting {
      if s.round <= s.barriers {
        step := ParentEnter;
      } else if !s.stopped {
        step := ParentStart;
      } else if !Finished(s) {
        var c :| 0 <= c < |s.children| && !s.children[c].stopped;
        Closed(n, barriers, steps, c);
        assert ChildInv(s, c);
        step := ChildReceive(c, ToChild(c, Stop));
      }
    } else if c :| 0 <= c < |s.answered| && !s.answered[c] {
      Closed(n, barriers, steps, c);
      step := UnansweredMoves(s, c);
    }
  }
}
