/** The cyclic schedule of partitions: its validation, and the frames the module manager runs.
    Instants and durations are nanoseconds. */
module Schedule {
  import opened Sequences

  datatype Window = Window(partition: nat, offset: int, duration: int)

  function End(w: Window): int { w.offset + w.duration }

  ghost predicate Sorted(v: seq<Window>) {
    forall i, j :: 0 <= i < j < |v| ==> v[i].offset <= v[j].offset
  }

  ghost predicate NonNegative(v: seq<Window>) {
    forall w <- v :: w.offset >= 0 && w.duration >= 0
  }

  /** What the constructor accepts: neighbours follow each other and the last one ends in the frame. */
  ghost predicate Accepted(v: seq<Window>, major: int)
    requires v != []
  {
    (forall i :: 0 <= i < |v| - 1 ==> End(v[i]) <= v[i + 1].offset) && End(v[|v| - 1]) <= major
  }

  method CheckSchedule(v: seq<Window>, major: int) returns (ok: bool)
    requires v != []
    ensures ok <==> Accepted(v, major)
  {
    var i := 0;
    while i < |v| - 1
      invariant i <= |v| - 1
      invariant forall k :: 0 <= k < i ==> End(v[k]) <= v[k + 1].offset
    {
      if v[i].offset + v[i].duration > v[i + 1].offset {
        return false;
      }
      i := i + 1;
    }
    ok := v[|v| - 1].offset + v[|v| - 1].duration <= major;
  }

  predicate Apart(a: Window, b: Window) { End(a) <= b.offset || End(b) <= a.offset }

  lemma {:induction false} AcceptedChain(v: seq<Window>, major: int, i: nat, j: nat)
    requires v != [] && Accepted(v, major) && NonNegative(v) && i < j < |v|
    ensures End(v[i]) <= v[j].offset
    decreases j
  {
    if j > i + 1 {
      AcceptedChain(v, major, i, j - 1);
      assert v[j - 1] in v;
    }
  }

  lemma {:induction false} AcceptedInFrame(v: seq<Window>, major: int, i: nat)
    requires v != [] && Accepted(v, major) && NonNegative(v) && i < |v|
    ensures 0 <= v[i].offset <= End(v[i]) <= major
  {
    assert v[i] in v && v[|v| - 1] in v;
    if i < |v| - 1 { AcceptedChain(v, major, i, |v| - 1); }
  }

  /** A sorted schedule of non-empty windows is accepted exactly when its windows are pairwise
      disjoint and lie in the major frame. */
  lemma AcceptedExactly(v: seq<Window>, major: int)
    requires v != [] && Sorted(v) && forall w <- v :: w.offset >= 0 && w.duration > 0
    ensures Accepted(v, major) <==>
            (forall i, j :: 0 <= i < j < |v| ==> Apart(v[i], v[j])) && (forall i :: 0 <= i < |v| ==> End(v[i]) <= major)
  {
    if Accepted(v, major) {
      forall i, j | 0 <= i < j < |v|
        ensures Apart(v[i], v[j])
      {
        AcceptedChain(v, major, i, j);
      }
      forall i | 0 <= i < |v|
        ensures End(v[i]) <= major
      {
        AcceptedInFrame(v, major, i);
      }
    } else if (forall i, j :: 0 <= i < j < |v| ==> Apart(v[i], v[j])) && (forall i :: 0 <= i < |v| ==> End(v[i]) <= major) {
      forall i | 0 <= i < |v| - 1
        ensures End(v[i]) <= v[i + 1].offset
      {
        assert Apart(v[i], v[i + 1]) && v[i + 1] in v;
      }
      assert false;
    }
  }

  /** Main result: the windows of all hyperperiods of an accepted schedule are pairwise disjoint;
      the one that comes first in the cyclic order ends before the other begins. */
  lemma WindowsDisjoint(v: seq<Window>, major: int, start: int, k: nat, i: nat, l: nat, j: nat)
    requires v != [] && Accepted(v, major) && NonNegative(v) && i < |v| && j < |v|
    requires k < l || (k == l && i < j)
    ensures start + k * major + End(v[i]) <= start + l * major + v[j].offset
  {
    AcceptedInFrame(v, major, i);
    AcceptedInFrame(v, major, j);
    if k == l {
      AcceptedChain(v, major, i, j);
    } else {
      FrameBefore(major, k, l);
    }
  }

  lemma FrameBefore(major: int, k: nat, l: nat)
    requires major >= 0 && k < l
    ensures k * major + major <= l * major
  {
    assert l * major == k * major + major + (l - k - 1) * major;
    assert (l - k - 1) * major >= 0;
  }

  // ---------------------------------------------------------------- the frames

  /** What the module manager does: sleep until an instant, move the messages of a channel, hand the
      token to a network partition, continue or halt a partition, or tell its children to start or stop. */
  datatype Event = SleepUntil(t: int) | Move(channel: nat) | Token(p: nat) | Continue(p: nat) | Halt(p: nat) | Echo(stop: bool)

  /** The channels into a partition that come from other modules, and the channels out of it. */
  datatype Partition = Partition(network: bool, incoming: seq<nat>, outgoing: seq<nat>)

  function Moves(channels: seq<nat>): seq<Event> {
    seq(|channels|, i requires 0 <= i < |channels| => Move(channels[i]))
  }

  function PartitionTrace(x: Partition, p: nat, until: int): seq<Event> {
    (if x.network then [Token(p)] else Moves(x.incoming)) + [Continue(p), SleepUntil(until), Halt(p)]
    + (if x.network then [] else Moves(x.outgoing))
  }

  predicate Known(v: seq<Window>, parts: seq<Partition>) {
    forall w <- v :: w.partition < |parts|
  }

  function WindowTrace(w: Window, x: Partition, start: int): seq<Event> {
    [SleepUntil(start + w.offset)] + PartitionTrace(x, w.partition, start + End(w))
  }

  function WindowTraces(v: seq<Window>, parts: seq<Partition>, start: int): seq<seq<Event>>
    requires Known(v, parts)
  {
    seq(|v|, i requires 0 <= i < |v| => assert v[i] in v; WindowTrace(v[i], parts[v[i].partition], start))
  }

  /** One frame, announced by a system module manager, and the sleep until the next one. */
  function FrameBlock(v: seq<Window>, parts: seq<Partition>, major: int, start: int, system: bool): seq<Event>
    requires Known(v, parts)
  {
    (if system then [Echo(false)] else []) + Flatten(WindowTraces(v, parts, start)) + [SleepUntil(start + major)]
  }

  /** Frame number `k` starts `k` major frames after the first one. */
  function FrameBlocks(v: seq<Window>, parts: seq<Partition>, major: int, start: int, n: nat, system: bool): seq<seq<Event>>
    requires Known(v, parts)
  {
    seq(n, k requires 0 <= k < n => FrameBlock(v, parts, major, Progression(start, major, k), system))
  }

  function FramesTrace(v: seq<Window>, parts: seq<Partition>, major: int, start: int, n: nat, system: bool): seq<Event>
    requires Known(v, parts)
  {
    Flatten(FrameBlocks(v, parts, major, start, n, system))
  }

  // ---------------------------------------------------------------- one partition at a time

  function Running(trace: seq<Event>, running: set<nat>): set<nat>
    decreases |trace|
  {
    if trace == [] then running else
      Running(trace[1..], match trace[0]
                          case Continue(p) => running + {p}
                          case Halt(p) => running - {p}
                          case _ => running)
  }

  /** At event `n` at most one partition runs, and messages move and partitions are continued only
      when none does. */
  ghost predicate ExclusiveAt(trace: seq<Event>, n: nat)
    requires n < |trace|
  {
    && |Running(trace[..n + 1], {})| <= 1
    && (trace[n].Move? || trace[n].Token? || trace[n].Continue? ==> Running(trace[..n], {}) == {})
  }

  ghost predicate Exclusive(trace: seq<Event>) {
    forall n :: 0 <= n < |trace| ==> ExclusiveAt(trace, n)
  }

  /** Exclusive, and everything is halted in the end. */
  ghost predicate Closed(trace: seq<Event>) {
    Exclusive(trace) && Running(trace, {}) == {}
  }

  lemma {:induction false} RunningConcat(a: seq<Event>, b: seq<Event>, running: set<nat>)
    ensures Running(a + b, running) == Running(b, Running(a, running))
    decreases |a|
  {
    if a == [] {
      assert a + b == b;
    } else {
      assert (a + b)[1..] == a[1..] + b;
      RunningConcat(a[1..], b, match a[0]
                               case Continue(p) => running + {p}
                               case Halt(p) => running - {p}
                               case _ => running);
    }
  }

  lemma ConcatAt(a: seq<Event>, b: seq<Event>, n: nat)
    requires Running(a, {}) == {} && n < |b| && ExclusiveAt(b, n)
    ensures ExclusiveAt(a + b, |a| + n)
  {
    var t := a + b;
    assert t[..|a| + n + 1] == a + b[..n + 1] && t[..|a| + n] == a + b[..n];
    RunningConcat(a, b[..n + 1], {});
    RunningConcat(a, b[..n], {});
  }

  lemma ClosedConcat(a: seq<Event>, b: seq<Event>)
    requires Closed(a) && Closed(b)
    ensures Closed(a + b)
  {
    RunningConcat(a, b, {});
    forall n | 0 <= n < |a + b|
      ensures ExclusiveAt(a + b, n)
    {
      if n < |a| {
        assert (a + b)[..n + 1] == a[..n + 1] && (a + b)[..n] == a[..n];
        assert ExclusiveAt(a, n);
      } else {
        ConcatAt(a, b, n - |a|);
      }
    }
  }

  lemma QuietClosed(t: seq<Event>)
    requires forall e <- t :: !e.Continue? && !e.Halt?
    ensures Closed(t)
  {
    QuietRunning(t);
    forall n | 0 <= n < |t|
      ensures ExclusiveAt(t, n)
    {
      QuietRunning(t[..n]);
      QuietRunning(t[..n + 1]);
    }
  }

  lemma {:induction false} QuietRunning(t: seq<Event>)
    requires forall e <- t :: !e.Continue? && !e.Halt?
    ensures Running(t, {}) == {}
    decreases |t|
  {
    if t != [] { QuietRunning(t[1..]); }
  }

  lemma RunClosed(p: nat, until: int)
    ensures Closed([Continue(p), SleepUntil(until), Halt(p)])
  {
    var t := [Continue(p), SleepUntil(until), Halt(p)];
    assert t[..0] == [] && t[..1] == [Continue(p)] && t[..2] == [Continue(p), SleepUntil(until)] && t[..3] == t;
    assert Running(t[..1], {}) == {p} by { assert t[..1][1..] == []; }
    RunningConcat([Continue(p)], [SleepUntil(until)], {});
    RunningConcat([Continue(p), SleepUntil(until)], [Halt(p)], {});
    assert [Continue(p)] + [SleepUntil(until)] == t[..2] && t[..2] + [Halt(p)] == t;
    assert Running([SleepUntil(until)], {p}) == {p};
  }

  lemma PartitionClosed(x: Partition, p: nat, until: int)
    ensures Closed(PartitionTrace(x, p, until))
  {
    var before := if x.network then [Token(p)] else Moves(x.incoming);
    var after := if x.network then [] else Moves(x.outgoing);
    QuietClosed(before);
    QuietClosed(after);
    RunClosed(p, until);
    ClosedConcat(before, [Continue(p), SleepUntil(until), Halt(p)]);
    ClosedConcat(before + [Continue(p), SleepUntil(until), Halt(p)], after);
  }

  lemma {:induction false} FlattenClosed(blocks: seq<seq<Event>>)
    requires forall b <- blocks :: Closed(b)
    ensures Closed(Flatten(blocks))
    decreases |blocks|
  {
    if blocks == [] {
      QuietClosed([]);
    } else {
      FlattenClosed(blocks[..|blocks| - 1]);
      ClosedConcat(Flatten(blocks[..|blocks| - 1]), blocks[|blocks| - 1]);
    }
  }

  lemma WindowClosed(w: Window, x: Partition, start: int)
    ensures Closed(WindowTrace(w, x, start))
  {
    QuietClosed([SleepUntil(start + w.offset)]);
    PartitionClosed(x, w.partition, start + End(w));
    ClosedConcat([SleepUntil(start + w.offset)], PartitionTrace(x, w.partition, start + End(w)));
  }

  lemma BlockClosed(v: seq<Window>, parts: seq<Partition>, major: int, start: int, system: bool)
    requires Known(v, parts)
    ensures Closed(FrameBlock(v, parts, major, start, system))
  {
    var echo := if system then [Echo(false)] else [];
    var frame := WindowTraces(v, parts, start);
    forall b <- frame
      ensures Closed(b)
    {
      var i :| 0 <= i < |v| && b == frame[i];
      assert v[i] in v;
      WindowClosed(v[i], parts[v[i].partition], start);
    }
    QuietClosed(echo);
    QuietClosed([SleepUntil(start + major)]);
    FlattenClosed(frame);
    ClosedConcat(echo, Flatten(frame));
    ClosedConcat(echo + Flatten(frame), [SleepUntil(start + major)]);
  }

  /** Main result: in every prefix of every run at most one partition is running, and the module
      manager moves messages only while every partition is stopped, whatever the schedule. */
  lemma FramesExclusive(v: seq<Window>, parts: seq<Partition>, major: int, start: int, n: nat, system: bool)
    requires Known(v, parts)
    ensures Closed(FramesTrace(v, parts, major, start, n, system))
  {
    var blocks := FrameBlocks(v, parts, major, start, n, system);
    forall b <- blocks
      ensures Closed(b)
    {
      var k :| 0 <= k < n && b == blocks[k];
      BlockClosed(v, parts, major, Progression(start, major, k), system);
    }
    FlattenClosed(blocks);
  }

  // ---------------------------------------------------------------- no sleep into the past

  function Sleeps(trace: seq<Event>): seq<int>
    decreases |trace|
  {
    if trace == [] then [] else SleepOf(trace[0]) + Sleeps(trace[1..])
  }

  function SleepOf(e: Event): seq<int> {
    if e.SleepUntil? then [e.t] else []
  }

  /** No instant lies before the one slept for last. */
  predicate Ascending(from: int, s: seq<int>)
    decreases |s|
  {
    s == [] || (from <= s[0] && Ascending(s[0], s[1..]))
  }

  function Last(from: int, s: seq<int>): int {
    if s == [] then from else s[|s| - 1]
  }

  lemma {:induction false} AscendingConcat(from: int, a: seq<int>, b: seq<int>)
    ensures Ascending(from, a + b) <==> Ascending(from, a) && Ascending(Last(from, a), b)
    decreases |a|
  {
    if a == [] {
      assert a + b == b;
    } else {
      assert (a + b)[1..] == a[1..] + b;
      AscendingConcat(a[0], a[1..], b);
    }
  }

  lemma {:induction false} SleepsConcat(a: seq<Event>, b: seq<Event>)
    ensures Sleeps(a + b) == Sleeps(a) + Sleeps(b)
    decreases |a|
  {
    if a == [] {
      assert a + b == b && [] + Sleeps(b) == Sleeps(b);
    } else {
      SleepsConcat(a[1..], b);
      SleepsCons(a, b);
    }
  }

  lemma SleepsCons(a: seq<Event>, b: seq<Event>)
    requires a != [] && Sleeps(a[1..] + b) == Sleeps(a[1..]) + Sleeps(b)
    ensures Sleeps(a + b) == Sleeps(a) + Sleeps(b)
  {
    assert (a + b)[1..] == a[1..] + b;
    Assoc(SleepOf(a[0]), Sleeps(a[1..]), Sleeps(b));
  }

  lemma {:induction false} QuietSleeps(t: seq<Event>)
    requires forall e <- t :: !e.SleepUntil?
    ensures Sleeps(t) == []
    decreases |t|
  {
    if t != [] { QuietSleeps(t[1..]); }
  }

  lemma PartitionSleeps(x: Partition, p: nat, until: int)
    ensures Sleeps(PartitionTrace(x, p, until)) == [until]
  {
    var before := if x.network then [Token(p)] else Moves(x.incoming);
    var after := if x.network then [] else Moves(x.outgoing);
    QuietSleeps(before);
    QuietSleeps(after);
    assert [Continue(p), SleepUntil(until), Halt(p)] == [Continue(p)] + [SleepUntil(until)] + [Halt(p)];
    SleepsConcat([Continue(p)], [SleepUntil(until)]);
    SleepsConcat([Continue(p)] + [SleepUntil(until)], [Halt(p)]);
    SleepsConcat(before, [Continue(p), SleepUntil(until), Halt(p)]);
    SleepsConcat(before + [Continue(p), SleepUntil(until), Halt(p)], after);
  }

  lemma {:induction false} SleepsFlatten(blocks: seq<seq<Event>>, sleeps: seq<seq<int>>)
    requires |sleeps| == |blocks| && forall i :: 0 <= i < |blocks| ==> Sleeps(blocks[i]) == sleeps[i]
    ensures Sleeps(Flatten(blocks)) == Flatten(sleeps)
    decreases |blocks|
  {
    if blocks != [] {
      var n := |blocks| - 1;
      SleepsFlatten(blocks[..n], sleeps[..n]);
      SleepsConcat(Flatten(blocks[..n]), blocks[n]);
    }
  }

  lemma WindowSleeps(w: Window, x: Partition, start: int)
    ensures Sleeps(WindowTrace(w, x, start)) == [start + w.offset, start + End(w)]
  {
    PartitionSleeps(x, w.partition, start + End(w));
    SleepsConcat([SleepUntil(start + w.offset)], PartitionTrace(x, w.partition, start + End(w)));
  }

  function FrameSleeps(v: seq<Window>, start: int): seq<seq<int>> {
    seq(|v|, i requires 0 <= i < |v| => [start + v[i].offset, start + End(v[i])])
  }

  lemma WindowSleepsAt(v: seq<Window>, parts: seq<Partition>, start: int, i: nat)
    requires Known(v, parts) && i < |v|
    ensures Sleeps(WindowTraces(v, parts, start)[i]) == FrameSleeps(v, start)[i]
  {
    assert v[i] in v;
    WindowSleeps(v[i], parts[v[i].partition], start);
  }

  lemma FrameTraceSleeps(v: seq<Window>, parts: seq<Partition>, start: int)
    requires Known(v, parts)
    ensures Sleeps(Flatten(WindowTraces(v, parts, start))) == Flatten(FrameSleeps(v, start))
  {
    forall i | 0 <= i < |v|
      ensures Sleeps(WindowTraces(v, parts, start)[i]) == FrameSleeps(v, start)[i]
    {
      WindowSleepsAt(v, parts, start, i);
    }
    SleepsFlatten(WindowTraces(v, parts, start), FrameSleeps(v, start));
  }

  lemma BlockSleeps(v: seq<Window>, parts: seq<Partition>, major: int, start: int, system: bool)
    requires Known(v, parts)
    ensures Sleeps(FrameBlock(v, parts, major, start, system)) == Flatten(FrameSleeps(v, start)) + [start + major]
  {
    FrameTraceSleeps(v, parts, start);
    EchoSleeps(system, Flatten(WindowTraces(v, parts, start)), start + major);
  }

  lemma EchoSleeps(system: bool, frame: seq<Event>, t: int)
    ensures Sleeps((if system then [Echo(false)] else []) + frame + [SleepUntil(t)]) == Sleeps(frame) + [t]
  {
    var echo := if system then [Echo(false)] else [];
    QuietSleeps(echo);
    SleepsConcat(echo, frame);
    SleepsConcat(echo + frame, [SleepUntil(t)]);
    assert Sleeps([SleepUntil(t)]) == [t];
  }

  lemma OneAscends(from: int, a: int)
    ensures Ascending(from, [a]) <==> from <= a
  {
    assert [a][1..] == [];
  }

  lemma PairAscends(from: int, a: int, b: int)
    ensures Ascending(from, [a, b]) <==> from <= a <= b
  {
    assert [a, b][1..] == [b];
    OneAscends(a, b);
  }

  /** The sleeps of the first `i` windows ascend exactly when these windows follow each other. */
  lemma {:induction false} WindowsAscend(v: seq<Window>, start: int, i: nat)
    requires 0 < i <= |v| && NonNegative(v)
    ensures Last(start, Flatten(FrameSleeps(v, start)[..i])) == start + End(v[i - 1])
    ensures Ascending(start, Flatten(FrameSleeps(v, start)[..i])) <==> forall k :: 0 <= k < i - 1 ==> End(v[k]) <= v[k + 1].offset
  {
    var sleeps := FrameSleeps(v, start);
    FlattenNext(sleeps, i - 1);
    if i == 1 {
      assert sleeps[..0] == [] && Flatten(sleeps[..0]) == [];
    } else {
      WindowsAscend(v, start, i - 1);
    }
    assert v[i - 1] in v;
    PairAppended(start, Flatten(sleeps[..i - 1]), start + v[i - 1].offset, start + End(v[i - 1]));
  }

  lemma PairAppended(from: int, s: seq<int>, a: int, b: int)
    ensures Last(from, s + [a, b]) == b
    ensures Ascending(from, s + [a, b]) <==> Ascending(from, s) && Last(from, s) <= a <= b
  {
    AscendingConcat(from, s, [a, b]);
    PairAscends(Last(from, s), a, b);
  }

  lemma BlockAscends(v: seq<Window>, major: int, start: int)
    requires v != [] && NonNegative(v)
    ensures Ascending(start, Flatten(FrameSleeps(v, start)) + [start + major]) <==> Accepted(v, major)
  {
    var sleeps := FrameSleeps(v, start);
    assert sleeps[..|v|] == sleeps;
    WindowsAscend(v, start, |v|);
    AscendingConcat(start, Flatten(sleeps), [start + major]);
    OneAscends(start + End(v[|v| - 1]), start + major);
  }

  /** The sleeps of one frame, which starts at `from`, ascend exactly when `ok`, and end with the
      start of the next one. */
  ghost predicate FrameOk(sleeps: seq<int>, from: int, major: int, ok: bool) {
    (Ascending(from, sleeps) <==> ok) && Last(from, sleeps) == from + major
  }

  lemma BlockOnTime(v: seq<Window>, parts: seq<Partition>, major: int, start: int, system: bool)
    requires Known(v, parts) && v != [] && NonNegative(v)
    ensures FrameOk(Sleeps(FrameBlock(v, parts, major, start, system)), start, major, Accepted(v, major))
  {
    BlockSleeps(v, parts, major, start, system);
    BlockAscends(v, major, start);
  }

  /** Frames that are all on time, or all not, one after another. */
  lemma {:induction false} FramesAscend(blocks: seq<seq<int>>, start: int, major: int, ok: bool)
    requires forall k :: 0 <= k < |blocks| ==> FrameOk(blocks[k], Progression(start, major, k), major, ok)
    ensures Last(start, Flatten(blocks)) == Progression(start, major, |blocks|)
    ensures blocks != [] ==> (Ascending(start, Flatten(blocks)) <==> ok)
    decreases |blocks|
  {
    if blocks != [] {
      var n := |blocks| - 1;
      FramesAscend(blocks[..n], start, major, ok);
      assert FrameOk(blocks[n], Progression(start, major, n), major, ok);
      AscendingConcat(start, Flatten(blocks[..n]), blocks[n]);
      LastConcat(start, Flatten(blocks[..n]), blocks[n]);
      if n == 0 { assert Flatten(blocks[..n]) == []; }
    }
  }

  lemma LastConcat(from: int, a: seq<int>, b: seq<int>)
    ensures Last(from, a + b) == Last(Last(from, a), b)
  {
  }

  /** Main result: the module manager never sleeps for an instant that has passed in its own
      timetable, over any positive number of frames, exactly when the schedule is accepted. */
  lemma OnTimeExactly(v: seq<Window>, parts: seq<Partition>, major: int, start: int, n: nat, system: bool)
    requires Known(v, parts) && v != [] && NonNegative(v) && n > 0
    ensures Ascending(start, Sleeps(FramesTrace(v, parts, major, start, n, system))) <==> Accepted(v, major)
    ensures Last(start, Sleeps(FramesTrace(v, parts, major, start, n, system))) == Progression(start, major, n)
  {
    var sleeps := FramesSleeps(v, parts, major, start, n, system);
    forall k | 0 <= k < n
      ensures FrameOk(sleeps[k], Progression(start, major, k), major, Accepted(v, major))
    {
      BlockOnTime(v, parts, major, Progression(start, major, k), system);
    }
    SleepsFlatten(FrameBlocks(v, parts, major, start, n, system), sleeps);
    FramesAscend(sleeps, start, major, Accepted(v, major));
  }

  function FramesSleeps(v: seq<Window>, parts: seq<Partition>, major: int, start: int, n: nat, system: bool): seq<seq<int>>
    requires Known(v, parts)
  {
    seq(n, k requires 0 <= k < n => Sleeps(FrameBlock(v, parts, major, Progression(start, major, k), system)))
  }

  lemma FramesTraceNext(v: seq<Window>, parts: seq<Partition>, major: int, start: int, n: nat, system: bool)
    requires Known(v, parts)
    ensures FramesTrace(v, parts, major, start, n + 1, system) ==
            FramesTrace(v, parts, major, start, n, system) + FrameBlock(v, parts, major, Progression(start, major, n), system)
  {
    assert FrameBlocks(v, parts, major, start, n + 1, system)[..n] == FrameBlocks(v, parts, major, start, n, system);
  }

  /** Main result: hyperperiods do not drift.  However many frames are run, what follows the first `k`
      of them is the frame of the instant `k` major frames after the start. */
  lemma FramesDoNotDrift(v: seq<Window>, parts: seq<Partition>, major: int, start: int, n: nat, system: bool, k: nat)
    returns (rest: seq<Event>)
    requires Known(v, parts) && k < n
    ensures FramesTrace(v, parts, major, start, n, system) ==
            (FramesTrace(v, parts, major, start, k, system) + FrameBlock(v, parts, major, start + k * major, system)) + rest
  {
    rest := FrameInTrace(v, parts, major, start, n, system, k);
    ProgressionExactly(start, major, k);
  }

  lemma FrameInTrace(v: seq<Window>, parts: seq<Partition>, major: int, start: int, n: nat, system: bool, k: nat)
    returns (rest: seq<Event>)
    requires Known(v, parts) && k < n
    ensures FramesTrace(v, parts, major, start, n, system) ==
            (FramesTrace(v, parts, major, start, k, system) + FrameBlock(v, parts, major, Progression(start, major, k), system)) + rest
  {
    rest := FlattenSplit(FrameBlocks(v, parts, major, start, n, system), k + 1);
    FirstBlocks(v, parts, major, start, n, system, k + 1);
    FramesTraceNext(v, parts, major, start, k, system);
  }

  lemma FirstBlocks(v: seq<Window>, parts: seq<Partition>, major: int, start: int, n: nat, system: bool, k: nat)
    requires Known(v, parts) && k <= n
    ensures FrameBlocks(v, parts, major, start, n, system)[..k] == FrameBlocks(v, parts, major, start, k, system)
  {
  }

  lemma FramesAppend(before: seq<Event>, v: seq<Window>, parts: seq<Partition>, major: int, start: int, n: nat, system: bool)
    requires Known(v, parts)
    ensures (before + FramesTrace(v, parts, major, start, n, system)) + FrameBlock(v, parts, major, Progression(start, major, n), system) ==
            before + FramesTrace(v, parts, major, start, n + 1, system)
  {
    FramesTraceNext(v, parts, major, start, n, system);
    Assoc(before, FramesTrace(v, parts, major, start, n, system), FrameBlock(v, parts, major, Progression(start, major, n), system));
  }

  // ---------------------------------------------------------------- the loops

  class ModuleManager {
    const schedulingVector: seq<Window>
    const partitionVector: seq<Partition>
    const majorFrameSize: int
    var trace: seq<Event>

    /** A schedule that is not accepted ends the program before any frame. */
    constructor (v: seq<Window>, parts: seq<Partition>, major: int)
      requires v != [] && Known(v, parts)
      ensures schedulingVector == v && partitionVector == parts && majorFrameSize == major && trace == []
    {
      schedulingVector, partitionVector, majorFrameSize, trace := v, parts, major, [];
    }

    method MoveMessages(channels: seq<nat>)
      modifies this
      ensures trace == old(trace) + Moves(channels)
    {
      for j := 0 to |channels|
        invariant trace == old(trace) + Moves(channels[..j])
      {
        trace := trace + [Move(channels[j])];
        assert Moves(channels[..j]) + [Move(channels[j])] == Moves(channels[..j + 1]);
      }
      assert channels[..|channels|] == channels;
    }

    method RunPartition(p: nat, until: int)
      requires p < |partitionVector|
      modifies this
      ensures trace == old(trace) + PartitionTrace(partitionVector[p], p, until)
    {
      var x := partitionVector[p];
      if x.network { trace := trace + [Token(p)]; } else { MoveMessages(x.incoming); }
      trace := trace + [Continue(p)];
      trace := trace + [SleepUntil(until)];
      trace := trace + [Halt(p)];
      if !x.network { MoveMessages(x.outgoing); }
    }

    method RunWindow(w: Window, start: int)
      requires w.partition < |partitionVector|
      modifies this
      ensures trace == old(trace) + WindowTrace(w, partitionVector[w.partition], start)
    {
      trace := trace + [SleepUntil(start + w.offset)];
      RunPartition(w.partition, start + (w.offset + w.duration));
    }

    method RunFrame(start: int)
      requires Known(schedulingVector, partitionVector)
      modifies this
      ensures trace == old(trace) + Flatten(WindowTraces(schedulingVector, partitionVector, start))
    {
      ghost var windows := WindowTraces(schedulingVector, partitionVector, start);
      var i := 0;
      while i < |schedulingVector|
        invariant i <= |schedulingVector|
        invariant trace == old(trace) + Flatten(windows[..i])
      {
        assert schedulingVector[i] in schedulingVector;
        FlattenNext(windows, i);
        RunWindow(schedulingVector[i], start);
        Assoc(old(trace), Flatten(windows[..i]), windows[i]);
        i := i + 1;
      }
      assert windows[..i] == windows;
    }

    method RunBlock(start: int, system: bool)
      requires Known(schedulingVector, partitionVector)
      modifies this
      ensures trace == old(trace) + FrameBlock(schedulingVector, partitionVector, majorFrameSize, start, system)
    {
      if system { trace := trace + [Echo(false)]; }
      RunFrame(start);
      trace := trace + [SleepUntil(start + majorFrameSize)];
    }

    /** The module manager alone, or as the system module manager that announces every frame. */
    method RunFrames(now: int, maxNumberOfFrames: nat, system: bool)
      requires Known(schedulingVector, partitionVector)
      modifies this
      ensures trace == old(trace) + FramesTrace(schedulingVector, partitionVector, majorFrameSize, now, maxNumberOfFrames, system)
    {
      var iterations := 0;
      var start := now;
      while iterations < maxNumberOfFrames
        invariant iterations <= maxNumberOfFrames && start == Progression(now, majorFrameSize, iterations)
        invariant trace == old(trace) + FramesTrace(schedulingVector, partitionVector, majorFrameSize, now, iterations, system)
      {
        FramesAppend(old(trace), schedulingVector, partitionVector, majorFrameSize, now, iterations, system);
        RunBlock(start, system);
        iterations, start := iterations + 1, start + majorFrameSize;
      }
    }

    /** As the system module manager, with the message that stops the children. */
    method RunSystem(now: int, maxNumberOfFrames: nat)
      requires Known(schedulingVector, partitionVector)
      modifies this
      ensures trace == old(trace) + FramesTrace(schedulingVector, partitionVector, majorFrameSize, now, maxNumberOfFrames, true) + [Echo(true)]
    {
      RunFrames(now, maxNumberOfFrames, true);
      trace := trace + [Echo(true)];
    }
  }
}
