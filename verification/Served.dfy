/** How every window of every frame is served: which messages are moved before and after the partition
    runs, and when it runs. */
module Served {
  import opened Sequences
  import opened Schedule

  /** The channels moved, in order. */
  function Moved(trace: seq<Event>): seq<nat>
    decreases |trace|
  {
    if trace == [] then [] else MovedBy(trace[0]) + Moved(trace[1..])
  }

  function MovedBy(e: Event): seq<nat> { if e.Move? then [e.channel] else [] }

  function Continues(e: Event): nat { if e.Continue? then 1 else 0 }

  function Halts(e: Event): nat { if e.Halt? then 1 else 0 }

  function Tokens(e: Event): nat { if e.Token? then 1 else 0 }

  function Announces(e: Event): nat { if e == Echo(false) then 1 else 0 }

  /** `s` serves a window: it sleeps until the window begins, moves the incoming messages, or hands the
      token to a network partition, runs the partition once, until the window ends, and then moves the
      outgoing messages.  `a` is where the partition is continued. */
  ghost predicate Serves(s: seq<Event>, a: nat, w: Window, x: Partition, start: int) {
    && 0 < a && a + 2 < |s|
    && s[0] == SleepUntil(start + w.offset) && s[a] == Continue(w.partition)
    && s[a + 1] == SleepUntil(start + End(w)) && s[a + 2] == Halt(w.partition)
    && Moved(s[..a]) == (if x.network then [] else x.incoming)
    && Moved(s[a + 3..]) == (if x.network then [] else x.outgoing)
    && (x.network ==> s[a - 1] == Token(w.partition))
    && Sum(s, Continues) == Sum(s, Halts) == 1 && Sum(s, Tokens) == (if x.network then 1 else 0) && Sum(s, Announces) == 0
    && forall j :: 0 < j < |s| && j != a + 1 ==> !s[j].SleepUntil?
  }

  lemma {:induction false} MovedConcat(a: seq<Event>, b: seq<Event>)
    ensures Moved(a + b) == Moved(a) + Moved(b)
    decreases |a|
  {
    if a == [] {
      assert a + b == b && [] + Moved(b) == Moved(b);
    } else {
      assert (a + b)[1..] == a[1..] + b;
      MovedConcat(a[1..], b);
      Assoc(MovedBy(a[0]), Moved(a[1..]), Moved(b));
    }
  }

  lemma {:induction false} MovedMoves(channels: seq<nat>)
    ensures Moved(Moves(channels)) == channels
    decreases |channels|
  {
    if channels != [] {
      MovedMoves(channels[1..]);
      assert Moves(channels)[1..] == Moves(channels[1..]);
    }
  }

  /** What comes before the partition is continued, and what after it is halted. */
  function Before(x: Partition, p: nat): seq<Event> { if x.network then [Token(p)] else Moves(x.incoming) }

  function Afterwards(x: Partition): seq<Event> { if x.network then [] else Moves(x.outgoing) }

  lemma BeforeMoves(x: Partition, p: nat)
    ensures Moved(Before(x, p)) == (if x.network then [] else x.incoming)
    ensures Moved(Afterwards(x)) == (if x.network then [] else x.outgoing)
  {
    MovedMoves(x.incoming);
    MovedMoves(x.outgoing);
  }

  lemma OneEvent(e: Event)
    ensures Sum([e], Continues) == Continues(e) && Sum([e], Halts) == Halts(e)
    ensures Sum([e], Tokens) == Tokens(e) && Sum([e], Announces) == Announces(e) && Moved([e]) == MovedBy(e)
  {
    assert [e][1..] == [];
  }

  lemma QuietParts(x: Partition, p: nat)
    ensures Sum(Before(x, p), Continues) == 0 && Sum(Before(x, p), Halts) == 0 && Sum(Before(x, p), Announces) == 0
    ensures Sum(Before(x, p), Tokens) == (if x.network then 1 else 0)
    ensures Sum(Afterwards(x), Continues) == 0 && Sum(Afterwards(x), Halts) == 0
    ensures Sum(Afterwards(x), Announces) == 0 && Sum(Afterwards(x), Tokens) == 0
  {
    OneEvent(Token(p));
    SumZero(Moves(x.incoming), Continues);
    SumZero(Moves(x.incoming), Halts);
    SumZero(Moves(x.incoming), Tokens);
    SumZero(Moves(x.incoming), Announces);
    SumZero(Moves(x.outgoing), Continues);
    SumZero(Moves(x.outgoing), Halts);
    SumZero(Moves(x.outgoing), Tokens);
    SumZero(Moves(x.outgoing), Announces);
  }

  /** The middle of a window. */
  function Slot(p: nat, until: int): seq<Event> { [Continue(p), SleepUntil(until), Halt(p)] }

  lemma SlotCounts(p: nat, until: int)
    ensures Sum(Slot(p, until), Continues) == 1 && Sum(Slot(p, until), Halts) == 1
    ensures Sum(Slot(p, until), Tokens) == 0 && Sum(Slot(p, until), Announces) == 0
  {
    var s := Slot(p, until);
    assert s[1..] == [SleepUntil(until), Halt(p)] && s[1..][1..] == [Halt(p)];
    OneEvent(Halt(p));
  }

  lemma WindowSum(w: Window, x: Partition, start: int, f: Event -> nat)
    ensures Sum(WindowTrace(w, x, start), f)
            == Sum([SleepUntil(start + w.offset)], f) + Sum(Before(x, w.partition), f) + Sum(Slot(w.partition, start + End(w)), f) + Sum(Afterwards(x), f)
  {
    var p, until := w.partition, start + End(w);
    SumConcat(Before(x, p) + Slot(p, until), Afterwards(x), f);
    SumConcat(Before(x, p), Slot(p, until), f);
    SumConcat([SleepUntil(start + w.offset)], PartitionTrace(x, p, until), f);
  }

  lemma WindowCounts(w: Window, x: Partition, start: int)
    ensures var s := WindowTrace(w, x, start);
            && Sum(s, Continues) == Sum(s, Halts) == 1 && Sum(s, Tokens) == (if x.network then 1 else 0) && Sum(s, Announces) == 0
  {
    OneEvent(SleepUntil(start + w.offset));
    QuietParts(x, w.partition);
    SlotCounts(w.partition, start + End(w));
    WindowSum(w, x, start, Continues);
    WindowSum(w, x, start, Halts);
    WindowSum(w, x, start, Tokens);
    WindowSum(w, x, start, Announces);
  }

  lemma WindowSlices(w: Window, x: Partition, start: int)
    ensures var s, a, p := WindowTrace(w, x, start), |Before(x, w.partition)| + 1, w.partition;
            && a + 2 < |s|
            && s[..a] == [SleepUntil(start + w.offset)] + Before(x, p) && s[a..a + 3] == Slot(p, start + End(w)) && s[a + 3..] == Afterwards(x)
            && s[a] == Continue(p) && s[a + 1] == SleepUntil(start + End(w)) && s[a + 2] == Halt(p)
            && (forall j :: 0 < j < a ==> s[j] == Before(x, p)[j - 1])
            && (forall j :: a + 3 <= j < |s| ==> s[j] == Afterwards(x)[j - a - 3])
  {
  }

  lemma WindowServes(w: Window, x: Partition, start: int)
    ensures Serves(WindowTrace(w, x, start), |Before(x, w.partition)| + 1, w, x, start)
  {
    WindowSlices(w, x, start);
    WindowCounts(w, x, start);
    BeforeMoves(x, w.partition);
    OneEvent(SleepUntil(start + w.offset));
    MovedConcat([SleepUntil(start + w.offset)], Before(x, w.partition));
  }

  // ---------------------------------------------------------------- counting

  lemma WindowsCount(v: seq<Window>, parts: seq<Partition>, start: int, i: nat)
    requires Known(v, parts) && i <= |v|
    ensures Sum(Flatten(WindowTraces(v, parts, start)[..i]), Continues) == i && Sum(Flatten(WindowTraces(v, parts, start)[..i]), Announces) == 0
  {
    var ws := WindowTraces(v, parts, start);
    forall j | 0 <= j < i
      ensures Sum(ws[..i][j], Continues) == 1 && Sum(ws[..i][j], Announces) == 0
    {
      assert v[j] in v;
      WindowCounts(v[j], parts[v[j].partition], start);
    }
    SumFlatten(ws[..i], Continues, 1);
    SumFlatten(ws[..i], Announces, 0);
    ProgressionExactly(0, 1, i);
    ProgressionExactly(0, 0, i);
  }

  lemma EchoCount(system: bool)
    ensures var echo := if system then [Echo(false)] else []; Sum(echo, Announces) == (if system then 1 else 0) && Sum(echo, Continues) == 0
  {
    OneEvent(Echo(false));
  }

  /** What a frame has done before its `i`-th window. */
  function FrameHead(v: seq<Window>, parts: seq<Partition>, start: int, system: bool, i: nat): seq<Event>
    requires Known(v, parts) && i <= |v|
  {
    (if system then [Echo(false)] else []) + Flatten(WindowTraces(v, parts, start)[..i])
  }

  lemma HeadCount(v: seq<Window>, parts: seq<Partition>, start: int, system: bool, i: nat)
    requires Known(v, parts) && i <= |v|
    ensures Sum(FrameHead(v, parts, start, system, i), Continues) == i
    ensures Sum(FrameHead(v, parts, start, system, i), Announces) == (if system then 1 else 0)
  {
    EchoCount(system);
    WindowsCount(v, parts, start, i);
    var echo := if system then [Echo(false)] else [];
    SumConcat(echo, Flatten(WindowTraces(v, parts, start)[..i]), Continues);
    SumConcat(echo, Flatten(WindowTraces(v, parts, start)[..i]), Announces);
  }

  lemma BlockCount(v: seq<Window>, parts: seq<Partition>, major: int, start: int, system: bool)
    requires Known(v, parts)
    ensures Sum(FrameBlock(v, parts, major, start, system), Continues) == |v|
    ensures Sum(FrameBlock(v, parts, major, start, system), Announces) == (if system then 1 else 0)
  {
    HeadCount(v, parts, start, system, |v|);
    assert WindowTraces(v, parts, start)[..|v|] == WindowTraces(v, parts, start);
    OneEvent(SleepUntil(start + major));
    SumConcat(FrameHead(v, parts, start, system, |v|), [SleepUntil(start + major)], Continues);
    SumConcat(FrameHead(v, parts, start, system, |v|), [SleepUntil(start + major)], Announces);
  }

  /** Main result on the whole: every frame runs every window once, and a system module manager
      announces every frame once. */
  lemma {:induction false} FramesCount(v: seq<Window>, parts: seq<Partition>, major: int, start: int, n: nat, system: bool)
    requires Known(v, parts)
    ensures Sum(FramesTrace(v, parts, major, start, n, system), Continues) == n * |v|
    ensures Sum(FramesTrace(v, parts, major, start, n, system), Announces) == (if system then n else 0)
  {
    var blocks := FrameBlocks(v, parts, major, start, n, system);
    forall k | 0 <= k < n
      ensures Sum(blocks[k], Continues) == |v| && Sum(blocks[k], Announces) == (if system then 1 else 0)
    {
      BlockCount(v, parts, major, Progression(start, major, k), system);
    }
    SumFlatten(blocks, Continues, |v|);
    SumFlatten(blocks, Announces, if system then 1 else 0);
    ProgressionExactly(0, |v|, n);
    ProgressionExactly(0, if system then 1 else 0, n);
  }

  // ---------------------------------------------------------------- one window in a run

  /** The windows of a frame from the `i`-th on, the first of which begins with a sleep. */
  lemma LaterWindows(v: seq<Window>, parts: seq<Partition>, start: int, i: nat) returns (rest: seq<Event>)
    requires Known(v, parts) && i <= |v|
    ensures var ws := WindowTraces(v, parts, start); Flatten(ws) == Flatten(ws[..i]) + rest
    ensures rest != [] ==> rest[0].SleepUntil?
  {
    var ws := WindowTraces(v, parts, start);
    if i == |v| {
      rest := [];
      assert ws[..i] == ws;
      AppendNothing(Flatten(ws));
    } else {
      var more := FlattenSplit(ws, i + 1);
      rest := ws[i] + more;
      FlattenNext(ws, i);
      Assoc(Flatten(ws[..i]), ws[i], more);
      assert v[i] in v && ws[i][0] == SleepUntil(start + v[i].offset);
    }
  }

  /** What follows the `i`-th window of a frame begins with a sleep. */
  lemma WindowInFrame(v: seq<Window>, parts: seq<Partition>, major: int, start: int, system: bool, i: nat) returns (tail: seq<Event>)
    requires Known(v, parts) && i < |v| && v[i].partition < |parts|
    ensures FrameBlock(v, parts, major, start, system)
            == (FrameHead(v, parts, start, system, i) + WindowTrace(v[i], parts[v[i].partition], start)) + tail
    ensures tail != [] && tail[0].SleepUntil?
  {
    var ws := WindowTraces(v, parts, start);
    var echo := if system then [Echo(false)] else [];
    var rest := LaterWindows(v, parts, start, i + 1);
    FlattenNext(ws, i);
    tail := rest + [SleepUntil(start + major)];
    Regroup(echo, Flatten(ws[..i]), ws[i], rest, [SleepUntil(start + major)]);
  }

  lemma Regroup(a: seq<Event>, b: seq<Event>, c: seq<Event>, d: seq<Event>, e: seq<Event>)
    ensures (a + ((b + c) + d)) + e == ((a + b) + c) + (d + e)
  {
  }

  lemma WindowInRun(v: seq<Window>, parts: seq<Partition>, major: int, start: int, n: nat, system: bool, k: nat, i: nat)
    returns (head: seq<Event>, tail: seq<Event>)
    requires Known(v, parts) && k < n && i < |v| && v[i].partition < |parts|
    ensures FramesTrace(v, parts, major, start, n, system)
            == (head + WindowTrace(v[i], parts[v[i].partition], start + k * major)) + tail
    ensures tail != [] && tail[0].SleepUntil?
    ensures Sum(head, Continues) == k * |v| + i && Sum(head, Announces) == (if system then k + 1 else 0)
  {
    var first := FramesTrace(v, parts, major, start, k, system);
    var at := start + k * major;
    var rest := FramesDoNotDrift(v, parts, major, start, n, system, k);
    var after := WindowInFrame(v, parts, major, at, system, i);
    head := first + FrameHead(v, parts, at, system, i);
    tail := after + rest;
    FramesCount(v, parts, major, start, k, system);
    HeadCount(v, parts, at, system, i);
    SumConcat(first, FrameHead(v, parts, at, system, i), Continues);
    SumConcat(first, FrameHead(v, parts, at, system, i), Announces);
    Regroup(first, FrameHead(v, parts, at, system, i), WindowTrace(v[i], parts[v[i].partition], at), after, rest);
  }


  /** The events `lo` to `hi` of a run serve a window; before them `windows` windows have been served and
      `frames` frames announced, and after them the module manager sleeps. */
  ghost predicate ServedAt(t: seq<Event>, lo: nat, hi: nat, a: nat, w: Window, x: Partition, start: int, windows: nat, frames: nat) {
    && lo < hi < |t| && t[hi].SleepUntil?
    && Serves(t[lo..hi], a, w, x, start)
    && Sum(t[..lo], Continues) == windows && Sum(t[..lo], Announces) == frames
  }

  /** Main result: in every run, the `i`-th window of frame `k` is served by one section of the trace, at
      `k` major frames after the start; exactly the windows before it have been served before, and a
      system module manager has announced `k + 1` frames. */
  lemma {:induction false} WindowServed(v: seq<Window>, parts: seq<Partition>, major: int, start: int, n: nat, system: bool, k: nat, i: nat)
    returns (lo: nat, hi: nat, a: nat)
    requires Known(v, parts) && k < n && i < |v| && v[i].partition < |parts|
    ensures ServedAt(FramesTrace(v, parts, major, start, n, system), lo, hi, a, v[i], parts[v[i].partition], start + k * major,
                     k * |v| + i, if system then k + 1 else 0)
  {
    var x, at := parts[v[i].partition], start + k * major;
    var head, tail := WindowInRun(v, parts, major, start, n, system, k, i);
    lo, hi, a := Section(FramesTrace(v, parts, major, start, n, system), head, tail, v[i], x, at, k * |v| + i, if system then k + 1 else 0);
  }

  lemma Section(t: seq<Event>, head: seq<Event>, tail: seq<Event>, w: Window, x: Partition, start: int, windows: nat, frames: nat)
    returns (lo: nat, hi: nat, a: nat)
    requires t == (head + WindowTrace(w, x, start)) + tail && tail != [] && tail[0].SleepUntil?
    requires Sum(head, Continues) == windows && Sum(head, Announces) == frames
    ensures ServedAt(t, lo, hi, a, w, x, start, windows, frames)
  {
    var s := WindowTrace(w, x, start);
    WindowServes(w, x, start);
    lo, hi, a := |head|, |head + s|, |Before(x, w.partition)| + 1;
    assert t[lo..hi] == s && t[..lo] == head && t[hi] == tail[0];
  }
}
