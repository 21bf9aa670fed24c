/** Queuing ports over bounded queues, and the channel that moves messages from a source queue to
    destination queues of the same module, dropping what does not fit. */
module Channel {
  import opened Apex
  import opened Sequences

  type Message = seq<char>

  datatype Direction = PortSource | PortDest | PortSourceDest

  datatype Queue = Queue(maxSize: nat, maxNb: nat, contents: seq<Message>)

  /** The time-outs that a port service accepts. */
  predicate Permitted(timeOut: int) { timeOut <= MAX_TIME_OUT || timeOut == INFINITE_TIME_VALUE }

  /** The result of SEND_MESSAGE when nobody makes room while it waits. */
  function SendCode(q: Queue, d: Direction, length: nat, timeOut: int): ReturnCode {
    if d == PortDest then InvalidMode
    else if timeOut == 0 && |q.contents| >= q.maxNb then TimedOut
    else if timeOut > MAX_TIME_OUT && timeOut != INFINITE_TIME_VALUE then InvalidParam
    else if length > q.maxSize then InvalidConfig
    else if |q.contents| >= q.maxNb then TimedOut
    else NoError
  }

  function ReceiveCode(q: Queue, d: Direction, timeOut: int): ReturnCode {
    if d == PortSource then InvalidMode
    else if timeOut > MAX_TIME_OUT && timeOut != INFINITE_TIME_VALUE then InvalidParam
    else if timeOut == 0 && q.contents == [] then NotAvailable
    else if q.contents == [] then TimedOut
    else NoError
  }

  // ---------------------------------------------------------------- one move

  predicate Fits(q: Queue, m: Message) { |q.contents| < q.maxNb && |m| <= q.maxSize }

  function Put(q: Queue, m: Message): Queue {
    if Fits(q, m) then q.(contents := q.contents + [m]) else q
  }

  /** A destination after a batch of messages was written to it one by one. */
  function Filled(q: Queue, batch: seq<Message>): Queue {
    if batch == [] then q else Put(Filled(q, batch[..|batch| - 1]), batch[|batch| - 1])
  }

  /** The messages of the batch that the destination did not take. */
  function Lost(q: Queue, batch: seq<Message>): seq<Message> {
    if batch == [] then [] else
      var last := batch[|batch| - 1];
      Lost(q, batch[..|batch| - 1]) + (if Fits(Filled(q, batch[..|batch| - 1]), last) then [] else [last])
  }

  lemma LastStep(q: Queue, b: seq<Message>, x: Message)
    ensures Filled(q, b + [x]) == Put(Filled(q, b), x)
    ensures Lost(q, b + [x]) == Lost(q, b) + (if Fits(Filled(q, b), x) then [] else [x])
  {
    assert (b + [x])[..|b|] == b;
  }

  lemma FilledNext(q: Queue, batch: seq<Message>, i: nat)
    requires i < |batch|
    ensures Filled(q, batch[..i + 1]) == Put(Filled(q, batch[..i]), batch[i])
  {
    assert batch[..i + 1] == batch[..i] + [batch[i]];
    LastStep(q, batch[..i], batch[i]);
  }

  /** Writing two batches one after the other. */
  lemma {:induction false} FilledConcat(q: Queue, a: seq<Message>, b: seq<Message>)
    ensures Filled(q, a + b) == Filled(Filled(q, a), b)
    ensures Lost(q, a + b) == Lost(q, a) + Lost(Filled(q, a), b)
    decreases |b|
  {
    if b == [] {
      assert a + b == a;
    } else {
      var b', x := b[..|b| - 1], b[|b| - 1];
      FilledConcat(q, a, b');
      ConcatStep(q, a, b', x);
      assert b == b' + [x];
    }
  }

  lemma ConcatStep(q: Queue, a: seq<Message>, b: seq<Message>, x: Message)
    requires Filled(q, a + b) == Filled(Filled(q, a), b) && Lost(q, a + b) == Lost(q, a) + Lost(Filled(q, a), b)
    ensures Filled(q, a + (b + [x])) == Filled(Filled(q, a), b + [x])
    ensures Lost(q, a + (b + [x])) == Lost(q, a) + Lost(Filled(q, a), b + [x])
  {
    LastStep(q, a + b, x);
    LastStep(Filled(q, a), b, x);
    Assoc(a, b, [x]);
    Assoc(Lost(q, a), Lost(Filled(q, a), b), if Fits(Filled(q, a + b), x) then [] else [x]);
  }

  /** A batch for which there is room. */
  lemma {:induction false} AllTaken(q: Queue, batch: seq<Message>)
    requires |q.contents| + |batch| <= q.maxNb && forall m <- batch :: |m| <= q.maxSize
    ensures Filled(q, batch) == q.(contents := q.contents + batch) && Lost(q, batch) == []
    decreases |batch|
  {
    if batch == [] {
      assert q.contents + [] == q.contents;
    } else {
      var b, x := batch[..|batch| - 1], batch[|batch| - 1];
      assert batch == b + [x] && x in batch;
      AllTaken(q, b);
      LastStep(q, b, x);
      Assoc(q.contents, b, [x]);
    }
  }

  /** A full queue takes nothing. */
  lemma {:induction false} AllLost(q: Queue, batch: seq<Message>)
    requires |q.contents| >= q.maxNb
    ensures Filled(q, batch) == q && Lost(q, batch) == batch
    decreases |batch|
  {
    if batch != [] {
      var b, x := batch[..|batch| - 1], batch[|batch| - 1];
      assert batch == b + [x];
      AllLost(q, b);
      LastStep(q, b, x);
    }
  }

  /** How many of `n` further messages a queue has room for. */
  function Taken(q: Queue, n: nat): nat
    requires |q.contents| <= q.maxNb
  {
    if n <= q.maxNb - |q.contents| then n else q.maxNb - |q.contents|
  }

  /** Main result: a destination takes exactly the longest prefix of the batch for which it has room. */
  lemma {:induction false} LongestPrefix(q: Queue, batch: seq<Message>)
    requires |q.contents| <= q.maxNb && forall m <- batch :: |m| <= q.maxSize
    ensures Filled(q, batch) == q.(contents := q.contents + batch[..Taken(q, |batch|)])
    ensures Lost(q, batch) == batch[Taken(q, |batch|)..]
  {
    var n := Taken(q, |batch|);
    assert batch == batch[..n] + batch[n..];
    TakenThenLost(q, batch[..n], batch[n..]);
  }

  lemma TakenThenLost(q: Queue, a: seq<Message>, b: seq<Message>)
    requires |q.contents| + |a| <= q.maxNb && forall m <- a :: |m| <= q.maxSize
    requires b == [] || |q.contents| + |a| == q.maxNb
    ensures Filled(q, a + b) == q.(contents := q.contents + a) && Lost(q, a + b) == b
  {
    AllTaken(q, a);
    FilledConcat(q, a, b);
    if b != [] { AllLost(q.(contents := q.contents + a), b); }
  }

  /** `m` is an interleaving of `a` and `b`: each of its messages belongs to one of them, in order. */
  predicate Shuffle(m: seq<Message>, a: seq<Message>, b: seq<Message>)
    decreases |m|
  {
    if m == [] then a == [] && b == [] else
      var (n, last) := (|m| - 1, m[|m| - 1]);
      || (a != [] && a[|a| - 1] == last && Shuffle(m[..n], a[..|a| - 1], b))
      || (b != [] && b[|b| - 1] == last && Shuffle(m[..n], a, b[..|b| - 1]))
  }

  lemma ShuffleNext(m: seq<Message>, a: seq<Message>, b: seq<Message>, x: Message)
    requires Shuffle(m, a, b)
    ensures Shuffle(m + [x], a + [x], b) && Shuffle(m + [x], a, b + [x])
  {
    assert (m + [x])[..|m|] == m && (a + [x])[..|a|] == a && (b + [x])[..|b|] == b;
  }

  lemma {:induction false} ShuffleContents(m: seq<Message>, a: seq<Message>, b: seq<Message>)
    requires Shuffle(m, a, b)
    ensures multiset(m) == multiset(a) + multiset(b)
    decreases |m|
  {
    if m != [] {
      var n := |m| - 1;
      assert m == m[..n] + [m[n]];
      if a != [] && a[|a| - 1] == m[n] && Shuffle(m[..n], a[..|a| - 1], b) {
        assert a == a[..|a| - 1] + [m[n]];
        ShuffleContents(m[..n], a[..|a| - 1], b);
      } else {
        assert b == b[..|b| - 1] + [m[n]];
        ShuffleContents(m[..n], a, b[..|b| - 1]);
      }
    }
  }

  /** What was moved is an interleaving of what a destination took and what it lost. */
  lemma {:induction false} MoveShuffles(q: Queue, batch: seq<Message>, moved: seq<Message>, received: seq<Message>, dropped: seq<Message>)
    requires Shuffle(moved, received + q.contents, dropped)
    ensures Shuffle(moved + batch, received + Filled(q, batch).contents, dropped + Lost(q, batch))
    decreases |batch|
  {
    if batch == [] {
      assert moved + [] == moved && dropped + [] == dropped;
    } else {
      var b, x := batch[..|batch| - 1], batch[|batch| - 1];
      assert batch == b + [x];
      MoveShuffles(q, b, moved, received, dropped);
      ShuffleStep(q, b, x, moved, received, dropped);
    }
  }

  lemma ShuffleTake(m: seq<Message>, r: seq<Message>, c: seq<Message>, d: seq<Message>, x: Message)
    requires Shuffle(m, r + c, d)
    ensures Shuffle(m + [x], r + (c + [x]), d)
  {
    ShuffleNext(m, r + c, d, x);
    assert (r + c) + [x] == r + (c + [x]);
  }

  lemma ShuffleDrop(m: seq<Message>, a: seq<Message>, d: seq<Message>, l: seq<Message>, x: Message)
    requires Shuffle(m, a, d + l)
    ensures Shuffle(m + [x], a, d + (l + [x]))
  {
    ShuffleNext(m, a, d + l, x);
    assert (d + l) + [x] == d + (l + [x]);
  }

  lemma ShuffleStep(q: Queue, b: seq<Message>, x: Message, moved: seq<Message>, received: seq<Message>, dropped: seq<Message>)
    requires Shuffle(moved + b, received + Filled(q, b).contents, dropped + Lost(q, b))
    ensures Shuffle(moved + (b + [x]), received + Filled(q, b + [x]).contents, dropped + Lost(q, b + [x]))
  {
    LastStep(q, b, x);
    assert moved + (b + [x]) == (moved + b) + [x];
    if Fits(Filled(q, b), x) {
      ShuffleTake(moved + b, received, Filled(q, b).contents, dropped + Lost(q, b), x);
      assert Lost(q, b) + [] == Lost(q, b);
    } else {
      ShuffleDrop(moved + b, received + Filled(q, b).contents, dropped, Lost(q, b), x);
    }
  }

  // ---------------------------------------------------------------- runs

  /** The queues of a channel, and what was sent into the source, received from each destination and
      dropped in front of each destination so far. */
  datatype World = World(source: Queue, dests: seq<Queue>, sent: seq<Message>, received: seq<seq<Message>>, dropped: seq<seq<Message>>)

  datatype Step = Send(m: Message) | Move | Receive(j: nat)

  predicate Enabled(w: World, step: Step) {
    match step
    case Send(m) => true
    case Move => true
    case Receive(j) => j < |w.dests| && j < |w.received| && w.dests[j].contents != []
  }

  /** Sends that the source refuses have no effect. */
  function Do(w: World, step: Step): World
    requires Enabled(w, step)
  {
    match step
    case Send(m) => if Fits(w.source, m) then w.(source := Put(w.source, m), sent := w.sent + [m]) else w
    case Move =>
      var batch := w.source.contents;
      w.(source := w.source.(contents := []),
         dests := seq(|w.dests|, j requires 0 <= j < |w.dests| => Filled(w.dests[j], batch)),
         dropped := seq(|w.dropped|, j requires 0 <= j < |w.dropped| =>
                          if j < |w.dests| then w.dropped[j] + Lost(w.dests[j], batch) else w.dropped[j]))
    case Receive(j) =>
      w.(dests := w.dests[j := w.dests[j].(contents := w.dests[j].contents[1..])],
         received := w.received[j := w.received[j] + [w.dests[j].contents[0]]])
  }

  /** What was moved out of the source so far: everything sent that is not waiting there. */
  function Moved(w: World): seq<Message>
    requires |w.source.contents| <= |w.sent|
  {
    w.sent[..|w.sent| - |w.source.contents|]
  }

  ghost predicate Inv(w: World) {
    && |w.received| == |w.dropped| == |w.dests|
    && |w.source.contents| <= w.source.maxNb
    && |w.source.contents| <= |w.sent| && w.sent == Moved(w) + w.source.contents
    && (forall m <- w.source.contents :: |m| <= w.source.maxSize)
    && (forall j :: 0 <= j < |w.dests| ==> |w.dests[j].contents| <= w.dests[j].maxNb)
    && (forall j :: 0 <= j < |w.dests| ==> Shuffle(Moved(w), w.received[j] + w.dests[j].contents, w.dropped[j]))
  }

  lemma {:induction false} FilledBound(q: Queue, batch: seq<Message>)
    requires |q.contents| <= q.maxNb
    ensures |Filled(q, batch).contents| <= q.maxNb && Filled(q, batch).maxNb == q.maxNb && Filled(q, batch).maxSize == q.maxSize
    decreases |batch|
  {
    if batch != [] { FilledBound(q, batch[..|batch| - 1]); }
  }

  lemma MoveInv(w: World)
    requires Inv(w)
    ensures Inv(Do(w, Move))
  {
    var w' := Do(w, Move);
    assert Moved(w') == Moved(w) + w.source.contents;
    forall j | 0 <= j < |w.dests|
      ensures |w'.dests[j].contents| <= w'.dests[j].maxNb
      ensures Shuffle(Moved(w'), w'.received[j] + w'.dests[j].contents, w'.dropped[j])
    {
      FilledBound(w.dests[j], w.source.contents);
      MoveShuffles(w.dests[j], w.source.contents, Moved(w), w.received[j], w.dropped[j]);
    }
  }

  lemma SendInv(w: World, m: Message)
    requires Inv(w)
    ensures Inv(Do(w, Send(m)))
  {
    var w' := Do(w, Send(m));
    if Fits(w.source, m) {
      assert Moved(w') == Moved(w);
      assert w'.sent == Moved(w) + (w.source.contents + [m]);
    }
  }

  lemma ReceiveInv(w: World, j: nat)
    requires Inv(w) && Enabled(w, Receive(j))
    ensures Inv(Do(w, Receive(j)))
  {
    var w' := Do(w, Receive(j));
    assert Moved(w') == Moved(w);
    assert w'.received[j] + w'.dests[j].contents == w.received[j] + w.dests[j].contents;
  }

  lemma StepInv(w: World, step: Step)
    requires Inv(w) && Enabled(w, step)
    ensures Inv(Do(w, step))
  {
    match step
    case Send(m) => SendInv(w, m);
    case Move => MoveInv(w);
    case Receive(j) => ReceiveInv(w, j);
  }

  predicate Run(w: World, steps: seq<Step>)
    decreases |steps|
  {
    steps != [] ==> Enabled(w, steps[0]) && Run(Do(w, steps[0]), steps[1..])
  }

  function After(w: World, steps: seq<Step>): World
    requires Run(w, steps)
    decreases |steps|
  {
    if steps == [] then w else After(Do(w, steps[0]), steps[1..])
  }

  lemma {:induction false} RunInv(w: World, steps: seq<Step>)
    requires Inv(w) && Run(w, steps)
    ensures Inv(After(w, steps)) && |After(w, steps).dests| == |w.dests|
    decreases |steps|
  {
    if steps != [] {
      StepInv(w, steps[0]);
      RunInv(Do(w, steps[0]), steps[1..]);
    }
  }

  function Empty(source: Queue, dests: seq<Queue>): World {
    World(source.(contents := []), seq(|dests|, j requires 0 <= j < |dests| => dests[j].(contents := [])), [],
          seq(|dests|, _ => []), seq(|dests|, _ => []))
  }

  /** Main result: in every run, what was sent is an interleaving of what a destination delivered or
      still holds with what it dropped, followed by what waits at the source.  So delivery keeps the
      order of sending, and every message sent is received, waiting or dropped. */
  lemma DeliveryConserves(source: Queue, dests: seq<Queue>, steps: seq<Step>, j: nat)
    requires Run(Empty(source, dests), steps) && j < |dests|
    ensures var w := After(Empty(source, dests), steps);
            && |w.received| == |w.dropped| == |w.dests| == |dests|
            && |w.source.contents| <= |w.sent| && w.sent == Moved(w) + w.source.contents
            && Shuffle(Moved(w), w.received[j] + w.dests[j].contents, w.dropped[j])
            && multiset(w.sent) == multiset(w.source.contents) + multiset(w.received[j]) + multiset(w.dests[j].contents) + multiset(w.dropped[j])
  {
    EmptyInv(source, dests);
    RunInv(Empty(source, dests), steps);
    InvConserves(After(Empty(source, dests), steps), j);
  }

  lemma EmptyInv(source: Queue, dests: seq<Queue>)
    ensures Inv(Empty(source, dests))
  {
    var w := Empty(source, dests);
    assert Moved(w) == [];
  }

  lemma InvConserves(w: World, j: nat)
    requires Inv(w) && j < |w.dests|
    ensures multiset(w.sent) == multiset(w.source.contents) + multiset(w.received[j]) + multiset(w.dests[j].contents) + multiset(w.dropped[j])
  {
    ShuffleContents(Moved(w), w.received[j] + w.dests[j].contents, w.dropped[j]);
    assert multiset(w.sent) == multiset(Moved(w)) + multiset(w.source.contents);
  }

  /** Nothing is dropped while a destination has room: with fitting sizes, a move drops messages at a
      destination only if it leaves that destination full. */
  lemma DropOnlyWhenFull(w: World, j: nat)
    requires Inv(w) && j < |w.dests| && w.source.maxSize <= w.dests[j].maxSize
    ensures Do(w, Move).dropped[j] != w.dropped[j] <==> |w.dests[j].contents| + |w.source.contents| > w.dests[j].maxNb
    ensures Do(w, Move).dropped[j] != w.dropped[j] ==> |Do(w, Move).dests[j].contents| == w.dests[j].maxNb
  {
    LongestPrefix(w.dests[j], w.source.contents);
  }

  // ---------------------------------------------------------------- the port and channel objects

  class MessageQueue {
    const maxMessageSize: nat
    const maxNbMessage: nat
    var contents: seq<Message>

    ghost function View(): Queue
      reads this
    {
      Queue(maxMessageSize, maxNbMessage, contents)
    }

    constructor (size: nat, nb: nat)
      ensures View() == Queue(size, nb, [])
    {
      maxMessageSize, maxNbMessage, contents := size, nb, [];
    }

    /** A send that must not block for ever; the queue changes exactly when the code is NO_ERROR. */
    method SendMessage(m: Message, d: Direction, timeOut: int) returns (code: ReturnCode)
      requires timeOut == INFINITE_TIME_VALUE && d != PortDest && |m| <= maxMessageSize ==> |contents| < maxNbMessage
      modifies this
      ensures code == NoError <==> d != PortDest && Permitted(timeOut) && |m| <= maxMessageSize && |old(contents)| < maxNbMessage
      ensures code == InvalidMode <==> d == PortDest
      ensures code == InvalidParam <==> d != PortDest && !Permitted(timeOut)
      ensures code == InvalidConfig <==>
                d != PortDest && Permitted(timeOut) && |m| > maxMessageSize && (timeOut == 0 ==> |old(contents)| < maxNbMessage)
      ensures code == TimedOut <==>
                d != PortDest && Permitted(timeOut) && |old(contents)| >= maxNbMessage && (timeOut == 0 || |m| <= maxMessageSize)
      ensures contents == if code == NoError then old(contents) + [m] else old(contents)
      ensures code == SendCode(old(View()), d, |m|, timeOut)
      ensures View() == if code == NoError then Put(old(View()), m) else old(View())
    {
      if d == PortDest {
        return InvalidMode;
      }
      if timeOut == 0 && |contents| >= maxNbMessage {
        return TimedOut;
      }
      if timeOut > MAX_TIME_OUT && timeOut != INFINITE_TIME_VALUE {
        return InvalidParam;
      }
      if |m| > maxMessageSize {
        return InvalidConfig;
      }
      if |contents| >= maxNbMessage {
        return TimedOut;
      }
      contents := contents + [m];
      code := NoError;
    }

    method ReceiveMessage(d: Direction, timeOut: int) returns (m: Message, code: ReturnCode)
      requires timeOut == INFINITE_TIME_VALUE && d != PortSource ==> contents != []
      modifies this
      ensures code == NoError <==> d != PortSource && Permitted(timeOut) && old(contents) != []
      ensures code == InvalidMode <==> d == PortSource
      ensures code == InvalidParam <==> d != PortSource && !Permitted(timeOut)
      ensures code == NotAvailable <==> d != PortSource && timeOut == 0 && old(contents) == []
      ensures code == TimedOut <==> d != PortSource && Permitted(timeOut) && timeOut != 0 && old(contents) == []
      ensures code == ReceiveCode(old(View()), d, timeOut)
      ensures if code == NoError then old(contents) == [m] + contents else contents == old(contents)
    {
      m := [];
      if d == PortSource {
        return m, InvalidMode;
      }
      if timeOut > MAX_TIME_OUT && timeOut != INFINITE_TIME_VALUE {
        return m, InvalidParam;
      }
      if timeOut == 0 && |contents| == 0 {
        return m, NotAvailable;
      }
      if |contents| == 0 {
        return m, TimedOut;
      }
      m, contents := contents[0], contents[1..];
      code := NoError;
    }
  }

  class QueueChannel {
    var initialized: bool
    var sourceQueue: MessageQueue?
    var destinationQueues: seq<MessageQueue>
    var maxSizeOfMessage: nat

    ghost predicate Valid()
      reads this, sourceQueue
    {
      && (forall i, j :: 0 <= i < j < |destinationQueues| ==> destinationQueues[i] != destinationQueues[j])
      && (forall j :: 0 <= j < |destinationQueues| ==> destinationQueues[j] != sourceQueue)
      && (if sourceQueue == null then maxSizeOfMessage == 0 else maxSizeOfMessage == sourceQueue.maxMessageSize)
    }

    /** Every destination can hold every message of the source. */
    ghost predicate Sized()
      reads this
    {
      forall d <- destinationQueues :: maxSizeOfMessage <= d.maxMessageSize
    }

    constructor ()
      ensures Valid() && Sized() && !initialized && sourceQueue == null && destinationQueues == []
    {
      initialized, sourceQueue, destinationQueues, maxSizeOfMessage := false, null, [], 0;
    }

    /** The sizes of destinations added before the source are not looked at again, so the channel
        keeps fitting sizes exactly when these are large enough. */
    method AddSourceQueue(size: nat, nb: nat) returns (code: ReturnCode)
      requires Valid()
      modifies this
      ensures Valid() && destinationQueues == old(destinationQueues) && initialized == old(initialized)
      ensures maxSizeOfMessage == (if code == NoError then size else old(maxSizeOfMessage))
      ensures code == if old(initialized) || old(sourceQueue) != null then NoAction else NoError
      ensures code == NoAction ==> sourceQueue == old(sourceQueue)
      ensures code == NoError ==> sourceQueue != null && fresh(sourceQueue) && sourceQueue.View() == Queue(size, nb, [])
      ensures code == NoError ==> (Sized() <==> forall d <- destinationQueues :: size <= d.maxMessageSize)
    {
      if initialized || sourceQueue != null {
        return NoAction;
      }
      sourceQueue := new MessageQueue(size, nb);
      maxSizeOfMessage := size;
      code := NoError;
    }

    method AddDestinationQueue(size: nat, nb: nat) returns (code: ReturnCode)
      requires Valid()
      modifies this
      ensures Valid() && (old(Sized()) ==> Sized()) && sourceQueue == old(sourceQueue)
      ensures initialized == old(initialized) && maxSizeOfMessage == old(maxSizeOfMessage)
      ensures code == if old(initialized) then NoAction else if old(maxSizeOfMessage) > size then InvalidConfig else NoError
      ensures code != NoError ==> destinationQueues == old(destinationQueues)
      ensures code == NoError ==>
                && |destinationQueues| == |old(destinationQueues)| + 1 && destinationQueues[..|destinationQueues| - 1] == old(destinationQueues)
                && fresh(destinationQueues[|destinationQueues| - 1])
                && destinationQueues[|destinationQueues| - 1].View() == Queue(size, nb, [])
    {
      if initialized {
        return NoAction;
      }
      if maxSizeOfMessage > size {
        return InvalidConfig;
      }
      var q := new MessageQueue(size, nb);
      destinationQueues := destinationQueues + [q];
      code := NoError;
    }

    method SetInitialized()
      requires Valid()
      modifies this`initialized
      ensures Valid() && initialized
    {
      initialized := true;
    }

    /** One message to every destination; `code` is the result of the last attempt. */
    method WriteToAll(m: Message, before: ReturnCode) returns (code: ReturnCode)
      requires Valid()
      modifies destinationQueues
      ensures Valid()
      ensures forall j :: 0 <= j < |destinationQueues| ==> destinationQueues[j].View() == Put(old(destinationQueues[j].View()), m)
      ensures code == if destinationQueues == [] then before else SendCode(old(destinationQueues[|destinationQueues| - 1].View()), PortSourceDest, |m|, 0)
    {
      code := before;
      var j := 0;
      while j < |destinationQueues|
        invariant j <= |destinationQueues| && Valid()
        invariant forall k :: 0 <= k < j ==> destinationQueues[k].View() == Put(old(destinationQueues[k].View()), m)
        invariant forall k :: j <= k < |destinationQueues| ==> destinationQueues[k].View() == old(destinationQueues[k].View())
        invariant code == if j == 0 then before else SendCode(old(destinationQueues[j - 1].View()), PortSourceDest, |m|, 0)
      {
        code := destinationQueues[j].SendMessage(m, PortSourceDest, 0);
        j := j + 1;
      }
    }

    /** The next message of a move, from the source to every destination. */
    method MoveOne(ghost batch: seq<Message>, ghost i: nat) returns (code: ReturnCode)
      requires Valid() && sourceQueue != null && destinationQueues != [] && i < |batch| && sourceQueue.contents == batch[i..]
      modifies sourceQueue, destinationQueues
      ensures Valid() && sourceQueue.contents == batch[i + 1..]
      ensures forall j :: 0 <= j < |destinationQueues| ==> destinationQueues[j].View() == Put(old(destinationQueues[j].View()), batch[i])
      ensures code == SendCode(old(destinationQueues[|destinationQueues| - 1].View()), PortSourceDest, |batch[i]|, 0)
    {
      var m, received := sourceQueue.ReceiveMessage(PortSourceDest, 0);
      assert m == batch[i] && sourceQueue.contents == batch[i + 1..];
      code := WriteToAll(m, received);
    }

    /** Main result: a move empties the source and gives every destination what fits; the code
        reports only what became of the last message at the last destination. */
    method MoveMessages() returns (code: ReturnCode)
      requires Valid()
      modifies sourceQueue, destinationQueues
      ensures Valid()
      ensures code == NoAction <==> !initialized || sourceQueue == null || destinationQueues == []
      ensures code == NoAction ==>
                && (sourceQueue != null ==> sourceQueue.contents == old(sourceQueue.contents))
                && forall j :: 0 <= j < |destinationQueues| ==> destinationQueues[j].View() == old(destinationQueues[j].View())
      ensures code != NoAction ==>
                && sourceQueue != null && destinationQueues != [] && sourceQueue.contents == []
                && (forall j :: 0 <= j < |destinationQueues| ==>
                      destinationQueues[j].View() == Filled(old(destinationQueues[j].View()), old(sourceQueue.contents)))
                && code == MoveCode(old(destinationQueues[|destinationQueues| - 1].View()), old(sourceQueue.contents))
    {
      if !initialized || sourceQueue == null || |destinationQueues| == 0 {
        return NoAction;
      }
      var source := sourceQueue;
      ghost var batch := source.contents;
      var counter := |source.contents|;
      code := NoError;
      var i := 0;
      while i < counter
        invariant i <= counter == |batch| && Valid() && source == sourceQueue && source.contents == batch[i..]
        invariant forall j :: 0 <= j < |destinationQueues| ==> destinationQueues[j].View() == Filled(old(destinationQueues[j].View()), batch[..i])
        invariant code == MoveCode(old(destinationQueues[|destinationQueues| - 1].View()), batch[..i])
      {
        MoveCodeNext(old(destinationQueues[|destinationQueues| - 1].View()), batch, i);
        code := MoveOne(batch, i);
        forall j | 0 <= j < |destinationQueues|
          ensures destinationQueues[j].View() == Filled(old(destinationQueues[j].View()), batch[..i + 1])
        {
          FilledNext(old(destinationQueues[j].View()), batch, i);
        }
        i := i + 1;
      }
      assert batch[..i] == batch;
    }
  }

  /** The code of a move, as far as its last destination is concerned. */
  function MoveCode(q: Queue, batch: seq<Message>): ReturnCode {
    if batch == [] then NoError else SendCode(Filled(q, batch[..|batch| - 1]), PortSourceDest, |batch[|batch| - 1]|, 0)
  }

  lemma MoveCodeNext(q: Queue, batch: seq<Message>, i: nat)
    requires i < |batch|
    ensures MoveCode(q, batch[..i + 1]) == SendCode(Filled(q, batch[..i]), PortSourceDest, |batch[i]|, 0)
  {
    assert batch[..i + 1][..i] == batch[..i];
  }

  // ---------------------------------------------------------------- messages of any size

  /** The messages that are not longer than `size`. */
  function Fitting(size: nat, batch: seq<Message>): seq<Message> {
    if batch == [] then [] else
      var last := batch[|batch| - 1];
      Fitting(size, batch[..|batch| - 1]) + (if |last| <= size then [last] else [])
  }

  /** The messages that are longer than `size`. */
  function TooLong(size: nat, batch: seq<Message>): seq<Message> {
    if batch == [] then [] else
      var last := batch[|batch| - 1];
      TooLong(size, batch[..|batch| - 1]) + (if |last| <= size then [] else [last])
  }

  lemma FittingStep(size: nat, b: seq<Message>, x: Message)
    ensures Fitting(size, b + [x]) == Fitting(size, b) + (if |x| <= size then [x] else [])
    ensures TooLong(size, b + [x]) == TooLong(size, b) + (if |x| <= size then [] else [x])
  {
    assert (b + [x])[..|b|] == b;
  }

  /** There is no place for another message after the batch. */
  predicate FullAfter(q: Queue, batch: seq<Message>) { |q.contents| + |Fitting(q.maxSize, batch)| >= q.maxNb }

  /** A destination takes exactly the longest prefix of the fitting messages for which it has room. */
  lemma {:induction false} FittingPrefix(q: Queue, batch: seq<Message>)
    requires |q.contents| <= q.maxNb
    ensures var fitting := Fitting(q.maxSize, batch);
            Filled(q, batch) == q.(contents := q.contents + fitting[..Taken(q, |fitting|)])
    decreases |batch|
  {
    if batch == [] {
      AppendNothing(q.contents);
    } else {
      var b, x := batch[..|batch| - 1], batch[|batch| - 1];
      assert batch == b + [x];
      FittingPrefix(q, b);
      PrefixStep(q, b, x);
    }
  }

  lemma PrefixStep(q: Queue, b: seq<Message>, x: Message)
    requires |q.contents| <= q.maxNb
    requires var fitting := Fitting(q.maxSize, b); Filled(q, b) == q.(contents := q.contents + fitting[..Taken(q, |fitting|)])
    ensures var fitting := Fitting(q.maxSize, b + [x]);
            Filled(q, b + [x]) == q.(contents := q.contents + fitting[..Taken(q, |fitting|)])
  {
    LastStep(q, b, x);
    FittingStep(q.maxSize, b, x);
    if |x| > q.maxSize {
      AppendNothing(Fitting(q.maxSize, b));
    } else {
      PutNext(q, Fitting(q.maxSize, b), x);
    }
  }

  /** One more fitting message behind those for which there was room. */
  lemma PutNext(q: Queue, fitting: seq<Message>, x: Message)
    requires |q.contents| <= q.maxNb && |x| <= q.maxSize
    ensures Put(q.(contents := q.contents + fitting[..Taken(q, |fitting|)]), x)
            == q.(contents := q.contents + (fitting + [x])[..Taken(q, |fitting| + 1)])
  {
    var n := Taken(q, |fitting|);
    if |q.contents| + |fitting| < q.maxNb {
      assert fitting[..n] == fitting && (fitting + [x])[..n + 1] == fitting + [x];
      Assoc(q.contents, fitting, [x]);
    } else {
      assert (fitting + [x])[..n] == fitting[..n];
    }
  }

  /** Main result: the `i`-th message of a batch is lost exactly when it is longer than the
      destination's maximum, or the fitting messages before it have used up the room. */
  lemma {:induction false} LostInTurn(q: Queue, batch: seq<Message>, i: nat)
    requires |q.contents| <= q.maxNb && i < |batch|
    ensures var m, before, after := batch[i], batch[..i], batch[..i + 1];
            if |m| > q.maxSize || FullAfter(q, before)
            then Filled(q, after) == Filled(q, before) && Lost(q, after) == Lost(q, before) + [m]
            else Filled(q, after).contents == Filled(q, before).contents + [m] && Lost(q, after) == Lost(q, before)
  {
    FittingPrefix(q, batch[..i]);
    assert batch[..i + 1] == batch[..i] + [batch[i]];
    LastStep(q, batch[..i], batch[i]);
    AppendNothing(Lost(q, batch[..i]));
  }

  lemma {:induction false} FilledSizes(q: Queue, batch: seq<Message>)
    ensures Filled(q, batch).maxSize == q.maxSize && Filled(q, batch).maxNb == q.maxNb
    decreases |batch|
  {
    if batch != [] { FilledSizes(q, batch[..|batch| - 1]); }
  }

  /** A destination that has room left after a move has lost exactly the messages that are longer
      than its maximum. */
  lemma {:induction false} NeverDeliveredExactly(q: Queue, batch: seq<Message>)
    requires |Filled(q, batch).contents| < q.maxNb
    ensures Lost(q, batch) == TooLong(q.maxSize, batch)
    ensures Filled(q, batch).contents == q.contents + Fitting(q.maxSize, batch)
    decreases |batch|
  {
    if batch == [] {
      AppendNothing(q.contents);
    } else {
      var b, x := batch[..|batch| - 1], batch[|batch| - 1];
      assert batch == b + [x];
      FilledSizes(q, b);
      LastStep(q, b, x);
      NeverDeliveredExactly(q, b);
      FittingStep(q.maxSize, b, x);
      Assoc(q.contents, Fitting(q.maxSize, b), [x]);
      AppendNothing(Fitting(q.maxSize, b));
    }
  }

  /** The code of a move, exactly: a full last destination comes first, then the length of the last
      message; what became of earlier messages is not reported. */
  lemma {:induction false} MoveCodeExactly(q: Queue, batch: seq<Message>)
    requires |q.contents| <= q.maxNb
    ensures MoveCode(q, batch) ==
            if batch == [] then NoError
            else if FullAfter(q, batch[..|batch| - 1]) then TimedOut
            else if |batch[|batch| - 1]| > q.maxSize then InvalidConfig
            else NoError
  {
    if batch != [] { FittingPrefix(q, batch[..|batch| - 1]); }
  }

  /** The batch has a message that is too long, or more fitting ones than there is room for. */
  predicate Loses(q: Queue, batch: seq<Message>) {
    || (exists m :: m in batch && |m| > q.maxSize)
    || |q.contents| + |Fitting(q.maxSize, batch)| > q.maxNb
  }

  lemma {:induction false} LostExactly(q: Queue, batch: seq<Message>)
    requires |q.contents| <= q.maxNb
    ensures Lost(q, batch) != [] <==> Loses(q, batch)
    decreases |batch|
  {
    if batch != [] {
      var b, x := batch[..|batch| - 1], batch[|batch| - 1];
      assert batch == b + [x];
      LostExactly(q, b);
      LostInTurn(q, batch, |b|);
      assert batch[..|b|] == b && batch[..|b| + 1] == batch;
      FittingStep(q.maxSize, b, x);
      LosesStep(q, b, x);
    }
  }

  lemma LosesStep(q: Queue, b: seq<Message>, x: Message)
    ensures Loses(q, b + [x]) <==> Loses(q, b) || |x| > q.maxSize || FullAfter(q, b)
  {
    FittingStep(q.maxSize, b, x);
    assert x in b + [x] && forall m <- b :: m in b + [x];
  }

  /** Main result: a move loses messages and reports NO_ERROR exactly when the last message of the
      batch finds its length and its place accepted at the last destination, while at some
      destination a message is too long or the room does not suffice. */
  lemma {:induction false} UnreportedExactly(dests: seq<Queue>, batch: seq<Message>)
    requires dests != [] && forall d <- dests :: |d.contents| <= d.maxNb
    ensures var last, n := dests[|dests| - 1], |batch| - 1;
            (MoveCode(last, batch) == NoError && exists d :: d in dests && Lost(d, batch) != [])
            <==> (batch != [] && |batch[n]| <= last.maxSize && !FullAfter(last, batch[..n])
                  && exists d :: d in dests && Loses(d, batch))
  {
    var last := dests[|dests| - 1];
    assert last in dests;
    MoveCodeExactly(last, batch);
    forall d | d in dests
      ensures Lost(d, batch) != [] <==> Loses(d, batch)
    {
      LostExactly(d, batch);
    }
  }

  /** The first destination is full, the last one empty: the message is lost at the first, and the
      code is NO_ERROR. */
  lemma LossUnreported()
    ensures var full, free, batch := Queue(1, 1, ["a"]), Queue(1, 1, []), ["b"];
            && MoveCode(free, batch) == NoError && Lost(full, batch) == ["b"]
            && Filled(full, batch).contents == ["a"] && Filled(free, batch).contents == ["b"]
  {
    LongestPrefix(Queue(1, 1, ["a"]), ["b"]);
    LongestPrefix(Queue(1, 1, []), ["b"]);
    MoveCodeExactly(Queue(1, 1, []), ["b"]);
  }

  lemma OneMessage(q: Queue, m: Message)
    ensures Filled(q, [m]) == Put(q, m) && MoveCode(q, [m]) == SendCode(q, PortSourceDest, |m|, 0)
  {
    assert [m][..0] == [] && Filled(q, []) == q;
  }

  /** A channel whose destination was added before its source, with one message waiting: the sizes
      do not fit, and nothing has said so. */
  method DestinationAddedFirst() returns (channel: QueueChannel)
    ensures fresh(channel) && channel.Valid() && channel.initialized && !channel.Sized()
    ensures channel.sourceQueue != null && fresh(channel.sourceQueue) && channel.sourceQueue.contents == ["ab"]
    ensures |channel.destinationQueues| == 1 && fresh(channel.destinationQueues[0]) && channel.destinationQueues[0].View() == Queue(1, 1, [])
  {
    channel := new QueueChannel();
    var code := channel.AddDestinationQueue(1, 1);
    assert code == NoError;
    ghost var d := channel.destinationQueues[0];
    code := channel.AddSourceQueue(2, 1);
    assert code == NoError && channel.destinationQueues[0] == d;
    channel.SetInitialized();
    var source := channel.sourceQueue;
    code := source.SendMessage("ab", PortSourceDest, 0);
    assert code == NoError;
    assert d in channel.destinationQueues && d.maxMessageSize == 1;
  }

  /** The message is lost although its only destination is empty. */
  method MoveTooLong() returns (code: ReturnCode, channel: QueueChannel)
    ensures code == InvalidConfig && channel.sourceQueue != null && channel.sourceQueue.contents == []
    ensures |channel.destinationQueues| == 1 && channel.destinationQueues[0].View() == Queue(1, 1, [])
  {
    channel := DestinationAddedFirst();
    OneMessage(Queue(1, 1, []), "ab");
    code := channel.MoveMessages();
  }
}
