/** The message buffer: a ring of slots, a semaphore counting messages to read, a semaphore counting
    places to write, and a mutex.  Taking a permit, working on the ring and posting are separate
    steps, so runs contain every interleaving of senders and receivers. */
module Buffer {
  import opened Apex
  import opened Sequences

  type Message = seq<char>

  /** A slot has a block of bytes and the length of the message stored in it. */
  datatype Slot = Slot(load: seq<char>, length: nat)

  /** Where a process is: outside, with a place to write `message`, holding the mutex after storing,
      with a permit to read, or holding the mutex after taking `message`. */
  datatype Phase = Idle | Sending(message: Message) | Stored | Receiving | Taken(message: Message)

  datatype Ring = Ring(size: nat, slots: seq<Slot>, head: nat, tail: nat, count: nat,
                       read: nat, write: nat, locked: bool, procs: seq<Phase>)

  datatype Action = WaitWrite(message: Message) | Store | PostRead | WaitRead | Take | PostWrite

  function Wrap(i: nat, cap: nat): nat {
    if i >= cap then i - cap else i
  }

  /** `memcpy` of a message over the start of a block. */
  function Copy(load: seq<char>, m: Message): seq<char>
    requires |m| <= |load|
  {
    m + load[|m|..]
  }

  /** The slot of the `i`-th message, counted from the oldest. */
  function Nth(b: Ring, i: nat): Slot
    requires i < b.count <= |b.slots| && b.head < |b.slots|
  {
    b.slots[Wrap(b.head + i, |b.slots|)]
  }

  ghost predicate Shape(b: Ring) {
    && b.head < |b.slots| && b.count <= |b.slots| && b.tail == Wrap(b.head + b.count, |b.slots|)
    && (forall s <- b.slots :: |s.load| == b.size)
    && (forall i :: 0 <= i < b.count ==> Nth(b, i).length <= b.size)
    && (forall p :: 0 <= p < |b.procs| && b.procs[p].Sending? ==> |b.procs[p].message| <= b.size)
  }

  /** What the ring stands for: the waiting messages, oldest first. */
  ghost function Contents(b: Ring): seq<Message>
    requires Shape(b)
  {
    seq(b.count, i requires 0 <= i < b.count => Nth(b, i).load[..Nth(b, i).length])
  }

  // A place is promised to a sender that has not stored yet, or still to be posted by a receiver.
  function Places(x: Phase): nat { if x.Sending? || x.Taken? then 1 else 0 }

  // A message is promised to a receiver that has not taken it yet, or still to be posted by a sender.
  function Promises(x: Phase): nat { if x.Receiving? || x.Stored? then 1 else 0 }

  function Holding(x: Phase): nat { if x.Stored? || x.Taken? then 1 else 0 }

  ghost predicate Accounts(b: Ring) {
    && b.write + Sum(b.procs, Places) + b.count == |b.slots|
    && b.read + Sum(b.procs, Promises) == b.count
    && Sum(b.procs, Holding) == (if b.locked then 1 else 0)
  }

  ghost predicate Inv(b: Ring) { Shape(b) && Accounts(b) }

  /** Messages fit into a slot; work on the ring starts when the mutex is free. */
  predicate Enabled(b: Ring, p: nat, a: Action) {
    p < |b.procs| &&
    match a
    case WaitWrite(m) => b.procs[p] == Idle && b.write > 0 && |m| <= b.size
    case Store => b.procs[p].Sending? && !b.locked
    case PostRead => b.procs[p].Stored?
    case WaitRead => b.procs[p] == Idle && b.read > 0
    case Take => b.procs[p].Receiving? && !b.locked
    case PostWrite => b.procs[p].Taken?
  }

  /** Whoever works on the ring finds a free slot, or a message. */
  lemma Room(b: Ring, p: nat, a: Action)
    requires Inv(b) && Enabled(b, p, a)
    ensures a == Store ==> b.count < |b.slots|
    ensures a == Take ==> b.count > 0 && |b.slots[b.head].load| == b.size && b.slots[b.head].length <= b.size
  {
    SumMember(b.procs, p, Places);
    SumMember(b.procs, p, Promises);
    if a == Take { assert Nth(b, 0) == b.slots[b.head]; }
  }

  ghost function Do(b: Ring, p: nat, a: Action): Ring
    requires Inv(b) && Enabled(b, p, a)
  {
    Room(b, p, a);
    match a
    case WaitWrite(m) => b.(write := b.write - 1, procs := b.procs[p := Sending(m)])
    case Store =>
      var m := b.procs[p].message;
      b.(slots := b.slots[b.tail := Slot(Copy(b.slots[b.tail].load, m), |m|)], count := b.count + 1,
         tail := Wrap(b.tail + 1, |b.slots|), locked := true, procs := b.procs[p := Stored])
    case PostRead => b.(read := Post(b.read, |b.slots|), locked := false, procs := b.procs[p := Idle])
    case WaitRead => b.(read := b.read - 1, procs := b.procs[p := Receiving])
    case Take =>
      var s := b.slots[b.head];
      b.(slots := b.slots[b.head := Slot(seq(b.size, _ => '0'), 0)], count := b.count - 1,
         head := Wrap(b.head + 1, |b.slots|), locked := true, procs := b.procs[p := Taken(s.load[..s.length])])
    case PostWrite => b.(write := Post(b.write, |b.slots|), locked := false, procs := b.procs[p := Idle])
  }

  // ---------------------------------------------------------------- every step keeps the accounts

  lemma StepAccounts(b: Ring, p: nat, a: Action)
    requires Inv(b) && Enabled(b, p, a)
    ensures Accounts(Do(b, p, a))
  {
    Room(b, p, a);
    var x := Do(b, p, a).procs[p];
    assert Do(b, p, a).procs == b.procs[p := x];
    SumUpdate(b.procs, p, x, Places);
    SumUpdate(b.procs, p, x, Promises);
    SumUpdate(b.procs, p, x, Holding);
    SumMember(b.procs, p, Places);
    SumMember(b.procs, p, Promises);
    SumMember(b.procs, p, Holding);
  }

  /** Storing writes behind the waiting messages and disturbs none of them. */
  lemma StoreNth(b: Ring, p: nat, i: nat)
    requires Inv(b) && Enabled(b, p, Store) && i <= b.count
    ensures b.count < |b.slots|
    ensures Nth(Do(b, p, Store), i) ==
            if i == b.count then Slot(Copy(b.slots[b.tail].load, b.procs[p].message), |b.procs[p].message|) else Nth(b, i)
  {
    Room(b, p, Store);
  }

  lemma TakeNth(b: Ring, p: nat, i: nat)
    requires Inv(b) && Enabled(b, p, Take) && i + 1 < b.count
    ensures Nth(Do(b, p, Take), i) == Nth(b, i + 1)
  {
    Room(b, p, Take);
  }

  lemma StoreShape(b: Ring, p: nat)
    requires Inv(b) && Enabled(b, p, Store)
    ensures Shape(Do(b, p, Store)) && Contents(Do(b, p, Store)) == Contents(b) + [b.procs[p].message]
  {
    Room(b, p, Store);
    var b' := Do(b, p, Store);
    forall i | 0 <= i < b'.count
      ensures Nth(b', i).length <= b.size
      ensures Nth(b', i).load[..Nth(b', i).length] == (Contents(b) + [b.procs[p].message])[i]
    {
      StoreNth(b, p, i);
    }
  }

  lemma TakeShape(b: Ring, p: nat)
    requires Inv(b) && Enabled(b, p, Take)
    ensures Shape(Do(b, p, Take)) && Contents(b) == [Do(b, p, Take).procs[p].message] + Contents(Do(b, p, Take))
  {
    Room(b, p, Take);
    var b' := Do(b, p, Take);
    assert Nth(b, 0) == b.slots[b.head];
    forall i | 0 <= i < b'.count
      ensures Nth(b', i).length <= b.size
      ensures Nth(b', i).load[..Nth(b', i).length] == Contents(b)[i + 1]
    {
      TakeNth(b, p, i);
    }
    assert Contents(b)[1..] == Contents(b');
  }

  lemma OtherShape(b: Ring, p: nat, a: Action)
    requires Inv(b) && Enabled(b, p, a) && a != Store && a != Take
    ensures Shape(Do(b, p, a)) && Contents(Do(b, p, a)) == Contents(b)
  {
    var b' := Do(b, p, a);
    assert forall i :: 0 <= i < b.count ==> Nth(b', i) == Nth(b, i);
  }

  /** What a step does to a first-in first-out queue of messages. */
  ghost predicate QueueStep(b: Ring, p: nat, a: Action, q: seq<Message>, q': seq<Message>)
    requires Inv(b) && Enabled(b, p, a)
  {
    match a
    case Store => q' == q + [b.procs[p].message] && |q'| <= |b.slots|
    case Take => q == [Do(b, p, a).procs[p].message] + q'
    case _ => q' == q
  }

  /** Main result: every step refines a step of a bounded first-in first-out queue. */
  lemma StepRefines(b: Ring, p: nat, a: Action)
    requires Inv(b) && Enabled(b, p, a)
    ensures Inv(Do(b, p, a)) && QueueStep(b, p, a, Contents(b), Contents(Do(b, p, a)))
  {
    StepAccounts(b, p, a);
    match a
    case Store => StoreShape(b, p);
    case Take => TakeShape(b, p);
    case _ => OtherShape(b, p, a);
  }

  // ---------------------------------------------------------------- runs

  lemma {:induction false} NoneBusy(n: nat)
    ensures var procs := seq(n, _ => Idle);
            Sum(procs, Places) == 0 && Sum(procs, Promises) == 0 && Sum(procs, Holding) == 0
  {
    if n > 0 {
      assert seq(n, _ => Idle)[1..] == seq(n - 1, _ => Idle);
      NoneBusy(n - 1);
    }
  }

  /** A new buffer, with whatever the allocator left in its slots. */
  ghost function Initial(size: nat, slots: seq<Slot>, n: nat): (b: Ring)
    requires slots != [] && forall s <- slots :: |s.load| == size
    ensures Inv(b) && Contents(b) == []
  {
    NoneBusy(n);
    Ring(size, slots, 0, 0, 0, 0, |slots|, false, seq(n, _ => Idle))
  }

  datatype Step = Step(p: nat, a: Action)

  ghost predicate Run(b: Ring, steps: seq<Step>)
    requires Inv(b)
    decreases |steps|
  {
    steps != [] ==> Enabled(b, steps[0].p, steps[0].a) && (StepRefines(b, steps[0].p, steps[0].a); Run(Do(b, steps[0].p, steps[0].a), steps[1..]))
  }

  ghost function After(b: Ring, steps: seq<Step>): (r: Ring)
    requires Inv(b) && Run(b, steps)
    ensures Inv(r) && |r.slots| == |b.slots|
    decreases |steps|
  {
    if steps == [] then b else
      StepRefines(b, steps[0].p, steps[0].a);
      After(Do(b, steps[0].p, steps[0].a), steps[1..])
  }

  /** The messages stored in a run, in the order of storing. */
  ghost function Sent(b: Ring, steps: seq<Step>): seq<Message>
    requires Inv(b) && Run(b, steps)
    decreases |steps|
  {
    if steps == [] then [] else
      StepRefines(b, steps[0].p, steps[0].a);
      (if steps[0].a == Store then [b.procs[steps[0].p].message] else []) + Sent(Do(b, steps[0].p, steps[0].a), steps[1..])
  }

  /** The messages taken in a run, in the order of taking. */
  ghost function Received(b: Ring, steps: seq<Step>): seq<Message>
    requires Inv(b) && Run(b, steps)
    decreases |steps|
  {
    if steps == [] then [] else
      StepRefines(b, steps[0].p, steps[0].a);
      var b' := Do(b, steps[0].p, steps[0].a);
      (if steps[0].a == Take then [b'.procs[steps[0].p].message] else []) + Received(b', steps[1..])
  }

  /** Main result: in every run, what was there and what was stored leaves in that order. */
  lemma {:induction false} FirstInFirstOut(b: Ring, steps: seq<Step>)
    requires Inv(b) && Run(b, steps)
    ensures Contents(b) + Sent(b, steps) == Received(b, steps) + Contents(After(b, steps))
    decreases |steps|
  {
    if steps != [] {
      StepRefines(b, steps[0].p, steps[0].a);
      var b' := Do(b, steps[0].p, steps[0].a);
      FirstInFirstOut(b', steps[1..]);
      JoinStep(b, steps[0].p, steps[0].a, Sent(b', steps[1..]), Received(b', steps[1..]), Contents(After(b', steps[1..])));
    }
  }

  lemma JoinStep(b: Ring, p: nat, a: Action, sent: seq<Message>, received: seq<Message>, rest: seq<Message>)
    requires Inv(b) && Enabled(b, p, a) && Inv(Do(b, p, a))
    requires Contents(Do(b, p, a)) + sent == received + rest
    ensures Contents(b) + ((if a == Store then [b.procs[p].message] else []) + sent) ==
            (if a == Take then [Do(b, p, a).procs[p].message] else []) + received + rest
  {
    StepRefines(b, p, a);
    var q, q' := Contents(b), Contents(Do(b, p, a));
    match a
    case Store =>
      Assoc(q, [b.procs[p].message], sent);
      assert [] + received == received;
    case Take =>
      var m := Do(b, p, a).procs[p].message;
      assert [] + sent == sent;
      Assoc([m], q', sent);
      Assoc([m], received, rest);
    case _ =>
      assert [] + sent == sent && [] + received == received;
  }

  /** From a new buffer: received, then waiting, is exactly what was stored. */
  lemma RunFifo(size: nat, slots: seq<Slot>, n: nat, steps: seq<Step>)
    requires slots != [] && forall s <- slots :: |s.load| == size
    requires Run(Initial(size, slots, n), steps)
    ensures var b := Initial(size, slots, n);
            && Sent(b, steps) == Received(b, steps) + Contents(After(b, steps))
            && |Contents(After(b, steps))| <= |slots|
  {
    FirstInFirstOut(Initial(size, slots, n), steps);
  }

  /** No `post()` is ever refused, so ignoring its return code loses nothing. */
  lemma PostsAccepted(b: Ring, p: nat, a: Action)
    requires Inv(b) && Enabled(b, p, a)
    ensures a == PostRead ==> b.read < |b.slots| && Do(b, p, a).read == b.read + 1
    ensures a == PostWrite ==> b.write < |b.slots| && Do(b, p, a).write == b.write + 1
  {
    SumMember(b.procs, p, Places);
    SumMember(b.procs, p, Promises);
  }

  /** One process at a time works on the ring. */
  lemma MutualExclusion(b: Ring, p: nat, q: nat)
    requires Inv(b) && p < q < |b.procs|
    ensures Holding(b.procs[p]) + Holding(b.procs[q]) <= 1
  {
    SumTwo(b.procs, p, q, Holding);
  }

  /** A sender is refused exactly when every place is taken by a message or by an operation under
      way; a receiver, exactly when every message is promised or not posted yet. */
  lemma RefusedExactly(b: Ring)
    requires Inv(b)
    ensures b.write == 0 <==> b.count + Sum(b.procs, Places) == |b.slots|
    ensures b.read == 0 <==> b.count == Sum(b.procs, Promises)
    ensures b.write == 0 && b.count < |b.slots| ==> exists p :: 0 <= p < |b.procs| && Places(b.procs[p]) > 0
    ensures b.read == 0 && b.count > 0 ==> exists p :: 0 <= p < |b.procs| && Promises(b.procs[p]) > 0
  {
    if b.write == 0 && b.count < |b.slots| {
      var p := SumPositive(b.procs, Places);
    }
    if b.read == 0 && b.count > 0 {
      var p := SumPositive(b.procs, Promises);
    }
  }

  /** The three steps of a send that nobody interrupts. */
  lemma SendRefines(b: Ring, p: nat, m: Message)
    requires Inv(b) && Enabled(b, p, WaitWrite(m)) && !b.locked
    ensures var b1 := Do(b, p, WaitWrite(m));
            Inv(b1) && Enabled(b1, p, Store) &&
            var b2 := Do(b1, p, Store);
            Inv(b2) && Enabled(b2, p, PostRead) &&
            var b3 := Do(b2, p, PostRead);
            Inv(b3) && Contents(b3) == Contents(b) + [m] && b3.procs == b.procs && !b3.locked
  {
    StepRefines(b, p, WaitWrite(m));
    var b1 := Do(b, p, WaitWrite(m));
    StepRefines(b1, p, Store);
    var b2 := Do(b1, p, Store);
    StepRefines(b2, p, PostRead);
    assert Do(b2, p, PostRead).procs == b.procs;
  }

  lemma ReceiveRefines(b: Ring, p: nat)
    requires Inv(b) && Enabled(b, p, WaitRead) && !b.locked
    ensures var b1 := Do(b, p, WaitRead);
            Inv(b1) && Enabled(b1, p, Take) &&
            var b2 := Do(b1, p, Take);
            Inv(b2) && Enabled(b2, p, PostWrite) &&
            var b3 := Do(b2, p, PostWrite);
            Inv(b3) && Contents(b) == [b2.procs[p].message] + Contents(b3) && b3.procs == b.procs && !b3.locked
  {
    StepRefines(b, p, WaitRead);
    var b1 := Do(b, p, WaitRead);
    StepRefines(b1, p, Take);
    var b2 := Do(b1, p, Take);
    StepRefines(b2, p, PostWrite);
    assert Do(b2, p, PostWrite).procs == b.procs;
  }

  // ---------------------------------------------------------------- the buffer object

  /** The buffer's fields; `phases` records, for the proof, where each process is.  The two services
      are shown without interference between their steps; a wait that finds no permit times out. */
  class ApexBuffer {
    const maxMessageSize: nat
    const maxNbMessage: nat
    const payload: array<Slot>
    var bufferHead: nat
    var bufferTail: nat
    var currentMessageSize: nat
    var readSemaphore: nat
    var writeSemaphore: nat
    var locked: bool
    ghost var phases: seq<Phase>

    ghost function Model(): Ring
      reads this, payload
    {
      Ring(maxMessageSize, payload[..], bufferHead, bufferTail, currentMessageSize, readSemaphore, writeSemaphore, locked, phases)
    }

    ghost predicate Valid()
      reads this, payload
    {
      payload.Length == maxNbMessage && Inv(Model())
    }

    constructor (size: nat, capacity: nat, ghost n: nat)
      requires capacity > 0
      ensures Valid() && fresh(payload) && maxMessageSize == size && maxNbMessage == capacity
      ensures |payload[..]| == capacity && forall s <- payload[..] :: |s.load| == size
      ensures Model() == Initial(size, payload[..], n)
    {
      maxMessageSize, maxNbMessage := size, capacity;
      payload := new Slot[capacity](_ => Slot(seq(size, _ => '?'), 0));
      bufferHead, bufferTail, currentMessageSize, readSemaphore, writeSemaphore := 0, 0, 0, 0, capacity;
      locked := false;
      phases := seq(n, _ => Idle);
      new;
      assert Model() == Initial(size, payload[..], n);
    }

    /** The work of a sender under the mutex. */
    method StoreMessage(ghost p: nat, m: Message)
      requires Valid() && Enabled(Model(), p, Store) && phases[p] == Sending(m)
      modifies this, payload
      ensures Valid() && Model() == Do(old(Model()), p, Store)
    {
      Room(Model(), p, Store);
      StepRefines(Model(), p, Store);
      ghost var b' := Do(Model(), p, Store);
      locked := true;
      payload[bufferTail] := Slot(m + payload[bufferTail].load[|m|..], |m|);
      currentMessageSize := currentMessageSize + 1;
      bufferTail := bufferTail + 1;
      if bufferTail == maxNbMessage {
        bufferTail := 0;
      }
      phases := phases[p := Stored];
      assert payload[..] == b'.slots;
      assert Model() == b';
    }

    /** The work of a receiver under the mutex. */
    method TakeMessage(ghost p: nat) returns (m: Message)
      requires Valid() && Enabled(Model(), p, Take)
      modifies this, payload
      ensures Valid() && Model() == Do(old(Model()), p, Take) && phases[p] == Taken(m)
    {
      Room(Model(), p, Take);
      StepRefines(Model(), p, Take);
      ghost var b' := Do(Model(), p, Take);
      locked := true;
      m := payload[bufferHead].load[..payload[bufferHead].length];
      payload[bufferHead] := Slot(seq(maxMessageSize, _ => '0'), 0);
      bufferHead := bufferHead + 1;
      if bufferHead == maxNbMessage {
        bufferHead := 0;
      }
      currentMessageSize := currentMessageSize - 1;
      phases := phases[p := Taken(m)];
      assert payload[..] == b'.slots;
      assert Model() == b';
    }

    /** `wait` on the semaphore of free places; false stands for a time-out. */
    method WaitForPlace(ghost p: nat, ghost m: Message) returns (ok: bool)
      requires Valid() && p < |phases| && phases[p] == Idle && |m| <= maxMessageSize
      modifies `writeSemaphore, `phases
      ensures Valid() && ok == (old(writeSemaphore) > 0)
      ensures Model() == if ok then Do(old(Model()), p, WaitWrite(m)) else old(Model())
    {
      ok := writeSemaphore > 0;
      if ok {
        StepRefines(Model(), p, WaitWrite(m));
        writeSemaphore := writeSemaphore - 1;
        phases := phases[p := Sending(m)];
      }
    }

    method WaitForMessage(ghost p: nat) returns (ok: bool)
      requires Valid() && p < |phases| && phases[p] == Idle
      modifies `readSemaphore, `phases
      ensures Valid() && ok == (old(readSemaphore) > 0)
      ensures Model() == if ok then Do(old(Model()), p, WaitRead) else old(Model())
    {
      ok := readSemaphore > 0;
      if ok {
        StepRefines(Model(), p, WaitRead);
        readSemaphore := readSemaphore - 1;
        phases := phases[p := Receiving];
      }
    }

    /** `post` on the semaphore of messages, and release of the mutex. */
    method AnnounceMessage(ghost p: nat)
      requires Valid() && Enabled(Model(), p, PostRead)
      modifies `readSemaphore, `phases, `locked
      ensures Valid() && Model() == Do(old(Model()), p, PostRead)
    {
      StepRefines(Model(), p, PostRead);
      if readSemaphore < maxNbMessage {
        readSemaphore := readSemaphore + 1;
      }
      locked := false;
      phases := phases[p := Idle];
    }

    method AnnouncePlace(ghost p: nat)
      requires Valid() && Enabled(Model(), p, PostWrite)
      modifies `writeSemaphore, `phases, `locked
      ensures Valid() && Model() == Do(old(Model()), p, PostWrite)
    {
      StepRefines(Model(), p, PostWrite);
      if writeSemaphore < maxNbMessage {
        writeSemaphore := writeSemaphore + 1;
      }
      locked := false;
      phases := phases[p := Idle];
    }

    method SendMessage(ghost p: nat, m: Message, timeOut: nat) returns (code: ReturnCode)
      requires Valid() && p < |phases| && phases[p] == Idle && !locked && |m| <= maxMessageSize
      modifies this, payload
      ensures Valid() && !locked && phases == old(phases)
      ensures code == if old(writeSemaphore) > 0 then NoError else if timeOut == 0 then NotAvailable else TimedOut
      ensures Contents(Model()) == old(Contents(Model())) + (if code == NoError then [m] else [])
    {
      var ok := WaitForPlace(p, m);
      if !ok {
        assert Contents(Model()) + [] == Contents(Model());
        return if timeOut == 0 then NotAvailable else TimedOut;
      }
      SendRefines(old(Model()), p, m);
      StoreMessage(p, m);
      AnnounceMessage(p);
      code := NoError;
    }

    method ReceiveMessage(ghost p: nat, timeOut: nat) returns (m: Message, code: ReturnCode)
      requires Valid() && p < |phases| && phases[p] == Idle && !locked
      modifies this, payload
      ensures Valid() && !locked && phases == old(phases)
      ensures code == if old(readSemaphore) > 0 then NoError else if timeOut == 0 then NotAvailable else TimedOut
      ensures code == NoError ==> old(Contents(Model())) == [m] + Contents(Model())
      ensures code != NoError ==> Contents(Model()) == old(Contents(Model()))
    {
      m := [];
      var ok := WaitForMessage(p);
      if !ok {
        return m, if timeOut == 0 then NotAvailable else TimedOut;
      }
      ReceiveRefines(old(Model()), p);
      m := TakeMessage(p);
      AnnouncePlace(p);
      code := NoError;
    }

    method GetBufferStatus() returns (nbMessage: nat)
      requires Valid() && !locked
      ensures nbMessage == |Contents(Model())|
    {
      nbMessage := currentMessageSize;
    }
  }
}
