/** The reader/writer lock built from two counting semaphores.  Every block protected by a
    semaphore's mutex is one step; a run is any interleaving of such steps by any number of
    processes, time-outs included. */
module RwLock {
  import opened Apex
  import opened Sequences

  /** Where a process is inside `writelock`: not in it, collecting reader tokens, about to give
      them back after a time-out, or about to post the writer token. */
  datatype Phase = Idle | Collecting(tokens: nat) | RollingBack(tokens: nat) | Posting(granted: bool)

  /** `reading` and `writing` count the locks the process holds. */
  datatype Process = Process(reading: nat, writing: nat, phase: Phase)

  /** `free` is the counter of the reader semaphore, `writer` that of the writer semaphore. */
  datatype Lock = Lock(max: nat, free: nat, writer: nat, procs: seq<Process>)

  datatype Action = TakeRead | PutRead | TakeWriter | TakeToken | TimeOut | Complete | GiveBack | PostWriter | PutWrite

  function Initial(max: nat, n: nat): Lock {
    Lock(max, max, 1, seq(n, _ => Process(0, 0, Idle)))
  }

  /** A step is taken by a process that has reached it; unlocking is done by a holder.  A time-out
      can strike in any state, because a wait may time out although a token has just come free. */
  predicate Enabled(l: Lock, p: nat, a: Action) {
    p < |l.procs| &&
    var x := l.procs[p];
    match a
    case TakeRead => x.phase == Idle && l.free > 0
    case PutRead => x.phase == Idle && x.reading > 0
    case TakeWriter => x.phase == Idle && l.writer > 0
    case TakeToken => x.phase.Collecting? && x.phase.tokens < l.max && l.free > 0
    case TimeOut => x.phase.Collecting? && x.phase.tokens < l.max
    case Complete => x.phase.Collecting? && x.phase.tokens == l.max
    case GiveBack => x.phase.RollingBack?
    case PostWriter => x.phase.Posting?
    case PutWrite => x.phase == Idle && x.writing > 0
  }

  function Do(l: Lock, p: nat, a: Action): Lock
    requires Enabled(l, p, a)
  {
    var x := l.procs[p];
    match a
    case TakeRead => l.(free := l.free - 1, procs := l.procs[p := x.(reading := x.reading + 1)])
    case PutRead => l.(free := Post(l.free, l.max), procs := l.procs[p := x.(reading := x.reading - 1)])
    case TakeWriter => l.(writer := l.writer - 1, procs := l.procs[p := x.(phase := Collecting(0))])
    case TakeToken => l.(free := l.free - 1, procs := l.procs[p := x.(phase := Collecting(x.phase.tokens + 1))])
    case TimeOut => l.(procs := l.procs[p := x.(phase := RollingBack(x.phase.tokens))])
    case Complete => l.(procs := l.procs[p := x.(phase := Posting(true))])
    case GiveBack => l.(free := l.free + x.phase.tokens, procs := l.procs[p := x.(phase := Posting(false))])
    case PostWriter =>
      l.(writer := Post(l.writer, 1),
         procs := l.procs[p := x.(writing := if x.phase.granted then x.writing + 1 else x.writing, phase := Idle)])
    case PutWrite => l.(free := l.max, procs := l.procs[p := x.(writing := x.writing - 1)])
  }

  // ---------------------------------------------------------------- accounting

  /** The reader tokens a process accounts for. */
  function Tokens(x: Process, max: nat): nat {
    x.reading + max * x.writing +
    match x.phase
    case Idle => 0
    case Collecting(k) => k
    case RollingBack(k) => k
    case Posting(granted) => if granted then max else 0
  }

  function TokensOf(max: nat): Process -> nat {
    (x: Process) => Tokens(x, max)
  }

  function Busy(x: Process): nat {
    if x.phase == Idle then 0 else 1
  }

  /** Every token is free or accounted for by one process; the writer semaphore admits one
      process at a time to `writelock`. */
  ghost predicate Inv(l: Lock) {
    && l.free + Sum(l.procs, TokensOf(l.max)) == l.max
    && l.writer + Sum(l.procs, Busy) == 1
  }

  lemma {:induction false} InitialInv(max: nat, n: nat)
    ensures Inv(Initial(max, n))
    decreases n
  {
    var ps := Initial(max, n).procs;
    if n > 0 {
      InitialInv(max, n - 1);
      assert ps[1..] == Initial(max, n - 1).procs;
    }
  }

  /** What a step takes from, or adds to, the free tokens it takes from, or adds to, the process. */
  lemma StepTokens(l: Lock, p: nat, a: Action)
    requires Enabled(l, p, a) && l.free + Tokens(l.procs[p], l.max) <= l.max
    ensures Do(l, p, a).free + Tokens(Do(l, p, a).procs[p], l.max) == l.free + Tokens(l.procs[p], l.max)
  {
    if a == PutWrite {
      assert l.max * l.procs[p].writing == l.max * (l.procs[p].writing - 1) + l.max;
    } else if a == PostWriter {
      assert l.max * (l.procs[p].writing + 1) == l.max * l.procs[p].writing + l.max;
    }
  }

  lemma StepBusy(l: Lock, p: nat, a: Action)
    requires Enabled(l, p, a) && l.writer + Busy(l.procs[p]) <= 1
    ensures Do(l, p, a).writer + Busy(Do(l, p, a).procs[p]) == l.writer + Busy(l.procs[p])
  {
  }

  /** Each step keeps the accounting, whatever the number of reader slots. */
  lemma StepInv(l: Lock, p: nat, a: Action)
    requires Inv(l) && Enabled(l, p, a)
    ensures Inv(Do(l, p, a))
  {
    var x := Do(l, p, a).procs[p];
    assert Do(l, p, a).procs == l.procs[p := x];
    SumUpdate(l.procs, p, x, TokensOf(l.max));
    SumUpdate(l.procs, p, x, Busy);
    SumMember(l.procs, p, TokensOf(l.max));
    SumMember(l.procs, p, Busy);
    StepTokens(l, p, a);
    StepBusy(l, p, a);
  }

  // ---------------------------------------------------------------- runs

  datatype Step = Step(p: nat, a: Action)

  predicate Run(l: Lock, steps: seq<Step>)
    decreases |steps|
  {
    steps != [] ==> Enabled(l, steps[0].p, steps[0].a) && Run(Do(l, steps[0].p, steps[0].a), steps[1..])
  }

  function After(l: Lock, steps: seq<Step>): Lock
    requires Run(l, steps)
    decreases |steps|
  {
    if steps == [] then l else After(Do(l, steps[0].p, steps[0].a), steps[1..])
  }

  lemma {:induction false} RunInv(l: Lock, steps: seq<Step>)
    requires Inv(l) && Run(l, steps)
    ensures Inv(After(l, steps)) && After(l, steps).max == l.max && |After(l, steps).procs| == |l.procs|
    decreases |steps|
  {
    if steps != [] {
      StepInv(l, steps[0].p, steps[0].a);
      RunInv(Do(l, steps[0].p, steps[0].a), steps[1..]);
    }
  }

  /** A writer excludes every other writer, every reader and every collected token. */
  ghost predicate Exclusive(l: Lock) {
    forall p, q :: 0 <= p < |l.procs| && 0 <= q < |l.procs| && l.procs[p].writing > 0 ==>
      && l.procs[p].writing == 1
      && l.procs[q].reading == 0
      && (q != p ==> l.procs[q].writing == 0)
      && !(l.procs[q].phase.Collecting? && l.procs[q].phase.tokens > 0)
      && l.free == 0
  }

  ghost predicate OneCollector(l: Lock) {
    forall p, q :: 0 <= p < |l.procs| && 0 <= q < |l.procs| && l.procs[p].phase != Idle && l.procs[q].phase != Idle ==> p == q
  }

  lemma TokensBound(l: Lock, p: nat, q: nat)
    requires Inv(l) && p < |l.procs| && q < |l.procs|
    ensures Tokens(l.procs[p], l.max) + l.free <= l.max
    ensures p != q ==> Tokens(l.procs[p], l.max) + Tokens(l.procs[q], l.max) + l.free <= l.max
    ensures p != q ==> Busy(l.procs[p]) + Busy(l.procs[q]) <= 1
  {
    var f := TokensOf(l.max);
    SumMember(l.procs, p, f);
    if p < q { SumTwo(l.procs, p, q, f); SumTwo(l.procs, p, q, Busy); }
    if q < p { SumTwo(l.procs, q, p, f); SumTwo(l.procs, q, p, Busy); }
  }

  lemma MulMono(a: nat, b: nat, c: nat)
    requires b <= c
    ensures a * b <= a * c
  {
  }

  lemma WritesBound(max: nat, w: nat)
    requires max > 0 && max * w <= max
    ensures w <= 1
  {
    if w >= 2 {
      MulMono(max, 2, w);
    }
  }

  lemma PairExclusive(l: Lock, p: nat, q: nat)
    requires Inv(l) && l.max > 0 && p < |l.procs| && q < |l.procs| && l.procs[p].writing > 0
    ensures l.procs[p].writing == 1 && l.procs[q].reading == 0 && l.free == 0
    ensures q != p ==> l.procs[q].writing == 0
    ensures !(l.procs[q].phase.Collecting? && l.procs[q].phase.tokens > 0)
  {
    TokensBound(l, p, q);
    WritesBound(l.max, l.procs[p].writing);
    if l.procs[q].writing > 0 { assert l.max * l.procs[q].writing >= l.max; }
  }

  lemma InvExclusive(l: Lock)
    requires Inv(l) && l.max > 0
    ensures Exclusive(l) && OneCollector(l)
  {
    forall p, q | 0 <= p < |l.procs| && 0 <= q < |l.procs| && l.procs[p].writing > 0
      ensures l.procs[p].writing == 1 && l.procs[q].reading == 0 && (q != p ==> l.procs[q].writing == 0)
      ensures !(l.procs[q].phase.Collecting? && l.procs[q].phase.tokens > 0) && l.free == 0
    {
      PairExclusive(l, p, q);
    }
    forall p, q | 0 <= p < |l.procs| && 0 <= q < |l.procs| && l.procs[p].phase != Idle && l.procs[q].phase != Idle
      ensures p == q
    {
      TokensBound(l, p, q);
    }
  }

  /** Main result: with at least one reader slot, in every run a writer excludes all others and
      one process at a time collects. */
  lemma Safety(max: nat, n: nat, steps: seq<Step>)
    requires max > 0 && Run(Initial(max, n), steps)
    ensures Exclusive(After(Initial(max, n), steps)) && OneCollector(After(Initial(max, n), steps))
  {
    InitialInv(max, n);
    RunInv(Initial(max, n), steps);
    InvExclusive(After(Initial(max, n), steps));
  }

  /** A reader slot is also necessary: without one two processes can hold the lock for writing. */
  lemma SafeExactlyWithSlots(max: nat)
    ensures (forall n: nat, steps :: Run(Initial(max, n), steps) ==> Exclusive(After(Initial(max, n), steps))) <==> max > 0
  {
    if max > 0 {
      forall n: nat, steps | Run(Initial(max, n), steps)
        ensures Exclusive(After(Initial(max, n), steps))
      {
        Safety(max, n, steps);
      }
    } else {
      var l := Initial(0, 2);
      var a := GrantWithoutSlots(l, 0);
      var b := GrantWithoutSlots(After(l, a), 1);
      RunConcat(l, a, b);
      assert After(l, a + b).procs[0].writing == After(l, a + b).procs[1].writing == 1;
      assert !Exclusive(After(l, a + b));
    }
  }

  /** Without reader slots `writelock` succeeds at once and leaves the writer token behind. */
  lemma GrantWithoutSlots(l: Lock, p: nat) returns (steps: seq<Step>)
    requires l.max == 0 && l.writer == 1 && p < |l.procs| && l.procs[p].phase == Idle
    ensures Run(l, steps) && After(l, steps) == l.(procs := l.procs[p := l.procs[p].(writing := l.procs[p].writing + 1)])
  {
    var l1 := Do(l, p, TakeWriter);
    var l2 := Do(l1, p, Complete);
    var l3 := Do(l2, p, PostWriter);
    RunOne(l, Step(p, TakeWriter));
    RunOne(l1, Step(p, Complete));
    RunOne(l2, Step(p, PostWriter));
    RunConcat(l1, [Step(p, Complete)], [Step(p, PostWriter)]);
    RunConcat(l, [Step(p, TakeWriter)], [Step(p, Complete)] + [Step(p, PostWriter)]);
    steps := [Step(p, TakeWriter)] + ([Step(p, Complete)] + [Step(p, PostWriter)]);
    assert l3.procs == l.procs[p := l.procs[p].(writing := l.procs[p].writing + 1)];
  }

  lemma RunOne(l: Lock, s: Step)
    requires Enabled(l, s.p, s.a)
    ensures Run(l, [s]) && After(l, [s]) == Do(l, s.p, s.a)
  {
    assert [s][1..] == [];
  }

  lemma {:induction false} RunConcat(l: Lock, a: seq<Step>, b: seq<Step>)
    requires Run(l, a) && Run(After(l, a), b)
    ensures Run(l, a + b) && After(l, a + b) == After(After(l, a), b)
    decreases |a|
  {
    if a == [] {
      assert a + b == b;
    } else {
      assert (a + b)[1..] == a[1..] + b;
      RunConcat(Do(l, a[0].p, a[0].a), a[1..], b);
    }
  }

  // ---------------------------------------------------------------- the unchecked return codes

  /** In every run, no `post()` is refused and the assignment in `writeunlock` returns exactly the
      tokens of the writer: nothing was free before. */
  lemma PostsAccepted(max: nat, n: nat, steps: seq<Step>, p: nat, a: Action)
    requires max > 0 && Run(Initial(max, n), steps) && Enabled(After(Initial(max, n), steps), p, a)
    ensures var l := After(Initial(max, n), steps);
            && (a == PutRead ==> l.free < l.max)
            && (a == PostWriter ==> l.writer < 1)
            && (a == PutWrite ==> l.free == 0 && Do(l, p, a).free == l.free + l.max)
            && (a == GiveBack ==> l.free + l.procs[p].phase.tokens <= l.max)
  {
    InitialInv(max, n);
    RunInv(Initial(max, n), steps);
    var l := After(Initial(max, n), steps);
    InvExclusive(l);
    TokensBound(l, p, p);
    SumMember(l.procs, p, Busy);
  }

  /** A collecting writer that finds no token waits only for current holders. */
  lemma CollectorWaitsForHolders(max: nat, n: nat, steps: seq<Step>, p: nat) returns (q: nat)
    requires max > 0 && Run(Initial(max, n), steps) && p < n
    requires var l := After(Initial(max, n), steps);
             |l.procs| == n && l.procs[p].phase.Collecting? && l.procs[p].phase.tokens < max && l.free == 0
    ensures var l := After(Initial(max, n), steps); q < |l.procs| && (l.procs[q].reading > 0 || l.procs[q].writing > 0)
  {
    InitialInv(max, n);
    RunInv(Initial(max, n), steps);
    var l := After(Initial(max, n), steps);
    var x := l.procs[p];
    if x.reading > 0 || x.writing > 0 {
      q := p;
    } else {
      var f := TokensOf(max);
      var rest := l.procs[p := Process(0, 0, Idle)];
      SumUpdate(l.procs, p, Process(0, 0, Idle), f);
      q := SumPositive(rest, f);
      TokensBound(l, p, q);
    }
  }

  /** `readunlock` posts without looking who calls it.  The accounting survives exactly when the
      caller holds a read lock or the post is refused. */
  lemma ReadUnlockExactly(l: Lock, p: nat)
    requires Inv(l) && p < |l.procs|
    ensures var x := l.procs[p];
            var l' := l.(free := Post(l.free, l.max), procs := l.procs[p := x.(reading := if x.reading > 0 then x.reading - 1 else 0)]);
            Inv(l') <==> x.reading > 0 || l.free == l.max
  {
    var x := l.procs[p];
    var y := x.(reading := if x.reading > 0 then x.reading - 1 else 0);
    var f := TokensOf(l.max);
    SumUpdate(l.procs, p, y, f);
    SumUpdate(l.procs, p, y, Busy);
    SumMember(l.procs, p, f);
  }

  lemma OneWriteLess(x: Process, max: nat)
    requires x.writing > 0
    ensures Tokens(x, max) == Tokens(x.(writing := x.writing - 1), max) + max
  {
    assert max * x.writing == max * (x.writing - 1) + max;
  }

  /** `writeunlock` assigns the counter without looking who calls it.  The accounting survives exactly
      when the caller holds the lock for writing or all tokens are free. */
  lemma WriteUnlockExactly(l: Lock, p: nat)
    requires Inv(l) && p < |l.procs|
    ensures var x := l.procs[p];
            var l' := l.(free := l.max, procs := l.procs[p := x.(writing := if x.writing > 0 then x.writing - 1 else 0)]);
            Inv(l') <==> x.writing > 0 || l.free == l.max
  {
    var x := l.procs[p];
    if x.writing > 0 {
      var y := x.(writing := x.writing - 1);
      OneWriteLess(x, l.max);
      SumUpdate(l.procs, p, y, TokensOf(l.max));
      SumUpdate(l.procs, p, y, Busy);
      SumMember(l.procs, p, TokensOf(l.max));
    } else {
      assert l.procs[p := x] == l.procs;
    }
  }

  // ---------------------------------------------------------------- what is held is what was acquired

  function Taken(p: nat, a: Action): Step -> nat { (s: Step) => if s == Step(p, a) then 1 else 0 }

  /** How often `p` took step `a`. */
  function Times(steps: seq<Step>, p: nat, a: Action): nat { Sum(steps, Taken(p, a)) }

  /** Locks for writing, with the one that is granted but not yet returned. */
  function Granted(x: Process): nat { x.writing + (if x.phase == Posting(true) then 1 else 0) }

  lemma StepHolds(l: Lock, s: Step, p: nat)
    requires Enabled(l, s.p, s.a) && p < |l.procs|
    ensures var x, y := l.procs[p], Do(l, s.p, s.a).procs[p];
            && y.reading + Taken(p, PutRead)(s) == x.reading + Taken(p, TakeRead)(s)
            && Granted(y) + Taken(p, PutWrite)(s) == Granted(x) + Taken(p, Complete)(s)
  {
  }

  lemma {:induction false} RunHolds(l: Lock, steps: seq<Step>, p: nat)
    requires Run(l, steps) && p < |l.procs|
    ensures |After(l, steps).procs| == |l.procs|
    ensures After(l, steps).procs[p].reading + Times(steps, p, PutRead) == l.procs[p].reading + Times(steps, p, TakeRead)
    ensures Granted(After(l, steps).procs[p]) + Times(steps, p, PutWrite) == Granted(l.procs[p]) + Times(steps, p, Complete)
    decreases |steps|
  {
    if steps != [] {
      StepHolds(l, steps[0], p);
      RunHolds(Do(l, steps[0].p, steps[0].a), steps[1..], p);
    }
  }

  /** Main result: in every run a process holds the locks that it has acquired and not given up, neither
      more nor less. */
  lemma {:induction false} HoldsCounted(max: nat, n: nat, steps: seq<Step>, p: nat)
    requires Run(Initial(max, n), steps) && p < n
    ensures var l := After(Initial(max, n), steps);
            && |l.procs| == n
            && l.procs[p].reading == Times(steps, p, TakeRead) - Times(steps, p, PutRead)
            && Granted(l.procs[p]) == Times(steps, p, Complete) - Times(steps, p, PutWrite)
  {
    RunHolds(Initial(max, n), steps, p);
  }

  // ---------------------------------------------------------------- the lock object

  /** The lock's counters.  `procs` records, for the proof, what each process holds and where it
      is; every method is one block protected by a semaphore's mutex, except `WriteLock`. */
  class RwLockSem {
    const maxReaders: nat
    var counter: nat
    var writerCounter: nat
    ghost var procs: seq<Process>

    ghost function Model(): Lock
      reads this
    {
      Lock(maxReaders, counter, writerCounter, procs)
    }

    constructor (numReaders: nat, ghost n: nat)
      ensures Model() == Initial(numReaders, n) && Inv(Model())
    {
      maxReaders, counter, writerCounter, procs := numReaders, numReaders, 1, Initial(numReaders, n).procs;
      InitialInv(numReaders, n);
    }

    /** A wait on the reader semaphore that does not block: false stands for a time-out. */
    method ReadLock(ghost p: nat) returns (ok: bool)
      requires Inv(Model()) && p < |procs| && procs[p].phase == Idle
      modifies this
      ensures Inv(Model()) && ok == (old(counter) > 0) && writerCounter == old(writerCounter)
      ensures ok ==> counter == old(counter) - 1 && procs == old(procs)[p := old(procs[p]).(reading := old(procs[p].reading) + 1)]
      ensures Model() == if ok then Do(old(Model()), p, TakeRead) else old(Model())
    {
      ok := counter > 0;
      if ok {
        StepInv(Model(), p, TakeRead);
        counter := counter - 1;
        procs := procs[p := procs[p].(reading := procs[p].reading + 1)];
      }
    }

    method ReadUnlock(ghost p: nat)
      requires Inv(Model()) && Enabled(Model(), p, PutRead)
      modifies this
      ensures Inv(Model()) && Model() == Do(old(Model()), p, PutRead)
      ensures counter == old(counter) + 1 && writerCounter == old(writerCounter)
      ensures procs == old(procs)[p := old(procs[p]).(reading := old(procs[p].reading) - 1)]
    {
      StepInv(Model(), p, PutRead);
      TokensBound(Model(), p, p);
      if counter < maxReaders {
        counter := counter + 1;
      }
      procs := procs[p := procs[p].(reading := procs[p].reading - 1)];
    }

    method WriteUnlock(ghost p: nat)
      requires Inv(Model()) && Enabled(Model(), p, PutWrite)
      modifies this
      ensures Inv(Model()) && Model() == Do(old(Model()), p, PutWrite)
      ensures counter == maxReaders && writerCounter == old(writerCounter)
      ensures procs == old(procs)[p := old(procs[p]).(writing := old(procs[p].writing) - 1)]
    {
      StepInv(Model(), p, PutWrite);
      counter := maxReaders;
      procs := procs[p := procs[p].(writing := procs[p].writing - 1)];
    }

    method TakeWriterToken(ghost p: nat)
      requires Inv(Model()) && Enabled(Model(), p, TakeWriter)
      modifies this
      ensures Inv(Model()) && Model() == Do(old(Model()), p, TakeWriter)
    {
      StepInv(Model(), p, TakeWriter);
      writerCounter := writerCounter - 1;
      procs := procs[p := procs[p].(phase := Collecting(0))];
    }

    method TakeReaderToken(ghost p: nat)
      requires Inv(Model()) && Enabled(Model(), p, TakeToken)
      modifies this
      ensures Inv(Model()) && Model() == Do(old(Model()), p, TakeToken)
    {
      StepInv(Model(), p, TakeToken);
      counter := counter - 1;
      procs := procs[p := procs[p].(phase := Collecting(procs[p].phase.tokens + 1))];
    }

    /** After the collecting loop: tokens are kept, or given back after a time-out. */
    method EndCollecting(ghost p: nat, successCount: nat, ok: bool)
      requires Inv(Model()) && p < |procs| && procs[p].phase == Collecting(successCount)
      requires ok <==> successCount == maxReaders
      requires successCount <= maxReaders
      modifies this
      ensures Inv(Model()) && writerCounter == old(writerCounter)
      ensures counter == if ok then old(counter) else old(counter) + successCount
      ensures procs == old(procs)[p := old(procs[p]).(phase := Posting(ok))]
    {
      if ok {
        StepInv(Model(), p, Complete);
        procs := procs[p := procs[p].(phase := Posting(true))];
      } else {
        StepInv(Model(), p, TimeOut);
        procs := procs[p := procs[p].(phase := RollingBack(successCount))];
        StepInv(Model(), p, GiveBack);
        counter := counter + successCount;
        procs := procs[p := procs[p].(phase := Posting(false))];
      }
    }

    method PostWriterToken(ghost p: nat)
      requires Inv(Model()) && Enabled(Model(), p, PostWriter)
      modifies this
      ensures Inv(Model()) && Model() == Do(old(Model()), p, PostWriter)
    {
      StepInv(Model(), p, PostWriter);
      if writerCounter < 1 {
        writerCounter := writerCounter + 1;
      }
      procs := procs[p := procs[p].(writing := if procs[p].phase.granted then procs[p].writing + 1 else procs[p].writing, phase := Idle)];
    }

    /** `writelock` when no other process interferes, so that a wait times out exactly when it
        finds no token: it takes all tokens or leaves everything as it was. */
    method WriteLock(ghost p: nat) returns (ok: bool)
      requires Inv(Model()) && p < |procs| && procs[p].phase == Idle
      modifies this
      ensures Inv(Model()) && ok == (old(writerCounter) > 0 && old(counter) == maxReaders)
      ensures Model() == old(Model()).(free := if ok then 0 else old(counter),
                                       procs := if ok then old(procs)[p := old(procs[p]).(writing := old(procs[p].writing) + 1)] else old(procs))
    {
      if writerCounter == 0 {
        return false;
      }
      TakeWriterToken(p);
      var successCount: nat := 0;
      ok := true;
      while successCount < maxReaders && ok
        invariant successCount <= maxReaders && Inv(Model()) && (!ok ==> counter == 0 && successCount < maxReaders)
        invariant writerCounter == old(writerCounter) - 1 && counter + successCount == old(counter)
        invariant procs == old(procs)[p := old(procs[p]).(phase := Collecting(successCount))]
        decreases maxReaders - successCount, ok
      {
        if counter == 0 {
          ok := false;
        } else {
          TakeReaderToken(p);
          successCount := successCount + 1;
        }
      }
      EndCollecting(p, successCount, ok);
      SumMember(procs, p, Busy);
      PostWriterToken(p);
      SumMember(procs, p, TokensOf(maxReaders));
    }
  }
}
