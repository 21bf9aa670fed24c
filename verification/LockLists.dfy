/** The lists of held locks that every process keeps, next to the reader/writer locks
    themselves. */
module LockLists {
  import opened Apex
  import opened Sequences
  import opened RwLock

  /** Locks by number; for each process, the numbers of the locks it holds for reading and for
      writing, one entry per hold. */
  datatype Table = Table(sems: seq<Lock>, readLists: seq<seq<nat>>, writeLists: seq<seq<nat>>)

  /** The list without its first occurrence of `s`. */
  function EraseFirst(list: seq<nat>, s: nat): seq<nat> {
    if list == [] then [] else if list[0] == s then list[1..] else [list[0]] + EraseFirst(list[1..], s)
  }

  lemma {:induction false} EraseCount(list: seq<nat>, s: nat, u: nat)
    requires s in list
    ensures multiset(EraseFirst(list, s))[u] == multiset(list)[u] - (if u == s then 1 else 0)
    decreases |list|
  {
    assert list == [list[0]] + list[1..];
    assert multiset(list) == multiset{list[0]} + multiset(list[1..]);
    if list[0] != s { EraseCount(list[1..], s, u); }
  }

  ghost predicate ReadsMirrored(sems: seq<Lock>, p: nat, list: seq<nat>) {
    && (forall s :: 0 <= s < |sems| ==> p < |sems[s].procs| && sems[s].procs[p].reading == multiset(list)[s])
    && (forall s :: s in list ==> s < |sems|)
  }

  ghost predicate WritesMirrored(sems: seq<Lock>, p: nat, list: seq<nat>) {
    && (forall s :: 0 <= s < |sems| ==> p < |sems[s].procs| && sems[s].procs[p].writing == multiset(list)[s])
    && (forall s :: s in list ==> s < |sems|)
  }

  /** Holds and list entries agree for every lock and process. */
  ghost predicate Mirror(t: Table) {
    && |t.readLists| == |t.writeLists|
    && (forall s :: 0 <= s < |t.sems| ==> |t.sems[s].procs| == |t.readLists|)
    && (forall p :: 0 <= p < |t.readLists| ==> ReadsMirrored(t.sems, p, t.readLists[p]))
    && (forall p :: 0 <= p < |t.writeLists| ==> WritesMirrored(t.sems, p, t.writeLists[p]))
  }

  ghost predicate TableInv(t: Table) {
    Mirror(t) && forall s :: 0 <= s < |t.sems| ==> Inv(t.sems[s])
  }

  predicate TableEnabled(t: Table, s: nat, p: nat, a: Action) {
    s < |t.sems| && p < |t.readLists| && p < |t.writeLists| && Enabled(t.sems[s], p, a)
  }

  function NewReads(list: seq<nat>, s: nat, a: Action): seq<nat> {
    if a == TakeRead then list + [s] else if a == PutRead then EraseFirst(list, s) else list
  }

  function NewWrites(list: seq<nat>, s: nat, a: Action, granted: bool): seq<nat> {
    if a == PostWriter && granted then list + [s] else if a == PutWrite then EraseFirst(list, s) else list
  }

  /** A step of lock `s` by process `p`, with the list update that goes with it. */
  function DoTable(t: Table, s: nat, p: nat, a: Action): Table
    requires TableEnabled(t, s, p, a)
  {
    var phase := t.sems[s].procs[p].phase;
    Table(t.sems[s := Do(t.sems[s], p, a)],
          t.readLists[p := NewReads(t.readLists[p], s, a)],
          t.writeLists[p := NewWrites(t.writeLists[p], s, a, phase.Posting? && phase.granted)])
  }

  lemma ReadsCount(list: seq<nat>, s: nat, a: Action, u: nat)
    requires a == PutRead ==> s in list
    ensures multiset(NewReads(list, s, a))[u] == multiset(list)[u] + (if u != s then 0 else if a == TakeRead then 1 else if a == PutRead then -1 else 0)
  {
    if a == PutRead { EraseCount(list, s, u); }
  }

  lemma WritesCount(list: seq<nat>, s: nat, a: Action, granted: bool, u: nat)
    requires a == PutWrite ==> s in list
    ensures multiset(NewWrites(list, s, a, granted))[u] ==
            multiset(list)[u] + (if u != s then 0 else if a == PostWriter && granted then 1 else if a == PutWrite then -1 else 0)
  {
    if a == PutWrite { EraseCount(list, s, u); }
  }

  /** The stepping process keeps its own lists in agreement. */
  lemma StepReads(sems: seq<Lock>, s: nat, p: nat, a: Action, list: seq<nat>)
    requires ReadsMirrored(sems, p, list) && s < |sems| && Enabled(sems[s], p, a)
    ensures ReadsMirrored(sems[s := Do(sems[s], p, a)], p, NewReads(list, s, a))
  {
    var sems' := sems[s := Do(sems[s], p, a)];
    var list': seq<nat> := NewReads(list, s, a);
    forall u: nat
      ensures u < |sems| ==> p < |sems'[u].procs| && sems'[u].procs[p].reading == multiset(list')[u]
      ensures u in list' ==> u < |sems|
    {
      ReadsCount(list, s, a, u);
      assert (u in list' <==> u in multiset(list')) && (u in list <==> u in multiset(list));
    }
  }

  lemma StepWrites(sems: seq<Lock>, s: nat, p: nat, a: Action, granted: bool, list: seq<nat>)
    requires WritesMirrored(sems, p, list) && s < |sems| && Enabled(sems[s], p, a)
    requires granted <==> sems[s].procs[p].phase.Posting? && sems[s].procs[p].phase.granted
    ensures WritesMirrored(sems[s := Do(sems[s], p, a)], p, NewWrites(list, s, a, granted))
  {
    var sems' := sems[s := Do(sems[s], p, a)];
    var list': seq<nat> := NewWrites(list, s, a, granted);
    forall u: nat
      ensures u < |sems| ==> p < |sems'[u].procs| && sems'[u].procs[p].writing == multiset(list')[u]
      ensures u in list' ==> u < |sems|
    {
      WritesCount(list, s, a, granted, u);
      assert (u in list' <==> u in multiset(list')) && (u in list <==> u in multiset(list));
    }
  }

  /** Main result: every step keeps holds and lists in agreement. */
  lemma TableStep(t: Table, s: nat, p: nat, a: Action)
    requires TableInv(t) && TableEnabled(t, s, p, a)
    ensures TableInv(DoTable(t, s, p, a))
  {
    var t' := DoTable(t, s, p, a);
    var phase := t.sems[s].procs[p].phase;
    StepInv(t.sems[s], p, a);
    StepReads(t.sems, s, p, a, t.readLists[p]);
    assert ReadsMirrored(t.sems, p, t.readLists[p]) && WritesMirrored(t.sems, p, t.writeLists[p]);
    StepWrites(t.sems, s, p, a, phase.Posting? && phase.granted, t.writeLists[p]);
    forall q | 0 <= q < |t.readLists|
      ensures ReadsMirrored(t'.sems, q, t'.readLists[q]) && WritesMirrored(t'.sems, q, t'.writeLists[q])
    {
      if q != p { OthersMirrored(t, s, p, a, q); }
    }
  }

  lemma OthersMirrored(t: Table, s: nat, p: nat, a: Action, q: nat)
    requires Mirror(t) && TableEnabled(t, s, p, a) && q < |t.readLists| && q != p
    ensures var t' := DoTable(t, s, p, a); ReadsMirrored(t'.sems, q, t'.readLists[q]) && WritesMirrored(t'.sems, q, t'.writeLists[q])
  {
    assert ReadsMirrored(t.sems, q, t.readLists[q]) && WritesMirrored(t.sems, q, t.writeLists[q]);
  }

  datatype TStep = TStep(s: nat, p: nat, a: Action)

  predicate TableRun(t: Table, steps: seq<TStep>)
    decreases |steps|
  {
    steps != [] ==> TableEnabled(t, steps[0].s, steps[0].p, steps[0].a)
                    && TableRun(DoTable(t, steps[0].s, steps[0].p, steps[0].a), steps[1..])
  }

  function TableAfter(t: Table, steps: seq<TStep>): Table
    requires TableRun(t, steps)
    decreases |steps|
  {
    if steps == [] then t else TableAfter(DoTable(t, steps[0].s, steps[0].p, steps[0].a), steps[1..])
  }

  lemma {:induction false} TableRunMirror(t: Table, steps: seq<TStep>)
    requires TableInv(t) && TableRun(t, steps)
    ensures TableInv(TableAfter(t, steps))
    decreases |steps|
  {
    if steps != [] {
      TableStep(t, steps[0].s, steps[0].p, steps[0].a);
      TableRunMirror(DoTable(t, steps[0].s, steps[0].p, steps[0].a), steps[1..]);
    }
  }

  /** Locks with the given numbers of reader slots and processes that hold none of them. */
  function NewTable(readers: seq<nat>, n: nat): Table {
    Table(seq(|readers|, s requires 0 <= s < |readers| => Initial(readers[s], n)), seq(n, _ => []), seq(n, _ => []))
  }

  lemma NewTableInv(readers: seq<nat>, n: nat)
    ensures TableInv(NewTable(readers, n))
  {
    var t := NewTable(readers, n);
    forall s | 0 <= s < |t.sems|
      ensures Inv(t.sems[s])
    {
      InitialInv(readers[s], n);
    }
  }

  /** Main result: in every run from new locks, holds and lists agree. */
  lemma HoldsAreListed(readers: seq<nat>, n: nat, steps: seq<TStep>)
    requires TableRun(NewTable(readers, n), steps)
    ensures Mirror(TableAfter(NewTable(readers, n), steps))
  {
    NewTableInv(readers, n);
    TableRunMirror(NewTable(readers, n), steps);
  }

  // ---------------------------------------------------------------- unlocking by any process

  lemma {:induction false} EraseAbsent(list: seq<nat>, s: nat)
    requires s !in list
    ensures EraseFirst(list, s) == list
    decreases |list|
  {
    if list != [] { EraseAbsent(list[1..], s); }
  }

  /** READUNLOCK and WRITEUNLOCK by any process: nobody looks whether it holds the lock. */
  function UnlockRead(t: Table, s: nat, p: nat): Table
    requires s < |t.sems| && p < |t.sems[s].procs| && p < |t.readLists|
  {
    var l := t.sems[s];
    var x := l.procs[p];
    var y := x.(reading := if x.reading > 0 then x.reading - 1 else 0);
    t.(sems := t.sems[s := l.(free := Post(l.free, l.max), procs := l.procs[p := y])],
       readLists := t.readLists[p := EraseFirst(t.readLists[p], s)])
  }

  function UnlockWrite(t: Table, s: nat, p: nat): Table
    requires s < |t.sems| && p < |t.sems[s].procs| && p < |t.writeLists|
  {
    var l := t.sems[s];
    var x := l.procs[p];
    var y := x.(writing := if x.writing > 0 then x.writing - 1 else 0);
    t.(sems := t.sems[s := l.(free := l.max, procs := l.procs[p := y])],
       writeLists := t.writeLists[p := EraseFirst(t.writeLists[p], s)])
  }

  /** Only the free tokens of one lock change. */
  lemma FreeOnly(t: Table, s: nat, free: nat)
    requires TableInv(t) && s < |t.sems|
    ensures var t' := t.(sems := t.sems[s := t.sems[s].(free := free)]);
            TableInv(t') <==> Inv(t.sems[s].(free := free))
  {
    var t' := t.(sems := t.sems[s := t.sems[s].(free := free)]);
    assert t'.sems[s] == t.sems[s].(free := free);
    forall p | 0 <= p < |t.readLists|
      ensures ReadsMirrored(t'.sems, p, t'.readLists[p]) && WritesMirrored(t'.sems, p, t'.writeLists[p])
    {
      assert ReadsMirrored(t.sems, p, t.readLists[p]) && WritesMirrored(t.sems, p, t.writeLists[p]);
    }
  }

  lemma UnlockReadHolder(t: Table, s: nat, p: nat)
    requires TableInv(t) && s < |t.sems| && p < |t.readLists| && t.sems[s].procs[p].phase == Idle && s in t.readLists[p]
    ensures TableEnabled(t, s, p, PutRead) && UnlockRead(t, s, p) == DoTable(t, s, p, PutRead) && TableInv(UnlockRead(t, s, p))
  {
    assert ReadsMirrored(t.sems, p, t.readLists[p]) && s in multiset(t.readLists[p]);
    assert t.writeLists[p := t.writeLists[p]] == t.writeLists;
    TableStep(t, s, p, PutRead);
  }

  lemma UnlockReadStranger(t: Table, s: nat, p: nat)
    requires TableInv(t) && s < |t.sems| && p < |t.readLists| && s !in t.readLists[p]
    ensures TableInv(UnlockRead(t, s, p)) <==> t.sems[s].free == t.sems[s].max
  {
    var l := t.sems[s];
    assert ReadsMirrored(t.sems, p, t.readLists[p]) && s !in multiset(t.readLists[p]);
    EraseAbsent(t.readLists[p], s);
    assert l.procs[p := l.procs[p]] == l.procs && t.readLists[p := t.readLists[p]] == t.readLists;
    ReadUnlockExactly(l, p);
    FreeOnly(t, s, Post(l.free, l.max));
  }

  /** Main result: unlocking for reading keeps holds, lists and tokens in agreement exactly when the
      lock is on the caller's list or all its tokens are free. */
  lemma UnlockReadExactly(t: Table, s: nat, p: nat)
    requires TableInv(t) && s < |t.sems| && p < |t.readLists| && t.sems[s].procs[p].phase == Idle
    ensures TableInv(UnlockRead(t, s, p)) <==> s in t.readLists[p] || t.sems[s].free == t.sems[s].max
    ensures s in t.readLists[p] ==> TableEnabled(t, s, p, PutRead) && UnlockRead(t, s, p) == DoTable(t, s, p, PutRead)
  {
    if s in t.readLists[p] { UnlockReadHolder(t, s, p); } else { UnlockReadStranger(t, s, p); }
  }

  lemma UnlockWriteHolder(t: Table, s: nat, p: nat)
    requires TableInv(t) && s < |t.sems| && p < |t.readLists| && t.sems[s].procs[p].phase == Idle && s in t.writeLists[p]
    ensures TableEnabled(t, s, p, PutWrite) && UnlockWrite(t, s, p) == DoTable(t, s, p, PutWrite) && TableInv(UnlockWrite(t, s, p))
  {
    assert WritesMirrored(t.sems, p, t.writeLists[p]) && s in multiset(t.writeLists[p]);
    assert t.readLists[p := t.readLists[p]] == t.readLists;
    TableStep(t, s, p, PutWrite);
  }

  lemma UnlockWriteStranger(t: Table, s: nat, p: nat)
    requires TableInv(t) && s < |t.sems| && p < |t.readLists| && s !in t.writeLists[p]
    ensures TableInv(UnlockWrite(t, s, p)) <==> t.sems[s].free == t.sems[s].max
  {
    var l := t.sems[s];
    assert WritesMirrored(t.sems, p, t.writeLists[p]) && s !in multiset(t.writeLists[p]);
    EraseAbsent(t.writeLists[p], s);
    assert l.procs[p := l.procs[p]] == l.procs && t.writeLists[p := t.writeLists[p]] == t.writeLists;
    WriteUnlockExactly(l, p);
    FreeOnly(t, s, l.max);
  }

  /** Main result: the same for writing. */
  lemma UnlockWriteExactly(t: Table, s: nat, p: nat)
    requires TableInv(t) && s < |t.sems| && p < |t.readLists| && t.sems[s].procs[p].phase == Idle
    ensures TableInv(UnlockWrite(t, s, p)) <==> s in t.writeLists[p] || t.sems[s].free == t.sems[s].max
    ensures s in t.writeLists[p] ==> TableEnabled(t, s, p, PutWrite) && UnlockWrite(t, s, p) == DoTable(t, s, p, PutWrite)
  {
    if s in t.writeLists[p] { UnlockWriteHolder(t, s, p); } else { UnlockWriteStranger(t, s, p); }
  }

  /** When only the holds of one process have gone, its tokens are free again. */
  lemma TokensReturned(l: Lock, l': Lock, p: nat)
    requires Inv(l) && Inv(l') && l.max == l'.max && p < |l.procs| && l.procs[p].phase == Idle
    requires l'.procs == l.procs[p := Process(0, 0, Idle)]
    ensures l'.free == l.free + l.procs[p].reading + l.max * l.procs[p].writing
  {
    SumUpdate(l.procs, p, Process(0, 0, Idle), TokensOf(l.max));
  }

  /** Process `p` is not inside `writelock` of any lock. */
  ghost predicate AtRest(sems: seq<Lock>, p: nat) {
    forall s :: 0 <= s < |sems| && p < |sems[s].procs| ==> sems[s].procs[p].phase == Idle
  }

  /** Only what process `p` holds differs between two states of one lock. */
  ghost predicate LockSameButFor(a: Lock, b: Lock, p: nat) {
    && a.max == b.max && |a.procs| == |b.procs|
    && (forall q :: 0 <= q < |a.procs| && q != p ==> a.procs[q] == b.procs[q])
  }

  ghost predicate SameButFor(a: seq<Lock>, b: seq<Lock>, p: nat) {
    |a| == |b| && forall s :: 0 <= s < |a| ==> LockSameButFor(a[s], b[s], p)
  }

  lemma UnlockSame(was: seq<Lock>, sems: seq<Lock>, s: nat, p: nat, a: Action)
    requires SameButFor(was, sems, p) && AtRest(sems, p) && s < |sems| && (a == PutRead || a == PutWrite) && Enabled(sems[s], p, a)
    ensures SameButFor(was, sems[s := Do(sems[s], p, a)], p) && AtRest(sems[s := Do(sems[s], p, a)], p)
  {
    assert LockSameButFor(was[s], sems[s], p);
    assert LockSameButFor(was[s], Do(sems[s], p, a), p);
  }

  lemma ListedEnabled(t: Table, p: nat, s: nat)
    requires TableInv(t) && p < |t.readLists| && AtRest(t.sems, p)
    ensures s in t.readLists[p] ==> s < |t.sems| && Enabled(t.sems[s], p, PutRead)
    ensures s in t.writeLists[p] ==> s < |t.sems| && Enabled(t.sems[s], p, PutWrite)
  {
    assert ReadsMirrored(t.sems, p, t.readLists[p]) && WritesMirrored(t.sems, p, t.writeLists[p]);
  }

  lemma EraseHead(ids: seq<nat>, i: nat)
    requires i < |ids|
    ensures EraseFirst(ids[i..], ids[i]) == ids[i + 1..]
  {
    assert ids[i..][1..] == ids[i + 1..];
  }

  /** A process at rest whose lists are empty holds nothing, and what it held is free again. */
  lemma AllReturned(was: Table, t: Table, p: nat, s: nat)
    requires TableInv(was) && TableInv(t) && SameButFor(was.sems, t.sems, p) && p < |t.readLists| && s < |t.sems|
    requires AtRest(was.sems, p) && AtRest(t.sems, p) && t.readLists[p] == [] && t.writeLists[p] == []
    requires |was.readLists| == |t.readLists|
    ensures t.sems[s].procs[p] == Process(0, 0, Idle)
    ensures var l := was.sems[s]; t.sems[s].free == l.free + l.procs[p].reading + l.max * l.procs[p].writing
  {
    assert ReadsMirrored(t.sems, p, t.readLists[p]) && WritesMirrored(t.sems, p, t.writeLists[p]);
    assert LockSameButFor(was.sems[s], t.sems[s], p);
    assert t.sems[s].procs == was.sems[s].procs[p := Process(0, 0, Idle)];
    TokensReturned(was.sems[s], t.sems[s], p);
  }

  /** Process `p` has taken lock `s` for writing. */
  function Written(t: Table, s: nat, p: nat): Table
    requires s < |t.sems| && p < |t.sems[s].procs| && p < |t.writeLists|
  {
    var l := t.sems[s];
    t.(sems := t.sems[s := l.(free := 0, procs := l.procs[p := l.procs[p].(writing := l.procs[p].writing + 1)])],
       writeLists := t.writeLists[p := t.writeLists[p] + [s]])
  }

  lemma SumBound(l: Lock)
    requires Inv(l)
    ensures l.free <= l.max && l.writer <= 1
  {
  }

  /** The lock when process `p` has collected `k` tokens. */
  function Collected(l: Lock, p: nat, k: nat): Lock
    requires p < |l.procs| && l.writer > 0 && k <= l.free
  {
    l.(writer := l.writer - 1, free := l.free - k, procs := l.procs[p := l.procs[p].(phase := Collecting(k))])
  }

  lemma CollectSteps(l: Lock, p: nat, k: nat)
    requires p < |l.procs| && l.procs[p].phase == Idle && l.writer > 0 && k <= l.free <= l.max
    ensures Enabled(l, p, TakeWriter) && Do(l, p, TakeWriter) == Collected(l, p, 0)
    ensures k < l.free ==> Enabled(Collected(l, p, k), p, TakeToken) && Do(Collected(l, p, k), p, TakeToken) == Collected(l, p, k + 1)
  {
    if k < l.free {
      var x := l.procs[p];
      assert l.procs[p := x.(phase := Collecting(k))][p := x.(phase := Collecting(k + 1))] == l.procs[p := x.(phase := Collecting(k + 1))];
    }
  }

  lemma RollsBack(l: Lock, p: nat, k: nat)
    requires p < |l.procs| && l.procs[p].phase == Idle && l.writer == 1 && k <= l.free && k < l.max
    ensures var l1 := Collected(l, p, k);
            && Enabled(l1, p, TimeOut) && Enabled(Do(l1, p, TimeOut), p, GiveBack)
            && var l2 := Do(Do(l1, p, TimeOut), p, GiveBack);
               Enabled(l2, p, PostWriter) && l2.procs[p].phase == Posting(false) && Do(l2, p, PostWriter) == l
  {
    assert Do(Do(Do(Collected(l, p, k), p, TimeOut), p, GiveBack), p, PostWriter).procs == l.procs;
  }

  lemma Completes(l: Lock, p: nat)
    requires p < |l.procs| && l.procs[p].phase == Idle && l.writer == 1 && l.free == l.max
    ensures var l1 := Collected(l, p, l.max);
            && Enabled(l1, p, Complete)
            && var l2 := Do(l1, p, Complete);
               && Enabled(l2, p, PostWriter) && l2.procs[p].phase == Posting(true)
               && Do(l2, p, PostWriter) == l.(free := 0, procs := l.procs[p := l.procs[p].(writing := l.procs[p].writing + 1)])
  {
    var x := l.procs[p].(writing := l.procs[p].writing + 1);
    assert Do(Do(Collected(l, p, l.max), p, Complete), p, PostWriter).procs == l.procs[p := x];
  }

  // ---------------------------------------------------------------- the services and the cleanup handler

  class LockTable {
    var sems: seq<Lock>
    var readLists: seq<seq<nat>>
    var writeLists: seq<seq<nat>>

    ghost function Model(): Table
      reads this
    {
      Table(sems, readLists, writeLists)
    }

    constructor (readers: seq<nat>, n: nat)
      ensures Model() == NewTable(readers, n) && TableInv(Model())
    {
      var t := NewTable(readers, n);
      sems, readLists, writeLists := t.sems, t.readLists, t.writeLists;
      NewTableInv(readers, n);
    }

    /** Whether the call waited in vain is decided by the counter: false stands for a time-out. */
    method ReadLockSemaphore(p: nat, s: nat) returns (code: ReturnCode)
      requires TableInv(Model()) && p < |readLists| && (s < |sems| ==> sems[s].procs[p].phase == Idle)
      modifies this
      ensures code == if s >= |old(sems)| then InvalidParam else if old(sems[s].free) == 0 then TimedOut else NoError
      ensures TableInv(Model())
      ensures Model() == if code == NoError then DoTable(old(Model()), s, p, TakeRead) else old(Model())
    {
      if s >= |sems| {
        return InvalidParam;
      }
      if sems[s].free == 0 {
        return TimedOut;
      }
      Advance(p, s, TakeRead);
      code := NoError;
    }

    /** One step of lock `s` by process `p`, with its list. */
    method Advance(p: nat, s: nat, a: Action)
      requires TableInv(Model()) && TableEnabled(Model(), s, p, a)
      modifies this
      ensures TableInv(Model()) && Model() == DoTable(old(Model()), s, p, a)
    {
      TableStep(Model(), s, p, a);
      var phase := sems[s].procs[p].phase;
      readLists := readLists[p := NewReads(readLists[p], s, a)];
      writeLists := writeLists[p := NewWrites(writeLists[p], s, a, phase.Posting? && phase.granted)];
      sems := sems[s := Do(sems[s], p, a)];
    }

    /** A step that changes no list. */
    method AdvanceQuietly(p: nat, s: nat, a: Action)
      requires TableInv(Model()) && TableEnabled(Model(), s, p, a)
      requires a == TakeWriter || a == TakeToken || a == TimeOut || a == Complete || a == GiveBack
      modifies this
      ensures TableInv(Model()) && readLists == old(readLists) && writeLists == old(writeLists)
      ensures sems == old(sems)[s := Do(old(sems)[s], p, a)]
    {
      Advance(p, s, a);
      assert readLists == old(readLists) && writeLists == old(writeLists);
    }

    /** The loop of `writelock` when nobody interferes: it stops at the first token that is missing. */
    method CollectTokens(p: nat, s: nat) returns (k: nat)
      requires TableInv(Model()) && p < |readLists| && s < |sems| && sems[s].procs[p].phase == Idle && sems[s].writer > 0
      modifies this
      ensures TableInv(Model()) && readLists == old(readLists) && writeLists == old(writeLists)
      ensures k == old(sems[s].free) <= old(sems[s].max)
      ensures sems == old(sems)[s := Collected(old(sems[s]), p, k)]
    {
      k := 0;
      ghost var was := sems[s];
      SumBound(was);
      CollectSteps(was, p, 0);
      AdvanceQuietly(p, s, TakeWriter);
      while k < sems[s].max && sems[s].free > 0
        invariant TableInv(Model()) && readLists == old(readLists) && writeLists == old(writeLists)
        invariant k <= was.free && sems == old(sems)[s := Collected(was, p, k)]
        decreases was.free - k
      {
        CollectSteps(was, p, k);
        AdvanceQuietly(p, s, TakeToken);
        k := k + 1;
      }
    }

    /** `writelock` with its list, when nobody interferes and a wait that finds no token times out. */
    method WriteLockSemaphore(p: nat, s: nat) returns (code: ReturnCode)
      requires TableInv(Model()) && p < |readLists| && (s < |sems| ==> sems[s].procs[p].phase == Idle)
      modifies this
      ensures code == if s >= |old(sems)| then InvalidParam
                      else if old(sems[s].writer) > 0 && old(sems[s].free) == old(sems[s].max) then NoError else TimedOut
      ensures TableInv(Model())
      ensures Model() == if code == NoError then Written(old(Model()), s, p) else old(Model())
    {
      if s >= |sems| {
        return InvalidParam;
      }
      if sems[s].writer == 0 {
        return TimedOut;
      }
      ghost var was := sems[s];
      SumBound(was);
      var k := CollectTokens(p, s);
      if k < sems[s].max {
        RollsBack(was, p, k);
        GiveUp(p, s);
        code := TimedOut;
      } else {
        Completes(was, p);
        Obtain(p, s);
        code := NoError;
      }
    }

    method Obtain(p: nat, s: nat)
      requires TableInv(Model()) && TableEnabled(Model(), s, p, Complete)
      modifies this
      ensures TableInv(Model()) && readLists == old(readLists) && writeLists == old(writeLists)[p := old(writeLists)[p] + [s]]
      ensures var l := old(sems)[s]; sems == old(sems)[s := Do(Do(l, p, Complete), p, PostWriter)]
    {
      AdvanceQuietly(p, s, Complete);
      Advance(p, s, PostWriter);
      assert readLists == old(readLists);
    }

    method GiveUp(p: nat, s: nat)
      requires TableInv(Model()) && TableEnabled(Model(), s, p, TimeOut)
      modifies this
      ensures TableInv(Model()) && readLists == old(readLists) && writeLists == old(writeLists)
      ensures var l := old(sems)[s]; sems == old(sems)[s := Do(Do(Do(l, p, TimeOut), p, GiveBack), p, PostWriter)]
    {
      AdvanceQuietly(p, s, TimeOut);
      AdvanceQuietly(p, s, GiveBack);
      Advance(p, s, PostWriter);
      assert readLists == old(readLists) && writeLists == old(writeLists);
    }

    /** The caller need not hold the lock; the table stays in agreement exactly as said above. */
    method ReadUnlockSemaphore(p: nat, s: nat) returns (code: ReturnCode)
      requires TableInv(Model()) && p < |readLists| && (s < |sems| ==> sems[s].procs[p].phase == Idle)
      modifies this
      ensures code == if s < |old(sems)| then NoError else InvalidParam
      ensures Model() == if code == NoError then UnlockRead(old(Model()), s, p) else old(Model())
      ensures TableInv(Model()) <==> code == InvalidParam || s in old(readLists[p]) || old(sems[s].free) == old(sems[s].max)
    {
      if s >= |sems| {
        return InvalidParam;
      }
      UnlockReadExactly(Model(), s, p);
      var l := sems[s];
      var x := l.procs[p];
      var list := RemoveFirst(readLists[p], s);
      readLists := readLists[p := list];
      sems := sems[s := l.(free := Post(l.free, l.max), procs := l.procs[p := x.(reading := if x.reading > 0 then x.reading - 1 else 0)])];
      code := NoError;
    }

    method WriteUnlockSemaphore(p: nat, s: nat) returns (code: ReturnCode)
      requires TableInv(Model()) && p < |readLists| && (s < |sems| ==> sems[s].procs[p].phase == Idle)
      modifies this
      ensures code == if s < |old(sems)| then NoError else InvalidParam
      ensures Model() == if code == NoError then UnlockWrite(old(Model()), s, p) else old(Model())
      ensures TableInv(Model()) <==> code == InvalidParam || s in old(writeLists[p]) || old(sems[s].free) == old(sems[s].max)
    {
      if s >= |sems| {
        return InvalidParam;
      }
      UnlockWriteExactly(Model(), s, p);
      var l := sems[s];
      var x := l.procs[p];
      var list := RemoveFirst(writeLists[p], s);
      writeLists := writeLists[p := list];
      sems := sems[s := l.(free := l.max, procs := l.procs[p := x.(writing := if x.writing > 0 then x.writing - 1 else 0)])];
      code := NoError;
    }

    /** The loop over a list that erases the first match and stops. */
    static method RemoveFirst(list: seq<nat>, s: nat) returns (r: seq<nat>)
      ensures r == EraseFirst(list, s)
    {
      var i := 0;
      while i < |list|
        invariant i <= |list| && EraseFirst(list, s) == list[..i] + EraseFirst(list[i..], s)
      {
        if list[i] == s {
          assert list[i..][1..] == list[i + 1..];
          return list[..i] + list[i + 1..];
        }
        assert list[i..] == [list[i]] + list[i + 1..] && list[i..][1..] == list[i + 1..];
        i := i + 1;
      }
      return list;
    }

    method ReleaseReads(p: nat, ghost was: seq<Lock>)
      requires TableInv(Model()) && p < |readLists| && AtRest(sems, p) && SameButFor(was, sems, p)
      modifies this
      ensures TableInv(Model()) && AtRest(sems, p) && SameButFor(was, sems, p)
      ensures readLists == old(readLists)[p := []] && writeLists == old(writeLists)
    {
      var ids, i := readLists[p], 0;
      while i < |ids|
        invariant i <= |ids| && TableInv(Model()) && AtRest(sems, p) && SameButFor(was, sems, p)
        invariant readLists == old(readLists)[p := ids[i..]] && writeLists == old(writeLists)
      {
        ListedEnabled(Model(), p, ids[i]);
        UnlockReadExactly(Model(), ids[i], p);
        UnlockSame(was, sems, ids[i], p, PutRead);
        var code := ReadUnlockSemaphore(p, ids[i]);
        EraseHead(ids, i);
        i := i + 1;
      }
      assert ids[i..] == [];
    }

    method ReleaseWrites(p: nat, ghost was: seq<Lock>)
      requires TableInv(Model()) && p < |readLists| && AtRest(sems, p) && SameButFor(was, sems, p)
      modifies this
      ensures TableInv(Model()) && AtRest(sems, p) && SameButFor(was, sems, p)
      ensures readLists == old(readLists) && writeLists == old(writeLists)[p := []]
    {
      var ids, i := writeLists[p], 0;
      while i < |ids|
        invariant i <= |ids| && TableInv(Model()) && AtRest(sems, p) && SameButFor(was, sems, p)
        invariant writeLists == old(writeLists)[p := ids[i..]] && readLists == old(readLists)
      {
        ListedEnabled(Model(), p, ids[i]);
        UnlockWriteExactly(Model(), ids[i], p);
        UnlockSame(was, sems, ids[i], p, PutWrite);
        var code := WriteUnlockSemaphore(p, ids[i]);
        EraseHead(ids, i);
        i := i + 1;
      }
      assert ids[i..] == [];
    }

    /** Main result: what runs when the thread of process `p` is cancelled empties its lists,
        returns its tokens, and affects no other process. */
    method CleanupHandler(p: nat)
      requires TableInv(Model()) && p < |readLists| && AtRest(sems, p)
      modifies this
      ensures TableInv(Model()) && |readLists| == |old(readLists)|
      ensures readLists == old(readLists)[p := []] && writeLists == old(writeLists)[p := []]
      ensures SameButFor(old(sems), sems, p)
      ensures forall s :: 0 <= s < |sems| ==> Returned(old(sems)[s], sems[s], p)
    {
      ghost var was := Model();
      ReleaseReads(p, was.sems);
      ReleaseWrites(p, was.sems);
      forall s | 0 <= s < |sems|
        ensures Returned(was.sems[s], sems[s], p)
      {
        AllReturned(was, Model(), p, s);
      }
    }
  }

  /** `p` holds nothing of the lock any more, and its tokens are free. */
  ghost predicate Returned(was: Lock, l: Lock, p: nat) {
    && p < |was.procs| && p < |l.procs|
    && l.procs[p] == Process(0, 0, Idle)
    && l.free == was.free + was.procs[p].reading + was.max * was.procs[p].writing
  }
}
