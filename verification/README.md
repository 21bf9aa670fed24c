# Verified model of the ARINC 653 emulator

The emulator runs partitions of an ARINC 653 module on an ordinary operating system: a module manager
starts and stops partitions by a cyclic schedule and moves messages between them, each partition has a
scheduler that releases processes and checks their deadlines, processes share buffers and locks, and a
library of hierarchical state machines drives reactions to events. This project models these parts in
Dafny and proves what they are for. `dafny verify dfyconfig.toml` checks all of it.

| files | what they model |
|---|---|
| `Charts`, `Traversal`, `Firing` | states, regions and transitions; exit, entry and the time-out dry run as traversals that consume the queue of states to enter; entry and exit points |
| `DataSource` | what a firing asks of the data sources of its states, in order: evaluations of time-outs, entry and exit actions |
| `Balance`, `History`, `OffPath`, `Selection`, `Order`, `Orthogonal`, `Passes` | properties of firings and of whole runs: balanced actions, history, regions beside the way to the target, selection, the order of visits, independence of firing order, firings whose source is not looked at again |
| `Witnesses` | one chart on which each hypothesis of balance fails, and on which time-outs of an entered state are left out |
| `Machine` | the state machine object, its traversals as recursive methods and loops, and `step` |
| `Apex`, `Sequences` | types and constants that the services share; sums, concatenation, arithmetic progressions and loops |
| `RwLock`, `LockLists` | counting semaphores and the reader/writer lock as a protocol of atomic steps; per-process lock lists and the cleanup handler |
| `Buffer` | the ring buffer with two semaphores and a mutex |
| `Scheduling`, `SchedulerLoop`, `PartitionRuns` | process descriptors, the process and time services, the scheduler's pass, and runs of a whole partition |
| `Barrier`, `Accounts` | start-up barriers and hyperperiod start of several module managers; where their messages go |
| `Schedule`, `Served` | validation of the cyclic schedule and the frame loops; how each window of each frame is served |
| `Channel` | queuing ports and queuing channels |
| `TimeSpec` | arithmetic on seconds and nanoseconds |

Conventions. Code that changes things step by step is a class whose methods are proved against
functions on the old state; the theorems are about those functions and about runs of them. What runs
concurrently is a step relation: each block that the source protects by a mutex, or by a semaphore's
mutex, is one step, and a run is any interleaving of steps, with time-outs possible at every wait. The
data source of a state machine is an oracle: for each pass of `step` an arbitrary set of transitions
whose event and guard hold. What balance says of actions concerns the entries and exits of all states;
`DataSource.ActionsHeard` says which of them reach a data source. Clocks are parameters with arbitrary
values.

Assumptions. A chart is a finite tree with consistent pointers in which every region has an initial
state, and sibling regions, and the transitions of one state, have distinct priorities (the ordered sets
compare nothing else). A reader/writer lock is unlocked by a holder, message lengths given to a buffer
fit into a slot, and no thread is cancelled in the middle of an acquisition. `std::sort` with a
comparison that is not a strict weak order is modelled by its intended result. The network between
module managers may lose and reorder messages but neither duplicates nor forges them. Schedules are not
empty, with offsets and durations that are not negative.

Where the code and its comments differ the model follows the code:

* `computeEntryAndExitPoints` falls back to exiting the source alone when the two paths do not part.
  Then the source may stay active while it was exited, or a region may hold two entered states.
  `Balance.FiringBalanced` says exactly when, `Firing.MatchedExactly` puts it in terms of the two
  paths, and `Witnesses.ParallelRegionsUnbalanced` and `Witnesses.DeeperSourceUnbalanced` show both ways.
* `step` fires what it has collected without looking again whether a source, or its exit state, is still
  active. `Machine.StepBalancedExactly` says exactly when this is balanced, `Passes.PassBalanced` gives a
  condition on the chart alone, and `Witnesses.StaleSourceUnbalanced` is a pass where it is not.
* `EvalTimeOut` hands its `doEntry` flag down, `EvalEntry` does not, and `performEntry` evaluates
  time-outs once more, but only for a state with a data source. So a firing leaves out the time-outs of
  a state that it enters if and only if it goes between parallel regions and that state has no data
  source (`DataSource.LeftOutExactly`, with an instance in `Witnesses.ParallelSkipsTimeOuts`).
* A reader/writer lock created with no reader slots excludes nobody (`RwLock.SafeExactlyWithSlots`), and
  unlocking does not look who calls (`LockLists.UnlockReadExactly`, `LockLists.UnlockWriteExactly`).
* The scheduler never looks at the deadline of a process with unbounded capacity at the head of its
  vector. If REPLENISH has given that process a finite deadline, every due process waits behind it
  (`SchedulerLoop.Round`, `PartitionRuns.StarvationReachable`).
* `MOVE_MESSAGES` returns the code of its last attempt only (`Channel.MoveCodeExactly`). It reports
  NO_ERROR although messages were lost exactly when the last message is accepted at the last
  destination, while at some destination a message is too long or there is not room for all that fit
  (`Channel.UnreportedExactly`, with an instance in `Channel.LossUnreported`).
* Destinations added before the source are not checked against its message size. A message is lost at a
  destination that has room exactly when it is longer than the destination's maximum
  (`Channel.LostInTurn`, `Channel.NeverDeliveredExactly`, with an instance in `Channel.MoveTooLong`).

## Model

| member | source | states |
|---|---|---|
| Traversal.EntryFrame | ACM-src/StateMachine/src/StateMachine/StateMachine.cpp:219-240 | Entering a state makes it current in its region and changes no pointer outside that region and the part below the state |
| Traversal.EntryOffPath | ACM-src/StateMachine/src/StateMachine/StateMachine.cpp:348-382 | A region visited off the way to the target neither consumes the queue nor is misled by it |
| OffPath.SideRegions | ACM-src/StateMachine/src/StateMachine/StateMachine.cpp:348-382 | In a firing, each region beside the way to the target gets its initial state with initial states below, but with history the regions after the one that holds the way keep all their pointers |
| Traversal.TimeOutIsDryRun | ACM-src/StateMachine/src/StateMachine/StateMachine.cpp:187-240 | From one configuration and queue, the time-out traversal and the entry traversal visit the same states in the same order and leave the same queue, although entry overwrites pointers on its way |
| DataSource.TimeOutsExactly | ACM-src/StateMachine/src/StateMachine/StateMachine.cpp:589-602 | A firing evaluates the time-outs of the states it enters, in order, unless it goes between parallel regions, and then, in order, once more those of the entered states with a data source |
| DataSource.EntryAnnounced | ACM-src/StateMachine/src/StateMachine/StateMachine.cpp:49-54 | In every firing exactly the entered states with a data source have their entry action performed, each directly after its time-outs were evaluated |
| DataSource.LeftOutExactly | ACM-src/StateMachine/src/StateMachine/StateMachine.cpp:589-602 | A firing leaves out the time-outs of a state it enters if and only if it goes between parallel regions and the state has no data source |
| DataSource.ActionsHeard | ACM-src/StateMachine/src/StateMachine/StateMachine.cpp:49-60 | The data sources hear of exactly the entries and exits of their own states, in the order of the firing |
| Witnesses.ParallelSkipsTimeOuts | ACM-src/StateMachine/src/StateMachine/StateMachine.cpp:596-602 | A firing between parallel regions that enters four states and evaluates the time-outs of the three that have a data source |
| Firing.PathIsChain | ACM-src/StateMachine/src/StateMachine/StateMachine.cpp:68-79 | The path to the root starts at the root, descends one level at a time, and holds ancestors only |
| Firing.PointsShape | ACM-src/StateMachine/src/StateMachine/StateMachine.cpp:428-457 | States to enter form a parent-to-child chain ending in the target; the exit state is the source or an ancestor of it; the chain starts below an ancestor of the source |
| Firing.PointsExactly | ACM-src/StateMachine/src/StateMachine/StateMachine.cpp:428-457 | Where the paths of source and target part, the states at which they part are exited and entered if they share a region, and otherwise their parent is left and re-entered from inside; where one path ends on the other, the source is exited and the next state on the target's path, or the target, is entered |
| Firing.MatchedExactly | ACM-src/StateMachine/src/StateMachine/StateMachine.cpp:428-457 | Exit state and first entered state coincide or share a region if and only if the paths of source and target part before either of them ends, or the state at the source's depth on the way to the target is in the source's region |
| Firing.FireFrame | ACM-src/StateMachine/src/StateMachine/StateMachine.cpp:568-603 | A firing changes no pointer outside the region of the first entered state and what lies below that state |
| Firing.ActiveAfterEntry | ACM-src/StateMachine/src/StateMachine/StateMachine.cpp:219-240 | After an entry the active states are the old ones outside the region entered, and inside it those active below the entered state |
| Balance.EntryReplay | ACM-src/StateMachine/src/StateMachine/StateMachine.cpp:219-240 | Entry actions run parents before children, once each, for exactly the states that become active |
| Balance.ExitReplay | ACM-src/StateMachine/src/StateMachine/StateMachine.cpp:172-185 | Exit actions run children before parents, once each, for exactly the states that were active |
| Balance.FiringBalanced | ACM-src/StateMachine/src/StateMachine/StateMachine.cpp:568-603 | From an active source, a firing's actions lead from the old active configuration to the new one, each allowed in its turn, if and only if exit state and first entered state coincide or share a region |
| Witnesses.ParallelRegionsUnbalanced | ACM-src/StateMachine/src/StateMachine/StateMachine.cpp:435-448 | A transition between siblings in parallel regions whose actions are not balanced |
| Witnesses.DeeperSourceUnbalanced | ACM-src/StateMachine/src/StateMachine/StateMachine.cpp:435-448 | A transition to a target that is not as deep as its source whose actions are not balanced |
| Balance.FireAllBalanced | ACM-src/StateMachine/src/StateMachine/StateMachine.cpp:568-603 | Any sequence of firings with active sources and matching points keeps entered-but-not-exited states equal to the active configuration |
| Balance.RunBalanced | ACM-src/StateMachine/src/StateMachine/StateMachine.cpp:516-618 | The same from start-up on, whatever the pointers were before |
| History.TargetReached | ACM-src/StateMachine/src/StateMachine/StateMachine.cpp:219-240 | From an active source the queue is used up, every state on it becomes current and active, the target among them, and the target's regions are entered as the history rules say |
| History.EntryNoHistory | ACM-src/StateMachine/src/StateMachine/StateMachine.cpp:348-364 | Without history, entry below the target leaves only initial states active there |
| History.EntryWithHistory | ACM-src/StateMachine/src/StateMachine/StateMachine.cpp:348-364 | With history going on, entry below the target changes no pointer |
| History.InactiveUnchanged | ACM-src/StateMachine/src/StateMachine/StateMachine.cpp:262-278 | A firing from an active source changes no pointer of a region whose owner is inactive afterwards |
| History.InactiveSubtreeKept | ACM-src/StateMachine/src/StateMachine/StateMachine.cpp:262-278 | While a state stays inactive, through any run, no pointer below it changes |
| History.HistoryRestored | ACM-src/StateMachine/src/StateMachine/StateMachine.cpp:348-382 | Re-entry with history after any run restores what was below the state when it was left: all of it through deep regions, one level through shallow ones with initial states below |
| Selection.CollectExact | ACM-src/StateMachine/src/StateMachine/StateMachine.cpp:96-167 | A transition is collected if and only if it is enabled, is the first enabled one by priority of an active source, and no active proper ancestor of the source has any enabled one |
| Selection.CollectUnrelated | ACM-src/StateMachine/src/StateMachine/StateMachine.cpp:96-167 | No source of a collected transition is an ancestor of another, and none occurs twice |
| Order.FiringOrder | ACM-src/StateMachine/src/StateMachine/StateMachine.cpp:172-240 | A firing exits children before parents and enters parents before children, both by the priority of regions |
| Order.CollectOrder | ACM-src/StateMachine/src/StateMachine/StateMachine.cpp:144-159 | Transitions are queued by the priority of the regions that hold their sources |
| Order.BeforeAsymmetric | ACM-src/StateMachine/src/StateMachine/StateMachine.cpp:459-477 | Two different states are in order one way only, so that a set of states is visited in one order |
| Balance.FireAllLast | ACM-src/StateMachine/src/StateMachine/StateMachine.cpp:563-566 | Queued transitions fire first in first out |
| Orthogonal.LocalFiring | ACM-src/StateMachine/src/StateMachine/StateMachine.cpp:568-603 | A transition inside one region depends on, and changes, only pointers inside that region |
| Orthogonal.UnrelatedRegions | ACM-src/StateMachine/src/StateMachine/StateMachine.cpp:144-159 | The regions of two active states, neither an ancestor of the other, have no region in common |
| Orthogonal.IndependentResult | ACM-src/StateMachine/src/StateMachine/StateMachine.cpp:568-603 | After independent firings each pointer has the value its one transition gives it when fired alone |
| Orthogonal.OrderIrrelevant | ACM-src/StateMachine/src/StateMachine/StateMachine.cpp:568-603 | Independent transitions give one configuration in every firing order |
| Orthogonal.CollectedCommute | ACM-src/StateMachine/src/StateMachine/StateMachine.cpp:543-603 | What one evaluation collects from local transitions gives one configuration in every order, with balanced actions |
| Passes.MatchedFiringExactly | ACM-src/StateMachine/src/StateMachine/StateMachine.cpp:568-603 | With matching points, a firing from any source is balanced if its exit state is active; otherwise an action is not allowed in its turn |
| Passes.FireAllExactly | ACM-src/StateMachine/src/StateMachine/StateMachine.cpp:568-603 | Any firings with matching points, sources not looked at, are balanced if and only if each exit state is active in its turn |
| Passes.PassBalanced | ACM-src/StateMachine/src/StateMachine/StateMachine.cpp:543-603 | In any chart, what one evaluation collects fires in a balanced way when the points match and no source lies in the region that an earlier firing enters first |
| Witnesses.StaleSourceUnbalanced | ACM-src/StateMachine/src/StateMachine/StateMachine.cpp:568-577 | A pass with matching points whose second firing exits a state that the first has made inactive |
| Machine.StepBalanced | ACM-src/StateMachine/src/StateMachine/StateMachine.cpp:543-614 | In a chart of local transitions every run-to-completion step is balanced, whatever the data source answers |
| Machine.RunsToCompletion | ACM-src/StateMachine/src/StateMachine/StateMachine.cpp:543-614 | A step is pass after pass, each on the pointers that the one before has left; all of them find transitions, and the step ends with the first that would find none, or when the data source has no further events |
| Machine.StepBalancedExactly | ACM-src/StateMachine/src/StateMachine/StateMachine.cpp:543-614 | In any chart with matching points a run-to-completion step is balanced if and only if every exit state is active in its turn, in every pass |
| Machine.StateMachine.ComputePathToRoot | ACM-src/StateMachine/src/StateMachine/StateMachine.cpp:68-79 | The loop computes the path to the root |
| Machine.StateMachine.ComputeEntryAndExitPoints | ACM-src/StateMachine/src/StateMachine/StateMachine.cpp:428-457 | The loop over both paths computes the points that the theorems are about |
| Machine.StateMachine.SetCurrentState | ACM-src/StateMachine/src/StateMachine/StateMachine.cpp:262-278 | A region's pointer is set for a child of the region and for nothing else |
| Machine.StateMachine.EvalExit | ACM-src/StateMachine/src/StateMachine/StateMachine.cpp:172-185 | Performs the exits of the exit traversal, calls the data source of each state that has one, and changes no pointer |
| Machine.StateMachine.PerformEntry | ACM-src/StateMachine/src/StateMachine/StateMachine.cpp:49-54 | For a state with a data source the time-outs are evaluated and then the entry action is performed; otherwise nothing is called |
| Machine.StateMachine.EvalTimeOut | ACM-src/StateMachine/src/StateMachine/StateMachine.cpp:187-206 | Consumes the queue and evaluates time-outs as the dry run does, with no pointer changed |
| Machine.StateMachine.EvalEntry | ACM-src/StateMachine/src/StateMachine/StateMachine.cpp:219-240 | New pointers, remaining queue and entries are those of the entry traversal; each entered state with a data source has its time-outs evaluated and its entry action performed |
| Machine.StateMachine.EvalRegionEntry | ACM-src/StateMachine/src/StateMachine/StateMachine.cpp:348-382 | The same for the choice of state in one region |
| Machine.StateMachine.EvalTransitions | ACM-src/StateMachine/src/StateMachine/StateMachine.cpp:96-167 | Appends to the queue exactly the selected transitions, the first enabled one by priority of each source, and changes no pointer |
| Machine.StateMachine.FireTransition | ACM-src/StateMachine/src/StateMachine/StateMachine.cpp:568-602 | New pointers, entries and exits of one firing, and its calls in order: exit actions, the dry run's evaluations, then evaluation and entry action of each entered state with a data source |
| Machine.StateMachine.Start | ACM-src/StateMachine/src/StateMachine/StateMachine.cpp:526-535 | Start-up enters the initial configuration and is balanced; its calls are those of a dry run over the states entered, followed by those of their entry |
| Machine.StateMachine.Step | ACM-src/StateMachine/src/StateMachine/StateMachine.cpp:541-614 | The loops fire what each evaluation collects; a balanced machine with matching points stays balanced if and only if every exit state is active in its turn, always so for local transitions; the data sources have heard of exactly the entries and exits of their states, each entry announced |
| RwLock.StepInv | ACM-src/include/ACM/INTERNAL/ACM_THREAD_SUPPORT.h:396-451 | Free tokens, readers, collected tokens and MAX_READERS per writer always add up to MAX_READERS; writer token and busy writers to one |
| RwLock.Safety | ACM-src/include/ACM/INTERNAL/ACM_THREAD_SUPPORT.h:396-451 | In every interleaving with time-outs a writer excludes every other writer, every reader and every collected token, and at most one process collects |
| RwLock.SafeExactlyWithSlots | ACM-src/include/ACM/INTERNAL/ACM_THREAD_SUPPORT.h:391-395 | Exclusion holds in all runs if and only if the lock has at least one reader slot |
| RwLock.PostsAccepted | ACM-src/src/ACM_THREAD_SUPPORT.cc:290-304 | No ignored return code of `post` hides a refusal, and the assignment in `writeunlock` returns exactly the writer's tokens |
| RwLock.HoldsCounted | ACM-src/include/ACM/INTERNAL/ACM_THREAD_SUPPORT.h:396-451 | In every interleaving a process holds exactly the read and write locks that it has acquired and not given up |
| RwLock.CollectorWaitsForHolders | ACM-src/include/ACM/INTERNAL/ACM_THREAD_SUPPORT.h:421-431 | A collecting writer that finds no token waits for a process that holds the lock |
| RwLock.ReadUnlockExactly | ACM-src/include/ACM/INTERNAL/ACM_THREAD_SUPPORT.h:402-405 | Unlocking keeps the accounting if and only if the caller holds a read lock or all tokens are free |
| RwLock.RwLockSem.ReadLock | ACM-src/include/ACM/INTERNAL/ACM_THREAD_SUPPORT.h:396-399 | If a token is free it is taken and the caller holds one more read lock, else nothing changes |
| RwLock.RwLockSem.ReadUnlock | ACM-src/include/ACM/INTERNAL/ACM_THREAD_SUPPORT.h:402-405 | The holder's token is returned and the caller holds one read lock less |
| RwLock.RwLockSem.WriteLock | ACM-src/include/ACM/INTERNAL/ACM_THREAD_SUPPORT.h:407-441 | Undisturbed, it takes all tokens if the lock is free and otherwise leaves counters and holders as they were |
| RwLock.RwLockSem.WriteUnlock | ACM-src/include/ACM/INTERNAL/ACM_THREAD_SUPPORT.h:443-451 | All tokens are free again and the caller holds one write lock less |
| LockLists.TableStep | ACM-src/src/APEX_SEMAPHORE_SERVICES.cc:80-221 | For every lock and process, holds equal occurrences in the process's lists after every step |
| LockLists.HoldsAreListed | ACM-src/src/APEX_SEMAPHORE_SERVICES.cc:80-221 | In every run from newly created locks, holds equal occurrences in the lists |
| LockLists.UnlockReadExactly | ACM-src/src/APEX_SEMAPHORE_SERVICES.cc:113-150 | Unlocking for reading by any process keeps holds, lists and tokens in agreement if and only if the lock is on its list or all tokens are free |
| LockLists.UnlockWriteExactly | ACM-src/src/APEX_SEMAPHORE_SERVICES.cc:181-221 | The same for writing |
| LockLists.TokensReturned | ACM-src/src/PROCESS.cc:326-368 | When only one process's holds are gone, exactly its tokens are free again |
| LockLists.LockTable.ReadLockSemaphore | ACM-src/src/APEX_SEMAPHORE_SERVICES.cc:80-111 | Lock and list change together; an unknown lock or a time-out changes neither |
| LockLists.LockTable.WriteLockSemaphore | ACM-src/src/APEX_SEMAPHORE_SERVICES.cc:152-179 | Undisturbed, the lock is taken for writing and listed if it is free, and otherwise nothing is changed |
| LockLists.LockTable.ReadUnlockSemaphore | ACM-src/src/APEX_SEMAPHORE_SERVICES.cc:113-150 | A token is posted and a list entry erased, whoever calls; the table stays in agreement exactly as said above |
| LockLists.LockTable.WriteUnlockSemaphore | ACM-src/src/APEX_SEMAPHORE_SERVICES.cc:181-221 | The counter is assigned and a list entry erased, whoever calls; the table stays in agreement exactly as said above |
| LockLists.LockTable.RemoveFirst | ACM-src/src/APEX_SEMAPHORE_SERVICES.cc:131-147 | The erasing loop removes the first occurrence only |
| LockLists.LockTable.CleanupHandler | ACM-src/src/PROCESS.cc:326-368 | The stopped process's lists are empty, its tokens are free, and no other process's holds changed |
| Buffer.StepAccounts | ACM-src/src/BUFFER.cc:57-115 | Write permits, places promised and messages add up to the capacity; read permits and messages promised to the message count |
| Buffer.StepRefines | ACM-src/src/BUFFER.cc:57-115 | Every step of every interleaving is a step of a bounded first-in first-out queue |
| Buffer.FirstInFirstOut | ACM-src/src/BUFFER.cc:57-115 | In every run, contents followed by what is stored equals what is taken followed by contents |
| Buffer.RunFifo | ACM-src/src/BUFFER.cc:22-39 | From a new buffer, messages are taken in the order of storing and at most capacity many wait |
| Buffer.PostsAccepted | ACM-src/src/BUFFER.cc:82-110 | Neither `post` is ever refused |
| Buffer.MutualExclusion | ACM-src/src/BUFFER.cc:68-100 | At most one process works on the ring |
| Buffer.RefusedExactly | ACM-src/src/BUFFER.cc:61-99 | Permits run out exactly when every place, or every message, is taken or promised |
| Buffer.ApexBuffer.constructor | ACM-src/src/BUFFER.cc:22-39 | A new buffer is empty with all places free |
| Buffer.ApexBuffer.StoreMessage | ACM-src/src/BUFFER.cc:102-108 | The array and indices change as the step says |
| Buffer.ApexBuffer.TakeMessage | ACM-src/src/BUFFER.cc:70-80 | The array and indices change as the step says, and the message is the stored one |
| Buffer.ApexBuffer.SendMessage | ACM-src/src/BUFFER.cc:89-115 | Appends the message, or reports NOT_AVAILABLE or TIMED_OUT and changes nothing |
| Buffer.ApexBuffer.ReceiveMessage | ACM-src/src/BUFFER.cc:57-87 | Removes and returns the oldest message, or reports that there is none |
| Buffer.ApexBuffer.GetBufferStatus | ACM-src/src/BUFFER.cc:117-129 | The message count is the number of waiting messages |
| Scheduling.CatchUpLeast | ACM-src/src/APEX_SCHEDULING.cc:598-619 | The catch-up loop ends at the least instant in phase after the new critical time, or at once |
| Scheduling.StepInv | ACM-src/src/APEX_SCHEDULING.cc:475-634 | RUNNING implies a pending deadline check, a releasable process has critical time equal to release time, and a pending check is never later than the next release; kept by the scheduler, start, stop, completion and REPLENISH |
| Scheduling.CapacityNeeded | ACM-src/src/APEX_PROCESS_SERVICES.cc:114-124 | Releasing keeps that alternation if and only if the capacity does not exceed the period |
| Scheduling.TraceOnTime | ACM-src/src/APEX_SCHEDULING.cc:475-634 | In every run every release takes place for the instant that is due, every miss is found after its deadline, and every new deadline lies before the next release, where start, releases, REPLENISH and misses determine what is due |
| Scheduling.NoDrift | ACM-src/src/APEX_SCHEDULING.cc:475-534 | In every run, two releases of one activation are a positive whole number of periods apart, however late the scheduler wakes |
| Scheduling.OnePeriodApart | ACM-src/src/APEX_SCHEDULING.cc:510-519 | Releases with no miss, stop or start between them are exactly one period apart each |
| Scheduling.FirstRelease | ACM-src/src/APEX_PROCESS_SERVICES.cc:697-737 | The first release is for the instant of the start, or of the set-up, plus the delay |
| Scheduling.DelayedRelease | ACM-src/src/APEX_SCHEDULING.cc:363-401 | A process started with a delay before the partition is normal is first released for the set-up instant plus that delay, whatever is called between, short of a stop |
| Scheduling.ReleasedWhenDue | ACM-src/src/APEX_SCHEDULING.cc:474-586 | A waiting process whose release instant has come is released for it by the next pass, or by the one after if a deadline that was met is still watched |
| Scheduling.FinishExactly | ACM-src/src/PROCESS.cc:470-488 | A finished periodic process keeps its next release; a finished aperiodic one is dormant |
| Scheduling.DeadlineReported | ACM-src/src/APEX_SCHEDULING.cc:521-529 | In every run the deadline reported for a running process is its last release plus its capacity, or what REPLENISH gave it since |
| Scheduling.AfterSoftMiss | ACM-src/src/APEX_SCHEDULING.cc:587-619 | The release after a soft miss is for the least instant in phase after the new critical time, if the process was behind |
| Scheduling.MissNotEarly | ACM-src/src/APEX_SCHEDULING.cc:523-634 | A deadline miss is found only when TIME_CAPACITY has passed since the release, or the deadline given by REPLENISH, or a second since the last soft miss |
| PartitionRuns.ProcessRuns | ACM-src/src/APEX_SCHEDULING.cc:409-644 | In every run of a partition, passes over all processes mixed with calls and completions, each process goes through a run of its own |
| PartitionRuns.PartitionNoDrift | ACM-src/src/APEX_SCHEDULING.cc:409-644 | No drift, for every periodic process of a partition, whatever the other processes do |
| PartitionRuns.PartitionMissNotEarly | ACM-src/src/APEX_SCHEDULING.cc:409-644 | No early miss, for every process of a partition |
| PartitionRuns.WatchedBlocks | ACM-src/src/APEX_SCHEDULING.cc:412-431 | A process of unbounded capacity whose watched deadline comes first keeps the scheduler idle in whatever order it sorts |
| PartitionRuns.WatchedSinceRelease | ACM-src/src/APEX_SCHEDULING.cc:521-529 | Without REPLENISH or a miss since its release, such a deadline lies the longest possible wait after the release |
| PartitionRuns.StarvationReachable | ACM-src/src/APEX_SCHEDULING.cc:412-431 | Two new processes come to a state in which one is due from some instant on and the scheduler never finds anything to do |
| SchedulerLoop.Scan | ACM-src/src/APEX_SCHEDULING.cc:462-642 | A pass gives one action to every due process that is not dormant and touches no other, although it changes critical times as it goes |
| SchedulerLoop.Round | ACM-src/src/APEX_SCHEDULING.cc:409-642 | An uninterrupted round serves all that is due if and only if the head is neither dormant nor watched without bound; otherwise nothing changes |
| SchedulerLoop.SetUpAll | ACM-src/src/APEX_SCHEDULING.cc:363-401 | Every process started early gets the set-up instant plus its delay as release and critical time; dormant ones stay dormant |
| SchedulerLoop.ProcessDescriptor.ServeDue | ACM-src/src/APEX_SCHEDULING.cc:474-634 | Both cases of the switch, field by field |
| SchedulerLoop.ProcessDescriptor.BringIntoPhase | ACM-src/src/APEX_SCHEDULING.cc:610-617 | The loop terminates and computes the catch-up instant |
| SchedulerLoop.ProcessDescriptor.StartDelayed | ACM-src/src/APEX_PROCESS_SERVICES.cc:650-758 | Each error code by its own condition, new state and times of a start in a normal partition, the stored delay in another, and the alternation kept |
| SchedulerLoop.ProcessDescriptor.StopProcess | ACM-src/src/APEX_PROCESS_SERVICES.cc:795-829 | A stopped process is dormant; stopping a dormant one is NO_ACTION |
| SchedulerLoop.ProcessDescriptor.ReplenishBudget | ACM-src/src/APEX_TIME_MANAGEMENT_SERVICES.cc:98-154 | Success and each error code by its own condition, and the new deadline, for any caller; the alternation is kept by a running caller, and by others if and only if no release is due at another instant |
| Barrier.StepInv | ACM-src/ModuleManager/MultiModuleRelatedConfig.cc:468-563 | Every step keeps each child within one round of the parent and at most one READY or acknowledgement of the current round under way per child |
| Barrier.RoundsNotConfused | ACM-src/ModuleManager/MultiModuleRelatedConfig.cc:482-563 | Every READY or acknowledgement consumed in a round was sent in that round, although messages carry no round number and a child accepts any message of its parent |
| Barrier.BarriersHold | ACM-src/ModuleManager/MultiModuleRelatedConfig.cc:468-563 | No module leaves a barrier round before every module has entered it |
| Barrier.HyperperiodSafety | ACM-src/ModuleManager/ModuleScheduler.cc:59-289 | A child runs at most as many frames as START was broadcast, and none before every module has passed all barriers and every child has reported ready |
| Accounts.NothingDisappears | ACM-src/ModuleManager/MultiModuleRelatedConfig.cc:468-563 | In every run, for every child, each START was a hyperperiod run, is under way, or was lost; so for STOP; each acknowledgement has ended one round; each READY was counted in its round, is under way, or was lost |
| Accounts.NeverStuck | ACM-src/ModuleManager/ModuleScheduler.cc:59-289 | After every run without loss some module can go on, until all have been stopped |
| Barrier.DuplicationBreaksBarriers | ACM-src/ModuleManager/MultiModuleRelatedConfig.cc:482-504 | If one READY could arrive twice the parent could leave a round its child never entered |
| Barrier.SystemModuleManager.ResetChildrenModules | ACM-src/include/ACM/INTERNAL/ModuleManager.h:706-711 | All answers are forgotten and no child is |
| Barrier.SystemModuleManager.NumChildrenSyncRemaining | ACM-src/include/ACM/INTERNAL/ModuleManager.h:713-724 | Counts the children without an answer |
| Barrier.SystemModuleManager.CollectReady | ACM-src/ModuleManager/MultiModuleRelatedConfig.cc:476-504 | The receive loop ends exactly when every child has sent a well-formed READY, and not before |
| Schedule.CheckSchedule | ACM-src/ModuleManager/ModuleManager.cc:99-128 | The loop accepts exactly schedules whose windows follow each other and end in the frame |
| Schedule.AcceptedExactly | ACM-src/ModuleManager/ModuleManager.cc:96-128 | A sorted schedule of non-empty windows is accepted if and only if its windows are pairwise disjoint and in the frame |
| Schedule.WindowsDisjoint | ACM-src/ModuleManager/ModuleScheduler.cc:185-229 | All windows of all hyperperiods are pairwise disjoint, in cyclic order |
| Schedule.FramesDoNotDrift | ACM-src/ModuleManager/ModuleScheduler.cc:185-229 | However many frames are run, what follows the first k of them is the frame of START plus k major frames |
| Schedule.FramesExclusive | ACM-src/include/ACM/INTERNAL/ModuleManager.h:578-689 | In every prefix of the signal trace at most one partition runs, and messages move only when none does |
| Served.WindowServed | ACM-src/include/ACM/INTERNAL/ModuleManager.h:578-689 | In every run, each window of each frame is one section of the trace: sleep until it begins, all incoming channels in order (or the token of a network partition), the window's partition continued once and halted at the window's end, all outgoing channels in order, and sleep again; before it exactly the earlier windows were served and, by a system module manager, this and the earlier frames announced |
| Served.FramesCount | ACM-src/ModuleManager/ModuleScheduler.cc:59-229 | Every frame runs every window once, and a system module manager announces every frame once |
| Schedule.OnTimeExactly | ACM-src/ModuleManager/ModuleScheduler.cc:185-229 | The instants slept for never descend, over any number of frames, if and only if the schedule is accepted |
| Schedule.ModuleManager.RunPartition | ACM-src/include/ACM/INTERNAL/ModuleManager.h:578-689 | Messages in, continue, sleep, halt, messages out, in this order |
| Schedule.ModuleManager.RunFrames | ACM-src/ModuleManager/ModuleScheduler.cc:185-229 | The loops run every window of the schedule in every frame, each from the frame's own start |
| Schedule.ModuleManager.RunSystem | ACM-src/ModuleManager/ModuleScheduler.cc:59-108 | The same with START before every frame and STOP at the end |
| Channel.LongestPrefix | ACM-src/src/QUEUE_CHANNEL.cc:308-333 | A destination takes exactly the longest prefix of the moved messages for which it has room |
| Channel.StepInv | ACM-src/src/QUEUE_CHANNEL.cc:295-333 | Sends, moves and receives keep what was moved an interleaving of what a destination took and what it dropped |
| Channel.DeliveryConserves | ACM-src/src/QUEUE_CHANNEL.cc:295-333 | In every run, received messages keep the order of sending, and sent equals waiting, delivered and dropped |
| Channel.DropOnlyWhenFull | ACM-src/src/QUEUE_CHANNEL.cc:315-333 | With fitting sizes a move drops messages if and only if they exceed the room, and then leaves the destination full |
| Channel.LostInTurn | ACM-src/src/QUEUE_CHANNEL.cc:308-333 | Whatever the sizes, a message of a batch is lost at a destination if and only if it is longer than the maximum there or the shorter ones before it have used up the room |
| Channel.MoveCodeExactly | ACM-src/src/QUEUE_CHANNEL.cc:315-333 | A move returns TIMED_OUT if the last destination is full before the last message, else INVALID_CONFIG if that message is too long for it, else NO_ERROR, whatever became of earlier messages |
| Channel.UnreportedExactly | ACM-src/src/QUEUE_CHANNEL.cc:308-333 | Whatever the sizes, a move loses messages and returns NO_ERROR if and only if the last message is accepted at the last destination and at some destination a message is too long or the room does not suffice |
| Channel.LossUnreported | ACM-src/src/QUEUE_CHANNEL.cc:308-333 | With a full first and an empty last destination a message is lost and the code is NO_ERROR |
| Channel.NeverDeliveredExactly | ACM-src/src/QUEUE_CHANNEL.cc:315-333 | A destination with room left after a move has lost exactly the messages longer than its maximum, and taken all others in order |
| Channel.MoveTooLong | ACM-src/src/QUEUE_CHANNEL.cc:202-246 | With the destination added before the source, a message that the source takes is lost although the destination is empty |
| Channel.MessageQueue.SendMessage | ACM-src/src/QUEUE_PORT.cc:92-153 | Each code by its own condition, that on the direction of the port among them, and the message is appended exactly on NO_ERROR |
| Channel.MessageQueue.ReceiveMessage | ACM-src/src/QUEUE_PORT.cc:216-282 | Each code by its own condition, and the oldest message is returned exactly on NO_ERROR |
| Channel.QueueChannel.AddSourceQueue | ACM-src/src/QUEUE_CHANNEL.cc:202-226 | The channel keeps fitting sizes if and only if the destinations added before are large enough |
| Channel.QueueChannel.AddDestinationQueue | ACM-src/src/QUEUE_CHANNEL.cc:227-246 | A destination too small for the source is rejected; fitting sizes are kept |
| Channel.QueueChannel.MoveMessages | ACM-src/src/QUEUE_CHANNEL.cc:269-347 | The source is emptied, every destination gets what fits, and the code is that of the last attempt |
| TimeSpec.AddTime | ACM-src/include/ACM/USER/ACM_UTILITIES.h:143-155 | The sum of two instants, with nanoseconds in range |
| TimeSpec.AddNanoExactly | ACM-src/include/ACM/USER/ACM_UTILITIES.h:161-199 | The value is right, and the result is in normal form if and only if the nanoseconds do not go negative or make whole seconds |
| TimeSpec.SubtractTime | ACM-src/include/ACM/USER/ACM_UTILITIES.h:263-275 | The difference of two instants, with nanoseconds not negative |
| TimeSpec.SubtractTime2 | ACM-src/include/ACM/USER/ACM_UTILITIES.h:277-283 | The difference in nanoseconds |
| TimeSpec.NormalFormNeeded | ACM-src/include/ACM/USER/ACM_UTILITIES.h:319-331 | A value is compared rightly with every instant in normal form if and only if it is in normal form itself |

## Left out

- Default state actions: the identifier is overwritten on the way back up, so nothing is promised about them.
- Transition actions, during actions and the clearing of time-outs: calls to the data source between the modelled ones that change no pointer.
- Null initial or current states: every region of a chart in the model has an initial state.
- RwLock.RwLockSem.WriteLock: shown without interference and with a wait that times out at once; interleaved acquisition is covered by the step relation, in which taking a lock for writing and noting it in the list is one step.
- RwLock.RwLockSem.ReadLock: a wait is decided at once by the counter; that other processes step in while it lasts is covered by the step relation.
- LockLists.LockTable.ReadLockSemaphore: the same.
- LockLists.LockTable.WriteLockSemaphore: the same, for every token it collects.
- LockLists.TableStep: a caller that is not one of the partition's processes, whose lock is then not listed, is not modelled.
- Buffer.ApexBuffer.SendMessage: shown without interference between its steps; interleavings are covered by the step relation. A length larger than a slot, which the source does not check, is excluded.
- Buffer.ApexBuffer.ReceiveMessage: shown without interference between its steps.
- Buffer.ApexBuffer.GetBufferStatus: the count of waiting processes is not modelled.
- Inter-module buffers and the copy of messages through internal buffers of queues: messages are values.
- Scheduling.StepInv: SUSPEND, RESUME, priorities, events and health manager services are not modelled; DELAYED_START is one step.
- SchedulerLoop.Scan: the vector is assumed to be sorted as intended; the sort itself is not modelled.
- SchedulerLoop.ProcessDescriptor.StartDelayed: one step, with no pass of the scheduler between its assignments.
- Barrier.RoundsNotConfused: sockets are not modelled; a receive that fails with a stale error number, and a receive buffer that already holds the parent's name, are excluded.
- Schedule.ModuleManager.RunSystem: runs that are interrupted, and sends that fail, are not modelled.
- Schedule.ModuleManager.RunPartition: signals take effect at once, and failed sends of the network partition's token are not modelled.
- Channel.MessageQueue.SendMessage: a wait with a time-out ends without room being made; a wait without bound is excluded on a full queue.
- Channel.MessageQueue.ReceiveMessage: the same, on an empty queue.
- Channel.QueueChannel.MoveMessages: the branches that read from or write to sockets are not modelled.
- TimeSpec.AddNanoExactly: the width of the source's integers is not modelled.
- Discovery of network latency, whose only call is commented out.
- Blackboards, events, sampling ports and channels, state variable checkpoints, configuration files and logging: mostly single checks, or foreign calls.
- Liveness that depends on condition variables or on fair scheduling.
