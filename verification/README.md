# Verified models of the concurrent protocols, buffers, lists and walks

This project models the small C programs of the repository that hold its algorithms, and
proves what they keep, over every input, every schedule and every run:

- a **reference-counted hash table** under two locks (`mutex2.c`) and under one (`mutex3.c`);
- the **System V semaphore wrapper** (`semaph.c`) with the kernel's rules for `semop()` and
  `semctl()` in section 3 of POSIX.1-2008, System Interfaces;
- **bounded buffers** on counting semaphores, with a mutex (`semaphone_and_mutex.c`) and
  without (`semaphone.c`, `semaphone_test2_atomic.c`);
- the **directory walk** over one growing path buffer (`ftw8.c`, `pathalloc.c`);
- the bookkeeping of the **select server** (`select/server.c`);
- the **compare-and-swap counter** (`cas_2.c`);
- **sorting by blocks** with a barrier and a merge (`barrier.c`);
- the **line reader** over a buffered descriptor (`wrap.c`);
- the **descriptor-passing protocol** (`sendfd.c`, `senderr.c`, `writen.c`, `recvfd.c`);
- the **doubly linked job queue** (`rwlock.c`);
- the **work list** on a condition variable (`cond_var.c`, `condvar.c`).

## How the models are built

Programs whose point is the interleaving of threads or processes are state machines: a program
counter for every thread, any number of threads, one step for one call on a lock, semaphore or
condition variable or for one access to shared memory. `Next` gives the outcome of a step, `Run`
the sequences of states that some schedule produces, and the theorems speak of every state of
every run. Memory is sequentially consistent and the lock operations are atomic. Where a pointer
is followed, touching a node that is not live is a `Fault`, and absence of faults is a theorem.

Programs that change arrays, buffers and linked objects step by step inside one thread are
classes, arrays and loops, each proved against a function of its inputs or of its old state; what
the program promises is then proved of that function.

| files | what they hold |
|---|---|
| `TableSpec`, `OneLockTable`, `TwoLockTable` | the atomic table, the linked table under one lock, the step machine under two |
| `TwoLockInvariant`, `TwoLockSteps`, `TwoLockPreserved` | the invariant of the two-lock table and its proof, thread-local facts first |
| `TwoLockSafety`, `TwoLockProgress`, `TwoLockLive`, `TwoLockRefinement`, `TwoLockAlloc` | what follows: ownership, no use after free, no deadlock, bounded operations, no leak, refinement of the atomic table, what an allocation returns |
| `SemSet`, `SemSetInvariant`, `SemSetTheorems`, `SemSetCalls`, `SemSetWitness` | the semaphore wrapper, what it keeps, what each call does and waits for, and runs in which a promise fails |
| `BoundedBuffer`, `SpscRing` | the rings |
| `TreeWalk`, `SelectServer`, `CasCounter`, `LineReader`, `FdProtocol`, `JobQueue` | one program each |
| `BlockMerge`, `BlockMergeLeft`, `BlockMergeLoop`, `BlockBarrier` | the state of the merge, its leftover index, its loops, and the threads around it |
| `WorkList`, `WorkListTheorems`, `WorkListNodes`, `WorkListOrder`, `WorkListEnd` | the work list, its invariant, its live nodes and what is pushed, its order, and where its runs end |
| `Prelude` | sums, sequences and ring positions |

Some results say that a program does less than one would like, and exactly when it does it all:

- `sem_close` removes a set that somebody has open in some runs as soon as any process joins with
  `sem_open`, and in none otherwise (`RemovalSafeIff`; `LateIsRun` is such a run).
- `sem_create`'s test for an uninitialised set is right exactly while fewer than `BIGCOUNT` opens
  are outstanding (`CheckDecides`); `ReinitialisesInUse` is a run that reaches `BIGCOUNT` opens and
  then initialises the set again while it is in use, and `BalancedIff` says that this is the first
  bound at which it goes wrong. An exit changes the semaphore's value plus its adjustments exactly
  when its undo would take the value below zero (`ExitAccount`); `LosesValue` is such a run.
- The merge has a round in which `minidx` is not set exactly when some number is `LONG_MAX`. For
  sorted blocks it still ends well, reading no position outside a block it takes from, exactly when
  every `LONG_MAX` lies in the last block that holds the greatest other number; and if it ends well,
  its output is sorted exactly when the blocks were (`Merge`).
- One doubling of the path buffer is enough for every path exactly when the buffer has more than
  `NAME_MAX` bytes (`DoublingSuffices`).
- `recv_fd` ends the process unless the two bytes of the trailer arrive in one piece (`RoundTrip`), and
  an error code comes back as itself exactly when it lies between -255 and -1 (`ErrorCode`).
- `Readline` returns `maxlen` on a line cut short although it stores `maxlen - 1` bytes (`Readline`).
- A pass of the select server writes outside its descriptor set exactly when the listener is ready and
  the new descriptor is `FD_SETSIZE` or more (`Pass`). Its guard against too many clients does not
  prevent this: until then there is always a free slot (`FreeSlot`, `OverrunExample`).

## Model

| member | source | states |
|---|---|---|
| TableSpec.FirstMatchIsNewest | APUE/11.threads/mutex3.c:57-62 | the chain search yields the first object with the identifier, newest first, or none |
| TableSpec.FirstMatchSound | APUE/11.threads/mutex3.c:57-62 | what the search yields is in the chain, has the identifier, and nothing newer has it |
| TableSpec.ReleaseWellFormed | APUE/11.threads/mutex3.c:67-90 | the last release removes the object from the table and from every chain |
| TableSpec.PerformsWellFormed | APUE/11.threads/mutex3.c:18-90 | every operation keeps chains duplicate-free, in their buckets and exactly over the live objects |
| OneLockTable.FooTable.constructor | APUE/11.threads/mutex3.c:7-8 | the linked table starts as the empty atomic one |
| OneLockTable.FooTable.Alloc | APUE/11.threads/mutex3.c:18-41 | the new object is counted once, is the newest of its chain and the one found for its identifier, with its own mutex free again; a release would undo the call; nothing changes when allocation fails |
| OneLockTable.FooTable.Hold | APUE/11.threads/mutex3.c:43-49 | exactly one count of one object goes up, and a release would undo it |
| OneLockTable.FooTable.Find | APUE/11.threads/mutex3.c:51-65 | returns the newest match with a reference added, or null and no change when there is none |
| OneLockTable.FooTable.Rele | APUE/11.threads/mutex3.c:67-90 | gives up one reference; with the last one exactly this object is unlinked and freed, its mutex free |
| OneLockTable.FooTable.Unlink | APUE/11.threads/mutex3.c:75-83 | takes the object out of its chain and changes no count and no other link |
| OneLockTable.FooTable.FindBefore | APUE/11.threads/mutex3.c:80-81 | the search for the predecessor ends, at the object before the given one |
| OneLockTable.LinkedUnlink | APUE/11.threads/mutex3.c:75-83 | relinking around the k-th object spells out the chain without it |
| TwoLockPreserved.MoveKeepsInv | APUE/11.threads/mutex2.c:19-104 | every step of every operation keeps the invariant of the two-lock table |
| TwoLockPreserved.NoFault | APUE/11.threads/mutex2.c:19-104 | no step from a state with the invariant touches dead memory or misuses a lock |
| TwoLockSafety.Reachable | APUE/11.threads/mutex2.c:19-104 | every state of every run, for any number of threads, has the invariant |
| TwoLockSafety.CountsAreReferences | APUE/11.threads/mutex2.c:19-104 | f_count is the number of references owned, one being released in the gap included; no two threads are in the gap for one object |
| TwoLockSafety.UsesAreLive | APUE/11.threads/mutex2.c:33-103 | an object an operation works on is live, and owned, locked or in the table |
| TwoLockSafety.FreeIsFinal | APUE/11.threads/mutex2.c:96-99 | an object is freed by its sole owner, unlinked and unlocked, and no other thread can reach it |
| TwoLockSafety.RunsDoNotFault | APUE/11.threads/mutex2.c:19-104 | no run uses freed memory, unlocks a lock it does not hold or destroys a held one |
| TwoLockSafety.OnlyLocksBlock | APUE/11.threads/mutex2.c:33-104 | a thread inside an operation is held up only by a lock that another thread holds |
| TwoLockSafety.LockOrder | APUE/11.threads/mutex2.c:33-37 | nobody waits for the table lock or an object lock while holding an object lock |
| TwoLockSafety.DeadlockFree | APUE/11.threads/mutex2.c:19-104 | with any operation unfinished, some thread can step |
| TwoLockSafety.StepsDescend | APUE/11.threads/mutex2.c:58-63 | every step of a thread shortens what is left of its operation, so both chain walks end |
| TwoLockProgress.OthersDoNotDelay | APUE/11.threads/mutex2.c:92-93 | no step, call or handover of another thread lengthens it again |
| TwoLockProgress.OwnStepsBounded | APUE/11.threads/mutex2.c:19-104 | in every run a thread takes, inside one operation, at most 14 steps and one for each object live at a time, whatever the others do |
| TwoLockLive.LiveObjects | APUE/11.threads/mutex2.c:19-104 | the live objects are exactly those of the table and those one thread is making or, having unlinked them, about to free: nothing leaks |
| TwoLockRefinement.MoveRefines | APUE/11.threads/mutex2.c:33-102 | each step is one atomic operation taking effect with its result, or nothing seen from outside |
| TwoLockRefinement.StepRefines | APUE/11.threads/mutex2.c:33-102 | the same for calls and for handing references on |
| TwoLockRefinement.RunRefines | APUE/11.threads/mutex2.c:19-104 | every run is a run of the atomic table with the same calls and results |
| TwoLockRefinement.FindTakesEffect | APUE/11.threads/mutex2.c:59-61 | foo_find takes effect when it adds its reference, to the newest match at that moment |
| TwoLockRefinement.UnlinkSpliceTakesEffect | APUE/11.threads/mutex2.c:92-94 | the last foo_rele takes effect when it bypasses the object |
| TwoLockRefinement.FoundIsOwned | APUE/11.threads/mutex2.c:52-66 | what foo_find hands back is live and owned by its caller |
| TwoLockAlloc.AlwaysObtains | APUE/11.threads/mutex2.c:25-32 | a thread that asks for memory is given an unused address with its mutex, or nothing |
| TwoLockAlloc.AllocReturns | APUE/11.threads/mutex2.c:19-42 | in every run foo_alloc returns null if and only if malloc or the mutex failed; otherwise the new object, owned by the caller and put in the table, counted once, at one step of the call |
| TwoLockAlloc.EffectBetween | APUE/11.threads/mutex2.c:19-104 | between the call of any operation and its return its caller takes one step at which the atomic table performs it with the result returned |
| TwoLockAlloc.AllocThenFind | APUE/11.threads/mutex2.c:19-66 | for every identifier a run in which a foo_find after a foo_alloc returns the object allocated |
| SemSetInvariant.SemOpConserves | APUE/lib/semaph.c:49-81 | an array whose changes all have SEM_UNDO keeps value plus the caller's adjustment of every member |
| SemSetInvariant.SemOpNonNegative | APUE/lib/semaph.c:49-81 | no operation array takes a member below zero |
| SemSetInvariant.LockEffect | APUE/lib/semaph.c:49-54 | op_lock goes through exactly when [2] is 0, and makes it 1 with undo |
| SemSetInvariant.EndCreateEffect | APUE/lib/semaph.c:56-61 | op_endcreate counts the caller in and unlocks, both or neither |
| SemSetInvariant.CloseEffect | APUE/lib/semaph.c:67-71 | op_close locks and counts the caller out, both or neither |
| SemSetInvariant.CheckDecides | APUE/lib/semaph.c:135-138 | [1] equal to 0 tells whether the set is uninitialised exactly while fewer than BIGCOUNT opens are outstanding |
| SemSetInvariant.CloseKeeps | APUE/lib/semaph.c:243-252 | the end of sem_close keeps the invariant and never takes the abort |
| SemSetInvariant.StepKeeps | APUE/lib/semaph.c:89-291 | every system call, every call of a routine and every exit keeps the invariant |
| SemSetInvariant.Reachable | APUE/lib/semaph.c:89-291 | so it holds in every state of every run |
| SemSetTheorems.AccountBalances | APUE/lib/semaph.c:49-75 | [1] plus all adjustments for it stays BIGCOUNT, so [1] is BIGCOUNT less the opens outstanding and "sem[1] > BIGCOUNT" is unreachable |
| SemSetTheorems.LockIsExclusive | APUE/lib/semaph.c:124-159 | [2] is 0 or 1 and at most one process is in a locked section, during which it is 1 |
| SemSetTheorems.LockFreeWhenNobodyIn | APUE/lib/semaph.c:232-252 | [2] is 0 when nobody is in one |
| SemSetTheorems.ExitReleasesLock | APUE/lib/semaph.c:49-54 | an exit inside a locked section frees the lock |
| SemSetTheorems.InitialisationSets | APUE/lib/semaph.c:138-153 | initialisation leaves the caller's value in [0], BIGCOUNT in [1], the lock held and nothing to undo for either |
| SemSetTheorems.ValueKept | APUE/lib/semaph.c:138-153 | after that no step, and no later create, changes [0] plus its adjustments, short of an exit that clamps |
| SemSetTheorems.ExitAccount | APUE/lib/semaph.c:77-81 | an exit keeps that total exactly when its undo does not go below zero |
| SemSetTheorems.RemovalSafe | APUE/lib/semaph.c:222-253 | with users joining through sem_create only, a set about to be removed by sem_close has no user |
| SemSetCalls.CloseEnds | APUE/lib/semaph.c:222-253 | in every run a sem_close that returns has locked and counted itself out in one step; if nobody had the set open at its check the set is gone and every adjustment cleared, and [1] was BIGCOUNT; else [1] was less and the set stays, unlocked, with its other members as they were |
| SemSetCalls.ClosesInitialisedAlways | APUE/lib/semaph.c:243-250 | the set a sem_close checks has been initialised |
| SemSetCalls.RmEnds | APUE/lib/semaph.c:207-212 | sem_rm removes the set and all adjustments for it, whoever uses it, and changes nothing else |
| SemSetCalls.OpenEnds | APUE/lib/semaph.c:185-196 | sem_open returns with one taken from [1] and the set open, or has found no set and changed nothing |
| SemSetCalls.CreateEnds | APUE/lib/semaph.c:159-162 | sem_create returns with the set initialised, one taken from [1], the lock free and the set open |
| SemSetCalls.OperateEnds | APUE/lib/semaph.c:283-291 | sem_op returns with the amount added to [0], which stays non-negative, and taken from what an exit would undo |
| SemSetCalls.WaitsIff | APUE/lib/semaph.c:124-291 | a call waits exactly for the lock, for [1] above 0 in sem_open, or for [0] to be large enough in sem_op |
| SemSetCalls.LockHolderMoves | APUE/lib/semaph.c:124-159 | whoever has the lock can go on |
| SemSetCalls.InitialisedInRuns | APUE/lib/semaph.c:146-153 | whatever others do between the two SETVAL calls, the set then holds the caller's value, BIGCOUNT and the lock, with nothing to undo on [0] or [1] |
| SemSetCalls.CreateCanFinish | APUE/lib/semaph.c:105-162 | every run in which a process is about to get or lock a set goes on so that its sem_create returns with the current set open, also when the set it got first is gone |
| SemSetWitness.LateIsRun | APUE/lib/semaph.c:193 | a run in which sem_open comes between the check and the removal; the set is removed and a process has open a set that is gone |
| SemSetWitness.RemovalSafeIff | APUE/lib/semaph.c:174-253 | removal is safe in all runs if and only if sem_open is not used |
| SemSetWitness.Reopen | APUE/lib/semaph.c:89-163 | for every number of opens up to BIGCOUNT there is a run that reaches it |
| SemSetWitness.ReinitialisesInUse | APUE/lib/semaph.c:135-153 | a run with BIGCOUNT opens in which the next sem_create takes the set for a new one: the value is set anew and [1] no longer counts the users |
| SemSetWitness.BalancedIff | APUE/lib/semaph.c:43 | [1] counts the users in all runs with fewer than n opens at once if and only if n is at most BIGCOUNT |
| SemSetWitness.LosesValue | APUE/lib/semaph.c:77-81 | a run of two processes in which an exit, its undo clamped at zero, changes the value plus its adjustments |
| BoundedBuffer.Reachable | linux_system_programming/09.thread_sync/semaphone_and_mutex.c:26-82 | every reachable state has the invariant, for any numbers of producers and consumers |
| BoundedBuffer.PermitMeansRoom | linux_system_programming/09.thread_sync/semaphone_and_mutex.c:33-61 | a producer with a permit finds a free slot, a consumer with one finds an item |
| BoundedBuffer.StepRefinesQueue | linux_system_programming/09.thread_sync/semaphone_and_mutex.c:39-70 | each step appends one item to a bounded queue, takes its oldest, or leaves it alone |
| BoundedBuffer.QueueInRing | linux_system_programming/09.thread_sync/semaphone_and_mutex.c:39-70 | items taken are a prefix of items put, the rest lie in consecutive slots, and in = (out + count) mod BUFFER_SIZE with 0 <= count <= BUFFER_SIZE |
| BoundedBuffer.PutIsMade | linux_system_programming/09.thread_sync/semaphone_and_mutex.c:30-39 | what a producer writes is the item it made up for this iteration |
| BoundedBuffer.PermitsBalance | linux_system_programming/09.thread_sync/semaphone_and_mutex.c:28-79 | empty + full + threads holding a permit = BUFFER_SIZE always |
| BoundedBuffer.NeverStuck | linux_system_programming/09.thread_sync/semaphone_and_mutex.c:90-104 | with equal quotas, whenever a thread is unfinished some thread can step |
| BoundedBuffer.RunsEnd | linux_system_programming/09.thread_sync/semaphone_and_mutex.c:28-79 | every step uses one unit of a finite amount of work, whatever the schedule |
| BoundedBuffer.EndsEmpty | linux_system_programming/09.thread_sync/semaphone_and_mutex.c:100-104 | once all have finished, as many items were put as the producers set out to make, all of them were taken and the buffer is empty |
| SpscRing.SlotsExclusive | linux_system_programming/09.thread_sync/semaphone.c:22-38 | the slot being written is never the one being read or cleared |
| SpscRing.RingIsQueue | linux_system_programming/09.thread_sync/semaphone.c:19-41 | items come out in the order they went in, at most NUM wait, the slot read holds the oldest |
| SpscRing.SomebodyMoves | linux_system_programming/09.thread_sync/semaphone.c:22-37 | producer and consumer never wait for each other |
| SpscRing.ConsumedSlotsAreZero | linux_system_programming/09.thread_sync/semaphone.c:35-36 | a slot holds 0 unless an item waits in it or it is just being cleared |
| SpscRing.ItemsAreMade | linux_system_programming/09.thread_sync/semaphone.c:22-35 | the consumer takes what the producer made up at its writes, oldest first, and nothing else |
| SpscAtomicRing.RingIsQueue | linux_system_programming/09.thread_sync/semaphone_test2_atomic.c:25-59 | the same with counters that only grow, reduced modulo the size |
| SpscAtomicRing.ItemsAreMade | linux_system_programming/09.thread_sync/semaphone_test2_atomic.c:27-49 | the consumer takes what the producer made up, oldest first |
| SpscAtomicRing.DrainsInTheEnd | linux_system_programming/09.thread_sync/semaphone_test2_atomic.c:26-57 | neither can move only when both loops are done, the whole quota was produced and everything produced was consumed |
| CasCounter.ExactTotal | basic/cas_compare_and_swap/cas_2.c:14-26 | the sum is the number of completed increments, at most N*M, and N*M at the end |
| CasCounter.StepDescends | basic/cas_compare_and_swap/cas_2.c:17-23 | every step of any thread brings the end nearer |
| CasCounter.RunsEnd | basic/cas_compare_and_swap/cas_2.c:17-23 | so every run is finite under any schedule: no livelock |
| CasCounter.StepBound | basic/cas_compare_and_swap/cas_2.c:17-23 | at most 3*N*N*M + 2*N steps |
| CasCounter.StopsOnlyWhenDone | basic/cas_compare_and_swap/cas_2.c:28-42 | a run that cannot go on has the exact total |
| CasCounter.FailureMeansProgress | basic/cas_compare_and_swap/cas_2.c:19-22 | a swap fails after a fresh read only if another thread's succeeded in between |
| TreeWalk.VisitStopsAtFirst | APUE/04.filedir/ftw/ftw8.c:84-120 | the calls made are a prefix of the preorder listing, ended by the first nonzero result, which is returned |
| TreeWalk.DirListing | APUE/04.filedir/ftw/ftw8.c:108-115 | below a readable directory exactly the entries named neither "." nor ".." are listed, each under its own path, in entry order |
| TreeWalk.FirstCall | APUE/04.filedir/ftw/ftw8.c:84-106 | a node is listed first under its own path, as not stat'ed, as a file of its kind or as a directory; the former two have no other call, an unreadable directory only its mark |
| TreeWalk.TalliedByType | APUE/04.filedir/ftw/ftw8.c:126-141 | each of the seven counters goes up by the number of calls of its own type |
| TreeWalk.CountsStatable | APUE/04.filedir/ftw/ftw8.c:123-152 | the seven counters add up to the nodes that could be stat'ed |
| TreeWalk.FullWalkCounts | APUE/04.filedir/ftw/ftw8.c:22-24 | with a function that never stops the walk the whole listing is called, each counter is the number of its calls in it, and the total is that of the tree |
| TreeWalk.DoublingSuffices | APUE/04.filedir/ftw/ftw8.c:96-101 | doubling once makes room for the slash and a longest name exactly when the buffer has more than NAME_MAX bytes |
| TreeWalk.PathLimits.PathAlloc | APUE/lib/pathalloc.c:17-56 | the size is that of the system's limit plus one, or the guess, with one byte more exactly before POSIX.1-2001 and XPG4; the answers are kept for later calls; above NAME_MAX on conforming systems |
| TreeWalk.Walker.Dopath | APUE/04.filedir/ftw/ftw8.c:76-121 | the recursion makes exactly the calls of the listing and returns their result; the caller's path survives reallocation, with a slash left after an unreadable directory |
| TreeWalk.Walker.WalkEntries | APUE/04.filedir/ftw/ftw8.c:108-115 | the loop over a directory makes the calls of its entries, "." and ".." skipped, and keeps the prefix |
| TreeWalk.Walker.AppendSlash | APUE/04.filedir/ftw/ftw8.c:96-103 | after it the buffer holds the path and a slash, with room for any name |
| TreeWalk.Walker.Strcpy | APUE/04.filedir/ftw/ftw8.c:112 | every byte written lies in the buffer and the part before is kept |
| TreeWalk.Walker.Myftw | APUE/04.filedir/ftw/ftw8.c:56-68 | the walk from any starting pathname makes the calls of the listing and counts them |
| SelectServer.Server.constructor | linux_system_programming/12.high_concurrency_server/select/server.c:42-49 | the server starts consistent, watching the listener only |
| SelectServer.Server.FindSlot | linux_system_programming/12.high_concurrency_server/select/server.c:66-72 | finds the first free slot, or that there is none |
| SelectServer.Server.AcceptClient | linux_system_programming/12.high_concurrency_server/select/server.c:60-86 | the connection takes the first free slot, which there always is; FD_SET overruns the set exactly when the descriptor is FD_SETSIZE or more; otherwise it is watched, with maxi and maxfd the new maxima |
| SelectServer.Server.ServeClients | linux_system_programming/12.high_concurrency_server/select/server.c:91-109 | every ready client is served in table order, exactly those at end of file are dropped from table and set |
| SelectServer.Server.Pass | linux_system_programming/12.high_concurrency_server/select/server.c:52-110 | a pass overruns the set if and only if the listener is ready and the new descriptor is FD_SETSIZE or more, and never gives up before; otherwise it serves every descriptor marked ready exactly once, afterwards watches the new connection and no client that was ready at end of file, and the table, maxi and maxfd are, slot by slot, what that means |
| SelectServer.Server.Run | linux_system_programming/12.high_concurrency_server/select/server.c:51-110 | the same over any number of passes: every pass has what the system calls give for the descriptors watched then, each is served once, and only the last may overrun the set |
| SelectServer.NoneLeft | linux_system_programming/12.high_concurrency_server/select/server.c:106-107 | when the countdown or maxi stops the loop no ready client is left |
| SelectServer.ReadyInOnce | linux_system_programming/12.high_concurrency_server/select/server.c:91-109 | with distinct entries each ready client occurs once |
| SelectServer.InsertConsistent | linux_system_programming/12.high_concurrency_server/select/server.c:66-86 | adding a client keeps entries distinct, watched and bounded by maxi and maxfd |
| SelectServer.DropConsistent | linux_system_programming/12.high_concurrency_server/select/server.c:95-99 | dropping clients removes exactly them from the watched set |
| SelectServer.FreeSlot | linux_system_programming/12.high_concurrency_server/select/server.c:74-78 | while all watched descriptors are below FD_SETSIZE there is a free slot, so the "too many clients" exit is not reached |
| SelectServer.OverrunExample | linux_system_programming/12.high_concurrency_server/select/server.c:79 | a consistent server with every slot free and an input that overruns the set |
| BlockMergeLoop.Merge | APUE/11.threads/barrier.c:59-78 | a round is without a minimum exactly when some number is LONG_MAX; for sorted blocks all is written from inside the blocks if and only if every LONG_MAX lies in the last block that holds the greatest other number; what is written is then a permutation, sorted exactly when all blocks are |
| BlockMergeLoop.Round | APUE/11.threads/barrier.c:68-77 | one round writes the head of one block, a least one, and moves that index on by one; or it takes from a block never chosen or used up |
| BlockMergeLoop.Scan | APUE/11.threads/barrier.c:68-74 | the scan reads inside the blocks only and sets minidx afresh, to the first of the least heads, exactly when some head is below LONG_MAX |
| BlockMerge.TakeLeast | APUE/11.threads/barrier.c:68-76 | taking a least head keeps what is written sorted and a permutation of what is consumed |
| BlockMerge.SomeHead | APUE/11.threads/barrier.c:67-77 | before the last number is written some block is not used up |
| BlockMerge.MergeDone | APUE/11.threads/barrier.c:67-77 | after the last one every block is used up and the output is the input in another order |
| BlockMergeLeft.LatestNext | APUE/11.threads/barrier.c:69-76 | the block taken from last holds the greatest number taken, and no block behind it does |
| BlockMergeLeft.LatestLeaves | APUE/11.threads/barrier.c:70-75 | when no head is below LONG_MAX the leftover index is that of the last block with the greatest number below it |
| BlockMergeLeft.LeftAtOutside | APUE/11.threads/barrier.c:75 | a leftover block that is used up while another has a head means that not every LONG_MAX was in it |
| BlockMergeLeft.NeverBelow | APUE/11.threads/barrier.c:62-75 | a first round without a minimum means that every number is LONG_MAX |
| BlockBarrier.OrderedIsSorted | APUE/11.threads/barrier.c:25-37 | being in order by complong is being sorted |
| BlockBarrier.PastMeansSorted | APUE/11.threads/barrier.c:43-54 | once any thread is through the barrier every block is sorted, the numbers are the original ones, and they stay so for the rest of the run |
| BlockBarrier.NobodyStuck | APUE/11.threads/barrier.c:90-107 | when nobody is still sorting every waiting thread can pass |
| BlockBarrier.MergeAfterBarrier | APUE/11.threads/barrier.c:101-108 | the merge after the barrier writes the original numbers in order, unless some LONG_MAX lies outside the block last taken from |
| LineReader.LinesSplit | linux_system_programming/11.socket/error_handling/wrap.c:141-158 | the splitter loses nothing and cuts only after newlines, at the limit or at the end |
| LineReader.OnlySplit | linux_system_programming/11.socket/error_handling/wrap.c:141-158 | no other way of cutting does that |
| LineReader.Reader.Fill | linux_system_programming/11.socket/error_handling/wrap.c:124-135 | refilling repeats after every signal and fails exactly when another error is next |
| LineReader.Reader.MyRead | linux_system_programming/11.socket/error_handling/wrap.c:119-139 | hands out the next byte of the stream, 0 only at its end, and loses nothing on an error |
| LineReader.Reader.Readline | linux_system_programming/11.socket/error_handling/wrap.c:141-158 | delivers the next line whatever pieces read gives; delivered and pending bytes are the stream even on an error; the result is maxlen on a cut line |
| LineReader.Reader.ReadLines | linux_system_programming/11.socket/error_handling/wrap.c:141-158 | successive calls deliver exactly the lines of the unbuffered splitter |
| LineReader.Readn | linux_system_programming/11.socket/error_handling/wrap.c:80-98 | reads exactly n bytes unless the stream ends, whatever the pieces and signals |
| LineReader.Writen | linux_system_programming/11.socket/error_handling/wrap.c:100-117 | writes all, or fails with a proper prefix written |
| FdProtocol.Writen | APUE/lib/writen.c:3-23 | puts out exactly a prefix of the data, as long as what the writes took up to the first that fails, takes nothing or completes it; -1 only when the first of them fails |
| FdProtocol.AllTaken | APUE/lib/writen.c:10-22 | when no write fails or takes nothing all is written; it stops short only right after one that does, with the bytes of those before it |
| FdProtocol.TookOnce | APUE/lib/writen.c:10-22 | how much is written, and which writes remain, is determined by what the writes do |
| FdProtocol.SendFd | APUE/lib/sendfd.c:13-49 | succeeds exactly when the control buffer could be had, if needed, and the message could be sent; then the two-byte trailer with the file beside it, and nothing else, goes out |
| FdProtocol.SendErr | APUE/lib/senderr.c:8-24 | succeeds exactly when the whole text and then the whole trailer could be sent; text and trailer go out, on failure a proper prefix of them; never a file |
| FdProtocol.KindIs | APUE/lib/recvfd.c:54-58 | an arrival is text if and only if it has no null byte, and final if and only if its first null is its next to last byte, the status being its last |
| FdProtocol.ReceiveMeans | APUE/lib/recvfd.c:30-73 | for all arrivals: text is passed on until the first that is none, and the call returns the descriptor or minus the status, -1 or ends the process as the bytes of that one say |
| FdProtocol.Scan | APUE/lib/recvfd.c:54-68 | the loop over one arrival finds text, a final trailer or a bad message, and cuts the trailer off |
| FdProtocol.RecvFd | APUE/lib/recvfd.c:21-74 | without a control buffer -1 and no text; with one the result and the text handed to userfunc are those of the protocol's receiver |
| FdProtocol.ReceiveFrom | APUE/lib/recvfd.c:30-73 | from any point of the text the rest is received, in any pieces |
| FdProtocol.RoundTrip | APUE/lib/recvfd.c:48-73 | exactly the text and the descriptor, or minus the status, arrive if and only if the trailer is not split; otherwise the process ends |
| FdProtocol.ErrorCode | APUE/lib/sendfd.c:27-32 | a code arrives as minus its value modulo 256, with 0 turned into -1; unchanged exactly between -255 and -1 |
| JobQueue.Queue.constructor | APUE/11.threads/rwlock.c:20-32 | the queue starts empty |
| JobQueue.Queue.Insert | APUE/11.threads/rwlock.c:37-49 | puts the job in front of all others; removing it would undo that |
| JobQueue.Queue.Append | APUE/11.threads/rwlock.c:54-66 | puts it behind all others; removing it would undo that |
| JobQueue.Queue.Remove | APUE/11.threads/rwlock.c:71-89 | takes out exactly this job, from either end or between neighbours |
| JobQueue.Queue.Find | APUE/11.threads/rwlock.c:94-108 | returns the first job for the identifier, null when there is none or the lock fails |
| JobQueue.LinkedInsert | APUE/11.threads/rwlock.c:41-47 | the link changes of an insertion spell out the longer queue, both ways |
| JobQueue.LinkedAppend | APUE/11.threads/rwlock.c:58-64 | so do those of an append |
| JobQueue.LinkedRemove | APUE/11.threads/rwlock.c:75-87 | and those of a removal the shorter one |
| JobQueue.LinkedOnce | APUE/11.threads/rwlock.c:12-15 | links and ends determine the sequence: next and prev are inverse, no job comes twice, and walking from either end meets them all in order |
| JobQueue.FirstForIsFirst | APUE/11.threads/rwlock.c:102-104 | nothing before the job found has the identifier |
| WorkListTheorems.GoKeeps | APUE/11.threads/condvar.c:14-38 | no step is a fault and every step keeps the invariant, with the list changed at its head only |
| WorkListTheorems.TakeKeeps | APUE/11.threads/condvar.c:23-24 | a worker takes the newest node, and only that |
| WorkListOrder.RunRefinesStack | APUE/11.threads/condvar.c:14-38 | every run is one of a stack: the numbers taken, in order, are those a stack gives out under the same pushes and pops, and the list holds what is left |
| WorkListOrder.StepIsStack | APUE/11.threads/condvar.c:23-34 | every step pushes one number, pops the newest, or leaves the stack alone |
| WorkListTheorems.NoFault | linux_system_programming/09.thread_sync/cond_var.c:22-50 | no thread touches a freed node, frees one twice or unlocks what it does not hold |
| WorkListTheorems.WakeupNotLost | linux_system_programming/09.thread_sync/cond_var.c:25-47 | while the list is not empty some worker is not asleep or some producer has yet to signal |
| WorkListTheorems.TakenIsOwned | linux_system_programming/09.thread_sync/cond_var.c:28-32 | a node taken is in no list and no other thread's until its taker is done with it, and unchanged |
| WorkListNodes.LiveNodes | linux_system_programming/09.thread_sync/cond_var.c:22-50 | the live nodes are exactly those in the list and those a producer is preparing or a worker has taken and not freed yet |
| WorkListNodes.NothingFreed | APUE/11.threads/condvar.c:14-28 | where messages are not freed none ever goes |
| WorkListNodes.PushedIsMade | linux_system_programming/09.thread_sync/cond_var.c:40-45 | the number pushed is the one the producer chose for this node |
| WorkListNodes.AllPushed | linux_system_programming/09.thread_sync/cond_var.c:22-50 | where nobody can go on every producer has pushed its whole quota, and with a worker all of it was taken |
| WorkListTheorems.StuckMeansDone | linux_system_programming/09.thread_sync/cond_var.c:22-50 | where nobody can go on, producers are done, workers asleep, the list is empty and pushed equals taken |
| WorkListEnd.StepDescends | APUE/11.threads/condvar.c:14-38 | every step but a spurious wakeup brings the end nearer, whoever takes it |
| WorkListEnd.RunsEnd | APUE/11.threads/condvar.c:14-38 | a run is no longer than its producers' quotas and its spurious wakeups allow, without any fairness |

## Left out

- TwoLockSafety.CountsAreReferences: assumes, as the program does, that only an owner of a reference calls foo_hold or foo_rele; idle threads may hand references on.
- OneLockTable.FooTable.Rele: the one-lock operations are atomic calls, since each runs under the table lock apart from filling a private object and freeing an unlinked one.
- TwoLockProgress.OwnStepsBounded: bounds a thread's own steps; how long it waits for a lock depends on the schedule.
- SemSetTheorems.AccountBalances: assumes fewer than BIGCOUNT opens at once, which SemSetWitness.BalancedIff shows to be needed, and that a process closes or operates on a set only while it has it open; the order in which blocked processes are woken does not matter and is any.
- SemSetTheorems.ValueKept: a value that would exceed the kernel's maximum in semop() (ERANGE) is not modelled; SETVAL's range check is.
- SemSetTheorems.RemovalSafe: speaks of the removal inside sem_close; sem_rm called by a user removes the set regardless, as its comment says, and is a step of the model. A process whose blocked lock call ends because the set is removed starts again here; with an error number other than EINVAL the program would exit, which the exit possible at every step covers.
- SemSet: the rejected keys IPC_PRIVATE and -1, permission failures of semget() and the error texts are not modelled; one key is.
- BoundedBuffer.QueueInRing: the printing and the sleeps are no steps; quotas are any number for each thread instead of five for two threads of each kind.
- SpscAtomicRing.RingIsQueue: the counters in and out are unbounded integers; the program stops at PRODUCE_COUNT, far from wrap-around. A production quota of any size stands for it.
- CasCounter.ExactTotal: the sum is an unbounded integer; the bound N*M proved for it is ten million in the program, inside an int.
- TreeWalk.Walker.Dopath: file names are at most NAME_MAX long and hold no null byte, as the system guarantees; the tree does not change during the walk; a failing realloc or closedir and the percentages printed are not modelled.
- TreeWalk.Walker.CallFunc: the user's function is any function of the calls so far; the counting of myfunc is folded into the call, and its abort for a directory passed as a plain file cannot arise since the types come from one lstat.
- SelectServer.Server.ServeClients: upper-casing and writing back are one service step; a read that fails is served like one that returns data, as in the program.
- SelectServer.Server.Run: a failing select or accept ends the program and is not modelled; the loop ends at a pass that overruns the set, as what the program does then is undefined.
- SelectServer.Server.constructor: the listening descriptor is below FD_SETSIZE.
- BlockMergeLoop.Merge: numbers are unbounded integers up to LONG_MAX; at a round that takes from a block never chosen or used up the model stops, as what the program reads then is not a number of that block. For blocks that are not sorted it is not said when this happens.
- BlockBarrier.PastMeansSorted: the sorting routine is a contract: it permutes its own block and returns when complong finds it in order.
- LineReader.Reader.Readline: one descriptor for each reader, since the static buffer is shared between descriptors in the program; mixing Readn with Readline on a descriptor is not modelled.
- LineReader.Readn: read and write are scripts of events, any finite sequence of signals, errors and partial transfers, then full transfers.
- FdProtocol.RoundTrip: one message in flight; the file travels with the first byte of its trailer.
- FdProtocol.RecvFd: userfunc takes all bytes of a call or refuses the call.
- JobQueue.Queue.Remove: the job is a member of the queue, as the program requires; the read-write lock makes each operation one atomic call.
- WorkListOrder.RunRefinesStack: the contents of a message are one number; in condvar.c what happens to a message after its processing is the caller's.
- WorkListEnd.RunsEnd: the producers' endless loops are given any finite quota.
- Weak memory: all shared accesses are sequentially consistent.
- The mutex, semaphore and condition variable calls do not fail except where said.
- The other programs of the repository (daemons, terminal and signal demonstrations, database and configuration wrappers, the poll server and the copies of the files above) are not part of this model.
