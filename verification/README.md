# mulle-thread, verified

A Dafny model of the concurrent protocols that mulle-thread writes by hand: once-initialisation in all its
forms, the recursive mutex over the Windows mutex over a CRITICAL_SECTION, the condition wait that plays
through the mutex's `owner` word, the emulation of thread local storage destructors on Windows, the
timed-wait arithmetic, the compare-and-swap loops, and the two test programs that are real clients of them.

## How it is modelled

Every protocol is a state machine over an arbitrary number of threads. One action is one atomic access (or
one interlocked operation, or one call of a system primitive), so a run is any interleaving at all. A machine
has `Enabled` (what the source, its callers and the platform allow), `Apply` (what the access does) and
`IsRun`. The results are about every state of every run.

Memory is weak where the source leaves it weak. A word is a modification order of messages, and a thread has
a view of how far into it it has seen:

* `owner` and the `_thread_id`s are read without a lock. A read may return any message that is not older than
  what the thread has already seen, which is per-location coherence and nothing else.
* So are `central` and the barrier of the CAS test, and the word of the exchange, whose failing compare-and-swap
  may report a stale value.
* The once word is read and swapped with seq_cst operations. A successful compare-and-swap acts on the newest
  message; a failing one is a load that may be stale; a message carries what its writer had seen of the data
  under initialisation, for recursive flags of the data of every flag, and reading it joins that into the
  reader's view.
* A critical section hands the view of the thread that left it to the thread that enters it.

The modules whose names end in `Code` are the source's functions in the source's own shape: methods with
spin loops, retry loops and nested loops, on a class whose fields they update. They consume a schedule, which
says what the other threads do before each access and which message a read gets, and what they promise holds
for every schedule. A method gives up (`Preempted`) only when the schedule has no slot left. The contracts say
how many slots are enough: one for each access, and more only if the run shows the thread spinning, held up by
another thread, or meeting a failed compare-and-swap. Each class is tied to its machine: it keeps the run that
it has made, `Valid()` says that it is one, and every method promises that the run goes on from where it was,
so that what a contract says of the run is about the memory the caller shares with the other threads.

| file | content |
|---|---|
| ThreadIds.dfy | DWORD thread ids and their sign extension |
| WindowsMutex.dfy, CondWaitCode.dfy | mutex with `owner` over a CRITICAL_SECTION; cond wait and timedwait |
| RecursiveMutex.dfy, RecursiveMutexCode.dfy | the three layers, and their refinement of an atomic reentrant lock |
| Once.dfy, OnceCode.dfy | blocking and non-blocking once functions mixed on one flag |
| OnceMacros.dfy, OnceMacroCode.dfy | the block macros, mixed with the functions |
| OnceRecursive.dfy, OnceRecursiveMacro.dfy, OnceRecursiveCode.dfy | families of recursive once flags, function and macro |
| TssSpec.dfy, DestructorTable.dfy | key histories, destructor table and global counter |
| DestructorRun.dfy | the one-pass destructor run |
| TssInit.dfy | concurrent initialisation of the global |
| TimedWait.dfy | FILETIME and timespec arithmetic |
| AtomicSet.dfy, CasTest.dfy, AtomicCode.dfy | exchange by weak CAS; the CAS test and its barrier |
| CondStress.dfy, CondStressCode.dfy | producers and consumers |
| Words.dfy, Sums.dfy, Scheduling.dfy | machine integers; sums over threads; schedules |

## Premises

The source gives no more than these, and each is visible in an `Enabled`, an `Init` or a `requires`.

* Live threads have distinct, non-zero DWORD ids (`ThreadIds.GoodIds`).
* An init function returns normally (the repository's own README.md, lines 21-25); for a recursive flag it calls only flags of higher rank
  or flags whose init its own thread is running.
* Unlock and condition wait are called by the owner only.
* A strong compare-and-swap is seq_cst and never fails spuriously.
* TSS keys on Windows are not 0 (the assertion at src/mulle-thread-windows.c:123) and `realloc` succeeds.
* A timespec has 0 to 999999999 nanoseconds.

## Where the code does less than one might expect

* `_mulle_atomic_pointer_set` takes a spurious failure of the weak compare-and-swap for a success. It is an
  exchange if and only if the platform's weak compare-and-swap never fails spuriously
  (`AtomicSet.ExchangeNeedsReliableCas`); a particular run conserves values if and only if its spurious
  failures dropped exactly what they handed out again (`AtomicSet.ConservedExactlyIf`).
* `mulle_thread_tss_init` keeps its promise in every run if and only if at most two threads can be in it
  (`TssInit.SafeExactlyForTwo`).
* `mulle_thread_cond_timedwait` honours a deadline to come if and only if it is less than 2^32 - 1 ms away
  (`TimedWait.DeadlineIsHonoured`). At 2^32 - 1 ms the sleep has no end (`FiftyDaysIsForever`), from 2^32 ms on
  the DWORD truncates it (`LongSleepsAreTruncated`), and a deadline 2^63 to 2^64 ns away counts as past
  (`FarDeadlinesLookPast`). A deadline that has passed is answered with 0 up to 2^63 ns back and no further:
  the first one beyond that is slept for (`PastIsOverWithin`).
* The comment at src/mulle-thread-windows.h:221-223 says that a thread that does not own the mutex never
  observes a stale owner. With no more than coherence it does: while it stands before its read, another thread
  locks and unlocks, and it reads that thread's id although nobody owns the mutex any more
  (`WindowsMutex.OutsiderSeesStaleOwner`). Reads of `owner` are never stale if and only if there are no two
  threads (`WindowsMutex.NeverStaleExactlyAlone`). What a non-owner never reads is its own id, and that is all
  the check needs (`WindowsMutex.MutexSafety`).
* The cond-stress test reports success when the queue ends empty. It does so if there is a consumer, or
  nothing to consume, and not otherwise (`CondStress.AllItemsConsumed`).

## Model

| member | source | states |
|---|---|---|
| RecursiveMutex.RefinesReentrantLock | src/mulle-thread.c:162-210 | Every run of recursive mutex over Windows mutex over recursive CRITICAL_SECTION is, action by action and with the same results of lock, trylock and unlock, a run of an atomic lock with an owner and a count, in which every operation takes effect at one instant between call and return |
| RecursiveMutex.LockSafety | src/mulle-thread.c:162-210 | In every state: no assertion has fired, the lower mutex has never found its caller re-entering, at most one client counts itself in, and the unlocked read of `_thread_id`, however stale, shows a thread its own id exactly when the thread holds the lock |
| RecursiveMutex.WaitsOnlyForTheHolder | src/mulle-thread.c:162-210 | An operation in progress can always step, except an outermost lock while another thread is in the section |
| RecursiveMutexCode.RecursiveMutexLock | src/mulle-thread.c:162-177 | Under every interference, when it returns the caller holds the lock once more than before and the abstract lock is its own with exactly that count; the NULL assertion holds. A holder is through in two accesses; anybody else in seven, unless the run shows it held up by another thread in the section |
| RecursiveMutexCode.RecursiveMutexTrylock | src/mulle-thread.c:194-210 | 0 with the lock held once more; or -1 with nothing held before or after, and then the run shows another thread in the section when the attempt was made; a holder never gets -1; six accesses are always enough, so it never waits |
| RecursiveMutexCode.RecursiveMutexUnlock | src/mulle-thread.c:181-190 | Held once less, and after the outermost unlock the abstract lock is not the caller's; the owner assertion holds; six accesses are always enough |
| RecursiveMutexCode.RecursiveMutexDo | src/mulle-thread.h:360-372 | However deeply the macros are nested and whether a statement ends normally, by continue or by break: every statement of the tree is executed exactly once, the outer before the inner and siblings in order, and the run shows, in that order, the abstract lock held by the caller once more in each than around it, the outermost once more than before the macro; behind the macro it is held as often as before; only an outermost macro ever waits |
| RecursiveMutexCode.PathLaws | src/mulle-thread.h:360-372 | What counts as a statement of the tree: the macro's own, and those of each macro nested in it |
| RecursiveMutexCode.MutexLock | src/mulle-thread-windows.h:208-238 | Called by the recursive layer it never takes the self-deadlock branch, and ends inside the section with the caller's count untouched, after three accesses unless the run shows it held up |
| RecursiveMutexCode.MutexTrylock | src/mulle-thread-windows.h:241-261 | Called by the recursive layer it returns 0 and is in the section, or EBUSY and the run shows another thread in it; it leaves the caller's count untouched, and never waits |
| RecursiveMutexCode.MutexUnlock | src/mulle-thread-windows.h:264-271 | Finds its caller's id in `owner` and leaves the section completely, always in three accesses |
| RecursiveMutexCode.ReadShows | src/mulle-thread.c:167-175 | Of a single read of `_thread_id`, be it stale: NULL right after taking the mutex, the caller's id at unlock, and at the start of lock and trylock the caller's id exactly when it is in the section |
| WindowsMutex.MutexSafety | src/mulle-thread-windows.h:208-271 | The section's recursion count never exceeds 1 and is 1 at every sleep, a sleeper never holds it, the unlock assertion never fails, and a coherent read of `owner` shows a thread its own id exactly when it owns the mutex |
| WindowsMutex.ReentryIsDetectedExactly | src/mulle-thread-windows.h:225-260 | Lock deadlocks on itself exactly when its caller holds the mutex; trylock says busy exactly when its caller or somebody else does |
| WindowsMutex.WaitReturnsOwning | src/mulle-thread-windows.c:326-391 | Whatever ended the sleep, a wait returns with the section held once and `owner` restored; it returns 0 if and only if the sleep succeeded, ETIMEDOUT if and only if a timed sleep timed out, and -1 otherwise |
| WindowsMutex.EndingIsTheSleeps | src/mulle-thread-windows.c:378-390 | The outcome that a wait goes by is the one its own sleep had |
| WindowsMutex.OutsiderSeesStaleOwner | src/mulle-thread-windows.h:221-225 | For any two or more threads, a run in which a thread about to lock may read the id of a thread that has unlocked already |
| WindowsMutex.NeverStaleExactlyAlone | src/mulle-thread-windows.h:221-225 | In all runs no unlocked or asserting read of `owner` can be stale if and only if there are no two threads |
| CondWaitCode.CondWait | src/mulle-thread-windows.c:326-340 | Under every schedule: the run shows the caller asleep and how its sleep ended, and the result is 0 if and only if that was a success and else -1; it returns holding the section exactly once, with its id the newest value of `owner`; once the sleep has ended it waits only if the run shows another thread in the section |
| CondWaitCode.CondTimedWait | src/mulle-thread-windows.c:375-391 | The same with 0 if and only if the sleep succeeded, ETIMEDOUT if and only if it timed out, and -1 if and only if it failed |
| ThreadIds.SignExtensionIsFaithful | src/mulle-thread-windows.h:101-106 | The conversion can be undone by truncation, is injective, and maps only 0 to 0 |
| ThreadIds.SignExtensionValue | src/mulle-thread-windows.h:101-106 | DWORDs below 2^31 stay as they are, those from 2^31 on get 32 one bits on top |
| ThreadIds.IdsAreDistinct | src/mulle-thread-windows.h:101-106 | Distinct non-zero DWORDs stay distinct and non-zero as thread ids |
| Once.InitRunsOnce | src/mulle-thread.c:39-94 | In any run that mixes blocking and non-blocking calls, init is entered at most once |
| Once.WordProtocol | src/mulle-thread.c:39-94 | The word's history is a prefix of DATA, BUSY, DONE; it is BUSY exactly while one single thread is between its two compare-and-swaps; the publishing one always succeeds |
| Once.ReturnSeesInit | src/mulle-thread.c:45-62 | When a blocking call returns, by whichever path, nobody is in init, and all later reads of the initialised memory by that thread, however stale, find what init left |
| Once.SharedGrows | src/mulle-atomic-c11.h:749-782 | Histories of the word and of the data only grow, and after DONE neither ever changes |
| Once.StepRank | src/mulle-thread.c:49-62 | A natural number drops with every step of any thread except a failed spin, which leaves it as it is |
| Once.WorkIsBounded | src/mulle-thread.c:49-62 | However the callers are scheduled, all steps but failed spins are bounded by the rank of the first state |
| Once.NeverStuck | src/mulle-thread.c:49-62 | A spinner that the newest message keeps waiting has a winner that can take a productive step; after DONE its read of the newest message lets it out; everybody else can step |
| OnceCode.ThreadOnce | src/mulle-thread.c:39-94 | Under every schedule a returning call has seen DONE and everything init wrote; if the run shows it in init, it found the word untouched and the data are the old ones and its own writes; with one slot for each access of a winner, a call that has not returned is spinning; a thread that has returned from the flag before does not wait |
| OnceCode.ThreadOnceNoblock | src/mulle-thread.h:190-222 | Never waits: one slot for each access of a winner is enough in every schedule. It says it ran init exactly if the run shows it; then it found the word untouched and left DONE and its own writes, and otherwise somebody had won |
| OnceCode.Memory.CompareAndSwap | src/mulle-atomic-c11.h:749-782 | A reported DATA means that the caller and nobody before took the word to BUSY, a winner's second swap publishes DONE, who has seen DONE gets DONE, and it takes exactly one slot |
| OnceMacros.RefinesFunctions | src/mulle-thread.h:225-248 | Every run that mixes the two nested-loop macros with the functions follows a run of the functions, state by state: each of its states stands for a state of that run, in order, and each of its steps performs exactly the one step or no step in between |
| OnceMacros.MInitRunsOnce | src/mulle-thread.h:190-307 | In any run that mixes blocking and non-blocking functions and macros on one flag, init is entered at most once, be it as a statement or as a function |
| OnceMacros.MWordProtocol | src/mulle-thread.h:190-307 | In mixed runs too the word goes DATA, BUSY, DONE, is BUSY exactly while a single thread is between its two compare-and-swaps, and the publishing one always succeeds |
| OnceMacros.MStepRank | src/mulle-thread.h:225-307 | A natural number drops with every step of a mixed run, the loops' bookkeeping included, except a failed spin, which leaves it as it is |
| OnceMacros.MWorkIsBounded | src/mulle-thread.h:225-307 | All steps of a mixed run but failed spins are bounded by the rank of the first state |
| OnceMacros.StepRefines | src/mulle-thread.h:225-248 | Step by step: each step of the loops is one step of the function or none |
| OnceMacros.WaiterChangesNothing | src/mulle-thread.h:231-235 | The compare-and-swap of the increment clause, run by a waiter, changes neither shared state nor any view |
| OnceMacros.InitPublishes | src/mulle-thread.h:225-248 | From the statement, left normally, by continue or by break, or from the init of a function, the thread gets out only with DONE in the word |
| OnceMacros.MReturnSeesInit | src/mulle-thread.h:225-248 | When a blocking macro or function is through, by whichever path, no statement of a macro and no init of a function runs on the flag, and all later reads of the data by that thread, however stale, find what init left |
| OnceMacroCode.OnceDo | src/mulle-thread.h:225-307 | Both macros as nested loops: behind the blocking one the word is DONE and everything written is in view; it says that it executed the statement exactly if the run shows it, and then it found the word untouched, has published however it left the statement, and all data written are the statement's; otherwise somebody else had won; with one slot for each access of a winner only a blocking waiter can be given up |
| OnceMacroCode.StatementLoop | src/mulle-thread.h:237-248 | The inner loop catches a break: winner and waiter alike arrive at the outer increment clause, the winner after exactly the statement's writes, the waiter without having been in the statement; the winner needs one slot for each write, and a waiter that is given up is still spinning |
| OnceRecursive.ReentryIsExact | src/mulle-thread.c:107-112 | Read however stale, `_thread_id` makes a call return at once exactly when its caller is in that flag's init |
| OnceRecursive.InitRunsOnce | src/mulle-thread.c:98-142 | Each flag of the family has its init entered at most once in a run |
| OnceRecursive.ReturnSeesInit | src/mulle-thread.c:115-142 | A call that returns otherwise than by re-entry comes after init, and its thread finds init's final data in every later read |
| OnceRecursive.SeenByInitIsSeenByAll | src/mulle-atomic-c11.h:749-782 | Visibility is transitive: what another flag's init left, and the thread that ran f's init had in view when it published f, is found by all later reads of everybody who returns from a call of f |
| OnceRecursive.NestedInitIsSeenByAll | src/mulle-thread.c:131-141 | A call of g completed inside f's init is such a case: whoever returns from f has g initialised |
| OnceRecursive.FlagProtocol | src/mulle-thread.c:98-142 | Every word goes DATA, BUSY, DONE and is BUSY exactly while it has its single owner; the newest `_thread_id` is the id of the thread in init, or NULL if there is none |
| OnceRecursive.SettledStays | src/mulle-thread.c:137-142 | After DONE neither a flag's word nor its data changes any more |
| OnceRecursive.NoDeadlock | src/mulle-thread.c:98-142 | From every thread in the middle of something there is a chain of threads, each spinning on a flag that the next one owns, strictly climbing in rank, and the last one can take a step that is not a failed spin |
| OnceRecursive.OwnerRanksHigher | src/mulle-thread.c:122-129 | A blocked thread waits for a different thread, and that one, if blocked, for a higher rank |
| OnceRecursive.WorkIsBounded | src/mulle-thread.c:98-142 | In any run, macros and nested calls included, all steps of all threads but failed spins are at most nine for each once call made and one for each write of an init |
| OnceRecursiveMacro.RefinesFunction | src/mulle-thread.h:251-281 | Every run that mixes recursive macro and function follows a run of functions alone, state by state and step by step: a waiter's extra steps have no counterpart, every other step exactly one, and the states are equal in words and data, and in `_thread_id` but for the waiters' repeated NULLs |
| OnceRecursiveMacro.WaiterStepsAreInvisible | src/mulle-thread.h:261-266 | In every reachable state a waiter's NULL write and its compare-and-swap leave the newest value of every word, and all data, as they were |
| OnceRecursiveMacro.StepRefines | src/mulle-thread.h:251-281 | Any other step of the macro is the corresponding step of the function |
| OnceRecursiveCode.OnceCallRecursive | src/mulle-thread.c:98-142 | With inits that call further once functions and macros to any depth: what the thread's client sees of the run is the call alone, or the call, everything init does in its order with its nested calls likewise, and the end of init. The latter only if nobody had won the flag before; the flag's data then are the old ones and init's own stores. The thread comes back to its own stack with the data of the flags on it untouched, and unless it re-entered, with the flag done and all of init in view. A re-entry takes one access; any other call one for each access of its own and of the calls nested in it, unless the run shows the thread spinning |
| OnceRecursiveCode.OnceDoRecursive | src/mulle-thread.h:251-281 | The same for the nested loops of the macro, for each way of leaving the statement |
| OnceRecursiveCode.RunInit | src/mulle-thread.c:131-137 | Init does what it is made of, item by item, and ends on the stack it began on, its flag still owned by the thread; the flag's data are the old ones and exactly its own stores, in order; the called flags are done with all of their inits in view; within the slots counted for it unless the thread has had to spin |
| OnceRecursiveCode.RunAndPublish | src/mulle-thread.c:131-141 | The winner runs init completely, stores and calls, and leaves the data as init left them |
| OnceRecursiveCode.StatementLoop | src/mulle-thread.h:268-281 | However the statement is left, the winner has executed it completely and arrives at the increment clause owning the flag; a waiter has executed nothing |
| OnceRecursiveCode.StoresLaws | src/mulle-thread.c:134 | What an init stores: nothing for no items, and one value more for each store |
| OnceRecursiveCode.BodyTraceLaws | src/mulle-thread.c:134 | What the client sees of an init: item after item, each completely |
| OnceRecursiveCode.CallTraceLaws | src/mulle-thread.c:107-141 | What the client sees of a call: the call alone, or the call, init, and the end of init |
| OnceRecursiveCode.Memory.ReadThreadId | src/mulle-thread.c:107-112 | Under every schedule the read equals the caller's id if and only if the flag is on the caller's stack; it is not made only if there is no slot |
| CondStress.SleepersAreNotNeeded | test/cond/cond-stress.c:14-59 | No lost wakeup: while nobody has the mutex and a consumer sleeps, the queue is no longer than the number of live awake consumers |
| CondStress.ItemsAreConserved | test/cond/cond-stress.c:14-59 | Consumed, queued and yet to be produced items always add up to the plan |
| CondStress.PlanIsAllItems | test/cond/cond-stress.c:18-26 | The plan at the start is the sum of all items of all producers |
| CondStress.AllItemsConsumed | test/cond/cond-stress.c:61-96 | When main has joined everybody all items were consumed, if there was a consumer; if there was none they are all in the queue |
| CondStress.NeverStuck | test/cond/cond-stress.c:14-96 | Until main is through some thread can step without a spurious wakeup |
| CondStress.WorkIsBounded | test/cond/cond-stress.c:14-96 | The steps of all threads but spurious wakeups are at most 3n + 8 for each planned item, 7n + 6 besides, and three for each spurious wakeup, n being the consumers; so the test ends |
| CondStressCode.ProducerThread | test/cond/cond-stress.c:14-30 | Ends, under every schedule, with nothing left to produce; four slots an item are enough unless the run shows the thread unable to move |
| CondStressCode.ConsumerThread | test/cond/cond-stress.c:32-59 | Ends only when everything has been produced and the queue is empty; four slots for every planned item and three more are enough unless the run shows the thread asleep or waiting for the mutex |
| CondStressCode.MainThread | test/cond/cond-stress.c:76-96 | Its result is 0 exactly if there was a consumer or nothing to consume, and with a consumer everything planned was consumed; six slots are enough unless the run shows it unable to move |
| TssSpec.HistoryDeterminesTss | src/mulle-thread-windows.c:117-165 | After any legal sequence of creates and frees the live entries are exactly the keys in use with a destructor, distinct, in order of creation; the counter is 0 with no table when no key is in use, else their number + 1 |
| TssSpec.InUseMeans | src/mulle-thread-windows.c:290-307 | The keys in use are those that some create made, with the destructor given there, and no later free released: all of them, in the order of these creates |
| TssSpec.ReusedKeyFindsNoOldDestructor | src/mulle-thread-windows.c:144-165 | A key that is not in use, and so may be handed out again, has no entry anywhere in the table |
| TssSpec.GrowthIsAmortised | src/mulle-thread-windows.c:87-141 | After n additions the room is 4·2^k, at least n, beyond 4 at most 2(n-1), and all reallocations together carried fewer than 2n entries |
| TssSpec.LiveRemoved | src/mulle-thread-windows.c:144-165 | Making the first matching entry a tombstone takes exactly that key out of the live entries |
| DestructorTable.Table.constructor | src/mulle-thread-windows.c:87-114 | A first table is empty with the room that the capacity law gives |
| DestructorTable.Table.Grown | src/mulle-thread-windows.c:87-114 | Growing keeps every entry and keeps room and carried entries on the law whose bounds are proved |
| DestructorTable.Table.Remove | src/mulle-thread-windows.c:144-165 | In place, the first entry of the key becomes a tombstone and nothing else changes |
| DestructorTable.AddDestructorForKey | src/mulle-thread-windows.c:117-141 | The entries before are kept and the new one is last, whether or not the table had to be made or to grow; a NULL destructor changes nothing |
| DestructorTable.Global.Init | src/mulle-thread-windows.c:253-268 | Called serially it sets up the lock with the first key, adds one to the counter otherwise, and never backs out |
| DestructorTable.Global.Done | src/mulle-thread-windows.c:271-287 | Never called too often; with the last key lock and table go |
| DestructorTable.Global.Create | src/mulle-thread-windows.c:290-300 | Without a free index -1, key 0 and nothing changed; else the global is what the specification of create says |
| DestructorTable.Global.Free | src/mulle-thread-windows.c:303-307 | The global is what the specification of free says |
| DestructorTable.Global.Perform | src/mulle-thread-windows.c:205-307 | Carrying out any legal history on the global ends in the state that the keys in use determine |
| DestructorRun.ExecuteDestructors | src/mulle-thread-windows.c:168-192 | The loop over the array makes exactly the calls, in order, and leaves exactly the slots of the pass that the next six rows are about |
| DestructorRun.CallsAreInOrder | src/mulle-thread-windows.c:177-191 | At most one call per entry, in table order, each of that entry's own destructor with the non-NULL value its slot held, this slot being NULL already and the others untouched, and leaving the slots as the destructor makes them; nothing but the calls changes slots |
| DestructorRun.NobodyIsSkipped | src/mulle-thread-windows.c:179-191 | An entry that no call is made for has no destructor, or its slot was NULL when its turn came |
| DestructorRun.LeftoversWereWrittenLater | src/mulle-thread-windows.c:177-191 | A slot with a destructor that ends non-NULL was set, from NULL, by a destructor at the same or a later position |
| DestructorRun.QuietPassClears | src/mulle-thread-windows.c:177-191 | If destructors set no slots, the slots with a destructor end NULL and all others are unchanged |
| DestructorRun.CallsAreOfKeysInUse | src/mulle-thread-windows.c:168-192 | After any legal history of keys, only destructors of keys in use are called, each the one its key was created with, with its own key's value |
| DestructorRun.QuietEndClearsKeysInUse | src/mulle-thread-windows.c:168-192 | After any legal history, with destructors that set no slots, exactly the slots of keys in use with a destructor are cleared |
| DestructorRun.DestroyTssIfNeeded | src/mulle-thread-windows.c:310-314 | The pass over whatever table the global has, and no pass at all without one |
| TssInit.TwoFirstCallersAreSafe | src/mulle-thread-windows.c:253-268 | With at most two first callers and any number later: the lock is initialised once and before any call returns, and at rest the counter is the completed calls + 1 |
| TssInit.SafeExactlyForTwo | src/mulle-thread-windows.c:253-268 | All runs of n threads are safe if and only if n is at most 2 |
| TssInit.ThirdRacerReturnsEarly | src/mulle-thread-windows.c:257-265 | For every n of at least 3, a run in which a call returns while no lock has been initialised |
| TssInitCode.Initialise | src/mulle-thread-windows.c:253-268 | The retry loop under every schedule: the last step of the run is the return of this call, and with at most two first callers the lock has then been initialised exactly once; three operations are enough unless the run shows the thread backing out |
| TimedWait.RelativeMilliseconds | src/mulle-thread-windows.c:355-373 | The wrapping computation yields what the exact distance alone determines; it honours a deadline to come if and only if that is less than 2^32 - 1 ms away, gives 0 up to 2^63 ns past, and INFINITE without a deadline |
| TimedWait.DiffIsExactModulo | src/mulle-thread-windows.c:365-367 | Whatever overflows on the way, the result is the exact distance in nanoseconds modulo 2^64 |
| TimedWait.EpochIsTheCalendars | src/mulle-thread-windows.c:363-365 | The constant of the conversion is the number of seconds from 1601 to 1970 by the leap-year rule |
| TimedWait.DistanceInNanoseconds | src/mulle-thread-windows.c:363-367 | The exact distance meant: seconds and nanoseconds since 1970, to 100 ns, against units of 100 ns since 1601 |
| TimedWait.DeadlineIsHonoured | src/mulle-thread-windows.c:365-371 | For all deadlines and clocks: diff_ns is the exact distance if and only if that fits 64 bits; a deadline to come, however far, gets its whole milliseconds if and only if it is less than 2^32 ms away, and an ending sleep of them if and only if it is less than 2^32 - 1 ms away; up to 2^63 ns past gives 0 |
| TimedWait.LongSleepsAreTruncated | src/mulle-thread-windows.c:368 | From 2^32 ms on, the low 32 bits of the milliseconds are slept, which is too short |
| TimedWait.FarDeadlinesLookPast | src/mulle-thread-windows.c:367-370 | A deadline 2^63 to 2^64 ns away gives 0 |
| TimedWait.PastIsOverWithin | src/mulle-thread-windows.c:365-371 | All deadlines at most L units past are answered with 0 if and only if 100·L is at most 2^63 |
| TimedWait.FiftyDaysIsForever | src/mulle-thread-windows.c:368-371 | There is a deadline 2^32 - 1 ms away that sleeps without end |
| TimedWait.FiletimeRoundTrip | test/cond/cond-timedwait.c:16-19 | The test's conversion of a clock value and the one in the wait compose to the identity, for every clock value |
| AtomicSet.Ledger | src/mulle-atomic.h:95-110 | In every run, whatever fails and however stale the failures' reports, the initial value, the values given and those handed out twice balance against the current value, the values handed back and those dropped |
| AtomicSet.AttemptStores | src/mulle-atomic-c11.h:583-617 | On every platform an attempt that reads what it expects and does not fail spuriously stores its value in place of the newest one; every other attempt leaves the word alone |
| AtomicSet.ConservedExactlyIf | src/mulle-atomic.h:95-110 | A run conserves values if and only if its spurious failures dropped what they handed out again |
| AtomicSet.ExchangeNeedsReliableCas | src/mulle-atomic-mintomic.h:277-285 | Conservation in all runs holds if and only if the weak compare-and-swap cannot fail spuriously |
| AtomicSet.SpuriousFailureLosesAValue | src/mulle-atomic.h:105-107 | A run in which a spurious failure hands back a value that stays, and drops the new one |
| AtomicSetCode.PointerSet | src/mulle-atomic.h:95-129 | Under every schedule the last step of the run is the caller's compare-and-swap; the value returned is one the word had, and unless this last one failed spuriously it is what the word held in the state before, and has been replaced by the new value in that step; each attempt after the first is owed to a message not seen before, so only other threads' exchanges prolong it |
| CasTest.WordCountsSuccesses | test/atomic/cas.c:59-76 | With stale reads of both words: `central` is always the number of successful swaps modulo the word size, nobody is past the barrier before all have reached it, and no swap has equal new and expected values, as src/mulle-atomic-c11.h:671 asserts |
| CasTest.FinalCount | test/atomic/cas.c:122-162 | When all are through, `central` is threads times loops modulo the word size, however often swaps failed |
| CasTestCode.WaitAround | test/atomic/cas.c:88-94 | When it returns no thread has still to decrement; given up, after one slot at least, only while it waits |
| CasTestCode.RunAtomicAddTest | test/atomic/cas.c:59-76 | The do-while loop ends each of its turns with exactly one successful swap of its thread; two slots a turn are enough unless the run shows a compare-and-swap of the thread that is spurious or finds the word changed |

## Left out

- The C11 and pthreads backends (src/mulle-thread-c11.h, src/mulle-thread-pthreads.h): one-line wrappers over platform calls. Module CondStress uses their common mutex and condition variable contract.
- Thread creation, join, exit, yield, TlsAlloc and TlsFree, CRITICAL_SECTION and condition variables: platform calls, abstract steps or parameters here. The clock is the parameter `now`.
- Function pointer atomics, `_mulle_atomic_intptr_add_relaxed` and the old names: copies of the pointer operations or single platform operations. `_mulle_atomic_functionpointer_set` has the same loop as the modelled pointer version.
- `mulle_thread_mutex_do`: the loops of the modelled `mulle_thread_recursive_mutex_do` around the other mutex.
- `mulle_thread_once_recursive` and the user data of `mulle_thread_once_call`: they pass arguments on.
- Memory fences: a step of their own without an effect on views. All orderings proved come from the seq_cst compare-and-swaps and reads, so the fences are not needed for them.
- Fairness, and how long coherence may keep a read stale: progress is stated as bounded work, absence of deadlock, and release by a read of the newest message.
- Wrap-around of `_depth` and of the TSS counter: unbounded integers here.
- Pointers are 64 bits wide; the 32-bit Windows build, where the sign extension is the identity, is not covered.
- Debug and release builds differ in the self-deadlock of the Windows mutex, an assertion or an endless loop. Both are one stuck state here.
- Failing `realloc`, key 0, and destructors that create or free keys: outside what the code supports.
- `mulle_thread_tss_done` while other calls are in progress, and three or more first callers beyond the witness run.
- Threads that die, are cancelled or `return` inside an init function or a macro's statement: unsupported by the source.
- Initialisation and destruction of mutexes; `MULLE_ATOMIC_TRACE`, the race-yield helper, benchmarks, build files and the version check.
- DestructorTable.Table.Grown: `realloc` moves the table into a new object here, where C may extend it in place; the old one is no longer used in either case.
- DestructorRun.ExecuteDestructors: a destructor is a function on the slots; what else it does is not modelled.
- CondStressCode.ConsumerThread: the local count of consumed items, which the test never reads, is not modelled per thread but as one total.
