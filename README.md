# Kotlin/Native runtime lifecycle, modelled in Dafny

This project models the runtime lifecycle controller of Kotlin/Native
(`runtime/src/main/cpp/Runtime.cpp`). The controller does four things:

- it keeps the process-wide `globalRuntimeStatus`;
- it counts alive and initializing runtimes;
- it publishes each thread's `RuntimeState` in a thread-local slot;
- it keeps the singly linked registry of global-variable initializers, which it walks for the
  four phases `INIT_GLOBALS`, `INIT_THREAD_LOCAL_GLOBALS`, `DEINIT_THREAD_LOCAL_GLOBALS` and
  `DEINIT_GLOBALS`.

Its entry points are `AppendToInitializersTail`, `Kotlin_initRuntimeIfNeeded`,
`Kotlin_deinitRuntimeIfNeeded`, the thread-exit hook `Kotlin_deinitRuntimeCallback` and
`Kotlin_shutdownRuntime`. Internally they use `initRuntime`, `deinitRuntime`,
`InitOrDeinitGlobalVariables` and the `ScopedInitializingRuntime` guard.

The model has two layers.

- **`Lifecycle`** states every entry point as a function from a context value `Ctx` to an
  `Outcome`. The outcome is one of three things:
  - `Ok(ctx, value)`: the call returned;
  - `Aborted(reason)`: `konan::abort`, `RuntimeCheck` or `RuntimeAssert` ended the process;
  - `Undefined(misuse)`: the model ends the run. Either the source's behaviour is undefined
    (a freed `RuntimeState` is dereferenced), or the call has linked the registry into a cycle
    (a registered node appended again), after which every later phase walk never returns.

  The context holds:
  - the global status, the two counters and the two leak-check flags;
  - the registry as a sequence of nodes;
  - the thread slots, as a map from thread to handle (a thread that is absent holds
    `kInvalidRuntime`);
  - the allocated `RuntimeState`s, with their status;
  - a trace of what was done. The trace records each phase walk, each initializer callback and
    each call into a collaborator.

  `Step` and `Run` apply entry points one after another. `Inv` is what holds between entry
  points: every alive runtime is `Running`, the alive count equals the number of allocated
  runtimes, no two threads share a runtime, no activation is in flight, and the phase walks
  balance. `INIT_GLOBALS` has run once more than `DEINIT_GLOBALS` exactly while a runtime is
  alive, and `INIT_THREAD_LOCAL_GLOBALS` has run once more than `DEINIT_THREAD_LOCAL_GLOBALS`
  per alive runtime.
- **`Runtime.RuntimeContext`** is the imperative model. It is a class whose fields are the
  source's globals and thread-locals. The registry is a real linked list of `InitNode` objects,
  with `initHeadNode` and `initTailNode`. `InitOrDeinitGlobalVariables` is the `while` loop over
  `currentNode`. Each method mutates those fields step by step, one atomic operation at a time.
  Each entry-point method, and `initRuntime` and `deinitRuntime`, ensures that its result, and
  on a return its new state, are exactly what the `Lifecycle` function gives for the old state
  (`Matches`). The smaller helper methods (the compare-and-swap, the counters, activation,
  teardown, the first half of shutdown) state their effect on the fields directly.
  - **`LifecycleProperties`** proves what the source promises about those functions, per call
    and over whole runs.
  - **`Registry`** proves what a phase walk records.

The model keeps four behaviours of the source as written:

- Of the global statuses, only `Shutdown` makes `initRuntime` abort (the other abort is the
  RuntimeCheck on a thread that already has a runtime). An activation that observes
  `ShuttingDown` goes on: see `InitRuntimeOutcome` and `ActivationWhileShuttingDown`.
- `Kotlin_initRuntimeIfNeeded` ignores the result of `initRuntime`. The exit hook is registered
  with whatever the slot then holds, which is `kInvalidRuntime` after an allocation failure: see
  `InitRuntimeIfNeededOutcome`.
- The shutdown leak check tests the memory-leak flag twice, so the cleaner-leak flag never gates
  it: see `Lifecycle.StopAndTearDown`, `ShutdownRuntimeOutcome` and `LeakCheckScenario`.
- "First runtime" means "no runtime alive", not "first ever": once every runtime has been
  deinitialized, the next activation walks INIT_GLOBALS again, so the globals are initialized
  twice and deinitialized once in between: see `GlobalsRerunAfterFullTeardown`.

## Model

| member | source | states |
|---|---|---|
| RuntimeTypes.Rank | runtime/src/main/cpp/Runtime.cpp:79-84 | The global statuses are ranked between 0 and 3, and only `Uninitialized` has rank 0. |
| RuntimeTypes.RankOrder | runtime/src/main/cpp/Runtime.cpp:79-84 | The ranks follow the declaration order Uninitialized < Running < ShuttingDown < Shutdown, and no two statuses share a rank. |
| RuntimeTypes.PhaseCode | runtime/src/main/cpp/Runtime.cpp:51-56 | Each phase is passed as the integer of its enumerator: `INIT_GLOBALS` 0, `INIT_THREAD_LOCAL_GLOBALS` 1, `DEINIT_THREAD_LOCAL_GLOBALS` 2, `DEINIT_GLOBALS` 3, and each integer names only that phase. |
| RuntimeTypes.PhaseOfCode | runtime/src/main/cpp/Runtime.cpp:51-62 | The selector integer `InitOrDeinitGlobalVariables` receives names the phase whose code it is; `RuntimeContext.InitOrDeinitGlobalVariables` takes the integer, as the source does, and walks that phase. |
| RuntimeTypes.PhaseCodeRoundTrip | runtime/src/main/cpp/Runtime.cpp:51-56 | Reading back the selector of any phase gives that phase. |
| RuntimeTypes.PhaseCodeDistinct | runtime/src/main/cpp/Runtime.cpp:51-56 | No two phases share a selector. |
| Registry.Callbacks | runtime/src/main/cpp/Runtime.cpp:58-64 | A walk invokes exactly one callback per registered node. |
| Registry.PhaseWalk | runtime/src/main/cpp/Runtime.cpp:58-64 | A call of InitOrDeinitGlobalVariables records its start first, then one callback per node. |
| Registry.CallbacksInOrder | runtime/src/main/cpp/Runtime.cpp:58-64 | The walk's i-th callback is node i's, so nodes are visited head to tail. |
| Registry.PhaseWalkEvents | runtime/src/main/cpp/Runtime.cpp:58-64 | Node i is called in position i+1 with the walk's own phase and memory, and every event of the walk belongs to that phase. Deinit phases are not reversed. |
| Registry.WalksOfPhaseWalk | runtime/src/main/cpp/Runtime.cpp:58-64 | One call counts as exactly one walk of its phase and as none of any other phase. |
| Runtime.RuntimeContext.InitOrDeinitGlobalVariables | runtime/src/main/cpp/Runtime.cpp:58-64 | Given the selector integer `initialize` (0 to 3), the loop from initHeadNode along `next` appends exactly the walk of the phase that integer names over the registry to the trace. |
| Runtime.RuntimeContext.RegistryValid | runtime/src/main/cpp/Runtime.cpp:29-37 | The registry is the list from initHeadNode along `next` to initTailNode, whose last node links to null, with no node twice; an empty registry has both ends null. Every method that touches the list keeps it. |
| Lifecycle.AppendToInitializersTail | runtime/src/main/cpp/Runtime.cpp:170-178 | Appending makes the node the new last element. The head is the first node ever appended. Nothing else changes. Appending a node that is already in the registry links the list into a cycle, so every later phase walk never returns; the model ends the run there as `Undefined`, exactly when the node is already registered. |
| Runtime.RuntimeContext.LinkAtTail | runtime/src/main/cpp/Runtime.cpp:170-178 | The link update keeps the list from head along `next` to tail equal to the registry extended by the node. The head is set on the first append and the tail moves every time. |
| Runtime.RuntimeContext.AppendToInitializersTail | runtime/src/main/cpp/Runtime.cpp:170-178 | The imperative append matches the value-level append and keeps the linked list and the invariant valid. |
| Runtime.RuntimeContext.constructor | runtime/src/main/cpp/Runtime.cpp:66-86 | At process start the status is Uninitialized, no runtime exists, the registry is empty, and the invariant holds. |
| Lifecycle.CompareAndSwap | runtime/src/main/cpp/Runtime.cpp:117 | compareAndSwap on the global status gives the value it observed and the value it leaves; its effect on each entry point is stated in the Outcome lemmas and StatusStepForward. |
| Runtime.RuntimeContext.CompareAndSwapStatus | runtime/src/main/cpp/Runtime.cpp:117 | compareAndSwap returns the old status and installs the desired one only if the old one was the expected one. |
| Runtime.RuntimeContext.AddAliveRuntimes | runtime/src/main/cpp/Runtime.cpp:130 | atomicAdd returns the new value of the alive counter. |
| Runtime.RuntimeContext.EnterInitializing | runtime/src/main/cpp/Runtime.cpp:90-92 | The guard's constructor raises the initializing count by one. |
| Runtime.RuntimeContext.LeaveInitializing | runtime/src/main/cpp/Runtime.cpp:94-96 | The guard's destructor lowers the initializing count by one. |
| Runtime.RuntimeContext.IsInitializing | runtime/src/main/cpp/Runtime.cpp:98-100 | An activation is in flight exactly when the initializing count is positive; between entry points the invariant makes it false, which is why the spin-wait at line 230 ends at once. |
| Lifecycle.InitRuntime | runtime/src/main/cpp/Runtime.cpp:114-143 | Defines initRuntime: the guard, the CAS from Uninitialized to Running, the abort only on Shutdown, then the construction; its promises are stated in InitRuntimeOutcome and ActivationWhileShuttingDown and checked against the class in RuntimeContext.InitRuntime. |
| Lifecycle.ConstructRuntime | runtime/src/main/cpp/Runtime.cpp:123-142 | Defines the rest of initRuntime: the terminate handler, `None` on allocation failure, the "no active runtimes" abort, then a fresh handle installed and activated; stated in InitRuntimeOutcome. |
| Lifecycle.ActivationEvents | runtime/src/main/cpp/Runtime.cpp:123-139 | Defines what an activation records, in source order: terminate handler, memory, worker, the global setup when first, then the INIT_THREAD_LOCAL_GLOBALS walk; its phase counts and order are ActivationTrace. |
| Lifecycle.GlobalSetupEvents | runtime/src/main/cpp/Runtime.cpp:132-138 | Defines the first runtime's setup: console, ObjC export when built in, the INIT_GLOBALS walk; its phase content is GlobalSetupTrace. |
| Runtime.RuntimeContext.ConstructInstance | runtime/src/main/cpp/Runtime.cpp:124 | The allocator hands out a fresh runtime in status Uninitialized. |
| Runtime.RuntimeContext.RunGlobalSetup | runtime/src/main/cpp/Runtime.cpp:132-138 | The first runtime initializes the console, then ObjC export when interop is built in, then walks INIT_GLOBALS. |
| Runtime.RuntimeContext.ActivateRuntime | runtime/src/main/cpp/Runtime.cpp:128-141 | Activation initializes memory and the worker, increments the alive count, runs the global setup exactly when the new count is 1, walks INIT_THREAD_LOCAL_GLOBALS, and leaves the runtime Running. |
| Runtime.RuntimeContext.ClaimSlotAndActivate | runtime/src/main/cpp/Runtime.cpp:124-141 | It aborts with "no active runtimes allowed" exactly when the thread already has a runtime. Otherwise the fresh runtime is published in the slot and activated. |
| Runtime.RuntimeContext.ConstructRuntime | runtime/src/main/cpp/Runtime.cpp:123-142 | The part of initRuntime after the status CAS matches the value-level construction, on the allocation-failure, already-active and success paths. |
| Runtime.RuntimeContext.InitRuntime | runtime/src/main/cpp/Runtime.cpp:114-143 | The imperative initRuntime matches Lifecycle.InitRuntime step by step: the guard, the CAS, the Shutdown abort and the construction. |
| LifecycleProperties.InitRuntimeOutcome | runtime/src/main/cpp/Runtime.cpp:114-143 | initRuntime aborts exactly on Shutdown, or on a thread that has a runtime when allocation succeeds. Observing ShuttingDown does not abort. It moves only Uninitialized to Running. It leaves the initializing count as it found it. It returns None on allocation failure. Otherwise it installs a fresh Running handle with the alive count one higher. |
| LifecycleProperties.ActivationWhileShuttingDown | runtime/src/main/cpp/Runtime.cpp:117-121 | An activation that observes ShuttingDown on a thread without a runtime is not refused: it installs a Running runtime, adds one alive runtime, and leaves the status at ShuttingDown. |
| LifecycleProperties.ActivationTrace | runtime/src/main/cpp/Runtime.cpp:130-139 | An activation walks INIT_GLOBALS exactly when it is the first runtime and always walks INIT_THREAD_LOCAL_GLOBALS, with INIT_GLOBALS entirely before it. It runs no teardown phase. |
| LifecycleProperties.GlobalSetupTrace | runtime/src/main/cpp/Runtime.cpp:132-138 | The global setup is exactly one INIT_GLOBALS walk and has no event of any other phase. |
| LifecycleProperties.InitRuntimePreservesInv | runtime/src/main/cpp/Runtime.cpp:114-143 | A successful initRuntime keeps the invariant, including the balance of the phase walks. |
| LifecycleProperties.ActivationKeepsInv | runtime/src/main/cpp/Runtime.cpp:124-141 | Installing a fresh runtime and recording its activation keeps the invariant. |
| Lifecycle.DeinitRuntime | runtime/src/main/cpp/Runtime.cpp:145-159 | Defines deinitRuntime: misuse on a freed handle, the RuntimeAssert abort on a handle that is not Running, otherwise the handle freed, the alive count decremented and the teardown recorded; stated in DeinitRuntimeOutcome and DeinitRuntimePreservesInv. |
| Lifecycle.TeardownEvents | runtime/src/main/cpp/Runtime.cpp:149-158 | Defines what a teardown records, in source order, with DEINIT_GLOBALS only for the last runtime; its phase counts, order and collaborator order are TeardownTrace. |
| LifecycleProperties.DeinitRuntimeOutcome | runtime/src/main/cpp/Runtime.cpp:145-159 | deinitRuntime on a freed runtime is misuse, and on one that is not Running it aborts. Otherwise it frees the runtime and decrements the alive count, with status, slots and the initializing count unchanged. |
| LifecycleProperties.TeardownTrace | runtime/src/main/cpp/Runtime.cpp:145-159 | A teardown restores the runtime's memory first. It always walks DEINIT_THREAD_LOCAL_GLOBALS, and walks DEINIT_GLOBALS afterwards exactly when it was the last runtime. It runs no init phase. It reads the worker id before WorkerDeinit and destroys the thread data after the instance. |
| LifecycleProperties.DeinitRuntimeWalks | runtime/src/main/cpp/Runtime.cpp:145-159 | A teardown adds exactly its own phase walks to the trace. |
| LifecycleProperties.DeinitRuntimePreservesInv | runtime/src/main/cpp/Runtime.cpp:145-159 | A successful deinitRuntime keeps the invariant and the global status. |
| Runtime.RuntimeContext.TearDown | runtime/src/main/cpp/Runtime.cpp:147-158 | The teardown steps free the handle, decrement the alive count, and record the teardown events, deciding the last runtime by the decremented count. |
| Runtime.RuntimeContext.DeinitRuntime | runtime/src/main/cpp/Runtime.cpp:145-159 | The imperative deinitRuntime matches Lifecycle.DeinitRuntime, including the RuntimeAssert on the runtime's status. |
| Lifecycle.DeinitRuntimeCallback | runtime/src/main/cpp/Runtime.cpp:161-164 | Defines the thread-exit hook as deinitRuntime of its argument, touching no slot; stated in DeinitRuntimeCallbackOutcome and HookAfterExplicitDeinit. |
| LifecycleProperties.DeinitRuntimeCallbackOutcome | runtime/src/main/cpp/Runtime.cpp:161-164 | The exit hook tears its argument down and leaves every slot as it was. On a freed runtime it is misuse. |
| Runtime.RuntimeContext.DeinitRuntimeCallback | runtime/src/main/cpp/Runtime.cpp:161-164 | The imperative hook matches the value-level one and keeps the invariant. |
| LifecycleProperties.ExitHookTearsDown | runtime/src/main/cpp/Runtime.cpp:145-164 | The exit hook run for a thread's live runtime frees it and removes one alive runtime. It walks DEINIT_THREAD_LOCAL_GLOBALS once, and DEINIT_GLOBALS once exactly when it was the last runtime, with no init phase. It leaves the thread's slot naming the freed runtime. |
| LifecycleProperties.HookAfterExplicitDeinit | runtime/src/main/cpp/Runtime.cpp:161-193 | An explicit deinit followed by the hook registered for the same runtime dereferences a freed runtime, so the two are not idempotent. |
| Lifecycle.InitRuntimeIfNeeded | runtime/src/main/cpp/Runtime.cpp:180-186 | Defines Kotlin_initRuntimeIfNeeded: nothing on a valid slot, otherwise initRuntime with its result ignored and the hook registered with the slot; stated in InitRuntimeIfNeededOutcome and InitRuntimeIfNeededPreservesInv. |
| LifecycleProperties.InitRuntimeIfNeededOutcome | runtime/src/main/cpp/Runtime.cpp:180-186 | Nothing happens on a thread with a runtime. Otherwise the call aborts exactly on Shutdown. Else the thread has a runtime exactly when allocation succeeded, and the exit hook is registered last with the slot's value (kInvalidRuntime after an allocation failure). |
| LifecycleProperties.InitRuntimeIfNeededPreservesInv | runtime/src/main/cpp/Runtime.cpp:180-186 | Kotlin_initRuntimeIfNeeded keeps the invariant. It moves the status from Uninitialized to Running when the thread had no runtime, and otherwise leaves it as it was; it never moves it to ShuttingDown or Shutdown. |
| Runtime.RuntimeContext.InitRuntimeAndRegisterHook | runtime/src/main/cpp/Runtime.cpp:180-186 | The imperative wrapper ignores initRuntime's result and registers the hook with the slot, matching the value-level function. |
| Runtime.RuntimeContext.InitRuntimeIfNeeded | runtime/src/main/cpp/Runtime.cpp:180-186 | The same, keeping the linked list and the invariant valid. |
| LifecycleProperties.ActivateOne | runtime/src/main/cpp/Runtime.cpp:180-186 | A thread without a runtime that activates one gets a fresh handle. The call adds one alive runtime and one INIT_THREAD_LOCAL_GLOBALS walk, plus an INIT_GLOBALS walk exactly when it is the first. It runs no teardown phase. |
| Lifecycle.DeinitRuntimeIfNeeded | runtime/src/main/cpp/Runtime.cpp:188-193 | Defines Kotlin_deinitRuntimeIfNeeded: nothing on an invalid slot, otherwise deinitRuntime of the slot and the slot cleared; stated in DeinitRuntimeIfNeededOutcome and DeinitOne. |
| LifecycleProperties.DeinitRuntimeIfNeededOutcome | runtime/src/main/cpp/Runtime.cpp:188-193 | Nothing happens on a thread without a runtime. Otherwise the runtime is freed and the slot cleared, and a slot naming a freed runtime is misuse. |
| LifecycleProperties.DeinitRuntimeIfNeededPreservesInv | runtime/src/main/cpp/Runtime.cpp:188-193 | Kotlin_deinitRuntimeIfNeeded keeps the invariant and the global status. |
| Runtime.RuntimeContext.DeinitRuntimeIfNeeded | runtime/src/main/cpp/Runtime.cpp:188-193 | The imperative wrapper matches the value-level one and keeps the invariant. |
| LifecycleProperties.DeinitOne | runtime/src/main/cpp/Runtime.cpp:188-193 | A thread holding a live runtime that deinits it removes one alive runtime and adds one DEINIT_THREAD_LOCAL_GLOBALS walk. It clears its slot, and runs no init phase. |
| Lifecycle.ShutdownRuntime | runtime/src/main/cpp/Runtime.cpp:196-215 | Defines the checks of Kotlin_shutdownRuntime: the CAS from Running to ShuttingDown, the two abort reasons for the other statuses and the abort without a runtime on the thread; stated in ShutdownRuntimeOutcome. |
| Lifecycle.StopAndTearDown | runtime/src/main/cpp/Runtime.cpp:217-248 | Defines the rest of shutdown: cleaners, the CAS to Shutdown, the leak check guarded by the memory flag read twice, then the caller's teardown and the slot cleared; stated in ShutdownRuntimeOutcome, ShutdownOne and LeakCheckScenario. |
| Lifecycle.ShutdownEvents | runtime/src/main/cpp/Runtime.cpp:217-235 | Defines what shutdown records before the teardown: the full GC only with the cleaner flag, the cleaners stopped, the wait for native workers only with the memory flag; ShutdownEventsAreExternal states that none of it is a phase walk. |
| LifecycleProperties.ShutdownRuntimeOutcome | runtime/src/main/cpp/Runtime.cpp:196-249 | Shutdown aborts "twice" on ShuttingDown or Shutdown, aborts "not initialized" on Uninitialized, and aborts when the thread has no runtime. With the memory-leak flag it aborts exactly when other runtimes are alive. A successful shutdown ends at Shutdown with the caller's runtime freed and its slot cleared. |
| LifecycleProperties.ShutdownSucceeds | runtime/src/main/cpp/Runtime.cpp:196-249 | Shutdown can succeed only from Running, on a thread with a live runtime, and, with leak checking, as the only alive runtime. |
| LifecycleProperties.ShutdownEventsAreExternal | runtime/src/main/cpp/Runtime.cpp:217-235 | Before the teardown, shutdown only calls collaborators and walks no phase. |
| LifecycleProperties.ShutdownPreservesInv | runtime/src/main/cpp/Runtime.cpp:196-249 | A successful shutdown keeps the invariant and moves the status from Running to Shutdown. |
| LifecycleProperties.ShutdownOne | runtime/src/main/cpp/Runtime.cpp:196-249 | Shutdown from a thread with a live runtime, with leak checking off or no other runtime alive, succeeds. It ends at Shutdown, clears the caller's slot, and walks DEINIT_GLOBALS exactly when the caller's runtime was the last. |
| Runtime.RuntimeContext.ShutdownChecked | runtime/src/main/cpp/Runtime.cpp:196-215 | The first CAS and the switch on its result give the three abort reasons, and a thread without a runtime aborts, matching the value-level shutdown. |
| Runtime.RuntimeContext.StopCleanersAndWait | runtime/src/main/cpp/Runtime.cpp:217-245 | The full GC runs only with the cleaner-leak flag, and the cleaners are stopped. The second CAS ends at Shutdown. With the memory-leak flag (read twice) the call waits for native workers and counts the other alive runtimes. |
| Runtime.RuntimeContext.StopAndTearDown | runtime/src/main/cpp/Runtime.cpp:211-248 | The imperative rest of shutdown matches the value-level one on the leak-abort and success paths. |
| Runtime.RuntimeContext.ShutdownRuntime | runtime/src/main/cpp/Runtime.cpp:196-249 | The imperative shutdown matches the value-level one and keeps the invariant. |
| Lifecycle.Inv | runtime/src/main/cpp/Runtime.cpp:39-249 | Defines what holds between entry points: alive runtimes are Running and counted, slots unshared, no activation in flight, and the phase walks balanced against the alive count; preserved by StepPreservesInv and RunPreservesInv. |
| Lifecycle.Step | runtime/src/main/cpp/Runtime.cpp:170-249 | Defines one call of an entry point on the context; StepPreservesInv states what each keeps. |
| Lifecycle.Run | runtime/src/main/cpp/Runtime.cpp:170-249 | Defines calls one after another, the first `Aborted` or `Undefined` ending the run; RunPreservesInv states the invariant over any run. |
| LifecycleProperties.StatusStepForward | runtime/src/main/cpp/Runtime.cpp:117-227 | Every move an entry point makes of the global status is forward in the lifecycle order, never back. |
| LifecycleProperties.StepPreservesInv | runtime/src/main/cpp/Runtime.cpp:114-249 | Every entry point keeps the invariant and moves the global status only forward: Uninitialized to Running, or Running to Shutdown. |
| LifecycleProperties.RunPreservesInv | runtime/src/main/cpp/Runtime.cpp:114-249 | Over any sequence of entry points the invariant holds at the end and the global status never moves back. |
| LifecycleProperties.ActivateThreads | runtime/src/main/cpp/Runtime.cpp:130-139 | N distinct threads activating add N alive runtimes and N INIT_THREAD_LOCAL_GLOBALS walks. INIT_GLOBALS runs once, and only if no runtime was alive. Every one of the threads ends with a live runtime. If INIT_GLOBALS preceded every thread-local initializer before (and no thread-local initializer had run while no runtime was alive), it still does; no deinitialization phase is added. |
| LifecycleProperties.ActivationOrder | runtime/src/main/cpp/Runtime.cpp:130-139 | One activation keeps every INIT_GLOBALS event before every INIT_THREAD_LOCAL_GLOBALS event of the whole trace: a later activation adds no INIT_GLOBALS event, and the first one adds its walk ahead of its own thread-local walk. It adds no deinitialization event. |
| LifecycleProperties.KeepsLive | runtime/src/main/cpp/Runtime.cpp:126-127 | Activations on other threads leave a thread's live runtime in its slot. |
| LifecycleProperties.DeinitThreads | runtime/src/main/cpp/Runtime.cpp:145-153 | N threads deiniting their runtimes remove N alive runtimes and add N DEINIT_THREAD_LOCAL_GLOBALS walks, with no init phase. If every thread-local deinitializer preceded every DEINIT_GLOBALS event before, and DEINIT_GLOBALS had not run while runtimes were alive, that order still holds. |
| LifecycleProperties.DeinitOrder | runtime/src/main/cpp/Runtime.cpp:145-159 | One deactivation keeps every DEINIT_THREAD_LOCAL_GLOBALS event before every DEINIT_GLOBALS event of the whole trace, and adds a DEINIT_GLOBALS walk only when it ends the last runtime. |
| LifecycleProperties.ActivateThenTeardown | runtime/src/main/cpp/Runtime.cpp:130-153 | N threads activating in a fresh process, then all deiniting, run INIT_GLOBALS and DEINIT_GLOBALS exactly once each, and the thread-local phases N times each. Across all threads, INIT_GLOBALS runs before every thread-local initializer and DEINIT_GLOBALS after every thread-local deinitializer. |
| LifecycleProperties.FullTeardown | runtime/src/main/cpp/Runtime.cpp:123-158 | One thread activating and then deiniting in a fresh process leaves no runtime alive and no slot, with the status Running and one INIT_GLOBALS and one DEINIT_GLOBALS walk. |
| LifecycleProperties.ActivationAppends | runtime/src/main/cpp/Runtime.cpp:180-186 | Kotlin_initRuntimeIfNeeded on a thread without a runtime appends the activation's events, with the global setup exactly when no runtime was alive, and then the hook registration. |
| LifecycleProperties.GlobalsRerunAfterFullTeardown | runtime/src/main/cpp/Runtime.cpp:123-158 | Activate, deinit, activate again in a fresh process: the second activation is again the first runtime, so INIT_GLOBALS has run twice and DEINIT_GLOBALS once, with one runtime alive. |
| LifecycleProperties.ShutdownScenario | runtime/src/main/cpp/Runtime.cpp:117-121 | After activate and shutdown, DEINIT_GLOBALS has run once. A later activation on any thread aborts with "runtime was shut down", and a second shutdown aborts "twice". |
| LifecycleProperties.LeakCheckScenario | runtime/src/main/cpp/Runtime.cpp:233-244 | With two runtimes alive, shutdown aborts reporting one other runtime exactly when the memory-leak flag is set. Otherwise it succeeds and leaves the other runtime alive. |

## Left out

- Platform capability queries (`Runtime.cpp` lines 251-317): these are build-time constants with
  no behaviour.
- The leak-flag getters and setters (lines 319-341): the flags are two boolean fields of the
  context.
- Collaborators: memory, workers, the console, ObjC export, the terminate handler, cleaners,
  `konan::onThreadExit`, the allocator. Their code is not part of this model; each call is one
  uninterpreted trace event, in source order.
- `konanConstructInstance` failure is the `allocOk` parameter. Nothing else about allocation or
  object lifetime is modelled. A freed runtime is a handle missing from the handle map.
- Concurrency: memory ordering, `volatile`, and interleavings of entry points on several threads.
  Every atomic operation is one step, and entry points run one at a time. The spin-wait at line
  230 therefore ends at once: the invariant proves that no activation is in flight, and the
  model asserts it. For the same reason the leak check counts the alive runtimes as they were
  when shutdown began, whereas the source reads the counter after
  `WaitNativeWorkersTermination`, while other threads may still tear their runtimes down;
  `ShutdownRuntimeOutcome` and `LeakCheckScenario` are about the count at entry.
- Whether `konan::onThreadExit` runs the hook when its argument is `kInvalidRuntime`: its code is
  not part of this model. The model records the registration with that argument, and the hook
  is only ever called with a handle.
- Console diagnostics from `konan::consoleErrorf`: only the abort and its reason are modelled.
- An abort ends the model's state: `Aborted` carries no context, and the imperative methods that
  return `Abort` promise nothing about the fields. The guard's decrement skipped by an abort in
  `initRuntime` is therefore not visible.
- Runtime.RuntimeContext.DeinitRuntimeCallback: requires the handle to be allocated. The source
  dereferences it regardless; `Lifecycle.DeinitRuntimeCallback` gives `Undefined` instead.
- Runtime.RuntimeContext.DeinitRuntimeIfNeeded: requires a thread's slot not to name a freed
  runtime, which the value-level function reports as `Undefined`.
- Runtime.RuntimeContext.ShutdownRuntime: requires the same of the caller's slot.
- Runtime.RuntimeContext.AppendToInitializersTail: requires a node not yet in the registry, with
  a null `next`. In the source a second append of the same node is a plain write that links the
  list into a cycle, after which every phase walk in `InitOrDeinitGlobalVariables` loops forever.
  The class keeps the registry acyclic (`RegistryValid`), which is what lets its walk loop
  terminate; the value-level function ends the run at a second append as `Undefined`.
