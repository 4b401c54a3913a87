/** The lifecycle state machine of runtime/src/main/cpp/Runtime.cpp as functions on a context value.
    Each entry point is one function from the context before the call to its outcome; every
    atomic operation of the source is one step inside it. */
module Lifecycle {
  import opened RuntimeTypes
  import opened Registry

  /** The process-wide state the source keeps in globals and thread-locals, made explicit. */
  datatype Ctx = Ctx(
    status: GlobalStatus,                      // globalRuntimeStatus
    alive: int,                                // aliveRuntimesCount
    initializing: int,                         // ScopedInitializingRuntime::initializingRuntimesCount
    checkLeaks: bool,                          // g_checkLeaks
    checkLeakedCleaners: bool,                 // g_checkLeakedCleaners
    objcInterop: bool,                         // KONAN_OBJC_INTEROP build setting
    nodes: seq<InitNode>,                      // initHeadNode .. initTailNode, in list order
    slots: map<ThreadId, HandleId>,            // runtimeState per thread; absent is kInvalidRuntime
    handles: map<HandleId, HandleStatus>,      // allocated RuntimeState objects and their status
    nextHandle: HandleId,                      // the allocator's next fresh RuntimeState
    trace: seq<Event>)                         // what has been done, in order

  /** How an entry point ends: it returns (with the new context), the process aborts, or the
      model ends the run because the source's behaviour is undefined from here or no later
      phase walk would return (see Misuse). */
  datatype Outcome<T> = Ok(ctx: Ctx, value: T) | Aborted(reason: AbortReason) | Undefined(misuse: Misuse)

  /** The context at process start, before any runtime was created. */
  predicate Initial(c: Ctx)
  {
    && c.status == Uninitialized && c.alive == 0 && c.initializing == 0
    && c.slots == map[] && c.handles == map[] && c.trace == []
  }

  /** What holds of the context between entry points in a single-threaded run. */
  predicate Inv(c: Ctx)
  {
    && (forall h :: h in c.handles ==> c.handles[h] == HandleRunning && h < c.nextHandle)
    && c.alive == |c.handles|
    && (forall t :: t in c.slots ==> c.slots[t] < c.nextHandle)
    && (forall t1, t2 :: t1 in c.slots && t2 in c.slots && t1 != t2 ==> c.slots[t1] != c.slots[t2])
    && c.initializing == 0
    && (c.alive > 0 ==> c.status != Uninitialized)
    && Walks(c.trace, InitGlobals) == Walks(c.trace, DeinitGlobals) + (if c.alive > 0 then 1 else 0)
    && Walks(c.trace, InitThreadLocalGlobals) == Walks(c.trace, DeinitThreadLocalGlobals) + c.alive
  }

  /** compareAndSwap(&globalRuntimeStatus, expected, desired): the observed value and the new one. */
  function CompareAndSwap(current: GlobalStatus, expected: GlobalStatus, desired: GlobalStatus)
    : (GlobalStatus, GlobalStatus)
  {
    (current, if current == expected then desired else current)
  }

  /** The only moves of the global status an entry point makes. */
  predicate StatusStep(s: GlobalStatus, s': GlobalStatus)
  {
    s' == s || (s == Uninitialized && s' == Running) || (s == Running && s' == Shutdown)
  }

  /** Nothing but the trace, handles, slots, counters and status may differ. */
  predicate SameConfig(c: Ctx, d: Ctx)
  {
    c.checkLeaks == d.checkLeaks && c.checkLeakedCleaners == d.checkLeakedCleaners &&
    c.objcInterop == d.objcInterop && c.nodes == d.nodes
  }

  /** AppendToInitializersTail: the node becomes the new tail of the registry. Appending a node
      that is already registered is a well-defined write in the source, but it links the list into
      a cycle, so no later INIT or DEINIT walk terminates; the model ends the run there. */
  function AppendToInitializersTail(c: Ctx, n: InitNode): (r: Outcome<()>)
    ensures n in c.nodes <==> r.Undefined?
    ensures r.Ok? ==> r.ctx.nodes == c.nodes + [n] && r.ctx.nodes[0] == (if c.nodes == [] then n else c.nodes[0])
    ensures r.Ok? ==> r.ctx == c.(nodes := r.ctx.nodes)
  {
    if n in c.nodes then Undefined(NodeAppendedTwice)
    else Ok(c.(nodes := c.nodes + [n]), ())
  }

  /** initRuntime on thread `t`; `allocOk` says whether konanConstructInstance succeeded. */
  function InitRuntime(c: Ctx, t: ThreadId, allocOk: bool): (r: Outcome<Option<HandleId>>)
  {
    // The ScopedInitializingRuntime guard raises `initializing` on entry and lowers it on both
    // returns; an abort skips the decrement, but the process is gone then.
    var cas := CompareAndSwap(c.status, Uninitialized, Running);
    if cas.0 == Shutdown then Aborted(RuntimeWasShutDown)
    else ConstructRuntime(c.(status := cas.1), t, allocOk)
  }

  /** initRuntime once the status check has passed: the terminate handler is installed, the
      RuntimeState allocated, the thread's slot checked and claimed, and the runtime activated. */
  function ConstructRuntime(c: Ctx, t: ThreadId, allocOk: bool): Outcome<Option<HandleId>>
  {
    if !allocOk then
      Ok(c.(trace := c.trace + [External(SetKonanTerminateHandler)]), None)
    else if t in c.slots then Aborted(RuntimeAlreadyActive)
    else
      var h := c.nextHandle;
      Ok(c.(slots := c.slots[t := h],
            handles := c.handles[h := HandleRunning],
            nextHandle := h + 1,
            alive := c.alive + 1,
            trace := c.trace + ActivationEvents(c.alive + 1 == 1, c.objcInterop, c.nodes, h)),
         Some(h))
  }

  /** What a successful activation of handle `h` records after the status CAS: the terminate
      handler, the memory and worker of `h`, the one-time process setup with the InitGlobals
      walk when this is the first runtime, then the InitThreadLocalGlobals walk. */
  function ActivationEvents(firstRuntime: bool, objcInterop: bool, nodes: seq<InitNode>, h: HandleId)
    : seq<Event>
  {
    [External(SetKonanTerminateHandler), External(InitMemory(h)), External(WorkerInit(h, true))]
    + (if firstRuntime then GlobalSetupEvents(objcInterop, nodes, h) else [])
    + PhaseWalk(InitThreadLocalGlobals, nodes, h)
  }

  /** The one-time process setup done by the first runtime. */
  function GlobalSetupEvents(objcInterop: bool, nodes: seq<InitNode>, h: HandleId): seq<Event>
  {
    [External(ConsoleInit)]
    + (if objcInterop then [External(ObjCExportInitialize)] else [])
    + PhaseWalk(InitGlobals, nodes, h)
  }

  /** deinitRuntime(h): tears down one runtime, which need not be the caller's slot. */
  function DeinitRuntime(c: Ctx, h: HandleId): (r: Outcome<()>)
  {
    if h !in c.handles then Undefined(DanglingHandle(h))
    else if c.handles[h] != HandleRunning then Aborted(RuntimeNotRunning)
    else
      // the status passes through HandleDestroying until the handle is destroyed
      Ok(c.(handles := c.handles - {h},
            alive := c.alive - 1,
            trace := c.trace + TeardownEvents(c.alive - 1 == 0, c.nodes, h)),
         ())
  }

  /** What tearing down handle `h` records: the memory of `h` restored, the
      DeinitThreadLocalGlobals walk, the DeinitGlobals walk when this was the last runtime, then the
      worker id read, the worker and memory destroyed, the handle freed, and the worker's thread
      data destroyed by the id read before. */
  function TeardownEvents(lastRuntime: bool, nodes: seq<InitNode>, h: HandleId): seq<Event>
  {
    [External(RestoreMemory(h))]
    + PhaseWalk(DeinitThreadLocalGlobals, nodes, h)
    + (if lastRuntime then PhaseWalk(DeinitGlobals, nodes, h) else [])
    + [External(GetWorkerId(h)), External(WorkerDeinit(h)), External(DeinitMemory(h)),
       External(DestructInstance(h)), External(WorkerDestroyThreadDataIfNeeded(h))]
  }

  /** Kotlin_deinitRuntimeCallback(h): the thread-exit hook. It tears the runtime down and leaves
      every slot as it was, so the exiting thread's slot still names the freed handle. */
  function DeinitRuntimeCallback(c: Ctx, h: HandleId): (r: Outcome<()>)
  {
    DeinitRuntime(c, h)
  }

  /** Kotlin_initRuntimeIfNeeded on thread `t`. */
  function InitRuntimeIfNeeded(c: Ctx, t: ThreadId, allocOk: bool): (r: Outcome<()>)
  {
    if t in c.slots then Ok(c, ())
    else
      match InitRuntime(c, t, allocOk)
      case Aborted(reason) => Aborted(reason)
      case Undefined(m) => Undefined(m)
      case Ok(c1, _) =>
        // the result of initRuntime is not looked at: the hook gets whatever the slot holds
        var argument := if t in c1.slots then Some(c1.slots[t]) else None;
        Ok(c1.(trace := c1.trace + [External(OnThreadExit(t, argument))]), ())
  }

  /** Kotlin_deinitRuntimeIfNeeded on thread `t`. */
  function DeinitRuntimeIfNeeded(c: Ctx, t: ThreadId): (r: Outcome<()>)
  {
    if t !in c.slots then Ok(c, ())
    else ClearSlot(DeinitRuntime(c, c.slots[t]), t)
  }

  /** `::runtimeState = kInvalidRuntime` after a successful teardown. */
  function ClearSlot(o: Outcome<()>, t: ThreadId): Outcome<()>
  {
    match o
    case Ok(c, _) => Ok(c.(slots := c.slots - {t}), ())
    case Aborted(reason) => Aborted(reason)
    case Undefined(m) => Undefined(m)
  }

  /** Kotlin_shutdownRuntime on thread `t`. The spin-wait for in-flight activations is a no-op here:
      between entry points of a sequential run none is in flight (Inv has initializing == 0). */
  function ShutdownRuntime(c: Ctx, t: ThreadId): (r: Outcome<()>)
  {
    var cas := CompareAndSwap(c.status, Running, ShuttingDown);
    if cas.0 == ShuttingDown || cas.0 == Shutdown then Aborted(ShutdownTwice)
    else if cas.0 == Uninitialized then Aborted(NotInitialized)
    else if t !in c.slots then Aborted(NoRuntimeOnThread)
    else StopAndTearDown(c.(status := cas.1), t, c.slots[t])
  }

  /** Kotlin_shutdownRuntime once the status is ShuttingDown and the caller's runtime `h` is known:
      cleaners are stopped, the status becomes Shutdown, the leak check runs, and `h` is torn down. */
  function StopAndTearDown(c: Ctx, t: ThreadId, h: HandleId): Outcome<()>
  {
    // PerformFullGC(runtime->memoryState) reads the handle
    if c.checkLeakedCleaners && h !in c.handles then Undefined(DanglingHandle(h))
    else
      var cas := CompareAndSwap(c.status, ShuttingDown, Shutdown);
      // the same flag is read twice; checkLeakedCleaners does not gate the leak check
      var checkLeaks := c.checkLeaks || c.checkLeaks;
      var c1 := c.(status := cas.1, trace := c.trace + ShutdownEvents(c.checkLeakedCleaners, checkLeaks, h));
      var otherRuntimes := c1.alive - 1;
      if checkLeaks && otherRuntimes < 0 then Aborted(NegativeRuntimeCount)
      else if checkLeaks && otherRuntimes > 0 then Aborted(OtherRuntimesAlive(otherRuntimes))
      else ClearSlot(DeinitRuntime(c1, h), t)
  }

  /** What shutdown records before tearing the caller's runtime down: a full collection on the
      caller's memory when cleaner-leak checking is on, the cleaner worker stopped (running the
      pending cleaners only when that check is on), and, when leak checking is on, the wait for
      native workers to terminate. */
  function ShutdownEvents(checkLeakedCleaners: bool, checkLeaks: bool, h: HandleId): seq<Event>
  {
    (if checkLeakedCleaners then [External(PerformFullGC(h))] else [])
    + [External(ShutdownCleaners(checkLeakedCleaners))]
    + (if checkLeaks then [External(WaitNativeWorkersTermination)] else [])
  }

  /** A call of one entry point of the lifecycle controller. */
  datatype Op =
    | CallAppend(node: InitNode)
    | CallInitIfNeeded(thread: ThreadId, allocOk: bool)
    | CallDeinitIfNeeded(thread: ThreadId)
    | CallExitHook(handle: HandleId)
    | CallShutdown(thread: ThreadId)

  function Step(c: Ctx, op: Op): Outcome<()>
  {
    match op
    case CallAppend(n) => AppendToInitializersTail(c, n)
    case CallInitIfNeeded(t, allocOk) => InitRuntimeIfNeeded(c, t, allocOk)
    case CallDeinitIfNeeded(t) => DeinitRuntimeIfNeeded(c, t)
    case CallExitHook(h) => DeinitRuntimeCallback(c, h)
    case CallShutdown(t) => ShutdownRuntime(c, t)
  }

  /** The calls `ops`, one after another; the first abort or misuse ends the run. */
  function Run(c: Ctx, ops: seq<Op>): Outcome<()>
    decreases |ops|
  {
    if ops == [] then Ok(c, ())
    else
      match Step(c, ops[0])
      case Ok(c1, _) => Run(c1, ops[1..])
      case Aborted(reason) => Aborted(reason)
      case Undefined(m) => Undefined(m)
  }
}
