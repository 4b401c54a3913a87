/** Entities of the runtime lifecycle controller (runtime/src/main/cpp/Runtime.cpp). */
module RuntimeTypes {

  /** Identity of a native thread; each thread owns one thread-local `runtimeState` slot. */
  type ThreadId = nat

  /** Identity of a `RuntimeState` allocated by `konanConstructInstance`. Its memory state and
      worker are named after it: the memory state of handle `h` is "the memory of `h`". */
  type HandleId = nat

  datatype Option<T> = None | Some(value: T)

  /** The process-wide `GlobalRuntimeStatus`. */
  datatype GlobalStatus = Uninitialized | Running | ShuttingDown | Shutdown

  /** Position of a global status in the lifecycle order. */
  function Rank(s: GlobalStatus): (k: nat)
    ensures k <= 3
    ensures s == Uninitialized <==> k == 0
  {
    match s
    case Uninitialized => 0
    case Running => 1
    case ShuttingDown => 2
    case Shutdown => 3
  }

  /** The ranks follow the lifecycle order and tell the statuses apart. */
  lemma RankOrder()
    ensures Rank(Uninitialized) < Rank(Running) < Rank(ShuttingDown) < Rank(Shutdown)
    ensures forall s, s' :: Rank(s) == Rank(s') ==> s == s'
  {
  }

  /** The `RuntimeStatus` of one `RuntimeState`. */
  datatype HandleStatus = HandleUninitialized | HandleRunning | HandleDestroying

  /** The phase selector handed to every initializer callback. */
  datatype Phase = InitGlobals | InitThreadLocalGlobals | DeinitThreadLocalGlobals | DeinitGlobals

  /** The integer the source passes as `initialize` for each phase. */
  function PhaseCode(p: Phase): (k: int)
    ensures 0 <= k <= 3
    ensures p == InitGlobals <==> k == 0
    ensures p == InitThreadLocalGlobals <==> k == 1
    ensures p == DeinitThreadLocalGlobals <==> k == 2
    ensures p == DeinitGlobals <==> k == 3
  {
    match p
    case InitGlobals => 0
    case InitThreadLocalGlobals => 1
    case DeinitThreadLocalGlobals => 2
    case DeinitGlobals => 3
  }

  /** The phase a selector integer names: the inverse of PhaseCode on 0..3. */
  function PhaseOfCode(k: int): (p: Phase)
    requires 0 <= k <= 3
    ensures PhaseCode(p) == k
  {
    if k == 0 then InitGlobals
    else if k == 1 then InitThreadLocalGlobals
    else if k == 2 then DeinitThreadLocalGlobals
    else DeinitGlobals
  }

  /** Reading back the selector of a phase gives the phase. */
  lemma PhaseCodeRoundTrip(p: Phase)
    ensures PhaseOfCode(PhaseCode(p)) == p
  {
    PhaseCodeDistinct(PhaseOfCode(PhaseCode(p)), p);
  }

  /** No two phases share a selector, so a callback can tell the phase from the integer it gets. */
  lemma PhaseCodeDistinct(p: Phase, q: Phase)
    requires PhaseCode(p) == PhaseCode(q)
    ensures p == q
  {
  }

  /** One node of the initializer registry: a callback and a forward link. */
  class InitNode {
    /** Identity of the `Initializer` callback the node carries. */
    const init: nat
    var next: InitNode?

    constructor (init: nat)
      ensures this.init == init && next == null
    {
      this.init := init;
      next := null;
    }
  }

  /** Calls into subsystems whose code is not part of this model; only their order is recorded. */
  datatype Collaborator =
    | SetKonanTerminateHandler
    | InitMemory(handle: HandleId)
    | WorkerInit(handle: HandleId, isMain: bool)
    | ConsoleInit
    | ObjCExportInitialize
    | RestoreMemory(handle: HandleId)
    | GetWorkerId(handle: HandleId)
    | WorkerDeinit(handle: HandleId)
    | DeinitMemory(handle: HandleId)
    | DestructInstance(handle: HandleId)
      // keyed by the worker id of `handle`, captured before WorkerDeinit
    | WorkerDestroyThreadDataIfNeeded(handle: HandleId)
      // the argument is the thread's slot at registration time; None is kInvalidRuntime
    | OnThreadExit(thread: ThreadId, argument: Option<HandleId>)
    | PerformFullGC(handle: HandleId)
    | ShutdownCleaners(executeScheduled: bool)
    | WaitNativeWorkersTermination

  /** What the lifecycle controller does, in order. */
  datatype Event =
      // InitOrDeinitGlobalVariables(phase, memory of `memory`) was entered
    | PhaseStarted(phase: Phase, memory: HandleId)
      // the callback of `node` was invoked with `phase`
    | Callback(phase: Phase, node: InitNode, memory: HandleId)
    | External(call: Collaborator)

  /** Why the process was terminated by `konan::abort` or a failed runtime check. */
  datatype AbortReason =
    | RuntimeWasShutDown            // initRuntime after shutdown
    | RuntimeAlreadyActive          // RuntimeCheck(!isValidRuntime())
    | RuntimeNotRunning             // RuntimeAssert(status == kRunning) in deinitRuntime
    | ShutdownTwice                 // shutdown observed ShuttingDown or Shutdown
    | NotInitialized                // shutdown observed Uninitialized
    | NoRuntimeOnThread             // shutdown from a thread without a runtime
    | NegativeRuntimeCount          // RuntimeAssert(otherRuntimesCount >= 0)
    | OtherRuntimesAlive(count: int) // leak checking with other runtimes alive

  /** Where the model stops following the source: a call whose behaviour the source leaves
      undefined, or one after which the source can never again return from a phase walk. */
  datatype Misuse =
    | DanglingHandle(handle: HandleId)  // a freed RuntimeState is dereferenced
    | NodeAppendedTwice                 // appending a registered node again links the registry into
                                        // a cycle, so every later phase walk loops forever

  /** How an imperative entry point ends: it returns, or the process aborts. */
  datatype Exit<T> = Returned(value: T) | Abort(reason: AbortReason)
}
