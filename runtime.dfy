/** The lifecycle controller as the source writes it: globals and thread-local slots updated step by
    step, an in-place linked list of initializers, atomics as single steps. Each entry point is
    proved to leave exactly the state the matching function of module Lifecycle computes. */
module Runtime {
  import opened RuntimeTypes
  import opened Registry
  import Lifecycle
  import LifecycleProperties

  /** `r` is how the imperative entry point ended and `s` what the specification says: the same
      abort, or the same returned value with the new state `now`. */
  ghost predicate Matches<T>(r: Exit<T>, s: Lifecycle.Outcome<T>, now: Lifecycle.Ctx)
  {
    match r
    case Abort(reason) => s == Lifecycle.Aborted(reason)
    case Returned(v) => s == Lifecycle.Ok(now, v)
  }

  lemma AppendAssoc(a: seq<Event>, b: seq<Event>, c: seq<Event>)
    ensures (a + b) + c == a + (b + c)
  {
  }

  /** GlobalSetupEvents in the order initRuntime records them, one append at a time. */
  lemma GlobalSetupSteps(t: seq<Event>, objcInterop: bool, nodes: seq<InitNode>, h: HandleId)
    ensures var console := t + [External(ConsoleInit)];
      (if objcInterop then console + [External(ObjCExportInitialize)] else console) + PhaseWalk(InitGlobals, nodes, h)
      == t + Lifecycle.GlobalSetupEvents(objcInterop, nodes, h)
  {
    var console := t + [External(ConsoleInit)];
    var opt := if objcInterop then [External(ObjCExportInitialize)] else [];
    if !objcInterop {
      assert console == console + opt;
    }
    AppendAssoc(t, [External(ConsoleInit)], opt);
    AppendAssoc(t, [External(ConsoleInit)] + opt, PhaseWalk(InitGlobals, nodes, h));
  }

  /** What initRuntime records after allocating handle `h` and claiming the slot. */
  function ActivationTail(firstRuntime: bool, objcInterop: bool, nodes: seq<InitNode>, h: HandleId): (e: seq<Event>)
    ensures [External(SetKonanTerminateHandler)] + e == Lifecycle.ActivationEvents(firstRuntime, objcInterop, nodes, h)
  {
    var g := if firstRuntime then Lifecycle.GlobalSetupEvents(objcInterop, nodes, h) else [];
    var w := PhaseWalk(InitThreadLocalGlobals, nodes, h);
    var p := [External(InitMemory(h)), External(WorkerInit(h, true))];
    assert [External(SetKonanTerminateHandler)] + p
        == [External(SetKonanTerminateHandler), External(InitMemory(h)), External(WorkerInit(h, true))];
    AppendAssoc([External(SetKonanTerminateHandler)], p, g);
    AppendAssoc([External(SetKonanTerminateHandler)], p + g, w);
    (p + g) + w
  }

  /** ConstructRuntime when allocation succeeds and the slot is free. */
  lemma ConstructRuntimeActivates(c: Lifecycle.Ctx, t: ThreadId)
    requires t !in c.slots
    ensures var h := c.nextHandle;
      Lifecycle.ConstructRuntime(c, t, true)
      == Lifecycle.Ok(c.(slots := c.slots[t := h],
                         handles := c.handles[h := HandleRunning],
                         nextHandle := h + 1,
                         alive := c.alive + 1,
                         trace := (c.trace + [External(SetKonanTerminateHandler)])
                                  + ActivationTail(c.alive + 1 == 1, c.objcInterop, c.nodes, h)),
                      Some(h))
  {
    var h := c.nextHandle;
    var e := ActivationTail(c.alive + 1 == 1, c.objcInterop, c.nodes, h);
    AppendAssoc(c.trace, [External(SetKonanTerminateHandler)], e);
  }

  /** initRuntime is its guarded ConstructRuntime: what ConstructRuntime does with the guard's counter
      raised is what initRuntime does, once the counter is lowered again on return. */
  lemma GuardedConstruct(c: Lifecycle.Ctx, t: ThreadId, allocOk: bool, r: Exit<Option<HandleId>>, now: Lifecycle.Ctx)
    requires c.status != Shutdown
    requires var g := c.(status := Lifecycle.CompareAndSwap(c.status, Uninitialized, Running).1,
                         initializing := c.initializing + 1);
      Matches(r, Lifecycle.ConstructRuntime(g, t, allocOk), now)
    ensures r.Abort? ==> Matches(r, Lifecycle.InitRuntime(c, t, allocOk), now)
    ensures r.Returned? ==> Matches(r, Lifecycle.InitRuntime(c, t, allocOk), now.(initializing := c.initializing))
  {
  }

  /** deinitRuntime of a running handle. */
  lemma DeinitRuntimeTearsDown(c: Lifecycle.Ctx, h: HandleId)
    requires h in c.handles && c.handles[h] == HandleRunning
    ensures Lifecycle.DeinitRuntime(c, h)
      == Lifecycle.Ok(c.(handles := c.handles - {h}, alive := c.alive - 1,
                         trace := c.trace + Lifecycle.TeardownEvents(c.alive - 1 == 0, c.nodes, h)), ())
  {
  }

  lemma UpdateTwice(m: map<HandleId, HandleStatus>, h: HandleId, u: HandleStatus, v: HandleStatus)
    ensures m[h := u][h := v] == m[h := v]
  {
  }

  lemma RemoveUpdated(m: map<HandleId, HandleStatus>, h: HandleId, v: HandleStatus)
    ensures m[h := v] - {h} == m - {h}
  {
  }

  /** TeardownEvents in the order deinitRuntime records them, one append at a time. */
  lemma TeardownSteps(t: seq<Event>, lastRuntime: bool, nodes: seq<InitNode>, h: HandleId)
    ensures var x := (t + [External(RestoreMemory(h))]) + PhaseWalk(DeinitThreadLocalGlobals, nodes, h);
      var y := if lastRuntime then x + PhaseWalk(DeinitGlobals, nodes, h) else x;
      ((y + [External(GetWorkerId(h)), External(WorkerDeinit(h)), External(DeinitMemory(h))])
        + [External(DestructInstance(h))]) + [External(WorkerDestroyThreadDataIfNeeded(h))]
      == t + Lifecycle.TeardownEvents(lastRuntime, nodes, h)
  {
    var r := [External(RestoreMemory(h))];
    var tl := PhaseWalk(DeinitThreadLocalGlobals, nodes, h);
    var g := if lastRuntime then PhaseWalk(DeinitGlobals, nodes, h) else [];
    var p3 := [External(GetWorkerId(h)), External(WorkerDeinit(h)), External(DeinitMemory(h))];
    var post := [External(GetWorkerId(h)), External(WorkerDeinit(h)), External(DeinitMemory(h)),
                 External(DestructInstance(h)), External(WorkerDestroyThreadDataIfNeeded(h))];
    var x := (t + r) + tl;
    var y := x + g;
    if !lastRuntime {
      assert x + [] == x;
    }
    AppendAssoc(y, p3, [External(DestructInstance(h))]);
    AppendAssoc(y, p3 + [External(DestructInstance(h))], [External(WorkerDestroyThreadDataIfNeeded(h))]);
    assert (p3 + [External(DestructInstance(h))]) + [External(WorkerDestroyThreadDataIfNeeded(h))] == post;
    AppendAssoc(t, r, tl);
    AppendAssoc(t, r + tl, g);
    AppendAssoc(t, (r + tl) + g, post);
  }

  /** With leak checking and another runtime alive, shutdown aborts before any teardown. */
  lemma StopAndTearDownAborts(c: Lifecycle.Ctx, t: ThreadId, h: HandleId)
    requires h in c.handles && c.checkLeaks && c.alive > 1
    ensures Lifecycle.StopAndTearDown(c, t, h) == Lifecycle.Aborted(OtherRuntimesAlive(c.alive - 1))
  {
  }

  /** Past the leak check, shutdown is the caller's teardown followed by clearing its slot. */
  lemma StopAndTearDownClearsSlot(c: Lifecycle.Ctx, t: ThreadId, h: HandleId, mid: Lifecycle.Ctx)
    requires h in c.handles && (c.checkLeaks ==> c.alive == 1)
    requires var c1 := c.(status := Lifecycle.CompareAndSwap(c.status, ShuttingDown, Shutdown).1,
                          trace := c.trace + Lifecycle.ShutdownEvents(c.checkLeakedCleaners, c.checkLeaks, h));
      Lifecycle.DeinitRuntime(c1, h) == Lifecycle.Ok(mid, ())
    ensures Lifecycle.StopAndTearDown(c, t, h) == Lifecycle.Ok(mid.(slots := mid.slots - {t}), ())
  {
  }

  /** ShutdownEvents in the order Kotlin_shutdownRuntime records them. */
  lemma ShutdownSteps(t: seq<Event>, cleaners: bool, leaks: bool, h: HandleId)
    ensures var x := if cleaners then t + [External(PerformFullGC(h))] else t;
      var y := x + [External(ShutdownCleaners(cleaners))];
      (if leaks then y + [External(WaitNativeWorkersTermination)] else y)
      == t + Lifecycle.ShutdownEvents(cleaners, leaks, h)
  {
  }

  class RuntimeContext {
    var globalRuntimeStatus: GlobalStatus
    var aliveRuntimesCount: int
    var initializingRuntimesCount: int
    var checkLeaks: bool
    var checkLeakedCleaners: bool
    const objcInterop: bool
    var initHeadNode: InitNode?
    var initTailNode: InitNode?
    /** The registry's nodes from head to tail. */
    ghost var nodes: seq<InitNode>
    /** The thread-local `runtimeState` of every thread; a thread absent here holds kInvalidRuntime. */
    var runtimeState: map<ThreadId, HandleId>
    /** The `status` of every RuntimeState not yet destroyed. */
    var handleStatus: map<HandleId, HandleStatus>
    /** What konanConstructInstance returns next when it succeeds. */
    var nextHandle: HandleId
    ghost var trace: seq<Event>

    /** The linked list from initHeadNode along `next` to initTailNode is exactly `nodes`. */
    ghost predicate RegistryValid()
      reads this`initHeadNode, this`initTailNode, this`nodes, nodes
    {
      && (nodes == [] ==> initHeadNode == null && initTailNode == null)
      && (nodes != [] ==>
            initHeadNode == nodes[0] && initTailNode == nodes[|nodes| - 1] && nodes[|nodes| - 1].next == null)
      && (forall i :: 0 <= i < |nodes| - 1 ==> nodes[i].next == nodes[i + 1])
      && (forall i, j :: 0 <= i < j < |nodes| ==> nodes[i] != nodes[j])
    }

    ghost function State(): Lifecycle.Ctx
      reads this
    {
      Lifecycle.Ctx(globalRuntimeStatus, aliveRuntimesCount, initializingRuntimesCount,
                    checkLeaks, checkLeakedCleaners, objcInterop, nodes,
                    runtimeState, handleStatus, nextHandle, trace)
    }

    ghost predicate Valid()
      reads this, nodes
    {
      RegistryValid() && Lifecycle.Inv(State())
    }

    /** The state at process start; the leak flags start at whatever the build chose. */
    constructor (checkLeaks: bool, checkLeakedCleaners: bool, objcInterop: bool)
      ensures Valid() && Lifecycle.Initial(State()) && nodes == []
      ensures this.checkLeaks == checkLeaks && this.checkLeakedCleaners == checkLeakedCleaners
      ensures this.objcInterop == objcInterop
    {
      globalRuntimeStatus := Uninitialized;
      aliveRuntimesCount := 0;
      initializingRuntimesCount := 0;
      this.checkLeaks := checkLeaks;
      this.checkLeakedCleaners := checkLeakedCleaners;
      this.objcInterop := objcInterop;
      initHeadNode := null;
      initTailNode := null;
      nodes := [];
      runtimeState := map[];
      handleStatus := map[];
      nextHandle := 0;
      trace := [];
    }

    /** compareAndSwap on globalRuntimeStatus: returns the value it observed. */
    method CompareAndSwapStatus(expected: GlobalStatus, desired: GlobalStatus) returns (last: GlobalStatus)
      modifies this`globalRuntimeStatus
      ensures last == old(globalRuntimeStatus)
      ensures globalRuntimeStatus == if last == expected then desired else last
    {
      last := globalRuntimeStatus;
      if last == expected {
        globalRuntimeStatus := desired;
      }
    }

    /** atomicAdd on aliveRuntimesCount: returns the new value. */
    method AddAliveRuntimes(delta: int) returns (value: int)
      modifies this`aliveRuntimesCount
      ensures value == old(aliveRuntimesCount) + delta && aliveRuntimesCount == value
    {
      aliveRuntimesCount := aliveRuntimesCount + delta;
      value := aliveRuntimesCount;
    }

    /** The constructor of ScopedInitializingRuntime. */
    method EnterInitializing()
      modifies this`initializingRuntimesCount
      ensures initializingRuntimesCount == old(initializingRuntimesCount) + 1
    {
      initializingRuntimesCount := initializingRuntimesCount + 1;
    }

    /** The destructor of ScopedInitializingRuntime, run on every return of initRuntime. */
    method LeaveInitializing()
      modifies this`initializingRuntimesCount
      ensures initializingRuntimesCount == old(initializingRuntimesCount) - 1
    {
      initializingRuntimesCount := initializingRuntimesCount - 1;
    }

    /** ScopedInitializingRuntime::IsInitializing. */
    predicate IsInitializing()
      reads this
    {
      initializingRuntimesCount > 0
    }

    /** AppendToInitializersTail: links `n` after the tail (or makes it the head) and makes it the tail. */
    method AppendToInitializersTail(n: InitNode) returns (r: Exit<()>)
      requires Valid() && n !in nodes && n.next == null
      modifies this`initHeadNode, this`initTailNode, this`nodes, nodes
      ensures Valid()
      ensures Matches(r, Lifecycle.AppendToInitializersTail(old(State()), n), State())
      ensures initHeadNode == nodes[0] && initTailNode == n
    {
      ghost var c := State();
      LinkAtTail(n);
      r := Returned(());
      assert State() == c.(nodes := c.nodes + [n]);
      LifecycleProperties.InvIgnoresNodes(c, nodes);
    }

    /** The list surgery of AppendToInitializersTail. */
    method LinkAtTail(n: InitNode)
      requires RegistryValid() && n !in nodes && n.next == null
      modifies this`initHeadNode, this`initTailNode, this`nodes, nodes
      ensures RegistryValid() && nodes == old(nodes) + [n]
      ensures initHeadNode == nodes[0] && initTailNode == n
    {
      ghost var before := nodes;
      if initHeadNode == null {
        initHeadNode := n;
      } else {
        initTailNode.next := n;
      }
      initTailNode := n;
      nodes := nodes + [n];
      forall i | 0 <= i < |nodes| - 1 ensures nodes[i].next == nodes[i + 1] {
        if i < |before| - 1 {
          assert nodes[i] == before[i] && before[i] != before[|before| - 1];
        }
      }
    }

    /** InitOrDeinitGlobalVariables: invokes every node's callback with the selector `initialize`,
        head to tail. */
    method InitOrDeinitGlobalVariables(initialize: int, memory: HandleId)
      requires RegistryValid() && 0 <= initialize <= 3
      modifies this`trace
      ensures trace == old(trace) + PhaseWalk(PhaseOfCode(initialize), nodes, memory)
    {
      var phase := PhaseOfCode(initialize);
      ghost var start := trace + [PhaseStarted(phase, memory)];
      trace := start;
      var currentNode := initHeadNode;
      ghost var i := 0;
      while currentNode != null
        invariant 0 <= i <= |nodes|
        invariant currentNode == if i < |nodes| then nodes[i] else null
        invariant trace == start + Callbacks(phase, nodes[..i], memory)
        decreases |nodes| - i
      {
        CallbacksSnoc(phase, nodes, i, memory);
        trace := trace + [Callback(phase, currentNode, memory)];
        currentNode := currentNode.next;
        i := i + 1;
      }
      assert nodes[..i] == nodes;
    }

    /** konanConstructInstance<RuntimeState>() when it succeeds: a new handle, not yet running. */
    method ConstructInstance() returns (h: HandleId)
      modifies this`nextHandle, this`handleStatus
      ensures h == old(nextHandle) && nextHandle == h + 1
      ensures handleStatus == old(handleStatus)[h := HandleUninitialized]
    {
      h := nextHandle;
      nextHandle := nextHandle + 1;
      handleStatus := handleStatus[h := HandleUninitialized];
    }

    /** The one-time process setup of the first runtime: console, ObjC export, InitGlobals walk. */
    method RunGlobalSetup(h: HandleId)
      requires RegistryValid()
      modifies this`trace
      ensures trace == old(trace) + Lifecycle.GlobalSetupEvents(objcInterop, nodes, h)
    {
      ghost var t := trace;
      trace := trace + [External(ConsoleInit)];
      if objcInterop {
        trace := trace + [External(ObjCExportInitialize)];
      }
      InitOrDeinitGlobalVariables(PhaseCode(InitGlobals), h);
      GlobalSetupSteps(t, objcInterop, nodes, h);
    }

    /** The part of initRuntime after the slot is claimed: memory and worker, the alive count,
        the initializer walks, and the handle's move to running. */
    method ActivateRuntime(h: HandleId)
      requires RegistryValid() && h in handleStatus && handleStatus[h] == HandleUninitialized
      modifies this`aliveRuntimesCount, this`handleStatus, this`trace
      ensures aliveRuntimesCount == old(aliveRuntimesCount) + 1
      ensures handleStatus == old(handleStatus)[h := HandleRunning]
      ensures trace == old(trace) + ActivationTail(old(aliveRuntimesCount) + 1 == 1, objcInterop, nodes, h)
    {
      ghost var t := trace;
      ghost var p := [External(InitMemory(h)), External(WorkerInit(h, true))];
      trace := trace + p;
      var alive := AddAliveRuntimes(1);
      var firstRuntime := alive == 1;
      ghost var g := if firstRuntime then Lifecycle.GlobalSetupEvents(objcInterop, nodes, h) else [];
      if firstRuntime {
        RunGlobalSetup(h);
      } else {
        assert trace == trace + g;
      }
      InitOrDeinitGlobalVariables(PhaseCode(InitThreadLocalGlobals), h);
      // RuntimeAssert(result->status == RuntimeStatus::kUninitialized)
      assert handleStatus[h] == HandleUninitialized;
      handleStatus := handleStatus[h := HandleRunning];
      AppendAssoc(t, p, g);
      AppendAssoc(t, p + g, PhaseWalk(InitThreadLocalGlobals, nodes, h));
    }

    /** initRuntime from the allocation on: the new handle takes the thread's slot, which must be
        free, and is activated. */
    method ClaimSlotAndActivate(t: ThreadId) returns (r: Exit<HandleId>)
      requires RegistryValid()
      modifies this`aliveRuntimesCount, this`runtimeState, this`handleStatus, this`nextHandle, this`trace
      ensures r.Abort? <==> t in old(runtimeState)
      ensures r.Abort? ==> r.reason == RuntimeAlreadyActive
      ensures r.Returned? ==>
        && r.value == old(nextHandle) && nextHandle == old(nextHandle) + 1
        && runtimeState == old(runtimeState)[t := r.value]
        && handleStatus == old(handleStatus)[r.value := HandleRunning]
        && aliveRuntimesCount == old(aliveRuntimesCount) + 1
        && trace == old(trace) + ActivationTail(old(aliveRuntimesCount) + 1 == 1, objcInterop, nodes, r.value)
    {
      var result := ConstructInstance();
      // RuntimeCheck(!isValidRuntime())
      if t in runtimeState {
        return Abort(RuntimeAlreadyActive);
      }
      runtimeState := runtimeState[t := result];
      ActivateRuntime(result);
      UpdateTwice(old(handleStatus), result, HandleUninitialized, HandleRunning);
      r := Returned(result);
    }

    /** initRuntime on thread `t`; `allocOk` says whether konanConstructInstance succeeds. The guard's
        destructor runs when the function returns, after everything else. */
    method InitRuntime(t: ThreadId, allocOk: bool) returns (r: Exit<Option<HandleId>>)
      requires RegistryValid()
      modifies this`globalRuntimeStatus, this`aliveRuntimesCount, this`initializingRuntimesCount,
               this`runtimeState, this`handleStatus, this`nextHandle, this`trace
      ensures Matches(r, Lifecycle.InitRuntime(old(State()), t, allocOk), State())
    {
      ghost var c := State();
      EnterInitializing();
      var lastStatus := CompareAndSwapStatus(Uninitialized, Running);
      if lastStatus == Shutdown {
        return Abort(RuntimeWasShutDown);
      }
      RegistryKept();
      ghost var guarded := State();
      assert guarded == c.(status := Lifecycle.CompareAndSwap(c.status, Uninitialized, Running).1,
                           initializing := c.initializing + 1);
      r := ConstructRuntime(t, allocOk);
      ghost var now := State();
      GuardedConstruct(c, t, allocOk, r, now);
      if r.Abort? {
        return;
      }
      LeaveInitializing();
      assert State() == now.(initializing := c.initializing);
    }

    /** initRuntime from SetKonanTerminateHandler on. */
    method ConstructRuntime(t: ThreadId, allocOk: bool) returns (r: Exit<Option<HandleId>>)
      requires RegistryValid()
      modifies this`aliveRuntimesCount, this`runtimeState, this`handleStatus, this`nextHandle, this`trace
      ensures Matches(r, Lifecycle.ConstructRuntime(old(State()), t, allocOk), State())
    {
      ghost var c := State();
      trace := trace + [External(SetKonanTerminateHandler)];
      if !allocOk {
        return Returned(None);
      }
      var claimed := ClaimSlotAndActivate(t);
      if claimed.Abort? {
        return Abort(claimed.reason);
      }
      ConstructRuntimeActivates(c, t);
      r := Returned(Some(claimed.value));
    }

    /** The part of deinitRuntime after its status check. */
    method TearDown(h: HandleId)
      requires RegistryValid() && h in handleStatus
      modifies this`aliveRuntimesCount, this`handleStatus, this`trace
      ensures handleStatus == old(handleStatus) - {h}
      ensures aliveRuntimesCount == old(aliveRuntimesCount) - 1
      ensures trace == old(trace) + Lifecycle.TeardownEvents(old(aliveRuntimesCount) - 1 == 0, nodes, h)
    {
      ghost var c := handleStatus;
      ghost var t := trace;
      handleStatus := handleStatus[h := HandleDestroying];
      trace := trace + [External(RestoreMemory(h))];
      var alive := AddAliveRuntimes(-1);
      var lastRuntime := alive == 0;
      InitOrDeinitGlobalVariables(PhaseCode(DeinitThreadLocalGlobals), h);
      if lastRuntime {
        InitOrDeinitGlobalVariables(PhaseCode(DeinitGlobals), h);
      }
      trace := trace + [External(GetWorkerId(h)), External(WorkerDeinit(h)), External(DeinitMemory(h))];
      trace := trace + [External(DestructInstance(h))];
      RemoveUpdated(c, h, HandleDestroying);
      handleStatus := handleStatus - {h};
      trace := trace + [External(WorkerDestroyThreadDataIfNeeded(h))];
      TeardownSteps(t, lastRuntime, nodes, h);
    }

    /** deinitRuntime(h): tears down a runtime that has not been destroyed yet. */
    method DeinitRuntime(h: HandleId) returns (r: Exit<()>)
      requires RegistryValid() && h in handleStatus
      modifies this`aliveRuntimesCount, this`handleStatus, this`trace
      ensures Matches(r, Lifecycle.DeinitRuntime(old(State()), h), State())
    {
      // RuntimeAssert(state->status == kRunning)
      if handleStatus[h] != HandleRunning {
        return Abort(RuntimeNotRunning);
      }
      ghost var c := State();
      TearDown(h);
      DeinitRuntimeTearsDown(c, h);
      r := Returned(());
    }

    /** Activations, teardowns and shutdown leave the registry alone. */
    twostate lemma RegistryKept()
      requires old(RegistryValid())
      requires unchanged(this`initHeadNode, this`initTailNode, this`nodes)
      requires forall n :: n in nodes ==> unchanged(n)
      ensures RegistryValid()
    {
      assert nodes == old(nodes);
      forall i | 0 <= i < |nodes| ensures nodes[i].next == old(nodes[i].next) {
        assert nodes[i] in nodes;
      }
    }

    /** Kotlin_deinitRuntimeCallback: the thread-exit hook, given the runtime registered for it. */
    method DeinitRuntimeCallback(h: HandleId) returns (r: Exit<()>)
      requires Valid() && h in handleStatus
      modifies this`aliveRuntimesCount, this`handleStatus, this`trace
      ensures Matches(r, Lifecycle.DeinitRuntimeCallback(old(State()), h), State())
      ensures r.Returned? ==> Valid()
    {
      ghost var c := State();
      r := DeinitRuntime(h);
      RegistryKept();
      if r.Returned? {
        LifecycleProperties.DeinitRuntimePreservesInv(c, h, State());
      }
    }

    /** Kotlin_initRuntimeIfNeeded on thread `t`. */
    method InitRuntimeIfNeeded(t: ThreadId, allocOk: bool) returns (r: Exit<()>)
      requires Valid()
      modifies this`globalRuntimeStatus, this`aliveRuntimesCount, this`initializingRuntimesCount,
               this`runtimeState, this`handleStatus, this`nextHandle, this`trace
      ensures Matches(r, Lifecycle.InitRuntimeIfNeeded(old(State()), t, allocOk), State())
      ensures r.Returned? ==> Valid()
    {
      ghost var c := State();
      r := InitRuntimeAndRegisterHook(t, allocOk);
      RegistryKept();
      if r.Returned? {
        LifecycleProperties.InitRuntimeIfNeededPreservesInv(c, t, allocOk, State());
      }
    }

    /** Kotlin_initRuntimeIfNeeded: initRuntime, then the thread-exit hook, on a thread without a runtime. */
    method InitRuntimeAndRegisterHook(t: ThreadId, allocOk: bool) returns (r: Exit<()>)
      requires RegistryValid()
      modifies this`globalRuntimeStatus, this`aliveRuntimesCount, this`initializingRuntimesCount,
               this`runtimeState, this`handleStatus, this`nextHandle, this`trace
      ensures Matches(r, Lifecycle.InitRuntimeIfNeeded(old(State()), t, allocOk), State())
    {
      if t !in runtimeState {
        // the result is not looked at; an abort inside ends the process
        var ignored := InitRuntime(t, allocOk);
        if ignored.Abort? {
          return Abort(ignored.reason);
        }
        var argument := if t in runtimeState then Some(runtimeState[t]) else None;
        trace := trace + [External(OnThreadExit(t, argument))];
      }
      r := Returned(());
    }

    /** Kotlin_deinitRuntimeIfNeeded on thread `t`, whose slot does not name a destroyed runtime. */
    method DeinitRuntimeIfNeeded(t: ThreadId) returns (r: Exit<()>)
      requires Valid() && (t in runtimeState ==> runtimeState[t] in handleStatus)
      modifies this`aliveRuntimesCount, this`runtimeState, this`handleStatus, this`trace
      ensures Matches(r, Lifecycle.DeinitRuntimeIfNeeded(old(State()), t), State())
      ensures r.Returned? ==> Valid()
    {
      ghost var c := State();
      if t in runtimeState {
        var done := DeinitRuntime(runtimeState[t]);
        assert done.Returned?;
        runtimeState := runtimeState - {t};
        LifecycleProperties.DeinitRuntimeIfNeededPreservesInv(c, t, State());
      }
      RegistryKept();
      r := Returned(());
    }

    /** Kotlin_shutdownRuntime on thread `t`, whose slot does not name a destroyed runtime. */
    method ShutdownRuntime(t: ThreadId) returns (r: Exit<()>)
      requires Valid() && (t in runtimeState ==> runtimeState[t] in handleStatus)
      modifies this`globalRuntimeStatus, this`aliveRuntimesCount, this`runtimeState,
               this`handleStatus, this`trace
      ensures Matches(r, Lifecycle.ShutdownRuntime(old(State()), t), State())
      ensures r.Returned? ==> Valid()
    {
      ghost var c := State();
      r := ShutdownChecked(t);
      RegistryKept();
      if r.Returned? {
        LifecycleProperties.ShutdownPreservesInv(c, t, State());
      }
    }

    /** Kotlin_shutdownRuntime: the status and slot checks. */
    method ShutdownChecked(t: ThreadId) returns (r: Exit<()>)
      requires RegistryValid() && initializingRuntimesCount == 0 && Lifecycle.Inv(State())
      requires t in runtimeState ==> runtimeState[t] in handleStatus
      modifies this`globalRuntimeStatus, this`aliveRuntimesCount, this`runtimeState,
               this`handleStatus, this`trace
      ensures Matches(r, Lifecycle.ShutdownRuntime(old(State()), t), State())
    {
      var lastStatus := CompareAndSwapStatus(Running, ShuttingDown);
      match lastStatus {
        case Running =>
        case ShuttingDown => return Abort(ShutdownTwice);
        case Shutdown => return Abort(ShutdownTwice);
        case Uninitialized => return Abort(NotInitialized);
      }
      if t !in runtimeState {
        return Abort(NoRuntimeOnThread);
      }
      r := StopAndTearDown(t);
    }

    /** Kotlin_shutdownRuntime from the moment the caller's runtime is known. */
    method StopAndTearDown(t: ThreadId) returns (r: Exit<()>)
      requires RegistryValid() && globalRuntimeStatus == ShuttingDown && initializingRuntimesCount == 0
      requires t in runtimeState && runtimeState[t] in handleStatus
      requires handleStatus[runtimeState[t]] == HandleRunning && aliveRuntimesCount >= 1
      modifies this`globalRuntimeStatus, this`aliveRuntimesCount, this`runtimeState,
               this`handleStatus, this`trace
      ensures Matches(r, Lifecycle.StopAndTearDown(old(State()), t, old(runtimeState)[t]), State())
    {
      ghost var c := State();
      var runtime := runtimeState[t];
      var otherRuntimesCount := StopCleanersAndWait(runtime);
      if otherRuntimesCount > 0 {
        StopAndTearDownAborts(c, t, runtime);
        return Abort(OtherRuntimesAlive(otherRuntimesCount));
      }
      ghost var stopped := State();
      assert stopped == c.(status := Shutdown,
                           trace := c.trace + Lifecycle.ShutdownEvents(checkLeakedCleaners, checkLeaks, runtime));
      RegistryKept();
      var done := DeinitRuntime(runtime);
      assert done.Returned?;
      ghost var mid := State();
      StopAndTearDownClearsSlot(c, t, runtime, mid);
      runtimeState := runtimeState - {t};
      assert State() == mid.(slots := mid.slots - {t});
      r := Returned(());
    }

    /** Shutdown up to the teardown of the caller's runtime: cleaners are stopped, the status
        becomes Shutdown, and with leak checking the other alive runtimes are counted (zero
        without it). */
    method StopCleanersAndWait(runtime: HandleId) returns (otherRuntimesCount: int)
      requires globalRuntimeStatus == ShuttingDown && initializingRuntimesCount == 0
      requires aliveRuntimesCount >= 1
      modifies this`globalRuntimeStatus, this`trace
      ensures globalRuntimeStatus == Shutdown
      ensures trace == old(trace) + Lifecycle.ShutdownEvents(checkLeakedCleaners, checkLeaks, runtime)
      ensures otherRuntimesCount == if checkLeaks then aliveRuntimesCount - 1 else 0
    {
      if checkLeakedCleaners {
        trace := trace + [External(PerformFullGC(runtime))];
      }
      trace := trace + [External(ShutdownCleaners(checkLeakedCleaners))];
      var lastStatus := CompareAndSwapStatus(ShuttingDown, Shutdown);
      // RuntimeAssert(lastStatus == kGlobalRuntimeShuttingDown)
      assert lastStatus == ShuttingDown;
      // The spin-wait `while (IsInitializing()) {}` ends at once: no activation is in flight.
      assert !IsInitializing();
      otherRuntimesCount := 0;
      if checkLeaks || checkLeaks {
        trace := trace + [External(WaitNativeWorkersTermination)];
        otherRuntimesCount := aliveRuntimesCount - 1;
        // RuntimeAssert(otherRuntimesCount >= 0)
        assert otherRuntimesCount >= 0;
      }
      ShutdownSteps(old(trace), checkLeakedCleaners, checkLeaks || checkLeaks, runtime);
    }
  }
}
