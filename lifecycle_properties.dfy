/** What the lifecycle controller guarantees, proved about the functions of module Lifecycle:
    per call (which phases run, in which order) and over whole runs of calls. */
module LifecycleProperties {
  import opened RuntimeTypes
  import opened Registry
  import opened Lifecycle

  /** What initRuntime promises: it aborts exactly after shutdown or on a thread that already has a
      runtime (the latter only when the allocation succeeded), and otherwise starts the global
      status, keeps the guard balanced, and, when allocation succeeds, installs a fresh running
      handle in the slot. */
  lemma InitRuntimeOutcome(c: Ctx, t: ThreadId, allocOk: bool)
    ensures var r := InitRuntime(c, t, allocOk);
      && (!r.Undefined?)
      && (r.Aborted? <==> c.status == Shutdown || (allocOk && t in c.slots))
      && (r.Aborted? ==> r.reason == if c.status == Shutdown then RuntimeWasShutDown else RuntimeAlreadyActive)
      && (r.Ok? ==>
          && r.ctx.status == (if c.status == Uninitialized then Running else c.status)
          && r.ctx.initializing == c.initializing
          && SameConfig(c, r.ctx))
      && (r.Ok? && !allocOk ==>
          r.value == None && r.ctx.alive == c.alive && r.ctx.slots == c.slots &&
          r.ctx.handles == c.handles && r.ctx.nextHandle == c.nextHandle)
      && (r.Ok? && allocOk ==>
          && r.value == Some(c.nextHandle)
          && r.ctx.slots == c.slots[t := c.nextHandle]
          && r.ctx.handles == c.handles[c.nextHandle := HandleRunning]
          && r.ctx.alive == c.alive + 1
          && r.ctx.nextHandle == c.nextHandle + 1)
  {
  }

  /** What deinitRuntime promises: a handle that is not allocated is misuse, one that is not running
      aborts, and a running one is freed, with one alive runtime less and nothing else changed. */
  lemma DeinitRuntimeOutcome(c: Ctx, h: HandleId)
    ensures var r := DeinitRuntime(c, h);
      && (r.Undefined? <==> h !in c.handles)
      && (r.Aborted? <==> h in c.handles && c.handles[h] != HandleRunning)
      && (r.Aborted? ==> r.reason == RuntimeNotRunning)
      && (r.Ok? ==>
          && r.ctx.handles == c.handles - {h}
          && r.ctx.alive == c.alive - 1
          && r.ctx.status == c.status && r.ctx.slots == c.slots && r.ctx.initializing == c.initializing
          && r.ctx.nextHandle == c.nextHandle && SameConfig(c, r.ctx))
  {
  }

  /** What the thread-exit hook promises: it frees the runtime and leaves every slot alone. */
  lemma DeinitRuntimeCallbackOutcome(c: Ctx, h: HandleId)
    ensures var r := DeinitRuntimeCallback(c, h);
      && (r.Undefined? <==> h !in c.handles)
      && (r.Ok? ==> r.ctx.slots == c.slots && h !in r.ctx.handles && r.ctx.alive == c.alive - 1)
  {
  }

  /** What Kotlin_initRuntimeIfNeeded promises: nothing happens on a thread with a runtime;
      otherwise it aborts exactly after shutdown, and else the thread has a runtime exactly when
      allocation succeeded, and the last thing recorded is the exit hook, given the slot as it is
      then. */
  lemma InitRuntimeIfNeededOutcome(c: Ctx, t: ThreadId, allocOk: bool)
    ensures var r := InitRuntimeIfNeeded(c, t, allocOk);
      && (!r.Undefined?)
      && (t in c.slots ==> r == Ok(c, ()))
      && (t !in c.slots ==> (r.Aborted? <==> c.status == Shutdown))
      && (t !in c.slots && r.Ok? ==>
          && (t in r.ctx.slots <==> allocOk)
          && r.ctx.alive == c.alive + (if allocOk then 1 else 0)
          && r.ctx.initializing == c.initializing
          && |r.ctx.trace| > 0
          && r.ctx.trace[|r.ctx.trace| - 1]
             == External(OnThreadExit(t, if allocOk then Some(c.nextHandle) else None)))
  {
  }

  /** What Kotlin_deinitRuntimeIfNeeded promises: nothing happens on a thread without a runtime; a
      slot naming a freed runtime is misuse; otherwise the runtime is freed and the slot cleared. */
  lemma DeinitRuntimeIfNeededOutcome(c: Ctx, t: ThreadId)
    ensures var r := DeinitRuntimeIfNeeded(c, t);
      && (t !in c.slots ==> r == Ok(c, ()))
      && (t in c.slots ==> (r.Undefined? <==> c.slots[t] !in c.handles))
      && (t in c.slots && r.Ok? ==>
          && r.ctx.slots == c.slots - {t}
          && r.ctx.handles == c.handles - {c.slots[t]}
          && r.ctx.alive == c.alive - 1
          && r.ctx.status == c.status)
  {
  }

  /** What Kotlin_shutdownRuntime promises: each status other than Running aborts with its own
      reason, so does a thread without a runtime, leak checking aborts exactly when other runtimes
      are alive, and a successful shutdown ends at Shutdown with the caller's runtime freed and its
      slot cleared. */
  lemma ShutdownRuntimeOutcome(c: Ctx, t: ThreadId)
    ensures var r := ShutdownRuntime(c, t);
      && (c.status == Uninitialized ==> r == Aborted(NotInitialized))
      && (c.status == ShuttingDown || c.status == Shutdown ==> r == Aborted(ShutdownTwice))
      && (c.status == Running && t !in c.slots ==> r == Aborted(NoRuntimeOnThread))
      && (r.Aborted? && r.reason.OtherRuntimesAlive? ==> c.checkLeaks && r.reason.count == c.alive - 1)
      && (c.status == Running && t in c.slots && c.slots[t] in c.handles && c.checkLeaks ==>
          (c.alive - 1 > 0 <==> r.Aborted? && r.reason.OtherRuntimesAlive?))
      && (r.Ok? ==>
          && c.status == Running && t in c.slots
          && r.ctx.status == Shutdown
          && r.ctx.slots == c.slots - {t}
          && r.ctx.handles == c.handles - {c.slots[t]}
          && r.ctx.alive == c.alive - 1
          && (c.checkLeaks ==> r.ctx.alive == 0)
          && r.ctx.initializing == c.initializing)
  {
  }

  /** An activation runs InitGlobals exactly when it is the first runtime, always runs
      InitThreadLocalGlobals, runs no teardown phase, and finishes InitGlobals before
      InitThreadLocalGlobals starts. */
  lemma ActivationTrace(firstRuntime: bool, objcInterop: bool, nodes: seq<InitNode>, h: HandleId)
    ensures var e := ActivationEvents(firstRuntime, objcInterop, nodes, h);
      && Walks(e, InitGlobals) == (if firstRuntime then 1 else 0)
      && Walks(e, InitThreadLocalGlobals) == 1
      && Walks(e, DeinitThreadLocalGlobals) == 0
      && Walks(e, DeinitGlobals) == 0
      && PhaseBefore(e, InitGlobals, InitThreadLocalGlobals)
      && NoPhase(e, DeinitThreadLocalGlobals)
      && NoPhase(e, DeinitGlobals)
      && (!firstRuntime ==> NoPhase(e, InitGlobals))
  {
    var pre := [External(SetKonanTerminateHandler), External(InitMemory(h)), External(WorkerInit(h, true))];
    var glob := if firstRuntime then GlobalSetupEvents(objcInterop, nodes, h) else [];
    var tl := PhaseWalk(InitThreadLocalGlobals, nodes, h);
    PhaseWalkEvents(InitThreadLocalGlobals, nodes, h);
    var e := ActivationEvents(firstRuntime, objcInterop, nodes, h);
    assert e == (pre + glob) + tl;
    forall p: Phase
      ensures Walks(glob, p) == (if firstRuntime && p == InitGlobals then 1 else 0)
      ensures p != InitGlobals ==> NoPhase(glob, p)
    {
      if firstRuntime { GlobalSetupTrace(objcInterop, nodes, h, p); }
    }
    forall p: Phase
      ensures Walks(e, p) == (if firstRuntime && p == InitGlobals then 1 else 0)
                             + (if p == InitThreadLocalGlobals then 1 else 0)
    {
      ExternalsHaveNoWalk(pre, p);
      WalksOfPhaseWalk(InitThreadLocalGlobals, nodes, h, p);
      WalksAppend(pre, glob, p);
      WalksAppend(pre + glob, tl, p);
    }
    NoPhaseAppend(pre, glob, InitThreadLocalGlobals);
    PhaseBeforeAppend(pre + glob, tl, InitGlobals, InitThreadLocalGlobals);
    forall p: Phase | p != InitThreadLocalGlobals && (firstRuntime ==> p != InitGlobals)
      ensures NoPhase(e, p)
    {
      NoPhaseAppend(pre, glob, p);
      NoPhaseAppend(pre + glob, tl, p);
    }
  }

  /** The one-time process setup walks InitGlobals once and belongs to no other phase. */
  lemma GlobalSetupTrace(objcInterop: bool, nodes: seq<InitNode>, h: HandleId, p: Phase)
    ensures Walks(GlobalSetupEvents(objcInterop, nodes, h), p) == if p == InitGlobals then 1 else 0
    ensures p != InitGlobals ==> NoPhase(GlobalSetupEvents(objcInterop, nodes, h), p)
  {
    var ext := [External(ConsoleInit)] + (if objcInterop then [External(ObjCExportInitialize)] else []);
    var ig := PhaseWalk(InitGlobals, nodes, h);
    PhaseWalkEvents(InitGlobals, nodes, h);
    assert GlobalSetupEvents(objcInterop, nodes, h) == ext + ig;
    ExternalsHaveNoWalk(ext, p);
    WalksOfPhaseWalk(InitGlobals, nodes, h, p);
    WalksAppend(ext, ig, p);
    if p != InitGlobals {
      NoPhaseAppend(ext, ig, p);
    }
  }

  /** A teardown always runs DeinitThreadLocalGlobals, runs DeinitGlobals exactly when it is the
      last runtime and only after DeinitThreadLocalGlobals, runs no init phase, restores the
      memory first, reads the worker id right before destroying the worker, and destroys the
      worker's thread data last, after the handle is freed. */
  lemma TeardownTrace(lastRuntime: bool, nodes: seq<InitNode>, h: HandleId)
    ensures var e := TeardownEvents(lastRuntime, nodes, h);
      && Walks(e, DeinitThreadLocalGlobals) == 1
      && Walks(e, DeinitGlobals) == (if lastRuntime then 1 else 0)
      && Walks(e, InitGlobals) == 0
      && Walks(e, InitThreadLocalGlobals) == 0
      && PhaseBefore(e, DeinitThreadLocalGlobals, DeinitGlobals)
      && (!lastRuntime ==> NoPhase(e, DeinitGlobals))
      && |e| >= 6
      && e[0] == External(RestoreMemory(h))
      && e[|e| - 5] == External(GetWorkerId(h))
      && e[|e| - 4] == External(WorkerDeinit(h))
      && e[|e| - 2] == External(DestructInstance(h))
      && e[|e| - 1] == External(WorkerDestroyThreadDataIfNeeded(h))
  {
    var pre := [External(RestoreMemory(h))];
    var tl := PhaseWalk(DeinitThreadLocalGlobals, nodes, h);
    var glob := if lastRuntime then PhaseWalk(DeinitGlobals, nodes, h) else [];
    PhaseWalkEvents(DeinitThreadLocalGlobals, nodes, h);
    PhaseWalkEvents(DeinitGlobals, nodes, h);
    var post := [External(GetWorkerId(h)), External(WorkerDeinit(h)), External(DeinitMemory(h)),
                 External(DestructInstance(h)), External(WorkerDestroyThreadDataIfNeeded(h))];
    var e := TeardownEvents(lastRuntime, nodes, h);
    assert e == ((pre + tl) + glob) + post;
    forall p: Phase
      ensures Walks(e, p) == (if p == DeinitThreadLocalGlobals then 1 else 0)
                             + (if lastRuntime && p == DeinitGlobals then 1 else 0)
    {
      ExternalsHaveNoWalk(pre, p);
      ExternalsHaveNoWalk(post, p);
      WalksOfPhaseWalk(DeinitThreadLocalGlobals, nodes, h, p);
      if lastRuntime { WalksOfPhaseWalk(DeinitGlobals, nodes, h, p); }
      WalksAppend(pre, tl, p);
      WalksAppend(pre + tl, glob, p);
      WalksAppend((pre + tl) + glob, post, p);
    }
    assert NoPhase(pre + tl, DeinitGlobals) by { NoPhaseAppend(pre, tl, DeinitGlobals); }
    assert NoPhase(glob + post, DeinitThreadLocalGlobals) by {
      NoPhaseAppend(glob, post, DeinitThreadLocalGlobals);
    }
    assert e == (pre + tl) + (glob + post);
    PhaseBeforeAppend(pre + tl, glob + post, DeinitThreadLocalGlobals, DeinitGlobals);
    if !lastRuntime {
      NoPhaseAppend(pre + tl, glob + post, DeinitGlobals);
    }
  }

  /** The walk counts of a teardown, without its shape. */
  lemma TeardownWalks(lastRuntime: bool, nodes: seq<InitNode>, h: HandleId)
    ensures var e := TeardownEvents(lastRuntime, nodes, h);
      && Walks(e, DeinitThreadLocalGlobals) == 1
      && Walks(e, DeinitGlobals) == (if lastRuntime then 1 else 0)
      && Walks(e, InitGlobals) == 0
      && Walks(e, InitThreadLocalGlobals) == 0
  {
    TeardownTrace(lastRuntime, nodes, h);
  }

  /** Appending collaborator calls and moving the status off Uninitialized keeps the invariant. */
  lemma InvExternals(c: Ctx, s: GlobalStatus, es: seq<Event>)
    requires Inv(c) && s != Uninitialized
    requires forall i :: 0 <= i < |es| ==> es[i].External?
    ensures Inv(c.(status := s, trace := c.trace + es))
  {
    forall p: Phase {
      ExternalsKeepWalks(c.trace, es, p);
    }
  }

  lemma MapRemoveCard(m: map<HandleId, HandleStatus>, h: HandleId)
    requires h in m
    ensures |m - {h}| == |m| - 1
  {
    assert (m - {h}).Keys == m.Keys - {h};
    assert |m.Keys - {h}| == |m.Keys| - 1;
  }

  lemma InitRuntimePreservesInv(c: Ctx, t: ThreadId, allocOk: bool)
    requires Inv(c) && InitRuntime(c, t, allocOk).Ok?
    ensures Inv(InitRuntime(c, t, allocOk).ctx)
  {
    var s := CompareAndSwap(c.status, Uninitialized, Running).1;
    if allocOk {
      ActivationKeepsInv(c, s, t);
    } else {
      InvExternals(c, s, [External(SetKonanTerminateHandler)]);
    }
  }

  /** A successful activation with allocation keeps the invariant. */
  lemma ActivationKeepsInv(c: Ctx, s: GlobalStatus, t: ThreadId)
    requires Inv(c) && s != Uninitialized && t !in c.slots
    ensures var h := c.nextHandle;
      Inv(c.(status := s,
             slots := c.slots[t := h],
             handles := c.handles[h := HandleRunning],
             nextHandle := h + 1,
             alive := c.alive + 1,
             trace := c.trace + ActivationEvents(c.alive + 1 == 1, c.objcInterop, c.nodes, h)))
  {
    var h := c.nextHandle;
    var e := ActivationEvents(c.alive + 1 == 1, c.objcInterop, c.nodes, h);
    ActivationTrace(c.alive + 1 == 1, c.objcInterop, c.nodes, h);
    forall p: Phase ensures Walks(c.trace + e, p) == Walks(c.trace, p) + Walks(e, p) {
      WalksAppend(c.trace, e, p);
    }
    assert h !in c.handles;
    assert |c.handles[h := HandleRunning]| == |c.handles| + 1;
  }

  lemma DeinitRuntimePreservesInv(c: Ctx, h: HandleId, d: Ctx)
    requires Inv(c) && DeinitRuntime(c, h) == Ok(d, ())
    ensures Inv(d) && d.status == c.status
  {
    TeardownWalks(c.alive - 1 == 0, c.nodes, h);
    forall p: Phase {
      DeinitRuntimeWalks(c, h, p);
    }
    MapRemoveCard(c.handles, h);
  }

  /** Tearing a runtime down adds the walks of its teardown events. */
  lemma DeinitRuntimeWalks(c: Ctx, h: HandleId, p: Phase)
    requires DeinitRuntime(c, h).Ok?
    ensures Walks(DeinitRuntime(c, h).ctx.trace, p)
            == Walks(c.trace, p) + Walks(TeardownEvents(c.alive - 1 == 0, c.nodes, h), p)
  {
    var e := TeardownEvents(c.alive - 1 == 0, c.nodes, h);
    assert DeinitRuntime(c, h).ctx.trace == c.trace + e;
    WalksAppend(c.trace, e, p);
  }

  /** Collaborator calls leave every walk count as it was. */
  lemma ExternalsKeepWalks(trace: seq<Event>, es: seq<Event>, p: Phase)
    requires forall i :: 0 <= i < |es| ==> es[i].External?
    ensures Walks(trace + es, p) == Walks(trace, p)
  {
    ExternalsHaveNoWalk(es, p);
    WalksAppend(trace, es, p);
  }

  lemma ShutdownEventsAreExternal(checkLeakedCleaners: bool, checkLeaks: bool, h: HandleId)
    ensures var e := ShutdownEvents(checkLeakedCleaners, checkLeaks, h);
      forall i :: 0 <= i < |e| ==> e[i].External?
  {
  }

  lemma ShutdownPreservesInv(c: Ctx, t: ThreadId, d: Ctx)
    requires Inv(c) && ShutdownRuntime(c, t) == Ok(d, ())
    ensures Inv(d) && c.status == Running && d.status == Shutdown
  {
    ShutdownSucceeds(c, t);
    var h := c.slots[t];
    var e := ShutdownEvents(c.checkLeakedCleaners, c.checkLeaks, h);
    var c1 := c.(status := Shutdown, trace := c.trace + e);
    ShutdownEventsAreExternal(c.checkLeakedCleaners, c.checkLeaks, h);
    InvExternals(c, Shutdown, e);
    ShutdownTearsDown(c, t);
    var d1 := DeinitRuntime(c1, h).ctx;
    DeinitRuntimePreservesInv(c1, h, d1);
    InvClearSlot(d1, t);
  }

  /** A shutdown that succeeds was called while running, from a thread holding a live runtime,
      with leak checking off or no other runtime alive. */
  lemma ShutdownSucceeds(c: Ctx, t: ThreadId)
    requires ShutdownRuntime(c, t).Ok?
    ensures c.status == Running && t in c.slots && c.slots[t] in c.handles
    ensures c.checkLeaks ==> c.alive == 1
  {
  }

  /** The invariant does not look at the registry. */
  lemma InvIgnoresNodes(c: Ctx, nodes: seq<InitNode>)
    requires Inv(c)
    ensures Inv(c.(nodes := nodes))
  {
  }

  /** Clearing a slot keeps the invariant. */
  lemma InvClearSlot(c: Ctx, t: ThreadId)
    requires Inv(c)
    ensures Inv(c.(slots := c.slots - {t}))
  {
  }

  lemma InitRuntimeIfNeededPreservesInv(c: Ctx, t: ThreadId, allocOk: bool, d: Ctx)
    requires Inv(c) && InitRuntimeIfNeeded(c, t, allocOk) == Ok(d, ())
    ensures Inv(d) && StatusStep(c.status, d.status)
    ensures d.status == (if t !in c.slots && c.status == Uninitialized then Running else c.status)
  {
    if t !in c.slots {
      InitRuntimePreservesInv(c, t, allocOk);
      var c1 := InitRuntime(c, t, allocOk).ctx;
      var argument := if t in c1.slots then Some(c1.slots[t]) else None;
      InvExternals(c1, c1.status, [External(OnThreadExit(t, argument))]);
      assert c1.(status := c1.status) == c1;
    }
  }

  lemma DeinitRuntimeIfNeededPreservesInv(c: Ctx, t: ThreadId, d: Ctx)
    requires Inv(c) && DeinitRuntimeIfNeeded(c, t) == Ok(d, ())
    ensures Inv(d) && d.status == c.status
  {
    if t in c.slots {
      var d1 := DeinitRuntime(c, c.slots[t]).ctx;
      DeinitRuntimePreservesInv(c, c.slots[t], d1);
      assert d == d1.(slots := d1.slots - {t});
    }
  }

  /** An entry point never moves the global status back in the lifecycle order, and a move it
      makes is strictly forward. */
  lemma StatusStepForward(s: GlobalStatus, s': GlobalStatus)
    requires StatusStep(s, s')
    ensures Rank(s) <= Rank(s')
    ensures s != s' ==> Rank(s) < Rank(s')
  {
    RankOrder();
  }

  /** The first quirk of initRuntime: an activation that observes ShuttingDown is not refused. On
      a thread without a runtime it succeeds, installs a running runtime, and leaves the status at
      ShuttingDown, so a runtime can be created while shutdown is under way. */
  lemma ActivationWhileShuttingDown(c: Ctx, t: ThreadId)
    requires c.status == ShuttingDown && t !in c.slots
    ensures var r := InitRuntime(c, t, true);
      && r.Ok?
      && r.ctx.status == ShuttingDown
      && t in r.ctx.slots && r.ctx.handles[r.ctx.slots[t]] == HandleRunning
      && r.ctx.alive == c.alive + 1
  {
  }

  /** Every entry point keeps the invariant and moves the global status only forward. */
  lemma StepPreservesInv(c: Ctx, op: Op)
    requires Inv(c) && Step(c, op).Ok?
    ensures Inv(Step(c, op).ctx)
    ensures StatusStep(c.status, Step(c, op).ctx.status)
  {
    var d := Step(c, op).ctx;
    match op
    case CallAppend(n) =>
      assert d == c.(nodes := c.nodes + [n]);
    case CallInitIfNeeded(t, allocOk) =>
      InitRuntimeIfNeededPreservesInv(c, t, allocOk, d);
    case CallDeinitIfNeeded(t) =>
      DeinitRuntimeIfNeededPreservesInv(c, t, d);
    case CallExitHook(h) =>
      DeinitRuntimePreservesInv(c, h, d);
    case CallShutdown(t) =>
      ShutdownPreservesInv(c, t, d);
  }

  /** Over any run of calls: the invariant holds at the end (so InitGlobals ran once more than
      DeinitGlobals exactly while a runtime is alive, and every alive runtime ran
      InitThreadLocalGlobals without DeinitThreadLocalGlobals), and the global status never
      moved backwards. */
  lemma {:induction false} RunPreservesInv(c: Ctx, ops: seq<Op>)
    requires Inv(c) && Run(c, ops).Ok?
    ensures Inv(Run(c, ops).ctx)
    ensures Rank(c.status) <= Rank(Run(c, ops).ctx.status)
    decreases |ops|
  {
    if ops != [] {
      StepPreservesInv(c, ops[0]);
      RunPreservesInv(Step(c, ops[0]).ctx, ops[1..]);
    }
  }

  /** Explicit `Kotlin_deinitRuntimeIfNeeded` followed by the thread-exit hook registered for the
      same runtime is not idempotent: the hook dereferences the freed handle. */
  /** The exit hook run for a thread's live runtime tears that runtime down: one runtime fewer,
      one DEINIT_THREAD_LOCAL_GLOBALS walk, and a DEINIT_GLOBALS walk only if it was the last.
      The hook does not touch the slot, which is left naming the freed runtime. */
  lemma ExitHookTearsDown(c: Ctx, t: ThreadId)
    requires Inv(c) && t in c.slots && c.slots[t] in c.handles
    ensures DeinitRuntimeCallback(c, c.slots[t]).Ok?
    ensures var r := DeinitRuntimeCallback(c, c.slots[t]).ctx;
      && r.alive == c.alive - 1
      && r.slots == c.slots && c.slots[t] !in r.handles
      && Walks(r.trace, DeinitThreadLocalGlobals) == Walks(c.trace, DeinitThreadLocalGlobals) + 1
      && Walks(r.trace, DeinitGlobals) == Walks(c.trace, DeinitGlobals) + (if c.alive == 1 then 1 else 0)
      && Walks(r.trace, InitGlobals) == Walks(c.trace, InitGlobals)
      && Walks(r.trace, InitThreadLocalGlobals) == Walks(c.trace, InitThreadLocalGlobals)
  {
    var h := c.slots[t];
    forall p: Phase
      ensures Walks(DeinitRuntime(c, h).ctx.trace, p)
              == Walks(c.trace, p) + Walks(TeardownEvents(c.alive - 1 == 0, c.nodes, h), p)
    {
      DeinitRuntimeWalks(c, h, p);
    }
    TeardownWalks(c.alive - 1 == 0, c.nodes, h);
  }
  lemma HookAfterExplicitDeinit(c: Ctx, t: ThreadId)
    requires Inv(c) && t in c.slots && c.slots[t] in c.handles
    ensures Run(c, [CallDeinitIfNeeded(t), CallExitHook(c.slots[t])]) == Undefined(DanglingHandle(c.slots[t]))
  {
    var c1 := DeinitRuntimeIfNeeded(c, t).ctx;
    assert [CallDeinitIfNeeded(t), CallExitHook(c.slots[t])][1..] == [CallExitHook(c.slots[t])];
    assert Run(c1, [CallExitHook(c.slots[t])]) == DeinitRuntimeCallback(c1, c.slots[t]);
  }

  /** `InitRuntimeIfNeeded` with a successful allocation on each thread of `ts`, in order. */
  function InitAll(ts: seq<ThreadId>): (ops: seq<Op>)
    ensures |ops| == |ts|
    ensures forall i :: 0 <= i < |ts| ==> ops[i] == CallInitIfNeeded(ts[i], true)
  {
    if ts == [] then [] else [CallInitIfNeeded(ts[0], true)] + InitAll(ts[1..])
  }

  /** `DeinitRuntimeIfNeeded` on each thread of `ts`, in order. */
  function DeinitAll(ts: seq<ThreadId>): (ops: seq<Op>)
    ensures |ops| == |ts|
    ensures forall i :: 0 <= i < |ts| ==> ops[i] == CallDeinitIfNeeded(ts[i])
  {
    if ts == [] then [] else [CallDeinitIfNeeded(ts[0])] + DeinitAll(ts[1..])
  }

  predicate Distinct(ts: seq<ThreadId>)
  {
    forall i, j :: 0 <= i < j < |ts| ==> ts[i] != ts[j]
  }

  /** A run whose first call succeeds goes on from the context that call left. */
  lemma RunCons(c: Ctx, ops: seq<Op>)
    requires ops != [] && Step(c, ops[0]).Ok?
    ensures Run(c, ops) == Run(Step(c, ops[0]).ctx, ops[1..])
  {
  }

  /** One thread without a runtime activating one. */
  lemma ActivateOne(c: Ctx, t: ThreadId)
    requires Inv(c) && c.status != Shutdown && t !in c.slots
    ensures Step(c, CallInitIfNeeded(t, true)).Ok?
    ensures var r := Step(c, CallInitIfNeeded(t, true)).ctx;
      && Inv(r)
      && r.alive == c.alive + 1
      && r.status == (if c.status == Uninitialized then Running else c.status)
      && Walks(r.trace, InitGlobals) == Walks(c.trace, InitGlobals) + (if c.alive == 0 then 1 else 0)
      && Walks(r.trace, InitThreadLocalGlobals) == Walks(c.trace, InitThreadLocalGlobals) + 1
      && Walks(r.trace, DeinitThreadLocalGlobals) == Walks(c.trace, DeinitThreadLocalGlobals)
      && Walks(r.trace, DeinitGlobals) == Walks(c.trace, DeinitGlobals)
      && r.slots == c.slots[t := c.nextHandle] && r.handles == c.handles[c.nextHandle := HandleRunning]
  {
    var a := InitRuntime(c, t, true);
    var c1 := Step(c, CallInitIfNeeded(t, true)).ctx;
    var ev := [External(OnThreadExit(t, Some(c.nextHandle)))];
    assert c1 == a.ctx.(trace := a.ctx.trace + ev);
    InitRuntimeIfNeededPreservesInv(c, t, true, c1);
    var e := ActivationEvents(c.alive + 1 == 1, c.objcInterop, c.nodes, c.nextHandle);
    assert c1.trace == (c.trace + e) + ev;
    ActivationTrace(c.alive + 1 == 1, c.objcInterop, c.nodes, c.nextHandle);
    forall p: Phase ensures Walks(c1.trace, p) == Walks(c.trace, p) + Walks(e, p) {
      WalksAppend(c.trace, e, p);
      ExternalsHaveNoWalk(ev, p);
      WalksAppend(c.trace + e, ev, p);
    }
  }
  lemma {:induction false} ActivateThreads(c: Ctx, ts: seq<ThreadId>)
    requires Inv(c) && c.status != Shutdown && Distinct(ts)
    requires forall i :: 0 <= i < |ts| ==> ts[i] !in c.slots
    ensures Run(c, InitAll(ts)).Ok?
    ensures var r := Run(c, InitAll(ts)).ctx;
      && Inv(r)
      && r.alive == c.alive + |ts|
      && r.status == (if ts != [] && c.status == Uninitialized then Running else c.status)
      && Walks(r.trace, InitGlobals) == Walks(c.trace, InitGlobals) + (if c.alive == 0 && ts != [] then 1 else 0)
      && Walks(r.trace, InitThreadLocalGlobals) == Walks(c.trace, InitThreadLocalGlobals) + |ts|
      && Walks(r.trace, DeinitThreadLocalGlobals) == Walks(c.trace, DeinitThreadLocalGlobals)
      && Walks(r.trace, DeinitGlobals) == Walks(c.trace, DeinitGlobals)
      && (forall i :: 0 <= i < |ts| ==> ts[i] in r.slots && r.slots[ts[i]] in r.handles)
      && (PhaseBefore(c.trace, InitGlobals, InitThreadLocalGlobals)
          && (c.alive == 0 ==> NoPhase(c.trace, InitThreadLocalGlobals))
          ==> PhaseBefore(r.trace, InitGlobals, InitThreadLocalGlobals))
      && (NoPhase(c.trace, DeinitThreadLocalGlobals) ==> NoPhase(r.trace, DeinitThreadLocalGlobals))
      && (NoPhase(c.trace, DeinitGlobals) ==> NoPhase(r.trace, DeinitGlobals))
    decreases |ts|
  {
    if ts != [] {
      var t := ts[0];
      var ops := InitAll(ts);
      assert ops[0] == CallInitIfNeeded(t, true);
      assert ops[1..] == InitAll(ts[1..]);
      ActivateOne(c, t);
      ActivationOrder(c, t);
      var c1 := Step(c, ops[0]).ctx;
      RunCons(c, ops);
      var rest := ts[1..];
      FreshTail(ts, c.slots, c.nextHandle);
      ActivateThreads(c1, rest);
      var r := Run(c1, InitAll(rest)).ctx;
      assert Run(c, ops).ctx == r;
      assert t in c1.slots && c1.slots[t] in c1.handles;
      KeepsLive(c1, rest, t);
      forall i | 0 <= i < |ts| ensures ts[i] in r.slots && r.slots[ts[i]] in r.handles {
        if i > 0 { assert ts[i] == rest[i - 1]; }
      }
    }
  }

  /** The threads after the first are distinct and still without a runtime once the first has one. */
  lemma FreshTail(ts: seq<ThreadId>, before: map<ThreadId, HandleId>, h: HandleId)
    requires ts != [] && Distinct(ts) && (forall i :: 0 <= i < |ts| ==> ts[i] !in before)
    ensures var after := before[ts[0] := h];
      Distinct(ts[1..]) && forall i :: 0 <= i < |ts| - 1 ==> ts[1..][i] !in after
  {
    var rest := ts[1..];
    assert forall i :: 0 <= i < |rest| ==> rest[i] == ts[i + 1];
  }

  /** Activations on other threads leave a thread's live runtime in place. */
  lemma {:induction false} KeepsLive(c: Ctx, ts: seq<ThreadId>, u: ThreadId)
    requires Inv(c) && c.status != Shutdown && Distinct(ts)
    requires forall i :: 0 <= i < |ts| ==> ts[i] !in c.slots
    requires u in c.slots && c.slots[u] in c.handles
    ensures Run(c, InitAll(ts)).Ok?
    ensures var r := Run(c, InitAll(ts)).ctx; u in r.slots && r.slots[u] == c.slots[u] && r.slots[u] in r.handles
    decreases |ts|
  {
    if ts != [] {
      var ops := InitAll(ts);
      assert ops[0] == CallInitIfNeeded(ts[0], true);
      assert ops[1..] == InitAll(ts[1..]);
      ActivateOne(c, ts[0]);
      var c1 := Step(c, ops[0]).ctx;
      RunCons(c, ops);
      var rest := ts[1..];
      FreshTail(ts, c.slots, c.nextHandle);
      KeepsLive(c1, rest, u);
    }
  }

  /** What Kotlin_initRuntimeIfNeeded appends to the trace on a thread without a runtime:
      the activation, then the registration of the exit hook. */
  lemma ActivationAppends(c: Ctx, t: ThreadId)
    requires Inv(c) && c.status != Shutdown && t !in c.slots
    ensures Step(c, CallInitIfNeeded(t, true)).Ok?
    ensures Step(c, CallInitIfNeeded(t, true)).ctx.trace
      == (c.trace + ActivationEvents(c.alive == 0, c.objcInterop, c.nodes, c.nextHandle))
         + [External(OnThreadExit(t, Some(c.nextHandle)))]
  {
    ActivateOne(c, t);
    var a := InitRuntime(c, t, true);
    var c1 := Step(c, CallInitIfNeeded(t, true)).ctx;
    var ev := [External(OnThreadExit(t, Some(c.nextHandle)))];
    assert c1 == a.ctx.(trace := a.ctx.trace + ev);
    assert c.alive + 1 == 1 <==> c.alive == 0;
  }
  /** One activation keeps every INIT_GLOBALS callback ahead of every thread-local
      initializer, and adds no deinitialization events. */
  lemma ActivationOrder(c: Ctx, t: ThreadId)
    requires Inv(c) && c.status != Shutdown && t !in c.slots
    ensures Step(c, CallInitIfNeeded(t, true)).Ok?
    ensures var r := Step(c, CallInitIfNeeded(t, true)).ctx;
      && (PhaseBefore(c.trace, InitGlobals, InitThreadLocalGlobals)
          && (c.alive == 0 ==> NoPhase(c.trace, InitThreadLocalGlobals))
          ==> PhaseBefore(r.trace, InitGlobals, InitThreadLocalGlobals))
      && (NoPhase(c.trace, DeinitThreadLocalGlobals) ==> NoPhase(r.trace, DeinitThreadLocalGlobals))
      && (NoPhase(c.trace, DeinitGlobals) ==> NoPhase(r.trace, DeinitGlobals))
  {
    var c1 := Step(c, CallInitIfNeeded(t, true)).ctx;
    var ev := [External(OnThreadExit(t, Some(c.nextHandle)))];
    var e := ActivationEvents(c.alive == 0, c.objcInterop, c.nodes, c.nextHandle);
    ActivationAppends(c, t);
    ActivationTrace(c.alive == 0, c.objcInterop, c.nodes, c.nextHandle);
    if PhaseBefore(c.trace, InitGlobals, InitThreadLocalGlobals)
       && (c.alive == 0 ==> NoPhase(c.trace, InitThreadLocalGlobals))
    {
      PhaseBeforeConcat(c.trace, e, InitGlobals, InitThreadLocalGlobals);
      PhaseBeforeConcat(c.trace + e, ev, InitGlobals, InitThreadLocalGlobals);
    }
    forall p: Phase | p != InitGlobals && p != InitThreadLocalGlobals && NoPhase(c.trace, p)
      ensures NoPhase(c1.trace, p)
    {
      NoPhaseAppend(c.trace, e, p);
      NoPhaseAppend(c.trace + e, ev, p);
    }
  }
  /** One deactivation keeps every thread-local deinitializer ahead of every
      DEINIT_GLOBALS callback, and runs DEINIT_GLOBALS only when it ends the last runtime. */
  lemma DeinitOrder(c: Ctx, t: ThreadId)
    requires Inv(c) && t in c.slots && c.slots[t] in c.handles
    ensures Step(c, CallDeinitIfNeeded(t)).Ok?
    ensures var r := Step(c, CallDeinitIfNeeded(t)).ctx;
      PhaseBefore(c.trace, DeinitThreadLocalGlobals, DeinitGlobals)
      && (c.alive > 0 ==> NoPhase(c.trace, DeinitGlobals))
      ==> PhaseBefore(r.trace, DeinitThreadLocalGlobals, DeinitGlobals)
          && (r.alive > 0 ==> NoPhase(r.trace, DeinitGlobals))
  {
    DeinitOne(c, t);
    var h := c.slots[t];
    var c1 := Step(c, CallDeinitIfNeeded(t)).ctx;
    var e := TeardownEvents(c.alive - 1 == 0, c.nodes, h);
    assert c1.trace == c.trace + e;
    TeardownTrace(c.alive - 1 == 0, c.nodes, h);
    if PhaseBefore(c.trace, DeinitThreadLocalGlobals, DeinitGlobals)
       && (c.alive > 0 ==> NoPhase(c.trace, DeinitGlobals))
    {
      PhaseBeforeConcat(c.trace, e, DeinitThreadLocalGlobals, DeinitGlobals);
      if c1.alive > 0 {
        NoPhaseAppend(c.trace, e, DeinitGlobals);
      }
    }
  }
  /** One thread holding a live runtime tearing it down. */
  lemma DeinitOne(c: Ctx, t: ThreadId)
    requires Inv(c) && t in c.slots && c.slots[t] in c.handles
    ensures Step(c, CallDeinitIfNeeded(t)).Ok?
    ensures var r := Step(c, CallDeinitIfNeeded(t)).ctx;
      && Inv(r)
      && r.alive == c.alive - 1
      && r.status == c.status
      && Walks(r.trace, InitGlobals) == Walks(c.trace, InitGlobals)
      && Walks(r.trace, InitThreadLocalGlobals) == Walks(c.trace, InitThreadLocalGlobals)
      && Walks(r.trace, DeinitThreadLocalGlobals) == Walks(c.trace, DeinitThreadLocalGlobals) + 1
      && r.slots == c.slots - {t} && r.handles == c.handles - {c.slots[t]}
  {
    var h := c.slots[t];
    var c1 := Step(c, CallDeinitIfNeeded(t)).ctx;
    StepPreservesInv(c, CallDeinitIfNeeded(t));
    var e := TeardownEvents(c.alive - 1 == 0, c.nodes, h);
    assert c1.trace == c.trace + e;
    TeardownTrace(c.alive - 1 == 0, c.nodes, h);
    forall p: Phase ensures Walks(c1.trace, p) == Walks(c.trace, p) + Walks(e, p) {
      WalksAppend(c.trace, e, p);
    }
  }

  /** Threads holding live runtimes each tearing theirs down: all succeed, each removes one alive
      runtime and adds one DeinitThreadLocalGlobals walk, and no init phase runs. */
  lemma {:induction false} DeinitThreads(c: Ctx, ts: seq<ThreadId>)
    requires Inv(c) && Distinct(ts)
    requires forall i :: 0 <= i < |ts| ==> ts[i] in c.slots && c.slots[ts[i]] in c.handles
    ensures Run(c, DeinitAll(ts)).Ok?
    ensures var r := Run(c, DeinitAll(ts)).ctx;
      && Inv(r)
      && r.alive == c.alive - |ts|
      && r.status == c.status
      && Walks(r.trace, InitGlobals) == Walks(c.trace, InitGlobals)
      && Walks(r.trace, InitThreadLocalGlobals) == Walks(c.trace, InitThreadLocalGlobals)
      && Walks(r.trace, DeinitThreadLocalGlobals) == Walks(c.trace, DeinitThreadLocalGlobals) + |ts|
      && (PhaseBefore(c.trace, DeinitThreadLocalGlobals, DeinitGlobals)
          && (c.alive > 0 ==> NoPhase(c.trace, DeinitGlobals))
          ==> PhaseBefore(r.trace, DeinitThreadLocalGlobals, DeinitGlobals))
    decreases |ts|
  {
    if ts != [] {
      var t := ts[0];
      var h := c.slots[t];
      var ops := DeinitAll(ts);
      assert ops[0] == CallDeinitIfNeeded(t);
      assert ops[1..] == DeinitAll(ts[1..]);
      DeinitOne(c, t);
      DeinitOrder(c, t);
      var c1 := Step(c, ops[0]).ctx;
      RunCons(c, ops);
      var rest := ts[1..];
      LiveTail(ts, c.slots, c.handles);
      DeinitThreads(c1, rest);
    }
  }

  /** The threads after the first are distinct and still hold live runtimes once the first has
      freed its runtime, since no two threads share a runtime. */
  lemma LiveTail(ts: seq<ThreadId>, slots: map<ThreadId, HandleId>, handles: map<HandleId, HandleStatus>)
    requires ts != [] && Distinct(ts)
    requires forall i :: 0 <= i < |ts| ==> ts[i] in slots && slots[ts[i]] in handles
    requires forall t1, t2 :: t1 in slots && t2 in slots && t1 != t2 ==> slots[t1] != slots[t2]
    ensures var slots' := slots - {ts[0]};
      var handles' := handles - {slots[ts[0]]};
      && Distinct(ts[1..])
      && forall i :: 0 <= i < |ts| - 1 ==> ts[1..][i] in slots' && slots'[ts[1..][i]] in handles'
  {
    var rest := ts[1..];
    assert forall i :: 0 <= i < |rest| ==> rest[i] == ts[i + 1];
    forall i | 0 <= i < |rest| ensures rest[i] != ts[0] && slots[rest[i]] != slots[ts[0]] {
      assert rest[i] == ts[i + 1];
    }
  }

  /** N threads activating in a fresh process and then all tearing down: InitGlobals and
      DeinitGlobals each run exactly once, the thread-local phases N times each, and the alive
      count goes from N back to 0. */
  lemma ActivateThenTeardown(c: Ctx, ts: seq<ThreadId>)
    requires Initial(c) && Distinct(ts) && ts != []
    ensures Run(c, InitAll(ts)).Ok?
    ensures var up := Run(c, InitAll(ts)).ctx;
      && up.alive == |ts| && up.status == Running
      && Walks(up.trace, InitGlobals) == 1
      && Walks(up.trace, InitThreadLocalGlobals) == |ts|
      && PhaseBefore(up.trace, InitGlobals, InitThreadLocalGlobals)
      && Run(up, DeinitAll(ts)).Ok?
      && var down := Run(up, DeinitAll(ts)).ctx;
         && down.alive == 0
         && Walks(down.trace, InitGlobals) == 1
         && Walks(down.trace, DeinitGlobals) == 1
         && Walks(down.trace, DeinitThreadLocalGlobals) == |ts|
         && PhaseBefore(down.trace, DeinitThreadLocalGlobals, DeinitGlobals)
  {
    assert Inv(c);
    ActivateThreads(c, ts);
    var up := Run(c, InitAll(ts)).ctx;
    assert NoPhase(up.trace, DeinitThreadLocalGlobals) && NoPhase(up.trace, DeinitGlobals);
    DeinitThreads(up, ts);
  }

  /** Shutdown from a thread holding a live runtime, when leak checking is off or no other runtime
      is alive: it succeeds, ends at Shutdown, tears the caller's runtime down, and runs
      DeinitGlobals exactly when the caller's runtime was the last one. */
  lemma ShutdownOne(c: Ctx, t: ThreadId)
    requires Inv(c) && c.status == Running && t in c.slots && c.slots[t] in c.handles
    requires c.checkLeaks ==> c.alive == 1
    ensures ShutdownRuntime(c, t).Ok?
    ensures var r := ShutdownRuntime(c, t).ctx;
      && Inv(r)
      && r.status == Shutdown
      && r.alive == c.alive - 1
      && t !in r.slots
      && Walks(r.trace, InitGlobals) == Walks(c.trace, InitGlobals)
      && Walks(r.trace, DeinitGlobals) == Walks(c.trace, DeinitGlobals) + (if c.alive == 1 then 1 else 0)
  {
    var h := c.slots[t];
    var pre := ShutdownEvents(c.checkLeakedCleaners, c.checkLeaks, h);
    var c1 := c.(status := Shutdown, trace := c.trace + pre);
    ShutdownTearsDown(c, t);
    ShutdownPreservesInv(c, t, ShutdownRuntime(c, t).ctx);
    TeardownWalks(c.alive - 1 == 0, c.nodes, h);
    ShutdownEventsAreExternal(c.checkLeakedCleaners, c.checkLeaks, h);
    ExternalsKeepWalks(c.trace, pre, InitGlobals);
    ExternalsKeepWalks(c.trace, pre, DeinitGlobals);
    DeinitRuntimeWalks(c1, h, InitGlobals);
    DeinitRuntimeWalks(c1, h, DeinitGlobals);
  }

  /** When shutdown gets past its checks, it is the caller's teardown after the shutdown events. */
  lemma ShutdownTearsDown(c: Ctx, t: ThreadId)
    requires Inv(c) && c.status == Running && t in c.slots && c.slots[t] in c.handles
    requires c.checkLeaks ==> c.alive == 1
    ensures var h := c.slots[t];
      var c1 := c.(status := Shutdown, trace := c.trace + ShutdownEvents(c.checkLeakedCleaners, c.checkLeaks, h));
      DeinitRuntime(c1, h).Ok? && ShutdownRuntime(c, t) == ClearSlot(DeinitRuntime(c1, h), t)
  {
  }

  /** A single-threaded process: activate, shut down (which tears the runtime down and runs
      DeinitGlobals), after which activating on any thread and shutting down again both abort. */
  lemma ShutdownScenario(c: Ctx, t: ThreadId, u: ThreadId, allocOk: bool)
    requires Initial(c)
    ensures var up := Run(c, [CallInitIfNeeded(t, true)]);
      && up.Ok? && up.ctx.alive == 1 && up.ctx.status == Running
      && var down := ShutdownRuntime(up.ctx, t);
         && down.Ok? && down.ctx.status == Shutdown && down.ctx.alive == 0
         && Walks(down.ctx.trace, InitGlobals) == 1
         && Walks(down.ctx.trace, DeinitGlobals) == 1
         && InitRuntimeIfNeeded(down.ctx, u, allocOk) == Aborted(RuntimeWasShutDown)
         && ShutdownRuntime(down.ctx, t) == Aborted(ShutdownTwice)
  {
    assert Inv(c);
    ActivateOne(c, t);
    var up := Step(c, CallInitIfNeeded(t, true)).ctx;
    assert Run(c, [CallInitIfNeeded(t, true)]) == Run(up, []);
    assert up.slots == map[t := c.nextHandle];
    ShutdownOne(up, t);
    var down := ShutdownRuntime(up, t).ctx;
    assert down.slots == map[];
  }

  /** After the last runtime is gone the registry is walked for INIT_GLOBALS again:
      the next activation counts as the first one, so the globals are initialized twice
      and deinitialized once. */
  lemma GlobalsRerunAfterFullTeardown(c: Ctx, t: ThreadId, u: ThreadId)
    requires Initial(c)
    ensures var r := Run(c, [CallInitIfNeeded(t, true), CallDeinitIfNeeded(t), CallInitIfNeeded(u, true)]);
      && r.Ok?
      && r.ctx.alive == 1
      && Walks(r.ctx.trace, InitGlobals) == 2
      && Walks(r.ctx.trace, DeinitGlobals) == 1
  {
    var ops := [CallInitIfNeeded(t, true), CallDeinitIfNeeded(t), CallInitIfNeeded(u, true)];
    var c2 := FullTeardown(c, t);
    ActivateOne(c2, u);
    RunCons(c, ops);
    RunCons(Step(c, ops[0]).ctx, ops[1..]);
    RunCons(c2, ops[2..]);
    assert ops[1..][1..] == ops[2..] && ops[3..] == [];
  }
  /** Activating and then deinitializing one thread in a fresh process leaves no runtime alive,
      after one INIT_GLOBALS and one DEINIT_GLOBALS walk. */
  lemma FullTeardown(c: Ctx, t: ThreadId) returns (d: Ctx)
    requires Initial(c)
    ensures Step(c, CallInitIfNeeded(t, true)).Ok?
    ensures Step(Step(c, CallInitIfNeeded(t, true)).ctx, CallDeinitIfNeeded(t)) == Ok(d, ())
    ensures Inv(d) && d.alive == 0 && d.status == Running && d.slots == map[]
    ensures Walks(d.trace, InitGlobals) == 1 && Walks(d.trace, DeinitGlobals) == 1
  {
    assert Inv(c);
    ActivateOne(c, t);
    var c1 := Step(c, CallInitIfNeeded(t, true)).ctx;
    DeinitOne(c1, t);
    d := Step(c1, CallDeinitIfNeeded(t)).ctx;
  }

  /** With memory-leak checking on, shutting down while a second thread holds a runtime aborts
      and reports exactly one other runtime; with it off, the same shutdown succeeds and leaves
      the other runtime alive. */
  lemma LeakCheckScenario(c: Ctx, t: ThreadId, u: ThreadId)
    requires Initial(c) && t != u
    ensures var up := Run(c, [CallInitIfNeeded(t, true), CallInitIfNeeded(u, true)]);
      && up.Ok? && up.ctx.alive == 2
      && (c.checkLeaks ==> ShutdownRuntime(up.ctx, t) == Aborted(OtherRuntimesAlive(1)))
      && (!c.checkLeaks ==> ShutdownRuntime(up.ctx, t).Ok? && ShutdownRuntime(up.ctx, t).ctx.alive == 1)
  {
    assert Inv(c);
    var ops := [CallInitIfNeeded(t, true), CallInitIfNeeded(u, true)];
    ActivateOne(c, t);
    var c1 := Step(c, ops[0]).ctx;
    ActivateOne(c1, u);
    var c2 := Step(c1, ops[1]).ctx;
    assert ops[1..] == [CallInitIfNeeded(u, true)];
    assert Run(c, ops) == Run(c1, ops[1..]);
    assert Run(c1, ops[1..]) == Run(c2, []);
    assert t in c2.slots && c2.slots[t] in c2.handles;
    if !c.checkLeaks {
      ShutdownOne(c2, t);
    }
  }
}
