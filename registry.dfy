/** The initializer registry walk (InitOrDeinitGlobalVariables) as events, and facts about traces. */
module Registry {
  import opened RuntimeTypes

  /** The phase an event belongs to, if it is a registry event. */
  function PhaseOf(e: Event): Option<Phase>
  {
    match e
    case PhaseStarted(p, _) => Some(p)
    case Callback(p, _, _) => Some(p)
    case External(_) => None
  }

  /** The callbacks of one phase walk: every node once, head to tail. */
  function Callbacks(phase: Phase, nodes: seq<InitNode>, memory: HandleId): (r: seq<Event>)
    ensures |r| == |nodes|
    decreases |nodes|
  {
    if nodes == [] then []
    else Callbacks(phase, nodes[..|nodes| - 1], memory) + [Callback(phase, nodes[|nodes| - 1], memory)]
  }

  /** The walk's `i`-th callback is node `i`'s. */
  lemma {:induction false} CallbacksInOrder(phase: Phase, nodes: seq<InitNode>, memory: HandleId)
    ensures var r := Callbacks(phase, nodes, memory);
      forall i :: 0 <= i < |nodes| ==> r[i] == Callback(phase, nodes[i], memory)
    decreases |nodes|
  {
    if nodes != [] {
      var prefix := nodes[..|nodes| - 1];
      CallbacksInOrder(phase, prefix, memory);
      assert forall i :: 0 <= i < |prefix| ==> prefix[i] == nodes[i];
    }
  }

  /** Walking one more node appends its callback. */
  lemma CallbacksSnoc(phase: Phase, nodes: seq<InitNode>, i: nat, memory: HandleId)
    requires i < |nodes|
    ensures Callbacks(phase, nodes[..i + 1], memory)
            == Callbacks(phase, nodes[..i], memory) + [Callback(phase, nodes[i], memory)]
  {
    assert nodes[..i + 1][..i] == nodes[..i];
  }

  /** Everything one call of InitOrDeinitGlobalVariables(phase, memory) records:
      its start, then the callback of every registered node in registration order.
      The order is the same for all four phases; teardown phases are not reversed. */
  function PhaseWalk(phase: Phase, nodes: seq<InitNode>, memory: HandleId): (r: seq<Event>)
    ensures |r| == |nodes| + 1
    ensures r[0] == PhaseStarted(phase, memory)
  {
    [PhaseStarted(phase, memory)] + Callbacks(phase, nodes, memory)
  }

  /** A walk calls node `i` in position `i + 1`, and all of it belongs to its phase. */
  lemma PhaseWalkEvents(phase: Phase, nodes: seq<InitNode>, memory: HandleId)
    ensures var r := PhaseWalk(phase, nodes, memory);
      && (forall i :: 0 <= i < |nodes| ==> r[i + 1] == Callback(phase, nodes[i], memory))
      && (forall i :: 0 <= i < |r| ==> PhaseOf(r[i]) == Some(phase))
  {
    var r := PhaseWalk(phase, nodes, memory);
    CallbacksInOrder(phase, nodes, memory);
    assert forall i :: 1 <= i < |r| ==> r[i] == Callbacks(phase, nodes, memory)[i - 1];
  }

  /** Number of registry walks of `phase` recorded in `trace`. */
  function Walks(trace: seq<Event>, phase: Phase): nat
    decreases |trace|
  {
    if trace == [] then 0
    else Walks(trace[..|trace| - 1], phase)
         + (if trace[|trace| - 1].PhaseStarted? && trace[|trace| - 1].phase == phase then 1 else 0)
  }

  /** No event of `trace` belongs to `phase`. */
  predicate NoPhase(trace: seq<Event>, phase: Phase)
  {
    forall i :: 0 <= i < |trace| ==> PhaseOf(trace[i]) != Some(phase)
  }

  /** Every event of phase `p` in `trace` comes before every event of phase `q`. */
  predicate PhaseBefore(trace: seq<Event>, p: Phase, q: Phase)
  {
    forall i, j ::
      (0 <= i < |trace| && 0 <= j < |trace| && PhaseOf(trace[i]) == Some(p) && PhaseOf(trace[j]) == Some(q))
      ==> i < j
  }

  lemma {:induction false} WalksAppend(a: seq<Event>, b: seq<Event>, phase: Phase)
    ensures Walks(a + b, phase) == Walks(a, phase) + Walks(b, phase)
    decreases |b|
  {
    if b == [] {
      assert a + b == a;
    } else {
      var b' := b[..|b| - 1];
      assert (a + b)[..|a + b| - 1] == a + b';
      WalksAppend(a, b', phase);
    }
  }

  /** One walk of `phase` counts as exactly one walk of `phase` and of no other phase. */
  lemma WalksOfPhaseWalk(phase: Phase, nodes: seq<InitNode>, memory: HandleId, p: Phase)
    ensures Walks(PhaseWalk(phase, nodes, memory), p) == if p == phase then 1 else 0
  {
    var w := PhaseWalk(phase, nodes, memory);
    var cs := Callbacks(phase, nodes, memory);
    assert w == [PhaseStarted(phase, memory)] + cs;
    WalksAppend([PhaseStarted(phase, memory)], cs, p);
    assert Walks([PhaseStarted(phase, memory)], p) == if p == phase then 1 else 0 by {
      assert [PhaseStarted(phase, memory)][..0] == [];
    }
    CallbacksInOrder(phase, nodes, memory);
    assert forall i :: 0 <= i < |cs| ==> !cs[i].PhaseStarted?;
    CallbacksHaveNoWalk(cs, p);
  }

  /** Callback events never count as walks. */
  lemma {:induction false} CallbacksHaveNoWalk(trace: seq<Event>, p: Phase)
    requires forall i :: 0 <= i < |trace| ==> !trace[i].PhaseStarted?
    ensures Walks(trace, p) == 0
    decreases |trace|
  {
    if trace != [] {
      var t' := trace[..|trace| - 1];
      assert forall i :: 0 <= i < |t'| ==> t'[i] == trace[i];
      CallbacksHaveNoWalk(t', p);
    }
  }

  /** Collaborator calls never count as walks. */
  lemma ExternalsHaveNoWalk(trace: seq<Event>, p: Phase)
    requires forall i :: 0 <= i < |trace| ==> trace[i].External?
    ensures Walks(trace, p) == 0
  {
    CallbacksHaveNoWalk(trace, p);
  }

  /** Concatenating a part free of `q` with a part free of `p` puts `p` before `q`. */
  lemma PhaseBeforeAppend(a: seq<Event>, b: seq<Event>, p: Phase, q: Phase)
    requires NoPhase(a, q) && NoPhase(b, p)
    ensures PhaseBefore(a + b, p, q)
  {
    var t := a + b;
    assert forall k :: |a| <= k < |t| ==> t[k] == b[k - |a|];
    assert forall k :: 0 <= k < |a| ==> t[k] == a[k];
  }

  /** Two ordered traces stay ordered when joined, provided nothing in the first half
      is a `q` event or nothing in the second half is a `p` event. */
  lemma PhaseBeforeConcat(a: seq<Event>, b: seq<Event>, p: Phase, q: Phase)
    requires PhaseBefore(a, p, q) && PhaseBefore(b, p, q)
    requires NoPhase(a, q) || NoPhase(b, p)
    ensures PhaseBefore(a + b, p, q)
  {
    var t := a + b;
    assert forall k :: |a| <= k < |t| ==> t[k] == b[k - |a|];
    assert forall k :: 0 <= k < |a| ==> t[k] == a[k];
  }
  lemma NoPhaseAppend(a: seq<Event>, b: seq<Event>, p: Phase)
    requires NoPhase(a, p) && NoPhase(b, p)
    ensures NoPhase(a + b, p)
  {
    var t := a + b;
    forall i | 0 <= i < |t| ensures PhaseOf(t[i]) != Some(p) {
      if i < |a| { assert t[i] == a[i]; } else { assert t[i] == b[i - |a|]; }
    }
  }
}
