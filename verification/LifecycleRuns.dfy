/**
 Nodes and the registry under every interleaving: any number of threads opening,
 serving requests, closing handles, closing everything.
 */
module LifecycleRuns {
  import opened Wrappers
  import opened NodeLifecycle

  type Thread = nat

  /** Where a `Close` of one node stands. */
  datatype Phase = Marking | Requests | Workers | Database

  /** A thread in the middle of something; an idle thread is not in the map. */
  datatype Pc =
    | Opening(node: NodeId)
    | Serving(node: NodeId)
    | Closing(node: NodeId, phase: Phase, rest: seq<NodeId>, locked: bool)

  /** `issued` is the history of handles given out; `lock` is held across steps only by a refused `Open`. */
  datatype State = State(registry: Registry, lock: Option<Thread>, nodes: map<NodeId, Node>, pcs: map<Thread, Pc>,
                         issued: seq<Handle>)

  datatype Step =
    | Create(t: Thread, n: NodeId, workers: nat)
    | Register(t: Thread)
    | CloseHandle(t: Thread, h: Handle)
    | CloseAll(t: Thread, order: seq<NodeId>)
    | CloseNode(t: Thread, n: NodeId)
    | Mark(t: Thread)
    | AwaitRequests(t: Thread)
    | AwaitWorkers(t: Thread)
    | CloseDatabase(t: Thread)
    | Admit(t: Thread, n: NodeId)
    | Finish(t: Thread)
    | WorkerExits(n: NodeId)

  const INIT := State(Registry(0, false, map[]), None, map[], map[], [])

  predicate InPhase(s: State, t: Thread, phase: Phase) {
    t in s.pcs && s.pcs[t].Closing? && s.pcs[t].phase == phase && s.pcs[t].node in s.nodes
  }

  ghost predicate Enabled(s: State, step: Step) {
    match step
    case Create(t, n, _) => t !in s.pcs && n !in s.nodes
    case Register(t) => t in s.pcs && s.pcs[t].Opening? && s.lock.None?
    case CloseHandle(t, h) => t !in s.pcs && s.lock.None? && h != 0
    case CloseAll(t, order) => t !in s.pcs && s.lock.None? && Lists(order, s.registry.nodes)
    case CloseNode(t, n) => t !in s.pcs && n in s.nodes
    case Mark(t) => InPhase(s, t, Marking)
    case AwaitRequests(t) => InPhase(s, t, Requests) && s.nodes[s.pcs[t].node].wait == 0
    case AwaitWorkers(t) => InPhase(s, t, Workers) && s.nodes[s.pcs[t].node].workers == 0
    case CloseDatabase(t) => InPhase(s, t, Database)
    case Admit(t, n) => t !in s.pcs && n in s.nodes && !s.nodes[n].closed
    case Finish(t) => t in s.pcs && s.pcs[t].Serving? && s.pcs[t].node in s.nodes && s.nodes[s.pcs[t].node].wait > 0
    case WorkerExits(n) => n in s.nodes && s.nodes[n].workers > 0
  }

  function SetPc(s: State, t: Thread, pc: Pc): State { s.(pcs := s.pcs[t := pc]) }

  function Idle(s: State, t: Thread): State { s.(pcs := s.pcs - {t}) }

  function StartClosing(s: State, t: Thread, list: seq<NodeId>): State {
    if list == [] then s else SetPc(s, t, Closing(list[0], Marking, list[1..], false))
  }

  /** A thread is done with one node: the next one, or back to idle. */
  function Next(s: State, t: Thread): State
    requires t in s.pcs && s.pcs[t].Closing?
  {
    var pc := s.pcs[t];
    if pc.rest != [] then SetPc(s, t, Closing(pc.rest[0], Marking, pc.rest[1..], pc.locked))
    else Idle(s, t).(lock := if pc.locked then None else s.lock)
  }

  function SetNode(s: State, n: NodeId, node: Node): State { s.(nodes := s.nodes[n := node]) }

  function Apply(s: State, step: Step): State
    requires Enabled(s, step)
  {
    match step
    case Create(t, n, workers) => SetPc(SetNode(s, n, Node(false, 0, workers, 0)), t, Opening(n))
    case Register(t) =>
      var n := s.pcs[t].node;
      if Refuses(s.registry) then SetPc(s, t, Closing(n, Marking, [], true)).(lock := Some(t))
      else
        var registry := Registered(s.registry, n);
        Idle(s, t).(registry := registry, issued := s.issued + [registry.next])
    case CloseHandle(t, h) =>
      if h in s.registry.nodes then
        StartClosing(s.(registry := s.registry.(nodes := s.registry.nodes - {h})), t, [s.registry.nodes[h]])
      else s
    case CloseAll(t, order) =>
      if s.registry.closed then s
      else StartClosing(s.(registry := s.registry.(closed := true, nodes := map[])), t, order)
    case CloseNode(t, n) => StartClosing(s, t, [n])
    case Mark(t) =>
      var n := s.pcs[t].node;
      if s.nodes[n].closed then Next(s, t)
      else SetPc(SetNode(s, n, s.nodes[n].(closed := true)), t, s.pcs[t].(phase := Requests))
    case AwaitRequests(t) => SetPc(s, t, s.pcs[t].(phase := Workers))
    case AwaitWorkers(t) => SetPc(s, t, s.pcs[t].(phase := Database))
    case CloseDatabase(t) =>
      var n := s.pcs[t].node;
      Next(SetNode(s, n, s.nodes[n].(closes := s.nodes[n].closes + 1)), t)
    case Admit(t, n) => SetPc(SetNode(s, n, Admitted(s.nodes[n])), t, Serving(n))
    case Finish(t) =>
      var n := s.pcs[t].node;
      Idle(SetNode(s, n, s.nodes[n].(wait := s.nodes[n].wait - 1)), t)
    case WorkerExits(n) => SetNode(s, n, s.nodes[n].(workers := s.nodes[n].workers - 1))
  }

  ghost predicate Allowed(s: State, steps: seq<Step>)
    decreases |steps|
  {
    steps == [] || (Enabled(s, steps[0]) && Allowed(Apply(s, steps[0]), steps[1..]))
  }

  ghost function Run(s: State, steps: seq<Step>): State
    requires Allowed(s, steps)
    decreases |steps|
  {
    if steps == [] then s else Run(Apply(s, steps[0]), steps[1..])
  }

  // ----- The invariant, component by component

  /** The threads in the middle of an operation on a node. */
  ghost function InFlight(pcs: map<Thread, Pc>, n: NodeId): set<Thread> {
    set t | t in pcs && pcs[t] == Serving(n)
  }

  /** The wait group counts exactly the admitted operations that have not finished. */
  ghost predicate Counted(nodes: map<NodeId, Node>, pcs: map<Thread, Pc>) {
    && (forall n :: n in nodes ==> nodes[n].wait == |InFlight(pcs, n)|)
    && (forall t :: t in pcs ==> pcs[t].node in nodes)
  }

  predicate Drains(pcs: map<Thread, Pc>, t: Thread, n: NodeId) {
    t in pcs && pcs[t].Closing? && !pcs[t].phase.Marking? && pcs[t].node == n
  }

  predicate Drained(n: Node, phase: Phase) {
    && n.closed && n.closes == 0
    && (phase.Workers? || phase.Database? ==> n.wait == 0)
    && (phase.Database? ==> n.workers == 0)
  }

  /** One thread drains a closed node, and the database is closed by it, last. */
  ghost predicate Draining(nodes: map<NodeId, Node>, pcs: map<Thread, Pc>) {
    && (forall t, n :: Drains(pcs, t, n) ==> n in nodes && Drained(nodes[n], pcs[t].phase))
    && (forall t, u, n :: Drains(pcs, t, n) && Drains(pcs, u, n) ==> t == u)
  }

  ghost predicate Settled(n: Node) { n.closes <= 1 && (n.closes == 1 ==> n.closed && n.wait == 0 && n.workers == 0) }

  ghost predicate ClosedByOne(nodes: map<NodeId, Node>, pcs: map<Thread, Pc>) {
    && (forall n :: n in nodes ==> Settled(nodes[n]))
    && (forall n :: n in nodes && nodes[n].closed && nodes[n].closes == 0 ==> exists t :: Drains(pcs, t, n))
  }

  /** A thread that is bound to register, or to close, a node. */
  predicate Holds(pcs: map<Thread, Pc>, t: Thread, n: NodeId) {
    && t in pcs
    && (pcs[t] == Opening(n) || (pcs[t].Closing? && (n in pcs[t].rest || (pcs[t].phase.Marking? && pcs[t].node == n))))
  }

  ghost predicate Named(registry: Registry, n: NodeId) {
    exists h :: h in registry.nodes && registry.nodes[h] == n
  }

  /** No open node is lost. */
  ghost predicate Owned(registry: Registry, nodes: map<NodeId, Node>, pcs: map<Thread, Pc>) {
    forall n :: n in nodes && !nodes[n].closed ==> Named(registry, n) || exists t :: Holds(pcs, t, n)
  }

  ghost predicate Known(registry: Registry, nodes: map<NodeId, Node>, pcs: map<Thread, Pc>) {
    && (forall h :: h in registry.nodes ==> registry.nodes[h] in nodes)
    && (forall t :: t in pcs && pcs[t].Closing? ==> forall i :: 0 <= i < |pcs[t].rest| ==> pcs[t].rest[i] in nodes)
  }

  /** Handles count up from one; a closed registry is empty. */
  predicate Handles(registry: Registry, issued: seq<Handle>) {
    && registry.next == |issued| <= MAX_HANDLE
    && (forall i :: 0 <= i < |issued| ==> issued[i] == i + 1)
    && (forall h :: h in registry.nodes ==> 0 < h <= registry.next)
    && (registry.closed ==> registry.nodes == map[])
  }

  ghost predicate Lock(lock: Option<Thread>, pcs: map<Thread, Pc>) {
    && (lock.Some? ==> lock.value in pcs && pcs[lock.value].Closing? && pcs[lock.value].locked)
    && (forall t :: t in pcs && pcs[t].Closing? && pcs[t].locked ==> lock == Some(t))
  }

  ghost predicate Inv(s: State) {
    && Counted(s.nodes, s.pcs) && Draining(s.nodes, s.pcs) && ClosedByOne(s.nodes, s.pcs)
    && Owned(s.registry, s.nodes, s.pcs) && Known(s.registry, s.nodes, s.pcs)
    && Handles(s.registry, s.issued) && Lock(s.lock, s.pcs)
  }

  // ----- Every step keeps it

  predicate MovesOnly(pcs: map<Thread, Pc>, after: map<Thread, Pc>, t: Thread) {
    pcs - {t} == after - {t}
  }

  lemma Elsewhere(pcs: map<Thread, Pc>, after: map<Thread, Pc>, t: Thread, u: Thread)
    requires MovesOnly(pcs, after, t) && u != t
    ensures (u in pcs <==> u in after) && (u in pcs ==> pcs[u] == after[u])
  {
    assert u in pcs <==> u in pcs - {t};
    assert u in after <==> u in after - {t};
    assert u in pcs ==> (pcs - {t})[u] == pcs[u];
  }

  predicate SameWaits(nodes: map<NodeId, Node>, after: map<NodeId, Node>) {
    nodes.Keys == after.Keys && forall n :: n in nodes ==> nodes[n].wait == after[n].wait
  }

  /** A step moves one thread; only starting and finishing an operation touch the wait group. */
  lemma OneThreadMoves(s: State, step: Step)
    requires Enabled(s, step) && !step.WorkerExits?
    ensures MovesOnly(s.pcs, Apply(s, step).pcs, step.t)
    ensures !step.Admit? && !step.Finish? && !step.Create? ==> SameWaits(s.nodes, Apply(s, step).nodes)
  {
    var after := Apply(s, step).pcs;
    assert forall u :: u != step.t ==> (u in s.pcs <==> u in after);
  }

  lemma FlightIsSame(pcs: map<Thread, Pc>, after: map<Thread, Pc>, t: Thread, n: NodeId)
    requires MovesOnly(pcs, after, t)
    requires (t in pcs ==> !pcs[t].Serving?) && (t in after ==> !after[t].Serving?)
    ensures InFlight(after, n) == InFlight(pcs, n)
  {
    forall u | u != t ensures u in InFlight(after, n) <==> u in InFlight(pcs, n) {
      Elsewhere(pcs, after, t, u);
    }
  }

  /** Steps that are neither a start nor a finish leave the count alone. */
  lemma QuietKeepsCounted(s: State, step: Step)
    requires Counted(s.nodes, s.pcs) && Known(s.registry, s.nodes, s.pcs) && Enabled(s, step)
    requires !step.Admit? && !step.Finish? && !step.Create? && !step.WorkerExits?
    ensures Counted(Apply(s, step).nodes, Apply(s, step).pcs)
  {
    OneThreadMoves(s, step);
    QuietThread(s, step);
    var after := Apply(s, step);
    forall n | n in after.nodes ensures after.nodes[n].wait == |InFlight(after.pcs, n)| {
      FlightIsSame(s.pcs, after.pcs, step.t, n);
    }
    forall u | u in after.pcs ensures after.pcs[u].node in after.nodes {
      if u != step.t {
        Elsewhere(s.pcs, after.pcs, step.t, u);
      }
    }
  }

  lemma QuietThread(s: State, step: Step)
    requires Known(s.registry, s.nodes, s.pcs) && Counted(s.nodes, s.pcs) && Enabled(s, step)
    requires !step.Admit? && !step.Finish? && !step.Create? && !step.WorkerExits?
    ensures var t, after := step.t, Apply(s, step).pcs;
            && (t in s.pcs ==> !s.pcs[t].Serving?)
            && (t in after ==> !after[t].Serving? && after[t].node in s.nodes)
  {
    if step.CloseAll? && step.order != [] {
      assert step.order[0] in s.registry.nodes.Values;
    }
  }

  lemma AdmitKeepsCounted(s: State, t: Thread, n: NodeId)
    requires Counted(s.nodes, s.pcs) && Enabled(s, Admit(t, n))
    ensures Counted(Apply(s, Admit(t, n)).nodes, Apply(s, Admit(t, n)).pcs)
  {
    var after := Apply(s, Admit(t, n));
    assert InFlight(after.pcs, n) == InFlight(s.pcs, n) + {t};
    forall m | m in s.nodes && m != n ensures InFlight(after.pcs, m) == InFlight(s.pcs, m) {
    }
  }

  lemma FinishKeepsCounted(s: State, t: Thread)
    requires Counted(s.nodes, s.pcs) && Enabled(s, Finish(t))
    ensures Counted(Apply(s, Finish(t)).nodes, Apply(s, Finish(t)).pcs)
  {
    var n, after := s.pcs[t].node, Apply(s, Finish(t));
    assert InFlight(after.pcs, n) == InFlight(s.pcs, n) - {t};
    forall m | m in s.nodes && m != n ensures InFlight(after.pcs, m) == InFlight(s.pcs, m) {
    }
  }

  lemma CreateKeepsCounted(s: State, t: Thread, n: NodeId, workers: nat)
    requires Counted(s.nodes, s.pcs) && Enabled(s, Create(t, n, workers))
    ensures Counted(Apply(s, Create(t, n, workers)).nodes, Apply(s, Create(t, n, workers)).pcs)
  {
    var after := Apply(s, Create(t, n, workers));
    assert InFlight(s.pcs, n) == {};
    forall m | m in after.nodes ensures InFlight(after.pcs, m) == InFlight(s.pcs, m) {
    }
  }

  lemma StepKeepsCounted(s: State, step: Step)
    requires Counted(s.nodes, s.pcs) && Known(s.registry, s.nodes, s.pcs) && Enabled(s, step)
    ensures Counted(Apply(s, step).nodes, Apply(s, step).pcs)
  {
    match step
    case Admit(t, n) => AdmitKeepsCounted(s, t, n);
    case Finish(t) => FinishKeepsCounted(s, t);
    case Create(t, n, workers) => CreateKeepsCounted(s, t, n, workers);
    case WorkerExits(_) =>
    case _ => QuietKeepsCounted(s, step);
  }

  /** What may happen to a closed node while it is drained. */
  predicate Calmer(n: Node, after: Node) {
    n.closed ==> after.closed && after.closes == n.closes && after.wait <= n.wait && after.workers <= n.workers
  }

  lemma NodesCalm(s: State, step: Step)
    requires Enabled(s, step) && !step.CloseDatabase?
    ensures forall n :: n in s.nodes ==> n in Apply(s, step).nodes && Calmer(s.nodes[n], Apply(s, step).nodes[n])
  {
  }

  /** What the moving thread drains afterwards: what it drained before, or a node it has just marked. */
  lemma DrainerMoves(s: State, step: Step, n: NodeId)
    requires Draining(s.nodes, s.pcs) && Enabled(s, step) && !step.WorkerExits? && Drains(Apply(s, step).pcs, step.t, n)
    ensures n in s.nodes && (Drains(s.pcs, step.t, n) || (step.Mark? && !s.nodes[n].closed))
    ensures n in Apply(s, step).nodes
            && (s.nodes[n].closes == 0 ==> Drained(Apply(s, step).nodes[n], Apply(s, step).pcs[step.t].phase))
  {
    if step.t in s.pcs && s.pcs[step.t].Closing? && !s.pcs[step.t].phase.Marking? {
      assert Drains(s.pcs, step.t, s.pcs[step.t].node);
    }
  }

  lemma DrainerStays(s: State, step: Step, u: Thread, n: NodeId)
    requires Enabled(s, step) && !step.WorkerExits? && u != step.t
    ensures Drains(Apply(s, step).pcs, u, n) <==> Drains(s.pcs, u, n)
    ensures Drains(s.pcs, u, n) ==> Apply(s, step).pcs[u] == s.pcs[u]
  {
    OneThreadMoves(s, step);
    Elsewhere(s.pcs, Apply(s, step).pcs, step.t, u);
  }

  lemma OtherNodesKept(s: State, t: Thread, n: NodeId)
    requires Enabled(s, CloseDatabase(t)) && n in s.nodes && n != s.pcs[t].node
    ensures n in Apply(s, CloseDatabase(t)).nodes && Apply(s, CloseDatabase(t)).nodes[n] == s.nodes[n]
  {
  }

  lemma DrainedStays(s: State, step: Step, u: Thread, n: NodeId)
    requires Draining(s.nodes, s.pcs) && Enabled(s, step) && !step.WorkerExits? && u != step.t && Drains(s.pcs, u, n)
    ensures n in Apply(s, step).nodes && Drained(Apply(s, step).nodes[n], s.pcs[u].phase)
  {
    if step.CloseDatabase? {
      assert Drains(s.pcs, step.t, s.pcs[step.t].node);
      OtherNodesKept(s, step.t, n);
    } else {
      NodesCalm(s, step);
    }
  }

  lemma StepKeepsDraining(s: State, step: Step)
    requires Draining(s.nodes, s.pcs) && ClosedByOne(s.nodes, s.pcs) && Enabled(s, step)
    ensures Draining(Apply(s, step).nodes, Apply(s, step).pcs)
  {
    var nodes, pcs := Apply(s, step).nodes, Apply(s, step).pcs;
    if step.WorkerExits? {
      return;
    }
    forall u, n | Drains(pcs, u, n) ensures n in nodes && Drained(nodes[n], pcs[u].phase) {
      if u == step.t {
        DrainerMoves(s, step, n);
      } else {
        DrainerStays(s, step, u, n);
        DrainedStays(s, step, u, n);
      }
    }
    forall u, v, n | Drains(pcs, u, n) && Drains(pcs, v, n) ensures u == v {
      if u == step.t { DrainerMoves(s, step, n); } else { DrainerStays(s, step, u, n); }
      if v == step.t { DrainerMoves(s, step, n); } else { DrainerStays(s, step, v, n); }
    }
  }

  lemma StepKeepsSettled(s: State, step: Step, n: NodeId)
    requires Draining(s.nodes, s.pcs) && ClosedByOne(s.nodes, s.pcs) && Enabled(s, step) && n in Apply(s, step).nodes
    ensures Settled(Apply(s, step).nodes[n])
  {
    if step.CloseDatabase? {
      assert Drains(s.pcs, step.t, s.pcs[step.t].node);
    }
  }

  /** A drainer goes on draining until it has closed the database. */
  lemma DrainerGoesOn(s: State, step: Step, n: NodeId)
    requires Enabled(s, step) && !step.WorkerExits? && n in s.nodes && n in Apply(s, step).nodes
    requires Apply(s, step).nodes[n].closed && Apply(s, step).nodes[n].closes == 0
    requires Drains(s.pcs, step.t, n) || !s.nodes[n].closed
    ensures Drains(Apply(s, step).pcs, step.t, n)
  {
  }

  lemma StepKeepsClosedByOne(s: State, step: Step)
    requires Draining(s.nodes, s.pcs) && ClosedByOne(s.nodes, s.pcs) && Enabled(s, step)
    ensures ClosedByOne(Apply(s, step).nodes, Apply(s, step).pcs)
  {
    var nodes, pcs := Apply(s, step).nodes, Apply(s, step).pcs;
    forall n | n in nodes ensures Settled(nodes[n]) {
      StepKeepsSettled(s, step, n);
    }
    forall n | n in nodes && nodes[n].closed && nodes[n].closes == 0 ensures exists t :: Drains(pcs, t, n) {
      if step.WorkerExits? {
        assert pcs == s.pcs;
      } else {
        DrainerFound(s, step, n);
      }
    }
  }

  lemma DrainerFound(s: State, step: Step, n: NodeId)
    requires ClosedByOne(s.nodes, s.pcs) && Enabled(s, step) && !step.WorkerExits?
    requires n in Apply(s, step).nodes && Apply(s, step).nodes[n].closed && Apply(s, step).nodes[n].closes == 0
    ensures exists t :: Drains(Apply(s, step).pcs, t, n)
  {
    WasThere(s, step, n);
    if s.nodes[n].closed {
      var u :| Drains(s.pcs, u, n);
      if u == step.t {
        DrainerGoesOn(s, step, n);
      } else {
        DrainerStays(s, step, u, n);
      }
    } else {
      DrainerGoesOn(s, step, n);
    }
  }

  lemma WasThere(s: State, step: Step, n: NodeId)
    requires Enabled(s, step) && n in Apply(s, step).nodes && Apply(s, step).nodes[n].closed
    ensures n in s.nodes && s.nodes[n].closes <= Apply(s, step).nodes[n].closes
  {
  }

  /** If the moving thread passes on what it held, nothing is lost. */
  lemma StaysOwned(s: State, after: State, t: Thread)
    requires Owned(s.registry, s.nodes, s.pcs) && MovesOnly(s.pcs, after.pcs, t)
    requires forall n :: n in after.nodes && !after.nodes[n].closed && (n in s.nodes ==> s.nodes[n].closed) ==>
               Holds(after.pcs, t, n)
    requires forall n :: n in after.nodes && !after.nodes[n].closed && (Named(s.registry, n) || Holds(s.pcs, t, n)) ==>
                           Named(after.registry, n) || Holds(after.pcs, t, n)
    ensures Owned(after.registry, after.nodes, after.pcs)
  {
    forall n | n in after.nodes && !after.nodes[n].closed
      ensures Named(after.registry, n) || exists u :: Holds(after.pcs, u, n)
    {
      if u :| Holds(s.pcs, u, n) && u != t {
        Elsewhere(s.pcs, after.pcs, t, u);
        assert Holds(after.pcs, u, n);
      }
    }
  }

  lemma RegisterKeepsOwned(s: State, t: Thread)
    requires Owned(s.registry, s.nodes, s.pcs) && Handles(s.registry, s.issued) && Enabled(s, Register(t))
    ensures Owned(Apply(s, Register(t)).registry, Apply(s, Register(t)).nodes, Apply(s, Register(t)).pcs)
  {
    var after := Apply(s, Register(t));
    OneThreadMoves(s, Register(t));
    forall n | Named(s.registry, n) ensures Named(after.registry, n) {
      var h :| h in s.registry.nodes && s.registry.nodes[h] == n;
      assert h in after.registry.nodes && after.registry.nodes[h] == n;
    }
    if !Refuses(s.registry) {
      assert s.registry.next + 1 in after.registry.nodes && after.registry.nodes[s.registry.next + 1] == s.pcs[t].node;
    }
    StaysOwned(s, after, t);
  }

  lemma CloseHandleKeepsOwned(s: State, t: Thread, h: Handle)
    requires Owned(s.registry, s.nodes, s.pcs) && Enabled(s, CloseHandle(t, h))
    ensures Owned(Apply(s, CloseHandle(t, h)).registry, Apply(s, CloseHandle(t, h)).nodes,
                  Apply(s, CloseHandle(t, h)).pcs)
  {
    var after := Apply(s, CloseHandle(t, h));
    OneThreadMoves(s, CloseHandle(t, h));
    forall n | Named(s.registry, n) ensures Named(after.registry, n) || Holds(after.pcs, t, n) {
      var g :| g in s.registry.nodes && s.registry.nodes[g] == n;
      if g != h {
        assert g in after.registry.nodes && after.registry.nodes[g] == n;
      }
    }
    StaysOwned(s, after, t);
  }

  lemma CloseAllKeepsOwned(s: State, t: Thread, order: seq<NodeId>)
    requires Owned(s.registry, s.nodes, s.pcs) && Enabled(s, CloseAll(t, order))
    ensures Owned(Apply(s, CloseAll(t, order)).registry, Apply(s, CloseAll(t, order)).nodes,
                  Apply(s, CloseAll(t, order)).pcs)
  {
    var after := Apply(s, CloseAll(t, order));
    OneThreadMoves(s, CloseAll(t, order));
    if !s.registry.closed {
      forall n | Named(s.registry, n) ensures Holds(after.pcs, t, n) {
        var h :| h in s.registry.nodes && s.registry.nodes[h] == n;
        var i :| 0 <= i < |order| && order[i] == n;
        assert i > 0 ==> order[1..][i - 1] == n;
      }
    }
    StaysOwned(s, after, t);
  }

  lemma NextKeepsOwned(s: State, step: Step)
    requires Owned(s.registry, s.nodes, s.pcs) && (step.Mark? || step.CloseDatabase?) && Enabled(s, step)
    ensures Owned(Apply(s, step).registry, Apply(s, step).nodes, Apply(s, step).pcs)
  {
    OneThreadMoves(s, step);
    StaysOwned(s, Apply(s, step), step.t);
  }

  lemma OtherKeepsOwned(s: State, step: Step)
    requires Owned(s.registry, s.nodes, s.pcs) && Enabled(s, step)
    requires step.Create? || step.CloseNode? || step.AwaitRequests? || step.AwaitWorkers? || step.Admit? || step.Finish?
    ensures Owned(Apply(s, step).registry, Apply(s, step).nodes, Apply(s, step).pcs)
  {
    OneThreadMoves(s, step);
    StaysOwned(s, Apply(s, step), step.t);
  }

  lemma StepKeepsOwned(s: State, step: Step)
    requires Owned(s.registry, s.nodes, s.pcs) && Handles(s.registry, s.issued) && Enabled(s, step)
    ensures Owned(Apply(s, step).registry, Apply(s, step).nodes, Apply(s, step).pcs)
  {
    match step
    case Register(t) => RegisterKeepsOwned(s, t);
    case CloseHandle(t, h) => CloseHandleKeepsOwned(s, t, h);
    case CloseAll(t, order) => CloseAllKeepsOwned(s, t, order);
    case WorkerExits(_) =>
    case Mark(t) => NextKeepsOwned(s, step);
    case CloseDatabase(t) => NextKeepsOwned(s, step);
    case _ => OtherKeepsOwned(s, step);
  }

  lemma StepKeepsKnown(s: State, step: Step)
    requires Known(s.registry, s.nodes, s.pcs) && Counted(s.nodes, s.pcs) && Enabled(s, step)
    ensures Known(Apply(s, step).registry, Apply(s, step).nodes, Apply(s, step).pcs)
  {
    if step.CloseAll? {
      forall i | 0 <= i < |step.order| ensures step.order[i] in s.nodes {
        assert step.order[i] in s.registry.nodes.Values;
      }
    }
  }

  lemma StepKeepsHandles(s: State, step: Step)
    requires Handles(s.registry, s.issued) && Enabled(s, step)
    ensures Handles(Apply(s, step).registry, Apply(s, step).issued)
  {
  }

  lemma StepKeepsLock(s: State, step: Step)
    requires Lock(s.lock, s.pcs) && Enabled(s, step)
    ensures Lock(Apply(s, step).lock, Apply(s, step).pcs)
  {
  }

  lemma StepKeepsInv(s: State, step: Step)
    requires Inv(s) && Enabled(s, step)
    ensures Inv(Apply(s, step))
  {
    StepKeepsCounted(s, step);
    StepKeepsDraining(s, step);
    StepKeepsClosedByOne(s, step);
    StepKeepsOwned(s, step);
    StepKeepsKnown(s, step);
    StepKeepsHandles(s, step);
    StepKeepsLock(s, step);
  }

  lemma {:induction false} RunKeepsInv(s: State, steps: seq<Step>)
    requires Inv(s) && Allowed(s, steps)
    ensures Inv(Run(s, steps))
    decreases |steps|
  {
    if steps != [] {
      StepKeepsInv(s, steps[0]);
      RunKeepsInv(Apply(s, steps[0]), steps[1..]);
    }
  }

  // ----- What follows for every run

  /** The wait group is the number of admitted operations that have not finished. */
  lemma InFlightIsExact(steps: seq<Step>, n: NodeId)
    requires Allowed(INIT, steps) && n in Run(INIT, steps).nodes
    ensures Run(INIT, steps).nodes[n].wait == |InFlight(Run(INIT, steps).pcs, n)|
  {
    RunKeepsInv(INIT, steps);
  }

  /** The database is closed at most once, and then nothing runs on the node. */
  lemma DatabaseClosesOnceDrained(steps: seq<Step>, n: NodeId)
    requires Allowed(INIT, steps) && n in Run(INIT, steps).nodes
    ensures var s := Run(INIT, steps);
            s.nodes[n].closes <= 1 && (s.nodes[n].closes == 1 ==> InFlight(s.pcs, n) == {} && s.nodes[n].workers == 0)
  {
    RunKeepsInv(INIT, steps);
    var s := Run(INIT, steps);
    assert Settled(s.nodes[n]);
  }

  /** A step neither reopens a node nor starts an operation on a closed one. */
  lemma StepAdmitsNoneAfterClose(s: State, step: Step, n: NodeId)
    requires Enabled(s, step) && n in s.nodes && s.nodes[n].closed
    ensures n in Apply(s, step).nodes && Apply(s, step).nodes[n].closed
    ensures InFlight(Apply(s, step).pcs, n) <= InFlight(s.pcs, n)
  {
    var after := Apply(s, step);
    forall t | t in InFlight(after.pcs, n) ensures t in InFlight(s.pcs, n) {
      if !step.WorkerExits? {
        OneThreadMoves(s, step);
        if t != step.t {
          Elsewhere(s.pcs, after.pcs, step.t, t);
        }
      }
    }
  }

  /** From the moment a node is closed, the operations on it are among those then in flight. */
  lemma {:induction false} NoneAdmittedAfterClose(s: State, steps: seq<Step>, n: NodeId)
    requires Allowed(s, steps) && n in s.nodes && s.nodes[n].closed
    ensures n in Run(s, steps).nodes && Run(s, steps).nodes[n].closed
    ensures InFlight(Run(s, steps).pcs, n) <= InFlight(s.pcs, n)
    decreases |steps|
  {
    if steps != [] {
      StepAdmitsNoneAfterClose(s, steps[0], n);
      NoneAdmittedAfterClose(Apply(s, steps[0]), steps[1..], n);
    }
  }

  /** No handle is given out twice, and none beyond 64 bits. */
  lemma HandlesAreNeverReused(steps: seq<Step>, i: nat, j: nat)
    requires Allowed(INIT, steps) && i < j < |Run(INIT, steps).issued|
    ensures 0 < Run(INIT, steps).issued[i] < Run(INIT, steps).issued[j] <= MAX_HANDLE
  {
    RunKeepsInv(INIT, steps);
  }

  predicate Busy(pcs: map<Thread, Pc>, t: Thread) { t in pcs && !pcs[t].Serving? }

  /** Once everything was closed and every pending open and close is through, every node ever created is closed. */
  lemma CloseAllClosesEveryNode(steps: seq<Step>, n: NodeId)
    requires Allowed(INIT, steps) && n in Run(INIT, steps).nodes
    requires Run(INIT, steps).registry.closed && forall t :: !Busy(Run(INIT, steps).pcs, t)
    ensures Run(INIT, steps).nodes[n].closes == 1
  {
    RunKeepsInv(INIT, steps);
    var s := Run(INIT, steps);
    if !s.nodes[n].closed {
      assert !Named(s.registry, n);
      var t :| Holds(s.pcs, t, n);
      assert Busy(s.pcs, t);
    } else if s.nodes[n].closes == 0 {
      var t :| Drains(s.pcs, t, n);
      assert Busy(s.pcs, t);
    } else {
      assert Settled(s.nodes[n]);
    }
  }
}
