/**
 Shutdown always finishes: as long as a thread is in the middle of something, some step
 that ends work is possible, and only so many such steps can be taken.
 */
module LifecycleProgress {
  import opened Wrappers
  import opened NodeLifecycle
  import opened LifecycleRuns

  /** Steps that carry on work already begun. */
  predicate Progress(step: Step) {
    step.Register? || step.Mark? || step.AwaitRequests? || step.AwaitWorkers? || step.CloseDatabase? || step.Finish?
      || step.WorkerExits?
  }

  // ----- Never stuck

  ghost predicate CanMove(s: State) {
    exists step :: Progress(step) && Enabled(s, step)
  }

  lemma ServingCanFinish(s: State, t: Thread)
    requires Counted(s.nodes, s.pcs) && t in s.pcs && s.pcs[t].Serving?
    ensures Enabled(s, Finish(t))
  {
    assert t in InFlight(s.pcs, s.pcs[t].node);
  }

  /** A closing thread can move, or a request or worker it waits for can. */
  lemma ClosingCanMove(s: State, t: Thread)
    requires Counted(s.nodes, s.pcs) && t in s.pcs && s.pcs[t].Closing?
    ensures CanMove(s)
  {
    var n := s.pcs[t].node;
    match s.pcs[t].phase
    case Marking => assert Enabled(s, Mark(t));
    case Requests =>
      if s.nodes[n].wait == 0 {
        assert Enabled(s, AwaitRequests(t));
      } else {
        var u :| u in InFlight(s.pcs, n);
        ServingCanFinish(s, u);
      }
    case Workers =>
      if s.nodes[n].workers == 0 {
        assert Enabled(s, AwaitWorkers(t));
      } else {
        assert Enabled(s, WorkerExits(n));
      }
    case Database => assert Enabled(s, CloseDatabase(t));
  }

  /** Nothing deadlocks, although a refused open drains its node under the registry lock. */
  lemma NeverStuck(steps: seq<Step>, t: Thread)
    requires Allowed(INIT, steps) && t in Run(INIT, steps).pcs
    ensures CanMove(Run(INIT, steps))
  {
    RunKeepsInv(INIT, steps);
    var s := Run(INIT, steps);
    match s.pcs[t]
    case Serving(_) => ServingCanFinish(s, t);
    case Closing(_, _, _, _) => ClosingCanMove(s, t);
    case Opening(_) =>
      if s.lock.None? {
        assert Enabled(s, Register(t));
      } else {
        ClosingCanMove(s, s.lock.value);
      }
  }

  // ----- How much work is left

  ghost function Sum(m: map<nat, nat>): nat
    decreases |m.Keys|
  {
    if m == map[] then 0 else
    var k :| k in m;
    assert (m - {k}).Keys == m.Keys - {k};
    m[k] + Sum(m - {k})
  }

  lemma {:induction false} SumWithout(m: map<nat, nat>, k: nat)
    requires k in m
    ensures Sum(m) == m[k] + Sum(m - {k})
    decreases |m.Keys|
  {
    var j :| j in m && Sum(m) == m[j] + Sum(m - {j});
    if j != k {
      assert (m - {j}).Keys == m.Keys - {j} && (m - {k}).Keys == m.Keys - {k};
      SumWithout(m - {j}, k);
      SumWithout(m - {k}, j);
      assert m - {j} - {k} == m - {k} - {j};
    }
  }

  function Rank(phase: Phase): nat {
    match phase
    case Marking => 4
    case Requests => 3
    case Workers => 2
    case Database => 1
  }

  function Cost(pc: Pc): nat {
    match pc
    case Opening(_) => 5
    case Serving(_) => 1
    case Closing(_, phase, rest, _) => Rank(phase) + 4 * |rest|
  }

  ghost function Costs(pcs: map<Thread, Pc>): map<nat, nat> { map t | t in pcs :: Cost(pcs[t]) }

  ghost function WorkersLeft(nodes: map<NodeId, Node>): map<nat, nat> { map n | n in nodes :: nodes[n].workers }

  ghost function Work(s: State): nat { Sum(Costs(s.pcs)) + Sum(WorkersLeft(s.nodes)) }

  lemma ThreadCostsLess(pcs: map<Thread, Pc>, after: map<Thread, Pc>, t: Thread)
    requires MovesOnly(pcs, after, t) && t in pcs && (t in after ==> Cost(after[t]) < Cost(pcs[t]))
    ensures Sum(Costs(after)) < Sum(Costs(pcs))
  {
    SumWithout(Costs(pcs), t);
    forall u | u != t ensures (u in pcs <==> u in after) && (u in pcs ==> pcs[u] == after[u]) {
      Elsewhere(pcs, after, t, u);
    }
    assert Costs(pcs) - {t} == Costs(after) - {t};
    if t in after {
      SumWithout(Costs(after), t);
    } else {
      assert Costs(after) - {t} == Costs(after);
    }
  }

  lemma WorkersAreSame(s: State, step: Step)
    requires Enabled(s, step) && Progress(step) && !step.WorkerExits?
    ensures WorkersLeft(Apply(s, step).nodes) == WorkersLeft(s.nodes)
  {
  }

  lemma MovingThreadCostsLess(s: State, step: Step)
    requires Enabled(s, step) && Progress(step) && !step.WorkerExits?
    ensures step.t in s.pcs && (step.t in Apply(s, step).pcs ==> Cost(Apply(s, step).pcs[step.t]) < Cost(s.pcs[step.t]))
  {
  }

  lemma ExitLeavesFewerWorkers(s: State, n: NodeId)
    requires Enabled(s, WorkerExits(n))
    ensures Work(Apply(s, WorkerExits(n))) < Work(s)
  {
    var after := Apply(s, WorkerExits(n));
    SumWithout(WorkersLeft(s.nodes), n);
    SumWithout(WorkersLeft(after.nodes), n);
    assert WorkersLeft(s.nodes) - {n} == WorkersLeft(after.nodes) - {n};
  }

  /** Every such step leaves less work. */
  lemma ProgressLeavesLess(s: State, step: Step)
    requires Enabled(s, step) && Progress(step)
    ensures Work(Apply(s, step)) < Work(s)
  {
    if step.WorkerExits? {
      ExitLeavesFewerWorkers(s, step.n);
    } else {
      OneThreadMoves(s, step);
      MovingThreadCostsLess(s, step);
      ThreadCostsLess(s.pcs, Apply(s, step).pcs, step.t);
      WorkersAreSame(s, step);
    }
  }

  /** With nothing new started, a run is no longer than the work there is. */
  lemma {:induction false} ShutdownEnds(s: State, steps: seq<Step>)
    requires Allowed(s, steps) && forall i :: 0 <= i < |steps| ==> Progress(steps[i])
    ensures |steps| + Work(Run(s, steps)) <= Work(s)
    decreases |steps|
  {
    if steps != [] {
      ProgressLeavesLess(s, steps[0]);
      ShutdownEnds(Apply(s, steps[0]), steps[1..]);
    }
  }
}
