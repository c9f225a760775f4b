/**
 The embedded node's admit, drain and close, and the registry that hands out handles
 for nodes. Each method is one critical section.
 */
module NodeLifecycle {
  import opened Wrappers

  type Handle = nat
  type NodeId = nat

  const MAX_HANDLE: nat := 0xFFFF_FFFF_FFFF_FFFF

  /** `wait` and `workers` are the two wait groups; `closes` counts closes of the database. */
  datatype Node = Node(closed: bool, wait: nat, workers: nat, closes: nat)

  function Admitted(n: Node): Node { if n.closed then n else n.(wait := n.wait + 1) }

  class EmbeddedNode {
    var closed: bool
    var wait: nat
    var workers: nat
    var closes: nat

    ghost function State(): Node
      reads this
    {
      Node(closed, wait, workers, closes)
    }

    constructor (started: nat)
      ensures State() == Node(false, 0, started, 0)
    {
      closed, wait, workers, closes := false, 0, started, 0;
    }

    /** How `Execute` and the transport operations start. */
    method Begin() returns (ok: bool)
      modifies this`wait
      ensures ok == !closed && State() == Admitted(old(State()))
    {
      if closed {
        return false;
      }
      wait := wait + 1;
      return true;
    }

    method Done()
      requires wait > 0
      modifies this`wait
      ensures State() == old(State()).(wait := old(wait) - 1)
    {
      wait := wait - 1;
    }

    /** The part of `Close` under the lock; only the first caller goes on to drain. */
    method MarkClosed() returns (first: bool)
      modifies this`closed
      ensures first == !old(closed) && State() == old(State()).(closed := true)
    {
      if closed {
        return false;
      }
      closed := true;
      return true;
    }

    /** The rest of `Close`, once both wait groups have let it through. */
    method CloseDatabase()
      requires wait == 0 && workers == 0
      modifies this`closes
      ensures State() == old(State()).(closes := old(closes) + 1)
    {
      closes := closes + 1;
    }
  }

  /** The registry's fields. */
  datatype Registry = Registry(next: Handle, closed: bool, nodes: map<Handle, NodeId>)

  predicate Refuses(r: Registry) { r.closed || r.next == MAX_HANDLE }

  function Registered(r: Registry, node: NodeId): Registry {
    r.(next := r.next + 1, nodes := r.nodes[r.next + 1 := node])
  }

  class MobileNodeRegistry {
    var next: Handle
    var closed: bool
    var nodes: map<Handle, NodeId>

    ghost function State(): Registry
      reads this
    {
      Registry(next, closed, nodes)
    }

    constructor ()
      ensures State() == Registry(0, false, map[])
    {
      next, closed, nodes := 0, false, map[];
    }

    /** The locked part of `Open`; on `None` the caller closes the node it brought. */
    method Register(node: NodeId) returns (handle: Option<Handle>)
      modifies this
      ensures old(Refuses(State())) ==> handle == None && State() == old(State())
      ensures !old(Refuses(State())) ==> handle == Some(old(next) + 1) && State() == Registered(old(State()), node)
    {
      if closed {
        return None;
      }
      if next == MAX_HANDLE {
        return None;
      }
      next := next + 1;
      nodes := nodes[next := node];
      return Some(next);
    }

    method Lookup(handle: Handle) returns (node: Option<NodeId>)
      ensures node == if closed || handle == 0 || handle !in nodes then None else Some(nodes[handle])
    {
      if handle == 0 {
        return None;
      }
      if closed {
        return None;
      }
      if handle !in nodes {
        return None;
      }
      return Some(nodes[handle]);
    }

    /** The locked part of `Close`. */
    method Take(handle: Handle) returns (node: Option<NodeId>)
      modifies this`nodes
      ensures handle == 0 ==> node == None && State() == old(State())
      ensures handle != 0 ==>
                && node == (if handle in old(nodes) then Some(old(nodes)[handle]) else None)
                && State() == old(State()).(nodes := old(nodes) - {handle})
    {
      if handle == 0 {
        return None;
      }
      node := if handle in nodes then Some(nodes[handle]) else None;
      nodes := nodes - {handle};
    }

    /** The locked part of `CloseAll`: empties the map into a list. */
    method TakeAll() returns (taken: seq<NodeId>)
      modifies this
      ensures old(closed) ==> taken == [] && State() == old(State())
      ensures !old(closed) ==> State() == Registry(old(next), true, map[]) && Lists(taken, old(nodes))
    {
      if closed {
        return [];
      }
      closed := true;
      taken := [];
      while nodes != map[]
        invariant next == old(next) && closed && Remaining(nodes, taken, old(nodes))
        decreases |nodes|
      {
        var handle :| handle in nodes;
        TakeOne(nodes, taken, old(nodes), handle);
        assert (nodes - {handle}).Keys == nodes.Keys - {handle};
        taken := taken + [nodes[handle]];
        nodes := nodes - {handle};
      }
    }
  }

  /** A list of exactly the nodes in the map, each as often as it has handles. */
  ghost predicate Lists(taken: seq<NodeId>, nodes: map<Handle, NodeId>) {
    && (forall h :: h in nodes ==> nodes[h] in taken)
    && (forall i :: 0 <= i < |taken| ==> taken[i] in nodes.Values)
    && |taken| == |nodes|
  }

  ghost predicate Remaining(nodes: map<Handle, NodeId>, taken: seq<NodeId>, all: map<Handle, NodeId>) {
    && (forall h :: h in nodes ==> h in all && nodes[h] == all[h])
    && (forall h :: h in all && h !in nodes ==> all[h] in taken)
    && (forall i :: 0 <= i < |taken| ==> taken[i] in all.Values)
    && |taken| + |nodes| == |all|
  }

  lemma TakeOne(nodes: map<Handle, NodeId>, taken: seq<NodeId>, all: map<Handle, NodeId>, handle: Handle)
    requires Remaining(nodes, taken, all) && handle in nodes
    ensures Remaining(nodes - {handle}, taken + [nodes[handle]], all)
  {
    assert (nodes - {handle}).Keys == nodes.Keys - {handle};
    assert |nodes - {handle}| == |(nodes - {handle}).Keys| && |nodes| == |nodes.Keys|;
    assert all[handle] in all.Values;
  }
}
