/** The topological graph: building it, popping it in order, and finding a cycle in what is left. */
module TopoGraph {
  import opened Sequences
  import opened Digraph
  import opened TopoState
  import opened TopoLists
  import opened IntrusiveList

  class Graph<T> {
    var value: map<nat, T>
    var withinCycle: map<nat, bool>
    var dependees: map<nat, seq<nat>>
    var dependers: map<nat, seq<nat>>
    var cell: map<nat, nat>
    var edge: map<nat, Edge>
    var edges: seq<nat>
    var nodeCount: nat
    var edgeCount: nat
    var cellCount: nat

    /** The pending nodes and the blocked ones. */
    const lists: NodeLists

    ghost function Now(): State
      reads this, lists
    {
      State(dependees, dependers, cell, edge, edges, lists.pendings, lists.blockeds, nodeCount, edgeCount, cellCount)
    }

    ghost predicate Valid()
      reads this, lists, lists.pending, lists.blocked, lists.pending.cells, lists.blocked.cells
    {
      lists.Valid() && Now().Ok() && forall n :: Now().Live(n) ==> n in value && n in withinCycle
    }

    constructor ()
      ensures Valid() && lists.pendings == [] && lists.blockeds == [] && edges == [] && lists.HeadClean()
      ensures fresh(lists) && fresh(lists.pending) && fresh(lists.blocked) && lists.Cells() == {} && Now() == NO_NODES
    {
      value, withinCycle, dependees, dependers, cell, edge := map[], map[], map[], map[], map[], map[];
      edges := [];
      nodeCount, edgeCount, cellCount := 0, 0, 0;
      lists := new NodeLists();
    }

    method MakeNode(v: T) returns (n: nat, ghost made: set<Cell<nat>>)
      requires Valid()
      modifies this, lists, lists.pending, lists.blocked, lists.Cells()
      ensures Valid() && Now() == old(Now()).WithNode()
      ensures !old(Now()).Live(n) && lists.pendings == [n] + old(lists.pendings) && Now().Arcs() == old(Now()).Arcs()
      ensures value == old(value)[n := v] && withinCycle == old(withinCycle)[n := false] && lists.HeadClean()
      ensures fresh(made) && lists.Cells() == old(lists.Cells()) + made
    {
      hide NodeLists.Valid, NodeLists.HeadClean, NodeLists.Cells, State.Ok, State.Arcs;
      WithNodeOk(Now());
      n := nodeCount;
      nodeCount := nodeCount + 1;
      value := value[n := v];
      withinCycle := withinCycle[n := false];
      dependees := dependees[n := []];
      dependers := dependers[n := []];
      assert lists.Cells() == old(lists.Cells());
      ghost var cell := lists.AddPending(n);
      made := {cell};
    }

    /** A pending node moves to the blocked ones. */
    method StealFromPendings(l: nat)
      requires lists.Valid() && l in dependees
      requires dependees[l] == [] ==> l in lists.pendings && (l == lists.pendings[0] ==> lists.HeadClean())
      modifies lists, lists.pending, lists.blocked, lists.Cells()
      ensures lists.Valid() && Now() == old(Now()).Blocked(l)
      ensures (lists.HeadClean() <==> old(lists.HeadClean())) && lists.Cells() == old(lists.Cells())
    {
      if dependees[l] == [] {
        lists.Block(l);
      }
    }

    method MakeEdge(l: nat, r: nat) returns (e: nat)
      requires l in dependees && r in dependers
      modifies `edgeCount, `cellCount, `edges, `cell, `dependees, `dependers, `edge
      ensures Now() == old(Now()).WithEdge(l, r) && e == old(edgeCount)
    {
      e := edgeCount;
      var c, d := cellCount, cellCount + 1;
      edgeCount := edgeCount + 1;
      cellCount := cellCount + 2;
      edges := [e] + edges;
      cell := cell[c := e][d := e];
      dependees := dependees[l := [c] + dependees[l]];
      dependers := dependers[r := [d] + dependers[r]];
      edge := edge[e := Edge(l, r, c, d)];
    }

    /** A pending depender is moved, then the edge is made. */
    method BlockAndLink(l: nat, r: nat) returns (e: nat)
      requires lists.Valid() && l in dependees && r in dependers
      requires dependees[l] == [] ==> l in lists.pendings && (l == lists.pendings[0] ==> lists.HeadClean())
      modifies lists, lists.pending, lists.blocked, lists.Cells()
      modifies `edgeCount, `cellCount, `edges, `cell, `dependees, `dependers, `edge
      ensures lists.Valid() && Now() == old(Now()).Attached(l, r) && e == old(edgeCount)
      ensures (lists.HeadClean() <==> old(lists.HeadClean())) && lists.Cells() == old(lists.Cells())
    {
      hide NodeLists.Valid, NodeLists.HeadClean, NodeLists.Cells, State.WithEdge, State.Blocked;
      BlockedKeeps(Now(), l);
      StealFromPendings(l);
      e := MakeEdge(l, r);
    }

    /** `l` depends upon `r`. */
    method Attach(l: nat, r: nat) returns (e: nat)
      requires Valid() && Now().Live(l) && Now().Live(r)
      requires lists.pendings != [] && l == lists.pendings[0] ==> lists.HeadClean()
      modifies this, lists, lists.pending, lists.blocked, lists.Cells()
      ensures Valid() && Now() == old(Now()).Attached(l, r)
      ensures e !in old(edges) && edges == [e] + old(edges) && Now().Arcs() == old(Now()).Arcs() + {(l, r)}
      ensures value == old(value) && withinCycle == old(withinCycle)
      ensures (lists.HeadClean() <==> old(lists.HeadClean())) && lists.Cells() == old(lists.Cells())
    {
      hide NodeLists.Valid, NodeLists.HeadClean, NodeLists.Cells, State.Ok, State.Arcs, State.Live, State.Attached;
      AttachedFacts(Now(), l, r);
      AttachedLive(Now(), l, r);
      AttachedOk(Now(), l, r);
      ArcsAttached(Now(), l, r);
      e := BlockAndLink(l, r);
    }

    method RemoveEdge(e: nat)
      requires e in edge && edge[e].depender in dependees && edge[e].dependee in dependers
      modifies `edges, `dependees, `dependers
      ensures Now() == old(Now()).WithoutEdge(e)
    {
      var Edge(l, r, c, d) := edge[e];
      dependees := dependees[l := Without(dependees[l], c)];
      dependers := dependers[r := Without(dependers[r], d)];
      edges := Without(edges, e);
    }

    /** A node that depends on nothing any more moves back to the pending ones. */
    method StealFromBlockeds(l: nat)
      requires lists.Valid() && l in dependees && l in lists.blockeds
      modifies lists, lists.pending, lists.blocked, lists.Cells()
      ensures lists.Valid() && Now() == old(Now()).Freed(l)
      ensures (old(lists.HeadClean()) ==> lists.HeadClean()) && lists.Cells() == old(lists.Cells())
    {
      if dependees[l] == [] {
        lists.Free(l);
      }
    }

    /** The edge goes, then its depender moves when that was its last one. */
    method RemoveAndFree(e: nat)
      requires lists.Valid() && e in edge && edge[e].depender in dependees && edge[e].dependee in dependers
      requires edge[e].depender in lists.blockeds
      modifies lists, lists.pending, lists.blocked, lists.Cells()
      modifies `edges, `dependees, `dependers
      ensures lists.Valid() && Now() == old(Now()).Detached(e)
      ensures (old(lists.HeadClean()) ==> lists.HeadClean()) && lists.Cells() == old(lists.Cells())
    {
      hide NodeLists.Valid, NodeLists.HeadClean, NodeLists.Cells, State.Freed;
      RemoveEdge(e);
      StealFromBlockeds(edge[e].depender);
    }

    method Detach(e: nat)
      requires Valid() && e in edges
      modifies this, lists, lists.pending, lists.blocked, lists.Cells()
      ensures Valid() && e in old(edge) && Now() == old(Now()).Detached(e)
      ensures value == old(value) && withinCycle == old(withinCycle)
      ensures forall n :: Now().Live(n) <==> old(Now()).Live(n)
      ensures (old(lists.HeadClean()) ==> lists.HeadClean()) && lists.Cells() == old(lists.Cells())
    {
      hide NodeLists.Valid, NodeLists.HeadClean, NodeLists.Cells, State.Ok, State.Arcs, State.Live, State.Detached;
      DetachedFacts(Now(), e);
      DetachedOk(Now(), e);
      RemoveAndFree(e);
    }

    method DetachAll(n: nat)
      requires Valid() && Now().Live(n)
      modifies this, lists, lists.pending, lists.blocked, lists.Cells()
      ensures Valid() && Detaching(old(Now()), Now(), n)
      ensures n in dependers && dependers[n] == []
      ensures value == old(value) && withinCycle == old(withinCycle)
      ensures (old(lists.HeadClean()) ==> lists.HeadClean()) && lists.Cells() == old(lists.Cells())
    {
      hide NodeLists.Valid, NodeLists.HeadClean, NodeLists.Cells, State.Ok;
      LiveIsListed(Now(), n);
      while dependers[n] != []
        invariant Valid() && n in dependers && Now().Live(n) && Detaching(old(Now()), Now(), n)
        invariant value == old(value) && withinCycle == old(withinCycle)
        invariant (old(lists.HeadClean()) ==> lists.HeadClean()) && lists.Cells() == old(lists.Cells())
        decreases |dependers[n]|
      {
        DetachingMore(old(Now()), Now(), n);
        Detach(cell[dependers[n][0]]);
      }
    }

    method Pop(n: nat)
      requires Valid() && n in lists.pendings
      modifies this, lists, lists.pending, lists.blocked, lists.Cells()
      ensures Valid() && value == old(value) && withinCycle == old(withinCycle)
      ensures Popped(old(Now()), n, Now()) && lists.Cells() <= old(lists.Cells())
    {
      hide NodeLists.Valid, NodeLists.HeadClean, NodeLists.Cells, State.Ok;
      DetachAll(n);
      ghost var u := Now();
      DroppedOk(u, n);
      lists.Remove(n);
      assert Now() == u.Dropped(n);
    }

    /** The top of the graph comes next in the order of the nodes popped since `start`. */
    method PopTop(ghost start: State, ghost order: seq<nat>) returns (top: nat)
      requires Valid() && lists.pendings != [] && Drained(start, Now(), order)
      modifies this, lists, lists.pending, lists.blocked, lists.Cells()
      ensures Valid() && top == old(lists.pendings[0]) && value == old(value) && top in value
              && lists.Cells() <= old(lists.Cells())
      ensures Drained(start, Now(), order + [top])
      ensures Nodes(Now()) < old(Nodes(Now()))
    {
      hide NodeLists.Valid, NodeLists.HeadClean, NodeLists.Cells, State.Ok, Settled, NoDup, Popped;
      top := lists.Top();
      assert Now().Live(top);
      Pop(top);
      PoppedOk(old(Now()), top, Now());
      assert Nodes(Now()) == old(Nodes(Now())) - {top} && top in old(Nodes(Now()));
      DrainedOneMore(start, old(Now()), Now(), order, top);
    }

    predicate IsCyclic()
      reads lists.pending, lists.blocked
    {
      lists.NonePending() && !lists.NoneBlocked()
    }

    lemma CyclicMeans()
      requires Valid()
      ensures lists.NonePending() <==> lists.pendings == []
      ensures IsCyclic() <==> lists.pendings == [] && lists.blockeds != []
    {
      lists.HeadsTell();
    }

    /** Pops until nothing is pending. Every node comes once and after all of its dependees, and the nodes
        left blocked are exactly those a cycle can be reached from. */
    method Drain() returns (order: seq<nat>)
      requires Valid()
      modifies this, lists, lists.pending, lists.blocked, lists.Cells()
      ensures Valid() && lists.pendings == [] && NoDup(order)
      ensures forall n :: n in order || n in lists.blockeds <==> old(Now()).Live(n)
      ensures Settled(old(Now()).Arcs(), order)
      ensures forall n :: n in lists.blockeds <==> old(Now()).Live(n) && ReachesCycle(old(Now()).Arcs(), n)
      ensures forall n :: n in order <==> old(Now()).Live(n) && !ReachesCycle(old(Now()).Arcs(), n)
      ensures value == old(value)
    {
      hide NodeLists.Valid, NodeLists.HeadClean, NodeLists.Cells, State.Ok, Settled, NoDup, Popped;
      order := [];
      DrainedNone(Now());
      while !lists.NonePending()
        invariant Valid() && Drained(old(Now()), Now(), order) && value == old(value)
                  && lists.Cells() <= old(lists.Cells())
        decreases Nodes(Now())
      {
        CyclicMeans();
        var top := PopTop(old(Now()), order);
        order := order + [top];
      }
      CyclicMeans();
      forall n | old(Now()).Live(n)
        ensures n in lists.blockeds <==> ReachesCycle(old(Now()).Arcs(), n)
        ensures n in order <==> !ReachesCycle(old(Now()).Arcs(), n)
      {
        DrainedToCycles(old(Now()), Now(), order, n);
      }
    }

    /** A directed cycle of the blocked nodes, each once, along the first dependee of each. The search starts
        at the first blocked node, and leaves marked the nodes of the `tail` it goes through before the cycle. Its
        loop makes as many `turns` of `TopoState.Turn`. */
    method MakeCycle() returns (cycle: seq<nat>, ghost tail: seq<nat>, ghost turns: nat)
      requires Valid()
      requires IsCyclic() ==> forall n :: n in lists.blockeds ==> n in withinCycle && !withinCycle[n]
      modifies `withinCycle
      ensures Valid()
      ensures !IsCyclic() ==> cycle == [] && withinCycle == old(withinCycle)
      ensures IsCyclic() ==> Rho(Now(), tail, cycle) && (tail + cycle)[0] == lists.blockeds[0]
      ensures IsCyclic() ==> Cyclic(Now()) && Marked(Now(), withinCycle, tail)
      ensures IsCyclic() ==> Searching(Now(), Search(old(withinCycle), lists.blockeds[0], []))
      ensures IsCyclic() ==> var y := Turns(Now(), Search(old(withinCycle), lists.blockeds[0], []), turns);
                             y == Search(withinCycle, cycle[0], cycle) && Found(y)
    {
      hide NodeLists.Valid, NodeLists.HeadClean, NodeLists.Cells, State.Ok, State.Arcs, Walking, Rho, Turns,
           Searching, Marked;
      cycle, tail, turns := [], [], 0;
      CyclicMeans();
      if !IsCyclic() {
        return;
      }
      lists.HeadsTell();
      var node := lists.blocked.head.value;
      ghost var s, path, mu: nat := Now(), [], 0;
      NothingWalked(s, withinCycle);
      ghost var start := Search(withinCycle, node, []);
      SearchStarts(s, withinCycle, node);
      while cycle == [] || node != cycle[0]
        invariant Valid() && Now() == s && Walking(s, withinCycle, node, path, mu, cycle)
        invariant Turns(s, start, turns) == Search(withinCycle, node, cycle)
        decreases cycle == [], if cycle == [] then |lists.blockeds| - |path| else |path| - mu - |cycle|
      {
        path, mu := WalkingTurns(s, withinCycle, node, path, mu, cycle);
        FirstIsBlocked(s, node);
        TurnsOn(s, start, turns, Search(withinCycle, node, cycle));
        turns := turns + 1;
        if withinCycle[node] {
          cycle := cycle + [node];
        }
        withinCycle := withinCycle[node := !withinCycle[node]];
        node := edge[cell[dependees[node][0]]].dependee;
      }
      WalkingSees(s, withinCycle, node, path, mu, cycle);
      WalkingDone(s, withinCycle, node, path, mu, cycle);
      tail := path[..mu];
      MarkedMeans(s, withinCycle, tail);
    }
  }

  method ThreeApart() returns (g: Graph<nat>)
    ensures fresh(g) && fresh(g.lists) && fresh(g.lists.pending) && fresh(g.lists.blocked) && fresh(g.lists.Cells())
    ensures g.Valid() && g.Now() == ThreeNodes() && g.lists.HeadClean() && g.Now().Arcs() == {}
    ensures forall n :: 0 <= n < 3 ==> n in g.withinCycle && !g.withinCycle[n]
  {
    hide NodeLists.Valid, NodeLists.HeadClean, NodeLists.Cells, State.Ok, State.Arcs;
    g := new Graph<nat>();
    assert g.Now().Arcs() == {} by { NoArcs(); }
    var a, cells := g.MakeNode(0);
    var b, moreCells := g.MakeNode(1);
    var c, lastCells := g.MakeNode(2);
    ThreeNodesAre();
    assert g.lists.pendings == [c, b, a];
  }

  /** The first dependee of the first pending node. */
  method AttachTop(g: Graph<nat>, l: nat, r: nat)
    requires g.Valid() && g.lists.HeadClean() && g.lists.pendings != [] && l == g.lists.pendings[0]
    requires l in g.dependees && r in g.dependers && g.dependees[l] == []
    requires r in g.lists.pendings || r in g.lists.blockeds
    modifies g, g.lists, g.lists.pending, g.lists.blocked, g.lists.Cells()
    ensures g.Valid() && g.lists.HeadClean() && g.lists.Cells() == old(g.lists.Cells())
    ensures g.dependees.Keys == old(g.dependees.Keys) && g.dependers.Keys == old(g.dependers.Keys)
    ensures forall n :: n in g.dependees && n != l ==> g.dependees[n] == old(g.dependees[n])
    ensures g.lists.pendings == old(g.lists.pendings)[1..] && g.lists.blockeds == [l] + old(g.lists.blockeds)
    ensures g.Now().Arcs() == old(g.Now().Arcs()) + {(l, r)} && g.withinCycle == old(g.withinCycle)
  {
    hide NodeLists.Valid, NodeLists.HeadClean, NodeLists.Cells, State.Ok, State.Arcs, State.Attached;
    NextArc(g.Now(), l, r);
    var e := g.Attach(l, r);
  }

  /** Two nodes that depend on each other, and a third one. */
  method PairAndOne() returns (g: Graph<nat>)
    ensures fresh(g) && fresh(g.lists) && fresh(g.lists.pending) && fresh(g.lists.blocked) && fresh(g.lists.Cells())
    ensures g.Valid() && g.lists.HeadClean() && g.lists.pendings == [0] && g.lists.blockeds == [1, 2]
    ensures 0 in g.dependees && 1 in g.dependers && g.dependees[0] == [] && g.Now().Arcs() == {(1, 2), (2, 1)}
    ensures forall n :: 0 <= n < 3 ==> n in g.withinCycle && !g.withinCycle[n]
  {
    hide NodeLists.Valid, NodeLists.HeadClean, NodeLists.Cells, State.Ok, State.Arcs, State.Attached, Without;
    g := ThreeApart();
    ThreeNodesAre();
    hide ThreeNodes, Graph.Valid, State.Live;
    AttachTop(g, 2, 1);
    assert g.lists.pendings == [1, 0];
    AttachTop(g, 1, 2);
  }

  /** The third one depends on the first of the pair. */
  method PairAndTail() returns (g: Graph<nat>)
    ensures fresh(g) && g.Valid() && g.lists.pendings == [] && g.lists.blockeds == [0, 1, 2]
    ensures g.Now().Arcs() == {(0, 1), (1, 2), (2, 1)}
    ensures forall n :: n in g.lists.blockeds ==> n in g.withinCycle && !g.withinCycle[n]
  {
    hide NodeLists.Valid, NodeLists.HeadClean, NodeLists.Cells, State.Ok, State.Arcs, State.Live, Graph.Valid;
    g := PairAndOne();
    AttachTop(g, 0, 1);
    assert g.lists.blockeds == [0, 1, 2];
  }

  lemma NoArcs()
    ensures NO_NODES.Arcs() == {}
  {
  }

  /** A first search that comes through a tail, and leaves it marked: a second one would not end. */
  method TailedSearch() returns (g: Graph<nat>, ghost tail: seq<nat>, ghost cycle: seq<nat>)
    ensures g.Valid() && Cyclic(g.Now()) && Rho(g.Now(), tail, cycle) && tail != []
    ensures Searching(g.Now(), Search(g.withinCycle, g.Now().blockeds[0], []))
    ensures forall k: nat :: !Found(Turns(g.Now(), Search(g.withinCycle, g.Now().blockeds[0], []), k))
  {
    hide NodeLists.Valid, NodeLists.HeadClean, NodeLists.Cells, State.Ok, State.Arcs, Rho, Turns, Searching, Found;
    g := PairAndTail();
    g.CyclicMeans();
    ghost var turns;
    var found;
    found, tail, turns := g.MakeCycle();
    cycle := found;
    g.CyclicMeans();
    NoWayBack(g.Now(), tail, cycle);
    MarkedMeans(g.Now(), g.withinCycle, tail);
    SearchStarts(g.Now(), g.withinCycle, g.Now().blockeds[0]);
    SecondSearchEndsIff(g.Now(), g.withinCycle, tail, cycle);
  }

  ghost function Nodes(s: State): (nodes: set<nat>)
    ensures forall n :: n in nodes <==> s.Live(n)
  {
    (set n | n in s.pendings) + (set n | n in s.blockeds)
  }
}
