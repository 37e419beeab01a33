/** The graph of the imports between modules, and the order in which they are bundled. */
module ImportGraph {
  import opened Sequences
  import opened Digraph
  import opened TopoState
  import opened TopoGraph
  import opened TopoLists
  import opened IntrusiveList

  /** Arcs between nodes, read as arcs between the values of the nodes. */
  ghost function Named<Id>(arcs: set<(nat, nat)>, value: map<nat, Id>): set<(Id, Id)> {
    set a | a in arcs && a.0 in value && a.1 in value :: (value[a.0], value[a.1])
  }

  lemma NamedOneMore<Id>(arcs: set<(nat, nat)>, value: map<nat, Id>, l: nat, r: nat)
    requires l in value && r in value
    ensures Named(arcs + {(l, r)}, value) == Named(arcs, value) + {(value[l], value[r])}
  {
    var more := arcs + {(l, r)};
    assert (l, r) in more;
    forall d | d in Named(arcs, value) ensures d in Named(more, value) {
      var a :| a in arcs && a.0 in value && a.1 in value && d == (value[a.0], value[a.1]);
      assert a in more;
    }
  }

  lemma NamedWithNode<Id>(s: State, value: map<nat, Id>, n: nat, id: Id)
    requires s.Ok() && !s.Live(n)
    ensures Named(s.Arcs(), value[n := id]) == Named(s.Arcs(), value)
  {
    forall a | a in s.Arcs() ensures a.0 != n && a.1 != n {
      ArcsAreLive(s, a);
    }
    forall d | d in Named(s.Arcs(), value) ensures d in Named(s.Arcs(), value[n := id]) {
      var a :| a in s.Arcs() && a.0 in value && a.1 in value && d == (value[a.0], value[a.1]);
      assert a.0 in value[n := id];
    }
  }

  lemma ArcsAreLive(s: State, a: (nat, nat))
    requires s.Ok() && a in s.Arcs()
    ensures s.Live(a.0) && s.Live(a.1)
  {
    var e :| e in s.edges && e in s.edge && a == s.Arc(e);
    assert s.EdgeOk(e);
  }

  /** Without cycles, something is pending as long as something is live. */
  lemma NeverCyclic(s: State, t: State, order: seq<nat>)
    requires Drained(s, t, order) && Acyclic(s.Arcs())
    requires t.pendings != [] || t.blockeds != []
    ensures t.pendings != []
  {
    if t.pendings == [] {
      var n := t.blockeds[0];
      assert t.Live(n);
      DrainedToCycles(s, t, order, n);
      assert false;
    }
  }

  ghost predicate Identifies<Id>(s: State, value: map<nat, Id>, moduleMap: map<Id, nat>) {
    && (forall id :: id in moduleMap ==> s.Live(moduleMap[id]) && moduleMap[id] in value && value[moduleMap[id]] == id)
    && (forall n :: s.Live(n) ==> n in value && value[n] in moduleMap && moduleMap[value[n]] == n)
  }

  /** A new node with an identifier that no module has. */
  lemma IdentifiesNew<Id>(s: State, value: map<nat, Id>, moduleMap: map<Id, nat>, n: nat, id: Id, t: State)
    requires Identifies(s, value, moduleMap) && id !in moduleMap && !s.Live(n)
    requires t.pendings == [n] + s.pendings && t.blockeds == s.blockeds
    ensures Identifies(t, value[n := id], moduleMap[id := n]) && t.Live(n)
  {
  }

  lemma IdentifiesStays<Id>(s: State, value: map<nat, Id>, moduleMap: map<Id, nat>, t: State)
    requires Identifies(s, value, moduleMap) && forall n :: t.Live(n) <==> s.Live(n)
    ensures Identifies(t, value, moduleMap)
  {
  }

  ghost predicate Values<Id>(value: map<nat, Id>, order: seq<nat>, ids: seq<Id>) {
    |ids| == |order| && forall i :: 0 <= i < |order| ==> order[i] in value && ids[i] == value[order[i]]
  }

  lemma NoValues<Id>(value: map<nat, Id>)
    ensures Values(value, [], [])
  {
  }

  lemma ValuesOneMore<Id>(value: map<nat, Id>, order: seq<nat>, ids: seq<Id>, n: nat)
    requires Values(value, order, ids) && n in value
    ensures Values(value, order + [n], ids + [value[n]])
  {
  }

  /** The order of the nodes, read as an order of identifiers. */
  lemma OrderOfIds<Id(!new)>(s: State, t: State, order: seq<nat>, value: map<nat, Id>, moduleMap: map<Id, nat>,
                             ids: seq<Id>)
    requires Drained(s, t, order) && t.pendings == [] && t.blockeds == []
    requires Identifies(s, value, moduleMap) && Values(value, order, ids)
    ensures NoDup(ids) && forall id :: id in ids <==> id in moduleMap
    ensures Settled(Named(s.Arcs(), value), ids)
  {
    forall i, j | 0 <= i < j < |ids| ensures ids[i] != ids[j] {
      assert s.Live(order[i]) && s.Live(order[j]);
    }
    forall id | id in moduleMap ensures id in ids {
      var n := moduleMap[id];
      assert s.Live(n) && !t.Live(n);
      var i: nat :| i < |order| && order[i] == n;
      assert ids[i] == id;
    }
    forall id | id in ids ensures id in moduleMap {
      var i: nat :| i < |ids| && ids[i] == id;
      assert s.Live(order[i]);
    }
    forall j: nat, id | j < |ids| && (ids[j], id) in Named(s.Arcs(), value) ensures id in ids[..j] {
      NamedTargetBefore(s, t, order, value, moduleMap, ids, j, id);
    }
  }

  lemma NamedTargetBefore<Id(!new)>(s: State, t: State, order: seq<nat>, value: map<nat, Id>, moduleMap: map<Id, nat>,
                                    ids: seq<Id>, j: nat, id: Id)
    requires Drained(s, t, order) && Identifies(s, value, moduleMap) && Values(value, order, ids)
    requires j < |ids| && (ids[j], id) in Named(s.Arcs(), value)
    ensures id in ids[..j]
  {
    var a :| a in s.Arcs() && a.0 in value && a.1 in value && (ids[j], id) == (value[a.0], value[a.1]);
    ArcsAreLive(s, a);
    assert s.Live(order[j]);
    assert a.0 == order[j];
    assert (order[j], a.1) in s.Arcs();
    var i: nat :| i < j && order[i] == a.1;
    assert ids[..j][i] == id;
  }

  class Imports<Id(==, !new)> {
    const graph: Graph<Id>
    var moduleMap: map<Id, nat>

    /** The nodes of the graph are the modules of the map, each with its identifier. */
    ghost predicate Valid()
      reads this, graph, graph.lists, graph.lists.pending, graph.lists.blocked
      reads graph.lists.pending.cells, graph.lists.blocked.cells
    {
      graph.Valid() && graph.lists.HeadClean() && Identifies(graph.Now(), graph.value, moduleMap)
    }

    /** From the identifier of each importing module to that of the imported one. */
    ghost function Dependencies(): set<(Id, Id)>
      reads this, graph, graph.lists
    {
      Named(graph.Now().Arcs(), graph.value)
    }

    constructor ()
      ensures Valid() && moduleMap == map[] && Dependencies() == {}
      ensures fresh(graph) && fresh(graph.lists) && fresh(graph.lists.pending) && fresh(graph.lists.blocked)
      ensures graph.lists.Cells() == {}
    {
      graph := new Graph();
      moduleMap := map[];
    }

    method GetOrMakeModule(id: Id) returns (n: nat, ghost made: set<Cell<nat>>)
      requires Valid()
      modifies this, graph, graph.lists, graph.lists.pending, graph.lists.blocked, graph.lists.Cells()
      ensures fresh(made) && graph.lists.Cells() == old(graph.lists.Cells()) + made
      ensures Valid() && id in moduleMap && n == moduleMap[id] && graph.Now().Live(n)
      ensures moduleMap.Keys == old(moduleMap.Keys) + {id}
      ensures forall x :: x in old(moduleMap) ==> moduleMap[x] == old(moduleMap[x])
      ensures Dependencies() == old(Dependencies())
    {
      hide NodeLists.Valid, NodeLists.HeadClean, NodeLists.Cells, State.Ok, State.Arcs, Named;
      if id in moduleMap {
        return moduleMap[id], {};
      }
      n, made := graph.MakeNode(id);
      IdentifiesNew(old(graph.Now()), old(graph.value), moduleMap, n, id, graph.Now());
      hide Identifies;
      moduleMap := moduleMap[id := n];
      NamedWithNode(old(graph.Now()), old(graph.value), n, id);
    }

    method MakeDependency(l: Id, r: Id) returns (ghost made: set<Cell<nat>>)
      requires Valid()
      modifies this, graph, graph.lists, graph.lists.pending, graph.lists.blocked, graph.lists.Cells()
      ensures fresh(made) && graph.lists.Cells() == old(graph.lists.Cells()) + made
      ensures Valid() && moduleMap.Keys == old(moduleMap.Keys) + {l, r}
      ensures Dependencies() == old(Dependencies()) + {(l, r)}
    {
      hide NodeLists.Valid, NodeLists.HeadClean, NodeLists.Cells, State.Ok, State.Arcs, Named;
      var lhs, cells := GetOrMakeModule(l);
      var rhs;
      rhs, made := GetOrMakeModule(r);
      made := made + cells;
      NamedOneMore(graph.Now().Arcs(), graph.value, lhs, rhs);
      AttachedLive(graph.Now(), lhs, rhs);
      IdentifiesStays(graph.Now(), graph.value, moduleMap, graph.Now().Attached(lhs, rhs));
      hide Identifies, State.Attached, State.Live;
      var _ := graph.Attach(lhs, rhs);
    }

    /** One bundle for each module, in an order where every module comes after those it imports. */
    method MakeBundles() returns (moduleOrder: seq<Id>, moduleBundles: seq<nat>)
      requires Valid() && Acyclic(graph.Now().Arcs())
      modifies graph, graph.lists, graph.lists.pending, graph.lists.blocked, graph.lists.Cells()
      ensures NoDup(moduleOrder) && forall id :: id in moduleOrder <==> id in moduleMap
      ensures Settled(old(Dependencies()), moduleOrder)
      ensures |moduleBundles| == |moduleOrder| + 1 && forall i :: 0 <= i < |moduleBundles| ==> moduleBundles[i] == i
    {
      hide NodeLists.Valid, NodeLists.HeadClean, NodeLists.Cells, State.Ok, State.Arcs, Acyclic, Named, Settled,
           NoDup, Drained, Values, Identifies;
      moduleOrder, moduleBundles := [], [];
      ghost var start, order: seq<nat> := graph.Now(), [];
      DrainedNone(start);
      assert Values(graph.value, [], []) by { NoValues(graph.value); }
      SomethingLive(start, graph.value, moduleMap);
      if moduleMap == map[] {
        OrderOfIds(start, start, order, graph.value, moduleMap, moduleOrder);
        moduleBundles := moduleBundles + [0];
        return;
      }
      while true
        invariant graph.Valid() && Drained(start, graph.Now(), order) && graph.value == old(graph.value)
        invariant graph.lists.pendings != [] || graph.lists.blockeds != []
        invariant graph.lists.Cells() <= old(graph.lists.Cells())
        invariant Values(graph.value, order, moduleOrder)
        invariant |moduleBundles| == |moduleOrder| && forall i :: 0 <= i < |moduleBundles| ==> moduleBundles[i] == i
        decreases Nodes(graph.Now())
      {
        moduleBundles := moduleBundles + [|moduleOrder|];
        NeverCyclic(start, graph.Now(), order);
        var top := graph.PopTop(start, order);
        ValuesOneMore(graph.value, order, moduleOrder, top);
        moduleOrder := moduleOrder + [graph.value[top]];
        order := order + [top];
        graph.CyclicMeans();
        if graph.lists.NonePending() && !graph.IsCyclic() {
          break;
        }
      }
      moduleBundles := moduleBundles + [|moduleOrder|];
      OrderOfIds(start, graph.Now(), order, graph.value, moduleMap, moduleOrder);
    }
  }

  lemma SomethingLive<Id>(s: State, value: map<nat, Id>, moduleMap: map<Id, nat>)
    requires Identifies(s, value, moduleMap)
    ensures moduleMap != map[] <==> s.pendings != [] || s.blockeds != []
  {
    if moduleMap != map[] {
      var id :| id in moduleMap;
      assert s.Live(moduleMap[id]);
    } else {
      assert forall n :: !s.Live(n);
      assert s.pendings != [] ==> s.Live(s.pendings[0]);
      assert s.blockeds != [] ==> s.Live(s.blockeds[0]);
    }
  }
}
