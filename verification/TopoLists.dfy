/** The two intrusive lists that hold the nodes of a graph. */
module TopoLists {
  import opened Sequences
  import opened IntrusiveList

  /** `nodes` are in `cells`, in order; a handle to a node is the cell that the node is in. */
  ghost predicate Matched(place: map<nat, Cell<nat>>, cells: seq<Cell<nat>>, nodes: seq<nat>)
    reads cells`value
  {
    && |cells| == |nodes|
    && forall i :: 0 <= i < |nodes| ==> nodes[i] in place && place[nodes[i]] == cells[i] && cells[i].value == nodes[i]
  }

  lemma MatchedAt(place: map<nat, Cell<nat>>, cells: seq<Cell<nat>>, nodes: seq<nat>, n: nat)
    requires Matched(place, cells, nodes) && n in nodes
    ensures n in place && place[n] in cells && place[n].value == n && cells != []
    ensures place[n] == cells[0] <==> n == nodes[0]
  {
    var i :| 0 <= i < |nodes| && nodes[i] == n;
    assert place[nodes[i]] == cells[i] && place[nodes[0]] == cells[0];
  }

  lemma MatchedNoDup(place: map<nat, Cell<nat>>, cells: seq<Cell<nat>>, nodes: seq<nat>)
    requires Matched(place, cells, nodes)
    ensures NoDup(cells) <==> NoDup(nodes)
  {
    forall i, j | 0 <= i < j < |nodes| ensures cells[i] == cells[j] <==> nodes[i] == nodes[j] {
    }
  }

  lemma MatchedWithout(place: map<nat, Cell<nat>>, cells: seq<Cell<nat>>, nodes: seq<nat>, n: nat)
    requires Matched(place, cells, nodes) && NoDup(cells) && n in nodes && n in place
    ensures Matched(place, Without(cells, place[n]), Without(nodes, n))
  {
    hide Without;
    MatchedNoDup(place, cells, nodes);
    var k :| 0 <= k < |nodes| && nodes[k] == n;
    assert place[nodes[k]] == cells[k];
    WithoutAt(cells, k);
    WithoutAt(nodes, k);
  }

  lemma MatchedFront(place: map<nat, Cell<nat>>, cells: seq<Cell<nat>>, nodes: seq<nat>, n: nat, cell: Cell<nat>)
    requires Matched(place, cells, nodes) && n !in nodes && cell.value == n
    ensures Matched(place[n := cell], [cell] + cells, [n] + nodes)
  {
  }

  lemma MatchedOther(place: map<nat, Cell<nat>>, cells: seq<Cell<nat>>, nodes: seq<nat>, n: nat, cell: Cell<nat>)
    requires Matched(place, cells, nodes) && n !in nodes
    ensures Matched(place[n := cell], cells, nodes)
  {
  }

  /** No node is in two lists without a cell in common. */
  lemma MatchedApart(place: map<nat, Cell<nat>>, cells: seq<Cell<nat>>, nodes: seq<nat>, others: seq<Cell<nat>>,
                     otherNodes: seq<nat>, n: nat)
    requires Matched(place, cells, nodes) && Matched(place, others, otherNodes)
    requires n in nodes && forall c :: c in cells ==> c !in others
    ensures n !in otherNodes
  {
    MatchedAt(place, cells, nodes, n);
    if n in otherNodes {
      MatchedAt(place, others, otherNodes, n);
      assert false;
    }
  }

  class NodeLists {
    const pending: List<nat>
    const blocked: List<nat>
    var place: map<nat, Cell<nat>>

    ghost var pendings: seq<nat>
    ghost var blockeds: seq<nat>

    ghost predicate Valid()
      reads this, pending, blocked, pending.cells, blocked.cells
    {
      && pending != blocked && pending.Valid() && blocked.Valid()
      && (forall c :: c in pending.cells ==> c !in blocked.cells)
      && Matched(place, pending.cells, pendings) && Matched(place, blocked.cells, blockeds)
      // the first blocked node always has a null back link, since nodes only come and go by `Steal`
      && blocked.HeadClean()
    }

    /** Whether the first pending node has a null back link: see `IntrusiveList.Steal`. */
    ghost predicate HeadClean()
      reads this, pending, pending.cells
    {
      pending.HeadClean()
    }

    ghost function Cells(): set<Cell<nat>>
      reads pending, blocked
    {
      (set c | c in pending.cells) + (set c | c in blocked.cells)
    }

    constructor ()
      ensures Valid() && pendings == [] && blockeds == [] && HeadClean() && Cells() == {}
      ensures fresh(pending) && fresh(blocked)
    {
      pending := new List<nat>();
      blocked := new List<nat>();
      place := map[];
      pendings, blockeds := [], [];
    }

    method AddPending(n: nat) returns (ghost cell: Cell<nat>)
      requires Valid() && n !in pendings && n !in blockeds
      modifies this, pending, Cells()
      ensures Valid() && pendings == [n] + old(pendings) && blockeds == old(blockeds) && HeadClean()
      ensures fresh(cell) && Cells() == old(Cells()) + {cell}
    {
      hide Matched, NoDup;
      BlockedApart();
      pending.EmplaceFront(n);
      assert forall c :: c in blocked.cells ==> c.next == old(c.next) && c.prev == old(c.prev);
      cell := pending.cells[0];
      assert cell !in blocked.cells;
      MatchedFront(place, old(pending.cells), pendings, n, cell);
      MatchedOther(place, blocked.cells, blockeds, n, cell);
      assert pending.cells == [cell] + old(pending.cells);
      place := place[n := pending.head];
      pendings := [n] + pendings;
    }

    lemma BlockedApart()
      requires Valid()
      ensures forall c :: c in blocked.cells ==> c !in pending.cells
      ensures blocked != pending && blocked.Valid() && blocked.HeadClean()
    {
    }

    /** Moves a pending node to the front of the blocked ones. */
    method Block(n: nat)
      requires Valid() && n in pendings && (n == pendings[0] ==> HeadClean())
      modifies this, pending, blocked, Cells()
      ensures Valid() && pendings == Without(old(pendings), n) && blockeds == [n] + old(blockeds)
      ensures (HeadClean() <==> old(HeadClean())) && Cells() == old(Cells())
    {
      hide Matched, NoDup, Without;
      MatchedAt(place, pending.cells, pendings, n);
      MatchedApart(place, pending.cells, pendings, blocked.cells, blockeds, n);
      var cell := place[n];
      CellsMoved(blocked.cells, pending.cells, cell);
      Steal(blocked, pending, cell);
      MatchedWithout(place, old(pending.cells), pendings, n);
      MatchedFront(place, old(blocked.cells), blockeds, n, cell);
      assert place[n := cell] == place;
      pendings := Without(pendings, n);
      blockeds := [n] + blockeds;
    }

    /** Moves a blocked node to the front of the pending ones. */
    method Free(n: nat)
      requires Valid() && n in blockeds
      modifies this, pending, blocked, Cells()
      ensures Valid() && blockeds == Without(old(blockeds), n) && pendings == [n] + old(pendings)
      ensures HeadClean() && Cells() == old(Cells())
    {
      hide Matched, NoDup, Without;
      MatchedAt(place, blocked.cells, blockeds, n);
      MatchedApart(place, blocked.cells, blockeds, pending.cells, pendings, n);
      var cell := place[n];
      CellsMoved(pending.cells, blocked.cells, cell);
      Steal(pending, blocked, cell);
      MatchedWithout(place, old(blocked.cells), blockeds, n);
      MatchedFront(place, old(pending.cells), pendings, n, cell);
      assert place[n := cell] == place;
      blockeds := Without(blockeds, n);
      pendings := [n] + pendings;
    }

    /** Drops a pending node. */
    method Remove(n: nat)
      requires Valid() && n in pendings
      modifies this, pending, Cells()
      ensures Valid() && pendings == Without(old(pendings), n) && blockeds == old(blockeds)
      ensures HeadClean() <==> if n == old(pendings[0]) then |old(pendings)| == 1 else old(HeadClean())
      ensures Cells() <= old(Cells())
    {
      hide Matched, NoDup, Without;
      MatchedAt(place, pending.cells, pendings, n);
      MatchedSize(place, pending.cells, pendings);
      BlockedApart();
      pending.Erase(place[n]);
      assert forall c :: c in blocked.cells ==> c.next == old(c.next) && c.prev == old(c.prev);
      assert |pending.cells| == |old(pending.cells)| - 1;
      MatchedWithout(place, old(pending.cells), pendings, n);
      pendings := Without(pendings, n);
    }

    /** The first pending node. */
    method Top() returns (n: nat)
      requires Valid() && pendings != []
      ensures n == pendings[0]
    {
      n := pending.head.value;
    }

    predicate NonePending()
      reads pending
    {
      pending.head == null
    }

    predicate NoneBlocked()
      reads blocked
    {
      blocked.head == null
    }

    lemma HeadsTell()
      requires Valid()
      ensures NonePending() <==> pendings == []
      ensures NoneBlocked() <==> blockeds == []
      ensures blockeds != [] ==> blocked.head.value == blockeds[0]
    {
    }
  }

  lemma CellsMoved(to: seq<Cell<nat>>, from: seq<Cell<nat>>, cell: Cell<nat>)
    requires cell in from && NoDup(from)
    ensures (set c | c in [cell] + to) + (set c | c in Without(from, cell)) == (set c | c in to) + (set c | c in from)
  {
  }

  lemma MatchedSize(place: map<nat, Cell<nat>>, cells: seq<Cell<nat>>, nodes: seq<nat>)
    requires Matched(place, cells, nodes)
    ensures |cells| == |nodes|
  {
  }
}
