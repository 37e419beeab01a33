/** The state of a topological graph as a value, what its operations do to it, and the invariant they keep.

    Nodes, edges and cells are named by their place in their pool; the lists are the sequences that
    `IntrusiveList` refines. */
module TopoState {
  import opened Sequences
  import opened Digraph

  /** `dependerCell` is in the depender's list of dependees, `dependeeCell` in the dependee's of dependers. */
  datatype Edge = Edge(depender: nat, dependee: nat, dependerCell: nat, dependeeCell: nat)

  datatype State = State(
    dependees: map<nat, seq<nat>>, // per node, the cells of its list of dependees
    dependers: map<nat, seq<nat>>, // per node, the cells of its list of dependers
    cell: map<nat, nat>,           // the edge in each cell
    edge: map<nat, Edge>,
    edges: seq<nat>,
    pendings: seq<nat>,
    blockeds: seq<nat>,
    nodeCount: nat,
    edgeCount: nat,
    cellCount: nat)
  {
    ghost predicate Live(n: nat) {
      n in pendings || n in blockeds
    }

    ghost predicate NodesOk() {
      && NoDup(pendings) && NoDup(blockeds)
      && (forall n :: n in pendings ==> n !in blockeds)
      && (forall n: nat :: Live(n) ==> n < nodeCount && n in dependees && n in dependers)
    }

    /** The cells of the list of dependees of `n` hold live edges, each knowing its cell. */
    ghost predicate OutOk(n: nat)
      requires n in dependees
    {
      NoDup(dependees[n]) && forall c :: c in dependees[n] ==> OutCellOk(n, c)
    }

    ghost predicate OutCellOk(n: nat, c: nat) {
      c < cellCount && c in cell && cell[c] in edges && cell[c] in edge
      && edge[cell[c]].depender == n && edge[cell[c]].dependerCell == c
    }

    ghost predicate InOk(n: nat)
      requires n in dependers
    {
      NoDup(dependers[n]) && forall c :: c in dependers[n] ==> InCellOk(n, c)
    }

    ghost predicate InCellOk(n: nat, c: nat) {
      c < cellCount && c in cell && cell[c] in edges && cell[c] in edge
      && edge[cell[c]].dependee == n && edge[cell[c]].dependeeCell == c
    }

    /** The ends of an edge are live and have it in their lists, in the cells it names. */
    ghost predicate EdgeOk(e: nat) {
      && e < edgeCount && e in edge
      && var Edge(l, r, c, d) := edge[e];
      && Live(l) && l in dependees && c in dependees[l] && c in cell && cell[c] == e
      && Live(r) && r in dependers && d in dependers[r] && d in cell && cell[d] == e
    }

    ghost predicate EdgesOk() {
      NoDup(edges) && forall e :: e in edges ==> EdgeOk(e)
    }

    ghost predicate ListsOk() {
      && (forall n :: n in dependees && Live(n) ==> OutOk(n))
      && (forall n :: n in dependers && Live(n) ==> InOk(n))
    }

    /** A node is pending when and only when it has no dependee. */
    ghost predicate PendingIffFree() {
      && (forall n :: n in pendings ==> n in dependees && dependees[n] == [])
      && (forall n :: n in blockeds ==> n in dependees && dependees[n] != [])
    }

    ghost predicate Ok() {
      NodesOk() && EdgesOk() && ListsOk() && PendingIffFree()
    }

    ghost function Arc(e: nat): (nat, nat)
      requires e in edge
    {
      (edge[e].depender, edge[e].dependee)
    }

    /** From each depender to its dependee. */
    ghost function Arcs(): (arcs: set<(nat, nat)>)
    {
      set e | e in edges && e in edge :: Arc(e)
    }

    // ---------- operations ----------

    function WithNode(): State {
      this.(nodeCount := nodeCount + 1,
            dependees := dependees[nodeCount := []],
            dependers := dependers[nodeCount := []],
            pendings := [nodeCount] + pendings)
    }

    /** `l` becomes blocked when it was pending. */
    function Blocked(l: nat): State
      requires l in dependees
    {
      if dependees[l] == [] then this.(pendings := Without(pendings, l), blockeds := [l] + blockeds) else this
    }

    /** `l` depends upon `r`, by a new edge. */
    function WithEdge(l: nat, r: nat): State
      requires l in dependees && r in dependers
    {
      var c, d := cellCount, cellCount + 1;
      this.(edgeCount := edgeCount + 1,
            cellCount := cellCount + 2,
            cell := cell[c := edgeCount][d := edgeCount],
            edges := [edgeCount] + edges,
            dependees := dependees[l := [c] + dependees[l]],
            dependers := dependers[r := [d] + dependers[r]],
            edge := edge[edgeCount := Edge(l, r, c, d)])
    }

    function Attached(l: nat, r: nat): State
      requires l in dependees && r in dependers
    {
      Blocked(l).WithEdge(l, r)
    }

    /** An edge leaves the lists of its ends and the list of edges. */
    function WithoutEdge(e: nat): State
      requires e in edge && edge[e].depender in dependees && edge[e].dependee in dependers
    {
      var Edge(l, r, c, d) := edge[e];
      this.(dependees := dependees[l := Without(dependees[l], c)],
            dependers := dependers[r := Without(dependers[r], d)],
            edges := Without(edges, e))
    }

    /** `l` becomes pending when it has no dependee left. */
    function Freed(l: nat): State
      requires l in dependees
    {
      if dependees[l] == [] then this.(pendings := [l] + pendings, blockeds := Without(blockeds, l)) else this
    }

    function Detached(e: nat): State
      requires e in edge && edge[e].depender in dependees && edge[e].dependee in dependers
    {
      WithoutEdge(e).Freed(edge[e].depender)
    }

    /** A pending node no edge leads to is dropped. */
    function Dropped(n: nat): State {
      this.(pendings := Without(pendings, n))
    }
  }

  // ---------- the invariant is kept ----------

  lemma WithNodeOk(s: State)
    requires s.Ok()
    ensures s.WithNode().Ok() && s.WithNode().Arcs() == s.Arcs() && !s.Live(s.nodeCount)
  {
    var t := s.WithNode();
    assert !s.Live(s.nodeCount);
    NoDupFront(s.nodeCount, s.pendings);
    forall e | e in t.edges ensures t.EdgeOk(e) {
      assert s.EdgeOk(e);
    }
    forall n | n in t.dependees && t.Live(n) && n != s.nodeCount ensures t.OutOk(n) {
      assert s.OutOk(n);
      assert forall c :: s.OutCellOk(n, c) ==> t.OutCellOk(n, c);
    }
    forall n | n in t.dependers && t.Live(n) && n != s.nodeCount ensures t.InOk(n) {
      assert s.InOk(n);
      assert forall c :: s.InCellOk(n, c) ==> t.InCellOk(n, c);
    }
    forall e | e in t.edges && e in t.edge ensures t.Arc(e) == s.Arc(e) {
    }
  }

  lemma LiveIsListed(s: State, n: nat)
    requires s.Ok() && s.Live(n)
    ensures n in s.dependees && n in s.dependers && n < s.nodeCount
  {
  }

  lemma BlockedKeeps(s: State, l: nat)
    requires l in s.dependees
    ensures s.Blocked(l).dependees == s.dependees && s.Blocked(l).dependers == s.dependers
            && s.Blocked(l).edgeCount == s.edgeCount
  {
  }

  lemma AttachedFacts(s: State, l: nat, r: nat)
    requires s.Ok() && s.Live(l) && s.Live(r)
    ensures l in s.dependees && r in s.dependers && (s.dependees[l] == [] ==> l in s.pendings)
    ensures s.edgeCount !in s.edges && s.Attached(l, r).edges == [s.edgeCount] + s.edges
  {
  }

  lemma DetachedFacts(s: State, e: nat)
    requires s.Ok() && e in s.edges
    ensures e in s.edge && s.edge[e].depender in s.dependees && s.edge[e].dependee in s.dependers
    ensures s.WithoutEdge(e).edge == s.edge && s.edge[e].depender in s.WithoutEdge(e).dependees
    ensures s.Detached(e) == s.WithoutEdge(e).Freed(s.edge[e].depender)
  {
    assert s.EdgeOk(e);
  }

  lemma AttachedLive(s: State, l: nat, r: nat)
    requires s.Ok() && s.Live(l) && s.Live(r)
    ensures l in s.dependees && r in s.dependers
    ensures forall n :: s.Attached(l, r).Live(n) <==> s.Live(n)
  {
  }

  /** All but the division of the nodes between pending and blocked ones. */
  ghost predicate Linked(s: State) {
    s.NodesOk() && s.EdgesOk() && s.ListsOk()
  }

  /** `t` has the nodes, cells and edges of `s`, its live nodes divided otherwise. */
  ghost predicate Redivided(s: State, t: State) {
    t == s.(pendings := t.pendings, blockeds := t.blockeds) && forall n :: t.Live(n) <==> s.Live(n)
  }

  lemma RedividedIsLinked(s: State, t: State)
    requires Linked(s) && Redivided(s, t) && t.NodesOk()
    ensures Linked(t)
  {
    forall e | e in t.edges ensures t.EdgeOk(e) {
      assert s.EdgeOk(e);
    }
    forall n | n in t.dependees && t.Live(n) ensures t.OutOk(n) {
      assert s.OutOk(n);
      assert forall c :: s.OutCellOk(n, c) ==> t.OutCellOk(n, c);
    }
    forall n | n in t.dependers && t.Live(n) ensures t.InOk(n) {
      assert s.InOk(n);
      assert forall c :: s.InCellOk(n, c) ==> t.InCellOk(n, c);
    }
  }

  lemma BlockedIsLinked(s: State, l: nat)
    requires s.Ok() && s.Live(l)
    ensures Linked(s.Blocked(l)) && Redivided(s, s.Blocked(l)) && l in s.Blocked(l).blockeds
  {
    if s.dependees[l] == [] {
      assert l !in s.blockeds;
      NoDupFront(l, s.blockeds);
    }
    RedividedIsLinked(s, s.Blocked(l));
  }

  lemma WithEdgeIsLinked(s: State, l: nat, r: nat)
    requires Linked(s) && s.Live(l) && s.Live(r)
    ensures Linked(s.WithEdge(l, r))
  {
    var t := s.WithEdge(l, r);
    var c, d, x := s.cellCount, s.cellCount + 1, s.edgeCount;
    forall e | e in s.edges ensures e != x && t.EdgeOk(e) {
      assert s.EdgeOk(e);
      CellsAreOld(s, e);
    }
    NoDupFront(x, s.edges);
    assert t.EdgeOk(x);
    forall n | n in t.dependees && t.Live(n) ensures t.OutOk(n) {
      assert s.OutOk(n);
      forall k | k in s.dependees[n] ensures t.OutCellOk(n, k) {
        assert s.OutCellOk(n, k) && s.EdgeOk(s.cell[k]);
      }
      NoDupFront(c, s.dependees[l]);
    }
    forall n | n in t.dependers && t.Live(n) ensures t.InOk(n) {
      assert s.InOk(n);
      forall k | k in s.dependers[n] ensures t.InCellOk(n, k) {
        assert s.InCellOk(n, k) && s.EdgeOk(s.cell[k]);
      }
      NoDupFront(d, s.dependers[r]);
    }
  }

  /** The cells an edge names have been made before. */
  lemma CellsAreOld(s: State, e: nat)
    requires Linked(s) && e in s.edges
    ensures s.EdgeOk(e) && s.edge[e].dependerCell < s.cellCount && s.edge[e].dependeeCell < s.cellCount
  {
    assert s.EdgeOk(e);
    var Edge(l, r, c, d) := s.edge[e];
    assert s.OutOk(l) && s.OutCellOk(l, c);
    assert s.InOk(r) && s.InCellOk(r, d);
  }

  lemma AttachedOk(s: State, l: nat, r: nat)
    requires s.Ok() && s.Live(l) && s.Live(r)
    ensures s.Attached(l, r).Ok()
    ensures s.edgeCount !in s.edges
  {
    var b := s.Blocked(l);
    BlockedIsLinked(s, l);
    WithEdgeIsLinked(b, l, r);
    var t := s.Attached(l, r);
    forall n | n in t.blockeds ensures t.dependees[n] != [] {
      assert n != l ==> n in s.blockeds;
    }
    forall e | e in s.edges ensures e != s.edgeCount {
      assert s.EdgeOk(e);
    }
  }

  lemma ArcsAttached(s: State, l: nat, r: nat)
    requires s.Ok() && s.Live(l) && s.Live(r)
    ensures s.Attached(l, r).Arcs() == s.Arcs() + {(l, r)}
  {
    var t := s.Attached(l, r);
    forall e | e in s.edges ensures e in s.edge && e in t.edge && e in t.edges && t.Arc(e) == s.Arc(e) {
      assert s.EdgeOk(e);
    }
    assert t.Arc(s.edgeCount) == (l, r);
    forall a | a in t.Arcs() ensures a in s.Arcs() + {(l, r)} {
      var e :| e in t.edges && e in t.edge && t.Arc(e) == a;
      if e != s.edgeCount {
        assert e in s.edges;
      }
    }
  }

  lemma WithoutEdgeIsLinked(s: State, e: nat)
    requires Linked(s) && e in s.edges
    ensures e in s.edge && s.edge[e].depender in s.dependees && s.edge[e].dependee in s.dependers
    ensures Linked(s.WithoutEdge(e))
  {
    assert s.EdgeOk(e);
    var Edge(l, r, c, d) := s.edge[e];
    var t := s.WithoutEdge(e);
    forall x | x in t.edges ensures t.EdgeOk(x) {
      assert s.EdgeOk(x);
    }
    forall n | n in t.dependees && t.Live(n) ensures t.OutOk(n) {
      assert s.OutOk(n);
      forall k | k in t.dependees[n] ensures t.OutCellOk(n, k) {
        assert s.OutCellOk(n, k);
      }
    }
    forall n | n in t.dependers && t.Live(n) ensures t.InOk(n) {
      assert s.InOk(n);
      forall k | k in t.dependers[n] ensures t.InCellOk(n, k) {
        assert s.InCellOk(n, k);
      }
    }
  }

  lemma DetachedOk(s: State, e: nat)
    requires s.Ok() && e in s.edges
    ensures e in s.edge && s.edge[e].depender in s.dependees && s.edge[e].dependee in s.dependers
    ensures s.Detached(e).Ok()
    ensures s.edge[e].depender in s.blockeds
    ensures forall n :: s.Detached(e).Live(n) <==> s.Live(n)
  {
    assert s.EdgeOk(e);
    var l := s.edge[e].depender;
    WithoutEdgeIsLinked(s, e);
    var u := s.WithoutEdge(e);
    var t := s.Detached(e);
    assert l !in s.pendings;
    if u.dependees[l] == [] {
      NoDupFront(l, u.pendings);
    }
    RedividedIsLinked(u, t);
  }

  lemma DroppedOk(s: State, n: nat)
    requires s.Ok() && n in s.pendings && n in s.dependers && s.dependers[n] == []
    ensures s.Dropped(n).Ok()
    ensures forall x :: s.Dropped(n).Live(x) <==> s.Live(x) && x != n
  {
    var t := s.Dropped(n);
    forall e | e in t.edges ensures t.EdgeOk(e) {
      assert s.EdgeOk(e);
    }
    forall x | x in t.dependees && t.Live(x) ensures t.OutOk(x) {
      assert s.OutOk(x);
      assert forall c :: s.OutCellOk(x, c) ==> t.OutCellOk(x, c);
    }
    forall x | x in t.dependers && t.Live(x) ensures t.InOk(x) {
      assert s.InOk(x);
      assert forall c :: s.InCellOk(x, c) ==> t.InCellOk(x, c);
    }
  }

  /** `t` is `s` without some of the edges that lead to `n`. */
  ghost predicate Detaching(s: State, t: State, n: nat) {
    && t.Ok()
    && t.edge == s.edge && t.cell == s.cell
    && (forall x :: t.Live(x) <==> s.Live(x))
    && (forall e :: e in t.edges ==> e in s.edges)
    && (forall e :: e in s.edges && e !in t.edges ==> e in s.edge && s.edge[e].dependee == n)
    && (n in s.pendings ==> n in t.pendings)
  }

  lemma DetachingMore(s: State, t: State, n: nat)
    requires Detaching(s, t, n) && t.Live(n) && n in t.dependers && t.dependers[n] != []
    ensures var c := t.dependers[n][0];
            && c in t.cell && t.cell[c] in t.edges && t.cell[c] in t.edge
            && t.edge[t.cell[c]].depender in t.dependees && t.edge[t.cell[c]].dependee == n
            && Detaching(s, t.Detached(t.cell[c]), n)
            && n in t.Detached(t.cell[c]).dependers
            && t.Detached(t.cell[c]).dependers[n] == t.dependers[n][1..]
  {
    var c := t.dependers[n][0];
    assert t.InOk(n) && t.InCellOk(n, c);
    var e := t.cell[c];
    assert t.EdgeOk(e);
    DetachedOk(t, e);
    WithoutAt(t.dependers[n], 0);
  }

  /** With no depender left, no edge leads to `n`. */
  lemma DetachedFromAll(s: State, t: State, n: nat)
    requires Detaching(s, t, n) && n in t.dependers && t.dependers[n] == []
    ensures forall e :: e in t.edges <==> e in s.edges && e in s.edge && s.edge[e].dependee != n
  {
    forall e | e in t.edges ensures e in s.edge && s.edge[e].dependee != n {
      assert t.EdgeOk(e);
    }
  }

  // ---------- draining ----------

  /** `t` is what `s` becomes when the nodes of `order` have been popped, one after the other. */
  ghost predicate Drained(s: State, t: State, order: seq<nat>) {
    && s.Ok() && t.Ok()
    && t.edge == s.edge
    && NoDup(order)
    && (forall n :: t.Live(n) <==> s.Live(n) && n !in order)
    && (forall n :: n in order ==> s.Live(n))
    && (forall e :: e in t.edges <==> e in s.edges && e in s.edge && s.edge[e].dependee !in order)
    && Settled(s.Arcs(), order)
  }

  lemma DrainedNone(s: State)
    requires s.Ok()
    ensures Drained(s, s, [])
  {
    forall e | e in s.edges ensures e in s.edge {
      assert s.EdgeOk(e);
    }
  }

  /** `t` is `s` with its pending node `n` dropped, once every edge that leads to `n` is detached. */
  ghost predicate Popped(s: State, n: nat, t: State) {
    exists u :: Detaching(s, u, n) && n in u.dependers && u.dependers[n] == [] && t == u.Dropped(n)
  }

  lemma PoppedOk(s: State, n: nat, t: State)
    requires n in s.pendings && Popped(s, n, t)
    ensures t.Ok() && t.edge == s.edge
    ensures forall x :: t.Live(x) <==> s.Live(x) && x != n
    ensures forall e :: e in t.edges <==> e in s.edges && e in s.edge && s.edge[e].dependee != n
  {
    var u :| Detaching(s, u, n) && n in u.dependers && u.dependers[n] == [] && t == u.Dropped(n);
    DroppedOk(u, n);
    DetachedFromAll(s, u, n);
  }

  lemma PendingDependsOnNothing(t: State, n: nat, e: nat)
    requires t.Ok() && n in t.pendings && e in t.edges
    ensures t.Arc(e).0 != n
  {
    assert t.EdgeOk(e) && t.dependees[n] == [];
  }

  lemma DrainedOneMore(s: State, t: State, t': State, order: seq<nat>, n: nat)
    requires Drained(s, t, order) && n in t.pendings && Popped(t, n, t')
    ensures Drained(s, t', order + [n])
  {
    hide State.Ok, Popped, Settled, State.Arcs;
    PoppedOk(t, n, t');
    var order' := order + [n];
    assert t.Live(n);
    assert forall x :: x in order' <==> x in order || x == n;
    DrainedSettled(s, t, order, n);
  }

  /** The node popped next comes behind all of its dependees. */
  lemma DrainedSettled(s: State, t: State, order: seq<nat>, n: nat)
    requires Drained(s, t, order) && n in t.pendings
    ensures Settled(s.Arcs(), order + [n])
  {
    hide State.Ok;
    var order' := order + [n];
    forall j: nat, x | j < |order'| && (order'[j], x) in s.Arcs() ensures x in order'[..j] {
      if j < |order| {
        assert order'[j] == order[j] && order'[..j] == order[..j];
      } else {
        assert order'[..j] == order;
        var e :| e in s.edges && e in s.edge && s.Arc(e) == (n, x);
        if x !in order {
          PendingDependsOnNothing(t, n, e);
          assert false;
        }
      }
    }
  }

  /** Once nothing is pending, the nodes left are exactly those a cycle can be reached from. */
  lemma DrainedToCycles(s: State, t: State, order: seq<nat>, n: nat)
    requires Drained(s, t, order) && t.pendings == [] && s.Live(n)
    ensures n in t.blockeds <==> ReachesCycle(s.Arcs(), n)
    ensures n in order <==> !ReachesCycle(s.Arcs(), n)
  {
    if n in t.blockeds {
      var left := set x | x in t.blockeds;
      forall x {:trigger HasTarget(s.Arcs(), left, x)} | x in left ensures HasTarget(s.Arcs(), left, x) {
        BlockedHasTarget(s, t, order, x);
      }
      StuckReachesCycle(s.Arcs(), left, n);
    } else {
      assert n in order;
      SettledReachesNoCycle(s.Arcs(), order, n);
    }
  }

  lemma BlockedHasTarget(s: State, t: State, order: seq<nat>, x: nat)
    requires Drained(s, t, order) && t.pendings == [] && x in t.blockeds
    ensures HasTarget(s.Arcs(), (set y | y in t.blockeds), x)
  {
    var c := t.dependees[x][0];
    assert t.OutOk(x) && t.OutCellOk(x, c);
    var e := t.cell[c];
    assert t.EdgeOk(e);
    assert t.Live(t.edge[e].dependee);
    assert s.Arc(e) in s.Arcs();
  }

  // ---------- following first dependees ----------

  ghost predicate Cyclic(s: State) {
    s.Ok() && s.pendings == [] && s.blockeds != []
  }

  /** The first dependee of a blocked node. */
  ghost function First(s: State, n: nat): (t: nat)
    requires Cyclic(s) && n in s.blockeds
    ensures t in s.blockeds && (n, t) in s.Arcs()
  {
    FirstIsBlocked(s, n);
    s.edge[s.cell[s.dependees[n][0]]].dependee
  }

  lemma FirstIsBlocked(s: State, n: nat)
    requires Cyclic(s) && n in s.blockeds
    ensures n in s.dependees && s.dependees[n] != [] && s.dependees[n][0] in s.cell
    ensures var e := s.cell[s.dependees[n][0]];
            e in s.edge && s.edge[e].dependee in s.blockeds && (n, s.edge[e].dependee) in s.Arcs()
  {
    var c := s.dependees[n][0];
    assert s.OutOk(n) && s.OutCellOk(n, c);
    assert s.EdgeOk(s.cell[c]) && s.Arc(s.cell[c]) in s.Arcs();
  }

  /** Distinct blocked nodes, each the first dependee of the one before. */
  ghost predicate Trail(s: State, p: seq<nat>)
    requires Cyclic(s)
  {
    && NoDup(p)
    && (forall i :: 0 <= i < |p| ==> p[i] in s.blockeds)
    && (forall i :: 0 <= i < |p| - 1 ==> First(s, p[i]) == p[i + 1])
  }

  /** A trail whose end leads back to the first node of its part `cycle`. */
  ghost predicate Rho(s: State, tail: seq<nat>, cycle: seq<nat>)
    requires Cyclic(s)
  {
    var p := tail + cycle;
    cycle != [] && Trail(s, p) && First(s, p[|p| - 1]) == p[|tail|]
  }

  /** Where the search for a cycle stands: at `node`, having gone along `path`, and having collected `cycle`
      from its position `mu` on. The marks are on the nodes of the path that are not collected. */
  ghost predicate Walking(s: State, mark: map<nat, bool>, node: nat, path: seq<nat>, mu: nat, cycle: seq<nat>) {
    && Cyclic(s) && node in s.blockeds && Trail(s, path)
    && mu <= |path| && |cycle| <= |path| - mu && cycle == path[mu..mu + |cycle|]
    && (if path == [] then node == s.blockeds[0] else path[0] == s.blockeds[0])
    && (cycle == [] ==> mu == 0 && (path != [] ==> First(s, path[|path| - 1]) == node))
    && (cycle != [] ==> First(s, path[|path| - 1]) == path[mu] && node == OnPath(path, mu, mu + |cycle|))
    && forall n :: n in s.blockeds ==> n in mark && (mark[n] <==> n in path && n !in cycle)
  }

  ghost function OnPath(path: seq<nat>, mu: nat, i: nat): nat
    requires mu < |path| && i <= |path|
  {
    if i < |path| then path[i] else path[mu]
  }

  lemma WalkingSees(s: State, mark: map<nat, bool>, node: nat, path: seq<nat>, mu: nat, cycle: seq<nat>)
    requires Walking(s, mark, node, path, mu, cycle)
    ensures Cyclic(s) && node in s.blockeds && node in mark && |path| <= |s.blockeds| && mu + |cycle| <= |path|
  {
    NoDupFits(path, SetOf(s.blockeds));
  }

  ghost function SetOf(p: seq<nat>): (r: set<nat>)
    ensures |r| <= |p|
    ensures forall n :: n in r <==> n in p
  {
    if p == [] then {} else {p[0]} + SetOf(p[1..])
  }

  /** Once it collects a cycle the walk goes over marked nodes of its path. */
  lemma CollectingStaysOnPath(s: State, mark: map<nat, bool>, node: nat, path: seq<nat>, mu: nat, cycle: seq<nat>)
    requires Walking(s, mark, node, path, mu, cycle) && node in mark && cycle != [] && node != cycle[0]
    ensures node in path && mark[node]
  {
    assert node == OnPath(path, mu, mu + |cycle|);
    assert node in path;
  }

  lemma WalkingOnNew(s: State, mark: map<nat, bool>, node: nat, path: seq<nat>, mu: nat, cycle: seq<nat>)
    requires Walking(s, mark, node, path, mu, cycle) && node in mark && !mark[node]
    requires cycle == [] || node != cycle[0]
    ensures cycle == [] && node in s.blockeds && Cyclic(s)
    ensures Walking(s, mark[node := true], First(s, node), path + [node], 0, [])
  {
    WalkingSees(s, mark, node, path, mu, cycle);
    if cycle != [] {
      CollectingStaysOnPath(s, mark, node, path, mu, cycle);
      assert false;
    }
    assert node !in path;
    var path' := path + [node];
    assert path' != [] && path'[|path'| - 1] == node;
    assert NoDup(path');
  }

  /** The marked node a walk comes to is the next one of the cycle. */
  lemma CycleGrows(s: State, mark: map<nat, bool>, node: nat, path: seq<nat>, mu: nat, cycle: seq<nat>)
    returns (mu': nat)
    requires Walking(s, mark, node, path, mu, cycle) && node in mark && mark[node]
    requires cycle == [] || node != cycle[0]
    ensures node in s.blockeds && Cyclic(s)
    ensures mu' + |cycle| < |path| && path[mu' + |cycle|] == node && (cycle != [] ==> mu' == mu)
    ensures path[mu'..mu' + |cycle| + 1] == cycle + [node]
    ensures mu' + |cycle| + 1 < |path| ==> First(s, node) == path[mu' + |cycle| + 1]
  {
    hide State.Ok, State.Arcs;
    mu' := mu;
    if cycle == [] {
      mu' :| mu' < |path| && path[mu'] == node;
    }
    var i := mu' + |cycle|;
    assert i < |path| && path[i] == node;
    if i + 1 < |path| {
      assert First(s, path[i]) == path[i + 1];
    }
  }

  lemma WalkingOnMarked(s: State, mark: map<nat, bool>, node: nat, path: seq<nat>, mu: nat, cycle: seq<nat>)
    returns (mu': nat)
    requires Walking(s, mark, node, path, mu, cycle) && node in mark && mark[node]
    requires cycle == [] || node != cycle[0]
    ensures node in s.blockeds && Cyclic(s)
    ensures Walking(s, mark[node := false], First(s, node), path, mu', cycle + [node])
    ensures cycle != [] ==> mu' == mu && mu + |cycle| < |path|
  {
    hide State.Ok, State.Arcs, First;
    mu' := CycleGrows(s, mark, node, path, mu, cycle);
  }

  /** One turn of the search. */
  lemma WalkingTurns(s: State, mark: map<nat, bool>, node: nat, path: seq<nat>, mu: nat, cycle: seq<nat>)
    returns (path': seq<nat>, mu': nat)
    requires Walking(s, mark, node, path, mu, cycle) && (cycle == [] || node != cycle[0])
    ensures Cyclic(s) && node in s.blockeds && node in mark
    ensures var cycle' := if mark[node] then cycle + [node] else cycle;
            Walking(s, mark[node := !mark[node]], First(s, node), path', mu', cycle')
    ensures mark[node] ==> path' == path && (cycle != [] ==> mu' == mu && mu + |cycle| < |path|)
    ensures !mark[node] ==> cycle == [] && |path'| == |path| + 1 <= |s.blockeds|
  {
    hide Walking, State.Ok, State.Arcs, First;
    WalkingSees(s, mark, node, path, mu, cycle);
    if mark[node] {
      path' := path;
      mu' := WalkingOnMarked(s, mark, node, path, mu, cycle);
      assert mark[node := !mark[node]] == mark[node := false];
    } else {
      WalkingOnNew(s, mark, node, path, mu, cycle);
      path', mu' := path + [node], 0;
      assert mark[node := !mark[node]] == mark[node := true];
      WalkingSees(s, mark[node := true], First(s, node), path', 0, []);
    }
  }

  lemma CollectedNext(s: State, mark: map<nat, bool>, node: nat, path: seq<nat>, mu: nat, cycle: seq<nat>)
    requires Walking(s, mark, node, path, mu, cycle) && cycle != [] && mu + |cycle| < |path|
    ensures path[mu + |cycle|] == node && path[mu] == cycle[0] && path[mu + |cycle|] != path[mu]
  {
    assert path[mu + |cycle|] == OnPath(path, mu, mu + |cycle|);
  }

  /** The search is over when it is back at the first collected node. */
  lemma WalkingDone(s: State, mark: map<nat, bool>, node: nat, path: seq<nat>, mu: nat, cycle: seq<nat>)
    requires Walking(s, mark, node, path, mu, cycle)
    requires cycle != [] && node == cycle[0]
    ensures path == path[..mu] + cycle && path[0] == s.blockeds[0] && Rho(s, path[..mu], cycle)
    ensures forall n :: n in s.blockeds ==> n in mark && (mark[n] <==> n in path[..mu])
  {
    hide State.Ok, State.Arcs, First;
    assert path[mu] == cycle[0];
    if mu + |cycle| < |path| {
      CollectedNext(s, mark, node, path, mu, cycle);
      assert false;
    }
    assert path[mu..] == cycle;
    assert path == path[..mu] + cycle;
    InFront(path[..mu], cycle);
  }

  lemma Apart(tail: seq<nat>, cycle: seq<nat>, i: nat, j: nat)
    requires NoDup(tail + cycle) && i < |tail| && j < |cycle|
    ensures tail[i] != cycle[j]
  {
    assert (tail + cycle)[i] == tail[i] && (tail + cycle)[|tail| + j] == cycle[j];
  }

  lemma InFront(tail: seq<nat>, cycle: seq<nat>)
    requires NoDup(tail + cycle)
    ensures forall n :: n in tail + cycle && n !in cycle <==> n in tail
  {
    forall n | n in tail ensures n !in cycle {
      var i :| 0 <= i < |tail| && tail[i] == n;
      forall j | 0 <= j < |cycle| ensures cycle[j] != n {
        Apart(tail, cycle, i, j);
      }
    }
  }

  lemma NothingWalked(s: State, mark: map<nat, bool>)
    requires Cyclic(s) && forall n :: n in s.blockeds ==> n in mark && !mark[n]
    ensures Walking(s, mark, s.blockeds[0], [], 0, [])
  {
  }

  // ---------- one search after another ----------

  /** What the loop of the search changes: the marks, the node it is at, the cycle it collects. */
  datatype Search = Search(mark: map<nat, bool>, node: nat, cycle: seq<nat>)

  ghost predicate Searching(s: State, x: Search) {
    Cyclic(s) && x.node in s.blockeds && forall n :: n in s.blockeds ==> n in x.mark
  }

  /** One turn of the loop. */
  ghost function Turn(s: State, x: Search): (y: Search)
    requires Searching(s, x)
    ensures Searching(s, y)
  {
    Search(x.mark[x.node := !x.mark[x.node]], First(s, x.node), if x.mark[x.node] then x.cycle + [x.node] else x.cycle)
  }

  /** The loop is left when it is back at the first node collected. */
  ghost predicate Found(x: Search) {
    x.cycle != [] && x.node == x.cycle[0]
  }

  ghost function Turns(s: State, x: Search, k: nat): (y: Search)
    requires Searching(s, x)
    ensures Searching(s, y)
  {
    if k == 0 then x else Turn(s, Turns(s, x, k - 1))
  }

  lemma SearchStarts(s: State, mark: map<nat, bool>, node: nat)
    requires Cyclic(s) && node in s.blockeds && forall n :: n in s.blockeds ==> n in mark
    ensures Searching(s, Search(mark, node, [])) && Turns(s, Search(mark, node, []), 0) == Search(mark, node, [])
  {
  }

  lemma TurnsOn(s: State, x: Search, k: nat, y: Search)
    requires Searching(s, x) && Turns(s, x, k) == y
    ensures Cyclic(s) && y.node in s.blockeds && y.node in y.mark
    ensures Turns(s, x, k + 1) ==
              Search(y.mark[y.node := !y.mark[y.node]], First(s, y.node),
                     if y.mark[y.node] then y.cycle + [y.node] else y.cycle)
  {
    hide First, State.Ok;
  }

  lemma MarkedMeans(s: State, mark: map<nat, bool>, on: seq<nat>)
    ensures Marked(s, mark, on) <==> forall n :: n in s.blockeds ==> n in mark && (mark[n] <==> n in on)
  {
  }

  /** The node after one of a trail that leads back into it. */
  function Around(tail: seq<nat>, cycle: seq<nat>, i: nat): nat
    requires cycle != [] && i <= |tail + cycle|
  {
    if i < |tail + cycle| then (tail + cycle)[i] else cycle[0]
  }

  lemma AroundNext(s: State, tail: seq<nat>, cycle: seq<nat>, i: nat)
    requires Cyclic(s) && Rho(s, tail, cycle) && i < |tail + cycle|
    ensures (tail + cycle)[i] in s.blockeds && First(s, (tail + cycle)[i]) == Around(tail, cycle, i + 1)
  {
  }

  lemma RhoApart(s: State, tail: seq<nat>, cycle: seq<nat>)
    requires Cyclic(s) && Rho(s, tail, cycle)
    ensures cycle != [] && NoDup(tail + cycle)
  {
  }

  /** Of the blocked nodes exactly those of a sequence are marked. */
  ghost predicate Marked(s: State, mark: map<nat, bool>, on: seq<nat>) {
    forall n :: n in s.blockeds ==> n in mark && (mark[n] <==> n in on)
  }

  /** A turn at an unmarked node marks it, */
  lemma TurnOn(s: State, y: Search, on: seq<nat>)
    requires Searching(s, y) && Marked(s, y.mark, on) && y.node !in on
    ensures Turn(s, y).node == First(s, y.node) && Turn(s, y).cycle == y.cycle
            && Marked(s, Turn(s, y).mark, on + [y.node])
  {
    hide First;
  }

  /** and one at a marked node collects and unmarks it. */
  lemma TurnOff(s: State, y: Search, on: seq<nat>)
    requires Searching(s, y) && Marked(s, y.mark, [y.node] + on) && y.node !in on
    ensures Turn(s, y).node == First(s, y.node) && Turn(s, y).cycle == y.cycle + [y.node]
            && Marked(s, Turn(s, y).mark, on)
  {
    hide First;
  }

  lemma Sliced(cycle: seq<nat>, k: nat)
    requires NoDup(cycle) && k < |cycle|
    ensures cycle[..k + 1] == cycle[..k] + [cycle[k]] && cycle[k..] == [cycle[k]] + cycle[k + 1..]
    ensures cycle[k] !in cycle[..k] && cycle[k] !in cycle[k + 1..]
  {
  }

  /** On a cycle without a tail the first round marks the nodes, */
  lemma {:induction false} FirstRound(s: State, x: Search, cycle: seq<nat>, k: nat)
    requires Cyclic(s) && Searching(s, x) && Rho(s, [], cycle) && k <= |cycle|
    requires x.node == cycle[0] && x.cycle == [] && Marked(s, x.mark, [])
    ensures var y := Turns(s, x, k); y.node == Around([], cycle, k) && y.cycle == [] && Marked(s, y.mark, cycle[..k])
  {
    hide First, Rho, State.Ok, Marked, NoDup, Turn, Searching;
    assert [] + cycle == cycle;
    if k > 0 {
      FirstRound(s, x, cycle, k - 1);
      OnCycle(s, cycle, k - 1);
      TurnOn(s, Turns(s, x, k - 1), cycle[..k - 1]);
    } else {
      assert cycle[..0] == [];
    }
  }

  /** and the second one collects them. */
  lemma {:induction false} SecondRound(s: State, x: Search, cycle: seq<nat>, k: nat)
    requires Cyclic(s) && Searching(s, x) && Rho(s, [], cycle) && k <= |cycle|
    requires x.node == cycle[0] && x.cycle == [] && Marked(s, x.mark, [])
    ensures var y := Turns(s, x, |cycle| + k);
            y.node == Around([], cycle, k) && y.cycle == cycle[..k] && Marked(s, y.mark, cycle[k..])
  {
    hide First, Rho, State.Ok, Marked, NoDup, Turn, Searching;
    assert [] + cycle == cycle;
    if k == 0 {
      FirstRound(s, x, cycle, |cycle|);
      assert cycle[..|cycle|] == cycle && cycle[0..] == cycle && cycle[..0] == [];
    } else {
      SecondRound(s, x, cycle, k - 1);
      OnCycle(s, cycle, k - 1);
      TurnOff(s, Turns(s, x, |cycle| + k - 1), cycle[k..]);
    }
  }

  lemma OnCycle(s: State, cycle: seq<nat>, k: nat)
    requires Cyclic(s) && Rho(s, [], cycle) && k < |cycle|
    ensures cycle[k] in s.blockeds && First(s, cycle[k]) == Around([], cycle, k + 1) && Around([], cycle, k) == cycle[k]
    ensures cycle[..k + 1] == cycle[..k] + [cycle[k]] && cycle[k..] == [cycle[k]] + cycle[k + 1..]
    ensures cycle[k] !in cycle[..k] && cycle[k] !in cycle[k + 1..]
  {
    hide First, State.Ok;
    assert [] + cycle == cycle;
    AroundNext(s, [], cycle, k);
    RhoApart(s, [], cycle);
    Sliced(cycle, k);
  }

  /** With the marks still on a tail, the search collects the first node of the tail at once, and never comes back
      to it. */
  lemma {:induction false} NeverBack(s: State, mark: map<nat, bool>, tail: seq<nat>, cycle: seq<nat>, k: nat)
    returns (i: nat)
    requires Cyclic(s) && Rho(s, tail, cycle) && tail != [] && k > 0
    requires Marked(s, mark, tail)
    ensures tail[0] in s.blockeds
    ensures var x := Turns(s, Search(mark, tail[0], []), k);
            0 < i < |tail + cycle| && x.node == (tail + cycle)[i] && x.cycle != [] && x.cycle[0] == tail[0]
  {
    hide First, Rho, State.Ok;
    var p, start := tail + cycle, Search(mark, tail[0], []);
    assert p[0] == tail[0];
    AroundNext(s, tail, cycle, 0);
    RhoApart(s, tail, cycle);
    var before: nat := 0;
    if k > 1 {
      before := NeverBack(s, mark, tail, cycle, k - 1);
    }
    assert Turns(s, start, k) == Turn(s, Turns(s, start, k - 1));
    AroundNext(s, tail, cycle, before);
    i := if before + 1 < |p| then before + 1 else |tail|;
    assert p[|tail|] == cycle[0];
  }

  /** A search started on the marks that an earlier one left, which are those on its `tail`, is over after some
      number of turns exactly when there is no tail. */
  lemma SecondSearchEndsIff(s: State, mark: map<nat, bool>, tail: seq<nat>, cycle: seq<nat>)
    requires Cyclic(s) && Rho(s, tail, cycle) && (tail + cycle)[0] == s.blockeds[0]
    requires Marked(s, mark, tail)
    ensures (exists k: nat :: Found(Turns(s, Search(mark, s.blockeds[0], []), k))) <==> tail == []
  {
    hide First, Rho, State.Ok;
    var start := Search(mark, s.blockeds[0], []);
    RhoApart(s, tail, cycle);
    if tail == [] {
      assert tail + cycle == cycle;
      SecondRound(s, start, cycle, |cycle|);
      assert cycle[..|cycle|] == cycle;
      assert Found(Turns(s, start, 2 * |cycle|));
    } else {
      assert (tail + cycle)[0] == tail[0];
      forall k: nat ensures !Found(Turns(s, start, k)) {
        if k > 0 {
          var i := NeverBack(s, mark, tail, cycle, k);
          assert (tail + cycle)[i] != (tail + cycle)[0];
        }
      }
    }
  }

  // ---------- a search with a tail ----------

  const NO_NODES: State := State(map[], map[], map[], map[], [], [], [], 0, 0, 0)

  /** Two nodes that depend on each other, and a third one that depends on the first of them. */
  function ThreeNodes(): State {
    NO_NODES.WithNode().WithNode().WithNode()
  }

  lemma ThreeNodesAre()
    ensures var s := ThreeNodes(); s.pendings == [2, 1, 0] && s.blockeds == [] && s.nodeCount == 3
                                   && s.dependees == map[0 := [], 1 := [], 2 := []]
                                   && s.dependers == map[0 := [], 1 := [], 2 := []]
  {
  }

  lemma NextArc(s: State, l: nat, r: nat)
    requires l in s.dependees && r in s.dependers && s.dependees[l] == []
    ensures var t := s.Attached(l, r);
            && t.pendings == Without(s.pendings, l) && t.blockeds == [l] + s.blockeds
            && t.dependees.Keys == s.dependees.Keys && t.dependers.Keys == s.dependers.Keys
            && forall n :: n in s.dependees && n != l ==> t.dependees[n] == s.dependees[n]
  {
  }

  /** A search that starts where no arc leads to comes through a tail. */
  lemma NoWayBack(s: State, tail: seq<nat>, cycle: seq<nat>)
    requires Cyclic(s) && Rho(s, tail, cycle) && forall n :: (n, (tail + cycle)[0]) !in s.Arcs()
    ensures tail != []
  {
    hide State.Ok, State.Arcs;
    RhoApart(s, tail, cycle);
    assert tail == [] ==> tail + cycle == cycle;
    AroundNext(s, tail, cycle, |tail + cycle| - 1);
  }
}
