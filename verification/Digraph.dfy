/** Directed graphs as sets of arcs: walks, cycles, and orders that settle a node after its targets. */
module Digraph {
  import opened Sequences

  ghost predicate Walk<N>(arcs: set<(N, N)>, p: seq<N>) {
    |p| >= 1 && forall i :: 0 <= i < |p| - 1 ==> (p[i], p[i + 1]) in arcs
  }

  /** A walk that comes back to a node it has been through. */
  ghost predicate Lasso<N>(arcs: set<(N, N)>, p: seq<N>) {
    Walk(arcs, p) && exists i :: 0 <= i < |p| - 1 && p[i] == p[|p| - 1]
  }

  /** Some directed cycle can be reached from `n`. */
  ghost predicate ReachesCycle<N(!new)>(arcs: set<(N, N)>, n: N) {
    exists p: seq<N> :: Lasso(arcs, p) && p[0] == n
  }

  ghost predicate Acyclic<N(!new)>(arcs: set<(N, N)>) {
    forall p: seq<N> :: !Lasso(arcs, p)
  }

  /** A set of nodes whose every member has a target in the set. */
  ghost predicate Stuck<N>(arcs: set<(N, N)>, nodes: set<N>) {
    forall n {:trigger HasTarget(arcs, nodes, n)} :: n in nodes ==> HasTarget(arcs, nodes, n)
  }

  ghost predicate HasTarget<N>(arcs: set<(N, N)>, nodes: set<N>, n: N) {
    exists t :: t in nodes && (n, t) in arcs
  }

  /** Every node of the order comes after all of its targets. */
  ghost predicate Settled<N(!new)>(arcs: set<(N, N)>, order: seq<N>) {
    forall j: nat, t :: j < |order| && (order[j], t) in arcs ==> t in order[..j]
  }

  lemma {:induction false} WalkDescends<N(!new)>(arcs: set<(N, N)>, order: seq<N>, p: seq<N>, j: nat)
    requires Settled(arcs, order) && Walk(arcs, p)
    requires j < |order| && p[0] == order[j]
    ensures forall i :: 1 <= i < |p| ==> p[i] in order[..j]
    decreases j
  {
    if |p| > 1 {
      assert (p[0], p[1]) in arcs;
      var t: nat :| t < j && order[t] == p[1];
      assert Walk(arcs, p[1..]) by {
        forall i | 0 <= i < |p[1..]| - 1 ensures (p[1..][i], p[1..][i + 1]) in arcs {
          assert (p[i + 1], p[i + 2]) in arcs;
        }
      }
      WalkDescends(arcs, order, p[1..], t);
      forall i | 1 <= i < |p| ensures p[i] in order[..j] {
        if i > 1 {
          assert p[i] == p[1..][i - 1] && p[i] in order[..t];
        }
      }
    }
  }

  /** No node of a settled order reaches a cycle. */
  lemma SettledReachesNoCycle<N(!new)>(arcs: set<(N, N)>, order: seq<N>, n: N)
    requires Settled(arcs, order) && NoDup(order) && n in order
    ensures !ReachesCycle(arcs, n)
  {
    if ReachesCycle(arcs, n) {
      var p: seq<N> :| Lasso(arcs, p) && p[0] == n;
      var i: nat :| i < |p| - 1 && p[i] == p[|p| - 1];
      var j: nat :| j < |order| && order[j] == n;
      WalkDescends(arcs, order, p, j);
      var k: nat :| k < |order| && order[k] == p[i];
      var q := p[i..];
      assert Walk(arcs, q) by {
        forall x | 0 <= x < |q| - 1 ensures (q[x], q[x + 1]) in arcs {
          assert (p[i + x], p[i + x + 1]) in arcs;
        }
      }
      WalkDescends(arcs, order, q, k);
      assert false;
    }
  }

  lemma {:induction false} NoDupFits<N>(p: seq<N>, nodes: set<N>)
    requires NoDup(p) && forall x :: x in p ==> x in nodes
    ensures |p| <= |nodes|
  {
    if p != [] {
      NoDupFits(p[1..], nodes - {p[0]});
    }
  }

  lemma {:induction false} ExtendToLasso<N>(arcs: set<(N, N)>, nodes: set<N>, p: seq<N>) returns (q: seq<N>)
    requires Stuck(arcs, nodes) && Walk(arcs, p) && NoDup(p)
    requires forall x :: x in p ==> x in nodes
    ensures Lasso(arcs, q) && q[0] == p[0]
    decreases |nodes| - |p|
  {
    NoDupFits(p, nodes);
    assert HasTarget(arcs, nodes, p[|p| - 1]);
    var t :| t in nodes && (p[|p| - 1], t) in arcs;
    q := p + [t];
    if t in p {
      var i: nat :| i < |p| && p[i] == t;
      assert q[i] == q[|q| - 1];
    } else {
      NoDupFits(q, nodes);
      q := ExtendToLasso(arcs, nodes, q);
    }
  }

  /** Every node of a stuck set reaches a cycle. */
  lemma StuckReachesCycle<N(!new)>(arcs: set<(N, N)>, nodes: set<N>, n: N)
    requires Stuck(arcs, nodes) && n in nodes
    ensures ReachesCycle(arcs, n)
  {
    var q := ExtendToLasso(arcs, nodes, [n]);
  }
}
