/** The multimap of the modules found under an identifier: a map whose keys are chained by hashing. */
module FactMap {

  datatype Fact<F> = Fact(value: F, count: nat)

  /** The key `n` links along the chain that starts at `key`. */
  function Link<K>(next: K -> K, key: K, n: nat): K {
    if n == 0 then key else next(Link(next, key, n - 1))
  }

  lemma {:induction false} LinkOfNext<K>(next: K -> K, key: K, n: nat)
    ensures Link(next, next(key), n) == Link(next, key, n + 1)
  {
    if n > 0 {
      LinkOfNext(next, key, n - 1);
    }
  }

  /** The chain of `key` has `c` entries, and then misses. */
  ghost predicate Ends<K, F>(next: K -> K, table: map<K, Fact<F>>, key: K, c: nat) {
    Link(next, key, c) !in table && forall n :: 0 <= n < c ==> Link(next, key, n) in table
  }

  /** An insertion counts one more at every link, and puts the fact behind the last one. */
  ghost predicate Emplaced<K, F>(next: K -> K, before: map<K, Fact<F>>, key: K, c: nat, value: F,
                                 after: map<K, Fact<F>>) {
    && after.Keys == before.Keys + {Link(next, key, c)}
    && after[Link(next, key, c)] == Fact(value, 1)
    && (forall n :: 0 <= n < c ==> Link(next, key, n) in before
                                   && after[Link(next, key, n)] ==
                                      before[Link(next, key, n)].(count := before[Link(next, key, n)].count + 1))
    && (forall k :: k in before && (forall n :: 0 <= n < c ==> k != Link(next, key, n)) ==> after[k] == before[k])
  }

  /** A chain that ends never meets the same key twice. */
  lemma {:induction false} LinksDiffer<K, F>(next: K -> K, table: map<K, Fact<F>>, key: K, c: nat, i: nat, j: nat)
    requires Ends(next, table, key, c) && i < j <= c
    ensures Link(next, key, i) != Link(next, key, j)
    decreases c - j
  {
    if j < c {
      LinksDiffer(next, table, key, c, i + 1, j + 1);
    }
  }

  /** A chain that comes back to one of its keys never ends. */
  lemma {:induction false} LoopNeverEnds<K, F>(next: K -> K, table: map<K, Fact<F>>, key: K, i: nat, j: nat, c: nat)
    requires i < j && Link(next, key, i) == Link(next, key, j)
    requires forall n :: 0 <= n < j ==> Link(next, key, n) in table
    ensures Link(next, key, c) in table
    decreases c
  {
    if c >= j {
      LoopShifts(next, key, i, j, c - j);
      LoopNeverEnds(next, table, key, i, j, i + (c - j));
    }
  }

  lemma {:induction false} LoopShifts<K>(next: K -> K, key: K, i: nat, j: nat, n: nat)
    requires Link(next, key, i) == Link(next, key, j)
    ensures Link(next, key, i + n) == Link(next, key, j + n)
  {
    if n > 0 {
      LoopShifts(next, key, i, j, n - 1);
    }
  }

  class Facts<K(==), F> {
    const next: K -> K
    var table: map<K, Fact<F>>

    constructor (next: K -> K)
      ensures this.next == next && table == map[]
    {
      this.next := next;
      table := map[];
    }

    /** Ends exactly when the chain of `key` does; `c` is its length. */
    method Emplace(key: K, value: F, ghost c: nat)
      requires Ends(next, table, key, c)
      modifies this
      ensures Emplaced(next, old(table), key, c, value, table)
      decreases c
    {
      if key !in table {
        assert Link(next, key, 0) == key;
        table := table[key := Fact(value, 1)];
        return;
      }
      assert c > 0 by { assert Link(next, key, 0) == key; }
      ghost var before := table;
      table := table[key := table[key].(count := table[key].count + 1)];
      EndsFurther(next, before, table, key, c);
      ghost var mid := table;
      Emplace(next(key), value, c - 1);
      EmplacedFurther(next, before, mid, table, key, c, value);
    }

    /** Copies the facts of a chain into as many slots as its first count says, from the last slot to the first. */
    method MakeView(viewId: K, blank: F, ghost c: nat) returns (modules: array<F>)
      requires viewId in table && Ends(next, table, viewId, c) && table[viewId].count == c
      ensures fresh(modules) && modules.Length == c
      ensures forall n :: 0 <= n < c ==> modules[c - 1 - n] == table[Link(next, viewId, n)].value
    {
      var key := viewId;
      var count := table[key].count;
      modules := new F[count](_ => blank);
      var found := true;
      ghost var k := 0;
      assert Link(next, viewId, 0) == viewId;
      while found
        invariant k + count == c == modules.Length && key == Link(next, viewId, k)
        invariant found <==> k < c
        invariant forall n :: 0 <= n < k ==> modules[c - 1 - n] == table[Link(next, viewId, n)].value
        decreases count
      {
        count := count - 1;
        modules[count] := table[key].value;
        key := next(key);
        k := k + 1;
        assert key == Link(next, viewId, k);
        found := key in table;
      }
    }
  }

  lemma EndsFurther<K, F>(next: K -> K, before: map<K, Fact<F>>, after: map<K, Fact<F>>, key: K, c: nat)
    requires Ends(next, before, key, c) && c > 0 && after.Keys == before.Keys
    ensures Ends(next, after, next(key), c - 1)
  {
    forall n: nat ensures Link(next, next(key), n) == Link(next, key, n + 1) {
      LinkOfNext(next, key, n);
    }
  }

  lemma EmplacedFurther<K, F>(next: K -> K, before: map<K, Fact<F>>, mid: map<K, Fact<F>>, after: map<K, Fact<F>>,
                              key: K, c: nat, value: F)
    requires Ends(next, before, key, c) && c > 0 && key in before
    requires mid == before[key := before[key].(count := before[key].count + 1)]
    requires Emplaced(next, mid, next(key), c - 1, value, after)
    ensures Emplaced(next, before, key, c, value, after)
  {
    forall n: nat ensures Link(next, next(key), n) == Link(next, key, n + 1) {
      LinkOfNext(next, key, n);
    }
    assert Link(next, key, 0) == key;
    forall n: nat | 1 <= n <= c ensures Link(next, key, n) != key {
      LinksDiffer(next, before, key, c, 0, n);
    }
    forall n | 0 <= n < c
      ensures after[Link(next, key, n)] == before[Link(next, key, n)].(count := before[Link(next, key, n)].count + 1)
    {
      if n > 0 {
        assert Link(next, next(key), n - 1) == Link(next, key, n);
      } else {
        forall i: nat | i < c - 1 ensures key != Link(next, next(key), i) {
          assert Link(next, next(key), i) == Link(next, key, i + 1);
        }
      }
    }
    forall k | k in before && (forall n :: 0 <= n < c ==> k != Link(next, key, n)) ensures after[k] == before[k] {
      assert k != Link(next, key, 0);
      forall i: nat | i < c - 1 ensures k != Link(next, next(key), i) {
        assert Link(next, next(key), i) == Link(next, key, i + 1);
      }
    }
  }

  // ---------- whole histories ----------

  /** The facts emplaced under an identifier, in order. */
  function FactsOf<K(==), F>(h: seq<(K, F)>, id: K): (s: seq<F>)
    ensures |s| <= |h|
  {
    if h == [] then []
    else FactsOf(h[..|h| - 1], id) + (if h[|h| - 1].0 == id then [h[|h| - 1].1] else [])
  }

  /** The chains of the identifiers in use do not run into each other nor into themselves. */
  ghost predicate CollisionFree<K(!new), F>(next: K -> K, h: seq<(K, F)>) {
    forall a, b, i: nat, j: nat {:trigger Link(next, a, i), Link(next, b, j), FactsOf(h, a), FactsOf(h, b)} ::
      (FactsOf(h, a) != [] && FactsOf(h, b) != [] && i <= |FactsOf(h, a)| && j <= |FactsOf(h, b)|
       && Link(next, a, i) == Link(next, b, j)) ==> a == b && i == j
  }

  lemma Apart<K(!new), F>(next: K -> K, h: seq<(K, F)>, a: K, i: nat, b: K, j: nat)
    requires CollisionFree(next, h) && FactsOf(h, a) != [] && FactsOf(h, b) != []
    requires i <= |FactsOf(h, a)| && j <= |FactsOf(h, b)| && Link(next, a, i) == Link(next, b, j)
    ensures a == b && i == j
  {
  }

  ghost predicate Reached<K(!new), F>(next: K -> K, h: seq<(K, F)>, k: K) {
    exists id, n: nat {:trigger Link(next, id, n), FactsOf(h, id)} :: n < |FactsOf(h, id)| && Link(next, id, n) == k
  }

  /** Under each identifier stand its facts, in the order of their insertions, with the numbers of facts from there
      on. */
  ghost predicate Stored<K(!new), F>(next: K -> K, h: seq<(K, F)>, table: map<K, Fact<F>>) {
    && (forall id, n: nat {:trigger Link(next, id, n), FactsOf(h, id)} :: n < |FactsOf(h, id)| ==>
          Link(next, id, n) in table && table[Link(next, id, n)] == Fact(FactsOf(h, id)[n], |FactsOf(h, id)| - n))
    && (forall k :: k in table ==> Reached(next, h, k))
  }

  lemma FactsOfMore<K, F>(h: seq<(K, F)>, id: K, value: F, other: K)
    ensures FactsOf(h + [(id, value)], other) == FactsOf(h, other) + (if other == id then [value] else [])
  {
    var g := h + [(id, value)];
    assert g[..|g| - 1] == h;
  }

  /** The chain of an identifier is as long as the number of its facts. */
  lemma ChainIsCounted<K(!new), F>(next: K -> K, h: seq<(K, F)>, table: map<K, Fact<F>>, id: K)
    requires Stored(next, h, table) && !Reached(next, h, Link(next, id, |FactsOf(h, id)|))
    ensures Ends(next, table, id, |FactsOf(h, id)|)
  {
  }

  /** Before an insertion that keeps the chains apart, the chain it follows ends behind its facts. */
  lemma InsertionEnds<K(!new), F>(next: K -> K, h: seq<(K, F)>, table: map<K, Fact<F>>, id: K, value: F)
    requires Stored(next, h, table) && CollisionFree(next, h + [(id, value)])
    ensures Ends(next, table, id, |FactsOf(h, id)|)
  {
    var g := h + [(id, value)];
    var c: nat := |FactsOf(h, id)|;
    FactsOfMore(h, id, value, id);
    if Reached(next, h, Link(next, id, c)) {
      var b, j: nat :| j < |FactsOf(h, b)| && Link(next, b, j) == Link(next, id, c);
      FactsOfMore(h, id, value, b);
      Apart(next, g, b, j, id, c);
      assert false;
    }
    ChainIsCounted(next, h, table, id);
  }

  /** An insertion keeps the facts stored. */
  lemma InsertionStores<K(!new), F>(next: K -> K, h: seq<(K, F)>, before: map<K, Fact<F>>, id: K, value: F,
                                    after: map<K, Fact<F>>)
    requires Stored(next, h, before) && CollisionFree(next, h + [(id, value)])
    requires Emplaced(next, before, id, |FactsOf(h, id)|, value, after)
    ensures Stored(next, h + [(id, value)], after)
  {
    var g, c := h + [(id, value)], |FactsOf(h, id)|;
    FactsOfMore(h, id, value, id);
    forall a, n: nat | n < |FactsOf(g, a)|
      ensures Link(next, a, n) in after && after[Link(next, a, n)] == Fact(FactsOf(g, a)[n], |FactsOf(g, a)| - n)
    {
      InsertionStoresAt(next, h, before, id, value, after, a, n);
    }
    forall k | k in after ensures Reached(next, g, k) {
      if k == Link(next, id, c) {
        assert c < |FactsOf(g, id)|;
      } else {
        assert Reached(next, h, k);
        var a, n: nat :| n < |FactsOf(h, a)| && Link(next, a, n) == k;
        FactsOfMore(h, id, value, a);
        assert n < |FactsOf(g, a)|;
      }
    }
  }

  lemma InsertionStoresAt<K(!new), F>(next: K -> K, h: seq<(K, F)>, before: map<K, Fact<F>>, id: K, value: F,
                                      after: map<K, Fact<F>>,
                                      a: K, n: nat)
    requires Stored(next, h, before) && CollisionFree(next, h + [(id, value)])
    requires Emplaced(next, before, id, |FactsOf(h, id)|, value, after)
    requires n < |FactsOf(h + [(id, value)], a)|
    ensures var g := h + [(id, value)];
            Link(next, a, n) in after && after[Link(next, a, n)] == Fact(FactsOf(g, a)[n], |FactsOf(g, a)| - n)
  {
    var g, c := h + [(id, value)], |FactsOf(h, id)|;
    FactsOfMore(h, id, value, id);
    FactsOfMore(h, id, value, a);
    if a != id {
      forall i: nat | i < c ensures Link(next, a, n) != Link(next, id, i) {
        assert FactsOf(g, a) != [] && FactsOf(g, id) != [];
      }
    } else if n < c {
      assert Link(next, id, n) in before;
    }
  }

  /** Emplaces a whole sequence of facts. */
  method EmplaceAll<K(==, !new), F>(facts: Facts<K, F>, h: seq<(K, F)>)
    requires facts.table == map[] && CollisionFree(facts.next, h)
    modifies facts
    ensures Stored(facts.next, h, facts.table)
  {
    for i := 0 to |h|
      invariant Stored(facts.next, h[..i], facts.table)
    {
      assert h[..i + 1] == h[..i] + [(h[i].0, h[i].1)];
      PrefixIsCollisionFree(facts.next, h, i + 1);
      InsertionEnds(facts.next, h[..i], facts.table, h[i].0, h[i].1);
      ghost var before := facts.table;
      facts.Emplace(h[i].0, h[i].1, |FactsOf(h[..i], h[i].0)|);
      InsertionStores(facts.next, h[..i], before, h[i].0, h[i].1, facts.table);
    }
    assert h[..|h|] == h;
  }

  lemma {:induction false} PrefixHasFewer<K, F>(h: seq<(K, F)>, i: nat, id: K)
    requires i <= |h|
    ensures |FactsOf(h[..i], id)| <= |FactsOf(h, id)|
    decreases |h|
  {
    if i < |h| {
      assert h[..|h| - 1][..i] == h[..i];
      PrefixHasFewer(h[..|h| - 1], i, id);
    } else {
      assert h[..i] == h;
    }
  }

  lemma PrefixIsCollisionFree<K(!new), F>(next: K -> K, h: seq<(K, F)>, n: nat)
    requires CollisionFree(next, h) && n <= |h|
    ensures CollisionFree(next, h[..n])
  {
    forall id ensures |FactsOf(h[..n], id)| <= |FactsOf(h, id)| {
      PrefixHasFewer(h, n, id);
    }
  }

  /** After any sequence of insertions a view has one slot for each fact of its identifier, filled last to first. */
  method ViewOf<K(==, !new), F>(facts: Facts<K, F>, ghost h: seq<(K, F)>, id: K, blank: F) returns (modules: array<F>)
    requires Stored(facts.next, h, facts.table) && CollisionFree(facts.next, h) && FactsOf(h, id) != []
    ensures fresh(modules) && modules.Length == |FactsOf(h, id)|
    ensures forall n :: 0 <= n < modules.Length ==> modules[modules.Length - 1 - n] == FactsOf(h, id)[n]
  {
    ghost var c := |FactsOf(h, id)|;
    EndsBehindFacts(facts.next, h, facts.table, id);
    assert Link(facts.next, id, 0) == id;
    modules := facts.MakeView(id, blank, c);
    forall n | 0 <= n < c ensures modules[c - 1 - n] == FactsOf(h, id)[n] {
      assert facts.table[Link(facts.next, id, n)].value == FactsOf(h, id)[n];
    }
  }

  lemma EndsBehindFacts<K(!new), F>(next: K -> K, h: seq<(K, F)>, table: map<K, Fact<F>>, id: K)
    requires Stored(next, h, table) && CollisionFree(next, h) && FactsOf(h, id) != []
    ensures Ends(next, table, id, |FactsOf(h, id)|)
  {
    var c: nat := |FactsOf(h, id)|;
    if Reached(next, h, Link(next, id, c)) {
      var b, j: nat :| j < |FactsOf(h, b)| && Link(next, b, j) == Link(next, id, c);
      Apart(next, h, b, j, id, c);
      assert false;
    }
    ChainIsCounted(next, h, table, id);
  }
}
