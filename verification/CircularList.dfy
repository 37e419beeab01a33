/** The circular lists of the WebAssembly node pool: `next` links over pool indices, closed through a sentinel. */
module CircularList {
  import opened Sequences

  /** The stops on the way round: the sentinel, the nodes of the path, and the sentinel again. */
  function Stop(begin: nat, path: seq<nat>, k: nat): (x: nat)
    requires k <= |path| + 1
    ensures x == begin || x in path
  {
    if 1 <= k <= |path| then path[k - 1] else begin
  }

  ghost predicate Circle(next: seq<nat>, begin: nat, path: seq<nat>) {
    && begin < |next| && begin !in path && NoDup(path)
    && (forall x :: x in path ==> x < |next|)
    && forall k :: 0 <= k <= |path| ==> next[Stop(begin, path, k)] == Stop(begin, path, k + 1)
  }

  /** Links that agree on the nodes of a circle keep it. */
  lemma CircleStays(next: seq<nat>, other: seq<nat>, begin: nat, path: seq<nat>)
    requires Circle(next, begin, path) && |next| <= |other|
    requires other[begin] == next[begin] && forall x :: x in path ==> other[x] == next[x]
    ensures Circle(other, begin, path)
  {
    forall k | 0 <= k <= |path| ensures other[Stop(begin, path, k)] == Stop(begin, path, k + 1) {
      assert next[Stop(begin, path, k)] == Stop(begin, path, k + 1);
    }
  }

  /** The `k`-th stop on the way round and the one after it. */
  lemma StopFacts(next: seq<nat>, begin: nat, path: seq<nat>, k: nat)
    requires Circle(next, begin, path) && k <= |path|
    ensures Stop(begin, path, 0) == begin
    ensures var x := Stop(begin, path, k); x < |next| && next[x] == Stop(begin, path, k + 1) < |next|
    ensures if k < |path| then Stop(begin, path, k + 1) == path[k] != begin else Stop(begin, path, k + 1) == begin
  {
  }

  lemma DistinctStops(begin: nat, path: seq<nat>, j: nat, k: nat)
    requires begin !in path && NoDup(path) && j <= |path| && k <= |path| && j != k
    ensures Stop(begin, path, j) != Stop(begin, path, k)
  {
  }

  /** The links after `nodes` was put right behind the sentinel. */
  lemma GrownCircle(next: seq<nat>, begin: nat, path: seq<nat>, index: nat)
    requires Circle(next, begin, path) && index == |next|
    ensures Circle((next + [next[begin]])[begin := index], begin, [index] + path)
  {
    var grown := (next + [next[begin]])[begin := index];
    var longer := [index] + path;
    NoDupFront(index, path);
    forall k | 0 <= k <= |longer| ensures grown[Stop(begin, longer, k)] == Stop(begin, longer, k + 1) {
      if k == 1 {
        assert next[Stop(begin, path, 0)] == Stop(begin, path, 1);
      } else if k > 1 {
        assert next[Stop(begin, path, k - 1)] == Stop(begin, path, k);
        DistinctStops(begin, path, 0, k - 1);
      }
    }
  }

  /** Links that all point one stop back close the reversed circle. */
  lemma TurnedCircle(next: seq<nat>, begin: nat, path: seq<nat>)
    requires begin < |next| && begin !in path && NoDup(path)
    requires forall x :: x in path ==> x < |next|
    requires forall k {:trigger Stop(begin, path, k)} :: 1 <= k <= |path| + 1 ==>
               next[Stop(begin, path, k)] == Stop(begin, path, k - 1)
    ensures Circle(next, begin, Reversed(path))
  {
    var back := Reversed(path);
    ReversedSame(path);
    forall k | 0 <= k <= |back| ensures next[Stop(begin, back, k)] == Stop(begin, back, k + 1) {
      assert Stop(begin, back, k) == Stop(begin, path, |path| + 1 - k);
      assert Stop(begin, back, k + 1) == Stop(begin, path, |path| - k);
    }
  }

  /** Half-way through a reversal: the links of the stops before `k` point back, and all the others are as they were. */
  ghost predicate Turning(was: seq<nat>, next: seq<nat>, begin: nat, path: seq<nat>, k: nat)
    requires k <= |path| + 1
  {
    && Circle(was, begin, path) && |next| == |was|
    && (forall j {:trigger Stop(begin, path, j)} :: 1 <= j < k ==>
          next[Stop(begin, path, j)] == Stop(begin, path, j - 1))
    && (forall j {:trigger Stop(begin, path, j)} :: k <= j <= |path| ==>
          next[Stop(begin, path, j)] == was[Stop(begin, path, j)])
    && (forall x :: 0 <= x < |next| && x !in path ==> next[x] == was[x])
  }

  lemma TurnOne(was: seq<nat>, next: seq<nat>, begin: nat, path: seq<nat>, k: nat)
    requires 1 <= k <= |path| && Turning(was, next, begin, path, k)
    ensures var x := Stop(begin, path, k);
            && x < |next| && was[x] == Stop(begin, path, k + 1) < |next|
            && Turning(was, next[x := Stop(begin, path, k - 1)], begin, path, k + 1)
            && next[x := Stop(begin, path, k - 1)][was[x]] == was[was[x]]
  {
    var x := Stop(begin, path, k);
    assert was[x] == Stop(begin, path, k + 1);
    forall j {:trigger Stop(begin, path, j)} | 0 <= j <= |path| && j != k ensures Stop(begin, path, j) != x {
      DistinctStops(begin, path, j, k);
    }
  }

  lemma TurnLast(was: seq<nat>, next: seq<nat>, begin: nat, path: seq<nat>)
    requires Turning(was, next, begin, path, |path| + 1)
    ensures Circle(next[begin := Stop(begin, path, |path|)], begin, Reversed(path))
  {
    var turned := next[begin := Stop(begin, path, |path|)];
    forall k {:trigger Stop(begin, path, k)} | 1 <= k <= |path| + 1
      ensures turned[Stop(begin, path, k)] == Stop(begin, path, k - 1)
    {
      if k <= |path| {
        DistinctStops(begin, path, 0, k);
      }
    }
    TurnedCircle(turned, begin, path);
  }

  /** The items along a path, from its end to its front. */
  function Values<T>(items: seq<T>, path: seq<nat>): (s: seq<T>)
    requires forall x :: x in path ==> x < |items|
    ensures |s| == |path|
    ensures forall k :: 0 <= k < |s| ==> path[|s| - 1 - k] in path && s[k] == items[path[|s| - 1 - k]]
  {
    seq(|path|, k requires 0 <= k < |path| => assert path[|path| - 1 - k] in path; items[path[|path| - 1 - k]])
  }

  lemma GrownValues<T>(items: seq<T>, item: T, path: seq<nat>)
    requires forall x :: x in path ==> x < |items|
    ensures Values(items + [item], path) == Values(items, path)
    ensures Values(items + [item], [|items|] + path) == Values(items, path) + [item]
  {
    var longer := [|items|] + path;
    var after := Values(items + [item], longer);
    assert after[|path|] == item;
    forall k | 0 <= k < |path| ensures after[k] == Values(items, path)[k] {
      assert longer[|longer| - 1 - k] == path[|path| - 1 - k];
    }
  }

  /** A pool of nodes; `lists` gives, for each sentinel, the nodes met on the way round. */
  class Pool<T> {
    const blank: T
    var next: seq<nat>
    var items: seq<T>
    ghost var lists: map<nat, seq<nat>>

    ghost predicate Valid()
      reads this
    {
      && |next| == |items|
      && (forall b :: b in lists ==> Circle(next, b, lists[b]))
      && (forall b, c :: b in lists && c in lists && b != c ==> Apart(b, lists[b], c, lists[c]))
    }

    static ghost predicate Apart(b: nat, path: seq<nat>, c: nat, other: seq<nat>) {
      && b != c && b !in other && c !in path
      && forall x :: x in path ==> x !in other
    }

    /** What was grown into a list, first to last. */
    ghost function Inserted(begin: nat): (s: seq<T>)
      requires Valid() && begin in lists
      reads this
    {
      Values(items, lists[begin])
    }

    constructor (blank: T)
      ensures Valid() && this.blank == blank && next == [] && lists == map[]
    {
      this.blank := blank;
      next, items, lists := [], [], map[];
    }

    /** A new empty list: a sentinel that is its own successor. */
    method Make() returns (begin: nat)
      requires Valid()
      modifies this
      ensures Valid() && begin == |old(next)| && begin !in old(lists) && lists == old(lists)[begin := []]
      ensures items == old(items) + [blank] && Inserted(begin) == []
      ensures forall b :: b in old(lists) ==> Inserted(b) == old(Inserted(b))
    {
      begin := |next|;
      ghost var was := next;
      next := next + [begin];
      items := items + [blank];
      forall b | b in lists ensures Circle(next, b, lists[b]) && begin !in lists[b] {
        assert Circle(was, b, lists[b]);
        CircleStays(was, next, b, lists[b]);
      }
      forall b | b in lists ensures Values(items, lists[b]) == Values(old(items), lists[b]) {
        assert Circle(was, b, lists[b]);
        GrownValues(old(items), blank, lists[b]);
      }
      lists := lists[begin := []];
      assert Circle(next, begin, []);
    }

    /** Puts a node right behind the sentinel: the list is kept last to first. */
    method Grow(begin: nat, item: T) returns (index: nat)
      requires Valid() && begin in lists
      modifies this
      ensures Valid() && index == |old(next)|
      ensures lists == old(lists)[begin := [index] + old(lists[begin])]
      ensures items == old(items) + [item]
      ensures Inserted(begin) == old(Inserted(begin)) + [item]
      ensures forall b :: b in lists && b != begin ==> Inserted(b) == old(Inserted(b))
    {
      index := |next|;
      ghost var was := next;
      ghost var path := lists[begin];
      GrownCircle(next, begin, path, index);
      items := items + [item];
      next := next + [next[begin]];
      next := next[begin := index];
      forall b | b in lists && b != begin ensures Circle(next, b, lists[b]) {
        assert Apart(begin, path, b, lists[b]);
        CircleStays(was, next, b, lists[b]);
      }
      forall b | b in lists && b != begin
        ensures Apart(begin, [index] + path, b, lists[b]) && Apart(b, lists[b], begin, [index] + path)
        ensures Values(items, lists[b]) == Values(old(items), lists[b])
      {
        assert Apart(begin, path, b, lists[b]) && Apart(b, lists[b], begin, path);
        assert Circle(was, b, lists[b]);
        GrownValues(old(items), item, lists[b]);
      }
      GrownValues(old(items), item, path);
      lists := lists[begin := [index] + path];
    }

    /** The node grown last, or the sentinel of an empty list. */
    method Back(begin: nat) returns (index: nat)
      requires Valid() && begin in lists
      ensures index == if lists[begin] == [] then begin else lists[begin][0]
    {
      assert next[Stop(begin, lists[begin], 0)] == Stop(begin, lists[begin], 1);
      index := next[begin];
    }

    method Empty(begin: nat) returns (empty: bool)
      requires Valid() && begin in lists
      ensures empty <==> lists[begin] == []
    {
      assert next[Stop(begin, lists[begin], 0)] == Stop(begin, lists[begin], 1);
      empty := next[begin] == begin;
    }

    /** Turns every link of one circle round, in place: the same nodes, met in the opposite order. */
    method Reverse(begin: nat)
      requires Valid() && begin in lists
      modifies this
      ensures Valid() && items == old(items) && |next| == |old(next)|
      ensures lists == old(lists)[begin := Reversed(old(lists[begin]))]
    {
      ghost var was := next;
      ghost var path := lists[begin];
      ghost var k := 1;
      assert was[Stop(begin, path, 0)] == Stop(begin, path, 1);
      var prev := begin;
      var curr := next[prev];
      var succ := next[curr];
      while curr != begin
        invariant 1 <= k <= |path| + 1 && Turning(was, next, begin, path, k)
        invariant prev == Stop(begin, path, k - 1) && curr == Stop(begin, path, k)
        invariant curr < |next| && succ == was[curr]
        invariant items == old(items) && lists == old(lists)
        decreases |path| + 1 - k
      {
        hide Circle, Turning;
        TurnOne(was, next, begin, path, k);
        next := next[curr := prev];
        prev := curr;
        curr := succ;
        succ := next[succ];
        k := k + 1;
      }
      assert k == |path| + 1;
      TurnLast(was, next, begin, path);
      next := next[curr := prev];
      Rest(was, begin, path);
      lists := lists[begin := Reversed(path)];
    }

    /** The other circles share no node with the one that changed. */
    lemma Rest(was: seq<nat>, begin: nat, path: seq<nat>)
      requires begin in lists && lists[begin] == path && |next| == |was|
      requires forall b :: b in lists ==> Circle(was, b, lists[b])
      requires forall b, c :: b in lists && c in lists && b != c ==> Apart(b, lists[b], c, lists[c])
      requires forall x :: 0 <= x < |next| && x !in path && x != begin ==> next[x] == was[x]
      ensures forall b :: b in lists && b != begin ==> Circle(next, b, lists[b])
      ensures forall b :: b in lists && b != begin ==>
                Apart(begin, Reversed(path), b, lists[b]) && Apart(b, lists[b], begin, Reversed(path))
    {
      forall b | b in lists && b != begin
        ensures Circle(next, b, lists[b])
        ensures Apart(begin, Reversed(path), b, lists[b]) && Apart(b, lists[b], begin, Reversed(path))
      {
        assert Apart(begin, path, b, lists[b]) && Apart(b, lists[b], begin, path);
        CircleStays(was, next, b, lists[b]);
        assert forall x :: x in Reversed(path) ==> x in path;
      }
    }
  }
}
