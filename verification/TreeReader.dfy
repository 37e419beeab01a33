/** The reader that goes through the children of a postfix node from the last to the first. */
module TreeReader {
  import opened ParseTree

  /** Positions among the nodes; the reader is past its children when `head` comes to `tail`. */
  datatype Reader = Reader(head: int, tail: int) {

    predicate IsValid() {
      head > tail
    }

    function Look(nodes: seq<Node>): Node
      requires 0 <= head < |nodes|
    {
      nodes[head]
    }

    predicate IsValidNext(nodes: seq<Node>)
      requires 0 <= head < |nodes|
    {
      head - nodes[head].size - 1 > tail
    }

    function Advanced(nodes: seq<Node>): Reader
      requires 0 <= head < |nodes|
    {
      Reader(head - (nodes[head].size + 1), tail)
    }

    function SubReader(nodes: seq<Node>): Reader
      requires 0 <= head < |nodes|
    {
      Reader(head - 1, head - nodes[head].size - 1)
    }

    /** The number of children of the node above, as long as the reader has not moved. */
    function Size(nodes: seq<Node>): nat
      requires 0 <= head + 1 < |nodes|
    {
      nodes[head + 1].childCount
    }
  }

  /** A reader over the children of the root. */
  function FromRoot(nodes: seq<Node>): Reader
    requires nodes != []
  {
    Reader(|nodes| - 2, 0)
  }

  /** The trees `ts` are those the reader still has to go through. */
  ghost predicate Over(r: Reader, nodes: seq<Node>, ts: seq<Tree>) {
    && 0 <= r.tail && r.tail + |FlattenAll(ts)| == r.head < |nodes|
    && nodes[r.tail + 1..r.head + 1] == FlattenAll(ts)
  }

  lemma OverHead(r: Reader, nodes: seq<Node>, ts: seq<Tree>)
    requires Over(r, nodes, ts)
    ensures 0 <= r.tail <= r.head < |nodes|
  {
  }

  lemma LastTree(ts: seq<Tree>)
    requires ts != []
    ensures var t := ts[|ts| - 1];
            FlattenAll(ts) == FlattenAll(ts[..|ts| - 1]) + FlattenAll(t.children)
                              + [Node(t.kind, |FlattenAll(t.children)|, |t.children|, t.start, t.stop)]
  {
  }

  lemma SliceOfSlice<X>(s: seq<X>, lo: nat, hi: nat, i: nat, j: nat)
    requires lo <= hi <= |s| && i <= j <= hi - lo
    ensures s[lo..hi][i..j] == s[lo + i..lo + j]
  {
    var a, b := s[lo..hi][i..j], s[lo + i..lo + j];
    forall k | 0 <= k < |a| ensures a[k] == b[k] {
      assert a[k] == s[lo..hi][i + k] == s[lo + i + k];
    }
  }

  lemma Slices<X>(s: seq<X>, lo: nat, a: seq<X>, b: seq<X>, c: X)
    requires lo + |a| + |b| + 1 <= |s|
    requires s[lo..lo + |a| + |b| + 1] == a + b + [c]
    ensures s[lo..lo + |a|] == a && s[lo + |a|..lo + |a| + |b|] == b && s[lo + |a| + |b|] == c
  {
    var all := s[lo..lo + |a| + |b| + 1];
    assert s[lo + |a| + |b|] == all[|a| + |b|];
    SliceOfSlice(s, lo, lo + |a| + |b| + 1, 0, |a|);
    SliceOfSlice(s, lo, lo + |a| + |b| + 1, |a|, |a| + |b|);
    assert all[..|a|] == a && all[|a|..|a| + |b|] == b;
  }

  /** A reader is valid as long as a tree is left, looks at the root of the last one, and advances past it;
      its sub-reader goes through the children of that root, of which it knows the number. */
  lemma ReaderStep(r: Reader, nodes: seq<Node>, ts: seq<Tree>)
    requires Over(r, nodes, ts)
    ensures r.IsValid() <==> ts != []
    ensures ts != [] ==>
              var t := ts[|ts| - 1];
              && r.Look(nodes) == Node(t.kind, |FlattenAll(t.children)|, |t.children|, t.start, t.stop)
              && Over(r.Advanced(nodes), nodes, ts[..|ts| - 1])
              && Over(r.SubReader(nodes), nodes, t.children)
              && r.SubReader(nodes).Size(nodes) == |t.children|
              && (r.IsValidNext(nodes) <==> |ts| >= 2)
  {
    hide FlattenAll;
    if ts != [] {
      var t, rest := ts[|ts| - 1], ts[..|ts| - 1];
      LastTree(ts);
      Slices(nodes, r.tail + 1, FlattenAll(rest), FlattenAll(t.children),
             Node(t.kind, |FlattenAll(t.children)|, |t.children|, t.start, t.stop));
    }
  }

  lemma RootReader(root: Tree, first: Node)
    ensures Over(FromRoot([first] + Flatten(root)), [first] + Flatten(root), root.children)
    ensures FromRoot([first] + Flatten(root)).Size([first] + Flatten(root)) == |root.children|
  {
    var nodes := [first] + Flatten(root);
    assert nodes[1..|nodes| - 1] == FlattenAll(root.children);
  }
}
