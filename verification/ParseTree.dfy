/** The flat postfix encoding of a parse tree, and the trees it encodes. */
module ParseTree {

  datatype Kind =
    | CLS_MEMBERS | DEFINITION | DCL_EXPORT | DCL_IMPORT | DCL_VARIABLE | DEF_CLASS | DEF_FUNCTION
    | EXP_ASSIGN | EXP_BINOP | EXP_OPERATOR | EXP_OPPOSE | FUN_ARGUMENTS | FUN_CALL | IDENTIFIER
    | LIT_DECIMAL | LIT_INTEGER | MODULE | SCOPE | STM_RETURN | STM_WHILE | END_OF_TREE

  /** `size` counts the descendants, `childCount` the children; `start` and `stop` are token offsets from
      the end of the input. */
  datatype Node = Node(kind: Kind, size: nat, childCount: nat, start: nat, stop: nat)

  datatype Tree = Tree(kind: Kind, children: seq<Tree>, start: nat, stop: nat)

  /** A node comes after its descendants. */
  function Flatten(t: Tree): (nodes: seq<Node>)
    ensures |nodes| >= 1
    decreases t
  {
    FlattenAll(t.children) + [Node(t.kind, |FlattenAll(t.children)|, |t.children|, t.start, t.stop)]
  }

  function FlattenAll(ts: seq<Tree>): (nodes: seq<Node>)
    ensures |nodes| >= |ts|
    ensures ts == [] <==> nodes == []
    decreases ts
  {
    if ts == [] then [] else FlattenAll(ts[..|ts| - 1]) + Flatten(ts[|ts| - 1])
  }

  lemma FlattenOneMore(ts: seq<Tree>, t: Tree)
    ensures FlattenAll(ts + [t]) == FlattenAll(ts) + Flatten(t)
  {
    var us := ts + [t];
    assert us[..|us| - 1] == ts && us[|us| - 1] == t;
  }

  lemma FlattenSingle(t: Tree)
    ensures FlattenAll([t]) == Flatten(t)
  {
    FlattenOneMore([], t);
    assert [] + [t] == [t];
  }

  /** The last node of a forest is the root of its last tree, and has as many descendants as there are nodes
      before it exactly when the forest is that one tree. */
  lemma LastIsRoot(ts: seq<Tree>)
    requires ts != []
    ensures var nodes := FlattenAll(ts);
            && nodes[|nodes| - 1].size == |Flatten(ts[|ts| - 1])| - 1
            && (nodes[|nodes| - 1].size < |nodes| - 1 <==> |ts| >= 2)
  {
  }

  /** Encoding loses nothing: two forests with the same nodes are the same. */
  lemma {:induction false} FlattenAllInjective(ts: seq<Tree>, us: seq<Tree>)
    requires FlattenAll(ts) == FlattenAll(us)
    ensures ts == us
    decreases |FlattenAll(ts)|
  {
    if ts != [] {
      var nodes := FlattenAll(ts);
      var t, u := ts[|ts| - 1], us[|us| - 1];
      var ts', us' := ts[..|ts| - 1], us[..|us| - 1];
      assert nodes == FlattenAll(ts') + Flatten(t) && nodes == FlattenAll(us') + Flatten(u);
      assert nodes[|nodes| - 1] == Flatten(t)[|Flatten(t)| - 1] == Flatten(u)[|Flatten(u)| - 1];
      assert |Flatten(t)| == |Flatten(u)|;
      assert nodes[..|nodes| - |Flatten(t)|] == FlattenAll(ts') && nodes[..|nodes| - |Flatten(t)|] == FlattenAll(us');
      assert nodes[|nodes| - |Flatten(t)|..|nodes| - 1] == FlattenAll(t.children);
      assert nodes[|nodes| - |Flatten(t)|..|nodes| - 1] == FlattenAll(u.children);
      FlattenAllInjective(t.children, u.children);
      FlattenAllInjective(ts', us');
      assert ts == ts' + [t] && us == us' + [u];
    }
  }

  /** The kinds of nodes that are always given a child. */
  predicate NeedsChild(kind: Kind) {
    kind.EXP_BINOP? || kind.EXP_ASSIGN? || kind.FUN_CALL?
  }

  /** Every other child is an operator. */
  ghost predicate Alternating(ts: seq<Tree>) {
    forall i :: 0 <= i < |ts| && i % 2 == 1 ==> ts[i].kind.EXP_OPERATOR?
  }

  ghost predicate AllNames(ts: seq<Tree>) {
    forall i :: 0 <= i < |ts| ==> ts[i].kind.IDENTIFIER?
  }

  /** The children that a node of some kind has: an assignment three at most, a list of arguments or of members the name
      and the type of each, a declaration one such pair, a return statement one. */
  ghost predicate Childed(kind: Kind, ts: seq<Tree>) {
    && (NeedsChild(kind) ==> ts != [])
    && (kind.EXP_BINOP? || kind.EXP_ASSIGN? ==> Alternating(ts))
    && (kind.EXP_ASSIGN? ==> |ts| <= 3)
    && (kind.FUN_ARGUMENTS? || kind.CLS_MEMBERS? ==> |ts| % 2 == 0 && AllNames(ts))
    && (kind.DCL_VARIABLE? ==> |ts| == 2 && AllNames(ts))
    && (kind.STM_RETURN? ==> |ts| == 1)
  }

  /** Nodes for single tokens are leaves, and every node has the children of its kind. */
  ghost predicate Kept(t: Tree) {
    && (t.kind.IDENTIFIER? || t.kind.LIT_INTEGER? || t.kind.EXP_OPERATOR? ==> t.children == [])
    && Childed(t.kind, t.children)
    && AllKept(t.children)
  }

  ghost predicate AllKept(ts: seq<Tree>) {
    forall i :: 0 <= i < |ts| ==> Kept(ts[i])
  }
}
