/** What the parser leaves is what the reader and the builder ask for. */
module ParsedAst {
  import opened ParseTree
  import T = Tokens
  import opened ParserMeaning
  import P = ParserState
  import opened ParserTrees
  import R = TreeReader
  import A = AstBuilder
  import L = Lexer

  /** What the lexer gives can be parsed. */
  lemma LexedIsEnded(data: string, raw: seq<T.Token>, tokens: seq<T.Token>, offsets: seq<nat>)
    requires L.Lexed(data, raw, tokens, offsets)
    ensures Ended(tokens)
  {
    var last := |raw| - 1;
    assert tokens[last] == L.KeyedAt(data, raw, offsets, last);
  }

  /** A reader over the parsed nodes goes over the children of the root, and all of them, and all below them, may be
      given to the builder: `A.MakeExpression`, `A.MakeScope` and `A.MakeArguments` find what they require. */
  lemma ParsedNodesAreKept(tokens: seq<T.Token>)
    requires Ended(tokens)
    ensures var root, nodes := Root(tokens), [P.END] + Flatten(Root(tokens));
            R.Over(R.FromRoot(nodes), nodes, root.children) && Kept(root)
  {
    hide Proper, Kept;
    RootIsProper(tokens);
    ProperIsKept(tokens, Root(tokens), |tokens|);
    R.RootReader(Root(tokens), P.END);
  }

  /** Below the root: at the last tree of a forest that a reader goes over, its sub-reader goes over the children. */
  lemma KeptBelow(r: R.Reader, nodes: seq<Node>, ts: seq<Tree>)
    requires R.Over(r, nodes, ts) && ts != [] && AllKept(ts)
    ensures var t := ts[|ts| - 1];
            && 0 <= r.head < |nodes| && R.Over(r.SubReader(nodes), nodes, t.children) && AllKept(t.children)
            && Childed(t.kind, t.children)
  {
    hide FlattenAll;
    R.ReaderStep(r, nodes, ts);
  }

  /** What the builder does with its readers: it passes a tree, or goes down to the children of one. */
  datatype Move = Pass | Down

  /** Where a reader is led by some moves, each made while it is valid. */
  ghost function Led(nodes: seq<Node>, r: R.Reader, moves: seq<Move>): Option<R.Reader> {
    if moves == [] then Some(r)
    else
      var at := Led(nodes, r, moves[..|moves| - 1]);
      if at.None? || !at.value.IsValid() || !(0 <= at.value.head < |nodes|) then None
      else if moves[|moves| - 1].Pass? then Some(at.value.Advanced(nodes))
      else Some(at.value.SubReader(nodes))
  }

  /** Wherever the readers of the builder are led in the parsed nodes, they go over trees that it may be given. */
  lemma {:induction false} LedIsKept(tokens: seq<T.Token>, moves: seq<Move>) returns (ts: seq<Tree>)
    requires Ended(tokens)
    ensures var nodes := [P.END] + Flatten(Root(tokens));
            var at := Led(nodes, R.FromRoot(nodes), moves);
            at.Some? ==> R.Over(at.value, nodes, ts) && AllKept(ts)
  {
    hide R.Over, Kept, Flatten, AllKept;
    var nodes := [P.END] + Flatten(Root(tokens));
    if moves == [] {
      ParsedNodesAreKept(tokens);
      ChildrenAreKept(Root(tokens));
      ts := Root(tokens).children;
    } else {
      ts := LedIsKept(tokens, moves[..|moves| - 1]);
      var at := Led(nodes, R.FromRoot(nodes), moves[..|moves| - 1]);
      if at.Some? && at.value.IsValid() {
        R.ReaderStep(at.value, nodes, ts);
        KeptBelow(at.value, nodes, ts);
        KeptBefore(ts);
        ts := if moves[|moves| - 1].Pass? then ts[..|ts| - 1] else ts[|ts| - 1].children;
      }
    }
  }

  lemma ChildrenAreKept(t: Tree)
    requires Kept(t)
    ensures AllKept(t.children)
  {
  }

  lemma KeptBefore(ts: seq<Tree>)
    requires AllKept(ts) && ts != []
    ensures AllKept(ts[..|ts| - 1]) && Kept(ts[|ts| - 1])
  {
  }

  /** Whatever the tokens, every expression that is built has the lexemes of its tree, in order. */
  lemma ParsedOrderIsKept(tokens: seq<T.Token>, bound: nat, t: Tree)
    requires Proper(tokens, t, bound) && A.AstOf(t).Some?
    ensures A.InOrder(A.AstOf(t).value) == A.LeafOrder(t)
  {
    ProperIsKept(tokens, t, bound);
    A.OrderIsKept(t);
  }
}
