/** The backtracking parser, writing its tree as it goes and undoing what failed rules wrote. */
module ParserState {
  import opened ParseTree
  import T = Tokens
  import opened Grammar
  import opened GrammarSanity
  import opened ParserMeaning

  /** An open frame: where its nodes begin, at which token offset, and how many children it has so far. */
  datatype Frame = Frame(treeSize: nat, start: nat, childCount: nat)

  const END: Node := Node(END_OF_TREE, 0, 0, 0, 0)

  /** The nodes of the forests, one after the other. */
  ghost function Written(forests: seq<seq<Tree>>): (nodes: seq<Node>)
    ensures |nodes| >= 1
  {
    if forests == [] then [END] else Written(forests[..|forests| - 1]) + FlattenAll(forests[|forests| - 1])
  }

  /** The forest of each open frame, after that of no frame at all, is what the frame counts. */
  ghost predicate Tallied(frames: seq<Frame>, forests: seq<seq<Tree>>) {
    && |forests| == |frames| + 1
    && forall i :: 0 <= i < |frames| ==>
         frames[i].childCount == |forests[i + 1]| && frames[i].treeSize == |Written(forests[..i + 1])|
  }

  ghost predicate SameStarts(frames: seq<Frame>, frames': seq<Frame>) {
    |frames'| == |frames| && forall i :: 0 <= i < |frames| ==> frames'[i].start == frames[i].start
  }

  /** The forests with more trees in the last one. */
  ghost function Grown(forests: seq<seq<Tree>>, ts: seq<Tree>): (forests': seq<seq<Tree>>)
    requires forests != []
    ensures |forests'| == |forests|
  {
    forests[..|forests| - 1] + [forests[|forests| - 1] + ts]
  }

  lemma GrownByNone(forests: seq<seq<Tree>>)
    requires forests != []
    ensures Grown(forests, []) == forests
  {
    assert forests[|forests| - 1] + [] == forests[|forests| - 1];
  }

  lemma GrownTwice(forests: seq<seq<Tree>>, a: seq<Tree>, b: seq<Tree>)
    requires forests != []
    ensures Grown(Grown(forests, a), b) == Grown(forests, a + b)
  {
    assert (forests[|forests| - 1] + a) + b == forests[|forests| - 1] + (a + b);
  }

  /** The current frame, if there is one, counts one more child. */
  function CountChild(frames: seq<Frame>): seq<Frame> {
    if frames == [] then [] else
      var f := frames[|frames| - 1];
      frames[..|frames| - 1] + [f.(childCount := f.childCount + 1)]
  }

  lemma WrittenWithTree(forests: seq<seq<Tree>>, t: Tree)
    requires forests != []
    ensures Written(Grown(forests, [t])) == Written(forests) + Flatten(t)
  {
    var last := forests[|forests| - 1];
    var forests' := Grown(forests, [t]);
    assert forests'[..|forests'| - 1] == forests[..|forests| - 1];
    FlattenOneMore(last, t);
  }

  lemma TalliedWithTree(frames: seq<Frame>, forests: seq<seq<Tree>>, t: Tree)
    requires Tallied(frames, forests)
    ensures Tallied(CountChild(frames), Grown(forests, [t]))
    ensures SameStarts(frames, CountChild(frames))
  {
    hide Written;
    var forests' := Grown(forests, [t]);
    forall i | 0 <= i <= |frames| ensures forests'[..i] == forests[..i] {
    }
    var frames' := CountChild(frames);
    forall i | 0 <= i < |frames'|
      ensures frames'[i].childCount == |forests'[i + 1]| && frames'[i].treeSize == |Written(forests'[..i + 1])|
    {
      assert forests'[..i + 1] == forests[..i + 1];
    }
  }

  /** The counts of the frames follow from the forests. */
  lemma TalliedFrames(frames: seq<Frame>, frames': seq<Frame>, forests: seq<seq<Tree>>)
    requires Tallied(frames, forests) && Tallied(frames', forests) && SameStarts(frames, frames')
    ensures frames == frames'
  {
  }

  /** Whether closing a frame writes a node, and what the nodes then are. In 32 bits, `size - 1` is the greatest
      number when `size` is 0. */
  lemma ClosingWrites(base: seq<Node>, nodes: seq<Node>, arity: Arity, kind: Kind, children: seq<Tree>, start: nat,
                      stop: nat)
    requires |base| >= 1 && nodes == base + FlattenAll(children)
    ensures var size := |nodes| - |base|;
            (if arity != VARIADIC || size == 0 || nodes[|nodes| - 1].size < size - 1
             then nodes + [Node(kind, size, |children|, start, stop)] else nodes)
            == base + Flatten(Closed(arity, kind, children, start, stop))
  {
    RootGoesLast(base, nodes, kind, children, start, stop);
    hide Flatten, FlattenAll;
    if children != [] {
      LastNode(base, nodes, children);
    }
    if |children| == 1 {
      FlattenSingle(children[0]);
      assert children == [children[0]];
    }
  }

  lemma RootGoesLast(base: seq<Node>, nodes: seq<Node>, kind: Kind, children: seq<Tree>, start: nat, stop: nat)
    requires nodes == base + FlattenAll(children)
    ensures nodes + [Node(kind, |nodes| - |base|, |children|, start, stop)] == base
            + Flatten(Tree(kind, children, start, stop))
  {
    hide FlattenAll;
  }

  lemma LastNode(base: seq<Node>, nodes: seq<Node>, children: seq<Tree>)
    requires children != [] && nodes == base + FlattenAll(children)
    ensures |nodes| > |base| && (nodes[|nodes| - 1].size < |nodes| - |base| - 1 <==> |children| >= 2)
  {
    LastIsRoot(children);
    var flat := FlattenAll(children);
    assert nodes[|nodes| - 1] == flat[|flat| - 1];
  }

  /** A frame is opened, or closed with nothing in it. */
  lemma TalliedWithFrame(frames: seq<Frame>, forests: seq<seq<Tree>>, start: nat)
    requires Tallied(frames, forests)
    ensures Tallied(frames + [Frame(|Written(forests)|, start, 0)], forests + [[]])
    ensures Written(forests + [[]]) == Written(forests)
  {
    var forests' := forests + [[]];
    forall i | 0 <= i <= |forests| ensures forests'[..i] == forests[..i] {
    }
    assert forests[..|forests|] == forests;
  }

  /** What the innermost frame wrote comes last. */
  lemma TalliedWithoutFrame(frames: seq<Frame>, forests: seq<seq<Tree>>)
    requires Tallied(frames, forests) && frames != []
    ensures Tallied(frames[..|frames| - 1], forests[..|forests| - 1])
    ensures var f := frames[|frames| - 1];
            && f.treeSize == |Written(forests[..|forests| - 1])| && f.childCount == |forests[|forests| - 1]|
            && Written(forests) == Written(forests[..|forests| - 1]) + FlattenAll(forests[|forests| - 1])
  {
    var forests' := forests[..|forests| - 1];
    forall i | 0 <= i <= |forests'| ensures forests'[..i] == forests[..i] {
    }
  }

  /** One more turn of a repetition, after the trees of those before. */
  lemma RepStep(tokens: seq<T.Token>, parser: Parser, head: nat, rank: nat, done: seq<Tree>)
    requires Reader(tokens, head) && Guarded(parser, rank) && Consumes(parser) && rank <= TOP && !IsEoi(tokens, head)
    ensures var a, all := Eval(tokens, parser, head, rank), After(done, EvalRep(tokens, parser, head, rank));
            all == if a.next.None? then Result(Some(head), done + a.trees)
                   else After(done + a.trees, EvalRep(tokens, parser, a.next.value, rank))
  {
    hide Guarded, Consumes, Eval, Ended;
    var a := Eval(tokens, parser, head, rank);
    if a.next.Some? {
      var b := EvalRep(tokens, parser, a.next.value, rank);
      assert done + (a.trees + b.trees) == (done + a.trees) + b.trees;
    }
  }

  lemma RepEnd(tokens: seq<T.Token>, parser: Parser, head: nat, rank: nat, done: seq<Tree>)
    requires Reader(tokens, head) && Guarded(parser, rank) && Consumes(parser) && rank <= TOP && IsEoi(tokens, head)
    ensures After(done, EvalRep(tokens, parser, head, rank)) == Result(Some(head), done)
  {
    assert done + [] == done;
  }

  /** The trees of a frame that was just opened. */
  lemma LastGrown(forests: seq<seq<Tree>>, ts: seq<Tree>)
    ensures Grown(forests + [[]], ts) == forests + [ts]
  {
    assert [] + ts == ts;
    assert (forests + [[]])[..|forests|] == forests;
  }

  lemma WrittenRoot(root: Tree)
    ensures Written([[root]]) == [END] + Flatten(root)
    ensures Grown([[]], [root]) == [[root]]
  {
    assert [] + [root] == [root];
    assert Grown([[]], [root])[0] == [root];
    FlattenSingle(root);
    var forests := [[root]];
    assert forests[..0] == [] && forests[0] == [root];
    assert Written(forests) == Written(forests[..0]) + FlattenAll(forests[0]);
  }

  class Builder {
    const tokens: seq<T.Token>
    var nodes: seq<Node>
    var frames: seq<Frame>

    ghost var forests: seq<seq<Tree>>

    /** At every point of a parse, the nodes of each open frame are exactly its count of postfix trees. */
    ghost predicate Valid()
      reads this
    {
      && Ended(tokens)
      && |forests| == |frames| + 1
      && nodes == Written(forests)
      && Tallied(frames, forests)
    }

    constructor (tokens: seq<T.Token>)
      requires Ended(tokens)
      ensures Valid() && this.tokens == tokens && forests == [[]] && nodes == [END] && frames == []
    {
      this.tokens := tokens;
      nodes := [END];
      frames := [];
      forests := [[]];
    }

    // ---------- the token reader ----------

    /** The first token at or after `head` that is not to be skipped. */
    method AdvanceToRawToken(head: nat) returns (head': nat)
      requires Ended(tokens) && 1 <= head < |tokens|
      ensures head' == FromRaw(tokens, head)
    {
      head' := head;
      while Raw(tokens[head'])
        invariant head <= head' < |tokens| && FromRaw(tokens, head) == FromRaw(tokens, head')
        decreases |tokens| - head'
      {
        head' := head' + 1;
      }
    }

    method Advance(head: nat) returns (head': nat)
      requires Reader(tokens, head) && !IsEoi(tokens, head)
      ensures head' == Following(tokens, head)
    {
      head' := AdvanceToRawToken(head + 1);
    }

    // ---------- the combinators ----------

    /** Running a parser comes to where the parser stops and leaves the trees that it leaves, in the current frame. */
    method Run(p: Parser, head: nat, ghost rank: nat) returns (r: Option<nat>)
      requires Valid() && Reader(tokens, head) && Guarded(p, rank) && rank <= TOP
      modifies this
      ensures Valid() && SameStarts(old(frames), frames)
      ensures var e := Eval(tokens, p, head, rank); r == e.next && forests == Grown(old(forests), e.trees)
      decreases |tokens| - head, rank, 0, p, 0
    {
      hide Written, Tallied, Body, WriterOf, Rank, RuleConsumes, Grown;
      GrownByNone(forests);
      match p {
        case Tok(token) =>
          r := Take(token, head);
        case Empty =>
          r := Some(head);
        case Then(first, rest) =>
          r := Run(first, head, rank);
          if r.Some? {
            ghost var a := Eval(tokens, first, head, rank);
            ghost var b := Eval(tokens, rest, r.value, if Consumes(first) then TOP else rank);
            GrownTwice(old(forests), a.trees, b.trees);
            r := Run(rest, r.value, if Consumes(first) then TOP else rank);
          }
        case Fail =>
          r := None;
        case Else(first, rest) =>
          r := Run(first, head, rank);
          if r.None? {
            GrownTwice(old(forests), Eval(tokens, first, head, rank).trees, Eval(tokens, rest, head, rank).trees);
            r := Run(rest, head, rank);
          }
        case Rep(parser) =>
          r := Repeat(parser, head, rank);
        case Opt(parser) =>
          r := Run(parser, head, rank);
          r := if r.Some? then r else Some(head);
        case Skp(stops) =>
          r := Skip(stops, head);
        case Call(rule) =>
          r := CallRule(rule, head);
      }
    }

    method Take(token: T.Token, head: nat) returns (r: Option<nat>)
      requires Reader(tokens, head) && token != T.END_OF_INPUT
      ensures r == if tokens[head] == token then Some(Following(tokens, head)) else None
    {
      if tokens[head] != token {
        return None;
      }
      var next := Advance(head);
      r := Some(next);
    }

    method Repeat(parser: Parser, head: nat, ghost rank: nat) returns (r: Option<nat>)
      requires Valid() && Reader(tokens, head) && Guarded(parser, rank) && Consumes(parser) && rank <= TOP
      modifies this
      ensures Valid() && SameStarts(old(frames), frames)
      ensures var e := EvalRep(tokens, parser, head, rank); r == e.next && forests == Grown(old(forests), e.trees)
      decreases |tokens| - head, rank, 0, parser, 1
    {
      hide Written, Tallied, Guarded, Consumes, Grown, EvalRep, Eval;
      ghost var all := EvalRep(tokens, parser, head, rank);
      ghost var done: seq<Tree> := [];
      GrownByNone(forests);
      assert all == After(done, all) by { assert done + all.trees == all.trees; }
      var reader := head;
      r := Some(head);
      while !IsEoi(tokens, reader) && r.Some?
        invariant Valid() && SameStarts(old(frames), frames)
        invariant head <= reader && Reader(tokens, reader) && (r.Some? ==> r.value == reader)
        invariant forests == Grown(old(forests), done)
        invariant if r.Some? then all == After(done, EvalRep(tokens, parser, reader, rank))
                  else all == Result(Some(reader), done)
        decreases r.Some?, |tokens| - reader
      {
        ghost var a := Eval(tokens, parser, reader, rank);
        GrownTwice(old(forests), done, a.trees);
        RepStep(tokens, parser, reader, rank, done);
        r := Run(parser, reader, rank);
        done := done + a.trees;
        if r.Some? {
          reader := r.value;
        }
      }
      if r.Some? {
        RepEnd(tokens, parser, reader, rank, done);
      }
      r := Some(reader);
    }

    method CallRule(rule: Rule, head: nat) returns (r: Option<nat>)
      requires Valid() && Reader(tokens, head)
      modifies this
      ensures Valid() && SameStarts(old(frames), frames)
      ensures var e := EvalRule(tokens, rule, head); r == e.next && forests == Grown(old(forests), e.trees)
      decreases |tokens| - head, Rank(rule), 1, 1
    {
      hide Written, Tallied, Body, Guarded, Consumes, Rank, RuleConsumes, Grown;
      GrammarIsSane(rule);
      match WriterOf(rule) {
        case Writeless => r := Run(Body(rule), head, Rank(rule));
        case Writes(arity, kind) => r := Write(rule, arity, kind, head);
      }
    }

    method Skip(stops: set<T.Token>, head: nat) returns (r: Option<nat>)
      requires Reader(tokens, head)
      ensures r == EvalSkip(tokens, stops, head)
      ensures r.None? <==> IsEoi(tokens, head) || tokens[head] in stops
      ensures r.Some? ==> head < r.value && StopsAt(tokens, stops, head, r.value)
    {
      SkipStops(tokens, stops, head);
      if IsEoi(tokens, head) || tokens[head] in stops {
        return None;
      }
      var reader := Advance(head);
      while !IsEoi(tokens, reader) && tokens[reader] !in stops
        invariant Reader(tokens, reader) && UpTo(tokens, stops, Following(tokens, head)) == UpTo(tokens, stops, reader)
        decreases |tokens| - reader
      {
        reader := Advance(reader);
      }
      r := Some(reader);
    }

    /** A rule that writes: one tree more for the current frame, or nothing. */
    method Write(rule: Rule, arity: Arity, kind: Kind, head: nat) returns (r: Option<nat>)
      requires Valid() && Reader(tokens, head) && WriterOf(rule) == Writes(arity, kind)
      modifies this
      ensures Valid() && SameStarts(old(frames), frames)
      ensures var e := EvalRule(tokens, rule, head); r == e.next && forests == Grown(old(forests), e.trees)
      ensures r.None? ==> nodes == old(nodes) && frames == old(frames) && forests == old(forests)
      decreases |tokens| - head, Rank(rule), 1, 0
    {
      hide Written, Tallied, Guarded, Body, Rank, Grown, Eval, EvalRule, Closed, Ended;
      RuleIsGuarded(rule);
      WritesOne(tokens, rule, head, arity, kind, Body(rule), Rank(rule));
      GrownByNone(forests);
      Open(head);
      LastGrown(old(forests), Eval(tokens, Body(rule), head, Rank(rule)).trees);
      r := Run(Body(rule), head, Rank(rule));
      if r.None? {
        CloseFailed();
        TalliedFrames(old(frames), frames, forests);
      } else {
        Close(arity, kind, Offset(tokens, r.value));
      }
    }

    method Open(head: nat)
      requires Valid() && Reader(tokens, head)
      modifies this
      ensures Valid() && nodes == old(nodes) && forests == old(forests) + [[]]
      ensures |frames| == |old(frames)| + 1 && frames[..|frames| - 1] == old(frames)
      ensures frames[|frames| - 1].start == Offset(tokens, head)
    {
      TalliedWithFrame(frames, forests, Offset(tokens, head));
      frames := frames + [Frame(|nodes|, Offset(tokens, head), 0)];
      forests := forests + [[]];
    }

    /** Undoes what the current frame wrote. */
    method CloseFailed()
      requires Valid() && frames != []
      modifies this
      ensures Valid() && forests == old(forests[..|forests| - 1]) && frames == old(frames[..|frames| - 1])
    {
      TalliedWithoutFrame(frames, forests);
      nodes := nodes[..frames[|frames| - 1].treeSize];
      frames := frames[..|frames| - 1];
      forests := forests[..|forests| - 1];
    }

    /** Writes the node of the current frame, unless it is variadic and has one child, and counts the tree as
        a child of the parent frame. */
    method Close(arity: Arity, kind: Kind, stop: nat)
      requires Valid() && frames != []
      modifies this
      ensures Valid() && frames == CountChild(old(frames[..|frames| - 1]))
      ensures forests == Grown(old(forests[..|forests| - 1]),
                               [Closed(arity, kind, old(forests[|forests| - 1]), old(frames[|frames| - 1].start),
                                       stop)])
    {
      hide Written, Tallied, Grown, CountChild;
      TalliedWithoutFrame(frames, forests);
      var frame := frames[|frames| - 1];
      ghost var children, base := forests[|forests| - 1], Written(forests[..|forests| - 1]);
      ghost var t := Closed(arity, kind, children, frame.start, stop);
      ClosingWrites(base, nodes, arity, kind, children, frame.start, stop);
      var size := |nodes| - frame.treeSize;
      if arity != VARIADIC || size == 0 || nodes[|nodes| - 1].size < size - 1 {
        nodes := nodes + [Node(kind, size, frame.childCount, frame.start, stop)];
      }
      frames := frames[..|frames| - 1];
      forests := forests[..|forests| - 1];
      WrittenWithTree(forests, t);
      TalliedWithTree(frames, forests, t);
      frames := CountChild(frames);
      forests := Grown(forests, [t]);
    }

    /** Parses the whole input. Whatever the tokens, the parse ends and leaves the nodes of one tree, of a module. */
    method Parse() returns (first: nat, last: nat)
      requires Valid() && frames == [] && forests == [[]]
      modifies this
      ensures Valid() && frames == [] && nodes == [END] + Flatten(Root(tokens))
      ensures Reader(tokens, first) && first == FromRaw(tokens, 1)
      ensures EvalRule(tokens, RootModule, first).next == Some(last)
    {
      hide Body, WriterOf, Rank, Guarded, Written, FlattenAll, Raw, EvalRule, Tallied;
      RootSucceeds(tokens);
      first := AdvanceToRawToken(1);
      RootRule();
      var r := Write(RootModule, ONE, MODULE, first);
      last := r.value;
      ghost var root := Root(tokens);
      assert EvalRule(tokens, RootModule, first).trees == [root];
      WrittenRoot(root);
    }
  }
}
