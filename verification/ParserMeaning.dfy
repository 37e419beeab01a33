/** What parsing gives, as a function of the tokens: where a parser stops, and the trees it leaves behind, be it
    when it succeeds or, for rules that write no node of their own, when it fails. `ParserState` proves its
    backtracking over one flat list of nodes against it. */
module ParserMeaning {
  import opened ParseTree
  import T = Tokens
  import opened Grammar
  import opened GrammarSanity

  datatype Option<+X> = None | Some(value: X)

  // ---------- reading tokens ----------

  predicate Raw(t: T.Token) {
    t == T.WHITESPACE || t == T.COMMENT
  }

  predicate Ended(tokens: seq<T.Token>) {
    |tokens| >= 2 && tokens[|tokens| - 1] == T.END_OF_INPUT
  }

  /** A reader is a position, never past the end of the input nor on a token to be skipped. */
  predicate Reader(tokens: seq<T.Token>, head: nat) {
    Ended(tokens) && 1 <= head < |tokens| && !Raw(tokens[head])
  }

  predicate IsEoi(tokens: seq<T.Token>, head: nat) {
    head + 1 == |tokens|
  }

  function Offset(tokens: seq<T.Token>, head: nat): nat
    requires Reader(tokens, head)
  {
    |tokens| - 1 - head
  }

  /** The first token at or after `head` that is not to be skipped. */
  function FromRaw(tokens: seq<T.Token>, head: nat): (head': nat)
    requires Ended(tokens) && 1 <= head < |tokens|
    ensures head <= head' && Reader(tokens, head')
    ensures forall i :: head <= i < head' ==> Raw(tokens[i])
    decreases |tokens| - head
  {
    if Raw(tokens[head]) then FromRaw(tokens, head + 1) else head
  }

  function Following(tokens: seq<T.Token>, head: nat): (head': nat)
    requires Reader(tokens, head) && !IsEoi(tokens, head)
    ensures head < head' && Reader(tokens, head')
  {
    FromRaw(tokens, head + 1)
  }

  // ---------- parsing ----------

  datatype Result = Result(next: Option<nat>, trees: seq<Tree>)

  /** A parser that succeeds never goes back, and goes on when it takes a token. */
  predicate Onward(tokens: seq<T.Token>, head: nat, consumes: bool, r: Result) {
    r.next.Some? ==> head <= r.next.value && Reader(tokens, r.next.value) && (consumes ==> head < r.next.value)
  }

  /** The same, after some trees. */
  function After(trees: seq<Tree>, r: Result): Result {
    Result(r.next, trees + r.trees)
  }

  function Eval(tokens: seq<T.Token>, p: Parser, head: nat, rank: nat): (r: Result)
    requires Reader(tokens, head) && Guarded(p, rank) && rank <= TOP
    ensures Onward(tokens, head, Consumes(p), r)
    decreases |tokens| - head, rank, 0, p, 0
  {
    match p
    case Tok(token) => Result(if tokens[head] == token then Some(Following(tokens, head)) else None, [])
    case Empty => Result(Some(head), [])
    case Then(first, rest) =>
      var a := Eval(tokens, first, head, rank);
      if a.next.None? then a
      else After(a.trees, Eval(tokens, rest, a.next.value, if Consumes(first) then TOP else rank))
    case Fail => Result(None, [])
    case Else(first, rest) =>
      var a := Eval(tokens, first, head, rank);
      if a.next.Some? then a else After(a.trees, Eval(tokens, rest, head, rank))
    case Rep(parser) => EvalRep(tokens, parser, head, rank)
    case Opt(parser) =>
      var a := Eval(tokens, parser, head, rank);
      if a.next.Some? then a else Result(Some(head), a.trees)
    case Skp(stops) => Result(EvalSkip(tokens, stops, head), [])
    case Call(rule) => EvalRule(tokens, rule, head)
  }

  function EvalRep(tokens: seq<T.Token>, parser: Parser, head: nat, rank: nat): (r: Result)
    requires Reader(tokens, head) && Guarded(parser, rank) && Consumes(parser) && rank <= TOP
    ensures r.next.Some? && head <= r.next.value && Reader(tokens, r.next.value)
    decreases |tokens| - head, rank, 0, parser, 1
  {
    if IsEoi(tokens, head) then Result(Some(head), [])
    else
      var a := Eval(tokens, parser, head, rank);
      if a.next.None? then Result(Some(head), a.trees)
      else After(a.trees, EvalRep(tokens, parser, a.next.value, rank))
  }

  /** Past at least one token, up to one of `stops`. */
  function EvalSkip(tokens: seq<T.Token>, stops: set<T.Token>, head: nat): (r: Option<nat>)
    requires Reader(tokens, head)
    ensures r.Some? ==> head < r.value && Reader(tokens, r.value)
  {
    if IsEoi(tokens, head) || tokens[head] in stops then None
    else Some(UpTo(tokens, stops, Following(tokens, head)))
  }

  function UpTo(tokens: seq<T.Token>, stops: set<T.Token>, head: nat): (head': nat)
    requires Reader(tokens, head)
    ensures head <= head' && Reader(tokens, head')
    decreases |tokens| - head
  {
    if IsEoi(tokens, head) || tokens[head] in stops then head else UpTo(tokens, stops, Following(tokens, head))
  }

  /** `to` is the end of the input or the first token of `stops`, at or after `head`, that is not to be skipped. */
  ghost predicate StopsAt(tokens: seq<T.Token>, stops: set<T.Token>, head: nat, to: nat) {
    && head <= to && Reader(tokens, to) && (IsEoi(tokens, to) || tokens[to] in stops)
    && forall i :: head <= i < to && !Raw(tokens[i]) ==> tokens[i] !in stops
  }

  lemma {:induction false} UpToStops(tokens: seq<T.Token>, stops: set<T.Token>, head: nat)
    requires Reader(tokens, head)
    ensures StopsAt(tokens, stops, head, UpTo(tokens, stops, head))
    decreases |tokens| - head
  {
    if !IsEoi(tokens, head) && tokens[head] !in stops {
      UpToStops(tokens, stops, Following(tokens, head));
    }
  }

  /** Skipping fails at the end of the input and in front of a token to stop at, and else goes on to the first of them.
      */
  lemma SkipStops(tokens: seq<T.Token>, stops: set<T.Token>, head: nat)
    requires Reader(tokens, head)
    ensures var r := EvalSkip(tokens, stops, head);
            && (r.None? <==> IsEoi(tokens, head) || tokens[head] in stops)
            && (r.Some? ==> head < r.value && StopsAt(tokens, stops, head, r.value))
  {
    if !IsEoi(tokens, head) && tokens[head] !in stops {
      UpToStops(tokens, stops, Following(tokens, head));
    }
  }

  /** A rule that writes leaves one tree, or nothing. */
  function EvalRule(tokens: seq<T.Token>, rule: Rule, head: nat): (r: Result)
    requires Reader(tokens, head)
    ensures Onward(tokens, head, RuleConsumes(rule), r)
    decreases |tokens| - head, Rank(rule), 1
  {
    RuleIsGuarded(rule);
    EvalWriter(tokens, WriterOf(rule), Body(rule), head, Rank(rule), RuleConsumes(rule))
  }

  /** A parser that may be run at this rank. */
  predicate Ready(p: Parser, rank: nat, consumes: bool) {
    Guarded(p, rank) && rank <= TOP && (consumes ==> Consumes(p))
  }

  function EvalWriter(tokens: seq<T.Token>, writer: Writer, p: Parser, head: nat, rank: nat,
                      consumes: bool): (r: Result)
    requires Reader(tokens, head) && Ready(p, rank, consumes)
    ensures Onward(tokens, head, consumes, r)
    decreases |tokens| - head, rank, 0, p, 1
  {
    Finished(tokens, writer, head, Eval(tokens, p, head, rank))
  }

  function Finished(tokens: seq<T.Token>, writer: Writer, head: nat, a: Result): (r: Result)
    requires Reader(tokens, head) && (a.next.Some? ==> Reader(tokens, a.next.value))
    ensures r.next == a.next
  {
    match writer
    case Writeless => a
    case Writes(arity, kind) =>
      if a.next.None? then Result(None, [])
      else Result(a.next, [Closed(arity, kind, a.trees, Offset(tokens, head), Offset(tokens, a.next.value))])
  }

  lemma RuleIsGuarded(rule: Rule)
    ensures Ready(Body(rule), Rank(rule), RuleConsumes(rule))
  {
    GrammarIsSane(rule);
  }

  /** The tree of a frame: its children under a new root or, for a variadic frame with one child, that child. */
  function Closed(arity: Arity, kind: Kind, children: seq<Tree>, start: nat, stop: nat): Tree {
    if arity.VARIADIC? && |children| == 1 then children[0] else Tree(kind, children, start, stop)
  }

  /** The tree of a whole input. */
  function Root(tokens: seq<T.Token>): Tree
    requires Ended(tokens)
  {
    RootSucceeds(tokens);
    EvalRule(tokens, RootModule, FromRaw(tokens, 1)).trees[0]
  }

  /** What a rule that writes leaves. */
  lemma WritesOne(tokens: seq<T.Token>, rule: Rule, head: nat, arity: Arity, kind: Kind, p: Parser, rank: nat)
    requires Reader(tokens, head) && Guarded(p, rank) && rank <= TOP
    requires WriterOf(rule) == Writes(arity, kind) && p == Body(rule) && rank == Rank(rule)
    ensures var a := Eval(tokens, p, head, rank);
            EvalRule(tokens, rule, head) ==
              if a.next.None? then Result(None, [])
              else Result(a.next, [Closed(arity, kind, a.trees, Offset(tokens, head), Offset(tokens, a.next.value))])
  {
    hide Body, Rank, Eval, Guarded, Consumes, RuleConsumes, Closed;
  }

  lemma RepSucceeds(tokens: seq<T.Token>, p: Parser, head: nat, rank: nat)
    requires Reader(tokens, head) && Guarded(p, rank) && rank <= TOP && p.Rep?
    ensures Eval(tokens, p, head, rank).next.Some?
  {
  }

  lemma RootRule()
    ensures Body(RootModule).Rep? && WriterOf(RootModule) == Writes(ONE, MODULE)
  {
  }

  lemma RootSucceeds(tokens: seq<T.Token>)
    requires Ended(tokens)
    ensures var r := EvalRule(tokens, RootModule, FromRaw(tokens, 1));
            r.next.Some? && |r.trees| == 1 && r.trees[0].kind == MODULE
  {
    hide Body, WriterOf, Rank, Eval, EvalRule, Guarded;
    var head := FromRaw(tokens, 1);
    RootRule();
    RuleIsGuarded(RootModule);
    WritesOne(tokens, RootModule, head, ONE, MODULE, Body(RootModule), Rank(RootModule));
    RepSucceeds(tokens, Body(RootModule), head, Rank(RootModule));
  }
}
