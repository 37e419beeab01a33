/** Running parsers without their ranks, one combinator at a time, on tokens that are known. */
module ParserRuns {
  import opened ParseTree
  import T = Tokens
  import opened Grammar
  import opened ParserMeaning
  import opened ParserSteps

  // ---------- positions ----------

  /** The position `n` tokens behind `head`, not counting those to be skipped. */
  function At(tokens: seq<T.Token>, head: nat, n: nat): (at: nat)
    requires Reader(tokens, head)
    ensures head <= at && Reader(tokens, at)
    decreases n
  {
    if n == 0 || IsEoi(tokens, head) then head else At(tokens, Following(tokens, head), n - 1)
  }

  /** From `head` on stand these tokens, with any whitespace and comments between them. */
  ghost predicate Lines(tokens: seq<T.Token>, head: nat, ts: seq<T.Token>)
    requires Reader(tokens, head)
    decreases |ts|
  {
    ts == []
    || (!IsEoi(tokens, head) && tokens[head] == ts[0] && Lines(tokens, Following(tokens, head), ts[1..]))
  }

  lemma LinesStep(tokens: seq<T.Token>, head: nat, ts: seq<T.Token>)
    requires Reader(tokens, head) && ts != []
    ensures Lines(tokens, head, ts) <==>
              !IsEoi(tokens, head) && tokens[head] == ts[0] && Lines(tokens, Following(tokens, head), ts[1..])
    ensures Lines(tokens, head, [])
  {
    hide Ended, Raw;
  }

  lemma AtStep(tokens: seq<T.Token>, head: nat, n: nat)
    requires Reader(tokens, head) && !IsEoi(tokens, head)
    ensures At(tokens, head, n + 1) == At(tokens, Following(tokens, head), n)
    ensures At(tokens, head, 0) == head
  {
    hide Ended, Raw;
  }

  lemma AtNone(tokens: seq<T.Token>, head: nat)
    requires Reader(tokens, head)
    ensures At(tokens, head, 0) == head && Lines(tokens, head, [])
  {
    hide Ended, Raw;
  }

  lemma {:induction false} LinesSplit(tokens: seq<T.Token>, head: nat, a: seq<T.Token>, b: seq<T.Token>)
    requires Reader(tokens, head) && Lines(tokens, head, a + b)
    ensures Lines(tokens, head, a) && Lines(tokens, At(tokens, head, |a|), b)
    ensures At(tokens, head, |a| + |b|) == At(tokens, At(tokens, head, |a|), |b|)
    decreases |a|
  {
    hide Ended, Raw, At, Lines, Following;
    AtNone(tokens, head);
    if a == [] {
      assert a + b == b;
    } else {
      assert (a + b)[1..] == a[1..] + b && (a + b)[0] == a[0];
      LinesStep(tokens, head, a + b);
      LinesStep(tokens, head, a);
      AtStep(tokens, head, |a| - 1);
      AtStep(tokens, head, |a| + |b| - 1);
      LinesSplit(tokens, Following(tokens, head), a[1..], b);
    }
  }

  /** The first of some tokens. */
  lemma LinesFirst(tokens: seq<T.Token>, head: nat, t: T.Token, ts: seq<T.Token>)
    requires Reader(tokens, head) && Lines(tokens, head, [t] + ts)
    ensures !IsEoi(tokens, head) && tokens[head] == t && Following(tokens, head) == At(tokens, head, 1)
    ensures Lines(tokens, At(tokens, head, 1), ts)
    ensures At(tokens, head, 1 + |ts|) == At(tokens, At(tokens, head, 1), |ts|)
  {
    hide Ended, Raw, At, Lines, Following;
    assert ([t] + ts)[1..] == ts && ([t] + ts)[0] == t;
    LinesStep(tokens, head, [t] + ts);
    AtStep(tokens, head, 0);
    AtNone(tokens, Following(tokens, head));
    LinesSplit(tokens, head, [t], ts);
  }

  // ---------- ranks do not matter ----------

  lemma {:induction false} GuardedUp(p: Parser, rank: nat)
    requires Guarded(p, rank) && rank <= TOP
    ensures Guarded(p, TOP)
    decreases p
  {
    match p
    case Then(a, b) =>
      GuardedUp(a, rank);
      GuardedUp(b, if Consumes(a) then TOP else rank);
    case Else(a, b) =>
      GuardedUp(a, rank);
      GuardedUp(b, rank);
    case Rep(a) => GuardedUp(a, rank);
    case Opt(a) => GuardedUp(a, rank);
    case _ =>
  }

  lemma {:induction false} RankFree(tokens: seq<T.Token>, p: Parser, head: nat, rank: nat)
    requires Reader(tokens, head) && Guarded(p, rank) && rank <= TOP
    ensures Guarded(p, TOP) && Eval(tokens, p, head, rank) == Eval(tokens, p, head, TOP)
    decreases |tokens| - head, p, 0
  {
    hide EvalRule, EvalRep, Rank, Ended;
    GuardedUp(p, rank);
    match p
    case Then(a, b) =>
      RankFree(tokens, a, head, rank);
      var x := Eval(tokens, a, head, rank);
      if x.next.Some? {
        RankFree(tokens, b, x.next.value, if Consumes(a) then TOP else rank);
      }
    case Else(a, b) =>
      RankFree(tokens, a, head, rank);
      RankFree(tokens, b, head, rank);
    case Rep(a) => RepRankFree(tokens, a, head, rank);
    case Opt(a) => RankFree(tokens, a, head, rank);
    case _ =>
  }

  lemma {:induction false} RepRankFree(tokens: seq<T.Token>, p: Parser, head: nat, rank: nat)
    requires Reader(tokens, head) && Guarded(p, rank) && Consumes(p) && rank <= TOP
    ensures Guarded(p, TOP) && EvalRep(tokens, p, head, rank) == EvalRep(tokens, p, head, TOP)
    decreases |tokens| - head, p, 1
  {
    hide Eval, Guarded, Consumes, Ended;
    RankFree(tokens, p, head, rank);
    if !IsEoi(tokens, head) {
      var x := Eval(tokens, p, head, rank);
      if x.next.Some? {
        RepRankFree(tokens, p, x.next.value, rank);
      }
    }
  }

  // ---------- runs ----------

  /** A parser, if it may be run at all, gives this result. */
  ghost predicate Runs(tokens: seq<T.Token>, p: Parser, head: nat, r: Result) {
    Reader(tokens, head) && (Guarded(p, TOP) ==> Eval(tokens, p, head, TOP) == r)
  }

  function Success(next: nat, trees: seq<Tree>): Result { Result(Some(next), trees) }

  /** A failure that leaves nothing. */
  function Failure(): Result { Result(None, []) }

  lemma RunTok(tokens: seq<T.Token>, t: T.Token, head: nat)
    requires Reader(tokens, head)
    ensures tokens[head] != t ==> Runs(tokens, Tok(t), head, Failure())
    ensures tokens[head] == t && !IsEoi(tokens, head) ==>
              Runs(tokens, Tok(t), head, Success(Following(tokens, head), []))
  {
  }

  lemma RunEmpty(tokens: seq<T.Token>, head: nat)
    requires Reader(tokens, head)
    ensures Runs(tokens, Empty, head, Success(head, []))
  {
  }

  lemma RunThen(tokens: seq<T.Token>, a: Parser, b: Parser, head: nat, mid: nat, trees: seq<Tree>, y: Result)
    requires Runs(tokens, a, head, Success(mid, trees)) && Runs(tokens, b, mid, y)
    ensures Runs(tokens, Then(a, b), head, After(trees, y))
  {
    hide Eval, Ended;
    if Guarded(Then(a, b), TOP) {
      EvalThen(tokens, a, b, head, TOP);
    }
  }

  lemma RunThenFails(tokens: seq<T.Token>, a: Parser, b: Parser, head: nat, trees: seq<Tree>)
    requires Runs(tokens, a, head, Result(None, trees))
    ensures Runs(tokens, Then(a, b), head, Result(None, trees))
  {
    hide Eval, Ended;
    if Guarded(Then(a, b), TOP) {
      EvalThen(tokens, a, b, head, TOP);
    }
  }

  /** Two parsers one behind the other. */
  lemma RunSeq2(tokens: seq<T.Token>, a: Parser, b: Parser, head: nat, mid: nat, trees: seq<Tree>, y: Result)
    requires Runs(tokens, a, head, Success(mid, trees)) && Runs(tokens, b, mid, y)
    requires y.next.Some? ==> Reader(tokens, y.next.value)
    ensures Runs(tokens, Seq2(a, b), head, After(trees, y))
  {
    hide Runs, Ended;
    if y.next.Some? {
      RunEmpty(tokens, y.next.value);
      RunThen(tokens, b, Empty, mid, y.next.value, y.trees, Success(y.next.value, []));
      assert y.trees + [] == y.trees;
    } else {
      RunThenFails(tokens, b, Empty, mid, y.trees);
    }
    RunThen(tokens, a, Then(b, Empty), head, mid, trees, y);
  }

  lemma RunElse(tokens: seq<T.Token>, a: Parser, b: Parser, head: nat, x: Result, y: Result)
    requires Runs(tokens, a, head, x) && (x.next.None? ==> Runs(tokens, b, head, y))
    ensures Runs(tokens, Else(a, b), head, if x.next.Some? then x else After(x.trees, y))
  {
    hide Eval, Ended;
    if Guarded(Else(a, b), TOP) {
      EvalElse(tokens, a, b, head, TOP);
    }
  }

  lemma AfterNone(y: Result)
    ensures After([], y) == y
  {
    assert [] + y.trees == y.trees;
  }

  /** The first of two alternatives, or the second where the first leaves nothing. */
  lemma RunFirst(tokens: seq<T.Token>, a: Parser, b: Parser, head: nat, x: Result)
    requires Runs(tokens, a, head, x) && x.next.Some?
    ensures Runs(tokens, Else(a, b), head, x)
  {
    hide Runs;
    RunElse(tokens, a, b, head, x, x);
  }

  lemma RunSecond(tokens: seq<T.Token>, a: Parser, b: Parser, head: nat, y: Result)
    requires Runs(tokens, a, head, Failure()) && Runs(tokens, b, head, y)
    ensures Runs(tokens, Else(a, b), head, y)
  {
    hide Runs;
    RunElse(tokens, a, b, head, Failure(), y);
    AfterNone(y);
  }

  /** The last of some alternatives. */
  lemma RunLast(tokens: seq<T.Token>, a: Parser, head: nat, x: Result)
    requires Runs(tokens, a, head, x)
    ensures Runs(tokens, Else(a, Fail), head, x)
  {
    hide Ended;
    if Guarded(Else(a, Fail), TOP) {
      EvalElse(tokens, a, Fail, head, TOP);
      assert x.trees + [] == x.trees;
    }
  }

  lemma RunOpt(tokens: seq<T.Token>, p: Parser, head: nat, x: Result)
    requires Runs(tokens, p, head, x)
    ensures Runs(tokens, Opt(p), head, if x.next.Some? then x else Success(head, x.trees))
  {
    hide Eval, Ended;
    if Guarded(Opt(p), TOP) {
      EvalOpt(tokens, p, head, TOP);
    }
  }

  /** A repetition stops where a turn fails, or at the end of the input. */
  lemma RunRepEnd(tokens: seq<T.Token>, p: Parser, head: nat)
    requires Reader(tokens, head) && (IsEoi(tokens, head) || Runs(tokens, p, head, Failure()))
    ensures Runs(tokens, Rep(p), head, Success(head, []))
  {
    hide Eval, EvalRep, Ended;
    if Guarded(Rep(p), TOP) {
      EvalRepetition(tokens, p, head, TOP);
      EvalTurn(tokens, p, head, TOP);
    }
  }

  lemma RunRepTurn(tokens: seq<T.Token>, p: Parser, head: nat, mid: nat, trees: seq<Tree>, y: Result)
    requires Runs(tokens, p, head, Success(mid, trees)) && Runs(tokens, Rep(p), mid, y) && !IsEoi(tokens, head)
    ensures Runs(tokens, Rep(p), head, After(trees, y))
  {
    hide Eval, EvalRep, Ended;
    if Guarded(Rep(p), TOP) {
      EvalRepetition(tokens, p, head, TOP);
      EvalTurn(tokens, p, head, TOP);
      EvalRepetition(tokens, p, mid, TOP);
    }
  }

  lemma RunCall(tokens: seq<T.Token>, rule: Rule, head: nat)
    requires Reader(tokens, head)
    ensures Runs(tokens, Call(rule), head, EvalRule(tokens, rule, head))
  {
    hide EvalRule, Rank;
  }

  /** What a rule gives, from what its parser gives. */
  lemma RunRule(tokens: seq<T.Token>, rule: Rule, p: Parser, head: nat, r: Result)
    requires Body(rule) == p && WriterOf(rule).Writeless? && Runs(tokens, p, head, r)
    ensures EvalRule(tokens, rule, head) == r
  {
    hide Body, Eval, EvalRule, Guarded, Rank, Ended;
    WritesNone(tokens, rule, head);
    RankFree(tokens, p, head, Rank(rule));
  }

  lemma RunWriter(tokens: seq<T.Token>, rule: Rule, p: Parser, head: nat, arity: Arity, kind: Kind,
                  next: nat, trees: seq<Tree>)
    requires Body(rule) == p && WriterOf(rule) == Writes(arity, kind) && Runs(tokens, p, head, Success(next, trees))
    requires Reader(tokens, next)
    ensures EvalRule(tokens, rule, head) ==
              Success(next, [Closed(arity, kind, trees, Offset(tokens, head), Offset(tokens, next))])
  {
    hide Body, Eval, EvalRule, Guarded, Rank, Ended, Closed;
    RuleIsGuarded(rule);
    WritesOne(tokens, rule, head, arity, kind, p, Rank(rule));
    RankFree(tokens, p, head, Rank(rule));
  }

  /** A variadic rule adds no node to a single tree. */
  lemma RunVariadic(tokens: seq<T.Token>, rule: Rule, p: Parser, head: nat, kind: Kind, next: nat, trees: seq<Tree>,
                    tree: Tree)
    requires Body(rule) == p && WriterOf(rule) == Writes(VARIADIC, kind) && Runs(tokens, p, head, Success(next, trees))
    requires Reader(tokens, head) && Reader(tokens, next)
    requires tree == if |trees| == 1 then trees[0] else Tree(kind, trees, Offset(tokens, head), Offset(tokens, next))
    ensures EvalRule(tokens, rule, head) == Success(next, [tree])
  {
    hide Body, EvalRule, Runs, Ended, WriterOf;
    RunWriter(tokens, rule, p, head, VARIADIC, kind, next, trees);
  }

  lemma RunWriterFails(tokens: seq<T.Token>, rule: Rule, p: Parser, head: nat, trees: seq<Tree>)
    requires Body(rule) == p && WriterOf(rule).Writes? && Runs(tokens, p, head, Result(None, trees))
    ensures EvalRule(tokens, rule, head) == Failure()
  {
    hide Body, Eval, EvalRule, Guarded, Rank, Ended, Closed;
    RuleIsGuarded(rule);
    WritesOne(tokens, rule, head, WriterOf(rule).arity, WriterOf(rule).kind, p, Rank(rule));
    RankFree(tokens, p, head, Rank(rule));
  }

  // ---------- sequences ----------

  /** Not the last token, which is the only one that can not be taken. */
  lemma NotLast(tokens: seq<T.Token>, head: nat)
    requires Reader(tokens, head) && tokens[head] != T.END_OF_INPUT
    ensures !IsEoi(tokens, head) && Following(tokens, head) == At(tokens, head, 1)
  {
    hide Raw;
  }

  lemma RunTakes(tokens: seq<T.Token>, t: T.Token, head: nat)
    requires Reader(tokens, head) && tokens[head] == t && t != T.END_OF_INPUT
    ensures Runs(tokens, Tok(t), head, Success(At(tokens, head, 1), []))
  {
    hide Runs, At, Following, Ended;
    NotLast(tokens, head);
    RunTok(tokens, t, head);
  }

  /** A token, and what follows it. */
  lemma RunTokThen(tokens: seq<T.Token>, t: T.Token, p: Parser, head: nat, y: Result)
    requires Reader(tokens, head) && tokens[head] == t && t != T.END_OF_INPUT && Runs(tokens, p, At(tokens, head, 1), y)
    ensures Runs(tokens, Then(Tok(t), p), head, y)
  {
    hide Runs, At, Ended;
    RunTakes(tokens, t, head);
    RunThen(tokens, Tok(t), p, head, At(tokens, head, 1), [], y);
    AfterNone(y);
  }

  lemma RunTokEnd(tokens: seq<T.Token>, t: T.Token, head: nat)
    requires Reader(tokens, head) && tokens[head] == t && t != T.END_OF_INPUT
    ensures Runs(tokens, Then(Tok(t), Empty), head, Success(At(tokens, head, 1), []))
  {
    hide Runs, At, Ended;
    RunEmpty(tokens, At(tokens, head, 1));
    RunTokThen(tokens, t, Empty, head, Success(At(tokens, head, 1), []));
  }

  /** A rule, and what follows it. */
  lemma RunCallThen(tokens: seq<T.Token>, rule: Rule, p: Parser, head: nat, mid: nat, trees: seq<Tree>, y: Result)
    requires Reader(tokens, head) && EvalRule(tokens, rule, head) == Success(mid, trees) && Runs(tokens, p, mid, y)
    ensures Runs(tokens, Then(Call(rule), p), head, After(trees, y))
  {
    hide Runs, EvalRule, Ended;
    RunCall(tokens, rule, head);
    RunThen(tokens, Call(rule), p, head, mid, trees, y);
  }

  lemma RunCallEnd(tokens: seq<T.Token>, rule: Rule, head: nat, next: nat, trees: seq<Tree>)
    requires Reader(tokens, head) && EvalRule(tokens, rule, head) == Success(next, trees)
    ensures Runs(tokens, Then(Call(rule), Empty), head, Success(next, trees))
  {
    hide Runs, EvalRule, Ended;
    RuleReaches(tokens, rule, head);
    RunEmpty(tokens, next);
    RunCallThen(tokens, rule, Empty, head, next, trees, Success(next, []));
    assert trees + [] == trees;
  }

  lemma RuleReaches(tokens: seq<T.Token>, rule: Rule, head: nat)
    requires Reader(tokens, head)
    ensures EvalRule(tokens, rule, head).next.Some? ==> Reader(tokens, EvalRule(tokens, rule, head).next.value)
  {
    hide Rank;
  }

  /** Without its first token a sequence fails, and so does a rule that writes. */
  lemma RunTokFails(tokens: seq<T.Token>, t: T.Token, p: Parser, head: nat)
    requires Reader(tokens, head) && tokens[head] != t
    ensures Runs(tokens, Then(Tok(t), p), head, Failure())
  {
    hide Runs, Ended;
    RunTok(tokens, t, head);
    RunThenFails(tokens, Tok(t), p, head, []);
  }

  lemma WriterNeeds(tokens: seq<T.Token>, rule: Rule, t: T.Token, p: Parser, head: nat)
    requires Reader(tokens, head) && tokens[head] != t && Body(rule) == Then(Tok(t), p) && WriterOf(rule).Writes?
    ensures EvalRule(tokens, rule, head) == Failure()
  {
    hide Runs, Ended, EvalRule, Body, WriterOf;
    RunTokFails(tokens, t, p, head);
    RunWriterFails(tokens, rule, Then(Tok(t), p), head, []);
  }

  lemma {:induction false} AtTwice(tokens: seq<T.Token>, head: nat, a: nat, b: nat)
    requires Reader(tokens, head)
    ensures At(tokens, At(tokens, head, a), b) == At(tokens, head, a + b)
    decreases a
  {
    hide Ended, Raw;
    if a > 0 && !IsEoi(tokens, head) {
      AtTwice(tokens, Following(tokens, head), a - 1, b);
    } else if a > 0 {
      assert At(tokens, head, b) == head;
    }
  }

  /** Each of some tokens stands at its place. */
  lemma LinesAt(tokens: seq<T.Token>, head: nat, ts: seq<T.Token>, i: nat)
    requires Reader(tokens, head) && Lines(tokens, head, ts) && i < |ts|
    ensures tokens[At(tokens, head, i)] == ts[i]
  {
    hide Ended, Raw, At, Lines;
    assert ts == ts[..i] + ts[i..];
    LinesSplit(tokens, head, ts[..i], ts[i..]);
    LinesStep(tokens, At(tokens, head, i), ts[i..]);
  }
}
