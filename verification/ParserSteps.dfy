/** One step of a parse at a time. */
module ParserSteps {
  import opened ParseTree
  import T = Tokens
  import opened Grammar
  import opened ParserMeaning

  lemma EvalThen(tokens: seq<T.Token>, a: Parser, b: Parser, head: nat, rank: nat)
    requires Reader(tokens, head) && Guarded(Then(a, b), rank) && rank <= TOP
    ensures Guarded(a, rank) && Guarded(b, if Consumes(a) then TOP else rank)
    ensures var x := Eval(tokens, a, head, rank);
            Eval(tokens, Then(a, b), head, rank) ==
              if x.next.None? then x
              else After(x.trees, Eval(tokens, b, x.next.value, if Consumes(a) then TOP else rank))
  {
  }

  lemma EvalEnds(tokens: seq<T.Token>, head: nat, rank: nat)
    requires Reader(tokens, head) && rank <= TOP
    ensures Eval(tokens, Empty, head, rank) == Result(Some(head), [])
    ensures Eval(tokens, Fail, head, rank) == Result(None, [])
  {
  }

  lemma EvalSeq2(tokens: seq<T.Token>, a: Parser, b: Parser, head: nat, rank: nat)
    requires Reader(tokens, head) && Guarded(Seq2(a, b), rank) && rank <= TOP
    ensures Guarded(a, rank) && Guarded(b, if Consumes(a) then TOP else rank)
    ensures var x := Eval(tokens, a, head, rank);
            Eval(tokens, Seq2(a, b), head, rank) ==
              if x.next.None? then x
              else After(x.trees, Eval(tokens, b, x.next.value, if Consumes(a) then TOP else rank))
  {
    hide Ended, Eval;
    EvalThen(tokens, a, Then(b, Empty), head, rank);
    var x := Eval(tokens, a, head, rank);
    if x.next.Some? {
      var rank' := if Consumes(a) then TOP else rank;
      EvalThen(tokens, b, Empty, x.next.value, rank');
      var y := Eval(tokens, b, x.next.value, rank');
      if y.next.Some? {
        EvalEnds(tokens, y.next.value, if Consumes(b) then TOP else rank');
      }
      assert y.trees + [] == y.trees;
    }
  }

  lemma EvalElse(tokens: seq<T.Token>, a: Parser, b: Parser, head: nat, rank: nat)
    requires Reader(tokens, head) && Guarded(Else(a, b), rank) && rank <= TOP
    ensures Guarded(a, rank) && Guarded(b, rank)
    ensures var x := Eval(tokens, a, head, rank);
            Eval(tokens, Else(a, b), head, rank) ==
              if x.next.Some? then x else After(x.trees, Eval(tokens, b, head, rank))
  {
  }

  lemma EvalAlt2(tokens: seq<T.Token>, a: Parser, b: Parser, head: nat, rank: nat)
    requires Reader(tokens, head) && Guarded(Alt2(a, b), rank) && rank <= TOP
    ensures Guarded(a, rank) && Guarded(b, rank)
    ensures var x := Eval(tokens, a, head, rank);
            Eval(tokens, Alt2(a, b), head, rank) ==
              if x.next.Some? then x else After(x.trees, Eval(tokens, b, head, rank))
  {
    hide Ended, Eval;
    EvalElse(tokens, a, Else(b, Fail), head, rank);
    EvalEnds(tokens, head, rank);
    EvalElse(tokens, b, Fail, head, rank);
    var y := Eval(tokens, b, head, rank);
    assert y.trees + [] == y.trees;
  }

  lemma EvalOpt(tokens: seq<T.Token>, p: Parser, head: nat, rank: nat)
    requires Reader(tokens, head) && Guarded(Opt(p), rank) && rank <= TOP
    ensures Guarded(p, rank)
    ensures var x := Eval(tokens, p, head, rank);
            Eval(tokens, Opt(p), head, rank) == if x.next.Some? then x else Result(Some(head), x.trees)
  {
  }

  lemma EvalTok(tokens: seq<T.Token>, token: T.Token, head: nat, rank: nat)
    requires Reader(tokens, head) && Guarded(Tok(token), rank) && rank <= TOP
    ensures Eval(tokens, Tok(token), head, rank).trees == []
    ensures Eval(tokens, Tok(token), head, rank).next.Some? <==> tokens[head] == token
  {
  }

  lemma EvalCall(tokens: seq<T.Token>, rule: Rule, head: nat, rank: nat)
    requires Reader(tokens, head) && Guarded(Call(rule), rank) && rank <= TOP
    ensures Eval(tokens, Call(rule), head, rank) == EvalRule(tokens, rule, head)
  {
    hide EvalRule, Rank;
  }

  lemma EvalRepetition(tokens: seq<T.Token>, p: Parser, head: nat, rank: nat)
    requires Reader(tokens, head) && Guarded(Rep(p), rank) && rank <= TOP
    ensures Guarded(p, rank) && Consumes(p)
    ensures Eval(tokens, Rep(p), head, rank) == EvalRep(tokens, p, head, rank)
  {
  }

  lemma EvalTurn(tokens: seq<T.Token>, p: Parser, head: nat, rank: nat)
    requires Reader(tokens, head) && Guarded(p, rank) && Consumes(p) && rank <= TOP
    ensures IsEoi(tokens, head) ==> EvalRep(tokens, p, head, rank) == Result(Some(head), [])
    ensures !IsEoi(tokens, head) ==>
              var a := Eval(tokens, p, head, rank);
              EvalRep(tokens, p, head, rank) ==
                if a.next.None? then Result(Some(head), a.trees)
                else After(a.trees, EvalRep(tokens, p, a.next.value, rank))
  {
    hide Eval;
  }

  /** A rule that writes leaves one tree when it succeeds, and else nothing. */
  lemma OneTree(tokens: seq<T.Token>, rule: Rule, head: nat)
    requires Reader(tokens, head) && WriterOf(rule).Writes?
    ensures var r := EvalRule(tokens, rule, head);
            |r.trees| == (if r.next.Some? then 1 else 0)
            && (r.next.Some? && WriterOf(rule).arity.ONE? ==> r.trees[0].kind == WriterOf(rule).kind)
  {
    hide Body, Rank, Eval, Guarded;
    RuleIsGuarded(rule);
    WritesOne(tokens, rule, head, WriterOf(rule).arity, WriterOf(rule).kind, Body(rule), Rank(rule));
  }

  /** What a rule that writes nothing itself leaves. */
  lemma WritesNone(tokens: seq<T.Token>, rule: Rule, head: nat)
    requires Reader(tokens, head) && WriterOf(rule).Writeless?
    ensures Rank(rule) <= TOP && Guarded(Body(rule), Rank(rule))
    ensures EvalRule(tokens, rule, head) == Eval(tokens, Body(rule), head, Rank(rule))
  {
    hide Body, Rank, Eval, Guarded, Consumes, RuleConsumes;
    RuleIsGuarded(rule);
  }
}
