/** What the trees of a parse look like, those that failed rules leave behind included. */
module ParserTrees {
  import opened ParseTree
  import T = Tokens
  import opened Grammar
  import opened ParserMeaning
  import opened ParserSteps
  import opened ParserChains
  import opened ParserLexemes
  import opened ParserStarts

  // ---------- what trees say of the tokens ----------

  /** Its offsets go down and stay under those of its parent, its children are those of its kind, it begins with a token
      of its kind, and where it stands for one token, that is the token its `start` leads to. */
  ghost predicate Proper(tokens: seq<T.Token>, t: Tree, bound: nat) {
    && t.stop <= t.start <= bound
    && (LexemesOf(t.kind) != {} ==> t.children == [] && TokenAt(tokens, t.start) in LexemesOf(t.kind))
    && Childed(t.kind, t.children)
    && Starts(t.kind, TokenAt(tokens, t.start)) && (t.kind.SCOPE? ==> AllBraced(tokens, t.children))
    && forall i :: 0 <= i < |t.children| ==> Proper(tokens, t.children[i], t.start)
  }

  ghost predicate AllProper(tokens: seq<T.Token>, ts: seq<Tree>, bound: nat) {
    forall i :: 0 <= i < |ts| ==> Proper(tokens, ts[i], bound)
  }

  lemma TokenOf(tokens: seq<T.Token>, head: nat)
    requires Reader(tokens, head)
    ensures TokenAt(tokens, Offset(tokens, head)) == tokens[head]
  {
  }

  lemma ProperUnder(tokens: seq<T.Token>, ts: seq<Tree>, bound: nat, bound': nat)
    requires AllProper(tokens, ts, bound) && bound <= bound'
    ensures AllProper(tokens, ts, bound')
  {
  }

  // ---------- all the trees of a parse ----------

  lemma ProperJoin(tokens: seq<T.Token>, a: seq<Tree>, b: seq<Tree>, bound: nat, bound': nat)
    requires AllProper(tokens, a, bound) && AllProper(tokens, b, bound') && bound' <= bound
    ensures AllProper(tokens, a + b, bound)
  {
    ProperUnder(tokens, b, bound', bound);
    hide Proper;
  }

  /** Everything a parser leaves is proper, whether it succeeds or fails. */
  lemma {:induction false} EvalIsProper(tokens: seq<T.Token>, p: Parser, head: nat, rank: nat)
    requires Reader(tokens, head) && Guarded(p, rank) && rank <= TOP
    ensures AllProper(tokens, Eval(tokens, p, head, rank).trees, Offset(tokens, head))
    decreases |tokens| - head, rank, 0, p, 0
  {
    hide Proper, EvalRule, EvalRep, Rank, Ended;
    match p
    case Then(a, b) =>
      EvalIsProper(tokens, a, head, rank);
      var x := Eval(tokens, a, head, rank);
      if x.next.Some? {
        var rank' := if Consumes(a) then TOP else rank;
        EvalIsProper(tokens, b, x.next.value, rank');
        ProperJoin(tokens, x.trees, Eval(tokens, b, x.next.value, rank').trees, Offset(tokens, head),
                   Offset(tokens, x.next.value));
      }
    case Else(a, b) =>
      EvalIsProper(tokens, a, head, rank);
      EvalIsProper(tokens, b, head, rank);
      var bound := Offset(tokens, head);
      ProperJoin(tokens, Eval(tokens, a, head, rank).trees, Eval(tokens, b, head, rank).trees, bound, bound);
    case Rep(a) => RepIsProper(tokens, a, head, rank);
    case Opt(a) => EvalIsProper(tokens, a, head, rank);
    case Call(rule) => RuleIsProper(tokens, rule, head);
    case _ =>
  }

  lemma {:induction false} RepIsProper(tokens: seq<T.Token>, p: Parser, head: nat, rank: nat)
    requires Reader(tokens, head) && Guarded(p, rank) && Consumes(p) && rank <= TOP
    ensures AllProper(tokens, EvalRep(tokens, p, head, rank).trees, Offset(tokens, head))
    decreases |tokens| - head, rank, 0, p, 1
  {
    hide Proper, Eval, Guarded, Consumes, Ended;
    if !IsEoi(tokens, head) {
      EvalIsProper(tokens, p, head, rank);
      var x := Eval(tokens, p, head, rank);
      if x.next.Some? {
        RepIsProper(tokens, p, x.next.value, rank);
        ProperJoin(tokens, x.trees, EvalRep(tokens, p, x.next.value, rank).trees, Offset(tokens, head),
                   Offset(tokens, x.next.value));
      }
    }
  }

  lemma {:induction false} RuleIsProper(tokens: seq<T.Token>, rule: Rule, head: nat)
    requires Reader(tokens, head)
    ensures AllProper(tokens, EvalRule(tokens, rule, head).trees, Offset(tokens, head))
    decreases |tokens| - head, Rank(rule), 1
  {
    hide Proper, Eval, EvalRule, Guarded, Body, WriterOf, Rank, Closed, AllProper, LexemesOf, TakesOneOf, Starts,
         AllBraced;
    if WriterOf(rule).Writeless? {
      WritesNone(tokens, rule, head);
      EvalIsProper(tokens, Body(rule), head, Rank(rule));
    } else {
      TokenOf(tokens, head);
      RuleIsGuarded(rule);
      WritesOne(tokens, rule, head, WriterOf(rule).arity, WriterOf(rule).kind, Body(rule), Rank(rule));
      EvalIsProper(tokens, Body(rule), head, Rank(rule));
      var a := Eval(tokens, Body(rule), head, Rank(rule));
      if a.next.Some? {
        RuleTrees(tokens, rule, head);
        RuleStarts(tokens, rule, head);
        if WriterOf(rule).kind.SCOPE? {
          ScopesAreBraced(tokens, rule, head, Rank(rule));
        }
        if LexemesOf(WriterOf(rule).kind) != {} {
          LexemeRules(rule);
          LexemeTrees(tokens, rule, head, Body(rule), Rank(rule));
        }
        ClosedIsProper(tokens, WriterOf(rule), a.trees, Offset(tokens, head), Offset(tokens, a.next.value));
      } else {
        NoneIsProper(tokens, Offset(tokens, head));
      }
    }
  }

  lemma NoneIsProper(tokens: seq<T.Token>, bound: nat)
    ensures AllProper(tokens, [], bound)
  {
  }

  lemma LexemeTrees(tokens: seq<T.Token>, rule: Rule, head: nat, p: Parser, rank: nat)
    requires Reader(tokens, head) && p == Body(rule) && rank <= TOP && Guarded(p, rank) && LexemeRule(rule)
    ensures var r := Eval(tokens, p, head, rank);
            r.trees == [] && (r.next.Some? ==> TokenAt(tokens, Offset(tokens, head)) in LexemesOf(WriterOf(rule).kind))
  {
    hide Eval, Guarded, Body, LexemesOf, Leaves, Leafy;
    LeafyTakes(tokens, p, head, rank);
  }

  lemma ClosedIsProper(tokens: seq<T.Token>, writer: Writer, children: seq<Tree>, start: nat, stop: nat)
    requires writer.Writes? && AllProper(tokens, children, start) && stop <= start && Childed(writer.kind, children)
    requires LexemesOf(writer.kind) != {} ==>
               writer.arity.ONE? && children == [] && TokenAt(tokens, start) in LexemesOf(writer.kind)
    requires Starts(writer.kind, TokenAt(tokens, start))
    requires writer.kind.SCOPE? ==> (writer.arity.VARIADIC? && |children| == 1) || AllBraced(tokens, children)
    ensures AllProper(tokens, [Closed(writer.arity, writer.kind, children, start, stop)], start)
  {
    hide LexemesOf, Childed, Starts, AllBraced;
  }

  /** The tree of an input is proper. */
  lemma RootIsProper(tokens: seq<T.Token>)
    requires Ended(tokens)
    ensures Proper(tokens, Root(tokens), |tokens|)
  {
    hide Proper, EvalRule;
    RootSucceeds(tokens);
    var head := FromRaw(tokens, 1);
    RuleIsProper(tokens, RootModule, head);
    ProperUnder(tokens, EvalRule(tokens, RootModule, head).trees, Offset(tokens, head), |tokens|);
  }

  /** What a proper tree promises to those who read it. */
  lemma {:induction false} ProperIsKept(tokens: seq<T.Token>, t: Tree, bound: nat)
    requires Proper(tokens, t, bound)
    ensures Kept(t)
    decreases t
  {
    hide Childed;
    forall i | 0 <= i < |t.children| ensures Kept(t.children[i]) {
      ProperIsKept(tokens, t.children[i], t.start);
    }
  }
}
