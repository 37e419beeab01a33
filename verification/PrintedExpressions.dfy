/** Parsing the tokens of an expression, with any whitespace and comments between them, gives its tree. */
module PrintedExpressions {
  import opened ParseTree
  import T = Tokens
  import opened Grammar
  import opened ParserMeaning
  import opened ParserRuns
  import opened ParserLexemes
  import C = ParserChains
  import opened Syntax

  // ---------- single tokens ----------

  lemma {:induction false} LeafyRuns(tokens: seq<T.Token>, p: Parser, head: nat)
    requires Reader(tokens, head) && Leafy(p)
    ensures tokens[head] !in Leaves(p) ==> Runs(tokens, p, head, Failure())
    ensures tokens[head] in Leaves(p) && tokens[head] != T.END_OF_INPUT ==>
              Runs(tokens, p, head, Success(At(tokens, head, 1), []))
    decreases p
  {
    hide Runs, Ended;
    if tokens[head] != T.END_OF_INPUT {
      NotLast(tokens, head);
    }
    match p
    case Tok(t) => RunTok(tokens, t, head);
    case Fail => RunFail(tokens, head);
    case Else(a, b) =>
      LeafyRuns(tokens, a, head);
      LeafyRuns(tokens, b, head);
      if tokens[head] in Leaves(a) {
        if tokens[head] != T.END_OF_INPUT {
          RunFirst(tokens, a, b, head, Success(At(tokens, head, 1), []));
        }
      } else if tokens[head] in Leaves(b) {
        if tokens[head] != T.END_OF_INPUT {
          RunSecond(tokens, a, b, head, Success(At(tokens, head, 1), []));
        }
      } else {
        RunSecond(tokens, a, b, head, Failure());
      }
  }

  lemma RunFail(tokens: seq<T.Token>, head: nat)
    requires Reader(tokens, head)
    ensures Runs(tokens, Fail, head, Failure())
  {
  }

  /** A rule that writes a leaf for one of some tokens. */
  lemma LeafRule(tokens: seq<T.Token>, rule: Rule, p: Parser, kind: Kind, head: nat)
    requires Reader(tokens, head) && Body(rule) == p && WriterOf(rule) == Writes(ONE, kind) && Leafy(p)
    ensures tokens[head] !in Leaves(p) ==> EvalRule(tokens, rule, head) == Failure()
    ensures tokens[head] in Leaves(p) && tokens[head] != T.END_OF_INPUT ==>
              EvalRule(tokens, rule, head) == Success(At(tokens, head, 1), [Leaf(tokens, kind, head)])
  {
    hide Body, WriterOf, Runs, EvalRule, Leafy, Leaves, Ended, Offset;
    LeafyRuns(tokens, p, head);
    if tokens[head] !in Leaves(p) {
      RunWriterFails(tokens, rule, p, head, []);
    } else if tokens[head] != T.END_OF_INPUT {
      RunWriter(tokens, rule, p, head, ONE, kind, At(tokens, head, 1), []);
    }
  }

  lemma SingleBodies()
    ensures Body(Identifier) == Tok(T.IDENTIFIER) && WriterOf(Identifier) == Writes(ONE, IDENTIFIER)
    ensures Body(LitInteger) == Tok(T.LIT_INTEGER) && WriterOf(LitInteger) == Writes(ONE, LIT_INTEGER)
    ensures Body(LitDecimal) == Tok(T.LIT_DECIMAL) && WriterOf(LitDecimal) == Writes(ONE, LIT_DECIMAL)
    ensures Body(OpPath) == Tok(T.DOT) && WriterOf(OpPath) == Writes(ONE, EXP_OPERATOR)
  {
  }

  lemma IdentifierParses(tokens: seq<T.Token>, head: nat)
    requires Reader(tokens, head)
    ensures EvalRule(tokens, Identifier, head) ==
              if tokens[head] == T.IDENTIFIER then Success(At(tokens, head, 1), [Leaf(tokens, IDENTIFIER, head)])
              else Failure()
  {
    hide Body, WriterOf, EvalRule;
    SingleBodies();
    LeafRule(tokens, Identifier, Tok(T.IDENTIFIER), IDENTIFIER, head);
  }

  lemma LiteralsParse(tokens: seq<T.Token>, head: nat)
    requires Reader(tokens, head)
    ensures EvalRule(tokens, LitInteger, head) ==
              if tokens[head] == T.LIT_INTEGER then Success(At(tokens, head, 1), [Leaf(tokens, LIT_INTEGER, head)])
              else Failure()
    ensures EvalRule(tokens, LitDecimal, head) ==
              if tokens[head] == T.LIT_DECIMAL then Success(At(tokens, head, 1), [Leaf(tokens, LIT_DECIMAL, head)])
              else Failure()
  {
    hide Body, WriterOf, EvalRule;
    SingleBodies();
    LeafRule(tokens, LitInteger, Tok(T.LIT_INTEGER), LIT_INTEGER, head);
    LeafRule(tokens, LitDecimal, Tok(T.LIT_DECIMAL), LIT_DECIMAL, head);
  }

  // ---------- operators ----------

  /** The rule of the operators of a level. */
  function OpOf(level: nat): Rule {
    if level == 1 then OpPath else if level == 3 then OpProduct else if level == 4 then OpSum
    else if level == 5 then OpComparison else OpAssign
  }

  predicate HasOps(level: nat) { level == 1 || 3 <= level <= 6 }

  lemma OpBodies(level: nat)
    requires HasOps(level)
    ensures WriterOf(OpOf(level)) == Writes(ONE, EXP_OPERATOR)
    ensures Body(OpOf(level)) ==
              if level == 1 then OpPathParser() else if level == 3 then OpProductParser()
              else if level == 4 then OpSumParser() else if level == 5 then OpComparisonParser() else OpAssignParser()
  {
  }

  lemma PathOps(t: T.Token)
    ensures Leafy(OpPathParser()) && (t in Leaves(OpPathParser()) <==> Strength(t) == 1)
  {
  }

  lemma ProductOps(t: T.Token)
    ensures Leafy(OpProductParser()) && (t in Leaves(OpProductParser()) <==> Strength(t) == 3)
  {
  }

  lemma SumOps(t: T.Token)
    ensures Leafy(OpSumParser()) && (t in Leaves(OpSumParser()) <==> Strength(t) == 4)
  {
  }

  lemma ComparisonOps(t: T.Token)
    ensures Leafy(OpComparisonParser()) && (t in Leaves(OpComparisonParser()) <==> Strength(t) == 5)
  {
    LastComparisons(t);
    hide LastComparisonsParser, Leafy, Leaves;
    OneMoreOp(T.KET_RIGHT, LastComparisonsParser(), t);
    OneMoreOp(T.KET_LEFT, Else(Tok(T.KET_RIGHT), LastComparisonsParser()), t);
    assert OpComparisonParser() == Else(Tok(T.KET_LEFT), Else(Tok(T.KET_RIGHT), LastComparisonsParser())) by {
      ComparisonParts();
    }
  }

  function LastComparisonsParser(): Parser {
    Alt2(Tok(T.KET_LEFT_EQUAL), Tok(T.KET_RIGHT_EQUAL))
  }

  lemma ComparisonParts()
    ensures OpComparisonParser() == Else(Tok(T.KET_LEFT), Else(Tok(T.KET_RIGHT), LastComparisonsParser()))
  {
  }

  lemma LastComparisons(t: T.Token)
    ensures Leafy(LastComparisonsParser())
    ensures t in Leaves(LastComparisonsParser()) <==> t == T.KET_LEFT_EQUAL || t == T.KET_RIGHT_EQUAL
  {
  }

  lemma AssignmentOps(t: T.Token)
    ensures Leafy(OpAssignParser()) && (t in Leaves(OpAssignParser()) <==> Strength(t) == 6)
  {
    LastAssignments(t);
    hide LastAssignmentsParser, Leafy, Leaves;
    OneMoreOp(T.MINUS_EQUAL, LastAssignmentsParser(), t);
    OneMoreOp(T.PLUS_EQUAL, Else(Tok(T.MINUS_EQUAL), LastAssignmentsParser()), t);
    OneMoreOp(T.EQUAL, Else(Tok(T.PLUS_EQUAL), Else(Tok(T.MINUS_EQUAL), LastAssignmentsParser())), t);
    assert OpAssignParser() ==
           Else(Tok(T.EQUAL), Else(Tok(T.PLUS_EQUAL), Else(Tok(T.MINUS_EQUAL), LastAssignmentsParser()))) by {
      AssignmentParts();
    }
  }

  function LastAssignmentsParser(): Parser {
    Alt3(Tok(T.STAR_EQUAL), Tok(T.SLASH_EQUAL), Tok(T.PERCENT_EQUAL))
  }

  lemma AssignmentParts()
    ensures OpAssignParser() ==
              Else(Tok(T.EQUAL), Else(Tok(T.PLUS_EQUAL), Else(Tok(T.MINUS_EQUAL), LastAssignmentsParser())))
  {
  }

  lemma LastAssignments(t: T.Token)
    ensures Leafy(LastAssignmentsParser())
    ensures t in Leaves(LastAssignmentsParser()) <==> t == T.STAR_EQUAL || t == T.SLASH_EQUAL || t == T.PERCENT_EQUAL
  {
  }

  lemma OneMoreOp(first: T.Token, p: Parser, t: T.Token)
    requires Leafy(p)
    ensures Leafy(Else(Tok(first), p)) && (t in Leaves(Else(Tok(first), p)) <==> t == first || t in Leaves(p))
  {
  }

  /** The operators of a level are the tokens of its strength. */
  lemma OperatorParses(tokens: seq<T.Token>, level: nat, head: nat)
    requires Reader(tokens, head) && HasOps(level)
    ensures EvalRule(tokens, OpOf(level), head) ==
              if Strength(tokens[head]) == level then Success(At(tokens, head, 1), [Leaf(tokens, EXP_OPERATOR, head)])
              else Failure()
  {
    hide Body, WriterOf, EvalRule, Strength, Leafy, Leaves, OpPathParser, OpProductParser, OpSumParser,
         OpComparisonParser, OpAssignParser, OpOf;
    OpBodies(level);
    var t := tokens[head];
    PathOps(t);
    ProductOps(t);
    SumOps(t);
    ComparisonOps(t);
    AssignmentOps(t);
    EndBinds();
    LeafRule(tokens, OpOf(level), Body(OpOf(level)), EXP_OPERATOR, head);
  }

  lemma EndBinds()
    ensures Strength(T.END_OF_INPUT) == 8
  {
  }

  // ---------- links ----------

  function LinkOf(level: nat, operand: Rule): Parser {
    Seq2(Call(OpOf(level)), Call(operand))
  }

  /** Without an operator of the level there is no link. */
  lemma LinkFails(tokens: seq<T.Token>, level: nat, operand: Rule, head: nat)
    requires Reader(tokens, head) && HasOps(level) && Strength(tokens[head]) != level
    ensures Runs(tokens, LinkOf(level, operand), head, Failure())
  {
    hide Runs, EvalRule, OpOf, Strength, Ended;
    OperatorParses(tokens, level, head);
    RunCall(tokens, OpOf(level), head);
    RunThenFails(tokens, Call(OpOf(level)), Then(Call(operand), Empty), head, []);
  }

  lemma LinkParses(tokens: seq<T.Token>, level: nat, operand: Rule, head: nat, next: nat, tree: Tree)
    requires Reader(tokens, head) && HasOps(level) && Strength(tokens[head]) == level && Reader(tokens, next)
    requires EvalRule(tokens, operand, At(tokens, head, 1)) == Success(next, [tree])
    ensures Runs(tokens, LinkOf(level, operand), head, Success(next, [Leaf(tokens, EXP_OPERATOR, head), tree]))
    ensures !IsEoi(tokens, head)
  {
    hide Runs, EvalRule, OpOf, Leaf, Ended;
    OperatorParses(tokens, level, head);
    NotLast(tokens, head);
    hide Strength;
    RunCall(tokens, OpOf(level), head);
    RunCall(tokens, operand, At(tokens, head, 1));
    RunSeq2(tokens, Call(OpOf(level)), Call(operand), head, At(tokens, head, 1), [Leaf(tokens, EXP_OPERATOR, head)],
            Success(next, [tree]));
    assert [Leaf(tokens, EXP_OPERATOR, head)] + [tree] == [Leaf(tokens, EXP_OPERATOR, head), tree];
  }

  // ---------- names ----------

  lemma PathBody()
    ensures Body(Path) == Seq2(Call(Identifier), Rep(LinkOf(1, Path)))
    ensures WriterOf(Path) == Writes(VARIADIC, EXP_BINOP)
  {
  }

  lemma {:induction false} PointsSize(more: nat)
    ensures |PrintPoints(more)| == 2 * more
  {
    if more > 0 {
      PointsSize(more - 1);
    }
  }

  lemma NamePrints(more: nat)
    ensures |Print(Name(more))| == 1 + 2 * more && Print(Name(more)) == [T.IDENTIFIER] + PrintPoints(more)
    ensures more > 0 ==> PrintPoints(more) == [T.DOT] + Print(Name(more - 1))
  {
    PointsSize(more);
  }

  lemma PointBinds()
    ensures Strength(T.DOT) == 1
  {
  }

  /** The tokens of a name of several parts. */
  lemma NameLines(tokens: seq<T.Token>, more: nat, head: nat)
    requires Reader(tokens, head) && Lines(tokens, head, Print(Name(more)))
    ensures tokens[head] == T.IDENTIFIER && |Print(Name(more))| == 1 + 2 * more
    ensures more > 0 ==>
              var mid := At(tokens, head, 1);
              && tokens[mid] == T.DOT && Strength(T.DOT) == 1 && At(tokens, mid, 1) == At(tokens, head, 2)
              && Lines(tokens, At(tokens, head, 2), Print(Name(more - 1)))
              && At(tokens, At(tokens, head, 2), 2 * more - 1) == At(tokens, head, 1 + 2 * more)
  {
    hide At, Ended, Raw, Lines, Strength, Print, PrintPoints;
    NamePrints(more);
    PointBinds();
    LinesFirst(tokens, head, T.IDENTIFIER, PrintPoints(more));
    if more > 0 {
      LinesFirst(tokens, At(tokens, head, 1), T.DOT, Print(Name(more - 1)));
      AtTwice(tokens, head, 1, 1);
      AtTwice(tokens, head, 2, 2 * more - 1);
    }
  }

  lemma {:induction false} PathParses(tokens: seq<T.Token>, more: nat, head: nat)
    requires Reader(tokens, head) && Lines(tokens, head, Print(Name(more)))
    requires Strength(tokens[At(tokens, head, 1 + 2 * more)]) > 1
    ensures EvalRule(tokens, Path, head) == Success(At(tokens, head, 1 + 2 * more), [NameTree(tokens, more, head)])
    decreases more
  {
    hide Runs, EvalRule, Body, WriterOf, OpOf, LinkOf, At, Lines, Ended, Strength;
    PathBody();
    NameLines(tokens, more, head);
    IdentifierParses(tokens, head);
    RunCall(tokens, Identifier, head);
    var mid, end, link := At(tokens, head, 1), At(tokens, head, 1 + 2 * more), LinkOf(1, Path);
    LinkFails(tokens, 1, Path, end);
    RunRepEnd(tokens, link, end);
    var rest: seq<Tree> := [];
    if more > 0 {
      var at := At(tokens, head, 2);
      PathParses(tokens, more - 1, at);
      rest := [Leaf(tokens, EXP_OPERATOR, mid), NameTree(tokens, more - 1, at)];
      LinkParses(tokens, 1, Path, mid, end, rest[1]);
      RunRepTurn(tokens, link, mid, end, rest, Success(end, []));
    }
    assert rest + [] == rest;
    RunSeq2(tokens, Call(Identifier), Rep(link), head, mid, [Leaf(tokens, IDENTIFIER, head)], Success(end, rest));
    RunVariadic(tokens, Path, Seq2(Call(Identifier), Rep(link)), head, EXP_BINOP, end,
                [Leaf(tokens, IDENTIFIER, head)] + rest, NameTree(tokens, more, head));
  }

  // ---------- what does not begin an expression ----------

  /** The tokens that an operand may begin with. */
  predicate BeginsOperand(t: T.Token) {
    t.IDENTIFIER? || t.LIT_INTEGER? || t.LIT_DECIMAL? || t.PAR_LEFT?
  }

  predicate BeginsExpression(t: T.Token) {
    BeginsOperand(t) || t.PLUS? || t.MINUS?
  }

  lemma PathFails(tokens: seq<T.Token>, head: nat)
    requires Reader(tokens, head) && tokens[head] != T.IDENTIFIER
    ensures EvalRule(tokens, Path, head) == Failure()
  {
    hide Runs, EvalRule, Body, WriterOf, LinkOf, Ended;
    PathBody();
    IdentifierParses(tokens, head);
    RunCall(tokens, Identifier, head);
    RunThenFails(tokens, Call(Identifier), Then(Rep(LinkOf(1, Path)), Empty), head, []);
    RunWriterFails(tokens, Path, Seq2(Call(Identifier), Rep(LinkOf(1, Path))), head, []);
  }

  /** The literals and brackets behind names among the operands. */
  function NoName(): Parser { Else(Call(LitInteger), NoInteger()) }

  function NoInteger(): Parser { Else(Call(LitDecimal), Else(C.Bracketed(), Fail)) }

  lemma OperandsParts()
    ensures C.Operands() == Else(Call(Path), NoName())
    ensures C.Bracketed() == Then(Tok(T.PAR_LEFT), Seq2(Call(Expression), Tok(T.PAR_RIGHT)))
  {
  }

  lemma OperandsFail(tokens: seq<T.Token>, head: nat)
    requires Reader(tokens, head) && !BeginsOperand(tokens[head])
    ensures Runs(tokens, C.Operands(), head, Failure())
  {
    hide Runs, EvalRule, C.Operands, C.Bracketed, Ended;
    OperandsParts();
    PathFails(tokens, head);
    LiteralsParse(tokens, head);
    RunCall(tokens, Path, head);
    RunCall(tokens, LitInteger, head);
    RunCall(tokens, LitDecimal, head);
    RunTok(tokens, T.PAR_LEFT, head);
    RunThenFails(tokens, Tok(T.PAR_LEFT), Seq2(Call(Expression), Tok(T.PAR_RIGHT)), head, []);
    RunLast(tokens, C.Bracketed(), head, Failure());
    RunSecond(tokens, Call(LitDecimal), Else(C.Bracketed(), Fail), head, Failure());
    RunSecond(tokens, Call(LitInteger), NoInteger(), head, Failure());
    RunSecond(tokens, Call(Path), NoName(), head, Failure());
  }

  lemma AtomBodies()
    ensures Body(PosAtom) == Seq2(Opt(Tok(T.PLUS)), C.Operands()) && WriterOf(PosAtom).Writeless?
    ensures Body(NegAtom) == Seq2(Tok(T.MINUS), Call(PosAtom)) && WriterOf(NegAtom) == Writes(ONE, EXP_OPPOSE)
    ensures Body(Atom) == Alt2(Call(PosAtom), Call(NegAtom)) && WriterOf(Atom).Writeless?
  {
  }

  lemma PosAtomFails(tokens: seq<T.Token>, head: nat)
    requires Reader(tokens, head) && !BeginsOperand(tokens[head]) && tokens[head] != T.PLUS
    ensures EvalRule(tokens, PosAtom, head) == Failure()
  {
    hide Runs, EvalRule, Body, WriterOf, C.Operands, BeginsOperand, Ended;
    AtomBodies();
    RunTok(tokens, T.PLUS, head);
    RunOpt(tokens, Tok(T.PLUS), head, Failure());
    OperandsFail(tokens, head);
    RunSeq2(tokens, Opt(Tok(T.PLUS)), C.Operands(), head, head, [], Failure());
    AfterNone(Failure());
    RunRule(tokens, PosAtom, Seq2(Opt(Tok(T.PLUS)), C.Operands()), head, Failure());
  }

  lemma NegAtomFails(tokens: seq<T.Token>, head: nat)
    requires Reader(tokens, head) && tokens[head] != T.MINUS
    ensures EvalRule(tokens, NegAtom, head) == Failure()
  {
    hide Runs, EvalRule, Body, WriterOf, Ended;
    AtomBodies();
    RunTok(tokens, T.MINUS, head);
    RunThenFails(tokens, Tok(T.MINUS), Then(Call(PosAtom), Empty), head, []);
    RunWriterFails(tokens, NegAtom, Seq2(Tok(T.MINUS), Call(PosAtom)), head, []);
  }

  /** The rules from signed operands up to expressions. */
  function RuleAt(level: nat): Rule {
    if level <= 1 then PosAtom else if level == 2 then Atom else if level == 3 then Product else if level == 4 then Sum
    else if level == 5 then Comparison else if level == 6 then Assignment else Expression
  }

  /** The rule and the level of what follows the operators of a level. */
  function OperandLevel(level: nat): nat { if level == 6 then 6 else if level == 0 then 0 else level - 1 }

  function TailOf(level: nat): Parser {
    var link := LinkOf(level, RuleAt(OperandLevel(level)));
    if level <= 4 then Rep(link) else Opt(link)
  }

  lemma ChainBody(level: nat)
    requires 3 <= level <= 6
    ensures Body(RuleAt(level)) == Seq2(Call(RuleAt(level - 1)), TailOf(level))
    ensures WriterOf(RuleAt(level)) == Writes(VARIADIC, if level == 6 then EXP_ASSIGN else EXP_BINOP)
  {
    hide Body, WriterOf, TailOf;
    if level == 3 {
      ProductBody();
    } else if level == 4 {
      SumBody();
    } else if level == 5 {
      ComparisonBody();
    } else {
      AssignmentBody();
    }
  }

  lemma ProductBody()
    ensures Body(Product) == Seq2(Call(Atom), TailOf(3)) && WriterOf(Product) == Writes(VARIADIC, EXP_BINOP)
  {
  }

  lemma SumBody()
    ensures Body(Sum) == Seq2(Call(Product), TailOf(4)) && WriterOf(Sum) == Writes(VARIADIC, EXP_BINOP)
  {
  }

  lemma ComparisonBody()
    ensures Body(Comparison) == Seq2(Call(Sum), TailOf(5)) && WriterOf(Comparison) == Writes(VARIADIC, EXP_BINOP)
  {
  }

  lemma AssignmentBody()
    ensures Body(Assignment) == Seq2(Call(Comparison), TailOf(6))
            && WriterOf(Assignment) == Writes(VARIADIC, EXP_ASSIGN)
  {
  }

  lemma ExpressionBody()
    ensures Body(Expression) == Alt2(Call(FunCall), Call(Assignment)) && WriterOf(Expression).Writeless?
    ensures Body(FunCall) == Then(Call(Identifier), CallRest()) && WriterOf(FunCall) == Writes(ONE, FUN_CALL)
  {
  }

  function MoreArgs(): Parser { Seq2(Tok(T.COMMA), Call(Expression)) }

  function Args(): Parser { Seq2(Call(Expression), Rep(MoreArgs())) }

  function CallRest(): Parser { Then(Tok(T.PAR_LEFT), Seq2(Opt(Args()), Tok(T.PAR_RIGHT))) }

  /** A call needs a name and a bracket. */
  lemma CallFails(tokens: seq<T.Token>, head: nat)
    requires Reader(tokens, head)
    requires tokens[head] == T.IDENTIFIER ==> tokens[At(tokens, head, 1)] != T.PAR_LEFT
    ensures EvalRule(tokens, FunCall, head) == Failure()
  {
    hide Runs, EvalRule, Body, WriterOf, Ended, At, Leaf, Args;
    ExpressionBody();
    IdentifierParses(tokens, head);
    RunCall(tokens, Identifier, head);
    if tokens[head] == T.IDENTIFIER {
      var next, leaf := At(tokens, head, 1), Leaf(tokens, IDENTIFIER, head);
      RunTok(tokens, T.PAR_LEFT, next);
      RunThenFails(tokens, Tok(T.PAR_LEFT), Seq2(Opt(Args()), Tok(T.PAR_RIGHT)), next, []);
      RunThen(tokens, Call(Identifier), CallRest(), head, next, [leaf], Failure());
      assert After([leaf], Failure()) == Result(None, [leaf]);
      RunWriterFails(tokens, FunCall, Then(Call(Identifier), CallRest()), head, [leaf]);
    } else {
      RunThenFails(tokens, Call(Identifier), CallRest(), head, []);
      RunWriterFails(tokens, FunCall, Then(Call(Identifier), CallRest()), head, []);
    }
  }

  lemma {:induction false} LevelFails(tokens: seq<T.Token>, level: nat, head: nat)
    requires Reader(tokens, head) && !BeginsExpression(tokens[head]) && 1 <= level <= 7
    ensures EvalRule(tokens, RuleAt(level), head) == Failure()
    decreases level, 0
  {
    hide Runs, EvalRule, Body, WriterOf, Ended, At, BeginsOperand, TailOf;
    if level == 1 {
      PosAtomFails(tokens, head);
    } else if level == 2 {
      AtomBodies();
      PosAtomFails(tokens, head);
      NegAtomFails(tokens, head);
      RunCall(tokens, PosAtom, head);
      RunCall(tokens, NegAtom, head);
      RunLast(tokens, Call(NegAtom), head, Failure());
      RunSecond(tokens, Call(PosAtom), Else(Call(NegAtom), Fail), head, Failure());
      RunRule(tokens, Atom, Alt2(Call(PosAtom), Call(NegAtom)), head, Failure());
    } else if level <= 6 {
      ChainBody(level);
      var first := RuleAt(level - 1);
      LevelFails(tokens, level - 1, head);
      RunCall(tokens, first, head);
      RunThenFails(tokens, Call(first), Then(TailOf(level), Empty), head, []);
      RunWriterFails(tokens, RuleAt(level), Seq2(Call(first), TailOf(level)), head, []);
    } else {
      ExpressionFails(tokens, head);
    }
  }

  lemma {:induction false} ExpressionFails(tokens: seq<T.Token>, head: nat)
    requires Reader(tokens, head) && !BeginsExpression(tokens[head])
    ensures EvalRule(tokens, Expression, head) == Failure()
    decreases 6, 1
  {
    hide Runs, EvalRule, Body, WriterOf, Ended, At;
    ExpressionBody();
    LevelFails(tokens, 6, head);
    CallFails(tokens, head);
    RunCall(tokens, FunCall, head);
    RunCall(tokens, Assignment, head);
    RunLast(tokens, Call(Assignment), head, Failure());
    RunSecond(tokens, Call(FunCall), Else(Call(Assignment), Fail), head, Failure());
    RunRule(tokens, Expression, Alt2(Call(FunCall), Call(Assignment)), head, Failure());
  }

  // ---------- what is parsed ----------

  /** Where the tokens of an expression end. */
  function End(tokens: seq<T.Token>, x: Syntax, head: nat): (end: nat)
    requires Reader(tokens, head)
    ensures Reader(tokens, end)
  {
    At(tokens, head, |Print(x)|)
  }

  /** The tokens of a well-formed expression stand at `head`, and what follows them binds more loosely than `level`. */
  ghost predicate Stands(tokens: seq<T.Token>, x: Syntax, level: nat, head: nat) {
    && Reader(tokens, head) && WellFormed(x) && Level(x) <= level && Lines(tokens, head, Print(x))
    && Strength(tokens[End(tokens, x, head)]) > level
  }

  /** The result of parsing it. */
  function Parsed(tokens: seq<T.Token>, x: Syntax, head: nat): Result
    requires Reader(tokens, head)
  {
    Success(End(tokens, x, head), [TreeOf(tokens, x, head)])
  }

  lemma OneLine(tokens: seq<T.Token>, head: nat, t: T.Token)
    requires Reader(tokens, head) && Lines(tokens, head, [t])
    ensures tokens[head] == t && !IsEoi(tokens, head) && Following(tokens, head) == At(tokens, head, 1)
  {
    assert [t] + [] == [t];
    LinesFirst(tokens, head, t, []);
  }

  /** Something between two tokens. */
  lemma BetweenLines(tokens: seq<T.Token>, head: nat, a: T.Token, ts: seq<T.Token>, b: T.Token)
    requires Reader(tokens, head) && Lines(tokens, head, [a] + (ts + [b]))
    ensures var mid := At(tokens, head, 1);
            && tokens[head] == a && !IsEoi(tokens, head) && Following(tokens, head) == mid && Lines(tokens, mid, ts)
            && var last := At(tokens, mid, |ts|);
            && tokens[last] == b && !IsEoi(tokens, last) && Following(tokens, last) == At(tokens, last, 1)
            && At(tokens, last, 1) == At(tokens, head, |ts| + 2)
  {
    hide At, Ended, Lines;
    LinesFirst(tokens, head, a, ts + [b]);
    var mid := At(tokens, head, 1);
    LinesSplit(tokens, mid, ts, [b]);
    OneLine(tokens, At(tokens, mid, |ts|), b);
  }

  lemma GroupStands(tokens: seq<T.Token>, e: Syntax, head: nat)
    requires Reader(tokens, head) && WellFormed(e) && Lines(tokens, head, Print(Group(e)))
    ensures var mid := At(tokens, head, 1);
            && tokens[head] == T.PAR_LEFT && !IsEoi(tokens, head) && Following(tokens, head) == mid
            && Stands(tokens, e, 7, mid)
            && var last := End(tokens, e, mid);
            && tokens[last] == T.PAR_RIGHT && !IsEoi(tokens, last)
            && Following(tokens, last) == End(tokens, Group(e), head)
  {
    hide At, Ended, Lines;
    BetweenLines(tokens, head, T.PAR_LEFT, Print(e), T.PAR_RIGHT);
    LevelIsLow(e);
  }

  lemma LevelIsLow(x: Syntax)
    requires WellFormed(x)
    ensures Level(x) <= 7
  {
  }

  lemma {:induction false} GroupParses(tokens: seq<T.Token>, e: Syntax, head: nat)
    requires Reader(tokens, head) && WellFormed(e) && Lines(tokens, head, Print(Group(e)))
    ensures Runs(tokens, C.Bracketed(), head, Parsed(tokens, Group(e), head))
    decreases e, 8, 0
  {
    hide Runs, EvalRule, Ended, C.Bracketed, End, Stands, Lines;
    OperandsParts();
    GroupStands(tokens, e, head);
    var mid := At(tokens, head, 1);
    var last, end := End(tokens, e, mid), End(tokens, Group(e), head);
    ExpressionParses(tokens, e, mid);
    RunTok(tokens, T.PAR_LEFT, head);
    RunCall(tokens, Expression, mid);
    RunTok(tokens, T.PAR_RIGHT, last);
    RunSeq2(tokens, Call(Expression), Tok(T.PAR_RIGHT), mid, last, [TreeOf(tokens, e, mid)], Success(end, []));
    assert [TreeOf(tokens, e, mid)] + [] == [TreeOf(tokens, e, mid)];
    RunThen(tokens, Tok(T.PAR_LEFT), Seq2(Call(Expression), Tok(T.PAR_RIGHT)), head, mid, [],
            Parsed(tokens, Group(e), head));
    AfterNone(Parsed(tokens, Group(e), head));
  }

  lemma OperandBegins(x: Syntax)
    requires WellFormed(x)
    ensures Level(x) == 0 ==> BeginsOperand(Print(x)[0])
    ensures Level(x) == 0 ==> x.Name? || x.Whole? || x.Fraction? || x.Group?
    ensures Level(x) == 1 <==> x.Signed?
    ensures Level(x) == 2 <==> x.Opposed?
    ensures 3 <= Level(x) <= 6 <==> x.Chain?
    ensures Level(x) == 7 <==> x.Apply?
  {
  }

  lemma StandsFirst(tokens: seq<T.Token>, x: Syntax, level: nat, head: nat)
    requires Stands(tokens, x, level, head)
    ensures Reader(tokens, head) && !IsEoi(tokens, head) && tokens[head] == Print(x)[0] && WellFormed(x)
    ensures x.Whole? || x.Fraction? ==> End(tokens, x, head) == At(tokens, head, 1)
  {
    hide At, Ended;
  }

  lemma NameEnds(tokens: seq<T.Token>, more: nat, head: nat, level: nat)
    requires Stands(tokens, Name(more), level, head) && level >= 1
    ensures Lines(tokens, head, Print(Name(more))) && End(tokens, Name(more), head) == At(tokens, head, 1 + 2 * more)
    ensures Strength(tokens[At(tokens, head, 1 + 2 * more)]) > 1
  {
    hide At, Ended, Lines;
    PointsSize(more);
  }

  lemma {:induction false} OperandParses(tokens: seq<T.Token>, x: Syntax, head: nat)
    requires Stands(tokens, x, 1, head) && Level(x) == 0
    ensures Runs(tokens, C.Operands(), head, Parsed(tokens, x, head))
    decreases x, 0, 0
  {
    hide Runs, EvalRule, C.Operands, C.Bracketed, Ended, Stands, Print, Lines, At, Level, WellFormed, End, Offset;
    OperandsParts();
    StandsFirst(tokens, x, 1, head);
    OperandBegins(x);
    FirstTokens(x);
    var r := Parsed(tokens, x, head);
    match x {
      case Name(more) =>
        NameEnds(tokens, more, head, 1);
        PathParses(tokens, more, head);
        RunCall(tokens, Path, head);
        RunFirst(tokens, Call(Path), NoName(), head, r);
      case Whole =>
        LiteralsParse(tokens, head);
        RunCall(tokens, LitInteger, head);
        RunFirst(tokens, Call(LitInteger), NoInteger(), head, r);
        BehindPath(tokens, head, r);
      case Fraction =>
        LiteralsParse(tokens, head);
        RunCall(tokens, LitDecimal, head);
        RunFirst(tokens, Call(LitDecimal), Else(C.Bracketed(), Fail), head, r);
        BehindInteger(tokens, head, r);
      case Group(e) =>
        GroupIsKept(tokens, e, head);
        GroupParses(tokens, e, head);
        LiteralsParse(tokens, head);
        RunCall(tokens, LitDecimal, head);
        RunLast(tokens, C.Bracketed(), head, r);
        RunSecond(tokens, Call(LitDecimal), Else(C.Bracketed(), Fail), head, r);
        BehindInteger(tokens, head, r);
    }
  }

  lemma FirstTokens(x: Syntax)
    ensures x.Whole? ==> Print(x)[0] == T.LIT_INTEGER
    ensures x.Fraction? ==> Print(x)[0] == T.LIT_DECIMAL
    ensures x.Group? ==> Print(x)[0] == T.PAR_LEFT
    ensures x.Name? || x.Apply? ==> Print(x)[0] == T.IDENTIFIER
    ensures x.Signed? ==> Print(x)[0] == T.PLUS
    ensures x.Opposed? ==> Print(x)[0] == T.MINUS
  {
  }

  lemma GroupIsKept(tokens: seq<T.Token>, e: Syntax, head: nat)
    requires Stands(tokens, Group(e), 1, head)
    ensures WellFormed(e) && Lines(tokens, head, Print(Group(e)))
  {
    hide At, Ended, Lines, Print;
  }

  lemma BehindPath(tokens: seq<T.Token>, head: nat, r: Result)
    requires Runs(tokens, NoName(), head, r) && Reader(tokens, head) && tokens[head] != T.IDENTIFIER
    ensures Runs(tokens, Else(Call(Path), NoName()), head, r)
  {
    hide Runs, EvalRule, Ended, NoName;
    PathFails(tokens, head);
    RunCall(tokens, Path, head);
    RunSecond(tokens, Call(Path), NoName(), head, r);
  }

  lemma BehindInteger(tokens: seq<T.Token>, head: nat, r: Result)
    requires Runs(tokens, NoInteger(), head, r) && Reader(tokens, head)
    requires tokens[head] != T.IDENTIFIER && tokens[head] != T.LIT_INTEGER
    ensures Runs(tokens, Else(Call(Path), NoName()), head, r)
  {
    hide Runs, EvalRule, Ended, NoInteger;
    LiteralsParse(tokens, head);
    RunCall(tokens, LitInteger, head);
    RunSecond(tokens, Call(LitInteger), NoInteger(), head, r);
    BehindPath(tokens, head, r);
  }

  /** A sign and what stands behind it. */
  lemma SignStands(tokens: seq<T.Token>, x: Syntax, level: nat, head: nat)
    requires Stands(tokens, x, level, head) && (x.Signed? || x.Opposed?) && level >= 1
    ensures var mid := At(tokens, head, 1);
            && tokens[head] == (if x.Signed? then T.PLUS else T.MINUS)
            && Following(tokens, head) == mid && Stands(tokens, x.inner, 1, mid)
            && End(tokens, x.inner, mid) == End(tokens, x, head)
            && (x.Signed? ==> Level(x.inner) == 0)
  {
    hide At, Ended, Lines, Strength;
    LinesFirst(tokens, head, if x.Signed? then T.PLUS else T.MINUS, Print(x.inner));
  }

  lemma {:induction false} PosAtomParses(tokens: seq<T.Token>, x: Syntax, head: nat)
    requires Stands(tokens, x, 1, head)
    ensures EvalRule(tokens, PosAtom, head) == Parsed(tokens, x, head)
    decreases x, 1, 0
  {
    hide Runs, EvalRule, C.Operands, Ended, Stands, Print, Lines, At, Level, WellFormed, End, Body, WriterOf;
    AtomBodies();
    StandsFirst(tokens, x, 1, head);
    StandsLow(tokens, x, 1, head);
    OperandBegins(x);
    var r, sign := Parsed(tokens, x, head), Opt(Tok(T.PLUS));
    AfterNone(r);
    RunTok(tokens, T.PLUS, head);
    if x.Signed? {
      SignStands(tokens, x, 1, head);
      var mid := At(tokens, head, 1);
      OperandParses(tokens, x.inner, mid);
      RunOpt(tokens, Tok(T.PLUS), head, Success(mid, []));
      RunSeq2(tokens, sign, C.Operands(), head, mid, [], r);
    } else {
      OperandParses(tokens, x, head);
      RunOpt(tokens, Tok(T.PLUS), head, Failure());
      RunSeq2(tokens, sign, C.Operands(), head, head, [], r);
    }
    RunRule(tokens, PosAtom, Seq2(sign, C.Operands()), head, r);
  }

  lemma StandsLow(tokens: seq<T.Token>, x: Syntax, level: nat, head: nat)
    requires Stands(tokens, x, level, head)
    ensures Level(x) <= level
  {
  }

  /** What stands at a level stands at the next one down that is not below its own. */
  lemma StandsLower(tokens: seq<T.Token>, x: Syntax, level: nat, head: nat)
    requires Stands(tokens, x, level, head) && Level(x) < level
    ensures Stands(tokens, x, level - 1, head)
  {
    hide At, Ended, Lines, Print, Level;
  }

  lemma {:induction false} AtomParses(tokens: seq<T.Token>, x: Syntax, head: nat)
    requires Stands(tokens, x, 2, head)
    ensures EvalRule(tokens, Atom, head) == Parsed(tokens, x, head)
    decreases x, 2, 0
  {
    hide Runs, EvalRule, Ended, Stands, Print, Lines, At, Level, WellFormed, End, Body, WriterOf, BeginsOperand;
    AtomBodies();
    StandsFirst(tokens, x, 2, head);
    StandsLow(tokens, x, 2, head);
    OperandBegins(x);
    var r := Parsed(tokens, x, head);
    RunCall(tokens, PosAtom, head);
    if x.Opposed? {
      OpposedParses(tokens, x, head);
      RunCall(tokens, NegAtom, head);
      RunLast(tokens, Call(NegAtom), head, r);
      RunSecond(tokens, Call(PosAtom), Else(Call(NegAtom), Fail), head, r);
    } else {
      StandsLower(tokens, x, 2, head);
      PosAtomParses(tokens, x, head);
      RunFirst(tokens, Call(PosAtom), Else(Call(NegAtom), Fail), head, r);
    }
    RunRule(tokens, Atom, Alt2(Call(PosAtom), Call(NegAtom)), head, r);
  }

  lemma {:induction false} OpposedParses(tokens: seq<T.Token>, x: Syntax, head: nat)
    requires Stands(tokens, x, 2, head) && x.Opposed?
    ensures EvalRule(tokens, PosAtom, head) == Failure()
    ensures EvalRule(tokens, NegAtom, head) == Parsed(tokens, x, head)
    decreases x, 1, 1
  {
    hide Runs, EvalRule, Ended, Stands, Lines, At, Level, WellFormed, Body, WriterOf;
    AtomBodies();
    StandsFirst(tokens, x, 2, head);
    SignStands(tokens, x, 2, head);
    PosAtomFails(tokens, head);
    var mid, end := At(tokens, head, 1), End(tokens, x, head);
    var tree := TreeOf(tokens, x.inner, mid);
    PosAtomParses(tokens, x.inner, mid);
    RunTok(tokens, T.MINUS, head);
    RunCall(tokens, PosAtom, mid);
    RunSeq2(tokens, Tok(T.MINUS), Call(PosAtom), head, mid, [], Success(end, [tree]));
    AfterNone(Success(end, [tree]));
    RunWriter(tokens, NegAtom, Seq2(Tok(T.MINUS), Call(PosAtom)), head, ONE, EXP_OPPOSE, end, [tree]);
  }

  // ---------- chains ----------

  /** Operators of a level with their operands stand at `head`, and what follows them binds more loosely. */
  ghost predicate LinksStand(tokens: seq<T.Token>, links: Links, level: nat, head: nat) {
    && Reader(tokens, head) && 3 <= level <= 6 && AllLinked(links, level)
    && Lines(tokens, head, PrintLinks(links)) && Strength(tokens[LinksEnd(tokens, links, head)]) > level
    && (level >= 5 && links.More? ==> links.rest.Done?)
  }

  function LinksEnd(tokens: seq<T.Token>, links: Links, head: nat): (end: nat)
    requires Reader(tokens, head)
    ensures Reader(tokens, end)
  {
    At(tokens, head, |PrintLinks(links)|)
  }

  lemma LinksPrint(links: Links)
    requires links.More?
    ensures PrintLinks(links) == [links.op] + (Print(links.operand) + PrintLinks(links.rest))
  {
  }

  /** The first operator, its operand, and the rest. */
  lemma LinkStands(tokens: seq<T.Token>, links: Links, level: nat, head: nat)
    requires LinksStand(tokens, links, level, head) && links.More?
    ensures var mid := At(tokens, head, 1);
            && Strength(tokens[head]) == level && Stands(tokens, links.operand, OperandLevel(level), mid)
            && var next := End(tokens, links.operand, mid);
            && LinksStand(tokens, links.rest, level, next)
            && LinksEnd(tokens, links.rest, next) == LinksEnd(tokens, links, head)
            && next == At(tokens, head, 1 + |Print(links.operand)|)
  {
    hide At, Ended, Level, WellFormed, Strength, Lines, Print, PrintLinks, Raw;
    LinksPrint(links);
    var x, rest := links.operand, links.rest;
    LinesFirst(tokens, head, links.op, Print(x) + PrintLinks(rest));
    var mid := At(tokens, head, 1);
    LinesSplit(tokens, mid, Print(x), PrintLinks(rest));
    AtTwice(tokens, head, 1, |Print(x)|);
    RestFollows(tokens, rest, level, End(tokens, x, mid));
  }

  /** What follows an operand: the next operator, or what follows all of them. */
  lemma RestFollows(tokens: seq<T.Token>, links: Links, level: nat, head: nat)
    requires Reader(tokens, head) && AllLinked(links, level) && Lines(tokens, head, PrintLinks(links))
    requires links.Done? ==> Strength(tokens[LinksEnd(tokens, links, head)]) > level
    ensures Strength(tokens[head]) >= level && (links.Done? ==> Strength(tokens[head]) > level)
  {
    hide Ended, Level, WellFormed, Strength;
  }

  lemma {:induction false} LinksParse(tokens: seq<T.Token>, links: Links, level: nat, head: nat)
    requires LinksStand(tokens, links, level, head)
    ensures Runs(tokens, TailOf(level), head, Success(LinksEnd(tokens, links, head), LinkTrees(tokens, links, head)))
    decreases links, 0, 0
  {
    hide Runs, EvalRule, Ended, Stands, Lines, At, LinksEnd, LinksStand, Print, PrintLinks, RuleAt, LinkOf, Leaf;
    LinksStandFacts(tokens, links, level, head);
    var operand := RuleAt(OperandLevel(level));
    var link := LinkOf(level, operand);
    if links.Done? {
      TailEnds(tokens, level, head);
    } else {
      LinkStands(tokens, links, level, head);
      var mid := At(tokens, head, 1);
      var next, x := End(tokens, links.operand, mid), links.operand;
      Parses(tokens, x, OperandLevel(level), mid);
      var one := [Leaf(tokens, EXP_OPERATOR, head), TreeOf(tokens, x, mid)];
      LinkParses(tokens, level, operand, head, next, TreeOf(tokens, x, mid));
      LinksParse(tokens, links.rest, level, next);
      var r := Success(LinksEnd(tokens, links, head), LinkTrees(tokens, links.rest, next));
      if level <= 4 {
        RunRepTurn(tokens, link, head, next, one, r);
      } else {
        RunOpt(tokens, link, head, Success(next, one));
        NoLinks(tokens, links.rest, level, next);
        assert one + [] == one;
      }
    }
  }

  /** Behind the last operand nothing more is taken. */
  lemma TailEnds(tokens: seq<T.Token>, level: nat, head: nat)
    requires Reader(tokens, head) && 3 <= level <= 6 && Strength(tokens[head]) > level
    ensures Runs(tokens, TailOf(level), head, Success(head, []))
  {
    hide Runs, Ended, RuleAt, LinkOf, Strength;
    var link := LinkOf(level, RuleAt(OperandLevel(level)));
    LinkFails(tokens, level, RuleAt(OperandLevel(level)), head);
    RunRepEnd(tokens, link, head);
    RunOpt(tokens, link, head, Failure());
  }

  lemma LinksStandFacts(tokens: seq<T.Token>, links: Links, level: nat, head: nat)
    requires LinksStand(tokens, links, level, head)
    ensures Reader(tokens, head) && 3 <= level <= 6 && (level >= 5 && links.More? ==> links.rest.Done?)
    ensures links.Done? ==> LinksEnd(tokens, links, head) == head && Strength(tokens[head]) > level
  {
    hide Ended, Lines, Strength;
  }

  lemma NoLinks(tokens: seq<T.Token>, links: Links, level: nat, head: nat)
    requires Reader(tokens, head) && links.Done?
    ensures LinksEnd(tokens, links, head) == head && LinkTrees(tokens, links, head) == []
  {
    hide Ended;
  }

  /** A chain at its own level: its first operand, and its links. */
  lemma ChainStands(tokens: seq<T.Token>, x: Syntax, level: nat, head: nat)
    requires Stands(tokens, x, level, head) && Level(x) == level && 3 <= level <= 6
    ensures x.Chain? && Stands(tokens, x.first, level - 1, head)
    ensures var next := End(tokens, x.first, head);
            LinksStand(tokens, x.links, level, next) && LinksEnd(tokens, x.links, next) == End(tokens, x, head)
  {
    hide At, Ended, Strength, LinkTrees, Lines, Print, PrintLinks, Raw;
    ChainPrints(x);
    LinesSplit(tokens, head, Print(x.first), PrintLinks(x.links));
    RestFollows(tokens, x.links, level, End(tokens, x.first, head));
  }

  lemma ChainPrints(x: Syntax)
    requires x.Chain?
    ensures Print(x) == Print(x.first) + PrintLinks(x.links)
  {
  }

  lemma {:induction false} ChainParses(tokens: seq<T.Token>, x: Syntax, level: nat, head: nat)
    requires Stands(tokens, x, level, head) && 3 <= level <= 6
    ensures EvalRule(tokens, RuleAt(level), head) == Parsed(tokens, x, head)
    decreases x, level, 0
  {
    hide Runs, EvalRule, Ended, Stands, Lines, At, LinksEnd, LinksStand, RuleAt, TailOf, Body, WriterOf, Level, Print,
         WellFormed, End, LinkTrees;
    ChainBody(level);
    StandsFirst(tokens, x, level, head);
    StandsLow(tokens, x, level, head);
    var end, p := End(tokens, x, head), Seq2(Call(RuleAt(level - 1)), TailOf(level));
    var kind := if level == 6 then EXP_ASSIGN else EXP_BINOP;
    if Level(x) == level {
      ChainStands(tokens, x, level, head);
      var next := End(tokens, x.first, head);
      Parses(tokens, x.first, level - 1, head);
      LinksParse(tokens, x.links, level, next);
      var trees := [TreeOf(tokens, x.first, head)] + LinkTrees(tokens, x.links, next);
      RunCall(tokens, RuleAt(level - 1), head);
      RunSeq2(tokens, Call(RuleAt(level - 1)), TailOf(level), head, next, [TreeOf(tokens, x.first, head)],
              Success(end, LinkTrees(tokens, x.links, next)));
      ChainTree(tokens, x, head);
      RunVariadic(tokens, RuleAt(level), p, head, kind, end, trees, TreeOf(tokens, x, head));
    } else {
      StandsLower(tokens, x, level, head);
      Parses(tokens, x, level - 1, head);
      NoneFollows(tokens, x, level, head);
      TailEnds(tokens, level, end);
      RunCall(tokens, RuleAt(level - 1), head);
      var trees := [TreeOf(tokens, x, head)];
      RunSeq2(tokens, Call(RuleAt(level - 1)), TailOf(level), head, end, trees, Success(end, []));
      assert trees + [] == trees;
      RunVariadic(tokens, RuleAt(level), p, head, kind, end, trees, TreeOf(tokens, x, head));
    }
  }

  lemma NoneFollows(tokens: seq<T.Token>, x: Syntax, level: nat, head: nat)
    requires Stands(tokens, x, level, head) && 3 <= level <= 6
    ensures Strength(tokens[End(tokens, x, head)]) > level
  {
    hide Ended, Strength, Lines, At;
  }

  lemma ChainTree(tokens: seq<T.Token>, x: Syntax, head: nat)
    requires Reader(tokens, head) && x.Chain? && WellFormed(x)
    ensures var trees := [TreeOf(tokens, x.first, head)]
                         + LinkTrees(tokens, x.links, End(tokens, x.first, head));
            && |trees| != 1
            && TreeOf(tokens, x, head) == Tree(if Level(x) == 6 then EXP_ASSIGN else EXP_BINOP, trees,
                                               Offset(tokens, head), Offset(tokens, End(tokens, x, head)))
  {
    hide Ended, At, Strength;
  }

  lemma {:induction false} Parses(tokens: seq<T.Token>, x: Syntax, level: nat, head: nat)
    requires Stands(tokens, x, level, head) && 1 <= level <= 6
    ensures EvalRule(tokens, RuleAt(level), head) == Parsed(tokens, x, head)
    decreases x, level, 1
  {
    hide EvalRule, Ended, Stands, Parsed;
    if level == 1 {
      PosAtomParses(tokens, x, head);
    } else if level == 2 {
      AtomParses(tokens, x, head);
    } else {
      ChainParses(tokens, x, level, head);
    }
  }

  // ---------- calls ----------

  ghost predicate AllWellFormed(args: seq<Syntax>) {
    forall i :: 0 <= i < |args| ==> WellFormed(args[i])
  }

  lemma WellFormedRest(args: seq<Syntax>)
    requires AllWellFormed(args) && args != []
    ensures WellFormed(args[0]) && AllWellFormed(args[1..]) && Level(args[0]) <= 7
  {
    hide WellFormed, Level;
    LevelIsLow(args[0]);
  }

  /** Further arguments stand at `head`, and a bracket behind them. */
  ghost predicate CommasStand(tokens: seq<T.Token>, args: seq<Syntax>, head: nat) {
    && Reader(tokens, head) && AllWellFormed(args)
    && Lines(tokens, head, PrintCommas(args)) && tokens[CommasEnd(tokens, args, head)] == T.PAR_RIGHT
  }

  function CommasEnd(tokens: seq<T.Token>, args: seq<Syntax>, head: nat): (end: nat)
    requires Reader(tokens, head)
    ensures Reader(tokens, end)
  {
    At(tokens, head, |PrintCommas(args)|)
  }

  lemma CommaStands(tokens: seq<T.Token>, args: seq<Syntax>, head: nat)
    requires CommasStand(tokens, args, head) && args != []
    ensures var mid := At(tokens, head, 1);
            && tokens[head] == T.COMMA && !IsEoi(tokens, head) && Following(tokens, head) == mid
            && Stands(tokens, args[0], 7, mid)
            && var next := End(tokens, args[0], mid);
            && CommasStand(tokens, args[1..], next)
            && CommasEnd(tokens, args[1..], next) == CommasEnd(tokens, args, head)
            && next == At(tokens, head, 1 + |Print(args[0])|)
  {
    hide At, Ended, WellFormed, Level, Strength, Print, AllWellFormed, Lines, PrintCommas, Raw;
    EndsBind();
    WellFormedRest(args);
    CommasPrint(args);
    var x, rest := args[0], args[1..];
    LinesFirst(tokens, head, T.COMMA, Print(x) + PrintCommas(rest));
    var mid := At(tokens, head, 1);
    LinesSplit(tokens, mid, Print(x), PrintCommas(rest));
    AtTwice(tokens, head, 1, |Print(x)|);
    CommasFollow(tokens, rest, End(tokens, x, mid));
  }

  lemma CommasPrint(args: seq<Syntax>)
    requires args != []
    ensures PrintCommas(args) == [T.COMMA] + (Print(args[0]) + PrintCommas(args[1..]))
  {
    hide Print;
  }

  lemma EndsBind()
    ensures Strength(T.COMMA) == 8 && Strength(T.PAR_RIGHT) == 8
  {
  }

  lemma CommasFollow(tokens: seq<T.Token>, args: seq<Syntax>, head: nat)
    requires Reader(tokens, head) && Lines(tokens, head, PrintCommas(args))
    requires args == [] ==> tokens[CommasEnd(tokens, args, head)] == T.PAR_RIGHT
    ensures tokens[head] == if args == [] then T.PAR_RIGHT else T.COMMA
  {
    hide Ended;
  }

  lemma {:induction false} CommasParse(tokens: seq<T.Token>, args: seq<Syntax>, head: nat)
    requires CommasStand(tokens, args, head)
    ensures Runs(tokens, Rep(MoreArgs()), head, Success(CommasEnd(tokens, args, head), CommaTrees(tokens, args, head)))
    decreases args, 0, 0
  {
    hide Runs, EvalRule, Ended, Stands, Lines, At, CommasStand, Print, PrintCommas;
    CommasFacts(tokens, args, head);
    if args == [] {
      RunTok(tokens, T.COMMA, head);
      RunThenFails(tokens, Tok(T.COMMA), Then(Call(Expression), Empty), head, []);
      RunRepEnd(tokens, MoreArgs(), head);
    } else {
      CommaStands(tokens, args, head);
      var mid := At(tokens, head, 1);
      var next, tree := End(tokens, args[0], mid), TreeOf(tokens, args[0], mid);
      ExpressionParses(tokens, args[0], mid);
      CommasParse(tokens, args[1..], next);
      RunTok(tokens, T.COMMA, head);
      RunCall(tokens, Expression, mid);
      RunSeq2(tokens, Tok(T.COMMA), Call(Expression), head, mid, [], Success(next, [tree]));
      AfterNone(Success(next, [tree]));
      RunRepTurn(tokens, MoreArgs(), head, next, [tree],
                 Success(CommasEnd(tokens, args, head), CommaTrees(tokens, args[1..], next)));
    }
  }

  lemma CommasFacts(tokens: seq<T.Token>, args: seq<Syntax>, head: nat)
    requires CommasStand(tokens, args, head)
    ensures Reader(tokens, head)
    ensures args == [] ==> CommasEnd(tokens, args, head) == head && tokens[head] == T.PAR_RIGHT
  {
    hide Ended;
  }

  /** A call: a name, a bracket, the arguments, and a bracket. */
  lemma CallStands(tokens: seq<T.Token>, args: seq<Syntax>, head: nat)
    requires Stands(tokens, Apply(args), 7, head)
    ensures var open := At(tokens, head, 1);
            && tokens[head] == T.IDENTIFIER && !IsEoi(tokens, head)
            && tokens[open] == T.PAR_LEFT && !IsEoi(tokens, open) && Following(tokens, open) == At(tokens, open, 1)
            && var mid := At(tokens, head, 2);
            && mid == At(tokens, open, 1) && ArgsStand(tokens, args, mid)
            && var last := ArgsEnd(tokens, args, mid);
            && tokens[last] == T.PAR_RIGHT && !IsEoi(tokens, last)
            && Following(tokens, last) == End(tokens, Apply(args), head)
  {
    hide At, Ended, WellFormed, Lines;
    var ts := PrintArgs(args);
    LinesFirst(tokens, head, T.IDENTIFIER, [T.PAR_LEFT] + (ts + [T.PAR_RIGHT]));
    var open := At(tokens, head, 1);
    BetweenLines(tokens, open, T.PAR_LEFT, ts, T.PAR_RIGHT);
    AtTwice(tokens, head, 1, 1);
    AtTwice(tokens, head, 1, |ts| + 2);
    CallArgs(args);
  }

  lemma CallArgs(args: seq<Syntax>)
    requires WellFormed(Apply(args))
    ensures AllWellFormed(args)
  {
  }

  ghost predicate ArgsStand(tokens: seq<T.Token>, args: seq<Syntax>, head: nat) {
    && Reader(tokens, head) && AllWellFormed(args)
    && Lines(tokens, head, PrintArgs(args)) && tokens[ArgsEnd(tokens, args, head)] == T.PAR_RIGHT
  }

  function ArgsEnd(tokens: seq<T.Token>, args: seq<Syntax>, head: nat): (end: nat)
    requires Reader(tokens, head)
    ensures Reader(tokens, end)
  {
    At(tokens, head, |PrintArgs(args)|)
  }

  lemma FirstArgStands(tokens: seq<T.Token>, args: seq<Syntax>, head: nat)
    requires ArgsStand(tokens, args, head)
    ensures args == [] ==> ArgsEnd(tokens, args, head) == head && tokens[head] == T.PAR_RIGHT
    ensures args != [] ==>
              && Stands(tokens, args[0], 7, head)
              && var next := End(tokens, args[0], head);
              && CommasStand(tokens, args[1..], next)
              && CommasEnd(tokens, args[1..], next) == ArgsEnd(tokens, args, head)
  {
    hide Ended, WellFormed, Level, Strength, Print, AllWellFormed;
    EndsBind();
    if args != [] {
      WellFormedRest(args);
      LinesSplit(tokens, head, Print(args[0]), PrintCommas(args[1..]));
      CommasFollow(tokens, args[1..], End(tokens, args[0], head));
    }
  }

  lemma {:induction false} ArgsParse(tokens: seq<T.Token>, args: seq<Syntax>, head: nat)
    requires ArgsStand(tokens, args, head)
    ensures Runs(tokens, Opt(Args()), head, Success(ArgsEnd(tokens, args, head), ArgTrees(tokens, args, head)))
    decreases args, 1, 0
  {
    hide Runs, EvalRule, Ended, Stands, Lines, At, CommasStand, ArgsEnd, CommasEnd, Print, PrintCommas, PrintArgs,
         MoreArgs;
    FirstArgStands(tokens, args, head);
    if args == [] {
      ExpressionFails(tokens, head);
      RunCall(tokens, Expression, head);
      RunThenFails(tokens, Call(Expression), Then(Rep(MoreArgs()), Empty), head, []);
      RunOpt(tokens, Args(), head, Failure());
    } else {
      var next, end, tree := End(tokens, args[0], head), ArgsEnd(tokens, args, head), TreeOf(tokens, args[0], head);
      ExpressionParses(tokens, args[0], head);
      CommasParse(tokens, args[1..], next);
      RunCall(tokens, Expression, head);
      var more := CommaTrees(tokens, args[1..], next);
      RunSeq2(tokens, Call(Expression), Rep(MoreArgs()), head, next, [tree], Success(end, more));
      RunOpt(tokens, Args(), head, Success(end, [tree] + more));
    }
  }

  lemma {:induction false} CallRestParses(tokens: seq<T.Token>, args: seq<Syntax>, head: nat)
    requires Stands(tokens, Apply(args), 7, head) && Reader(tokens, head)
    ensures Runs(tokens, CallRest(), At(tokens, head, 1),
                 Success(End(tokens, Apply(args), head), ArgTrees(tokens, args, At(tokens, head, 2))))
    decreases args, 2, 0
  {
    hide Runs, EvalRule, Ended, Stands, Lines, At, ArgsStand, ArgsEnd, Args, ArgTrees, End;
    CallStands(tokens, args, head);
    var open, mid := At(tokens, head, 1), At(tokens, head, 2);
    var last, end, trees := ArgsEnd(tokens, args, mid), End(tokens, Apply(args), head), ArgTrees(tokens, args, mid);
    RunTok(tokens, T.PAR_LEFT, open);
    ArgsParse(tokens, args, mid);
    RunTok(tokens, T.PAR_RIGHT, last);
    RunSeq2(tokens, Opt(Args()), Tok(T.PAR_RIGHT), mid, last, trees, Success(end, []));
    assert trees + [] == trees;
    RunThen(tokens, Tok(T.PAR_LEFT), Seq2(Opt(Args()), Tok(T.PAR_RIGHT)), open, mid, [], Success(end, trees));
    AfterNone(Success(end, trees));
  }

  /** A name with arguments in brackets is one call, of the name on all of them, that ends behind the bracket. */
  lemma {:induction false} CallParses(tokens: seq<T.Token>, args: seq<Syntax>, head: nat)
    requires Stands(tokens, Apply(args), 7, head)
    ensures EvalRule(tokens, FunCall, head) == Parsed(tokens, Apply(args), head)
    decreases args, 3, 0
  {
    hide Runs, EvalRule, Ended, Stands, At, Body, WriterOf, CallRest, ArgTrees, Leaf, TreeOf, Offset, End;
    ExpressionBody();
    StandsFirst(tokens, Apply(args), 7, head);
    FirstTokens(Apply(args));
    var open, end := At(tokens, head, 1), End(tokens, Apply(args), head);
    var leaf, trees := Leaf(tokens, IDENTIFIER, head), ArgTrees(tokens, args, At(tokens, head, 2));
    IdentifierParses(tokens, head);
    RunCall(tokens, Identifier, head);
    CallRestParses(tokens, args, head);
    RunThen(tokens, Call(Identifier), CallRest(), head, open, [leaf], Success(end, trees));
    CallTree(tokens, args, head);
    RunWriter(tokens, FunCall, Then(Call(Identifier), CallRest()), head, ONE, FUN_CALL, end, [leaf] + trees);
  }

  lemma CallTree(tokens: seq<T.Token>, args: seq<Syntax>, head: nat)
    requires Reader(tokens, head)
    ensures TreeOf(tokens, Apply(args), head) ==
              Tree(FUN_CALL, [Leaf(tokens, IDENTIFIER, head)] + ArgTrees(tokens, args, At(tokens, head, 2)),
                   Offset(tokens, head), Offset(tokens, End(tokens, Apply(args), head)))
  {
    hide At, Ended, Print;
  }

  // ---------- expressions ----------

  /** A name at the beginning of an expression that is no call is not followed by a bracket. */
  lemma {:induction false} NoCall(tokens: seq<T.Token>, x: Syntax, head: nat)
    requires Reader(tokens, head) && WellFormed(x) && Level(x) <= 6 && Lines(tokens, head, Print(x))
    requires tokens[End(tokens, x, head)] != T.PAR_LEFT && tokens[head] == T.IDENTIFIER
    ensures tokens[At(tokens, head, 1)] != T.PAR_LEFT
    decreases x
  {
    hide Ended, At, Lines, TreeOf;
    match x {
      case Name(more) =>
        NameLines(tokens, more, head);
      case Chain(first, links) =>
        LinesSplit(tokens, head, Print(first), PrintLinks(links));
        var next := End(tokens, first, head);
        LinesFirst(tokens, next, links.op, Print(links.operand) + PrintLinks(links.rest));
        NoCall(tokens, first, head);
      case _ =>
        StandsHere(tokens, x, head);
        FirstTokens(x);
    }
  }

  lemma StandsHere(tokens: seq<T.Token>, x: Syntax, head: nat)
    requires Reader(tokens, head) && Lines(tokens, head, Print(x))
    ensures tokens[head] == Print(x)[0]
  {
    hide Ended, At;
  }

  /** Whatever the whitespace and the comments, the tokens of an expression parse as its tree. */
  lemma {:induction false} ExpressionParses(tokens: seq<T.Token>, x: Syntax, head: nat)
    requires Stands(tokens, x, 7, head)
    ensures EvalRule(tokens, Expression, head) == Parsed(tokens, x, head)
    decreases x, 7, 0
  {
    hide Runs, EvalRule, Ended, Stands, Lines, At, Print, Body, WriterOf, WellFormed, Level, End;
    ExpressionBody();
    StandsFirst(tokens, x, 7, head);
    StandsLow(tokens, x, 7, head);
    OperandBegins(x);
    var r := Parsed(tokens, x, head);
    RunCall(tokens, FunCall, head);
    if x.Apply? {
      CallParses(tokens, x.args, head);
      RunFirst(tokens, Call(FunCall), Else(Call(Assignment), Fail), head, r);
    } else {
      NotCalled(tokens, x, head);
      CallFails(tokens, head);
      StandsLower(tokens, x, 7, head);
      Parses(tokens, x, 6, head);
      RunCall(tokens, Assignment, head);
      RunLast(tokens, Call(Assignment), head, r);
      RunSecond(tokens, Call(FunCall), Else(Call(Assignment), Fail), head, r);
    }
    RunRule(tokens, Expression, Alt2(Call(FunCall), Call(Assignment)), head, r);
  }

  lemma NotCalled(tokens: seq<T.Token>, x: Syntax, head: nat)
    requires Stands(tokens, x, 7, head) && !x.Apply?
    ensures Level(x) < 7
    ensures tokens[head] == T.IDENTIFIER ==> tokens[At(tokens, head, 1)] != T.PAR_LEFT
  {
    hide Ended, At, Lines;
    if tokens[head] == T.IDENTIFIER {
      NoCall(tokens, x, head);
    }
  }
}
