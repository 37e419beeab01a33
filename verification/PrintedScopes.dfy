/** Parsing the tokens of statements and scopes gives their trees. */
module PrintedScopes {
  import opened ParseTree
  import T = Tokens
  import opened Grammar
  import opened ParserMeaning
  import opened ParserRuns
  import opened Syntax
  import opened PrintedExpressions
  import opened ParserRecovery

  // ---------- names with types ----------

  lemma ClaimBody()
    ensures Body(TypeClaim) == Then(Call(Identifier), Then(Tok(T.COLON), Then(Call(Identifier), Empty)))
    ensures WriterOf(TypeClaim).Writeless?
    ensures Body(DclVariable) == Then(Tok(T.LET), Then(Call(TypeClaim), Empty))
    ensures WriterOf(DclVariable) == Writes(ONE, DCL_VARIABLE)
    ensures Body(StmReturn) == Then(Tok(T.RETURN), Then(Call(Expression), Empty))
    ensures WriterOf(StmReturn) == Writes(ONE, STM_RETURN)
  {
  }

  lemma ClaimLines(tokens: seq<T.Token>, head: nat)
    requires Reader(tokens, head) && Lines(tokens, head, PrintClaim())
    ensures tokens[head] == T.IDENTIFIER && tokens[At(tokens, head, 1)] == T.COLON
    ensures tokens[At(tokens, head, 2)] == T.IDENTIFIER
    ensures At(tokens, At(tokens, head, 1), 1) == At(tokens, head, 2)
    ensures At(tokens, At(tokens, head, 2), 1) == At(tokens, head, 3)
  {
    hide At, Ended, Lines;
    AtNone(tokens, head);
    LinesAt(tokens, head, PrintClaim(), 0);
    LinesAt(tokens, head, PrintClaim(), 1);
    LinesAt(tokens, head, PrintClaim(), 2);
    AtTwice(tokens, head, 1, 1);
    AtTwice(tokens, head, 2, 1);
  }

  lemma ClaimParses(tokens: seq<T.Token>, head: nat)
    requires Reader(tokens, head) && Lines(tokens, head, PrintClaim())
    ensures EvalRule(tokens, TypeClaim, head) == Success(At(tokens, head, 3), ClaimTrees(tokens, head))
  {
    hide Runs, EvalRule, Body, WriterOf, At, Ended, Lines, Leaf;
    ClaimBody();
    ClaimLines(tokens, head);
    var colon, typ, end := At(tokens, head, 1), At(tokens, head, 2), At(tokens, head, 3);
    var a, b := Leaf(tokens, IDENTIFIER, head), Leaf(tokens, IDENTIFIER, typ);
    IdentifierParses(tokens, head);
    IdentifierParses(tokens, typ);
    RunCallEnd(tokens, Identifier, typ, end, [b]);
    RunTokThen(tokens, T.COLON, Then(Call(Identifier), Empty), colon, Success(end, [b]));
    RunCallThen(tokens, Identifier, Then(Tok(T.COLON), Then(Call(Identifier), Empty)), head, colon, [a],
                Success(end, [b]));
    assert [a] + [b] == ClaimTrees(tokens, head);
    RunRule(tokens, TypeClaim, Body(TypeClaim), head, Success(end, [a] + [b]));
  }

  lemma ClaimFails(tokens: seq<T.Token>, head: nat)
    requires Reader(tokens, head) && tokens[head] != T.IDENTIFIER
    ensures EvalRule(tokens, TypeClaim, head) == Failure()
  {
    hide Runs, EvalRule, Body, WriterOf, Ended;
    ClaimBody();
    IdentifierParses(tokens, head);
    RunCall(tokens, Identifier, head);
    RunThenFails(tokens, Call(Identifier), Then(Tok(T.COLON), Then(Call(Identifier), Empty)), head, []);
    RunRule(tokens, TypeClaim, Body(TypeClaim), head, Failure());
  }

  // ---------- statements ----------

  lemma LetParses(tokens: seq<T.Token>, head: nat)
    requires Reader(tokens, head) && tokens[head] == T.LET && Lines(tokens, At(tokens, head, 1), PrintClaim())
    ensures EvalRule(tokens, DclVariable, head) ==
              Success(At(tokens, head, 4),
                      [Over(tokens, DCL_VARIABLE, ClaimTrees(tokens, At(tokens, head, 1)), head, 4)])
  {
    hide Runs, EvalRule, Body, WriterOf, At, Ended, Lines, ClaimTrees, Offset;
    ClaimBody();
    var mid, end := At(tokens, head, 1), At(tokens, head, 4);
    var trees := ClaimTrees(tokens, mid);
    AtTwice(tokens, head, 1, 3);
    ClaimParses(tokens, mid);
    RunCallEnd(tokens, TypeClaim, mid, end, trees);
    RunTokThen(tokens, T.LET, Then(Call(TypeClaim), Empty), head, Success(end, trees));
    RunWriter(tokens, DclVariable, Body(DclVariable), head, ONE, DCL_VARIABLE, end, trees);
  }

  lemma ReturnParses(tokens: seq<T.Token>, e: Syntax, head: nat)
    requires Reader(tokens, head) && tokens[head] == T.RETURN && Stands(tokens, e, 7, At(tokens, head, 1))
    ensures EvalRule(tokens, StmReturn, head) ==
              Success(At(tokens, head, 1 + |Print(e)|),
                      [Over(tokens, STM_RETURN, [TreeOf(tokens, e, At(tokens, head, 1))], head, 1 + |Print(e)|)])
  {
    hide Runs, EvalRule, Body, WriterOf, At, Ended, Stands, TreeOf, Offset, Print;
    ClaimBody();
    var mid, end := At(tokens, head, 1), At(tokens, head, 1 + |Print(e)|);
    var tree := TreeOf(tokens, e, mid);
    AtTwice(tokens, head, 1, |Print(e)|);
    ExpressionParses(tokens, e, mid);
    RunCallEnd(tokens, Expression, mid, end, [tree]);
    RunTokThen(tokens, T.RETURN, Then(Call(Expression), Empty), head, Success(end, [tree]));
    RunWriter(tokens, StmReturn, Body(StmReturn), head, ONE, STM_RETURN, end, [tree]);
  }

  /** What a scope is made of, before it is closed by a semicolon. */
  function Statements(): Parser { Else(Call(DclVariable), NoLet()) }

  function NoLet(): Parser { Else(Call(StmReturn), NoReturn()) }

  function NoReturn(): Parser { Else(Call(Expression), Else(Empty, Fail)) }

  lemma ElementBody()
    ensures Body(RawScopeElem) == Then(Statements(), Then(Tok(T.SEMI_COLON), Empty))
            && WriterOf(RawScopeElem).Writeless?
  {
  }

  lemma LetFails(tokens: seq<T.Token>, head: nat)
    requires Reader(tokens, head) && tokens[head] != T.LET
    ensures EvalRule(tokens, DclVariable, head) == Failure()
  {
    hide EvalRule, Body, WriterOf, Ended;
    ClaimBody();
    WriterNeeds(tokens, DclVariable, T.LET, Then(Call(TypeClaim), Empty), head);
  }

  lemma ReturnFails(tokens: seq<T.Token>, head: nat)
    requires Reader(tokens, head) && tokens[head] != T.RETURN
    ensures EvalRule(tokens, StmReturn, head) == Failure()
  {
    hide EvalRule, Body, WriterOf, Ended;
    ClaimBody();
    WriterNeeds(tokens, StmReturn, T.RETURN, Then(Call(Expression), Empty), head);
  }

  /** Which alternative is taken follows from the first token. */
  lemma StatementsRun(tokens: seq<T.Token>, head: nat, r: Result)
    requires Reader(tokens, head)
    requires r == if tokens[head] == T.LET then EvalRule(tokens, DclVariable, head)
                  else if tokens[head] == T.RETURN then EvalRule(tokens, StmReturn, head)
                  else if BeginsExpression(tokens[head]) then EvalRule(tokens, Expression, head) else Success(head, [])
    requires r.next.Some?
    ensures Runs(tokens, Statements(), head, r)
  {
    hide Runs, EvalRule, Ended, BeginsExpression;
    FirstDecides();
    RunCall(tokens, DclVariable, head);
    RunCall(tokens, StmReturn, head);
    RunCall(tokens, Expression, head);
    if tokens[head] == T.LET {
      RunFirst(tokens, Call(DclVariable), NoLet(), head, r);
    } else {
      LetFails(tokens, head);
      if tokens[head] == T.RETURN {
        RunFirst(tokens, Call(StmReturn), NoReturn(), head, r);
      } else {
        ReturnFails(tokens, head);
        if BeginsExpression(tokens[head]) {
          RunFirst(tokens, Call(Expression), Else(Empty, Fail), head, r);
        } else {
          ExpressionFails(tokens, head);
          RunEmpty(tokens, head);
          RunLast(tokens, Empty, head, r);
          RunSecond(tokens, Call(Expression), Else(Empty, Fail), head, r);
        }
        RunSecond(tokens, Call(StmReturn), NoReturn(), head, r);
      }
      RunSecond(tokens, Call(DclVariable), NoLet(), head, r);
    }
  }

  lemma FirstDecides()
    ensures !BeginsExpression(T.LET) && !BeginsExpression(T.RETURN)
  {
  }

  lemma {:induction false} ExpressionBegins(x: Syntax)
    requires WellFormed(x)
    ensures BeginsExpression(Print(x)[0])
    decreases x
  {
    if x.Chain? {
      ExpressionBegins(x.first);
    }
  }

  /** A statement other than a scope: what stands before its semicolon. */
  lemma StatementStands(tokens: seq<T.Token>, s: Statement, head: nat) returns (mid: nat)
    requires Reader(tokens, head) && StatementFits(s) && !s.Block? && Lines(tokens, head, PrintStatement(s))
    ensures Reader(tokens, mid) && tokens[mid] == T.SEMI_COLON
    ensures At(tokens, mid, 1) == At(tokens, head, |PrintStatement(s)|)
    ensures Runs(tokens, Statements(), head, Success(mid, StatementTrees(tokens, s, head)))
  {
    hide Runs, EvalRule, At, Ended, Lines, Statements, Print, PrintClaim, TreeOf, ClaimTrees, WellFormed,
         BeginsExpression, Strength;
    match s {
      case Let => mid := LetStands(tokens, head);
      case Return(e) => mid := ReturnStands(tokens, e, head);
      case Evaluate(e) => mid := EvaluateStands(tokens, e, head);
      case Nothing => mid := NothingStands(tokens, head);
    }
  }

  lemma LetStands(tokens: seq<T.Token>, head: nat) returns (mid: nat)
    requires Reader(tokens, head) && Lines(tokens, head, PrintStatement(Let))
    ensures Reader(tokens, mid) && tokens[mid] == T.SEMI_COLON
    ensures At(tokens, mid, 1) == At(tokens, head, |PrintStatement(Let)|)
    ensures Runs(tokens, Statements(), head, Success(mid, StatementTrees(tokens, Let, head)))
  {
    hide Runs, EvalRule, At, Ended, Lines, Statements, ClaimTrees;
    BetweenLines(tokens, head, T.LET, PrintClaim(), T.SEMI_COLON);
    mid := At(tokens, head, 4);
    AtTwice(tokens, head, 1, 3);
    LetParses(tokens, head);
    StatementsRun(tokens, head, EvalRule(tokens, DclVariable, head));
  }

  lemma ReturnStands(tokens: seq<T.Token>, e: Syntax, head: nat) returns (mid: nat)
    requires Reader(tokens, head) && WellFormed(e) && Lines(tokens, head, PrintStatement(Return(e)))
    ensures Reader(tokens, mid) && tokens[mid] == T.SEMI_COLON
    ensures At(tokens, mid, 1) == At(tokens, head, |PrintStatement(Return(e))|)
    ensures Runs(tokens, Statements(), head, Success(mid, StatementTrees(tokens, Return(e), head)))
  {
    hide Runs, EvalRule, At, Ended, Lines, Statements, TreeOf, Print, WellFormed, Level, Strength;
    BetweenLines(tokens, head, T.RETURN, Print(e), T.SEMI_COLON);
    mid := At(tokens, head, 1 + |Print(e)|);
    AtTwice(tokens, head, 1, |Print(e)|);
    LevelIsLow(e);
    ClosesBind();
    ReturnParses(tokens, e, head);
    StatementsRun(tokens, head, EvalRule(tokens, StmReturn, head));
  }

  lemma ClosesBind()
    ensures Strength(T.SEMI_COLON) == 8
  {
  }

  lemma EvaluateStands(tokens: seq<T.Token>, e: Syntax, head: nat) returns (mid: nat)
    requires Reader(tokens, head) && WellFormed(e) && Lines(tokens, head, PrintStatement(Evaluate(e)))
    ensures Reader(tokens, mid) && tokens[mid] == T.SEMI_COLON
    ensures At(tokens, mid, 1) == At(tokens, head, |PrintStatement(Evaluate(e))|)
    ensures Runs(tokens, Statements(), head, Success(mid, StatementTrees(tokens, Evaluate(e), head)))
  {
    hide Runs, EvalRule, At, Ended, Lines, Statements, TreeOf, Print, WellFormed, Level, Strength, BeginsExpression;
    LinesSplit(tokens, head, Print(e), [T.SEMI_COLON]);
    mid := At(tokens, head, |Print(e)|);
    OneLine(tokens, mid, T.SEMI_COLON);
    LevelIsLow(e);
    ClosesBind();
    StandsHere(tokens, e, head);
    ExpressionBegins(e);
    FirstDecides();
    ExpressionParses(tokens, e, head);
    StatementsRun(tokens, head, EvalRule(tokens, Expression, head));
  }

  lemma NothingStands(tokens: seq<T.Token>, head: nat) returns (mid: nat)
    requires Reader(tokens, head) && Lines(tokens, head, PrintStatement(Nothing))
    ensures Reader(tokens, mid) && tokens[mid] == T.SEMI_COLON
    ensures At(tokens, mid, 1) == At(tokens, head, |PrintStatement(Nothing)|)
    ensures Runs(tokens, Statements(), head, Success(mid, StatementTrees(tokens, Nothing, head)))
  {
    hide Runs, At, Ended, Lines, Statements;
    OneLine(tokens, head, T.SEMI_COLON);
    mid := head;
    StatementsRun(tokens, head, Success(head, []));
  }

  // ---------- elements of a scope ----------

  lemma RecoveredBody()
    ensures Body(RcvScopeElem) == Alt2(Call(RawScopeElem), Call(SkpScopeElem)) && WriterOf(RcvScopeElem).Writeless?
  {
  }

  lemma ElementParses(tokens: seq<T.Token>, s: Statement, head: nat)
    requires Reader(tokens, head) && StatementFits(s) && !s.Block? && Lines(tokens, head, PrintStatement(s))
    ensures EvalRule(tokens, RcvScopeElem, head) ==
              Success(At(tokens, head, |PrintStatement(s)|), StatementTrees(tokens, s, head))
  {
    hide Runs, EvalRule, At, Ended, Lines, Statements, StatementTrees, PrintStatement, Body, WriterOf, StatementFits;
    ElementBody();
    RecoveredBody();
    var mid := StatementStands(tokens, s, head);
    var end, trees := At(tokens, mid, 1), StatementTrees(tokens, s, head);
    RunTokEnd(tokens, T.SEMI_COLON, mid);
    RunThen(tokens, Statements(), Then(Tok(T.SEMI_COLON), Empty), head, mid, trees, Success(end, []));
    assert trees + [] == trees;
    RunRule(tokens, RawScopeElem, Body(RawScopeElem), head, Success(end, trees));
    RunCall(tokens, RawScopeElem, head);
    RunFirst(tokens, Call(RawScopeElem), Else(Call(SkpScopeElem), Fail), head, Success(end, trees));
    RunRule(tokens, RcvScopeElem, Body(RcvScopeElem), head, Success(end, trees));
  }

  /** Recovery does not go past a brace. */
  lemma ElementFails(tokens: seq<T.Token>, head: nat)
    requires Reader(tokens, head) && (tokens[head] == T.BRA_LEFT || tokens[head] == T.BRA_RIGHT)
    ensures EvalRule(tokens, RcvScopeElem, head) == Failure()
  {
    hide Runs, EvalRule, Ended, Statements, Body, WriterOf;
    ElementBody();
    RecoveredBody();
    StatementsRun(tokens, head, Success(head, []));
    RunTokFails(tokens, T.SEMI_COLON, Empty, head);
    RunThen(tokens, Statements(), Then(Tok(T.SEMI_COLON), Empty), head, head, [], Failure());
    AfterNone(Failure());
    RunRule(tokens, RawScopeElem, Body(RawScopeElem), head, Failure());
    RecoveryStops(tokens, SkpScopeElem, head);
    RunCall(tokens, RawScopeElem, head);
    RunCall(tokens, SkpScopeElem, head);
    RunLast(tokens, Call(SkpScopeElem), head, Failure());
    RunSecond(tokens, Call(RawScopeElem), Else(Call(SkpScopeElem), Fail), head, Failure());
    RunRule(tokens, RcvScopeElem, Body(RcvScopeElem), head, Failure());
  }

  // ---------- scopes ----------

  function ScopeTurn(): Parser { Alt2(Call(RcvScopeElem), Call(RawScope)) }

  function ScopeRest(): Parser { Then(Rep(ScopeTurn()), Then(Tok(T.BRA_RIGHT), Empty)) }

  lemma ScopeBody()
    ensures Body(RawScope) == Then(Tok(T.BRA_LEFT), ScopeRest()) && WriterOf(RawScope) == Writes(ONE, SCOPE)
  {
  }

  lemma ScopeFails(tokens: seq<T.Token>, head: nat)
    requires Reader(tokens, head) && tokens[head] != T.BRA_LEFT
    ensures EvalRule(tokens, RawScope, head) == Failure()
  {
    hide EvalRule, Body, WriterOf, Ended, ScopeRest;
    ScopeBody();
    WriterNeeds(tokens, RawScope, T.BRA_LEFT, ScopeRest(), head);
  }

  lemma BlockPrints(body: seq<Statement>)
    ensures PrintStatement(Block(body)) == [T.BRA_LEFT] + (PrintAll(body) + [T.BRA_RIGHT])
    ensures StatementFits(Block(body)) <==> AllFit(body)
  {
    hide Print;
  }

  lemma {:induction false} TurnParses(tokens: seq<T.Token>, s: Statement, head: nat)
    requires Reader(tokens, head) && StatementFits(s) && Lines(tokens, head, PrintStatement(s))
    ensures !IsEoi(tokens, head)
    ensures Runs(tokens, ScopeTurn(), head,
                 Success(At(tokens, head, |PrintStatement(s)|), StatementTrees(tokens, s, head)))
    decreases s, 1
  {
    hide Runs, EvalRule, At, Ended, Lines, StatementTrees, PrintStatement, Body, WriterOf, StatementFits;
    FirstStands(tokens, s, head);
    var r := Success(At(tokens, head, |PrintStatement(s)|), StatementTrees(tokens, s, head));
    RunCall(tokens, RcvScopeElem, head);
    if s.Block? {
      ScopeParses(tokens, s.body, head);
      ElementFails(tokens, head);
      RunCall(tokens, RawScope, head);
      RunLast(tokens, Call(RawScope), head, r);
      RunSecond(tokens, Call(RcvScopeElem), Else(Call(RawScope), Fail), head, r);
    } else {
      ElementParses(tokens, s, head);
      RunFirst(tokens, Call(RcvScopeElem), Else(Call(RawScope), Fail), head, r);
    }
  }

  lemma FirstStands(tokens: seq<T.Token>, s: Statement, head: nat)
    requires Reader(tokens, head) && Lines(tokens, head, PrintStatement(s))
    ensures !IsEoi(tokens, head) && (s.Block? ==> tokens[head] == T.BRA_LEFT)
  {
    hide At, Ended, Lines, Print;
    LinesStep(tokens, head, PrintStatement(s));
  }

  lemma AllPrints(ss: seq<Statement>)
    requires ss != []
    ensures PrintAll(ss) == PrintStatement(ss[0]) + PrintAll(ss[1..])
    ensures AllFit(ss) <==> StatementFits(ss[0]) && AllFit(ss[1..])
  {
    hide PrintStatement, StatementFits;
  }

  lemma {:induction false} AllParse(tokens: seq<T.Token>, ss: seq<Statement>, head: nat)
    requires Reader(tokens, head) && AllFit(ss) && Lines(tokens, head, PrintAll(ss))
    requires tokens[At(tokens, head, |PrintAll(ss)|)] == T.BRA_RIGHT
    ensures Runs(tokens, Rep(ScopeTurn()), head, Success(At(tokens, head, |PrintAll(ss)|), AllTrees(tokens, ss, head)))
    decreases ss, 0
  {
    hide Runs, EvalRule, At, Ended, Lines, StatementTrees, PrintStatement, StatementFits, AllFit, ScopeTurn;
    if ss == [] {
      AtNone(tokens, head);
      TurnFails(tokens, head);
      RunRepEnd(tokens, ScopeTurn(), head);
    } else {
      AllPrints(ss);
      LinesSplit(tokens, head, PrintStatement(ss[0]), PrintAll(ss[1..]));
      var next := At(tokens, head, |PrintStatement(ss[0])|);
      TurnParses(tokens, ss[0], head);
      AllParse(tokens, ss[1..], next);
      RunRepTurn(tokens, ScopeTurn(), head, next, StatementTrees(tokens, ss[0], head),
                 Success(At(tokens, head, |PrintAll(ss)|), AllTrees(tokens, ss[1..], next)));
    }
  }

  lemma TurnFails(tokens: seq<T.Token>, head: nat)
    requires Reader(tokens, head) && tokens[head] == T.BRA_RIGHT
    ensures Runs(tokens, ScopeTurn(), head, Failure())
  {
    hide Runs, EvalRule, Ended;
    ElementFails(tokens, head);
    ScopeFails(tokens, head);
    RunCall(tokens, RcvScopeElem, head);
    RunCall(tokens, RawScope, head);
    RunLast(tokens, Call(RawScope), head, Failure());
    RunSecond(tokens, Call(RcvScopeElem), Else(Call(RawScope), Fail), head, Failure());
  }

  /** Statements between braces parse as one scope with the tree of each of them, in order. */
  lemma {:induction false} ScopeParses(tokens: seq<T.Token>, body: seq<Statement>, head: nat)
    requires Reader(tokens, head) && StatementFits(Block(body)) && Lines(tokens, head, PrintStatement(Block(body)))
    ensures EvalRule(tokens, RawScope, head) ==
              Success(At(tokens, head, |PrintStatement(Block(body))|), StatementTrees(tokens, Block(body), head))
    decreases body, 1
  {
    hide Runs, EvalRule, At, Ended, Lines, PrintStatement, StatementFits, ScopeTurn, PrintAll, AllTrees, Body, WriterOf;
    ScopeBody();
    BlockPrints(body);
    BetweenLines(tokens, head, T.BRA_LEFT, PrintAll(body), T.BRA_RIGHT);
    var mid := At(tokens, head, 1);
    var last, end := At(tokens, mid, |PrintAll(body)|), At(tokens, head, |PrintAll(body)| + 2);
    var trees := AllTrees(tokens, body, mid);
    AllParse(tokens, body, mid);
    RunTokEnd(tokens, T.BRA_RIGHT, last);
    RunThen(tokens, Rep(ScopeTurn()), Then(Tok(T.BRA_RIGHT), Empty), mid, last, trees, Success(end, []));
    assert trees + [] == trees;
    RunTokThen(tokens, T.BRA_LEFT, ScopeRest(), head, Success(end, trees));
    RunWriter(tokens, RawScope, Body(RawScope), head, ONE, SCOPE, end, trees);
  }

  // ---------- the scope of a function ----------

  lemma FunctionScopeBodies() returns (stops: set<T.Token>)
    ensures Body(Scope) == Call(RcvScope) && WriterOf(Scope) == Writes(VARIADIC, SCOPE)
    ensures Body(RcvScope) == Else(Call(RawScope), Else(Call(SkpScope), Fail)) && WriterOf(RcvScope).Writeless?
    ensures Body(SkpScope) == Skp(stops) && WriterOf(SkpScope).Writeless?
    ensures stops == {T.FUNC, T.CLASS, T.MODULE, T.EXPORT, T.IMPORT}
  {
    stops := {T.FUNC, T.CLASS, T.MODULE, T.EXPORT, T.IMPORT};
  }

  /** The scope of a function stays as it is. */
  lemma FunctionScopeParses(tokens: seq<T.Token>, body: seq<Statement>, head: nat)
    requires Reader(tokens, head) && StatementFits(Block(body)) && Lines(tokens, head, PrintStatement(Block(body)))
    ensures EvalRule(tokens, Scope, head) ==
              Success(At(tokens, head, |PrintStatement(Block(body))|), StatementTrees(tokens, Block(body), head))
  {
    hide Runs, EvalRule, At, Ended, Lines, PrintStatement, StatementFits, AllTrees, Body, WriterOf;
    var stops := FunctionScopeBodies();
    ScopeParses(tokens, body, head);
    var end, trees := At(tokens, head, |PrintStatement(Block(body))|), StatementTrees(tokens, Block(body), head);
    RunCall(tokens, RawScope, head);
    RunFirst(tokens, Call(RawScope), Else(Call(SkpScope), Fail), head, Success(end, trees));
    RunRule(tokens, RcvScope, Body(RcvScope), head, Success(end, trees));
    RunCall(tokens, RcvScope, head);
    RunVariadic(tokens, Scope, Call(RcvScope), head, SCOPE, end, trees, trees[0]);
  }
}
