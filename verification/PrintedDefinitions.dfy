/** Parsing the tokens of functions and classes gives their trees. */
module PrintedDefinitions {
  import opened ParseTree
  import T = Tokens
  import opened Grammar
  import opened ParserMeaning
  import opened ParserRuns
  import opened Syntax
  import opened PrintedExpressions
  import opened PrintedScopes

  // ---------- arguments ----------

  function MoreClaims(): Parser { Then(Tok(T.COMMA), Then(Call(TypeClaim), Empty)) }

  function Claims(): Parser { Then(Call(TypeClaim), Then(Rep(MoreClaims()), Empty)) }

  lemma ArgumentsBody()
    ensures Body(FunArguments) == Then(Tok(T.PAR_LEFT), Then(Opt(Claims()), Then(Tok(T.PAR_RIGHT), Empty)))
    ensures WriterOf(FunArguments) == Writes(ONE, FUN_ARGUMENTS)
  {
  }

  lemma MoreClaimStands(tokens: seq<T.Token>, n: nat, head: nat)
    requires Reader(tokens, head) && Lines(tokens, head, PrintMoreClaims(n))
    ensures n == 0 ==> At(tokens, head, |PrintMoreClaims(n)|) == head && MoreClaimsTrees(tokens, n, head) == []
    ensures n > 0 ==>
              && tokens[head] == T.COMMA && !IsEoi(tokens, head) && Lines(tokens, At(tokens, head, 1), PrintClaim())
              && At(tokens, At(tokens, head, 1), 3) == At(tokens, head, 4)
              && Lines(tokens, At(tokens, head, 4), PrintMoreClaims(n - 1))
              && At(tokens, At(tokens, head, 4), |PrintMoreClaims(n - 1)|) == At(tokens, head, |PrintMoreClaims(n)|)
  {
    hide At, Ended, Lines, ClaimTrees;
    AtNone(tokens, head);
    if n > 0 {
      var rest := PrintMoreClaims(n - 1);
      LinesFirst(tokens, head, T.COMMA, PrintClaim() + rest);
      LinesSplit(tokens, At(tokens, head, 1), PrintClaim(), rest);
      AtTwice(tokens, head, 1, 3);
      AtTwice(tokens, head, 4, |rest|);
    }
  }

  lemma {:induction false} MoreClaimsParse(tokens: seq<T.Token>, n: nat, head: nat)
    requires Reader(tokens, head) && Lines(tokens, head, PrintMoreClaims(n))
    requires tokens[At(tokens, head, |PrintMoreClaims(n)|)] == T.PAR_RIGHT
    ensures Runs(tokens, Rep(MoreClaims()), head,
                 Success(At(tokens, head, |PrintMoreClaims(n)|), MoreClaimsTrees(tokens, n, head)))
    decreases n
  {
    hide Runs, EvalRule, At, Ended, Lines, ClaimTrees, PrintMoreClaims;
    MoreClaimStands(tokens, n, head);
    if n == 0 {
      RunTokFails(tokens, T.COMMA, Then(Call(TypeClaim), Empty), head);
      RunRepEnd(tokens, MoreClaims(), head);
    } else {
      var mid, next := At(tokens, head, 1), At(tokens, head, 4);
      ClaimParses(tokens, mid);
      RunCallEnd(tokens, TypeClaim, mid, next, ClaimTrees(tokens, mid));
      RunTokThen(tokens, T.COMMA, Then(Call(TypeClaim), Empty), head, Success(next, ClaimTrees(tokens, mid)));
      MoreClaimsParse(tokens, n - 1, next);
      RunRepTurn(tokens, MoreClaims(), head, next, ClaimTrees(tokens, mid),
                 Success(At(tokens, head, |PrintMoreClaims(n)|), MoreClaimsTrees(tokens, n - 1, next)));
    }
  }

  lemma ClaimsParse(tokens: seq<T.Token>, n: nat, head: nat)
    requires Reader(tokens, head) && Lines(tokens, head, PrintClaims(n))
    requires tokens[At(tokens, head, |PrintClaims(n)|)] == T.PAR_RIGHT
    ensures Runs(tokens, Opt(Claims()), head, Success(At(tokens, head, |PrintClaims(n)|), ClaimsTrees(tokens, n, head)))
  {
    hide Runs, EvalRule, At, Ended, Lines, ClaimTrees, MoreClaims, PrintMoreClaims, MoreClaimsTrees;
    if n == 0 {
      AtNone(tokens, head);
      ClaimFails(tokens, head);
      RunCall(tokens, TypeClaim, head);
      RunThenFails(tokens, Call(TypeClaim), Then(Rep(MoreClaims()), Empty), head, []);
      RunOpt(tokens, Claims(), head, Failure());
    } else {
      var next, rest := At(tokens, head, 3), PrintMoreClaims(n - 1);
      LinesSplit(tokens, head, PrintClaim(), rest);
      var end, trees := At(tokens, next, |rest|), MoreClaimsTrees(tokens, n - 1, next);
      ClaimParses(tokens, head);
      MoreClaimsParse(tokens, n - 1, next);
      RunEmpty(tokens, end);
      RunThen(tokens, Rep(MoreClaims()), Empty, next, end, trees, Success(end, []));
      assert trees + [] == trees;
      RunCallThen(tokens, TypeClaim, Then(Rep(MoreClaims()), Empty), head, next, ClaimTrees(tokens, head),
                  Success(end, trees));
      RunOpt(tokens, Claims(), head, Success(end, ClaimTrees(tokens, head) + trees));
    }
  }

  lemma ArgumentsParse(tokens: seq<T.Token>, n: nat, head: nat)
    requires Reader(tokens, head) && Lines(tokens, head, PrintArguments(n))
    ensures EvalRule(tokens, FunArguments, head) ==
              Success(At(tokens, head, |PrintArguments(n)|), [ArgumentsTree(tokens, n, head)])
  {
    hide Runs, EvalRule, At, Ended, Lines, PrintClaims, ClaimsTrees, Body, WriterOf, Claims, Offset;
    ArgumentsBody();
    BetweenLines(tokens, head, T.PAR_LEFT, PrintClaims(n), T.PAR_RIGHT);
    var mid := At(tokens, head, 1);
    var last, end := At(tokens, mid, |PrintClaims(n)|), At(tokens, head, |PrintArguments(n)|);
    var trees := ClaimsTrees(tokens, n, mid);
    ClaimsParse(tokens, n, mid);
    RunTokEnd(tokens, T.PAR_RIGHT, last);
    RunThen(tokens, Opt(Claims()), Then(Tok(T.PAR_RIGHT), Empty), mid, last, trees, Success(end, []));
    assert trees + [] == trees;
    RunTokThen(tokens, T.PAR_LEFT, Then(Opt(Claims()), Then(Tok(T.PAR_RIGHT), Empty)), head, Success(end, trees));
    RunWriter(tokens, FunArguments, Body(FunArguments), head, ONE, FUN_ARGUMENTS, end, trees);
  }

  // ---------- functions ----------

  function Result(): Parser { Then(Tok(T.MINUS_KET_RIGHT), Then(Call(Identifier), Empty)) }

  function Ending(): Parser { Then(Else(Call(Scope), Else(Tok(T.SEMI_COLON), Fail)), Empty) }

  function Signature(): Parser { Then(Call(FunArguments), Then(Opt(Result()), Ending())) }

  lemma FunctionBody()
    ensures Body(RawFunction) == Then(Tok(T.FUNC), Then(Call(Identifier), Signature()))
    ensures WriterOf(RawFunction) == Writes(ONE, DEF_FUNCTION)
  {
  }

  lemma ResultParses(tokens: seq<T.Token>, typed: bool, head: nat)
    requires Reader(tokens, head) && Lines(tokens, head, PrintResult(typed))
    requires tokens[At(tokens, head, |PrintResult(typed)|)] != T.MINUS_KET_RIGHT
    ensures Runs(tokens, Opt(Result()), head,
                 Success(At(tokens, head, |PrintResult(typed)|), ResultTrees(tokens, typed, head)))
  {
    hide Runs, EvalRule, At, Ended, Lines, Leaf;
    if typed {
      var name, end := At(tokens, head, 1), At(tokens, head, 2);
      LinesFirst(tokens, head, T.MINUS_KET_RIGHT, [T.IDENTIFIER]);
      OneLine(tokens, name, T.IDENTIFIER);
      AtTwice(tokens, head, 1, 1);
      var leaf := Leaf(tokens, IDENTIFIER, name);
      IdentifierParses(tokens, name);
      RunCallEnd(tokens, Identifier, name, end, [leaf]);
      RunTokThen(tokens, T.MINUS_KET_RIGHT, Then(Call(Identifier), Empty), head, Success(end, [leaf]));
      RunOpt(tokens, Result(), head, Success(end, [leaf]));
    } else {
      AtNone(tokens, head);
      RunTokFails(tokens, T.MINUS_KET_RIGHT, Then(Call(Identifier), Empty), head);
      RunOpt(tokens, Result(), head, Failure());
    }
  }

  lemma EndingParses(tokens: seq<T.Token>, body: seq<Statement>, head: nat)
    requires Reader(tokens, head) && StatementFits(Block(body)) && Lines(tokens, head, PrintStatement(Block(body)))
    ensures Runs(tokens, Ending(), head,
                 Success(At(tokens, head, |PrintStatement(Block(body))|), StatementTrees(tokens, Block(body), head)))
  {
    hide Runs, EvalRule, At, Ended, Lines, StatementTrees, PrintStatement, StatementFits;
    var end, trees := At(tokens, head, |PrintStatement(Block(body))|), StatementTrees(tokens, Block(body), head);
    FunctionScopeParses(tokens, body, head);
    RunCall(tokens, Scope, head);
    RunFirst(tokens, Call(Scope), Else(Tok(T.SEMI_COLON), Fail), head, Success(end, trees));
    RunEmpty(tokens, end);
    RunThen(tokens, Else(Call(Scope), Else(Tok(T.SEMI_COLON), Fail)), Empty, head, end, trees, Success(end, []));
    assert trees + [] == trees;
  }

  /** What follows the name of a function, up to what ends it. */
  lemma SignatureRuns(tokens: seq<T.Token>, n: nat, typed: bool, rest: seq<T.Token>, head: nat, end: nat,
                      trees: seq<Tree>)
    requires Reader(tokens, head) && Lines(tokens, head, PrintArguments(n) + (PrintResult(typed) + rest))
    requires rest != [] && rest[0] != T.MINUS_KET_RIGHT
    requires Runs(tokens, Ending(), At(tokens, At(tokens, head, |PrintArguments(n)|), |PrintResult(typed)|),
                  Success(end, trees))
    ensures var result := At(tokens, head, |PrintArguments(n)|);
            Runs(tokens, Signature(), head,
                 Success(end, [ArgumentsTree(tokens, n, head)] + (ResultTrees(tokens, typed, result) + trees)))
  {
    hide Runs, EvalRule, At, Ended, Lines, PrintArguments, PrintResult, ResultTrees, ArgumentsTree, Result, Ending;
    LinesSplit(tokens, head, PrintArguments(n), PrintResult(typed) + rest);
    var result := At(tokens, head, |PrintArguments(n)|);
    LinesSplit(tokens, result, PrintResult(typed), rest);
    var scope := At(tokens, result, |PrintResult(typed)|);
    LinesStep(tokens, scope, rest);
    var a, b := ArgumentsTree(tokens, n, head), ResultTrees(tokens, typed, result);
    ArgumentsParse(tokens, n, head);
    ResultParses(tokens, typed, result);
    RunThen(tokens, Opt(Result()), Ending(), result, scope, b, Success(end, trees));
    RunCallThen(tokens, FunArguments, Then(Opt(Result()), Ending()), head, result, [a], Success(end, b + trees));
  }

  /** Where what ends a function stands. */
  lemma SignatureStands(tokens: seq<T.Token>, n: nat, typed: bool, rest: seq<T.Token>, head: nat)
    requires Reader(tokens, head) && Lines(tokens, head, PrintArguments(n) + (PrintResult(typed) + rest))
    ensures var scope := At(tokens, At(tokens, head, |PrintArguments(n)|), |PrintResult(typed)|);
            && Lines(tokens, scope, rest)
            && At(tokens, scope, |rest|) == At(tokens, head, |PrintArguments(n) + (PrintResult(typed) + rest)|)
  {
    hide At, Ended, Lines, PrintArguments, PrintResult;
    LinesSplit(tokens, head, PrintArguments(n), PrintResult(typed) + rest);
    LinesSplit(tokens, At(tokens, head, |PrintArguments(n)|), PrintResult(typed), rest);
  }

  lemma SignatureParses(tokens: seq<T.Token>, n: nat, typed: bool, body: seq<Statement>, head: nat)
    requires Reader(tokens, head) && AllFit(body)
    requires Lines(tokens, head, PrintArguments(n) + (PrintResult(typed) + PrintStatement(Block(body))))
    ensures var result := At(tokens, head, |PrintArguments(n)|);
            var scope := At(tokens, result, |PrintResult(typed)|);
            Runs(tokens, Signature(), head,
                 Success(At(tokens, head, |PrintArguments(n) + (PrintResult(typed) + PrintStatement(Block(body)))|),
                         [ArgumentsTree(tokens, n, head)]
                         + (ResultTrees(tokens, typed, result) + StatementTrees(tokens, Block(body), scope))))
  {
    hide Runs, At, Ended, Lines, StatementTrees, PrintStatement, AllFit, StatementFits, PrintArguments, PrintResult,
         ResultTrees, ArgumentsTree, Ending, Signature;
    BlockPrints(body);
    var rest := PrintStatement(Block(body));
    SignatureStands(tokens, n, typed, rest, head);
    var scope := At(tokens, At(tokens, head, |PrintArguments(n)|), |PrintResult(typed)|);
    EndingParses(tokens, body, scope);
    SignatureRuns(tokens, n, typed, rest, head, At(tokens, scope, |rest|), StatementTrees(tokens, Block(body), scope));
  }

  /** The front of a definition: its keyword and its name. */
  lemma FrontStands(tokens: seq<T.Token>, key: T.Token, rest: seq<T.Token>, head: nat)
    requires Reader(tokens, head) && Lines(tokens, head, [key] + ([T.IDENTIFIER] + rest))
    ensures tokens[head] == key && tokens[At(tokens, head, 1)] == T.IDENTIFIER
    ensures At(tokens, At(tokens, head, 1), 1) == At(tokens, head, 2) && Lines(tokens, At(tokens, head, 2), rest)
    ensures At(tokens, head, 2 + |rest|) == At(tokens, At(tokens, head, 2), |rest|)
  {
    hide At, Ended, Lines;
    LinesFirst(tokens, head, key, [T.IDENTIFIER] + rest);
    LinesFirst(tokens, At(tokens, head, 1), T.IDENTIFIER, rest);
    AtTwice(tokens, head, 1, 1);
    AtTwice(tokens, head, 2, |rest|);
  }

  /** A keyword and a name, and the trees behind them. */
  lemma FrontParses(tokens: seq<T.Token>, key: T.Token, p: Parser, head: nat, end: nat, trees: seq<Tree>)
    requires Reader(tokens, head) && tokens[head] == key && tokens[At(tokens, head, 1)] == T.IDENTIFIER
    requires key != T.END_OF_INPUT && At(tokens, At(tokens, head, 1), 1) == At(tokens, head, 2)
    requires Runs(tokens, p, At(tokens, head, 2), Success(end, trees))
    ensures Runs(tokens, Then(Tok(key), Then(Call(Identifier), p)), head,
                 Success(end, [Leaf(tokens, IDENTIFIER, At(tokens, head, 1))] + trees))
  {
    hide Runs, EvalRule, At, Ended, Leaf;
    var name := At(tokens, head, 1);
    var leaf := Leaf(tokens, IDENTIFIER, name);
    IdentifierParses(tokens, name);
    RunCallThen(tokens, Identifier, p, name, At(tokens, head, 2), [leaf], Success(end, trees));
    RunTokThen(tokens, key, Then(Call(Identifier), p), head, Success(end, [leaf] + trees));
  }

  lemma FunctionPrints(n: nat, typed: bool, body: seq<Statement>)
    ensures PrintDefinition(Function(n, typed, body)) ==
              [T.FUNC] + ([T.IDENTIFIER] + (PrintArguments(n) + (PrintResult(typed) + PrintStatement(Block(body)))))
  {
    hide PrintArguments, PrintResult, PrintStatement;
  }

  lemma FunctionParses(tokens: seq<T.Token>, n: nat, typed: bool, body: seq<Statement>, head: nat)
    requires Reader(tokens, head) && AllFit(body) && Lines(tokens, head, PrintDefinition(Function(n, typed, body)))
    ensures EvalRule(tokens, RawFunction, head) ==
              Success(At(tokens, head, |PrintDefinition(Function(n, typed, body))|),
                      [DefinitionTree(tokens, Function(n, typed, body), head)])
  {
    hide Runs, EvalRule, At, Ended, Lines, StatementTrees, PrintStatement, AllFit, PrintArguments, PrintResult,
         ResultTrees, ArgumentsTree, Signature, Body, WriterOf, Leaf, Offset, PrintDefinition;
    FunctionBody();
    FunctionPrints(n, typed, body);
    var rest := PrintArguments(n) + (PrintResult(typed) + PrintStatement(Block(body)));
    FrontStands(tokens, T.FUNC, rest, head);
    var args := At(tokens, head, 2);
    SignatureParses(tokens, n, typed, body, args);
    var result := At(tokens, args, |PrintArguments(n)|);
    var scope, end := At(tokens, result, |PrintResult(typed)|), At(tokens, args, |rest|);
    var trees := [ArgumentsTree(tokens, n, args)]
                 + (ResultTrees(tokens, typed, result) + StatementTrees(tokens, Block(body), scope));
    FrontParses(tokens, T.FUNC, Signature(), head, end, trees);
    RunWriter(tokens, RawFunction, Body(RawFunction), head, ONE, DEF_FUNCTION, end,
              [Leaf(tokens, IDENTIFIER, At(tokens, head, 1))] + trees);
  }

  // ---------- functions without a body ----------

  /** The tokens that definitions and modules begin with. */
  function Keys(): set<T.Token> { {T.FUNC, T.CLASS, T.MODULE, T.EXPORT, T.IMPORT} }

  /** In front of a semicolon the recovery of a scope always succeeds, so that the semicolon is never reached. */
  lemma SemicolonSkips(tokens: seq<T.Token>, head: nat) returns (end: nat)
    requires Reader(tokens, head) && tokens[head] == T.SEMI_COLON
    ensures StopsAt(tokens, Keys(), At(tokens, head, 1), end)
    ensures Runs(tokens, Ending(), head,
                 Success(end, [Tree(SCOPE, [], Offset(tokens, head), Offset(tokens, end))]))
  {
    hide Runs, EvalRule, At, Ended, Body, WriterOf, Offset, StopsAt, UpTo;
    var stops := FunctionScopeBodies();
    NotLast(tokens, head);
    end := UpTo(tokens, stops, At(tokens, head, 1));
    UpToStops(tokens, stops, At(tokens, head, 1));
    var tree := Tree(SCOPE, [], Offset(tokens, head), Offset(tokens, end));
    RunSkipOn(tokens, stops, head);
    RunRule(tokens, SkpScope, Skp(stops), head, Success(end, []));
    ScopeFails(tokens, head);
    RunCall(tokens, RawScope, head);
    RunCall(tokens, SkpScope, head);
    RunLast(tokens, Call(SkpScope), head, Success(end, []));
    RunSecond(tokens, Call(RawScope), Else(Call(SkpScope), Fail), head, Success(end, []));
    RunRule(tokens, RcvScope, Body(RcvScope), head, Success(end, []));
    RunCall(tokens, RcvScope, head);
    RunVariadic(tokens, Scope, Call(RcvScope), head, SCOPE, end, [], tree);
    RunCall(tokens, Scope, head);
    RunFirst(tokens, Call(Scope), Else(Tok(T.SEMI_COLON), Fail), head, Success(end, [tree]));
    RunEmpty(tokens, end);
    RunThen(tokens, Else(Call(Scope), Else(Tok(T.SEMI_COLON), Fail)), Empty, head, end, [tree], Success(end, []));
    assert [tree] + [] == [tree];
  }

  lemma RunSkipOn(tokens: seq<T.Token>, stops: set<T.Token>, head: nat)
    requires Reader(tokens, head) && !IsEoi(tokens, head) && tokens[head] !in stops
    requires Following(tokens, head) == At(tokens, head, 1)
    ensures Runs(tokens, Skp(stops), head, Success(UpTo(tokens, stops, At(tokens, head, 1)), []))
  {
    hide At, Ended, UpTo;
  }

  /** A function without a body is given an empty scope that takes its semicolon and all that follows up to the next
      definition or module: it ends behind the semicolon if and only if one of these follows, or nothing. */
  lemma BodilessSwallows(tokens: seq<T.Token>, n: nat, typed: bool, head: nat) returns (end: nat)
    requires Reader(tokens, head)
    requires Lines(tokens, head,
                   [T.FUNC] + ([T.IDENTIFIER] + (PrintArguments(n) + (PrintResult(typed) + [T.SEMI_COLON]))))
    ensures var args := At(tokens, head, 2);
            var result := At(tokens, args, |PrintArguments(n)|);
            var mark := At(tokens, result, |PrintResult(typed)|);
            && tokens[mark] == T.SEMI_COLON && StopsAt(tokens, Keys(), At(tokens, mark, 1), end)
            && (end == At(tokens, mark, 1) <==>
                  IsEoi(tokens, At(tokens, mark, 1)) || tokens[At(tokens, mark, 1)] in Keys())
            && EvalRule(tokens, RawFunction, head) ==
               Success(end, [Tree(DEF_FUNCTION,
                                  [Leaf(tokens, IDENTIFIER, At(tokens, head, 1))]
                                  + ([ArgumentsTree(tokens, n, args)]
                                     + (ResultTrees(tokens, typed, result)
                                        + [Tree(SCOPE, [], Offset(tokens, mark), Offset(tokens, end))])),
                                  Offset(tokens, head), Offset(tokens, end))])
  {
    hide Runs, EvalRule, At, Ended, Lines, PrintArguments, PrintResult, ResultTrees, ArgumentsTree, Signature, Ending,
         Body, WriterOf, Leaf, Offset, Keys;
    FunctionBody();
    var tail := PrintArguments(n) + (PrintResult(typed) + [T.SEMI_COLON]);
    FrontStands(tokens, T.FUNC, tail, head);
    var args := At(tokens, head, 2);
    SignatureStands(tokens, n, typed, [T.SEMI_COLON], args);
    var result := At(tokens, args, |PrintArguments(n)|);
    var mark := At(tokens, result, |PrintResult(typed)|);
    OneLine(tokens, mark, T.SEMI_COLON);
    end := SemicolonSkips(tokens, mark);
    var scope := Tree(SCOPE, [], Offset(tokens, mark), Offset(tokens, end));
    SignatureRuns(tokens, n, typed, [T.SEMI_COLON], args, end, [scope]);
    var trees := [ArgumentsTree(tokens, n, args)] + (ResultTrees(tokens, typed, result) + [scope]);
    FrontParses(tokens, T.FUNC, Signature(), head, end, trees);
    RunWriter(tokens, RawFunction, Body(RawFunction), head, ONE, DEF_FUNCTION, end,
              [Leaf(tokens, IDENTIFIER, At(tokens, head, 1))] + trees);
  }

  // ---------- classes ----------

  function Member(): Parser { Then(Call(TypeClaim), Then(Tok(T.SEMI_COLON), Empty)) }

  lemma ClassBodies()
    ensures Body(ClsMembers) == Then(Tok(T.BRA_LEFT), Then(Rep(Member()), Then(Tok(T.BRA_RIGHT), Empty)))
    ensures WriterOf(ClsMembers) == Writes(ONE, CLS_MEMBERS)
    ensures Body(RawClass) == Then(Tok(T.CLASS), Then(Call(Identifier), Then(Call(ClsMembers), Empty)))
    ensures WriterOf(RawClass) == Writes(ONE, DEF_CLASS)
  {
  }

  lemma MemberStands(tokens: seq<T.Token>, n: nat, head: nat)
    requires Reader(tokens, head) && Lines(tokens, head, PrintMembers(n))
    ensures n == 0 ==> At(tokens, head, |PrintMembers(n)|) == head && MembersTrees(tokens, n, head) == []
    ensures n > 0 ==>
              && Lines(tokens, head, PrintClaim()) && tokens[At(tokens, head, 3)] == T.SEMI_COLON
              && At(tokens, At(tokens, head, 3), 1) == At(tokens, head, 4)
              && Lines(tokens, At(tokens, head, 4), PrintMembers(n - 1))
              && At(tokens, At(tokens, head, 4), |PrintMembers(n - 1)|) == At(tokens, head, |PrintMembers(n)|)
  {
    hide At, Ended, Lines, ClaimTrees;
    AtNone(tokens, head);
    if n > 0 {
      var rest := PrintMembers(n - 1);
      LinesSplit(tokens, head, PrintClaim(), [T.SEMI_COLON] + rest);
      LinesFirst(tokens, At(tokens, head, 3), T.SEMI_COLON, rest);
      AtTwice(tokens, head, 3, 1);
      AtTwice(tokens, head, 4, |rest|);
    }
  }

  lemma {:induction false} MembersParse(tokens: seq<T.Token>, n: nat, head: nat)
    requires Reader(tokens, head) && Lines(tokens, head, PrintMembers(n))
    requires tokens[At(tokens, head, |PrintMembers(n)|)] == T.BRA_RIGHT
    ensures Runs(tokens, Rep(Member()), head,
                 Success(At(tokens, head, |PrintMembers(n)|), MembersTrees(tokens, n, head)))
    decreases n
  {
    hide Runs, EvalRule, At, Ended, Lines, ClaimTrees, PrintMembers;
    MemberStands(tokens, n, head);
    if n == 0 {
      ClaimFails(tokens, head);
      RunCall(tokens, TypeClaim, head);
      RunThenFails(tokens, Call(TypeClaim), Then(Tok(T.SEMI_COLON), Empty), head, []);
      RunRepEnd(tokens, Member(), head);
    } else {
      var mark, next, trees := At(tokens, head, 3), At(tokens, head, 4), ClaimTrees(tokens, head);
      ClaimStands(tokens, head);
      ClaimParses(tokens, head);
      RunTokEnd(tokens, T.SEMI_COLON, mark);
      RunCallThen(tokens, TypeClaim, Then(Tok(T.SEMI_COLON), Empty), head, mark, trees, Success(next, []));
      assert trees + [] == trees;
      MembersParse(tokens, n - 1, next);
      RunRepTurn(tokens, Member(), head, next, trees,
                 Success(At(tokens, head, |PrintMembers(n)|), MembersTrees(tokens, n - 1, next)));
    }
  }

  lemma ClaimStands(tokens: seq<T.Token>, head: nat)
    requires Reader(tokens, head) && Lines(tokens, head, PrintClaim())
    ensures !IsEoi(tokens, head)
  {
    hide Ended, Lines;
    LinesStep(tokens, head, PrintClaim());
  }

  lemma MembersListParses(tokens: seq<T.Token>, n: nat, head: nat)
    requires Reader(tokens, head) && Lines(tokens, head, [T.BRA_LEFT] + (PrintMembers(n) + [T.BRA_RIGHT]))
    ensures EvalRule(tokens, ClsMembers, head) ==
              Success(At(tokens, head, |PrintMembers(n)| + 2),
                      [Over(tokens, CLS_MEMBERS, MembersTrees(tokens, n, At(tokens, head, 1)), head,
                            |PrintMembers(n)| + 2)])
  {
    hide Runs, EvalRule, At, Ended, Lines, PrintMembers, MembersTrees, Body, WriterOf, Member, Offset;
    ClassBodies();
    BetweenLines(tokens, head, T.BRA_LEFT, PrintMembers(n), T.BRA_RIGHT);
    var mid := At(tokens, head, 1);
    var last, end := At(tokens, mid, |PrintMembers(n)|), At(tokens, head, |PrintMembers(n)| + 2);
    var trees := MembersTrees(tokens, n, mid);
    MembersParse(tokens, n, mid);
    RunTokEnd(tokens, T.BRA_RIGHT, last);
    RunThen(tokens, Rep(Member()), Then(Tok(T.BRA_RIGHT), Empty), mid, last, trees, Success(end, []));
    assert trees + [] == trees;
    RunTokThen(tokens, T.BRA_LEFT, Then(Rep(Member()), Then(Tok(T.BRA_RIGHT), Empty)), head, Success(end, trees));
    RunWriter(tokens, ClsMembers, Body(ClsMembers), head, ONE, CLS_MEMBERS, end, trees);
  }

  lemma ClassPrints(n: nat)
    ensures PrintDefinition(Class(n)) ==
              [T.CLASS] + ([T.IDENTIFIER] + ([T.BRA_LEFT] + (PrintMembers(n) + [T.BRA_RIGHT])))
  {
    hide PrintMembers;
  }

  lemma ClassParses(tokens: seq<T.Token>, n: nat, head: nat)
    requires Reader(tokens, head) && Lines(tokens, head, PrintDefinition(Class(n)))
    ensures EvalRule(tokens, RawClass, head) ==
              Success(At(tokens, head, |PrintDefinition(Class(n))|), [DefinitionTree(tokens, Class(n), head)])
  {
    hide Runs, EvalRule, At, Ended, Lines, PrintMembers, MembersTrees, Body, WriterOf, Leaf, Offset, PrintDefinition;
    ClassBodies();
    ClassPrints(n);
    var rest := [T.BRA_LEFT] + (PrintMembers(n) + [T.BRA_RIGHT]);
    FrontStands(tokens, T.CLASS, rest, head);
    var at := At(tokens, head, 2);
    MembersListParses(tokens, n, at);
    var end := At(tokens, at, |rest|);
    var tree := Over(tokens, CLS_MEMBERS, MembersTrees(tokens, n, At(tokens, at, 1)), at, |PrintMembers(n)| + 2);
    RunCallEnd(tokens, ClsMembers, at, end, [tree]);
    FrontParses(tokens, T.CLASS, Then(Call(ClsMembers), Empty), head, end, [tree]);
    RunWriter(tokens, RawClass, Body(RawClass), head, ONE, DEF_CLASS, end,
              [Leaf(tokens, IDENTIFIER, At(tokens, head, 1))] + [tree]);
  }
}
