/** Parsing the tokens of a module gives its tree: definitions, imports and nested modules, down to every literal. */
module PrintedModules {
  import opened ParseTree
  import T = Tokens
  import opened Grammar
  import opened ParserMeaning
  import opened ParserRuns
  import opened Syntax
  import opened PrintedExpressions
  import opened PrintedDefinitions
  import opened ParserRecovery

  // ---------- recovery ----------

  /** A rule and its recovery. */
  lemma BothFail(tokens: seq<T.Token>, rule: Rule, raw: Rule, skipping: Rule, head: nat)
    requires Reader(tokens, head) && Body(rule) == Else(Call(raw), Else(Call(skipping), Fail))
    requires WriterOf(rule).Writeless?
    requires EvalRule(tokens, raw, head) == Failure() && EvalRule(tokens, skipping, head) == Failure()
    ensures EvalRule(tokens, rule, head) == Failure()
  {
    hide Runs, EvalRule, Ended, Body, WriterOf;
    RunCall(tokens, raw, head);
    RunCall(tokens, skipping, head);
    RunLast(tokens, Call(skipping), head, Failure());
    RunSecond(tokens, Call(raw), Else(Call(skipping), Fail), head, Failure());
    RunRule(tokens, rule, Body(rule), head, Failure());
  }

  lemma FirstParses(tokens: seq<T.Token>, rule: Rule, raw: Rule, skipping: Rule, head: nat, r: Result)
    requires Reader(tokens, head) && Body(rule) == Else(Call(raw), Else(Call(skipping), Fail))
    requires WriterOf(rule).Writeless? && EvalRule(tokens, raw, head) == r && r.next.Some?
    ensures EvalRule(tokens, rule, head) == r
  {
    hide Runs, EvalRule, Ended, Body, WriterOf;
    RunCall(tokens, raw, head);
    RunFirst(tokens, Call(raw), Else(Call(skipping), Fail), head, r);
    RunRule(tokens, rule, Body(rule), head, r);
  }

  lemma RecoveredFunctionBody()
    ensures Body(RcvFunction) == Else(Call(RawFunction), Else(Call(SkpFunction), Fail))
            && WriterOf(RcvFunction).Writeless?
  {
  }

  lemma RecoveredClassBody()
    ensures Body(RcvClass) == Else(Call(RawClass), Else(Call(SkpClass), Fail)) && WriterOf(RcvClass).Writeless?
  {
  }

  lemma RecoveredDefinitionBody()
    ensures Body(RcvDefinition) == Else(Call(RawDefinition), Else(Call(SkpDefinition), Fail))
            && WriterOf(RcvDefinition).Writeless?
  {
  }

  lemma RecoveredImportBody()
    ensures Body(RcvImport) == Else(Call(RawImport), Else(Call(SkpImport), Fail)) && WriterOf(RcvImport).Writeless?
  {
  }

  lemma RecoveredModuleBody()
    ensures Body(RcvModule) == Else(Call(RawModule), Else(Call(SkpModule), Fail)) && WriterOf(RcvModule).Writeless?
  {
  }

  /** What begins none of the definitions. */
  predicate BeginsOther(t: T.Token) { t.MODULE? || t.IMPORT? || t.BRA_RIGHT? }

  lemma FunctionFails(tokens: seq<T.Token>, head: nat)
    requires Reader(tokens, head) && (BeginsOther(tokens[head]) || tokens[head] == T.CLASS)
    ensures EvalRule(tokens, RcvFunction, head) == Failure()
  {
    hide EvalRule, Ended, Body, WriterOf, Signature;
    FunctionBody();
    RecoveredFunctionBody();
    WriterNeeds(tokens, RawFunction, T.FUNC, Then(Call(Identifier), Signature()), head);
    RecoveryStops(tokens, SkpFunction, head);
    BothFail(tokens, RcvFunction, RawFunction, SkpFunction, head);
  }

  lemma ClassFails(tokens: seq<T.Token>, head: nat)
    requires Reader(tokens, head) && BeginsOther(tokens[head])
    ensures EvalRule(tokens, RcvClass, head) == Failure()
  {
    hide EvalRule, Ended, Body, WriterOf;
    ClassBodies();
    RecoveredClassBody();
    WriterNeeds(tokens, RawClass, T.CLASS, Then(Call(Identifier), Then(Call(ClsMembers), Empty)), head);
    RecoveryStops(tokens, SkpClass, head);
    BothFail(tokens, RcvClass, RawClass, SkpClass, head);
  }

  // ---------- definitions ----------

  function Kinds(): Parser { Else(Call(RcvFunction), Else(Call(RcvClass), Fail)) }

  lemma DefinitionBody()
    ensures Body(RawDefinition) == Then(Opt(Call(RawExport)), Then(Kinds(), Empty))
    ensures WriterOf(RawDefinition) == Writes(ONE, DEFINITION)
  {
  }

  lemma ExportBody()
    ensures Body(RawExport) == Tok(T.EXPORT) && WriterOf(RawExport) == Writes(ONE, DCL_EXPORT)
  {
  }

  lemma ExportParses(tokens: seq<T.Token>, head: nat)
    requires Reader(tokens, head)
    ensures EvalRule(tokens, RawExport, head) ==
              if tokens[head] == T.EXPORT then Success(At(tokens, head, 1), [Leaf(tokens, DCL_EXPORT, head)])
              else Failure()
  {
    hide Body, WriterOf, EvalRule;
    ExportBody();
    LeafRule(tokens, RawExport, Tok(T.EXPORT), DCL_EXPORT, head);
  }

  lemma DefinitionFirst(tokens: seq<T.Token>, d: Definition, head: nat)
    requires Reader(tokens, head) && Lines(tokens, head, PrintDefinition(d))
    ensures tokens[head] == (if d.Function? then T.FUNC else T.CLASS) && !IsEoi(tokens, head)
  {
    hide At, Ended, Lines, PrintArguments, PrintResult, PrintStatement, PrintMembers;
    LinesStep(tokens, head, PrintDefinition(d));
  }

  lemma KindsParse(tokens: seq<T.Token>, d: Definition, head: nat)
    requires Reader(tokens, head) && PartFits(Defined(false, d)) && Lines(tokens, head, PrintDefinition(d))
    ensures Runs(tokens, Kinds(), head,
                 Success(At(tokens, head, |PrintDefinition(d)|), [DefinitionTree(tokens, d, head)]))
  {
    hide Runs, EvalRule, At, Ended, Lines, PrintDefinition, DefinitionTree, Body, WriterOf, AllFit;
    RecoveredFunctionBody();
    RecoveredClassBody();
    DefinitionFirst(tokens, d, head);
    var r := Success(At(tokens, head, |PrintDefinition(d)|), [DefinitionTree(tokens, d, head)]);
    RunCall(tokens, RcvFunction, head);
    RunCall(tokens, RcvClass, head);
    match d {
      case Function(n, typed, body) =>
        FunctionParses(tokens, n, typed, body, head);
        FirstParses(tokens, RcvFunction, RawFunction, SkpFunction, head, r);
        RunFirst(tokens, Call(RcvFunction), Else(Call(RcvClass), Fail), head, r);
      case Class(n) =>
        ClassParses(tokens, n, head);
        FirstParses(tokens, RcvClass, RawClass, SkpClass, head, r);
        FunctionFails(tokens, head);
        RunLast(tokens, Call(RcvClass), head, r);
        RunSecond(tokens, Call(RcvFunction), Else(Call(RcvClass), Fail), head, r);
    }
  }

  lemma DefinedStands(tokens: seq<T.Token>, exported: bool, d: Definition, head: nat) returns (mid: nat)
    requires Reader(tokens, head) && Lines(tokens, head, PrintPart(Defined(exported, d)))
    ensures Reader(tokens, mid) && mid == (if exported then At(tokens, head, 1) else head)
    ensures Lines(tokens, mid, PrintDefinition(d))
    ensures At(tokens, mid, |PrintDefinition(d)|) == At(tokens, head, |PrintPart(Defined(exported, d))|)
    ensures (tokens[head] == T.EXPORT <==> exported) && !IsEoi(tokens, head)
  {
    hide At, Ended, Lines, PrintDefinition;
    if exported {
      LinesFirst(tokens, head, T.EXPORT, PrintDefinition(d));
      mid := At(tokens, head, 1);
    } else {
      mid := head;
      DefinitionFirst(tokens, d, head);
    }
  }

  lemma DefinitionParses(tokens: seq<T.Token>, exported: bool, d: Definition, head: nat)
    requires Reader(tokens, head) && PartFits(Defined(exported, d))
             && Lines(tokens, head, PrintPart(Defined(exported, d)))
    ensures EvalRule(tokens, RcvDefinition, head) ==
              Success(At(tokens, head, |PrintPart(Defined(exported, d))|),
                      [PartTree(tokens, Defined(exported, d), head)])
  {
    hide Runs, EvalRule, At, Ended, Lines, PrintPart, PrintDefinition, DefinitionTree, Body, WriterOf, AllFit, Kinds,
         Leaf, Offset;
    DefinitionBody();
    RecoveredDefinitionBody();
    var mid := DefinedStands(tokens, exported, d, head);
    var end, tree := At(tokens, mid, |PrintDefinition(d)|), DefinitionTree(tokens, d, mid);
    KindsParse(tokens, d, mid);
    RunEmpty(tokens, end);
    RunThen(tokens, Kinds(), Empty, mid, end, [tree], Success(end, []));
    assert [tree] + [] == [tree];
    ExportParses(tokens, head);
    RunCall(tokens, RawExport, head);
    var mark := if exported then [Leaf(tokens, DCL_EXPORT, head)] else [];
    RunOpt(tokens, Call(RawExport), head, if exported then Success(mid, mark) else Failure());
    RunThen(tokens, Opt(Call(RawExport)), Then(Kinds(), Empty), head, mid, mark, Success(end, [tree]));
    assert [] + [tree] == [tree];
    RunWriter(tokens, RawDefinition, Body(RawDefinition), head, ONE, DEFINITION, end, mark + [tree]);
    FirstParses(tokens, RcvDefinition, RawDefinition, SkpDefinition, head,
                Success(end, [PartTree(tokens, Defined(exported, d), head)]));
  }

  lemma DefinitionFails(tokens: seq<T.Token>, head: nat)
    requires Reader(tokens, head) && BeginsOther(tokens[head])
    ensures EvalRule(tokens, RcvDefinition, head) == Failure()
  {
    hide Runs, EvalRule, Ended, Body, WriterOf;
    DefinitionBody();
    RecoveredDefinitionBody();
    FunctionFails(tokens, head);
    ClassFails(tokens, head);
    RunCall(tokens, RcvFunction, head);
    RunCall(tokens, RcvClass, head);
    RunLast(tokens, Call(RcvClass), head, Failure());
    RunSecond(tokens, Call(RcvFunction), Else(Call(RcvClass), Fail), head, Failure());
    RunThenFails(tokens, Kinds(), Empty, head, []);
    ExportParses(tokens, head);
    RunCall(tokens, RawExport, head);
    RunOpt(tokens, Call(RawExport), head, Failure());
    RunThen(tokens, Opt(Call(RawExport)), Then(Kinds(), Empty), head, head, [], Failure());
    AfterNone(Failure());
    RunWriterFails(tokens, RawDefinition, Body(RawDefinition), head, []);
    RecoveryStops(tokens, SkpDefinition, head);
    BothFail(tokens, RcvDefinition, RawDefinition, SkpDefinition, head);
  }

  // ---------- imports ----------

  lemma ImportBody()
    ensures Body(RawImport) == Then(Tok(T.IMPORT), Then(Call(Path), Then(Tok(T.SEMI_COLON), Empty)))
    ensures WriterOf(RawImport) == Writes(ONE, DCL_IMPORT)
  {
  }

  lemma AtThrice(tokens: seq<T.Token>, head: nat, a: nat, b: nat, c: nat)
    requires Reader(tokens, head)
    ensures At(tokens, At(tokens, At(tokens, At(tokens, head, 1), a), b), c) == At(tokens, head, 1 + a + b + c)
  {
    hide At, Ended;
    AtTwice(tokens, head, 1, a);
    AtTwice(tokens, head, 1 + a, b);
    AtTwice(tokens, head, 1 + a + b, c);
  }

  /** A name between a keyword and a token that does not go on with it. */
  lemma NameLined(tokens: seq<T.Token>, key: T.Token, name: seq<T.Token>, mark: T.Token, rest: seq<T.Token>, head: nat)
    requires Reader(tokens, head) && Lines(tokens, head, [key] + (name + ([mark] + rest)))
    ensures var mid := At(tokens, head, 1);
            var at := At(tokens, mid, |name|);
            && tokens[head] == key && !IsEoi(tokens, head) && Lines(tokens, mid, name) && tokens[at] == mark
            && Lines(tokens, At(tokens, at, 1), rest)
  {
    hide At, Ended, Lines;
    LinesFirst(tokens, head, key, name + ([mark] + rest));
    var mid := At(tokens, head, 1);
    LinesSplit(tokens, mid, name, [mark] + rest);
    LinesFirst(tokens, At(tokens, mid, |name|), mark, rest);
  }

  lemma NameStands(tokens: seq<T.Token>, key: T.Token, more: nat, mark: T.Token, rest: seq<T.Token>, head: nat)
    requires Reader(tokens, head) && Lines(tokens, head, [key] + (Print(Name(more)) + ([mark] + rest)))
    requires mark == T.SEMI_COLON || mark == T.BRA_LEFT
    ensures var name := At(tokens, head, 1);
            var at := At(tokens, name, |Print(Name(more))|);
            && tokens[head] == key && !IsEoi(tokens, head) && tokens[at] == mark
            && EvalRule(tokens, Path, name) == Success(at, [NameTree(tokens, more, name)])
            && Lines(tokens, At(tokens, at, 1), rest)
            && At(tokens, At(tokens, at, 1), |rest|) == At(tokens, head, |Print(Name(more))| + 2 + |rest|)
  {
    hide EvalRule, At, Ended, Lines, Print, NameTree, Strength;
    NameLined(tokens, key, Print(Name(more)), mark, rest, head);
    AtThrice(tokens, head, |Print(Name(more))|, 1, |rest|);
    NameParses(tokens, more, At(tokens, head, 1));
  }

  lemma NameParses(tokens: seq<T.Token>, more: nat, head: nat)
    requires Reader(tokens, head) && Lines(tokens, head, Print(Name(more)))
    requires var mark := tokens[At(tokens, head, |Print(Name(more))|)]; mark == T.SEMI_COLON || mark == T.BRA_LEFT
    ensures EvalRule(tokens, Path, head) ==
              Success(At(tokens, head, |Print(Name(more))|), [NameTree(tokens, more, head)])
  {
    hide EvalRule, At, Ended, Lines, Print, NameTree, Strength;
    MarksBind();
    NamePrints(more);
    PathParses(tokens, more, head);
  }

  lemma MarksBind()
    ensures Strength(T.SEMI_COLON) > 1 && Strength(T.BRA_LEFT) > 1
  {
  }

  lemma ImportStands(tokens: seq<T.Token>, more: nat, head: nat)
    requires Reader(tokens, head) && Lines(tokens, head, PrintPart(Imported(more)))
    ensures var name := At(tokens, head, 1);
            var at := At(tokens, name, |Print(Name(more))|);
            && tokens[head] == T.IMPORT && !IsEoi(tokens, head) && tokens[at] == T.SEMI_COLON
            && EvalRule(tokens, Path, name) == Success(at, [NameTree(tokens, more, name)])
            && At(tokens, at, 1) == At(tokens, head, |PrintPart(Imported(more))|)
  {
    hide EvalRule, At, Ended, Lines, Print, NameTree;
    assert [T.SEMI_COLON] + [] == [T.SEMI_COLON];
    NameStands(tokens, T.IMPORT, more, T.SEMI_COLON, [], head);
    AtNone(tokens, At(tokens, At(tokens, At(tokens, head, 1), |Print(Name(more))|), 1));
  }

  lemma ImportParses(tokens: seq<T.Token>, more: nat, head: nat)
    requires Reader(tokens, head) && Lines(tokens, head, PrintPart(Imported(more)))
    ensures tokens[head] == T.IMPORT && !IsEoi(tokens, head)
    ensures EvalRule(tokens, RcvImport, head) ==
              Success(At(tokens, head, |PrintPart(Imported(more))|), [PartTree(tokens, Imported(more), head)])
  {
    hide Runs, EvalRule, At, Ended, Lines, Print, PrintPart, NameTree, Body, WriterOf, Offset;
    ImportBody();
    RecoveredImportBody();
    ImportStands(tokens, more, head);
    var name := At(tokens, head, 1);
    var at := At(tokens, name, |Print(Name(more))|);
    var end, tree := At(tokens, at, 1), NameTree(tokens, more, name);
    RunTokEnd(tokens, T.SEMI_COLON, at);
    RunCallThen(tokens, Path, Then(Tok(T.SEMI_COLON), Empty), name, at, [tree], Success(end, []));
    assert [tree] + [] == [tree];
    RunTokThen(tokens, T.IMPORT, Then(Call(Path), Then(Tok(T.SEMI_COLON), Empty)), head, Success(end, [tree]));
    RunWriter(tokens, RawImport, Body(RawImport), head, ONE, DCL_IMPORT, end, [tree]);
    FirstParses(tokens, RcvImport, RawImport, SkpImport, head, Success(end, [PartTree(tokens, Imported(more), head)]));
  }

  lemma ImportFails(tokens: seq<T.Token>, head: nat)
    requires Reader(tokens, head) && (tokens[head] == T.MODULE || tokens[head] == T.BRA_RIGHT)
    ensures EvalRule(tokens, RcvImport, head) == Failure()
  {
    hide EvalRule, Ended, Body, WriterOf;
    ImportBody();
    RecoveredImportBody();
    WriterNeeds(tokens, RawImport, T.IMPORT, Then(Call(Path), Then(Tok(T.SEMI_COLON), Empty)), head);
    RecoveryStops(tokens, SkpImport, head);
    BothFail(tokens, RcvImport, RawImport, SkpImport, head);
  }

  // ---------- modules ----------

  function Turn(inner: Rule): Parser { Else(Call(RcvDefinition), NoDefinition(inner)) }

  function NoDefinition(inner: Rule): Parser { Else(Call(RcvImport), Else(Call(inner), Fail)) }

  function Plain(): Parser { Then(Tok(T.SEMI_COLON), Then(Rep(Turn(RawModule)), Empty)) }

  function Braced(): Parser { Then(Tok(T.BRA_LEFT), Then(Rep(Turn(RawModule)), Then(Tok(T.BRA_RIGHT), Empty))) }

  function Contents(): Parser { Else(Plain(), Else(Braced(), Fail)) }

  lemma ModuleBody()
    ensures Body(RawModule) == Then(Tok(T.MODULE), Then(Call(Path), Then(Contents(), Empty)))
    ensures WriterOf(RawModule) == Writes(ONE, MODULE)
  {
  }

  lemma TurnFails(tokens: seq<T.Token>, head: nat)
    requires Reader(tokens, head) && tokens[head] == T.BRA_RIGHT
    ensures Runs(tokens, Turn(RawModule), head, Failure())
  {
    hide Runs, EvalRule, Ended, Body, WriterOf, Contents;
    ModuleBody();
    DefinitionFails(tokens, head);
    ImportFails(tokens, head);
    WriterNeeds(tokens, RawModule, T.MODULE, Then(Call(Path), Then(Contents(), Empty)), head);
    RunCall(tokens, RcvDefinition, head);
    RunCall(tokens, RcvImport, head);
    RunCall(tokens, RawModule, head);
    RunLast(tokens, Call(RawModule), head, Failure());
    RunSecond(tokens, Call(RcvImport), Else(Call(RawModule), Fail), head, Failure());
    RunSecond(tokens, Call(RcvDefinition), NoDefinition(RawModule), head, Failure());
  }

  lemma FirstPart(ps: seq<Part>)
    requires ps != []
    ensures PrintParts(ps) == PrintPart(ps[0]) + PrintParts(ps[1..])
    ensures PartsFit(ps) ==>
              PartFits(ps[0]) && PartsFit(ps[1..]) && (ps[0].Nested? && !ps[0].braced ==> ps[1..] == [])
  {
    hide PrintPart, PartFits;
  }

  lemma NoParts()
    ensures PrintParts([]) == []
  {
  }

  /** What closes the contents of a module. */
  predicate Closes(tokens: seq<T.Token>, end: nat, inner: Rule)
    requires Reader(tokens, end)
  {
    IsEoi(tokens, end) || (inner == RawModule && tokens[end] == T.BRA_RIGHT)
  }

  lemma {:induction false} PartParses(tokens: seq<T.Token>, p: Part, inner: Rule, head: nat)
    requires Reader(tokens, head) && PartFits(p) && Lines(tokens, head, PrintPart(p))
    requires inner == RawModule || inner == RcvModule
    requires p.Nested? && !p.braced ==> Closes(tokens, At(tokens, head, |PrintPart(p)|), RawModule)
    ensures !IsEoi(tokens, head)
    ensures Runs(tokens, Turn(inner), head,
                 Success(At(tokens, head, |PrintPart(p)|), [PartTree(tokens, p, head)]))
    decreases p, 1
  {
    hide Runs, EvalRule, At, Ended, Lines, PrintPart, PartTree, PartFits, Body, WriterOf, Closes;
    var r := Success(At(tokens, head, |PrintPart(p)|), [PartTree(tokens, p, head)]);
    RunCall(tokens, RcvDefinition, head);
    RunCall(tokens, RcvImport, head);
    RunCall(tokens, inner, head);
    match p {
      case Defined(exported, d) =>
        DefinitionParses(tokens, exported, d, head);
        var mid := DefinedStands(tokens, exported, d, head);
        RunFirst(tokens, Call(RcvDefinition), NoDefinition(inner), head, r);
      case Imported(more) =>
        ImportParses(tokens, more, head);
        DefinitionFails(tokens, head);
        RunFirst(tokens, Call(RcvImport), Else(Call(inner), Fail), head, r);
        RunSecond(tokens, Call(RcvDefinition), NoDefinition(inner), head, r);
      case Nested(more, braced, parts) =>
        NestedParses(tokens, more, braced, parts, head);
        RecoveredModuleBody();
        if inner == RcvModule {
          FirstParses(tokens, RcvModule, RawModule, SkpModule, head, r);
        }
        DefinitionFails(tokens, head);
        ImportFails(tokens, head);
        RunLast(tokens, Call(inner), head, r);
        RunSecond(tokens, Call(RcvImport), Else(Call(inner), Fail), head, r);
        RunSecond(tokens, Call(RcvDefinition), NoDefinition(inner), head, r);
    }
  }

  lemma {:induction false} PartsParse(tokens: seq<T.Token>, ps: seq<Part>, inner: Rule, head: nat)
    requires Reader(tokens, head) && PartsFit(ps) && Lines(tokens, head, PrintParts(ps))
    requires (inner == RawModule || inner == RcvModule) && Closes(tokens, At(tokens, head, |PrintParts(ps)|), inner)
    ensures Runs(tokens, Rep(Turn(inner)), head,
                 Success(At(tokens, head, |PrintParts(ps)|), PartTrees(tokens, ps, head)))
    decreases ps, 0
  {
    hide Runs, EvalRule, At, Ended, Lines, PrintPart, PrintParts, PartTree, PartFits, PartsFit, Turn;
    NoParts();
    if ps == [] {
      AtNone(tokens, head);
      if !IsEoi(tokens, head) {
        TurnFails(tokens, head);
      }
      RunRepEnd(tokens, Turn(inner), head);
    } else {
      FirstPart(ps);
      LinesSplit(tokens, head, PrintPart(ps[0]), PrintParts(ps[1..]));
      var next := At(tokens, head, |PrintPart(ps[0])|);
      AtNone(tokens, next);
      PartParses(tokens, ps[0], inner, head);
      PartsParse(tokens, ps[1..], inner, next);
      RunRepTurn(tokens, Turn(inner), head, next, [PartTree(tokens, ps[0], head)],
                 Success(At(tokens, head, |PrintParts(ps)|), PartTrees(tokens, ps[1..], next)));
    }
  }

  lemma {:induction false} PlainParses(tokens: seq<T.Token>, ps: seq<Part>, head: nat)
    requires Reader(tokens, head) && PartsFit(ps) && tokens[head] == T.SEMI_COLON
    requires Lines(tokens, At(tokens, head, 1), PrintParts(ps))
    requires Closes(tokens, At(tokens, At(tokens, head, 1), |PrintParts(ps)|), RawModule)
    ensures var mid := At(tokens, head, 1);
            Runs(tokens, Contents(), head,
                 Success(At(tokens, mid, |PrintParts(ps)|), PartTrees(tokens, ps, mid)))
    decreases ps, 1
  {
    hide Runs, EvalRule, At, Ended, Lines, PrintParts, PartTrees, PartsFit, Turn, Closes, Braced;
    var mid := At(tokens, head, 1);
    var end, trees := At(tokens, mid, |PrintParts(ps)|), PartTrees(tokens, ps, mid);
    PartsParse(tokens, ps, RawModule, mid);
    RunEmpty(tokens, end);
    RunThen(tokens, Rep(Turn(RawModule)), Empty, mid, end, trees, Success(end, []));
    assert trees + [] == trees;
    RunTokThen(tokens, T.SEMI_COLON, Then(Rep(Turn(RawModule)), Empty), head, Success(end, trees));
    RunFirst(tokens, Plain(), Else(Braced(), Fail), head, Success(end, trees));
  }

  lemma {:induction false} BracedParses(tokens: seq<T.Token>, ps: seq<Part>, head: nat)
    requires Reader(tokens, head) && PartsFit(ps) && tokens[head] == T.BRA_LEFT
    requires Lines(tokens, At(tokens, head, 1), PrintParts(ps))
    requires tokens[At(tokens, At(tokens, head, 1), |PrintParts(ps)|)] == T.BRA_RIGHT
    ensures var mid := At(tokens, head, 1);
            Runs(tokens, Contents(), head,
                 Success(At(tokens, At(tokens, mid, |PrintParts(ps)|), 1), PartTrees(tokens, ps, mid)))
    decreases ps, 1
  {
    hide Runs, EvalRule, At, Ended, Lines, PrintParts, PartTrees, PartsFit, Turn;
    var mid := At(tokens, head, 1);
    var last, trees := At(tokens, mid, |PrintParts(ps)|), PartTrees(tokens, ps, mid);
    var end := At(tokens, last, 1);
    PartsParse(tokens, ps, RawModule, mid);
    RunTokEnd(tokens, T.BRA_RIGHT, last);
    RunThen(tokens, Rep(Turn(RawModule)), Then(Tok(T.BRA_RIGHT), Empty), mid, last, trees, Success(end, []));
    assert trees + [] == trees;
    RunTokThen(tokens, T.BRA_LEFT, Then(Rep(Turn(RawModule)), Then(Tok(T.BRA_RIGHT), Empty)), head,
               Success(end, trees));
    RunTokFails(tokens, T.SEMI_COLON, Then(Rep(Turn(RawModule)), Empty), head);
    RunLast(tokens, Braced(), head, Success(end, trees));
    RunSecond(tokens, Plain(), Else(Braced(), Fail), head, Success(end, trees));
  }

  /** Where the name, the mark and the contents of a nested module stand. */
  ghost predicate NestedAt(tokens: seq<T.Token>, more: nat, braced: bool, ps: seq<Part>, head: nat, name: nat, at: nat,
                           mid: nat, last: nat, end: nat) {
    && Reader(tokens, head) && Reader(tokens, name) && Reader(tokens, at) && Reader(tokens, mid) && Reader(tokens, last)
    && Reader(tokens, end)
    && tokens[head] == T.MODULE && !IsEoi(tokens, head)
    && tokens[at] == (if braced then T.BRA_LEFT else T.SEMI_COLON)
    && EvalRule(tokens, Path, name) == Success(at, [NameTree(tokens, more, name)])
    && Lines(tokens, mid, PrintParts(ps)) && last == At(tokens, mid, |PrintParts(ps)|)
    && if braced then tokens[last] == T.BRA_RIGHT && At(tokens, last, 1) == end else last == end
  }

  lemma NestedStands(tokens: seq<T.Token>, more: nat, braced: bool, ps: seq<Part>, head: nat)
    requires Reader(tokens, head) && Lines(tokens, head, PrintPart(Nested(more, braced, ps)))
    ensures var name := At(tokens, head, 1);
            var at := At(tokens, name, |Print(Name(more))|);
            var mid, end := At(tokens, at, 1), At(tokens, head, |PrintPart(Nested(more, braced, ps))|);
            NestedAt(tokens, more, braced, ps, head, name, at, mid, At(tokens, mid, |PrintParts(ps)|), end)
  {
    hide EvalRule, At, Ended, Lines, Print, PrintPart, NameTree, PrintParts, NestedAt;
    if braced {
      BracedStands(tokens, more, ps, head);
    } else {
      PlainStands(tokens, more, ps, head);
    }
  }

  lemma PlainStands(tokens: seq<T.Token>, more: nat, ps: seq<Part>, head: nat)
    requires Reader(tokens, head) && Lines(tokens, head, PrintPart(Nested(more, false, ps)))
    ensures var name := At(tokens, head, 1);
            var at := At(tokens, name, |Print(Name(more))|);
            var mid, end := At(tokens, at, 1), At(tokens, head, |PrintPart(Nested(more, false, ps))|);
            NestedAt(tokens, more, false, ps, head, name, at, mid, At(tokens, mid, |PrintParts(ps)|), end)
  {
    hide EvalRule, At, Ended, Lines, Print, PrintPart, NameTree, PrintParts;
    NestedPrints(more, ps);
    NameStands(tokens, T.MODULE, more, T.SEMI_COLON, PrintParts(ps), head);
  }

  lemma BracedStands(tokens: seq<T.Token>, more: nat, ps: seq<Part>, head: nat)
    requires Reader(tokens, head) && Lines(tokens, head, PrintPart(Nested(more, true, ps)))
    ensures var name := At(tokens, head, 1);
            var at := At(tokens, name, |Print(Name(more))|);
            var mid, end := At(tokens, at, 1), At(tokens, head, |PrintPart(Nested(more, true, ps))|);
            NestedAt(tokens, more, true, ps, head, name, at, mid, At(tokens, mid, |PrintParts(ps)|), end)
  {
    hide EvalRule, At, Ended, Lines, Print, PrintPart, NameTree, PrintParts;
    NestedPrints(more, ps);
    NameStands(tokens, T.MODULE, more, T.BRA_LEFT, PrintParts(ps) + [T.BRA_RIGHT], head);
    var mid := At(tokens, At(tokens, At(tokens, head, 1), |Print(Name(more))|), 1);
    CloseStands(tokens, PrintParts(ps), T.BRA_RIGHT, mid);
  }

  lemma CloseStands(tokens: seq<T.Token>, inside: seq<T.Token>, close: T.Token, head: nat)
    requires Reader(tokens, head) && Lines(tokens, head, inside + [close])
    ensures Lines(tokens, head, inside) && tokens[At(tokens, head, |inside|)] == close
    ensures At(tokens, At(tokens, head, |inside|), 1) == At(tokens, head, |inside + [close]|)
  {
    hide At, Ended, Lines;
    LinesSplit(tokens, head, inside, [close]);
    OneLine(tokens, At(tokens, head, |inside|), close);
  }

  lemma NestedPrints(more: nat, ps: seq<Part>)
    ensures PrintPart(Nested(more, true, ps)) ==
              [T.MODULE] + (Print(Name(more)) + ([T.BRA_LEFT] + (PrintParts(ps) + [T.BRA_RIGHT])))
    ensures PrintPart(Nested(more, false, ps)) == [T.MODULE] + (Print(Name(more)) + ([T.SEMI_COLON] + PrintParts(ps)))
  {
    hide Print, PrintParts;
  }

  lemma {:induction false} NestedParses(tokens: seq<T.Token>, more: nat, braced: bool, ps: seq<Part>, head: nat)
    requires Reader(tokens, head) && PartFits(Nested(more, braced, ps))
    requires Lines(tokens, head, PrintPart(Nested(more, braced, ps)))
    requires !braced ==> Closes(tokens, At(tokens, head, |PrintPart(Nested(more, braced, ps))|), RawModule)
    ensures tokens[head] == T.MODULE && !IsEoi(tokens, head)
    ensures EvalRule(tokens, RawModule, head) ==
              Success(At(tokens, head, |PrintPart(Nested(more, braced, ps))|),
                      [PartTree(tokens, Nested(more, braced, ps), head)])
    decreases ps, 2
  {
    hide Runs, EvalRule, At, Ended, Lines, Print, PrintPart, NameTree, PartTrees, PartsFit, Closes, Contents, Body,
         WriterOf, Offset;
    ModuleBody();
    NestedStands(tokens, more, braced, ps, head);
    var name := At(tokens, head, 1);
    var at := At(tokens, name, |Print(Name(more))|);
    var mid, end := At(tokens, at, 1), At(tokens, head, |PrintPart(Nested(more, braced, ps))|);
    var tree, trees := NameTree(tokens, more, name), PartTrees(tokens, ps, mid);
    if braced {
      BracedParses(tokens, ps, at);
    } else {
      PlainParses(tokens, ps, at);
    }
    RunEmpty(tokens, end);
    RunThen(tokens, Contents(), Empty, at, end, trees, Success(end, []));
    assert trees + [] == trees;
    RunCallThen(tokens, Path, Then(Contents(), Empty), name, at, [tree], Success(end, trees));
    RunTokThen(tokens, T.MODULE, Then(Call(Path), Then(Contents(), Empty)), head, Success(end, [tree] + trees));
    RunWriter(tokens, RawModule, Body(RawModule), head, ONE, MODULE, end, [tree] + trees);
  }

  // ---------- the whole input ----------

  lemma RootBody()
    ensures Body(RootModule) == Rep(Turn(RcvModule)) && WriterOf(RootModule) == Writes(ONE, MODULE)
  {
  }

  /** The tokens of some parts, with any whitespace and comments before, between and behind them, parse as one module
      with the tree of each part, in order, and to the end. */
  lemma RootParses(tokens: seq<T.Token>, ps: seq<Part>)
    requires Ended(tokens) && PartsFit(ps)
    requires var head := FromRaw(tokens, 1);
             Lines(tokens, head, PrintParts(ps)) && IsEoi(tokens, At(tokens, head, |PrintParts(ps)|))
    ensures var head := FromRaw(tokens, 1);
            Root(tokens) == Tree(MODULE, PartTrees(tokens, ps, head), Offset(tokens, head), 0)
  {
    hide Runs, EvalRule, At, Lines, PrintParts, PartTrees, PartsFit, Body, WriterOf, Turn;
    RootBody();
    var head := FromRaw(tokens, 1);
    var end, trees := At(tokens, head, |PrintParts(ps)|), PartTrees(tokens, ps, head);
    PartsParse(tokens, ps, RcvModule, head);
    RunWriter(tokens, RootModule, Body(RootModule), head, ONE, MODULE, end, trees);
  }
}
