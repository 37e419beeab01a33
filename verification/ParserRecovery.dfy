/** What the recovery rules skip: which tokens they stop at, and which of these they take. */
module ParserRecovery {
  import T = Tokens
  import opened Grammar
  import opened ParserMeaning
  import opened ParserRuns
  import opened ParserLexemes
  import E = PrintedExpressions

  /** The rules that skip the tokens of a broken element, function, class, definition, import or module. */
  predicate Recovers(r: Rule) {
    r.SkpScopeElem? || r.SkpFunction? || r.SkpClass? || r.SkpDefinition? || r.SkpImport? || r.SkpModule?
  }

  /** The token that one of them may take before it skips. */
  predicate Owns(r: Rule, t: T.Token) {
    match r
    case SkpFunction => t.FUNC?
    case SkpClass => t.CLASS?
    case SkpDefinition => t.EXPORT?
    case SkpImport => t.IMPORT?
    case SkpModule => t.MODULE?
    case _ => false
  }

  /** The tokens it stops at. */
  function StopsOf(r: Rule): set<T.Token> {
    match r
    case SkpScopeElem => {T.SEMI_COLON, T.BRA_LEFT, T.BRA_RIGHT, T.FUNC, T.CLASS, T.MODULE, T.EXPORT, T.IMPORT}
    case SkpClass => {T.FUNC, T.CLASS, T.MODULE, T.EXPORT, T.IMPORT, T.BRA_RIGHT}
    case SkpDefinition => {T.FUNC, T.CLASS, T.MODULE, T.EXPORT, T.IMPORT, T.BRA_RIGHT}
    case SkpFunction => {T.FUNC, T.CLASS, T.MODULE, T.EXPORT, T.IMPORT, T.BRA_RIGHT, T.SEMI_COLON}
    case _ => {T.SEMI_COLON, T.FUNC, T.CLASS, T.MODULE, T.EXPORT, T.IMPORT, T.BRA_RIGHT}
  }

  /** Those of them that it takes. */
  predicate Takes(r: Rule, t: T.Token) {
    match r
    case SkpScopeElem => t.SEMI_COLON?
    case SkpImport => t.SEMI_COLON?
    case SkpClass => t.BRA_RIGHT?
    case SkpDefinition => t.BRA_RIGHT?
    case _ => t.SEMI_COLON? || t.BRA_RIGHT?
  }

  /** What an optional alternative of tokens does. */
  lemma TakesOptionally(tokens: seq<T.Token>, p: Parser, head: nat)
    requires Reader(tokens, head) && Leafy(p) && T.END_OF_INPUT !in Leaves(p)
    ensures Runs(tokens, Opt(p), head,
                 Success(if tokens[head] in Leaves(p) then At(tokens, head, 1) else head, []))
  {
    hide Runs, Ended, Leafy, Leaves, At;
    E.LeafyRuns(tokens, p, head);
    RunOpt(tokens, p, head, if tokens[head] in Leaves(p) then Success(At(tokens, head, 1), []) else Failure());
  }

  /** Skipping, and what is taken behind it. */
  lemma SkipsAndTakes(tokens: seq<T.Token>, stops: set<T.Token>, p: Parser, head: nat) returns (mid: nat)
    requires Reader(tokens, head) && Leafy(p) && T.END_OF_INPUT !in Leaves(p)
    ensures Reader(tokens, mid)
    ensures IsEoi(tokens, head) || tokens[head] in stops ==>
              Runs(tokens, Then(Skp(stops), Then(Opt(p), Empty)), head, Failure())
    ensures !IsEoi(tokens, head) && tokens[head] !in stops ==>
              && head < mid && StopsAt(tokens, stops, head, mid)
              && Runs(tokens, Then(Skp(stops), Then(Opt(p), Empty)), head,
                      Success(if tokens[mid] in Leaves(p) then At(tokens, mid, 1) else mid, []))
  {
    hide Runs, Ended, Leafy, Leaves, At, StopsAt, UpTo;
    SkipStops(tokens, stops, head);
    RunSkip(tokens, stops, head);
    mid := head;
    if IsEoi(tokens, head) || tokens[head] in stops {
      RunThenFails(tokens, Skp(stops), Then(Opt(p), Empty), head, []);
    } else {
      mid := EvalSkip(tokens, stops, head).value;
      ReaderThere(tokens, stops, head, mid);
      var end := if tokens[mid] in Leaves(p) then At(tokens, mid, 1) else mid;
      TakesOptionally(tokens, p, mid);
      RunEmpty(tokens, end);
      RunThen(tokens, Opt(p), Empty, mid, end, [], Success(end, []));
      AfterNone(Success(end, []));
      RunThen(tokens, Skp(stops), Then(Opt(p), Empty), head, mid, [], Success(end, []));
    }
  }

  lemma RunSkip(tokens: seq<T.Token>, stops: set<T.Token>, head: nat)
    requires Reader(tokens, head)
    ensures Runs(tokens, Skp(stops), head, Result(EvalSkip(tokens, stops, head), []))
  {
    hide Ended, EvalSkip;
  }

  function Closers(r: Rule): Parser {
    if r.SkpScopeElem? || r.SkpImport? then Tok(T.SEMI_COLON)
    else if r.SkpClass? || r.SkpDefinition? then Tok(T.BRA_RIGHT)
    else Alt2(Tok(T.SEMI_COLON), Tok(T.BRA_RIGHT))
  }

  lemma ClosersTake(r: Rule, t: T.Token)
    requires Recovers(r)
    ensures Leafy(Closers(r)) && (t in Leaves(Closers(r)) <==> Takes(r, t)) && !Takes(r, T.END_OF_INPUT)
  {
    hide Leaves, Leafy, Takes;
    WhichTake(r, t);
    WhichTake(r, T.END_OF_INPUT);
    SomeClosers(T.SEMI_COLON, t);
    SomeClosers(T.BRA_RIGHT, t);
    BothClosers(t);
  }

  lemma WhichTake(r: Rule, t: T.Token)
    requires Recovers(r)
    ensures Takes(r, t) <==> if r.SkpScopeElem? || r.SkpImport? then t == T.SEMI_COLON
                             else if r.SkpClass? || r.SkpDefinition? then t == T.BRA_RIGHT
                             else t == T.SEMI_COLON || t == T.BRA_RIGHT
  {
  }

  lemma SomeClosers(close: T.Token, t: T.Token)
    ensures Leafy(Tok(close)) && (t in Leaves(Tok(close)) <==> t == close)
  {
  }

  lemma BothClosers(t: T.Token)
    ensures var p := Alt2(Tok(T.SEMI_COLON), Tok(T.BRA_RIGHT));
            Leafy(p) && (t in Leaves(p) <==> t == T.SEMI_COLON || t == T.BRA_RIGHT)
  {
  }

  function Own(r: Rule): T.Token {
    if r.SkpFunction? then T.FUNC else if r.SkpClass? then T.CLASS else if r.SkpDefinition? then T.EXPORT
    else if r.SkpImport? then T.IMPORT else T.MODULE
  }

  lemma SkippedElementBody()
    ensures Body(SkpScopeElem) == Then(Skp(StopsOf(SkpScopeElem)), Then(Opt(Closers(SkpScopeElem)), Empty))
  {
  }

  lemma SkippedFunctionBody()
    ensures Body(SkpFunction) == Then(Opt(Tok(T.FUNC)), Then(Skp(StopsOf(SkpFunction)),
                                                             Then(Opt(Closers(SkpFunction)), Empty)))
  {
  }

  lemma SkippedClassBody()
    ensures Body(SkpClass) == Then(Opt(Tok(T.CLASS)), Then(Skp(StopsOf(SkpClass)), Then(Opt(Closers(SkpClass)), Empty)))
  {
  }

  lemma SkippedDefinitionBody()
    ensures Body(SkpDefinition) == Then(Opt(Tok(T.EXPORT)), Then(Skp(StopsOf(SkpDefinition)),
                                                                 Then(Opt(Closers(SkpDefinition)), Empty)))
  {
  }

  lemma SkippedImportBody()
    ensures Body(SkpImport) == Then(Opt(Tok(T.IMPORT)),
                                    Then(Skp(StopsOf(SkpImport)), Then(Opt(Closers(SkpImport)), Empty)))
  {
  }

  lemma SkippedModuleBody()
    ensures Body(SkpModule) == Then(Opt(Tok(T.MODULE)),
                                    Then(Skp(StopsOf(SkpModule)), Then(Opt(Closers(SkpModule)), Empty)))
  {
  }

  lemma RecoveryBody(r: Rule)
    requires Recovers(r)
    ensures var rest := Then(Skp(StopsOf(r)), Then(Opt(Closers(r)), Empty));
            Body(r) == if r.SkpScopeElem? then rest else Then(Opt(Tok(Own(r))), rest)
  {
    hide Body, StopsOf, Closers;
    match r
    case SkpScopeElem => SkippedElementBody();
    case SkpFunction => SkippedFunctionBody();
    case SkpClass => SkippedClassBody();
    case SkpDefinition => SkippedDefinitionBody();
    case SkpImport => SkippedImportBody();
    case SkpModule => SkippedModuleBody();
  }

  lemma RecoveryIsSilent(r: Rule)
    requires Recovers(r)
    ensures WriterOf(r).Writeless?
  {
  }

  lemma OwnsOne(r: Rule, t: T.Token)
    requires Recovers(r)
    ensures Owns(r, t) <==> !r.SkpScopeElem? && t == Own(r)
    ensures Own(r) != T.END_OF_INPUT
  {
  }

  /** Recovery may take the token that its rule begins with, fails where it has nothing to skip, and else goes on to the
      first token where it stops or to the end of the input, and behind it if it takes it. It leaves no tree. */
  lemma Recovery(tokens: seq<T.Token>, r: Rule, head: nat) returns (from: nat, mid: nat)
    requires Reader(tokens, head) && Recovers(r)
    ensures Reader(tokens, from) && from == (if Owns(r, tokens[head]) then At(tokens, head, 1) else head)
    ensures IsEoi(tokens, from) || tokens[from] in StopsOf(r) ==> EvalRule(tokens, r, head) == Failure()
    ensures !IsEoi(tokens, from) && tokens[from] !in StopsOf(r) ==>
              && from < mid && StopsAt(tokens, StopsOf(r), from, mid)
              && EvalRule(tokens, r, head) == Success(if Takes(r, tokens[mid]) then At(tokens, mid, 1) else mid, [])
  {
    hide Runs, EvalRule, Ended, Leafy, Leaves, At, StopsAt, Body, WriterOf, StopsOf, Closers, Owns, Takes, Own;
    RecoveryBody(r);
    RecoveryIsSilent(r);
    OwnsOne(r, tokens[head]);
    ClosersTake(r, T.END_OF_INPUT);
    var rest := Then(Skp(StopsOf(r)), Then(Opt(Closers(r)), Empty));
    from := if Owns(r, tokens[head]) then At(tokens, head, 1) else head;
    mid := SkipsAndTakes(tokens, StopsOf(r), Closers(r), from);
    var y := if IsEoi(tokens, from) || tokens[from] in StopsOf(r) then Failure()
             else Success(if tokens[mid] in Leaves(Closers(r)) then At(tokens, mid, 1) else mid, []);
    if !r.SkpScopeElem? {
      OwnTaken(tokens, Own(r), rest, head, from, y);
    }
    if y.next.Some? {
      ClosersTake(r, tokens[mid]);
    }
    RunRule(tokens, r, Body(r), head, y);
  }

  lemma ReaderThere(tokens: seq<T.Token>, stops: set<T.Token>, head: nat, to: nat)
    requires StopsAt(tokens, stops, head, to)
    ensures Reader(tokens, to)
  {
  }

  /** Where it stops at once, it fails. */
  lemma RecoveryStops(tokens: seq<T.Token>, r: Rule, head: nat)
    requires Reader(tokens, head) && Recovers(r) && !Owns(r, tokens[head]) && tokens[head] in StopsOf(r)
    ensures EvalRule(tokens, r, head) == Failure()
  {
    hide EvalRule, Ended, StopsOf, Owns, Takes;
    var from, mid := Recovery(tokens, r, head);
  }

  lemma OwnTaken(tokens: seq<T.Token>, own: T.Token, rest: Parser, head: nat, from: nat, y: Result)
    requires Reader(tokens, head) && from == (if tokens[head] == own then At(tokens, head, 1) else head)
    requires own != T.END_OF_INPUT && Runs(tokens, rest, from, y)
    ensures Runs(tokens, Then(Opt(Tok(own)), rest), head, y)
  {
    hide Runs, Ended, At;
    if tokens[head] == own {
      RunTakes(tokens, own, head);
    } else {
      RunTok(tokens, own, head);
    }
    RunOpt(tokens, Tok(own), head, if tokens[head] == own then Success(from, []) else Failure());
    RunThen(tokens, Opt(Tok(own)), rest, head, from, [], y);
    AfterNone(y);
  }
}
