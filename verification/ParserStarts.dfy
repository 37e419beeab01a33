/** With which tokens the nodes of a parse begin, and what the children of scopes are. */
module ParserStarts {
  import opened ParseTree
  import T = Tokens
  import opened Grammar
  import opened ParserMeaning
  import opened ParserSteps
  import opened ParserKids
  import opened ParserChains
  import opened ParserLexemes

  /** The tokens that an expression may begin with. */
  predicate Opens(t: T.Token) {
    t.IDENTIFIER? || t.LIT_INTEGER? || t.LIT_DECIMAL? || t.PAR_LEFT? || t.PLUS? || t.MINUS?
  }

  /** Whether a node of this kind may begin with a token. */
  predicate Starts(kind: Kind, t: T.Token) {
    match kind
    case STM_RETURN => t.RETURN?
    case DCL_VARIABLE => t.LET?
    case FUN_CALL => t.IDENTIFIER?
    case EXP_OPPOSE => t.MINUS?
    case EXP_BINOP => Opens(t)
    case EXP_ASSIGN => Opens(t)
    case _ => true
  }

  /** A scope inside a scope begins with its brace. */
  ghost predicate AllBraced(tokens: seq<T.Token>, ts: seq<Tree>) {
    forall i :: 0 <= i < |ts| ==> ts[i].kind.SCOPE? ==> TokenAt(tokens, ts[i].start) == T.BRA_LEFT
  }

  // ---------- expressions ----------

  lemma FirstSucceeds(tokens: seq<T.Token>, a: Parser, b: Parser, head: nat, rank: nat)
    requires Reader(tokens, head) && Guarded(Then(a, b), rank) && rank <= TOP
    requires Eval(tokens, Then(a, b), head, rank).next.Some?
    ensures Guarded(a, rank) && Eval(tokens, a, head, rank).next.Some?
  {
    hide Eval, Guarded;
    EvalThen(tokens, a, b, head, rank);
  }

  lemma NeedsToken(tokens: seq<T.Token>, t: T.Token, b: Parser, head: nat, rank: nat)
    requires Reader(tokens, head) && Guarded(Then(Tok(t), b), rank) && rank <= TOP
    requires Eval(tokens, Then(Tok(t), b), head, rank).next.Some?
    ensures tokens[head] == t
  {
    hide Eval, Guarded;
    FirstSucceeds(tokens, Tok(t), b, head, rank);
    EvalTok(tokens, t, head, rank);
  }

  /** The body of a rule, with its rank. */
  lemma BodyRuns(tokens: seq<T.Token>, rule: Rule, head: nat, p: Parser)
    requires Reader(tokens, head) && p == Body(rule)
    ensures Guarded(p, Rank(rule)) && Rank(rule) <= TOP
    ensures EvalRule(tokens, rule, head).next == Eval(tokens, p, head, Rank(rule)).next
  {
    hide Body, Eval, Guarded, Rank, EvalRule;
    RuleIsGuarded(rule);
    if WriterOf(rule).Writes? {
      WritesOne(tokens, rule, head, WriterOf(rule).arity, WriterOf(rule).kind, p, Rank(rule));
    } else {
      WritesNone(tokens, rule, head);
    }
  }

  /** A rule that begins with a call of another needs its success. */
  lemma CallSucceeds(tokens: seq<T.Token>, rule: Rule, first: Rule, rest: Parser, head: nat)
    requires Reader(tokens, head) && Body(rule) == Then(Call(first), rest)
    requires EvalRule(tokens, rule, head).next.Some?
    ensures EvalRule(tokens, first, head).next.Some?
  {
    hide Body, Eval, Guarded, Rank, EvalRule;
    BodyRuns(tokens, rule, head, Then(Call(first), rest));
    FirstSucceeds(tokens, Call(first), rest, head, Rank(rule));
    EvalCall(tokens, first, head, Rank(rule));
  }

  lemma TokenSucceeds(tokens: seq<T.Token>, rule: Rule, t: T.Token, head: nat)
    requires Reader(tokens, head) && Body(rule) == Tok(t) && EvalRule(tokens, rule, head).next.Some?
    ensures tokens[head] == t
  {
    hide Body, Eval, Guarded, Rank, EvalRule;
    BodyRuns(tokens, rule, head, Tok(t));
    EvalTok(tokens, t, head, Rank(rule));
  }

  lemma OperandsOpen(tokens: seq<T.Token>, head: nat, rank: nat)
    requires Reader(tokens, head) && Guarded(Operands(), rank) && rank <= TOP
    requires Eval(tokens, Operands(), head, rank).next.Some?
    ensures Opens(tokens[head])
  {
    hide EvalRule, Eval, Guarded, Rank, Body;
    var a, b, c, d := Call(Path), Call(LitInteger), Call(LitDecimal), Bracketed();
    EvalElse(tokens, a, Else(b, Alt2(c, d)), head, rank);
    EvalElse(tokens, b, Alt2(c, d), head, rank);
    EvalAlt2(tokens, c, d, head, rank);
    EvalCall(tokens, Path, head, rank);
    EvalCall(tokens, LitInteger, head, rank);
    EvalCall(tokens, LitDecimal, head, rank);
    if EvalRule(tokens, Path, head).next.Some? {
      PathOpens(tokens, head);
    } else if EvalRule(tokens, LitInteger, head).next.Some? {
      LiteralBodies();
      TokenSucceeds(tokens, LitInteger, T.LIT_INTEGER, head);
    } else if EvalRule(tokens, LitDecimal, head).next.Some? {
      LiteralBodies();
      TokenSucceeds(tokens, LitDecimal, T.LIT_DECIMAL, head);
    } else {
      NeedsToken(tokens, T.PAR_LEFT, Seq2(Call(Expression), Tok(T.PAR_RIGHT)), head, rank);
    }
  }

  lemma LiteralBodies()
    ensures Body(LitInteger) == Tok(T.LIT_INTEGER) && Body(LitDecimal) == Tok(T.LIT_DECIMAL)
    ensures Body(Identifier) == Tok(T.IDENTIFIER)
  {
  }

  lemma PathOpens(tokens: seq<T.Token>, head: nat)
    requires Reader(tokens, head) && EvalRule(tokens, Path, head).next.Some?
    ensures tokens[head] == T.IDENTIFIER
  {
    hide EvalRule;
    LiteralBodies();
    ChainBodies();
    CallSucceeds(tokens, Path, Identifier, Then(Rep(Seq2(Call(OpPath), Call(Path))), Empty), head);
    TokenSucceeds(tokens, Identifier, T.IDENTIFIER, head);
  }

  lemma PosAtomOpens(tokens: seq<T.Token>, head: nat)
    requires Reader(tokens, head) && EvalRule(tokens, PosAtom, head).next.Some?
    ensures Opens(tokens[head])
  {
    hide EvalRule, Eval, Guarded, Rank, Consumes, Operands, Body;
    var sign, rank := Opt(Tok(T.PLUS)), Rank(PosAtom);
    PosAtomBody();
    BodyRuns(tokens, PosAtom, head, Seq2(sign, Operands()));
    EvalSeq2(tokens, sign, Operands(), head, rank);
    EvalOpt(tokens, Tok(T.PLUS), head, rank);
    EvalTok(tokens, T.PLUS, head, rank);
    if tokens[head] != T.PLUS {
      OperandsOpen(tokens, head, if Consumes(sign) then TOP else rank);
    }
  }

  lemma PosAtomBody()
    ensures Body(PosAtom) == Seq2(Opt(Tok(T.PLUS)), Operands())
  {
  }

  lemma AtomOpens(tokens: seq<T.Token>, head: nat)
    requires Reader(tokens, head) && EvalRule(tokens, Atom, head).next.Some?
    ensures Opens(tokens[head])
  {
    hide EvalRule, Eval, Guarded, Rank, Body;
    var rank := Rank(Atom);
    AtomBody();
    BodyRuns(tokens, Atom, head, Alt2(Call(PosAtom), Call(NegAtom)));
    EvalAlt2(tokens, Call(PosAtom), Call(NegAtom), head, rank);
    EvalCall(tokens, PosAtom, head, rank);
    EvalCall(tokens, NegAtom, head, rank);
    if EvalRule(tokens, PosAtom, head).next.Some? {
      PosAtomOpens(tokens, head);
    } else {
      NegAtomNeedsMinus(tokens, head);
    }
  }

  lemma AtomBody()
    ensures Body(Atom) == Alt2(Call(PosAtom), Call(NegAtom))
  {
  }

  /** The rules of chains, down to those they begin with. */
  lemma ChainOpens(tokens: seq<T.Token>, rule: Rule, head: nat)
    requires Reader(tokens, head) && EvalRule(tokens, rule, head).next.Some?
    requires rule.Path? || rule.Product? || rule.Sum? || rule.Comparison? || rule.Assignment?
    ensures Opens(tokens[head])
  {
    hide EvalRule, Body;
    ChainBodies();
    PairBodies();
    if rule.Path? {
      PathOpens(tokens, head);
    } else {
      if rule.Assignment? {
        CallSucceeds(tokens, Assignment, Comparison, Then(Opt(Seq2(Call(OpAssign), Call(Assignment))), Empty), head);
      }
      if rule.Assignment? || rule.Comparison? {
        CallSucceeds(tokens, Comparison, Sum, Then(Opt(Seq2(Call(OpComparison), Call(Sum))), Empty), head);
      }
      if !rule.Product? {
        CallSucceeds(tokens, Sum, Product, Then(Rep(Seq2(Call(OpSum), Call(Product))), Empty), head);
      }
      CallSucceeds(tokens, Product, Atom, Then(Rep(Seq2(Call(OpProduct), Call(Atom))), Empty), head);
      AtomOpens(tokens, head);
    }
  }

  // ---------- rules ----------

  lemma CallStarts(tokens: seq<T.Token>, head: nat)
    requires Reader(tokens, head) && EvalRule(tokens, FunCall, head).next.Some?
    ensures tokens[head] == T.IDENTIFIER
  {
    hide EvalRule, Body, CallRest;
    FunCallBody();
    LiteralBodies();
    CallSucceeds(tokens, FunCall, Identifier, CallRest(), head);
    TokenSucceeds(tokens, Identifier, T.IDENTIFIER, head);
  }

  lemma FunCallBody()
    ensures Body(FunCall) == Then(Call(Identifier), CallRest())
  {
  }

  lemma KeyStarts(tokens: seq<T.Token>, rule: Rule, key: T.Token, rest: Parser, head: nat)
    requires Reader(tokens, head) && EvalRule(tokens, rule, head).next.Some? && Body(rule) == Then(Tok(key), rest)
    ensures tokens[head] == key
  {
    hide EvalRule, Body, Eval, Guarded, Rank;
    BodyRuns(tokens, rule, head, Then(Tok(key), rest));
    NeedsToken(tokens, key, rest, head, Rank(rule));
  }

  lemma KeyBodies()
    ensures Body(DclVariable) == Then(Tok(T.LET), Then(Call(TypeClaim), Empty))
    ensures Body(StmReturn) == Then(Tok(T.RETURN), Then(Call(Expression), Empty))
  {
  }

  lemma SingleStarts(tokens: seq<T.Token>, rule: Rule, head: nat)
    requires Reader(tokens, head) && EvalRule(tokens, rule, head).next.Some?
    requires rule.FunCall? || rule.DclVariable? || rule.StmReturn? || rule.NegAtom?
    ensures Starts(WriterOf(rule).kind, tokens[head])
  {
    hide EvalRule, Body;
    KeyBodies();
    match rule
    case FunCall => CallStarts(tokens, head);
    case DclVariable => KeyStarts(tokens, rule, T.LET, Then(Call(TypeClaim), Empty), head);
    case StmReturn => KeyStarts(tokens, rule, T.RETURN, Then(Call(Expression), Empty), head);
    case NegAtom => NegAtomNeedsMinus(tokens, head);
  }

  /** A rule that writes begins with a token of the kind of its node. */
  lemma RuleStarts(tokens: seq<T.Token>, rule: Rule, head: nat)
    requires Reader(tokens, head) && EvalRule(tokens, rule, head).next.Some? && WriterOf(rule).Writes?
    ensures Starts(WriterOf(rule).kind, tokens[head])
  {
    hide EvalRule;
    if rule.FunCall? || rule.DclVariable? || rule.StmReturn? || rule.NegAtom? {
      SingleStarts(tokens, rule, head);
    } else if rule.Path? || rule.Product? || rule.Sum? || rule.Comparison? || rule.Assignment? {
      ChainOpens(tokens, rule, head);
    }
  }

  // ---------- what the elements of a scope leave ----------

  /** The kinds of nodes that declarations, returns and expressions are made of. */
  predicate Expressive(kind: Kind) {
    kind.LIT_INTEGER? || kind.LIT_DECIMAL? || kind.IDENTIFIER? || kind.EXP_OPERATOR? || kind.EXP_BINOP?
    || kind.EXP_OPPOSE? || kind.EXP_ASSIGN? || kind.FUN_CALL? || kind.DCL_VARIABLE? || kind.STM_RETURN?
  }

  ghost predicate AllExpressive(ts: seq<Tree>) {
    forall i :: 0 <= i < |ts| ==> Expressive(ts[i].kind)
  }

  /** Their rules. */
  predicate Simple(r: Rule) {
    r.LitInteger? || r.LitDecimal? || r.Identifier? || r.OpPath? || r.Path? || r.PosAtom? || r.NegAtom? || r.Atom?
    || r.OpProduct? || r.Product? || r.OpSum? || r.Sum? || r.OpComparison? || r.Comparison? || r.OpAssign?
    || r.Assignment? || r.FunCall? || r.Expression? || r.TypeClaim? || r.DclVariable? || r.StmReturn?
    || r.RawScopeElem? || r.SkpScopeElem? || r.RcvScopeElem?
  }

  predicate OnlySimple(p: Parser) {
    match p
    case Then(a, b) => OnlySimple(a) && OnlySimple(b)
    case Else(a, b) => OnlySimple(a) && OnlySimple(b)
    case Rep(a) => OnlySimple(a)
    case Opt(a) => OnlySimple(a)
    case Call(r) => Simple(r)
    case _ => true
  }

  lemma SimpleSeq2(a: Parser, b: Parser)
    ensures OnlySimple(Seq2(a, b)) == (OnlySimple(a) && OnlySimple(b))
    ensures OnlySimple(Alt2(a, b)) == (OnlySimple(a) && OnlySimple(b))
  {
    var last, other := Then(b, Empty), Else(b, Fail);
    assert OnlySimple(Empty) && OnlySimple(Fail);
    assert OnlySimple(last) == OnlySimple(b);
    assert OnlySimple(other) == OnlySimple(b);
  }

  lemma {:induction false} LeafyIsSimple(p: Parser)
    requires Leafy(p)
    ensures OnlySimple(p)
    decreases p
  {
    match p
    case Else(a, b) =>
      LeafyIsSimple(a);
      LeafyIsSimple(b);
    case _ =>
  }

  predicate WritesToken(r: Rule) {
    r.LitInteger? || r.LitDecimal? || r.Identifier? || r.OpPath? || r.OpProduct? || r.OpSum? || r.OpComparison?
    || r.OpAssign?
  }

  lemma TokensAreSimple(r: Rule)
    requires WritesToken(r)
    ensures OnlySimple(Body(r)) && WriterOf(r).Writes? && Expressive(WriterOf(r).kind)
  {
    hide Body, OnlySimple, LexemesOf, Leafy;
    TokenWriters(r);
    LexemeRules(r);
    LeafyIsSimple(Body(r));
  }

  lemma TokenWriters(r: Rule)
    requires WritesToken(r)
    ensures WriterOf(r).Writes? && LexemesOf(WriterOf(r).kind) != {}
  {
  }

  lemma LinkIsSimple(op: Rule, operand: Rule)
    requires Simple(op) && Simple(operand)
    ensures OnlySimple(Rep(Link(op, operand))) && OnlySimple(Opt(Link(op, operand)))
  {
    SimpleSeq2(Call(op), Call(operand));
  }

  lemma ChainsAreSimple(r: Rule)
    requires r.Path? || r.Product? || r.Sum? || r.Comparison? || r.Assignment?
    ensures OnlySimple(Body(r))
  {
    ChainBodies();
    PairBodies();
    hide Body, OnlySimple;
    LinkIsSimple(OpPath, Path);
    LinkIsSimple(OpProduct, Atom);
    LinkIsSimple(OpSum, Product);
    LinkIsSimple(OpComparison, Sum);
    LinkIsSimple(OpAssign, Assignment);
    CallIsSimple(Identifier);
    CallIsSimple(Atom);
    CallIsSimple(Product);
    CallIsSimple(Sum);
    CallIsSimple(Comparison);
    match r
    case Path => SimpleSeq2(Call(Identifier), Rep(Link(OpPath, Path)));
    case Product => SimpleSeq2(Call(Atom), Rep(Link(OpProduct, Atom)));
    case Sum => SimpleSeq2(Call(Product), Rep(Link(OpSum, Product)));
    case Comparison => SimpleSeq2(Call(Sum), Opt(Link(OpComparison, Sum)));
    case Assignment => SimpleSeq2(Call(Comparison), Opt(Link(OpAssign, Assignment)));
  }

  lemma CallIsSimple(r: Rule)
    requires Simple(r)
    ensures OnlySimple(Call(r))
  {
  }

  lemma BracketedIsSimple()
    ensures OnlySimple(Bracketed())
  {
    SimpleSeq2(Call(Expression), Tok(T.PAR_RIGHT));
  }

  lemma OperandsAreSimple()
    ensures OnlySimple(Operands())
  {
    BracketedIsSimple();
    hide Bracketed;
    SimpleSeq2(Call(LitDecimal), Bracketed());
  }

  lemma AtomsAreSimple(r: Rule)
    requires r.NegAtom? || r.Atom? || r.Expression?
    ensures OnlySimple(Body(r))
  {
    SimpleSeq2(Tok(T.MINUS), Call(PosAtom));
    SimpleSeq2(Call(PosAtom), Call(NegAtom));
    SimpleSeq2(Call(FunCall), Call(Assignment));
  }

  lemma PosAtomIsSimple()
    ensures OnlySimple(Body(PosAtom))
  {
    PosAtomBody();
    OperandsAreSimple();
    hide Operands;
    SimpleSeq2(Opt(Tok(T.PLUS)), Operands());
  }

  lemma ClaimIsSimple()
    ensures OnlySimple(Body(TypeClaim))
  {
    SimpleSeq2(Tok(T.COLON), Call(Identifier));
  }

  lemma DeclarationIsSimple()
    ensures OnlySimple(Body(DclVariable))
  {
    SimpleSeq2(Tok(T.LET), Call(TypeClaim));
  }

  lemma ReturnIsSimple()
    ensures OnlySimple(Body(StmReturn))
  {
    SimpleSeq2(Tok(T.RETURN), Call(Expression));
  }

  lemma StatementsAreSimple(r: Rule)
    requires r.TypeClaim? || r.DclVariable? || r.StmReturn?
    ensures OnlySimple(Body(r))
  {
    hide Body, OnlySimple;
    ClaimIsSimple();
    DeclarationIsSimple();
    ReturnIsSimple();
  }

  function Statement(): Parser {
    Alt4(Call(DclVariable), Call(StmReturn), Call(Expression), Empty)
  }

  lemma StatementIsSimple()
    ensures OnlySimple(Statement()) && Body(RawScopeElem) == Seq2(Statement(), Tok(T.SEMI_COLON))
  {
    SimpleSeq2(Call(Expression), Empty);
  }

  lemma SkippedIsSimple()
    ensures OnlySimple(Body(SkpScopeElem))
  {
    SkippedElement();
    hide Body, SkpScopeElemParser;
    var stops := SkpScopeElemParser().first.stops;
    SimpleSeq2(Skp(stops), Opt(Tok(T.SEMI_COLON)));
  }

  lemma SkippedElement()
    ensures SkpScopeElemParser().Then? && SkpScopeElemParser().first.Skp? && Body(SkpScopeElem) == SkpScopeElemParser()
    ensures SkpScopeElemParser() == Seq2(SkpScopeElemParser().first, Opt(Tok(T.SEMI_COLON)))
  {
  }

  lemma RawElementIsSimple()
    ensures OnlySimple(Body(RawScopeElem))
  {
    hide Statement, Body;
    StatementIsSimple();
    SimpleSeq2(Statement(), Tok(T.SEMI_COLON));
  }

  lemma RecoveredIsSimple()
    ensures OnlySimple(Body(RcvScopeElem))
  {
    SimpleSeq2(Call(RawScopeElem), Call(SkpScopeElem));
  }

  lemma CallsAreSimple()
    ensures OnlySimple(Body(FunCall))
  {
  }

  lemma SimpleRules(r: Rule)
    requires Simple(r)
    ensures OnlySimple(Body(r))
  {
    hide Body, OnlySimple;
    if WritesToken(r) {
      TokensAreSimple(r);
    } else if r.Path? || r.Product? || r.Sum? || r.Comparison? || r.Assignment? {
      ChainsAreSimple(r);
    } else if r.FunCall? {
      CallsAreSimple();
    } else if r.PosAtom? {
      PosAtomIsSimple();
    } else if r.TypeClaim? || r.DclVariable? || r.StmReturn? {
      StatementsAreSimple(r);
    } else if r.RawScopeElem? {
      RawElementIsSimple();
    } else if r.RcvScopeElem? {
      RecoveredIsSimple();
    } else if r.SkpScopeElem? {
      SkippedIsSimple();
    } else {
      AtomsAreSimple(r);
    }
  }

  lemma SimpleWriters(r: Rule)
    requires Simple(r) && WriterOf(r).Writes?
    ensures Expressive(WriterOf(r).kind)
  {
  }

  lemma ExpressiveJoin(a: seq<Tree>, b: seq<Tree>)
    requires AllExpressive(a) && AllExpressive(b)
    ensures AllExpressive(a + b)
  {
  }

  /** Whatever a parser of elements leaves, be it when it fails, is made of their kinds. */
  lemma {:induction false} SimpleLeaves(tokens: seq<T.Token>, p: Parser, head: nat, rank: nat)
    requires Reader(tokens, head) && Guarded(p, rank) && rank <= TOP && OnlySimple(p)
    ensures AllExpressive(Eval(tokens, p, head, rank).trees)
    decreases |tokens| - head, rank, 0, p, 0
  {
    hide Expressive, EvalRule, EvalRep, Rank, Ended, Simple;
    match p
    case Then(a, b) =>
      SimpleLeaves(tokens, a, head, rank);
      var x := Eval(tokens, a, head, rank);
      if x.next.Some? {
        var rank' := if Consumes(a) then TOP else rank;
        SimpleLeaves(tokens, b, x.next.value, rank');
        ExpressiveJoin(x.trees, Eval(tokens, b, x.next.value, rank').trees);
      }
    case Else(a, b) =>
      SimpleLeaves(tokens, a, head, rank);
      SimpleLeaves(tokens, b, head, rank);
      ExpressiveJoin(Eval(tokens, a, head, rank).trees, Eval(tokens, b, head, rank).trees);
    case Rep(a) => SimpleRepLeaves(tokens, a, head, rank);
    case Opt(a) => SimpleLeaves(tokens, a, head, rank);
    case Call(rule) => SimpleRuleLeaves(tokens, rule, head);
    case _ =>
  }

  lemma {:induction false} SimpleRepLeaves(tokens: seq<T.Token>, p: Parser, head: nat, rank: nat)
    requires Reader(tokens, head) && Guarded(p, rank) && Consumes(p) && rank <= TOP && OnlySimple(p)
    ensures AllExpressive(EvalRep(tokens, p, head, rank).trees)
    decreases |tokens| - head, rank, 0, p, 1
  {
    hide Expressive, Eval, Guarded, Consumes, Ended, OnlySimple;
    if !IsEoi(tokens, head) {
      SimpleLeaves(tokens, p, head, rank);
      var x := Eval(tokens, p, head, rank);
      if x.next.Some? {
        SimpleRepLeaves(tokens, p, x.next.value, rank);
        ExpressiveJoin(x.trees, EvalRep(tokens, p, x.next.value, rank).trees);
      }
    }
  }

  lemma {:induction false} SimpleRuleLeaves(tokens: seq<T.Token>, rule: Rule, head: nat)
    requires Reader(tokens, head) && Simple(rule)
    ensures AllExpressive(EvalRule(tokens, rule, head).trees)
    decreases |tokens| - head, Rank(rule), 1
  {
    hide Expressive, Eval, EvalRule, Guarded, Body, WriterOf, Rank, OnlySimple, Simple;
    SimpleRules(rule);
    RuleIsGuarded(rule);
    SimpleLeaves(tokens, Body(rule), head, Rank(rule));
    if WriterOf(rule).Writeless? {
      WritesNone(tokens, rule, head);
    } else {
      SimpleWriters(rule);
      WritesOne(tokens, rule, head, WriterOf(rule).arity, WriterOf(rule).kind, Body(rule), Rank(rule));
    }
  }

  // ---------- scopes ----------

  lemma BracedJoin(tokens: seq<T.Token>, a: seq<Tree>, b: seq<Tree>)
    requires AllBraced(tokens, a) && AllBraced(tokens, b)
    ensures AllBraced(tokens, a + b)
  {
  }

  lemma ExpressiveIsBraced(tokens: seq<T.Token>, ts: seq<Tree>)
    requires AllExpressive(ts)
    ensures AllBraced(tokens, ts)
  {
  }

  function ScopeTurn(): Parser {
    Alt2(Call(RcvScopeElem), Call(RawScope))
  }

  lemma ScopeBody()
    ensures Body(RawScope) == Then(Tok(T.BRA_LEFT), Seq2(Rep(ScopeTurn()), Tok(T.BRA_RIGHT)))
  {
  }

  /** A scope inside a scope is one tree that begins with its brace. */
  lemma NestedIsBraced(tokens: seq<T.Token>, head: nat)
    requires Reader(tokens, head)
    ensures AllBraced(tokens, EvalRule(tokens, RawScope, head).trees)
  {
    hide Body, Eval, Guarded, Rank, EvalRule, ScopeTurn;
    ScopeBody();
    var p := Then(Tok(T.BRA_LEFT), Seq2(Rep(ScopeTurn()), Tok(T.BRA_RIGHT)));
    BodyRuns(tokens, RawScope, head, p);
    WritesOne(tokens, RawScope, head, ONE, SCOPE, p, Rank(RawScope));
    if EvalRule(tokens, RawScope, head).next.Some? {
      NeedsToken(tokens, T.BRA_LEFT, Seq2(Rep(ScopeTurn()), Tok(T.BRA_RIGHT)), head, Rank(RawScope));
    }
  }

  lemma TurnIsBraced(tokens: seq<T.Token>, head: nat, rank: nat)
    requires Reader(tokens, head) && Guarded(ScopeTurn(), rank) && rank <= TOP
    ensures AllBraced(tokens, Eval(tokens, ScopeTurn(), head, rank).trees)
  {
    hide Eval, Guarded, Rank, EvalRule, AllBraced, AllExpressive;
    EvalAlt2(tokens, Call(RcvScopeElem), Call(RawScope), head, rank);
    EvalCall(tokens, RcvScopeElem, head, rank);
    EvalCall(tokens, RawScope, head, rank);
    SimpleRuleLeaves(tokens, RcvScopeElem, head);
    ExpressiveIsBraced(tokens, EvalRule(tokens, RcvScopeElem, head).trees);
    NestedIsBraced(tokens, head);
    BracedJoin(tokens, EvalRule(tokens, RcvScopeElem, head).trees, EvalRule(tokens, RawScope, head).trees);
  }

  lemma {:induction false} TurnsAreBraced(tokens: seq<T.Token>, head: nat, rank: nat)
    requires Reader(tokens, head) && Guarded(ScopeTurn(), rank) && Consumes(ScopeTurn()) && rank <= TOP
    ensures AllBraced(tokens, EvalRep(tokens, ScopeTurn(), head, rank).trees)
    decreases |tokens| - head
  {
    hide Eval, EvalRep, Guarded, Consumes, ScopeTurn, Ended;
    var p := ScopeTurn();
    EvalTurn(tokens, p, head, rank);
    if !IsEoi(tokens, head) {
      TurnIsBraced(tokens, head, rank);
      var a := Eval(tokens, p, head, rank);
      if a.next.Some? {
        TurnsAreBraced(tokens, a.next.value, rank);
        BracedJoin(tokens, a.trees, EvalRep(tokens, p, a.next.value, rank).trees);
      }
    }
  }

  lemma NoneIsBraced(tokens: seq<T.Token>)
    ensures AllBraced(tokens, [])
  {
  }

  lemma ScopeTrees(tokens: seq<T.Token>, head: nat, rank: nat)
    requires Reader(tokens, head) && Guarded(Body(RawScope), rank) && rank <= TOP
    ensures AllBraced(tokens, Eval(tokens, Body(RawScope), head, rank).trees)
  {
    hide Eval, EvalRep, Guarded, Consumes, Ended, Body, ScopeTurn, AllBraced;
    ScopeBody();
    NoneIsBraced(tokens);
    var open, close, all := Tok(T.BRA_LEFT), Tok(T.BRA_RIGHT), Rep(ScopeTurn());
    EvalThen(tokens, open, Seq2(all, close), head, rank);
    EvalTok(tokens, T.BRA_LEFT, head, rank);
    var a := Eval(tokens, open, head, rank);
    if a.next.Some? {
      var rank' := if Consumes(open) then TOP else rank;
      EvalSeq2(tokens, all, close, a.next.value, rank');
      EvalRepetition(tokens, ScopeTurn(), a.next.value, rank');
      TurnsAreBraced(tokens, a.next.value, rank');
      var b := Eval(tokens, all, a.next.value, rank');
      if b.next.Some? {
        EvalTok(tokens, T.BRA_RIGHT, b.next.value, if Consumes(all) then TOP else rank');
        BracedJoin(tokens, b.trees, []);
      }
      BracedJoin(tokens, [], Eval(tokens, Seq2(all, close), a.next.value, rank').trees);
    }
  }

  lemma ScopeBodies()
    ensures Body(Scope) == Call(RcvScope) && Body(RcvScope) == Alt2(Call(RawScope), Call(SkpScope))
  {
  }

  /** The scope of a function is a scope as above, whose tree stays as it is, or skipped tokens without a tree. */
  lemma RecoveredTrees(tokens: seq<T.Token>, head: nat, rank: nat)
    requires Reader(tokens, head) && Guarded(Body(Scope), rank) && rank <= TOP
    ensures |Eval(tokens, Body(Scope), head, rank).trees| <= 1
  {
    hide Eval, EvalRule, Guarded, Rank, Body;
    ScopeBodies();
    EvalCall(tokens, RcvScope, head, rank);
    BodyRuns(tokens, RcvScope, head, Alt2(Call(RawScope), Call(SkpScope)));
    WritesNone(tokens, RcvScope, head);
    EvalAlt2(tokens, Call(RawScope), Call(SkpScope), head, Rank(RcvScope));
    EvalCall(tokens, RawScope, head, Rank(RcvScope));
    EvalCall(tokens, SkpScope, head, Rank(RcvScope));
    OneTree(tokens, RawScope, head);
    SkippedTrees(tokens, head);
  }

  lemma SkippedTrees(tokens: seq<T.Token>, head: nat)
    requires Reader(tokens, head)
    ensures EvalRule(tokens, SkpScope, head).trees == []
  {
    hide EvalRule, Guarded, Rank;
    WritesNone(tokens, SkpScope, head);
  }

  /** The children of a scope that is written as a node of its own. */
  lemma ScopesAreBraced(tokens: seq<T.Token>, rule: Rule, head: nat, rank: nat)
    requires Reader(tokens, head) && Guarded(Body(rule), rank) && rank <= TOP
    requires WriterOf(rule).Writes? && WriterOf(rule).kind.SCOPE?
    ensures var ts := Eval(tokens, Body(rule), head, rank).trees;
            (WriterOf(rule).arity.VARIADIC? && |ts| == 1) || AllBraced(tokens, ts)
  {
    hide Eval, Body, Guarded;
    assert rule.RawScope? || rule.Scope?;
    if rule.RawScope? {
      ScopeTrees(tokens, head, rank);
    } else {
      RecoveredTrees(tokens, head, rank);
    }
  }
}
