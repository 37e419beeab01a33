/** The children of chains: operands with an operator between each two of them. */
module ParserChains {
  import opened ParseTree
  import T = Tokens
  import opened Grammar
  import opened ParserMeaning
  import opened ParserSteps
  import opened ParserKids

  // ---------- atoms ----------

  function Bracketed(): Parser {
    Seq3(Tok(T.PAR_LEFT), Call(Expression), Tok(T.PAR_RIGHT))
  }

  /** An expression between brackets leaves its tree even when the closing one is missing. */
  lemma BracketedTrees(tokens: seq<T.Token>, head: nat, rank: nat)
    requires Reader(tokens, head) && Guarded(Bracketed(), rank) && rank <= TOP
    ensures var r := Eval(tokens, Bracketed(), head, rank);
            && |r.trees| <= 1 && (r.next.Some? ==> |r.trees| == 1)
            && (|r.trees| == 1 ==> tokens[head] == T.PAR_LEFT)
  {
    hide EvalRule, Eval, Guarded, Rank, Consumes;
    var open, inner, close := Tok(T.PAR_LEFT), Call(Expression), Tok(T.PAR_RIGHT);
    EvalThen(tokens, open, Seq2(inner, close), head, rank);
    EvalTok(tokens, T.PAR_LEFT, head, rank);
    var a := Eval(tokens, open, head, rank);
    if a.next.Some? {
      var rank' := if Consumes(open) then TOP else rank;
      EvalSeq2(tokens, inner, close, a.next.value, rank');
      EvalCall(tokens, Expression, a.next.value, rank');
      ExpressionTrees(tokens, a.next.value);
      var b := Eval(tokens, inner, a.next.value, rank');
      if b.next.Some? {
        EvalTok(tokens, T.PAR_RIGHT, b.next.value, if Consumes(inner) then TOP else rank');
      }
    }
  }

  function Operands(): Parser {
    Alt4(Call(Path), Call(LitInteger), Call(LitDecimal), Bracketed())
  }

  lemma OperandsTrees(tokens: seq<T.Token>, head: nat, rank: nat)
    requires Reader(tokens, head) && Guarded(Operands(), rank) && rank <= TOP
    ensures var r := Eval(tokens, Operands(), head, rank);
            && |r.trees| <= 1 && (r.next.Some? ==> |r.trees| == 1)
            && (r.next.None? && |r.trees| == 1 ==> tokens[head] == T.PAR_LEFT)
  {
    hide EvalRule, Eval, Guarded, Rank, Consumes, Bracketed;
    var a, b, c, d := Call(Path), Call(LitInteger), Call(LitDecimal), Bracketed();
    EvalElse(tokens, a, Else(b, Alt2(c, d)), head, rank);
    EvalElse(tokens, b, Alt2(c, d), head, rank);
    EvalAlt2(tokens, c, d, head, rank);
    EvalCall(tokens, Path, head, rank);
    EvalCall(tokens, LitInteger, head, rank);
    EvalCall(tokens, LitDecimal, head, rank);
    OneTree(tokens, Path, head);
    OneTree(tokens, LitInteger, head);
    OneTree(tokens, LitDecimal, head);
    BracketedTrees(tokens, head, rank);
  }

  lemma PosAtomTrees(tokens: seq<T.Token>, head: nat)
    requires Reader(tokens, head)
    ensures var r := EvalRule(tokens, PosAtom, head);
            && |r.trees| <= 1 && (r.next.Some? ==> |r.trees| == 1)
            && (r.next.None? && |r.trees| == 1 ==> tokens[head] == T.PAR_LEFT || tokens[head] == T.PLUS)
  {
    hide EvalRule, Eval, Guarded, Rank, Consumes, Operands;
    WritesNone(tokens, PosAtom, head);
    var rank := Rank(PosAtom);
    var sign := Opt(Tok(T.PLUS));
    assert PosAtomParser() == Seq2(sign, Operands()) by { PosAtomParts(); }
    EvalSeq2(tokens, sign, Operands(), head, rank);
    EvalOpt(tokens, Tok(T.PLUS), head, rank);
    EvalTok(tokens, T.PLUS, head, rank);
    var a := Eval(tokens, sign, head, rank);
    OperandsTrees(tokens, a.next.value, if Consumes(sign) then TOP else rank);
  }

  lemma PosAtomParts()
    ensures PosAtomParser() == Seq2(Opt(Tok(T.PLUS)), Operands())
  {
  }

  lemma NegAtomNeedsMinus(tokens: seq<T.Token>, head: nat)
    requires Reader(tokens, head) && EvalRule(tokens, NegAtom, head).next.Some?
    ensures tokens[head] == T.MINUS
  {
    hide EvalRule, Eval, Guarded, Rank, Consumes;
    RuleIsGuarded(NegAtom);
    WritesOne(tokens, NegAtom, head, ONE, EXP_OPPOSE, Body(NegAtom), Rank(NegAtom));
    EvalSeq2(tokens, Tok(T.MINUS), Call(PosAtom), head, Rank(NegAtom));
    EvalTok(tokens, T.MINUS, head, Rank(NegAtom));
  }

  /** An atom leaves one tree, and at most one when it fails. */
  lemma AtomTrees(tokens: seq<T.Token>, head: nat)
    requires Reader(tokens, head)
    ensures var r := EvalRule(tokens, Atom, head); |r.trees| <= 1 && (r.next.Some? ==> |r.trees| == 1)
  {
    hide EvalRule, Eval, Guarded, Rank, Consumes;
    WritesNone(tokens, Atom, head);
    var rank := Rank(Atom);
    EvalAlt2(tokens, Call(PosAtom), Call(NegAtom), head, rank);
    EvalCall(tokens, PosAtom, head, rank);
    EvalCall(tokens, NegAtom, head, rank);
    PosAtomTrees(tokens, head);
    OneTree(tokens, NegAtom, head);
    if EvalRule(tokens, NegAtom, head).next.Some? {
      NegAtomNeedsMinus(tokens, head);
    }
  }

  // ---------- links ----------

  predicate IsOperand(r: Rule) {
    r.Path? || r.Atom? || r.Product? || r.Sum? || r.Comparison? || r.Assignment?
  }

  predicate IsOperator(r: Rule) {
    r.OpPath? || r.OpProduct? || r.OpSum? || r.OpComparison? || r.OpAssign?
  }

  lemma OperandTrees(tokens: seq<T.Token>, rule: Rule, head: nat, rank: nat)
    requires Reader(tokens, head) && IsOperand(rule) && Guarded(Call(rule), rank) && rank <= TOP
    ensures var r := Eval(tokens, Call(rule), head, rank); |r.trees| <= 1 && (r.next.Some? ==> |r.trees| == 1)
  {
    hide EvalRule, Eval, Rank;
    EvalCall(tokens, rule, head, rank);
    if rule.Atom? {
      AtomTrees(tokens, head);
    } else {
      OneTree(tokens, rule, head);
    }
  }

  lemma OperatorTrees(tokens: seq<T.Token>, rule: Rule, head: nat, rank: nat)
    requires Reader(tokens, head) && IsOperator(rule) && Guarded(Call(rule), rank) && rank <= TOP
    ensures var r := Eval(tokens, Call(rule), head, rank);
            |r.trees| == (if r.next.Some? then 1 else 0) && (r.next.Some? ==> r.trees[0].kind == EXP_OPERATOR)
  {
    hide EvalRule, Eval, Rank;
    EvalCall(tokens, rule, head, rank);
    OneTree(tokens, rule, head);
  }

  function Link(op: Rule, operand: Rule): Parser {
    Seq2(Call(op), Call(operand))
  }

  /** Every other tree, from the first on, is an operator. */
  ghost predicate Links(ts: seq<Tree>) {
    forall i :: 0 <= i < |ts| && i % 2 == 0 ==> ts[i].kind.EXP_OPERATOR?
  }

  /** An operator and its operand, which may be missing when the link fails. */
  lemma LinkTrees(tokens: seq<T.Token>, op: Rule, operand: Rule, head: nat, rank: nat)
    requires Reader(tokens, head) && IsOperator(op) && IsOperand(operand) && Guarded(Link(op, operand), rank)
             && rank <= TOP
    ensures var r := Eval(tokens, Link(op, operand), head, rank);
            |r.trees| <= 2 && (r.next.Some? ==> |r.trees| == 2) && Links(r.trees)
  {
    hide EvalRule, Eval, Guarded, Rank, Consumes, IsOperator, IsOperand;
    EvalSeq2(tokens, Call(op), Call(operand), head, rank);
    OperatorTrees(tokens, op, head, rank);
    var a := Eval(tokens, Call(op), head, rank);
    if a.next.Some? {
      OperandTrees(tokens, operand, a.next.value, if Consumes(Call(op)) then TOP else rank);
    }
  }

  lemma {:induction false} LinksTrees(tokens: seq<T.Token>, op: Rule, operand: Rule, head: nat, rank: nat)
    requires Reader(tokens, head) && IsOperator(op) && IsOperand(operand) && rank <= TOP
    requires Guarded(Link(op, operand), rank) && Consumes(Link(op, operand))
    ensures Links(EvalRep(tokens, Link(op, operand), head, rank).trees)
    decreases |tokens| - head
  {
    hide EvalRule, Eval, EvalRep, Guarded, Rank, Consumes, IsOperator, IsOperand, Links;
    var p := Link(op, operand);
    EvalTurn(tokens, p, head, rank);
    if IsEoi(tokens, head) {
      NoLinks();
    } else {
      LinkTrees(tokens, op, operand, head, rank);
      var a := Eval(tokens, p, head, rank);
      if a.next.Some? {
        LinksTrees(tokens, op, operand, a.next.value, rank);
        LinksJoin(a.trees, EvalRep(tokens, p, a.next.value, rank).trees);
      }
    }
  }

  lemma NoLinks()
    ensures Links([])
  {
  }

  lemma LinksJoin(a: seq<Tree>, b: seq<Tree>)
    requires |a| == 2 && Links(a) && Links(b)
    ensures Links(a + b)
  {
  }

  /** Links behind a first operand. */
  lemma LinksAlternate(a: seq<Tree>, b: seq<Tree>)
    requires |a| == 1 && Links(b)
    ensures Alternating(a + b) && a + b != []
  {
  }

  // ---------- chains ----------

  /** A first operand that leaves one tree, and links. */
  lemma ChainTrees(tokens: seq<T.Token>, first: Rule, op: Rule, operand: Rule, head: nat, rank: nat)
    requires Reader(tokens, head) && IsOperator(op) && IsOperand(operand) && (IsOperand(first) || first.Identifier?)
    requires Guarded(Seq2(Call(first), Rep(Link(op, operand))), rank) && rank <= TOP
    ensures var r := Eval(tokens, Seq2(Call(first), Rep(Link(op, operand))), head, rank);
            r.next.Some? ==> Alternating(r.trees) && r.trees != []
  {
    hide EvalRule, Eval, EvalRep, Guarded, Rank, Consumes, IsOperator, IsOperand, Links, Alternating;
    var a, b := Call(first), Rep(Link(op, operand));
    EvalSeq2(tokens, a, b, head, rank);
    FirstTree(tokens, first, head, rank);
    var x := Eval(tokens, a, head, rank);
    if x.next.Some? {
      var rank' := if Consumes(a) then TOP else rank;
      EvalRepetition(tokens, Link(op, operand), x.next.value, rank');
      LinksTrees(tokens, op, operand, x.next.value, rank');
      LinksAlternate(x.trees, EvalRep(tokens, Link(op, operand), x.next.value, rank').trees);
    }
  }

  lemma FirstTree(tokens: seq<T.Token>, first: Rule, head: nat, rank: nat)
    requires Reader(tokens, head) && (IsOperand(first) || first.Identifier?) && Guarded(Call(first), rank)
             && rank <= TOP
    ensures var r := Eval(tokens, Call(first), head, rank); r.next.Some? ==> |r.trees| == 1
  {
    hide Eval, Rank, IsOperand;
    if first.Identifier? {
      NameTrees(tokens, head, rank);
    } else {
      OperandTrees(tokens, first, head, rank);
    }
  }

  /** A first operand, and at most one link. */
  lemma PairTrees(tokens: seq<T.Token>, first: Rule, op: Rule, operand: Rule, head: nat, rank: nat)
    requires Reader(tokens, head) && IsOperator(op) && IsOperand(operand) && IsOperand(first)
    requires Guarded(Seq2(Call(first), Opt(Link(op, operand))), rank) && rank <= TOP
    ensures var r := Eval(tokens, Seq2(Call(first), Opt(Link(op, operand))), head, rank);
            r.next.Some? ==> Alternating(r.trees) && 1 <= |r.trees| <= 3
  {
    hide EvalRule, Eval, Guarded, Rank, Consumes, IsOperator, IsOperand, Links, Alternating;
    var a, b := Call(first), Opt(Link(op, operand));
    EvalSeq2(tokens, a, b, head, rank);
    OperandTrees(tokens, first, head, rank);
    var x := Eval(tokens, a, head, rank);
    if x.next.Some? {
      var rank' := if Consumes(a) then TOP else rank;
      EvalOpt(tokens, Link(op, operand), x.next.value, rank');
      LinkTrees(tokens, op, operand, x.next.value, rank');
      LinksAlternate(x.trees, Eval(tokens, Link(op, operand), x.next.value, rank').trees);
    }
  }

  lemma CallTrees(tokens: seq<T.Token>, head: nat, rank: nat)
    requires Reader(tokens, head) && Guarded(FunCallParser(), rank) && rank <= TOP
    ensures var r := Eval(tokens, FunCallParser(), head, rank); r.next.Some? ==> r.trees != []
  {
    hide EvalRule, Eval, Guarded, Rank, Consumes;
    var rest := CallRest();
    assert FunCallParser() == Then(Call(Identifier), rest) by { CallParts(); }
    hide CallRest;
    EvalThen(tokens, Call(Identifier), rest, head, rank);
    NameTrees(tokens, head, rank);
  }

  function CallRest(): Parser {
    Seq3(Tok(T.PAR_LEFT), Opt(Seq2(Call(Expression), Rep(Seq2(Tok(T.COMMA), Call(Expression))))), Tok(T.PAR_RIGHT))
  }

  lemma CallParts()
    ensures FunCallParser() == Then(Call(Identifier), CallRest())
  {
  }

  // ---------- every rule ----------

  lemma ChainBodies()
    ensures Body(Path) == PathParser()
    ensures Body(Product) == ProductParser()
    ensures Body(Sum) == SumParser()
  {
  }

  lemma ChainRules(tokens: seq<T.Token>, rule: Rule, head: nat, rank: nat)
    requires Reader(tokens, head) && rank <= TOP && Guarded(Body(rule), rank)
             && (rule.Path? || rule.Product? || rule.Sum?)
    ensures var r := Eval(tokens, Body(rule), head, rank); r.next.Some? ==> Childed(EXP_BINOP, r.trees)
  {
    ChainBodies();
    hide EvalRule, Eval, Guarded, Body, Alternating;
    match rule
    case Path => ChainTrees(tokens, Identifier, OpPath, Path, head, rank);
    case Product => ChainTrees(tokens, Atom, OpProduct, Atom, head, rank);
    case Sum => ChainTrees(tokens, Product, OpSum, Product, head, rank);
  }

  lemma PairBodies()
    ensures Body(Comparison) == ComparisonParser()
    ensures Body(Assignment) == AssignmentParser()
  {
  }

  lemma PairRules(tokens: seq<T.Token>, rule: Rule, head: nat, rank: nat)
    requires Reader(tokens, head) && rank <= TOP && Guarded(Body(rule), rank) && (rule.Comparison? || rule.Assignment?)
    ensures var r := Eval(tokens, Body(rule), head, rank); r.next.Some? ==>
              Childed(if rule.Comparison? then EXP_BINOP else EXP_ASSIGN, r.trees)
  {
    PairBodies();
    hide EvalRule, Eval, Guarded, Body, Alternating;
    match rule
    case Comparison => PairTrees(tokens, Sum, OpComparison, Sum, head, rank);
    case Assignment => PairTrees(tokens, Comparison, OpAssign, Assignment, head, rank);
  }

  lemma ListBodies()
    ensures Body(FunArguments) == FunArgumentsParser()
    ensures Body(ClsMembers) == ClsMembersParser()
  {
  }

  lemma ListRules(tokens: seq<T.Token>, rule: Rule, head: nat, rank: nat)
    requires Reader(tokens, head) && rank <= TOP && Guarded(Body(rule), rank)
             && (rule.FunArguments? || rule.ClsMembers?)
    ensures var r := Eval(tokens, Body(rule), head, rank); r.next.Some? ==>
              Childed(if rule.FunArguments? then FUN_ARGUMENTS else CLS_MEMBERS, r.trees)
  {
    ListBodies();
    hide EvalRule, Eval, Guarded, Body, AllNames;
    match rule
    case FunArguments => ArgumentsTrees(tokens, head, rank);
    case ClsMembers => MembersListTrees(tokens, head, rank);
  }

  lemma SingleBodies()
    ensures Body(FunCall) == FunCallParser()
    ensures Body(DclVariable) == DclVariableParser()
    ensures Body(StmReturn) == StmReturnParser()
  {
  }

  lemma SingleRules(tokens: seq<T.Token>, rule: Rule, head: nat, rank: nat)
    requires Reader(tokens, head) && rank <= TOP && Guarded(Body(rule), rank)
             && (rule.FunCall? || rule.DclVariable? || rule.StmReturn?)
    ensures var r := Eval(tokens, Body(rule), head, rank); r.next.Some? ==> Childed(
              if rule.FunCall? then FUN_CALL else if rule.DclVariable? then DCL_VARIABLE else STM_RETURN, r.trees)
  {
    SingleBodies();
    hide EvalRule, Eval, Guarded, Body, AllNames;
    match rule
    case FunCall => CallTrees(tokens, head, rank);
    case DclVariable => DeclarationTrees(tokens, head, rank);
    case StmReturn => ReturnTrees(tokens, head, rank);
  }

  /** The rules whose children matter. */
  predicate Asked(r: Rule) {
    r.Path? || r.Product? || r.Sum? || r.Comparison? || r.Assignment? || r.FunCall? || r.FunArguments? || r.ClsMembers?
    || r.DclVariable? || r.StmReturn?
  }

  lemma OthersAreFree(r: Rule, ts: seq<Tree>)
    requires WriterOf(r).Writes? && !Asked(r)
    ensures Childed(WriterOf(r).kind, ts)
  {
  }

  /** A rule that writes gives its node the children of its kind. */
  lemma RuleTrees(tokens: seq<T.Token>, rule: Rule, head: nat)
    requires Reader(tokens, head) && WriterOf(rule).Writes? && Rank(rule) <= TOP && Guarded(Body(rule), Rank(rule))
    ensures var r := Eval(tokens, Body(rule), head, Rank(rule)); r.next.Some? ==> Childed(WriterOf(rule).kind, r.trees)
  {
    hide EvalRule, Eval, Guarded, Body, Rank, Childed;
    var rank := Rank(rule);
    if !Asked(rule) {
      OthersAreFree(rule, Eval(tokens, Body(rule), head, rank).trees);
    } else if rule.Path? || rule.Product? || rule.Sum? {
      ChainRules(tokens, rule, head, rank);
    } else if rule.Comparison? || rule.Assignment? {
      PairRules(tokens, rule, head, rank);
    } else if rule.FunArguments? || rule.ClsMembers? {
      ListRules(tokens, rule, head, rank);
    } else {
      SingleRules(tokens, rule, head, rank);
    }
  }
}
