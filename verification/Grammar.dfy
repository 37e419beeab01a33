/** The tokens of the language. */
module Tokens {
  datatype Token =
    | WHITESPACE | COMMENT | IF | ELSE | LET | FUNC | CLASS | WHILE | EXPORT | IMPORT | MODULE | RETURN
    | AMPERSAND | AMPERSAND_BIS | AMPERSAND_EQUAL | BANG | BANG_EQUAL | BRA_LEFT | BRA_RIGHT | CARET
    | CARET_EQUAL | COLON | COLON_BIS | COMMA | DOT | END_OF_INPUT | EQUAL | EQUAL_BIS | IDENTIFIER
    | LIT_DECIMAL | LIT_INTEGER | KET_LEFT | KET_LEFT_BIS | KET_LEFT_BIS_EQUAL | KET_LEFT_EQUAL | KET_RIGHT
    | KET_RIGHT_BIS | KET_RIGHT_BIS_EQUAL | KET_RIGHT_EQUAL | MINUS | MINUS_EQUAL | MINUS_KET_RIGHT | PAR_LEFT
    | PAR_RIGHT | PERCENT | PERCENT_EQUAL | PIPE | PIPE_BIS | PIPE_EQUAL | PLUS | PLUS_EQUAL | QUESTION
    | SEMI_COLON | SLASH | SLASH_EQUAL | SLASH_STAR | SQR_LEFT | SQR_RIGHT | STAR | STAR_EQUAL | STAR_SLASH
    | START_OF_INPUT | TILDE | DATA | QUOTE_SIMPLE | UNKNOWN
}

/** The grammar as combinators over named rules, and why parsing with it ends. */
module Grammar {
  import T = Tokens
  import K = ParseTree

  /** The combinators. `Skp` stops at a token of `stops`. */
  datatype Parser =
    | Tok(token: T.Token)
    | Empty
    | Then(first: Parser, rest: Parser)
    | Fail
    | Else(first: Parser, rest: Parser)
    | Rep(parser: Parser)
    | Opt(parser: Parser)
    | Skp(stops: set<T.Token>)
    | Call(rule: Rule)

  datatype Arity = VARIADIC | ONE

  datatype Writer = Writeless | Writes(arity: Arity, kind: K.Kind)

  function Seq2(a: Parser, b: Parser): Parser { Then(a, Then(b, Empty)) }
  function Seq3(a: Parser, b: Parser, c: Parser): Parser { Then(a, Seq2(b, c)) }
  function Seq4(a: Parser, b: Parser, c: Parser, d: Parser): Parser { Then(a, Seq3(b, c, d)) }
  function Seq5(a: Parser, b: Parser, c: Parser, d: Parser, e: Parser): Parser { Then(a, Seq4(b, c, d, e)) }

  function Alt2(a: Parser, b: Parser): Parser { Else(a, Else(b, Fail)) }
  function Alt3(a: Parser, b: Parser, c: Parser): Parser { Else(a, Alt2(b, c)) }
  function Alt4(a: Parser, b: Parser, c: Parser, d: Parser): Parser { Else(a, Alt3(b, c, d)) }
  function Alt6(a: Parser, b: Parser, c: Parser, d: Parser, e: Parser, f: Parser): Parser {
    Else(a, Else(b, Alt4(c, d, e, f)))
  }

  datatype Rule =
    | LitInteger | LitDecimal | Identifier | OpPath | Path | PosAtom | NegAtom | Atom | OpProduct | Product
    | OpSum | Sum | OpComparison | Comparison | OpAssign | Assignment | FunCall | Expression | StmReturn
    | TypeClaim | DclVariable | RawScopeElem | SkpScopeElem | RcvScopeElem | RawScope | SkpScope | RcvScope
    | Scope | FunArguments | RawFunction | SkpFunction | RcvFunction | ClsMembers | RawClass | SkpClass
    | RcvClass | RawExport | RawDefinition | SkpDefinition | RcvDefinition | RawImport | SkpImport | RcvImport
    | RawModule | SkpModule | RcvModule | RootModule

  /** The node a rule writes, if it writes one. */
  function WriterOf(r: Rule): Writer {
    match r
    case LitInteger => Writes(ONE, K.LIT_INTEGER)
    case LitDecimal => Writes(ONE, K.LIT_DECIMAL)
    case Identifier => Writes(ONE, K.IDENTIFIER)
    case OpPath => Writes(ONE, K.EXP_OPERATOR)
    case Path => Writes(VARIADIC, K.EXP_BINOP)
    case NegAtom => Writes(ONE, K.EXP_OPPOSE)
    case OpProduct => Writes(ONE, K.EXP_OPERATOR)
    case Product => Writes(VARIADIC, K.EXP_BINOP)
    case OpSum => Writes(ONE, K.EXP_OPERATOR)
    case Sum => Writes(VARIADIC, K.EXP_BINOP)
    case OpComparison => Writes(ONE, K.EXP_OPERATOR)
    case Comparison => Writes(VARIADIC, K.EXP_BINOP)
    case OpAssign => Writes(ONE, K.EXP_OPERATOR)
    case Assignment => Writes(VARIADIC, K.EXP_ASSIGN)
    case FunCall => Writes(ONE, K.FUN_CALL)
    case StmReturn => Writes(ONE, K.STM_RETURN)
    case DclVariable => Writes(ONE, K.DCL_VARIABLE)
    case RawScope => Writes(ONE, K.SCOPE)
    case Scope => Writes(VARIADIC, K.SCOPE)
    case FunArguments => Writes(ONE, K.FUN_ARGUMENTS)
    case RawFunction => Writes(ONE, K.DEF_FUNCTION)
    case ClsMembers => Writes(ONE, K.CLS_MEMBERS)
    case RawClass => Writes(ONE, K.DEF_CLASS)
    case RawExport => Writes(ONE, K.DCL_EXPORT)
    case RawDefinition => Writes(ONE, K.DEFINITION)
    case RawImport => Writes(ONE, K.DCL_IMPORT)
    case RawModule => Writes(ONE, K.MODULE)
    case RootModule => Writes(ONE, K.MODULE)
    case _ => Writeless
  }

  // ---------- the grammar: what each rule parses ----------

  function LitIntegerParser(): Parser {
    Tok(T.LIT_INTEGER)
  }

  function LitDecimalParser(): Parser {
    Tok(T.LIT_DECIMAL)
  }

  function IdentifierParser(): Parser {
    Tok(T.IDENTIFIER)
  }

  function OpPathParser(): Parser {
    Tok(T.DOT)
  }

  function PathParser(): Parser {
    Seq2(Call(Identifier), Rep(Seq2(Call(OpPath), Call(Path))))
  }

  function PosAtomParser(): Parser {
    Seq2(Opt(Tok(T.PLUS)),
        Alt4(Call(Path), Call(LitInteger), Call(LitDecimal), Seq3(Tok(T.PAR_LEFT), Call(Expression), Tok(T.PAR_RIGHT))))
  }

  function NegAtomParser(): Parser {
    Seq2(Tok(T.MINUS), Call(PosAtom))
  }

  function AtomParser(): Parser {
    Alt2(Call(PosAtom), Call(NegAtom))
  }

  function OpProductParser(): Parser {
    Alt3(Tok(T.STAR), Tok(T.SLASH), Tok(T.PERCENT))
  }

  function ProductParser(): Parser {
    Seq2(Call(Atom), Rep(Seq2(Call(OpProduct), Call(Atom))))
  }

  function OpSumParser(): Parser {
    Alt2(Tok(T.PLUS), Tok(T.MINUS))
  }

  function SumParser(): Parser {
    Seq2(Call(Product), Rep(Seq2(Call(OpSum), Call(Product))))
  }

  function OpComparisonParser(): Parser {
    Alt4(Tok(T.KET_LEFT), Tok(T.KET_RIGHT), Tok(T.KET_LEFT_EQUAL), Tok(T.KET_RIGHT_EQUAL))
  }

  function ComparisonParser(): Parser {
    Seq2(Call(Sum), Opt(Seq2(Call(OpComparison), Call(Sum))))
  }

  function OpAssignParser(): Parser {
    Alt6(Tok(T.EQUAL), Tok(T.PLUS_EQUAL), Tok(T.MINUS_EQUAL), Tok(T.STAR_EQUAL), Tok(T.SLASH_EQUAL),
         Tok(T.PERCENT_EQUAL))
  }

  function AssignmentParser(): Parser {
    Seq2(Call(Comparison), Opt(Seq2(Call(OpAssign), Call(Assignment))))
  }

  function FunCallParser(): Parser {
    Seq4(Call(Identifier), Tok(T.PAR_LEFT), Opt(Seq2(Call(Expression), Rep(Seq2(Tok(T.COMMA), Call(Expression))))),
         Tok(T.PAR_RIGHT))
  }

  function ExpressionParser(): Parser {
    Alt2(Call(FunCall), Call(Assignment))
  }

  function StmReturnParser(): Parser {
    Seq2(Tok(T.RETURN), Call(Expression))
  }

  function TypeClaimParser(): Parser {
    Seq3(Call(Identifier), Tok(T.COLON), Call(Identifier))
  }

  function DclVariableParser(): Parser {
    Seq2(Tok(T.LET), Call(TypeClaim))
  }

  function RawScopeElemParser(): Parser {
    Seq2(Alt4(Call(DclVariable), Call(StmReturn), Call(Expression), Empty), Tok(T.SEMI_COLON))
  }

  function SkpScopeElemParser(): Parser {
    Seq2(Skp({T.SEMI_COLON, T.BRA_LEFT, T.BRA_RIGHT, T.FUNC, T.CLASS, T.MODULE, T.EXPORT, T.IMPORT}),
         Opt(Tok(T.SEMI_COLON)))
  }

  function RcvScopeElemParser(): Parser {
    Alt2(Call(RawScopeElem), Call(SkpScopeElem))
  }

  function RawScopeParser(): Parser {
    Seq3(Tok(T.BRA_LEFT), Rep(Alt2(Call(RcvScopeElem), Call(RawScope))), Tok(T.BRA_RIGHT))
  }

  function SkpScopeParser(): Parser {
    Skp({T.FUNC, T.CLASS, T.MODULE, T.EXPORT, T.IMPORT})
  }

  function RcvScopeParser(): Parser {
    Alt2(Call(RawScope), Call(SkpScope))
  }

  function ScopeParser(): Parser {
    Call(RcvScope)
  }

  function FunArgumentsParser(): Parser {
    Seq3(Tok(T.PAR_LEFT), Opt(Seq2(Call(TypeClaim), Rep(Seq2(Tok(T.COMMA), Call(TypeClaim))))), Tok(T.PAR_RIGHT))
  }

  function RawFunctionParser(): Parser {
    Seq5(Tok(T.FUNC), Call(Identifier), Call(FunArguments), Opt(Seq2(Tok(T.MINUS_KET_RIGHT), Call(Identifier))),
         Alt2(Call(Scope), Tok(T.SEMI_COLON)))
  }

  function SkpFunctionParser(): Parser {
    Seq3(Opt(Tok(T.FUNC)), Skp({T.FUNC, T.CLASS, T.MODULE, T.EXPORT, T.IMPORT, T.BRA_RIGHT, T.SEMI_COLON}),
         Opt(Alt2(Tok(T.SEMI_COLON), Tok(T.BRA_RIGHT))))
  }

  function RcvFunctionParser(): Parser {
    Alt2(Call(RawFunction), Call(SkpFunction))
  }

  function ClsMembersParser(): Parser {
    Seq3(Tok(T.BRA_LEFT), Rep(Seq2(Call(TypeClaim), Tok(T.SEMI_COLON))), Tok(T.BRA_RIGHT))
  }

  function RawClassParser(): Parser {
    Seq3(Tok(T.CLASS), Call(Identifier), Call(ClsMembers))
  }

  function SkpClassParser(): Parser {
    Seq3(Opt(Tok(T.CLASS)), Skp({T.FUNC, T.CLASS, T.MODULE, T.EXPORT, T.IMPORT, T.BRA_RIGHT}), Opt(Tok(T.BRA_RIGHT)))
  }

  function RcvClassParser(): Parser {
    Alt2(Call(RawClass), Call(SkpClass))
  }

  function RawExportParser(): Parser {
    Tok(T.EXPORT)
  }

  function RawDefinitionParser(): Parser {
    Seq2(Opt(Call(RawExport)), Alt2(Call(RcvFunction), Call(RcvClass)))
  }

  function SkpDefinitionParser(): Parser {
    Seq3(Opt(Tok(T.EXPORT)), Skp({T.FUNC, T.CLASS, T.MODULE, T.EXPORT, T.IMPORT, T.BRA_RIGHT}), Opt(Tok(T.BRA_RIGHT)))
  }

  function RcvDefinitionParser(): Parser {
    Alt2(Call(RawDefinition), Call(SkpDefinition))
  }

  function RawImportParser(): Parser {
    Seq3(Tok(T.IMPORT), Call(Path), Tok(T.SEMI_COLON))
  }

  function SkpImportParser(): Parser {
    Seq3(Opt(Tok(T.IMPORT)), Skp({T.SEMI_COLON, T.FUNC, T.CLASS, T.MODULE, T.EXPORT, T.IMPORT, T.BRA_RIGHT}),
         Opt(Tok(T.SEMI_COLON)))
  }

  function RcvImportParser(): Parser {
    Alt2(Call(RawImport), Call(SkpImport))
  }

  /** The definitions, imports and modules inside a module. */
  function ContentsParser(inner: Rule): Parser {
    Rep(Alt3(Call(RcvDefinition), Call(RcvImport), Call(inner)))
  }

  function RawModuleParser(): Parser {
    Seq3(Tok(T.MODULE), Call(Path), ModuleBodyParser())
  }

  /** The contents after a semicolon, or between braces. */
  function ModuleBodyParser(): Parser {
    Alt2(Seq2(Tok(T.SEMI_COLON), ContentsParser(RawModule)),
         Seq3(Tok(T.BRA_LEFT), ContentsParser(RawModule), Tok(T.BRA_RIGHT)))
  }

  function SkpModuleParser(): Parser {
    Seq3(Opt(Tok(T.MODULE)), Skp({T.SEMI_COLON, T.FUNC, T.CLASS, T.MODULE, T.EXPORT, T.IMPORT, T.BRA_RIGHT}),
         Opt(Alt2(Tok(T.SEMI_COLON), Tok(T.BRA_RIGHT))))
  }

  function RcvModuleParser(): Parser {
    Alt2(Call(RawModule), Call(SkpModule))
  }

  function RootModuleParser(): Parser {
    ContentsParser(RcvModule)
  }

  function Body(r: Rule): Parser {
    match r
    case LitInteger => LitIntegerParser()
    case LitDecimal => LitDecimalParser()
    case Identifier => IdentifierParser()
    case OpPath => OpPathParser()
    case Path => PathParser()
    case PosAtom => PosAtomParser()
    case NegAtom => NegAtomParser()
    case Atom => AtomParser()
    case OpProduct => OpProductParser()
    case Product => ProductParser()
    case OpSum => OpSumParser()
    case Sum => SumParser()
    case OpComparison => OpComparisonParser()
    case Comparison => ComparisonParser()
    case OpAssign => OpAssignParser()
    case Assignment => AssignmentParser()
    case FunCall => FunCallParser()
    case Expression => ExpressionParser()
    case StmReturn => StmReturnParser()
    case TypeClaim => TypeClaimParser()
    case DclVariable => DclVariableParser()
    case RawScopeElem => RawScopeElemParser()
    case SkpScopeElem => SkpScopeElemParser()
    case RcvScopeElem => RcvScopeElemParser()
    case RawScope => RawScopeParser()
    case SkpScope => SkpScopeParser()
    case RcvScope => RcvScopeParser()
    case Scope => ScopeParser()
    case FunArguments => FunArgumentsParser()
    case RawFunction => RawFunctionParser()
    case SkpFunction => SkpFunctionParser()
    case RcvFunction => RcvFunctionParser()
    case ClsMembers => ClsMembersParser()
    case RawClass => RawClassParser()
    case SkpClass => SkpClassParser()
    case RcvClass => RcvClassParser()
    case RawExport => RawExportParser()
    case RawDefinition => RawDefinitionParser()
    case SkpDefinition => SkpDefinitionParser()
    case RcvDefinition => RcvDefinitionParser()
    case RawImport => RawImportParser()
    case SkpImport => SkpImportParser()
    case RcvImport => RcvImportParser()
    case RawModule => RawModuleParser()
    case SkpModule => SkpModuleParser()
    case RcvModule => RcvModuleParser()
    case RootModule => RootModuleParser()
  }

  /** Every rule comes above those it may call before a token is consumed. */
  function Rank(r: Rule): nat {
    match r
    case Path => 1
    case FunCall => 1
    case TypeClaim => 1
    case RcvScope => 1
    case RcvFunction => 1
    case RcvClass => 1
    case RcvImport => 1
    case RcvModule => 1
    case PosAtom => 2
    case Scope => 2
    case RawDefinition => 2
    case Atom => 3
    case RcvDefinition => 3
    case Product => 4
    case RootModule => 4
    case Sum => 5
    case Comparison => 6
    case Assignment => 7
    case Expression => 8
    case RawScopeElem => 9
    case RcvScopeElem => 10
    case _ => 0
  }


  /** Whether the success of a rule takes a token. */
  predicate RuleConsumes(r: Rule) {
    !r.RootModule?
  }

  /** Whether the success of a parser takes a token. */
  predicate Consumes(p: Parser) {
    match p
    case Tok(_) => true
    case Empty => false
    case Then(a, b) => Consumes(a) || Consumes(b)
    case Fail => true
    case Else(a, b) => Consumes(a) && Consumes(b)
    case Rep(_) => false
    case Opt(_) => false
    case Skp(_) => true
    case Call(r) => RuleConsumes(r)
  }

  const TOP: nat := 11

  /** Before it takes a token the parser only calls rules under `rank`, and no repetition stands still. */
  predicate Guarded(p: Parser, rank: nat) {
    match p
    case Tok(t) => !t.END_OF_INPUT?
    case Empty => true
    case Then(a, b) => Guarded(a, rank) && Guarded(b, if Consumes(a) then TOP else rank)
    case Fail => true
    case Else(a, b) => Guarded(a, rank) && Guarded(b, rank)
    case Rep(a) => Consumes(a) && Guarded(a, rank)
    case Opt(a) => Guarded(a, rank)
    case Skp(_) => true
    case Call(r) => Rank(r) < rank
  }

  /** Whether the success of a rule writes a tree. */
  predicate RuleFeeds(r: Rule) {
    WriterOf(r).Writes? || r.PosAtom? || r.Atom? || r.Expression? || r.TypeClaim?
  }

  /** Whether the success of a parser writes a tree. */
  predicate Feeds(p: Parser) {
    match p
    case Then(a, b) => Feeds(a) || Feeds(b)
    case Fail => true
    case Else(a, b) => Feeds(a) && Feeds(b)
    case Call(r) => RuleFeeds(r)
    case _ => false
  }

  /** What a rule needs of its parser: it only calls rules under `rank` before it takes a token, its repetitions
      take tokens, it does not name the end of the input, and it takes tokens and feeds nodes where it has to. */
  predicate Fine(p: Parser, rank: nat, consumes: bool, feeds: bool) {
    Guarded(p, rank) && (consumes ==> Consumes(p)) && (feeds ==> Feeds(p))
  }

  predicate MustFeed(r: Rule) {
    if WriterOf(r).Writes? then K.NeedsChild(WriterOf(r).kind) else RuleFeeds(r)
  }

  ghost predicate Sane(r: Rule) {
    Rank(r) < TOP && Fine(Body(r), Rank(r), RuleConsumes(r), MustFeed(r))
  }
}

/** Why parsing with the grammar ends. */
module GrammarSanity {
  import T = Tokens
  import opened Grammar

  lemma SaneBy(r: Rule, p: Parser, rank: nat, consumes: bool, feeds: bool)
    requires Body(r) == p && Rank(r) == rank < TOP && RuleConsumes(r) == consumes && MustFeed(r) == feeds
    requires Fine(p, rank, consumes, feeds)
    ensures Sane(r)
  {
  }

  lemma Seq2Facts(a: Parser, b: Parser, rank: nat)
    ensures Guarded(Seq2(a, b), rank) == (Guarded(a, rank) && Guarded(b, if Consumes(a) then TOP else rank))
    ensures Consumes(Seq2(a, b)) == (Consumes(a) || Consumes(b))
  {
    var last := Then(b, Empty);
    assert Consumes(last) == Consumes(b);
    assert Guarded(last, if Consumes(a) then TOP else rank) == Guarded(b, if Consumes(a) then TOP else rank);
  }

  lemma Alt2Facts(a: Parser, b: Parser, rank: nat)
    ensures Guarded(Alt2(a, b), rank) == (Guarded(a, rank) && Guarded(b, rank))
    ensures Consumes(Alt2(a, b)) == (Consumes(a) && Consumes(b))
  {
    var last := Else(b, Fail);
    assert Guarded(Fail, rank) && Consumes(Fail);
    assert Consumes(last) == Consumes(b);
    assert Guarded(last, rank) == Guarded(b, rank);
  }

  /** Contents take tokens at every turn. */
  lemma ContentsAreFine(inner: Rule, rank: nat)
    requires Rank(inner) < rank && RuleConsumes(inner) && 3 < rank
    ensures Fine(ContentsParser(inner), rank, false, false)
  {
    var last := Alt2(Call(RcvImport), Call(inner));
    Alt2Facts(Call(RcvImport), Call(inner), rank);
    var all := Else(Call(RcvDefinition), last);
    assert Consumes(all) && Guarded(all, rank);
    assert ContentsParser(inner) == Rep(all);
  }

  lemma ModuleBodyIsFine(p: Parser)
    requires Guarded(p, TOP)
    ensures Fine(Alt2(Seq2(Tok(T.SEMI_COLON), p), Seq3(Tok(T.BRA_LEFT), p, Tok(T.BRA_RIGHT))), TOP, true, false)
  {
    var a, last := Seq2(Tok(T.SEMI_COLON), p), Seq2(p, Tok(T.BRA_RIGHT));
    var b := Then(Tok(T.BRA_LEFT), last);
    Seq2Facts(Tok(T.SEMI_COLON), p, TOP);
    Seq2Facts(p, Tok(T.BRA_RIGHT), TOP);
    assert Consumes(b) && Guarded(b, TOP);
    Alt2Facts(a, b, TOP);
  }

  lemma ModuleIsFine(p: Parser)
    requires Fine(p, TOP, true, false)
    ensures Fine(Seq3(Tok(T.MODULE), Call(Path), p), 0, true, false)
  {
    Seq2Facts(Call(Path), p, TOP);
  }

  lemma AlternativeIsFine(a: Rule, b: Rule, rank: nat)
    requires Rank(a) < rank && Rank(b) < rank && RuleConsumes(a) && RuleConsumes(b)
    ensures Fine(Alt2(Call(a), Call(b)), rank, true, false)
  {
    Alt2Facts(Call(a), Call(b), rank);
  }

  lemma PosAtomIsFine()
    ensures Fine(PosAtomParser(), 2, true, true)
  {
    hide Fine;
    AtomKindsAreFine();
    OptionalIsFine(T.PLUS, Alt4(Call(Path), Call(LitInteger), Call(LitDecimal),
                                Seq3(Tok(T.PAR_LEFT), Call(Expression), Tok(T.PAR_RIGHT))), 2);
  }

  lemma OptionalIsFine(t: T.Token, p: Parser, rank: nat)
    requires Fine(p, rank, true, true) && t != T.END_OF_INPUT
    ensures Fine(Seq2(Opt(Tok(t)), p), rank, true, true)
  {
    Seq2Facts(Opt(Tok(t)), p, rank);
  }

  lemma AtomKindsAreFine()
    ensures var nested := Seq3(Tok(T.PAR_LEFT), Call(Expression), Tok(T.PAR_RIGHT));
            Fine(Alt4(Call(Path), Call(LitInteger), Call(LitDecimal), nested), 2, true, true)
  {
  }

  lemma RawFunctionIsFine()
    ensures Fine(RawFunctionParser(), 0, true, false)
  {
  }

  lemma RawDefinitionIsFine()
    ensures Fine(RawDefinitionParser(), 2, true, false)
  {
  }

  lemma LitIntegerIsSane()
    ensures Sane(LitInteger)
  {
    SaneBy(LitInteger, LitIntegerParser(), 0, true, false);
  }

  lemma LitDecimalIsSane()
    ensures Sane(LitDecimal)
  {
    SaneBy(LitDecimal, LitDecimalParser(), 0, true, false);
  }

  lemma IdentifierIsSane()
    ensures Sane(Identifier)
  {
    SaneBy(Identifier, IdentifierParser(), 0, true, false);
  }

  lemma OpPathIsSane()
    ensures Sane(OpPath)
  {
    SaneBy(OpPath, OpPathParser(), 0, true, false);
  }

  lemma PathIsSane()
    ensures Sane(Path)
  {
    SaneBy(Path, PathParser(), 1, true, true);
  }

  lemma PosAtomIsSane()
    ensures Sane(PosAtom)
  {
    hide Fine;
    PosAtomIsFine();
    SaneBy(PosAtom, PosAtomParser(), 2, true, true);
  }

  lemma NegAtomIsSane()
    ensures Sane(NegAtom)
  {
    SaneBy(NegAtom, NegAtomParser(), 0, true, false);
  }

  lemma AtomIsSane()
    ensures Sane(Atom)
  {
    SaneBy(Atom, AtomParser(), 3, true, true);
  }

  lemma OpProductIsSane()
    ensures Sane(OpProduct)
  {
    SaneBy(OpProduct, OpProductParser(), 0, true, false);
  }

  lemma ProductIsSane()
    ensures Sane(Product)
  {
    SaneBy(Product, ProductParser(), 4, true, true);
  }

  lemma OpSumIsSane()
    ensures Sane(OpSum)
  {
    SaneBy(OpSum, OpSumParser(), 0, true, false);
  }

  lemma SumIsSane()
    ensures Sane(Sum)
  {
    SaneBy(Sum, SumParser(), 5, true, true);
  }

  lemma OpComparisonIsSane()
    ensures Sane(OpComparison)
  {
    SaneBy(OpComparison, OpComparisonParser(), 0, true, false);
  }

  lemma ComparisonIsSane()
    ensures Sane(Comparison)
  {
    SaneBy(Comparison, ComparisonParser(), 6, true, true);
  }

  lemma OpAssignIsSane()
    ensures Sane(OpAssign)
  {
    SaneBy(OpAssign, OpAssignParser(), 0, true, false);
  }

  lemma AssignmentIsSane()
    ensures Sane(Assignment)
  {
    SaneBy(Assignment, AssignmentParser(), 7, true, true);
  }

  lemma FunCallIsSane()
    ensures Sane(FunCall)
  {
    SaneBy(FunCall, FunCallParser(), 1, true, true);
  }

  lemma ExpressionIsSane()
    ensures Sane(Expression)
  {
    SaneBy(Expression, ExpressionParser(), 8, true, true);
  }

  lemma StmReturnIsSane()
    ensures Sane(StmReturn)
  {
    SaneBy(StmReturn, StmReturnParser(), 0, true, false);
  }

  lemma TypeClaimIsSane()
    ensures Sane(TypeClaim)
  {
    SaneBy(TypeClaim, TypeClaimParser(), 1, true, true);
  }

  lemma DclVariableIsSane()
    ensures Sane(DclVariable)
  {
    SaneBy(DclVariable, DclVariableParser(), 0, true, false);
  }

  lemma RawScopeElemIsSane()
    ensures Sane(RawScopeElem)
  {
    SaneBy(RawScopeElem, RawScopeElemParser(), 9, true, false);
  }

  lemma SkpScopeElemIsSane()
    ensures Sane(SkpScopeElem)
  {
    SaneBy(SkpScopeElem, SkpScopeElemParser(), 0, true, false);
  }

  lemma RcvScopeElemIsSane()
    ensures Sane(RcvScopeElem)
  {
    hide Fine;
    AlternativeIsFine(RawScopeElem, SkpScopeElem, 10);
    SaneBy(RcvScopeElem, RcvScopeElemParser(), 10, true, false);
  }

  lemma RawScopeIsSane()
    ensures Sane(RawScope)
  {
    SaneBy(RawScope, RawScopeParser(), 0, true, false);
  }

  lemma SkpScopeIsSane()
    ensures Sane(SkpScope)
  {
    SaneBy(SkpScope, SkpScopeParser(), 0, true, false);
  }

  lemma RcvScopeIsSane()
    ensures Sane(RcvScope)
  {
    hide Fine;
    AlternativeIsFine(RawScope, SkpScope, 1);
    SaneBy(RcvScope, RcvScopeParser(), 1, true, false);
  }

  lemma ScopeIsSane()
    ensures Sane(Scope)
  {
    SaneBy(Scope, ScopeParser(), 2, true, false);
  }

  lemma FunArgumentsIsSane()
    ensures Sane(FunArguments)
  {
    SaneBy(FunArguments, FunArgumentsParser(), 0, true, false);
  }

  lemma RawFunctionIsSane()
    ensures Sane(RawFunction)
  {
    hide Fine;
    RawFunctionIsFine();
    SaneBy(RawFunction, RawFunctionParser(), 0, true, false);
  }

  lemma SkpFunctionIsSane()
    ensures Sane(SkpFunction)
  {
    SaneBy(SkpFunction, SkpFunctionParser(), 0, true, false);
  }

  lemma RcvFunctionIsSane()
    ensures Sane(RcvFunction)
  {
    hide Fine;
    AlternativeIsFine(RawFunction, SkpFunction, 1);
    SaneBy(RcvFunction, RcvFunctionParser(), 1, true, false);
  }

  lemma ClsMembersIsSane()
    ensures Sane(ClsMembers)
  {
    SaneBy(ClsMembers, ClsMembersParser(), 0, true, false);
  }

  lemma RawClassIsSane()
    ensures Sane(RawClass)
  {
    SaneBy(RawClass, RawClassParser(), 0, true, false);
  }

  lemma SkpClassIsSane()
    ensures Sane(SkpClass)
  {
    SaneBy(SkpClass, SkpClassParser(), 0, true, false);
  }

  lemma RcvClassIsSane()
    ensures Sane(RcvClass)
  {
    hide Fine;
    AlternativeIsFine(RawClass, SkpClass, 1);
    SaneBy(RcvClass, RcvClassParser(), 1, true, false);
  }

  lemma RawExportIsSane()
    ensures Sane(RawExport)
  {
    SaneBy(RawExport, RawExportParser(), 0, true, false);
  }

  lemma RawDefinitionIsSane()
    ensures Sane(RawDefinition)
  {
    hide Fine;
    RawDefinitionIsFine();
    SaneBy(RawDefinition, RawDefinitionParser(), 2, true, false);
  }

  lemma SkpDefinitionIsSane()
    ensures Sane(SkpDefinition)
  {
    SaneBy(SkpDefinition, SkpDefinitionParser(), 0, true, false);
  }

  lemma RcvDefinitionIsSane()
    ensures Sane(RcvDefinition)
  {
    hide Fine;
    AlternativeIsFine(RawDefinition, SkpDefinition, 3);
    SaneBy(RcvDefinition, RcvDefinitionParser(), 3, true, false);
  }

  lemma RawImportIsSane()
    ensures Sane(RawImport)
  {
    SaneBy(RawImport, RawImportParser(), 0, true, false);
  }

  lemma SkpImportIsSane()
    ensures Sane(SkpImport)
  {
    SaneBy(SkpImport, SkpImportParser(), 0, true, false);
  }

  lemma RawModuleIsSane()
    ensures Sane(RawModule)
  {
    hide Fine;
    ContentsAreFine(RawModule, TOP);
    ModuleBodyIsFine(ContentsParser(RawModule));
    ModuleIsFine(ModuleBodyParser());
    SaneBy(RawModule, RawModuleParser(), 0, true, false);
  }

  lemma RcvImportIsSane()
    ensures Sane(RcvImport)
  {
    hide Fine;
    AlternativeIsFine(RawImport, SkpImport, 1);
    SaneBy(RcvImport, RcvImportParser(), 1, true, false);
  }

  lemma SkpModuleIsSane()
    ensures Sane(SkpModule)
  {
    SaneBy(SkpModule, SkpModuleParser(), 0, true, false);
  }

  lemma RcvModuleIsSane()
    ensures Sane(RcvModule)
  {
    hide Fine;
    AlternativeIsFine(RawModule, SkpModule, 1);
    SaneBy(RcvModule, RcvModuleParser(), 1, true, false);
  }

  lemma RootModuleIsSane()
    ensures Sane(RootModule)
  {
    hide Fine;
    ContentsAreFine(RcvModule, 4);
    SaneBy(RootModule, RootModuleParser(), 4, false, false);
  }

  /** No rule is left-recursive, no repetition stands still, no rule names the end of the input. */
  lemma GrammarIsSane(r: Rule)
    ensures Sane(r)
  {
    hide Sane;
    match r
    case LitInteger => LitIntegerIsSane();
    case LitDecimal => LitDecimalIsSane();
    case Identifier => IdentifierIsSane();
    case OpPath => OpPathIsSane();
    case Path => PathIsSane();
    case PosAtom => PosAtomIsSane();
    case NegAtom => NegAtomIsSane();
    case Atom => AtomIsSane();
    case OpProduct => OpProductIsSane();
    case Product => ProductIsSane();
    case OpSum => OpSumIsSane();
    case Sum => SumIsSane();
    case OpComparison => OpComparisonIsSane();
    case Comparison => ComparisonIsSane();
    case OpAssign => OpAssignIsSane();
    case Assignment => AssignmentIsSane();
    case FunCall => FunCallIsSane();
    case Expression => ExpressionIsSane();
    case StmReturn => StmReturnIsSane();
    case TypeClaim => TypeClaimIsSane();
    case DclVariable => DclVariableIsSane();
    case RawScopeElem => RawScopeElemIsSane();
    case SkpScopeElem => SkpScopeElemIsSane();
    case RcvScopeElem => RcvScopeElemIsSane();
    case RawScope => RawScopeIsSane();
    case SkpScope => SkpScopeIsSane();
    case RcvScope => RcvScopeIsSane();
    case Scope => ScopeIsSane();
    case FunArguments => FunArgumentsIsSane();
    case RawFunction => RawFunctionIsSane();
    case SkpFunction => SkpFunctionIsSane();
    case RcvFunction => RcvFunctionIsSane();
    case ClsMembers => ClsMembersIsSane();
    case RawClass => RawClassIsSane();
    case SkpClass => SkpClassIsSane();
    case RcvClass => RcvClassIsSane();
    case RawExport => RawExportIsSane();
    case RawDefinition => RawDefinitionIsSane();
    case SkpDefinition => SkpDefinitionIsSane();
    case RcvDefinition => RcvDefinitionIsSane();
    case RawImport => RawImportIsSane();
    case SkpImport => SkpImportIsSane();
    case RawModule => RawModuleIsSane();
    case RcvImport => RcvImportIsSane();
    case SkpModule => SkpModuleIsSane();
    case RcvModule => RcvModuleIsSane();
    case RootModule => RootModuleIsSane();
  }
}
