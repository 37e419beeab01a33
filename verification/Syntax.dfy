/** Expressions, statements, definitions and modules as they are meant, the tokens that spell them, and the trees that
    stand for them. */
module Syntax {
  import opened ParseTree
  import T = Tokens
  import opened ParserMeaning
  import opened ParserRuns

  /** A name of some parts, a literal, an expression in brackets, one with a sign, operands with operators between them,
      or a call. */
  datatype Syntax =
    | Name(more: nat)
    | Whole
    | Fraction
    | Group(inner: Syntax)
    | Signed(inner: Syntax)
    | Opposed(inner: Syntax)
    | Chain(first: Syntax, links: Links)
    | Apply(args: seq<Syntax>)

  datatype Links = Done | More(op: T.Token, operand: Syntax, rest: Links)

  /** How loosely a token binds what stands around it. */
  function Strength(t: T.Token): nat {
    match t
    case DOT => 1
    case STAR => 3
    case SLASH => 3
    case PERCENT => 3
    case PLUS => 4
    case MINUS => 4
    case KET_LEFT => 5
    case KET_RIGHT => 5
    case KET_LEFT_EQUAL => 5
    case KET_RIGHT_EQUAL => 5
    case EQUAL => 6
    case PLUS_EQUAL => 6
    case MINUS_EQUAL => 6
    case STAR_EQUAL => 6
    case SLASH_EQUAL => 6
    case PERCENT_EQUAL => 6
    case PAR_LEFT => 7
    case _ => 8
  }

  /** How loosely an expression is bound: operands, signs, then the operators, and calls, which stand alone. */
  function Level(x: Syntax): nat {
    match x
    case Signed(_) => 1
    case Opposed(_) => 2
    case Chain(_, links) => if links.Done? then 8 else Strength(links.op)
    case Apply(_) => 7
    case _ => 0
  }

  /** Operands are bound more tightly than the operators around them, but for what is assigned, which may be an
      assignment. There are no chains of comparisons. */
  ghost predicate WellFormed(x: Syntax)
    decreases x
  {
    match x
    case Group(e) => WellFormed(e)
    case Signed(e) => WellFormed(e) && Level(e) == 0
    case Opposed(e) => WellFormed(e) && Level(e) <= 1
    case Chain(first, links) =>
      var level := Level(x);
      && 3 <= level <= 6 && WellFormed(first) && Level(first) < level && (level >= 5 ==> links.rest.Done?)
      && AllLinked(links, level)
    case Apply(args) => forall i :: 0 <= i < |args| ==> WellFormed(args[i])
    case _ => true
  }

  ghost predicate AllLinked(links: Links, level: nat)
    decreases links
  {
    match links
    case Done => true
    case More(op, operand, rest) =>
      && Strength(op) == level && WellFormed(operand) && Level(operand) < (if level == 6 then 7 else level)
      && AllLinked(rest, level)
  }

  // ---------- tokens ----------

  function Print(x: Syntax): (ts: seq<T.Token>)
    ensures ts != []
    decreases x
  {
    match x
    case Name(more) => [T.IDENTIFIER] + PrintPoints(more)
    case Whole => [T.LIT_INTEGER]
    case Fraction => [T.LIT_DECIMAL]
    case Group(e) => [T.PAR_LEFT] + (Print(e) + [T.PAR_RIGHT])
    case Signed(e) => [T.PLUS] + Print(e)
    case Opposed(e) => [T.MINUS] + Print(e)
    case Chain(first, links) => Print(first) + PrintLinks(links)
    case Apply(args) => [T.IDENTIFIER] + ([T.PAR_LEFT] + (PrintArgs(args) + [T.PAR_RIGHT]))
  }

  function PrintPoints(more: nat): seq<T.Token> {
    if more == 0 then [] else [T.DOT] + ([T.IDENTIFIER] + PrintPoints(more - 1))
  }

  function PrintLinks(links: Links): seq<T.Token>
    decreases links
  {
    match links
    case Done => []
    case More(op, operand, rest) => [op] + (Print(operand) + PrintLinks(rest))
  }

  function PrintArgs(args: seq<Syntax>): seq<T.Token>
    decreases args
  {
    if args == [] then [] else Print(args[0]) + PrintCommas(args[1..])
  }

  function PrintCommas(args: seq<Syntax>): seq<T.Token>
    decreases args
  {
    if args == [] then [] else [T.COMMA] + (Print(args[0]) + PrintCommas(args[1..]))
  }

  // ---------- trees ----------

  /** A node over `n` tokens. */
  function Over(tokens: seq<T.Token>, kind: Kind, children: seq<Tree>, head: nat, n: nat): Tree
    requires Reader(tokens, head)
  {
    Tree(kind, children, Offset(tokens, head), Offset(tokens, At(tokens, head, n)))
  }

  function Leaf(tokens: seq<T.Token>, kind: Kind, head: nat): Tree
    requires Reader(tokens, head)
  {
    Over(tokens, kind, [], head, 1)
  }

  /** The tree of an expression whose tokens stand at `head`. */
  function TreeOf(tokens: seq<T.Token>, x: Syntax, head: nat): Tree
    requires Reader(tokens, head)
    decreases x
  {
    match x
    case Name(more) => NameTree(tokens, more, head)
    case Whole => Leaf(tokens, LIT_INTEGER, head)
    case Fraction => Leaf(tokens, LIT_DECIMAL, head)
    case Group(e) => TreeOf(tokens, e, At(tokens, head, 1))
    case Signed(e) => TreeOf(tokens, e, At(tokens, head, 1))
    case Opposed(e) => Over(tokens, EXP_OPPOSE, [TreeOf(tokens, e, At(tokens, head, 1))], head, |Print(x)|)
    case Chain(first, links) =>
      Over(tokens, if Level(x) == 6 then EXP_ASSIGN else EXP_BINOP,
           [TreeOf(tokens, first, head)] + LinkTrees(tokens, links, At(tokens, head, |Print(first)|)), head, |Print(x)|)
    case Apply(args) =>
      Over(tokens, FUN_CALL, [Leaf(tokens, IDENTIFIER, head)] + ArgTrees(tokens, args, At(tokens, head, 2)), head,
           |Print(x)|)
  }

  /** Names of several parts nest to the right. */
  function NameTree(tokens: seq<T.Token>, more: nat, head: nat): Tree
    requires Reader(tokens, head)
    decreases more
  {
    if more == 0 then Leaf(tokens, IDENTIFIER, head)
    else
      Over(tokens, EXP_BINOP,
           [Leaf(tokens, IDENTIFIER, head), Leaf(tokens, EXP_OPERATOR, At(tokens, head, 1)),
            NameTree(tokens, more - 1, At(tokens, head, 2))], head, 1 + 2 * more)
  }

  /** Operators and operands in turn. */
  function LinkTrees(tokens: seq<T.Token>, links: Links, head: nat): seq<Tree>
    requires Reader(tokens, head)
    decreases links
  {
    match links
    case Done => []
    case More(_, operand, rest) =>
      [Leaf(tokens, EXP_OPERATOR, head), TreeOf(tokens, operand, At(tokens, head, 1))]
      + LinkTrees(tokens, rest, At(tokens, head, 1 + |Print(operand)|))
  }

  function ArgTrees(tokens: seq<T.Token>, args: seq<Syntax>, head: nat): seq<Tree>
    requires Reader(tokens, head)
    decreases args
  {
    if args == [] then []
    else [TreeOf(tokens, args[0], head)] + CommaTrees(tokens, args[1..], At(tokens, head, |Print(args[0])|))
  }

  function CommaTrees(tokens: seq<T.Token>, args: seq<Syntax>, head: nat): seq<Tree>
    requires Reader(tokens, head)
    decreases args
  {
    if args == [] then []
    else
      [TreeOf(tokens, args[0], At(tokens, head, 1))]
      + CommaTrees(tokens, args[1..], At(tokens, head, 1 + |Print(args[0])|))
  }

  // ---------- statements ----------

  /** A declaration, a returned or an evaluated expression, nothing, or a scope. */
  datatype Statement =
    | Let
    | Return(value: Syntax)
    | Evaluate(value: Syntax)
    | Nothing
    | Block(body: seq<Statement>)

  ghost predicate StatementFits(s: Statement)
    decreases s
  {
    match s
    case Return(e) => WellFormed(e)
    case Evaluate(e) => WellFormed(e)
    case Block(body) => AllFit(body)
    case _ => true
  }

  ghost predicate AllFit(ss: seq<Statement>)
    decreases ss
  {
    ss == [] || (StatementFits(ss[0]) && AllFit(ss[1..]))
  }

  function PrintStatement(s: Statement): (ts: seq<T.Token>)
    ensures ts != []
    decreases s
  {
    match s
    case Let => [T.LET] + (PrintClaim() + [T.SEMI_COLON])
    case Return(e) => [T.RETURN] + (Print(e) + [T.SEMI_COLON])
    case Evaluate(e) => Print(e) + [T.SEMI_COLON]
    case Nothing => [T.SEMI_COLON]
    case Block(body) => [T.BRA_LEFT] + (PrintAll(body) + [T.BRA_RIGHT])
  }

  function PrintAll(ss: seq<Statement>): seq<T.Token>
    decreases ss
  {
    if ss == [] then [] else PrintStatement(ss[0]) + PrintAll(ss[1..])
  }

  /** A name with its type. */
  function PrintClaim(): seq<T.Token> { [T.IDENTIFIER, T.COLON, T.IDENTIFIER] }

  function ClaimTrees(tokens: seq<T.Token>, head: nat): seq<Tree>
    requires Reader(tokens, head)
  {
    [Leaf(tokens, IDENTIFIER, head), Leaf(tokens, IDENTIFIER, At(tokens, head, 2))]
  }

  /** The tree of a statement, if it has one. */
  function StatementTrees(tokens: seq<T.Token>, s: Statement, head: nat): seq<Tree>
    requires Reader(tokens, head)
    decreases s
  {
    match s
    case Let => [Over(tokens, DCL_VARIABLE, ClaimTrees(tokens, At(tokens, head, 1)), head, 4)]
    case Return(e) => [Over(tokens, STM_RETURN, [TreeOf(tokens, e, At(tokens, head, 1))], head, 1 + |Print(e)|)]
    case Evaluate(e) => [TreeOf(tokens, e, head)]
    case Nothing => []
    case Block(body) =>
      [Over(tokens, SCOPE, AllTrees(tokens, body, At(tokens, head, 1)), head, |PrintAll(body)| + 2)]
  }

  function AllTrees(tokens: seq<T.Token>, ss: seq<Statement>, head: nat): seq<Tree>
    requires Reader(tokens, head)
    decreases ss
  {
    if ss == [] then []
    else
      StatementTrees(tokens, ss[0], head)
      + AllTrees(tokens, ss[1..], At(tokens, head, |PrintStatement(ss[0])|))
  }

  // ---------- definitions and modules ----------

  /** A function with the number of its arguments, and whether the type of its result is told; a class with the number
      of its members. */
  datatype Definition =
    | Function(args: nat, typed: bool, body: seq<Statement>)
    | Class(members: nat)

  /** A definition, an import, or a module, whose parts stand between braces or behind a semicolon. */
  datatype Part =
    | Defined(exported: bool, definition: Definition)
    | Imported(more: nat)
    | Nested(more: nat, braced: bool, parts: seq<Part>)

  ghost predicate PartFits(p: Part)
    decreases p
  {
    match p
    case Defined(_, d) => d.Function? ==> AllFit(d.body)
    case Imported(_) => true
    case Nested(_, _, parts) => PartsFit(parts)
  }

  /** A module behind a semicolon takes all that follows, so that it comes last. */
  ghost predicate PartsFit(ps: seq<Part>)
    decreases ps
  {
    ps == []
    || (PartFits(ps[0]) && PartsFit(ps[1..]) && (ps[0].Nested? && !ps[0].braced ==> |ps| == 1))
  }

  function PrintClaims(n: nat): seq<T.Token> {
    if n == 0 then [] else PrintClaim() + PrintMoreClaims(n - 1)
  }

  function PrintMoreClaims(n: nat): seq<T.Token> {
    if n == 0 then [] else [T.COMMA] + (PrintClaim() + PrintMoreClaims(n - 1))
  }

  function PrintArguments(n: nat): seq<T.Token> { [T.PAR_LEFT] + (PrintClaims(n) + [T.PAR_RIGHT]) }

  function PrintResult(typed: bool): seq<T.Token> {
    if typed then [T.MINUS_KET_RIGHT] + [T.IDENTIFIER] else []
  }

  function PrintMembers(n: nat): seq<T.Token> {
    if n == 0 then [] else PrintClaim() + ([T.SEMI_COLON] + PrintMembers(n - 1))
  }

  function PrintDefinition(d: Definition): (ts: seq<T.Token>)
    ensures ts != []
  {
    match d
    case Function(args, typed, body) =>
      [T.FUNC] + ([T.IDENTIFIER] + (PrintArguments(args) + (PrintResult(typed) + PrintStatement(Block(body)))))
    case Class(members) => [T.CLASS] + ([T.IDENTIFIER] + ([T.BRA_LEFT] + (PrintMembers(members) + [T.BRA_RIGHT])))
  }

  function PrintPart(p: Part): (ts: seq<T.Token>)
    ensures ts != []
    decreases p
  {
    match p
    case Defined(exported, d) => if exported then [T.EXPORT] + PrintDefinition(d) else PrintDefinition(d)
    case Imported(more) => [T.IMPORT] + (Print(Name(more)) + [T.SEMI_COLON])
    case Nested(more, braced, parts) =>
      [T.MODULE]
      + (Print(Name(more))
         + if braced then [T.BRA_LEFT] + (PrintParts(parts) + [T.BRA_RIGHT]) else [T.SEMI_COLON] + PrintParts(parts))
  }

  function PrintParts(ps: seq<Part>): seq<T.Token>
    decreases ps
  {
    if ps == [] then [] else PrintPart(ps[0]) + PrintParts(ps[1..])
  }

  function ClaimsTrees(tokens: seq<T.Token>, n: nat, head: nat): seq<Tree>
    requires Reader(tokens, head)
  {
    if n == 0 then [] else ClaimTrees(tokens, head) + MoreClaimsTrees(tokens, n - 1, At(tokens, head, 3))
  }

  function MoreClaimsTrees(tokens: seq<T.Token>, n: nat, head: nat): seq<Tree>
    requires Reader(tokens, head)
    decreases n
  {
    if n == 0 then []
    else ClaimTrees(tokens, At(tokens, head, 1)) + MoreClaimsTrees(tokens, n - 1, At(tokens, head, 4))
  }

  function MembersTrees(tokens: seq<T.Token>, n: nat, head: nat): seq<Tree>
    requires Reader(tokens, head)
    decreases n
  {
    if n == 0 then [] else ClaimTrees(tokens, head) + MembersTrees(tokens, n - 1, At(tokens, head, 4))
  }

  function ArgumentsTree(tokens: seq<T.Token>, n: nat, head: nat): Tree
    requires Reader(tokens, head)
  {
    Over(tokens, FUN_ARGUMENTS, ClaimsTrees(tokens, n, At(tokens, head, 1)), head, |PrintArguments(n)|)
  }

  function ResultTrees(tokens: seq<T.Token>, typed: bool, head: nat): seq<Tree>
    requires Reader(tokens, head)
  {
    if typed then [Leaf(tokens, IDENTIFIER, At(tokens, head, 1))] else []
  }

  function DefinitionTree(tokens: seq<T.Token>, d: Definition, head: nat): Tree
    requires Reader(tokens, head)
  {
    var name := Leaf(tokens, IDENTIFIER, At(tokens, head, 1));
    var args := At(tokens, head, 2);
    match d
    case Function(n, typed, body) =>
      var result := At(tokens, args, |PrintArguments(n)|);
      var scope := At(tokens, result, |PrintResult(typed)|);
      Over(tokens, DEF_FUNCTION,
           [name] + ([ArgumentsTree(tokens, n, args)]
                     + (ResultTrees(tokens, typed, result) + StatementTrees(tokens, Block(body), scope))),
           head, |PrintDefinition(d)|)
    case Class(n) =>
      var members := Over(tokens, CLS_MEMBERS, MembersTrees(tokens, n, At(tokens, args, 1)), args,
                          |PrintMembers(n)| + 2);
      Over(tokens, DEF_CLASS, [name] + [members], head, |PrintDefinition(d)|)
  }

  function PartTree(tokens: seq<T.Token>, p: Part, head: nat): Tree
    requires Reader(tokens, head)
    decreases p
  {
    match p
    case Defined(exported, d) =>
      Over(tokens, DEFINITION,
           if exported then [Leaf(tokens, DCL_EXPORT, head)] + [DefinitionTree(tokens, d, At(tokens, head, 1))]
           else [DefinitionTree(tokens, d, head)], head, |PrintPart(p)|)
    case Imported(more) =>
      Over(tokens, DCL_IMPORT, [NameTree(tokens, more, At(tokens, head, 1))], head, |PrintPart(p)|)
    case Nested(more, _, parts) =>
      var name := At(tokens, head, 1);
      var mark := At(tokens, name, |Print(Name(more))|);
      Over(tokens, MODULE,
           [NameTree(tokens, more, name)] + PartTrees(tokens, parts, At(tokens, mark, 1)), head, |PrintPart(p)|)
  }

  function PartTrees(tokens: seq<T.Token>, ps: seq<Part>, head: nat): seq<Tree>
    requires Reader(tokens, head)
    decreases ps
  {
    if ps == [] then []
    else [PartTree(tokens, ps[0], head)] + PartTrees(tokens, ps[1..], At(tokens, head, |PrintPart(ps[0])|))
  }
}
