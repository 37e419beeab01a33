/** What the builder makes of a parsed tree, in terms of its tokens. */
module AstTokens {
  import opened ParseTree
  import T = Tokens
  import opened ParserLexemes
  import opened ParserStarts
  import opened ParserTrees
  import opened AstBuilder

  // ---------- expressions ----------

  /** The tokens that stand between operands, and between a name and what is assigned to it. */
  predicate Operates(t: T.Token) {
    t.DOT? || t.STAR? || t.SLASH? || t.PERCENT? || t.PLUS? || t.MINUS? || t.KET_LEFT? || t.KET_RIGHT?
    || t.KET_LEFT_EQUAL? || t.KET_RIGHT_EQUAL? || t.EQUAL? || t.PLUS_EQUAL? || t.MINUS_EQUAL? || t.STAR_EQUAL?
    || t.SLASH_EQUAL? || t.PERCENT_EQUAL?
  }

  /** The lexemes of an expression lead to tokens of their sort: names to identifiers, numbers to integer literals,
      operators to operators. */
  ghost predicate Told(tokens: seq<T.Token>, e: Expr)
    decreases e
  {
    match e
    case Ident(l) => TokenAt(tokens, l) == T.IDENTIFIER
    case Integer(l) => TokenAt(tokens, l) == T.LIT_INTEGER
    case Binop(lhs, op, rhs) => Told(tokens, lhs) && Operates(TokenAt(tokens, op)) && Told(tokens, rhs)
    case Assign(p, op, rhs) =>
      TokenAt(tokens, p) == T.IDENTIFIER && Operates(TokenAt(tokens, op)) && Told(tokens, rhs)
    case Call(callee, args) =>
      TokenAt(tokens, callee) == T.IDENTIFIER && forall i :: 0 <= i < |args| ==> Told(tokens, args[i])
  }

  lemma LeafTold(tokens: seq<T.Token>, t: Tree, bound: nat)
    requires Proper(tokens, t, bound)
    ensures t.kind.IDENTIFIER? ==> TokenAt(tokens, t.start) == T.IDENTIFIER
    ensures t.kind.LIT_INTEGER? ==> TokenAt(tokens, t.start) == T.LIT_INTEGER
    ensures t.kind.EXP_OPERATOR? ==> Operates(TokenAt(tokens, t.start))
  {
  }

  lemma ProperChild(tokens: seq<T.Token>, ts: seq<Tree>, bound: nat, i: nat)
    requires AllProper(tokens, ts, bound) && i < |ts|
    ensures Proper(tokens, ts[i], bound)
    ensures Alternating(ts) && i % 2 == 1 ==> ts[i].kind.EXP_OPERATOR?
  {
    hide Proper;
  }

  lemma ProperPart(tokens: seq<T.Token>, ts: seq<Tree>, bound: nat, lo: nat, hi: nat)
    requires AllProper(tokens, ts, bound) && lo <= hi <= |ts|
    ensures AllProper(tokens, ts[lo..hi], bound)
    ensures Alternating(ts) && lo == 0 ==> Alternating(ts[lo..hi])
  {
    hide Proper;
  }

  lemma ChildrenProper(tokens: seq<T.Token>, t: Tree, bound: nat)
    requires Proper(tokens, t, bound)
    ensures AllProper(tokens, t.children, t.start) && Childed(t.kind, t.children)
    ensures Starts(t.kind, TokenAt(tokens, t.start)) && (t.kind.SCOPE? ==> AllBraced(tokens, t.children))
  {
  }

  /** Every expression that is built from a parsed tree has the lexemes of its sort. */
  lemma {:induction false} ExpressionTold(tokens: seq<T.Token>, t: Tree, bound: nat)
    requires Proper(tokens, t, bound) && AstOf(t).Some?
    ensures Told(tokens, AstOf(t).value)
    decreases t
  {
    hide Proper, Alternating, AllProper, ChainAst, AssignAst, CallAst;
    ChildrenProper(tokens, t, bound);
    LeafTold(tokens, t, bound);
    match t.kind {
      case EXP_BINOP => ChainTold(tokens, t.children, t.start);
      case EXP_ASSIGN => AssignTold(tokens, t.children, t.start);
      case FUN_CALL => CallTold(tokens, t.children, t.start);
      case _ =>
    }
  }

  lemma {:induction false} ChainTold(tokens: seq<T.Token>, ts: seq<Tree>, bound: nat)
    requires AllProper(tokens, ts, bound) && Alternating(ts) && ChainAst(ts).Some?
    ensures Told(tokens, ChainAst(ts).value)
    decreases ts
  {
    hide Proper, Alternating, AllProper, AstOf, Operates;
    var n := |ts|;
    ChainBuiltIff(ts);
    ProperChild(tokens, ts, bound, n - 1);
    ProperChild(tokens, ts, bound, n - 2);
    ProperPart(tokens, ts, bound, 0, n - 2);
    ExpressionTold(tokens, ts[n - 1], bound);
    LeafTold(tokens, ts[n - 2], bound);
    if n == 3 {
      ProperChild(tokens, ts, bound, 0);
      ExpressionTold(tokens, ts[0], bound);
    } else {
      assert ts[0..n - 2] == ts[..n - 2];
      ChainTold(tokens, ts[..n - 2], bound);
    }
  }

  lemma {:induction false} AssignTold(tokens: seq<T.Token>, ts: seq<Tree>, bound: nat)
    requires AllProper(tokens, ts, bound) && Alternating(ts) && |ts| <= 3 && AssignAst(ts).Some?
    ensures Told(tokens, AssignAst(ts).value)
    decreases ts
  {
    hide Proper, Alternating, AllProper, AstOf, Operates;
    ProperChild(tokens, ts, bound, 0);
    ProperChild(tokens, ts, bound, 1);
    ProperChild(tokens, ts, bound, 2);
    LeafTold(tokens, ts[0], bound);
    LeafTold(tokens, ts[1], bound);
    ExpressionTold(tokens, ts[2], bound);
  }

  lemma {:induction false} CallTold(tokens: seq<T.Token>, ts: seq<Tree>, bound: nat)
    requires AllProper(tokens, ts, bound) && CallAst(ts).Some?
    ensures Told(tokens, CallAst(ts).value)
    decreases ts
  {
    hide Proper, AllProper, AstOf, ArgsAst, Operates;
    ProperChild(tokens, ts, bound, 0);
    LeafTold(tokens, ts[0], bound);
    ProperPart(tokens, ts, bound, 1, |ts|);
    assert ts[1..|ts|] == ts[1..];
    ArgsTold(tokens, ts[1..], bound);
  }

  lemma {:induction false} ArgsTold(tokens: seq<T.Token>, ts: seq<Tree>, bound: nat)
    requires AllProper(tokens, ts, bound) && ArgsAst(ts).Some?
    ensures var args := ArgsAst(ts).value; forall i :: 0 <= i < |args| ==> Told(tokens, args[i])
    decreases ts
  {
    hide Proper, AllProper, AstOf, Told;
    if ts != [] {
      var n := |ts|;
      ProperChild(tokens, ts, bound, n - 1);
      ProperPart(tokens, ts, bound, 0, n - 1);
      assert ts[0..n - 1] == ts[..n - 1];
      ExpressionTold(tokens, ts[n - 1], bound);
      ArgsTold(tokens, ts[..n - 1], bound);
    }
  }

  // ---------- the shape of chains ----------

  /** Operators and operands taken in turn, each applied to all that came before. */
  function Folded(lhs: Expr, ts: seq<Tree>): Option<Expr>
    decreases |ts|
  {
    if |ts| < 2 then (if ts == [] then Some(lhs) else None)
    else
      var rhs := AstOf(ts[1]);
      if rhs.None? then None else Folded(Binop(lhs, ts[0].start, rhs.value), ts[2..])
  }

  lemma {:induction false} FoldedOneMore(lhs: Expr, ts: seq<Tree>, op: Tree, operand: Tree)
    requires Folded(lhs, ts).Some? && AstOf(operand).Some?
    ensures Folded(lhs, ts + [op, operand]) == Some(Binop(Folded(lhs, ts).value, op.start, AstOf(operand).value))
    decreases |ts|
  {
    hide AstOf;
    var us := ts + [op, operand];
    if ts == [] {
      assert us == [op, operand] && us[2..] == [];
    } else {
      assert us[2..] == ts[2..] + [op, operand] && us[1] == ts[1] && us[0] == ts[0];
      FoldedOneMore(Binop(lhs, ts[0].start, AstOf(ts[1]).value), ts[2..], op, operand);
    }
  }

  /** Chains associate to the left: the first operand, with each operator and operand applied in turn. */
  lemma {:induction false} ChainFolds(ts: seq<Tree>)
    requires ChainAst(ts).Some?
    ensures |ts| >= 3 && AstOf(ts[0]).Some? && Folded(AstOf(ts[0]).value, ts[1..]) == ChainAst(ts)
    decreases |ts|
  {
    hide AstOf;
    var n := |ts|;
    var op, operand := ts[n - 2], ts[n - 1];
    if n == 3 {
      assert ts[1..] == [] + [op, operand];
      FoldedOneMore(AstOf(ts[0]).value, [], op, operand);
    } else {
      var front := ts[..n - 2];
      ChainFolds(front);
      assert front[0] == ts[0] && ts[1..] == front[1..] + [op, operand];
      FoldedOneMore(AstOf(ts[0]).value, front[1..], op, operand);
    }
  }

  // ---------- items ----------

  /** An item is a return exactly when its tree begins with `return`, a declaration exactly when it begins with `let`, a
      nested scope exactly when it begins with a brace, and else an expression; what it holds is told likewise. */
  ghost predicate ItemTold(tokens: seq<T.Token>, t: Tree, x: Item)
    decreases t
  {
    var first := TokenAt(tokens, t.start);
    && (x.Returned? <==> first == T.RETURN)
    && (x.Declared? <==> first == T.LET)
    && (x.Sub? <==> first == T.BRA_LEFT)
    && match x
       case Sub(items) =>
         |items| == |t.children| && forall i :: 0 <= i < |items| ==> ItemTold(tokens, t.children[i], items[i])
       case Declared(c) => TokenAt(tokens, c.name) == T.IDENTIFIER && TokenAt(tokens, c.typ) == T.IDENTIFIER
       case Returned(e) => Told(tokens, e)
       case Evaluated(e) => Told(tokens, e)
  }

  ghost predicate ItemsTold(tokens: seq<T.Token>, ts: seq<Tree>, items: seq<Item>) {
    |items| == |ts| && forall i :: 0 <= i < |items| ==> ItemTold(tokens, ts[i], items[i])
  }

  lemma DeclaredTold(tokens: seq<T.Token>, ts: seq<Tree>, bound: nat)
    requires AllProper(tokens, ts, bound) && |ts| == 2 && AllNames(ts)
    ensures var c := ClaimsOf(ts)[0];
            && c == Claim(ts[0].start, ts[1].start)
            && TokenAt(tokens, c.name) == T.IDENTIFIER && TokenAt(tokens, c.typ) == T.IDENTIFIER
  {
    hide Proper;
    LeafTold(tokens, ts[0], bound);
    LeafTold(tokens, ts[1], bound);
  }

  lemma {:induction false} OneItemTold(tokens: seq<T.Token>, t: Tree, bound: nat)
    requires Proper(tokens, t, bound) && ItemOf(t).Some?
    requires t.kind.SCOPE? ==> TokenAt(tokens, t.start) == T.BRA_LEFT
    ensures ItemTold(tokens, t, ItemOf(t).value)
    decreases t, 1
  {
    hide Proper, AllProper, AstOf, ItemsOf, ClaimsOf, AllNames, Told, AllBraced;
    ChildrenProper(tokens, t, bound);
    match t.kind {
      case SCOPE => ItemsAreTold(tokens, t, bound);
      case DCL_VARIABLE => DeclaredTold(tokens, t.children, t.start);
      case STM_RETURN =>
        ProperChild(tokens, t.children, t.start, 0);
        ExpressionTold(tokens, t.children[0], t.start);
      case _ =>
        ExpressionTold(tokens, t, bound);
        EvaluatedBegins(tokens, t, bound);
    }
  }

  /** What the builder takes for an expression begins like one. */
  lemma EvaluatedBegins(tokens: seq<T.Token>, t: Tree, bound: nat)
    requires Proper(tokens, t, bound) && AstOf(t).Some?
    ensures Opens(TokenAt(tokens, t.start))
  {
  }

  /** The items of every scope of a parsed tree. */
  lemma {:induction false} ItemsAreTold(tokens: seq<T.Token>, t: Tree, bound: nat)
    requires Proper(tokens, t, bound) && t.kind.SCOPE? && ItemsOf(t.children).Some?
    ensures ItemsTold(tokens, t.children, ItemsOf(t.children).value)
    decreases t, 0
  {
    hide Proper, AllProper, ItemsOf, ItemOf, ItemTold;
    ChildrenProper(tokens, t, bound);
    var items := ItemsOf(t.children).value;
    forall i | 0 <= i < |items| ensures ItemTold(tokens, t.children[i], items[i]) {
      ProperChild(tokens, t.children, t.start, i);
      ItemsAreEach(t.children, i);
      OneItemTold(tokens, t.children[i], t.start);
    }
  }

  lemma {:induction false} ItemsAreEach(ts: seq<Tree>, i: nat)
    requires ItemsOf(ts).Some? && i < |ts|
    ensures ItemOf(ts[i]) == Some(ItemsOf(ts).value[i])
    decreases |ts|
  {
    hide ItemOf;
    if i < |ts| - 1 {
      ItemsAreEach(ts[..|ts| - 1], i);
    }
  }

  // ---------- the order of the lexemes ----------

  /** The lexemes of an item in the order of the source. */
  function ItemOrder(x: Item): seq<nat>
    decreases x
  {
    match x
    case Sub(items) => ItemsOrder(items)
    case Declared(c) => [c.name, c.typ]
    case Returned(e) => InOrder(e)
    case Evaluated(e) => InOrder(e)
  }

  function ItemsOrder(items: seq<Item>): seq<nat>
    decreases items
  {
    if items == [] then [] else ItemsOrder(items[..|items| - 1]) + ItemOrder(items[|items| - 1])
  }

  /** The lexemes of the leaves of a tree, where a scope without children has none. */
  function ScopeOrder(t: Tree): seq<nat>
    decreases t
  {
    if t.kind.SCOPE? then ScopesOrder(t.children) else LeafOrder(t)
  }

  function ScopesOrder(ts: seq<Tree>): seq<nat>
    decreases ts
  {
    if ts == [] then [] else ScopesOrder(ts[..|ts| - 1]) + ScopeOrder(ts[|ts| - 1])
  }

  lemma {:induction false} OneItemOrder(t: Tree)
    requires Kept(t) && ItemOf(t).Some?
    ensures ItemOrder(ItemOf(t).value) == ScopeOrder(t)
    decreases t, 1
  {
    hide Kept, AllKept, AstOf, ItemsOf, InOrder, LeafOrder, Childed;
    KeptChildren(t);
    match t.kind {
      case SCOPE => ItemsKeepOrder(t.children);
      case DCL_VARIABLE => DeclaredOrder(t);
      case STM_RETURN => ReturnedOrder(t);
      case _ => OrderIsKept(t);
    }
  }

  lemma KeptChildren(t: Tree)
    requires Kept(t)
    ensures AllKept(t.children) && Childed(t.kind, t.children)
  {
  }

  lemma DeclaredOrder(t: Tree)
    requires Kept(t) && t.kind.DCL_VARIABLE?
    ensures |t.children| == 2 && LeafOrder(t) == [t.children[0].start, t.children[1].start]
  {
    var a, b := t.children[0], t.children[1];
    assert AllNames(t.children) && a.kind.IDENTIFIER? && b.kind.IDENTIFIER? && Kept(a) && Kept(b);
    assert t.children[..1][..0] == [] && LeafOrderAll(t.children[..1]) == LeafOrderAll([]) + LeafOrder(a);
    assert LeafOrderAll(t.children) == LeafOrderAll(t.children[..1]) + LeafOrder(b);
  }

  lemma ReturnedOrder(t: Tree)
    requires Kept(t) && t.kind.STM_RETURN? && ItemOf(t).Some?
    ensures ItemOrder(ItemOf(t).value) == LeafOrder(t)
  {
    hide AstOf, InOrder;
    var e := t.children[0];
    assert Kept(e);
    OrderIsKept(e);
    assert t.children[..0] == [] && LeafOrderAll(t.children) == LeafOrderAll([]) + LeafOrder(e);
  }

  /** The items of a scope have the lexemes of its leaves, in order. */
  lemma {:induction false} ItemsKeepOrder(ts: seq<Tree>)
    requires AllKept(ts) && ItemsOf(ts).Some?
    ensures ItemsOrder(ItemsOf(ts).value) == ScopesOrder(ts)
    decreases ts, 0
  {
    hide Kept, ItemOf, ItemOrder, ScopeOrder;
    if ts != [] {
      var front := ts[..|ts| - 1];
      FrontKept(ts, |ts| - 1);
      ItemsKeepOrder(front);
      OneItemOrder(ts[|ts| - 1]);
      var items := ItemsOf(ts).value;
      assert items[..|items| - 1] == ItemsOf(front).value;
    }
  }

  /** The same for every scope of a parsed tree. */
  lemma ParsedItemsKeepOrder(tokens: seq<T.Token>, t: Tree, bound: nat)
    requires Proper(tokens, t, bound) && ItemsOf(t.children).Some?
    ensures ItemsOrder(ItemsOf(t.children).value) == ScopesOrder(t.children)
  {
    hide Proper, Kept, ItemsOf, ItemsOrder, ScopesOrder;
    ProperIsKept(tokens, t, bound);
    KeptChildren(t);
    ItemsKeepOrder(t.children);
  }

  // ---------- arguments ----------

  /** Names and types in the order of the source. */
  function ClaimsOrder(claims: seq<Claim>): seq<nat> {
    if claims == [] then []
    else ClaimsOrder(claims[..|claims| - 1]) + [claims[|claims| - 1].name, claims[|claims| - 1].typ]
  }

  lemma {:induction false} ClaimsKeepOrder(ts: seq<Tree>)
    requires AllKept(ts) && AllNames(ts) && |ts| % 2 == 0
    ensures ClaimsOrder(ClaimsOf(ts)) == LeafOrderAll(ts)
    decreases |ts|
  {
    hide Kept, LeafOrder;
    if ts != [] {
      var front := ts[..|ts| - 2];
      NamesFront(ts);
      ClaimsKeepOrder(front);
      LeafOrderOfLastTwo(ts);
      OperatorLeaf(ts, |ts| - 2);
      OperatorLeaf(ts, |ts| - 1);
      var claims := ClaimsOf(ts);
      assert claims[..|claims| - 1] == ClaimsOf(front);
    }
  }

  lemma NamesFront(ts: seq<Tree>)
    requires AllKept(ts) && AllNames(ts) && |ts| >= 2
    ensures AllKept(ts[..|ts| - 2]) && AllNames(ts[..|ts| - 2])
    ensures ts[|ts| - 2].kind.IDENTIFIER? && ts[|ts| - 1].kind.IDENTIFIER?
  {
  }

  /** The arguments of a parsed function, and the members of a class: each name and each type is one of an identifier,
      and all of them come in the order of the source. */
  lemma ArgumentsTold(tokens: seq<T.Token>, t: Tree, bound: nat, k: nat)
    requires Proper(tokens, t, bound) && (t.kind.FUN_ARGUMENTS? || t.kind.CLS_MEMBERS?) && k < |ClaimsOf(t.children)|
    ensures var c := ClaimsOf(t.children)[k];
            TokenAt(tokens, c.name) == T.IDENTIFIER && TokenAt(tokens, c.typ) == T.IDENTIFIER
    ensures ClaimsOrder(ClaimsOf(t.children)) == LeafOrderAll(t.children)
  {
    hide Proper, AllProper, Kept, ClaimsOrder, LeafOrderAll;
    ChildrenProper(tokens, t, bound);
    ProperChild(tokens, t.children, t.start, 2 * k);
    ProperChild(tokens, t.children, t.start, 2 * k + 1);
    LeafTold(tokens, t.children[2 * k], t.start);
    LeafTold(tokens, t.children[2 * k + 1], t.start);
    ProperIsKept(tokens, t, bound);
    KeptChildren(t);
    ClaimsKeepOrder(t.children);
  }
}
