/** Building expressions from the flat parse tree through its reader. */
module AstBuilder {
  import opened ParseTree
  import opened TreeReader

  datatype Option<+X> = None | Some(value: X)

  /** Lexemes are token offsets. */
  datatype Expr =
    | Ident(lexeme: nat)
    | Integer(lexeme: nat)
    | Binop(lhs: Expr, op: nat, rhs: Expr)
    | Assign(pattern: nat, op: nat, rhs: Expr)
    | Call(callee: nat, args: seq<Expr>)

  // ---------- what is built, in terms of trees ----------

  /** The expression of a tree, or none where the builder stops at an assertion. */
  function AstOf(t: Tree): Option<Expr>
    decreases t
  {
    match t.kind
    case IDENTIFIER => Some(Ident(t.start))
    case LIT_INTEGER => Some(Integer(t.start))
    case EXP_BINOP => ChainAst(t.children)
    case EXP_ASSIGN => AssignAst(t.children)
    case FUN_CALL => CallAst(t.children)
    case _ => None
  }

  /** A flat chain of operands and operators, as a tree nested to the left. */
  function ChainAst(ts: seq<Tree>): Option<Expr>
    decreases ts
  {
    if |ts| < 3 then None else
      var n := |ts|;
      var rhs := AstOf(ts[n - 1]);
      var lhs := if n == 3 then AstOf(ts[0]) else ChainAst(ts[..n - 2]);
      if rhs.Some? && lhs.Some? then Some(Binop(lhs.value, ts[n - 2].start, rhs.value)) else None
  }

  function AssignAst(ts: seq<Tree>): Option<Expr>
    decreases ts
  {
    if |ts| < 3 then None else
      var n := |ts|;
      var rhs := AstOf(ts[n - 1]);
      if rhs.Some? && ts[n - 3].kind == IDENTIFIER then Some(Assign(ts[n - 3].start, ts[n - 2].start, rhs.value))
      else None
  }

  function CallAst(ts: seq<Tree>): Option<Expr>
    decreases ts
  {
    if ts == [] || ts[0].kind != IDENTIFIER then None else
      var args := ArgsAst(ts[1..]);
      if args.Some? then Some(Call(ts[0].start, args.value)) else None
  }

  function ArgsAst(ts: seq<Tree>): (r: Option<seq<Expr>>)
    ensures r.Some? ==> |r.value| == |ts|
    decreases ts
  {
    if ts == [] then Some([]) else
      var last := AstOf(ts[|ts| - 1]);
      var rest := ArgsAst(ts[..|ts| - 1]);
      if last.Some? && rest.Some? then Some(rest.value + [last.value]) else None
  }

  // ---------- the builder ----------

  method MakeExpression(nodes: seq<Node>, reader: Reader, ghost ts: seq<Tree>) returns (r: Option<Expr>)
    requires Over(reader, nodes, ts) && ts != [] && Kept(ts[|ts| - 1])
    ensures r == AstOf(ts[|ts| - 1])
    decreases ts[|ts| - 1]
  {
    hide FlattenAll;
    ReaderStep(reader, nodes, ts);
    var node := reader.Look(nodes);
    ghost var t := ts[|ts| - 1];
    match node.kind {
      case IDENTIFIER => r := Some(Ident(node.start));
      case LIT_INTEGER => r := Some(Integer(node.start));
      case EXP_BINOP => r := MakeBinop(nodes, reader.SubReader(nodes), t.children);
      case EXP_ASSIGN => r := MakeAssignment(nodes, reader.SubReader(nodes), t.children);
      case FUN_CALL => r := MakeFunctionCall(nodes, reader.SubReader(nodes), t.children);
      case _ => r := None;
    }
  }

  method MakeBinop(nodes: seq<Node>, first: Reader, ghost ts: seq<Tree>) returns (r: Option<Expr>)
    requires Over(first, nodes, ts) && ts != [] && AllKept(ts)
    ensures r == ChainAst(ts)
    decreases ts
  {
    hide FlattenAll;
    var reader := first;
    ghost var n := |ts|;
    // right-hand side
    var rhs := MakeExpression(nodes, reader, ts);
    ReaderStep(reader, nodes, ts);
    reader := reader.Advanced(nodes);
    ReaderStep(reader, nodes, ts[..n - 1]);
    if rhs.None? || !reader.IsValid() {
      return None;
    }
    // operator
    var op := reader.Look(nodes).start;
    reader := reader.Advanced(nodes);
    assert ts[..n - 1][..n - 2] == ts[..n - 2];
    ReaderStep(reader, nodes, ts[..n - 2]);
    if !reader.IsValid() {
      return None;
    }
    // left-hand side
    var lhs;
    if !reader.IsValidNext(nodes) {
      lhs := MakeExpression(nodes, reader, ts[..n - 2]);
    } else {
      lhs := MakeBinop(nodes, reader, ts[..n - 2]);
    }
    r := if lhs.Some? then Some(Binop(lhs.value, op, rhs.value)) else None;
  }

  method MakeAssignment(nodes: seq<Node>, first: Reader, ghost ts: seq<Tree>) returns (r: Option<Expr>)
    requires Over(first, nodes, ts) && ts != [] && AllKept(ts)
    ensures r == AssignAst(ts)
    decreases ts
  {
    hide FlattenAll;
    var reader := first;
    ghost var n := |ts|;
    var rhs := MakeExpression(nodes, reader, ts);
    ReaderStep(reader, nodes, ts);
    reader := reader.Advanced(nodes);
    ReaderStep(reader, nodes, ts[..n - 1]);
    if rhs.None? || !reader.IsValid() {
      return None;
    }
    var op := reader.Look(nodes).start;
    reader := reader.Advanced(nodes);
    assert ts[..n - 1][..n - 2] == ts[..n - 2];
    ReaderStep(reader, nodes, ts[..n - 2]);
    if !reader.IsValid() || reader.Look(nodes).kind != IDENTIFIER {
      return None;
    }
    r := Some(Assign(reader.Look(nodes).start, op, rhs.value));
  }

  /** Counts the arguments down into their slots, from the last to the first. */
  method MakeFunctionCall(nodes: seq<Node>, first: Reader, ghost ts: seq<Tree>) returns (r: Option<Expr>)
    requires Over(first, nodes, ts) && ts != [] && AllKept(ts)
    requires first.head + 1 < |nodes| && first.Size(nodes) == |ts|
    ensures r == CallAst(ts)
    decreases ts
  {
    hide FlattenAll, Over, ArgsAst;
    OverHead(first, nodes, ts);
    var reader := first;
    var args := new Expr[reader.Size(nodes) - 1](_ => Ident(0));
    var i: nat := args.Length;
    assert ts[..i + 1] == ts;
    ReaderStep(reader, nodes, ts);
    while reader.IsValidNext(nodes)
      invariant i <= args.Length && 0 <= reader.head < |nodes|
      invariant Over(reader, nodes, ts[..i + 1]) && (reader.IsValidNext(nodes) <==> i > 0)
      invariant forall j :: i <= j < args.Length ==> AstOf(ts[j + 1]) == Some(args[j])
      decreases i
    {
      ghost var rest := ts[..i + 1];
      ReaderStep(reader, nodes, rest);
      var arg := MakeExpression(nodes, reader, rest);
      if arg.None? {
        assert ts[1..][i - 1] == ts[i];
        ArgsAstNeedsAll(ts[1..], i - 1);
        return None;
      }
      i := i - 1;
      args[i] := arg.value;
      reader := reader.Advanced(nodes);
      assert rest[..i + 1] == ts[..i + 1];
      OverHead(reader, nodes, ts[..i + 1]);
      ReaderStep(reader, nodes, ts[..i + 1]);
    }
    ReaderStep(reader, nodes, ts[..1]);
    ArgsAstIs(ts[1..], args[..]);
    var callee := reader.Look(nodes);
    r := if callee.kind == IDENTIFIER then Some(Call(callee.start, args[..])) else None;
  }

  /** A name and its type. */
  datatype Claim = Claim(name: nat, typ: nat)

  datatype Item = Sub(items: seq<Item>) | Declared(claim: Claim) | Returned(value: Expr) | Evaluated(value: Expr)

  /** Children in pairs, as names with their types. */
  function ClaimsOf(ts: seq<Tree>): (claims: seq<Claim>)
    ensures |claims| == |ts| / 2
  {
    seq(|ts| / 2, k requires 0 <= k < |ts| / 2 => Claim(ts[2 * k].start, ts[2 * k + 1].start))
  }

  /** The item of a scope that a tree stands for, or none where the builder stops at an assertion. */
  function ItemOf(t: Tree): Option<Item>
    decreases t
  {
    match t.kind
    case SCOPE => (match ItemsOf(t.children) case None => None case Some(items) => Some(Sub(items)))
    case DCL_VARIABLE => if |t.children| == 2 then Some(Declared(ClaimsOf(t.children)[0])) else None
    case STM_RETURN =>
      if t.children == [] then None
      else (match AstOf(t.children[|t.children| - 1]) case None => None case Some(e) => Some(Returned(e)))
    case _ => (match AstOf(t) case None => None case Some(e) => Some(Evaluated(e)))
  }

  function ItemsOf(ts: seq<Tree>): (r: Option<seq<Item>>)
    ensures r.Some? ==> |r.value| == |ts|
    decreases ts
  {
    if ts == [] then Some([]) else
      var last := ItemOf(ts[|ts| - 1]);
      var rest := ItemsOf(ts[..|ts| - 1]);
      if last.Some? && rest.Some? then Some(rest.value + [last.value]) else None
  }

  /** Reads a type and then its name; neither assertion of the builder can fail. */
  method MakeTypeClaim(nodes: seq<Node>, first: Reader, ghost ts: seq<Tree>) returns (claim: Claim, reader: Reader)
    requires Over(first, nodes, ts) && |ts| >= 2 && AllNames(ts)
    ensures claim == Claim(ts[|ts| - 2].start, ts[|ts| - 1].start)
    ensures Over(reader, nodes, ts[..|ts| - 1])
  {
    hide FlattenAll, Over;
    ghost var n := |ts|;
    OverHead(first, nodes, ts);
    ReaderStep(first, nodes, ts);
    var typ := first.Look(nodes);
    assert typ.kind == IDENTIFIER;
    reader := first.Advanced(nodes);
    OverHead(reader, nodes, ts[..n - 1]);
    ReaderStep(reader, nodes, ts[..n - 1]);
    assert reader.IsValid() && reader.Look(nodes).kind == IDENTIFIER;
    claim := Claim(reader.Look(nodes).start, typ.start);
  }

  /** Makes half as many slots as there are children, and counts down one slot for every two of them: each slot is
      filled once, and the count never falls below the first. */
  method MakeArguments(nodes: seq<Node>, supReader: Reader, ghost ts: seq<Tree>) returns (args: array<Claim>)
    requires Over(supReader, nodes, ts) && ts != [] && Childed(FUN_ARGUMENTS, ts[|ts| - 1].children)
    ensures fresh(args) && args[..] == ClaimsOf(ts[|ts| - 1].children)
  {
    hide FlattenAll, Over;
    OverHead(supReader, nodes, ts);
    ReaderStep(supReader, nodes, ts);
    ghost var children := ts[|ts| - 1].children;
    var reader := supReader.SubReader(nodes);
    OverHead(reader, nodes, children);
    ReaderStep(reader, nodes, children);
    args := new Claim[reader.Size(nodes) / 2](_ => Claim(0, 0));
    var i: nat := args.Length;
    assert children[..2 * i] == children;
    while reader.IsValid()
      invariant i <= args.Length && Over(reader, nodes, children[..2 * i]) && (reader.IsValid() <==> i > 0)
      invariant forall k :: i <= k < args.Length ==> args[k] == Claim(children[2 * k].start, children[2 * k + 1].start)
      decreases i
    {
      i := i - 1;
      ghost var rest := children[..2 * i + 2];
      args[i], reader := MakeTypeClaim(nodes, reader, rest);
      assert rest[..2 * i + 1] == children[..2 * i + 1];
      OverHead(reader, nodes, children[..2 * i + 1]);
      ReaderStep(reader, nodes, children[..2 * i + 1]);
      reader := reader.Advanced(nodes);
      assert children[..2 * i + 1][..2 * i] == children[..2 * i];
      ReaderStep(reader, nodes, children[..2 * i]);
    }
  }

  /** Counts the items of a scope down into their slots, from the last to the first. */
  method MakeScope(nodes: seq<Node>, supReader: Reader, ghost ts: seq<Tree>) returns (r: Option<seq<Item>>)
    requires Over(supReader, nodes, ts) && ts != [] && AllKept(ts[|ts| - 1].children)
    ensures r == ItemsOf(ts[|ts| - 1].children)
    decreases ts[|ts| - 1], 0
  {
    hide FlattenAll, Over, ItemsOf, Kept;
    OverHead(supReader, nodes, ts);
    ReaderStep(supReader, nodes, ts);
    ghost var children := ts[|ts| - 1].children;
    var reader := supReader.SubReader(nodes);
    OverHead(reader, nodes, children);
    ReaderStep(reader, nodes, children);
    var items := new Item[reader.Size(nodes)](_ => Sub([]));
    var i: nat := items.Length;
    assert children[..i] == children;
    while reader.IsValid()
      invariant i <= items.Length && Over(reader, nodes, children[..i]) && (reader.IsValid() <==> i > 0)
      invariant forall k :: i <= k < items.Length ==> ItemOf(children[k]) == Some(items[k])
      decreases i
    {
      i := i - 1;
      ghost var rest := children[..i + 1];
      assert rest[i] == children[i];
      var item := MakeScopeVariant(nodes, reader, rest);
      if item.None? {
        ItemsNeedAll(children, i);
        return None;
      }
      items[i] := item.value;
      OverHead(reader, nodes, rest);
      ReaderStep(reader, nodes, rest);
      reader := reader.Advanced(nodes);
      assert rest[..i] == children[..i];
      ReaderStep(reader, nodes, children[..i]);
    }
    ItemsAre(children, items[..]);
    r := Some(items[..]);
  }

  method MakeScopeVariant(nodes: seq<Node>, reader: Reader, ghost ts: seq<Tree>) returns (r: Option<Item>)
    requires Over(reader, nodes, ts) && ts != [] && Kept(ts[|ts| - 1])
    ensures r == ItemOf(ts[|ts| - 1])
    decreases ts[|ts| - 1], 1
  {
    hide FlattenAll, Over, ItemsOf;
    OverHead(reader, nodes, ts);
    ReaderStep(reader, nodes, ts);
    ghost var t := ts[|ts| - 1];
    var sub := reader.SubReader(nodes);
    match reader.Look(nodes).kind {
      case SCOPE =>
        var items := MakeScope(nodes, reader, ts);
        r := match items case None => None case Some(s) => Some(Sub(s));
      case DCL_VARIABLE =>
        var claim, last := MakeTypeClaim(nodes, sub, t.children);
        r := Some(Declared(claim));
      case STM_RETURN =>
        var e := MakeExpression(nodes, sub, t.children);
        r := match e case None => None case Some(x) => Some(Returned(x));
      case _ =>
        var e := MakeExpression(nodes, reader, ts);
        r := match e case None => None case Some(x) => Some(Evaluated(x));
    }
  }

  lemma {:induction false} ItemsAre(ts: seq<Tree>, items: seq<Item>)
    requires |ts| == |items| && forall j :: 0 <= j < |ts| ==> ItemOf(ts[j]) == Some(items[j])
    ensures ItemsOf(ts) == Some(items)
    decreases |ts|
  {
    if ts != [] {
      ItemsAre(ts[..|ts| - 1], items[..|items| - 1]);
      assert items == items[..|items| - 1] + [items[|items| - 1]];
    }
  }

  lemma {:induction false} ItemsNeedAll(ts: seq<Tree>, j: nat)
    requires j < |ts| && ItemOf(ts[j]).None?
    ensures ItemsOf(ts).None?
    decreases |ts|
  {
    if j < |ts| - 1 {
      ItemsNeedAll(ts[..|ts| - 1], j);
    }
  }

  lemma {:induction false} ArgsAstIs(ts: seq<Tree>, args: seq<Expr>)
    requires |ts| == |args| && forall j :: 0 <= j < |ts| ==> AstOf(ts[j]) == Some(args[j])
    ensures ArgsAst(ts) == Some(args)
    decreases |ts|
  {
    if ts != [] {
      ArgsAstIs(ts[..|ts| - 1], args[..|args| - 1]);
      assert args == args[..|args| - 1] + [args[|args| - 1]];
    }
  }

  lemma {:induction false} ArgsAstNeedsAll(ts: seq<Tree>, j: nat)
    requires j < |ts| && AstOf(ts[j]).None?
    ensures ArgsAst(ts).None?
    decreases |ts|
  {
    if j < |ts| - 1 {
      ArgsAstNeedsAll(ts[..|ts| - 1], j);
    }
  }

  // ---------- what the expressions keep of the trees ----------

  /** The lexemes of an expression in the order of the source. */
  function InOrder(e: Expr): seq<nat>
    decreases e
  {
    match e
    case Ident(l) => [l]
    case Integer(l) => [l]
    case Binop(lhs, op, rhs) => InOrder(lhs) + [op] + InOrder(rhs)
    case Assign(p, op, rhs) => [p, op] + InOrder(rhs)
    case Call(callee, args) => [callee] + InOrderAll(args)
  }

  function InOrderAll(es: seq<Expr>): seq<nat>
    decreases es
  {
    if es == [] then [] else InOrderAll(es[..|es| - 1]) + InOrder(es[|es| - 1])
  }

  /** The lexemes of the leaves of a tree, in order. */
  function LeafOrder(t: Tree): seq<nat>
    decreases t
  {
    if t.children == [] then [t.start] else LeafOrderAll(t.children)
  }

  function LeafOrderAll(ts: seq<Tree>): seq<nat>
    decreases ts
  {
    if ts == [] then [] else LeafOrderAll(ts[..|ts| - 1]) + LeafOrder(ts[|ts| - 1])
  }

  /** The chain is built exactly when it has an odd number of trees, three at least, whose operands are. */
  lemma {:induction false} ChainBuiltIff(ts: seq<Tree>)
    ensures ChainAst(ts).Some? <==>
              |ts| >= 3 && |ts| % 2 == 1 && forall i :: 0 <= i < |ts| && i % 2 == 0 ==> AstOf(ts[i]).Some?
    decreases |ts|
  {
    var n := |ts|;
    if n > 3 {
      ChainBuiltIff(ts[..n - 2]);
      if n % 2 == 1 && forall i :: 0 <= i < n && i % 2 == 0 ==> AstOf(ts[i]).Some? {
        forall i | 0 <= i < n - 2 && i % 2 == 0 ensures AstOf(ts[..n - 2][i]).Some? {
          assert AstOf(ts[i]).Some?;
        }
        assert AstOf(ts[n - 1]).Some?;
      }
      if ChainAst(ts).Some? {
        forall i | 0 <= i < n && i % 2 == 0 ensures AstOf(ts[i]).Some? {
          if i < n - 2 {
            assert AstOf(ts[..n - 2][i]).Some?;
          }
        }
      }
    } else if n == 3 {
      assert forall i :: 0 <= i < 3 && i % 2 == 0 ==> i == 0 || i == 2;
    }
  }

  /** Building an expression keeps the lexemes of its tree, in order. */
  lemma {:induction false} OrderIsKept(t: Tree)
    requires Kept(t) && AstOf(t).Some?
    ensures InOrder(AstOf(t).value) == LeafOrder(t)
    decreases t
  {
    hide Alternating, AllKept, LeafOrderAll, ChainAst, AssignAst, CallAst, InOrderAll;
    match t.kind {
      case EXP_BINOP => ChainOrder(t.children);
      case EXP_ASSIGN => AssignOrder(t.children);
      case FUN_CALL => CallOrder(t.children);
      case _ =>
    }
  }

  lemma OperatorLeaf(ts: seq<Tree>, i: nat)
    requires AllKept(ts) && i < |ts|
    ensures Kept(ts[i])
    ensures Alternating(ts) && i % 2 == 1 ==> LeafOrder(ts[i]) == [ts[i].start]
    ensures ts[i].kind == IDENTIFIER ==> LeafOrder(ts[i]) == [ts[i].start]
  {
  }

  lemma {:induction false} AssignOrder(ts: seq<Tree>)
    requires AssignAst(ts).Some? && AllKept(ts) && Alternating(ts) && |ts| <= 3
    ensures ts != [] && InOrder(AssignAst(ts).value) == LeafOrderAll(ts)
    decreases ts
  {
    hide Alternating, AllKept, LeafOrderAll, LeafOrder, Kept;
    OperatorLeaf(ts, 0);
    OperatorLeaf(ts, 1);
    OperatorLeaf(ts, 2);
    OrderIsKept(ts[2]);
    LeafOrderOfThree(ts);
  }

  lemma {:induction false} CallOrder(ts: seq<Tree>)
    requires CallAst(ts).Some? && AllKept(ts)
    ensures ts != [] && InOrder(CallAst(ts).value) == LeafOrderAll(ts)
    decreases ts
  {
    hide AllKept, LeafOrderAll, LeafOrder, Kept;
    OperatorLeaf(ts, 0);
    assert AllKept(ts[1..]) by { TailKept(ts); }
    ArgsOrder(ts[1..]);
    LeafOrderAfterFirst(ts);
  }

  lemma TailKept(ts: seq<Tree>)
    requires AllKept(ts) && ts != []
    ensures AllKept(ts[1..])
  {
  }

  lemma FrontKept(ts: seq<Tree>, n: nat)
    requires AllKept(ts) && n <= |ts|
    ensures AllKept(ts[..n]) && (Alternating(ts) ==> Alternating(ts[..n]))
  {
  }

  lemma LeafOrderOfLastTwo(ts: seq<Tree>)
    requires |ts| >= 2
    ensures LeafOrderAll(ts) == LeafOrderAll(ts[..|ts| - 2]) + LeafOrder(ts[|ts| - 2]) + LeafOrder(ts[|ts| - 1])
  {
    assert ts[..|ts| - 1][..|ts| - 2] == ts[..|ts| - 2];
  }

  lemma LeafOrderOfThree(ts: seq<Tree>)
    requires |ts| == 3
    ensures LeafOrderAll(ts) == LeafOrder(ts[0]) + LeafOrder(ts[1]) + LeafOrder(ts[2])
  {
    assert ts[..2][..1] == ts[..1] && ts[..1][..0] == [];
    assert LeafOrderAll(ts[..1]) == LeafOrderAll(ts[..1][..0]) + LeafOrder(ts[0]);
    assert LeafOrderAll(ts[..2]) == LeafOrderAll(ts[..2][..1]) + LeafOrder(ts[1]);
  }

  lemma {:induction false} LeafOrderAfterFirst(ts: seq<Tree>)
    requires ts != []
    ensures LeafOrderAll(ts) == LeafOrder(ts[0]) + LeafOrderAll(ts[1..])
    decreases |ts|
  {
    var n := |ts|;
    if n > 1 {
      LeafOrderAfterFirst(ts[..n - 1]);
      assert ts[..n - 1][1..] == ts[1..][..n - 2];
    } else {
      assert ts[..0] == [];
    }
  }

  lemma {:induction false} ArgsOrder(ts: seq<Tree>)
    requires ArgsAst(ts).Some? && AllKept(ts)
    ensures InOrderAll(ArgsAst(ts).value) == LeafOrderAll(ts)
    decreases ts
  {
    hide AllKept, LeafOrder, Kept, AstOf, InOrder;
    if ts != [] {
      var n := |ts|;
      FrontKept(ts, n - 1);
      OperatorLeaf(ts, n - 1);
      ArgsOrder(ts[..n - 1]);
      OrderIsKept(ts[n - 1]);
      var es := ArgsAst(ts).value;
      assert es[..|es| - 1] == ArgsAst(ts[..n - 1]).value;
    }
  }

  lemma {:induction false} ChainOrder(ts: seq<Tree>)
    requires ChainAst(ts).Some? && AllKept(ts) && Alternating(ts)
    ensures ts != [] && InOrder(ChainAst(ts).value) == LeafOrderAll(ts)
    decreases ts
  {
    hide AllKept, Alternating, LeafOrder, LeafOrderAll, Kept, AstOf;
    var n := |ts|;
    ChainBuiltIff(ts);
    FrontKept(ts, n - 2);
    OperatorLeaf(ts, n - 1);
    OperatorLeaf(ts, n - 2);
    OrderIsKept(ts[n - 1]);
    if n == 3 {
      OperatorLeaf(ts, 0);
      OrderIsKept(ts[0]);
      LeafOrderOfThree(ts);
    } else {
      ChainOrder(ts[..n - 2]);
      LeafOrderOfLastTwo(ts);
    }
  }
}
