/** The code generator: it visits definitions and grows one circular list of instructions per function. */
module GenScribe {
  import opened Sequences
  import opened CircularList
  import opened GenLanguage
  import opened GenCode
  import opened GenUnit

  class Scribe {
    const program: Program
    const pool: Pool<Instr<Target>>
    var imports: seq<Import64>
    var bodies: seq<nat>
    var sizes: seq<int>
    var listed: seq<nat>
    var asWsm: map<nat, Target>
    var ids: map<(nat, nat), nat>
    var wasmed: set<nat>
    ghost var sources: seq<nat>

    ghost predicate Shaped()
      reads this, pool
    {
      && pool.Valid()
      && |sources| == |bodies| == |sizes| == |listed|
      && (forall k :: 0 <= k < |bodies| ==> bodies[k] in pool.lists)
      && (forall j, k :: 0 <= j < k < |bodies| ==> bodies[j] != bodies[k])
      && (forall f :: f in wasmed <==> f in sources)
    }

    ghost function Now(): (u: Unit)
      requires Shaped()
      reads this, pool
      ensures |u.codes| == |bodies| && u.imports == imports && u.sources == sources
      ensures u.sizes == sizes && u.listed == listed && u.asWsm == asWsm && u.ids == ids
    {
      Unit(imports, sources, Codes(), sizes, listed, asWsm, ids)
    }

    ghost function Codes(): (s: seq<Code>)
      requires pool.Valid() && forall k :: 0 <= k < |bodies| ==> bodies[k] in pool.lists
      reads this, pool
      ensures |s| == |bodies| && forall k :: 0 <= k < |s| ==> s[k] == pool.Inserted(bodies[k])
    {
      CodesOf(pool, bodies)
    }

    static ghost function CodesOf(pool: Pool<Instr<Target>>, bodies: seq<nat>): (s: seq<Code>)
      requires pool.Valid() && forall k :: 0 <= k < |bodies| ==> bodies[k] in pool.lists
      reads pool
      ensures |s| == |bodies| && forall k :: 0 <= k < |s| ==> s[k] == pool.Inserted(bodies[k])
    {
      if bodies == [] then [] else [pool.Inserted(bodies[0])] + CodesOf(pool, bodies[1..])
    }

    static lemma CodesMore(pool: Pool<Instr<Target>>, bodies: seq<nat>, body: nat)
      requires pool.Valid() && (forall k :: 0 <= k < |bodies| ==> bodies[k] in pool.lists) && body in pool.lists
      ensures CodesOf(pool, bodies + [body]) == CodesOf(pool, bodies) + [pool.Inserted(body)]
    {
    }

    ghost predicate Valid()
      reads this, pool
    {
      Shaped() && Good(program, Now()) && ProgramOk(program)
    }

    constructor (program: Program)
      requires ProgramOk(program)
      ensures Valid() && this.program == program && fresh(pool)
      ensures Now() == Unit([], [], [], [], [], map[], map[])
    {
      this.program := program;
      var p := new Pool(Add);
      pool := p;
      imports, bodies, sizes, listed, asWsm, ids, wasmed, sources := [], [], [], [], map[], map[], {}, [];
      new;
    }

    /** Grows the instruction list of function `k`. */
    method Emit(k: nat, x: Instr<Target>)
      requires Valid() && k < |bodies|
      modifies pool
      ensures Valid() && Now() == Emitted(old(Now()), k, x)
    {
      var _ := pool.Grow(bodies[k], x);
      assert Codes() == old(Codes())[k := old(Codes())[k] + [x]];
    }

    /** A new variable of function `k` takes the next id. */
    method DeclareVariable(k: nat, f: nat, x: nat)
      requires Valid() && k < |bodies| && sizes[k] >= 0 && sources[k] == f
      modifies this`ids, this`sizes, this`listed
      ensures Valid() && Now() == Declare(old(Now()), k, f, x)
    {
      ids := ids[(f, x) := sizes[k]];
      sizes := sizes[k := sizes[k] + 1];
      listed := listed[k := listed[k] + 1];
    }

    /** A function of an interface is imported every time it is visited. */
    method ImportFunction(f: nat)
      requires Valid() && f < |program| && program[f].kind.Foreign?
      modifies this`imports, this`asWsm
      ensures Valid() && Now() == Imported(program, old(Now()), f)
    {
      GrewImported(program, Now(), f);
      asWsm := asWsm[f := ToImport(|imports|)];
      imports := imports + [Import64(f, |program[f].args|)];
    }

    /** A new empty list; the functions keep theirs. */
    method NewList() returns (body: nat)
      requires Valid()
      modifies pool
      ensures Valid() && Now() == old(Now())
      ensures body in pool.lists && pool.Inserted(body) == [] && forall k :: 0 <= k < |bodies| ==> bodies[k] != body
    {
      hide Good;
      body := pool.Make();
      assert Codes() == old(Codes());
    }

    /** A new function with an empty list of instructions; from now on its definition is not visited again. */
    method OpenFunction(f: nat)
      requires Valid() && f < |program| && !program[f].kind.Foreign? && f !in wasmed
      modifies this, pool
      ensures Valid() && Now() == Opened(old(Now()), f)
    {
      hide Good;
      OpenedGood(program, Now(), f);
      var body := NewList();
      AddFunction(f, body);
    }

    method AddFunction(f: nat, body: nat)
      requires Shaped() && ProgramOk(program) && f !in wasmed && Good(program, Opened(Now(), f))
      requires body in pool.lists && pool.Inserted(body) == [] && forall k :: 0 <= k < |bodies| ==> bodies[k] != body
      modifies this
      ensures Valid() && Now() == Opened(old(Now()), f)
    {
      hide Good, CodesOf;
      CodesMore(pool, bodies, body);
      asWsm := asWsm[f := ToFunc(|bodies|)];
      bodies := bodies + [body];
      sizes, listed := sizes + [0], listed + [0];
      sources, wasmed := sources + [f], wasmed + {f};
    }

    /** An expression leaves its code behind that of the current function; functions met for the first time are
        generated on the way. */
    method GenExpr(k: nat, f: nat, e: Expr, ghost known: set<nat>) returns (ghost c: Code)
      requires Valid() && k < |bodies| && sources[k] == f && ExprOk(program, known, e)
      requires IdsKnown(Now(), f, Declared(program[f]), known)
      modifies this, pool
      ensures Valid() && Grew(program, old(Now()), Now(), k)
      ensures Now().codes[k] == old(Now()).codes[k] + c
      ensures Named(imports, sources, c) == ExprCode(Declared(program[f]), e)
      ensures sizes[k] == old(sizes[k]) && listed[k] == old(listed[k])
      decreases |program| - |sources|, 2, e, 2
    {
      ghost var names, u := Declared(program[f]), Now();
      hide Good, Grew, IdsKnown, Named, Shaped;
      match e
      case Lit(v) =>
        c := GenOne(k, Const(v));
      case Var(x) =>
        assert (f, x) in ids && ids[(f, x)] == Position(names, x) by { IdKnown(u, f, names, known, x); }
        c := GenOne(k, Get(ids[(f, x)]));
      case Binop(_, _, _) => c := GenBinop(k, f, e, known);
      case FunCall(_, _) => c := GenFunCall(k, f, e, known);
    }

    /** The right operand, then the left one. */
    method GenOperands(k: nat, f: nat, e: Expr, ghost known: set<nat>) returns (ghost c: Code)
      requires e.Binop? && Valid() && k < |bodies| && sources[k] == f && ExprOk(program, known, e)
      requires IdsKnown(Now(), f, Declared(program[f]), known)
      modifies this, pool
      ensures Valid() && Grew(program, old(Now()), Now(), k)
      ensures Now().codes[k] == old(Now()).codes[k] + c
      ensures Named(imports, sources, c) == ExprCode(Declared(program[f]), e.rhs)
              + ExprCode(Declared(program[f]), e.lhs)
      ensures sizes[k] == old(sizes[k]) && listed[k] == old(listed[k])
      decreases |program| - |sources|, 2, e, 0
    {
      ghost var names, u := Declared(program[f]), Now();
      hide Good, Grew, IdsKnown, Named, Shaped, ExprCode;
      var right := GenExpr(k, f, e.rhs, known);
      ghost var v := Now();
      GrewFacts(program, u, v, k);
      IdsStay(program, u, v, k, f, names, known);
      ExprCodeResolved(names, e.rhs);
      var left := GenExpr(k, f, e.lhs, known);
      GrownPieces(program, u, v, Now(), k, right, left, ExprCode(names, e.rhs), ExprCode(names, e.lhs));
      c := right + left;
    }

    /** The operands, and the call of the operator. */
    method GenBinop(k: nat, f: nat, e: Expr, ghost known: set<nat>) returns (ghost c: Code)
      requires e.Binop? && Valid() && k < |bodies| && sources[k] == f && ExprOk(program, known, e)
      requires IdsKnown(Now(), f, Declared(program[f]), known)
      modifies this, pool
      ensures Valid() && Grew(program, old(Now()), Now(), k)
      ensures Now().codes[k] == old(Now()).codes[k] + c
      ensures Named(imports, sources, c) == ExprCode(Declared(program[f]), e)
      ensures sizes[k] == old(sizes[k]) && listed[k] == old(listed[k])
      decreases |program| - |sources|, 2, e, 1
    {
      ghost var names, u := Declared(program[f]), Now();
      hide Good, Grew, IdsKnown, Named, Shaped;
      ghost var a: Spec := ExprCode(names, e.rhs) + ExprCode(names, e.lhs);
      ghost var b: Spec := if e.op.Interface? then [Call(e.op.f)] else [];
      assert Resolved(a) && ExprCode(names, e) == a + b by {
        ExprCodeResolved(names, e.rhs);
        ExprCodeResolved(names, e.lhs);
      }
      hide ExprCode, Resolved;
      c := GenOperands(k, f, e, known);
      ghost var v := Now();
      GrewFacts(program, u, v, k);
      var call := GenOperator(k, e.op);
      GrownPieces(program, u, v, Now(), k, c, call, a, b);
      c := c + call;
    }

    /** An operator is called only when it is bound to a function of an interface. */
    method GenOperator(k: nat, op: Operator) returns (ghost c: Code)
      requires Valid() && k < |bodies| && (op.Interface? ==> op.f < |program|)
      modifies this, pool
      ensures Valid() && Grew(program, old(Now()), Now(), k)
      ensures Now().codes[k] == old(Now()).codes[k] + c
      ensures Named(imports, sources, c) == if op.Interface? then [Call(op.f)] else []
      ensures sizes[k] == old(sizes[k]) && listed[k] == old(listed[k])
      decreases |program| - |sources|, 1, 1
    {
      if op.Interface? {
        hide Good, Grew, Named;
        c := GenCall(k, op.f);
      } else {
        c := [];
        GrewNothing(program, Now(), k);
        assert Now().codes[k] == Now().codes[k] + c;
      }
    }

    method GenFunCall(k: nat, f: nat, e: Expr, ghost known: set<nat>) returns (ghost c: Code)
      requires e.FunCall? && Valid() && k < |bodies| && sources[k] == f && ExprOk(program, known, e)
      requires IdsKnown(Now(), f, Declared(program[f]), known)
      modifies this, pool
      ensures Valid() && Grew(program, old(Now()), Now(), k)
      ensures Now().codes[k] == old(Now()).codes[k] + c
      ensures Named(imports, sources, c) == ExprCode(Declared(program[f]), e)
      ensures sizes[k] == old(sizes[k]) && listed[k] == old(listed[k])
      decreases |program| - |sources|, 2, e, 0
    {
      ghost var names, u := Declared(program[f]), Now();
      hide Good, Grew, IdsKnown, Named, Shaped;
      var head := GenArgs(k, f, e.args, known);
      ghost var v := Now();
      GrewFacts(program, u, v, k);
      ArgsCodeResolved(names, e.args);
      var call := GenCall(k, e.f);
      GrownPieces(program, u, v, Now(), k, head, call, ArgsCode(names, e.args), [Call(e.f)]);
      c := head + call;
    }

    method GenOne(k: nat, x: Instr<Target>) returns (ghost c: Code)
      requires Valid() && k < |bodies|
      modifies this, pool
      ensures Valid() && Grew(program, old(Now()), Now(), k)
      ensures Now().codes[k] == old(Now()).codes[k] + c && c == [x]
      ensures Named(imports, sources, c) == [NamedOne(old(imports), old(sources), x)]
      ensures Now() == Emitted(old(Now()), k, x) && imports == old(imports) && sources == old(sources)
    {
      hide Good, Grew;
      GrewNothing(program, Now(), k);
      GrewEmitted(program, Now(), Now(), k, x);
      Emit(k, x);
      c := [x];
    }

    /** Visits the definition of the callee, then calls it by the place it has in the module. */
    method GenCall(k: nat, g: nat) returns (ghost c: Code)
      requires Valid() && k < |bodies| && g < |program|
      modifies this, pool
      ensures Valid() && Grew(program, old(Now()), Now(), k)
      ensures Now().codes[k] == old(Now()).codes[k] + c
      ensures Named(imports, sources, c) == [Call(g)]
      ensures sizes[k] == old(sizes[k]) && listed[k] == old(listed[k])
      decreases |program| - |sources|, 1, 0
    {
      hide Good, Named, Grew, NameOf, Shaped;
      ghost var u := Now();
      GenDef(g);
      ghost var v := Now();
      GrewLess(program, u, v, k);
      GrewKeeps(program, u, v, k);
      c := GenOne(k, Call(asWsm[g]));
      GrewMore(program, u, v, Now(), k);
    }

    method GenArgs(k: nat, f: nat, args: seq<Expr>, ghost known: set<nat>) returns (ghost c: Code)
      requires Valid() && k < |bodies| && sources[k] == f
      requires forall n :: 0 <= n < |args| ==> ExprOk(program, known, args[n])
      requires IdsKnown(Now(), f, Declared(program[f]), known)
      modifies this, pool
      ensures Valid() && Grew(program, old(Now()), Now(), k)
      ensures Now().codes[k] == old(Now()).codes[k] + c
      ensures Named(imports, sources, c) == ArgsCode(Declared(program[f]), args)
      ensures sizes[k] == old(sizes[k]) && listed[k] == old(listed[k])
      decreases |program| - |sources|, 2, args
    {
      ghost var names, u := Declared(program[f]), Now();
      c := [];
      GrewNothing(program, u, k);
      assert Named(imports, sources, c) == [] && args[..0] == [];
      hide Good, Grew, IdsKnown, Named, Shaped;
      for n := 0 to |args|
        invariant Valid() && k < |bodies| && sources[k] == f && Grew(program, u, Now(), k)
        invariant Now().codes[k] == u.codes[k] + c && Named(imports, sources, c) == ArgsCode(names, args[..n])
        invariant IdsKnown(Now(), f, names, known)
        invariant sizes[k] == u.sizes[k] && listed[k] == u.listed[k]
      {
        GrewFacts(program, u, Now(), k);
        c := GenArg(k, f, args, n, known, u, c);
      }
      assert args[..|args|] == args;
    }

    method GenArg(k: nat, f: nat, args: seq<Expr>, n: nat, ghost known: set<nat>, ghost u: Unit, ghost c: Code)
      returns (ghost d: Code)
      requires Valid() && k < |bodies| && n < |args| && f < |program| && sources[k] == f
               && ExprOk(program, known, args[n])
      requires |u.sources| <= |sources| <= |program| && k < |u.sources| && Grew(program, u, Now(), k)
      requires k < |u.codes| && k < |u.sizes| && k < |u.listed|
      requires Now().codes[k] == u.codes[k] + c
               && Named(imports, sources, c) == ArgsCode(Declared(program[f]), args[..n])
      requires IdsKnown(Now(), f, Declared(program[f]), known)
      modifies this, pool
      ensures Valid() && k < |bodies| && sources[k] == f && Grew(program, u, Now(), k)
      ensures Now().codes[k] == u.codes[k] + d
              && Named(imports, sources, d) == ArgsCode(Declared(program[f]), args[..n + 1])
      ensures IdsKnown(Now(), f, Declared(program[f]), known)
      ensures sizes[k] == old(sizes[k]) && listed[k] == old(listed[k])
      decreases |program| - |sources|, 2, args, 0
    {
      hide Good, Grew, IdsKnown, Named, Shaped;
      ghost var names, v := Declared(program[f]), Now();
      var e := GenExpr(k, f, args[n], known);
      GrewFacts(program, v, Now(), k);
      ArgsCodeResolved(names, args[..n]);
      GrownPieces(program, u, v, Now(), k, c, e, ArgsCode(names, args[..n]), ExprCode(names, args[n]));
      ArgsCodeAppend(names, args[..n], args[n]);
      assert args[..n] + [args[n]] == args[..n + 1];
      IdsStay(program, v, Now(), k, f, names, known);
      d := c + e;
    }

    /** A definition is generated once; a function of an interface is imported instead. */
    method GenDef(f: nat)
      requires Valid() && f < |program|
      modifies this, pool
      ensures Valid() && Grew(program, old(Now()), Now(), -1)
      ensures f in asWsm && NameOf(imports, sources, asWsm[f]) == f
      ensures program[f].kind.Foreign? || f in sources
      decreases |program| - |sources|, 0
    {
      ghost var u := Now();
      if f in wasmed {
        GrewNothing(program, u, -1);
      } else if program[f].kind.Foreign? {
        GrewImported(program, u, f);
        ImportFunction(f);
      } else {
        hide Done, Grew;
        Covers(sources + [f], |program|);
        GenFunction(f);
      }
    }

    /** Declares the arguments, then generates the body into its own list. */
    method GenFunction(f: nat)
      requires Valid() && f < |program| && !program[f].kind.Foreign? && f !in wasmed && |sources| < |program|
      modifies this, pool
      ensures Valid() && Grew(program, old(Now()), Now(), -1)
      ensures f in asWsm && NameOf(imports, sources, asWsm[f]) == f && f in sources
      decreases |program| - |sources|, 0, 0
    {
      hide Good, Grew, Done;
      ghost var u := Now();
      var k := |bodies|;
      OpenedFresh(program, u, f);
      OpenFunction(f);
      ghost var o := Now();
      GenParameters(k, f, o);
      GenCode(k, f, o);
      CloseFunction(k, f, u);
    }

    /** The arguments are not counted among the locals. */
    method CloseFunction(k: nat, f: nat, ghost u: Unit)
      requires Valid() && f < |program| && !program[f].kind.Foreign? && k == |u.sources| && k < |bodies|
      requires Good(program, u) && f !in u.sources && Grew(program, Opened(u, f), Now(), k)
      requires Named(imports, sources, Now().codes[k]) == DefCode(program[f])
      requires sizes[k] == |program[f].args| + listed[k]
      requires listed[k] == if program[f].kind.Adder? then 0 else |Lets(program[f].body)|
      modifies this`sizes, this`listed
      ensures Valid() && Grew(program, u, Now(), -1)
      ensures f in asWsm && NameOf(imports, sources, asWsm[f]) == f && f in sources
    {
      hide Good, Grew, DefCode, Named;
      ghost var o, v := Opened(u, f), Now();
      GrewFacts(program, o, v, k);
      SetLocals(k, sizes[k] - |program[f].args|, listed[k]);
      GrewOpened(program, u, f, v, Now());
    }

    method SetLocals(k: nat, size: int, list: nat)
      requires Valid() && k < |bodies|
      modifies this`sizes, this`listed
      ensures Valid() && Now() == old(Now()).(sizes := old(sizes)[k := size], listed := old(listed)[k := list])
    {
      sizes := sizes[k := size];
      listed := listed[k := list];
    }

    method GenParameters(k: nat, f: nat, ghost o: Unit)
      requires Valid() && k < |bodies| && f < |program| && sources[k] == f && Now() == o
      requires sizes[k] == listed[k] == 0 && forall x :: (f, x) !in o.ids
      requires DefOk(program, program[f]) && !program[f].kind.Foreign?
      modifies this`ids, this`sizes, this`listed
      ensures Valid() && Grew(program, o, Now(), k) && Now().codes == o.codes
      ensures sizes[k] == listed[k] == |program[f].args|
      ensures program[f].kind.Plain? ==> IdsKnown(Now(), f, Declared(program[f]), Names(program[f].args))
    {
      hide Good, Grew;
      var args := program[f].args;
      GrewNothing(program, o, k);
      for n := 0 to |args|
        invariant Valid() && Grew(program, o, Now(), k) && Now().codes == o.codes
        invariant |sizes| == |listed| == |bodies| && sizes[k] == listed[k] == n
        invariant program[f].kind.Plain? ==> InOrder(ids, f, args, n)
      {
        if program[f].kind.Plain? {
          InOrderMore(ids, f, args, n);
        }
        DeclareSince(k, f, args[n], o);
      }
      if program[f].kind.Plain? {
        ParametersKnown(program, Now(), f);
      }
    }

    method GenCode(k: nat, f: nat, ghost o: Unit)
      requires Valid() && k < |bodies| && f < |program| && sources[k] == f && |sources| <= |program|
               && |o.sources| == |sources|
      requires Grew(program, o, Now(), k) && Now().codes[k] == [] && sizes[k] == |program[f].args|
      requires DefOk(program, program[f]) && !program[f].kind.Foreign? && forall x :: (f, x) !in o.ids
      requires program[f].kind.Plain? ==> IdsKnown(Now(), f, Declared(program[f]), Names(program[f].args))
      requires k < |o.sources| && o.sources[k] == f && k < |o.codes| && o.codes[k] == []
      modifies this, pool
      ensures Valid() && Grew(program, o, Now(), k) && k < |bodies|
      ensures Named(imports, sources, Now().codes[k]) == DefCode(program[f])
      ensures sizes[k] == |program[f].args| + listed[k]
      ensures listed[k] == if program[f].kind.Adder? then 0 else |Lets(program[f].body)|
      decreases |program| - |sources|, 4
    {
      hide Good, Grew, Done;
      if program[f].kind.Adder? {
        GenAdder(k, f, o);
      } else {
        ghost var v := Now();
        GrewFacts(program, o, v, k);
        SetLocals(k, sizes[k], 0);
        GrewTouched(program, o, v, Now(), k, f);
        BuildingStarts(program, Now(), k, f, o);
        GenBody(k, f, o);
      }
    }

    /** The built-in addition: the last two locals declared, the last one first. */
    method GenAdder(k: nat, f: nat, ghost o: Unit)
      requires Valid() && k < |bodies| && f < |program| && sources[k] == f && |o.sources| == |sources|
      requires Grew(program, o, Now(), k) && Now().codes[k] == [] && sizes[k] == |program[f].args| == 2
      requires program[f].kind.Adder? && forall x :: (f, x) !in o.ids
      modifies this, pool
      ensures Valid() && Grew(program, o, Now(), k) && k < |bodies|
      ensures Named(imports, sources, Now().codes[k]) == DefCode(program[f])
      ensures sizes[k] == 2 && listed[k] == 0
    {
      hide Good, Grew, Done;
      hide Named, Shaped, Emitted;
      GrewFacts(program, o, Now(), k);
      ghost var v, last, first := Now(), Get(sizes[k] - 1), Get(sizes[k] - 2);
      ThreeEmitted(v, k, last, first, Add);
      EmitSince(k, Get(sizes[k] - 1), o);
      ghost var w := Now();
      assert w == Emitted(v, k, last);
      EmitSince(k, Get(sizes[k] - 2), o);
      ghost var x := Now();
      assert x == Emitted(w, k, first);
      EmitSince(k, Add, o);
      ghost var y := Now();
      assert y == Emitted(x, k, Add);
      AdderCode(imports, sources, program[f]);
      SetLocals(k, sizes[k], 0);
      GrewTouched(program, o, y, Now(), k, f);
    }

    method EmitSince(k: nat, x: Instr<Target>, ghost o: Unit)
      requires Valid() && k < |bodies| && k < |o.sources| && Grew(program, o, Now(), k)
      modifies pool
      ensures Valid() && Grew(program, o, Now(), k) && Now() == Emitted(old(Now()), k, x)
    {
      hide Good, Grew;
      GrewEmitted(program, o, Now(), k, x);
      Emit(k, x);
    }

    method DeclareSince(k: nat, f: nat, x: nat, ghost o: Unit)
      requires Valid() && k < |bodies| && k < |o.sources| && sources[k] == o.sources[k] == f && sizes[k] >= 0
      requires Grew(program, o, Now(), k) && forall y :: (f, y) !in o.ids
      modifies this`ids, this`sizes, this`listed
      ensures Valid() && Grew(program, o, Now(), k) && Now() == Declare(old(Now()), k, f, x)
    {
      hide Good, Grew;
      ghost var v := Now();
      DeclareVariable(k, f, x);
      GrewTouched(program, o, v, Now(), k, f);
    }

    /** The statements of a body, in order. */
    method GenBody(k: nat, f: nat, ghost o: Unit)
      requires Valid() && f < |program| && Building(program, Now(), k, f, 0, o, [])
      requires k < |bodies| && |o.sources| == |sources| <= |program|
      modifies this, pool
      ensures Valid() && Grew(program, o, Now(), k) && k < |bodies|
      ensures Named(imports, sources, Now().codes[k]) == DefCode(program[f])
      ensures sizes[k] == |program[f].args| + |Lets(program[f].body)| && listed[k] == |Lets(program[f].body)|
      decreases |program| - |sources|, 3
    {
      var n := 0;
      ghost var c: Code := [];
      hide Good, Grew, IdsKnown, Named, Shaped, Building, DefCode, Lets;
      while n < |program[f].body|
        invariant Valid() && n <= |program[f].body| && Building(program, Now(), k, f, n, o, c)
        invariant |o.sources| <= |sources| <= |program|
      {
        c := GenStmt(k, f, n, o, c);
        n := n + 1;
      }
      BuildingEnds(program, Now(), k, f, o, c);
    }

    method GenStmt(k: nat, f: nat, n: nat, ghost o: Unit, ghost c: Code) returns (ghost d: Code)
      requires Valid() && f < |program| && n < |program[f].body| && Building(program, Now(), k, f, n, o, c)
      requires |o.sources| <= |sources| <= |program|
      modifies this, pool
      ensures Valid() && Building(program, Now(), k, f, n + 1, o, d) && |o.sources| <= |sources| <= |program|
      decreases |program| - |sources|, 3, 0
    {
      ghost var known, v := Known(program[f], n), Now();
      StepFacts(program, v, k, f, n, o, c);
      hide Good, Grew, IdsKnown, Named, Shaped, Building, Valued, Known;
      match program[f].body[n]
      case Let(x) =>
        LetBuilds(program, v, k, f, n, o, c);
        DeclareVariable(k, f, x);
        d := c;
      case Assign(x, e) =>
        var code := GenExpr(k, f, e, known);
        ghost var w := Now();
        GrewFacts(program, v, w, k);
        IdsStay(program, v, w, k, f, Declared(program[f]), known);
        IdKnown(w, f, Declared(program[f]), known, x);
        var id := ids[(f, x)];
        Emit(k, Set(id));
        ValueGrows(program, v, w, k, f, n, o, c, code);
        AssignBuilds(program, w, k, f, n, o, c + code, id);
        d := c + code + [Set(id)];
      case Return(e) =>
        var code := GenExpr(k, f, e, known);
        GrewFacts(program, v, Now(), k);
        ValueGrows(program, v, Now(), k, f, n, o, c, code);
        ReturnBuilds(program, Now(), k, f, n, o, c + code);
        d := c + code;
    }
  }

  /** A body half-way: the first `n` statements of definition `f` were generated to `c`, since `o`. */
  ghost predicate Building(p: Program, u: Unit, k: nat, f: nat, n: nat, o: Unit, c: Code) {
    && f < |p| && p[f].kind.Plain? && DefOk(p, p[f]) && n <= |p[f].body|
    && k < |o.sources| && o.sources[k] == f && k < |o.codes| && o.codes[k] == [] && (forall x :: (f, x) !in o.ids)
    && Grew(p, o, u, k) && u.codes[k] == c
    && Named(u.imports, u.sources, c) == BodyCode(Declared(p[f]), p[f].body[..n])
    && IdsKnown(u, f, Declared(p[f]), Known(p[f], n))
    && (n < |p[f].body| ==> BodyOk(p, Known(p[f], n), p[f].body[n..]))
    && u.sizes[k] == |p[f].args| + |Lets(p[f].body[..n])| && u.listed[k] == |Lets(p[f].body[..n])|
  }

  lemma BuildingStarts(p: Program, u: Unit, k: nat, f: nat, o: Unit)
    requires f < |p| && p[f].kind.Plain? && DefOk(p, p[f])
    requires k < |o.sources| && o.sources[k] == f && k < |o.codes| && o.codes[k] == [] && (forall x :: (f, x) !in o.ids)
    requires Grew(p, o, u, k) && u.codes[k] == [] && u.sizes[k] == |p[f].args| && u.listed[k] == 0
    requires IdsKnown(u, f, Declared(p[f]), Names(p[f].args))
    ensures Building(p, u, k, f, 0, o, [])
    ensures |o.sources| <= |u.sources| <= |p|
  {
    NothingGenerated(p, p[f], u.imports, u.sources);
    GrewFacts(p, o, u, k);
  }

  lemma BuildingEnds(p: Program, u: Unit, k: nat, f: nat, o: Unit, c: Code)
    requires f < |p| && Building(p, u, k, f, |p[f].body|, o, c)
    ensures Grew(p, o, u, k) && k < |u.codes| && Named(u.imports, u.sources, u.codes[k]) == DefCode(p[f])
    ensures k < |u.sizes| && k < |u.listed| && u.sizes[k] == |p[f].args| + |Lets(p[f].body)|
            && u.listed[k] == |Lets(p[f].body)|
  {
    assert p[f].body[..|p[f].body|] == p[f].body;
  }

  lemma StepFacts(p: Program, u: Unit, k: nat, f: nat, n: nat, o: Unit, c: Code)
    requires f < |p| && n < |p[f].body| && Building(p, u, k, f, n, o, c)
    ensures var stmt := p[f].body[n];
            && k < |u.sources| && u.sources[k] == f && k < |u.sizes| && u.sizes[k] >= 0
            && IdsKnown(u, f, Declared(p[f]), Known(p[f], n))
            && (!stmt.Let? ==> ExprOk(p, Known(p[f], n), stmt.value))
            && (stmt.Assign? ==> stmt.name in Known(p[f], n))
  {
    hide IdsKnown, Named, BodyOk, Known;
    GrewFacts(p, o, u, k);
    KnownStep(p, p[f], n);
  }

  /** A declaration adds no code. */
  lemma LetBuilds(p: Program, u: Unit, k: nat, f: nat, n: nat, o: Unit, c: Code)
    requires f < |p| && n < |p[f].body| && Building(p, u, k, f, n, o, c) && p[f].body[n].Let?
    ensures k < |u.sizes| && k < |u.listed| && u.sizes[k] >= 0
    ensures Building(p, Declare(u, k, f, p[f].body[n].name), k, f, n + 1, o, c)
  {
    hide Good, IdsKnown, Named, BodyOk, DefOk, BodyCode, Known, Lets;
    var x := p[f].body[n].name;
    GrewFacts(p, o, u, k);
    ShapeOf(p, u);
    CodeStep(p, p[f], n);
    GrewDeclared(p, o, u, k, f, x);
    IdsDeclared(u, k, f, Declared(p[f]), Known(p[f], n), x);
  }

  lemma ShapeOf(p: Program, u: Unit)
    requires Good(p, u)
    ensures |u.codes| == |u.sizes| == |u.listed| == |u.sources|
  {
  }

  lemma GrewDeclared(p: Program, o: Unit, u: Unit, k: nat, f: nat, x: nat)
    requires Grew(p, o, u, k) && k < |o.sources| && o.sources[k] == f && (forall y :: (f, y) !in o.ids)
    requires k < |u.sizes| && k < |u.listed| && u.sizes[k] >= 0
    ensures Grew(p, o, Declare(u, k, f, x), k)
  {
    GrewTouched(p, o, u, Declare(u, k, f, x), k, f);
  }

  /** A body in the middle of its statement `n`: the value of the statement was generated too. */
  ghost predicate Valued(p: Program, v: Unit, k: nat, f: nat, n: nat, o: Unit, c: Code)
    requires f < |p| && n < |p[f].body| && !p[f].body[n].Let?
  {
    && p[f].kind.Plain? && DefOk(p, p[f])
    && k < |o.sources| && o.sources[k] == f && k < |o.codes| && o.codes[k] == [] && (forall x :: (f, x) !in o.ids)
    && Grew(p, o, v, k) && v.codes[k] == c
    && Named(v.imports, v.sources, c) == BodyCode(Declared(p[f]), p[f].body[..n])
       + ExprCode(Declared(p[f]), p[f].body[n].value)
    && IdsKnown(v, f, Declared(p[f]), Known(p[f], n)) && BodyOk(p, Known(p[f], n), p[f].body[n..])
    && v.sizes[k] == |p[f].args| + |Lets(p[f].body[..n])| && v.listed[k] == |Lets(p[f].body[..n])|
  }

  lemma ValueGrows(p: Program, u: Unit, v: Unit, k: nat, f: nat, n: nat, o: Unit, c: Code, code: Code)
    requires f < |p| && n < |p[f].body| && Building(p, u, k, f, n, o, c) && !p[f].body[n].Let?
    requires Grew(p, u, v, k) && v.codes[k] == u.codes[k] + code && v.sizes[k] == u.sizes[k]
             && v.listed[k] == u.listed[k]
    requires Named(v.imports, v.sources, code) == ExprCode(Declared(p[f]), p[f].body[n].value)
    ensures Valued(p, v, k, f, n, o, c + code)
  {
    var names := Declared(p[f]);
    hide Good, IdsKnown, Named, BodyOk, DefOk, BodyCode, ExprCode, Known, Lets, Resolved;
    GrewFacts(p, o, u, k);
    BodyCodeResolved(names, p[f].body[..n]);
    GrownPieces(p, o, u, v, k, c, code, BodyCode(names, p[f].body[..n]), ExprCode(names, p[f].body[n].value));
    IdsStay(p, u, v, k, f, names, Known(p[f], n));
    GrewFacts(p, o, v, k);
    ShapeOf(p, v);
  }

  /** A return adds the code of its value. */
  lemma ReturnBuilds(p: Program, v: Unit, k: nat, f: nat, n: nat, o: Unit, c: Code)
    requires f < |p| && n < |p[f].body| && p[f].body[n].Return? && Valued(p, v, k, f, n, o, c)
    ensures Building(p, v, k, f, n + 1, o, c)
  {
    hide Good, Grew, IdsKnown, Named, BodyOk, DefOk, BodyCode, ExprCode, Known, Lets;
    CodeStep(p, p[f], n);
  }

  /** An assignment stores its value. */
  lemma AssignBuilds(p: Program, v: Unit, k: nat, f: nat, n: nat, o: Unit, c: Code, id: nat)
    requires f < |p| && n < |p[f].body| && p[f].body[n].Assign? && Valued(p, v, k, f, n, o, c)
    requires id == Position(Declared(p[f]), p[f].body[n].name)
    ensures k < |v.codes| && Building(p, Emitted(v, k, Set(id)), k, f, n + 1, o, c + [Set(id)])
  {
    hide Good, IdsKnown, Named, BodyOk, DefOk, BodyCode, ExprCode, Known, Lets;
    GrewFacts(p, o, v, k);
    ShapeOf(p, v);
    CodeStep(p, p[f], n);
    GrewEmitted(p, o, v, k, Set(id));
    IdsEmitted(v, k, Set(id), f, Declared(p[f]), Known(p[f], n));
    GenSetNamed(v.imports, v.sources, c, id);
    var a, b := BodyCode(Declared(p[f]), p[f].body[..n]), ExprCode(Declared(p[f]), p[f].body[n].value);
    assert (a + b) + [Set(id)] == a + (b + [Set(id)]);
  }

  /** What statement `n` adds to the code, to the variables and to the locals. */
  lemma CodeStep(p: Program, def: FunDef, n: nat)
    requires DefOk(p, def) && def.kind.Plain? && n < |def.body| && BodyOk(p, Known(def, n), def.body[n..])
    ensures var names, stmt := Declared(def), def.body[n];
            && Resolved(BodyCode(names, def.body[..n]))
            && BodyCode(names, def.body[..n + 1]) == BodyCode(names, def.body[..n]) + StmtCode(names, stmt)
            && |Lets(def.body[..n + 1])| == |Lets(def.body[..n])| + (if stmt.Let? then 1 else 0)
            && (stmt.Let? ==> Known(def, n + 1) == Known(def, n) + {stmt.name}
                              && Position(names, stmt.name) == |def.args| + |Lets(def.body[..n])|)
            && (!stmt.Let? ==> Known(def, n + 1) == Known(def, n))
    ensures n + 1 < |def.body| ==> BodyOk(p, Known(def, n + 1), def.body[n + 1..])
  {
    hide BodyOk, BodyCode, Known, DefOk, Lets;
    KnownStep(p, def, n);
    BodyCodeResolved(Declared(def), def.body[..n]);
    BodyCodeAppend(Declared(def), def.body[..n], def.body[n]);
    assert def.body[..n] + [def.body[n]] == def.body[..n + 1];
    if def.body[n].Let? {
      NextId(p, def, n);
    }
  }

  lemma IdsDeclared(u: Unit, k: nat, f: nat, names: seq<nat>, known: set<nat>, x: nat)
    requires IdsKnown(u, f, names, known) && k < |u.sizes| && k < |u.listed| && u.sizes[k] >= 0
             && u.sizes[k] == Position(names, x)
    ensures IdsKnown(Declare(u, k, f, x), f, names, known + {x})
  {
  }

  lemma IdsEmitted(u: Unit, k: nat, i: Instr<Target>, f: nat, names: seq<nat>, known: set<nat>)
    requires IdsKnown(u, f, names, known) && k < |u.codes|
    ensures IdsKnown(Emitted(u, k, i), f, names, known)
  {
  }

  lemma GenSetNamed(imports: seq<Import64>, sources: seq<nat>, c: Code, id: nat)
    ensures Named(imports, sources, c + [Set(id)]) == Named(imports, sources, c) + [Set(id)]
  {
  }

  lemma NothingGenerated(p: Program, def: FunDef, imports: seq<Import64>, sources: seq<nat>)
    requires def.kind.Plain? && DefOk(p, def)
    ensures def.body[..0] == [] && def.body != [] && Named(imports, sources, []) == BodyCode(Declared(def), [])
    ensures Lets([]) == [] && Known(def, 0) == Names(def.args) && def.body[0..] == def.body
    ensures BodyOk(p, Known(def, 0), def.body)
  {
    assert Lets(def.body[..0]) == [];
  }

  lemma ThreeEmitted(u: Unit, k: nat, a: Instr<Target>, b: Instr<Target>, c: Instr<Target>)
    requires k < |u.codes| && u.codes[k] == []
    ensures var v := Emitted(u, k, a);
            && k < |v.codes| && v == u.(codes := v.codes) && |v.codes| == |u.codes|
            && var w := Emitted(v, k, b);
            && k < |w.codes| && w == u.(codes := w.codes) && |w.codes| == |u.codes|
            && var x := Emitted(w, k, c);
            x == u.(codes := x.codes) && |x.codes| == |u.codes| && x.codes[k] == [a, b, c]
  {
  }

  lemma AdderCode(imports: seq<Import64>, sources: seq<nat>, def: FunDef)
    requires def.kind.Adder?
    ensures Named(imports, sources, [Get(1), Get(0), Add]) == DefCode(def)
  {
  }

  /** The first `n` arguments have their positions as ids. */
  ghost predicate InOrder(ids: map<(nat, nat), nat>, f: nat, args: seq<nat>, n: nat)
    requires n <= |args|
  {
    forall i :: 0 <= i < n ==> (f, args[i]) in ids && ids[(f, args[i])] == i
  }

  lemma InOrderMore(ids: map<(nat, nat), nat>, f: nat, args: seq<nat>, n: nat)
    requires n < |args| && NoDup(args) && InOrder(ids, f, args, n)
    ensures InOrder(ids[(f, args[n]) := n], f, args, n + 1)
  {
  }

  lemma ParametersKnown(p: Program, u: Unit, f: nat)
    requires f < |p| && p[f].kind.Plain? && DefOk(p, p[f]) && InOrder(u.ids, f, p[f].args, |p[f].args|)
    ensures IdsKnown(u, f, Declared(p[f]), Names(p[f].args))
  {
    DeclaredOnce(p, p[f]);
    forall x | x in Names(p[f].args) ensures (f, x) in u.ids && u.ids[(f, x)] == Position(Declared(p[f]), x) {
      var i :| 0 <= i < |p[f].args| && p[f].args[i] == x;
      assert Declared(p[f])[i] == x;
      PositionAt(Declared(p[f]), i);
    }
  }

  // ---------- a whole bundle ----------

  /** The module that was generated. */
  ghost function Module(p: Program, u: Unit): Unit64
    requires Good(p, u) && forall k :: 0 <= k < |u.sizes| ==> u.sizes[k] >= 0
  {
    Unit64(u.imports, seq(|u.sources|, k requires 0 <= k < |u.sources| =>
                          Code64(|p[u.sources[k]].args|, u.sizes[k], u.codes[k])))
  }

  lemma AllDone(p: Program, u: Unit)
    requires Grew(p, Unit([], [], [], [], [], map[], map[]), u, -1)
    ensures Good(p, u) && forall k :: 0 <= k < |u.sizes| ==> u.sizes[k] >= 0 && u.sizes[k] == u.listed[k]
    ensures Complete(p, Module(p, u), u.sources)
  {
    forall k | 0 <= k < |u.sources| ensures u.sizes[k] == u.listed[k] >= 0 {
      assert Done(p, u, k);
    }
    var m := Module(p, u);
    forall k | 0 <= k < |m.funcs| ensures CompiledTo(p[u.sources[k]], m, u.sources, m.funcs[k]) {
      assert Done(p, u, k);
    }
    forall k | 0 <= k < |m.imports| ensures ImportOk(p, m.imports[k]) {
    }
  }

  lemma SourcesStay(p: Program, u: Unit, v: Unit)
    requires Grew(p, u, v, -1)
    ensures forall f :: f in u.sources ==> f in v.sources
  {
  }

  /** Visits every definition of a bundle, in order. */
  method Generate(program: Program) returns (s: Scribe)
    requires ProgramOk(program)
    ensures s.Valid() && s.program == program
    ensures forall k :: 0 <= k < |s.sizes| ==> s.sizes[k] >= 0 && s.sizes[k] == s.listed[k]
    ensures Complete(program, Module(program, s.Now()), s.sources)
    ensures forall f :: 0 <= f < |program| && !program[f].kind.Foreign? ==> f in s.sources
  {
    s := new Scribe(program);
    ghost var u := s.Now();
    GrewNothing(program, u, -1);
    hide Good, Grew, Done, Complete;
    var f := 0;
    while f < |program|
      invariant 0 <= f <= |program| && fresh(s) && fresh(s.pool)
      invariant s.Valid() && s.program == program && Grew(program, u, s.Now(), -1)
      invariant forall g :: 0 <= g < f && !program[g].kind.Foreign? ==> g in s.sources
    {
      if !program[f].kind.Foreign? {
        ghost var v := s.Now();
        s.GenDef(f);
        GrewMore(program, u, v, s.Now(), -1);
        SourcesStay(program, v, s.Now());
      }
      f := f + 1;
    }
    AllDone(program, s.Now());
  }

  /** Every function of a generated bundle computes, modulo 2 to the 64, what its definition means over the
      integers, however deep its calls go. */
  lemma GeneratedCodeIsCorrect(p: Program, u: Unit, i: Meaning, j: Sense, fuel: nat, f: nat, vs: seq<int>)
    requires ProgramOk(p) && Good(p, u) && (forall k :: 0 <= k < |u.sizes| ==> u.sizes[k] >= 0)
    requires Complete(p, Module(p, u), u.sources) && Congruent(i, j) && Crossed(j)
    requires f in u.sources && |vs| == |p[f].args|
    ensures Invoke(Module(p, u), i, fuel, u.asWsm[f], WrapAll(vs)) ==
              var v := Apply(p, j, fuel, f, vs); if v.Some? then Some(Wrap(v.value)) else None
  {
    InvokeRuns(p, Module(p, u), u.sources, i, j, fuel, u.asWsm[f], f, vs);
  }
}
