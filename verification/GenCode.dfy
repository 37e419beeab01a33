/** The instructions that a body compiles to, and the proof that they compute what the body means. */
module GenCode {
  import opened Sequences
  import opened GenLanguage

  /** Instructions whose calls name their callee in the source. */
  type Spec = seq<Instr<int>>

  function Position(names: seq<nat>, x: nat): (k: nat)
    ensures k <= |names|
    ensures x in names ==> k < |names| && names[k] == x
  {
    if names == [] || names[0] == x then 0 else 1 + Position(names[1..], x)
  }

  /** The right operand comes before the left one; a call is made only for an operator bound to an interface. */
  function ExprCode(names: seq<nat>, e: Expr): Spec
    decreases e
  {
    match e
    case Lit(v) => [Const(v)]
    case Var(x) => [Get(Position(names, x))]
    case Binop(l, r, op) =>
      ExprCode(names, r) + ExprCode(names, l) + (if op.Interface? then [Call(op.f)] else [])
    case FunCall(f, args) => ArgsCode(names, args) + [Call(f)]
  }

  function ArgsCode(names: seq<nat>, es: seq<Expr>): Spec
    decreases es
  {
    if es == [] then [] else ExprCode(names, es[0]) + ArgsCode(names, es[1..])
  }

  function BodyCode(names: seq<nat>, body: seq<Stmt>): Spec {
    if body == [] then []
    else StmtCode(names, body[0]) + BodyCode(names, body[1..])
  }

  function StmtCode(names: seq<nat>, stmt: Stmt): Spec {
    match stmt
    case Let(_) => []
    case Assign(x, e) => ExprCode(names, e) + [Set(Position(names, x))]
    case Return(e) => ExprCode(names, e)
  }

  function DefCode(def: FunDef): Spec {
    if def.kind.Adder? then [Get(1), Get(0), Add] else BodyCode(Declared(def), def.body)
  }

  // ---------- callees ----------

  function NameOf(imports: seq<Import64>, sources: seq<nat>, t: Target): int {
    match t
    case ToImport(k) => if k < |imports| then imports[k].name else -1
    case ToFunc(k) => if k < |sources| then sources[k] else -1
  }

  function NamedOne(imports: seq<Import64>, sources: seq<nat>, x: Instr<Target>): Instr<int> {
    match x
    case Const(v) => Const(v)
    case Get(id) => Get(id)
    case Set(id) => Set(id)
    case Add => Add
    case Call(t) => Call(NameOf(imports, sources, t))
  }

  function Named(imports: seq<Import64>, sources: seq<nat>, code: Code): (s: Spec)
    ensures |s| == |code| && forall k :: 0 <= k < |code| ==> s[k] == NamedOne(imports, sources, code[k])
  {
    seq(|code|, k requires 0 <= k < |code| => NamedOne(imports, sources, code[k]))
  }

  /** A unit in which `sources[k]` was compiled to function `k`. */
  ghost predicate Complete(p: Program, m: Unit64, sources: seq<nat>) {
    && |sources| == |m.funcs|
    && (forall k :: 0 <= k < |m.funcs| ==> sources[k] < |p| && CompiledTo(p[sources[k]], m, sources, m.funcs[k]))
    && (forall k :: 0 <= k < |m.imports| ==>
          m.imports[k].name < |p| && p[m.imports[k].name].kind.Foreign?
          && m.imports[k].params == |p[m.imports[k].name].args|)
  }

  ghost predicate CompiledTo(def: FunDef, m: Unit64, sources: seq<nat>, f: Code64) {
    && !def.kind.Foreign?
    && f.params == |def.args|
    && f.locals == (if def.kind.Adder? then 0 else |Lets(def.body)|)
    && Named(m.imports, sources, f.code) == DefCode(def)
  }

  // ---------- values ----------

  function WrapAll(vs: seq<int>): (s: seq<int>)
    ensures |s| == |vs|
  {
    seq(|vs|, k requires 0 <= k < |vs| => Wrap(vs[k]))
  }

  /** The machine's foreign functions compute on 64 bits what the source's compute on integers. */
  ghost predicate Congruent(i: Meaning, j: Sense) {
    forall f, vs :: i(f, WrapAll(vs)) == Wrap(j.call(f, vs))
  }

  /** An operator means its function, applied to the right operand and then the left one. */
  ghost predicate Crossed(j: Sense) {
    forall f, a, b :: Wrap(j.op(f, a, b)) == Wrap(j.call(f, [b, a]))
  }

  /** A function does not tell the order of two arguments apart. */
  ghost predicate Commutes(call: Meaning, f: nat) {
    forall a, b :: Wrap(call(f, [a, b])) == Wrap(call(f, [b, a]))
  }

  /** Every local holds the value of its variable, and zero before the declaration. */
  ghost predicate Agrees(names: seq<nat>, env: map<nat, int>, locals: seq<int>) {
    && |locals| == |names| && NoDup(names) && (forall x :: x in env ==> x in names)
    && forall k :: 0 <= k < |names| ==> locals[k] == if names[k] in env then Wrap(env[names[k]]) else 0
  }

  /** Code that names a concatenation is itself one. */
  lemma NamedSplit(imports: seq<Import64>, sources: seq<nat>, code: Code, a: Spec, b: Spec) returns (c: Code, d: Code)
    requires Named(imports, sources, code) == a + b
    ensures code == c + d && Named(imports, sources, c) == a && Named(imports, sources, d) == b
  {
    c, d := code[..|a|], code[|a|..];
    hide NamedOne;
    forall k | 0 <= k < |a| ensures Named(imports, sources, c)[k] == a[k] {
      assert Named(imports, sources, code)[k] == (a + b)[k];
    }
    forall k | 0 <= k < |b| ensures Named(imports, sources, d)[k] == b[k] {
      assert Named(imports, sources, code)[|a| + k] == (a + b)[|a| + k];
    }
  }

  // ---------- correctness ----------

  /** All that an execution depends on besides the code. */
  ghost predicate World(p: Program, m: Unit64, sources: seq<nat>, i: Meaning, j: Sense) {
    ProgramOk(p) && Complete(p, m, sources) && Congruent(i, j) && Crossed(j)
  }

  /** A frame with `vs` pushed in order. */
  function Pushed(s: Frame, vs: seq<int>): Frame {
    s.(stack := s.stack + WrapAll(vs))
  }

  lemma {:induction false} ExprRuns(p: Program, m: Unit64, sources: seq<nat>, i: Meaning, j: Sense, fuel: nat,
                                    names: seq<nat>, e: Expr, env: map<nat, int>, code: Code, s: Frame)
    requires World(p, m, sources, i, j) && ExprOk(p, env.Keys, e)
    requires Agrees(names, env, s.locals) && Named(m.imports, sources, code) == ExprCode(names, e)
    ensures Exec(m, i, fuel, code, s) ==
              var v := Eval(p, j, fuel, e, env); if v.Some? then Some(Pushed(s, [v.value])) else None
    decreases fuel, 1, e
  {
    hide World, Agrees, Exec;
    match e
    case Lit(v) =>
      assert code == [Const(v)];
      PushedOne(s, v);
      ExecOne(m, i, fuel, Const(v), s);
    case Var(x) =>
      var k := Position(names, x);
      assert code == [Get(k)];
      AgreesAt(names, env, s.locals, x);
      PushedOne(s, env[x]);
      ExecOne(m, i, fuel, Get(k), s);
    case Binop(_, _, _) => BinopRuns(p, m, sources, i, j, fuel, names, e, env, code, s);
    case FunCall(_, _) => FunCallRuns(p, m, sources, i, j, fuel, names, e, env, code, s);
  }

  lemma AgreesAt(names: seq<nat>, env: map<nat, int>, locals: seq<int>, x: nat)
    requires Agrees(names, env, locals) && x in env
    ensures Position(names, x) < |locals| && locals[Position(names, x)] == Wrap(env[x])
  {
  }

  lemma {:induction false} BinopRuns(p: Program, m: Unit64, sources: seq<nat>, i: Meaning, j: Sense, fuel: nat,
                                     names: seq<nat>, e: Expr, env: map<nat, int>, code: Code, s: Frame)
    requires e.Binop? && World(p, m, sources, i, j) && ExprOk(p, env.Keys, e)
    requires Agrees(names, env, s.locals) && Named(m.imports, sources, code) == ExprCode(names, e)
    ensures Exec(m, i, fuel, code, s) ==
              var v := Eval(p, j, fuel, e, env); if v.Some? then Some(Pushed(s, [v.value])) else None
    decreases fuel, 1, e, 0
  {
    hide World, Agrees, Exec, Step;
    var f := e.op.f;
    var head, last := NamedSplit(m.imports, sources, code, ExprCode(names, e.rhs) + ExprCode(names, e.lhs), [Call(f)]);
    var right, left := NamedSplit(m.imports, sources, head, ExprCode(names, e.rhs), ExprCode(names, e.lhs));
    ExprRuns(p, m, sources, i, j, fuel, names, e.rhs, env, right, s);
    ExecAppend(m, i, fuel, right + left, last, s);
    ExecAppend(m, i, fuel, right, left, s);
    var a, b := Eval(p, j, fuel, e.lhs, env), Eval(p, j, fuel, e.rhs, env);
    if b.Some? {
      ExprRuns(p, m, sources, i, j, fuel, names, e.lhs, env, left, Pushed(s, [b.value]));
      if a.Some? {
        PushedTwice(s, [b.value], [a.value]);
        assert [b.value] + [a.value] == [b.value, a.value];
        CallRuns(p, m, sources, i, j, fuel, f, last, [b.value, a.value], s);
        OperatorApplies(p, m, sources, i, j, fuel, f, a.value, b.value);
        PushedOne(s, Apply(p, j, fuel, f, [b.value, a.value]).value);
        PushedOne(s, j.op(f, a.value, b.value));
      }
    }
  }

  lemma PushedOne(s: Frame, v: int)
    ensures Pushed(s, [v]) == s.(stack := s.stack + [Wrap(v)])
  {
    assert WrapAll([v]) == [Wrap(v)];
  }

  lemma PushedTwice(s: Frame, vs: seq<int>, ws: seq<int>)
    ensures Pushed(Pushed(s, vs), ws) == Pushed(s, vs + ws)
  {
    assert WrapAll(vs + ws) == WrapAll(vs) + WrapAll(ws);
    assert s.stack + WrapAll(vs) + WrapAll(ws) == s.stack + (WrapAll(vs) + WrapAll(ws));
  }

  /** The right operand was pushed first, so it becomes the first argument. */
  lemma OperatorApplies(p: Program, m: Unit64, sources: seq<nat>, i: Meaning, j: Sense, fuel: nat, f: nat, a: int,
                        b: int)
    requires World(p, m, sources, i, j) && f < |p| && p[f].kind.Foreign? && |p[f].args| == 2
    ensures var v := Apply(p, j, fuel, f, [b, a]); v.Some? && Wrap(v.value) == Wrap(j.op(f, a, b))
  {
  }

  lemma {:induction false} FunCallRuns(p: Program, m: Unit64, sources: seq<nat>, i: Meaning, j: Sense, fuel: nat,
                                       names: seq<nat>, e: Expr, env: map<nat, int>, code: Code, s: Frame)
    requires e.FunCall? && World(p, m, sources, i, j) && ExprOk(p, env.Keys, e)
    requires Agrees(names, env, s.locals) && Named(m.imports, sources, code) == ExprCode(names, e)
    ensures Exec(m, i, fuel, code, s) ==
              var v := Eval(p, j, fuel, e, env); if v.Some? then Some(Pushed(s, [v.value])) else None
    decreases fuel, 1, e, 0
  {
    hide World, Agrees, Exec;
    var head, last := NamedSplit(m.imports, sources, code, ArgsCode(names, e.args), [Call(e.f)]);
    ExecAppend(m, i, fuel, head, last, s);
    ArgsRun(p, m, sources, i, j, fuel, names, e.args, env, head, s);
    var vs := EvalAll(p, j, fuel, e.args, env);
    if vs.Some? {
      CallRuns(p, m, sources, i, j, fuel, e.f, last, vs.value, s);
    }
  }

  lemma {:induction false} ArgsRun(p: Program, m: Unit64, sources: seq<nat>, i: Meaning, j: Sense, fuel: nat,
                                   names: seq<nat>, es: seq<Expr>, env: map<nat, int>, code: Code, s: Frame)
    requires World(p, m, sources, i, j)
    requires forall k :: 0 <= k < |es| ==> ExprOk(p, env.Keys, es[k])
    requires Agrees(names, env, s.locals) && Named(m.imports, sources, code) == ArgsCode(names, es)
    ensures Exec(m, i, fuel, code, s) ==
              var vs := EvalAll(p, j, fuel, es, env); if vs.Some? then Some(Pushed(s, vs.value)) else None
    decreases fuel, 1, es
  {
    hide World, Agrees;
    if es == [] {
      assert Pushed(s, []) == s by { assert s.stack + [] == s.stack; }
    } else {
      hide Exec;
      var head, last := NamedSplit(m.imports, sources, code, ExprCode(names, es[0]), ArgsCode(names, es[1..]));
      ExecAppend(m, i, fuel, head, last, s);
      ExprRuns(p, m, sources, i, j, fuel, names, es[0], env, head, s);
      var v, vs := Eval(p, j, fuel, es[0], env), EvalAll(p, j, fuel, es[1..], env);
      if v.Some? {
        ArgsRun(p, m, sources, i, j, fuel, names, es[1..], env, last, Pushed(s, [v.value]));
        if vs.Some? {
          PushedTwice(s, [v.value], vs.value);
        }
      }
    }
  }

  lemma {:induction false} CallRuns(p: Program, m: Unit64, sources: seq<nat>, i: Meaning, j: Sense, fuel: nat,
                                    f: nat, code: Code, vs: seq<int>, s: Frame)
    requires World(p, m, sources, i, j) && f < |p| && |vs| == |p[f].args|
    requires Named(m.imports, sources, code) == [Call(f)]
    ensures Exec(m, i, fuel, code, Pushed(s, vs)) ==
              var v := Apply(p, j, fuel, f, vs); if v.Some? then Some(Pushed(s, [v.value])) else None
    decreases fuel, 0, 1
  {
    hide World, Exec, Invoke;
    assert code[0].Call? && code == [code[0]];
    var t := code[0].callee;
    ExecOne(m, i, fuel, code[0], Pushed(s, vs));
    InvokeRuns(p, m, sources, i, j, fuel, t, f, vs);
    var n, v := |s.stack|, Apply(p, j, fuel, f, vs);
    if v.Some? {
      PushedOne(s, v.value);
    }
    assert Pushed(s, vs).stack[n..] == WrapAll(vs) && Pushed(s, vs).stack[..n] == s.stack;
  }

  /** Calling a compiled function computes, modulo 2 to the 64, what the function means. */
  lemma {:induction false} InvokeRuns(p: Program, m: Unit64, sources: seq<nat>, i: Meaning, j: Sense, fuel: nat,
                                      t: Target, f: nat, vs: seq<int>)
    requires World(p, m, sources, i, j) && f < |p| && |vs| == |p[f].args| && NameOf(m.imports, sources, t) == f
    ensures Params(m, t) == |vs|
    ensures Invoke(m, i, fuel, t, WrapAll(vs)) ==
              var v := Apply(p, j, fuel, f, vs); if v.Some? then Some(Wrap(v.value)) else None
    decreases fuel, 0, 0
  {
    if t.ToFunc? && fuel > 0 {
      assert CompiledTo(p[f], m, sources, m.funcs[t.index]) && DefOk(p, p[f]);
      if p[f].kind.Adder? {
        AdderRuns(p, m, sources, i, fuel - 1, t.index, vs);
      } else {
        PlainRuns(p, m, sources, i, j, fuel - 1, t.index, vs);
      }
    }
  }

  lemma WrapSum(a: int, b: int)
    ensures Wrap(Wrap(b) + Wrap(a)) == Wrap(a + b)
  {
  }

  lemma AdderRuns(p: Program, m: Unit64, sources: seq<nat>, i: Meaning, fuel: nat, k: nat, vs: seq<int>)
    requires k < |m.funcs| && k < |sources| && sources[k] < |p| && CompiledTo(p[sources[k]], m, sources, m.funcs[k])
    requires p[sources[k]].kind.Adder? && |vs| == 2
    ensures Exec(m, i, fuel, m.funcs[k].code, Frame([], WrapAll(vs) + Zeros(m.funcs[k].locals))) ==
              Some(Frame([Wrap(vs[0] + vs[1])], WrapAll(vs)))
  {
    hide Wrap;
    var code, locals := m.funcs[k].code, WrapAll(vs) + Zeros(m.funcs[k].locals);
    assert locals == WrapAll(vs);
    WrapSum(vs[0], vs[1]);
    assert code[0] == Get(1) && code[1] == Get(0) && code[2] == Add;
    assert code == [Get(1)] + ([Get(0)] + [Add]);
    ExecAppend(m, i, fuel, [Get(1)], [Get(0)] + [Add], Frame([], locals));
    ExecOne(m, i, fuel, Get(1), Frame([], locals));
    ExecAppend(m, i, fuel, [Get(0)], [Add], Frame([locals[1]], locals));
    ExecOne(m, i, fuel, Get(0), Frame([locals[1]], locals));
    assert [] + [locals[1]] == [locals[1]] && [locals[1]] + [locals[0]] == [locals[1], locals[0]];
    assert [locals[1], locals[0]][..0] + [Wrap(vs[0] + vs[1])] == [Wrap(vs[0] + vs[1])];
    ExecOne(m, i, fuel, Add, Frame([locals[1], locals[0]], locals));
  }

  lemma {:induction false} PlainRuns(p: Program, m: Unit64, sources: seq<nat>, i: Meaning, j: Sense, fuel: nat, k: nat,
                                     vs: seq<int>)
    requires World(p, m, sources, i, j) && k < |m.funcs| && |vs| == |p[sources[k]].args| && p[sources[k]].kind.Plain?
    ensures var def := p[sources[k]];
            var end := Exec(m, i, fuel, m.funcs[k].code, Frame([], WrapAll(vs) + Zeros(m.funcs[k].locals)));
            var r := Perform(p, j, fuel, def.body, Bind(def.args, vs));
            (end.Some? <==> r.Some?) && (r.Some? ==> end.value.stack == [Wrap(r.value.value)])
    decreases fuel, 3
  {
    var def := p[sources[k]];
    var locals := WrapAll(vs) + Zeros(m.funcs[k].locals);
    assert CompiledTo(def, m, sources, m.funcs[k]) && DefOk(p, def);
    StartAgrees(p, def, vs, locals);
    BodyRuns(p, m, sources, i, j, fuel, Declared(def), def.body, Bind(def.args, vs), m.funcs[k].code, locals);
  }

  lemma {:induction false} Bound(names: seq<nat>, values: seq<int>)
    requires |names| == |values| && NoDup(names)
    ensures Bind(names, values).Keys == Names(names)
    ensures forall k :: 0 <= k < |names| ==>
              names[k] in Bind(names, values) && Bind(names, values)[names[k]] == values[k]
  {
    if names != [] {
      Bound(names[1..], values[1..]);
      var rest := Bind(names[1..], values[1..]);
      assert forall x :: x in Names(names) <==> x == names[0] || x in Names(names[1..]);
      forall k | 1 <= k < |names| ensures names[k] in rest && rest[names[k]] == values[k] {
        assert names[k] == names[1..][k - 1] && values[k] == values[1..][k - 1];
      }
    }
  }

  /** The variables declared in a body are new and distinct. */
  lemma {:induction false} LetsAreNew(p: Program, known: set<nat>, body: seq<Stmt>)
    requires BodyOk(p, known, body)
    ensures NoDup(Lets(body)) && forall x :: x in Lets(body) ==> x !in known
    decreases body
  {
    match body[0]
    case Let(x) =>
      LetsAreNew(p, known + {x}, body[1..]);
      NoDupFront(x, Lets(body[1..]));
    case Assign(_, _) => LetsAreNew(p, known, body[1..]);
    case Return(_) => assert body[1..] == [] && Lets(body[1..]) == [];
  }

  /** At the start the arguments are bound and all the other variables are zero. */
  lemma StartAgrees(p: Program, def: FunDef, vs: seq<int>, locals: seq<int>)
    requires def.kind.Plain? && DefOk(p, def) && |vs| == |def.args|
    requires locals == WrapAll(vs) + Zeros(|Lets(def.body)|)
    ensures Agrees(Declared(def), Bind(def.args, vs), locals)
    ensures BodyOk(p, Bind(def.args, vs).Keys, def.body)
  {
    Bound(def.args, vs);
    LetsAreNew(p, Names(def.args), def.body);
    var names, n := Declared(def), |def.args|;
    assert forall k :: 0 <= k < n ==> names[k] == def.args[k];
    assert forall k :: n <= k < |names| ==> names[k] == Lets(def.body)[k - n] && names[k] in Lets(def.body);
  }

  /** A body leaves one value, and every local holds the value of its variable. */
  lemma {:induction false} BodyRuns(p: Program, m: Unit64, sources: seq<nat>, i: Meaning, j: Sense, fuel: nat,
                                    names: seq<nat>,
                                    body: seq<Stmt>, env: map<nat, int>, code: Code, locals: seq<int>)
    requires World(p, m, sources, i, j) && BodyOk(p, env.Keys, body)
    requires Agrees(names, env, locals) && (forall x :: x in Lets(body) ==> x in names)
    requires Named(m.imports, sources, code) == BodyCode(names, body)
    ensures var end, r := Exec(m, i, fuel, code, Frame([], locals)), Perform(p, j, fuel, body, env);
            && (end.Some? <==> r.Some?)
            && (r.Some? ==> end.value.stack == [Wrap(r.value.value)] && Agrees(names, r.value.env, end.value.locals))
    decreases fuel, 2, body
  {
    hide World, Exec;
    var first, rest := NamedSplit(m.imports, sources, code, StmtCode(names, body[0]), BodyCode(names, body[1..]));
    var s := Frame([], locals);
    ExecAppend(m, i, fuel, first, rest, s);
    match body[0]
    case Let(x) =>
      assert first == [] && first + rest == rest;
      assert env[x := 0].Keys == env.Keys + {x};
      assert x in Lets(body);
      BodyRuns(p, m, sources, i, j, fuel, names, body[1..], env[x := 0], rest, locals);
    case Assign(x, e) => AssignRuns(p, m, sources, i, j, fuel, names, body, env, first, rest, locals);
    case Return(e) =>
      assert body[1..] == [] && BodyCode(names, body[1..]) == [] && rest == [];
      assert first + rest == first;
      ExprRuns(p, m, sources, i, j, fuel, names, e, env, first, s);
  }

  lemma {:induction false} AssignRuns(p: Program, m: Unit64, sources: seq<nat>, i: Meaning, j: Sense, fuel: nat,
                                      names: seq<nat>,
                                      body: seq<Stmt>, env: map<nat, int>, first: Code, rest: Code, locals: seq<int>)
    requires World(p, m, sources, i, j) && BodyOk(p, env.Keys, body) && body[0].Assign?
    requires Agrees(names, env, locals) && (forall x :: x in Lets(body) ==> x in names)
    requires Named(m.imports, sources, first) == StmtCode(names, body[0])
    requires Named(m.imports, sources, rest) == BodyCode(names, body[1..])
    ensures var end, r := Exec(m, i, fuel, first + rest, Frame([], locals)), Perform(p, j, fuel, body, env);
            && (end.Some? <==> r.Some?)
            && (r.Some? ==> end.value.stack == [Wrap(r.value.value)] && Agrees(names, r.value.env, end.value.locals))
    decreases fuel, 2, body, 0
  {
    hide World, Exec;
    var x, e, s := body[0].name, body[0].value, Frame([], locals);
    var k := Position(names, x);
    ExecAppend(m, i, fuel, first, rest, s);
    var head, last := NamedSplit(m.imports, sources, first, ExprCode(names, e), [Set(k)]);
    assert last == [Set(k)];
    ExecAppend(m, i, fuel, head, last, s);
    ExprRuns(p, m, sources, i, j, fuel, names, e, env, head, s);
    var v := Eval(p, j, fuel, e, env);
    if v.Some? {
      ExecOne(m, i, fuel, Set(k), Pushed(s, [v.value]));
      assert Pushed(s, [v.value]).stack == [Wrap(v.value)];
      assert env[x := v.value].Keys == env.Keys;
      assert Agrees(names, env[x := v.value], locals[k := Wrap(v.value)]);
      BodyRuns(p, m, sources, i, j, fuel, names, body[1..], env[x := v.value], rest, locals[k := Wrap(v.value)]);
    }
  }
}
