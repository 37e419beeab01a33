/** The bodies that the code generator handles, what they mean, and the stack machine they are compiled to. */
module GenLanguage {
  import opened Sequences

  const WORD := 0x1_0000_0000_0000_0000

  datatype Option<T> = None | Some(value: T)

  // ---------- source ----------

  /** What a binary operator was bound to: nothing, a function of the same bundle, or a function of an interface. */
  datatype Operator = Unbound | Local(f: nat) | Interface(f: nat)

  datatype Expr =
    | Lit(value: int)
    | Var(name: nat)
    | Binop(lhs: Expr, rhs: Expr, op: Operator)
    | FunCall(f: nat, args: seq<Expr>)

  /** An assignment is a binary operator whose left side is a pattern. */
  datatype Stmt = Let(name: nat) | Assign(name: nat, value: Expr) | Return(value: Expr)

  /** `Foreign` functions are known by their interface only; `Adder` is the built-in addition. */
  datatype Kind = Foreign | Adder | Plain

  datatype FunDef = FunDef(kind: Kind, args: seq<nat>, body: seq<Stmt>)

  type Program = seq<FunDef>

  /** How foreign functions compute. */
  type Meaning = (nat, seq<int>) -> int

  /** What calls of foreign functions and operators bound to them mean. */
  datatype Sense = Sense(call: Meaning, op: (nat, int, int) -> int)

  function Lets(body: seq<Stmt>): seq<nat> {
    if body == [] then [] else (if body[0].Let? then [body[0].name] else []) + Lets(body[1..])
  }

  /** The variables of a function, in the order of their declarations. */
  function Declared(def: FunDef): seq<nat> {
    def.args + Lets(def.body)
  }

  // ---------- what is well-formed ----------

  ghost predicate ExprOk(p: Program, known: set<nat>, e: Expr)
    decreases e
  {
    match e
    case Lit(v) => -(WORD / 2) <= v < WORD / 2
    case Var(x) => x in known
    case Binop(l, r, op) =>
      && ExprOk(p, known, l) && ExprOk(p, known, r)
      && op.Interface? && op.f < |p| && p[op.f].kind.Foreign? && |p[op.f].args| == 2
    case FunCall(f, args) =>
      f < |p| && |args| == |p[f].args| && forall i :: 0 <= i < |args| ==> ExprOk(p, known, args[i])
  }

  /** Lets and assignments, then one return. */
  ghost predicate BodyOk(p: Program, known: set<nat>, body: seq<Stmt>)
    decreases body
  {
    body != [] &&
    match body[0]
    case Let(x) => x !in known && BodyOk(p, known + {x}, body[1..])
    case Assign(x, e) => x in known && ExprOk(p, known, e) && BodyOk(p, known, body[1..])
    case Return(e) => ExprOk(p, known, e) && |body| == 1
  }

  ghost function Names(s: seq<nat>): set<nat> {
    set x | x in s
  }

  ghost predicate DefOk(p: Program, def: FunDef) {
    match def.kind
    case Foreign => true
    case Adder => |def.args| == 2
    case Plain => NoDup(def.args) && BodyOk(p, Names(def.args), def.body)
  }

  ghost predicate ProgramOk(p: Program) {
    forall f :: 0 <= f < |p| ==> DefOk(p, p[f])
  }

  // ---------- what the source means ----------

  function Bind(names: seq<nat>, values: seq<int>): map<nat, int>
    requires |names| == |values|
  {
    if names == [] then map[] else Bind(names[1..], values[1..])[names[0] := values[0]]
  }

  /** The value over the integers; none when `fuel` calls deep do not suffice. */
  function Eval(p: Program, j: Sense, fuel: nat, e: Expr, env: map<nat, int>): Option<int>
    decreases fuel, 1, e
  {
    match e
    case Lit(v) => Some(v)
    case Var(x) => if x in env then Some(env[x]) else None
    case Binop(l, r, op) =>
      var a, b := Eval(p, j, fuel, l, env), Eval(p, j, fuel, r, env);
      if a.Some? && b.Some? && op.Interface? then Some(j.op(op.f, a.value, b.value)) else None
    case FunCall(f, args) =>
      var vs := EvalAll(p, j, fuel, args, env);
      if vs.Some? then Apply(p, j, fuel, f, vs.value) else None
  }

  function EvalAll(p: Program, j: Sense, fuel: nat, es: seq<Expr>, env: map<nat, int>): (r: Option<seq<int>>)
    ensures r.Some? ==> |r.value| == |es|
    decreases fuel, 1, es
  {
    if es == [] then Some([])
    else
      var v, vs := Eval(p, j, fuel, es[0], env), EvalAll(p, j, fuel, es[1..], env);
      if v.Some? && vs.Some? then Some([v.value] + vs.value) else None
  }

  /** How a body ends: its variables and the value it returns. */
  datatype Outcome = Outcome(env: map<nat, int>, value: int)

  /** A declared variable is zero until it is assigned. */
  function Perform(p: Program, j: Sense, fuel: nat, body: seq<Stmt>, env: map<nat, int>): Option<Outcome>
    decreases fuel, 2, body
  {
    if body == [] then None
    else match body[0]
      case Let(x) => Perform(p, j, fuel, body[1..], env[x := 0])
      case Assign(x, e) =>
        var v := Eval(p, j, fuel, e, env);
        if v.Some? then Perform(p, j, fuel, body[1..], env[x := v.value]) else None
      case Return(e) =>
        var v := Eval(p, j, fuel, e, env);
        if v.Some? then Some(Outcome(env, v.value)) else None
  }

  function Apply(p: Program, j: Sense, fuel: nat, f: nat, values: seq<int>): Option<int>
    decreases fuel, 0
  {
    if f >= |p| || |values| != |p[f].args| then None
    else if p[f].kind.Foreign? then Some(j.call(f, values))
    else if fuel == 0 then None
    else if p[f].kind.Adder? then (if |values| == 2 then Some(values[0] + values[1]) else None)
    else
      var r := Perform(p, j, fuel - 1, p[f].body, Bind(p[f].args, values));
      if r.Some? then Some(r.value.value) else None
  }

  // ---------- the machine ----------

  datatype Target = ToImport(index: nat) | ToFunc(index: nat)

  /** Instructions, with calls naming their callees in one way or another. */
  datatype Instr<T> = Const(value: int) | Get(id: nat) | Set(id: nat) | Add | Call(callee: T)

  type Code = seq<Instr<Target>>

  datatype Code64 = Code64(params: nat, locals: nat, code: Code)
  datatype Import64 = Import64(name: nat, params: nat)
  datatype Unit64 = Unit64(imports: seq<Import64>, funcs: seq<Code64>)

  datatype Frame = Frame(stack: seq<int>, locals: seq<int>)

  function Wrap(v: int): int {
    v % WORD
  }

  function Params(m: Unit64, t: Target): nat {
    match t
    case ToImport(k) => if k < |m.imports| then m.imports[k].params else 0
    case ToFunc(k) => if k < |m.funcs| then m.funcs[k].params else 0
  }

  /** Runs a sequence of instructions; none when the machine traps or `fuel` calls deep do not suffice. */
  function Exec(m: Unit64, i: Meaning, fuel: nat, code: Code, s: Frame): Option<Frame>
    decreases fuel, 1, |code|
  {
    if code == [] then Some(s)
    else
      var s' := Step(m, i, fuel, code[0], s);
      if s'.Some? then Exec(m, i, fuel, code[1..], s'.value) else None
  }

  function Step(m: Unit64, i: Meaning, fuel: nat, x: Instr<Target>, s: Frame): Option<Frame>
    decreases fuel, 1, 0
  {
    var n := |s.stack|;
    match x
    case Const(v) => Some(s.(stack := s.stack + [Wrap(v)]))
    case Get(id) => if id < |s.locals| then Some(s.(stack := s.stack + [s.locals[id]])) else None
    case Set(id) =>
      if id < |s.locals| && n >= 1 then Some(Frame(s.stack[..n - 1], s.locals[id := s.stack[n - 1]])) else None
    case Add =>
      if n >= 2 then Some(s.(stack := s.stack[..n - 2] + [Wrap(s.stack[n - 2] + s.stack[n - 1])])) else None
    case Call(t) =>
      var k := Params(m, t);
      if n < k then None
      else
        var v := Invoke(m, i, fuel, t, s.stack[n - k..]);
        if v.Some? then Some(s.(stack := s.stack[..n - k] + [v.value])) else None
  }

  /** A function starts with its arguments and zeros in its locals, and must end with one value. */
  function Invoke(m: Unit64, i: Meaning, fuel: nat, t: Target, args: seq<int>): Option<int>
    decreases fuel, 0, 0
  {
    match t
    case ToImport(k) => if k < |m.imports| then Some(i(m.imports[k].name, args)) else None
    case ToFunc(k) =>
      if k >= |m.funcs| || fuel == 0 then None
      else
        var f := m.funcs[k];
        var end := Exec(m, i, fuel - 1, f.code, Frame([], args + Zeros(f.locals)));
        if end.Some? && |end.value.stack| == 1 then Some(end.value.stack[0]) else None
  }

  function Zeros(n: nat): (s: seq<int>)
    ensures |s| == n && forall i :: 0 <= i < n ==> s[i] == 0
  {
    seq(n, _ => 0)
  }

  lemma {:induction false} ExecAppend(m: Unit64, i: Meaning, fuel: nat, a: Code, b: Code, s: Frame)
    ensures Exec(m, i, fuel, a + b, s) ==
              var s' := Exec(m, i, fuel, a, s); if s'.Some? then Exec(m, i, fuel, b, s'.value) else None
    decreases |a|
  {
    if a == [] {
      assert a + b == b;
    } else {
      assert (a + b)[0] == a[0] && (a + b)[1..] == a[1..] + b;
      var s' := Step(m, i, fuel, a[0], s);
      if s'.Some? {
        ExecAppend(m, i, fuel, a[1..], b, s'.value);
      }
    }
  }

  lemma ExecOne(m: Unit64, i: Meaning, fuel: nat, x: Instr<Target>, s: Frame)
    ensures Exec(m, i, fuel, [x], s) == Step(m, i, fuel, x, s)
  {
    assert [x][1..] == [];
    var s' := Step(m, i, fuel, x, s);
    if s'.Some? {
      assert Exec(m, i, fuel, [], s'.value) == Some(s'.value);
    }
  }
}
