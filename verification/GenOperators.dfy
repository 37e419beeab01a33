/** Binary operators: when their code means what they mean, and the addition of one bundle used by another. */
module GenOperators {
  import opened GenLanguage
  import opened GenCode
  import opened GenUnit
  import opened GenScribe

  // ---------- one value or two ----------

  /** Code of `l op r`, with what is needed to run it. */
  datatype Run = Run(fuel: nat, names: seq<nat>, l: Expr, r: Expr, env: map<nat, int>, code: Code, s: Frame)

  ghost predicate Fits(p: Program, m: Unit64, sources: seq<nat>, op: Operator, x: Run) {
    && ExprOk(p, x.env.Keys, x.l) && ExprOk(p, x.env.Keys, x.r) && Agrees(x.names, x.env, x.s.locals)
    && Named(m.imports, sources, x.code) == ExprCode(x.names, Binop(x.l, x.r, op))
  }

  /** An operator leaves one value exactly when it is bound to a function of an interface: otherwise no call is
      generated and the values of both operands stay on the stack. */
  lemma OperatorLeavesOneIff(p: Program, m: Unit64, sources: seq<nat>, i: Meaning, j: Sense, op: Operator, x: Run)
    requires World(p, m, sources, i, j) && Fits(p, m, sources, op, x)
    requires op.Interface? ==> op.f < |p| && p[op.f].kind.Foreign? && |p[op.f].args| == 2
    requires Eval(p, j, x.fuel, x.l, x.env).Some? && Eval(p, j, x.fuel, x.r, x.env).Some?
    ensures var end := Exec(m, i, x.fuel, x.code, x.s);
            end.Some? && (|end.value.stack| == |x.s.stack| + 1 <==> op.Interface?)
  {
    hide World, Agrees, Exec, Eval;
    if op.Interface? {
      ExprRuns(p, m, sources, i, j, x.fuel, x.names, Binop(x.l, x.r, op), x.env, x.code, x.s);
      Operates(p, j, x.fuel, x.l, x.r, op, x.env);
    } else {
      var a, b := Eval(p, j, x.fuel, x.l, x.env), Eval(p, j, x.fuel, x.r, x.env);
      assert ExprCode(x.names, Binop(x.l, x.r, op)) == ExprCode(x.names, x.r) + ExprCode(x.names, x.l);
      var right, left := NamedSplit(m.imports, sources, x.code, ExprCode(x.names, x.r), ExprCode(x.names, x.l));
      ExecAppend(m, i, x.fuel, right, left, x.s);
      ExprRuns(p, m, sources, i, j, x.fuel, x.names, x.r, x.env, right, x.s);
      ExprRuns(p, m, sources, i, j, x.fuel, x.names, x.l, x.env, left, Pushed(x.s, [b.value]));
    }
  }

  lemma Operates(p: Program, j: Sense, fuel: nat, l: Expr, r: Expr, op: Operator, env: map<nat, int>)
    requires op.Interface? && Eval(p, j, fuel, l, env).Some? && Eval(p, j, fuel, r, env).Some?
    ensures Eval(p, j, fuel, Binop(l, r, op), env) ==
              Some(j.op(op.f, Eval(p, j, fuel, l, env).value, Eval(p, j, fuel, r, env).value))
  {
  }

  // ---------- the order of the operands ----------

  /** If the code of `l op r` can run at all, it pushes the function of the operator applied to the operands in
      order. */
  ghost predicate Right(p: Program, m: Unit64, sources: seq<nat>, i: Meaning, j: Sense, f: nat, x: Run) {
    Fits(p, m, sources, Interface(f), x) ==>
      var a, b := Eval(p, j, x.fuel, x.l, x.env), Eval(p, j, x.fuel, x.r, x.env);
      a.Some? && b.Some? ==> Exec(m, i, x.fuel, x.code, x.s) == Some(Pushed(x.s, [j.call(f, [a.value, b.value])]))
  }

  /** The operands reach the callee in the opposite order, so the code of an operator is right for all operands, in all
      frames, exactly when the function it is bound to does not tell the two orders apart. */
  lemma OperandOrderMattersIff(p: Program, m: Unit64, sources: seq<nat>, i: Meaning, j: Sense, f: nat, k: nat)
    requires World(p, m, sources, i, j) && f < |p| && p[f].kind.Foreign? && |p[f].args| == 2
    requires k < |m.imports| && m.imports[k].name == f
    ensures (forall x :: Right(p, m, sources, i, j, f, x)) <==> Commutes(j.call, f)
  {
    if Commutes(j.call, f) {
      forall x ensures Right(p, m, sources, i, j, f, x) {
        CommutingIsRight(p, m, sources, i, j, f, x);
      }
    }
    if forall x :: Right(p, m, sources, i, j, f, x) {
      forall a, b ensures Wrap(j.call(f, [a, b])) == Wrap(j.call(f, [b, a])) {
        RightCommutes(p, m, sources, i, j, f, k, a, b);
      }
    }
  }

  lemma CommutingIsRight(p: Program, m: Unit64, sources: seq<nat>, i: Meaning, j: Sense, f: nat, x: Run)
    requires World(p, m, sources, i, j) && f < |p| && p[f].kind.Foreign? && |p[f].args| == 2
    requires Commutes(j.call, f)
    ensures Right(p, m, sources, i, j, f, x)
  {
    var a, b := Eval(p, j, x.fuel, x.l, x.env), Eval(p, j, x.fuel, x.r, x.env);
    if Fits(p, m, sources, Interface(f), x) && a.Some? && b.Some? {
      EitherOrder(j, f, a.value, b.value);
      hide World, Agrees, Exec, Eval, Commutes;
      ExprRuns(p, m, sources, i, j, x.fuel, x.names, Binop(x.l, x.r, Interface(f)), x.env, x.code, x.s);
      Operates(p, j, x.fuel, x.l, x.r, Interface(f), x.env);
      PushedOne(x.s, j.op(f, a.value, b.value));
      PushedOne(x.s, j.call(f, [a.value, b.value]));
    }
  }

  lemma EitherOrder(j: Sense, f: nat, a: int, b: int)
    requires Crossed(j) && Commutes(j.call, f)
    ensures Wrap(j.op(f, a, b)) == Wrap(j.call(f, [a, b]))
  {
    assert Wrap(j.op(f, a, b)) == Wrap(j.call(f, [b, a]));
  }

  /** The literal that stands for an integer modulo 2 to the 64. */
  function Literal(v: int): (r: int)
    ensures -(WORD / 2) <= r < WORD / 2 && Wrap(r) == Wrap(v)
  {
    if Wrap(v) < WORD / 2 then Wrap(v) else Wrap(v) - WORD
  }

  /** Two literals show that a function tells the orders apart. */
  lemma RightCommutes(p: Program, m: Unit64, sources: seq<nat>, i: Meaning, j: Sense, f: nat, k: nat, a: int, b: int)
    requires World(p, m, sources, i, j) && f < |p| && p[f].kind.Foreign? && |p[f].args| == 2
    requires k < |m.imports| && m.imports[k].name == f && forall x :: Right(p, m, sources, i, j, f, x)
    ensures Wrap(j.call(f, [a, b])) == Wrap(j.call(f, [b, a]))
  {
    var u, v := Literal(a), Literal(b);
    SameModulo(i, j, f, a, b, u, v);
    SameModulo(i, j, f, b, a, v, u);
    var code: Code := [Const(v), Const(u), Call(ToImport(k))];
    var x := Run(0, [], Lit(u), Lit(v), map[], code, Frame([], []));
    assert Named(m.imports, sources, code) == ExprCode([], Binop(Lit(u), Lit(v), Interface(f)));
    assert Fits(p, m, sources, Interface(f), x);
    assert Right(p, m, sources, i, j, f, x);
    assert Wrap(j.op(f, u, v)) == Wrap(j.call(f, [v, u]));
    hide World, Exec, Wrap;
    ExprRuns(p, m, sources, i, j, 0, [], Binop(Lit(u), Lit(v), Interface(f)), map[], code, x.s);
    PushedOne(x.s, j.op(f, u, v));
    PushedOne(x.s, j.call(f, [u, v]));
    assert ([] + [Wrap(j.op(f, u, v))])[0] == ([] + [Wrap(j.call(f, [u, v]))])[0];
  }

  lemma SameModulo(i: Meaning, j: Sense, f: nat, a: int, b: int, u: int, v: int)
    requires Congruent(i, j) && Wrap(a) == Wrap(u) && Wrap(b) == Wrap(v)
    ensures Wrap(j.call(f, [a, b])) == Wrap(j.call(f, [u, v]))
  {
    assert WrapAll([a, b]) == WrapAll([u, v]);
    assert i(f, WrapAll([a, b])) == Wrap(j.call(f, [a, b]));
  }

  // ---------- addition ----------

  /** Foreign functions of two arguments add them, and so do the operators bound to them. */
  function Addition(): Sense {
    Sense((f: nat, vs: seq<int>) => if |vs| == 2 then vs[0] + vs[1] else 0, (f: nat, a: int, b: int) => a + b)
  }

  /** Imports of two arguments that are linked to a function of another module. */
  function Linked(m: Unit64, i: Meaning, t: Target): Meaning {
    (f: nat, args: seq<int>) =>
      if |args| != 2 then 0
      else match Invoke(m, i, 1, t, args)
        case None => 0
        case Some(v) => v
  }

  /** The built-in addition of one generated bundle is, as an import of another one, the addition of the source. */
  lemma LinkedAdds(p: Program, u: Unit, i: Meaning, g: nat)
    requires ProgramOk(p) && Good(p, u) && (forall k :: 0 <= k < |u.sizes| ==> u.sizes[k] >= 0)
    requires Complete(p, Module(p, u), u.sources) && g in u.sources && p[g].kind.Adder?
    ensures Congruent(Linked(Module(p, u), i, u.asWsm[g]), Addition()) && Crossed(Addition())
  {
    hide Complete;
    forall f, vs ensures Linked(Module(p, u), i, u.asWsm[g])(f, WrapAll(vs)) == Wrap(Addition().call(f, vs)) {
      if |vs| == 2 {
        AdderAdds(p, u, i, g, vs);
      }
    }
  }

  lemma AdderAdds(p: Program, u: Unit, i: Meaning, g: nat, vs: seq<int>)
    requires ProgramOk(p) && Good(p, u) && (forall k :: 0 <= k < |u.sizes| ==> u.sizes[k] >= 0)
    requires Complete(p, Module(p, u), u.sources) && g in u.sources && p[g].kind.Adder? && |vs| == 2
    ensures Invoke(Module(p, u), i, 1, u.asWsm[g], WrapAll(vs)) == Some(Wrap(vs[0] + vs[1]))
  {
    hide Exec, Named, DefCode, ProgramOk, WrapAll;
    var m := Module(p, u);
    var k: nat :| k < |u.sources| && u.sources[k] == g;
    assert CompiledTo(p[g], m, u.sources, m.funcs[k]);
    AdderRuns(p, m, u.sources, i, 0, k, vs);
  }

  /** The lot: a bundle over literals, variables, `+` and calls, generated and linked to the generated addition of
      another bundle, computes modulo 2 to the 64 what the source means over the integers. */
  lemma SumsAreCorrect(lib: Program, libUnit: Unit, i: Meaning, g: nat,
                       p: Program, u: Unit, fuel: nat, f: nat, vs: seq<int>)
    requires ProgramOk(lib) && Good(lib, libUnit) && (forall k :: 0 <= k < |libUnit.sizes| ==> libUnit.sizes[k] >= 0)
    requires Complete(lib, Module(lib, libUnit), libUnit.sources)
    requires g in libUnit.sources && lib[g].kind.Adder?
    requires ProgramOk(p) && Good(p, u) && (forall k :: 0 <= k < |u.sizes| ==> u.sizes[k] >= 0)
    requires Complete(p, Module(p, u), u.sources) && f in u.sources && |vs| == |p[f].args|
    ensures var plus := Linked(Module(lib, libUnit), i, libUnit.asWsm[g]);
            Invoke(Module(p, u), plus, fuel, u.asWsm[f], WrapAll(vs)) ==
              var v := Apply(p, Addition(), fuel, f, vs); if v.Some? then Some(Wrap(v.value)) else None
  {
    hide Linked, Addition, Complete;
    LinkedAdds(lib, libUnit, i, g);
    GeneratedCodeIsCorrect(p, u, Linked(Module(lib, libUnit), i, libUnit.asWsm[g]), Addition(), fuel, f, vs);
  }
}
