/** What the code generator has produced at some point, and how it may grow from there. */
module GenUnit {
  import opened Sequences
  import opened GenLanguage
  import opened GenCode

  /** Function `k` comes from definition `sources[k]`; `sizes` counts its locals, `listed` those in its list. */
  datatype Unit = Unit(imports: seq<Import64>, sources: seq<nat>, codes: seq<Code>, sizes: seq<int>, listed: seq<nat>,
                       asWsm: map<nat, Target>, ids: map<(nat, nat), nat>)

  ghost predicate Good(p: Program, u: Unit) {
    && |u.codes| == |u.sizes| == |u.listed| == |u.sources| && NoDup(u.sources)
    && (forall k :: 0 <= k < |u.sources| ==> u.sources[k] < |p| && !p[u.sources[k]].kind.Foreign?)
    && (forall k :: 0 <= k < |u.sources| ==> u.sources[k] in u.asWsm && u.asWsm[u.sources[k]] == ToFunc(k))
    && (forall k :: 0 <= k < |u.imports| ==> ImportOk(p, u.imports[k]))
    && (forall f, x :: (f, x) in u.ids ==> f in u.sources)
  }

  ghost predicate ImportOk(p: Program, x: Import64) {
    x.name < |p| && p[x.name].kind.Foreign? && x.params == |p[x.name].args|
  }

  /** Function `k` is finished: its code is that of its definition, and as many locals are listed as are counted. */
  ghost predicate Done(p: Program, u: Unit, k: nat)
    requires Good(p, u) && k < |u.sources|
  {
    var def := p[u.sources[k]];
    && Named(u.imports, u.sources, u.codes[k]) == DefCode(def)
    && u.sizes[k] == u.listed[k] == if def.kind.Adder? then 0 else |Lets(def.body)|
  }

  /** From `u` to `v` only function `cur` was touched, and every function opened on the way was finished. */
  ghost predicate Grew(p: Program, u: Unit, v: Unit, cur: int) {
    && Good(p, u) && Good(p, v) && u.imports <= v.imports && u.sources <= v.sources
    && (forall k :: 0 <= k < |u.sources| && k != cur ==>
          v.codes[k] == u.codes[k] && v.sizes[k] == u.sizes[k] && v.listed[k] == u.listed[k])
    && (forall k :: |u.sources| <= k < |v.sources| ==> Done(p, v, k))
    && (forall f, x :: (f, x) in u.ids && f in u.sources ==> (f, x) in v.ids && v.ids[(f, x)] == u.ids[(f, x)])
  }

  lemma GrewFacts(p: Program, u: Unit, v: Unit, cur: int)
    requires Grew(p, u, v, cur)
    ensures Good(p, u) && Good(p, v) && |u.sources| <= |v.sources| <= |p|
    ensures forall k :: 0 <= k < |u.sources| ==> v.sources[k] == u.sources[k]
    ensures |u.codes| == |u.sources| && |v.codes| == |v.sources|
  {
    Covers(v.sources, |p|);
  }

  predicate Resolved(code: Spec) {
    forall k :: 0 <= k < |code| && code[k].Call? ==> code[k].callee >= 0
  }

  /** More imports and functions do not change what a resolved callee names. */
  lemma NamedStays(u: Unit, v: Unit, code: Code)
    requires u.imports <= v.imports && u.sources <= v.sources && Resolved(Named(u.imports, u.sources, code))
    ensures Named(v.imports, v.sources, code) == Named(u.imports, u.sources, code)
  {
    forall k | 0 <= k < |code| ensures NamedOne(v.imports, v.sources, code[k]) ==
               NamedOne(u.imports, u.sources, code[k]) {
      assert Named(u.imports, u.sources, code)[k] == NamedOne(u.imports, u.sources, code[k]);
    }
  }

  lemma NamedAppend(imports: seq<Import64>, sources: seq<nat>, a: Code, b: Code)
    ensures Named(imports, sources, a + b) == Named(imports, sources, a) + Named(imports, sources, b)
  {
  }

  lemma {:induction false} ExprCodeResolved(names: seq<nat>, e: Expr)
    ensures Resolved(ExprCode(names, e))
    decreases e
  {
    match e
    case Lit(_) =>
    case Var(_) =>
    case Binop(l, r, _) => ExprCodeResolved(names, l); ExprCodeResolved(names, r);
    case FunCall(_, args) => ArgsCodeResolved(names, args);
  }

  lemma {:induction false} ArgsCodeResolved(names: seq<nat>, es: seq<Expr>)
    ensures Resolved(ArgsCode(names, es))
    decreases es
  {
    if es != [] {
      ExprCodeResolved(names, es[0]);
      ArgsCodeResolved(names, es[1..]);
    }
  }

  lemma {:induction false} BodyCodeResolved(names: seq<nat>, body: seq<Stmt>)
    ensures Resolved(BodyCode(names, body))
  {
    if body != [] {
      BodyCodeResolved(names, body[1..]);
      if !body[0].Let? {
        ExprCodeResolved(names, body[0].value);
      }
    }
  }

  lemma DefCodeResolved(def: FunDef)
    ensures Resolved(DefCode(def))
  {
    BodyCodeResolved(Declared(def), def.body);
  }

  lemma DoneStays(p: Program, u: Unit, v: Unit, k: nat)
    requires Good(p, u) && Good(p, v) && u.imports <= v.imports && u.sources <= v.sources && k < |u.sources|
             && Done(p, u, k)
    requires v.codes[k] == u.codes[k] && v.sizes[k] == u.sizes[k] && v.listed[k] == u.listed[k]
    ensures Done(p, v, k)
  {
    hide DefCode;
    DefCodeResolved(p[u.sources[k]]);
    NamedStays(u, v, u.codes[k]);
  }

  lemma GrewMore(p: Program, u: Unit, v: Unit, w: Unit, cur: int)
    requires Grew(p, u, v, cur) && Grew(p, v, w, cur) && cur < |u.sources|
    ensures Grew(p, u, w, cur)
  {
    forall k | |u.sources| <= k < |w.sources| ensures Done(p, w, k) {
      if k < |v.sources| {
        DoneStays(p, v, w, k);
      }
    }
    assert forall f :: f in u.sources ==> f in v.sources;
  }

  /** Touching nothing is less than touching `cur`. */
  lemma GrewLess(p: Program, u: Unit, v: Unit, cur: int)
    requires Grew(p, u, v, -1)
    ensures Grew(p, u, v, cur)
  {
  }

  lemma GrewKeeps(p: Program, u: Unit, v: Unit, k: nat)
    requires Grew(p, u, v, -1) && k < |u.codes|
    ensures |u.codes| == |u.sizes| == |u.listed| == |u.sources| <= |v.sources| == |v.codes| == |v.sizes| == |v.listed|
    ensures v.codes[k] == u.codes[k] && v.sizes[k] == u.sizes[k] && v.listed[k] == u.listed[k]
  {
  }

  function Emitted(u: Unit, k: nat, x: Instr<Target>): Unit
    requires k < |u.codes|
  {
    u.(codes := u.codes[k := u.codes[k] + [x]])
  }

  lemma GrewEmitted(p: Program, u: Unit, v: Unit, cur: nat, x: Instr<Target>)
    requires Grew(p, u, v, cur) && cur < |u.sources|
    ensures Grew(p, u, Emitted(v, cur, x), cur)
  {
    var w := Emitted(v, cur, x);
    forall k | |u.sources| <= k < |w.sources| ensures Done(p, w, k) {
      assert Done(p, v, k);
    }
  }

  function Declare(u: Unit, k: nat, f: nat, x: nat): Unit
    requires k < |u.sizes| && k < |u.listed| && u.sizes[k] >= 0
  {
    u.(ids := u.ids[(f, x) := u.sizes[k]], sizes := u.sizes[k := u.sizes[k] + 1],
       listed := u.listed[k := u.listed[k] + 1])
  }

  function Imported(p: Program, u: Unit, f: nat): Unit
    requires f < |p|
  {
    u.(imports := u.imports + [Import64(f, |p[f].args|)], asWsm := u.asWsm[f := ToImport(|u.imports|)])
  }

  lemma GrewImported(p: Program, u: Unit, f: nat)
    requires Good(p, u) && f < |p| && p[f].kind.Foreign?
    ensures Grew(p, u, Imported(p, u, f), -1)
    ensures var v := Imported(p, u, f); NameOf(v.imports, v.sources, v.asWsm[f]) == f
  {
  }

  function Opened(u: Unit, f: nat): Unit {
    u.(sources := u.sources + [f], codes := u.codes + [[]], sizes := u.sizes + [0], listed := u.listed + [0],
       asWsm := u.asWsm[f := ToFunc(|u.sources|)])
  }

  lemma OpenedGood(p: Program, u: Unit, f: nat)
    requires Good(p, u) && f < |p| && !p[f].kind.Foreign? && f !in u.sources
    ensures Good(p, Opened(u, f))
  {
  }

  /** The variables known so far have the ids that their order of declaration gives them. */
  ghost predicate IdsKnown(u: Unit, f: nat, names: seq<nat>, known: set<nat>) {
    forall x :: x in known ==> (f, x) in u.ids && u.ids[(f, x)] == Position(names, x)
  }

  lemma IdKnown(u: Unit, f: nat, names: seq<nat>, known: set<nat>, x: nat)
    requires IdsKnown(u, f, names, known) && x in known
    ensures (f, x) in u.ids && u.ids[(f, x)] == Position(names, x)
  {
  }

  lemma IdsStay(p: Program, u: Unit, v: Unit, cur: int, f: nat, names: seq<nat>, known: set<nat>)
    requires Grew(p, u, v, cur) && f in u.sources && IdsKnown(u, f, names, known)
    ensures IdsKnown(v, f, names, known)
  {
    forall x | x in known ensures (f, x) in v.ids && v.ids[(f, x)] == Position(names, x) {
      assert (f, x) in u.ids;
    }
  }

  lemma {:induction false} PositionAt(names: seq<nat>, k: nat)
    requires NoDup(names) && k < |names|
    ensures Position(names, names[k]) == k
  {
    if k > 0 {
      assert names[0] != names[k];
      PositionAt(names[1..], k - 1);
    }
  }

  /** A finished opening: everything that was there stays, and the new function is done. */
  lemma GrewOpened(p: Program, u: Unit, f: nat, v: Unit, w: Unit)
    requires Good(p, u) && f < |p| && !p[f].kind.Foreign? && f !in u.sources
    requires Grew(p, Opened(u, f), v, |u.sources|)
    requires Good(p, w) && w == v.(sizes := w.sizes) && |w.sizes| == |v.sizes|
    requires forall k :: 0 <= k < |v.sizes| && k != |u.sources| ==> w.sizes[k] == v.sizes[k]
    requires Done(p, w, |u.sources|)
    ensures Grew(p, u, w, -1)
    ensures f in w.asWsm && NameOf(w.imports, w.sources, w.asWsm[f]) == f
  {
    var o := Opened(u, f);
    forall k | |u.sources| <= k < |w.sources| ensures Done(p, w, k) {
      if k > |u.sources| {
        assert Done(p, v, k);
      }
    }
    assert w.sources[|u.sources|] == f;
    forall k | 0 <= k < |u.sources|
      ensures w.codes[k] == u.codes[k] && w.sizes[k] == u.sizes[k] && w.listed[k] == u.listed[k]
    {
      assert o.codes[k] == u.codes[k] && o.sizes[k] == u.sizes[k] && o.listed[k] == u.listed[k];
    }
    assert forall g :: g in u.sources ==> g in o.sources;
  }

  lemma GrewNothing(p: Program, u: Unit, cur: int)
    requires Good(p, u)
    ensures Grew(p, u, u, cur)
  {
  }

  lemma {:induction false} ArgsCodeAppend(names: seq<nat>, es: seq<Expr>, e: Expr)
    ensures ArgsCode(names, es + [e]) == ArgsCode(names, es) + ExprCode(names, e)
  {
    if es == [] {
      assert es + [e] == [e] && [e][1..] == [];
      assert ArgsCode(names, []) == [];
    } else {
      assert (es + [e])[1..] == es[1..] + [e];
      ArgsCodeAppend(names, es[1..], e);
    }
  }

  lemma {:induction false} BodyCodeAppend(names: seq<nat>, body: seq<Stmt>, stmt: Stmt)
    ensures BodyCode(names, body + [stmt]) == BodyCode(names, body) + StmtCode(names, stmt)
    ensures Lets(body + [stmt]) == Lets(body) + (if stmt.Let? then [stmt.name] else [])
  {
    if body == [] {
      assert body + [stmt] == [stmt] && [stmt][1..] == [];
      assert BodyCode(names, []) == [] && Lets([]) == [];
    } else {
      assert (body + [stmt])[1..] == body[1..] + [stmt];
      BodyCodeAppend(names, body[1..], stmt);
    }
  }

  /** Two pieces of code grown one after the other. */
  lemma GrownPieces(p: Program, u: Unit, v: Unit, w: Unit, cur: nat, c: Code, d: Code, a: Spec, b: Spec)
    requires Grew(p, u, v, cur) && Grew(p, v, w, cur) && cur < |u.sources|
    requires v.codes[cur] == u.codes[cur] + c && w.codes[cur] == v.codes[cur] + d
    requires Named(v.imports, v.sources, c) == a && Named(w.imports, w.sources, d) == b && Resolved(a)
    ensures Grew(p, u, w, cur)
    ensures w.codes[cur] == u.codes[cur] + (c + d)
    ensures Named(w.imports, w.sources, c + d) == a + b
  {
    GrewMore(p, u, v, w, cur);
    NamedStays(v, w, c);
    NamedAppend(w.imports, w.sources, c, d);
    assert u.codes[cur] + c + d == u.codes[cur] + (c + d);
  }

  /** Locals of the current function may be declared, counted and listed anew. */
  lemma GrewTouched(p: Program, u: Unit, v: Unit, w: Unit, cur: nat, f: nat)
    requires Grew(p, u, v, cur) && cur < |u.sources| && u.sources[cur] == f
    requires w == v.(ids := w.ids, sizes := w.sizes, listed := w.listed) && |w.sizes| == |w.listed| == |v.sizes|
    requires forall k :: 0 <= k < |v.sizes| && k != cur ==> w.sizes[k] == v.sizes[k] && w.listed[k] == v.listed[k]
    requires forall g, x :: (g, x) in w.ids && g != f ==> (g, x) in v.ids
    requires forall g, x :: (g, x) in v.ids && g != f ==> (g, x) in w.ids && w.ids[(g, x)] == v.ids[(g, x)]
    requires forall x :: (f, x) !in u.ids
    ensures Grew(p, u, w, cur)
  {
    assert v.sources[cur] == f && f in v.sources;
    assert Good(p, w);
    forall k | |u.sources| <= k < |w.sources| ensures Done(p, w, k) {
      assert Done(p, v, k);
    }
  }

  /** A new function has no variables yet. */
  lemma OpenedFresh(p: Program, u: Unit, f: nat)
    requires Good(p, u) && f !in u.sources
    ensures forall x :: (f, x) !in Opened(u, f).ids
  {
  }

  lemma {:induction false} LetsSplit(body: seq<Stmt>, n: nat)
    requires n <= |body|
    ensures Lets(body) == Lets(body[..n]) + Lets(body[n..])
    decreases n
  {
    if n == 0 {
      assert body[..0] == [] && body[0..] == body;
    } else {
      LetsSplit(body[1..], n - 1);
      assert body[..n][1..] == body[1..][..n - 1] && body[1..][n - 1..] == body[n..];
    }
  }

  /** The next variable declared takes as its id the number of those before it. */
  lemma NextId(p: Program, def: FunDef, n: nat)
    requires def.kind.Plain? && DefOk(p, def) && n < |def.body| && def.body[n].Let?
    ensures Position(Declared(def), def.body[n].name) == |def.args| + |Lets(def.body[..n])|
  {
    LetsAreNew(p, Names(def.args), def.body);
    LetsSplit(def.body, n);
    var names, k := Declared(def), |def.args| + |Lets(def.body[..n])|;
    assert Lets(def.body[n..])[0] == def.body[n].name by { assert def.body[n..][0] == def.body[n]; }
    assert names[k] == def.body[n].name;
    assert NoDup(names) by { DeclaredOnce(p, def); }
    PositionAt(names, k);
  }

  lemma DeclaredOnce(p: Program, def: FunDef)
    requires def.kind.Plain? && DefOk(p, def)
    ensures NoDup(Declared(def))
  {
    var zeros := Zeros(|def.args|);
    StartAgrees(p, def, zeros, WrapAll(zeros) + Zeros(|Lets(def.body)|));
  }

  /** The variables known before statement `n`. */
  ghost function Known(def: FunDef, n: nat): set<nat>
    requires n <= |def.body|
  {
    Names(def.args) + Names(Lets(def.body[..n]))
  }

  lemma KnownStep(p: Program, def: FunDef, n: nat)
    requires n < |def.body| && BodyOk(p, Known(def, n), def.body[n..])
    ensures def.body[n].Let? ==> Known(def, n + 1) == Known(def, n) + {def.body[n].name}
    ensures !def.body[n].Let? ==> Known(def, n + 1) == Known(def, n) && ExprOk(p, Known(def, n), def.body[n].value)
    ensures def.body[n].Assign? ==> def.body[n].name in Known(def, n)
    ensures n + 1 < |def.body| ==> BodyOk(p, Known(def, n + 1), def.body[n + 1..])
  {
    var rest := def.body[n..];
    assert rest[0] == def.body[n] && rest[1..] == def.body[n + 1..];
    assert def.body[..n + 1] == def.body[..n] + [def.body[n]];
    BodyCodeAppend([], def.body[..n], def.body[n]);
    NamesAppend(Lets(def.body[..n]), if def.body[n].Let? then [def.body[n].name] else []);
  }

  lemma NamesAppend(a: seq<nat>, b: seq<nat>)
    ensures Names(a + b) == Names(a) + Names(b)
  {
  }
}
