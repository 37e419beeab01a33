/** Whole modules: a pass that counts, a buffer of that size, and a pass that fills it. */
module WasmModule {
  import opened CircularList
  import opened Leb128
  import opened WasmSyntax
  import opened WasmLists
  import opened WasmWriter
  import opened WasmRanges
  import opened WasmEmitter

  /** A list of locals, kept last to first. */
  ghost predicate LocalsDescribed(lists: map<nat, seq<nat>>, pool: seq<ValType>, begin: nat, ts: seq<ValType>) {
    begin in lists && (forall x :: x in lists[begin] ==> x < |pool|) && Values(pool, lists[begin]) == ts
  }

  lemma LocalsStay(lists: map<nat, seq<nat>>, other: map<nat, seq<nat>>, pool: seq<ValType>, begin: nat,
                   ts: seq<ValType>)
    requires LocalsDescribed(lists, pool, begin, ts) && begin in other && other[begin] == lists[begin]
    ensures LocalsDescribed(other, pool, begin, ts)
  {
  }

  ghost predicate CodeReady(lists: map<nat, seq<nat>>, pool: seq<Inst>, begin: nat, f: Form) {
    f.begin == begin && Described(lists, pool, f) && Tree(f) && InRange(f)
  }

  lemma CodeStaysReady(lists: map<nat, seq<nat>>, pool: seq<Inst>, begin: nat, f: Form, done: set<nat>)
    requires CodeReady(lists, pool, begin, f) && Begins(f) !! done
    ensures CodeReady(Turned(lists, done), pool, begin, f)
  {
    OthersTurned(lists, pool, f, done);
  }

  /** The lists of all the functions hold what `bodies` says, and no two functions share a list. */
  ghost predicate BodiesReady(lists: map<nat, seq<nat>>, pool: seq<Inst>, localLists: map<nat, seq<nat>>,
                              localPool: seq<ValType>,
                              bodies: seq<Body>) {
    && (forall i :: 0 <= i < |bodies| ==>
          && bodies[i].fn.localsSize < U32
          && CodeReady(lists, pool, bodies[i].fn.body, bodies[i].code)
          && LocalsDescribed(localLists, localPool, bodies[i].fn.locals, bodies[i].locals))
    && (forall i, j :: 0 <= i < j < |bodies| ==>
          Begins(bodies[i].code) !! Begins(bodies[j].code) && bodies[i].fn.locals != bodies[j].fn.locals)
  }

  ghost predicate DatumReady(lists: map<nat, seq<nat>>, pool: seq<Inst>, x: Datum) {
    x.data.mode.Active? ==> x.data.mode.memory < U32 && CodeReady(lists, pool, x.data.mode.offset, x.offset)
  }

  ghost function Owned(x: Datum): set<nat> {
    if x.data.mode.Active? then Begins(x.offset) else {}
  }

  ghost predicate DatumsReady(lists: map<nat, seq<nat>>, pool: seq<Inst>, datums: seq<Datum>) {
    && (forall i :: 0 <= i < |datums| ==> DatumReady(lists, pool, datums[i]))
    && (forall i, j :: 0 <= i < j < |datums| ==> Owned(datums[i]) !! Owned(datums[j]))
  }

  ghost function BodyBegins(bodies: seq<Body>): set<nat> {
    set i, b | 0 <= i < |bodies| && b in Begins(bodies[i].code) :: b
  }

  ghost function DatumBegins(datums: seq<Datum>): set<nat> {
    set i, b | 0 <= i < |datums| && b in Owned(datums[i]) :: b
  }

  ghost function LocalBegins(bodies: seq<Body>): set<nat> {
    set i | 0 <= i < |bodies| :: bodies[i].fn.locals
  }

  /** What a pass turns round: everything when it writes, nothing when it counts. */
  ghost function When(counting: bool, begins: set<nat>): set<nat> {
    if counting then {} else begins
  }

  lemma BodyBeginsStep(bodies: seq<Body>, i: nat)
    requires i < |bodies|
    ensures BodyBegins(bodies[..i + 1]) == BodyBegins(bodies[..i]) + Begins(bodies[i].code)
    ensures LocalBegins(bodies[..i + 1]) == LocalBegins(bodies[..i]) + {bodies[i].fn.locals}
    ensures bodies[..0] == [] && BodyBegins([]) == {} && LocalBegins([]) == {}
  {
    hide Begins;
    assert forall k :: 0 <= k < i ==> bodies[..i + 1][k] == bodies[..i][k];
    assert bodies[..i + 1][i] == bodies[i];
  }

  lemma DatumBeginsStep(datums: seq<Datum>, i: nat)
    requires i < |datums|
    ensures DatumBegins(datums[..i + 1]) == DatumBegins(datums[..i]) + Owned(datums[i])
  {
    hide Owned;
    assert forall k :: 0 <= k < i ==> datums[..i + 1][k] == datums[..i][k];
    assert datums[..i + 1][i] == datums[i];
  }

  /** The bodies before `i` share no list with body `i`. */
  lemma BodyApart(lists: map<nat, seq<nat>>, pool: seq<Inst>, localLists: map<nat, seq<nat>>, localPool: seq<ValType>,
                  bodies: seq<Body>, i: nat)
    requires BodiesReady(lists, pool, localLists, localPool, bodies) && i < |bodies|
    ensures bodies[i].fn.localsSize < U32
    ensures BodyBegins(bodies[..i]) !! Begins(bodies[i].code) && bodies[i].fn.locals !in LocalBegins(bodies[..i])
    ensures forall counting ::
              && CodeReady(Turned(lists, When(counting, BodyBegins(bodies[..i]))), pool, bodies[i].fn.body,
                           bodies[i].code)
              && LocalsDescribed(Turned(localLists, When(counting, LocalBegins(bodies[..i]))), localPool,
                                 bodies[i].fn.locals, bodies[i].locals)
  {
    hide Begins, CodeReady;
    forall b | b in BodyBegins(bodies[..i]) ensures b !in Begins(bodies[i].code) {
      var j :| 0 <= j < i && b in Begins(bodies[..i][j].code);
      assert bodies[..i][j] == bodies[j];
    }
    forall j | 0 <= j < i ensures bodies[..i][j].fn.locals != bodies[i].fn.locals {
      assert bodies[..i][j] == bodies[j];
    }
    assert bodies[i].fn.locals !in LocalBegins(bodies[..i]);
    forall counting
      ensures CodeReady(Turned(lists, When(counting, BodyBegins(bodies[..i]))), pool, bodies[i].fn.body, bodies[i].code)
      ensures LocalsDescribed(Turned(localLists, When(counting, LocalBegins(bodies[..i]))), localPool,
                              bodies[i].fn.locals, bodies[i].locals)
    {
      ghost var now := Turned(localLists, When(counting, LocalBegins(bodies[..i])));
      LocalsStay(localLists, now, localPool, bodies[i].fn.locals, bodies[i].locals);
      CodeStaysReady(lists, pool, bodies[i].fn.body, bodies[i].code, When(counting, BodyBegins(bodies[..i])));
    }
  }

  // ---------- functions ----------

  /** The local that a pass comes to as its `k`-th. */
  lemma LocalVisited(lists: map<nat, seq<nat>>, pool: seq<ValType>, begin: nat, ts: seq<ValType>, counting: bool,
                     k: nat)
    requires LocalsDescribed(lists, pool, begin, ts) && k < |ts|
    ensures var path := Turned(lists, When(counting, {begin}))[begin];
            && |path| == |ts| && path[k] < |pool| && pool[path[k]] == ts[if counting then |ts| - 1 - k else k]
  {
    var path, j := Turned(lists, When(counting, {begin}))[begin], if counting then |ts| - 1 - k else k;
    assert path[k] == lists[begin][|ts| - 1 - j];
    assert Values(pool, lists[begin])[j] == ts[j];
  }

  /** What a pass has written after `k` locals, up to the order in a counting pass. */
  ghost predicate LocalsWritten(ts: seq<ValType>, counting: bool, k: nat, out: seq<Byte>)
    requires k <= |ts|
  {
    |out| == 2 * k && (!counting ==> out == LocalsBytes(ts[..k]))
  }

  lemma LocalsWrittenMore(ts: seq<ValType>, counting: bool, k: nat, out: seq<Byte>)
    requires k < |ts| && LocalsWritten(ts, counting, k, out)
    ensures var more := out + LocalBytes(ts[if counting then |ts| - 1 - k else k]);
            LocalsWritten(ts, counting, k + 1, more) && |more| <= |LocalsBytes(ts)| && |more| == |out| + 2
  {
    LocalsStep(ts, k);
    LocalsLength(ts);
  }

  lemma LocalsWrittenEnds(ts: seq<ValType>, counting: bool)
    ensures LocalsWritten(ts, counting, 0, [])
    ensures forall out :: LocalsWritten(ts, counting, |ts|, out) ==>
              |out| == |LocalsBytes(ts)| && (!counting ==> out == LocalsBytes(ts))
  {
    LocalsNone();
    LocalsLength(ts);
    assert ts[..0] == [] && ts[..|ts|] == ts;
  }

  /** One local more, in either order. */
  method EmitNthLocal(w: Writer, t: ValType, ghost ts: seq<ValType>, ghost k: nat, ghost out: seq<Byte>,
                      ghost t0: Trace) returns (ghost more: seq<Byte>)
    requires k < |ts| && t == ts[if w.counting then |ts| - 1 - k else k] && LocalsWritten(ts, w.counting, k, out)
    requires w.Room(0) && (w.counting || t0.pos + |LocalsBytes(ts)| <= w.buffer.Length)
    requires Wrote(w.counting, t0, out, w.Now())
    modifies w, w.buffer
    ensures w.Room(0) && LocalsWritten(ts, w.counting, k + 1, more) && Wrote(w.counting, t0, more, w.Now())
  {
    hide LocalsBytes, LocalBytes, LocalsWritten, Wrote, Writer.Now;
    LocalsWrittenMore(ts, w.counting, k, out);
    WroteRoom(w.counting, t0, out, w.Now());
    NowPos(w);
    ghost var t1 := w.Now();
    EmitLocal(w, t);
    WroteMore(w.counting, t0, out, t1, LocalBytes(t), w.Now());
    more := out + LocalBytes(t);
  }

  /** The locals of a function, each as a group of one. */
  method EmitLocals(e: Emitter, begin: nat, ghost ts: seq<ValType>)
    requires e.localPool.Valid() && LocalsDescribed(e.localPool.lists, e.localPool.items, begin, ts)
    requires e.w.Room(|LocalsBytes(ts)|)
    modifies e.localPool, e.w, e.w.buffer
    ensures e.localPool.Valid() && e.localPool.items == old(e.localPool.items)
    ensures e.localPool.lists == Turned(old(e.localPool.lists), When(e.w.counting, {begin}))
    ensures e.w.Room(0) && Wrote(e.w.counting, old(e.w.Now()), LocalsBytes(ts), e.w.Now())
  {
    hide LocalsBytes, LocalBytes, LocalsWritten, Circle, LocalsDescribed, Wrote, Stop, Writer.Now;
    var w, pool := e.w, e.localPool;
    ghost var lists, t0 := pool.lists, w.Now();
    assert begin in lists && |lists[begin]| == |ts| by { BeginsThere(lists, pool.items, begin, ts); }
    if !w.counting {
      pool.Reverse(begin);
    }
    ghost var path, next, items := pool.lists[begin], pool.next, pool.items;
    assert pool.lists == Turned(lists, When(w.counting, {begin}));
    ghost var k, out := 0, [];
    NowPos(w);
    LocalsWrittenEnds(ts, w.counting);
    WroteNothing(w.counting, t0);
    StopFacts(next, begin, path, 0);
    var curr := begin;
    while pool.next[curr] != begin
      invariant pool.next == next && pool.items == items
      invariant k <= |ts| && curr == Stop(begin, path, k) && curr < |next| && next[curr] == Stop(begin, path, k + 1)
      invariant w.Room(0) && Wrote(w.counting, t0, out, w.Now()) && LocalsWritten(ts, w.counting, k, out)
      modifies w, w.buffer
      decreases |ts| - k
    {
      StopFacts(next, begin, path, k);
      curr := pool.next[curr];
      LocalVisited(lists, items, begin, ts, w.counting, k);
      out := EmitNthLocal(w, pool.items[curr], ts, k, out, t0);
      k := k + 1;
      StopFacts(next, begin, path, k);
    }
    StopFacts(next, begin, path, k);
    WroteSame(w.counting, t0, out, LocalsBytes(ts), w.Now());
  }

  lemma BeginsThere(lists: map<nat, seq<nat>>, pool: seq<ValType>, begin: nat, ts: seq<ValType>)
    requires LocalsDescribed(lists, pool, begin, ts)
    ensures begin in lists && |lists[begin]| == |ts|
  {
  }

  method EmitLocal(w: Writer, t: ValType)
    requires w.Room(2)
    modifies w, w.buffer
    ensures w.Room(0) && Wrote(w.counting, old(w.Now()), LocalBytes(t), w.Now())
  {
    ghost var t0 := w.Now();
    w.Write(0x01);
    ghost var t1 := w.Now();
    w.Write(TypeByte(t));
    WroteMore(w.counting, t0, [0x01], t1, [TypeByte(t)], w.Now());
  }

  /** One function: its locals and its instructions. */
  method EmitBody(e: Emitter, f: Function, ghost x: Body)
    requires e.pool.Valid() && e.localPool.Valid() && x.fn == f && f.localsSize < U32
    requires CodeReady(e.pool.lists, e.pool.items, f.body, x.code)
    requires LocalsDescribed(e.localPool.lists, e.localPool.items, f.locals, x.locals)
    requires e.w.Room(|BodyBytes(x)|)
    modifies e.pool, e.localPool, e.w, e.w.buffer
    ensures e.pool.Valid() && e.pool.items == old(e.pool.items)
    ensures e.pool.lists == Turned(old(e.pool.lists), When(e.w.counting, Begins(x.code)))
    ensures e.localPool.Valid() && e.localPool.items == old(e.localPool.items)
    ensures e.localPool.lists == Turned(old(e.localPool.lists), When(e.w.counting, {f.locals}))
    ensures e.w.Room(0) && Wrote(e.w.counting, old(e.w.Now()), BodyBytes(x), e.w.Now())
  {
    hide LocalsBytes, FormBytes, Turned, Begins, LocalsDescribed, Described, Tree, InRange;
    var w := e.w;
    ghost var t0, out := w.Now(), Unsigned(f.localsSize);
    w.WriteUnsigned(f.localsSize);
    ghost var t1 := w.Now();
    EmitLocals(e, f.locals, x.locals);
    WroteMore(w.counting, t0, out, t1, LocalsBytes(x.locals), w.Now());
    out, t1 := out + LocalsBytes(x.locals), w.Now();
    e.EmitList(f.body, x.code);
    WroteMore(w.counting, t0, out, t1, FormBytes(x.code.items), w.Now());
    out, t1 := out + FormBytes(x.code.items), w.Now();
    w.Write(0x0B);
    WroteMore(w.counting, t0, out, t1, [0x0B], w.Now());
  }

  /** The same behind a size field that is filled in afterwards. */
  method EmitSizedBody(e: Emitter, f: Function, ghost x: Body)
    requires e.pool.Valid() && e.localPool.Valid() && x.fn == f && f.localsSize < U32
    requires CodeReady(e.pool.lists, e.pool.items, f.body, x.code)
    requires LocalsDescribed(e.localPool.lists, e.localPool.items, f.locals, x.locals)
    requires e.w.Room(|SizedBody(x)|)
    modifies e.pool, e.localPool, e.w, e.w.buffer
    ensures e.pool.Valid() && e.pool.items == old(e.pool.items)
    ensures e.pool.lists == Turned(old(e.pool.lists), When(e.w.counting, Begins(x.code)))
    ensures e.localPool.Valid() && e.localPool.items == old(e.localPool.items)
    ensures e.localPool.lists == Turned(old(e.localPool.lists), When(e.w.counting, {f.locals}))
    ensures e.w.Room(0) && Wrote(e.w.counting, old(e.w.Now()), SizedBody(x), e.w.Now())
  {
    hide BodyBytes, Turned, Begins, LocalsDescribed, CodeReady;
    ghost var t0 := e.w.Now();
    var patch := e.w.OpenSize();
    ghost var t1 := e.w.Now();
    EmitBody(e, f, x);
    WroteMore(e.w.counting, t0, Padded(0, OBJ_SIZE), t1, BodyBytes(x), e.w.Now());
    e.w.CloseSize(patch, t0, BodyBytes(x));
  }

  /** All the functions, each behind its size. */
  method EmitBodies(e: Emitter, funcs: seq<Function>, ghost bodies: seq<Body>)
    requires e.pool.Valid() && e.localPool.Valid() && |bodies| == |funcs| < U32
    requires forall i :: 0 <= i < |funcs| ==> bodies[i].fn == funcs[i]
    requires BodiesReady(e.pool.lists, e.pool.items, e.localPool.lists, e.localPool.items, bodies)
    requires e.w.Room(|Counted(|bodies|, BodiesBytes(bodies))|)
    modifies e.pool, e.localPool, e.w, e.w.buffer
    ensures e.pool.Valid() && e.pool.items == old(e.pool.items)
    ensures e.pool.lists == Turned(old(e.pool.lists), When(e.w.counting, BodyBegins(bodies)))
    ensures e.localPool.Valid() && e.localPool.items == old(e.localPool.items)
    ensures e.localPool.lists == Turned(old(e.localPool.lists), When(e.w.counting, LocalBegins(bodies)))
    ensures e.w.Room(0) && Wrote(e.w.counting, old(e.w.Now()), Counted(|bodies|, BodiesBytes(bodies)), e.w.Now())
  {
    hide BodiesBytes, SizedBody, Turned, Begins, BodyBegins, LocalBegins, LocalsDescribed, CodeReady, BodiesReady,
         Wrote, Writer.Now;
    var w := e.w;
    ghost var c, t0, lists, items, localLists, localItems :=
      w.counting, w.Now(), e.pool.lists, e.pool.items, e.localPool.lists, e.localPool.items;
    NowPos(w);
    w.WriteUnsigned(|funcs|);
    ghost var t1 := w.Now();
    NoBodies(lists, localLists, bodies, c);
    WroteNothing(c, t1);
    NowPos(w);
    WroteRoom(c, t0, Unsigned(|funcs|), t1);
    for i := 0 to |funcs|
      invariant e.pool.Valid() && e.pool.items == items && e.localPool.Valid() && e.localPool.items == localItems
      invariant e.pool.lists == Turned(lists, When(c, BodyBegins(bodies[..i])))
      invariant e.localPool.lists == Turned(localLists, When(c, LocalBegins(bodies[..i])))
      invariant w.Room(0) && Wrote(c, t1, BodiesBytes(bodies[..i]), w.Now())
    {
      BodiesStep(bodies, i);
      NowPos(w);
      WroteRoom(c, t1, BodiesBytes(bodies[..i]), w.Now());
      BodyApart(lists, items, localLists, localItems, bodies, i);
      ghost var t2 := w.Now();
      EmitSizedBody(e, funcs[i], bodies[i]);
      WroteMore(c, t1, BodiesBytes(bodies[..i]), t2, SizedBody(bodies[i]), w.Now());
      BodyBeginsStep(bodies, i);
      TurnedMore(lists, When(c, BodyBegins(bodies[..i])), When(c, Begins(bodies[i].code)));
      TurnedMore(localLists, When(c, LocalBegins(bodies[..i])), When(c, {funcs[i].locals}));
    }
    assert bodies[..|funcs|] == bodies;
    WroteMore(c, t0, Unsigned(|bodies|), t1, BodiesBytes(bodies), w.Now());
  }

  lemma NoBodies(lists: map<nat, seq<nat>>, localLists: map<nat, seq<nat>>, bodies: seq<Body>, counting: bool)
    ensures bodies[..0] == [] && BodiesBytes([]) == []
    ensures Turned(lists, When(counting, BodyBegins([]))) == lists
    ensures Turned(localLists, When(counting, LocalBegins([]))) == localLists
  {
    BodiesNone();
    assert BodyBegins([]) == {} && LocalBegins([]) == {};
    TurnedNone(lists);
    TurnedNone(localLists);
  }

  // ---------- data ----------

  /** A datum: its flags, its memory and offset when it is active, and its bytes without their count. */
  method EmitDatum(e: Emitter, d: Data, ghost x: Datum)
    requires e.pool.Valid() && x.data == d && DatumReady(e.pool.lists, e.pool.items, x)
    requires e.w.Room(|DatumBytes(x)|)
    modifies e.pool, e.w, e.w.buffer
    ensures e.pool.Valid() && e.pool.items == old(e.pool.items)
    ensures e.pool.lists == Turned(old(e.pool.lists), When(e.w.counting, Owned(x)))
    ensures e.w.Room(0) && Wrote(e.w.counting, old(e.w.Now()), DatumBytes(x), e.w.Now())
  {
    hide FormBytes, Turned, Begins, Described, Tree, InRange;
    var w := e.w;
    ghost var t0 := w.Now();
    if d.mode.Passive? {
      w.Write(0x01);
      ghost var t1 := w.Now();
      EmitRaw(w, d.init);
      WroteMore(w.counting, t0, [0x01], t1, d.init, w.Now());
      TurnedNone(e.pool.lists);
    } else {
      ghost var out: seq<Byte> := if d.mode.memory == 0 then [0x00] else [0x02] + Unsigned(d.mode.memory);
      if d.mode.memory == 0 {
        w.Write(0x00);
      } else {
        EmitIndexed(w, 0x02, d.mode.memory);
      }
      ghost var t1 := w.Now();
      e.EmitList(d.mode.offset, x.offset);
      WroteMore(w.counting, t0, out, t1, FormBytes(x.offset.items), w.Now());
      out, t1 := out + FormBytes(x.offset.items), w.Now();
      w.Write(0x0B);
      WroteMore(w.counting, t0, out, t1, [0x0B], w.Now());
      out, t1 := out + [0x0B], w.Now();
      EmitRaw(w, d.init);
      WroteMore(w.counting, t0, out, t1, d.init, w.Now());
    }
  }

  lemma DatumApart(lists: map<nat, seq<nat>>, pool: seq<Inst>, datums: seq<Datum>, i: nat)
    requires DatumsReady(lists, pool, datums) && i < |datums|
    ensures DatumBegins(datums[..i]) !! Owned(datums[i])
    ensures forall counting :: DatumReady(Turned(lists, When(counting, DatumBegins(datums[..i]))), pool, datums[i])
  {
    hide CodeReady, Begins;
    forall b | b in DatumBegins(datums[..i]) ensures b !in Owned(datums[i]) {
      var j :| 0 <= j < i && b in Owned(datums[..i][j]);
      assert datums[..i][j] == datums[j];
    }
    if datums[i].data.mode.Active? {
      forall counting ensures DatumReady(Turned(lists, When(counting, DatumBegins(datums[..i]))), pool, datums[i]) {
        assert DatumReady(lists, pool, datums[i]);
        CodeStaysReady(lists, pool, datums[i].data.mode.offset, datums[i].offset,
                       When(counting, DatumBegins(datums[..i])));
      }
    }
  }

  method EmitDatums(e: Emitter, datas: seq<Data>, ghost datums: seq<Datum>)
    requires e.pool.Valid() && |datums| == |datas| < U32
    requires forall i :: 0 <= i < |datas| ==> datums[i].data == datas[i]
    requires DatumsReady(e.pool.lists, e.pool.items, datums)
    requires e.w.Room(|Counted(|datums|, DatumsBytes(datums))|)
    modifies e.pool, e.w, e.w.buffer
    ensures e.pool.Valid() && e.pool.items == old(e.pool.items)
    ensures e.pool.lists == Turned(old(e.pool.lists), When(e.w.counting, DatumBegins(datums)))
    ensures e.w.Room(0) && Wrote(e.w.counting, old(e.w.Now()), Counted(|datums|, DatumsBytes(datums)), e.w.Now())
  {
    hide DatumsBytes, DatumBytes, Turned, Owned, DatumBegins, DatumReady;
    var w := e.w;
    ghost var c, t0, lists, items := w.counting, w.Now(), e.pool.lists, e.pool.items;
    w.WriteUnsigned(|datas|);
    ghost var t1 := w.Now();
    NoDatums(lists, datums, c);
    WroteNothing(c, t1);
    for i := 0 to |datas|
      invariant e.pool.Valid() && e.pool.items == items
      invariant e.pool.lists == Turned(lists, When(c, DatumBegins(datums[..i])))
      invariant w.Room(0) && Wrote(c, t1, DatumsBytes(datums[..i]), w.Now())
    {
      DatumsStep(datums, i);
      DatumApart(lists, items, datums, i);
      ghost var t2 := w.Now();
      EmitDatum(e, datas[i], datums[i]);
      WroteMore(c, t1, DatumsBytes(datums[..i]), t2, DatumBytes(datums[i]), w.Now());
      DatumBeginsStep(datums, i);
      TurnedMore(lists, When(c, DatumBegins(datums[..i])), When(c, Owned(datums[i])));
    }
    assert datums[..|datas|] == datums;
    WroteMore(c, t0, Unsigned(|datums|), t1, DatumsBytes(datums), w.Now());
  }

  lemma NoDatums(lists: map<nat, seq<nat>>, datums: seq<Datum>, counting: bool)
    ensures datums[..0] == [] && DatumsBytes([]) == []
    ensures Turned(lists, When(counting, DatumBegins([]))) == lists
  {
    DatumsNone();
    assert DatumBegins([]) == {};
    TurnedNone(lists);
  }

  lemma DatumsStayReady(lists: map<nat, seq<nat>>, pool: seq<Inst>, datums: seq<Datum>, done: set<nat>)
    requires DatumsReady(lists, pool, datums) && done !! DatumBegins(datums)
    ensures DatumsReady(Turned(lists, done), pool, datums)
  {
    hide CodeReady, Begins;
    forall i | 0 <= i < |datums| ensures DatumReady(Turned(lists, done), pool, datums[i]) {
      assert DatumReady(lists, pool, datums[i]);
      if datums[i].data.mode.Active? {
        assert forall b :: b in Owned(datums[i]) ==> b in DatumBegins(datums);
        CodeStaysReady(lists, pool, datums[i].data.mode.offset, datums[i].offset, done);
      }
    }
  }

  // ---------- the module ----------

  method EmitCodeSection(e: Emitter, m: Module, ghost c: Contents)
    requires e.pool.Valid() && e.localPool.Valid() && Fits(m, c) && RangesFit(m)
    requires BodiesReady(e.pool.lists, e.pool.items, e.localPool.lists, e.localPool.items, c.bodies)
    requires e.w.Room(|SectionsBytes(CodeSection(c))|)
    modifies e.pool, e.localPool, e.w, e.w.buffer
    ensures e.pool.Valid() && e.pool.items == old(e.pool.items)
    ensures e.pool.lists == Turned(old(e.pool.lists), When(e.w.counting, BodyBegins(c.bodies)))
    ensures e.localPool.Valid() && e.localPool.items == old(e.localPool.items)
    ensures e.localPool.lists == Turned(old(e.localPool.lists), When(e.w.counting, LocalBegins(c.bodies)))
    ensures e.w.Room(0) && Wrote(e.w.counting, old(e.w.Now()), SectionsBytes(CodeSection(c)), e.w.Now())
  {
    hide BodiesBytes, Sized, SectionsBytes, Counted, Turned, BodyBegins, LocalBegins, BodiesReady;
    NoSection();
    ghost var content := Counted(|c.bodies|, BodiesBytes(c.bodies));
    OneSection(10, content);
    if m.funcs != [] {
      ghost var t0 := e.w.Now();
      var patch := OpenSection(e.w, 10);
      ghost var t1 := e.w.Now();
      EmitBodies(e, m.funcs, c.bodies);
      CloseSection(e.w, patch, t0, 10, content, t1);
    } else {
      assert c.bodies == [] && c.bodies[..0] == [];
      NoBodies(e.pool.lists, e.localPool.lists, c.bodies, e.w.counting);
    }
  }

  method EmitDataSection(e: Emitter, m: Module, ghost c: Contents)
    requires e.pool.Valid() && Fits(m, c) && RangesFit(m) && DatumsReady(e.pool.lists, e.pool.items, c.datums)
    requires e.w.Room(|SectionsBytes(DataSection(c))|)
    modifies e.pool, e.w, e.w.buffer
    ensures e.pool.Valid() && e.pool.items == old(e.pool.items)
    ensures e.pool.lists == Turned(old(e.pool.lists), When(e.w.counting, DatumBegins(c.datums)))
    ensures e.w.Room(0) && Wrote(e.w.counting, old(e.w.Now()), SectionsBytes(DataSection(c)), e.w.Now())
  {
    hide DatumsBytes, Sized, SectionsBytes, Counted, Turned, DatumBegins, DatumsReady;
    NoSection();
    ghost var content := Counted(|c.datums|, DatumsBytes(c.datums));
    OneSection(11, content);
    if m.datas != [] {
      ghost var t0 := e.w.Now();
      var patch := OpenSection(e.w, 11);
      ghost var t1 := e.w.Now();
      EmitDatums(e, m.datas, c.datums);
      CloseSection(e.w, patch, t0, 11, content, t1);
    } else {
      assert c.datums == [] && c.datums[..0] == [];
      NoDatums(e.pool.lists, c.datums, e.w.counting);
    }
  }

  /** What the pools must hold for a module to be emitted: its lists are circles that no two owners share. */
  ghost predicate Ready(lists: map<nat, seq<nat>>, pool: seq<Inst>, localLists: map<nat, seq<nat>>,
                        localPool: seq<ValType>,
                        m: Module, c: Contents) {
    && Fits(m, c) && RangesFit(m)
    && BodiesReady(lists, pool, localLists, localPool, c.bodies)
    && DatumsReady(lists, pool, c.datums)
    && BodyBegins(c.bodies) !! DatumBegins(c.datums)
  }

  /** The sections up to the data count. */
  function Front(m: Module): seq<Section> {
    TypeSection(m) + ImportSection(m) + FuncSection(m) + MemSection(m) + ExportSection(m) + StartSection(m)
    + DataCountSection(m)
  }

  method EmitFront(w: Writer, m: Module)
    requires RangesFit(m) && w.Room(|SectionsBytes(Front(m))|)
    modifies w, w.buffer
    ensures w.Room(0) && Wrote(w.counting, old(w.Now()), SectionsBytes(Front(m)), w.Now())
  {
    hide SectionsBytes, TypeSection, ImportSection, FuncSection, MemSection, ExportSection, StartSection,
         DataCountSection, RangesFit;
    var a, b, c, d := TypeSection(m), ImportSection(m), FuncSection(m), MemSection(m);
    var f, g, h := ExportSection(m), StartSection(m), DataCountSection(m);
    SectionsBytesAppend(a, b);
    SectionsBytesAppend(a + b, c);
    SectionsBytesAppend(a + b + c, d);
    SectionsBytesAppend(a + b + c + d, f);
    SectionsBytesAppend(a + b + c + d + f, g);
    SectionsBytesAppend(a + b + c + d + f + g, h);
    ghost var t0 := w.Now();
    EmitTypeSection(w, m);
    ghost var t1 := w.Now();
    EmitImportSection(w, m);
    WroteMore(w.counting, t0, SectionsBytes(a), t1, SectionsBytes(b), w.Now());
    t1 := w.Now();
    EmitFuncSection(w, m);
    WroteMore(w.counting, t0, SectionsBytes(a + b), t1, SectionsBytes(c), w.Now());
    t1 := w.Now();
    EmitMemSection(w, m);
    WroteMore(w.counting, t0, SectionsBytes(a + b + c), t1, SectionsBytes(d), w.Now());
    t1 := w.Now();
    EmitExportSection(w, m);
    WroteMore(w.counting, t0, SectionsBytes(a + b + c + d), t1, SectionsBytes(f), w.Now());
    t1 := w.Now();
    EmitStartSection(w, m);
    WroteMore(w.counting, t0, SectionsBytes(a + b + c + d + f), t1, SectionsBytes(g), w.Now());
    t1 := w.Now();
    EmitDataCountSection(w, m);
    WroteMore(w.counting, t0, SectionsBytes(a + b + c + d + f + g), t1, SectionsBytes(h), w.Now());
  }

  lemma ModuleParts(m: Module, c: Contents)
    ensures ModuleBytes(m, c) ==
              HEADER + SectionsBytes(Front(m)) + SectionsBytes(CodeSection(c)) + SectionsBytes(DataSection(c))
  {
    hide SectionsBytes, CodeSection, DataSection, Front;
    assert SectionsOf(m, c) == Front(m) + CodeSection(c) + DataSection(c) by { FrontIsFirst(m, c); }
    SectionsBytesAppend(Front(m), CodeSection(c));
    SectionsBytesAppend(Front(m) + CodeSection(c), DataSection(c));
  }

  lemma FrontIsFirst(m: Module, c: Contents)
    ensures SectionsOf(m, c) == Front(m) + CodeSection(c) + DataSection(c)
  {
  }

  /** One pass over a module. */
  method EmitModule(e: Emitter, m: Module, ghost c: Contents)
    requires e.pool.Valid() && e.localPool.Valid()
    requires Ready(e.pool.lists, e.pool.items, e.localPool.lists, e.localPool.items, m, c)
    requires e.w.Room(|ModuleBytes(m, c)|)
    modifies e.pool, e.localPool, e.w, e.w.buffer
    ensures e.pool.Valid() && e.pool.items == old(e.pool.items)
    ensures e.pool.lists == Turned(old(e.pool.lists), When(e.w.counting, BodyBegins(c.bodies) + DatumBegins(c.datums)))
    ensures e.localPool.Valid() && e.localPool.items == old(e.localPool.items)
    ensures e.localPool.lists == Turned(old(e.localPool.lists), When(e.w.counting, LocalBegins(c.bodies)))
    ensures e.w.Room(0) && Wrote(e.w.counting, old(e.w.Now()), ModuleBytes(m, c), e.w.Now())
  {
    hide SectionsBytes, CodeSection, DataSection, TypeSection, ImportSection, FuncSection, MemSection, ExportSection,
         StartSection, DataCountSection, Front, ModuleBytes, RangesFit, BodiesReady, DatumsReady, BodyBegins,
         DatumBegins, LocalBegins, Turned, Wrote;
    var w := e.w;
    ghost var front, code, data := Front(m), CodeSection(c), DataSection(c);
    ModuleParts(m, c);
    ghost var t0, lists, counting := w.Now(), e.pool.lists, w.counting;
    EmitRaw(w, HEADER);
    ghost var out, t1 := HEADER, w.Now();
    EmitFront(w, m);
    WroteMore(counting, t0, out, t1, SectionsBytes(front), w.Now());
    out, t1 := out + SectionsBytes(front), w.Now();
    EmitCodeSection(e, m, c);
    WroteMore(counting, t0, out, t1, SectionsBytes(code), w.Now());
    out, t1 := out + SectionsBytes(code), w.Now();
    DatumsStayReady(lists, e.pool.items, c.datums, When(counting, BodyBegins(c.bodies)));
    EmitDataSection(e, m, c);
    WroteMore(counting, t0, out, t1, SectionsBytes(data), w.Now());
    TurnedMore(lists, When(counting, BodyBegins(c.bodies)), When(counting, DatumBegins(c.datums)));
    assert When(counting, BodyBegins(c.bodies)) + When(counting, DatumBegins(c.datums))
        == When(counting, BodyBegins(c.bodies) + DatumBegins(c.datums));
  }

  /** The number of bytes of a module, without touching it. */
  method EmitSize(pool: Pool<Inst>, localPool: Pool<ValType>, m: Module, ghost c: Contents) returns (size: nat)
    requires pool.Valid() && localPool.Valid() && Ready(pool.lists, pool.items, localPool.lists, localPool.items, m, c)
    modifies pool, localPool
    ensures size == |ModuleBytes(m, c)|
    ensures pool.Valid() && pool.items == old(pool.items) && pool.lists == old(pool.lists)
    ensures localPool.Valid() && localPool.items == old(localPool.items) && localPool.lists == old(localPool.lists)
  {
    hide ModuleBytes, Ready;
    var nothing := new Byte[0];
    var w := new Writer(true, nothing);
    var e := new Emitter(pool, localPool, w);
    EmitModule(e, m, c);
    TurnedNone(pool.lists);
    TurnedNone(localPool.lists);
    size := w.pos;
  }

  /** Counts, makes a buffer of that size and writes: the bytes fill the buffer exactly and never run past it,
      and every list of the module is left the other way round. */
  method Emit(pool: Pool<Inst>, localPool: Pool<ValType>, m: Module, ghost c: Contents) returns (storage: array<Byte>)
    requires pool.Valid() && localPool.Valid() && Ready(pool.lists, pool.items, localPool.lists, localPool.items, m, c)
    modifies pool, localPool
    ensures fresh(storage) && storage[..] == ModuleBytes(m, c)
    ensures pool.Valid() && pool.items == old(pool.items)
    ensures pool.lists == Turned(old(pool.lists), BodyBegins(c.bodies) + DatumBegins(c.datums))
    ensures localPool.Valid() && localPool.items == old(localPool.items)
    ensures localPool.lists == Turned(old(localPool.lists), LocalBegins(c.bodies))
  {
    hide ModuleBytes, Ready, BodyBegins, DatumBegins, LocalBegins, Turned;
    var size := EmitSize(pool, localPool, m, c);
    storage := new Byte[size](_ => 0);
    var w := new Writer(false, storage);
    var e := new Emitter(pool, localPool, w);
    EmitModule(e, m, c);
    assert storage[..w.pos] == storage[..];
  }
}
