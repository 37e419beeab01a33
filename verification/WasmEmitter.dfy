/** The emitter visiting instruction lists: it counts the bytes in one pass over lists kept last to first,
    and stores them in another pass that first turns every list round. */
module WasmEmitter {
  import opened Sequences
  import opened CircularList
  import opened Leb128
  import opened WasmSyntax
  import opened WasmLists
  import opened WasmWriter

  /** Which lists a pass over `f` turns round after `k` of its items. */
  ghost function TurnedSoFar(f: Form, counting: bool, k: nat): set<nat>
    requires k <= |f.items|
  {
    if counting then {} else {f.begin} + set j, b | 0 <= j < k && b in ItemBegins(f.items[j]) :: b
  }

  /** Which item a pass visits as its `k`-th. */
  function Visited(f: Form, counting: bool, k: nat): (j: nat)
    requires k < |f.items|
    ensures j < |f.items|
  {
    if counting then |f.items| - 1 - k else k
  }

  /** What a pass has written after `k` items, up to the order in a counting pass. */
  ghost predicate WrittenSoFar(f: Form, counting: bool, k: nat, out: seq<Byte>)
    requires k <= |f.items|
  {
    if counting then |out| + |FormBytes(f.items[..|f.items| - k])| == |FormBytes(f.items)|
    else out == FormBytes(f.items[..k])
  }

  lemma WrittenMore(f: Form, counting: bool, k: nat, out: seq<Byte>)
    requires k < |f.items| && WrittenSoFar(f, counting, k, out)
    ensures WrittenSoFar(f, counting, k + 1, out + ItemBytes(f.items[Visited(f, counting, k)]))
    ensures |out + ItemBytes(f.items[Visited(f, counting, k)])| <= |FormBytes(f.items)|
  {
    hide FormBytes, ItemBytes;
    FormBytesStep(f.items, Visited(f, counting, k));
  }

  lemma WrittenNone(f: Form, counting: bool)
    ensures WrittenSoFar(f, counting, 0, [])
  {
    assert f.items[..|f.items|] == f.items && f.items[..0] == [];
    assert FormBytes([]) == [];
  }

  lemma WrittenAll(f: Form, counting: bool, out: seq<Byte>)
    requires WrittenSoFar(f, counting, |f.items|, out)
    ensures |out| == |FormBytes(f.items)| && (!counting ==> out == FormBytes(f.items))
  {
    assert f.items[..|f.items|] == f.items && f.items[..0] == [];
    assert FormBytes([]) == [];
  }

  lemma TurnedOneMore(f: Form, counting: bool, k: nat)
    requires k < |f.items| && Tree(f)
    ensures var more := if counting then {} else ItemBegins(f.items[Visited(f, counting, k)]);
            && TurnedSoFar(f, counting, k) !! more
            && TurnedSoFar(f, counting, k + 1) == TurnedSoFar(f, counting, k) + more
  {
    hide ItemBegins;
    if !counting {
      var more := ItemBegins(f.items[k]);
      forall b | b in TurnedSoFar(f, counting, k) ensures b !in more {
      }
    }
  }

  lemma TurnedAll(f: Form, counting: bool)
    ensures TurnedSoFar(f, counting, |f.items|) == if counting then {} else Begins(f)
  {
  }

  /** The item a pass comes to is still described by the lists as they are by then. */
  lemma StillDescribed(lists: map<nat, seq<nat>>, pool: seq<Inst>, f: Form, counting: bool, k: nat, index: nat)
    requires Described(lists, pool, f) && Tree(f) && InRange(f) && k < |f.items|
    requires index == lists[f.begin][|f.items| - 1 - Visited(f, counting, k)]
    ensures index < |pool|
    ensures ItemDescribed(Turned(lists, TurnedSoFar(f, counting, k)), pool, pool[index],
                          f.items[Visited(f, counting, k)])
    ensures ItemTree(f.items[Visited(f, counting, k)]) && ItemInRange(f.items[Visited(f, counting, k)])
  {
    var x := f.items[Visited(f, counting, k)];
    var now := Turned(lists, TurnedSoFar(f, counting, k));
    assert NthDescribed(lists, pool, f, Visited(f, counting, k));
    hide ItemBegins, ItemDescribed;
    forall b | b in ItemBegins(x) && b in lists ensures now[b] == lists[b] {
    }
    ItemDescribedStays(lists, now, pool, pool[index], x);
  }

  class Emitter {
    const pool: Pool<Inst>
    const localPool: Pool<ValType>
    const w: Writer

    constructor (pool: Pool<Inst>, localPool: Pool<ValType>, w: Writer)
      ensures this.pool == pool && this.localPool == localPool && this.w == w
    {
      this.pool, this.localPool, this.w := pool, localPool, w;
    }

    method WriteIndexed(opcode: Byte, n: nat)
      requires n < U32 && w.Room(1 + |Unsigned(n)|)
      modifies w, w.buffer
      ensures w.Room(0) && Wrote(w.counting, old(w.Now()), [opcode] + Unsigned(n), w.Now())
    {
      ghost var t0 := w.Now();
      w.Write(opcode);
      ghost var t1 := w.Now();
      w.WriteUnsigned(n);
      WroteMore(w.counting, t0, [opcode], t1, Unsigned(n), w.Now());
    }

    method EmitOp(op: Op)
      requires ItemInRange(Leaf(op)) && w.Room(|OpBytes(op)|)
      modifies w, w.buffer
      ensures w.Room(0) && Wrote(w.counting, old(w.Now()), OpBytes(op), w.Now())
    {
      match op
      case Const64(value) =>
        ghost var t0 := w.Now();
        w.Write(0x42);
        ghost var t1 := w.Now();
        w.WriteSigned(value);
        WroteMore(w.counting, t0, [0x42], t1, Signed(value), w.Now());
      case LocalGet(id) => WriteIndexed(0x20, id);
      case LocalSet(id) => WriteIndexed(0x21, id);
      case LocalTee(id) => WriteIndexed(0x22, id);
      case Call(id) => WriteIndexed(0x10, id);
      case Br(depth) => WriteIndexed(0x0C, depth);
      case BrIf(depth) => WriteIndexed(0x0D, depth);
      case Add64 => w.Write(0x7C);
      case Drop => w.Write(0x1A);
      case Return => w.Write(0x0F);
      case Nop => w.Write(0x01);
      case Unreachable => w.Write(0x00);
    }

    method EmitBlockType(t: BlockType)
      requires BlockTypeInRange(t) && w.Room(|BlockTypeBytes(t)|)
      modifies w, w.buffer
      ensures w.Room(0) && Wrote(w.counting, old(w.Now()), BlockTypeBytes(t), w.Now())
    {
      match t
      case OfFunc(index) => w.WriteUnsigned(index);
      case OfVal(val) => w.Write(TypeByte(val));
    }

    /** The instruction at `index`, which the pool describes as `x`. */
    method EmitItem(index: nat, ghost x: Item)
      requires pool.Valid() && index < |pool.items| && ItemDescribed(pool.lists, pool.items, pool.items[index], x)
      requires ItemTree(x) && ItemInRange(x) && w.Room(|ItemBytes(x)|)
      modifies pool, w, w.buffer
      ensures pool.Valid() && pool.items == old(pool.items)
      ensures pool.lists == Turned(old(pool.lists), if w.counting then {} else ItemBegins(x))
      ensures w.Room(0) && Wrote(w.counting, old(w.Now()), ItemBytes(x), w.Now())
      decreases x, 1
    {
      match pool.items[index]
      case Plain(op) =>
        EmitOp(op);
        TurnedNone(pool.lists);
      case Block(isLoop, t, body) =>
        EmitBlock(isLoop, t, body, x);
      case If(t, yes, no) =>
        EmitIf(t, yes, no, x);
    }

    /** The opcode and the type of a block. */
    method EmitHead(opcode: Byte, t: BlockType)
      requires BlockTypeInRange(t) && w.Room(1 + |BlockTypeBytes(t)|)
      modifies w, w.buffer
      ensures w.Room(0) && Wrote(w.counting, old(w.Now()), [opcode] + BlockTypeBytes(t), w.Now())
    {
      hide BlockTypeBytes;
      ghost var t0 := w.Now();
      w.Write(opcode);
      ghost var t1 := w.Now();
      EmitBlockType(t);
      WroteMore(w.counting, t0, [opcode], t1, BlockTypeBytes(t), w.Now());
    }

    method EmitBlock(isLoop: bool, t: BlockType, body: nat, ghost x: Item)
      requires pool.Valid() && ItemDescribed(pool.lists, pool.items, Block(isLoop, t, body), x)
      requires ItemTree(x) && ItemInRange(x) && w.Room(|ItemBytes(x)|)
      modifies pool, w, w.buffer
      ensures pool.Valid() && pool.items == old(pool.items)
      ensures pool.lists == Turned(old(pool.lists), if w.counting then {} else ItemBegins(x))
      ensures w.Room(0) && Wrote(w.counting, old(w.Now()), ItemBytes(x), w.Now())
      decreases x, 0
    {
      hide BlockTypeBytes, FormBytes, Described, Tree, InRange, Begins;
      ghost var t0 := w.Now();
      var opcode: Byte := if isLoop then 0x03 else 0x02;
      EmitHead(opcode, t);
      ghost var out, t1 := [opcode] + BlockTypeBytes(t), w.Now();
      EmitList(body, x.body);
      WroteMore(w.counting, t0, out, t1, FormBytes(x.body.items), w.Now());
      out, t1 := out + FormBytes(x.body.items), w.Now();
      w.Write(0x0B);
      WroteMore(w.counting, t0, out, t1, [0x0B], w.Now());
    }

    method EmitIf(t: BlockType, yes: nat, no: nat, ghost x: Item)
      requires pool.Valid() && ItemDescribed(pool.lists, pool.items, If(t, yes, no), x)
      requires ItemTree(x) && ItemInRange(x) && w.Room(|ItemBytes(x)|)
      modifies pool, w, w.buffer
      ensures pool.Valid() && pool.items == old(pool.items)
      ensures pool.lists == Turned(old(pool.lists), if w.counting then {} else ItemBegins(x))
      ensures w.Room(0) && Wrote(w.counting, old(w.Now()), ItemBytes(x), w.Now())
      decreases x, 0
    {
      hide BlockTypeBytes, FormBytes, Described, Tree, InRange, Begins, Turned;
      ghost var lists, t0 := pool.lists, w.Now();
      ghost var last := if x.no.items == [] then [] else [0x05] + FormBytes(x.no.items);
      EmitHead(0x04, t);
      ghost var out, t1 := [0x04] + BlockTypeBytes(t), w.Now();
      EmitList(yes, x.yes);
      WroteMore(w.counting, t0, out, t1, FormBytes(x.yes.items), w.Now());
      out, t1 := out + FormBytes(x.yes.items), w.Now();
      OthersTurned(lists, pool.items, x.no, if w.counting then {} else Begins(x.yes));
      EmitElse(no, x.no);
      WroteMore(w.counting, t0, out, t1, last, w.Now());
      out, t1 := out + last, w.Now();
      ForkTurned(lists, t, x.yes, x.no, w.counting);
      w.Write(0x0B);
      WroteMore(w.counting, t0, out, t1, [0x0B], w.Now());
    }

    /** The else branch, unless its list is empty. */
    method EmitElse(no: nat, ghost f: Form)
      requires pool.Valid() && f.begin == no && Described(pool.lists, pool.items, f) && Tree(f) && InRange(f)
      requires w.Room(if f.items == [] then 0 else 1 + |FormBytes(f.items)|)
      modifies pool, w, w.buffer
      ensures pool.Valid() && pool.items == old(pool.items)
      ensures pool.lists == Turned(old(pool.lists), if w.counting then {} else Begins(f))
      ensures w.Room(0) && Wrote(w.counting, old(w.Now()),
                                 if f.items == [] then [] else [0x05] + FormBytes(f.items), w.Now())
      decreases f, 3
    {
      hide FormBytes, Tree, InRange, Begins;
      ghost var t0 := w.Now();
      var empty := pool.Empty(no);
      if !empty {
        w.Write(0x05);
        ghost var t1 := w.Now();
        EmitList(no, f);
        WroteMore(w.counting, t0, [0x05], t1, FormBytes(f.items), w.Now());
      } else {
        TurnedEmpty(pool.lists, f, w.counting);
      }
    }

    method EmitList(begin: nat, ghost f: Form)
      requires pool.Valid() && f.begin == begin && Described(pool.lists, pool.items, f)
      requires Tree(f) && InRange(f) && w.Room(|FormBytes(f.items)|)
      modifies pool, w, w.buffer
      ensures pool.Valid() && pool.items == old(pool.items)
      ensures pool.lists == Turned(old(pool.lists), if w.counting then {} else Begins(f))
      ensures w.Room(0) && Wrote(w.counting, old(w.Now()), FormBytes(f.items), w.Now())
      decreases f, 2
    {
      hide FormBytes, Circle, Stop, Wrote, WrittenSoFar, TurnedSoFar, Writer.Now, Turned, Tree, InRange, Described;
      ghost var lists, items, t0, c := pool.lists, pool.items, w.Now(), w.counting;
      ghost var k, out := 0, [];
      RouteStarts(lists, items, f, c);
      if !w.counting {
        pool.Reverse(begin);
      }
      ghost var path := Route(lists, f, c);
      assert lists[begin := lists[begin]] == lists;
      assert pool.lists == Turned(lists, TurnedSoFar(f, c, 0)) && pool.lists[begin] == path;
      WrittenNone(f, c);
      WroteNothing(c, t0);
      NowPos(w);
      StopFacts(pool.next, begin, path, 0);
      var curr := begin;
      while pool.next[curr] != begin
        invariant pool.Valid() && pool.items == items && k <= |f.items| == |path|
        invariant pool.lists == Turned(lists, TurnedSoFar(f, w.counting, k)) && begin in pool.lists
                  && pool.lists[begin] == path
        invariant curr == Stop(begin, path, k) && curr < |pool.next|
        invariant w.Room(0) && Wrote(w.counting, t0, out, w.Now()) && WrittenSoFar(f, w.counting, k, out)
        decreases |f.items| - k
      {
        StopFacts(pool.next, begin, path, k);
        curr := pool.next[curr];
        RouteVisits(lists, f, c, k);
        RouteStays(lists, f, c, k + 1);
        out := EmitNth(curr, f, lists, k, out, t0);
        k := k + 1;
      }
      StopFacts(pool.next, begin, path, k);
      TurnedAll(f, w.counting);
      WrittenAll(f, w.counting, out);
      WroteSame(w.counting, t0, out, FormBytes(f.items), w.Now());
    }

    /** The `k`-th instruction that a pass over `f` visits. */
    method EmitNth(index: nat, ghost f: Form, ghost lists: map<nat, seq<nat>>, ghost k: nat, ghost out: seq<Byte>,
                   ghost t0: Trace)
      returns (ghost more: seq<Byte>)
      requires pool.Valid() && Described(lists, pool.items, f) && Tree(f) && InRange(f) && k < |f.items|
      requires pool.lists == Turned(lists, TurnedSoFar(f, w.counting, k))
      requires index == lists[f.begin][|f.items| - 1 - Visited(f, w.counting, k)]
      requires w.Room(0) && Wrote(w.counting, t0, out, w.Now()) && WrittenSoFar(f, w.counting, k, out)
      requires w.counting || t0.pos + |FormBytes(f.items)| <= w.buffer.Length
      modifies pool, w, w.buffer
      ensures pool.Valid() && pool.items == old(pool.items)
      ensures pool.lists == Turned(lists, TurnedSoFar(f, w.counting, k + 1))
      ensures w.Room(0) && Wrote(w.counting, t0, more, w.Now()) && WrittenSoFar(f, w.counting, k + 1, more)
      decreases f, 1
    {
      ghost var x := f.items[Visited(f, w.counting, k)];
      StillDescribed(lists, pool.items, f, w.counting, k, index);
      hide FormBytes, ItemBytes, ItemBegins, ItemDescribed, ItemTree, ItemInRange, Wrote, WrittenSoFar, TurnedSoFar,
           Turned, Writer.Now, Described, InRange;
      WrittenMore(f, w.counting, k, out);
      NowPos(w);
      WroteRoom(w.counting, t0, out, w.Now());
      ghost var t1 := w.Now();
      EmitItem(index, x);
      WroteMore(w.counting, t0, out, t1, ItemBytes(x), w.Now());
      TurnedOneMore(f, w.counting, k);
      TurnedMore(lists, TurnedSoFar(f, w.counting, k), if w.counting then {} else ItemBegins(x));
      more := out + ItemBytes(x);
    }
  }

  /** The order in which a pass goes through a list. */
  ghost function Route(lists: map<nat, seq<nat>>, f: Form, counting: bool): seq<nat>
    requires f.begin in lists
  {
    if counting then lists[f.begin] else Reversed(lists[f.begin])
  }

  lemma RouteVisits(lists: map<nat, seq<nat>>, f: Form, counting: bool, k: nat)
    requires f.begin in lists && |lists[f.begin]| == |f.items| && k < |f.items|
    ensures k < |Route(lists, f, counting)|
    ensures Route(lists, f, counting)[k] == lists[f.begin][|f.items| - 1 - Visited(f, counting, k)]
  {
  }

  /** Only the list itself is turned at its own sentinel. */
  lemma RouteStays(lists: map<nat, seq<nat>>, f: Form, counting: bool, k: nat)
    requires f.begin in lists && Tree(f) && k <= |f.items|
    ensures var now := Turned(lists, TurnedSoFar(f, counting, k));
            f.begin in now && now[f.begin] == Route(lists, f, counting)
  {
    hide ItemBegins;
  }

  lemma RouteStarts(lists: map<nat, seq<nat>>, pool: seq<Inst>, f: Form, counting: bool)
    requires Described(lists, pool, f)
    ensures f.begin in lists && |Route(lists, f, counting)| == |lists[f.begin]| == |f.items|
    ensures Turned(lists, TurnedSoFar(f, counting, 0)) == lists[f.begin := Route(lists, f, counting)]
  {
    assert lists[f.begin := lists[f.begin]] == lists;
    assert TurnedSoFar(f, counting, 0) == if counting then {} else {f.begin};
  }

  lemma ForkTurned(lists: map<nat, seq<nat>>, t: BlockType, yes: Form, no: Form, counting: bool)
    requires Begins(yes) !! Begins(no)
    ensures Turned(Turned(lists, if counting then {} else Begins(yes)), if counting then {} else Begins(no)) ==
            Turned(lists, if counting then {} else ItemBegins(Fork(t, yes, no)))
  {
    hide Begins, Turned;
    assert (if counting then {} else Begins(yes)) + (if counting then {} else Begins(no)) ==
           if counting then {} else ItemBegins(Fork(t, yes, no));
    TurnedMore(lists, if counting then {} else Begins(yes), if counting then {} else Begins(no));
  }

  lemma TurnedEmpty(lists: map<nat, seq<nat>>, f: Form, counting: bool)
    requires f.begin in lists && lists[f.begin] == [] && f.items == []
    ensures Turned(lists, if counting then {} else Begins(f)) == lists
  {
    assert Reversed(lists[f.begin]) == lists[f.begin];
    assert Begins(f) == {f.begin};
  }
}
