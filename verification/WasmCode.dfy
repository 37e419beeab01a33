/** Reading instructions back, after section 5.4 of the WebAssembly Core Specification. */
module WasmCode {
  import opened Leb128
  import opened WasmSyntax

  /** What was read at the front of some bytes, and the bytes after it. */
  datatype Read<T> = Malformed | Read(value: T, rest: seq<Byte>)

  function ReadIndex(s: seq<Byte>): (r: Read<nat>)
    ensures r.Read? ==> |r.rest| < |s|
  {
    match ReadUnsigned(s)
    case Truncated => Malformed
    case Reading(n, k) => if 0 <= n && 1 <= k <= |s| then Read(n, s[k..]) else Malformed
  }

  function ReadConst(s: seq<Byte>): (r: Read<int>)
    ensures r.Read? ==> |r.rest| < |s|
  {
    match ReadSigned(s)
    case Truncated => Malformed
    case Reading(n, k) => if 1 <= k <= |s| then Read(n, s[k..]) else Malformed
  }

  function ReadValType(b: Byte): Option<ValType> {
    if b == 0x7F then Some(I32)
    else if b == 0x7E then Some(I64)
    else if b == 0x7D then Some(F32)
    else if b == 0x7C then Some(F64)
    else if b == 0x70 then Some(FuncRef)
    else if b == 0x6F then Some(ExternRef)
    else None
  }

  /** A value type, or the index of a function type as a non-negative signed number. */
  function ReadBlockType(s: seq<Byte>): (r: Read<BlockType>)
    ensures r.Read? ==> |r.rest| < |s|
  {
    if s == [] then Malformed
    else if ReadValType(s[0]).Some? then Read(OfVal(ReadValType(s[0]).value), s[1..])
    else match ReadConst(s)
      case Malformed => Malformed
      case Read(n, rest) => if n >= 0 then Read(OfFunc(n), rest) else Malformed
  }

  /** The instructions that nest no others. */
  function ReadOp(s: seq<Byte>): (r: Read<Op>)
    requires s != []
    ensures r.Read? ==> |r.rest| < |s|
  {
    var b, t := s[0], s[1..];
    if b == 0x42 then match ReadConst(t) { case Malformed => Malformed case Read(n, rest) => Read(Const64(n), rest) }
    else if b == 0x7C then Read(Add64, t)
    else if b == 0x1A then Read(Drop, t)
    else if b == 0x0F then Read(Return, t)
    else if b == 0x01 then Read(Nop, t)
    else if b == 0x00 then Read(Unreachable, t)
    else match ReadIndex(t)
      case Malformed => Malformed
      case Read(n, rest) =>
        if b == 0x20 then Read(LocalGet(n), rest)
        else if b == 0x21 then Read(LocalSet(n), rest)
        else if b == 0x22 then Read(LocalTee(n), rest)
        else if b == 0x10 then Read(Call(n), rest)
        else if b == 0x0C then Read(Br(n), rest)
        else if b == 0x0D then Read(BrIf(n), rest)
        else Malformed
  }

  /** Instructions up to an `end` or an `else`, which is left in place. */
  function ReadItems(s: seq<Byte>): (r: Read<seq<Item>>)
    ensures r.Read? ==> |r.rest| <= |s|
    decreases |s|, 1
  {
    if s == [] then Malformed
    else if s[0] == 0x0B || s[0] == 0x05 then Read([], s)
    else match ReadItem(s)
      case Malformed => Malformed
      case Read(x, rest) =>
        match ReadItems(rest)
        case Malformed => Malformed
        case Read(xs, rest') => Read([x] + xs, rest')
  }

  function ReadItem(s: seq<Byte>): (r: Read<Item>)
    requires s != []
    ensures r.Read? ==> |r.rest| < |s|
    decreases |s|, 0
  {
    if s[0] == 0x02 || s[0] == 0x03 || s[0] == 0x04 then
      match ReadBlockType(s[1..])
      case Malformed => Malformed
      case Read(t, rest) =>
        match ReadItems(rest)
        case Malformed => Malformed
        case Read(xs, end) =>
          if end != [] && s[0] != 0x04 && end[0] == 0x0B then Read(Nest(s[0] == 0x03, t, Form(0, xs)), end[1..])
          else if end != [] && s[0] == 0x04 && end[0] == 0x0B then Read(Fork(t, Form(0, xs), Form(0, [])), end[1..])
          else if end != [] && s[0] == 0x04 then
            match ReadItems(end[1..])
            case Malformed => Malformed
            case Read(ys, last) =>
              if last != [] && last[0] == 0x0B then Read(Fork(t, Form(0, xs), Form(0, ys)), last[1..]) else Malformed
          else Malformed
    else
      match ReadOp(s)
      case Malformed => Malformed
      case Read(op, rest) => Read(Leaf(op), rest)
  }

  // ---------- what is kept by writing and reading ----------

  /** The instructions alone, without the places of their lists in the pool. */
  function Shape(x: Item): Item
    decreases x
  {
    match x
    case Leaf(op) => x
    case Nest(isLoop, t, body) => Nest(isLoop, t, Form(0, Shapes(body.items)))
    case Fork(t, yes, no) => Fork(t, Form(0, Shapes(yes.items)), Form(0, Shapes(no.items)))
  }

  function Shapes(items: seq<Item>): (s: seq<Item>)
    ensures |s| == |items|
    decreases items
  {
    if items == [] then [] else [Shape(items[0])] + Shapes(items[1..])
  }

  /** Function types used as block types have an index whose highest group of seven bits leaves its top bit clear. */
  predicate Readable(x: Item)
    decreases x
  {
    match x
    case Leaf(_) => true
    case Nest(_, t, body) => BlockTypeReadable(t) && AllReadable(body.items)
    case Fork(t, yes, no) => BlockTypeReadable(t) && AllReadable(yes.items) && AllReadable(no.items)
  }

  predicate AllReadable(items: seq<Item>)
    decreases items
  {
    items == [] || (Readable(items[0]) && AllReadable(items[1..]))
  }

  predicate BlockTypeReadable(t: BlockType) {
    t.OfFunc? ==> TopBitClear(t.index)
  }

  lemma {:induction false} UnsignedReadAsSignedWithRest(v: nat, rest: seq<Byte>)
    ensures ReadSigned(Unsigned(v)).Reading?
    ensures ReadSigned(Unsigned(v) + rest) == Reading(ReadSigned(Unsigned(v)).value, |Unsigned(v)|)
  {
    UnsignedReadAsSigned(v);
    if v >= 128 {
      UnsignedReadAsSignedWithRest(v / 128, rest);
      assert (Unsigned(v) + rest)[1..] == Unsigned(v / 128) + rest;
      assert Unsigned(v)[1..] == Unsigned(v / 128);
      UnsignedReadAsSigned(v / 128);
      UnsignedReadAsSignedWithRest(v / 128, []);
      assert Unsigned(v / 128) + [] == Unsigned(v / 128);
    }
  }

  /** A block type reads back as itself exactly when it is a value type or such an index: type 63 does, type 64 does
      not. */
  lemma BlockTypeReadsBackIff(t: BlockType, rest: seq<Byte>)
    ensures ReadBlockType(BlockTypeBytes(t) + rest) == Read(t, rest) <==> BlockTypeReadable(t)
  {
    match t
    case OfVal(_) =>
      assert (BlockTypeBytes(t) + rest)[1..] == rest;
    case OfFunc(v) =>
      var s := Unsigned(v) + rest;
      UnsignedReadAsSigned(v);
      UnsignedReadAsSignedWithRest(v, rest);
      assert s[|Unsigned(v)|..] == rest;
      assert v >= 128 ==> s[0] >= 128;
  }

  lemma IndexReadsBack(n: nat, rest: seq<Byte>)
    ensures ReadIndex(Unsigned(n) + rest) == Read(n, rest)
  {
    UnsignedReadsBack(n, rest);
    assert (Unsigned(n) + rest)[|Unsigned(n)|..] == rest;
  }

  lemma ConstReadsBack(n: int, rest: seq<Byte>)
    ensures ReadConst(Signed(n) + rest) == Read(n, rest)
  {
    SignedReadsBack(n, rest);
    assert (Signed(n) + rest)[|Signed(n)|..] == rest;
  }

  lemma OpReadsBack(op: Op, rest: seq<Byte>)
    ensures ReadOp(OpBytes(op) + rest) == Read(op, rest)
    ensures OpBytes(op)[0] !in {0x02, 0x03, 0x04, 0x05, 0x0B}
  {
    hide ReadIndex, ReadConst, Signed, Unsigned;
    assert (OpBytes(op) + rest)[1..] == OpBytes(op)[1..] + rest;
    match op
    case Const64(value) => ConstReadsBack(value, rest); assert OpBytes(op)[1..] == Signed(value);
    case LocalGet(n) => IndexReadsBack(n, rest); assert OpBytes(op)[1..] == Unsigned(n);
    case LocalSet(n) => IndexReadsBack(n, rest); assert OpBytes(op)[1..] == Unsigned(n);
    case LocalTee(n) => IndexReadsBack(n, rest); assert OpBytes(op)[1..] == Unsigned(n);
    case Call(n) => IndexReadsBack(n, rest); assert OpBytes(op)[1..] == Unsigned(n);
    case Br(n) => IndexReadsBack(n, rest); assert OpBytes(op)[1..] == Unsigned(n);
    case BrIf(n) => IndexReadsBack(n, rest); assert OpBytes(op)[1..] == Unsigned(n);
    case _ => assert OpBytes(op)[1..] + rest == rest;
  }

  /** Reading inverts writing on instruction lists, whatever follows their terminator. */
  lemma {:induction false} ItemsReadBack(items: seq<Item>, tail: seq<Byte>)
    requires AllReadable(items) && tail != [] && (tail[0] == 0x0B || tail[0] == 0x05)
    ensures ReadItems(FormBytes(items) + tail) == Read(Shapes(items), tail)
    decreases items, 1
  {
    if items == [] {
      assert FormBytes(items) + tail == tail;
    } else {
      hide ReadItem, ItemBytes, Shape;
      var rest := FormBytes(items[1..]) + tail;
      assert FormBytes(items) + tail == ItemBytes(items[0]) + rest;
      ItemsReadBack(items[1..], tail);
      ItemReadsBack(items[0], rest);
    }
  }

  lemma {:induction false} ItemReadsBack(x: Item, rest: seq<Byte>)
    requires Readable(x)
    ensures |ItemBytes(x)| > 0 && ItemBytes(x)[0] != 0x0B && ItemBytes(x)[0] != 0x05
    ensures ReadItem(ItemBytes(x) + rest) == Read(Shape(x), rest)
    decreases x, 1
  {
    match x
    case Leaf(op) => OpReadsBack(op, rest);
    case Nest(_, _, _) => NestReadsBack(x, rest);
    case Fork(_, _, _) => ForkReadsBack(x, rest);
  }

  lemma {:induction false} NestReadsBack(x: Item, rest: seq<Byte>)
    requires x.Nest? && Readable(x)
    ensures |ItemBytes(x)| > 0 && ItemBytes(x)[0] != 0x0B && ItemBytes(x)[0] != 0x05
    ensures ReadItem(ItemBytes(x) + rest) == Read(Shape(x), rest)
    decreases x, 0
  {
    hide FormBytes, BlockTypeBytes, ReadBlockType;
    var b: Byte := if x.isLoop then 0x03 else 0x02;
    var end := [0x0B] + rest;
    var body := FormBytes(x.body.items) + end;
    var s := ItemBytes(x) + rest;
    assert s == [b] + (BlockTypeBytes(x.blockType) + body);
    assert s[1..] == BlockTypeBytes(x.blockType) + body;
    BlockTypeReadsBackIff(x.blockType, body);
    ItemsReadBack(x.body.items, end);
    assert end[1..] == rest;
  }

  lemma {:induction false} ForkReadsBack(x: Item, rest: seq<Byte>)
    requires x.Fork? && Readable(x)
    ensures |ItemBytes(x)| > 0 && ItemBytes(x)[0] != 0x0B && ItemBytes(x)[0] != 0x05
    ensures ReadItem(ItemBytes(x) + rest) == Read(Shape(x), rest)
    decreases x, 0
  {
    hide FormBytes, BlockTypeBytes, ReadBlockType;
    var last := [0x0B] + rest;
    var no := FormBytes(x.no.items) + last;
    var end := if x.no.items == [] then last else [0x05] + no;
    var body := FormBytes(x.yes.items) + end;
    var s := ItemBytes(x) + rest;
    assert s == [0x04] + (BlockTypeBytes(x.blockType) + body);
    assert s[1..] == BlockTypeBytes(x.blockType) + body;
    BlockTypeReadsBackIff(x.blockType, body);
    ItemsReadBack(x.yes.items, end);
    ItemsReadBack(x.no.items, last);
    assert end[1..] == (if x.no.items == [] then rest else no) && last[1..] == rest;
  }

  /** The instructions of a function body read back up to the `end` that closes it. */
  lemma BodyReadsBack(x: Body)
    requires AllReadable(x.code.items)
    ensures var start := |Unsigned(x.fn.localsSize)| + |LocalsBytes(x.locals)|;
            && start <= |BodyBytes(x)|
            && ReadItems(BodyBytes(x)[start..]) == Read(Shapes(x.code.items), [0x0B])
  {
    hide LocalsBytes, FormBytes;
    var front := Unsigned(x.fn.localsSize) + LocalsBytes(x.locals);
    assert BodyBytes(x) == front + (FormBytes(x.code.items) + [0x0B]);
    ItemsReadBack(x.code.items, [0x0B]);
  }
}
