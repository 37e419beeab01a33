/** Reading data sections, after section 5.5.14 of the WebAssembly Core Specification: why no emitted one reads back. */
module WasmData {
  import opened Leb128
  import opened WasmSyntax
  import opened WasmCode

  /** A datum as the format has it: the memory of active data, the instructions of their offset, the bytes. */
  datatype Segment = Segment(memory: Option<nat>, offset: seq<Item>, init: seq<Byte>)

  function SegmentOf(x: Datum): Segment {
    match x.data.mode
    case Passive => Segment(None, [], x.data.init)
    case Active(memory, _) => Segment(Some(memory), Shapes(x.offset.items), x.data.init)
  }

  function SegmentsOf(xs: seq<Datum>): (ps: seq<Segment>)
    ensures |ps| == |xs|
  {
    if xs == [] then [] else [SegmentOf(xs[0])] + SegmentsOf(xs[1..])
  }

  // ---------- the reader ----------

  /** Bytes behind their count. */
  function ReadCounted(s: seq<Byte>): (r: Read<seq<Byte>>)
    ensures r.Read? ==> |r.rest| < |s|
  {
    match ReadIndex(s)
    case Malformed => Malformed
    case Read(n, rest) => if n <= |rest| then Read(rest[..n], rest[n..]) else Malformed
  }

  /** What stands in front of the bytes of a datum. */
  datatype Front = Front(memory: Option<nat>, offset: seq<Item>)

  /** Instructions, and the `end` that closes them. */
  function ReadOffset(s: seq<Byte>, memory: nat): Read<Front> {
    match ReadItems(s)
    case Malformed => Malformed
    case Read(items, end) =>
      if end == [] || end[0] != 0x0B then Malformed else Read(Front(Some(memory), items), end[1..])
  }

  /** The flags and, of active data, the memory and the offset. */
  function ReadFront(s: seq<Byte>): Read<Front> {
    if s == [] then Malformed
    else if s[0] == 0x01 then Read(Front(None, []), s[1..])
    else if s[0] == 0x00 then ReadOffset(s[1..], 0)
    else if s[0] == 0x02 then
      match ReadIndex(s[1..])
      case Malformed => Malformed
      case Read(memory, rest) => ReadOffset(rest, memory)
    else Malformed
  }

  function ReadDatum(s: seq<Byte>): Read<Segment> {
    match ReadFront(s)
    case Malformed => Malformed
    case Read(front, s') =>
      match ReadCounted(s')
      case Malformed => Malformed
      case Read(init, rest) => Read(Segment(front.memory, front.offset, init), rest)
  }

  /** `n` data, and nothing behind them. */
  function ReadDatums(s: seq<Byte>, n: nat): Option<seq<Segment>>
    decreases n
  {
    if n == 0 then (if s == [] then Some([]) else None)
    else match ReadDatum(s)
      case Malformed => None
      case Read(p, rest) =>
        match ReadDatums(rest, n - 1)
        case None => None
        case Some(ps) => Some([p] + ps)
  }

  // ---------- no encoding is shorter than the emitted one ----------

  lemma {:induction false} UnsignedIsShortest(s: seq<Byte>)
    requires ReadUnsigned(s).Reading?
    ensures ReadUnsigned(s).value >= 0 && |Unsigned(ReadUnsigned(s).value)| <= ReadUnsigned(s).length
  {
    if s[0] >= 128 {
      UnsignedIsShortest(s[1..]);
    }
  }

  lemma {:induction false} SignedIsShortest(s: seq<Byte>)
    requires ReadSigned(s).Reading?
    ensures |Signed(ReadSigned(s).value)| <= ReadSigned(s).length
  {
    if s[0] >= 128 {
      SignedIsShortest(s[1..]);
    }
  }

  lemma IndexIsShortest(s: seq<Byte>)
    requires ReadIndex(s).Read?
    ensures |s| >= |Unsigned(ReadIndex(s).value)| + |ReadIndex(s).rest|
  {
    UnsignedIsShortest(s);
  }

  lemma ConstIsShortest(s: seq<Byte>)
    requires ReadConst(s).Read?
    ensures |s| >= |Signed(ReadConst(s).value)| + |ReadConst(s).rest|
  {
    SignedIsShortest(s);
  }

  /** A non-negative number takes no fewer bytes signed than unsigned. */
  lemma {:induction false} SignedIsLonger(n: nat)
    ensures |Unsigned(n)| <= |Signed(n)|
  {
    if n >= 128 {
      SignedIsLonger(n / 128);
    }
  }

  lemma BlockTypeIsShortest(s: seq<Byte>)
    requires ReadBlockType(s).Read?
    ensures |s| >= |BlockTypeBytes(ReadBlockType(s).value)| + |ReadBlockType(s).rest|
  {
    if ReadValType(s[0]).None? {
      ConstIsShortest(s);
      SignedIsLonger(ReadConst(s).value);
    }
  }

  lemma OpIsShortest(s: seq<Byte>)
    requires s != [] && ReadOp(s).Read?
    ensures |s| >= |OpBytes(ReadOp(s).value)| + |ReadOp(s).rest|
  {
    hide ReadConst, ReadIndex, Signed, Unsigned;
    if s[0] == 0x42 {
      ConstIsShortest(s[1..]);
    } else if s[0] !in {0x7C, 0x1A, 0x0F, 0x01, 0x00} {
      IndexIsShortest(s[1..]);
    }
  }

  lemma {:induction false} ItemsAreShortest(s: seq<Byte>)
    requires ReadItems(s).Read?
    ensures |s| >= |FormBytes(ReadItems(s).value)| + |ReadItems(s).rest|
    decreases |s|, 1
  {
    hide ReadItem, ItemBytes;
    if s[0] != 0x0B && s[0] != 0x05 {
      ItemIsShortest(s);
      var rest := ReadItem(s).rest;
      ItemsAreShortest(rest);
      var x, xs := ReadItem(s).value, ReadItems(rest).value;
      assert ([x] + xs)[1..] == xs;
    }
  }

  lemma {:induction false} ItemIsShortest(s: seq<Byte>)
    requires s != [] && ReadItem(s).Read?
    ensures |s| >= |ItemBytes(ReadItem(s).value)| + |ReadItem(s).rest|
    decreases |s|, 0
  {
    hide ReadItems, ReadBlockType, BlockTypeBytes, FormBytes, ReadOp, OpBytes;
    if s[0] == 0x02 || s[0] == 0x03 || s[0] == 0x04 {
      BlockTypeIsShortest(s[1..]);
      var rest := ReadBlockType(s[1..]).rest;
      ItemsAreShortest(rest);
      var end := ReadItems(rest).rest;
      if s[0] == 0x04 && end[0] != 0x0B {
        ItemsAreShortest(end[1..]);
      }
    } else {
      OpIsShortest(s);
    }
  }

  // ---------- lengths ----------

  /** How many bytes the emitter writes for a datum. */
  function Length(p: Segment): nat {
    match p.memory
    case None => 1 + |p.init|
    case Some(memory) => (if memory == 0 then 1 else 1 + |Unsigned(memory)|) + |FormBytes(p.offset)| + 1 + |p.init|
  }

  function Lengths(ps: seq<Segment>): nat {
    if ps == [] then 0 else Length(ps[0]) + Lengths(ps[1..])
  }

  lemma {:induction false} ShapesAreAsLong(items: seq<Item>)
    ensures |FormBytes(Shapes(items))| == |FormBytes(items)|
    decreases items
  {
    if items != [] {
      ShapeIsAsLong(items[0]);
      ShapesAreAsLong(items[1..]);
    }
  }

  lemma {:induction false} ShapeIsAsLong(x: Item)
    ensures |ItemBytes(Shape(x))| == |ItemBytes(x)|
    decreases x
  {
    match x
    case Leaf(_) =>
    case Nest(_, _, body) => ShapesAreAsLong(body.items);
    case Fork(_, yes, no) =>
      ShapesAreAsLong(yes.items);
      ShapesAreAsLong(no.items);
  }

  lemma {:induction false} DatumsAreAsLong(xs: seq<Datum>)
    ensures |DatumsBytes(xs)| == Lengths(SegmentsOf(xs))
  {
    if xs != [] {
      ShapesAreAsLong(xs[0].offset.items);
      hide FormBytes, Shapes;
      assert |DatumBytes(xs[0])| == Length(SegmentOf(xs[0]));
      assert DatumsBytes(xs) == DatumBytes(xs[0]) + DatumsBytes(xs[1..]);
      DatumsAreAsLong(xs[1..]);
    }
  }

  /** A reader takes the count of the bytes on top of what the emitter wrote. */
  lemma CountIsExtra(s: seq<Byte>)
    requires ReadCounted(s).Read?
    ensures |s| >= 1 + |ReadCounted(s).value| + |ReadCounted(s).rest|
  {
  }

  lemma OffsetIsShortest(s: seq<Byte>, memory: nat)
    requires ReadOffset(s, memory).Read?
    ensures var front := ReadOffset(s, memory).value;
            front.memory == Some(memory) && |s| >= |FormBytes(front.offset)| + 1 + |ReadOffset(s, memory).rest|
  {
    hide ReadItems, FormBytes;
    ItemsAreShortest(s);
  }

  lemma FrontIsShortest(s: seq<Byte>)
    requires ReadFront(s).Read?
    ensures var front := ReadFront(s).value;
            |s| >= Length(Segment(front.memory, front.offset, [])) + |ReadFront(s).rest|
  {
    hide ReadOffset, ReadIndex, FormBytes;
    if s[0] == 0x00 {
      OffsetIsShortest(s[1..], 0);
    } else if s[0] == 0x02 {
      IndexIsShortest(s[1..]);
      OffsetIsShortest(ReadIndex(s[1..]).rest, ReadIndex(s[1..]).value);
    }
  }

  lemma DatumIsLonger(s: seq<Byte>)
    requires ReadDatum(s).Read?
    ensures |s| >= Length(ReadDatum(s).value) + 1 + |ReadDatum(s).rest|
  {
    hide ReadFront, ReadCounted, FormBytes;
    FrontIsShortest(s);
    CountIsExtra(ReadFront(s).rest);
  }

  lemma {:induction false} DatumsAreLonger(s: seq<Byte>, n: nat)
    requires ReadDatums(s, n).Some?
    ensures |ReadDatums(s, n).value| == n && |s| >= Lengths(ReadDatums(s, n).value) + n
    decreases n
  {
    hide ReadDatum, Length;
    if n > 0 {
      DatumIsLonger(s);
      DatumsAreLonger(ReadDatum(s).rest, n - 1);
      var p, ps := ReadDatum(s).value, ReadDatums(ReadDatum(s).rest, n - 1).value;
      assert ([p] + ps)[1..] == ps;
    }
  }

  // ---------- what is kept ----------

  lemma OffsetReadsBack(items: seq<Item>, rest: seq<Byte>, memory: nat)
    requires AllReadable(items)
    ensures ReadOffset(FormBytes(items) + [0x0B] + rest, memory) == Read(Front(Some(memory), Shapes(items)), rest)
  {
    hide ReadItems, FormBytes, Shapes;
    var end: seq<Byte> := [0x0B] + rest;
    ItemsReadBack(items, end);
    assert FormBytes(items) + [0x0B] + rest == FormBytes(items) + end && end[1..] == rest;
  }

  /** What the emitter writes in front of the bytes of a datum reads back as its mode, its memory and the instructions
      of its offset, and leaves just the bytes. */
  lemma FrontReadsBack(x: Datum)
    requires x.data.mode.Active? ==> AllReadable(x.offset.items)
    ensures var p := SegmentOf(x); ReadFront(DatumBytes(x)) == Read(Front(p.memory, p.offset), x.data.init)
  {
    hide ReadOffset, ReadIndex, FormBytes, Shapes;
    match x.data.mode
    case Passive =>
    case Active(memory, _) =>
      var tail := FormBytes(x.offset.items) + [0x0B] + x.data.init;
      OffsetReadsBack(x.offset.items, x.data.init, memory);
      if memory == 0 {
        assert DatumBytes(x) == [0x00] + tail && DatumBytes(x)[1..] == tail;
      } else {
        IndexReadsBack(memory, tail);
        assert DatumBytes(x) == [0x02] + (Unsigned(memory) + tail) && DatumBytes(x)[1..] == Unsigned(memory) + tail;
      }
  }

  // ---------- what is lost ----------

  /** The emitter writes the bytes of its data without their counts, so data read back as themselves exactly when there
      are none. */
  lemma DataReadBackIff(xs: seq<Datum>)
    ensures ReadDatums(DatumsBytes(xs), |xs|) == Some(SegmentsOf(xs)) <==> xs == []
  {
    hide ReadDatum, DatumBytes, Length;
    if xs == [] {
      assert DatumsBytes(xs) == [];
    } else if ReadDatums(DatumsBytes(xs), |xs|) == Some(SegmentsOf(xs)) {
      DatumsAreLonger(DatumsBytes(xs), |xs|);
      DatumsAreAsLong(xs);
    }
  }

  /** Data can be cut at every byte that looks like the flags of passive ones. */
  lemma DataAreAmbiguous(u: seq<Byte>, v: seq<Byte>, w: seq<Byte>)
    ensures var a := [Datum(Data(Passive, u), Form(0, [])), Datum(Data(Passive, v + [0x01] + w), Form(0, []))];
            var b := [Datum(Data(Passive, u + [0x01] + v), Form(0, [])), Datum(Data(Passive, w), Form(0, []))];
            SegmentsOf(a) != SegmentsOf(b) && DatumsBytes(a) == DatumsBytes(b)
  {
    var a := [Datum(Data(Passive, u), Form(0, [])), Datum(Data(Passive, v + [0x01] + w), Form(0, []))];
    var b := [Datum(Data(Passive, u + [0x01] + v), Form(0, [])), Datum(Data(Passive, w), Form(0, []))];
    TwoDatums(a[0], a[1]);
    TwoDatums(b[0], b[1]);
    assert SegmentsOf(a)[0].init == u && SegmentsOf(b)[0].init == u + [0x01] + v;
    assert |SegmentsOf(a)[0].init| < |SegmentsOf(b)[0].init|;
  }

  lemma TwoDatums(x: Datum, y: Datum)
    ensures DatumsBytes([x, y]) == DatumBytes(x) + DatumBytes(y)
  {
    hide DatumBytes;
    assert [x, y][1..] == [y] && [y][1..] == [];
    assert DatumsBytes([y]) == DatumBytes(y) + DatumsBytes([]);
  }
}
