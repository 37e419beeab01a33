/** WebAssembly modules as the emitter sees them, and the bytes they stand for. */
module WasmSyntax {
  import opened Leb128

  datatype Option<T> = None | Some(value: T)

  datatype ValType = I32 | I64 | F32 | F64 | FuncRef | ExternRef

  /** A block is typed by a function type or by its single result. */
  datatype BlockType = OfFunc(index: nat) | OfVal(val: ValType)

  datatype Op =
    | Const64(value: int) | LocalGet(id: nat) | LocalSet(id: nat) | LocalTee(id: nat) | Call(id: nat)
    | Br(depth: nat) | BrIf(depth: nat) | Add64 | Drop | Return | Nop | Unreachable

  /** An instruction as stored in the pool: the lists it nests are named by their sentinels. */
  datatype Inst =
    | Plain(op: Op)
    | Block(isLoop: bool, blockType: BlockType, body: nat)
    | If(blockType: BlockType, yes: nat, no: nat)

  /** The instructions of a list, first to last, with the lists they nest. */
  datatype Form = Form(begin: nat, items: seq<Item>)

  datatype Item =
    | Leaf(op: Op)
    | Nest(isLoop: bool, blockType: BlockType, body: Form)
    | Fork(blockType: BlockType, yes: Form, no: Form)

  datatype FuncType = FuncType(domain: seq<ValType>, codomain: seq<ValType>)
  datatype Limits = Limits(min: nat, max: Option<nat>)
  datatype ImportDesc = ImportFunc(index: nat) | ImportMem(limits: Limits)
  datatype Import = Import(source: seq<Byte>, name: seq<Byte>, desc: ImportDesc)
  datatype ExportDesc = ExportFunc(id: nat) | ExportMem(id: nat)
  datatype Export = Export(name: seq<Byte>, desc: ExportDesc)

  /** A function as stored: its lists of locals and of instructions are named by their sentinels. */
  datatype Function = Function(index: nat, localsSize: nat, locals: nat, body: nat)
  datatype DataMode = Passive | Active(memory: nat, offset: nat)
  datatype Data = Data(mode: DataMode, init: seq<Byte>)

  datatype Module = Module(types: seq<FuncType>, imports: seq<Import>, funcs: seq<Function>, mems: seq<Limits>,
                           exports: seq<Export>, start: Option<nat>, datas: seq<Data>)

  /** What the lists of a function hold: its locals and its instructions. */
  datatype Body = Body(fn: Function, locals: seq<ValType>, code: Form)

  /** What the list of an active datum holds: the instructions that compute its offset. */
  datatype Datum = Datum(data: Data, offset: Form)

  datatype Contents = Contents(bodies: seq<Body>, datums: seq<Datum>)

  // ---------- bytes ----------

  function TypeByte(t: ValType): Byte {
    match t
    case I32 => 0x7F
    case I64 => 0x7E
    case F32 => 0x7D
    case F64 => 0x7C
    case FuncRef => 0x70
    case ExternRef => 0x6F
  }

  function TypeBytes(ts: seq<ValType>): seq<Byte> {
    seq(|ts|, i requires 0 <= i < |ts| => TypeByte(ts[i]))
  }

  function BlockTypeBytes(t: BlockType): seq<Byte> {
    match t
    case OfFunc(index) => Unsigned(index)
    case OfVal(val) => [TypeByte(val)]
  }

  function OpBytes(op: Op): (s: seq<Byte>)
    ensures |s| > 0
  {
    match op
    case Const64(value) => [0x42] + Signed(value)
    case LocalGet(id) => [0x20] + Unsigned(id)
    case LocalSet(id) => [0x21] + Unsigned(id)
    case LocalTee(id) => [0x22] + Unsigned(id)
    case Call(id) => [0x10] + Unsigned(id)
    case Br(depth) => [0x0C] + Unsigned(depth)
    case BrIf(depth) => [0x0D] + Unsigned(depth)
    case Add64 => [0x7C]
    case Drop => [0x1A]
    case Return => [0x0F]
    case Nop => [0x01]
    case Unreachable => [0x00]
  }

  function ItemBytes(x: Item): (s: seq<Byte>)
    decreases x
  {
    match x
    case Leaf(op) => OpBytes(op)
    case Nest(isLoop, t, body) =>
      [if isLoop then 0x03 else 0x02] + BlockTypeBytes(t) + FormBytes(body.items) + [0x0B]
    case Fork(t, yes, no) =>
      [0x04] + BlockTypeBytes(t) + FormBytes(yes.items)
      + (if no.items == [] then [] else [0x05] + FormBytes(no.items)) + [0x0B]
  }

  function FormBytes(items: seq<Item>): seq<Byte>
    decreases items
  {
    if items == [] then [] else ItemBytes(items[0]) + FormBytes(items[1..])
  }

  lemma {:induction false} FormBytesAppend(items: seq<Item>, x: Item)
    ensures FormBytes(items + [x]) == FormBytes(items) + ItemBytes(x)
    decreases |items|
  {
    if items == [] {
      assert items + [x] == [x] && [x][1..] == [];
    } else {
      assert (items + [x])[1..] == items[1..] + [x];
      FormBytesAppend(items[1..], x);
    }
  }

  lemma {:induction false} FormBytesSplit(items: seq<Item>, k: nat)
    requires k <= |items|
    ensures FormBytes(items) == FormBytes(items[..k]) + FormBytes(items[k..])
    decreases |items| - k
  {
    if k == |items| {
      assert items[..k] == items;
    } else {
      FormBytesSplit(items, k + 1);
      FormBytesAppend(items[..k], items[k]);
      assert items[..k + 1] == items[..k] + [items[k]];
      assert items[k..][0] == items[k] && items[k..][1..] == items[k + 1..];
      assert FormBytes(items[k..]) == ItemBytes(items[k]) + FormBytes(items[k + 1..]);
    }
  }

  /** One item more of a prefix. */
  lemma FormBytesStep(items: seq<Item>, k: nat)
    requires k < |items|
    ensures FormBytes(items[..k + 1]) == FormBytes(items[..k]) + ItemBytes(items[k])
    ensures |FormBytes(items[..k + 1])| <= |FormBytes(items)|
  {
    FormBytesSplit(items, k + 1);
    FormBytesAppend(items[..k], items[k]);
    assert items[..k + 1] == items[..k] + [items[k]];
  }

  // ---------- sections ----------

  const HEADER: seq<Byte> := [0x00, 0x61, 0x73, 0x6D, 0x01, 0x00, 0x00, 0x00]

  /** A size field of five bytes, then the bytes it counts; sizes are kept in 32 bits. */
  function Sized(s: seq<Byte>): seq<Byte> {
    Padding();
    Padded(|s| % U32, OBJ_SIZE) + s
  }

  lemma Padding()
    ensures forall n: nat :: n % U32 < Pow128(OBJ_SIZE)
  {
    Widths();
  }

  function Counted(n: nat, s: seq<Byte>): seq<Byte> {
    Unsigned(n) + s
  }

  function Bytes(s: seq<Byte>): seq<Byte> {
    Counted(|s|, s)
  }

  /** The encodings of the elements of a range, one after the other. */
  function Joined<T>(f: T -> seq<Byte>, s: seq<T>): seq<Byte> {
    if s == [] then [] else f(s[0]) + Joined(f, s[1..])
  }

  function ResultBytes(ts: seq<ValType>): seq<Byte> {
    Counted(|ts|, TypeBytes(ts))
  }

  function FuncTypeBytes(t: FuncType): seq<Byte> {
    [0x60] + ResultBytes(t.domain) + ResultBytes(t.codomain)
  }

  function LimitsBytes(l: Limits): seq<Byte> {
    match l.max
    case Some(max) => [0x01] + Unsigned(l.min) + Unsigned(max)
    case None => [0x00] + Unsigned(l.min)
  }

  function ImportBytes(x: Import): seq<Byte> {
    Bytes(x.source) + Bytes(x.name) +
    match x.desc
    case ImportFunc(index) => [0x00] + Unsigned(index)
    case ImportMem(limits) => [0x02] + LimitsBytes(limits)
  }

  function ExportBytes(x: Export): seq<Byte> {
    Bytes(x.name) +
    match x.desc
    case ExportFunc(id) => [0x00] + Unsigned(id)
    case ExportMem(id) => [0x02] + Unsigned(id)
  }

  /** Each local is a group of its own. */
  function LocalBytes(t: ValType): seq<Byte> {
    [0x01, TypeByte(t)]
  }

  function LocalsBytes(xs: seq<ValType>): seq<Byte> {
    Joined(LocalBytes, xs)
  }

  function BodyBytes(x: Body): seq<Byte> {
    Unsigned(x.fn.localsSize) + LocalsBytes(x.locals) + FormBytes(x.code.items) + [0x0B]
  }

  function SizedBody(x: Body): seq<Byte> {
    Sized(BodyBytes(x))
  }

  /** Bit 0 marks passive data, bit 1 a memory other than the first. The data themselves are written
      without their count. */
  function DatumBytes(x: Datum): seq<Byte> {
    match x.data.mode
    case Passive => [0x01] + x.data.init
    case Active(memory, _) =>
      (if memory == 0 then [0x00] else [0x02] + Unsigned(memory)) + FormBytes(x.offset.items) + [0x0B] + x.data.init
  }

  /** The contents belong to the functions and to the data of the module. */
  ghost predicate Fits(m: Module, c: Contents) {
    && |c.bodies| == |m.funcs| && (forall i :: 0 <= i < |m.funcs| ==> c.bodies[i].fn == m.funcs[i])
    && |c.datums| == |m.datas| && (forall i :: 0 <= i < |m.datas| ==> c.datums[i].data == m.datas[i])
  }

  datatype Section = Section(id: Byte, content: seq<Byte>)

  function IndexBytes(f: Function): seq<Byte> {
    Unsigned(f.index)
  }

  function TypesBytes(xs: seq<FuncType>): seq<Byte> {
    Joined(FuncTypeBytes, xs)
  }

  function ImportsBytes(xs: seq<Import>): seq<Byte> {
    Joined(ImportBytes, xs)
  }

  function FuncsBytes(xs: seq<Function>): seq<Byte> {
    Joined(IndexBytes, xs)
  }

  function MemsBytes(xs: seq<Limits>): seq<Byte> {
    Joined(LimitsBytes, xs)
  }

  function ExportsBytes(xs: seq<Export>): seq<Byte> {
    Joined(ExportBytes, xs)
  }

  function BodiesBytes(xs: seq<Body>): seq<Byte> {
    Joined(SizedBody, xs)
  }

  function DatumsBytes(xs: seq<Datum>): seq<Byte> {
    Joined(DatumBytes, xs)
  }

  function TypeSection(m: Module): seq<Section> {
    if m.types == [] then [] else [Section(1, Counted(|m.types|, TypesBytes(m.types)))]
  }

  function ImportSection(m: Module): seq<Section> {
    if m.imports == [] then [] else [Section(2, Counted(|m.imports|, ImportsBytes(m.imports)))]
  }

  function FuncSection(m: Module): seq<Section> {
    if m.funcs == [] then [] else [Section(3, Counted(|m.funcs|, FuncsBytes(m.funcs)))]
  }

  function MemSection(m: Module): seq<Section> {
    if m.mems == [] then [] else [Section(5, Counted(|m.mems|, MemsBytes(m.mems)))]
  }

  function ExportSection(m: Module): seq<Section> {
    if m.exports == [] then [] else [Section(7, Counted(|m.exports|, ExportsBytes(m.exports)))]
  }

  function StartSection(m: Module): seq<Section> {
    if m.start.None? then [] else [Section(8, Unsigned(m.start.value))]
  }

  function DataCountSection(m: Module): seq<Section> {
    if m.datas == [] then [] else [Section(12, Unsigned(|m.datas|))]
  }

  function CodeSection(c: Contents): seq<Section> {
    if c.bodies == [] then [] else [Section(10, Counted(|c.bodies|, BodiesBytes(c.bodies)))]
  }

  function DataSection(c: Contents): seq<Section> {
    if c.datums == [] then [] else [Section(11, Counted(|c.datums|, DatumsBytes(c.datums)))]
  }

  function SectionsOf(m: Module, c: Contents): seq<Section> {
    TypeSection(m) + ImportSection(m) + FuncSection(m) + MemSection(m) + ExportSection(m) + StartSection(m)
    + DataCountSection(m) + CodeSection(c) + DataSection(c)
  }

  function SectionsBytes(ss: seq<Section>): seq<Byte> {
    if ss == [] then [] else [ss[0].id] + Sized(ss[0].content) + SectionsBytes(ss[1..])
  }

  lemma {:induction false} SectionsBytesAppend(a: seq<Section>, b: seq<Section>)
    ensures SectionsBytes(a + b) == SectionsBytes(a) + SectionsBytes(b)
  {
    if a == [] {
      assert a + b == b;
    } else {
      assert (a + b)[1..] == a[1..] + b;
      SectionsBytesAppend(a[1..], b);
    }
  }

  lemma {:induction false} JoinedAppend<T>(f: T -> seq<Byte>, s: seq<T>, x: T)
    ensures Joined(f, s + [x]) == Joined(f, s) + f(x)
  {
    if s == [] {
      assert s + [x] == [x] && [x][1..] == [];
    } else {
      assert (s + [x])[1..] == s[1..] + [x];
      JoinedAppend(f, s[1..], x);
    }
  }

  lemma {:induction false} JoinedSplit<T>(f: T -> seq<Byte>, s: seq<T>, k: nat)
    requires k <= |s|
    ensures Joined(f, s) == Joined(f, s[..k]) + Joined(f, s[k..])
    decreases k
  {
    if k > 0 {
      JoinedSplit(f, s[1..], k - 1);
      assert s[..k][1..] == s[1..][..k - 1] && s[1..][k - 1..] == s[k..];
    } else {
      assert s[..0] == [] && s[0..] == s;
    }
  }

  /** One element more of a prefix. */
  lemma JoinedStep<T>(f: T -> seq<Byte>, s: seq<T>, k: nat)
    requires k < |s|
    ensures Joined(f, s[..k + 1]) == Joined(f, s[..k]) + f(s[k])
    ensures |Joined(f, s[..k + 1])| <= |Joined(f, s)|
  {
    JoinedSplit(f, s, k + 1);
    JoinedAppend(f, s[..k], s[k]);
    assert s[..k + 1] == s[..k] + [s[k]];
  }

  lemma LocalsNone()
    ensures LocalsBytes([]) == []
  {
  }

  lemma LocalsStep(xs: seq<ValType>, k: nat)
    requires k < |xs|
    ensures LocalsBytes(xs[..k + 1]) == LocalsBytes(xs[..k]) + LocalBytes(xs[k])
    ensures |LocalsBytes(xs[..k + 1])| <= |LocalsBytes(xs)|
  {
    JoinedStep(LocalBytes, xs, k);
  }

  lemma {:induction false} LocalsLength(xs: seq<ValType>)
    ensures |LocalsBytes(xs)| == 2 * |xs|
  {
    if xs != [] {
      LocalsLength(xs[1..]);
    }
  }

  lemma TypesNone()
    ensures TypesBytes([]) == []
  {
  }

  lemma TypesStep(xs: seq<FuncType>, k: nat)
    requires k < |xs|
    ensures TypesBytes(xs[..k + 1]) == TypesBytes(xs[..k]) + FuncTypeBytes(xs[k])
    ensures |TypesBytes(xs[..k + 1])| <= |TypesBytes(xs)|
  {
    JoinedStep(FuncTypeBytes, xs, k);
  }

  lemma ImportsNone()
    ensures ImportsBytes([]) == []
  {
  }

  lemma ImportsStep(xs: seq<Import>, k: nat)
    requires k < |xs|
    ensures ImportsBytes(xs[..k + 1]) == ImportsBytes(xs[..k]) + ImportBytes(xs[k])
    ensures |ImportsBytes(xs[..k + 1])| <= |ImportsBytes(xs)|
  {
    JoinedStep(ImportBytes, xs, k);
  }

  lemma FuncsNone()
    ensures FuncsBytes([]) == []
  {
  }

  lemma FuncsStep(xs: seq<Function>, k: nat)
    requires k < |xs|
    ensures FuncsBytes(xs[..k + 1]) == FuncsBytes(xs[..k]) + IndexBytes(xs[k])
    ensures |FuncsBytes(xs[..k + 1])| <= |FuncsBytes(xs)|
  {
    JoinedStep(IndexBytes, xs, k);
  }

  lemma MemsNone()
    ensures MemsBytes([]) == []
  {
  }

  lemma MemsStep(xs: seq<Limits>, k: nat)
    requires k < |xs|
    ensures MemsBytes(xs[..k + 1]) == MemsBytes(xs[..k]) + LimitsBytes(xs[k])
    ensures |MemsBytes(xs[..k + 1])| <= |MemsBytes(xs)|
  {
    JoinedStep(LimitsBytes, xs, k);
  }

  lemma ExportsNone()
    ensures ExportsBytes([]) == []
  {
  }

  lemma ExportsStep(xs: seq<Export>, k: nat)
    requires k < |xs|
    ensures ExportsBytes(xs[..k + 1]) == ExportsBytes(xs[..k]) + ExportBytes(xs[k])
    ensures |ExportsBytes(xs[..k + 1])| <= |ExportsBytes(xs)|
  {
    JoinedStep(ExportBytes, xs, k);
  }

  lemma BodiesNone()
    ensures BodiesBytes([]) == []
  {
  }

  lemma BodiesStep(xs: seq<Body>, k: nat)
    requires k < |xs|
    ensures BodiesBytes(xs[..k + 1]) == BodiesBytes(xs[..k]) + SizedBody(xs[k])
    ensures |BodiesBytes(xs[..k + 1])| <= |BodiesBytes(xs)|
  {
    JoinedStep(SizedBody, xs, k);
  }

  lemma DatumsNone()
    ensures DatumsBytes([]) == []
  {
  }

  lemma DatumsStep(xs: seq<Datum>, k: nat)
    requires k < |xs|
    ensures DatumsBytes(xs[..k + 1]) == DatumsBytes(xs[..k]) + DatumBytes(xs[k])
    ensures |DatumsBytes(xs[..k + 1])| <= |DatumsBytes(xs)|
  {
    JoinedStep(DatumBytes, xs, k);
  }

  function ModuleBytes(m: Module, c: Contents): seq<Byte> {
    HEADER + SectionsBytes(SectionsOf(m, c))
  }
}
